# gframe in Dafny

gframe is a small GTK+ 2 "photo frame": a borderless window, kept below
other windows, that shows one picture. It remembers the picture's path and
the window's position in a key file, `frame.conf`, in the user's
configuration directory. A right-click menu offers Open (choose another
picture) and Quit.

This project models the logic of `gframe.c` that is the program's own:

- **Scale** (`scale.dfy`). The decision in `f_get_pixbuf_at_scale`: from the
  probed width and height, pick one of three GdkPixbuf calls or none. The
  choices are: load at `scale` along the longer side, load at native size,
  or return NULL.
- **KeyFile** (`keyfile.dfy`). The config file as seen by the program:
  missing, present but unreadable, or loaded into a map from (group, key) to
  a string or integer value. It also models the load-set-write of
  `f_set_config` and the same inline step in `callback_destroy`.
- **Button** (`button.dfy`). The `callback_button` filter: only a single
  press of button 3 pops up the menu and consumes the event.
- **Handlers** (`handlers.dfy`). The program state (`wx`, `wy`, the config
  file, where the window was last placed) and each handler as a function on
  it. It covers `f_get_photo_path`, `main` up to `gtk_main`, and the event
  loop as a fold over a sequence of dispatched signals that stops at the
  first Quit. The lemmas by induction over such sequences state what the
  program promises across events: a drag followed by a quit persists the
  last position, a restart restores it, and a chosen photo survives a
  restart.
- **Frame** (`frame.dfy`). The same state as a class. Its fields are `wx`,
  `wy`, the cached config path, the config file and the window placement.
  Its methods are the handlers, and each one is proved to agree with its
  function in Handlers.

Where the model takes an input, it stands for the outside world:

- the file dialog's answer is an `Option<string>`;
- whether `fopen(path, "w")` succeeds is a `bool`;
- the probed image size is two `int`s;
- the window position reported by `gtk_window_get_position` is a `Pos`.

In this revision:

- The config file is `frame.conf` in the user's configuration directory
  (gframe.c:238-239).
- The size threshold in `f_get_pixbuf_at_scale` is the literal 300
  (gframe.c:190), independent of the `scale` argument. Both call sites pass
  300 (gframe.c:68, 124).
- The only keys are `preferences.photo_path`, `preferences.x` and
  `preferences.y`.
- `callback_open` writes only `photo_path`. It sets `wx`/`wy` from the
  window's current position but does not write `x`/`y` (gframe.c:127, 139).
- A config file that exists but has no readable `photo_path` gives NULL from
  `f_get_photo_path`, so `main` exits with status 1 (gframe.c:212-219, 63;
  see `LostPhotoPathLocksOut`).
- Positions are saved only by `callback_destroy`, which runs for the Quit
  menu item and for the window's "destroy" signal (gframe.c:76, 84). No
  termination-signal handler is installed, so a process killed by a signal
  saves nothing. In the model that is an event sequence that ends without a
  `Quit` event.

## Model

| member | source | states |
|---|---|---|
| Scale.PixbufRequest | gframe.c:183-202 | Either side above 300 gives a scaled request with the aspect kept: `(scale, -1)` when width >= height, `(-1, scale)` when width < height. Both sides in 1..300 gives native size. Otherwise there is no image. The inner test is proved exhaustive, so the pixbuf is always assigned. |
| Scale.CallSitesNeverEnlarge | gframe.c:190-196 | With the scale of 300 used at both call sites, a scaled request asks for strictly less than the native size of the side it constrains, and a native load happens only when both sides are at most 300. |
| Button.HandleButton | gframe.c:96-113 | The event is consumed exactly when the menu pops up. That happens exactly for a non-NULL single press of button 3, and the popup gets that button and the event's time. |
| KeyFile.SetString | gframe.c:260-277 | When fopen fails, the file is unchanged. Otherwise the file loads, the key reads back as the written string, the keys are the old keys (none if the load failed) plus this one, and every other key keeps its value. |
| KeyFile.StorePosition | gframe.c:150-162 | When fopen fails, the file is unchanged. Otherwise x and y read back as the given integers and every other loaded key is kept. |
| KeyFile.SetStringTwice | gframe.c:266-272 | Last writer wins: writing a key twice gives the same file as writing it once with the second value. |
| KeyFile.SetStringCommutes | gframe.c:266-272 | Successful writes of two different keys give the same file in either order. |
| Handlers.AfterMove | gframe.c:143-147 | wx/wy become the event's x/y. The config file and the window placement are untouched. |
| Handlers.AfterSetPosition | gframe.c:279-299 | With `same` false, wx/wy come from preferences.x/.y (0 if missing) when the file loads, and keep their values when it does not. With `same` true they come from the window's reported position. Either way the window is moved to (wx, wy) and the file is untouched. |
| Handlers.AfterDestroy | gframe.c:149-165 | wx/wy are unchanged. On a successful write the file holds x=wx and y=wy as integers, its keys are the loaded keys plus x and y, and every other loaded key is kept. On a failed write the file is unchanged. |
| Handlers.AfterOpen | gframe.c:115-141 | A cancelled dialog changes nothing. An accepted path is stored as photo_path (it reads back after a successful write) and wx/wy and the placement become the window's current position. |
| Handlers.ResolvePhoto | gframe.c:204-231 | The dialog is shown exactly when there is no config file. An existing file is never changed, and it yields its photo_path (NULL if unreadable or absent). A cancelled dialog gives NULL and writes nothing. An accepted path is returned, and after a successful write the new file holds exactly that photo_path. |
| Handlers.Launched | gframe.c:58-94 | The launch exits with status 1 exactly when no photo path resolves, and then no state changes. Otherwise the photo is shown with the request for scale 300, and the window is placed at preferences.x/.y of the resulting file (0,0 when absent or unloadable, from a fresh process). |
| Handlers.Run | gframe.c:82-91 | An existing config file never disappears over a session, and a loadable one stays loadable. |
| Handlers.QuitEndsSession | gframe.c:149-165 | After the first Quit the loop has stopped: events after it change nothing. |
| Handlers.DragOnlyTracks | gframe.c:143-147 | A drag (a run of move notifications) leaves the state as it was except wx/wy, which end at the last notification. |
| Handlers.DragThenQuit | gframe.c:149-165 | After a drag and a quit whose write succeeds, the file holds the last dragged-to x and y, and every key it held before. |
| Handlers.PhotoKeptWithoutOpen | gframe.c:127 | Without an Open event, photo_path reads the same after any run of events. |
| Handlers.RestartRestoresPosition | gframe.c:279-299 | After a drag and a successful quit, the next launch shows the same photo without the dialog and places the window where the drag ended. |
| Handlers.ChosenPhotoShownOnRestart | gframe.c:212-219 | A photo chosen through Open, and written successfully, is the photo shown at the next launch, whatever events follow short of another Open. |
| Handlers.FirstRun | gframe.c:220-228 | First run with no config file, a chosen path and a successful write: a file holding only `preferences.photo_path`, the window at (0,0), and the photo shown. |
| Handlers.LostPhotoPathLocksOut | gframe.c:204-231 | Suppose the first run's photo_path write fails but the quit-time write succeeds. Then the file holds x and y only, and every later launch exits with status 1 without showing the dialog. |
| Frame.Frame.constructor | gframe.c:56 | A new process starts with wx = wy = 0, no cached config path and no placement. |
| Frame.Frame.GetConfigPath | gframe.c:233-241 | The path is computed on the first call only. Afterwards the cached value is returned unchanged. |
| Frame.Frame.SetConfig | gframe.c:260-277 | Returns TRUE exactly when fopen succeeds. The file becomes `SetString` of the old file. |
| Frame.Frame.Move | gframe.c:143-147 | The fields change as `AfterMove` says. |
| Frame.Frame.Destroy | gframe.c:149-165 | The fields change as `AfterDestroy` says, and the config path is cached. |
| Frame.Frame.SetPosition | gframe.c:279-299 | The fields change as `AfterSetPosition` says. |
| Frame.Frame.Open | gframe.c:115-141 | Returns FALSE exactly for a cancelled dialog, and otherwise the scale-300 request for the new image. The fields change as `AfterOpen` says. |
| Frame.Frame.GetPhotoPath | gframe.c:204-231 | Returns the photo path of `ResolvePhoto` and leaves its file on disk. |
| Frame.Frame.Start | gframe.c:58-94 | The outcome and the new fields are those of `Launched`. |

## Left out

- Widget construction, the menu, container set-up, window hints, `gtk_init`
  and `f_get_main_window`'s cached window (gframe.c:65-90, 243-258) are
  toolkit calls. The event loop is reduced to the order in which it
  dispatches handlers (`Handlers.Run`).
- The file-chooser dialog (`f_get_photo_path_from_dialog`) is modelled only
  by its answer, an `Option<string>`.
- GdkPixbuf probing, decoding and resampling are foreign calls. Only the
  requested arguments are modelled, not the output size or its rounding.
- Scale.PixbufRequest: when `gdk_pixbuf_get_file_info` fails, the source
  reads uninitialised `width`/`height`. The model takes the probed size as
  an input. It also does not model 32-bit overflow of `width - height`,
  which the probe's real sizes cannot reach.
- The INI text format, GKeyFile parsing and `fputs` are abstracted as a
  tagged map. A failed load is modelled as an empty store.
- KeyFile.GetString and KeyFile.GetInteger: a string key read as an integer
  gives 0, and an integer key read as a string gives NULL. GKeyFile would
  instead parse or print the decimal text. This program never reads a key
  with the other kind.
- `wx`, `wy` and the event coordinates are `gint` in the source and
  unbounded integers here.
- `f_set_config` takes a path argument. Every call passes the config path,
  so the model has a single config file.
- `ConfigFileName` joins with a plain `/` and does not model
  `g_build_filename`'s merging of repeated separators.
- Resizing the window to the new image in `callback_open`, which reads the
  width and height of a pixbuf already released with `g_object_unref`
  (gframe.c:130, 135-136), is a memory-lifetime defect outside a
  value-level model. So is the unref of a NULL pixbuf in `main`.
- `main` returning 0 after `gtk_main` ends is not part of `Outcome`.
- `f_print` debug output is compiled out.
- Handlers.ResolvePhoto: on a first run (no config file) `main` calls
  `f_get_photo_path` (gframe.c:61), which runs the GTK file chooser
  (gframe.c:221, 171-176) before `gtk_init` (gframe.c:65). GTK requires
  `gtk_init` before other GTK calls, so the dialog may fail or crash there.
  The model assumes the dialog runs and returns an answer. `FirstRun` and
  `LostPhotoPathLocksOut` describe that assumed first run.
- KeyFile.SetString: paths that are not valid UTF-8 are outside the model,
  because its strings are Unicode. `gtk_file_chooser_get_filename`
  (gframe.c:177) returns a path in the file-system encoding, and it is
  stored with `g_key_file_set_string` (gframe.c:127, 226). For such a path
  `g_key_file_get_string` (gframe.c:218) returns NULL, so the photo is lost
  and every later launch exits with status 1 (gframe.c:63). The read-back
  of `SetString` and `ChosenPhotoShownOnRestart` hold only for paths the
  model can represent.
