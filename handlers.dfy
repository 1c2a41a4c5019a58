/**
 * The state gframe keeps between events, and what each signal handler, the
 * startup path and the event loop do to it, as functions on values. The class
 * in frame.dfy performs the same steps by updating fields, and is proved to
 * agree with these functions.
 */
module Handlers {
  import opened Wrappers
  import opened KeyFile
  import opened Scale
  import Button

  /** A window position on screen. */
  datatype Pos = Pos(x: int, y: int)

  /**
   * wx and wy are the program's position-tracking globals; `file` is the
   * config file on disk; `placedAt` is where gtk_window_move last put the
   * window (None before the first move).
   */
  datatype State = State(wx: int, wy: int, file: ConfigFile, placedAt: Option<Pos>)

  /** A freshly started process: wx and wy are static, hence zero. */
  function Initial(f: ConfigFile): State {
    State(0, 0, f, None)
  }

  /** callback_move: track the reported position; the config file is not touched. */
  function AfterMove(s: State, x: int, y: int): (r: State)
    ensures r.wx == x && r.wy == y
    ensures r.file == s.file && r.placedAt == s.placedAt
  {
    s.(wx := x, wy := y)
  }

  /**
   * f_set_position. With `same` false, wx and wy are read from the config
   * file's preferences.x and preferences.y when it loads, and kept as they
   * were when it does not; with `same` true they become `current`, the
   * window's position as the toolkit reports it (not consulted otherwise).
   * Either way the window is then moved to (wx, wy).
   */
  function AfterSetPosition(s: State, same: bool, current: Pos): (r: State)
    ensures r.file == s.file
    ensures r.placedAt == Some(Pos(r.wx, r.wy))
    ensures same ==> Pos(r.wx, r.wy) == current
    ensures !same && s.file.Present? ==>
      r.wx == GetInteger(s.file.store, XKey) && r.wy == GetInteger(s.file.store, YKey)
    ensures !same && !s.file.Present? ==> r.wx == s.wx && r.wy == s.wy
  {
    var p :=
      if same then current
      else match Load(s.file)
        case None => Pos(s.wx, s.wy)
        case Some(st) => Pos(GetInteger(st, XKey), GetInteger(st, YKey));
    s.(wx := p.x, wy := p.y, placedAt := Some(p))
  }

  /**
   * callback_destroy: preferences.x and preferences.y receive wx and wy in one
   * load-set-write; every other loaded key is written back unchanged.
   */
  function AfterDestroy(s: State, writable: bool): (r: State)
    ensures r.wx == s.wx && r.wy == s.wy && r.placedAt == s.placedAt
    ensures !writable ==> r.file == s.file
    ensures writable ==> r.file.Present?
    ensures writable ==> GetInteger(r.file.store, XKey) == s.wx && GetInteger(r.file.store, YKey) == s.wy
    ensures writable ==> XKey in r.file.store && r.file.store[XKey] == Int(s.wx)
    ensures writable ==> YKey in r.file.store && r.file.store[YKey] == Int(s.wy)
    ensures writable ==> r.file.store.Keys == Loaded(s.file).Keys + {XKey, YKey}
    ensures writable ==> AgreeOutside(r.file.store, Loaded(s.file), {XKey, YKey})
  {
    s.(file := StorePosition(s.file, s.wx, s.wy, writable))
  }

  /**
   * callback_open after the dialog: a cancelled dialog changes nothing; an
   * accepted path is stored as preferences.photo_path and the position is
   * taken from the window (f_set_position(TRUE)); x and y are not written.
   */
  function AfterOpen(s: State, choice: Option<string>, writable: bool, current: Pos): (r: State)
    ensures choice.None? ==> r == s
    ensures choice.Some? ==> r.wx == current.x && r.wy == current.y && r.placedAt == Some(current)
    ensures choice.Some? ==> r.file == SetString(s.file, PhotoPathKey, choice.value, writable)
    ensures choice.Some? && writable ==> GetString(Loaded(r.file), PhotoPathKey) == choice
  {
    match choice
    case None => s
    case Some(path) => AfterSetPosition(s.(file := SetString(s.file, PhotoPathKey, path, writable)), true, current)
  }

  /** What f_get_photo_path returns, the config file afterwards, and whether the file dialog was shown. */
  datatype PhotoLookup = PhotoLookup(photo: Option<string>, file: ConfigFile, askedUser: bool)

  /**
   * f_get_photo_path. An existing config file decides alone: its photo_path,
   * or NULL when it cannot be read or has none. Only when there is no config
   * file is the dialog shown (its answer is `choice`); a cancelled dialog
   * writes nothing, an accepted path is stored before it is returned.
   */
  function ResolvePhoto(f: ConfigFile, choice: Option<string>, writable: bool): (r: PhotoLookup)
    ensures r.askedUser <==> !Exists(f)
    ensures !r.askedUser ==> r.file == f && r.photo == GetString(Loaded(f), PhotoPathKey)
    ensures f.Unreadable? ==> r.photo.None?
    ensures r.askedUser ==> r.photo == choice
    ensures r.photo.None? ==> r.file == f
    ensures r.askedUser && choice.Some? ==> r.file == SetString(f, PhotoPathKey, choice.value, writable)
    ensures r.askedUser && choice.Some? && writable ==> r.file == Present(map[PhotoPathKey := Str(choice.value)])
  {
    if Exists(f) then
      match Load(f)
      case None => PhotoLookup(None, f, false)
      case Some(st) => PhotoLookup(GetString(st, PhotoPathKey), f, false)
    else
      match choice
      case None => PhotoLookup(None, f, true)
      case Some(path) => PhotoLookup(choice, SetString(f, PhotoPathKey, path, writable), true)
  }

  /** How main ends up: exit status 1, or the frame shown with a photo and an image request. */
  datatype Outcome = ExitWith(code: int) | Shown(photo: string, image: PixbufLoad)

  datatype Launch = Launch(outcome: Outcome, state: State)

  /**
   * main up to gtk_main: resolve the photo path (exit status 1 when there is
   * none), request the image at scale 300, restore the position from the
   * config file (f_set_position(FALSE)). Toolkit set-up is left out.
   */
  function Launched(s: State, choice: Option<string>, writable: bool, width: int, height: int): (r: Launch)
    ensures r.outcome.ExitWith? <==> ResolvePhoto(s.file, choice, writable).photo.None?
    ensures r.outcome.ExitWith? ==> r.outcome.code == 1 && r.state == s
    ensures r.outcome.Shown? ==> Some(r.outcome.photo) == ResolvePhoto(s.file, choice, writable).photo
    ensures r.outcome.Shown? ==> r.outcome.image == PixbufRequest(width, height, 300)
    ensures r.outcome.Shown? ==> r.state.placedAt == Some(Pos(r.state.wx, r.state.wy))
    ensures r.state.file == ResolvePhoto(s.file, choice, writable).file
    ensures r.outcome.Shown? && s.wx == 0 && s.wy == 0 ==>
      r.state.wx == GetInteger(Loaded(r.state.file), XKey) && r.state.wy == GetInteger(Loaded(r.state.file), YKey)
  {
    var lookup := ResolvePhoto(s.file, choice, writable);
    var s' := s.(file := lookup.file);
    match lookup.photo
    case None => Launch(ExitWith(1), s')
    case Some(path) => Launch(Shown(path, PixbufRequest(width, height, 300)), AfterSetPosition(s', false, Pos(s.wx, s.wy)))
  }

  /** The signals gtk_main dispatches to gframe's handlers, with the outcome of anything they ask the outside world. */
  datatype Event =
      /** "configure-event": callback_move */
    | Configure(x: int, y: int)
      /** "button_press_event": callback_button (pops up the menu, changes no state) */
    | Press(event: Option<Button.GdkEvent>)
      /** the Open menu item: callback_open with the dialog's answer, fopen's outcome and the window's position */
    | OpenPhoto(choice: Option<string>, writable: bool, current: Pos)
      /** the Quit menu item or the window's "destroy": callback_destroy, then gtk_main_quit.
          No signal handler is installed, so a process killed by a signal is a
          sequence that simply ends without a Quit: nothing is saved. */
    | Quit(writable: bool)

  /** One handler that lets the event loop go on. */
  function Step(s: State, e: Event): State
    requires !e.Quit?
  {
    match e
    case Configure(x, y) => AfterMove(s, x, y)
    case Press(_) => s
    case OpenPhoto(choice, writable, current) => AfterOpen(s, choice, writable, current)
  }

  /**
   * gtk_main: the events are handled in order until the first Quit, whose
   * handler calls gtk_main_quit, so nothing after it is dispatched. A config
   * file that exists never disappears, and one that loads keeps loading.
   */
  function Run(s: State, events: seq<Event>): (r: State)
    ensures Exists(s.file) ==> Exists(r.file)
    ensures s.file.Present? ==> r.file.Present?
    decreases |events|
  {
    if events == [] then s
    else if events[0].Quit? then AfterDestroy(s, events[0].writable)
    else Run(Step(s, events[0]), events[1..])
  }

  ghost predicate NoQuit(events: seq<Event>) {
    forall i :: 0 <= i < |events| ==> !events[i].Quit?
  }

  ghost predicate NoOpen(events: seq<Event>) {
    forall i :: 0 <= i < |events| ==> !events[i].OpenPhoto?
  }

  /** A drag: nothing but move notifications. */
  ghost predicate IsDrag(events: seq<Event>) {
    |events| > 0 && forall i :: 0 <= i < |events| ==> events[i].Configure?
  }

  /** Running two stretches of events one after the other, when the first has no Quit. */
  lemma {:induction false} RunConcat(s: State, a: seq<Event>, b: seq<Event>)
    requires NoQuit(a)
    ensures Run(s, a + b) == Run(Run(s, a), b)
    decreases |a|
  {
    if a == [] {
      assert a + b == b;
    } else {
      assert (a + b)[0] == a[0];
      assert (a + b)[1..] == a[1..] + b;
      RunConcat(Step(s, a[0]), a[1..], b);
    }
  }

  /** Once a Quit has been handled, the event loop has stopped: later events change nothing. */
  lemma {:induction false} QuitEndsSession(s: State, before: seq<Event>, writable: bool, after: seq<Event>)
    requires NoQuit(before)
    ensures Run(s, before + [Quit(writable)] + after) == Run(s, before + [Quit(writable)])
  {
    assert before + [Quit(writable)] + after == before + ([Quit(writable)] + after);
    RunConcat(s, before, [Quit(writable)] + after);
    RunConcat(s, before, [Quit(writable)]);
  }

  /** A drag only tracks the position: wx and wy end at the last notification, nothing else changes. */
  lemma {:induction false} DragOnlyTracks(s: State, drag: seq<Event>)
    requires IsDrag(drag)
    ensures Run(s, drag) == s.(wx := drag[|drag| - 1].x, wy := drag[|drag| - 1].y)
    decreases |drag|
  {
    var next := AfterMove(s, drag[0].x, drag[0].y);
    if |drag| == 1 {
      assert Run(s, drag) == Run(next, []);
    } else {
      DragOnlyTracks(next, drag[1..]);
    }
  }

  /**
   * The window is dragged and the program then ends: the config file holds
   * the last dragged-to position as x and y, and every other key it held
   * before.
   */
  lemma DragThenQuit(s: State, drag: seq<Event>)
    requires IsDrag(drag)
    ensures var r := Run(s, drag + [Quit(true)]);
      && r.file.Present?
      && GetInteger(r.file.store, XKey) == drag[|drag| - 1].x
      && GetInteger(r.file.store, YKey) == drag[|drag| - 1].y
      && AgreeOutside(r.file.store, Loaded(s.file), {XKey, YKey})
  {
    RunConcat(s, drag, [Quit(true)]);
    DragOnlyTracks(s, drag);
  }

  /** preferences.photo_path is changed by nothing but an accepted Open. */
  lemma {:induction false} PhotoKeptWithoutOpen(s: State, events: seq<Event>)
    requires NoOpen(events)
    ensures GetString(Loaded(Run(s, events).file), PhotoPathKey) == GetString(Loaded(s.file), PhotoPathKey)
    decreases |events|
  {
    if events != [] && !events[0].Quit? {
      PhotoKeptWithoutOpen(Step(s, events[0]), events[1..]);
    }
  }

  /**
   * Position persistence across restarts: after a drag and a quit whose write
   * succeeds, the next launch shows the same photo, without the dialog, with
   * the window placed where the drag ended.
   */
  lemma RestartRestoresPosition(s: State, drag: seq<Event>, choice: Option<string>, writable: bool, width: int, height: int)
    requires IsDrag(drag)
    requires GetString(Loaded(s.file), PhotoPathKey).Some?
    ensures var f := Run(s, drag + [Quit(true)]).file;
      var l := Launched(Initial(f), choice, writable, width, height);
      && l.outcome == Shown(GetString(Loaded(s.file), PhotoPathKey).value, PixbufRequest(width, height, 300))
      && l.state.placedAt == Some(Pos(drag[|drag| - 1].x, drag[|drag| - 1].y))
      && l.state.file == f
  {
    DragThenQuit(s, drag);
    assert PhotoPathKey !in {XKey, YKey};
  }

  /**
   * A photo chosen through Open, whose write succeeds, is the one shown at
   * the next launch, whatever else happens in between short of another Open.
   */
  lemma ChosenPhotoShownOnRestart(s: State, path: string, current: Pos, rest: seq<Event>,
                                  choice: Option<string>, writable: bool, width: int, height: int)
    requires NoOpen(rest)
    ensures var f := Run(s, [OpenPhoto(Some(path), true, current)] + rest).file;
      Launched(Initial(f), choice, writable, width, height).outcome == Shown(path, PixbufRequest(width, height, 300))
  {
    var events := [OpenPhoto(Some(path), true, current)] + rest;
    var s1 := AfterOpen(s, Some(path), true, current);
    assert events[1..] == rest;
    assert Run(s, events) == Run(s1, rest);
    PhotoKeptWithoutOpen(s1, rest);
  }

  /** First run: no config file, the user picks `path`, the write succeeds. */
  lemma FirstRun(path: string, width: int, height: int)
    ensures Launched(Initial(Missing), Some(path), true, width, height)
         == Launch(Shown(path, PixbufRequest(width, height, 300)),
                   State(0, 0, Present(map[PhotoPathKey := Str(path)]), Some(Pos(0, 0))))
  {
  }

  /**
   * A first run whose photo_path write fails but whose quit-time write
   * succeeds leaves a config file with x and y and no photo_path; every later
   * launch then exits with status 1 without showing the dialog.
   */
  lemma LostPhotoPathLocksOut(path: string, width: int, height: int, session: seq<Event>,
                              choice: Option<string>, writable: bool)
    requires NoOpen(session) && NoQuit(session)
    ensures var first := Launched(Initial(Missing), Some(path), false, width, height);
      && first.outcome == Shown(path, PixbufRequest(width, height, 300))
      && var f := Run(first.state, session + [Quit(true)]).file;
      && f.Present?
      && ResolvePhoto(f, choice, writable) == PhotoLookup(None, f, false)
      && Launched(Initial(f), choice, writable, width, height).outcome == ExitWith(1)
  {
    var first := Launched(Initial(Missing), Some(path), false, width, height);
    RunConcat(first.state, session, [Quit(true)]);
    PhotoKeptWithoutOpen(first.state, session);
  }
}
