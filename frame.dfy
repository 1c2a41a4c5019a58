/**
 * The stateful part of gframe: the globals wx and wy, the cached config path
 * of f_get_config_path, the config file on disk and where the window was last
 * placed, as the fields of one object whose methods are the program's
 * handlers. Each method is proved to agree with its function in Handlers.
 */
module Frame {
  import opened Wrappers
  import opened KeyFile
  import opened Scale
  import opened Handlers

  /** g_build_filename(g_get_user_config_dir(), "frame.conf") */
  function ConfigFileName(configDir: string): string {
    configDir + "/frame.conf"
  }

  class Frame {
    /** g_get_user_config_dir(): fixed for the life of the process. */
    const configDir: string
    /** The static `path` of f_get_config_path: NULL until first asked for. */
    var configPath: Option<string>
    var wx: int
    var wy: int
    var file: ConfigFile
    var placedAt: Option<Pos>

    ghost predicate Valid()
      reads this
    {
      configPath.Some? ==> configPath.value == ConfigFileName(configDir)
    }

    /** The fields that Handlers.State describes. */
    function Snapshot(): State
      reads this
    {
      State(wx, wy, file, placedAt)
    }

    /** Process start: statics are zero or NULL, the config file is whatever is on disk. */
    constructor (configDir: string, file: ConfigFile)
      ensures Valid()
      ensures this.configDir == configDir && configPath == None
      ensures Snapshot() == Initial(file)
    {
      this.configDir := configDir;
      configPath := None;
      wx, wy := 0, 0;
      this.file := file;
      placedAt := None;
    }

    /** f_get_config_path: built on the first call, the cached value on every later one. */
    method GetConfigPath() returns (path: string)
      requires Valid()
      modifies this`configPath
      ensures Valid()
      ensures old(configPath).Some? ==> path == old(configPath).value && configPath == old(configPath)
      ensures old(configPath).None? ==> path == ConfigFileName(configDir)
      ensures configPath == Some(path)
    {
      if configPath == None {
        configPath := Some(ConfigFileName(configDir));
      }
      path := configPath.value;
    }

    /**
     * f_set_config on the config file; `writable` is whether fopen succeeds.
     * Returns TRUE exactly when the file was written.
     */
    method SetConfig(group: string, key: string, content: string, writable: bool) returns (ok: bool)
      modifies this`file
      ensures ok == writable
      ensures file == SetString(old(file), Key(group, key), content, writable)
    {
      var keyfile := Loaded(file);
      keyfile := keyfile[Key(group, key) := Str(content)];
      if writable {
        file := Present(keyfile);
        ok := true;
      } else {
        ok := false;
      }
    }

    /** callback_move */
    method Move(x: int, y: int)
      modifies this`wx, this`wy
      ensures Snapshot() == AfterMove(old(Snapshot()), x, y)
    {
      wx := x;
      wy := y;
    }

    /** callback_destroy (gtk_main_quit is the caller's business) */
    method Destroy(writable: bool)
      requires Valid()
      modifies this`file, this`configPath
      ensures Valid() && configPath == Some(ConfigFileName(configDir))
      ensures Snapshot() == AfterDestroy(old(Snapshot()), writable)
    {
      var path := GetConfigPath();
      var keyfile := Loaded(file);
      keyfile := keyfile[XKey := Int(wx)];
      keyfile := keyfile[YKey := Int(wy)];
      if writable {
        file := Present(keyfile);
      }
    }

    /** f_set_position; `current` is what gtk_window_get_position reports. */
    method SetPosition(same: bool, current: Pos)
      requires Valid()
      modifies this`wx, this`wy, this`placedAt, this`configPath
      ensures Valid() && configPath == Some(ConfigFileName(configDir))
      ensures Snapshot() == AfterSetPosition(old(Snapshot()), same, current)
    {
      var path := GetConfigPath();
      if !same {
        match Load(file) {
          case None =>
          case Some(keyfile) =>
            wx := GetInteger(keyfile, XKey);
            wy := GetInteger(keyfile, YKey);
        }
      } else {
        wx, wy := current.x, current.y;
      }
      placedAt := Some(Pos(wx, wy));
    }

    /**
     * callback_open: `choice` is the file dialog's answer, `width` and
     * `height` the probed size of the chosen image, `current` the window's
     * position after it is shown again. Returns FALSE for a cancelled dialog,
     * and the image request that replaces the displayed image.
     */
    method Open(choice: Option<string>, writable: bool, current: Pos, width: int, height: int)
      returns (handled: bool, image: Option<PixbufLoad>)
      requires Valid()
      modifies this
      ensures Valid() && configPath == Some(ConfigFileName(configDir))
      ensures handled <==> choice.Some?
      ensures image == if handled then Some(PixbufRequest(width, height, 300)) else None
      ensures Snapshot() == AfterOpen(old(Snapshot()), choice, writable, current)
    {
      var path := GetConfigPath();
      if choice == None {
        return false, None;
      }
      var request := PixbufRequest(width, height, 300);
      var written := SetConfig(Preferences, "photo_path", choice.value, writable);
      SetPosition(true, current);
      handled, image := true, Some(request);
    }

    /** f_get_photo_path; `choice` is the dialog's answer, consulted only when there is no config file. */
    method GetPhotoPath(choice: Option<string>, writable: bool) returns (photo: Option<string>)
      requires Valid()
      modifies this`file, this`configPath
      ensures Valid() && configPath == Some(ConfigFileName(configDir))
      ensures photo == ResolvePhoto(old(file), choice, writable).photo
      ensures file == ResolvePhoto(old(file), choice, writable).file
    {
      var path := GetConfigPath();
      if Exists(file) {
        match Load(file) {
          case None => photo := None;
          case Some(keyfile) => photo := GetString(keyfile, PhotoPathKey);
        }
      } else {
        photo := choice;
        if photo == None {
          return;
        }
        var written := SetConfig(Preferences, "photo_path", photo.value, writable);
      }
    }

    /**
     * main up to gtk_main: exit status 1 without a photo path; otherwise the
     * image request at scale 300 and the position restored from the config
     * file. `width` and `height` are the probed size of the photo.
     */
    method Start(choice: Option<string>, writable: bool, width: int, height: int) returns (outcome: Outcome)
      requires Valid()
      modifies this
      ensures Valid()
      ensures var l := Launched(old(Snapshot()), choice, writable, width, height);
        outcome == l.outcome && Snapshot() == l.state
    {
      var path := GetPhotoPath(choice, writable);
      if path == None {
        return ExitWith(1);
      }
      var image := PixbufRequest(width, height, 300);
      SetPosition(false, Pos(wx, wy));
      outcome := Shown(path.value, image);
    }
  }
}
