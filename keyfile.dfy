/**
 * The configuration store of gframe: a GKeyFile that is loaded whole from the
 * config file, changed in memory and written whole back with fopen/fputs.
 * The INI text format is abstracted away: a loaded file is a map from
 * (group, key) to a tagged value.
 */
module KeyFile {
  import opened Wrappers

  /** A value stored under a key: the program writes strings (photo_path) and integers (x, y). */
  datatype Value = Str(text: string) | Int(number: int)

  /** A key inside a group, such as preferences.photo_path. */
  datatype Key = Key(group: string, name: string)

  type Store = map<Key, Value>

  /** The config file as the program can observe it. */
  datatype ConfigFile =
    | Missing               // g_file_test(path, G_FILE_TEST_EXISTS) is false
    | Unreadable            // the file exists but g_key_file_load_from_file fails
    | Present(store: Store) // the file exists and loads

  const Preferences: string := "preferences"
  const PhotoPathKey: Key := Key(Preferences, "photo_path")
  const XKey: Key := Key(Preferences, "x")
  const YKey: Key := Key(Preferences, "y")

  predicate Exists(f: ConfigFile) {
    !f.Missing?
  }

  /** g_key_file_load_from_file: the loaded store, or None when loading fails. */
  function Load(f: ConfigFile): Option<Store> {
    if f.Present? then Some(f.store) else None
  }

  /** What a fresh GKeyFile holds after a load whose failure is ignored. */
  function Loaded(f: ConfigFile): Store {
    if f.Present? then f.store else map[]
  }

  /** g_key_file_get_string: NULL when the group or key is absent. */
  function GetString(s: Store, k: Key): Option<string> {
    if k in s && s[k].Str? then Some(s[k].text) else None
  }

  /** g_key_file_get_integer: 0 when the group or key is absent. */
  function GetInteger(s: Store, k: Key): int {
    if k in s && s[k].Int? then s[k].number else 0
  }

  /** `a` and `b` hold the same keys with the same values outside `keys`. */
  ghost predicate AgreeOutside(a: Store, b: Store, keys: set<Key>) {
    forall k :: k !in keys ==> (k in a <==> k in b) && (k in a ==> a[k] == b[k])
  }

  /**
   * fopen(path, "w") followed by fputs of the whole store: when fopen fails
   * the file on disk is left exactly as it was.
   */
  function WriteBack(f: ConfigFile, s: Store, writable: bool): ConfigFile {
    if writable then Present(s) else f
  }

  /**
   * The effect of f_set_config on the config file: load it (a failed load
   * starts from an empty store), set one string, write everything back.
   * `writable` is whether fopen succeeds; f_set_config returns exactly that.
   */
  function SetString(f: ConfigFile, k: Key, content: string, writable: bool): (r: ConfigFile)
    ensures !writable ==> r == f
    ensures writable ==> r.Present? && GetString(r.store, k) == Some(content)
    ensures writable ==> r.store.Keys == Loaded(f).Keys + {k}
    ensures writable ==> AgreeOutside(r.store, Loaded(f), {k})
  {
    WriteBack(f, Loaded(f)[k := Str(content)], writable)
  }

  /**
   * The load-set-write that callback_destroy performs inline: x and y are set
   * as integers in group "preferences" and the store is written back once.
   */
  function StorePosition(f: ConfigFile, x: int, y: int, writable: bool): (r: ConfigFile)
    ensures !writable ==> r == f
    ensures writable ==> r.Present? && GetInteger(r.store, XKey) == x && GetInteger(r.store, YKey) == y
    ensures writable ==> r.store.Keys == Loaded(f).Keys + {XKey, YKey}
    ensures writable ==> AgreeOutside(r.store, Loaded(f), {XKey, YKey})
  {
    WriteBack(f, Loaded(f)[XKey := Int(x)][YKey := Int(y)], writable)
  }

  /** Last writer wins: a second f_set_config of the same key erases every trace of the first. */
  lemma SetStringTwice(f: ConfigFile, k: Key, first: string, second: string)
    ensures SetString(SetString(f, k, first, true), k, second, true) == SetString(f, k, second, true)
  {
  }

  /** f_set_config on two different keys gives the same file in either order. */
  lemma SetStringCommutes(f: ConfigFile, k1: Key, v1: string, k2: Key, v2: string)
    requires k1 != k2
    ensures SetString(SetString(f, k1, v1, true), k2, v2, true)
         == SetString(SetString(f, k2, v2, true), k1, v1, true)
  {
  }
}
