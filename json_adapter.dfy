/**
 * The JSON progress-and-settings store: one JSON object in one file, read in full before
 * every operation and rewritten in full by every save. Playback positions and settings live
 * side by side in that one string-keyed object.
 */
module JsonAdapter {

  /** The public methods of the adapter, which are exactly those of the persistence port it
      implements: progress and settings, nothing about a recent-videos list. */
  const Methods: set<string> := {"save_progress", "load_progress", "save_setting", "load_setting"}

  /** The JSON values a key can hold. */
  datatype Json = JNull | JBool(b: bool) | JInt(i: int) | JText(s: string) | JList(items: seq<Json>)

  /** The state of the file on disk: absent, not parseable as JSON, or holding an object. */
  datatype FileState = Missing | Corrupt | Holds(data: map<string, Json>)

  /** `_load_data`: the object in the file; a missing or unparseable file reads as `{}`. */
  function LoadData(f: FileState): (data: map<string, Json>)
    ensures !f.Holds? ==> data == map[]
    ensures f.Holds? ==> data == f.data
  {
    if f.Holds? then f.data else map[]
  }

  /** `dict.get(key, default)`. */
  function Get(data: map<string, Json>, key: string, default: Json): (v: Json)
    ensures key in data ==> v == data[key]
    ensures key !in data ==> v == default
  {
    if key in data then data[key] else default
  }

  /** The file after a save of `value` under `key`: read, set one key, write back. */
  function Saved(f: FileState, key: string, value: Json): (g: FileState)
    ensures g.Holds? && g.data.Keys == LoadData(f).Keys + {key}
  {
    Holds(LoadData(f)[key := value])
  }

  /** Loading a key right after saving it gives the saved value, whatever the default. */
  lemma LoadAfterSave(f: FileState, key: string, value: Json, default: Json)
    ensures Get(LoadData(Saved(f, key, value)), key, default) == value
  {
  }

  /** A save leaves every other key as it was. */
  lemma OtherKeysUnchanged(f: FileState, key: string, value: Json, other: string, default: Json)
    requires other != key
    ensures Get(LoadData(Saved(f, key, value)), other, default) == Get(LoadData(f), other, default)
  {
  }

  /** Saving into a missing or corrupt file leaves exactly the one saved key. */
  lemma UnreadableFileKeepsOneKey(f: FileState, key: string, value: Json)
    requires !f.Holds?
    ensures LoadData(Saved(f, key, value)) == map[key := value]
  {
  }

  /** Progress and settings share the key space: a setting saved under a video's path
      replaces that video's saved position. */
  lemma SettingOverwritesProgress(f: FileState, path: string, position: int, value: Json)
    requires value != JInt(position)
    ensures Get(LoadData(Saved(Saved(f, path, JInt(position)), path, value)), path, JInt(0)) == value
    ensures Get(LoadData(Saved(Saved(f, path, JInt(position)), path, value)), path, JInt(0)) != JInt(position)
  {
  }

  class Store {
    /** The file behind the store. */
    var file: FileState

    /** Construction writes `{}` when there is no file; an existing file is left as it is. */
    constructor(onDisk: FileState)
      ensures file == if onDisk.Missing? then Holds(map[]) else onDisk
    {
      if onDisk.Missing? {
        file := Holds(map[]);
      } else {
        file := onDisk;
      }
    }

    method SaveProgress(path: string, position: int)
      modifies this
      ensures file == Saved(old(file), path, JInt(position))
    {
      var data := LoadData(file);
      data := data[path := JInt(position)];
      file := Holds(data);
    }

    /** `load_progress`: the value under the path, or 0. */
    method LoadProgress(path: string) returns (r: Json)
      ensures file.Holds? && path in file.data ==> r == file.data[path]
      ensures !(file.Holds? && path in file.data) ==> r == JInt(0)
    {
      var data := LoadData(file);
      r := Get(data, path, JInt(0));
    }

    method SaveSetting(key: string, value: Json)
      modifies this
      ensures file == Saved(old(file), key, value)
    {
      var data := LoadData(file);
      data := data[key := value];
      file := Holds(data);
    }

    /** `load_setting`: the value under the key, or the caller's default. */
    method LoadSetting(key: string, default: Json) returns (r: Json)
      ensures file.Holds? && key in file.data ==> r == file.data[key]
      ensures !(file.Holds? && key in file.data) ==> r == default
    {
      var data := LoadData(file);
      r := Get(data, key, default);
    }
  }
}
