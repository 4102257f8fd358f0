/** The configuration directory tree, abstracted as a map from
    `<dir>/<kind>/<id>.json` to the JSON document stored there. A file
    exists exactly when its key is in the map. Directories are strings
    relative to the data directory: `repo`, `config` and `repos/<name>`. */
module FileSystem {
  import opened Wrappers
  import opened JsonValues

  datatype Kind = Apps | Hubs

  /** `<dir>/apps/<id>.json` or `<dir>/hubs/<id>.json`. */
  datatype FileKey = FileKey(dir: string, kind: Kind, id: string)

  class FileStore {
    var files: map<FileKey, Json>
    /** The text of `config/app_list`, if that file exists. */
    var appListText: Option<string>

    constructor(files: map<FileKey, Json>, appListText: Option<string>)
      ensures this.files == files && this.appListText == appListText
    {
      this.files := files;
      this.appListText := appListText;
    }

    /** `fs::write` of one JSON file. */
    method Write(key: FileKey, doc: Json)
      modifies this
      ensures files == old(files)[key := doc]
      ensures appListText == old(appListText)
    {
      files := files[key := doc];
    }

    /** `fs::write` of `config/app_list`. */
    method WriteAppList(text: string)
      modifies this
      ensures appListText == Some(text)
      ensures files == old(files)
    {
      appListText := Some(text);
    }

    /** `fs::remove_dir_all(dir)`: every file under `dir` disappears. */
    method RemoveDir(dir: string)
      modifies this
      ensures files == WithoutDir(old(files), dir)
      ensures appListText == old(appListText)
    {
      files := WithoutDir(files, dir);
    }
  }

  /** The files outside `dir`, unchanged. */
  function WithoutDir(files: map<FileKey, Json>, dir: string): (r: map<FileKey, Json>)
    ensures forall k :: k in r <==> k in files && k.dir != dir
    ensures forall k :: k in r ==> r[k] == files[k]
  {
    map k | k in files && k.dir != dir :: files[k]
  }
}
