/** watcher_config.py: the watched-folder list read from the settings file. */
module WatcherConfig {
  import opened Py
  import opened Config

  /** `load_watch_folders`: no settings file means no folders; an undecodable
      file makes `json.load` raise, and a `null` value makes `.split` raise. */
  function LoadWatchFolders(file: SettingsFile): (r: Result<seq<string>>)
    ensures file.Missing? ==> r == Ok([])
    ensures file.Malformed? ==> r.Raised?
    ensures file.Loaded? && file.doc.watchdogFolders.None? ==> r == Ok([])
    ensures r.Ok? ==> forall i :: 0 <= i < |r.value| ==> r.value[i] != "" && Strip(r.value[i]) == r.value[i]
  {
    match file
    case Missing => Ok([])
    case Malformed => Raised("JSONDecodeError")
    case Loaded(doc) =>
      var raw := GetOr(doc.watchdogFolders, Str(""));
      if raw.Null? then Raised("AttributeError") else Ok(ParseFolders(raw.s))
  }

  /** config.py and watcher_config.py derive the same folder list from a readable
      settings file; they differ only on an undecodable one, which config.py
      reads as `{}` and watcher_config.py does not survive. */
  lemma FolderListsAgree(file: SettingsFile)
    requires file.Loaded?
    ensures LoadConfig(file).Ok? <==> LoadWatchFolders(file).Ok?
    ensures LoadConfig(file).Ok? ==> LoadConfig(file).value.watchFolders == LoadWatchFolders(file).value
    ensures LoadConfig(Malformed).Ok? && LoadConfig(Malformed).value.watchFolders == []
    ensures LoadWatchFolders(Malformed).Raised?
  {
    if LoadConfig(file).Ok? {
      ConfigFolders(file);
    }
    assert LoadSettings(Malformed).watchdogFolders.None?;
    ConfigFolders(Malformed);
  }
}
