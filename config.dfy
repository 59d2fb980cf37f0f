/** The settings module (config.py): the settings document loaded once at import,
    and the constants derived from it. */
module Config {
  import opened Py

  /** The settings document (settings.json): the keys the core reads, each of
      which may be absent. */
  datatype SettingsDoc = SettingsDoc(
    vtApiKey: Option<Value>,
    watchdogFolders: Option<Value>,
    enableEmail: Option<Value>,
    enableTelegram: Option<Value>,
    enableDiscord: Option<Value>,
    emailTo: Option<Value>,
    telegramBot: Option<Value>,
    telegramChatId: Option<Value>,
    discordWebhook: Option<Value>,
    scanningEnabled: Option<Value>)

  const EmptyDoc := SettingsDoc(None, None, None, None, None, None, None, None, None, None)

  /** The settings file on disk: absent, present but not valid JSON, or a JSON object. */
  datatype SettingsFile = Missing | Malformed | Loaded(doc: SettingsDoc)

  /** `load_settings` of config.py: a missing or undecodable file reads as `{}`. */
  function LoadSettings(file: SettingsFile): (s: SettingsDoc)
    ensures file.Loaded? ==> s == file.doc
    ensures !file.Loaded? ==> s == EmptyDoc
  {
    if file.Loaded? then file.doc else EmptyDoc
  }

  /** The stripped, non-empty lines of `text`, in order (the list comprehension of
      config.py:31-34 and watcher_config.py:15). */
  function StrippedLines(lines: seq<string>): (r: seq<string>)
    ensures forall i :: 0 <= i < |r| ==> r[i] != "" && Strip(r[i]) == r[i]
    ensures |r| <= |lines|
  {
    if lines == [] then []
    else
      var f := Strip(lines[|lines| - 1]);
      StripIdempotent(lines[|lines| - 1]);
      StrippedLines(lines[..|lines| - 1]) + (if f != "" then [f] else [])
  }

  lemma {:induction false} StrippedLinesConcat(a: seq<string>, b: seq<string>)
    ensures StrippedLines(a + b) == StrippedLines(a) + StrippedLines(b)
    decreases |b|
  {
    if b != [] {
      var n := |b| - 1;
      assert (a + b)[..|a + b| - 1] == a + b[..n];
      StrippedLinesConcat(a, b[..n]);
    } else {
      assert a + b == a;
    }
  }

  /** The folder list of a textarea value: every folder is a stripped, non-empty
      line without a line break. */
  function ParseFolders(text: string): (folders: seq<string>)
    ensures forall i :: 0 <= i < |folders| ==> folders[i] != "" && Strip(folders[i]) == folders[i]
    ensures forall i :: 0 <= i < |folders| ==> '\n' !in folders[i]
  {
    var lines := Split(text, '\n');
    var r := StrippedLines(lines);
    NoBreakSurvives(lines);
    r
  }

  lemma {:induction false} NoBreakSurvives(lines: seq<string>)
    requires forall i :: 0 <= i < |lines| ==> '\n' !in lines[i]
    ensures forall i :: 0 <= i < |StrippedLines(lines)| ==> '\n' !in StrippedLines(lines)[i]
  {
    if lines != [] {
      NoBreakSurvives(lines[..|lines| - 1]);
    }
  }

  /** Lines keep their order: the folders of two textarea parts joined by a line
      break are the folders of the first part followed by those of the second. */
  lemma ParseFoldersConcat(a: string, b: string)
    ensures ParseFolders(a + "\n" + b) == ParseFolders(a) + ParseFolders(b)
  {
    SplitConcat(a, b, '\n');
    StrippedLinesConcat(Split(a, '\n'), Split(b, '\n'));
  }

  /** A single line yields its stripped form, or nothing when it is blank. */
  lemma ParseFoldersLine(line: string)
    requires '\n' !in line
    ensures ParseFolders(line) == if Strip(line) == "" then [] else [Strip(line)]
  {
    SplitNoBreak(line);
  }

  lemma {:induction false} SplitNoBreak(line: string)
    requires '\n' !in line
    ensures Split(line, '\n') == [line]
  {
    if line != [] {
      assert line[0] in line;
      assert forall c :: c in line[1..] ==> c in line;
      SplitNoBreak(line[1..]);
      assert [line[0]] + line[1..] == line;
    }
  }

  /** The module-level constants of config.py. */
  datatype Settings = Settings(
    vtApiKey: Value,
    watchFolders: seq<string>,
    enableEmail: bool,
    enableTelegram: bool,
    enableDiscord: bool,
    emailTo: seq<string>,
    telegramBotToken: Value,
    telegramChatId: Value,
    discordWebhookUrl: Value,
    scanningEnabled: Value)

  /** `settings.get(flag, "no") == "yes"`: true exactly when the setting is the
      string "yes". */
  predicate Flag(setting: Option<Value>)
    ensures Flag(setting) <==> setting == Some(Str("yes"))
  {
    GetOr(setting, Str("no")) == Str("yes")
  }

  /** `[settings.get("email_to")] if settings.get("email_to") else []`. */
  function EmailTo(setting: Option<Value>): (r: seq<string>)
    ensures |r| <= 1
    ensures |r| == 1 <==> setting.Some? && Truthy(setting.value)
    ensures |r| == 1 ==> r[0] == setting.value.s
  {
    var email := Get(setting);
    if Truthy(email) then [email.s] else []
  }

  /** The constants computed when config.py is imported; a `watchdog_folders`
      value of `null` makes `.split` raise AttributeError. */
  function LoadConfig(file: SettingsFile): (r: Result<Settings>)
    ensures r.Raised? <==> LoadSettings(file).watchdogFolders == Some(Null)
  {
    var s := LoadSettings(file);
    var folders := GetOr(s.watchdogFolders, Str(""));
    if folders.Null? then Raised("AttributeError")
    else
      Ok(Settings(
        vtApiKey := GetOr(s.vtApiKey, Str("")),
        watchFolders := ParseFolders(folders.s),
        enableEmail := Flag(s.enableEmail),
        enableTelegram := Flag(s.enableTelegram),
        enableDiscord := Flag(s.enableDiscord),
        emailTo := EmailTo(s.emailTo),
        telegramBotToken := GetOr(s.telegramBot, Str("")),
        telegramChatId := GetOr(s.telegramChatId, Str("")),
        discordWebhookUrl := GetOr(s.discordWebhook, Str("")),
        scanningEnabled := GetOr(s.scanningEnabled, Str("yes"))))
  }

  /** Each `ENABLE_*` flag holds exactly when its setting is the string "yes";
      an absent setting leaves it off. */
  lemma ConfigFlags(file: SettingsFile)
    requires LoadConfig(file).Ok?
    ensures var s := LoadSettings(file); var c := LoadConfig(file).value;
      && (c.enableEmail <==> s.enableEmail == Some(Str("yes")))
      && (c.enableTelegram <==> s.enableTelegram == Some(Str("yes")))
      && (c.enableDiscord <==> s.enableDiscord == Some(Str("yes")))
  {
    var s := LoadSettings(file);
    var c := LoadConfig(file).value;
    assert c.enableEmail == Flag(s.enableEmail);
    assert c.enableTelegram == Flag(s.enableTelegram);
    assert c.enableDiscord == Flag(s.enableDiscord);
  }

  /** `EMAIL_TO` is empty or the one configured address, and `SCANNING_ENABLED`
      defaults to "yes". */
  lemma ConfigEmailAndScanning(file: SettingsFile)
    requires LoadConfig(file).Ok?
    ensures var s := LoadSettings(file); var c := LoadConfig(file).value;
      && c.emailTo == EmailTo(s.emailTo)
      && c.scanningEnabled == (if s.scanningEnabled.Some? then s.scanningEnabled.value else Str("yes"))
  {
  }

  /** `WATCH_FOLDERS` is the folder list of the `watchdog_folders` setting, and
      empty when there is none. */
  lemma ConfigFolders(file: SettingsFile)
    requires LoadConfig(file).Ok?
    ensures var c := LoadConfig(file).value;
      match LoadSettings(file).watchdogFolders
      case None => c.watchFolders == []
      case Some(v) => v.Str? && c.watchFolders == ParseFolders(v.s)
  {
  }
}
