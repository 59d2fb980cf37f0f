# Scan resolution pipeline of a threat scanner, modelled in Dafny

The scanner decides whether an uploaded file or a submitted URL is malicious.
For a file it answers from cheapest to costliest:

1. a local deny-list of known-bad SHA-256 hashes;
2. a cache of earlier verdicts;
3. the VirusTotal API v3 multi-engine service.

A remote answer is written back to the cache. A hash becomes deny-listed once at least three engines call it malicious. A folder watcher feeds newly created files through a stability wait and a hash lookup. Each watcher result is appended to a bounded in-memory event bus; a manual scan may raise a Discord alert.

This project models that decision layer and the stores it uses.

- **App** (`app.dfy`): the `/upload_file`, `/check_url` and `/stream_events` logic. Each route is an imperative method over the two store objects. The method is proved equal to a function of the stores as they were: `ResolveFile`, `RowsAfterFile` and `DenyAfterFile` for files, `ResolveUrl` and `RowsAfterUrl` for URLs. The cross-request properties are lemmas about those functions:
  - deny-list precedence;
  - cache short-circuit;
  - exactly one upsert per remote answer;
  - the promotion threshold;
  - a second scan is served from the cache;
  - key shadowing.
- **VirusTotal** (`vt.dfy`): API-key precedence, and the bounded submit-and-poll URL check. The poll loop is at most 120 attempts and normalises the engine table in place. Also the single-shot hash lookup.
- **Notifier** (`notifier.dfy`): the alert gate and the message `notify` builds line by line. Also `summarize_threats`: filter, sort by engine name, truncate.
- **Watcher** (`watcher.dfy`): the file-stability loop of watcher_multifolder.py, and its `on_created` handler.
- **HistoryDb, LocalDb, EventStore** (`history_db.dfy`, `local_db.dfy`, `event_store.dfy`): the SQLite verdict cache, the SQLite deny-list, and the 200-slot event deque. Each is a class whose table is a `map` or `seq` field, with one method per operation.
- **Config, WatcherConfig** (`config.dfy`, `watcher_config.dfy`): the settings document, the folder textarea parsing, the yes/no flags and the defaults.
- **Schema, Py, Ranking** (`schema.dfy`, `py.dfy`, `ranking.dfy`):
  - Schema holds the verdict shapes, the engine normalisation and the four-bucket tally.
  - Py holds the Python built-ins the code relies on: truthiness, `strip`, `split` with its inverse `join`, `str(n)` with its inverse, ASCII `lower`.
  - Ranking holds the "latest first, at most `limit`" selection behind both `ORDER BY ... DESC LIMIT` listings.

Conventions:
- Python dicts whose order is observable (engine tables, provider `results`) are sequences of pairs. SQLite tables are maps keyed by their primary key.
- A JSON scalar is `Null` or `Str`. An absent field is `None`, so `d.get(k, default)` and `d.get(k) or ...` are spelled out exactly.
- Timestamps are integers passed in as `now`.
- The remote service is given as its answers: the submission outcome, the outcome of each poll attempt (a function of the attempt number), and the hash-lookup outcome.
- The file system seen by the stability wait is the sequence of passes it makes.
- The digests of an upload are a parameter.
- config.py's `VT_API_KEY` is a parameter, `configKey`.

Behaviours of the code worth knowing:
- The folder watcher does not go through the tiered pipeline. It calls the hash lookup directly, with no deny-list or cache step and no write-back. It stores the raw report on the event bus (`Watcher.OnCreated`).
- The stability wait returns at the first stable pair: with sizes 10, 10, 20, 20, 20 it is ready at the second pass, before the file grows (`Watcher.FirstStablePairWins`).
- On the remote file path, counts are copied from `last_analysis_stats`. They are not tallied from the engines (`App.RemoteReportVerdict`).
- Not every resolution reaches an alert:
  - `upload_file` passes the raw service response to `notify`. That response has no top-level `counts`, so it never alerts.
  - An empty remote answer passes `{}`, which never alerts either.
  - The deny-list answer always alerts (`App.RemoteReportVerdict`, `App.EmptyRemoteCachesEmptyVerdict`, `App.DenyListShortCircuits`).
- Repeating a scan gives the same verdict from the cache (`App.SecondScanHitsCache`, `App.SecondUrlCheckHitsCache`) with two exceptions:
  - a promoted hash is answered by the deny-list the second time (`App.PromotedScanHitsDenyList`);
  - a key held under the other key type is never served from the cache, because the upsert keeps the old `key_type` (`App.UrlRowShadowsHash`).
- A failed or keyless remote lookup caches the all-zero verdict (`App.EmptyRemoteCachesEmptyVerdict`).
- `check_url` reads each engine's `result` before its `category`; vt.py resolves `category` first (`Schema.UrlCategory`, `Schema.NormalizeEngineRule`).
- The deny-list answer renders `file_result.html`; every other file answer renders `file_results.html` (`App.FileTemplate`).

## Model

| member | source | states |
|---|---|---|
| `Py.FirstTruthy` | vt.py:73 | `a or b or fallback` gives the first truthy value, else the fallback; the result is never empty |
| `Py.Strip` | config.py:31-34 | `str.strip` returns a contiguous slice of the input, dropping only whitespace before and after it, with non-space ends; the result is empty exactly when the input is all whitespace |
| `Py.StripIdempotent` | watcher_config.py:15 | stripping a stripped line changes nothing, so the kept value is the one the filter examined |
| `Py.Split` | config.py:32 | `split("\n")` yields at least one piece and no piece holds the separator |
| `Py.JoinSplit` | config.py:32 | joining the pieces of a split with the separator restores the text |
| `Py.SplitConcat` | config.py:32 | splitting `a + "\n" + b` gives the pieces of `a` followed by those of `b` |
| `Py.NatToString` | notifier.py:85 | `str(n)` of a count is decimal digits with no leading zero |
| `Py.NatToStringRoundTrip` | notifier.py:85 | reading the rendered count back gives the count |
| `Py.LowerAscii` | notifier.py:14-16 | ASCII-only lowering, which keeps the length, maps each ASCII capital to its small letter and keeps every other character. It decides the test at notifier.py:16 exactly as `lower()` does: the only non-ASCII characters that lower to ASCII letters are U+0130 (which also leaves a U+0307) and U+212A (which gives 'k', in neither word) |
| `Schema.ResolveCategory` | vt.py:73 | the resolved category is never empty |
| `Schema.NormalizeEngines` | vt.py:71-77 | the normalised table has the same keys in the same order, each entry normalised from its own raw entry |
| `Schema.NormalizeEngine` | vt.py:73-77 | a normalised entry's `result` is never empty; `engine_name` is the raw one when present, else the key |
| `Schema.NormalizeEngineRule` | app.py:262-268 | category first, then result, then "clean", skipping absent, null and empty fields; `engine_name` falls back to the key only when absent |
| `Schema.Bump` | app.py:186-193 | one bucket grows by one, no other bucket changes, and the total grows by one |
| `Schema.UrlCategory` | app.py:185 | a non-empty `result` is the category read by `check_url` |
| `Schema.Tally` | app.py:184-193 | no contract of its own; `TallyStep`, `TallyTotal`, `TallyCountsBuckets` and `TallyByBucket` state its properties |
| `Schema.TallyStep` | app.py:184-193 | tallying one more engine bumps exactly the bucket of its category |
| `Schema.TallyTotal` | app.py:183-193 | every engine increments exactly one bucket, so the four counts add up to the number of engines |
| `Schema.TallyCountsBuckets` | app.py:184-193 | each count equals the number of engines whose category folds into that bucket |
| `Schema.TallyByBucket` | app.py:184-193 | each of the four counts of a tally is the number of engines in its bucket |
| `Config.LoadSettings` | config.py:10-16 | a missing or undecodable settings file reads as `{}` |
| `Config.StrippedLines` | config.py:31-34 | every kept line is non-empty with non-space ends |
| `Config.StrippedLinesConcat` | config.py:31-34 | filtering lines commutes with concatenation, so order is kept |
| `Config.ParseFolders` | config.py:31-34 | every folder is a stripped, non-empty line with no line break |
| `Config.NoBreakSurvives` | config.py:31-34 | stripping lines that contain no line break yields folders with none |
| `Config.ParseFoldersConcat` | config.py:31-34 | the folders of two texts joined by a line break are the folders of the first, then those of the second |
| `Config.ParseFoldersLine` | config.py:31-34 | a single line gives exactly its stripped form, or nothing when blank |
| `Config.SplitNoBreak` | config.py:32 | a text with no line break splits into itself |
| `Config.Flag` | config.py:40-42 | an `ENABLE_*` flag is on exactly when its setting is the string "yes"; absent means off |
| `Config.EmailTo` | config.py:44 | `EMAIL_TO` is empty, or a singleton holding the truthy `email_to` value |
| `Config.LoadConfig` | config.py:19-55 | importing config.py raises exactly when `watchdog_folders` is null |
| `Config.ConfigFlags` | config.py:40-42 | the three flags are each on exactly when their setting is "yes" |
| `Config.ConfigEmailAndScanning` | config.py:44-55 | `EMAIL_TO` follows `email_to`, and `SCANNING_ENABLED` defaults to "yes" |
| `Config.ConfigFolders` | config.py:31-34 | `WATCH_FOLDERS` is the parsed textarea, or empty when the key is absent |
| `WatcherConfig.LoadWatchFolders` | watcher_config.py:7-17 | a missing file gives []; an undecodable file raises; a null value raises AttributeError; otherwise the parsed folders |
| `WatcherConfig.FolderListsAgree` | watcher_config.py:14-15 | for a readable file, the watcher's folder list equals config.py's `WATCH_FOLDERS` |
| `Ranking.LimitedCount` | history_db.py:59 | `LIMIT n` yields exactly min(n, rows) rows; a negative limit yields every row |
| `Ranking.LatestFirst` | history_db.py:59 | the keys are distinct table keys in non-increasing time order, as many as the limit allows, and no key left out is later than one listed |
| `HistoryDb.Lookup` | history_db.py:24-35 | a hit exactly when the key exists under the same key type with a decodable result, returning that result and its time |
| `HistoryDb.Upsert` | history_db.py:37-46 | result and time are written under the key; an existing key keeps its key type and the row count; other rows are untouched |
| `HistoryDb.Purge` | history_db.py:48-54 | exactly the rows at or after the cutoff survive, unchanged |
| `HistoryDb.DefaultRetentionKeepsThirtyDays` | history_db.py:48-52 | with the default `days=30`, a row survives the purge exactly when it was scanned within the last 30 days |
| `HistoryDb.LookupAfterFreshUpsert` | history_db.py:37-46 | a fresh key written and read back under the same key type returns what was written |
| `HistoryDb.UpsertKeepsOtherKeyType` | history_db.py:43 | a key held under another key type keeps it: a lookup with the new type still misses, one with the old type hits |
| `HistoryDb.HistoryTable.constructor` | history_db.py:9-22 | a newly created database starts empty; every other member accepts any prior rows, as `CREATE TABLE IF NOT EXISTS` keeps them |
| `HistoryDb.HistoryTable.GetCachedResult` | history_db.py:24-35 | the method returns the `Lookup` of the current rows and changes nothing |
| `HistoryDb.HistoryTable.AddOrUpdateCache` | history_db.py:37-46 | the new rows are the `Upsert` of the old ones |
| `HistoryDb.HistoryTable.PurgeOlderThan` | history_db.py:48-54 | the new rows are the old ones purged at `now - days * 86400` |
| `HistoryDb.HistoryTable.ListAll` | history_db.py:56-62 | at most `limit` rows, each a real row and listed once, latest first, and no omitted row is later than a listed one |
| `LocalDb.Inserted` | local_db.py:29-35 | insert-or-ignore: a new hash gets `now`; an existing hash keeps its time; nothing is removed |
| `LocalDb.DenyList.constructor` | local_db.py:8-19 | a newly created database starts empty; every other member accepts any prior rows, as `CREATE TABLE IF NOT EXISTS` keeps them |
| `LocalDb.DenyList.IsMaliciousLocal` | local_db.py:21-27 | true exactly when the hash has a row |
| `LocalDb.DenyList.AddMaliciousHash` | local_db.py:29-35 | afterwards the hash is listed, and every other hash's membership is as before |
| `LocalDb.DenyList.ListHashes` | local_db.py:37-43 | at most `limit` entries, each once and genuine, latest `added_at` first, with none omitted that is later |
| `EventStore.Appended` | event_store.py:5-15 | the bus never exceeds 200 and ends with the new event; below capacity it grows by one keeping every event in order; at capacity only the oldest is dropped |
| `EventStore.AppendedWindow` | event_store.py:5-15 | appending to the window of a history gives the window of the longer history |
| `EventStore.AppendedAllWindow` | event_store.py:5-15 | after any run of appends the bus holds exactly the latest 200 events, in append order |
| `EventStore.TwoHundredFiftyAppends` | event_store.py:5 | 250 appends to an empty bus leave the last 200 |
| `EventStore.EventLog.constructor` | event_store.py:5 | the bus starts empty |
| `EventStore.EventLog.AddEvent` | event_store.py:7-15 | the new contents are the old ones with the stamped event appended |
| `EventStore.EventLog.GetEvents` | event_store.py:17-18 | returns the contents in insertion order and changes nothing |
| `VirusTotal.GetVtApiKey` | vt.py:16-28 | a non-empty config key wins; otherwise a readable file's non-empty `vt_api_key`; otherwise "" |
| `VirusTotal.ImportedKeyFromSameFile` | vt.py:9-28 | when config.py read the same file, the key in use is that file's non-empty key, or "" |
| `VirusTotal.FirstCompleted` | vt.py:59-68 | an attempt found is within the 120-attempt budget, not before the starting attempt, and its poll completed |
| `VirusTotal.ScanUrl` | vt.py:36-81 | at most 120 polls are made; without a key or an accepted submission there is no poll and the table is empty; otherwise at least one poll is made |
| `VirusTotal.FirstCompletedIsFirst` | vt.py:59-68 | the polling answer found is the first "completed" one within 120 attempts, or there is none |
| `VirusTotal.ScanUrlOutcome` | vt.py:36-81 | no key or a rejected submission means no poll and `{}`; otherwise polling stops at the first "completed" answer and normalises its results; failed polls use up attempts; an exhausted budget gives `{}` |
| `VirusTotal.CheckUrlVirusTotal` | vt.py:30-81 | the loop's table and number of polls equal `ScanUrl`; at most 120 polls; the table's keys are those of the completed `results` |
| `VirusTotal.CheckFileHash` | vt.py:83-100 | no key, an exception, a non-200 status or an undecodable body give `{}`; a 200 answer gives its parsed body unchanged |
| `Notifier.DetectionCounts` | notifier.py:66-69 | the malicious and suspicious counts of a verdict; 0 and 0 for anything without top-level counts |
| `Notifier.AlertMessage` | notifier.py:76-85 | the message starts with the threat header, ends with the detection summary, and between them has the File, URL and SHA256 lines in that order, each only when present |
| `Notifier.SummaryCountsReadBack` | notifier.py:85 | the counts in the summary line read back as the counts |
| `Notifier.Notify` | notifier.py:62-87 | a message is sent exactly when the result is non-empty and its malicious or suspicious count is non-zero, and it is `AlertMessage` |
| `Notifier.GateByPayload` | notifier.py:63-74 | a raw file report or no result never alerts; a verdict alerts exactly when it counts a malicious or suspicious engine |
| `Notifier.IsThreat` | notifier.py:13-16 | a threat has a string category, so reading it does not raise, and that category has the length of "malicious" or "suspicious" |
| `Notifier.Threats` | notifier.py:13-17 | the threat list is no longer than the scan |
| `Notifier.ThreatCount` | notifier.py:13-20 | the threat total is the number of entries whose lowered category is "malicious" or "suspicious" |
| `Notifier.ThreatsAreThreatEntries` | notifier.py:13-17 | each threat is the name and `result` of such an entry |
| `Notifier.ThreatEntriesAreThreats` | notifier.py:13-17 | conversely, the name and `result` of every threat entry is among the threats |
| `Notifier.ThreatMultiplicity` | notifier.py:13-17 | each threat occurs in the list exactly as often as table positions hold it as a threat entry, so the list is the threat entries as a multiset |
| `Notifier.StrLeTotal` | notifier.py:19 | any two engine names are comparable |
| `Notifier.StrLeTransitive` | notifier.py:19 | the order on engine names is transitive |
| `Notifier.Insert` | notifier.py:19 | inserting into a sorted list keeps it sorted, adding exactly one element |
| `Notifier.SortByName` | notifier.py:19 | the sorted threats are ordered by engine name and are a permutation of the input |
| `Notifier.SliceLen` | notifier.py:21 | `len(xs[:limit])` is min(limit, n) for limit >= 0, and counts from the end for a negative limit |
| `Notifier.SummarizeThreats` | notifier.py:10-23 | raises AttributeError exactly when some category is null; otherwise the total counts the threat entries, and the summary is sorted by name, has the sliced length, and is a prefix of the sorted threats |
| `Watcher.LastSize` | watcher_multifolder.py:24-35 | `last_size` is -1 before any successful size read |
| `Watcher.WaitUntilFileIsReady` | watcher_multifolder.py:22-39 | returns at the first pass with a non-zero size equal to the previous successful size and an open that succeeds; `None` while no pass qualifies |
| `Watcher.DeniedKeepsLastSize` | watcher_multifolder.py:35-39 | failed size reads leave `last_size` unchanged |
| `Watcher.LastSizeIsLatestRead` | watcher_multifolder.py:24-35 | `last_size` is the size of the latest successful read, with only failures after it |
| `Watcher.ReadyAt` | watcher_multifolder.py:26-33 | a ready pass is never the first and has a successful, non-zero size read |
| `Watcher.ReadyNeedsStablePair` | watcher_multifolder.py:24-33 | a ready pass has a non-zero size and an earlier successful pass of the same size, with only failures between; so never the first read, never size 0 |
| `Watcher.FirstStablePairWins` | watcher_multifolder.py:26-33 | with sizes 10, 10, 20, 20, 20, the first pass is not ready and the second is |
| `Watcher.OnCreated` | watcher_multifolder.py:43-81 | a directory event changes nothing; a file that becomes ready appends one `file_created` event carrying the raw report; no alert is ever sent |
| `App.AppSettings` | app.py:32-41 | a missing file gives defaults with scanning "yes"; an undecodable file raises; otherwise the document as stored |
| `App.Preflight` | app.py:160-166 | a route continues exactly when the settings decode, scanning is not "no", and the input is non-blank after stripping; a disabled route renders the disabled page |
| `App.UploadPath` | app.py:215 | the upload is saved under `uploads/`, unless the name is absolute |
| `App.CountsFromStats` | app.py:255-260 | each of the four counts is the matching `last_analysis_stats` entry, with `undetected` as clean, and 0 when absent |
| `App.ReportVerdict` | app.py:252-268 | the remote verdict's counts are `CountsFromStats` of the stats; its engine table has the report's keys in the report's order |
| `App.ResolveFile` | app.py:222-268 | the deny-list tier is taken exactly when the hash is listed, with the fixed local verdict. The cache tier is taken exactly when the hash is unlisted and cached under "sha256", with the cached verdict. The empty tier is taken exactly when the hash is on neither store and the service answers `{}`, with the all-zero verdict. Otherwise the verdict is `ReportVerdict`. The first two tiers notify their verdict and the remote tiers the raw answer |
| `App.RowsAfterFile` | app.py:247-272 | the local and cache tiers leave the cache as it is. A remote tier, through the upsert at line 247 or 272, writes the verdict under the hash stamped `now`, adds no other key and leaves every other row unchanged |
| `App.DenyAfterFile` | app.py:274-276 | the hash is deny-listed afterwards exactly when it was already listed or a remote report counts at least 3 malicious engines; no other hash changes membership and existing entries keep their time |
| `App.FileTemplate` | app.py:228-281 | the renders at lines 228, 238, 250 and 281 use `file_result.html` exactly for the deny-list tier and `file_results.html` for every other tier |
| `App.AlertFor` | notifier.py:62-76 | a route posts a message exactly when it notifies a verdict with a non-zero malicious or suspicious count, and the message starts with the threat header |
| `App.StoreRemote` | app.py:241-276 | for a hash on neither store, the remote answer and the stores afterwards equal `ResolveFile`, `RowsAfterFile` and `DenyAfterFile` |
| `App.ResolveAndStore` | app.py:222-276 | the tier answer equals `ResolveFile`; the cache and deny-list afterwards equal `RowsAfterFile` and `DenyAfterFile` |
| `App.UploadFile` | app.py:206-281 | early answers touch no store; otherwise the page, cache, deny-list and alert are those of the tier answer |
| `App.DenyListShortCircuits` | app.py:223-228 | a deny-listed hash gets counts 1/0/0/0 and the single `LocalDB` engine, whatever the cache and service hold; nothing is written; an alert is sent |
| `App.CacheHitShortCircuits` | app.py:231-238 | past the deny-list, a cached `sha256` row is returned as cached, whatever the service holds, and nothing is written |
| `App.EmptyRemoteCachesEmptyVerdict` | app.py:241-250 | an empty remote answer caches all-zero counts and no engines under (sha256, "sha256"), leaves the deny-list alone, and sends no alert |
| `App.RemoteReportVerdict` | app.py:252-279 | remote counts come from the stats (`undetected` as clean, missing as 0); engines are normalised key by key; the raw report never alerts |
| `App.PromotionRule` | app.py:270-276 | a remote answer causes exactly one cache upsert; the hash ends up deny-listed exactly when the report counts at least 3 malicious engines; other hashes are unaffected |
| `App.SecondScanHitsCache` | app.py:231-276 | for a hash on neither store and not held under "url", an unpromoted remote answer is served from the cache on the next scan with the same verdict, whatever the service says then |
| `App.PromotedScanHitsDenyList` | app.py:223-276 | a promoted hash is answered by the deny-list on the next scan |
| `App.UrlRowShadowsHash` | app.py:231-272 | when an undeny-listed hash is held under "url" and the answer is not promoted, the write-back keeps that type, and the next scan goes to the service again |
| `App.ResolveUrl` | app.py:169-195 | the URL answer comes from the cache exactly when the URL is cached under "url", with the cached verdict; otherwise the verdict carries the service's engine table unchanged |
| `App.RowsAfterUrl` | app.py:197 | a cached answer leaves the cache as it is; a fresh one writes the verdict under the URL, with key type "url" for a new row and the old key type kept for an existing one; every other row is unchanged |
| `App.ResolveUrlAndStore` | app.py:169-197 | the URL answer equals `ResolveUrl` of the old cache and the service's table, and the cache afterwards equals `RowsAfterUrl` |
| `App.TallyUrlEngines` | app.py:183-193 | the bucket loop computes exactly `Tally` of the engine table |
| `App.CheckUrl` | app.py:159-202 | early answers touch no store; otherwise a cached verdict, or the tallied verdict of the service's table written under `url`, with key type "url" for a new row and the existing key type kept for an old one; the alert follows the verdict's counts |
| `App.UrlTallyCountsEveryEngine` | app.py:183-197 | a fresh URL verdict's four counts sum to the number of engines, each counting its bucket's engines, and the verdict is stored under the URL |
| `App.SecondUrlCheckHitsCache` | app.py:169-197 | for a URL not held under "sha256", checking it again is served from the cache with the same verdict |
| `App.Emitted` | app.py:143-153 | the emitted ticks are at most as many as the ticks so far, and each is one of them |
| `App.EmittedAreChangedTicks` | app.py:143-153 | frames are the ticks whose length differs from `last_len`, each once, in order |
| `App.LastLenIsLatestFrame` | app.py:143-153 | `last_len` is the length of the latest frame, or 0 |
| `App.FramesChangeLength` | app.py:151-153 | consecutive frames differ in length |
| `App.FirstFrameNonEmpty` | app.py:143-153 | the first frame is never an empty list |
| `App.EventStream` | app.py:142-154 | the loop emits exactly at the ticks whose length differs from the previous tick's, in increasing order |

## Left out

- hashing.py is not part of this model. Digests are opaque strings passed in.
- logger.py is not part of this model. Every `log_event` call is dropped, with one consequence: a corrupt logs.json makes `json.load` (logger.py:16-17) raise. `log_event` runs before `notify` and the render (app.py:176, 199, 226, 236, 248, 278). On the remote paths (app.py:199, 248, 278) such a failure aborts the route after the cache and deny-list writes. On the deny-list and cache-hit paths (app.py:176, 226, 236) it aborts with the stores unchanged. Either way there is no alert and no page; the model always reaches both.
- watcher.py (the single-folder variant) and bakup/app.py (an abandoned draft) are not part of this model.
- Flask routing, template rendering, saving the upload, and the history, settings, logs and PDF routes are not modelled. PDF generation uses reportlab. Pages are modelled as the template name and its arguments.
- Observer threads are not modelled, nor the `os.makedirs` of watched folders (watcher_multifolder.py:17-19, 84-103). Concurrent scans of the same key are not modelled either. All of these are concurrency or I/O.
- The `send_email`, `send_telegram` and `send_discord` transports are not modelled; `notify` yields the message it would post, or none.
- `time.sleep` cadences and the poll interval are not modelled. Wall-clock timestamps are integers, and ISO-format string comparison is compared as integer order.
- JSON decoding is modelled only as decoded or undecodable. A settings file or response whose top level is not an object is not modelled. Values other than strings and null (numbers, booleans, nested objects in place of strings) are not modelled, nor provider engine entries that are not objects. Nor is null where an object or a count is expected. Each of the following raises or miscomputes in the code and is not modelled:
  - `"data": null` or `"attributes": null` in a response (vt.py:52, 67, 69; app.py:252-253);
  - null `last_analysis_stats` (app.py:256);
  - a null `malicious` count, which reaches `None >= 3` at app.py:275.
- VirusTotal.CheckUrlVirusTotal: an undecodable submission response is not modelled. `resp.json()` of a 200/201 submission (vt.py:51) is outside any `try` and would raise.
- Watcher.WaitUntilFileIsReady: the real loop never returns without a ready pass. The model returns `None` when the given passes run out. OS errors other than PermissionError and FileNotFoundError, which propagate, are not modelled.
- Notifier.SortByName: the in-place `list.sort` is modelled as a function on values. The model does not assume distinct engine names, and the sort's stability among threats with equal names is not proved.
- App.EventStream: a failed `get_events` import is supplied as an empty snapshot; the frame content is the snapshot at the emitted tick.
- Notifier.SummarizeThreats and LocalDb.DenyList.ListHashes take `limit` as a parameter; the defaults `limit=5` (notifier.py:10) and `limit=100` (local_db.py:37) are not modelled, because nothing in this code base calls either function.
- The settings file is one value shared by config.py, vt.py and app.py. A file that changes between those reads is not modelled.
