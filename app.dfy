/** app.py: the decision layer behind the `/upload_file`, `/check_url` and
    `/stream_events` routes. Each route is a method over the two stores and the
    answers of the remote service; what it decides is given by a function of the
    stores as they were, and the cross-request properties are lemmas about those
    functions. */
module App {
  import opened Py
  import opened Schema
  import opened Config
  import HistoryDb
  import LocalDb
  import VirusTotal
  import Notifier
  import EventStore

  const UploadFolder := "uploads"

  /** `counts.get("malicious", 0) >= 3`: the engine consensus that deny-lists a hash. */
  const PromotionThreshold := 3

  // ---------------------------------------------------------------- request gate

  /** The defaults of app.py's `load_settings` when settings.json does not exist. */
  const DefaultSettings := EmptyDoc.(vtApiKey := Some(Str("")), watchdogFolders := Some(Str("")),
                                     discordWebhook := Some(Str("")), emailTo := Some(Str("")),
                                     scanningEnabled := Some(Str("yes")))

  /** app.py's own `load_settings`: unlike config.py's it has defaults for a
      missing file and lets an undecodable one raise. */
  function AppSettings(file: SettingsFile): (r: Result<SettingsDoc>)
    ensures file.Missing? ==> r.Ok? && r.value.scanningEnabled == Some(Str("yes"))
    ensures file.Malformed? <==> r.Raised?
    ensures file.Loaded? ==> r == Ok(file.doc)
  {
    match file
    case Missing => Ok(DefaultSettings)
    case Malformed => Raised("JSONDecodeError")
    case Loaded(doc) => Ok(doc)
  }

  /** `settings.get("scanning_enabled") == "no"`: only the exact string disables. */
  predicate ScanningDisabled(doc: SettingsDoc) {
    doc.scanningEnabled == Some(Str("no"))
  }

  /** A rendered page: the template and what it is given. */
  datatype Page =
    | DisabledPage
    | EmptyInputPage
    | ResultPage(template: string, engines: seq<(string, EngineResult)>, counts: Counts, hashes: Option<Digests>)

  /** The answer a route gives before it touches a store, if it stops early: an
      undecodable settings file raises, disabled scanning and an input that is
      absent or blank after stripping each have their page. */
  function Preflight(file: SettingsFile, input: Option<string>): (early: Option<Result<Page>>)
    ensures early.None? <==> AppSettings(file).Ok? && !ScanningDisabled(AppSettings(file).value)
                             && input.Some? && Strip(input.value) != ""
    ensures file.Malformed? ==> early.Some? && early.value.Raised?
    ensures AppSettings(file).Ok? && ScanningDisabled(AppSettings(file).value) ==> early == Some(Ok(DisabledPage))
  {
    match AppSettings(file)
    case Raised(e) => Some(Raised(e))
    case Ok(doc) =>
      if ScanningDisabled(doc) then Some(Ok(DisabledPage))
      else if input.None? || Strip(input.value) == "" then Some(Ok(EmptyInputPage))
      else None
  }

  /** `os.path.join(UPLOAD_FOLDER, file.filename)`: an absolute name replaces the folder. */
  function UploadPath(filename: string): (path: string)
    ensures filename != [] && filename[0] == '/' ==> path == filename
    ensures !(filename != [] && filename[0] == '/') ==> path == UploadFolder + "/" + filename
  {
    if filename != [] && filename[0] == '/' then filename else UploadFolder + "/" + filename
  }

  // ---------------------------------------------------------------- upload_file

  /** Which of the three tiers answered, the remote one with or without a report. */
  datatype Tier = LocalHit | CacheHit | RemoteEmpty | RemoteReport

  /** The file verdict shown, and the `vt_result` passed to `notify` beside it. */
  datatype FileResolution = FileResolution(tier: Tier, verdict: Verdict, notified: Payload)

  /** The verdict of a deny-listed hash: one malicious engine, `LocalDB`. */
  const LocalVerdict := Verdict(Counts(1, 0, 0, 0), [("LocalDB", EngineResult("malicious", Str("Local Signature DB")))])

  function OrZero(n: Option<nat>): nat {
    if n.Some? then n.value else 0
  }

  /** The counts of app.py:255-260, taken from `last_analysis_stats`. */
  function CountsFromStats(s: Stats): (c: Counts)
    ensures c.malicious == OrZero(s.malicious) && c.suspicious == OrZero(s.suspicious)
    ensures c.clean == OrZero(s.undetected) && c.harmless == OrZero(s.harmless)
  {
    Counts(OrZero(s.malicious), OrZero(s.suspicious), OrZero(s.undetected), OrZero(s.harmless))
  }

  /** The normalised form of a non-empty report. */
  function ReportVerdict(raw: FileReport): (v: Verdict)
    requires raw.Report?
    ensures v.counts == CountsFromStats(raw.stats)
    ensures |v.engines| == |raw.results|
    ensures forall i :: 0 <= i < |v.engines| ==> v.engines[i].0 == raw.results[i].0
  {
    Verdict(CountsFromStats(raw.stats), NormalizeEngines(raw.results))
  }

  /** The three tiers of `upload_file` for a hash: the deny-list, then a cached
      `sha256` row, then the report of the remote lookup. */
  function ResolveFile(deny: map<string, int>, rows: map<string, HistoryDb.Row>, sha256: string, raw: FileReport): (s: FileResolution)
    ensures s.tier == LocalHit <==> sha256 in deny
    ensures s.tier == LocalHit ==> s.verdict == LocalVerdict
    ensures s.tier == CacheHit <==> sha256 !in deny && HistoryDb.Lookup(rows, sha256, "sha256").Some?
    ensures s.tier == CacheHit ==> s.verdict == HistoryDb.Lookup(rows, sha256, "sha256").value.result
    ensures s.tier == RemoteEmpty <==> sha256 !in deny && HistoryDb.Lookup(rows, sha256, "sha256").None? && raw == EmptyReport
    ensures s.tier == RemoteEmpty ==> s.verdict == EmptyVerdict
    ensures s.tier == RemoteReport ==> raw.Report? && s.verdict == ReportVerdict(raw)
    ensures (s.tier == RemoteEmpty || s.tier == RemoteReport) ==> s.notified == ReportPayload(raw)
    ensures (s.tier == LocalHit || s.tier == CacheHit) ==> s.notified == VerdictPayload(s.verdict)
  {
    if sha256 in deny then FileResolution(LocalHit, LocalVerdict, VerdictPayload(LocalVerdict))
    else match HistoryDb.Lookup(rows, sha256, "sha256")
      case Some(cached) => FileResolution(CacheHit, cached.result, VerdictPayload(cached.result))
      case None =>
        if raw == EmptyReport then FileResolution(RemoteEmpty, EmptyVerdict, ReportPayload(EmptyReport))
        else FileResolution(RemoteReport, ReportVerdict(raw), ReportPayload(raw))
  }

  predicate Remote(t: Tier) {
    t == RemoteEmpty || t == RemoteReport
  }

  /** The cache after the request: one upsert of the verdict on the remote tiers. */
  function RowsAfterFile(rows: map<string, HistoryDb.Row>, sha256: string, s: FileResolution, now: int): (r: map<string, HistoryDb.Row>)
    ensures !Remote(s.tier) ==> r == rows
    ensures Remote(s.tier) ==> sha256 in r && r[sha256].result == HistoryDb.Decoded(s.verdict) && r[sha256].lastScanned == now
    ensures r.Keys <= rows.Keys + {sha256}
    ensures forall k :: k in rows && k != sha256 ==> k in r && r[k] == rows[k]
  {
    if Remote(s.tier) then HistoryDb.Upsert(rows, sha256, "sha256", s.verdict, now) else rows
  }

  /** The deny-list after the request: the hash is added on a remote report with at
      least `PromotionThreshold` malicious engines. */
  function DenyAfterFile(deny: map<string, int>, sha256: string, s: FileResolution, now: int): (d: map<string, int>)
    ensures sha256 in d <==> sha256 in deny || (s.tier == RemoteReport && s.verdict.counts.malicious >= PromotionThreshold)
    ensures forall k :: k != sha256 ==> (k in d <==> k in deny)
    ensures forall k :: k in deny ==> k in d && d[k] == deny[k]
  {
    if s.tier == RemoteReport && s.verdict.counts.malicious >= PromotionThreshold then LocalDb.Inserted(deny, sha256, now)
    else deny
  }

  /** The deny-list hit renders file_result.html; every other tier file_results.html. */
  function FileTemplate(t: Tier): (name: string)
    ensures name == "file_result.html" <==> t == LocalHit
    ensures name != "file_result.html" ==> name == "file_results.html"
  {
    if t == LocalHit then "file_result.html" else "file_results.html"
  }

  /** The message `notify` posts for a request, if any. */
  function AlertFor(eventType: string, filePath: string, url: string, hashes: Option<Digests>, p: Payload): (a: Option<string>)
    ensures a.Some? <==> p.VerdictPayload? && (p.verdict.counts.malicious != 0 || p.verdict.counts.suspicious != 0)
    ensures a.Some? ==> Notifier.Header(eventType) <= a.value
  {
    if Notifier.Alerts(p)
    then Some(Notifier.AlertMessage(eventType, filePath, url, hashes, Notifier.DetectionCounts(p).0, Notifier.DetectionCounts(p).1))
    else None
  }

  /** The three tiers of `upload_file` against the stores, with the write-back to
      the cache and the promotion to the deny-list. */
  method ResolveAndStore(sha256: string, apiKey: string, reply: VirusTotal.HashOutcome,
                         history: HistoryDb.HistoryTable, deny: LocalDb.DenyList, now: int)
    returns (s: FileResolution)
    modifies history, deny
    ensures s == ResolveFile(old(deny.hashes), old(history.rows), sha256, VirusTotal.CheckFileHash(apiKey, reply))
    ensures history.rows == RowsAfterFile(old(history.rows), sha256, s, now)
    ensures deny.hashes == DenyAfterFile(old(deny.hashes), sha256, s, now)
  {
    ghost var rows0, deny0 := history.rows, deny.hashes;
    var listed := deny.IsMaliciousLocal(sha256);
    if listed {
      return FileResolution(LocalHit, LocalVerdict, VerdictPayload(LocalVerdict));
    }
    var cached := history.GetCachedResult(sha256, "sha256");
    if cached.Some? {
      return FileResolution(CacheHit, cached.value.result, VerdictPayload(cached.value.result));
    }
    var raw := VirusTotal.CheckFileHash(apiKey, reply);
    s := StoreRemote(sha256, raw, history, deny, now);
  }

  /** The remote tier of `upload_file`: a hash on neither store is looked up at
      VirusTotal, the answer is cached, and a report with enough malicious
      engines promotes the hash to the deny-list. */
  method StoreRemote(sha256: string, raw: FileReport, history: HistoryDb.HistoryTable, deny: LocalDb.DenyList, now: int)
    returns (s: FileResolution)
    requires sha256 !in deny.hashes && HistoryDb.Lookup(history.rows, sha256, "sha256").None?
    modifies history, deny
    ensures s == ResolveFile(old(deny.hashes), old(history.rows), sha256, raw)
    ensures history.rows == RowsAfterFile(old(history.rows), sha256, s, now)
    ensures deny.hashes == DenyAfterFile(old(deny.hashes), sha256, s, now)
  {
    ghost var rows0, deny0 := history.rows, deny.hashes;
    if raw == EmptyReport {
      s := FileResolution(RemoteEmpty, EmptyVerdict, ReportPayload(EmptyReport));
      assert s == ResolveFile(deny0, rows0, sha256, raw);
      history.AddOrUpdateCache(sha256, "sha256", EmptyVerdict, now);
      assert history.rows == RowsAfterFile(rows0, sha256, s, now);
      return;
    }
    var counts := CountsFromStats(raw.stats);
    var engines := NormalizeEngines(raw.results);
    var normalized := Verdict(counts, engines);
    s := FileResolution(RemoteReport, normalized, ReportPayload(raw));
    assert s == ResolveFile(deny0, rows0, sha256, raw);
    history.AddOrUpdateCache(sha256, "sha256", normalized, now);
    assert history.rows == RowsAfterFile(rows0, sha256, s, now);
    if counts.malicious >= PromotionThreshold {
      deny.AddMaliciousHash(sha256, now);
    }
    assert deny.hashes == DenyAfterFile(deny0, sha256, s, now);
  }

  /** `upload_file`: the gate, then the three tiers, the write-back to the cache,
      the promotion to the deny-list, and the alert. `hashes` are the digests of
      the saved upload and `configKey` is config.py's `VT_API_KEY`. */
  method UploadFile(file: SettingsFile, filename: Option<string>, hashes: Digests, configKey: Value,
                    reply: VirusTotal.HashOutcome, history: HistoryDb.HistoryTable, deny: LocalDb.DenyList, now: int)
    returns (page: Result<Page>, alert: Option<string>)
    modifies history, deny
    ensures Preflight(file, filename).Some? ==>
      && page == Preflight(file, filename).value && alert.None?
      && history.rows == old(history.rows) && deny.hashes == old(deny.hashes)
    ensures Preflight(file, filename).None? ==>
      var raw := VirusTotal.CheckFileHash(VirusTotal.GetVtApiKey(configKey, file), reply);
      var s := ResolveFile(old(deny.hashes), old(history.rows), hashes.sha256, raw);
      && page == Ok(ResultPage(FileTemplate(s.tier), s.verdict.engines, s.verdict.counts, Some(hashes)))
      && history.rows == RowsAfterFile(old(history.rows), hashes.sha256, s, now)
      && deny.hashes == DenyAfterFile(old(deny.hashes), hashes.sha256, s, now)
      && alert == AlertFor("manual_file_scan", UploadPath(filename.value), "", Some(hashes), s.notified)
  {
    var early := Preflight(file, filename);
    if early.Some? {
      return early.value, None;
    }
    var path := UploadPath(filename.value);
    var apiKey := VirusTotal.GetVtApiKey(configKey, file);
    var s := ResolveAndStore(hashes.sha256, apiKey, reply, history, deny, now);
    alert := Notifier.Notify("manual_file_scan", path, "", Some(hashes), s.notified);
    page := Ok(ResultPage(FileTemplate(s.tier), s.verdict.engines, s.verdict.counts, Some(hashes)));
  }

  /** A deny-listed hash is answered by the deny-list whatever the cache and the
      service hold: one malicious engine, `LocalDB`, nothing written, and an alert. */
  lemma DenyListShortCircuits(deny: map<string, int>, rows: map<string, HistoryDb.Row>, sha256: string, raw: FileReport, now: int)
    requires sha256 in deny
    ensures var s := ResolveFile(deny, rows, sha256, raw);
      && s.tier == LocalHit
      && s.verdict.counts == Counts(1, 0, 0, 0)
      && s.verdict.engines == [("LocalDB", EngineResult("malicious", Str("Local Signature DB")))]
      && RowsAfterFile(rows, sha256, s, now) == rows
      && DenyAfterFile(deny, sha256, s, now) == deny
      && Notifier.Alerts(s.notified)
  {
  }

  /** Past the deny-list, a cached `sha256` row is answered as cached whatever the
      service holds, and nothing is written. */
  lemma CacheHitShortCircuits(deny: map<string, int>, rows: map<string, HistoryDb.Row>, sha256: string, raw: FileReport, now: int)
    requires sha256 !in deny && HistoryDb.Lookup(rows, sha256, "sha256").Some?
    ensures var s := ResolveFile(deny, rows, sha256, raw);
      && s.tier == CacheHit
      && s.verdict == rows[sha256].result.verdict
      && RowsAfterFile(rows, sha256, s, now) == rows
      && DenyAfterFile(deny, sha256, s, now) == deny
  {
  }

  /** An empty remote answer (no key, an error, a non-200 status) caches the
      all-zero verdict under (sha256, "sha256"), leaves the deny-list alone and
      raises no alert. */
  lemma EmptyRemoteCachesEmptyVerdict(deny: map<string, int>, rows: map<string, HistoryDb.Row>, sha256: string, now: int)
    requires sha256 !in deny && HistoryDb.Lookup(rows, sha256, "sha256").None?
    ensures var s := ResolveFile(deny, rows, sha256, EmptyReport);
      && s.tier == RemoteEmpty
      && s.verdict == Verdict(NoCounts, [])
      && RowsAfterFile(rows, sha256, s, now) == HistoryDb.Upsert(rows, sha256, "sha256", EmptyVerdict, now)
      && DenyAfterFile(deny, sha256, s, now) == deny
      && !Notifier.Alerts(s.notified)
  {
  }

  /** A remote report's counts come from its stats, `undetected` shown as clean and
      a missing field as 0; its engines are normalised key by key (category, else
      result, else "clean"; the key when `engine_name` is absent); and the alert
      is never raised, because the raw report carries no top-level counts. */
  lemma RemoteReportVerdict(deny: map<string, int>, rows: map<string, HistoryDb.Row>, sha256: string, raw: FileReport)
    requires sha256 !in deny && HistoryDb.Lookup(rows, sha256, "sha256").None? && raw.Report?
    ensures var s := ResolveFile(deny, rows, sha256, raw);
      && s.tier == RemoteReport
      && s.verdict.counts.malicious == (if raw.stats.malicious.Some? then raw.stats.malicious.value else 0)
      && s.verdict.counts.suspicious == (if raw.stats.suspicious.Some? then raw.stats.suspicious.value else 0)
      && s.verdict.counts.clean == (if raw.stats.undetected.Some? then raw.stats.undetected.value else 0)
      && s.verdict.counts.harmless == (if raw.stats.harmless.Some? then raw.stats.harmless.value else 0)
      && |s.verdict.engines| == |raw.results|
      && (forall i :: 0 <= i < |raw.results| ==>
            s.verdict.engines[i] == (raw.results[i].0, NormalizeEngine(raw.results[i].0, raw.results[i].1)))
      && !Notifier.Alerts(s.notified)
  {
  }

  /** On the remote tiers the cache gets exactly one upsert of the shown verdict,
      and the hash ends up deny-listed exactly when it already was or a report
      counted at least three malicious engines. */
  lemma PromotionRule(deny: map<string, int>, rows: map<string, HistoryDb.Row>, sha256: string, raw: FileReport, now: int)
    requires sha256 !in deny && HistoryDb.Lookup(rows, sha256, "sha256").None?
    ensures var s := ResolveFile(deny, rows, sha256, raw);
      && Remote(s.tier)
      && RowsAfterFile(rows, sha256, s, now) == HistoryDb.Upsert(rows, sha256, "sha256", s.verdict, now)
      && (sha256 in DenyAfterFile(deny, sha256, s, now) <==> raw.Report? && OrZero(raw.stats.malicious) >= 3)
      && (forall h :: h != sha256 ==> (h in DenyAfterFile(deny, sha256, s, now) <==> h in deny))
  {
  }

  /** Scanning the same file twice: a remote answer that was not promoted is
      answered from the cache the second time, with the same verdict, whatever
      the service says then, provided no row of another key type holds the key. */
  lemma SecondScanHitsCache(deny: map<string, int>, rows: map<string, HistoryDb.Row>, sha256: string,
                            raw: FileReport, raw2: FileReport, now: int)
    requires sha256 !in deny && HistoryDb.Lookup(rows, sha256, "sha256").None?
    requires sha256 !in rows || rows[sha256].keyType == "sha256"
    requires !(raw.Report? && OrZero(raw.stats.malicious) >= PromotionThreshold)
    ensures var s := ResolveFile(deny, rows, sha256, raw);
      var s2 := ResolveFile(DenyAfterFile(deny, sha256, s, now), RowsAfterFile(rows, sha256, s, now), sha256, raw2);
      s2.tier == CacheHit && s2.verdict == s.verdict
  {
  }

  /** A promoted hash is answered by the deny-list from then on. */
  lemma PromotedScanHitsDenyList(deny: map<string, int>, rows: map<string, HistoryDb.Row>, sha256: string,
                                 raw: FileReport, raw2: FileReport, now: int)
    requires sha256 !in deny && HistoryDb.Lookup(rows, sha256, "sha256").None?
    requires raw.Report? && OrZero(raw.stats.malicious) >= PromotionThreshold
    ensures var s := ResolveFile(deny, rows, sha256, raw);
      var s2 := ResolveFile(DenyAfterFile(deny, sha256, s, now), RowsAfterFile(rows, sha256, s, now), sha256, raw2);
      s2.tier == LocalHit && s2.verdict == LocalVerdict
  {
  }

  /** A URL that happens to equal the hash holds the key under "url", so the write
      back keeps that key type and every later scan of the file asks the service
      again: the second scan is not served from the cache. */
  lemma UrlRowShadowsHash(deny: map<string, int>, rows: map<string, HistoryDb.Row>, sha256: string,
                          raw: FileReport, raw2: FileReport, now: int)
    requires sha256 !in deny && sha256 in rows && rows[sha256].keyType == "url"
    requires !(raw.Report? && OrZero(raw.stats.malicious) >= PromotionThreshold)
    ensures var s := ResolveFile(deny, rows, sha256, raw);
      var s2 := ResolveFile(DenyAfterFile(deny, sha256, s, now), RowsAfterFile(rows, sha256, s, now), sha256, raw2);
      && Remote(s.tier) && Remote(s2.tier)
      && RowsAfterFile(rows, sha256, s, now)[sha256].keyType == "url"
  {
  }

  // ---------------------------------------------------------------- check_url

  /** A URL verdict: from the cache, or tallied from the remote engine table. */
  datatype UrlResolution = UrlResolution(cached: bool, verdict: Verdict)

  /** `check_url` for a stripped URL: a cached `url` row, or the counts tallied
      over the table the service returned. */
  function ResolveUrl(rows: map<string, HistoryDb.Row>, url: string, engines: seq<(string, EngineResult)>): (s: UrlResolution)
    ensures s.cached <==> HistoryDb.Lookup(rows, url, "url").Some?
    ensures s.cached ==> s.verdict == HistoryDb.Lookup(rows, url, "url").value.result
    ensures !s.cached ==> s.verdict.engines == engines
  {
    match HistoryDb.Lookup(rows, url, "url")
    case Some(cached) => UrlResolution(true, cached.result)
    case None => UrlResolution(false, Verdict(Tally(engines), engines))
  }

  function RowsAfterUrl(rows: map<string, HistoryDb.Row>, url: string, s: UrlResolution, now: int): (r: map<string, HistoryDb.Row>)
    ensures s.cached ==> r == rows
    ensures !s.cached ==> url in r && r[url].result == HistoryDb.Decoded(s.verdict)
    ensures !s.cached ==> r[url].keyType == if url in rows then rows[url].keyType else "url"
    ensures forall k :: k in rows && k != url ==> k in r && r[k] == rows[k]
  {
    if s.cached then rows else HistoryDb.Upsert(rows, url, "url", s.verdict, now)
  }

  /** The bucket loop of `check_url`: one increment per engine, into the bucket
      its `result` (else `category`, else "clean") names. */
  method TallyUrlEngines(engines: seq<(string, EngineResult)>) returns (counts: Counts)
    ensures counts == Tally(engines)
  {
    counts := NoCounts;
    for i := 0 to |engines|
      invariant counts == Tally(engines[..i])
    {
      var category := UrlCategory(engines[i].1);
      ghost var before := counts;
      if category == "malicious" {
        counts := counts.(malicious := counts.malicious + 1);
      } else if category == "suspicious" {
        counts := counts.(suspicious := counts.suspicious + 1);
      } else if category == "harmless" {
        counts := counts.(harmless := counts.harmless + 1);
      } else {
        counts := counts.(clean := counts.clean + 1);
      }
      assert counts == Bump(before, BucketOf(category));
      TallyStep(engines, i);
    }
    assert engines[..|engines|] == engines;
  }

  /** The cache lookup of `check_url`, otherwise the remote check, the bucket
      tally and the write-back under (url, "url"). */
  method ResolveUrlAndStore(url: string, apiKey: string, submit: VirusTotal.SubmitOutcome,
                            polls: nat -> VirusTotal.PollOutcome, history: HistoryDb.HistoryTable, now: int)
    returns (s: UrlResolution)
    modifies history
    ensures s == ResolveUrl(old(history.rows), url, VirusTotal.ScanUrl(apiKey, submit, polls).engines)
    ensures history.rows == RowsAfterUrl(old(history.rows), url, s, now)
  {
    ghost var rows := history.rows;
    ghost var scanned := VirusTotal.ScanUrl(apiKey, submit, polls).engines;
    var cached := history.GetCachedResult(url, "url");
    if cached.Some? {
      s := UrlResolution(true, cached.value.result);
      assert s == ResolveUrl(rows, url, scanned);
      return;
    }
    var engines, _ := VirusTotal.CheckUrlVirusTotal(apiKey, submit, polls);
    assert engines == scanned;
    var counts := TallyUrlEngines(engines);
    s := UrlResolution(false, Verdict(counts, engines));
    assert s == ResolveUrl(rows, url, scanned);
    history.AddOrUpdateCache(url, "url", s.verdict, now);
  }

  /** `check_url`: the gate, the cache, otherwise the remote check, the bucket
      tally, the write-back, and the alert. */
  method CheckUrl(file: SettingsFile, urlField: string, configKey: Value, submit: VirusTotal.SubmitOutcome,
                  polls: nat -> VirusTotal.PollOutcome, history: HistoryDb.HistoryTable, now: int)
    returns (page: Result<Page>, alert: Option<string>)
    modifies history
    ensures Preflight(file, Some(urlField)).Some? ==>
      page == Preflight(file, Some(urlField)).value && alert.None? && history.rows == old(history.rows)
    ensures Preflight(file, Some(urlField)).None? ==>
      var url := Strip(urlField);
      var engines := VirusTotal.ScanUrl(VirusTotal.GetVtApiKey(configKey, file), submit, polls).engines;
      var s := ResolveUrl(old(history.rows), url, engines);
      && page == Ok(ResultPage("result.html", s.verdict.engines, s.verdict.counts, None))
      && history.rows == RowsAfterUrl(old(history.rows), url, s, now)
      && alert == AlertFor("manual_url_scan", "", url, None, VerdictPayload(s.verdict))
  {
    var early := Preflight(file, Some(urlField));
    if early.Some? {
      return early.value, None;
    }
    var url := Strip(urlField);
    var s := ResolveUrlAndStore(url, VirusTotal.GetVtApiKey(configKey, file), submit, polls, history, now);
    var verdict := s.verdict;
    alert := Notifier.Notify("manual_url_scan", "", url, None, VerdictPayload(verdict));
    page := Ok(ResultPage("result.html", verdict.engines, verdict.counts, None));
  }

  /** A fresh URL verdict counts every engine in exactly one bucket, each bucket
      holding the engines whose `result` (else "clean") names it, and is cached
      under (url, "url"). */
  lemma UrlTallyCountsEveryEngine(rows: map<string, HistoryDb.Row>, url: string, engines: seq<(string, EngineResult)>, now: int)
    requires HistoryDb.Lookup(rows, url, "url").None?
    ensures var s := ResolveUrl(rows, url, engines);
      && !s.cached
      && Total(s.verdict.counts) == |engines|
      && s.verdict.counts.malicious == |InBucket(engines, MaliciousBucket)|
      && s.verdict.counts.suspicious == |InBucket(engines, SuspiciousBucket)|
      && s.verdict.counts.harmless == |InBucket(engines, HarmlessBucket)|
      && s.verdict.counts.clean == |InBucket(engines, CleanBucket)|
      && RowsAfterUrl(rows, url, s, now)[url].result == HistoryDb.Decoded(s.verdict)
  {
    var c := Tally(engines);
    var s := ResolveUrl(rows, url, engines);
    assert s == UrlResolution(false, Verdict(c, engines));
    TallyTotal(engines);
    TallyByBucket(engines);
  }

  /** Checking the same URL twice: the second check is answered from the cache
      with the first check's verdict, whatever the service says then, unless a row
      of another key type already held the URL. */
  lemma SecondUrlCheckHitsCache(rows: map<string, HistoryDb.Row>, url: string,
                                engines: seq<(string, EngineResult)>, engines2: seq<(string, EngineResult)>, now: int)
    requires url !in rows || rows[url].keyType == "url"
    ensures var s := ResolveUrl(rows, url, engines);
      var s2 := ResolveUrl(RowsAfterUrl(rows, url, s, now), url, engines2);
      s2.cached && s2.verdict == s.verdict
  {
  }

  // ---------------------------------------------------------------- stream_events

  /** `last_len` when the stream reads its `t`-th snapshot: the length of the
      previous snapshot, because a snapshot of another length is emitted and
      resets it, and one of the same length leaves it equal. */
  function LengthBefore(snapshots: seq<seq<EventStore.Event>>, t: nat): nat
    requires t <= |snapshots|
  {
    if t == 0 then 0 else |snapshots[t - 1]|
  }

  /** The stream yields at tick `t`: the snapshot's length is not `last_len`. */
  predicate Changed(snapshots: seq<seq<EventStore.Event>>, t: nat)
    requires t < |snapshots|
  {
    |snapshots[t]| != LengthBefore(snapshots, t)
  }

  /** The ticks before `n` at which the stream yields, in order. */
  function Emitted(snapshots: seq<seq<EventStore.Event>>, n: nat): (e: seq<nat>)
    requires n <= |snapshots|
    ensures |e| <= n
    ensures forall i :: 0 <= i < |e| ==> e[i] < n
  {
    if n == 0 then [] else Emitted(snapshots, n - 1) + (if Changed(snapshots, n - 1) then [n - 1] else [])
  }

  /** The frames are the changed ticks, each once, in increasing order. */
  lemma {:induction false} EmittedAreChangedTicks(snapshots: seq<seq<EventStore.Event>>, n: nat)
    requires n <= |snapshots|
    ensures forall i, j :: 0 <= i < j < |Emitted(snapshots, n)| ==> Emitted(snapshots, n)[i] < Emitted(snapshots, n)[j]
    ensures forall t :: 0 <= t < n ==> (t in Emitted(snapshots, n) <==> Changed(snapshots, t))
  {
    if n > 0 {
      EmittedAreChangedTicks(snapshots, n - 1);
    }
  }

  /** `last_len` is the length of the latest frame, or 0 before the first. */
  lemma {:induction false} LastLenIsLatestFrame(snapshots: seq<seq<EventStore.Event>>, n: nat)
    requires n <= |snapshots|
    ensures var e := Emitted(snapshots, n);
      LengthBefore(snapshots, n) == if e == [] then 0 else |snapshots[e[|e| - 1]]|
  {
    EmittedAreChangedTicks(snapshots, n);
    if n > 0 {
      LastLenIsLatestFrame(snapshots, n - 1);
    }
  }

  /** Consecutive frames differ in length. */
  lemma {:induction false} FramesChangeLength(snapshots: seq<seq<EventStore.Event>>, n: nat)
    requires n <= |snapshots|
    ensures var e := Emitted(snapshots, n);
      forall i :: 0 < i < |e| ==> |snapshots[e[i]]| != |snapshots[e[i - 1]]|
  {
    if n > 0 {
      var prev := Emitted(snapshots, n - 1);
      var e := Emitted(snapshots, n);
      FramesChangeLength(snapshots, n - 1);
      if Changed(snapshots, n - 1) {
        LastLenIsLatestFrame(snapshots, n - 1);
        assert e == prev + [n - 1];
        forall i | 0 < i < |e|
          ensures |snapshots[e[i]]| != |snapshots[e[i - 1]]|
        {
          if i < |prev| {
            assert e[i] == prev[i] && e[i - 1] == prev[i - 1];
          } else {
            assert e[i] == n - 1 && e[i - 1] == prev[|prev| - 1];
          }
        }
      } else {
        assert e == prev;
        assert forall i :: 0 < i < |prev| ==> |snapshots[prev[i]]| != |snapshots[prev[i - 1]]|;
      }
    }
  }

  /** The first frame is never the empty list: `last_len` starts at 0. */
  lemma {:induction false} FirstFrameNonEmpty(snapshots: seq<seq<EventStore.Event>>, n: nat)
    requires n <= |snapshots|
    ensures Emitted(snapshots, n) != [] ==> |snapshots[Emitted(snapshots, n)[0]]| != 0
  {
    if n > 0 {
      var prev := Emitted(snapshots, n - 1);
      var e := Emitted(snapshots, n);
      assert e == prev + (if Changed(snapshots, n - 1) then [n - 1] else []);
      FirstFrameNonEmpty(snapshots, n - 1);
      if prev != [] {
        assert e[0] == prev[0];
      } else if Changed(snapshots, n - 1) {
        LastLenIsLatestFrame(snapshots, n - 1);
        assert LengthBefore(snapshots, n - 1) == 0;
        assert e == [n - 1];
      }
    }
  }

  /** `event_stream` over the successive results of `get_events()` (an empty list
      when the import fails): the ticks at which it yields a frame. A tick yields
      exactly when its length differs from the previous tick's (from 0 at the
      first), so consecutive frames differ in length. */
  method EventStream(snapshots: seq<seq<EventStore.Event>>) returns (frames: seq<nat>)
    ensures frames == Emitted(snapshots, |snapshots|)
    ensures forall t :: 0 <= t < |snapshots| ==> (t in frames <==> |snapshots[t]| != LengthBefore(snapshots, t))
    ensures forall i, j :: 0 <= i < j < |frames| ==> frames[i] < frames[j]
    ensures forall i :: 0 < i < |frames| ==> |snapshots[frames[i]]| != |snapshots[frames[i - 1]]|
    ensures frames != [] ==> |snapshots[frames[0]]| != 0
  {
    var lastLen := 0;
    frames := [];
    for t := 0 to |snapshots|
      invariant lastLen == LengthBefore(snapshots, t)
      invariant frames == Emitted(snapshots, t)
    {
      var events := snapshots[t];
      if |events| != lastLen {
        lastLen := |events|;
        frames := frames + [t];
      }
    }
    EmittedAreChangedTicks(snapshots, |snapshots|);
    FramesChangeLength(snapshots, |snapshots|);
    FirstFrameNonEmpty(snapshots, |snapshots|);
  }
}
