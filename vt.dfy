/** vt.py: the client of the multi-engine service (VirusTotal API v3). The
    service is given as its answers: the outcome of the URL submission, the
    outcome of every poll attempt, and the outcome of the hash lookup. */
module VirusTotal {
  import opened Py
  import opened Schema
  import opened Config

  /** `for _ in range(120)`: the poll budget of a URL analysis. */
  const MaxPollAttempts := 120

  /** `get_vt_api_key`: the key from config.py wins when it is non-empty; otherwise
      a non-empty `vt_api_key` of a readable settings file; otherwise "". */
  function GetVtApiKey(configKey: Value, file: SettingsFile): (key: string)
    ensures Truthy(configKey) ==> key == configKey.s
    ensures !Truthy(configKey) && key != "" ==> file.Loaded? && file.doc.vtApiKey == Some(Str(key))
    ensures key == "" <==> !Truthy(configKey) && !(file.Loaded? && file.doc.vtApiKey.Some? && Truthy(file.doc.vtApiKey.value))
  {
    if Truthy(configKey) then configKey.s
    else if file.Loaded? then
      var key := GetOr(file.doc.vtApiKey, Str(""));
      if Truthy(key) then key.s else ""
    else ""
  }

  /** config.py reads its key from the same settings file when it is imported; as
      long as the file has not changed since, the key in use is the file's
      non-empty `vt_api_key`, or "". */
  lemma ImportedKeyFromSameFile(file: SettingsFile)
    requires LoadConfig(file).Ok?
    ensures var doc := LoadSettings(file);
      GetVtApiKey(LoadConfig(file).value.vtApiKey, file)
        == if doc.vtApiKey.Some? && Truthy(doc.vtApiKey.value) then doc.vtApiKey.value.s else ""
  {
  }

  /** The outcome of `POST /urls`: the request raised, or a status and `data.id`. */
  datatype SubmitOutcome = SubmitRaised | SubmitReply(status: int, analysisId: Value)

  /** The outcome of one `GET /analyses/{id}`: the request or `.json()` raised, or
      `data.attributes.status` (an absent status reads as "") and
      `data.attributes.results` (absent reads as `{}`). */
  datatype PollOutcome = PollRaised | PollReply(status: Value, results: seq<(string, RawEngine)>)

  /** The submission was answered with 200 or 201 and a non-empty analysis id. */
  predicate SubmitAccepted(o: SubmitOutcome) {
    o.SubmitReply? && (o.status == 200 || o.status == 201) && Truthy(o.analysisId)
  }

  /** Polling starts only with a key and an accepted submission. */
  predicate Polling(apiKey: string, submit: SubmitOutcome) {
    apiKey != "" && SubmitAccepted(submit)
  }

  predicate Completed(o: PollOutcome) {
    o.PollReply? && o.status == Str("completed")
  }

  /** The first attempt from `from` on, within the budget, that reports "completed". */
  function FirstCompleted(polls: nat -> PollOutcome, from: nat): (k: Option<nat>)
    ensures k.Some? ==> from <= k.value < MaxPollAttempts && Completed(polls(k.value))
    decreases MaxPollAttempts - from
  {
    if from >= MaxPollAttempts then None
    else if Completed(polls(from)) then Some(from)
    else FirstCompleted(polls, from + 1)
  }

  lemma {:induction false} FirstCompletedIsFirst(polls: nat -> PollOutcome, from: nat)
    ensures FirstCompleted(polls, from).Some? ==>
      var k := FirstCompleted(polls, from).value;
      from <= k < MaxPollAttempts && Completed(polls(k)) && forall j :: from <= j < k ==> !Completed(polls(j))
    ensures FirstCompleted(polls, from).None? ==> forall j :: from <= j < MaxPollAttempts ==> !Completed(polls(j))
    decreases MaxPollAttempts - from
  {
    if from < MaxPollAttempts && !Completed(polls(from)) {
      FirstCompletedIsFirst(polls, from + 1);
    }
  }

  /** The engine table a URL check returns, with the number of poll requests made. */
  datatype UrlScan = UrlScan(engines: seq<(string, EngineResult)>, pollsMade: nat)

  /** `check_url_virustotal` as a function of the service's answers. */
  function ScanUrl(apiKey: string, submit: SubmitOutcome, polls: nat -> PollOutcome): (r: UrlScan)
    ensures r.pollsMade <= MaxPollAttempts
    ensures !Polling(apiKey, submit) ==> r.engines == [] && r.pollsMade == 0
    ensures Polling(apiKey, submit) ==> 1 <= r.pollsMade
  {
    if !Polling(apiKey, submit) then UrlScan([], 0)
    else
      FirstCompletedIsFirst(polls, 0);
      match FirstCompleted(polls, 0)
      case Some(k) => UrlScan(NormalizeEngines(polls(k).results), k + 1)
      case None => UrlScan([], MaxPollAttempts)
  }

  /** Without a key or an accepted submission nothing is polled and the table is
      empty; otherwise polling stops at the first "completed" answer within 120
      attempts, whose results are normalised key by key, and a budget spent
      without one gives the empty table. A raised poll is an attempt like any other. */
  lemma ScanUrlOutcome(apiKey: string, submit: SubmitOutcome, polls: nat -> PollOutcome)
    ensures var r := ScanUrl(apiKey, submit, polls);
      && r.pollsMade <= MaxPollAttempts
      && (!Polling(apiKey, submit) ==> r.engines == [] && r.pollsMade == 0)
      && (Polling(apiKey, submit) ==>
            && 1 <= r.pollsMade
            && (forall j :: 0 <= j < r.pollsMade - 1 ==> !Completed(polls(j)))
            && (Completed(polls(r.pollsMade - 1)) ==> r.engines == NormalizeEngines(polls(r.pollsMade - 1).results))
            && (!Completed(polls(r.pollsMade - 1)) ==> r.engines == [] && r.pollsMade == MaxPollAttempts))
  {
    FirstCompletedIsFirst(polls, 0);
  }

  /** `check_url_virustotal`: submit, then poll up to 120 times, building the
      engine table in place on the first "completed" answer. */
  method CheckUrlVirusTotal(apiKey: string, submit: SubmitOutcome, polls: nat -> PollOutcome)
    returns (engines: seq<(string, EngineResult)>, pollsMade: nat)
    ensures UrlScan(engines, pollsMade) == ScanUrl(apiKey, submit, polls)
    ensures pollsMade <= MaxPollAttempts
    ensures !Polling(apiKey, submit) ==> engines == [] && pollsMade == 0
    ensures Polling(apiKey, submit) ==> 1 <= pollsMade && forall j :: 0 <= j < pollsMade - 1 ==> !Completed(polls(j))
    ensures (Polling(apiKey, submit) && 1 <= pollsMade && Completed(polls(pollsMade - 1)))
              ==> |engines| == |polls(pollsMade - 1).results|
                  && forall i :: 0 <= i < |engines| ==> engines[i].0 == polls(pollsMade - 1).results[i].0
    ensures (Polling(apiKey, submit) && 1 <= pollsMade && !Completed(polls(pollsMade - 1)))
              ==> engines == [] && pollsMade == MaxPollAttempts
  {
    engines, pollsMade := [], 0;
    if apiKey == "" {
      return;
    }
    if !SubmitAccepted(submit) {
      return;
    }
    var attempt := 0;
    while attempt < MaxPollAttempts
      invariant attempt <= MaxPollAttempts
      invariant forall j :: 0 <= j < attempt ==> !Completed(polls(j))
      invariant FirstCompleted(polls, attempt) == FirstCompleted(polls, 0)
      invariant engines == [] && pollsMade == 0
    {
      var reply := polls(attempt);
      if reply.PollReply? && reply.status == Str("completed") {
        var results := reply.results;
        var table := [];
        for i := 0 to |results|
          invariant table == NormalizeEngines(results[..i])
        {
          assert results[..i + 1][..i] == results[..i];
          table := table + [(results[i].0, NormalizeEngine(results[i].0, results[i].1))];
        }
        assert results[..|results|] == results;
        engines, pollsMade := table, attempt + 1;
        return;
      }
      attempt := attempt + 1;
    }
    pollsMade := MaxPollAttempts;
  }

  /** The outcome of `GET /files/{sha256}`: the request raised, or a status and a
      body, absent when `.json()` raises. */
  datatype HashOutcome = HashRaised | HashReply(status: int, body: Option<FileReport>)

  /** `check_filehash_virustotal`: one request; no key, a status other than 200, an
      exception or an undecodable body all give `{}`, and a 200 answer gives its
      parsed body unchanged. */
  function CheckFileHash(apiKey: string, reply: HashOutcome): (raw: FileReport)
    ensures apiKey == "" ==> raw == EmptyReport
    ensures raw != EmptyReport ==> reply == HashReply(200, Some(raw))
    ensures apiKey != "" && reply.HashReply? && reply.status == 200 && reply.body.Some? ==> raw == reply.body.value
  {
    if apiKey == "" then EmptyReport
    else match reply
      case HashRaised => EmptyReport
      case HashReply(status, body) =>
        if status != 200 then EmptyReport
        else if body.None? then EmptyReport
        else body.value
  }
}
