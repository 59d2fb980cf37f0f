/** The shapes of scan results: per-engine entries as the provider sends them
    and as the scanner stores them, the four-bucket counts, verdicts, the raw
    file report, and the rules that turn one into the other (the engine-table
    normalisation of vt.py and app.py, and the bucket tally of app.py). */
module Schema {
  import opened Py

  /** The `counts` dictionary: {"malicious", "suspicious", "clean", "harmless"}. */
  datatype Counts = Counts(malicious: nat, suspicious: nat, clean: nat, harmless: nat)

  const NoCounts := Counts(0, 0, 0, 0)

  function Total(c: Counts): nat {
    c.malicious + c.suspicious + c.clean + c.harmless
  }

  /** One engine's entry as the provider sends it; every field may be absent. */
  datatype RawEngine = RawEngine(category: Option<Value>, result: Option<Value>, engineName: Option<Value>)

  /** One engine's entry as the scanner builds it: {"result": ..., "engine_name": ...}. */
  datatype EngineResult = EngineResult(result: string, engineName: Value)

  /** The normalised form {"counts": ..., "engines": ...} that the cache holds.
      `engines` is a Python dict, kept in its insertion order. */
  datatype Verdict = Verdict(counts: Counts, engines: seq<(string, EngineResult)>)

  const EmptyVerdict := Verdict(NoCounts, [])

  /** The digests dictionary {"md5": ..., "sha256": ...} of a file. */
  datatype Digests = Digests(md5: string, sha256: string)

  /** The fields of `last_analysis_stats` that the scanner reads; each may be absent. */
  datatype Stats = Stats(malicious: Option<nat>, suspicious: Option<nat>, undetected: Option<nat>, harmless: Option<nat>)

  /** The parsed body of a file-hash lookup: `{}`, or a non-empty document of which
      `data.attributes.last_analysis_stats` and `data.attributes.last_analysis_results`
      are used (each absent level reads as `{}`). */
  datatype FileReport = EmptyReport | Report(stats: Stats, results: seq<(string, RawEngine)>)

  /** What is passed as `vt_result` to `notify` and to the event store. */
  datatype Payload = NoPayload | VerdictPayload(verdict: Verdict) | ReportPayload(report: FileReport)

  /** `info.get("category") or info.get("result") or "clean"` (vt.py:73, app.py:264). */
  function ResolveCategory(e: RawEngine): (r: string)
    ensures r != ""
  {
    FirstTruthy(Get(e.category), Get(e.result), "clean")
  }

  /** One normalised entry: the resolved category as "result", and
      `info.get("engine_name", eng)` as "engine_name". */
  function NormalizeEngine(key: string, e: RawEngine): (r: EngineResult)
    ensures r.result != ""
    ensures e.engineName.None? ==> r.engineName == Str(key)
    ensures e.engineName.Some? ==> r.engineName == e.engineName.value
  {
    EngineResult(ResolveCategory(e), GetOr(e.engineName, Str(key)))
  }

  /** The normalised engine table: the same keys in the same order, one entry per key. */
  function NormalizeEngines(t: seq<(string, RawEngine)>): (r: seq<(string, EngineResult)>)
    ensures |r| == |t|
    ensures forall i :: 0 <= i < |t| ==> r[i].0 == t[i].0 && r[i].1 == NormalizeEngine(t[i].0, t[i].1)
  {
    if t == [] then []
    else NormalizeEngines(t[..|t| - 1]) + [(t[|t| - 1].0, NormalizeEngine(t[|t| - 1].0, t[|t| - 1].1))]
  }

  /** The category rule: `category` first, then `result`, then "clean", where a
      field that is absent, null or empty does not count; the engine name falls
      back to the table key only when the field is absent. */
  lemma NormalizeEngineRule(key: string, e: RawEngine)
    ensures e.category.Some? && Truthy(e.category.value) ==> NormalizeEngine(key, e).result == e.category.value.s
    ensures !(e.category.Some? && Truthy(e.category.value)) && e.result.Some? && Truthy(e.result.value)
            ==> NormalizeEngine(key, e).result == e.result.value.s
    ensures !(e.category.Some? && Truthy(e.category.value)) && !(e.result.Some? && Truthy(e.result.value))
            ==> NormalizeEngine(key, e).result == "clean"
    ensures NormalizeEngine(key, e).engineName == if e.engineName.Some? then e.engineName.value else Str(key)
  {
  }

  /** The four buckets of app.py:186-193; every other category folds into "clean". */
  datatype Bucket = MaliciousBucket | SuspiciousBucket | HarmlessBucket | CleanBucket

  function BucketOf(category: string): Bucket {
    if category == "malicious" then MaliciousBucket
    else if category == "suspicious" then SuspiciousBucket
    else if category == "harmless" then HarmlessBucket
    else CleanBucket
  }

  function BucketCount(c: Counts, b: Bucket): nat {
    match b
    case MaliciousBucket => c.malicious
    case SuspiciousBucket => c.suspicious
    case HarmlessBucket => c.harmless
    case CleanBucket => c.clean
  }

  /** `counts[bucket] += 1`: that bucket grows by one and no other changes. */
  function Bump(c: Counts, b: Bucket): (r: Counts)
    ensures BucketCount(r, b) == BucketCount(c, b) + 1
    ensures forall b' :: b' != b ==> BucketCount(r, b') == BucketCount(c, b')
    ensures Total(r) == Total(c) + 1
  {
    match b
    case MaliciousBucket => c.(malicious := c.malicious + 1)
    case SuspiciousBucket => c.(suspicious := c.suspicious + 1)
    case HarmlessBucket => c.(harmless := c.harmless + 1)
    case CleanBucket => c.(clean := c.clean + 1)
  }

  /** The category app.py:185 reads from an entry of the table vt.py returns:
      `info.get("result") or info.get("category") or "clean"`. Those entries
      carry no "category" key, so the middle alternative is always `None`. */
  function UrlCategory(e: EngineResult): (r: string)
    ensures e.result != "" ==> r == e.result
  {
    FirstTruthy(Str(e.result), Null, "clean")
  }

  /** The counts the loop of app.py:184-193 accumulates over a prefix of the table. */
  function Tally(t: seq<(string, EngineResult)>): Counts {
    if t == [] then NoCounts
    else Bump(Tally(t[..|t| - 1]), BucketOf(UrlCategory(t[|t| - 1].1)))
  }

  /** The positions of the table whose category folds into bucket `b`. */
  function InBucket(t: seq<(string, EngineResult)>, b: Bucket): set<nat> {
    set i: nat | i < |t| && BucketOf(UrlCategory(t[i].1)) == b
  }

  /** One more engine bumps the bucket its category folds into. */
  lemma TallyStep(t: seq<(string, EngineResult)>, i: nat)
    requires i < |t|
    ensures Tally(t[..i + 1]) == Bump(Tally(t[..i]), BucketOf(UrlCategory(t[i].1)))
  {
    assert t[..i + 1][..i] == t[..i];
  }

  /** Every engine increments exactly one bucket, so the four counts add up to
      the number of engines. */
  lemma {:induction false} TallyTotal(t: seq<(string, EngineResult)>)
    ensures Total(Tally(t)) == |t|
  {
    if t != [] {
      TallyTotal(t[..|t| - 1]);
    }
  }

  /** Each count is the number of engines whose category falls into its bucket. */
  lemma {:induction false} TallyCountsBuckets(t: seq<(string, EngineResult)>, b: Bucket)
    ensures BucketCount(Tally(t), b) == |InBucket(t, b)|
  {
    if t != [] {
      var n := |t| - 1;
      var p := t[..n];
      TallyCountsBuckets(p, b);
      InBucketStep(t, b);
      assert n !in InBucket(p, b);
    }
  }

  /** The bucket positions of a table are those of its prefix, plus the last
      position when the last engine falls into the bucket. */
  lemma InBucketStep(t: seq<(string, EngineResult)>, b: Bucket)
    requires t != []
    ensures InBucket(t, b) == InBucket(t[..|t| - 1], b)
              + (if BucketOf(UrlCategory(t[|t| - 1].1)) == b then {|t| - 1} else {})
  {
    var n := |t| - 1;
    var rhs := InBucket(t[..n], b) + (if BucketOf(UrlCategory(t[n].1)) == b then {n} else {});
    forall i: nat
      ensures i in InBucket(t, b) <==> i in rhs
    {
      if i < n {
        assert t[..n][i] == t[i];
      }
    }
  }

  /** The four counts of a tally, each the number of engines in its bucket. */
  lemma TallyByBucket(t: seq<(string, EngineResult)>)
    ensures var c := Tally(t);
      && c.malicious == |InBucket(t, MaliciousBucket)|
      && c.suspicious == |InBucket(t, SuspiciousBucket)|
      && c.harmless == |InBucket(t, HarmlessBucket)|
      && c.clean == |InBucket(t, CleanBucket)|
  {
    TallyCountsBuckets(t, MaliciousBucket);
    TallyCountsBuckets(t, SuspiciousBucket);
    TallyCountsBuckets(t, HarmlessBucket);
    TallyCountsBuckets(t, CleanBucket);
  }
}
