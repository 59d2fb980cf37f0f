/** notifier.py: the alert gate and message of `notify`, and the threat summary
    of `summarize_threats`. The transports are left out; `notify` yields the one
    message it would post to the Discord webhook, or none. */
module Notifier {
  import opened Py
  import opened Schema

  // ---------------------------------------------------------------- notify

  /** Python truthiness of the `vt_result` argument: `None` and `{}` are false; a
      verdict always has its two keys. */
  predicate PayloadTruthy(p: Payload) {
    match p
    case NoPayload => false
    case VerdictPayload(_) => true
    case ReportPayload(report) => report != EmptyReport
  }

  /** `counts.get("malicious", 0)` and `counts.get("suspicious", 0)` of
      `vt_result.get("counts", {})`. A raw file report has no top-level "counts". */
  function DetectionCounts(p: Payload): (c: (nat, nat))
    ensures !p.VerdictPayload? ==> c == (0, 0)
    ensures p.VerdictPayload? ==> c == (p.verdict.counts.malicious, p.verdict.counts.suspicious)
  {
    match p
    case VerdictPayload(v) => (v.counts.malicious, v.counts.suspicious)
    case _ => (0, 0)
  }

  /** The gate: a non-empty result with at least one malicious or suspicious detection. */
  predicate Alerts(p: Payload) {
    PayloadTruthy(p) && DetectionCounts(p) != (0, 0)
  }

  function Header(eventType: string): string {
    "\U{26A0}\U{FE0F} Threat Detected \U{2014} " + eventType + "\n"
  }

  function FileLine(filePath: string): string {
    "File: `" + filePath + "`\n"
  }

  function UrlLine(url: string): string {
    "URL: " + url + "\n"
  }

  function ShaLine(hashes: Digests): string {
    "SHA256: `" + hashes.sha256 + "`\n"
  }

  function SummaryLine(malicious: nat, suspicious: nat): string {
    "\nDetection Summary: " + NatToString(malicious) + " malicious, " + NatToString(suspicious) + " suspicious"
  }

  /** A line that appears only when its field is present. */
  function Section(present: bool, line: string): (r: string)
    ensures present ==> r == line
    ensures !present ==> r == ""
  {
    if present then line else ""
  }

  /** The alert text: the header for the event type first, then the File, URL and
      SHA256 lines in that order, each only for a non-empty field, and the
      detection summary last. */
  function AlertMessage(eventType: string, filePath: string, url: string, hashes: Option<Digests>,
                        malicious: nat, suspicious: nat): (msg: string)
    ensures |Header(eventType)| + |SummaryLine(malicious, suspicious)| <= |msg|
    ensures msg[..|Header(eventType)|] == Header(eventType)
    ensures msg[|msg| - |SummaryLine(malicious, suspicious)|..] == SummaryLine(malicious, suspicious)
    ensures msg[|Header(eventType)|..|msg| - |SummaryLine(malicious, suspicious)|]
            == Section(filePath != "", FileLine(filePath)) + Section(url != "", UrlLine(url))
               + Section(hashes.Some?, if hashes.Some? then ShaLine(hashes.value) else "")
  {
    var h := Header(eventType);
    var f := Section(filePath != "", FileLine(filePath));
    var u := Section(url != "", UrlLine(url));
    var d := Section(hashes.Some?, if hashes.Some? then ShaLine(hashes.value) else "");
    var tail := SummaryLine(malicious, suspicious);
    Framed(h, f, u, d, tail);
    h + f + u + d + tail
  }

  /** Where the pieces of a message built by appending sit in the whole. */
  lemma Framed(h: string, f: string, u: string, d: string, t: string)
    ensures var m := h + f + u + d + t;
      && |h| + |t| <= |m|
      && m[..|h|] == h
      && m[|m| - |t|..] == t
      && m[|h|..|m| - |t|] == f + u + d
  {
    var m := h + f + u + d + t;
    assert m == h + (f + u + d) + t;
  }

  /** The two counts in the summary line are decimal renderings that read back
      as the counts themselves. */
  lemma SummaryCountsReadBack(malicious: nat, suspicious: nat)
    ensures DigitsValue(NatToString(malicious)) == malicious
    ensures DigitsValue(NatToString(suspicious)) == suspicious
  {
    NatToStringRoundTrip(malicious);
    NatToStringRoundTrip(suspicious);
  }

  /** `notify`: nothing for an empty result or for zero malicious and zero
      suspicious detections; otherwise the message built line by line. */
  method Notify(eventType: string, filePath: string, url: string, hashes: Option<Digests>, vtResult: Payload)
    returns (sent: Option<string>)
    ensures sent.Some? <==> PayloadTruthy(vtResult) && DetectionCounts(vtResult) != (0, 0)
    ensures sent.Some? ==>
      sent.value == AlertMessage(eventType, filePath, url, hashes, DetectionCounts(vtResult).0, DetectionCounts(vtResult).1)
  {
    if !PayloadTruthy(vtResult) {
      return None;
    }
    var (malicious, suspicious) := DetectionCounts(vtResult);
    if malicious == 0 && suspicious == 0 {
      return None;
    }
    ghost var fileSection := Section(filePath != "", FileLine(filePath));
    ghost var urlSection := Section(url != "", UrlLine(url));
    ghost var shaSection := Section(hashes.Some?, if hashes.Some? then ShaLine(hashes.value) else "");
    var msg := Header(eventType);
    if filePath != "" {
      msg := msg + FileLine(filePath);
    }
    assert msg == Header(eventType) + fileSection;
    if url != "" {
      msg := msg + UrlLine(url);
    }
    assert msg == Header(eventType) + fileSection + urlSection;
    if hashes.Some? {
      msg := msg + ShaLine(hashes.value);
    }
    assert msg == Header(eventType) + fileSection + urlSection + shaSection;
    msg := msg + SummaryLine(malicious, suspicious);
    sent := Some(msg);
  }

  /** A raw file report, whatever it holds, never passes the gate; a verdict passes
      exactly when it counts a malicious or suspicious engine. */
  lemma GateByPayload(p: Payload)
    ensures p.ReportPayload? || p.NoPayload? ==> !Alerts(p)
    ensures p.VerdictPayload? ==> (Alerts(p) <==> p.verdict.counts.malicious > 0 || p.verdict.counts.suspicious > 0)
  {
  }

  // ---------------------------------------------------------------- summarize_threats

  /** Whether `data.get("category", "").lower()` is "malicious" or "suspicious"; an
      absent category reads as "" and is no threat. Lowering only ASCII letters
      decides this test exactly as Python's `lower` does. The only non-ASCII
      characters that lower to ASCII letters are U+0130, which lowers to "i"
      followed by U+0307, so the result is no longer either word, and U+212A,
      which lowers to "k", a letter of neither word. */
  predicate IsThreat(e: RawEngine): (b: bool)
    ensures b ==> e.category.Some? && e.category.value.Str? && !CategoryRaises(e)
    ensures b ==> |e.category.value.s| == 9 || |e.category.value.s| == 10
  {
    e.category.Some? && e.category.value.Str? && LowerAscii(e.category.value.s) in {"malicious", "suspicious"}
  }

  /** `None.lower()` raises: a present category that is null. */
  predicate CategoryRaises(e: RawEngine) {
    e.category == Some(Null)
  }

  /** `data.get("result", "")`. */
  function ThreatResult(e: RawEngine): Value {
    GetOr(e.result, Str(""))
  }

  type Threat = (string, Value)

  /** The threat entries of a table, in table order. */
  function Threats(scan: seq<(string, RawEngine)>): (r: seq<Threat>)
    ensures |r| <= |scan|
  {
    if scan == [] then []
    else
      var last := scan[|scan| - 1];
      Threats(scan[..|scan| - 1]) + (if IsThreat(last.1) then [(last.0, ThreatResult(last.1))] else [])
  }

  /** The table positions that hold a threat. */
  function ThreatPositions(scan: seq<(string, RawEngine)>): set<nat> {
    set i: nat | i < |scan| && IsThreat(scan[i].1)
  }

  /** The threat positions of a table are those of its prefix, and the last
      position when it holds a threat. */
  lemma ThreatPositionsStep(scan: seq<(string, RawEngine)>)
    requires scan != []
    ensures ThreatPositions(scan)
            == ThreatPositions(scan[..|scan| - 1]) + (if IsThreat(scan[|scan| - 1].1) then {|scan| - 1} else {})
  {
    var n := |scan| - 1;
    var p := scan[..n];
    var extra: set<nat> := if IsThreat(scan[n].1) then {n} else {};
    forall i: nat
      ensures i in ThreatPositions(scan) <==> i in ThreatPositions(p) + extra
    {
      if i < n {
        assert scan[i] == p[i];
      }
    }
  }

  /** One threat per threat entry of the table. */
  lemma {:induction false} ThreatCount(scan: seq<(string, RawEngine)>)
    ensures |Threats(scan)| == |ThreatPositions(scan)|
  {
    if scan != [] {
      var n := |scan| - 1;
      var p := scan[..n];
      ThreatCount(p);
      ThreatPositionsStep(scan);
      assert n !in ThreatPositions(p);
    }
  }

  /** Each threat is the name and result of a threat entry of the table. */
  lemma {:induction false} ThreatsAreThreatEntries(scan: seq<(string, RawEngine)>)
    ensures forall t :: t in Threats(scan) ==>
              exists i :: 0 <= i < |scan| && IsThreat(scan[i].1) && t == (scan[i].0, ThreatResult(scan[i].1))
  {
    if scan != [] {
      var n := |scan| - 1;
      var p := scan[..n];
      ThreatsAreThreatEntries(p);
      forall t | t in Threats(scan)
        ensures exists i :: 0 <= i < |scan| && IsThreat(scan[i].1) && t == (scan[i].0, ThreatResult(scan[i].1))
      {
        if t in Threats(p) {
          var i :| 0 <= i < |p| && IsThreat(p[i].1) && t == (p[i].0, ThreatResult(p[i].1));
          assert scan[i] == p[i];
        } else {
          assert t == (scan[n].0, ThreatResult(scan[n].1));
        }
      }
    }
  }

  /** Each threat entry of the table is among the threats. */
  lemma {:induction false} ThreatEntriesAreThreats(scan: seq<(string, RawEngine)>)
    ensures forall i :: 0 <= i < |scan| && IsThreat(scan[i].1) ==> (scan[i].0, ThreatResult(scan[i].1)) in Threats(scan)
  {
    if scan != [] {
      var n := |scan| - 1;
      var p := scan[..n];
      ThreatEntriesAreThreats(p);
      forall i | 0 <= i < |scan| && IsThreat(scan[i].1)
        ensures (scan[i].0, ThreatResult(scan[i].1)) in Threats(scan)
      {
        if i < n {
          assert scan[i] == p[i];
        }
      }
    }
  }

  /** The table positions whose threat entry is `t`. */
  function EntriesOf(scan: seq<(string, RawEngine)>, t: Threat): set<nat> {
    set i: nat | i < |scan| && IsThreat(scan[i].1) && (scan[i].0, ThreatResult(scan[i].1)) == t
  }

  /** The positions whose entry is `t` are those of the prefix, and the last
      position when its entry is `t`. */
  lemma EntriesOfStep(scan: seq<(string, RawEngine)>, t: Threat)
    requires scan != []
    ensures var n := |scan| - 1;
      EntriesOf(scan, t)
      == EntriesOf(scan[..n], t) + (if IsThreat(scan[n].1) && (scan[n].0, ThreatResult(scan[n].1)) == t then {n} else {})
  {
    var n := |scan| - 1;
    var p := scan[..n];
    var extra: set<nat> := if IsThreat(scan[n].1) && (scan[n].0, ThreatResult(scan[n].1)) == t then {n} else {};
    forall i: nat
      ensures i in EntriesOf(scan, t) <==> i in EntriesOf(p, t) + extra
    {
      if i < n {
        assert scan[i] == p[i];
      }
    }
  }

  /** The threats are the threat entries with their multiplicities: each threat
      occurs exactly as often as table positions hold it. */
  lemma {:induction false} ThreatMultiplicity(scan: seq<(string, RawEngine)>, t: Threat)
    ensures multiset(Threats(scan))[t] == |EntriesOf(scan, t)|
  {
    if scan != [] {
      var n := |scan| - 1;
      var p := scan[..n];
      ThreatMultiplicity(p, t);
      EntriesOfStep(scan, t);
      assert n !in EntriesOf(p, t);
      var tail := if IsThreat(scan[n].1) then [(scan[n].0, ThreatResult(scan[n].1))] else [];
      assert Threats(scan) == Threats(p) + tail;
      assert multiset(Threats(scan)) == multiset(Threats(p)) + multiset(tail);
    }
  }

  /** Python's `<=` on strings: code point by code point, a proper prefix first. */
  predicate StrLe(a: string, b: string) {
    if a == [] then true
    else if b == [] then false
    else if a[0] != b[0] then a[0] < b[0]
    else StrLe(a[1..], b[1..])
  }

  lemma {:induction false} StrLeTotal(a: string, b: string)
    ensures StrLe(a, b) || StrLe(b, a)
  {
    if a != [] && b != [] && a[0] == b[0] {
      StrLeTotal(a[1..], b[1..]);
    }
  }

  lemma {:induction false} StrLeTransitive(a: string, b: string, c: string)
    requires StrLe(a, b) && StrLe(b, c)
    ensures StrLe(a, c)
  {
    if a != [] && b != [] && c != [] && a[0] == b[0] && b[0] == c[0] {
      StrLeTransitive(a[1..], b[1..], c[1..]);
    }
  }

  /** Ordered by engine name, each threat no later in that order than the next. */
  predicate SortedByName(s: seq<Threat>) {
    forall i :: 0 < i < |s| ==> StrLe(s[i - 1].0, s[i].0)
  }

  /** Places `x` after every leading threat whose name is not above its own. */
  function Insert(x: Threat, s: seq<Threat>): (r: seq<Threat>)
    ensures |r| == |s| + 1
    ensures multiset(r) == multiset(s) + multiset{x}
    ensures r[0] == x || (s != [] && r[0] == s[0])
    ensures SortedByName(s) ==> SortedByName(r)
  {
    if s == [] then [x]
    else if !StrLe(s[0].0, x.0) then
      StrLeTotal(s[0].0, x.0);
      [x] + s
    else
      var rest := Insert(x, s[1..]);
      assert s == [s[0]] + s[1..];
      [s[0]] + rest
  }

  /** `threats.sort(key=lambda x: x[0])`, stable, on values. */
  function SortByName(s: seq<Threat>): (r: seq<Threat>)
    ensures |r| == |s|
    ensures SortedByName(r)
    ensures multiset(r) == multiset(s)
  {
    if s == [] then []
    else
      assert s == s[..|s| - 1] + [s[|s| - 1]];
      Insert(s[|s| - 1], SortByName(s[..|s| - 1]))
  }

  /** `len(xs[:limit])` for a list of length `n`, a negative limit counting from the end. */
  function SliceLen(n: nat, limit: int): (k: nat)
    ensures k <= n
    ensures 0 <= limit ==> k == if limit < n then limit else n
    ensures limit < 0 ==> k == if n + limit > 0 then n + limit else 0
  {
    if limit >= 0 then (if limit < n then limit else n)
    else if n + limit > 0 then n + limit else 0
  }

  datatype ThreatSummary = ThreatSummary(total: nat, summary: seq<Threat>)

  /** `summarize_threats(scan_results, limit)`: collects the threat entries in table
      order, raising AttributeError at a null category, sorts them by engine name,
      and returns their number with the first `limit` of them. */
  method SummarizeThreats(scan: seq<(string, RawEngine)>, limit: int) returns (r: Result<ThreatSummary>)
    ensures r.Raised? <==> exists i :: 0 <= i < |scan| && CategoryRaises(scan[i].1)
    ensures r.Raised? ==> r.exception == "AttributeError"
    ensures r.Ok? ==> r.value.total == |Threats(scan)| == |ThreatPositions(scan)|
    ensures r.Ok? ==> |r.value.summary| == SliceLen(r.value.total, limit)
    ensures r.Ok? ==> SortedByName(r.value.summary)
    ensures r.Ok? ==> r.value.summary == SortByName(Threats(scan))[..|r.value.summary|]
  {
    var threats: seq<Threat> := [];
    for i := 0 to |scan|
      invariant threats == Threats(scan[..i])
      invariant forall j :: 0 <= j < i ==> !CategoryRaises(scan[j].1)
    {
      var (engine, data) := scan[i];
      assert scan[..i + 1][..i] == scan[..i];
      if data.category == Some(Null) {
        return Raised("AttributeError");
      }
      if IsThreat(data) {
        threats := threats + [(engine, ThreatResult(data))];
      }
    }
    assert scan[..|scan|] == scan;
    ThreatCount(scan);
    var sorted := SortByName(threats);
    var total := |sorted|;
    var summary := sorted[..SliceLen(total, limit)];
    r := Ok(ThreatSummary(total, summary));
  }
}
