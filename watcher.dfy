/** watcher_multifolder.py: the file-stability wait and the `on_created` handler.
    The file system is given as the sequence of what each pass of the wait loop
    saw; the observer threads are left out. */
module Watcher {
  import opened Py
  import opened Schema
  import VirusTotal
  import EventStore
  import Notifier

  /** What one pass of the wait loop saw: the size and whether `open(path, "rb")`
      succeeded, or a PermissionError / FileNotFoundError from `getsize`. */
  datatype Sample = SizeRead(size: nat, opens: bool) | SizeDenied

  /** `last_size` after a run of passes: the size of the latest successful
      `getsize`, or -1 before any. A pass whose `open` fails raises before the
      assignment, but only when the size already equals `last_size`, so the
      value is the same either way. */
  function LastSize(prefix: seq<Sample>): (last: int)
    ensures last >= -1
  {
    if prefix == [] then -1
    else if prefix[|prefix| - 1].SizeRead? then prefix[|prefix| - 1].size
    else LastSize(prefix[..|prefix| - 1])
  }

  /** The rule of the wait: a non-zero size equal to the previous successful pass's
      size, and the file opens. */
  predicate ReadyAt(samples: seq<Sample>, i: nat): (b: bool)
    requires i < |samples|
    ensures b ==> 0 < i && samples[i].SizeRead? && samples[i].size > 0
  {
    assert samples[..0] == [];
    && samples[i].SizeRead?
    && samples[i].size > 0
    && samples[i].size == LastSize(samples[..i])
    && samples[i].opens
  }

  /** `wait_until_file_is_ready`: the pass at which it returns, the first at which
      the rule holds; `None` when it is still waiting after the last pass given. */
  method WaitUntilFileIsReady(samples: seq<Sample>) returns (ready: Option<nat>)
    ensures ready.Some? ==> ready.value < |samples| && ReadyAt(samples, ready.value)
    ensures ready.Some? ==> forall j :: 0 <= j < ready.value ==> !ReadyAt(samples, j)
    ensures ready.None? ==> forall j :: 0 <= j < |samples| ==> !ReadyAt(samples, j)
  {
    var lastSize := -1;
    var i := 0;
    while i < |samples|
      invariant i <= |samples|
      invariant lastSize == LastSize(samples[..i])
      invariant forall j :: 0 <= j < i ==> !ReadyAt(samples, j)
    {
      assert samples[..i + 1][..i] == samples[..i];
      match samples[i] {
        case SizeDenied =>
        case SizeRead(currentSize, opens) =>
          if currentSize == lastSize && currentSize > 0 {
            if opens {
              return Some(i);
            }
          }
          lastSize := currentSize;
      }
      i := i + 1;
    }
    return None;
  }

  /** A failed `getsize` leaves `last_size` as it was, so the two passes of a stable
      pair may be separated by any number of failures. */
  lemma {:induction false} DeniedKeepsLastSize(prefix: seq<Sample>, denied: nat)
    ensures LastSize(prefix + seq(denied, _ => SizeDenied)) == LastSize(prefix)
    decreases denied
  {
    if denied == 0 {
      assert prefix + seq(denied, _ => SizeDenied) == prefix;
    } else {
      var longer := prefix + seq(denied, _ => SizeDenied);
      assert longer[|longer| - 1] == SizeDenied;
      assert longer[..|longer| - 1] == prefix + seq(denied - 1, _ => SizeDenied);
      DeniedKeepsLastSize(prefix, denied - 1);
    }
  }

  /** The latest successful pass before position `i`, if any. */
  lemma {:induction false} LastSizeIsLatestRead(prefix: seq<Sample>)
    ensures LastSize(prefix) >= 0 ==>
      exists j :: 0 <= j < |prefix| && prefix[j].SizeRead? && prefix[j].size == LastSize(prefix)
        && forall k :: j < k < |prefix| ==> prefix[k].SizeDenied?
    ensures LastSize(prefix) == -1 ==> forall k :: 0 <= k < |prefix| ==> prefix[k].SizeDenied?
  {
    if prefix != [] && prefix[|prefix| - 1].SizeDenied? {
      var p := prefix[..|prefix| - 1];
      LastSizeIsLatestRead(p);
      if LastSize(p) >= 0 {
        var j :| 0 <= j < |p| && p[j].SizeRead? && p[j].size == LastSize(p)
          && forall k :: j < k < |p| ==> p[k].SizeDenied?;
        assert prefix[j] == p[j];
      }
    }
  }

  /** The wait never returns at the first successful pass, nor at a size of 0: a
      ready pass has an earlier successful pass of the same non-zero size, with
      only failed passes between the two. */
  lemma ReadyNeedsStablePair(samples: seq<Sample>, i: nat)
    requires i < |samples| && ReadyAt(samples, i)
    ensures samples[i].size > 0
    ensures exists j :: 0 <= j < i && samples[j].SizeRead? && samples[j].size == samples[i].size
              && forall k :: j < k < i ==> samples[k].SizeDenied?
  {
    var p := samples[..i];
    LastSizeIsLatestRead(p);
    var j :| 0 <= j < |p| && p[j].SizeRead? && p[j].size == LastSize(p)
      && forall k :: j < k < |p| ==> p[k].SizeDenied?;
    assert samples[j] == p[j];
    forall k | j < k < i
      ensures samples[k].SizeDenied?
    {
      assert samples[k] == p[k];
    }
  }

  /** Sizes 10, 10, 20, 20, 20 with every open succeeding: ready at the second
      pass, before the size has changed; the later passes are never read. */
  lemma FirstStablePairWins()
    ensures var s := [SizeRead(10, true), SizeRead(10, true), SizeRead(20, true), SizeRead(20, true), SizeRead(20, true)];
      !ReadyAt(s, 0) && ReadyAt(s, 1)
  {
    var s := [SizeRead(10, true), SizeRead(10, true), SizeRead(20, true), SizeRead(20, true), SizeRead(20, true)];
    assert s[..0] == [];
    assert s[..1] == [SizeRead(10, true)];
  }

  /** `ThreatWatchHandler.on_created`: directory events are ignored; for a file,
      once it is ready, the raw hash report is stored on the event bus and passed
      to `notify`, which therefore never alerts. While the file is not ready the
      handler is still waiting, and nothing is stored. */
  method OnCreated(isDirectory: bool, filePath: string, samples: seq<Sample>, hashes: Digests,
                   apiKey: string, reply: VirusTotal.HashOutcome, bus: EventStore.EventLog, now: int)
    returns (alert: Option<string>)
    requires bus.Valid()
    modifies bus
    ensures bus.Valid()
    ensures alert.None?
    ensures isDirectory ==> bus.events == old(bus.events)
    ensures !isDirectory && (exists j :: 0 <= j < |samples| && ReadyAt(samples, j)) ==>
      var raw := ReportPayload(VirusTotal.CheckFileHash(apiKey, reply));
      bus.events == EventStore.Appended(old(bus.events), EventStore.Event(now, "file_created", filePath, Some(hashes), raw))
    ensures !isDirectory && !(exists j :: 0 <= j < |samples| && ReadyAt(samples, j)) ==> bus.events == old(bus.events)
  {
    if isDirectory {
      return None;
    }
    var ready := WaitUntilFileIsReady(samples);
    if ready.None? {
      return None;
    }
    var vtResult := ReportPayload(VirusTotal.CheckFileHash(apiKey, reply));
    bus.AddEvent("file_created", filePath, Some(hashes), vtResult, now);
    alert := Notifier.Notify("watchdog_file_created", filePath, "", Some(hashes), vtResult);
  }
}
