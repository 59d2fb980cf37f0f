/** history_db.py: the verdict cache `scan_history`, a table whose primary key is
    `key` alone, with `key_type`, the stored result and `last_scanned` beside it. */
module HistoryDb {
  import opened Py
  import opened Schema
  import Ranking

  /** `result_json` as stored: it decodes to a verdict, or it does not. */
  datatype Stored = Undecodable | Decoded(verdict: Verdict)

  /** One row of `scan_history` apart from its key. */
  datatype Row = Row(keyType: string, result: Stored, lastScanned: int)

  /** What `get_cached_result` returns on a hit: {"result": ..., "last_scanned": ...}. */
  datatype Cached = Cached(result: Verdict, lastScanned: int)

  const SecondsPerDay := 86400

  /** The default retention window of `purge_older_than`. */
  const RetentionDays := 30

  /** `get_cached_result(key, key_type)`: a hit needs both the key and the key type
      to match, and a row whose result does not decode is reported as a miss. */
  function Lookup(rows: map<string, Row>, key: string, keyType: string): (r: Option<Cached>)
    ensures r.Some? <==> key in rows && rows[key].keyType == keyType && rows[key].result.Decoded?
    ensures r.Some? ==> r.value == Cached(rows[key].result.verdict, rows[key].lastScanned)
  {
    if key in rows && rows[key].keyType == keyType && rows[key].result.Decoded?
    then Some(Cached(rows[key].result.verdict, rows[key].lastScanned))
    else None
  }

  /** `add_or_update_cache`: INSERT ... ON CONFLICT(key) DO UPDATE SET result_json,
      last_scanned. A new key gets a row with the given key type; an existing key
      keeps its old key type and row count; every other row is untouched. */
  function Upsert(rows: map<string, Row>, key: string, keyType: string, v: Verdict, now: int): (r: map<string, Row>)
    ensures r.Keys == rows.Keys + {key}
    ensures r[key].result == Decoded(v) && r[key].lastScanned == now
    ensures r[key].keyType == if key in rows then rows[key].keyType else keyType
    ensures forall k :: k in rows && k != key ==> r[k] == rows[k]
    ensures |r| == if key in rows then |rows| else |rows| + 1
  {
    var r := rows[key := Row(if key in rows then rows[key].keyType else keyType, Decoded(v), now)];
    assert key in rows ==> r.Keys == rows.Keys;
    r
  }

  /** `DELETE FROM scan_history WHERE last_scanned < cutoff`: exactly the rows at
      or after the cutoff survive, unchanged. */
  function Purge(rows: map<string, Row>, cutoff: int): (r: map<string, Row>)
    ensures r.Keys <= rows.Keys
    ensures forall k :: k in rows ==> (k in r <==> rows[k].lastScanned >= cutoff)
    ensures forall k :: k in r ==> r[k] == rows[k]
  {
    map k | k in rows && rows[k].lastScanned >= cutoff :: rows[k]
  }

  /** `utcnow() - timedelta(days=days)`, on timestamps in seconds. */
  function Cutoff(now: int, days: int): int {
    now - days * SecondsPerDay
  }

  /** With the default of 30 days, a row survives exactly when it was scanned
      within the last 2592000 seconds. */
  lemma DefaultRetentionKeepsThirtyDays(rows: map<string, Row>, now: int, k: string)
    requires k in rows
    ensures k in Purge(rows, Cutoff(now, RetentionDays)) <==> now - rows[k].lastScanned <= 2592000
  {
  }

  /** A fresh key written and read back under the same key type is a hit on what
      was written. */
  lemma LookupAfterFreshUpsert(rows: map<string, Row>, key: string, keyType: string, v: Verdict, now: int)
    requires key !in rows
    ensures Lookup(Upsert(rows, key, keyType, v, now), key, keyType) == Some(Cached(v, now))
  {
  }

  /** Since the conflict target is the key alone, a key already held under another
      key type stays under that type: a lookup with the new type keeps missing. */
  lemma UpsertKeepsOtherKeyType(rows: map<string, Row>, key: string, keyType: string, v: Verdict, now: int)
    requires key in rows && rows[key].keyType != keyType
    ensures Lookup(Upsert(rows, key, keyType, v, now), key, keyType) == None
    ensures Lookup(Upsert(rows, key, keyType, v, now), key, rows[key].keyType) == Some(Cached(v, now))
  {
  }

  class HistoryTable {
    /** The rows of `scan_history`, by primary key. */
    var rows: map<string, Row>

    constructor ()
      ensures rows == map[]
    {
      rows := map[];
    }

    method GetCachedResult(key: string, keyType: string) returns (r: Option<Cached>)
      ensures r == Lookup(rows, key, keyType)
    {
      if key in rows {
        var row := rows[key];
        if row.keyType == keyType && row.result.Decoded? {
          return Some(Cached(row.result.verdict, row.lastScanned));
        }
      }
      return None;
    }

    method AddOrUpdateCache(key: string, keyType: string, v: Verdict, now: int)
      modifies this
      ensures rows == Upsert(old(rows), key, keyType, v, now)
    {
      var kt := if key in rows then rows[key].keyType else keyType;
      rows := rows[key := Row(kt, Decoded(v), now)];
    }

    method PurgeOlderThan(days: int, now: int)
      modifies this
      ensures rows == Purge(old(rows), Cutoff(now, days))
    {
      var cutoff := Cutoff(now, days);
      rows := map k | k in rows && rows[k].lastScanned >= cutoff :: rows[k];
    }

    /** `list_all(limit)`: at most `limit` rows of the table (all of them for a
        negative limit), each once, latest first, and no row left out is later
        than a row listed. */
    method ListAll(limit: int) returns (r: seq<(string, Row)>)
      ensures |r| == Ranking.LimitedCount(limit, |rows|)
      ensures forall i :: 0 <= i < |r| ==> r[i].0 in rows && rows[r[i].0] == r[i].1
      ensures forall i, j :: 0 <= i < j < |r| ==> r[i].0 != r[j].0
      ensures forall i, j :: 0 <= i < j < |r| ==> r[i].1.lastScanned >= r[j].1.lastScanned
      ensures forall k, i :: k in rows && 0 <= i < |r| && rows[k].lastScanned > r[i].1.lastScanned
                ==> exists j :: 0 <= j < |r| && r[j].0 == k
    {
      var table := rows;
      var times := map k | k in table :: table[k].lastScanned;
      assert times.Keys == table.Keys;
      var keys := Ranking.LatestFirst(times, limit);
      r := seq(|keys|, i requires 0 <= i < |keys| => (keys[i], table[keys[i]]));
      forall k, i | k in rows && 0 <= i < |r| && rows[k].lastScanned > r[i].1.lastScanned
        ensures exists j :: 0 <= j < |r| && r[j].0 == k
      {
        assert times[k] > times[keys[i]];
        assert k in keys;
        var j :| 0 <= j < |keys| && keys[j] == k;
        assert r[j].0 == k;
      }
    }
  }
}
