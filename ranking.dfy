/** `SELECT ... ORDER BY <timestamp> DESC LIMIT ?` over a table with a primary
    key, shared by the history listing and the deny-list listing. */
module Ranking {

  /** How many rows SQLite's LIMIT lets through: a negative limit means no bound. */
  function LimitedCount(limit: int, n: nat): (c: nat)
    ensures c <= n
    ensures limit >= 0 ==> c <= limit
    ensures limit < 0 ==> c == n
    ensures 0 <= limit ==> c == if limit < n then limit else n
  {
    if limit < 0 || limit > n then n else limit
  }

  /** A non-empty set of keys has a key with the latest timestamp. */
  lemma {:induction false} LatestExists(keys: set<string>, times: map<string, int>)
    requires keys != {} && keys <= times.Keys
    ensures exists k :: k in keys && forall j :: j in keys ==> times[j] <= times[k]
    decreases keys
  {
    var x :| x in keys;
    if keys != {x} {
      var rest := keys - {x};
      LatestExists(rest, times);
      var k :| k in rest && forall j :: j in rest ==> times[j] <= times[k];
      if times[x] > times[k] {
        assert forall j :: j in keys ==> times[j] <= times[x];
      } else {
        assert forall j :: j in keys ==> times[j] <= times[k];
      }
    }
  }

  /** The keys of the `limit` latest rows, latest first: distinct keys of the
      table, in non-increasing timestamp order, and no row left out is later
      than a row returned. */
  method LatestFirst(times: map<string, int>, limit: int) returns (keys: seq<string>)
    ensures |keys| == LimitedCount(limit, |times|)
    ensures forall i :: 0 <= i < |keys| ==> keys[i] in times
    ensures forall i, j :: 0 <= i < j < |keys| ==> keys[i] != keys[j]
    ensures forall i, j :: 0 <= i < j < |keys| ==> times[keys[i]] >= times[keys[j]]
    ensures forall k, i :: k in times && k !in keys && 0 <= i < |keys| ==> times[k] <= times[keys[i]]
  {
    keys := [];
    var rest := times.Keys;
    while rest != {} && (limit < 0 || |keys| < limit)
      invariant rest <= times.Keys
      invariant forall i :: 0 <= i < |keys| ==> keys[i] in times && keys[i] !in rest
      invariant forall k :: k in times && k !in rest ==> k in keys
      invariant forall i, j :: 0 <= i < j < |keys| ==> keys[i] != keys[j]
      invariant |rest| + |keys| == |times|
      invariant forall i, j :: 0 <= i < j < |keys| ==> times[keys[i]] >= times[keys[j]]
      invariant forall k, i :: k in rest && 0 <= i < |keys| ==> times[k] <= times[keys[i]]
      invariant limit >= 0 ==> |keys| <= limit
      decreases |rest|
    {
      LatestExists(rest, times);
      var k :| k in rest && forall j :: j in rest ==> times[j] <= times[k];
      keys := keys + [k];
      rest := rest - {k};
    }
  }
}
