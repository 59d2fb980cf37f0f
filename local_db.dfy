/** local_db.py: the deny-list `malware_hashes`, sha256 (primary key) to `added_at`. */
module LocalDb {
  import Ranking

  /** `INSERT OR IGNORE`: a new hash is added with the given time; an existing hash
      keeps its original time; no hash is removed and no other entry changes. */
  function Inserted(hashes: map<string, int>, sha256: string, now: int): (r: map<string, int>)
    ensures r.Keys == hashes.Keys + {sha256}
    ensures sha256 in hashes ==> r == hashes
    ensures sha256 !in hashes ==> r[sha256] == now
    ensures forall h :: h in hashes ==> h in r && r[h] == hashes[h]
  {
    if sha256 in hashes then hashes else hashes[sha256 := now]
  }

  class DenyList {
    /** The rows of `malware_hashes`: sha256 to added_at. */
    var hashes: map<string, int>

    constructor ()
      ensures hashes == map[]
    {
      hashes := map[];
    }

    /** `is_malicious_local`: whether the hash has a row. */
    method IsMaliciousLocal(sha256: string) returns (b: bool)
      ensures b <==> sha256 in hashes
    {
      b := sha256 in hashes;
    }

    /** `add_malicious_hash`: afterwards the hash is deny-listed; the membership of
        every other hash, and every existing entry, is as before. */
    method AddMaliciousHash(sha256: string, now: int)
      modifies this
      ensures hashes == Inserted(old(hashes), sha256, now)
      ensures sha256 in hashes
      ensures forall h :: h != sha256 ==> (h in hashes <==> h in old(hashes))
    {
      if sha256 !in hashes {
        hashes := hashes[sha256 := now];
      }
    }

    /** `list_hashes(limit)`: at most `limit` entries (all of them for a negative
        limit), each once, latest `added_at` first, and no entry left out was
        added later than an entry listed. */
    method ListHashes(limit: int) returns (r: seq<(string, int)>)
      ensures |r| == Ranking.LimitedCount(limit, |hashes|)
      ensures forall i :: 0 <= i < |r| ==> r[i].0 in hashes && hashes[r[i].0] == r[i].1
      ensures forall i, j :: 0 <= i < j < |r| ==> r[i].0 != r[j].0
      ensures forall i, j :: 0 <= i < j < |r| ==> r[i].1 >= r[j].1
      ensures forall h, i :: h in hashes && 0 <= i < |r| && hashes[h] > r[i].1
                ==> exists j :: 0 <= j < |r| && r[j].0 == h
    {
      var table := hashes;
      var keys := Ranking.LatestFirst(table, limit);
      r := seq(|keys|, i requires 0 <= i < |keys| => (keys[i], table[keys[i]]));
      forall h, i | h in hashes && 0 <= i < |r| && hashes[h] > r[i].1
        ensures exists j :: 0 <= j < |r| && r[j].0 == h
      {
        assert h in keys;
        var j :| 0 <= j < |keys| && keys[j] == h;
        assert r[j].0 == h;
      }
    }
  }
}
