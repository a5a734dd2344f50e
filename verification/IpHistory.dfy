/**
 The database side of the IP monitor: the rows of `client_ips`, the reads that
 build cache entries from them and the upsert of a flushed batch.
 */
module IpHistory {
  import opened Basics
  import opened IpMonitorState

  /** A stored row under the hash it stands for. Rows written before hashing was
      introduced have no hash column and do not collide with hashed rows. */
  datatype RowKey = RowKey(client: Client, hash: Hash, legacy: bool)

  type Rows = map<RowKey, int>

  ghost function Stored(rows: Rows, c: Client): set<Hash> {
    set k | k in rows && k.client == c :: k.hash
  }

  function RowKeys(snapshot: Snapshot): set<RowKey> {
    set c, h | c in snapshot && h in snapshot[c] :: RowKey(c, h, false)
  }

  /** Insert, or on conflict overwrite the last sighting. */
  function Written(rows: Rows, snapshot: Snapshot): (r: Rows)
    ensures r.Keys == rows.Keys + RowKeys(snapshot)
  {
    rows + (map k | k in RowKeys(snapshot) :: snapshot[k.client][k.hash].lastSeen)
  }

  function Cleared(rows: Rows, c: Client): Rows {
    rows - (set k | k in rows && k.client == c)
  }

  function Pruned(rows: Rows, before: int): Rows {
    rows - (set k | k in rows && rows[k] < before)
  }

  lemma StoredWritten(rows: Rows, snapshot: Snapshot, c: Client)
    ensures Stored(Written(rows, snapshot), c) == Stored(rows, c) + Of(snapshot, c).Keys
  {
    var after := Written(rows, snapshot);
    forall h | h in Stored(rows, c) + Of(snapshot, c).Keys ensures h in Stored(after, c) {
      if h in Of(snapshot, c).Keys {
        assert RowKey(c, h, false) in RowKeys(snapshot);
        assert RowKey(c, h, false) in after;
      } else {
        var k :| k in rows && k.client == c && k.hash == h;
        assert k in after;
      }
    }
  }

  lemma StoredShrinks(small: Rows, large: Rows, c: Client)
    requires small.Keys <= large.Keys
    ensures Stored(small, c) <= Stored(large, c)
  {
    forall h | h in Stored(small, c) ensures h in Stored(large, c) {
      var k :| k in small && k.client == c && k.hash == h;
      assert k in large;
    }
  }

  /** Writes a batch row by row, and finds each client's latest sighting. */
  method FlushSnapshot(rows: Rows, snapshot: Snapshot) returns (after: Rows, online: map<Client, int>)
    ensures after == Written(rows, snapshot)
    ensures forall c :: c in online <==> c in snapshot && exists h :: h in snapshot[c] && snapshot[c][h].lastSeen > 0
    ensures forall c :: c in online ==>
              (exists h :: h in snapshot[c] && snapshot[c][h].lastSeen == online[c]) &&
              (forall h :: h in snapshot[c] ==> snapshot[c][h].lastSeen <= online[c])
  {
    after, online := rows, map[];
    var clients := snapshot.Keys;
    ghost var done: Snapshot := map[];
    while clients != {}
      invariant clients <= snapshot.Keys && done == snapshot - clients
      invariant IsWritten(after, rows, done)
      invariant OnlineFor(snapshot, clients, online)
      decreases clients
    {
      var c :| c in clients;
      ghost var mid := after;
      var newest: int;
      after, newest := FlushClient(c, snapshot[c], after);
      WrittenClient(after, mid, rows, done, c, snapshot[c]);
      if newest > 0 {
        online := online[c := newest];
      }
      clients, done := clients - {c}, done[c := snapshot[c]];
    }
    assert done == snapshot;
    WrittenIs(rows, snapshot);
    OnlyOneWritten(after, Written(rows, snapshot), rows, snapshot);
  }

  /** The latest sighting of every client that has one, but for those to come. */
  ghost predicate OnlineFor(snapshot: Snapshot, clients: set<Client>, online: map<Client, int>) {
    && (forall c :: c in online ==> c in snapshot && c !in clients && Newest(snapshot[c], online[c]) && online[c] > 0)
    && (forall c :: c in snapshot && c !in clients && c !in online ==> NeverSeen(snapshot[c]))
  }

  ghost predicate Newest(observations: Observations, t: int) {
    (exists h :: h in observations && observations[h].lastSeen == t) &&
    (forall h :: h in observations ==> observations[h].lastSeen <= t)
  }

  ghost predicate NeverSeen(observations: Observations) {
    forall h :: h in observations ==> observations[h].lastSeen <= 0
  }

  /** The row is one of the batch. */
  predicate InBatch(snapshot: Snapshot, k: RowKey) {
    k.client in snapshot && k.hash in snapshot[k.client] && !k.legacy
  }

  /** `after` is `rows` with the batch written over them, row by row. */
  ghost predicate IsWritten(after: Rows, rows: Rows, snapshot: Snapshot) {
    forall k ::
      && (k in after <==> k in rows || InBatch(snapshot, k))
      && (k in after ==> after[k] == if InBatch(snapshot, k) then snapshot[k.client][k.hash].lastSeen else rows[k])
  }

  lemma WrittenIs(rows: Rows, snapshot: Snapshot)
    ensures IsWritten(Written(rows, snapshot), rows, snapshot)
  {
    forall k ensures k in RowKeys(snapshot) <==> InBatch(snapshot, k) {
      if InBatch(snapshot, k) {
        assert k == RowKey(k.client, k.hash, false);
      }
    }
  }

  lemma OnlyOneWritten(x: Rows, y: Rows, rows: Rows, snapshot: Snapshot)
    requires IsWritten(x, rows, snapshot) && IsWritten(y, rows, snapshot)
    ensures x == y
  {
  }

  lemma WrittenRow(after: Rows, rows: Rows, c: Client, done: Observations, h: Hash, o: Observation)
    requires IsWritten(after, rows, map[c := done]) && h !in done
    ensures IsWritten(after[RowKey(c, h, false) := o.lastSeen], rows, map[c := done[h := o]])
  {
  }

  lemma WrittenClient(after: Rows, mid: Rows, rows: Rows, done: Snapshot, c: Client, observations: Observations)
    requires IsWritten(mid, rows, done) && IsWritten(after, mid, map[c := observations]) && c !in done
    ensures IsWritten(after, rows, done[c := observations])
  {
  }

  /** `newest` is the latest sighting, or 0 if none is later. */
  ghost predicate UpTo(observations: Observations, newest: int) {
    && newest >= 0
    && (newest > 0 ==> Newest(observations, newest))
    && (newest == 0 ==> NeverSeen(observations))
  }

  lemma UpToOneMore(observations: Observations, h: Hash, o: Observation, newest: int)
    requires h !in observations && UpTo(observations, newest)
    ensures UpTo(observations[h := o], if o.lastSeen > newest then o.lastSeen else newest)
  {
    var more := observations[h := o];
    assert h in more && more[h].lastSeen == o.lastSeen;
    if newest > 0 {
      var g :| g in observations && observations[g].lastSeen == newest;
      assert g in more && more[g].lastSeen == newest;
    }
  }

  method FlushClient(c: Client, observations: Observations, rows: Rows) returns (after: Rows, newest: int)
    ensures IsWritten(after, rows, map[c := observations])
    ensures UpTo(observations, newest)
  {
    after, newest := rows, 0;
    var todo := observations.Keys;
    ghost var done: Observations := map[];
    while todo != {}
      invariant todo <= observations.Keys && done == observations - todo
      invariant IsWritten(after, rows, map[c := done])
      invariant UpTo(done, newest)
      decreases todo
    {
      var h :| h in todo;
      WrittenRow(after, rows, c, done, h, observations[h]);
      UpToOneMore(done, h, observations[h], newest);
      if observations[h].lastSeen > newest {
        newest := observations[h].lastSeen;
      }
      after := after[RowKey(c, h, false) := observations[h].lastSeen];
      todo, done := todo - {h}, done[h := observations[h]];
    }
    assert done == observations;
  }

  // ---- reading history back ----

  datatype StoredRow = StoredRow(ip: string, ipHash: Hash)

  predicate LooksLikeSha256Hex(s: string) {
    |s| == 64 && forall i :: 0 <= i < |s| ==> '0' <= s[i] <= '9' || 'a' <= s[i] <= 'f' || 'A' <= s[i] <= 'F'
  }

  /** The hash a row stands for: its own, or the digest of a legacy address.
      None is a digest failure; the empty hash is a row that names no source. */
  function Resolve(row: StoredRow, digest: string -> Option<Hash>): Option<Hash> {
    if row.ipHash != "" || row.ip == "" then Some(row.ipHash)
    else if LooksLikeSha256Hex(row.ip) then Some(row.ip)
    else digest(row.ip)
  }

  /** Reads a client's rows. One unreadable legacy row fails the whole load, so
      no entry ever covers only part of the history. */
  method CollectHistory(rows: seq<StoredRow>, digest: string -> Option<Hash>) returns (ips: Option<set<Hash>>)
    ensures ips.None? <==> exists i :: 0 <= i < |rows| && Resolve(rows[i], digest).None?
    ensures ips.Some? ==> forall h :: h in ips.value <==>
      h != "" && exists i :: 0 <= i < |rows| && Resolve(rows[i], digest) == Some(h)
  {
    var found: set<Hash> := {};
    for n := 0 to |rows|
      invariant forall i :: 0 <= i < n ==> Resolve(rows[i], digest).Some?
      invariant forall h :: h in found <==> h != "" && exists i :: 0 <= i < n && Resolve(rows[i], digest) == Some(h)
    {
      var row := rows[n];
      var ipHash := row.ipHash;
      if ipHash == "" && row.ip != "" {
        if LooksLikeSha256Hex(row.ip) {
          ipHash := row.ip;
        } else {
          var hashed := digest(row.ip);
          if hashed.None? {
            return None;
          }
          ipHash := hashed.value;
        }
      }
      if ipHash != "" {
        found := found + {ipHash};
      }
    }
    return Some(found);
  }

  /** A source counts as one whether it was stored before or after hashing was
      introduced: under its own hash, under the digest of its address, or as a
      digest in the address column. */
  lemma LegacyRowsAgree(ip: string, hash: Hash, digest: string -> Option<Hash>)
    requires ip != "" && !LooksLikeSha256Hex(ip) && digest(ip) == Some(hash) && hash != "" && LooksLikeSha256Hex(hash)
    ensures Resolve(StoredRow(ip, ""), digest) == Some(hash)
    ensures Resolve(StoredRow(ip, hash), digest) == Some(hash) && Resolve(StoredRow("", hash), digest) == Some(hash)
    ensures Resolve(StoredRow(hash, ""), digest) == Some(hash)
  {
  }
}
