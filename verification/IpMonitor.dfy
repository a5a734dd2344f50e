/**
 The IP monitor's shared state as an object whose methods are the code regions
 that hold the state locks.
 */
module IpMonitor {
  import opened Basics
  import opened IpMonitorState

  class Monitor {
    var revision: nat
    var cache: Cache
    var pending: Snapshot
    var flushing: map<nat, Snapshot>
    var nextBatch: nat

    constructor ()
      ensures State() == EMPTY
    {
      revision, cache, pending, flushing, nextBatch := 0, map[], map[], map[], 0;
    }

    function State(): Mem
      reads this
    {
      Mem(revision, cache, pending, flushing, nextBatch)
    }

    method CacheAddIp(c: Client, h: Hash)
      modifies this`cache
      ensures cache == CacheAdd(old(cache), c, {h})
    {
      if c in cache {
        var entry := cache[c];
        cache := cache[c := entry.(ips := entry.ips + {h})];
      }
    }

    method RecordLocked(c: Client, h: Hash, display: Option<string>, stamp: int)
      modifies this`pending, this`cache
      ensures State() == Recorded(old(State()), c, h, Observation(stamp, display))
    {
      if c !in pending {
        pending := pending[c := map[]];
      }
      pending := pending[c := pending[c][h := Observation(stamp, display)]];
      CacheAddIp(c, h);
    }

    /** Plain recording: fenced by the revision, not subject to any limit. */
    method Record(c: Client, h: Hash, display: Option<string>, rev: nat, stamp: int)
      modifies this`pending, this`cache
      ensures State() == if rev == old(revision) then Recorded(old(State()), c, h, Observation(stamp, display)) else old(State())
    {
      if rev != revision {
        return;
      }
      RecordLocked(c, h, display, stamp);
    }

    method CollectPending(c: Client, start: set<Hash>) returns (seen: set<Hash>)
      ensures seen == start + Of(pending, c).Keys
    {
      seen := start;
      var todo := Of(pending, c).Keys;
      while todo != {}
        invariant todo <= Of(pending, c).Keys
        invariant seen == start + (Of(pending, c).Keys - todo)
        decreases todo
      {
        var h :| h in todo;
        seen := seen + {h};
        todo := todo - {h};
      }
    }

    method CollectFlushing(c: Client, start: set<Hash>) returns (seen: set<Hash>)
      ensures seen == start + FlushingHashes(flushing, c)
    {
      seen := start;
      var batches := flushing.Keys;
      while batches != {}
        invariant batches <= flushing.Keys
        invariant seen == start + FlushingHashes(flushing - batches, c)
        decreases batches
      {
        var b :| b in batches;
        var observed := Of(flushing[b], c).Keys;
        var before := seen;
        var todo := observed;
        while todo != {}
          invariant todo <= observed
          invariant seen == before + (observed - todo)
          decreases todo
        {
          var h :| h in todo;
          seen := seen + {h};
          todo := todo - {h};
        }
        FlushingHashesAdd(flushing - batches, flushing - (batches - {b}), b, c);
        batches := batches - {b};
      }
      assert flushing - {} == flushing;
    }

    /** The decision and the reservation of the slot, made under both locks. */
    method AdmitPrepared(c: Client, h: Hash, display: Option<string>, observe: bool, rev: nat, now: int, stamp: int)
      returns (allowed: bool)
      modifies this`pending, this`cache
      ensures allowed == Admits(old(State()), c, h, rev, now)
      ensures State() == Decided(old(State()), c, h, Observation(stamp, display), observe, rev, now)
    {
      if rev != revision || c !in cache || now >= cache[c].expiresAt {
        return false;
      }
      var entry := cache[c];
      allowed := true;
      if entry.mode == Enforce && entry.limit > 0 {
        var seen := entry.ips;
        seen := CollectPending(c, seen);
        seen := CollectFlushing(c, seen);
        assert seen == Seen(State(), c, entry.ips);
        var known := h in seen;
        seen := seen + {h};
        allowed := known || |seen| <= entry.limit;
      }
      if allowed && observe {
        RecordLocked(c, h, display, stamp);
      }
    }

    /** First locked region of a policy load. */
    method StartLoad(c: Client, rev: nat, now: int) returns (started: bool)
      modifies this`cache
      ensures started == LoadStarts(old(State()), c, rev, now)
      ensures State() == LoadStarted(old(State()), c, rev, now)
    {
      if rev != revision {
        return false;
      }
      if c in cache && now < cache[c].expiresAt {
        return false;
      }
      cache := cache - {c};
      return true;
    }

    /** Last locked region of a policy load. */
    method Install(c: Client, entry: Entry, rev: nat, expiresAt: int) returns (ok: bool)
      modifies this`cache
      ensures ok == (rev == old(revision))
      ensures State() == Installed(old(State()), c, entry, rev, expiresAt)
    {
      if rev != revision {
        return false;
      }
      cache := cache[c := entry.(expiresAt := expiresAt)];
      return true;
    }

    method InstallWarmUp(entries: Cache, rev: nat) returns (ok: bool)
      modifies this`cache, this`revision
      ensures ok == (rev == old(revision))
      ensures State() == Warmed(old(State()), entries, rev)
    {
      if rev != revision {
        return false;
      }
      revision := revision + 1;
      cache := entries;
      return true;
    }

    method InvalidateCache(c: Client)
      modifies this`cache, this`revision
      ensures State() == Invalidated(old(State()), c)
    {
      revision := revision + 1;
      cache := cache - {c};
    }

    method InvalidateAllCache()
      modifies this`cache, this`revision
      ensures State() == AllInvalidated(old(State()))
    {
      revision := revision + 1;
      cache := map[];
    }

    method ResetCaches()
      modifies this
      ensures State() == Reset(old(State()))
    {
      pending := map[];
      flushing := map[];
      revision := revision + 1;
      cache := map[];
    }

    method BeginFlush() returns (batch: nat)
      modifies this`pending, this`flushing, this`nextBatch
      ensures batch == old(nextBatch)
      ensures State() == FlushBegun(old(State()))
    {
      batch := nextBatch;
      nextBatch := nextBatch + 1;
      if pending != map[] {
        flushing := flushing[batch := pending];
      }
      pending := map[];
    }

    method MergeBack(c: Client, observations: Observations)
      modifies this`pending
      ensures pending == old(pending)[c := MergedObservations(Of(old(pending), c), observations)]
    {
      ghost var there := Of(pending, c);
      if c !in pending {
        pending := pending[c := map[]];
      }
      var todo := observations.Keys;
      while todo != {}
        invariant todo <= observations.Keys
        invariant c in pending && pending == old(pending)[c := pending[c]]
        invariant pending[c].Keys == there.Keys + (observations.Keys - todo)
        invariant forall h :: h in pending[c] && h !in todo ==> pending[c][h] == MergedObservations(there, observations)[h]
        invariant forall h :: h in pending[c] && h in todo ==> pending[c][h] == there[h]
        decreases todo
      {
        var h :| h in todo;
        if h !in pending[c] || observations[h].lastSeen > pending[c][h].lastSeen {
          pending := pending[c := pending[c][h := observations[h]]];
        }
        todo := todo - {h};
      }
      assert pending[c] == MergedObservations(there, observations);
    }

    /** Gives the observations of a failed transaction back to `pending`. */
    method Requeue(batch: nat)
      modifies this`pending, this`flushing
      ensures State() == Requeued(old(State()), batch)
    {
      if batch !in flushing {
        return;
      }
      var snapshot := flushing[batch];
      var todo := snapshot.Keys;
      assert snapshot - todo == map[];
      MergeNothing(pending);
      while todo != {}
        invariant todo <= snapshot.Keys && flushing == old(flushing)
        invariant pending == MergedSnapshot(old(pending), snapshot - todo)
        decreases todo
      {
        var c :| c in todo;
        MergeOneMore(old(pending), snapshot, todo, c);
        MergeBack(c, snapshot[c]);
        todo := todo - {c};
      }
      assert snapshot - {} == snapshot;
      assert pending == MergedSnapshot(old(pending), snapshot);
      flushing := flushing - {batch};
    }

    method Publish(c: Client, observations: Observations)
      modifies this`cache
      ensures cache == CacheAdd(old(cache), c, observations.Keys)
    {
      var todo := observations.Keys;
      while todo != {}
        invariant todo <= observations.Keys
        invariant cache.Keys == old(cache).Keys
        invariant forall x :: x in cache && x != c ==> cache[x] == old(cache)[x]
        invariant c in cache ==> cache[c].ips == old(cache)[c].ips + (observations.Keys - todo)
        invariant c in cache ==> cache[c] == old(cache)[c].(ips := cache[c].ips)
        decreases todo
      {
        var h :| h in todo;
        CacheAddIp(c, h);
        todo := todo - {h};
      }
      assert observations.Keys - {} == observations.Keys;
      assert cache == CacheAdd(old(cache), c, observations.Keys);
    }

    /** Publishes a batch whose transaction has committed and fences every
        load and decision that began before. */
    method Commit(batch: nat)
      modifies this`revision, this`cache, this`flushing
      ensures State() == Committed(old(State()), batch)
    {
      if batch !in flushing {
        return;
      }
      revision := revision + 1;
      var snapshot := flushing[batch];
      var todo := snapshot.Keys;
      while todo != {}
        invariant todo <= snapshot.Keys && flushing == old(flushing) && revision == old(revision) + 1
        invariant PublishedBut(cache, old(cache), snapshot, todo)
        decreases todo
      {
        var c :| c in todo;
        PublishedOneMore(cache, old(cache), snapshot, todo, c);
        Publish(c, snapshot[c]);
        todo := todo - {c};
      }
      PublishedAll(cache, old(cache), snapshot);
      flushing := flushing - {batch};
    }
  }

  /** The entries of `was` know the batch, but for the clients still to do. */
  ghost predicate PublishedBut(cache: Cache, was: Cache, snapshot: Snapshot, todo: set<Client>) {
    && cache.Keys == was.Keys
    && forall c :: c in cache ==>
         cache[c] == if c in todo then was[c] else was[c].(ips := was[c].ips + Of(snapshot, c).Keys)
  }

  lemma PublishedOneMore(cache: Cache, was: Cache, snapshot: Snapshot, todo: set<Client>, c: Client)
    requires PublishedBut(cache, was, snapshot, todo) && c in todo && c in snapshot
    ensures PublishedBut(CacheAdd(cache, c, snapshot[c].Keys), was, snapshot, todo - {c})
  {
  }

  lemma PublishedAll(cache: Cache, was: Cache, snapshot: Snapshot)
    requires PublishedBut(cache, was, snapshot, {})
    ensures cache == CachePublished(was, snapshot)
  {
  }

  lemma MergeNothing(there: Snapshot)
    ensures MergedSnapshot(there, map[]) == there
  {
  }

  lemma MergeOneMore(there: Snapshot, back: Snapshot, todo: set<Client>, c: Client)
    requires todo <= back.Keys && c in todo
    ensures Of(MergedSnapshot(there, back - todo), c) == Of(there, c)
    ensures MergedSnapshot(there, back - (todo - {c})) ==
            MergedSnapshot(there, back - todo)[c := MergedObservations(Of(there, c), back[c])]
  {
    var fewer, more := back - todo, back - (todo - {c});
    assert more == fewer[c := back[c]];
    MergeAdded(there, fewer, c, back[c]);
  }

  lemma MergeAdded(there: Snapshot, back: Snapshot, c: Client, observations: Observations)
    requires c !in back
    ensures Of(MergedSnapshot(there, back), c) == Of(there, c)
    ensures MergedSnapshot(there, back[c := observations]) ==
            MergedSnapshot(there, back)[c := MergedObservations(Of(there, c), observations)]
  {
    var m, f := MergedSnapshot(there, back[c := observations]), MergedSnapshot(there, back);
    forall d | d != c ensures (d in m <==> d in f) && (d in m ==> m[d] == f[d]) {
      MergedAt(there, back, d);
      MergedAt(there, back[c := observations], d);
    }
    MergedAt(there, back[c := observations], c);
    MergedAt(there, back, c);
    SameBut(m, f, c);
  }

  lemma SameBut(m: Snapshot, f: Snapshot, c: Client)
    requires c in m && forall d :: d != c ==> (d in m <==> d in f) && (d in m ==> m[d] == f[d])
    ensures m == f[c := m[c]]
  {
  }

  lemma MergedAt(there: Snapshot, back: Snapshot, d: Client)
    ensures d in MergedSnapshot(there, back) <==> d in there || d in back
    ensures d in there && d !in back ==> MergedSnapshot(there, back)[d] == there[d]
    ensures d in back ==> MergedSnapshot(there, back)[d] == MergedObservations(Of(there, d), back[d])
  {
  }

  lemma FlushingHashesAdd(small: map<nat, Snapshot>, large: map<nat, Snapshot>, b: nat, c: Client)
    requires b in large && small == large - {b}
    ensures FlushingHashes(large, c) == FlushingHashes(small, c) + Of(large[b], c).Keys
  {
    forall h | h in FlushingHashes(large, c)
      ensures h in FlushingHashes(small, c) + Of(large[b], c).Keys
    {
      var x :| x in large && h in Of(large[x], c);
      if x != b {
        assert x in small && h in Of(small[x], c);
      }
    }
    forall h | h in FlushingHashes(small, c) + Of(large[b], c).Keys
      ensures h in FlushingHashes(large, c)
    {
      if h in FlushingHashes(small, c) {
        var x :| x in small && h in Of(small[x], c);
        assert x in large && h in Of(large[x], c);
      } else {
        assert b in large && h in Of(large[b], c);
      }
    }
  }
}
