/**
 The time at which a source was last seen: what becomes of it between memory and
 the database, where a batch is written over the stored time without comparing.
 */
module IpSightings {
  import opened Basics
  import opened IpMonitorState
  import opened IpHistory
  import opened IpAdmission

  function TimeIn(snapshot: Snapshot, c: Client, h: Hash): Option<int> {
    if h in Of(snapshot, c) then Some(Of(snapshot, c)[h].lastSeen) else None
  }

  function PendingTime(s: System, c: Client, h: Hash): Option<int> { TimeIn(s.mem.pending, c, h) }

  function BatchTime(s: System, b: nat, c: Client, h: Hash): Option<int> {
    if b in s.mem.flushing then TimeIn(s.mem.flushing[b], c, h) else None
  }

  function StoredTime(s: System, c: Client, h: Hash): Option<int> { Lookup(s.rows, RowKey(c, h, false)) }

  ghost predicate Batched(s: System, c: Client, h: Hash, t: int) {
    exists b :: BatchTime(s, b, c, h) == Some(t)
  }

  /** The time is pending, in a batch, or stored. */
  ghost predicate Kept(s: System, c: Client, h: Hash, t: int) {
    PendingTime(s, c, h) == Some(t) || Batched(s, c, h, t) || StoredTime(s, c, h) == Some(t)
  }

  // ---- where a step moves the time ----

  ghost predicate Accepts(s: System, e: Event, c: Client, h: Hash) {
    || (e.Record? && e.c == c && e.h == h && e.revision == s.mem.revision)
    || (e.Decide? && e.c == c && e.h == h && e.observe && Admits(s.mem, e.c, e.h, e.revision, e.now))
  }

  function Later(a: Option<int>, b: Option<int>): Option<int> {
    if a.None? then b else if b.None? then a else Some(Max(a.value, b.value))
  }

  ghost function PendingNext(s: System, e: Event, c: Client, h: Hash): Option<int> {
    if Accepts(s, e, c, h) then Some(e.o.lastSeen)
    else if e.BeginFlush? || e.ResetTo? then None
    else if e.Requeue? then Later(PendingTime(s, c, h), BatchTime(s, e.b, c, h))
    else PendingTime(s, c, h)
  }

  function BatchNext(s: System, e: Event, b: nat, c: Client, h: Hash): Option<int> {
    if e.BeginFlush? && b == s.mem.nextBatch then PendingTime(s, c, h)
    else if e.ResetTo? || (e.Requeue? && e.b == b) || (e.CommitBatch? && e.b == b && b in s.written) then None
    else BatchTime(s, b, c, h)
  }

  function StoredNext(s: System, e: Event, c: Client, h: Hash): Option<int> {
    if e.CommitTransaction? && e.b !in s.written && BatchTime(s, e.b, c, h).Some? then BatchTime(s, e.b, c, h)
    else if e.ResetTo? then Lookup(e.rows, RowKey(c, h, false))
    else if (e.ClearRows? && e.c == c) || (e.PruneRows? && StoredTime(s, c, h).Some? && StoredTime(s, c, h).value < e.before) then None
    else StoredTime(s, c, h)
  }

  ghost predicate Moved(s: System, e: Event, t: System, c: Client, h: Hash) {
    && PendingTime(t, c, h) == PendingNext(s, e, c, h)
    && (forall b :: BatchTime(t, b, c, h) == BatchNext(s, e, b, c, h))
    && StoredTime(t, c, h) == StoredNext(s, e, c, h)
  }

  lemma PendingMoves(s: System, e: Event, c: Client, h: Hash)
    ensures PendingTime(Apply(s, e), c, h) == PendingNext(s, e, c, h)
  {
    if e.Requeue? {
      PendingMerges(s, e, c, h);
    } else if !e.Decide? && !e.Record? && !e.BeginFlush? && !e.ResetTo? {
      PendingStays(s, e);
    }
  }

  lemma PendingMerges(s: System, e: Event, c: Client, h: Hash)
    requires e.Requeue?
    ensures PendingTime(Apply(s, e), c, h) == PendingNext(s, e, c, h)
  {
    if e.b in s.mem.flushing {
      RequeueRestores(s.mem, e.b, c, h);
    }
  }

  lemma PendingStays(s: System, e: Event)
    requires !e.Decide? && !e.Record? && !e.BeginFlush? && !e.Requeue? && !e.ResetTo?
    ensures Apply(s, e).mem.pending == s.mem.pending
  {
  }

  lemma BatchMoves(s: System, e: Event, b: nat, c: Client, h: Hash)
    requires WellFormed(s)
    ensures BatchTime(Apply(s, e), b, c, h) == BatchNext(s, e, b, c, h)
  {
    if e.BeginFlush? || e.Requeue? || e.CommitBatch? || e.ResetTo? {
      BatchesChange(s, e, b, c, h);
    } else {
      BatchesStay(s, e);
    }
  }

  lemma BatchesChange(s: System, e: Event, b: nat, c: Client, h: Hash)
    requires WellFormed(s) && (e.BeginFlush? || e.Requeue? || e.CommitBatch? || e.ResetTo?)
    ensures BatchTime(Apply(s, e), b, c, h) == BatchNext(s, e, b, c, h)
  {
  }

  lemma BatchesStay(s: System, e: Event)
    requires !e.BeginFlush? && !e.Requeue? && !e.CommitBatch? && !e.ResetTo?
    ensures Apply(s, e).mem.flushing == s.mem.flushing
  {
  }

  lemma StoredMoves(s: System, e: Event, c: Client, h: Hash)
    ensures StoredTime(Apply(s, e), c, h) == StoredNext(s, e, c, h)
  {
    if e.CommitTransaction? {
      if e.b in s.mem.flushing {
        StoredWrite(s.rows, s.mem.flushing[e.b], c, h);
      }
    } else if !e.ResetTo? && !e.ClearRows? && !e.PruneRows? {
      assert Apply(s, e).rows == s.rows;
    }
  }

  lemma StoredWrite(rows: Rows, snapshot: Snapshot, c: Client, h: Hash)
    ensures Lookup(Written(rows, snapshot), RowKey(c, h, false)) ==
      if TimeIn(snapshot, c, h).Some? then TimeIn(snapshot, c, h) else Lookup(rows, RowKey(c, h, false))
  {
    WrittenIs(rows, snapshot);
    assert InBatch(snapshot, RowKey(c, h, false)) <==> h in Of(snapshot, c);
  }

  lemma StepMoves(s: System, e: Event, c: Client, h: Hash)
    requires WellFormed(s)
    ensures Moved(s, e, Apply(s, e), c, h)
  {
    PendingMoves(s, e, c, h);
    StoredMoves(s, e, c, h);
    forall b ensures BatchTime(Apply(s, e), b, c, h) == BatchNext(s, e, b, c, h) {
      BatchMoves(s, e, b, c, h);
    }
  }

  // ---- the steps that lose a time ----

  /** No batch but `b` has the time. */
  ghost predicate OnlyIn(s: System, b: nat, c: Client, h: Hash, t: int) {
    forall a :: a != b ==> BatchTime(s, a, c, h) != Some(t)
  }

  /** A batch goes back to pending, where the source has another time, and of the
      two the later one stays. */
  ghost predicate LosesInMerge(s: System, e: Event, c: Client, h: Hash, t: int) {
    && e.Requeue? && BatchTime(s, e.b, c, h).Some? && PendingTime(s, c, h).Some?
    && (BatchTime(s, e.b, c, h) == Some(t) || PendingTime(s, c, h) == Some(t))
    && Max(BatchTime(s, e.b, c, h).value, PendingTime(s, c, h).value) != t
    && OnlyIn(s, e.b, c, h, t) && StoredTime(s, c, h) != Some(t)
  }

  /** A batch is written over the stored time, which is the only one left; or the
      row is cleared or pruned. */
  ghost predicate LosesRow(s: System, e: Event, c: Client, h: Hash, t: int) {
    && !e.ResetTo? && StoredTime(s, c, h) == Some(t) && StoredNext(s, e, c, h) != Some(t)
    && PendingTime(s, c, h) != Some(t) && !Batched(s, c, h, t)
  }

  /** A written batch is forgotten after another one was written over its row. */
  ghost predicate LosesBatch(s: System, e: Event, c: Client, h: Hash, t: int) {
    && e.CommitBatch? && e.b in s.written && BatchTime(s, e.b, c, h) == Some(t) && OnlyIn(s, e.b, c, h, t)
    && PendingTime(s, c, h) != Some(t) && StoredTime(s, c, h) != Some(t)
  }

  ghost predicate Loses(s: System, e: Event, c: Client, h: Hash, t: int) {
    LosesInMerge(s, e, c, h, t) || LosesRow(s, e, c, h, t) || LosesBatch(s, e, c, h, t)
  }

  lemma RequeueKeepsIff(s: System, e: Event, after: System, c: Client, h: Hash, t: int)
    requires Moved(s, e, after, c, h) && e.Requeue?
    ensures Kept(after, c, h, t) <==> Kept(s, c, h, t) && !LosesInMerge(s, e, c, h, t)
  {
    assert BatchTime(after, e.b, c, h) == None && forall b :: b != e.b ==> BatchTime(after, b, c, h) == BatchTime(s, b, c, h);
  }

  lemma FlushKeeps(s: System, e: Event, after: System, c: Client, h: Hash, t: int)
    requires Moved(s, e, after, c, h) && e.BeginFlush? && WellFormed(s)
    ensures Kept(after, c, h, t) <==> Kept(s, c, h, t)
  {
    var n := s.mem.nextBatch;
    assert BatchTime(after, n, c, h) == PendingTime(s, c, h) && BatchTime(s, n, c, h) == None;
    assert forall b :: b != n ==> BatchTime(after, b, c, h) == BatchTime(s, b, c, h);
  }

  lemma CommitKeepsIff(s: System, e: Event, after: System, c: Client, h: Hash, t: int)
    requires Moved(s, e, after, c, h) && e.CommitBatch?
    ensures Kept(after, c, h, t) <==> Kept(s, c, h, t) && !LosesBatch(s, e, c, h, t)
  {
    assert PendingTime(after, c, h) == PendingTime(s, c, h) && StoredTime(after, c, h) == StoredTime(s, c, h);
    forall b | b != e.b ensures BatchTime(after, b, c, h) == BatchTime(s, b, c, h) {
      assert BatchTime(after, b, c, h) == BatchNext(s, e, b, c, h);
    }
    if e.b in s.written {
      assert BatchTime(after, e.b, c, h) == None;
      if BatchTime(s, e.b, c, h) == Some(t) {
        assert Batched(s, c, h, t);
      }
    } else {
      assert BatchTime(after, e.b, c, h) == BatchTime(s, e.b, c, h);
    }
  }

  lemma RowKeepsIff(s: System, e: Event, after: System, c: Client, h: Hash, t: int)
    requires Moved(s, e, after, c, h) && !Accepts(s, e, c, h) && !e.ResetTo? && !e.Requeue? && !e.BeginFlush? && !e.CommitBatch?
    ensures Kept(after, c, h, t) <==> Kept(s, c, h, t) && !LosesRow(s, e, c, h, t)
  {
    assert forall b :: BatchTime(after, b, c, h) == BatchTime(s, b, c, h);
    if e.CommitTransaction? && BatchTime(s, e.b, c, h) == Some(t) {
      assert Batched(s, c, h, t);
    }
  }

  /** A step that neither accepts the source again nor replaces the database loses
      the time exactly as said; nothing lost comes back. */
  lemma StepKeepsIff(s: System, e: Event, after: System, c: Client, h: Hash, t: int)
    requires Moved(s, e, after, c, h) && WellFormed(s) && !Accepts(s, e, c, h) && !e.ResetTo?
    ensures Kept(after, c, h, t) <==> Kept(s, c, h, t) && !Loses(s, e, c, h, t)
  {
    if e.Requeue? {
      RequeueKeepsIff(s, e, after, c, h, t);
    } else if e.BeginFlush? {
      FlushKeeps(s, e, after, c, h, t);
    } else if e.CommitBatch? {
      CommitKeepsIff(s, e, after, c, h, t);
    } else {
      RowKeepsIff(s, e, after, c, h, t);
    }
  }

  // ---- runs ----

  /** The step sets the time anew: the source is accepted, or the database
      replaced. */
  ghost predicate Sets(s: System, e: Event, c: Client, h: Hash) { Accepts(s, e, c, h) || e.ResetTo? }

  /** The time of the last accepted sighting, or the stored one the run or a
      replaced database starts with. */
  ghost function LastSighting(s: System, es: seq<Event>, c: Client, h: Hash): Option<int>
    decreases |es|
  {
    if es == [] then StoredTime(s, c, h)
    else
      var e := es[|es| - 1];
      if Accepts(Run(s, es[..|es| - 1]), e, c, h) then Some(e.o.lastSeen)
      else if e.ResetTo? then Lookup(e.rows, RowKey(c, h, false))
      else LastSighting(s, es[..|es| - 1], c, h)
  }

  /** Some step has lost the time since it was last set. */
  ghost predicate Lost(s: System, es: seq<Event>, c: Client, h: Hash)
    decreases |es|
  {
    es != [] &&
    var shorter, e := es[..|es| - 1], es[|es| - 1];
    !Sets(Run(s, shorter), e, c, h) && LastSighting(s, shorter, c, h).Some? &&
    (Lost(s, shorter, c, h) || Loses(Run(s, shorter), e, c, h, LastSighting(s, shorter, c, h).value))
  }

  lemma SetStep(s: System, e: Event, c: Client, h: Hash)
    requires WellFormed(s) && Sets(s, e, c, h)
    ensures Accepts(s, e, c, h) ==> Kept(Apply(s, e), c, h, e.o.lastSeen)
    ensures !Accepts(s, e, c, h) && RowKey(c, h, false) in e.rows ==> Kept(Apply(s, e), c, h, e.rows[RowKey(c, h, false)])
  {
    StepMoves(s, e, c, h);
  }

  lemma KeptNext(s: System, e: Event, c: Client, h: Hash, t: int)
    requires WellFormed(s) && !Sets(s, e, c, h)
    ensures Kept(Apply(s, e), c, h, t) <==> Kept(s, c, h, t) && !Loses(s, e, c, h, t)
  {
    StepMoves(s, e, c, h);
    StepKeepsIff(s, e, Apply(s, e), c, h, t);
  }

  /** After every run, the time of the last accepted sighting is pending, in a
      batch or stored exactly when no step has lost it since. */
  lemma {:induction false} SightingKeptIff(s: System, es: seq<Event>, c: Client, h: Hash)
    requires WellFormed(s) && LastSighting(s, es, c, h).Some?
    ensures Kept(Run(s, es), c, h, LastSighting(s, es, c, h).value) <==> !Lost(s, es, c, h)
    decreases |es|
  {
    if es != [] {
      var shorter, e := es[..|es| - 1], es[|es| - 1];
      RunWellFormed(s, shorter);
      if Sets(Run(s, shorter), e, c, h) {
        SetStep(Run(s, shorter), e, c, h);
      } else {
        SightingKeptIff(s, shorter, c, h);
        KeptNext(Run(s, shorter), e, c, h, LastSighting(s, shorter, c, h).value);
      }
    }
  }

  /** Once nothing about the source is pending or in a batch, the stored time is
      that of the last accepted sighting exactly when no step has lost it since. */
  lemma StoredIsLatestIff(s: System, es: seq<Event>, c: Client, h: Hash)
    requires WellFormed(s) && LastSighting(s, es, c, h).Some?
    requires PendingTime(Run(s, es), c, h).None? && forall b :: BatchTime(Run(s, es), b, c, h).None?
    ensures StoredTime(Run(s, es), c, h) == LastSighting(s, es, c, h) <==> !Lost(s, es, c, h)
  {
    SightingKeptIff(s, es, c, h);
  }

  /** Two batches written in the other order than they were taken: the stored time
      goes back. */
  lemma LateCommitMovesBack(s: System, a: nat, b: nat, c: Client, h: Hash)
    requires a != b && a in s.mem.flushing && b in s.mem.flushing && a !in s.written && b !in s.written
    requires BatchTime(s, a, c, h).Some? && BatchTime(s, b, c, h).Some? && BatchTime(s, a, c, h).value < BatchTime(s, b, c, h).value
    ensures StoredTime(Run(s, [CommitTransaction(b)]), c, h) == BatchTime(s, b, c, h)
    ensures StoredTime(Run(s, [CommitTransaction(b), CommitTransaction(a)]), c, h) == BatchTime(s, a, c, h)
  {
    RunTwo(s, CommitTransaction(b), CommitTransaction(a));
    CommitStores(s, b, c, h);
    CommitStores(Apply(s, CommitTransaction(b)), a, c, h);
  }

  lemma CommitStores(s: System, b: nat, c: Client, h: Hash)
    requires b in s.mem.flushing && b !in s.written && BatchTime(s, b, c, h).Some?
    ensures var t := Apply(s, CommitTransaction(b));
      t.mem == s.mem && t.written == s.written + {b} && StoredTime(t, c, h) == BatchTime(s, b, c, h)
  {
    StoredMoves(s, CommitTransaction(b), c, h);
  }

  lemma RunTwo(s: System, e: Event, f: Event)
    ensures Run(s, [e]) == Apply(s, e) && Run(s, [e, f]) == Apply(Apply(s, e), f)
  {
    assert [e, f][..1] == [e] && [e][..0] == [];
    assert Run(s, []) == s;
  }
}
