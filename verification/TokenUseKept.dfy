/**
 What becomes of the last use recorded for a token: exactly which steps of a
 debouncer lose it, in every run without a reset.
 */
module TokenUseKept {
  import opened Basics
  import opened TokenUseState
  import opened TokenUseRuns

  /** What is to be kept: an update as it is, or some update of that time. */
  datatype Aim = Whole(u: Update) | Time(ts: int)
  {
    predicate Met(w: Update) { if Whole? then w == u else w.ts == ts }
  }

  predicate In(us: Updates, id: nat, aim: Aim) { id in us && aim.Met(us[id]) }

  /** The batch a call is writing or has failed to write. */
  function Batch(s: System, i: nat): Updates {
    if i in s.calls && s.calls[i].HasBatch() then s.calls[i].batch else map[]
  }

  ghost predicate InFlight(s: System, id: nat, aim: Aim) {
    exists i :: In(Batch(s, i), id, aim)
  }

  /** Pending, in a batch on its way, or stored in the token's row. */
  ghost predicate Kept(s: System, id: nat, aim: Aim) {
    In(s.d.pending, id, aim) || InFlight(s, id, aim) || In(s.table, id, aim)
  }

  // ---- where a step moves updates ----

  /** No reset is under way; a reset drops updates on purpose. */
  ghost predicate NoReset(s: System) {
    && !s.d.retired
    && (forall i :: i in s.calls ==> !s.calls[i].Retiring? && (s.calls[i].Flushing() ==> !s.calls[i].kind.ByReset?))
  }

  lemma NoResetStep(s: System, e: Event)
    requires NoReset(s) && !e.StartReset?
    ensures NoReset(Apply(s, e))
  {
  }

  ghost predicate Happens(s: System, e: Event) { Possible(s, e) && GateAllows(s, e) }

  ghost predicate Grabs(s: System, e: Event) { Happens(s, e) && Grabbed(s, e) != map[] }

  predicate Records(e: Event, id: nat) { e.Record? && e.id == id && id != 0 }

  ghost function PendingNext(s: System, e: Event): Updates {
    if Grabs(s, e) then map[]
    else if e.Record? && e.id != 0 then s.d.pending[e.id := e.u]
    else if e.Requeue? && Possible(s, e) then Merged(s.d.pending, Batch(s, e.call))
    else s.d.pending
  }

  ghost function BatchNext(s: System, e: Event, i: nat): Updates {
    if Grabs(s, e) && e.call == i then s.d.pending
    else if (e.Succeed? || e.Requeue?) && Possible(s, e) && e.call == i then map[]
    else Batch(s, i)
  }

  function Stores(s: System, e: Event): Updates { if Possible(s, e) then Wrote(s, e) else map[] }

  /** `t` is `s` with the updates moved as the event moves them. */
  ghost predicate Moved(s: System, e: Event, t: System) {
    && t.d.pending == PendingNext(s, e)
    && t.table == s.table + Stores(s, e)
    && (forall i :: Batch(t, i) == BatchNext(s, e, i))
  }

  lemma PendingMoved(s: System, e: Event)
    requires NoReset(s) && Happens(s, e)
    ensures DebouncerAfter(s, e).pending == PendingNext(s, e)
  {
  }

  lemma BatchMoved(s: System, e: Event, i: nat)
    requires NoReset(s) && Happens(s, e)
    ensures (if i in CallsAfter(s, e) && CallsAfter(s, e)[i].HasBatch() then CallsAfter(s, e)[i].batch else map[]) == BatchNext(s, e, i)
  {
    if HasCall(e) && e.call == i {
      PhaseMoved(s, e);
    }
  }

  lemma PhaseMoved(s: System, e: Event)
    requires NoReset(s) && Happens(s, e) && HasCall(e)
    ensures (if PhaseAfter(s, e).Some? && PhaseAfter(s, e).value.HasBatch() then PhaseAfter(s, e).value.batch else map[]) ==
      BatchNext(s, e, e.call)
  {
  }

  lemma NothingMoved(s: System, e: Event)
    requires !Happens(s, e)
    ensures Moved(s, e, s)
  {
    assert s.table + map[] == s.table;
  }

  lemma EffectParts(s: System, e: Event, t: System)
    requires Happens(s, e) && t == Apply(s, e)
    ensures t.d == DebouncerAfter(s, e) && t.calls == CallsAfter(s, e) && t.table == s.table + Stores(s, e)
  {
  }

  lemma StepMoves(s: System, e: Event)
    requires NoReset(s)
    ensures Moved(s, e, Apply(s, e))
  {
    if Happens(s, e) {
      PendingMoved(s, e);
      EffectParts(s, e, Apply(s, e));
      forall i ensures Batch(Apply(s, e), i) == BatchNext(s, e, i) {
        BatchMoved(s, e, i);
      }
    } else {
      NothingMoved(s, e);
    }
  }

  // ---- the steps that lose an update ----

  /** A failed batch goes back to the pending updates, which hold another update
      of the token, and of the two the one looked for gives way. It is nowhere
      else. */
  ghost predicate LosesInMerge(s: System, e: Event, id: nat, aim: Aim) {
    && e.Requeue? && Possible(s, e) && id in Batch(s, e.call) && id in s.d.pending
    && (if Batch(s, e.call)[id].ts <= s.d.pending[id].ts
        then aim.Met(Batch(s, e.call)[id]) && !aim.Met(s.d.pending[id])
        else aim.Met(s.d.pending[id]) && !aim.Met(Batch(s, e.call)[id]))
    && (forall i :: i != e.call ==> !In(Batch(s, i), id, aim))
    && !In(s.table, id, aim)
  }

  /** A batch is stored over the row that held the only one left. */
  ghost predicate LosesInTable(s: System, e: Event, id: nat, aim: Aim) {
    && id in Stores(s, e) && !aim.Met(Stores(s, e)[id])
    && In(s.table, id, aim) && !In(s.d.pending, id, aim) && !InFlight(s, id, aim)
  }

  ghost predicate Loses(s: System, e: Event, id: nat, aim: Aim) {
    LosesInMerge(s, e, id, aim) || LosesInTable(s, e, id, aim)
  }

  lemma RequeueKeepsIff(s: System, e: Event, t: System, id: nat, aim: Aim)
    requires Moved(s, e, t) && e.Requeue? && Possible(s, e)
    ensures Kept(t, id, aim) <==> Kept(s, id, aim) && !LosesInMerge(s, e, id, aim)
  {
    assert t.table == s.table;
    assert t.d.pending == Merged(s.d.pending, Batch(s, e.call));
    assert Batch(t, e.call) == map[] && forall i :: i != e.call ==> Batch(t, i) == Batch(s, i);
  }

  lemma WriteKeepsIff(s: System, e: Event, t: System, id: nat, aim: Aim)
    requires Moved(s, e, t) && (e.Succeed? || e.Fail?) && Possible(s, e)
    ensures Kept(t, id, aim) <==> Kept(s, id, aim) && !LosesInTable(s, e, id, aim)
  {
    assert t.d.pending == s.d.pending;
    assert forall i :: i != e.call ==> Batch(t, i) == Batch(s, i);
    assert id in Stores(s, e) ==> id in Batch(s, e.call) && Stores(s, e)[id] == Batch(s, e.call)[id];
    if e.Succeed? {
      assert Batch(t, e.call) == map[] && Stores(s, e) == Batch(s, e.call);
    } else {
      assert Batch(t, e.call) == Batch(s, e.call);
    }
  }

  lemma TakeKeeps(s: System, e: Event, t: System, id: nat, aim: Aim)
    requires Moved(s, e, t) && Grabs(s, e) && Batch(s, e.call) == map[]
    ensures Kept(t, id, aim) <==> Kept(s, id, aim)
  {
    assert t.table == s.table;
    assert Batch(t, e.call) == s.d.pending && forall i :: i != e.call ==> Batch(t, i) == Batch(s, i);
  }

  /** A step other than a new use of the token loses the update exactly when it
      merges or stores the only one left away. Nothing lost comes back. */
  lemma StepKeepsIff(s: System, e: Event, t: System, id: nat, aim: Aim)
    requires Moved(s, e, t) && !Records(e, id)
    ensures Kept(t, id, aim) <==> Kept(s, id, aim) && !Loses(s, e, id, aim)
  {
    if e.Requeue? && Possible(s, e) {
      RequeueKeepsIff(s, e, t, id, aim);
    } else if (e.Succeed? || e.Fail?) && Possible(s, e) {
      WriteKeepsIff(s, e, t, id, aim);
    } else if Grabs(s, e) {
      TakeKeeps(s, e, t, id, aim);
    } else {
      assert t.table == s.table && forall i :: Batch(t, i) == Batch(s, i);
    }
  }

  // ---- runs ----

  ghost predicate NoResets(es: seq<Event>) {
    forall k :: 0 <= k < |es| ==> !es[k].StartReset?
  }

  lemma {:induction false} RunNoReset(s: System, es: seq<Event>)
    requires NoReset(s) && NoResets(es)
    ensures NoReset(Run(s, es))
    decreases |es|
  {
    if es != [] {
      RunNoReset(s, es[..|es| - 1]);
      NoResetStep(Run(s, es[..|es| - 1]), es[|es| - 1]);
    }
  }

  /** The last use recorded for the token, as a whole or its time only. */
  function Wanted(s: System, id: nat, whole: bool): Aim
    requires id in s.newest
  {
    if whole then Whole(s.newest[id]) else Time(s.newest[id].ts)
  }

  ghost predicate LosesLast(s: System, e: Event, id: nat, whole: bool) {
    id in s.newest && Loses(s, e, id, Wanted(s, id, whole))
  }

  /** Step `k` of the run loses it and no use has been recorded since. */
  ghost predicate LostAt(s: System, es: seq<Event>, id: nat, whole: bool, k: nat) {
    && k < |es| && LosesLast(Run(s, es[..k]), es[k], id, whole)
    && forall j :: k < j < |es| ==> !Records(es[j], id)
  }

  lemma NewestAfter(s: System, e: Event, id: nat)
    requires NoReset(s)
    ensures Records(e, id) ==> Apply(s, e).newest == s.newest[id := e.u] && Apply(s, e).d.pending == s.d.pending[id := e.u]
    ensures !Records(e, id) ==> (id in Apply(s, e).newest <==> id in s.newest)
    ensures !Records(e, id) && id in s.newest ==> Apply(s, e).newest[id] == s.newest[id]
  {
  }

  lemma LostAtShorter(s: System, es: seq<Event>, id: nat, whole: bool, k: nat)
    requires es != [] && !Records(es[|es| - 1], id) && k < |es| - 1
    ensures LostAt(s, es, id, whole, k) <==> LostAt(s, es[..|es| - 1], id, whole, k)
  {
    assert es[..|es| - 1][..k] == es[..k];
  }

  /** After every run without a reset, whatever the clocks read: the last use
      recorded for a token is pending, on its way or stored, as a whole or by its
      time, exactly when no step has lost it since. */
  lemma {:induction false} LastUseKeptIff(s: System, es: seq<Event>, id: nat, whole: bool)
    requires Start(s) && NoResets(es) && id in Run(s, es).newest
    ensures Kept(Run(s, es), id, Wanted(Run(s, es), id, whole)) <==> !exists k: nat :: LostAt(s, es, id, whole, k)
    decreases |es|
  {
    if es == [] {
      return;
    }
    var shorter, e := es[..|es| - 1], es[|es| - 1];
    var u, t := Run(s, shorter), Run(s, es);
    RunNoReset(s, shorter);
    NewestAfter(u, e, id);
    if Records(e, id) {
      assert In(t.d.pending, id, Wanted(t, id, whole));
    } else {
      LastUseKeptIff(s, shorter, id, whole);
      StepMoves(u, e);
      StepKeepsIff(u, e, t, id, Wanted(u, id, whole));
      LostIff(s, es, id, whole);
    }
  }

  lemma LostIff(s: System, es: seq<Event>, id: nat, whole: bool)
    requires es != [] && !Records(es[|es| - 1], id)
    ensures var shorter, e := es[..|es| - 1], es[|es| - 1];
      (exists k: nat :: LostAt(s, es, id, whole, k)) <==>
      LosesLast(Run(s, shorter), e, id, whole) || exists k: nat :: LostAt(s, shorter, id, whole, k)
  {
    var shorter, e := es[..|es| - 1], es[|es| - 1];
    forall k: nat | k < |es| - 1 ensures LostAt(s, es, id, whole, k) <==> LostAt(s, shorter, id, whole, k) {
      LostAtShorter(s, es, id, whole, k);
    }
    assert LostAt(s, es, id, whole, |es| - 1) <==> LosesLast(Run(s, shorter), e, id, whole);
  }

  ghost predicate KeptThere(s: System, id: nat, whole: bool) {
    id in s.newest ==> Kept(s, id, Wanted(s, id, whole))
  }

  lemma LossShows(s: System, es: seq<Event>, id: nat, whole: bool, k: nat)
    requires Start(s) && NoResets(es) && k < |es| && LosesLast(Run(s, es[..k]), es[k], id, whole)
    ensures !KeptThere(Run(s, es[..k + 1]), id, whole)
  {
    var u := Run(s, es[..k]);
    RunNoReset(s, es[..k]);
    NewestAfter(u, es[k], id);
    StepMoves(u, es[k]);
    assert es[..k + 1][..k] == es[..k];
    StepKeepsIff(u, es[k], Apply(u, es[k]), id, Wanted(u, id, whole));
  }

  lemma LossFound(s: System, es: seq<Event>, id: nat, whole: bool, k: nat) returns (j: nat)
    requires Start(s) && NoResets(es) && k <= |es| && !KeptThere(Run(s, es[..k]), id, whole)
    ensures j < |es| && LosesLast(Run(s, es[..j]), es[j], id, whole)
  {
    LastUseKeptIff(s, es[..k], id, whole);
    j :| LostAt(s, es[..k], id, whole, j);
    assert es[..k][..j] == es[..j];
  }

  /** It is kept all along a run exactly when no step of the run loses it. */
  lemma AlwaysKeptIff(s: System, es: seq<Event>, id: nat, whole: bool)
    requires Start(s) && NoResets(es)
    ensures (forall k: nat :: k <= |es| ==> KeptThere(Run(s, es[..k]), id, whole)) <==>
      (forall k: nat :: k < |es| ==> !LosesLast(Run(s, es[..k]), es[k], id, whole))
  {
    if k: nat :| k < |es| && LosesLast(Run(s, es[..k]), es[k], id, whole) {
      LossShows(s, es, id, whole, k);
    } else if k: nat :| k <= |es| && !KeptThere(Run(s, es[..k]), id, whole) {
      var j := LossFound(s, es, id, whole, k);
    }
  }

  // ---- clocks that do not go back ----

  /** Timestamps of a token do not go back. */
  ghost predicate Orderly(s: System, e: Event) {
    !e.StartReset? && (e.Record? && e.id in s.newest ==> s.newest[e.id].ts <= e.u.ts)
  }

  /** Timestamps of a token go forward. */
  ghost predicate Ticking(s: System, e: Event) {
    !e.StartReset? && (e.Record? && e.id in s.newest ==> s.newest[e.id].ts < e.u.ts)
  }

  /** No row is stored over by an earlier use. */
  ghost predicate Forward(s: System, e: Event) {
    forall id :: id in Stores(s, e) && id in s.table ==> s.table[id].ts <= Stores(s, e)[id].ts
  }

  /** No requeue and no write meets another update of the same time. */
  ghost predicate NoTie(s: System, e: Event) {
    && (e.Requeue? ==> forall id :: id in Batch(s, e.call) && id in s.d.pending && Batch(s, e.call)[id].ts == s.d.pending[id].ts ==>
          Batch(s, e.call)[id] == s.d.pending[id])
    && (forall id :: id in Stores(s, e) && id in s.table && Stores(s, e)[id].ts == s.table[id].ts ==> Stores(s, e)[id] == s.table[id])
  }

  ghost predicate OrderlyRun(s: System, es: seq<Event>) {
    forall k :: 0 <= k < |es| ==> Orderly(Run(s, es[..k]), es[k])
  }

  /** Nothing kept is later than the last use recorded for its token. */
  ghost predicate Bounded(s: System) {
    forall id, u :: Kept(s, id, Whole(u)) ==> id in s.newest && u.ts <= s.newest[id].ts
  }

  lemma BoundedStep(s: System, e: Event)
    requires NoReset(s) && Bounded(s) && Orderly(s, e)
    ensures Bounded(Apply(s, e))
  {
    var t := Apply(s, e);
    StepMoves(s, e);
    forall id, u | Kept(t, id, Whole(u)) ensures id in t.newest && u.ts <= t.newest[id].ts {
      NewestAfter(s, e, id);
      if !Records(e, id) {
        StepKeepsIff(s, e, t, id, Whole(u));
      } else if u != e.u {
        RecordAddsOnly(s, e, t, id, u);
      }
    }
  }

  lemma RecordAddsOnly(s: System, e: Event, t: System, id: nat, u: Update)
    requires Moved(s, e, t) && Records(e, id) && Kept(t, id, Whole(u)) && u != e.u
    ensures Kept(s, id, Whole(u))
  {
    assert t.table == s.table && forall i :: Batch(t, i) == Batch(s, i);
  }

  lemma {:induction false} RunBounded(s: System, es: seq<Event>)
    requires Start(s) && OrderlyRun(s, es)
    ensures NoReset(Run(s, es)) && Bounded(Run(s, es))
    decreases |es|
  {
    if es != [] {
      var shorter := es[..|es| - 1];
      forall k | 0 <= k < |shorter| ensures Orderly(Run(s, shorter[..k]), shorter[k]) {
        assert shorter[..k] == es[..k];
      }
      RunBounded(s, shorter);
      NoResetStep(Run(s, shorter), es[|es| - 1]);
      BoundedStep(Run(s, shorter), es[|es| - 1]);
    }
  }

  lemma BoundedAt(s: System, id: nat)
    requires Bounded(s) && id in s.newest
    ensures id in s.d.pending ==> s.d.pending[id].ts <= s.newest[id].ts
    ensures forall i :: id in Batch(s, i) ==> Batch(s, i)[id].ts <= s.newest[id].ts
  {
    assert id in s.d.pending ==> Kept(s, id, Whole(s.d.pending[id]));
    forall i | id in Batch(s, i) ensures Batch(s, i)[id].ts <= s.newest[id].ts {
      assert In(Batch(s, i), id, Whole(Batch(s, i)[id]));
      assert Kept(s, id, Whole(Batch(s, i)[id]));
    }
  }

  lemma StoredFromBatch(s: System, e: Event, id: nat)
    requires id in Stores(s, e)
    ensures (e.Succeed? || e.Fail?) && id in Batch(s, e.call) && Stores(s, e)[id] == Batch(s, e.call)[id]
  {
  }

  /** The time of the last use is lost exactly when an earlier use is stored
      over the only row that has it. */
  lemma TimeLostIff(s: System, e: Event, id: nat)
    requires Bounded(s) && id in s.newest
    ensures LosesLast(s, e, id, false) <==>
      && id in Stores(s, e) && id in s.table && Stores(s, e)[id].ts < s.table[id].ts == s.newest[id].ts
      && !In(s.d.pending, id, Time(s.newest[id].ts)) && !InFlight(s, id, Time(s.newest[id].ts))
  {
    BoundedAt(s, id);
    if id in Stores(s, e) {
      StoredFromBatch(s, e, id);
    }
  }

  /** With clocks that do not go back and no earlier use stored over a later
      one, the time of the last use is never lost. */
  lemma LatestUseConserved(s: System, es: seq<Event>, id: nat)
    requires Start(s) && OrderlyRun(s, es) && id in Run(s, es).newest
    requires forall k :: 0 <= k < |es| ==> Forward(Run(s, es[..k]), es[k])
    ensures Kept(Run(s, es), id, Wanted(Run(s, es), id, false))
  {
    forall k: nat ensures !LostAt(s, es, id, false, k) {
      if k < |es| && id in Run(s, es[..k]).newest {
        PrefixBounded(s, es, k);
        TimeLostIff(Run(s, es[..k]), es[k], id);
        assert Forward(Run(s, es[..k]), es[k]);
      }
    }
    LastUseKeptIff(s, es, id, false);
  }

  lemma PrefixBounded(s: System, es: seq<Event>, k: nat)
    requires Start(s) && OrderlyRun(s, es) && k <= |es|
    ensures NoReset(Run(s, es[..k])) && Bounded(Run(s, es[..k]))
  {
    forall j | 0 <= j < k ensures Orderly(Run(s, es[..k][..j]), es[..k][j]) {
      assert es[..k][..j] == es[..j];
    }
    RunBounded(s, es[..k]);
  }

  /** The last use itself is lost only to a tie or to an earlier use stored
      over it. */
  lemma LostToTieOrEarlier(s: System, e: Event, id: nat)
    requires Bounded(s) && LosesLast(s, e, id, true)
    ensures !NoTie(s, e) || !Forward(s, e)
  {
    BoundedAt(s, id);
    if id in Stores(s, e) {
      StoredFromBatch(s, e, id);
    }
  }

  lemma NewestConservedWithoutTies(s: System, es: seq<Event>, id: nat)
    requires Start(s) && OrderlyRun(s, es) && id in Run(s, es).newest
    requires forall k :: 0 <= k < |es| ==> Forward(Run(s, es[..k]), es[k]) && NoTie(Run(s, es[..k]), es[k])
    ensures Kept(Run(s, es), id, Wanted(Run(s, es), id, true))
  {
    forall k: nat ensures !LostAt(s, es, id, true, k) {
      if k < |es| && LosesLast(Run(s, es[..k]), es[k], id, true) {
        PrefixBounded(s, es, k);
        LostToTieOrEarlier(Run(s, es[..k]), es[k], id);
      }
    }
    LastUseKeptIff(s, es, id, true);
  }

  // ---- clocks that go forward ----

  /** Whatever is kept and has the time of the last use is the last use. */
  ghost predicate Exact(s: System) {
    forall id, u :: Kept(s, id, Whole(u)) && id in s.newest && u.ts == s.newest[id].ts ==> u == s.newest[id]
  }

  lemma ExactStep(s: System, e: Event)
    requires NoReset(s) && Bounded(s) && Exact(s) && Ticking(s, e)
    ensures Exact(Apply(s, e))
  {
    var t := Apply(s, e);
    StepMoves(s, e);
    forall id, u | Kept(t, id, Whole(u)) && id in t.newest && u.ts == t.newest[id].ts ensures u == t.newest[id] {
      NewestAfter(s, e, id);
      if !Records(e, id) {
        StepKeepsIff(s, e, t, id, Whole(u));
      } else if u != e.u {
        RecordAddsOnly(s, e, t, id, u);
      }
    }
  }

  lemma {:induction false} RunExact(s: System, es: seq<Event>)
    requires Start(s) && forall k :: 0 <= k < |es| ==> Ticking(Run(s, es[..k]), es[k])
    ensures OrderlyRun(s, es) && Exact(Run(s, es))
    decreases |es|
  {
    forall k | 0 <= k < |es| ensures Orderly(Run(s, es[..k]), es[k]) {
      assert Ticking(Run(s, es[..k]), es[k]);
    }
    if es != [] {
      var shorter := es[..|es| - 1];
      forall k | 0 <= k < |shorter| ensures Ticking(Run(s, shorter[..k]), shorter[k]) {
        assert shorter[..k] == es[..k];
      }
      RunExact(s, shorter);
      RunBounded(s, shorter);
      ExactStep(Run(s, shorter), es[|es| - 1]);
    }
  }

  /** When no two uses of a token share a time, whatever keeps the time of the
      last use keeps its address too. */
  lemma NewestUpdateConserved(s: System, es: seq<Event>, id: nat)
    requires Start(s) && forall k :: 0 <= k < |es| ==> Ticking(Run(s, es[..k]), es[k])
    requires id in Run(s, es).newest
    ensures Kept(Run(s, es), id, Wanted(Run(s, es), id, true)) <==> Kept(Run(s, es), id, Wanted(Run(s, es), id, false))
  {
    RunExact(s, es);
    ExactKeeps(Run(s, es), id);
  }

  lemma ExactKeeps(t: System, id: nat)
    requires Exact(t) && id in t.newest
    ensures Kept(t, id, Whole(t.newest[id])) <==> Kept(t, id, Time(t.newest[id].ts))
  {
    var aim := Time(t.newest[id].ts);
    if In(t.d.pending, id, aim) {
      assert Kept(t, id, Whole(t.d.pending[id]));
    } else if InFlight(t, id, aim) {
      var i :| In(Batch(t, i), id, aim);
      assert In(Batch(t, i), id, Whole(Batch(t, i)[id]));
      assert Kept(t, id, Whole(Batch(t, i)[id]));
    } else if In(t.table, id, aim) {
      assert Kept(t, id, Whole(t.table[id]));
    }
    if InFlight(t, id, Whole(t.newest[id])) {
      var i :| In(Batch(t, i), id, Whole(t.newest[id]));
      assert In(Batch(t, i), id, aim);
    }
  }

  // ---- one batch at a time ----

  ghost predicate OneBatch(s: System) {
    forall i, j :: Batch(s, i) != map[] && Batch(s, j) != map[] ==> i == j
  }

  /** The first of pending, batch and table that knows the token knows its last
      use. */
  ghost predicate FoundFirst(s: System, id: nat)
    requires id in s.newest
  {
    && (id in s.d.pending ==> s.d.pending[id] == s.newest[id])
    && (id !in s.d.pending ==> forall i :: id in Batch(s, i) ==> Batch(s, i)[id] == s.newest[id])
    && (id !in s.d.pending && (forall i :: id !in Batch(s, i)) ==> id in s.table && s.table[id] == s.newest[id])
  }

  /** The step is not a use of the token, which stays in order. */
  ghost predicate Ordered(s: System, e: Event, t: System, id: nat) {
    && Moved(s, e, t) && Bounded(s) && OneBatch(s) && OneBatch(t) && !Records(e, id)
    && id in s.newest && id in t.newest && t.newest[id] == s.newest[id] && FoundFirst(s, id)
  }

  lemma FoundAfterRequeue(s: System, e: Event, t: System, id: nat)
    requires Ordered(s, e, t, id) && e.Requeue? && Possible(s, e)
    ensures FoundFirst(t, id)
  {
    BoundedAt(s, id);
    assert t.table == s.table && t.d.pending == Merged(s.d.pending, Batch(s, e.call));
    assert Batch(t, e.call) == map[] && forall i :: i != e.call ==> Batch(t, i) == Batch(s, i);
  }

  lemma FoundAfterWrite(s: System, e: Event, t: System, id: nat)
    requires Ordered(s, e, t, id) && (e.Succeed? || e.Fail?) && Possible(s, e)
    ensures FoundFirst(t, id)
  {
    assert t.d.pending == s.d.pending && forall i :: i != e.call ==> Batch(t, i) == Batch(s, i);
    if e.Succeed? {
      assert Batch(t, e.call) == map[] && Stores(s, e) == Batch(s, e.call);
    } else {
      assert Batch(t, e.call) == Batch(s, e.call);
      if id in Stores(s, e) {
        StoredFromBatch(s, e, id);
      }
    }
  }

  lemma FoundAfterTake(s: System, e: Event, t: System, id: nat)
    requires Ordered(s, e, t, id) && Grabs(s, e) && Batch(s, e.call) == map[]
    ensures FoundFirst(t, id)
  {
    assert t.table == s.table && t.d.pending == map[];
    assert Batch(t, e.call) == s.d.pending && forall i :: i != e.call ==> Batch(t, i) == Batch(s, i);
  }

  lemma FoundFirstStep(s: System, e: Event, t: System, id: nat)
    requires Ordered(s, e, t, id)
    ensures FoundFirst(t, id)
  {
    if e.Requeue? && Possible(s, e) {
      FoundAfterRequeue(s, e, t, id);
    } else if (e.Succeed? || e.Fail?) && Possible(s, e) {
      FoundAfterWrite(s, e, t, id);
    } else if Grabs(s, e) {
      FoundAfterTake(s, e, t, id);
    } else {
      assert t.table == s.table && forall i :: Batch(t, i) == Batch(s, i);
    }
  }

  /** With clocks that do not go back, as long as no two batches are on their
      way at once the last use itself is never lost: ties and failed writes do
      no harm. */
  lemma {:induction false} OneBatchKeepsNewest(s: System, es: seq<Event>, id: nat)
    requires Start(s) && OrderlyRun(s, es) && id in Run(s, es).newest
    requires forall k :: 0 <= k <= |es| ==> OneBatch(Run(s, es[..k]))
    ensures FoundFirst(Run(s, es), id) && Kept(Run(s, es), id, Wanted(Run(s, es), id, true))
    decreases |es|
  {
    if es == [] {
      FoundIsKept(s, id);
      return;
    }
    var shorter, e := es[..|es| - 1], es[|es| - 1];
    var u, t := Run(s, shorter), Run(s, es);
    PrefixBounded(s, es, |es| - 1);
    NewestAfter(u, e, id);
    if !Records(e, id) {
      forall k | 0 <= k < |shorter| ensures Orderly(Run(s, shorter[..k]), shorter[k]) {
        assert shorter[..k] == es[..k];
      }
      forall k | 0 <= k <= |shorter| ensures OneBatch(Run(s, shorter[..k])) {
        assert shorter[..k] == es[..k];
      }
      OneBatchKeepsNewest(s, shorter, id);
      StepMoves(u, e);
      assert es[..|es|] == es;
      FoundFirstStep(u, e, t, id);
    }
    FoundIsKept(t, id);
  }

  lemma FoundIsKept(t: System, id: nat)
    requires id in t.newest && FoundFirst(t, id)
    ensures Kept(t, id, Whole(t.newest[id]))
  {
    if id !in t.d.pending && exists i :: id in Batch(t, i) {
      var i :| id in Batch(t, i);
      assert In(Batch(t, i), id, Whole(t.newest[id]));
    }
  }

  // ---- two timers that overlap ----

  lemma {:induction false} RunConcat(s: System, a: seq<Event>, b: seq<Event>)
    ensures Run(s, a + b) == Run(Run(s, a), b)
    decreases |b|
  {
    if b == [] {
      assert a + b == a;
    } else {
      RunConcat(s, a, b[..|b| - 1]);
      assert (a + b)[..|a + b| - 1] == a + b[..|b| - 1];
    }
  }

  lemma RunBoth(s: System, a: seq<Event>, b: seq<Event>)
    requires NoResets(a) && NoResets(b)
    ensures Run(s, a + b) == Run(Run(s, a), b) && NoResets(a + b)
  {
    RunConcat(s, a, b);
  }

  lemma RunTwo(s: System, e: Event, f: Event)
    ensures Run(s, [e, f]) == Apply(Apply(s, e), f)
  {
    assert [e, f][..1] == [e] && [e][..0] == [];
    assert Run(s, [e]) == Apply(Run(s, []), e);
  }

  /** Nobody is in the way: no timer, no callback, nothing pending. */
  ghost predicate Quiet(s: System) {
    && s.d.pending == map[] && s.d.timer.None? && !s.d.retired && s.d.armed == map[] && s.callbacks == map[]
    && !s.suspended && forall i :: i in s.calls ==> !s.calls[i].Exclusive()
  }

  /** A time at which the circuit is closed. */
  function Later(d: Debouncer): int { if d.circuitUntil.Some? then d.circuitUntil.value else 0 }

  /** A use is recorded, its timer fires and the callback takes it. */
  function Taking(s: System, u: Update, i: nat): seq<Event> {
    var n := s.d.nextTimer;
    [Record(1, u, 0), Fire(n)] + [EnterGate(n), CheckCircuit(n, Later(s.d))] + [Take(n, i)]
  }

  /** Taking a use changes nothing but this. */
  ghost function Took(s: System, u: Update, i: nat): System {
    s.(d := s.d.(nextTimer := s.d.nextTimer + 1), calls := s.calls[i := Writing(ByTimer, map[1 := u])],
       newest := s.newest[1 := u], handed := s.handed + 1)
  }

  ghost function Fired(s: System, u: Update, stage: Stage): System {
    var n := s.d.nextTimer;
    s.(d := s.d.(pending := map[1 := u], timer := Some(n), nextTimer := n + 1),
       callbacks := map[n := Callback(stage, s.d.epoch)], newest := s.newest[1 := u])
  }

  lemma RecordAndFire(s: System, u: Update)
    requires Quiet(s)
    ensures Run(s, [Record(1, u, 0), Fire(s.d.nextTimer)]) == Fired(s, u, Started)
  {
    RunTwo(s, Record(1, u, 0), Fire(s.d.nextTimer));
    RecordArms(s, u);
    FireArmed(s, u);
  }

  /** The state between the two. */
  ghost function Armed(s: System, u: Update): System {
    var n := s.d.nextTimer;
    s.(d := s.d.(pending := map[1 := u], timer := Some(n), nextTimer := n + 1, armed := map[n := Alarm(s.d.epoch, Delay(s.d, 0))]),
       newest := s.newest[1 := u])
  }

  lemma RecordArms(s: System, u: Update)
    requires Quiet(s)
    ensures Apply(s, Record(1, u, 0)) == Armed(s, u)
  {
    assert s.table + map[] == s.table;
  }

  lemma FireArmed(s: System, u: Update)
    requires Quiet(s)
    ensures Apply(Armed(s, u), Fire(s.d.nextTimer)) == Fired(s, u, Started)
  {
    assert Armed(s, u).d.armed - {s.d.nextTimer} == map[];
    assert s.table + map[] == s.table;
  }

  lemma EnterAndCheck(s: System, u: Update)
    requires Quiet(s)
    ensures Run(Fired(s, u, Started), [EnterGate(s.d.nextTimer), CheckCircuit(s.d.nextTimer, Later(s.d))]) == Fired(s, u, Checked)
  {
    var n := s.d.nextTimer;
    RunTwo(Fired(s, u, Started), EnterGate(n), CheckCircuit(n, Later(s.d)));
    assert s.table + map[] == s.table;
    assert Apply(Fired(s, u, Started), EnterGate(n)) == Fired(s, u, Gated);
  }

  lemma TakeFired(s: System, u: Update, i: nat)
    requires Quiet(s) && i !in s.calls
    ensures Run(Fired(s, u, Checked), [Take(s.d.nextTimer, i)]) == Took(s, u, i)
  {
    var n := s.d.nextTimer;
    assert [Take(n, i)][..0] == [];
    assert s.table + map[] == s.table && map[n := Callback(Checked, s.d.epoch)] - {n} == map[];
    assert 1 in Fired(s, u, Checked).d.pending;
  }

  lemma TimerTakes(s: System, u: Update, i: nat)
    requires Quiet(s) && i !in s.calls
    ensures Run(s, Taking(s, u, i)) == Took(s, u, i) && Quiet(Took(s, u, i))
  {
    var n := s.d.nextTimer;
    RecordAndFire(s, u);
    EnterAndCheck(s, u);
    TakeFired(s, u, i);
    RunConcat(s, [Record(1, u, 0), Fire(n)], [EnterGate(n), CheckCircuit(n, Later(s.d))]);
    RunConcat(s, [Record(1, u, 0), Fire(n)] + [EnterGate(n), CheckCircuit(n, Later(s.d))], [Take(n, i)]);
  }

  lemma TakingNoReset(s: System, u: Update, i: nat)
    ensures NoResets(Taking(s, u, i))
  {
  }

  /** Two uses in two batches at once, from any start. */
  ghost function BothTaken(s: System, u: Update, w: Update): System { Took(Took(s, u, 0), w, 1) }

  function TakingBoth(s: System, u: Update, w: Update): seq<Event> {
    Taking(s, u, 0) + Taking(s.(d := s.d.(nextTimer := s.d.nextTimer + 1)), w, 1)
  }

  lemma BothTimersTake(s: System, u: Update, w: Update)
    requires Start(s) && !s.suspended
    ensures Run(s, TakingBoth(s, u, w)) == BothTaken(s, u, w) && NoResets(TakingBoth(s, u, w))
    ensures BothTaken(s, u, w).newest == s.newest[1 := w]
    ensures BothTaken(s, u, w).calls == map[0 := Writing(ByTimer, map[1 := u]), 1 := Writing(ByTimer, map[1 := w])]
  {
    TimerTakes(s, u, 0);
    TimerTakes(Took(s, u, 0), w, 1);
    TakingNoReset(s, u, 0);
    TakingNoReset(Took(s, u, 0), w, 1);
    RunBoth(s, Taking(s, u, 0), Taking(Took(s, u, 0), w, 1));
  }

  lemma FailOnly(s: System, i: nat, batch: Updates)
    requires i in s.calls && s.calls[i] == Writing(ByTimer, batch)
    ensures Apply(s, Fail(i, {})) == s.(calls := s.calls[i := Failed(ByTimer, batch)])
  {
    assert Wrote(s, Fail(i, {})) == map[];
    assert s.table + map[] == s.table;
  }

  lemma FailAndRequeue(s: System, i: nat, batch: Updates)
    requires i in s.calls && s.calls[i] == Writing(ByTimer, batch) && !s.d.retired
    ensures var t := Run(s, [Fail(i, {}), Requeue(i, 0)]);
      && t.d.pending == Merged(s.d.pending, batch) && t.calls == s.calls - {i} && t.newest == s.newest && t.table == s.table
      && !t.d.retired
  {
    RunTwo(s, Fail(i, {}), Requeue(i, 0));
    FailOnly(s, i, batch);
    var failed := s.(calls := s.calls[i := Failed(ByTimer, batch)]);
    assert failed.calls - {i} == s.calls - {i};
    RequeueOnly(failed, i, batch);
  }

  lemma RequeueOnly(s: System, i: nat, batch: Updates)
    requires i in s.calls && s.calls[i] == Failed(ByTimer, batch) && !s.d.retired
    ensures var t := Apply(s, Requeue(i, 0));
      && t.d.pending == Merged(s.d.pending, batch) && t.calls == s.calls - {i} && t.newest == s.newest && t.table == s.table
      && !t.d.retired
  {
    assert s.table + map[] == s.table;
  }

  lemma MergedTie(u: Update, w: Update)
    requires u.ts == w.ts
    ensures Merged(map[], map[1 := u]) == map[1 := u] && Merged(map[1 := u], map[1 := w]) == map[1 := u]
  {
  }

  lemma BothFail(s: System, u: Update, w: Update)
    requires s.calls == map[0 := Writing(ByTimer, map[1 := u]), 1 := Writing(ByTimer, map[1 := w])]
    requires s.d.pending == map[] && !s.d.retired && u.ts == w.ts
    ensures var t := Run(Run(s, [Fail(0, {}), Requeue(0, 0)]), [Fail(1, {}), Requeue(1, 0)]);
      t.d.pending == map[1 := u] && t.calls == map[] && t.newest == s.newest && t.table == s.table
  {
    MergedTie(u, w);
    FailAndRequeue(s, 0, map[1 := u]);
    FailAndRequeue(Run(s, [Fail(0, {}), Requeue(0, 0)]), 1, map[1 := w]);
  }

  lemma NotKept(t: System, u: Update, w: Update)
    requires t.d.pending == map[1 := u] && t.calls == map[] && !In(t.table, 1, Whole(w)) && u != w
    ensures !Kept(t, 1, Whole(w))
  {
  }

  /** A tie loses the last use. Two uses in one second are taken by two timers
      and both writes fail: only the first address is left. */
  lemma TieLosesNewest(s: System, u: Update, w: Update) returns (es: seq<Event>)
    requires Start(s) && !s.suspended && u.ts == w.ts && u != w && !In(s.table, 1, Whole(w))
    ensures NoResets(es) && Run(s, es).newest == s.newest[1 := w] && !Kept(Run(s, es), 1, Whole(w))
  {
    es := TakingBoth(s, u, w) + [Fail(0, {}), Requeue(0, 0)] + [Fail(1, {}), Requeue(1, 0)];
    BothTimersTake(s, u, w);
    RunBoth(s, TakingBoth(s, u, w), [Fail(0, {}), Requeue(0, 0)]);
    RunBoth(s, TakingBoth(s, u, w) + [Fail(0, {}), Requeue(0, 0)], [Fail(1, {}), Requeue(1, 0)]);
    TieFrom(BothTaken(s, u, w), u, w, Run(s, es));
  }

  lemma TieFrom(both: System, u: Update, w: Update, t: System)
    requires both.calls == map[0 := Writing(ByTimer, map[1 := u]), 1 := Writing(ByTimer, map[1 := w])]
    requires both.d.pending == map[] && !both.d.retired && !In(both.table, 1, Whole(w))
    requires u.ts == w.ts && u != w && t == Run(Run(both, [Fail(0, {}), Requeue(0, 0)]), [Fail(1, {}), Requeue(1, 0)])
    ensures t.newest == both.newest && !Kept(t, 1, Whole(w))
  {
    BothFail(both, u, w);
    NotKept(t, u, w);
  }

  lemma SucceedStores(s: System, i: nat, batch: Updates)
    requires i in s.calls && s.calls[i] == Writing(ByTimer, batch)
    ensures Run(s, [Succeed(i)]) == s.(calls := s.calls[i := Closing(ByTimer)], table := s.table + batch)
  {
    assert [Succeed(i)][..0] == [];
  }

  /** An earlier use stored late loses the time of the last one. Two timers take
      two uses and their writes get through in the other order. */
  lemma LateWriteLosesLatest(s: System, u: Update, w: Update) returns (es: seq<Event>)
    requires Start(s) && !s.suspended && u.ts < w.ts
    ensures NoResets(es) && Run(s, es).newest == s.newest[1 := w] && Run(s, es).table == s.table[1 := u]
    ensures !Kept(Run(s, es), 1, Time(w.ts))
  {
    es := TakingBoth(s, u, w) + [Succeed(1)] + [Succeed(0)];
    BothTimersTake(s, u, w);
    RunBoth(s, TakingBoth(s, u, w), [Succeed(1)]);
    RunBoth(s, TakingBoth(s, u, w) + [Succeed(1)], [Succeed(0)]);
    LateFrom(BothTaken(s, u, w), u, w, Run(s, es));
  }

  lemma LateFrom(both: System, u: Update, w: Update, t: System)
    requires both.calls == map[0 := Writing(ByTimer, map[1 := u]), 1 := Writing(ByTimer, map[1 := w])]
    requires both.d.pending == map[] && u.ts < w.ts && t == Run(Run(both, [Succeed(1)]), [Succeed(0)])
    ensures t.newest == both.newest && t.table == both.table[1 := u] && !Kept(t, 1, Time(w.ts))
  {
    SucceedStores(both, 1, map[1 := w]);
    SucceedStores(Run(both, [Succeed(1)]), 0, map[1 := u]);
  }
}
