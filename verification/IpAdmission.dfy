/**
 The IP monitor together with its database as one state machine. Every event is
 one region under the state locks, or one database statement or transaction;
 a run is any sequence of events, so it covers every interleaving of
 admissions, policy loads, flushes, clears, prunes and resets. An event that is
 not possible in a state leaves it unchanged.
 */
module IpAdmission {
  import opened Basics
  import opened IpMonitorState
  import opened IpMonitor
  import opened IpHistory

  datatype Policy = Policy(enable: bool, limit: int, mode: Mode)

  /** Overlapping loads for one client under one revision are collapsed into a
      single flight, so this key identifies the load. */
  datatype FlightKey = FlightKey(revision: nat, client: Client)

  datatype Flight = Evicted | PolicyRead(limit: int, mode: Mode) | Loaded(entry: Entry)

  datatype System = System(
    mem: Mem,
    rows: Rows,
    policies: map<Client, Policy>,
    flights: map<FlightKey, Flight>,
    written: set<nat>)

  datatype Event =
    | Decide(c: Client, h: Hash, o: Observation, observe: bool, revision: nat, now: int)
    | Record(c: Client, h: Hash, o: Observation, revision: nat)
    | StartLoad(key: FlightKey, now: int)
    | ReadPolicy(key: FlightKey)
    | ReadRows(key: FlightKey)
    | FailLoad(key: FlightKey)
    | FinishLoad(key: FlightKey, expiresAt: int)
    | BeginFlush
    | CommitTransaction(b: nat)
    | Requeue(b: nat)
    | CommitBatch(b: nat)
    | ClearRows(c: Client)
    | Invalidate(c: Client)
    | PruneRows(before: int)
    | InvalidateAll
    | ResetTo(rows: Rows, policies: map<Client, Policy>)
    | EditPolicy(c: Client, p: Policy)
    | WarmUp(entries: Cache, revision: nat)

  function PolicyFlight(p: Policy): Flight {
    if !p.enable then Loaded(Entry(0, Unset, {}, 0))
    else if p.mode != Enforce || p.limit <= 0 then Loaded(Entry(p.limit, p.mode, {}, 0))
    else PolicyRead(p.limit, p.mode)
  }

  ghost function Apply(s: System, e: Event): System {
    match e
    case Decide(c, h, o, observe, revision, now) => s.(mem := Decided(s.mem, c, h, o, observe, revision, now))
    case Record(c, h, o, revision) =>
      if revision == s.mem.revision then s.(mem := Recorded(s.mem, c, h, o)) else s
    case StartLoad(key, now) =>
      if key !in s.flights && LoadStarts(s.mem, key.client, key.revision, now)
      then s.(mem := LoadStarted(s.mem, key.client, key.revision, now), flights := s.flights[key := Evicted])
      else s
    case ReadPolicy(key) =>
      if key in s.flights && s.flights[key].Evicted? then
        if key.client in s.policies then s.(flights := s.flights[key := PolicyFlight(s.policies[key.client])])
        else s.(flights := s.flights - {key})
      else s
    case ReadRows(key) =>
      if key in s.flights && s.flights[key].PolicyRead? then
        var f := s.flights[key];
        s.(flights := s.flights[key := Loaded(Entry(f.limit, f.mode, Stored(s.rows, key.client), 0))])
      else s
    case FailLoad(key) => s.(flights := s.flights - {key})
    case FinishLoad(key, expiresAt) =>
      if key in s.flights && s.flights[key].Loaded? then
        s.(mem := Installed(s.mem, key.client, s.flights[key].entry, key.revision, expiresAt), flights := s.flights - {key})
      else s
    case BeginFlush => s.(mem := FlushBegun(s.mem))
    case CommitTransaction(b) =>
      if b in s.mem.flushing && b !in s.written
      then s.(rows := Written(s.rows, s.mem.flushing[b]), written := s.written + {b})
      else s
    case Requeue(b) => s.(mem := Requeued(s.mem, b), written := s.written - {b})
    case CommitBatch(b) =>
      if b in s.written then s.(mem := Committed(s.mem, b), written := s.written - {b}) else s
    case ClearRows(c) => s.(rows := Cleared(s.rows, c))
    case Invalidate(c) => s.(mem := Invalidated(s.mem, c))
    case PruneRows(before) => s.(rows := Pruned(s.rows, before))
    case InvalidateAll => s.(mem := AllInvalidated(s.mem))
    case ResetTo(rows, policies) => s.(mem := Reset(s.mem), rows := rows, policies := policies, written := {})
    case EditPolicy(c, p) => s.(policies := s.policies[c := p])
    case WarmUp(entries, revision) => s.(mem := Warmed(s.mem, entries, revision))
  }

  ghost function Run(s: System, es: seq<Event>): System
    decreases |es|
  {
    if es == [] then s else Apply(Run(s, es[..|es| - 1]), es[|es| - 1])
  }

  // ---- how each operation moves the held hashes ----

  lemma HeldRecorded(m: Mem, c: Client, h: Hash, o: Observation, x: Client)
    ensures Held(Recorded(m, c, h, o), x) == Held(m, x) + if x == c then {h} else {}
  {
  }

  lemma HeldFlushBegun(m: Mem, x: Client)
    requires m.nextBatch !in m.flushing
    ensures Held(FlushBegun(m), x) == Held(m, x)
  {
    var after := FlushBegun(m);
    if m.pending != map[] {
      assert m.flushing == after.flushing - {m.nextBatch};
      FlushingHashesAdd(m.flushing, after.flushing, m.nextBatch, x);
    }
  }

  lemma HeldRequeued(m: Mem, b: nat, x: Client)
    ensures Held(Requeued(m, b), x) == Held(m, x)
  {
    if b in m.flushing {
      FlushingHashesAdd(m.flushing - {b}, m.flushing, b, x);
    }
  }

  lemma HeldCommitted(m: Mem, b: nat, x: Client)
    requires b in m.flushing
    ensures Held(m, x) == Held(Committed(m, b), x) + Of(m.flushing[b], x).Keys
  {
    FlushingHashesAdd(m.flushing - {b}, m.flushing, b, x);
  }

  lemma BatchIsHeld(m: Mem, b: nat, x: Client)
    requires b in m.flushing
    ensures Of(m.flushing[b], x).Keys <= Held(m, x)
  {
  }

  // ---- bookkeeping that every event keeps ----

  ghost predicate WellFormed(s: System) {
    && (forall b :: b in s.mem.flushing ==> b < s.mem.nextBatch)
    && s.written <= s.mem.flushing.Keys
    && (forall k :: k in s.flights ==> k.revision <= s.mem.revision)
  }

  lemma StepWellFormed(s: System, e: Event)
    requires WellFormed(s)
    ensures WellFormed(Apply(s, e))
    ensures s.mem.revision <= Apply(s, e).mem.revision
    ensures s.mem.nextBatch <= Apply(s, e).mem.nextBatch
  {
  }

  lemma {:induction false} RunWellFormed(s: System, es: seq<Event>)
    requires WellFormed(s)
    ensures WellFormed(Run(s, es))
    ensures s.mem.revision <= Run(s, es).mem.revision
    ensures s.mem.nextBatch <= Run(s, es).mem.nextBatch
    decreases |es|
  {
    if es != [] {
      RunWellFormed(s, es[..|es| - 1]);
      StepWellFormed(Run(s, es[..|es| - 1]), es[|es| - 1]);
    }
  }

  // ---- the limit ----

  /** Every source that counts against a client's limit. */
  ghost function Known(s: System, c: Client): set<Hash> {
    Stored(s.rows, c) + Held(s.mem, c)
  }

  /** What the state says about one client. */
  datatype View = View(stored: set<Hash>, held: set<Hash>, cached: Option<Entry>, flight: Option<Flight>)

  function Lookup<K, V>(m: map<K, V>, k: K): Option<V> {
    if k in m then Some(m[k]) else None
  }

  ghost function ViewOf(s: System, c: Client): View {
    View(Stored(s.rows, c), Held(s.mem, c), Lookup(s.mem.cache, c), Lookup(s.flights, FlightKey(s.mem.revision, c)))
  }

  /** Cached or loaded history agrees with the database: together with what is
      held it covers every stored row, and it is within the bound. */
  ghost predicate Agrees(v: View, e: Entry, limit: int, bound: nat) {
    && e.mode == Enforce && e.limit == limit
    && v.stored <= e.ips + v.held
    && |e.ips + v.held| <= bound
  }

  ghost predicate FlightAgrees(v: View, f: Flight, limit: int, bound: nat) {
    match f
    case Evicted => true
    case PolicyRead(l, mode) => l == limit && mode == Enforce
    case Loaded(e) => Agrees(v, e, limit, bound)
  }

  /** The client is within the bound, its cache entry agrees with the database,
      and so does the load of the current revision, which excludes an entry. */
  ghost predicate Fits(v: View, limit: int, bound: nat) {
    && 0 < limit <= bound
    && |v.stored + v.held| <= bound
    && (v.cached.Some? ==> Agrees(v, v.cached.value, limit, bound))
    && (v.flight.Some? ==> v.cached.None? && FlightAgrees(v, v.flight.value, limit, bound))
  }

  ghost predicate Guarded(s: System, c: Client, limit: int, bound: nat) {
    && WellFormed(s)
    && Lookup(s.policies, c) == Some(Policy(true, limit, Enforce))
    && Fits(ViewOf(s, c), limit, bound)
  }

  /** The events the limit theorem is about: the stored policy of `c` stays, `c`
      is not recorded past the limit check, a replacement database starts
      within the bound, and warm-up is over. */
  ghost predicate Respects(e: Event, c: Client, limit: int, bound: nat) {
    && !e.WarmUp?
    && (e.EditPolicy? && e.c == c ==> e.p == Policy(true, limit, Enforce))
    && (e.Record? ==> e.c != c)
    && (e.ResetTo? ==> Lookup(e.policies, c) == Some(Policy(true, limit, Enforce)) && |Stored(e.rows, c)| <= bound)
  }

  /** An admission adds one source to what is held and to the cached entry, and
      only within the limit of that entry. */
  lemma ViewDecide(s: System, e: Event, c: Client)
    requires e.Decide? || (e.Record? && e.c != c)
    ensures var v, w := ViewOf(s, c), ViewOf(Apply(s, e), c);
      w == v || (e.Decide? && v.cached.Some? && AdmittedView(v, w, e.h))
  {
    if Apply(s, e) != s {
      HeldRecorded(s.mem, e.c, e.h, e.o, c);
    }
  }

  ghost predicate AdmittedView(v: View, w: View, h: Hash)
    requires v.cached.Some?
  {
    var entry := v.cached.value;
    var seen := entry.ips + v.held;
    && w == v.(held := v.held + {h}, cached := Some(entry.(ips := entry.ips + {h})))
    && (entry.Limits() ==> h in seen || |seen + {h}| <= entry.limit)
  }

  lemma FitsDecide(v: View, w: View, h: Hash, limit: int, bound: nat)
    requires Fits(v, limit, bound) && v.cached.Some? && AdmittedView(v, w, h)
    ensures Fits(w, limit, bound)
  {
    var seen := v.cached.value.ips + v.held;
    assert w.cached.value.ips + w.held == seen + {h};
    if h in seen {
      assert seen + {h} == seen;
    }
    SubsetSize(w.stored + w.held, seen + {h});
  }

  /** A load either moves its own flight on, or installs what it carries. */
  lemma ViewLoad(s: System, e: Event, c: Client)
    requires WellFormed(s)
    requires e.StartLoad? || e.ReadPolicy? || e.ReadRows? || e.FailLoad? || e.FinishLoad?
    ensures LoadView(ViewOf(s, c), ViewOf(Apply(s, e), c), Lookup(s.policies, c))
  {
    assert Held(Apply(s, e).mem, c) == Held(s.mem, c);
    if e.FinishLoad? && e.key == FlightKey(s.mem.revision, c) && Apply(s, e) != s {
      var v, w := ViewOf(s, c), ViewOf(Apply(s, e), c);
      assert w == v.(flight := None, cached := Some(v.flight.value.entry.(expiresAt := e.expiresAt)));
    }
  }

  ghost predicate LoadView(v: View, w: View, policy: Option<Policy>) {
    || w == v
    || w == v.(cached := None, flight := Some(Evicted))
    || (v.flight == Some(Evicted) && policy.Some? && w == v.(flight := Some(PolicyFlight(policy.value))))
    || (v.flight.Some? && v.flight.value.PolicyRead? &&
        w == v.(flight := Some(Loaded(Entry(v.flight.value.limit, v.flight.value.mode, v.stored, 0)))))
    || w == v.(flight := None)
    || (v.flight.Some? && v.flight.value.Loaded? && w.cached.Some? &&
        w == v.(flight := None, cached := Some(v.flight.value.entry.(expiresAt := w.cached.value.expiresAt))))
  }

  lemma FitsLoad(v: View, w: View, limit: int, bound: nat)
    requires Fits(v, limit, bound) && LoadView(v, w, Some(Policy(true, limit, Enforce)))
    ensures Fits(w, limit, bound)
  {
  }

  /** Moving observations between pending, batches and the database changes
      nothing about the union that counts. */
  lemma ViewFlush(s: System, e: Event, c: Client)
    requires WellFormed(s) && (e.BeginFlush? || e.CommitTransaction? || e.Requeue?)
    ensures var v, w := ViewOf(s, c), ViewOf(Apply(s, e), c);
      w == v.(stored := w.stored) && v.stored <= w.stored <= v.stored + v.held
  {
    if e.BeginFlush? {
      HeldFlushBegun(s.mem, c);
    } else if e.Requeue? {
      HeldRequeued(s.mem, e.b, c);
    } else if Apply(s, e) != s {
      StoredWritten(s.rows, s.mem.flushing[e.b], c);
      BatchIsHeld(s.mem, e.b, c);
    }
  }

  lemma FitsFlush(v: View, w: View, limit: int, bound: nat)
    requires Fits(v, limit, bound) && w == v.(stored := w.stored) && v.stored <= w.stored <= v.stored + v.held
    ensures Fits(w, limit, bound)
  {
    assert w.stored + w.held == v.stored + v.held;
  }

  /** A batch leaves the held set only as it enters the cached entry; loads in
      flight are fenced off by the new revision. */
  lemma ViewCommit(s: System, e: Event, c: Client)
    requires WellFormed(s) && e.CommitBatch?
    ensures var v, w := ViewOf(s, c), ViewOf(Apply(s, e), c);
      w == v || exists batch: set<Hash> :: CommittedView(v, w, batch)
  {
    if Apply(s, e) != s {
      HeldCommitted(s.mem, e.b, c);
      assert CommittedView(ViewOf(s, c), ViewOf(Apply(s, e), c), Of(s.mem.flushing[e.b], c).Keys);
    }
  }

  ghost predicate CommittedView(v: View, w: View, batch: set<Hash>) {
    && v.held == w.held + batch && w.stored == v.stored && w.flight.None?
    && (v.cached.None? ==> w.cached.None?)
    && (v.cached.Some? ==> w.cached == Some(v.cached.value.(ips := v.cached.value.ips + batch)))
  }

  lemma FitsCommit(v: View, w: View, batch: set<Hash>, limit: int, bound: nat)
    requires Fits(v, limit, bound) && CommittedView(v, w, batch)
    ensures Fits(w, limit, bound)
  {
    SubsetSize(w.stored + w.held, v.stored + v.held);
    if v.cached.Some? {
      assert w.cached.value.ips + w.held == v.cached.value.ips + v.held;
    }
  }

  /** Removing rows, dropping policy knowledge or starting over only shrinks. */
  lemma ViewRemoval(s: System, e: Event, c: Client)
    requires WellFormed(s)
    requires e.ClearRows? || e.PruneRows? || e.Invalidate? || e.InvalidateAll? || e.ResetTo? || e.EditPolicy?
    ensures var v, w := ViewOf(s, c), ViewOf(Apply(s, e), c);
      if e.ResetTo? then w == View(Stored(e.rows, c), {}, None, None)
      else w.stored <= v.stored && w.held == v.held && (w.cached == v.cached || w.cached.None?) &&
           (w.flight == v.flight || w.flight.None?)
  {
    var t := Apply(s, e);
    if e.ClearRows? || e.PruneRows? {
      StoredShrinks(t.rows, s.rows, c);
    } else if e.ResetTo? {
      assert Held(t.mem, c) == {};
    } else {
      assert Held(t.mem, c) == Held(s.mem, c);
    }
  }

  lemma FitsRemoval(v: View, w: View, limit: int, bound: nat)
    requires Fits(v, limit, bound)
    requires w.stored <= v.stored && w.held == v.held && (w.cached == v.cached || w.cached.None?)
    requires w.flight == v.flight || w.flight.None?
    ensures Fits(w, limit, bound)
  {
    SubsetSize(w.stored + w.held, v.stored + v.held);
  }

  lemma FitsDecideStep(s: System, e: Event, c: Client, limit: int, bound: nat)
    requires Fits(ViewOf(s, c), limit, bound) && (e.Decide? || (e.Record? && e.c != c))
    ensures Fits(ViewOf(Apply(s, e), c), limit, bound)
  {
    ViewDecide(s, e, c);
    if ViewOf(Apply(s, e), c) != ViewOf(s, c) {
      FitsDecide(ViewOf(s, c), ViewOf(Apply(s, e), c), e.h, limit, bound);
    }
  }

  lemma FitsFlushStep(s: System, e: Event, c: Client, limit: int, bound: nat)
    requires WellFormed(s) && Fits(ViewOf(s, c), limit, bound)
    requires e.BeginFlush? || e.CommitTransaction? || e.Requeue? || e.CommitBatch?
    ensures Fits(ViewOf(Apply(s, e), c), limit, bound)
  {
    var v, w := ViewOf(s, c), ViewOf(Apply(s, e), c);
    if e.CommitBatch? {
      ViewCommit(s, e, c);
      if w != v {
        var batch :| CommittedView(v, w, batch);
        FitsCommit(v, w, batch, limit, bound);
      }
    } else {
      ViewFlush(s, e, c);
      FitsFlush(v, w, limit, bound);
    }
  }

  lemma FitsRemovalStep(s: System, e: Event, c: Client, limit: int, bound: nat)
    requires WellFormed(s) && Fits(ViewOf(s, c), limit, bound) && Respects(e, c, limit, bound)
    requires e.ClearRows? || e.PruneRows? || e.Invalidate? || e.InvalidateAll? || e.ResetTo? || e.EditPolicy?
    ensures Fits(ViewOf(Apply(s, e), c), limit, bound)
  {
    var v, w := ViewOf(s, c), ViewOf(Apply(s, e), c);
    ViewRemoval(s, e, c);
    if e.ResetTo? {
      assert w.stored + w.held == w.stored;
    } else {
      FitsRemoval(v, w, limit, bound);
    }
  }

  lemma PolicyStays(s: System, e: Event, c: Client, limit: int, bound: nat)
    requires Lookup(s.policies, c) == Some(Policy(true, limit, Enforce)) && Respects(e, c, limit, bound)
    ensures Lookup(Apply(s, e).policies, c) == Some(Policy(true, limit, Enforce))
  {
  }

  lemma FitsLoadStep(s: System, e: Event, c: Client, limit: int, bound: nat)
    requires WellFormed(s) && Fits(ViewOf(s, c), limit, bound)
    requires Lookup(s.policies, c) == Some(Policy(true, limit, Enforce))
    requires e.StartLoad? || e.ReadPolicy? || e.ReadRows? || e.FailLoad? || e.FinishLoad?
    ensures Fits(ViewOf(Apply(s, e), c), limit, bound)
  {
    ViewLoad(s, e, c);
    FitsLoad(ViewOf(s, c), ViewOf(Apply(s, e), c), limit, bound);
  }

  lemma FitsStep(s: System, e: Event, t: System, c: Client, limit: int, bound: nat)
    requires Guarded(s, c, limit, bound) && Respects(e, c, limit, bound) && t == Apply(s, e)
    ensures Fits(ViewOf(t, c), limit, bound)
  {
    if e.Decide? || e.Record? {
      FitsDecideStep(s, e, c, limit, bound);
    } else if e.BeginFlush? || e.CommitTransaction? || e.Requeue? || e.CommitBatch? {
      FitsFlushStep(s, e, c, limit, bound);
    } else if e.StartLoad? || e.ReadPolicy? || e.ReadRows? || e.FailLoad? || e.FinishLoad? {
      FitsLoadStep(s, e, c, limit, bound);
    } else {
      FitsRemovalStep(s, e, c, limit, bound);
    }
  }

  lemma GuardedStep(s: System, e: Event, t: System, c: Client, limit: int, bound: nat)
    requires Guarded(s, c, limit, bound) && Respects(e, c, limit, bound) && t == Apply(s, e)
    ensures Guarded(t, c, limit, bound)
  {
    StepWellFormed(s, e);
    PolicyStays(s, e, c, limit, bound);
    FitsStep(s, e, t, c, limit, bound);
  }

  /** Cache agreement and the bound hold after every run. */
  lemma {:induction false} RunGuarded(s: System, es: seq<Event>, c: Client, limit: int, bound: nat)
    requires Guarded(s, c, limit, bound)
    requires forall i :: 0 <= i < |es| ==> Respects(es[i], c, limit, bound)
    ensures Guarded(Run(s, es), c, limit, bound)
    decreases |es|
  {
    if es != [] {
      RunGuarded(s, es[..|es| - 1], c, limit, bound);
      GuardedStep(Run(s, es[..|es| - 1]), es[|es| - 1], Run(s, es), c, limit, bound);
    }
  }

  /** The state the panel starts from: nothing held, cache cold. */
  ghost predicate Start(s: System) {
    s.mem == EMPTY && s.flights == map[] && s.written == {}
  }

  predicate ActiveEnforce(p: Policy) { p.enable && p.mode == Enforce && p.limit > 0 }

  /** What warm-up reads: one entry for each active enforcing client. */
  ghost function WarmEntries(s: System, expiresAt: int): Cache {
    map c | c in s.policies && ActiveEnforce(s.policies[c]) ::
      Entry(s.policies[c].limit, Enforce, Stored(s.rows, c), expiresAt)
  }

  ghost function Started(s: System, warmUntil: Option<int>): System {
    if warmUntil.Some? then Apply(s, WarmUp(WarmEntries(s, warmUntil.value), 0)) else s
  }

  lemma StartGuarded(s: System, warmUntil: Option<int>, c: Client, limit: int, bound: nat)
    requires Start(s) && 0 < limit <= bound
    requires Lookup(s.policies, c) == Some(Policy(true, limit, Enforce))
    requires |Stored(s.rows, c)| <= bound
    ensures Guarded(Started(s, warmUntil), c, limit, bound)
  {
    var v := ViewOf(Started(s, warmUntil), c);
    assert v.held == {};
    assert v.stored + {} == v.stored;
  }

  /** In every run a client never has more distinct sources in the database,
      pending and in flight than its limit, or than its history already held
      when the process started or the database was replaced. The run may start
      with a cold cache or from warm-up. */
  lemma LimitHolds(s: System, warmUntil: Option<int>, es: seq<Event>, c: Client, limit: int, bound: nat)
    requires Start(s) && 0 < limit <= bound
    requires Lookup(s.policies, c) == Some(Policy(true, limit, Enforce))
    requires |Stored(s.rows, c)| <= bound
    requires forall i :: 0 <= i < |es| ==> Respects(es[i], c, limit, bound)
    ensures |Known(Run(Started(s, warmUntil), es), c)| <= bound
  {
    StartGuarded(s, warmUntil, c, limit, bound);
    RunGuarded(Started(s, warmUntil), es, c, limit, bound);
    assert Fits(ViewOf(Run(Started(s, warmUntil), es), c), limit, bound);
  }

  // ---- no accepted observation is lost ----

  /** The observation is where it cannot be dropped: stored, pending, or in a
      batch whose transaction has not committed yet. */
  ghost predicate Safe(s: System, c: Client, h: Hash) {
    || h in Stored(s.rows, c)
    || h in Of(s.mem.pending, c)
    || exists b :: InOpenBatch(s, b, c, h)
  }

  ghost predicate InOpenBatch(s: System, b: nat, c: Client, h: Hash) {
    b in s.mem.flushing && b !in s.written && h in Of(s.mem.flushing[b], c)
  }

  ghost predicate Removes(e: Event, c: Client) {
    (e.ClearRows? && e.c == c) || e.PruneRows? || e.ResetTo?
  }

  lemma StoredStays(s: System, e: Event, c: Client, h: Hash)
    requires h in Stored(s.rows, c) && !Removes(e, c)
    ensures h in Stored(Apply(s, e).rows, c)
  {
    var k :| k in s.rows && k.client == c && k.hash == h;
    assert k in Apply(s, e).rows;
  }

  lemma PendingStaysSafe(s: System, e: Event, c: Client, h: Hash)
    requires WellFormed(s) && h in Of(s.mem.pending, c) && !Removes(e, c)
    ensures Safe(Apply(s, e), c, h)
  {
    if e.BeginFlush? {
      assert InOpenBatch(Apply(s, e), s.mem.nextBatch, c, h);
    }
  }

  lemma OpenBatchStaysSafe(s: System, e: Event, b: nat, c: Client, h: Hash)
    requires WellFormed(s) && InOpenBatch(s, b, c, h) && !Removes(e, c)
    ensures Safe(Apply(s, e), c, h)
  {
    if e == CommitTransaction(b) {
      StoredWritten(s.rows, s.mem.flushing[b], c);
    } else if e != Requeue(b) {
      OpenBatchStaysOpen(s, e, b, c, h);
    }
  }

  lemma OpenBatchStaysOpen(s: System, e: Event, b: nat, c: Client, h: Hash)
    requires WellFormed(s) && InOpenBatch(s, b, c, h) && !Removes(e, c)
    requires e != CommitTransaction(b) && e != Requeue(b)
    ensures InOpenBatch(Apply(s, e), b, c, h)
  {
  }

  lemma {:induction false} RunStaysSafe(s: System, es: seq<Event>, c: Client, h: Hash)
    requires WellFormed(s) && Safe(s, c, h)
    requires forall i :: 0 <= i < |es| ==> !Removes(es[i], c)
    ensures Safe(Run(s, es), c, h)
    decreases |es|
  {
    if es != [] {
      var t, e := Run(s, es[..|es| - 1]), es[|es| - 1];
      RunStaysSafe(s, es[..|es| - 1], c, h);
      RunWellFormed(s, es[..|es| - 1]);
      if h in Stored(t.rows, c) {
        StoredStays(t, e, c, h);
      } else if h in Of(t.mem.pending, c) {
        PendingStaysSafe(t, e, c, h);
      } else {
        var b :| InOpenBatch(t, b, c, h);
        OpenBatchStaysSafe(t, e, b, c, h);
      }
    }
  }

  /** An accepted source is pending, in a batch or in the database after every
      further run that removes nothing; a rejected source changes nothing. */
  lemma AcceptedNeverLost(s: System, d: Event, es: seq<Event>)
    requires WellFormed(s) && d.Decide? && d.observe
    requires forall i :: 0 <= i < |es| ==> !Removes(es[i], d.c)
    ensures if Admits(s.mem, d.c, d.h, d.revision, d.now)
            then Safe(Run(Apply(s, d), es), d.c, d.h) && d.h in Known(Run(Apply(s, d), es), d.c)
            else Apply(s, d) == s
  {
    if Admits(s.mem, d.c, d.h, d.revision, d.now) {
      StepWellFormed(s, d);
      assert d.h in Of(Apply(s, d).mem.pending, d.c);
      RunStaysSafe(Apply(s, d), es, d.c, d.h);
    }
  }

  lemma BatchUntouchedStep(s: System, e: Event, b: nat)
    requires b < s.mem.nextBatch && b in Apply(s, e).mem.flushing
    ensures b in s.mem.flushing && Apply(s, e).mem.flushing[b] == s.mem.flushing[b]
  {
  }

  /** A batch is taken once and nobody else touches it: whenever it is still
      in flight it is exactly the snapshot that was taken. */
  lemma {:induction false} BatchUntouched(s: System, es: seq<Event>, b: nat)
    requires WellFormed(s) && b < s.mem.nextBatch
    ensures b in Run(s, es).mem.flushing ==>
      b in s.mem.flushing && Run(s, es).mem.flushing[b] == s.mem.flushing[b]
    decreases |es|
  {
    if es != [] {
      var t := Run(s, es[..|es| - 1]);
      BatchUntouched(s, es[..|es| - 1], b);
      RunWellFormed(s, es[..|es| - 1]);
      if b in Run(s, es).mem.flushing {
        BatchUntouchedStep(t, es[|es| - 1], b);
      }
    }
  }

  /** Requeue gives back every hash with the later of the two sightings, leaves
      every other hash alone, and repeating it changes nothing. */
  lemma RequeueRestores(m: Mem, b: nat, c: Client, h: Hash)
    requires b in m.flushing
    ensures var there, batch, after := Of(m.pending, c), Of(m.flushing[b], c), Of(Requeued(m, b).pending, c);
      && (h in after <==> h in there || h in batch)
      && (h in batch && h in there ==> after[h].lastSeen == Max(there[h].lastSeen, batch[h].lastSeen))
      && (h in batch && h !in there ==> after[h] == batch[h])
      && (h !in batch && h in there ==> after[h] == there[h])
    ensures Requeued(Requeued(m, b), b) == Requeued(m, b)
  {
  }

  // ---- fencing ----

  /** The events that bump the revision. */
  ghost predicate Fences(s: System, e: Event) {
    || e.Invalidate? || e.InvalidateAll? || e.ResetTo?
    || (e.CommitBatch? && e.b in s.written)
    || (e.WarmUp? && e.revision == s.mem.revision)
  }

  lemma FenceBumps(s: System, e: Event)
    requires WellFormed(s)
    ensures Apply(s, e).mem.revision == s.mem.revision + if Fences(s, e) then 1 else 0
  {
  }

  lemma {:induction false} RevisionGrows(s: System, es: seq<Event>, i: nat)
    requires WellFormed(s) && i <= |es|
    ensures Run(s, es[..i]).mem.revision <= Run(s, es).mem.revision
    decreases |es|
  {
    if i < |es| {
      var shorter := es[..|es| - 1];
      assert shorter[..i] == es[..i];
      RevisionGrows(s, shorter, i);
      RunWellFormed(s, shorter);
      FenceBumps(Run(s, shorter), es[|es| - 1]);
    } else {
      assert es[..i] == es;
    }
  }

  /** An admission that read its revision at the start of a run and accepts at
      the end of it saw no invalidation, batch commit, warm-up or reset. */
  lemma FencedDecision(s: System, es: seq<Event>, d: Event, k: nat)
    requires WellFormed(s) && d.Decide? && d.revision == s.mem.revision && k < |es|
    requires Admits(Run(s, es).mem, d.c, d.h, d.revision, d.now)
    ensures !Fences(Run(s, es[..k]), es[k])
  {
    RunWellFormed(s, es[..k]);
    assert es[..k + 1][..k] == es[..k];
    assert Run(s, es[..k + 1]) == Apply(Run(s, es[..k]), es[k]);
    FenceBumps(Run(s, es[..k]), es[k]);
    RevisionGrows(s, es, k + 1);
  }

  /** A batch taken before a reset changes nothing in memory afterwards, however
      its transaction ends. That a transaction of such a batch does not reach the
      replacement database is how `Apply` is defined. */
  lemma StaleBatchInert(s: System, rows: Rows, policies: map<Client, Policy>, es: seq<Event>, b: nat)
    requires WellFormed(s) && b < s.mem.nextBatch
    ensures var t := Run(Apply(s, ResetTo(rows, policies)), es);
      Apply(t, Requeue(b)) == t && Apply(t, CommitBatch(b)) == t && Apply(t, CommitTransaction(b)) == t
  {
    var r := Apply(s, ResetTo(rows, policies));
    var t := Run(r, es);
    StepWellFormed(s, ResetTo(rows, policies));
    BatchUntouched(r, es, b);
    RunWellFormed(r, es);
    assert t.written - {b} == t.written;
  }
}
