/**
 What an admission accepts, exactly. The limit is reached, not only kept: a source
 that fits is accepted in every run, and one that does not is refused.
 */
module IpExact {
  import opened Basics
  import opened IpMonitorState
  import opened IpHistory
  import opened IpAdmission
  import opened IpAgreement

  /** In every state, a decision accepts exactly under the revision it read, with
      an entry that has not expired, and if the entry does not enforce a limit, or
      the source is known, or there is room for one more. */
  lemma DecisionIff(m: Mem, c: Client, h: Hash, revision: nat, now: int)
    ensures Admits(m, c, h, revision, now) <==>
      && revision == m.revision && c in m.cache && now < m.cache[c].expiresAt
      && (m.cache[c].mode != Enforce || m.cache[c].limit <= 0
          || h in m.cache[c].ips + Held(m, c) || |m.cache[c].ips + Held(m, c)| < m.cache[c].limit)
  {
    if c in m.cache {
      var seen := m.cache[c].ips + Held(m, c);
      if h !in seen {
        assert |seen + {h}| == |seen| + 1;
      }
    }
  }

  // ---- the entry knows no more than there is ----

  predicate Within(v: View, e: Entry) { e.ips <= v.stored + v.held }

  predicate Tight(v: View) {
    && (v.cached.Some? ==> Within(v, v.cached.value))
    && (v.flight.Some? && v.flight.value.Loaded? ==> Within(v, v.flight.value.entry))
  }

  /** What a written batch carries is stored. */
  ghost predicate WrittenStored(s: System, c: Client) {
    forall b :: b in s.written && b in s.mem.flushing ==> Of(s.mem.flushing[b], c).Keys <= Stored(s.rows, c)
  }

  ghost predicate Exact(s: System, c: Client) { Tight(ViewOf(s, c)) && WrittenStored(s, c) }

  /** The event takes rows of the client away and leaves its cache entry. */
  ghost predicate Takes(e: Event, c: Client) { (e.ClearRows? && e.c == c) || e.PruneRows? }

  lemma StoredKept(s: System, e: Event, c: Client)
    requires !Takes(e, c) && !e.ResetTo?
    ensures Stored(s.rows, c) <= Stored(Apply(s, e).rows, c)
  {
    forall h | h in Stored(s.rows, c) ensures h in Stored(Apply(s, e).rows, c) {
      StoredStays(s, e, c, h);
    }
  }

  lemma WrittenStoredStep(s: System, e: Event, c: Client)
    requires WellFormed(s) && WrittenStored(s, c) && !Takes(e, c)
    ensures WrittenStored(Apply(s, e), c)
  {
    var t := Apply(s, e);
    if !e.ResetTo? {
      StoredKept(s, e, c);
      forall b | b in t.written && b in t.mem.flushing ensures Of(t.mem.flushing[b], c).Keys <= Stored(t.rows, c) {
        WrittenFrom(s, e, b);
        if b !in s.written {
          StoredWritten(s.rows, s.mem.flushing[b], c);
        }
      }
    }
  }

  lemma WrittenFrom(s: System, e: Event, b: nat)
    requires WellFormed(s) && !e.ResetTo? && b in Apply(s, e).written && b in Apply(s, e).mem.flushing
    ensures b in s.mem.flushing && Apply(s, e).mem.flushing[b] == s.mem.flushing[b]
    ensures b in s.written || e == CommitTransaction(b)
  {
    StepWellFormed(s, e);
    BatchUntouchedStep(s, e, b);
  }

  lemma TightLoad(v: View, w: View, policy: Option<Policy>)
    requires Tight(v) && LoadView(v, w, policy)
    ensures Tight(w)
  {
  }

  lemma TightCommit(s: System, e: Event, c: Client)
    requires WellFormed(s) && Exact(s, c) && e.CommitBatch?
    ensures Tight(ViewOf(Apply(s, e), c))
  {
    var v, w := ViewOf(s, c), ViewOf(Apply(s, e), c);
    if Apply(s, e) != s {
      HeldCommitted(s.mem, e.b, c);
      var batch := Of(s.mem.flushing[e.b], c).Keys;
      assert batch <= v.stored;
      assert v.held == w.held + batch && w.stored == v.stored && w.flight.None?;
      assert v.cached.Some? ==> w.cached == Some(v.cached.value.(ips := v.cached.value.ips + batch));
      assert v.cached.None? ==> w.cached.None?;
    }
  }

  lemma TightStep(s: System, e: Event, c: Client)
    requires WellFormed(s) && Exact(s, c) && !Takes(e, c) && !e.WarmUp?
    ensures Tight(ViewOf(Apply(s, e), c))
  {
    if e.Decide? || e.Record? {
      ViewRecorded(s, e, c);
    } else if e.CommitBatch? {
      TightCommit(s, e, c);
    } else if e.BeginFlush? || e.CommitTransaction? || e.Requeue? {
      ViewFlush(s, e, c);
    } else if e.StartLoad? || e.ReadPolicy? || e.ReadRows? || e.FailLoad? || e.FinishLoad? {
      ViewLoad(s, e, c);
      TightLoad(ViewOf(s, c), ViewOf(Apply(s, e), c), Lookup(s.policies, c));
    } else {
      TightRest(s, e, c);
    }
  }

  lemma TightRest(s: System, e: Event, c: Client)
    requires WellFormed(s) && Tight(ViewOf(s, c)) && !Takes(e, c)
    requires e.ClearRows? || e.Invalidate? || e.InvalidateAll? || e.ResetTo? || e.EditPolicy?
    ensures Tight(ViewOf(Apply(s, e), c))
  {
    ViewRemoval(s, e, c);
    if !e.ResetTo? {
      StoredKept(s, e, c);
    }
  }

  // ---- warm-up ----

  lemma {:induction false} RowsKept(s: System, es: seq<Event>, j: nat, c: Client)
    requires WellFormed(s) && j <= |es| && Run(s, es).mem.revision <= Run(s, es[..j]).mem.revision
    requires forall i :: 0 <= i < |es| ==> !Takes(es[i], c)
    ensures Stored(Run(s, es[..j]).rows, c) <= Stored(Run(s, es).rows, c)
    decreases |es|
  {
    if j == |es| {
      assert es[..j] == es;
    } else {
      var shorter, e := es[..|es| - 1], es[|es| - 1];
      assert shorter[..j] == es[..j];
      RunWellFormed(s, shorter);
      RevisionGrows(s, shorter, j);
      FenceBumps(Run(s, shorter), e);
      RowsKept(s, shorter, j, c);
      StoredKept(Run(s, shorter), e, c);
    }
  }

  lemma WarmTight(r: System, u: System, e: Event, expiresAt: int, c: Client)
    requires WellFormed(u) && Tight(ViewOf(u, c)) && e.WarmUp? && e.entries == WarmEntries(r, expiresAt)
    requires e.revision == u.mem.revision ==> Stored(r.rows, c) <= Stored(u.rows, c)
    ensures Tight(ViewOf(Apply(u, e), c))
  {
    var t := Apply(u, e);
    if e.revision == u.mem.revision {
      assert Held(t.mem, c) == Held(u.mem, c) && t.rows == u.rows;
      assert FlightKey(t.mem.revision, c) !in t.flights;
    } else {
      assert t == u;
    }
  }

  lemma TightWarm(s: System, es: seq<Event>, j: nat, c: Client)
    requires es != [] && es[|es| - 1].WarmUp? && WellFormed(s) && WarmRead(s, es, |es| - 1, j)
    requires Tight(ViewOf(Run(s, es[..|es| - 1]), c)) && forall i :: 0 <= i < |es| ==> !Takes(es[i], c)
    ensures Tight(ViewOf(Run(s, es), c))
  {
    var shorter, e := es[..|es| - 1], es[|es| - 1];
    var u, r := Run(s, shorter), Run(s, es[..j]);
    RunWellFormed(s, shorter);
    assert shorter[..j] == es[..j];
    if e.revision == u.mem.revision {
      RowsKept(s, shorter, j, c);
    }
    var expiresAt :| e.entries == WarmEntries(r, expiresAt);
    WarmTight(r, u, e, expiresAt, c);
  }

  lemma {:induction false} RunExact(s: System, es: seq<Event>, c: Client)
    requires WellFormed(s) && Exact(s, c) && WarmReads(s, es) && forall i :: 0 <= i < |es| ==> !Takes(es[i], c)
    ensures Exact(Run(s, es), c)
    decreases |es|
  {
    if es != [] {
      var shorter, e := es[..|es| - 1], es[|es| - 1];
      WarmReadsShorter(s, es, shorter);
      RunExact(s, shorter, c);
      RunWellFormed(s, shorter);
      WrittenStoredStep(Run(s, shorter), e, c);
      if e.WarmUp? {
        var j: nat :| WarmRead(s, es, |es| - 1, j);
        TightWarm(s, es, j, c);
      } else {
        TightStep(Run(s, shorter), e, c);
      }
    }
  }

  lemma StartExact(s: System, warmUntil: Option<int>, c: Client)
    requires Start(s)
    ensures Exact(Started(s, warmUntil), c)
  {
  }

  /** From a cold or warm start, in every run that takes no rows of the client away
      under its entry: while the entry has not expired, a source is accepted
      exactly if the entry enforces no limit, the source is stored, pending or in
      flight already, or fewer than `limit` sources are. */
  lemma AdmissionExact(s: System, warmUntil: Option<int>, es: seq<Event>, c: Client, h: Hash, now: int)
    requires Start(s) && WarmReads(Started(s, warmUntil), es) && forall i :: 0 <= i < |es| ==> !Takes(es[i], c)
    ensures var t := Run(Started(s, warmUntil), es);
      c in t.mem.cache && now < t.mem.cache[c].expiresAt ==>
      (Admits(t.mem, c, h, t.mem.revision, now) <==>
        || t.mem.cache[c].mode != Enforce || t.mem.cache[c].limit <= 0
        || h in Known(t, c) || |Known(t, c)| < t.mem.cache[c].limit)
  {
    StartExact(s, warmUntil, c);
    StartCovered(s, warmUntil, c);
    RunExact(Started(s, warmUntil), es, c);
    CacheAgrees(s, warmUntil, es, c);
    var t := Run(Started(s, warmUntil), es);
    if c in t.mem.cache && now < t.mem.cache[c].expiresAt {
      ExactDecision(t, c, h, now);
    }
  }

  lemma CountsKnown(t: System, c: Client)
    requires Covered(ViewOf(t, c)) && Tight(ViewOf(t, c)) && c in t.mem.cache
    ensures t.mem.cache[c].mode == Enforce && t.mem.cache[c].limit > 0 ==>
      t.mem.cache[c].ips + Held(t.mem, c) == Known(t, c)
  {
    var v, entry := ViewOf(t, c), t.mem.cache[c];
    assert v.cached == Some(entry) && v.stored == Stored(t.rows, c) && v.held == Held(t.mem, c);
    assert entry.ips <= v.stored + v.held;
    if entry.mode == Enforce && entry.limit > 0 {
      assert v.stored <= entry.ips + v.held;
    }
  }

  lemma ExactDecision(t: System, c: Client, h: Hash, now: int)
    requires Covered(ViewOf(t, c)) && Tight(ViewOf(t, c)) && c in t.mem.cache && now < t.mem.cache[c].expiresAt
    ensures Admits(t.mem, c, h, t.mem.revision, now) <==>
      || t.mem.cache[c].mode != Enforce || t.mem.cache[c].limit <= 0
      || h in Known(t, c) || |Known(t, c)| < t.mem.cache[c].limit
  {
    CountsKnown(t, c);
    DecisionIff(t.mem, c, h, t.mem.revision, now);
  }

  // ---- filling up to the limit ----

  /** The client has an enforcing entry and exactly these sources, all held. */
  ghost predicate Ready(t: System, c: Client, limit: int, expiresAt: int, sources: set<Hash>) {
    && t.mem.revision == 0 && c in t.mem.cache && t.mem.cache[c] == Entry(limit, Enforce, sources, expiresAt)
    && Held(t.mem, c) == sources && Stored(t.rows, c) == {}
  }

  lemma LoadStartsAndReads(s: System, c: Client, limit: int, now: int)
    requires Start(s) && 0 < limit && Lookup(s.policies, c) == Some(Policy(true, limit, Enforce))
    ensures var key := FlightKey(0, c);
      Apply(Apply(s, StartLoad(key, now)), ReadPolicy(key)) == s.(flights := map[key := PolicyRead(limit, Enforce)])
  {
    var key := FlightKey(0, c);
    assert s.mem.cache - {c} == map[];
    var t := Apply(s, StartLoad(key, now));
    assert t == s.(flights := map[key := Evicted]);
    assert t.flights[key := PolicyRead(limit, Enforce)] == map[key := PolicyRead(limit, Enforce)];
  }

  lemma LoadReadsAndInstalls(t: System, c: Client, limit: int, expiresAt: int)
    requires t.mem == EMPTY && t.flights == map[FlightKey(0, c) := PolicyRead(limit, Enforce)] && Stored(t.rows, c) == {}
    ensures var key := FlightKey(0, c);
      Ready(Apply(Apply(t, ReadRows(key)), FinishLoad(key, expiresAt)), c, limit, expiresAt, {})
  {
  }

  /** A load of the client's policy. */
  function Loading(c: Client, now: int, expiresAt: int): seq<Event> {
    var key := FlightKey(0, c);
    [StartLoad(key, now), ReadPolicy(key), ReadRows(key), FinishLoad(key, expiresAt)]
  }

  lemma LoadingReady(s: System, c: Client, limit: int, now: int, expiresAt: int)
    requires Start(s) && 0 < limit && Lookup(s.policies, c) == Some(Policy(true, limit, Enforce)) && Stored(s.rows, c) == {}
    ensures Ready(Run(s, Loading(c, now, expiresAt)), c, limit, expiresAt, {})
  {
    var es := Loading(c, now, expiresAt);
    RunFour(s, es[0], es[1], es[2], es[3]);
    LoadStartsAndReads(s, c, limit, now);
    LoadReadsAndInstalls(Apply(Apply(s, es[0]), es[1]), c, limit, expiresAt);
  }

  lemma RunFour(s: System, a: Event, b: Event, c: Event, d: Event)
    ensures Run(s, [a, b, c, d]) == Apply(Apply(Apply(Apply(s, a), b), c), d)
  {
    assert [a, b, c, d][..3] == [a, b, c] && [a, b, c][..2] == [a, b] && [a, b][..1] == [a] && [a][..0] == [];
    assert Run(s, []) == s;
    assert Run(s, [a]) == Apply(s, a);
    assert Run(s, [a, b]) == Apply(Apply(s, a), b);
    assert Run(s, [a, b, c]) == Apply(Apply(Apply(s, a), b), c);
  }

  lemma ReadyStep(t: System, c: Client, limit: int, expiresAt: int, sources: set<Hash>, h: Hash, o: Observation, now: int)
    requires Ready(t, c, limit, expiresAt, sources) && 0 < limit && now < expiresAt && h !in sources && |sources| < limit
    ensures Admits(t.mem, c, h, 0, now)
    ensures Ready(Apply(t, Decide(c, h, o, true, 0, now)), c, limit, expiresAt, sources + {h})
  {
    DecisionIff(t.mem, c, h, 0, now);
    assert sources + sources == sources;
    HeldRecorded(t.mem, c, h, o, c);
  }

  lemma ReadyFull(t: System, c: Client, limit: int, expiresAt: int, sources: set<Hash>, h: Hash, now: int)
    requires Ready(t, c, limit, expiresAt, sources) && 0 < limit == |sources| && h !in sources
    ensures !Admits(t.mem, c, h, 0, now) && |Known(t, c)| == limit
  {
    DecisionIff(t.mem, c, h, 0, now);
    assert sources + sources == sources && Known(t, c) == sources;
  }

  function Deciding(c: Client, hs: seq<Hash>, o: Observation, now: int): seq<Event> {
    seq(|hs|, i requires 0 <= i < |hs| => Decide(c, hs[i], o, true, 0, now))
  }

  ghost function SetOf(hs: seq<Hash>): set<Hash> { set i | 0 <= i < |hs| :: hs[i] }

  ghost predicate Distinct(hs: seq<Hash>) { forall i, j :: 0 <= i < j < |hs| ==> hs[i] != hs[j] }

  lemma {:induction false} SetOfSize(hs: seq<Hash>)
    requires Distinct(hs)
    ensures |SetOf(hs)| == |hs|
  {
    if hs != [] {
      var shorter := hs[..|hs| - 1];
      SetOfSize(shorter);
      SetOfSnoc(hs);
    }
  }

  lemma SetOfSnoc(hs: seq<Hash>)
    requires hs != []
    ensures SetOf(hs) == SetOf(hs[..|hs| - 1]) + {hs[|hs| - 1]}
    ensures Distinct(hs) ==> hs[|hs| - 1] !in SetOf(hs[..|hs| - 1])
  {
    var shorter, last := hs[..|hs| - 1], hs[|hs| - 1];
    forall h | h in SetOf(hs) ensures h in SetOf(shorter) + {last} {
      var i :| 0 <= i < |hs| && hs[i] == h;
      assert i < |shorter| ==> shorter[i] == h;
    }
    forall h | h in SetOf(shorter) + {last} ensures h in SetOf(hs) {
      if h in SetOf(shorter) {
        var i :| 0 <= i < |shorter| && shorter[i] == h;
        assert hs[i] == h;
      } else {
        assert hs[|hs| - 1] == h;
      }
    }
  }

  lemma DecidingSnoc(t: System, c: Client, hs: seq<Hash>, o: Observation, now: int)
    requires hs != []
    ensures Run(t, Deciding(c, hs, o, now)) ==
      Apply(Run(t, Deciding(c, hs[..|hs| - 1], o, now)), Decide(c, hs[|hs| - 1], o, true, 0, now))
  {
    var es := Deciding(c, hs, o, now);
    assert es[..|es| - 1] == Deciding(c, hs[..|hs| - 1], o, now);
  }

  lemma {:induction false} FilledReady(t: System, c: Client, limit: int, expiresAt: int, hs: seq<Hash>, o: Observation, now: int)
    requires Ready(t, c, limit, expiresAt, {}) && 0 < limit && now < expiresAt && Distinct(hs) && |hs| <= limit
    ensures Ready(Run(t, Deciding(c, hs, o, now)), c, limit, expiresAt, SetOf(hs))
    ensures |hs| > 0 ==> Admits(Run(t, Deciding(c, hs[..|hs| - 1], o, now)).mem, c, hs[|hs| - 1], 0, now)
    decreases |hs|
  {
    if hs == [] {
      assert Deciding(c, hs, o, now) == [] && SetOf(hs) == {};
    } else {
      var shorter, last := hs[..|hs| - 1], hs[|hs| - 1];
      FilledReady(t, c, limit, expiresAt, shorter, o, now);
      SetOfSize(shorter);
      SetOfSnoc(hs);
      DecidingSnoc(t, c, hs, o, now);
      ReadyStep(Run(t, Deciding(c, shorter, o, now)), c, limit, expiresAt, SetOf(shorter), last, o, now);
    }
  }

  /** The limit is reached: for an enforcing client without history, after its
      policy is loaded, the first `limit` distinct sources are all accepted, each
      in turn, and the next one is refused. */
  lemma LimitIsReached(s: System, c: Client, limit: int, loadedAt: int, expiresAt: int, hs: seq<Hash>, o: Observation, now: int, next: Hash)
    requires Start(s) && 0 < limit && Lookup(s.policies, c) == Some(Policy(true, limit, Enforce)) && Stored(s.rows, c) == {}
    requires now < expiresAt && Distinct(hs) && |hs| == limit && next !in SetOf(hs)
    ensures var t := Run(s, Loading(c, loadedAt, expiresAt));
      && (forall k :: 0 <= k < limit ==> Admits(Run(t, Deciding(c, hs[..k], o, now)).mem, c, hs[k], 0, now))
      && !Admits(Run(t, Deciding(c, hs, o, now)).mem, c, next, 0, now)
      && |Known(Run(t, Deciding(c, hs, o, now)), c)| == limit
  {
    var t := Run(s, Loading(c, loadedAt, expiresAt));
    LoadingReady(s, c, limit, loadedAt, expiresAt);
    forall k | 0 <= k < limit ensures Admits(Run(t, Deciding(c, hs[..k], o, now)).mem, c, hs[k], 0, now) {
      assert hs[..k + 1][..k] == hs[..k];
      FilledReady(t, c, limit, expiresAt, hs[..k + 1], o, now);
    }
    FilledReady(t, c, limit, expiresAt, hs, o, now);
    SetOfSize(hs);
    ReadyFull(Run(t, Deciding(c, hs, o, now)), c, limit, expiresAt, SetOf(hs), next, now);
  }

  // ---- what a load finds ----

  /** A finished load leaves an entry with the stored policy: a disabled client is
      let through, and only an enforced positive limit brings its history. */
  lemma LoadFindsPolicy(p: Policy, stored: set<Hash>, e: Entry)
    requires PolicyFlight(p) == Loaded(e) || (PolicyFlight(p).PolicyRead? && e == Entry(PolicyFlight(p).limit, PolicyFlight(p).mode, stored, 0))
    ensures e.mode == Enforce && e.limit > 0 <==> p.enable && p.mode == Enforce && p.limit > 0
    ensures p.enable ==> e.limit == p.limit && e.mode == p.mode
    ensures e.ips == if p.enable && p.mode == Enforce && p.limit > 0 then stored else {}
  {
  }

  /** After a reset a load finds the policy and the history of the database that
      replaced the old one, and nothing else is held. */
  lemma LoadAfterReset(s: System, rows: Rows, policies: map<Client, Policy>, c: Client, now: int, expiresAt: int)
    requires c in policies && FlightKey(s.mem.revision + 1, c) !in s.flights
    ensures var key, p := FlightKey(s.mem.revision + 1, c), policies[c];
      var read := Apply(Apply(Apply(s, ResetTo(rows, policies)), StartLoad(key, now)), ReadPolicy(key));
      var t := Apply(Apply(read, ReadRows(key)), FinishLoad(key, expiresAt));
      && t.mem.cache.Keys == {c} && t.mem.pending == map[] && t.mem.flushing == map[]
      && t.mem.cache[c] ==
         if !p.enable then Entry(0, Unset, {}, expiresAt)
         else Entry(p.limit, p.mode, if p.mode == Enforce && p.limit > 0 then Stored(rows, c) else {}, expiresAt)
  {
    var key := FlightKey(s.mem.revision + 1, c);
    var started := Apply(Apply(s, ResetTo(rows, policies)), StartLoad(key, now));
    assert started.mem == Reset(s.mem) && started.flights[key] == Evicted && started.policies == policies && started.rows == rows;
    LoadOnEmpty(started, key, expiresAt);
  }

  lemma LoadOnEmpty(s: System, key: FlightKey, expiresAt: int)
    requires s.mem.cache == map[] && s.mem.revision == key.revision && key.client in s.policies
    requires key in s.flights && s.flights[key].Evicted?
    ensures var p := s.policies[key.client];
      var t := Apply(Apply(Apply(s, ReadPolicy(key)), ReadRows(key)), FinishLoad(key, expiresAt));
      && t.mem.pending == s.mem.pending && t.mem.flushing == s.mem.flushing
      && t.mem.cache == map[key.client :=
           if !p.enable then Entry(0, Unset, {}, expiresAt)
           else Entry(p.limit, p.mode, if p.mode == Enforce && p.limit > 0 then Stored(s.rows, key.client) else {}, expiresAt)]
  {
    var read := Apply(s, ReadPolicy(key));
    assert read == s.(flights := s.flights[key := PolicyFlight(s.policies[key.client])]);
    var loaded := Apply(read, ReadRows(key));
    assert loaded.mem == s.mem && loaded.flights[key].Loaded?;
  }
}
