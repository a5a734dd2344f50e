/**
 Cache agreement of the IP monitor, for every client and every policy: what an
 enforcing cache entry or load knows, together with what is held in memory,
 covers every stored source of its client.
 */
module IpAgreement {
  import opened Basics
  import opened IpMonitorState
  import opened IpHistory
  import opened IpAdmission

  predicate Covers(v: View, e: Entry) {
    e.Limits() ==> v.stored <= e.ips + v.held
  }

  /** The cached entry covers the database; so does what the load of the current
      revision has read, and while it runs there is no entry. */
  predicate Covered(v: View) {
    && (v.cached.Some? ==> Covers(v, v.cached.value))
    && (v.flight.Some? ==> v.cached.None? && (v.flight.value.Loaded? ==> Covers(v, v.flight.value.entry)))
  }

  /** Recording, admitted or plain, adds the source to what is held and to the
      cached entry. */
  ghost predicate RecordedView(v: View, w: View, h: Hash) {
    && w.stored == v.stored && w.held == v.held + {h} && w.flight == v.flight
    && (v.cached.None? ==> w.cached.None?)
    && (v.cached.Some? ==> w.cached == Some(v.cached.value.(ips := v.cached.value.ips + {h})))
  }

  lemma ViewRecorded(s: System, e: Event, c: Client)
    requires e.Decide? || e.Record?
    ensures var v, w := ViewOf(s, c), ViewOf(Apply(s, e), c);
      w == v || RecordedView(v, w, e.h)
  {
    if Apply(s, e) != s {
      HeldRecorded(s.mem, e.c, e.h, e.o, c);
    }
  }

  lemma CoveredLoad(v: View, w: View, policy: Option<Policy>)
    requires Covered(v) && LoadView(v, w, policy)
    ensures Covered(w)
  {
  }

  lemma CoveredMoved(s: System, e: Event, c: Client)
    requires WellFormed(s) && Covered(ViewOf(s, c))
    requires e.BeginFlush? || e.CommitTransaction? || e.Requeue? || e.CommitBatch?
    ensures Covered(ViewOf(Apply(s, e), c))
  {
    var v, w := ViewOf(s, c), ViewOf(Apply(s, e), c);
    if e.CommitBatch? {
      ViewCommit(s, e, c);
      if w != v {
        var batch :| CommittedView(v, w, batch);
      }
    } else {
      ViewFlush(s, e, c);
    }
  }

  lemma CoveredStep(s: System, e: Event, c: Client)
    requires WellFormed(s) && Covered(ViewOf(s, c)) && !e.WarmUp?
    ensures Covered(ViewOf(Apply(s, e), c))
  {
    if e.Decide? || e.Record? {
      ViewRecorded(s, e, c);
    } else if e.BeginFlush? || e.CommitTransaction? || e.Requeue? || e.CommitBatch? {
      CoveredMoved(s, e, c);
    } else if e.StartLoad? || e.ReadPolicy? || e.ReadRows? || e.FailLoad? || e.FinishLoad? {
      ViewLoad(s, e, c);
      CoveredLoad(ViewOf(s, c), ViewOf(Apply(s, e), c), Lookup(s.policies, c));
    } else {
      ViewRemoval(s, e, c);
    }
  }

  // ---- warm-up ----

  /** While the revision stays, what is held only grows and what is stored only
      gains what is held. */
  predicate Grows(v: View, w: View) { v.held <= w.held && w.stored <= v.stored + w.held }

  lemma StepGrows(s: System, e: Event, c: Client)
    requires WellFormed(s) && Apply(s, e).mem.revision == s.mem.revision
    ensures Grows(ViewOf(s, c), ViewOf(Apply(s, e), c))
  {
    if e.Decide? || e.Record? {
      ViewRecorded(s, e, c);
    } else if e.BeginFlush? || e.CommitTransaction? || e.Requeue? {
      ViewFlush(s, e, c);
    } else if e.StartLoad? || e.ReadPolicy? || e.ReadRows? || e.FailLoad? || e.FinishLoad? {
      ViewLoad(s, e, c);
    } else if e.ClearRows? || e.PruneRows? || e.EditPolicy? {
      ViewRemoval(s, e, c);
    } else {
      FenceBumps(s, e);
      assert Apply(s, e) == s;
    }
  }

  lemma {:induction false} RunGrows(s: System, es: seq<Event>, j: nat, c: Client)
    requires WellFormed(s) && j <= |es| && Run(s, es).mem.revision <= Run(s, es[..j]).mem.revision
    ensures Grows(ViewOf(Run(s, es[..j]), c), ViewOf(Run(s, es), c))
    decreases |es|
  {
    if j == |es| {
      assert es[..j] == es;
    } else {
      var shorter := es[..|es| - 1];
      assert shorter[..j] == es[..j];
      RunWellFormed(s, shorter);
      StepWellFormed(Run(s, shorter), es[|es| - 1]);
      RevisionGrows(s, shorter, j);
      RunGrows(s, shorter, j, c);
      StepGrows(Run(s, shorter), es[|es| - 1], c);
    }
  }

  /** The warm-up at step `k` carries what step `j` found in the database, read
      after the warm-up had read its revision. */
  ghost predicate WarmRead(s: System, es: seq<Event>, k: nat, j: nat)
    requires k < |es| && es[k].WarmUp?
  {
    && j <= k && es[k].revision <= Run(s, es[..j]).mem.revision
    && exists expiresAt :: es[k].entries == WarmEntries(Run(s, es[..j]), expiresAt)
  }

  ghost predicate WarmReads(s: System, es: seq<Event>) {
    forall k: nat :: k < |es| && es[k].WarmUp? ==> exists j: nat :: WarmRead(s, es, k, j)
  }

  lemma CoveredWarm(s: System, es: seq<Event>, j: nat, c: Client)
    requires es != [] && es[|es| - 1].WarmUp? && WellFormed(s) && WarmRead(s, es, |es| - 1, j)
    requires Covered(ViewOf(Run(s, es[..|es| - 1]), c))
    ensures Covered(ViewOf(Run(s, es), c))
  {
    var shorter, e := es[..|es| - 1], es[|es| - 1];
    var u, r := Run(s, shorter), Run(s, es[..j]);
    RunWellFormed(s, shorter);
    assert shorter[..j] == es[..j];
    if e.revision == u.mem.revision {
      RunGrows(s, shorter, j, c);
    }
    var expiresAt :| e.entries == WarmEntries(r, expiresAt);
    WarmStep(r, u, e, expiresAt, c);
  }

  lemma WarmStep(r: System, u: System, e: Event, expiresAt: int, c: Client)
    requires WellFormed(u) && Covered(ViewOf(u, c)) && e.WarmUp? && e.entries == WarmEntries(r, expiresAt)
    requires e.revision == u.mem.revision ==> Grows(ViewOf(r, c), ViewOf(u, c))
    ensures Covered(ViewOf(Apply(u, e), c))
  {
    if e.revision == u.mem.revision {
      WarmCovers(r, u, e, expiresAt, c);
    } else {
      assert Apply(u, e) == u;
    }
  }

  lemma WarmCovers(r: System, u: System, e: Event, expiresAt: int, c: Client)
    requires WellFormed(u) && e.WarmUp? && e.revision == u.mem.revision && e.entries == WarmEntries(r, expiresAt)
    requires Grows(ViewOf(r, c), ViewOf(u, c))
    ensures Covered(ViewOf(Apply(u, e), c))
  {
    var t := Apply(u, e);
    assert Held(t.mem, c) == Held(u.mem, c) && t.rows == u.rows;
    assert FlightKey(t.mem.revision, c) !in t.flights;
  }

  lemma {:induction false} RunCovered(s: System, es: seq<Event>, c: Client)
    requires WellFormed(s) && Covered(ViewOf(s, c)) && WarmReads(s, es)
    ensures Covered(ViewOf(Run(s, es), c))
    decreases |es|
  {
    if es != [] {
      var shorter := es[..|es| - 1];
      WarmReadsShorter(s, es, shorter);
      RunCovered(s, shorter, c);
      RunWellFormed(s, shorter);
      if es[|es| - 1].WarmUp? {
        var j: nat :| WarmRead(s, es, |es| - 1, j);
        CoveredWarm(s, es, j, c);
      } else {
        CoveredStep(Run(s, shorter), es[|es| - 1], c);
      }
    }
  }

  lemma WarmReadsShorter(s: System, es: seq<Event>, shorter: seq<Event>)
    requires es != [] && shorter == es[..|es| - 1] && WarmReads(s, es)
    ensures WarmReads(s, shorter)
  {
    forall k: nat | k < |shorter| && shorter[k].WarmUp? ensures exists j: nat :: WarmRead(s, shorter, k, j) {
      var j: nat :| WarmRead(s, es, k, j);
      assert shorter[..j] == es[..j];
      assert WarmRead(s, shorter, k, j);
    }
  }

  lemma StartCovered(s: System, warmUntil: Option<int>, c: Client)
    requires Start(s)
    ensures WellFormed(Started(s, warmUntil)) && Covered(ViewOf(Started(s, warmUntil), c))
  {
  }

  /** From a cold or a warm start, in every run, whatever policies are edited,
      sources recorded, databases swapped in or caches warmed up again: every
      enforcing entry and every load of the current revision covers the stored
      history of its client. */
  lemma CacheAgrees(s: System, warmUntil: Option<int>, es: seq<Event>, c: Client)
    requires Start(s) && WarmReads(Started(s, warmUntil), es)
    ensures Covered(ViewOf(Run(Started(s, warmUntil), es), c))
  {
    StartCovered(s, warmUntil, c);
    RunCovered(Started(s, warmUntil), es, c);
  }

  /** Hence a decision under a limit counts every source known for the client: a
      source that is not known is admitted only if it fits beside all of them. */
  lemma DecisionCountsAll(s: System, warmUntil: Option<int>, es: seq<Event>, d: Event)
    requires Start(s) && WarmReads(Started(s, warmUntil), es) && d.Decide?
    ensures var t := Run(Started(s, warmUntil), es);
      d.c in t.mem.cache && t.mem.cache[d.c].Limits() && Admits(t.mem, d.c, d.h, d.revision, d.now) ==>
      || d.h in t.mem.cache[d.c].ips + Held(t.mem, d.c)
      || |Known(t, d.c) + {d.h}| <= t.mem.cache[d.c].limit
  {
    CacheAgrees(s, warmUntil, es, d.c);
    CountsAll(Run(Started(s, warmUntil), es), d);
  }

  lemma CountsAll(t: System, d: Event)
    requires d.Decide? && Covered(ViewOf(t, d.c))
    ensures d.c in t.mem.cache && t.mem.cache[d.c].Limits() && Admits(t.mem, d.c, d.h, d.revision, d.now) ==>
      || d.h in t.mem.cache[d.c].ips + Held(t.mem, d.c)
      || |Known(t, d.c) + {d.h}| <= t.mem.cache[d.c].limit
  {
    if d.c in t.mem.cache && t.mem.cache[d.c].Limits() {
      SubsetSize(Known(t, d.c) + {d.h}, t.mem.cache[d.c].ips + Held(t.mem, d.c) + {d.h});
    }
  }
}
