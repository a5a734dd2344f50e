/** The in-memory snapshot of API tokens and the reloads that replace it. */
module TokenSnapshot {
  import opened Basics

  datatype Token = Token(id: nat, hash: string, enabled: bool, expiry: int)

  type Tokens = map<string, Token>

  /** The loaded list by hash. */
  function Built(loaded: seq<Token>): Tokens {
    if loaded == [] then map[] else Built(loaded[..|loaded| - 1])[loaded[|loaded| - 1].hash := loaded[|loaded| - 1]]
  }

  /** The map holds the last listed token of each hash, and no other hash. */
  lemma {:induction false} BuiltIsLast(loaded: seq<Token>, hash: string)
    ensures hash in Built(loaded) <==> exists i :: 0 <= i < |loaded| && loaded[i].hash == hash
    ensures hash in Built(loaded) ==>
              exists i ::
                && 0 <= i < |loaded| && loaded[i].hash == hash && Built(loaded)[hash] == loaded[i]
                && forall j :: i < j < |loaded| ==> loaded[j].hash != hash
  {
    if loaded != [] {
      var shorter, last := loaded[..|loaded| - 1], loaded[|loaded| - 1];
      BuiltIsLast(shorter, hash);
      if last.hash != hash && hash in Built(shorter) {
        var i :| 0 <= i < |shorter| && shorter[i].hash == hash && Built(shorter)[hash] == shorter[i]
          && forall j :: i < j < |shorter| ==> shorter[j].hash != hash;
        assert loaded[i] == shorter[i];
        assert forall j :: i < j < |loaded| - 1 ==> loaded[j] == shorter[j];
      }
    }
  }

  /** The first read of a request: a token that is present, enabled and unexpired. */
  predicate Usable(tokens: Tokens, hash: string, now: int) {
    hash in tokens && tokens[hash].enabled && !(0 < tokens[hash].expiry <= now)
  }

  class TokenCache {
    var tokens: Tokens
    var revision: nat

    /** First locked region of a reload: clears authorization at once. */
    method BeginReload() returns (mine: nat)
      modifies this
      ensures mine == revision == old(revision) + 1 && tokens == map[]
    {
      revision := revision + 1;
      mine := revision;
      tokens := map[];
    }

    /** The rest of a reload once its load has succeeded. */
    method Publish(mine: nat, loaded: seq<Token>)
      modifies this`tokens
      ensures tokens == if mine == revision then Built(loaded) else old(tokens)
    {
      var newMap: Tokens := map[];
      for n := 0 to |loaded|
        invariant newMap == Built(loaded[..n])
      {
        newMap := newMap[loaded[n].hash := loaded[n]];
        assert loaded[..n + 1][..n] == loaded[..n];
      }
      assert loaded[..|loaded|] == loaded;
      if revision == mine {
        tokens := newMap;
      }
    }

    method FirstRead(hash: string, now: int) returns (found: Option<Token>, seen: nat)
      ensures seen == revision
      ensures found == if Usable(tokens, hash, now) then Some(tokens[hash]) else None
    {
      seen := revision;
      if hash !in tokens {
        return None, seen;
      }
      var t := tokens[hash];
      if !t.enabled {
        return None, seen;
      }
      if t.expiry > 0 && t.expiry <= now {
        return None, seen;
      }
      found := Some(t);
    }

    method SecondRead(hash: string, t: Token, seen: nat) returns (ok: bool)
      ensures ok <==> seen == revision && hash in tokens && tokens[hash].id == t.id
    {
      if seen != revision || hash !in tokens {
        return false;
      }
      ok := tokens[hash].id == t.id;
    }
  }

  // ---- runs ----

  /** `history` holds, for each version of the token table, what a load of it
      returns; `bumpedAt` is the version current at the last revision bump. A
      reload is named by the revision it made and maps to the version it has
      loaded, if it has. */
  datatype System = System(
    tokens: Tokens,
    revision: nat,
    reloads: map<nat, Option<nat>>,
    history: seq<seq<Token>>,
    bumpedAt: nat)

  datatype Event =
    | BeginReload
    | Load(reload: nat)
    | FailLoad(reload: nat)
    | Publish(reload: nat)
    | EditTable(loadable: seq<Token>)

  function Loaded(s: System, reload: nat): Option<nat> {
    if reload in s.reloads then s.reloads[reload] else None
  }

  ghost predicate Versioned(s: System) {
    && s.bumpedAt < |s.history|
    && (forall r :: r in s.reloads && s.reloads[r].Some? ==> s.reloads[r].value < |s.history|)
    && (forall r :: r in s.reloads ==> r <= s.revision)
  }

  ghost function Apply(s: System, e: Event): (t: System)
    requires Versioned(s)
    ensures Versioned(t)
  {
    match e
    case BeginReload =>
      System(map[], s.revision + 1, s.reloads[s.revision + 1 := None], s.history, |s.history| - 1)
    case Load(r) =>
      if r in s.reloads && s.reloads[r].None? then s.(reloads := s.reloads[r := Some(|s.history| - 1)]) else s
    case FailLoad(r) => s.(reloads := s.reloads - {r})
    case Publish(r) =>
      if Loaded(s, r).None? then s
      else s.(
        tokens := if r == s.revision then Built(s.history[Loaded(s, r).value]) else s.tokens,
        reloads := s.reloads - {r})
    case EditTable(loadable) => s.(history := s.history + [loadable])
  }

  ghost function Run(s: System, es: seq<Event>): (t: System)
    requires Versioned(s)
    ensures Versioned(t)
    decreases |es|
  {
    if es == [] then s else Apply(Run(s, es[..|es| - 1]), es[|es| - 1])
  }

  ghost predicate FromVersion(s: System, v: nat) {
    s.bumpedAt <= v < |s.history| && s.tokens == Built(s.history[v])
  }

  /** The visible map is empty, or a load of the table as it was at or after the
      last revision bump that no reload in flight can replace; and what the
      current reload will publish is as recent. */
  ghost predicate Current(s: System) {
    && Versioned(s)
    && (s.tokens == map[] || exists v: nat :: FromVersion(s, v))
    && (s.tokens != map[] ==> s.revision !in s.reloads)
    && (Loaded(s, s.revision).Some? ==> s.bumpedAt <= Loaded(s, s.revision).value)
  }

  lemma CurrentStep(s: System, e: Event)
    requires Current(s)
    ensures Current(Apply(s, e))
  {
    var t := Apply(s, e);
    if e.Publish? && Loaded(s, e.reload).Some? && e.reload == s.revision {
      assert FromVersion(t, Loaded(s, e.reload).value);
    } else if !e.BeginReload? && s.tokens != map[] {
      var v: nat :| FromVersion(s, v);
      assert t.history[v] == s.history[v];
      assert FromVersion(t, v);
    }
  }

  /** In every run of overlapping reloads and edits the visible tokens are none,
      or a snapshot loaded after the most recent reload began. */
  lemma {:induction false} SnapshotIsCurrent(s: System, es: seq<Event>)
    requires Current(s)
    ensures Current(Run(s, es))
    decreases |es|
  {
    if es != [] {
      SnapshotIsCurrent(s, es[..|es| - 1]);
      CurrentStep(Run(s, es[..|es| - 1]), es[|es| - 1]);
    }
  }

  ghost predicate NoReload(es: seq<Event>) {
    forall k :: 0 <= k < |es| ==> !es[k].BeginReload?
  }

  lemma {:induction false} RevisionTellsReloads(s: System, es: seq<Event>)
    requires Versioned(s)
    ensures s.revision <= Run(s, es).revision
    ensures s.revision == Run(s, es).revision <==> NoReload(es)
    decreases |es|
  {
    if es != [] {
      RevisionTellsReloads(s, es[..|es| - 1]);
      assert NoReload(es) <==> NoReload(es[..|es| - 1]) && !es[|es| - 1].BeginReload?;
    }
  }

  lemma StandsStep(s: System, e: Event)
    requires Current(s) && s.tokens != map[] && !e.BeginReload?
    ensures Apply(s, e).tokens == s.tokens
  {
  }

  /** A visible snapshot stays as it is until the next reload begins. */
  lemma {:induction false} SnapshotStands(s: System, es: seq<Event>)
    requires Current(s) && s.tokens != map[] && NoReload(es)
    ensures Run(s, es).tokens == s.tokens
    decreases |es|
  {
    if es != [] {
      SnapshotStands(s, es[..|es| - 1]);
      SnapshotIsCurrent(s, es[..|es| - 1]);
      StandsStep(Run(s, es[..|es| - 1]), es[|es| - 1]);
    }
  }

  /** The decision of a request whose two reads see `first` and `second`. */
  predicate Authorizes(first: System, second: System, hash: string, now: int, ownerAgrees: bool) {
    && Usable(first.tokens, hash, now)
    && ownerAgrees
    && first.revision == second.revision && hash in second.tokens && second.tokens[hash].id == first.tokens[hash].id
  }

  /** A token authorizes exactly when it is in the snapshot, enabled and not past
      an expiry, its owner agrees, and no reload began between the two reads; then
      it is one the table held at or after the start of the most recent reload. */
  lemma AuthorizesIffNoReload(s: System, es: seq<Event>, hash: string, now: int, ownerAgrees: bool)
    requires Current(s)
    ensures Authorizes(s, Run(s, es), hash, now, ownerAgrees) <==>
            && hash in s.tokens && s.tokens[hash].enabled && (s.tokens[hash].expiry <= 0 || now < s.tokens[hash].expiry)
            && ownerAgrees && NoReload(es)
    ensures Authorizes(s, Run(s, es), hash, now, ownerAgrees) ==>
              exists v: nat :: FromVersion(Run(s, es), v) && Listed(Run(s, es).history[v], s.tokens[hash])
  {
    RevisionTellsReloads(s, es);
    if Usable(s.tokens, hash, now) && NoReload(es) {
      SnapshotStands(s, es);
      SnapshotIsCurrent(s, es);
      var v: nat :| FromVersion(Run(s, es), v);
      BuiltIsLast(Run(s, es).history[v], hash);
      assert Listed(Run(s, es).history[v], s.tokens[hash]);
    }
  }

  ghost predicate Listed(loaded: seq<Token>, t: Token) { t in loaded }
}
