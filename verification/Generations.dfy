/**
 The credential and MFA generations of an administrator row, and the check of a
 session against them. Generations are 64-bit and wrap around.
 */
module Generations {
  import opened Basics

  const LAST: nat := 0xFFFF_FFFF_FFFF_FFFF

  type Generation = g: nat | g <= LAST

  function Next(g: Generation): Generation { if g == LAST then 0 else g + 1 }

  /** A stored 0 reads as the first generation. */
  function Nonzero(g: Generation): Generation { if g == 0 then 1 else g }

  datatype User = User(credential: Generation, mfa: Generation, forceReset: bool)

  /** The changes made in one statement or transaction. */
  datatype Transition =
    | MigrateHash
    | ChangePassword
    | CompleteRecovery
    | ImportAccount(forceReset: bool)
    | AcknowledgeMfa
    | DisableMfa

  /** What the update of the first user makes of the row it read. It reads and
      saves outside any transaction, so the row may have changed since. */
  function UpdatedFirst(seen: User): User {
    User(Nonzero(Next(seen.credential)), Nonzero(seen.mfa), false)
  }

  function After(u: User, t: Transition): User {
    match t
    case MigrateHash => u.(credential := Next(u.credential))
    case ChangePassword => u.(credential := Next(Nonzero(u.credential)), forceReset := false)
    case CompleteRecovery =>
      User(Next(Nonzero(u.credential)), Next(Nonzero(u.mfa)), false)
    case ImportAccount(forceReset) => u.(credential := Next(Nonzero(u.credential)), forceReset := forceReset)
    case AcknowledgeMfa => u.(mfa := Next(u.mfa))
    case DisableMfa => u.(mfa := Next(u.mfa))
  }

  /** A forced password transition, a change after step-up, a recovery. */
  datatype Change = Password | StepUp | Recovery

  class UserRow {
    var credential: Generation
    var mfa: Generation
    var forceReset: bool
    var password: string

    function Contents(): User
      reads this
    {
      User(credential, mfa, forceReset)
    }

    /** Changes the row that was read, if there was one, and saves all of it. */
    method SaveFirstUser(seen: Option<User>, hash: string)
      modifies this
      ensures Contents() == if seen.Some? then UpdatedFirst(seen.value) else User(1, 1, false)
      ensures password == hash
    {
      password := hash;
      if seen.None? {
        credential, mfa, forceReset := 1, 1, false;
        return;
      }
      var user := seen.value;
      user := user.(forceReset := false, credential := Next(user.credential));
      if user.credential == 0 {
        user := user.(credential := 1);
      }
      if user.mfa == 0 {
        user := user.(mfa := 1);
      }
      credential, mfa, forceReset := user.credential, user.mfa, user.forceReset;
    }

    /** Upgrades a hash at login if the stored one is still the one verified. */
    method MigrateHash(seenPassword: string, hash: string)
      modifies this`credential, this`password
      ensures Contents() == if seenPassword == old(password) then After(old(Contents()), Transition.MigrateHash) else old(Contents())
      ensures password == if seenPassword == old(password) then hash else old(password)
    {
      if password == seenPassword {
        password, credential := hash, Next(credential);
      }
    }

    /** Replaces the credential if the name is free and what was read still holds:
        the credential generation, but for a step-up change the MFA one, and for
        a forced transition the stored hash. */
    method ChangeCredential(seen: User, seenPassword: string, hash: string, change: Change, nameTaken: bool) returns (ok: bool)
      modifies this
      ensures ok == (!nameTaken && seen.credential == old(credential) && (!change.StepUp? ==> seen.mfa == old(mfa)) &&
                     (change.Password? ==> seenPassword == old(password)))
      ensures Contents() ==
              if !ok then old(Contents())
              else After(old(Contents()), if change.Recovery? then CompleteRecovery else ChangePassword)
      ensures password == if ok then hash else old(password)
    {
      if nameTaken || credential != seen.credential || (!change.StepUp? && mfa != seen.mfa) {
        return false;
      }
      if change.Password? && password != seenPassword {
        return false;
      }
      credential := Next(Nonzero(seen.credential));
      if change.Recovery? {
        mfa := Next(Nonzero(seen.mfa));
      }
      forceReset, password := false, hash;
      return true;
    }

    method BumpMfa()
      modifies this`mfa
      ensures Contents() == After(old(Contents()), AcknowledgeMfa)
    {
      mfa := Next(mfa);
    }
  }

  // ---- sessions ----

  /** The generations a session carries; sessions from before they existed
      carry none. */
  datatype Session = Session(credential: Option<Generation>, mfa: Option<Generation>)

  predicate Accepts(u: User, s: Session) {
    && (s.credential.None? || s.mfa.None? ==> !u.forceReset && Nonzero(u.credential) == 1 && Nonzero(u.mfa) == 1)
    && (s.credential.Some? ==> s.credential.value == Nonzero(u.credential))
    && (s.mfa.Some? ==> s.mfa.value == Nonzero(u.mfa))
  }

  function Minted(u: User): Session { Session(Some(Nonzero(u.credential)), Some(Nonzero(u.mfa))) }

  predicate Legacy(s: Session) { s.credential.None? || s.mfa.None? }

  // ---- one change ----

  /** Which generations a change counts up. */
  predicate CountsCredential(t: Transition) { !t.AcknowledgeMfa? && !t.DisableMfa? }

  predicate CountsMfa(t: Transition) { t.CompleteRecovery? || t.AcknowledgeMfa? || t.DisableMfa? }

  /** A change ends the sessions minted just before it exactly when not every
      generation it counts up was stored as 0, which reads as 1. */
  lemma EndsSessionsIff(u: User, t: Transition)
    ensures Accepts(After(u, t), Minted(u)) <==>
      match t
      case MigrateHash => u.credential == 0
      case AcknowledgeMfa => u.mfa == 0
      case DisableMfa => u.mfa == 0
      case _ => false
  {
  }

  /** A generation goes back in a change exactly when one it counts up is at the
      end of the range. */
  lemma GoesBackIff(u: User, t: Transition)
    ensures After(u, t).credential < u.credential || After(u, t).mfa < u.mfa <==>
      (CountsCredential(t) && u.credential == LAST) || (CountsMfa(t) && u.mfa == LAST)
  {
  }

  /** Saving the first user ends the sessions of the current row exactly when the
      row it writes differs from it in a generation. */
  lemma SaveEndsSessionsIff(current: User, seen: User)
    ensures Accepts(UpdatedFirst(seen), Minted(current)) <==>
      Nonzero(Next(seen.credential)) == Nonzero(current.credential) && Nonzero(seen.mfa) == Nonzero(current.mfa)
  {
  }

  /** Saving the first user takes a generation back exactly when the row has
      moved on past what the save writes. */
  lemma StaleSaveGoesBackIff(current: User, seen: User)
    requires seen.credential < LAST
    ensures UpdatedFirst(seen).credential < current.credential || UpdatedFirst(seen).mfa < current.mfa <==>
      current.credential > seen.credential + 1 || current.mfa > Nonzero(seen.mfa)
  {
  }

  // ---- changes in a row ----

  ghost function Changed(u: User, ts: seq<Transition>): User
    decreases |ts|
  {
    if ts == [] then u else After(Changed(u, ts[..|ts| - 1]), ts[|ts| - 1])
  }

  function CredentialCount(ts: seq<Transition>): nat {
    if ts == [] then 0 else CredentialCount(ts[..|ts| - 1]) + if CountsCredential(ts[|ts| - 1]) then 1 else 0
  }

  function MfaCount(ts: seq<Transition>): nat {
    if ts == [] then 0 else MfaCount(ts[..|ts| - 1]) + if CountsMfa(ts[|ts| - 1]) then 1 else 0
  }

  /** Both generations are stored as they read. */
  predicate Proper(u: User) { u.credential > 0 && u.mfa > 0 }

  /** The changes do not reach the end of the range. */
  predicate InRange(u: User, ts: seq<Transition>) {
    u.credential + CredentialCount(ts) <= LAST && u.mfa + MfaCount(ts) <= LAST
  }

  lemma {:induction false} ChangedCounts(u: User, ts: seq<Transition>)
    requires Proper(u) && InRange(u, ts)
    ensures Changed(u, ts).credential == u.credential + CredentialCount(ts)
    ensures Changed(u, ts).mfa == u.mfa + MfaCount(ts)
    decreases |ts|
  {
    if ts != [] {
      ChangedCounts(u, ts[..|ts| - 1]);
    }
  }

  /** So many changes of the password and of the second factor. */
  function Changes(passwords: nat, factors: nat): (ts: seq<Transition>)
    ensures CredentialCount(ts) == passwords && MfaCount(ts) == factors
  {
    if passwords > 0 then
      var shorter := Changes(passwords - 1, factors);
      assert (shorter + [ChangePassword])[..|shorter|] == shorter;
      shorter + [ChangePassword]
    else if factors > 0 then
      var shorter := Changes(0, factors - 1);
      assert (shorter + [AcknowledgeMfa])[..|shorter|] == shorter;
      shorter + [AcknowledgeMfa]
    else []
  }

  ghost predicate Revives(u: User, ts: seq<Transition>, s: Session) {
    InRange(u, ts) && Accepts(Changed(u, ts), s)
  }

  /** After a save of the first user, further changes can make a session of the
      row it replaced valid again exactly when the credential had changed between
      the read and the save and the second factor had not gone back. */
  lemma SaveRevivesIff(current: User, seen: User)
    requires Proper(current) && Proper(seen) && seen.credential < LAST
    ensures (exists ts :: Revives(UpdatedFirst(seen), ts, Minted(current))) <==>
      seen.credential < current.credential && seen.mfa <= current.mfa
  {
    var u := UpdatedFirst(seen);
    if seen.credential < current.credential && seen.mfa <= current.mfa {
      var ts := Changes(current.credential - u.credential, current.mfa - u.mfa);
      ChangedCounts(u, ts);
      assert Revives(u, ts, Minted(current));
    }
    if ts :| Revives(u, ts, Minted(current)) {
      ChangedCounts(u, ts);
    }
  }

  // ---- runs ----

  /** The row, and the rows that updates of the first user have read. */
  datatype System = System(row: User, views: set<User>)

  datatype Event = Change(t: Transition) | Read | Save(seen: User)

  function Apply(s: System, e: Event): System {
    match e
    case Change(t) => s.(row := After(s.row, t))
    case Read => s.(views := s.views + {s.row})
    case Save(seen) => if seen in s.views then s.(row := UpdatedFirst(seen)) else s
  }

  ghost function Run(s: System, es: seq<Event>): System
    decreases |es|
  {
    if es == [] then s else Apply(Run(s, es[..|es| - 1]), es[|es| - 1])
  }

  predicate Saves(s: System, e: Event) { e.Save? && e.seen in s.views }

  predicate Acts(s: System, e: Event) { e.Change? || Saves(s, e) }

  /** Some step changes or saves the row. */
  ghost predicate Acted(s: System, es: seq<Event>)
    decreases |es|
  {
    es != [] && (Acted(s, es[..|es| - 1]) || Acts(Run(s, es[..|es| - 1]), es[|es| - 1]))
  }

  /** The row the last save wrote, or the first one, */
  ghost function Base(s: System, es: seq<Event>): User
    decreases |es|
  {
    if es == [] then s.row
    else if Saves(Run(s, es[..|es| - 1]), es[|es| - 1]) then UpdatedFirst(es[|es| - 1].seen)
    else Base(s, es[..|es| - 1])
  }

  /** and the changes since. */
  ghost function Since(s: System, es: seq<Event>): seq<Transition>
    decreases |es|
  {
    if es == [] then []
    else if Saves(Run(s, es[..|es| - 1]), es[|es| - 1]) then []
    else Since(s, es[..|es| - 1]) + if es[|es| - 1].Change? then [es[|es| - 1].t] else []
  }

  lemma {:induction false} RunIsChanged(s: System, es: seq<Event>)
    ensures Run(s, es).row == Changed(Base(s, es), Since(s, es))
    decreases |es|
  {
    if es != [] {
      var shorter, e := es[..|es| - 1], es[|es| - 1];
      RunIsChanged(s, shorter);
      if e.Change? {
        assert Since(s, es)[..|Since(s, es)| - 1] == Since(s, shorter);
      } else if !Saves(Run(s, shorter), e) {
        assert Since(s, es) == Since(s, shorter);
      }
    }
  }

  /** After every run, outdated saves included, a session minted on some earlier
      row validates exactly when its generations are those of the row last saved
      plus the changes counted since. */
  lemma EarlierSessionIff(s: System, es: seq<Event>, earlier: User)
    requires Proper(earlier) && Proper(Base(s, es)) && InRange(Base(s, es), Since(s, es))
    ensures Accepts(Run(s, es).row, Minted(earlier)) <==>
      && earlier.credential == Base(s, es).credential + CredentialCount(Since(s, es))
      && earlier.mfa == Base(s, es).mfa + MfaCount(Since(s, es))
  {
    RunIsChanged(s, es);
    ChangedCounts(Base(s, es), Since(s, es));
  }

  /** No row is within `n` counts of the end of the range. */
  ghost predicate Roomy(s: System, n: nat) {
    && Proper(s.row) && s.row.credential + n <= LAST && s.row.mfa + n <= LAST
    && (forall v :: v in s.views ==> Proper(v) && v.credential + n <= LAST && v.mfa + n <= LAST)
  }

  lemma {:induction false} RunRoomy(s: System, es: seq<Event>, n: nat)
    requires Roomy(s, |es| + n)
    ensures Roomy(Run(s, es), n)
    decreases |es|
  {
    if es != [] {
      RunRoomy(s, es[..|es| - 1], n + 1);
    }
  }

  /** Every save still finds the credential generation it read. */
  ghost predicate CredentialHeld(s: System, es: seq<Event>) {
    forall k :: 0 <= k < |es| && Saves(Run(s, es[..k]), es[k]) ==> es[k].seen.credential == Run(s, es[..k]).row.credential
  }

  predicate Later(u: User, v: User) {
    u.credential < v.credential || (u.credential == v.credential && u.mfa < v.mfa)
  }

  lemma StepGoesForward(s: System, e: Event)
    requires Roomy(s, 1) && (Saves(s, e) ==> e.seen.credential == s.row.credential)
    ensures if Acts(s, e) then Later(s.row, Apply(s, e).row) else Apply(s, e).row == s.row
  {
  }

  lemma {:induction false} RunGoesForward(s: System, es: seq<Event>)
    requires Roomy(s, |es|) && CredentialHeld(s, es)
    ensures if Acted(s, es) then Later(s.row, Run(s, es).row) else Run(s, es).row == s.row
    decreases |es|
  {
    if es != [] {
      var shorter := es[..|es| - 1];
      forall k | 0 <= k < |shorter| && Saves(Run(s, shorter[..k]), shorter[k])
        ensures shorter[k].seen.credential == Run(s, shorter[..k]).row.credential
      {
        assert shorter[..k] == es[..k];
      }
      RunGoesForward(s, shorter);
      RunRoomy(s, shorter, 1);
      StepGoesForward(Run(s, shorter), es[|es| - 1]);
    }
  }

  /** If no save of the first user finds its credential generation changed, a
      session minted before a change or a save never validates after it. */
  lemma SessionsStayEnded(s: System, es: seq<Event>)
    requires Roomy(s, |es|) && CredentialHeld(s, es) && Acted(s, es)
    ensures !Accepts(Run(s, es).row, Minted(s.row))
  {
    RunGoesForward(s, es);
    RunRoomy(s, es, 0);
  }

  lemma StepLeavesStart(s: System, e: Event)
    requires Roomy(s, 1) && (Acts(s, e) || s.row.credential + s.row.mfa > 2)
    ensures Apply(s, e).row.credential + Apply(s, e).row.mfa > 2
  {
  }

  lemma {:induction false} RunLeavesStart(s: System, es: seq<Event>)
    requires Roomy(s, |es|) && Acted(s, es)
    ensures Run(s, es).row.credential + Run(s, es).row.mfa > 2
    decreases |es|
  {
    var shorter := es[..|es| - 1];
    if Acted(s, shorter) {
      RunLeavesStart(s, shorter);
    }
    RunRoomy(s, shorter, 1);
    StepLeavesStart(Run(s, shorter), es[|es| - 1]);
  }

  /** A session that carries no generations is ended for good by the first change
      or save, outdated saves included. */
  lemma LegacyStaysEnded(s: System, es: seq<Event>, session: Session)
    requires Roomy(s, |es|) && Acted(s, es) && Legacy(session)
    ensures !Accepts(Run(s, es).row, session)
  {
    RunLeavesStart(s, es);
    RunRoomy(s, es, 0);
  }

  /** Every save still finds both generations it read. */
  ghost predicate BothHeld(s: System, es: seq<Event>) {
    CredentialHeld(s, es) &&
    forall k :: 0 <= k < |es| && Saves(Run(s, es[..k]), es[k]) ==> es[k].seen.mfa == Run(s, es[..k]).row.mfa
  }

  /** If every save finds both generations it read, neither ever goes back. */
  lemma {:induction false} RunRaises(s: System, es: seq<Event>)
    requires Roomy(s, |es|) && BothHeld(s, es)
    ensures s.row.credential <= Run(s, es).row.credential && s.row.mfa <= Run(s, es).row.mfa
    decreases |es|
  {
    if es != [] {
      var shorter := es[..|es| - 1];
      forall k | 0 <= k < |shorter| && Saves(Run(s, shorter[..k]), shorter[k])
        ensures shorter[k].seen.credential == Run(s, shorter[..k]).row.credential && shorter[k].seen.mfa == Run(s, shorter[..k]).row.mfa
      {
        assert shorter[..k] == es[..k];
      }
      RunRaises(s, shorter);
      RunRoomy(s, shorter, 1);
      StepRaises(Run(s, shorter), es[|es| - 1]);
    }
  }

  lemma StepRaises(s: System, e: Event)
    requires Roomy(s, 1) && (Saves(s, e) ==> e.seen.credential == s.row.credential && e.seen.mfa == s.row.mfa)
    ensures s.row.credential <= Apply(s, e).row.credential && s.row.mfa <= Apply(s, e).row.mfa
  {
  }

  // ---- outdated saves ----

  lemma RunFour(s: System, a: Event, b: Event, c: Event, d: Event)
    ensures Run(s, [a, b]) == Apply(Apply(s, a), b)
    ensures Run(s, [a, b, c]) == Apply(Apply(Apply(s, a), b), c)
    ensures Run(s, [a, b, c, d]) == Apply(Apply(Apply(Apply(s, a), b), c), d)
  {
    assert [a, b, c, d][..3] == [a, b, c] && [a, b, c][..2] == [a, b] && [a, b][..1] == [a] && [a][..0] == [];
    assert Run(s, [a]) == Apply(Run(s, []), a);
  }

  /** One change between the read and the save: the save raises nothing, and the
      sessions it should end go on. */
  lemma SaveAfterChangeEndsNothing(s: System)
    requires Proper(s.row) && s.row.credential + 2 <= LAST
    ensures var es := [Read, Change(ChangePassword), Save(s.row)];
      Accepts(Run(s, es).row, Minted(Run(s, es[..2]).row))
  {
    var es := [Read, Change(ChangePassword), Save(s.row)];
    assert es[..2] == [Read, Change(ChangePassword)];
    RunFour(s, Read, Change(ChangePassword), Save(s.row), Read);
  }

  /** Two changes between: a session that the second one ended is valid again. */
  lemma SaveAfterTwoChangesRevives(s: System)
    requires Proper(s.row) && s.row.credential + 2 <= LAST
    ensures var es := [Read, Change(ChangePassword), Change(ChangePassword), Save(s.row)];
      var session := Minted(Run(s, es[..2]).row);
      !Accepts(Run(s, es[..3]).row, session) && Accepts(Run(s, es).row, session)
  {
    var es := [Read, Change(ChangePassword), Change(ChangePassword), Save(s.row)];
    assert es[..2] == [Read, Change(ChangePassword)] && es[..3] == [Read, Change(ChangePassword), Change(ChangePassword)];
    RunFour(s, Read, Change(ChangePassword), Change(ChangePassword), Save(s.row));
  }

  // ---- forced resets ----

  /** The step gives the account a password. */
  predicate SetsPassword(s: System, e: Event) {
    Saves(s, e) || (e.Change? && (e.t.ChangePassword? || e.t.CompleteRecovery? || e.t.ImportAccount?))
  }

  ghost predicate NoPasswordSince(s: System, es: seq<Event>, k: nat) {
    forall j :: k <= j < |es| ==> !SetsPassword(Run(s, es[..j]), es[j])
  }

  /** Step `k` imports the account with a forced reset and no password is set after. */
  ghost predicate ForcedAt(s: System, es: seq<Event>, k: nat) {
    k < |es| && es[k] == Change(ImportAccount(true)) && NoPasswordSince(s, es, k + 1)
  }

  lemma NoPasswordShorter(s: System, es: seq<Event>, shorter: seq<Event>, k: nat)
    requires es != [] && shorter == es[..|es| - 1] && k < |es|
    ensures NoPasswordSince(s, es, k) <==> NoPasswordSince(s, shorter, k) && !SetsPassword(Run(s, shorter), es[|es| - 1])
  {
    assert forall j :: 0 <= j < |shorter| ==> shorter[..j] == es[..j];
  }

  lemma ForcedShorter(s: System, es: seq<Event>, shorter: seq<Event>)
    requires es != [] && shorter == es[..|es| - 1]
    ensures (exists k: nat :: ForcedAt(s, es, k)) <==>
      es[|es| - 1] == Change(ImportAccount(true)) ||
      (!SetsPassword(Run(s, shorter), es[|es| - 1]) && exists k: nat :: ForcedAt(s, shorter, k))
  {
    if es[|es| - 1] == Change(ImportAccount(true)) {
      assert ForcedAt(s, es, |es| - 1);
    } else {
      forall k: nat | k < |shorter|
        ensures ForcedAt(s, es, k) <==> ForcedAt(s, shorter, k) && !SetsPassword(Run(s, shorter), es[|es| - 1])
      {
        NoPasswordShorter(s, es, shorter, k + 1);
      }
      if k: nat :| ForcedAt(s, es, k) {
        assert ForcedAt(s, shorter, k);
      }
      if k: nat :| ForcedAt(s, shorter, k) && !SetsPassword(Run(s, shorter), es[|es| - 1]) {
        assert ForcedAt(s, es, k);
      }
    }
  }

  /** After every run a reset is forced exactly if the account was imported with
      one, or began with one, and has been given no password since. */
  lemma {:induction false} ResetForcedIff(s: System, es: seq<Event>)
    ensures Run(s, es).row.forceReset <==>
      (exists k: nat :: ForcedAt(s, es, k)) || (s.row.forceReset && NoPasswordSince(s, es, 0))
    decreases |es|
  {
    if es != [] {
      var shorter := es[..|es| - 1];
      ResetForcedIff(s, shorter);
      ForcedShorter(s, es, shorter);
      NoPasswordShorter(s, es, shorter, 0);
    }
  }

  /** A session without generations is accepted exactly by a row at the first
      generations that forces no reset. */
  lemma LegacyAcceptedIff(u: User)
    ensures Accepts(u, Session(None, None)) <==> u.credential <= 1 && u.mfa <= 1 && !u.forceReset
  {
  }
}
