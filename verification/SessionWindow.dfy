/**
 Lifetimes of a login session: the durations chosen at login, the check made on
 each request, and the sliding idle window that a request moves on.
 */
module SessionWindow {
  import opened Basics

  /** Clock readings and durations are in nanoseconds, stored times in seconds. */
  const SECOND := 1_000_000_000
  const MINUTE := 60 * SECOND
  const DEFAULT_IDLE := 30 * MINUTE
  const DEFAULT_ABSOLUTE := 12 * 60 * MINUTE
  const REMEMBERED := 7 * 24 * 60 * MINUTE
  const PASSWORD_RESET_TTL := 15 * MINUTE
  const MFA_PREAUTH_TTL := 10 * MINUTE
  const LAST_SEEN_DEBOUNCE := 60
  const DEFAULT_IDLE_SECONDS := 30 * 60

  datatype Posture = BoundedV1 | LegacyExplicit | LegacyUnbounded

  datatype AuthState = Authenticated | PasswordReset | MfaPending | MfaRecovery

  datatype Login = Login(posture: Posture, authState: AuthState, remembered: bool, legacyMaxAge: int)

  /** The idle and absolute durations a login gets; 0 is unlimited. */
  function Durations(l: Login): (int, int) {
    var idle, absolute :=
      if l.posture.LegacyUnbounded? then 0
      else if l.posture.LegacyExplicit? && l.legacyMaxAge > 0 then l.legacyMaxAge else DEFAULT_IDLE,
      if l.remembered then REMEMBERED
      else if l.posture.LegacyUnbounded? then 0
      else if l.posture.LegacyExplicit? && l.legacyMaxAge > 0 then l.legacyMaxAge else DEFAULT_ABSOLUTE;
    match l.authState
    case Authenticated => (idle, absolute)
    case PasswordReset => (PASSWORD_RESET_TTL, PASSWORD_RESET_TTL)
    case _ => (MFA_PREAUTH_TTL, MFA_PREAUTH_TTL)
  }

  /** The same choice as the login code makes it, one override after another. */
  method ChooseDurations(l: Login) returns (idle: int, absolute: int)
    ensures (idle, absolute) == Durations(l)
  {
    idle, absolute := DEFAULT_IDLE, DEFAULT_ABSOLUTE;
    if l.posture.LegacyUnbounded? {
      idle, absolute := 0, 0;
    } else if l.posture.LegacyExplicit? && l.legacyMaxAge > 0 {
      idle, absolute := l.legacyMaxAge, l.legacyMaxAge;
    }
    if l.remembered {
      absolute := REMEMBERED;
    }
    match l.authState {
      case PasswordReset =>
        idle, absolute := PASSWORD_RESET_TTL, PASSWORD_RESET_TTL;
      case MfaPending =>
        idle, absolute := MFA_PREAUTH_TTL, MFA_PREAUTH_TTL;
      case MfaRecovery =>
        idle, absolute := MFA_PREAUTH_TTL, MFA_PREAUTH_TTL;
      case Authenticated =>
    }
  }

  function Unix(nanos: int): int { nanos / SECOND }

  datatype Stamp = Stamp(lastSeen: int, idleExpires: int)

  datatype Row = Row(stamp: Stamp, absolute: int, remembered: int, revokedAt: int)

  function Created(l: Login, now: int): Row {
    var (idle, absolute) := Durations(l);
    Row(Stamp(Unix(now), if idle > 0 then Unix(now + idle) else 0),
        if absolute > 0 then Unix(now + absolute) else 0,
        if l.remembered then Unix(now + REMEMBERED) else 0,
        0)
  }

  predicate Live(row: Row, now: int) {
    && row.revokedAt <= 0
    && (row.stamp.idleExpires > 0 ==> now < row.stamp.idleExpires)
    && (row.absolute > 0 ==> now < row.absolute)
    && (row.remembered > 0 ==> now < row.remembered)
  }

  /** The stamp a request at `now` would leave, from the row it read. */
  function Next(seen: Row, now: int): Stamp {
    if seen.stamp.idleExpires <= 0 then Stamp(now, 0)
    else
      var window := seen.stamp.idleExpires - seen.stamp.lastSeen;
      var next := now + if window <= 0 then DEFAULT_IDLE_SECONDS else window;
      Stamp(now, if seen.absolute > 0 && next > seen.absolute then seen.absolute else next)
  }

  predicate Moves(seen: Row, now: int) {
    Live(seen, now) && now - seen.stamp.lastSeen >= LAST_SEEN_DEBOUNCE
  }

  /** The conditional update after a read of the row. */
  predicate Wins(row: Row, seen: Row, now: int) {
    Moves(seen, now) && row.stamp.lastSeen == seen.stamp.lastSeen && row.revokedAt == 0
  }

  function Touched(row: Row, seen: Row, now: int): Row {
    if Wins(row, seen, now) then row.(stamp := Next(seen, now)) else row
  }

  /** Whom a session speaks for, under which generations. */
  datatype Claim = Claim(user: nat, credential: nat, mfa: nat)

  /** The session's claim is the one stored with it, and the user's row, where 0
      reads as 1, still has its generations. */
  predicate Matches(claim: Claim, stored: Claim, credential: nat, mfa: nat) {
    && stored == claim
    && (if credential == 0 then 1 else credential) == claim.credential
    && (if mfa == 0 then 1 else mfa) == claim.mfa
  }

  predicate Valid(claim: Claim, stored: Claim, revoked: bool, credential: nat, mfa: nat, seen: Row, now: int) {
    !revoked && Matches(claim, stored, credential, mfa) && Live(seen, now)
  }

  class SecuritySession {
    var row: Row

    /** Decides on the rows that were read and moves the session's window on;
        `revoked` is the state column. */
    method ValidateAndTouch(claim: Claim, stored: Claim, revoked: bool, credential: nat, mfa: nat, seen: Row, now: int)
      returns (valid: bool)
      modifies this
      ensures valid == Valid(claim, stored, revoked, credential, mfa, seen, now)
      ensures row == if valid then Touched(old(row), seen, now) else old(row)
    {
      if revoked || stored.user != claim.user || stored.credential != claim.credential || stored.mfa != claim.mfa {
        return false;
      }
      if (if credential == 0 then 1 else credential) != claim.credential || (if mfa == 0 then 1 else mfa) != claim.mfa {
        return false;
      }
      if seen.revokedAt > 0 || (seen.stamp.idleExpires > 0 && seen.stamp.idleExpires <= now) ||
         (seen.absolute > 0 && seen.absolute <= now) || (seen.remembered > 0 && seen.remembered <= now)
      {
        return false;
      }
      if now - seen.stamp.lastSeen < LAST_SEEN_DEBOUNCE {
        return true;
      }
      var nextIdle := 0;
      if seen.stamp.idleExpires > 0 {
        var idleWindow := seen.stamp.idleExpires - seen.stamp.lastSeen;
        if idleWindow <= 0 {
          idleWindow := DEFAULT_IDLE_SECONDS;
        }
        nextIdle := now + idleWindow;
        if seen.absolute > 0 && nextIdle > seen.absolute {
          nextIdle := seen.absolute;
        }
      }
      if row.stamp.lastSeen == seen.stamp.lastSeen && row.revokedAt == 0 {
        row := row.(stamp := Stamp(now, nextIdle));
      }
      return true;
    }

    /** Saving session values writes their stamp and lifts a revocation. */
    method Save(stamp: Stamp)
      modifies this
      ensures row == old(row).(stamp := stamp, revokedAt := 0)
    {
      row := row.(stamp := stamp, revokedAt := 0);
    }
  }

  // ---- runs ----

  /** A session row with the reads requests have made of it and the stamps kept
      in saved session values. */
  datatype System = System(row: Row, views: set<Row>, saved: set<Stamp>)

  datatype Event =
    | Read
    | Touch(seen: Row, now: int)
    | Save(stamp: Stamp)
    | Revoke(now: int)

  function Apply(s: System, e: Event): System {
    match e
    case Read => s.(views := s.views + {s.row})
    case Touch(seen, now) =>
      if seen !in s.views then s
      else s.(row := Touched(s.row, seen, now), saved := if Wins(s.row, seen, now) then s.saved + {Next(seen, now)} else s.saved)
    case Save(stamp) => if stamp in s.saved then s.(row := s.row.(stamp := stamp, revokedAt := 0)) else s
    case Revoke(now) => if s.row.revokedAt == 0 then s.(row := s.row.(revokedAt := now)) else s
  }

  ghost function Run(s: System, es: seq<Event>): System
    decreases |es|
  {
    if es == [] then s else Apply(Run(s, es[..|es| - 1]), es[|es| - 1])
  }

  function Opened(row: Row): System { System(row, {}, {row.stamp}) }

  /** The window set at login slides from the last request, cut off at the
      absolute expiry; a session created without an idle window keeps none. */
  predicate ClosedForm(stamp: Stamp, login: Row) {
    var window := login.stamp.idleExpires - login.stamp.lastSeen;
    stamp.idleExpires ==
      if login.stamp.idleExpires <= 0 then login.stamp.idleExpires
      else if login.absolute > 0 then Min(stamp.lastSeen + window, login.absolute)
      else stamp.lastSeen + window
  }

  /** A stamp is the one of the login, or a later one in closed form that lies
      before the absolute expiry. */
  predicate Sound(stamp: Stamp, login: Row) {
    || stamp == login.stamp
    || (stamp.lastSeen >= login.stamp.lastSeen + LAST_SEEN_DEBOUNCE && ClosedForm(stamp, login) &&
        (login.absolute > 0 ==> stamp.lastSeen < login.absolute))
  }

  ghost predicate AllSound(s: System, login: Row) {
    && Sound(s.row.stamp, login) && s.row.absolute == login.absolute && s.row.remembered == login.remembered
    && (forall r :: r in s.views ==> Sound(r.stamp, login) && r.absolute == login.absolute && r.remembered == login.remembered)
    && (forall t :: t in s.saved ==> Sound(t, login))
  }

  lemma NextSound(seen: Row, now: int, login: Row)
    requires Sound(seen.stamp, login) && seen.absolute == login.absolute && Moves(seen, now)
    requires login.stamp.idleExpires >= 0
    ensures Sound(Next(seen, now), login) && ClosedForm(Next(seen, now), login)
  {
  }

  lemma {:induction false} RunSound(login: Row, es: seq<Event>)
    requires login.stamp.idleExpires >= 0
    ensures AllSound(Run(Opened(login), es), login)
    decreases |es|
  {
    if es != [] {
      RunSound(login, es[..|es| - 1]);
      var t, e := Run(Opened(login), es[..|es| - 1]), es[|es| - 1];
      if e.Touch? && e.seen in t.views && Moves(e.seen, e.now) {
        NextSound(e.seen, e.now, login);
      }
    }
  }

  /** In every run, with requests reading and updating concurrently, saves of
      earlier session values and revocations, the stored idle expiry has the
      closed form, if it has it at login. */
  lemma IdleExpiryClosedForm(login: Row, es: seq<Event>)
    requires login.stamp.idleExpires >= 0 && ClosedForm(login.stamp, login)
    ensures ClosedForm(Run(Opened(login), es).row.stamp, login)
  {
    RunSound(login, es);
  }

  /** At login the closed form holds exactly when the idle expiry does not lie
      beyond the absolute one. */
  lemma ClosedAtLoginIff(login: Row)
    ensures ClosedForm(login.stamp, login) <==>
      (login.stamp.idleExpires > 0 && login.absolute > 0 ==> login.stamp.idleExpires <= login.absolute)
  {
  }

  lemma UnixMonotone(a: int, b: int)
    requires a <= b
    ensures Unix(a) <= Unix(b)
  {
  }

  /** A login starts in closed form, unless it is remembered, fully authenticated
      and under an explicit legacy age that ends, in seconds, after seven days. */
  lemma LoginStartsClosedIff(l: Login, now: int)
    requires now >= 0
    ensures Created(l, now).stamp.idleExpires >= 0
    ensures ClosedForm(Created(l, now).stamp, Created(l, now)) <==>
      !(l.authState.Authenticated? && l.remembered && l.posture.LegacyExplicit? && l.legacyMaxAge > 0 &&
        Unix(now + l.legacyMaxAge) > Unix(now + REMEMBERED))
  {
    var (idle, absolute) := Durations(l);
    if idle > 0 && absolute > 0 && idle <= absolute {
      UnixMonotone(now + idle, now + absolute);
    }
    ClosedAtLoginIff(Created(l, now));
  }

  /** Such a login starts with an idle expiry past the absolute one whenever the
      age is longer than seven days by a second or more. */
  lemma LongLegacyLoginStartsOpen(l: Login, now: int)
    requires now >= 0 && l.authState.Authenticated? && l.remembered && l.posture.LegacyExplicit?
    requires l.legacyMaxAge >= REMEMBERED + SECOND
    ensures !ClosedForm(Created(l, now).stamp, Created(l, now))
  {
    LoginStartsClosedIff(l, now);
    UnixMonotone(now + REMEMBERED + SECOND, now + l.legacyMaxAge);
    assert Unix(now + REMEMBERED + SECOND) == Unix(now + REMEMBERED) + 1;
  }

  /** The fallback for an empty window is never taken: a live row whose stamp a
      request may move has a positive window. */
  lemma WindowIsPositive(seen: Row, now: int)
    requires Moves(seen, now) && seen.stamp.idleExpires > 0
    ensures seen.stamp.idleExpires - seen.stamp.lastSeen > LAST_SEEN_DEBOUNCE
  {
  }

  predicate Clamped(stamp: Stamp, login: Row) { stamp.idleExpires == login.absolute }

  /** From a clamped row a step leaves the clamp exactly when it saves session
      values kept from before the clamp. */
  lemma StepKeepsClampIff(s: System, e: Event, login: Row)
    requires AllSound(s, login) && login.absolute > 0 && login.stamp.idleExpires >= 0 && Clamped(s.row.stamp, login)
    ensures Clamped(Apply(s, e).row.stamp, login) <==> !(e.Save? && e.stamp in s.saved && !Clamped(e.stamp, login))
  {
  }

  /** Step `k` of `after` saves values kept from before the clamp. */
  ghost predicate SavesBack(login: Row, before: seq<Event>, after: seq<Event>, k: nat) {
    && k < |after| && after[k].Save? && after[k].stamp in Run(Opened(login), before + after[..k]).saved
    && !Clamped(after[k].stamp, login)
  }

  ghost predicate ClampedAt(login: Row, before: seq<Event>, after: seq<Event>, k: nat)
    requires k <= |after|
  {
    Clamped(Run(Opened(login), before + after[..k]).row.stamp, login)
  }

  lemma ClampedNext(login: Row, before: seq<Event>, after: seq<Event>, k: nat)
    requires login.stamp.idleExpires >= 0 && login.absolute > 0 && k < |after| && ClampedAt(login, before, after, k)
    ensures ClampedAt(login, before, after, k + 1) <==> !SavesBack(login, before, after, k)
  {
    var es := before + after[..k];
    RunSound(login, es);
    assert (before + after[..k + 1])[..|es|] == es;
    assert Run(Opened(login), before + after[..k + 1]) == Apply(Run(Opened(login), es), after[k]);
    StepKeepsClampIff(Run(Opened(login), es), after[k], login);
  }

  /** As long as nothing saves back, the clamp stands. */
  lemma {:induction false} ClampStands(login: Row, before: seq<Event>, after: seq<Event>, k: nat)
    requires login.stamp.idleExpires >= 0 && login.absolute > 0 && k <= |after| && ClampedAt(login, before, after, 0)
    requires forall j: nat :: j < k ==> !SavesBack(login, before, after, j)
    ensures ClampedAt(login, before, after, k)
  {
    if k > 0 {
      ClampStands(login, before, after, k - 1);
      ClampedNext(login, before, after, k - 1);
    }
  }

  /** Once clamped to the absolute expiry the idle expiry stays there, through all
      reads, touches, saves and revocations that follow, exactly when none of them
      saves session values kept from before the clamp. */
  lemma ClampIsPermanentIff(login: Row, before: seq<Event>, after: seq<Event>)
    requires login.stamp.idleExpires >= 0 && login.absolute > 0 && ClampedAt(login, before, after, 0)
    ensures (forall k: nat :: k <= |after| ==> ClampedAt(login, before, after, k)) <==>
      (forall k: nat :: k < |after| ==> !SavesBack(login, before, after, k))
  {
    if forall k: nat :: k < |after| ==> !SavesBack(login, before, after, k) {
      forall k: nat | k <= |after| ensures ClampedAt(login, before, after, k) {
        ClampStands(login, before, after, k);
      }
    } else {
      var k: nat :| k < |after| && SavesBack(login, before, after, k);
      if ClampedAt(login, before, after, k) {
        ClampedNext(login, before, after, k);
      }
    }
  }

  /** A request loads its session, another one clamps the row, and the first saves
      what it loaded: the clamp is gone and the last request forgotten. */
  lemma SaveUndoesClamp()
    ensures var login := Row(Stamp(0, 100), 160, 0, 0);
      var es := [Read, Touch(login, 80), Save(login.stamp)];
      Clamped(Run(Opened(login), es[..2]).row.stamp, login) && Run(Opened(login), es).row.stamp == login.stamp
  {
    var login := Row(Stamp(0, 100), 160, 0, 0);
    var es := [Read, Touch(login, 80), Save(login.stamp)];
    assert es[..2][..1] == [Read] && [Read][..0] == [];
    assert Run(Opened(login), [Read]) == Apply(Opened(login), Read);
  }

  // ---- revocation ----

  predicate Revoked(row: Row) { row.revokedAt > 0 }

  /** A step lifts a revocation exactly when it saves session values. */
  lemma StepKeepsRevokedIff(s: System, e: Event)
    requires Revoked(s.row)
    ensures Revoked(Apply(s, e).row) <==> !(e.Save? && e.stamp in s.saved)
    ensures forall now :: !Live(s.row, now)
  {
  }

  /** A revoked session stays revoked, and so is never live, in every run that
      saves no session values. */
  lemma {:induction false} RevokedStays(s: System, es: seq<Event>, now: int)
    requires Revoked(s.row) && forall k :: 0 <= k < |es| ==> !es[k].Save?
    ensures Revoked(Run(s, es).row) && !Live(Run(s, es).row, now)
    decreases |es|
  {
    if es != [] {
      RevokedStays(s, es[..|es| - 1], now);
      StepKeepsRevokedIff(Run(s, es[..|es| - 1]), es[|es| - 1]);
    }
  }

  lemma DeadAtAbsoluteExpiry(login: Row, es: seq<Event>, now: int)
    requires login.stamp.idleExpires >= 0 && 0 < login.absolute <= now
    ensures !Live(Run(Opened(login), es).row, now)
  {
    RunSound(login, es);
  }
}
