/**
 The check a request makes of its session, against the generations of the user's
 row, and the lifetimes of a new session in seconds.
 */
module SessionCheck {
  import opened Basics
  import opened SessionWindow
  import Generations

  function SessionOf(claim: Claim): Generations.Session
    requires claim.credential <= Generations.LAST && claim.mfa <= Generations.LAST
  {
    Generations.Session(Some(claim.credential), Some(claim.mfa))
  }

  /** A request is accepted exactly if its claim is the one stored with the session,
      the user's row accepts the generations it carries, and the session is neither
      revoked nor past any of its three expiries. */
  lemma RequestAcceptedIff(claim: Claim, stored: Claim, revoked: bool, user: Generations.User, seen: Row, now: int)
    requires claim.credential <= Generations.LAST && claim.mfa <= Generations.LAST
    ensures Valid(claim, stored, revoked, user.credential, user.mfa, seen, now) <==>
      && stored == claim && Generations.Accepts(user, SessionOf(claim))
      && !revoked && seen.revokedAt <= 0
      && (seen.stamp.idleExpires <= 0 || now < seen.stamp.idleExpires)
      && (seen.absolute <= 0 || now < seen.absolute)
      && (seen.remembered <= 0 || now < seen.remembered)
  {
  }

  /** The claim of a session minted on a row. */
  function ClaimOf(user: nat, row: Generations.User): Claim {
    Claim(user, Generations.Nonzero(row.credential), Generations.Nonzero(row.mfa))
  }

  /** In every run of credential and factor changes in which no save of the first
      user finds its credential generation changed: a request of a session minted
      before a change is refused after it, whatever its stored row says. */
  lemma RefusedAfterChange(s: Generations.System, es: seq<Generations.Event>, user: nat, stored: Claim, revoked: bool, seen: Row, now: int)
    requires Generations.Roomy(s, |es|) && Generations.CredentialHeld(s, es) && Generations.Acted(s, es)
    ensures var row := Generations.Run(s, es).row;
      !Valid(ClaimOf(user, s.row), stored, revoked, row.credential, row.mfa, seen, now)
  {
    Generations.SessionsStayEnded(s, es);
    RequestAcceptedIff(ClaimOf(user, s.row), stored, revoked, Generations.Run(s, es).row, seen, now);
  }

  /** Without a change it is accepted as long as it is live. */
  lemma AcceptedWithoutChange(row: Generations.User, user: nat, seen: Row, now: int)
    ensures Valid(ClaimOf(user, row), ClaimOf(user, row), false, row.credential, row.mfa, seen, now) <==> Live(seen, now)
  {
  }

  // ---- lifetimes ----

  /** A new session under the default posture is live for 30 idle minutes; after a
      password reset for 15, while a second factor is awaited for 10. `start` is
      the second of the login. */
  lemma NewSessionLiveIff(authState: AuthState, remembered: bool, legacyMaxAge: int, start: int, t: int)
    requires start >= 0
    ensures Live(Created(Login(BoundedV1, authState, remembered, legacyMaxAge), start * 1_000_000_000), t) <==>
      t < start + match authState case Authenticated => 1800 case PasswordReset => 900 case _ => 600
  {
    var row := Created(Login(BoundedV1, authState, remembered, legacyMaxAge), start * 1_000_000_000);
    Seconds(start, 1800);
    Seconds(start, 900);
    Seconds(start, 600);
    Seconds(start, 43200);
    Seconds(start, 604800);
    assert row.stamp.lastSeen == start by {
      Seconds(start, 0);
    }
  }

  lemma Seconds(start: int, n: int)
    ensures Unix(start * 1_000_000_000 + n * 1_000_000_000) == start + n
  {
    assert start * 1_000_000_000 + n * 1_000_000_000 == (start + n) * 1_000_000_000;
  }

  /** Kept in use, a session ends for good 12 hours after a login, or 7 days after a
      remembered one. */
  lemma AbsoluteLifetime(remembered: bool, legacyMaxAge: int, start: int)
    requires start >= 0
    ensures Created(Login(BoundedV1, Authenticated, remembered, legacyMaxAge), start * 1_000_000_000).absolute ==
      start + if remembered then 604800 else 43200
  {
    Seconds(start, 43200);
    Seconds(start, 604800);
  }

  /** A live request moves the window exactly if the last one recorded is a minute
      ago or more and nobody was faster; then the session is live for its window
      again, or until its absolute expiry. */
  lemma TouchMovesIff(row: Row, now: int)
    requires Live(row, now) && row.revokedAt == 0 && row.stamp.idleExpires > 0
    ensures Touched(row, row, now).stamp ==
      if now < row.stamp.lastSeen + 60 then row.stamp
      else Stamp(now, if row.absolute > 0 then Min(now + (row.stamp.idleExpires - row.stamp.lastSeen), row.absolute)
                      else now + (row.stamp.idleExpires - row.stamp.lastSeen))
  {
  }

  /** An update by a faster request is not overwritten. */
  lemma SlowerTouchLoses(row: Row, seen: Row, now: int)
    requires row.stamp.lastSeen != seen.stamp.lastSeen || row.revokedAt != 0
    ensures Touched(row, seen, now) == row
  {
  }

  /** Under an explicit legacy age of so many seconds a session is idle for that
      long, and ends for good after it, or after 7 days if remembered; an age that
      is not positive counts as none. */
  lemma LegacySessionLiveIff(age: int, remembered: bool, start: int, t: int)
    requires start >= 0
    ensures var l := Login(LegacyExplicit, Authenticated, remembered, age * 1_000_000_000);
      Live(Created(l, start * 1_000_000_000), t) <==>
      t < start + (if age > 0 then if remembered && 604800 < age then 604800 else age else 1800)
  {
    Seconds(start, 0);
    Seconds(start, age);
    Seconds(start, 1800);
    Seconds(start, 43200);
    Seconds(start, 604800);
  }

  /** Without bounds a session lives on, for 7 days if remembered. */
  lemma UnboundedSessionLiveIff(remembered: bool, legacyMaxAge: int, start: int, t: int)
    requires start >= 0
    ensures Live(Created(Login(LegacyUnbounded, Authenticated, remembered, legacyMaxAge), start * 1_000_000_000), t) <==>
      (remembered ==> t < start + 604800)
  {
    Seconds(start, 604800);
  }
}
