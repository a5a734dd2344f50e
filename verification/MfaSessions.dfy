/**
 The second factor and the sessions: which calls count the MFA generation up, and
 that these are the changes that end sessions.
 */
module MfaSessions {
  import opened Basics
  import opened MfaState
  import opened MfaRuns
  import Generations

  /** The call succeeds in acknowledging codes, or disables the factor. */
  predicate Counts(rows: Rows, e: TotpEvent) {
    || e.Disable?
    || (e.Acknowledge? && rows.factor.Some? && rows.factor.value.pendingGeneration > 0 && e.now < rows.factor.value.pendingExpiresAt
        && rows.factor.value.state in {PendingAck, ActiveRotationAck, ActiveRecoveryAck})
  }

  /** For all rows and every call, the MFA generation rises by one exactly then. */
  lemma GenerationStep(rows: Rows, e: TotpEvent)
    ensures After(rows, e).mfaGeneration == rows.mfaGeneration + if Counts(rows, e) then 1 else 0
  {
  }

  /** The changes of the user's row that a run of calls makes. */
  ghost function Changes(s: Reads, es: seq<TotpEvent>): seq<Generations.Event>
    decreases |es|
  {
    if es == [] then []
    else
      var shorter, e := es[..|es| - 1], es[|es| - 1];
      var u := ReadsRun(s, shorter);
      Changes(s, shorter) +
      if Happens(u, e) && Counts(u.rows, e)
      then [Generations.Change(if e.Disable? then Generations.DisableMfa else Generations.AcknowledgeMfa)]
      else []
  }

  /** In every run the generation is what it was plus one for each such call. */
  lemma {:induction false} RunGeneration(s: Reads, es: seq<TotpEvent>)
    ensures ReadsRun(s, es).rows.mfaGeneration == s.rows.mfaGeneration + |Changes(s, es)|
    ensures forall k :: 0 <= k < |Changes(s, es)| ==>
      Changes(s, es)[k] in {Generations.Change(Generations.DisableMfa), Generations.Change(Generations.AcknowledgeMfa)}
    decreases |es|
  {
    if es != [] {
      RunGeneration(s, es[..|es| - 1]);
      GenerationStep(ReadsRun(s, es[..|es| - 1]).rows, es[|es| - 1]);
    }
  }

  lemma {:induction false} MfaChanges(u: Generations.System, changes: seq<Generations.Event>)
    requires Generations.Roomy(u, |changes|)
    requires forall k :: 0 <= k < |changes| ==>
      changes[k] in {Generations.Change(Generations.DisableMfa), Generations.Change(Generations.AcknowledgeMfa)}
    ensures Generations.Run(u, changes).row == u.row.(mfa := u.row.mfa + |changes|)
    ensures changes != [] ==> Generations.Acted(u, changes)
    ensures Generations.CredentialHeld(u, changes)
    decreases |changes|
  {
    if changes != [] {
      MfaChanges(u, changes[..|changes| - 1]);
    }
  }

  /** A session minted before a run of calls that acknowledges codes or disables the
      factor at least once is not accepted after it: the row these calls leave is
      the one the changes of the generation lead to, and there it has ended. */
  lemma CallsEndSessions(s: Reads, es: seq<TotpEvent>, user: Generations.User)
    requires user.mfa == s.rows.mfaGeneration && Changes(s, es) != []
    requires Generations.Roomy(Generations.System(user, {}), |Changes(s, es)|)
    ensures ReadsRun(s, es).rows.mfaGeneration <= Generations.LAST
    ensures !Generations.Accepts(user.(mfa := ReadsRun(s, es).rows.mfaGeneration), Generations.Minted(user))
  {
    var changes := Changes(s, es);
    RunGeneration(s, es);
    MfaChanges(Generations.System(user, {}), changes);
    Generations.SessionsStayEnded(Generations.System(user, {}), changes);
  }

  // ---- deadlines ----

  /** An enrollment begun at `start` can be confirmed exactly within ten minutes. */
  lemma ConfirmWithinTenMinutes(rows: Rows, seen: Option<Factor>, secret: Secret, start: int, counter: int, now: int)
    requires secret != "" && counter >= 0
    ensures var begun := Begun(rows, seen, secret, start);
      Confirms(begun, begun.factor, counter, now) <==> now < start + 600
  {
  }

  /** Codes shown by a confirmation or a rotation can be acknowledged exactly until
      the ten minutes of the enrollment or of the rotation are over. */
  lemma AcknowledgeWithinTenMinutes(rows: Rows, seen: Option<Factor>, verifiers: set<Verifier>, start: int, now: int)
    requires Rotates(rows, seen)
    ensures Acknowledges(Rotated(rows, seen, verifiers, start), now) <==> now < start + 600
  {
  }

  lemma AcknowledgeAfterConfirm(rows: Rows, seen: Option<Factor>, counter: int, verifiers: set<Verifier>, at: int, now: int)
    requires Confirms(rows, seen, counter, at)
    ensures Acknowledges(Confirmed(rows, seen, counter, verifiers, at), now) <==> now < rows.factor.value.pendingExpiresAt
  {
  }

  // ---- the acknowledged mark ----

  /** Codes that wait for an acknowledgement are not marked as acknowledged. */
  predicate WaitingUnmarked(rows: Rows) {
    rows.factor.Some? && rows.factor.value.state.AwaitsAck() ==> !rows.factor.value.acknowledged
  }

  lemma MarkStep(rows: Rows, e: TotpEvent)
    requires WaitingUnmarked(rows)
    ensures WaitingUnmarked(After(rows, e))
    ensures e.Acknowledge? && Acknowledges(rows, e.now) ==> After(rows, e).factor.Some? && After(rows, e).factor.value.acknowledged
  {
  }

  lemma {:induction false} RunMarks(s: Reads, es: seq<TotpEvent>)
    requires WaitingUnmarked(s.rows)
    ensures WaitingUnmarked(ReadsRun(s, es).rows)
    decreases |es|
  {
    if es != [] {
      RunMarks(s, es[..|es| - 1]);
      MarkStep(ReadsRun(s, es[..|es| - 1]).rows, es[|es| - 1]);
    }
  }

  // ---- what each call accepts ----

  /** A time step is accepted exactly if the row read and the row found are active
      under one secret and the step is past the last one of both. */
  lemma CodeAcceptedIff(rows: Rows, seen: Factor, counter: int)
    ensures Verifies(rows, Some(seen), counter) <==>
      && counter >= 0 && rows.factor.Some?
      && seen.state !in {Pending, PendingAck} && rows.factor.value.state !in {Pending, PendingAck}
      && seen.activeSecret != "" && rows.factor.value.activeSecret == seen.activeSecret
      && counter > seen.lastCounter && counter > rows.factor.value.lastCounter
    ensures !Verifies(rows, None, counter)
  {
  }

  /** A recovery code is accepted exactly if the factor is active and the code is
      stored unused under its generation; then that code and no other is used. */
  lemma RecoveryAcceptedIff(rows: Rows, verifier: Verifier, now: int, k: Code)
    ensures Consumes(rows, verifier) <==>
      && rows.factor.Some? && rows.factor.value.state !in {Pending, PendingAck}
      && (exists c :: c in rows.codes && c == Code(rows.factor.value.generation, verifier) && rows.codes[c] == 0)
    ensures Consumes(rows, verifier) && k in rows.codes ==>
      k in Consumed(rows, verifier, now).codes &&
      Consumed(rows, verifier, now).codes[k] == if k == Code(rows.factor.value.generation, verifier) then now else rows.codes[k]
  {
  }

  /** A confirmation is accepted exactly on an unexpired pending secret that awaits
      a code in the row read and still does, under the same state, in the row found. */
  lemma ConfirmationAcceptedIff(rows: Rows, seen: Factor, counter: int, now: int)
    ensures Confirms(rows, Some(seen), counter, now) <==>
      && seen.pendingSecret != "" && seen.state in {Pending, ActivePendingRotation} && now < seen.pendingExpiresAt && counter >= 0
      && rows.factor.Some? && rows.factor.value.state == seen.state && rows.factor.value.pendingSecret == seen.pendingSecret
      && now < rows.factor.value.pendingExpiresAt
    ensures !Confirms(rows, None, counter, now)
  {
  }

  /** New codes get the generation after all that the row knows. */
  lemma NextGenerationIsNew(f: Factor)
    ensures NextGeneration(f) == Max(f.generation, f.pendingGeneration) + 1
  {
  }

  /** Beginning deletes the codes that waited for an acknowledgement and no others. */
  lemma BeginDeletes(rows: Rows, seen: Option<Factor>, secret: Secret, now: int, k: Code)
    requires k in rows.codes
    ensures k in Begun(rows, seen, secret, now).codes <==>
      !(seen.Some? && seen.value.pendingGeneration > 0 && k.generation == seen.value.pendingGeneration)
    ensures k in Begun(rows, seen, secret, now).codes ==> Begun(rows, seen, secret, now).codes[k] == rows.codes[k]
  {
  }

  // ---- whole enrollments ----

  function Enrolled(rows: Rows, secret: Secret, counter: int, verifiers: set<Verifier>, now: int): Rows {
    var begun := Begun(rows, rows.factor, secret, now);
    Acknowledged(Confirmed(begun, begun.factor, counter, verifiers, now), now)
  }

  /** Begin, confirm and acknowledge from nothing: the secret is active, its
      confirming code used, its codes are the first generation and unused, nothing
      is pending, and the MFA generation is one higher. */
  lemma FirstEnrollment(mfa: nat, secret: Secret, counter: int, verifiers: set<Verifier>, now: int)
    requires secret != "" && counter >= 0
    ensures Enrolled(Rows(None, map[], mfa), secret, counter, verifiers, now) ==
      Rows(Some(Factor(Active, "", 0, -1, 0, secret, counter, 1, true)), NewCodes(1, verifiers), mfa + 1)
  {
    var rows := Rows(None, map[], mfa);
    var begun := Begun(rows, None, secret, now);
    assert begun.factor == Some(Factor(Pending, secret, now + 600, -1, 0, "", -1, 0, false));
    var confirmed := Confirmed(begun, begun.factor, counter, verifiers, now);
    assert confirmed.factor == Some(Factor(PendingAck, secret, now + 600, counter, 1, "", -1, 0, false));
    assert confirmed.codes == NewCodes(1, verifiers);
    assert OnlyGeneration(confirmed.codes, 1) == confirmed.codes;
  }

  /** From an active factor with nothing pending the same calls replace the secret,
      its counter and the codes, under the next generation. */
  lemma NextEnrollment(rows: Rows, secret: Secret, counter: int, verifiers: set<Verifier>, now: int)
    requires Consistent(rows) && rows.factor.Some? && rows.factor.value.state.Active? && rows.factor.value.pendingGeneration == 0
    requires secret != "" && counter >= 0
    ensures var g := rows.factor.value.generation + 1;
      Enrolled(rows, secret, counter, verifiers, now) ==
      Rows(Some(Factor(Active, "", 0, -1, 0, secret, counter, g, true)), NewCodes(g, verifiers), rows.mfaGeneration + 1)
  {
    var f := rows.factor.value;
    var begun := Begun(rows, rows.factor, secret, now);
    assert begun.codes == rows.codes;
    var confirmed := Confirmed(begun, begun.factor, counter, verifiers, now);
    assert confirmed.factor.value.pendingGeneration == f.generation + 1;
    assert OnlyGeneration(confirmed.codes, f.generation + 1) == NewCodes(f.generation + 1, verifiers);
  }

  /** Rotating the codes and acknowledging keeps the secret, its counter and what is
      pending for it, and replaces the codes under the next generation. */
  lemma CodesRotated(rows: Rows, verifiers: set<Verifier>, now: int)
    requires Consistent(rows) && rows.factor.Some? && rows.factor.value.state.Active?
    ensures var f := rows.factor.value;
      Acknowledged(Rotated(rows, rows.factor, verifiers, now), now) ==
      Rows(Some(Factor(Active, f.pendingSecret, 0, f.pendingCounter, 0, f.activeSecret, f.lastCounter, f.generation + 1, true)),
           NewCodes(f.generation + 1, verifiers), rows.mfaGeneration + 1)
  {
    var f := rows.factor.value;
    var rotated := Rotated(rows, rows.factor, verifiers, now);
    assert OnlyGeneration(rotated.codes, f.generation + 1) == NewCodes(f.generation + 1, verifiers);
  }

  /** New codes are unused. */
  lemma NewCodesUnused(generation: nat, verifiers: set<Verifier>, k: Code)
    ensures k in NewCodes(generation, verifiers) <==> k.generation == generation && k.verifier in verifiers
    ensures k in NewCodes(generation, verifiers) ==> NewCodes(generation, verifiers)[k] == 0
  {
  }
}
