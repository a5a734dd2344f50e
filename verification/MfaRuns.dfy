/**
 Second-factor runs. Time-based and recovery codes are proved one-time under any
 interleaving: what a call read of the factor row before acting is unconstrained.
 The state of the factor is followed with each service call as one step, and
 then with outdated reads of rows that were once stored.
 */
module MfaRuns {
  import opened Basics
  import opened MfaState

  // ---- time-based codes under any interleaving ----

  datatype Accepted = Accepted(secret: Secret, counter: int)

  /** `accepted` lists every code accepted so far, `issued` every secret ever
      handed out. Sealing is randomised, so no sealed text is issued twice. */
  datatype Totp = Totp(rows: Rows, accepted: seq<Accepted>, issued: set<Secret>)

  datatype TotpEvent =
    | Begin(seen: Option<Factor>, secret: Secret, now: int)
    | Confirm(seen: Option<Factor>, counter: int, verifiers: set<Verifier>, now: int)
    | Acknowledge(now: int)
    | Verify(seen: Option<Factor>, counter: int)
    | Consume(verifier: Verifier, now: int)
    | Rotate(seen: Option<Factor>, verifiers: set<Verifier>, now: int)
    | Disable

  function After(rows: Rows, e: TotpEvent): Rows {
    match e
    case Begin(seen, secret, now) => Begun(rows, seen, secret, now)
    case Confirm(seen, counter, verifiers, now) => Confirmed(rows, seen, counter, verifiers, now)
    case Acknowledge(now) => Acknowledged(rows, now)
    case Verify(seen, counter) => Verified(rows, seen, counter)
    case Consume(verifier, now) => Consumed(rows, verifier, now)
    case Rotate(seen, verifiers, now) => Rotated(rows, seen, verifiers, now)
    case Disable => Disabled(rows)
  }

  function TotpApply(s: Totp, e: TotpEvent): Totp {
    if e.Begin? && (e.secret == "" || e.secret in s.issued) then s
    else Totp(
      After(s.rows, e),
      if e.Confirm? && Confirms(s.rows, e.seen, e.counter, e.now) then s.accepted + [Accepted(e.seen.value.pendingSecret, e.counter)]
      else if e.Verify? && Verifies(s.rows, e.seen, e.counter) then s.accepted + [Accepted(e.seen.value.activeSecret, e.counter)]
      else s.accepted,
      if e.Begin? then s.issued + {e.secret} else s.issued)
  }

  ghost function TotpRun(s: Totp, es: seq<TotpEvent>): Totp
    decreases |es|
  {
    if es == [] then s else TotpApply(TotpRun(s, es[..|es| - 1]), es[|es| - 1])
  }

  /** What has been accepted is behind the row: not beyond the counter of the
      active secret, and for the pending secret only the code that confirmed it. */
  ghost predicate Behind(a: Accepted, rows: Rows) {
    rows.factor.Some? ==>
      var f := rows.factor.value;
      && (a.secret == f.activeSecret ==> a.counter <= f.lastCounter)
      && (a.secret == f.pendingSecret ==> a.counter == f.pendingCounter && !f.state.AwaitsCode())
  }

  ghost predicate KnownSecrets(s: Totp) {
    && (forall i :: 0 <= i < |s.accepted| ==> s.accepted[i].secret != "" && s.accepted[i].secret in s.issued)
    && (s.rows.factor.Some? ==>
          var f := s.rows.factor.value;
          && (f.activeSecret == "" || f.activeSecret in s.issued)
          && (f.pendingSecret == "" || (f.pendingSecret in s.issued && f.pendingSecret != f.activeSecret)))
  }

  /** For each secret the accepted counters strictly increase. */
  ghost predicate Increasing(accepted: seq<Accepted>) {
    forall i, j :: 0 <= i < j < |accepted| && accepted[i].secret == accepted[j].secret ==>
      accepted[i].counter < accepted[j].counter
  }

  ghost predicate TotpSafe(s: Totp) {
    && KnownSecrets(s)
    && (forall i :: 0 <= i < |s.accepted| ==> Behind(s.accepted[i], s.rows))
    && Increasing(s.accepted)
  }

  lemma TotpStep(s: Totp, e: TotpEvent)
    requires TotpSafe(s)
    ensures TotpSafe(TotpApply(s, e))
  {
  }

  /** No time-based code is accepted twice: in every run, whatever row each call
      read before acting, the counters accepted for a secret strictly increase.
      The code that confirmed an enrollment counts as its first. */
  lemma {:induction false} TotpOneTime(s: Totp, es: seq<TotpEvent>)
    requires KnownSecrets(s) && s.accepted == []
    ensures TotpSafe(TotpRun(s, es)) && Increasing(TotpRun(s, es).accepted)
    decreases |es|
  {
    if es != [] {
      TotpOneTime(s, es[..|es| - 1]);
      TotpStep(TotpRun(s, es[..|es| - 1]), es[|es| - 1]);
    }
  }

  // ---- recovery codes under any interleaving ----

  /** `issued` are the codes ever drawn, `spent` those accepted, in order. */
  datatype Spending = Spending(rows: Rows, issued: set<Verifier>, spent: seq<Verifier>)

  /** Codes are random and so never drawn again, and the clock does not read 0,
      which marks a code as unused. */
  function SpendApply(s: Spending, e: TotpEvent): Spending {
    if ((e.Confirm? || e.Rotate?) && !(e.verifiers !! s.issued)) || (e.Consume? && e.now == 0) then s
    else Spending(
      After(s.rows, e),
      if e.Confirm? || e.Rotate? then s.issued + e.verifiers else s.issued,
      if e.Consume? && Consumes(s.rows, e.verifier) then s.spent + [e.verifier] else s.spent)
  }

  ghost function SpendRun(s: Spending, es: seq<TotpEvent>): Spending
    decreases |es|
  {
    if es == [] then s else SpendApply(SpendRun(s, es[..|es| - 1]), es[|es| - 1])
  }

  /** Every stored code was drawn once. */
  ghost predicate Drawn(s: Spending) {
    && (forall k :: k in s.rows.codes ==> k.verifier in s.issued)
    && (forall k, l :: k in s.rows.codes && l in s.rows.codes && k.verifier == l.verifier ==> k == l)
  }

  /** A spent code is marked used wherever it is stored, and was spent once. */
  ghost predicate Spent(s: Spending) {
    && (forall i :: 0 <= i < |s.spent| ==> s.spent[i] in s.issued)
    && (forall i, k :: 0 <= i < |s.spent| && k in s.rows.codes && k.verifier == s.spent[i] ==> s.rows.codes[k] != 0)
    && (forall i, j :: 0 <= i < j < |s.spent| ==> s.spent[i] != s.spent[j])
  }

  lemma DrawnStep(s: Spending, e: TotpEvent)
    requires Drawn(s)
    ensures Drawn(SpendApply(s, e))
  {
  }

  lemma SpentOnceStep(s: Spending, e: TotpEvent)
    requires Drawn(s) && Spent(s)
    ensures Spent(SpendApply(s, e))
  {
  }

  /** No recovery code is accepted twice: in every run, whatever row each call
      read before acting. */
  lemma {:induction false} RecoveryAtMostOnce(s: Spending, es: seq<TotpEvent>)
    requires Drawn(s) && s.spent == []
    ensures Drawn(SpendRun(s, es)) && Spent(SpendRun(s, es))
    decreases |es|
  {
    if es != [] {
      RecoveryAtMostOnce(s, es[..|es| - 1]);
      DrawnStep(SpendRun(s, es[..|es| - 1]), es[|es| - 1]);
      SpentOnceStep(SpendRun(s, es[..|es| - 1]), es[|es| - 1]);
    }
  }

  // ---- one service call at a time ----

  /** `issued`, `acknowledged` and `spent` record history: the codes shown, the
      codes whose set was acknowledged, and the codes that were accepted. */
  datatype Recovery = Recovery(rows: Rows, issued: set<Verifier>, acknowledged: set<Verifier>, spent: seq<Verifier>)

  datatype Call =
    | BeginEnrollment(secret: Secret, now: int)
    | ConfirmEnrollment(counter: int, verifiers: set<Verifier>, now: int)
    | AcknowledgeCodes(now: int)
    | VerifyTotp(counter: int)
    | ConsumeCode(verifier: Verifier, now: int)
    | RotateCodes(verifiers: set<Verifier>, now: int)
    | DisableFactor

  /** Secrets are not empty, codes are random and so never drawn again, and the
      clock does not read 0, which marks a code as unused. */
  predicate Proper(s: Recovery, c: Call) {
    match c
    case BeginEnrollment(secret, _) => secret != ""
    case ConfirmEnrollment(_, verifiers, _) => verifiers !! s.issued
    case RotateCodes(verifiers, _) => verifiers !! s.issued
    case ConsumeCode(_, now) => now != 0
    case _ => true
  }

  function RowsAfter(rows: Rows, c: Call): Rows {
    match c
    case BeginEnrollment(secret, now) => Begun(rows, rows.factor, secret, now)
    case ConfirmEnrollment(counter, verifiers, now) => Confirmed(rows, rows.factor, counter, verifiers, now)
    case AcknowledgeCodes(now) => Acknowledged(rows, now)
    case VerifyTotp(counter) => Verified(rows, rows.factor, counter)
    case ConsumeCode(verifier, now) => Consumed(rows, verifier, now)
    case RotateCodes(verifiers, now) => Rotated(rows, rows.factor, verifiers, now)
    case DisableFactor => Disabled(rows)
  }

  function CallApply(s: Recovery, c: Call): Recovery {
    if !Proper(s, c) then s
    else Recovery(
      RowsAfter(s.rows, c),
      if c.ConfirmEnrollment? || c.RotateCodes? then s.issued + c.verifiers else s.issued,
      if c.AcknowledgeCodes? && Acknowledges(s.rows, c.now)
      then s.acknowledged + (set k | k in s.rows.codes && k.generation == s.rows.factor.value.pendingGeneration :: k.verifier)
      else s.acknowledged,
      if c.ConsumeCode? && Consumes(s.rows, c.verifier) then s.spent + [c.verifier] else s.spent)
  }

  ghost function CallRun(s: Recovery, cs: seq<Call>): Recovery
    decreases |cs|
  {
    if cs == [] then s else CallApply(CallRun(s, cs[..|cs| - 1]), cs[|cs| - 1])
  }

  /** An active state means a stored secret and the other way round. The pending
      generation is none or the next one, and code rows belong to one of the two. */
  ghost predicate Consistent(rows: Rows) {
    if rows.factor.None? then rows.codes == map[]
    else
      var f := rows.factor.value;
      && (f.state.IsActive() <==> f.activeSecret != "")
      && (f.state.IsActive() ==> f.generation > 0)
      && (f.pendingGeneration == 0 || f.pendingGeneration == f.generation + 1)
      && (f.state.AwaitsCode() ==> f.pendingGeneration == 0)
      && (f.state.PendingAck? || f.state.ActiveRotationAck? ==> f.pendingSecret != "")
      && (forall k :: k in rows.codes ==> k.generation > 0 && (k.generation == f.generation || k.generation == f.pendingGeneration))
  }

  ghost predicate CodesTracked(s: Recovery) {
    && (forall k :: k in s.rows.codes ==> k.verifier in s.issued)
    && (forall k, l :: k in s.rows.codes && l in s.rows.codes && k.verifier == l.verifier ==> k == l)
    && (s.rows.factor.Some? ==> forall k :: k in s.rows.codes && k.generation == s.rows.factor.value.generation ==>
          k.verifier in s.acknowledged)
  }

  ghost predicate SpentOnce(s: Recovery) {
    && (forall i :: 0 <= i < |s.spent| ==> s.spent[i] in s.issued && s.spent[i] in s.acknowledged)
    && (forall i, k :: 0 <= i < |s.spent| && k in s.rows.codes && k.verifier == s.spent[i] ==> s.rows.codes[k] != 0)
    && (forall i, j :: 0 <= i < j < |s.spent| ==> s.spent[i] != s.spent[j])
  }

  lemma ConsistentStep(rows: Rows, c: Call)
    requires Consistent(rows) && (c.BeginEnrollment? ==> c.secret != "")
    ensures Consistent(RowsAfter(rows, c))
  {
  }

  lemma TrackedStep(s: Recovery, c: Call)
    requires Consistent(s.rows) && CodesTracked(s)
    ensures CodesTracked(CallApply(s, c))
  {
  }

  lemma SpentStep(s: Recovery, c: Call)
    requires Consistent(s.rows) && CodesTracked(s) && SpentOnce(s)
    ensures SpentOnce(CallApply(s, c))
  {
  }

  /** After every sequence of calls the factor is consistent, and every recovery
      code was accepted at most once and only from an acknowledged set. */
  lemma {:induction false} RecoveryOneTime(s: Recovery, cs: seq<Call>)
    requires Consistent(s.rows) && CodesTracked(s) && s.spent == []
    ensures Consistent(CallRun(s, cs).rows) && CodesTracked(CallRun(s, cs)) && SpentOnce(CallRun(s, cs))
    decreases |cs|
  {
    if cs != [] {
      var t, c := CallRun(s, cs[..|cs| - 1]), cs[|cs| - 1];
      RecoveryOneTime(s, cs[..|cs| - 1]);
      TrackedStep(t, c);
      SpentStep(t, c);
      if Proper(t, c) {
        ConsistentStep(t.rows, c);
      }
    }
  }

  /** A used code is refused from then on, unless it was used at clock 0. */
  lemma ConsumedAgainIff(rows: Rows, verifier: Verifier, now: int)
    requires Consumes(rows, verifier)
    ensures Consumes(Consumed(rows, verifier, now), verifier) <==> now == 0
  {
  }

  // ---- an unfinished rotation ----

  ghost function RowsRun(rows: Rows, cs: seq<Call>): Rows
    decreases |cs|
  {
    if cs == [] then rows else RowsAfter(RowsRun(rows, cs[..|cs| - 1]), cs[|cs| - 1])
  }

  /** Steps of a rotation that has not been acknowledged. */
  predicate Unfinished(c: Call) {
    (c.BeginEnrollment? && c.secret != "") || c.ConfirmEnrollment? || c.RotateCodes?
  }

  /** The parts of the rows that verifying and recovering look at. */
  ghost predicate SameInUse(a: Rows, b: Rows) {
    && a.factor.Some? && b.factor.Some?
    && a.factor.value.state.IsActive() && b.factor.value.state.IsActive()
    && a.factor.value.activeSecret == b.factor.value.activeSecret
    && a.factor.value.lastCounter == b.factor.value.lastCounter
    && a.factor.value.generation == b.factor.value.generation
    && OnlyGeneration(a.codes, a.factor.value.generation) == OnlyGeneration(b.codes, b.factor.value.generation)
  }

  lemma UnfinishedStep(rows: Rows, c: Call)
    requires Consistent(rows) && rows.factor.Some? && rows.factor.value.state.IsActive() && Unfinished(c)
    ensures SameInUse(rows, RowsAfter(rows, c))
  {
    var f := rows.factor.value;
    match c
    case BeginEnrollment(_, _) =>
      OtherGenerationKept(rows.codes, f.generation, f.pendingGeneration, {});
    case ConfirmEnrollment(_, verifiers, _) =>
      OtherGenerationKept(rows.codes, f.generation, NextGeneration(f), verifiers);
    case RotateCodes(verifiers, _) =>
      OtherGenerationKept(rows.codes, f.generation, f.generation + 1, verifiers);
    case _ =>
  }

  lemma OtherGenerationKept(codes: Codes, g: nat, other: nat, verifiers: set<Verifier>)
    requires g != other
    ensures OnlyGeneration(WithoutGeneration(codes, other) + NewCodes(other, verifiers), g) == OnlyGeneration(codes, g)
    ensures OnlyGeneration(WithoutGeneration(codes, other), g) == OnlyGeneration(codes, g)
  {
  }

  /** However far an unacknowledged rotation gets, the old secret and the old
      codes keep working exactly as before. */
  lemma {:induction false} UnfinishedRotationHarmless(rows: Rows, cs: seq<Call>, counter: int, verifier: Verifier)
    requires Consistent(rows) && rows.factor.Some? && rows.factor.value.state.IsActive()
    requires forall i :: 0 <= i < |cs| ==> Unfinished(cs[i])
    ensures var after := RowsRun(rows, cs);
      && Consistent(after) && SameInUse(rows, after)
      && (Verifies(after, after.factor, counter) <==> Verifies(rows, rows.factor, counter))
      && (Consumes(after, verifier) <==> Consumes(rows, verifier))
    decreases |cs|
  {
    if cs != [] {
      var before, c := RowsRun(rows, cs[..|cs| - 1]), cs[|cs| - 1];
      UnfinishedRotationHarmless(rows, cs[..|cs| - 1], counter, verifier);
      ConsistentStep(before, c);
      UnfinishedStep(before, c);
    }
    var after := RowsRun(rows, cs);
    var k := Code(rows.factor.value.generation, verifier);
    assert k in rows.codes <==> k in OnlyGeneration(rows.codes, k.generation);
    assert k in after.codes <==> k in OnlyGeneration(after.codes, k.generation);
  }

  // ---- when a stale read does harm ----

  predicate HasSecret(f: Option<Factor>) { f.Some? && f.value.activeSecret != "" }

  /** The read still tells whether there is an active secret and, if codes of a
      pending set are stored, which generation they belong to. */
  ghost predicate BeginFits(rows: Rows, seen: Option<Factor>) {
    && (HasSecret(seen) <==> HasSecret(rows.factor))
    && (rows.factor.Some? && (exists k :: k in rows.codes && k.generation == rows.factor.value.pendingGeneration) ==>
          seen.Some? && seen.value.pendingGeneration == rows.factor.value.pendingGeneration)
  }

  /** Beginning an enrollment on a stale read keeps the rows consistent exactly
      when the read fits. */
  lemma StaleBeginIff(rows: Rows, seen: Option<Factor>, secret: Secret, now: int)
    requires Consistent(rows)
    ensures Consistent(Begun(rows, seen, secret, now)) <==> BeginFits(rows, seen)
  {
    var after := Begun(rows, seen, secret, now);
    if rows.factor.Some? {
      var f := rows.factor.value;
      if k :| k in rows.codes && k.generation == f.pendingGeneration {
        assert k in after.codes <==> !(seen.Some? && seen.value.pendingGeneration == k.generation);
      }
    }
  }

  /** Beginning an enrollment on a stale read leaves the secret and codes in use
      alone exactly when the read had a secret and its pending codes have not
      become the codes in use. */
  lemma StaleBeginKeepsUseIff(rows: Rows, seen: Option<Factor>, secret: Secret, now: int)
    requires Consistent(rows) && rows.factor.Some? && rows.factor.value.state.IsActive()
    ensures SameInUse(rows, Begun(rows, seen, secret, now)) <==>
      HasSecret(seen) && !(seen.value.pendingGeneration == rows.factor.value.generation && HasCodes(rows))
  {
    var g := rows.factor.value.generation;
    if seen.Some? && seen.value.pendingGeneration != g {
      OtherGenerationKept(rows.codes, g, seen.value.pendingGeneration, {});
    } else if seen.Some? {
      assert OnlyGeneration(Begun(rows, seen, secret, now).codes, g) == map[];
      if k :| k in rows.codes && k.generation == g {
        assert k in OnlyGeneration(rows.codes, g);
      }
    }
  }

  /** Codes of the generation in use are stored. */
  ghost predicate HasCodes(rows: Rows) {
    rows.factor.Some? && exists k :: k in rows.codes && k.generation == rows.factor.value.generation
  }

  // ---- reads of rows once stored ----

  /** The rows, every factor row that was ever stored, and the secrets ever
      issued. */
  datatype Reads = Reads(rows: Rows, stored: set<Factor>, issued: set<Secret>)

  predicate SeenBefore(s: Reads, e: TotpEvent) {
    (e.Begin? || e.Confirm? || e.Verify? || e.Rotate?) && e.seen.Some? ==> e.seen.value in s.stored
  }

  function ReadsApply(s: Reads, e: TotpEvent): Reads {
    if !Happens(s, e) then s
    else
      var rows := After(s.rows, e);
      Reads(rows, if rows.factor.Some? then s.stored + {rows.factor.value} else s.stored,
            if e.Begin? then s.issued + {e.secret} else s.issued)
  }

  predicate Happens(s: Reads, e: TotpEvent) {
    SeenBefore(s, e) && (e.Begin? ==> e.secret != "" && e.secret !in s.issued)
  }

  ghost function ReadsRun(s: Reads, es: seq<TotpEvent>): Reads
    decreases |es|
  {
    if es == [] then s else ReadsApply(ReadsRun(s, es[..|es| - 1]), es[|es| - 1])
  }

  /** Codes have a generation only with a secret to go with them. */
  predicate Backed(f: Factor) {
    && (f.generation > 0 ==> f.activeSecret != "")
    && (f.state.Active? || f.state.ActiveRecoveryAck? ==> f.generation > 0)
    && (f.state.PendingAck? || f.state.ActiveRotationAck? ==> f.pendingSecret != "")
  }

  ghost predicate AllBacked(s: Reads) {
    (forall f :: f in s.stored ==> Backed(f)) && (s.rows.factor.Some? ==> s.rows.factor.value in s.stored)
  }

  lemma BackedStep(s: Reads, e: TotpEvent)
    requires AllBacked(s)
    ensures AllBacked(ReadsApply(s, e))
  {
  }

  lemma {:induction false} RunBacked(s: Reads, es: seq<TotpEvent>)
    requires AllBacked(s)
    ensures AllBacked(ReadsRun(s, es))
    decreases |es|
  {
    if es != [] {
      RunBacked(s, es[..|es| - 1]);
      BackedStep(ReadsRun(s, es[..|es| - 1]), es[|es| - 1]);
    }
  }

  /** However outdated the row a rotation of the codes acts on, in every run it
      finds an active secret, keeps consistent rows consistent, and leaves the
      secret and codes in use alone. */
  lemma StaleRotateHarmless(s: Reads, es: seq<TotpEvent>, seen: Factor, verifiers: set<Verifier>, now: int)
    requires AllBacked(s) && seen in ReadsRun(s, es).stored && Rotates(ReadsRun(s, es).rows, Some(seen))
    ensures var rows := ReadsRun(s, es).rows;
      var after := Rotated(rows, Some(seen), verifiers, now);
      && HasSecret(rows.factor)
      && (Consistent(rows) ==> Consistent(after) && SameInUse(rows, after))
  {
    RunBacked(s, es);
    var rows := ReadsRun(s, es).rows;
    OtherGenerationKept(rows.codes, seen.generation, seen.generation + 1, verifiers);
  }

  /** Among the rows once stored, those that await a code for the secret the
      current row awaits one for are like it in all that a confirmation uses. */
  ghost predicate Alike(s: Reads) {
    && (forall f :: f in s.stored ==> f.pendingSecret == "" || f.pendingSecret in s.issued)
    && (s.rows.factor.Some? && s.rows.factor.value.state.AwaitsCode() ==>
          forall f :: f in s.stored && f.state.AwaitsCode() && f.pendingSecret == s.rows.factor.value.pendingSecret ==>
            SamePlan(f, s.rows.factor.value))
  }

  predicate SamePlan(f: Factor, g: Factor) {
    f.generation == g.generation && f.pendingGeneration == g.pendingGeneration && f.activeSecret == g.activeSecret
  }

  lemma AlikeStep(s: Reads, e: TotpEvent)
    requires AllBacked(s) && Alike(s)
    ensures Alike(ReadsApply(s, e))
  {
  }

  /** A confirmation on an outdated row does what it would do on the current one. */
  lemma StaleConfirmIsCurrent(s: Reads, e: TotpEvent)
    requires Alike(s) && e.Confirm? && SeenBefore(s, e) && Confirms(s.rows, e.seen, e.counter, e.now)
    ensures After(s.rows, e) == Confirmed(s.rows, s.rows.factor, e.counter, e.verifiers, e.now)
  {
    assert SamePlan(e.seen.value, s.rows.factor.value);
  }

  lemma RotateKeeps(rows: Rows, seen: Factor, verifiers: set<Verifier>, now: int)
    requires Consistent(rows) && rows.factor.Some? && Backed(rows.factor.value) && Backed(seen) && Rotates(rows, Some(seen))
    ensures Consistent(Rotated(rows, Some(seen), verifiers, now))
  {
  }

  /** From consistent rows a step of any call, on any row once stored, leads to
      inconsistent ones exactly when it begins an enrollment on a read that does
      not fit. */
  lemma StepConsistentIff(s: Reads, e: TotpEvent)
    requires AllBacked(s) && Alike(s) && Consistent(s.rows)
    ensures Consistent(ReadsApply(s, e).rows) <==> !(e.Begin? && Happens(s, e) && !BeginFits(s.rows, e.seen))
  {
    match e
    case Begin(seen, secret, now) => StaleBeginIff(s.rows, seen, secret, now);
    case Confirm(seen, counter, verifiers, now) =>
      if Happens(s, e) && Confirms(s.rows, seen, counter, now) {
        StaleConfirmIsCurrent(s, e);
        ConsistentStep(s.rows, ConfirmEnrollment(counter, verifiers, now));
      }
    case Acknowledge(now) => ConsistentStep(s.rows, AcknowledgeCodes(now));
    case Verify(_, _) =>
    case Consume(verifier, now) => ConsistentStep(s.rows, ConsumeCode(verifier, now));
    case Rotate(seen, verifiers, now) =>
      if Happens(s, e) && Rotates(s.rows, seen) {
        RotateKeeps(s.rows, seen.value, verifiers, now);
      }
    case Disable => ConsistentStep(s.rows, DisableFactor);
  }

  lemma {:induction false} RunAlike(s: Reads, es: seq<TotpEvent>)
    requires AllBacked(s) && Alike(s)
    ensures AllBacked(ReadsRun(s, es)) && Alike(ReadsRun(s, es))
    decreases |es|
  {
    if es != [] {
      RunAlike(s, es[..|es| - 1]);
      BackedStep(ReadsRun(s, es[..|es| - 1]), es[|es| - 1]);
      AlikeStep(ReadsRun(s, es[..|es| - 1]), es[|es| - 1]);
    }
  }

  /** Step `k` begins an enrollment on a read that does not fit any more. */
  ghost predicate Misfits(s: Reads, es: seq<TotpEvent>, k: nat) {
    k < |es| && es[k].Begin? && Happens(ReadsRun(s, es[..k]), es[k]) && !BeginFits(ReadsRun(s, es[..k]).rows, es[k].seen)
  }

  ghost predicate ConsistentAt(s: Reads, es: seq<TotpEvent>, k: nat)
    requires k <= |es|
  {
    Consistent(ReadsRun(s, es[..k]).rows)
  }

  lemma ConsistentNext(s: Reads, es: seq<TotpEvent>, k: nat)
    requires AllBacked(s) && Alike(s) && k < |es| && ConsistentAt(s, es, k)
    ensures ConsistentAt(s, es, k + 1) <==> !Misfits(s, es, k)
  {
    assert es[..k + 1][..k] == es[..k];
    RunAlike(s, es[..k]);
    StepConsistentIff(ReadsRun(s, es[..k]), es[k]);
  }

  lemma {:induction false} ConsistentUpTo(s: Reads, es: seq<TotpEvent>, k: nat)
    requires AllBacked(s) && Alike(s) && Consistent(s.rows) && k <= |es| && forall j: nat :: j < k ==> !Misfits(s, es, j)
    ensures ConsistentAt(s, es, k)
  {
    if k > 0 {
      ConsistentUpTo(s, es, k - 1);
      ConsistentNext(s, es, k - 1);
    }
  }

  /** However the reads and transactions of all calls interleave, the factor stays
      consistent all along exactly when no enrollment begins on a read that does
      not fit any more. */
  lemma InterleavedConsistentIff(s: Reads, es: seq<TotpEvent>)
    requires AllBacked(s) && Alike(s) && Consistent(s.rows)
    ensures (forall k: nat :: k <= |es| ==> ConsistentAt(s, es, k)) <==> (forall k: nat :: k < |es| ==> !Misfits(s, es, k))
  {
    if forall k: nat :: k < |es| ==> !Misfits(s, es, k) {
      forall k: nat | k <= |es| ensures ConsistentAt(s, es, k) {
        ConsistentUpTo(s, es, k);
      }
    } else {
      var k: nat :| k < |es| && Misfits(s, es, k);
      if ConsistentAt(s, es, k) {
        ConsistentNext(s, es, k);
      }
    }
  }

  // ---- begins on outdated reads ----

  lemma RunTwo(s: Reads, e: TotpEvent, f: TotpEvent)
    ensures ReadsRun(s, [e, f]) == ReadsApply(ReadsApply(s, e), f)
  {
    assert [e, f][..1] == [e] && [e][..0] == [];
    assert ReadsRun(s, [e]) == ReadsApply(ReadsRun(s, []), e);
  }

  /** A second factor is asked for at login. */
  predicate Enabled(rows: Rows) { rows.factor.Some? && rows.factor.value.state.IsActive() }

  /** From all consistent rows, beginning and confirming reach a state that waits
      for the acknowledgement, the first enrollment or a rotation. */
  lemma EnrollingReachesAcknowledgement(s: Reads, secret: Secret, counter: int, verifiers: set<Verifier>, now: int)
    requires AllBacked(s) && Consistent(s.rows) && secret != "" && secret !in s.issued && counter >= 0
    ensures var begun := Begun(s.rows, s.rows.factor, secret, now);
      var t := ReadsRun(s, [Begin(s.rows.factor, secret, now), Confirm(begun.factor, counter, verifiers, now)]);
      && AllBacked(t) && Consistent(t.rows) && Acknowledges(t.rows, now)
      && t.rows.factor.value.state == if HasSecret(s.rows.factor) then ActiveRotationAck else PendingAck
  {
    var begun := Begun(s.rows, s.rows.factor, secret, now);
    var begin, confirm := Begin(s.rows.factor, secret, now), Confirm(begun.factor, counter, verifiers, now);
    RunTwo(s, begin, confirm);
    RunBacked(s, [begin, confirm]);
    ConsistentStep(s.rows, BeginEnrollment(secret, now));
    ConsistentStep(begun, ConfirmEnrollment(counter, verifiers, now));
  }

  /** Read, acknowledge, begin: the codes just acknowledged are gone, though the
      rows look consistent. */
  lemma BeginAfterAcknowledgeDropsCodes(s: Reads, now: int, secret: Secret, verifier: Verifier)
    requires AllBacked(s) && Consistent(s.rows) && Acknowledges(s.rows, now) && secret != "" && secret !in s.issued
    requires s.rows.factor.value.state.ActiveRotationAck? || s.rows.factor.value.state.ActiveRecoveryAck?
    ensures var after := ReadsRun(s, [Acknowledge(now), Begin(s.rows.factor, secret, now)]).rows;
      Consistent(after) && Enabled(after) && !Consumes(after, verifier)
    ensures var k := Code(s.rows.factor.value.pendingGeneration, verifier);
      k in s.rows.codes && s.rows.codes[k] == 0 ==> Consumes(Acknowledged(s.rows, now), verifier)
  {
    RunTwo(s, Acknowledge(now), Begin(s.rows.factor, secret, now));
  }

  /** Read, acknowledge the first enrollment, begin: the second factor is no
      longer asked for. */
  lemma BeginAfterFirstAcknowledgeTurnsOff(s: Reads, now: int, secret: Secret)
    requires AllBacked(s) && Consistent(s.rows) && Acknowledges(s.rows, now) && secret != "" && secret !in s.issued
    requires s.rows.factor.value.state.PendingAck?
    ensures var after := ReadsRun(s, [Acknowledge(now), Begin(s.rows.factor, secret, now)]).rows;
      Enabled(Acknowledged(s.rows, now)) && !Enabled(after) && !Consistent(after)
  {
    RunTwo(s, Acknowledge(now), Begin(s.rows.factor, secret, now));
  }

  /** Read, disable, begin: a second factor is asked for that no code meets. */
  lemma BeginAfterDisableLocksOut(s: Reads, now: int, secret: Secret, counter: int, verifier: Verifier)
    requires AllBacked(s) && HasSecret(s.rows.factor) && secret != "" && secret !in s.issued
    ensures var after := ReadsRun(s, [Disable, Begin(s.rows.factor, secret, now)]).rows;
      && Enabled(after) && !Consistent(after)
      && !Verifies(after, after.factor, counter) && !Consumes(after, verifier)
  {
    RunTwo(s, Disable, Begin(s.rows.factor, secret, now));
  }
}
