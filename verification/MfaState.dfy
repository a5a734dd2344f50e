/**
 One administrator's second factor: the factor row, the recovery-code rows and
 the MFA generation. Calls that read the factor before their transaction take
 what they read as `seen`; it need not be the current row any more.
 */
module MfaState {
  import opened Basics

  const PENDING_TTL := 600

  datatype State = Pending | PendingAck | Active | ActivePendingRotation | ActiveRotationAck | ActiveRecoveryAck
  {
    predicate IsActive() { Active? || ActivePendingRotation? || ActiveRotationAck? || ActiveRecoveryAck? }

    predicate AwaitsCode() { Pending? || ActivePendingRotation? }

    predicate AwaitsAck() { PendingAck? || ActiveRotationAck? || ActiveRecoveryAck? }
  }

  /** Secrets are sealed texts; the empty text is no secret. */
  type Secret = string
  type Verifier = string

  datatype Factor = Factor(
    state: State,
    pendingSecret: Secret,
    pendingExpiresAt: int,
    pendingCounter: int,
    pendingGeneration: nat,
    activeSecret: Secret,
    lastCounter: int,
    generation: nat,
    acknowledged: bool)

  datatype Code = Code(generation: nat, verifier: Verifier)

  /** Each code row maps to the time it was used, 0 for never. */
  type Codes = map<Code, int>

  datatype Rows = Rows(factor: Option<Factor>, codes: Codes, mfaGeneration: nat)

  function WithoutGeneration(codes: Codes, generation: nat): Codes {
    codes - (set k | k in codes && k.generation == generation)
  }

  function OnlyGeneration(codes: Codes, generation: nat): Codes {
    codes - (set k | k in codes && k.generation != generation)
  }

  function NewCodes(generation: nat, verifiers: set<Verifier>): (r: Codes)
    ensures forall k :: k in r <==> k.generation == generation && k.verifier in verifiers
  {
    var keys := set v | v in verifiers :: Code(generation, v);
    map k | k in keys :: 0
  }

  // ---- enrollment ----

  function Begun(rows: Rows, seen: Option<Factor>, secret: Secret, now: int): Rows {
    var state := if seen.Some? && seen.value.activeSecret != "" then ActivePendingRotation else Pending;
    rows.(
      codes := if seen.Some? && seen.value.pendingGeneration > 0
               then WithoutGeneration(rows.codes, seen.value.pendingGeneration) else rows.codes,
      factor := Some(
        if rows.factor.None? then Factor(state, secret, now + PENDING_TTL, -1, 0, "", -1, 0, false)
        else rows.factor.value.(state := state, pendingSecret := secret, pendingExpiresAt := now + PENDING_TTL,
                                pendingCounter := -1, pendingGeneration := 0)))
  }

  /** The checks made on the row that was read; `counter` is the time step the
      code matched, at least 0. */
  predicate ConfirmReady(seen: Factor, counter: int, now: int) {
    seen.pendingSecret != "" && seen.pendingExpiresAt > now && seen.state.AwaitsCode() && counter >= 0
  }

  /** The conditions of the update itself. */
  predicate ConfirmMatches(rows: Rows, seen: Factor, now: int) {
    && rows.factor.Some? && rows.factor.value.state == seen.state
    && rows.factor.value.pendingSecret == seen.pendingSecret && rows.factor.value.pendingExpiresAt > now
  }

  function NextGeneration(seen: Factor): nat {
    if seen.pendingGeneration >= seen.generation + 1 then seen.pendingGeneration + 1 else seen.generation + 1
  }

  predicate Confirms(rows: Rows, seen: Option<Factor>, counter: int, now: int) {
    seen.Some? && ConfirmReady(seen.value, counter, now) && ConfirmMatches(rows, seen.value, now)
  }

  function Confirmed(rows: Rows, seen: Option<Factor>, counter: int, verifiers: set<Verifier>, now: int): Rows {
    if !Confirms(rows, seen, counter, now) then rows
    else
      var generation := NextGeneration(seen.value);
      var state := if seen.value.activeSecret != "" then ActiveRotationAck else PendingAck;
      rows.(
        factor := Some(rows.factor.value.(state := state, pendingCounter := counter, pendingGeneration := generation,
                                          acknowledged := false)),
        codes := WithoutGeneration(rows.codes, generation) + NewCodes(generation, verifiers))
  }

  predicate Acknowledges(rows: Rows, now: int) {
    && rows.factor.Some? && rows.factor.value.state.AwaitsAck()
    && rows.factor.value.pendingGeneration > 0 && rows.factor.value.pendingExpiresAt > now
  }

  function Acknowledged(rows: Rows, now: int): Rows {
    if !Acknowledges(rows, now) then rows
    else
      var f := rows.factor.value;
      var moved := f.(state := Active, generation := f.pendingGeneration, pendingGeneration := 0, acknowledged := true,
                      pendingExpiresAt := 0);
      Rows(
        Some(if f.state.ActiveRecoveryAck? then moved
             else moved.(activeSecret := f.pendingSecret, pendingSecret := "", lastCounter := f.pendingCounter, pendingCounter := -1)),
        OnlyGeneration(rows.codes, f.pendingGeneration),
        rows.mfaGeneration + 1)
  }

  // ---- use ----

  predicate Verifies(rows: Rows, seen: Option<Factor>, counter: int) {
    && seen.Some? && seen.value.state.IsActive() && seen.value.activeSecret != ""
    && counter >= 0 && counter > seen.value.lastCounter
    && rows.factor.Some? && rows.factor.value.activeSecret == seen.value.activeSecret
    && rows.factor.value.state.IsActive() && rows.factor.value.lastCounter < counter
  }

  function Verified(rows: Rows, seen: Option<Factor>, counter: int): Rows {
    if Verifies(rows, seen, counter) then rows.(factor := Some(rows.factor.value.(lastCounter := counter))) else rows
  }

  predicate Consumes(rows: Rows, verifier: Verifier) {
    && rows.factor.Some? && rows.factor.value.state.IsActive()
    && Code(rows.factor.value.generation, verifier) in rows.codes
    && rows.codes[Code(rows.factor.value.generation, verifier)] == 0
  }

  function Consumed(rows: Rows, verifier: Verifier, now: int): Rows {
    if Consumes(rows, verifier) then rows.(codes := rows.codes[Code(rows.factor.value.generation, verifier) := now]) else rows
  }

  predicate Rotates(rows: Rows, seen: Option<Factor>) {
    seen.Some? && seen.value.state.Active? && rows.factor.Some? && rows.factor.value.generation == seen.value.generation
  }

  function Rotated(rows: Rows, seen: Option<Factor>, verifiers: set<Verifier>, now: int): Rows {
    if !Rotates(rows, seen) then rows
    else
      var generation := seen.value.generation + 1;
      rows.(
        factor := Some(rows.factor.value.(state := ActiveRecoveryAck, pendingGeneration := generation,
                                          pendingExpiresAt := now + PENDING_TTL, acknowledged := false)),
        codes := WithoutGeneration(rows.codes, generation) + NewCodes(generation, verifiers))
  }

  function Disabled(rows: Rows): Rows {
    Rows(None, map[], rows.mfaGeneration + 1)
  }
}
