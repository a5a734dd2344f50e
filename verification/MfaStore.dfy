/** The second-factor rows as an object; each method is one transaction. */
module MfaStore {
  import opened Basics
  import opened MfaState

  class Store {
    var factor: Option<Factor>
    var codes: Codes
    var mfaGeneration: nat

    function Contents(): Rows
      reads this
    {
      Rows(factor, codes, mfaGeneration)
    }

    method BeginEnrollment(seen: Option<Factor>, secret: Secret, now: int)
      modifies this`factor, this`codes
      ensures Contents() == Begun(old(Contents()), seen, secret, now)
    {
      var state := Pending;
      if seen.Some? && seen.value.activeSecret != "" {
        state := ActivePendingRotation;
      }
      if seen.Some? && seen.value.pendingGeneration > 0 {
        codes := WithoutGeneration(codes, seen.value.pendingGeneration);
      }
      var f := if factor.Some? then factor.value else Factor(state, "", 0, -1, 0, "", -1, 0, false);
      factor := Some(f.(state := state, pendingSecret := secret, pendingExpiresAt := now + PENDING_TTL,
                        pendingCounter := -1, pendingGeneration := 0));
    }

    /** Replaces the code rows of one generation. */
    method ReplaceCodes(generation: nat, verifiers: seq<Verifier>)
      modifies this`codes
      ensures codes == WithoutGeneration(old(codes), generation) + NewCodes(generation, set v | v in verifiers)
    {
      codes := WithoutGeneration(codes, generation);
      ghost var base, done := codes, {};
      for i := 0 to |verifiers|
        invariant done == set v | v in verifiers[..i]
        invariant codes == base + NewCodes(generation, done)
      {
        NewCodesAdd(base, generation, done, verifiers[i]);
        codes := codes[Code(generation, verifiers[i]) := 0];
        done := done + {verifiers[i]};
        assert verifiers[..i + 1] == verifiers[..i] + [verifiers[i]];
      }
      assert verifiers[..|verifiers|] == verifiers;
    }

    method ConfirmEnrollment(seen: Option<Factor>, counter: int, verifiers: seq<Verifier>, now: int) returns (ok: bool)
      modifies this`factor, this`codes
      ensures ok == Confirms(old(Contents()), seen, counter, now)
      ensures Contents() == Confirmed(old(Contents()), seen, counter, (set v | v in verifiers), now)
    {
      if seen.None? || seen.value.pendingSecret == "" || seen.value.pendingExpiresAt <= now {
        return false;
      }
      if !seen.value.state.AwaitsCode() || counter < 0 {
        return false;
      }
      var generation := seen.value.generation + 1;
      if seen.value.pendingGeneration >= generation {
        generation := seen.value.pendingGeneration + 1;
      }
      var nextState := if seen.value.activeSecret != "" then ActiveRotationAck else PendingAck;
      if factor.None? || factor.value.state != seen.value.state || factor.value.pendingSecret != seen.value.pendingSecret ||
         factor.value.pendingExpiresAt <= now
      {
        return false;
      }
      factor := Some(factor.value.(state := nextState, pendingCounter := counter, pendingGeneration := generation,
                                   acknowledged := false));
      ReplaceCodes(generation, verifiers);
      return true;
    }

    method AcknowledgeRecoveryCodes(now: int) returns (ok: bool)
      modifies this
      ensures ok == Acknowledges(old(Contents()), now)
      ensures Contents() == Acknowledged(old(Contents()), now)
    {
      if factor.None? || !factor.value.state.AwaitsAck() || factor.value.pendingGeneration == 0 ||
         factor.value.pendingExpiresAt <= now
      {
        return false;
      }
      var f := factor.value;
      var next := f.(state := Active, generation := f.pendingGeneration, pendingGeneration := 0, acknowledged := true);
      if !f.state.ActiveRecoveryAck? {
        next := next.(activeSecret := f.pendingSecret, pendingSecret := "", pendingExpiresAt := 0,
                      lastCounter := f.pendingCounter, pendingCounter := -1);
      } else {
        next := next.(pendingExpiresAt := 0);
      }
      factor := Some(next);
      codes := OnlyGeneration(codes, f.pendingGeneration);
      mfaGeneration := mfaGeneration + 1;
      return true;
    }

    method VerifyTotp(seen: Option<Factor>, counter: int) returns (ok: bool)
      modifies this`factor
      ensures ok == Verifies(old(Contents()), seen, counter)
      ensures Contents() == Verified(old(Contents()), seen, counter)
    {
      if seen.None? || !seen.value.state.IsActive() || seen.value.activeSecret == "" {
        return false;
      }
      if counter < 0 || counter <= seen.value.lastCounter {
        return false;
      }
      if factor.None? || factor.value.activeSecret != seen.value.activeSecret || !factor.value.state.IsActive() ||
         factor.value.lastCounter >= counter
      {
        return false;
      }
      factor := Some(factor.value.(lastCounter := counter));
      return true;
    }

    method ConsumeRecoveryCode(verifier: Verifier, now: int) returns (ok: bool)
      modifies this`codes
      ensures ok == Consumes(old(Contents()), verifier)
      ensures Contents() == Consumed(old(Contents()), verifier, now)
    {
      if factor.None? || !factor.value.state.IsActive() {
        return false;
      }
      var key := Code(factor.value.generation, verifier);
      if key !in codes || codes[key] != 0 {
        return false;
      }
      codes := codes[key := now];
      return true;
    }

    method RotateRecoveryCodes(seen: Option<Factor>, verifiers: seq<Verifier>, now: int) returns (ok: bool)
      modifies this`factor, this`codes
      ensures ok == Rotates(old(Contents()), seen)
      ensures Contents() == Rotated(old(Contents()), seen, (set v | v in verifiers), now)
    {
      if seen.None? || !seen.value.state.Active? || factor.None? || factor.value.generation != seen.value.generation {
        return false;
      }
      var generation := seen.value.generation + 1;
      ReplaceCodes(generation, verifiers);
      factor := Some(factor.value.(state := ActiveRecoveryAck, pendingGeneration := generation,
                                   pendingExpiresAt := now + PENDING_TTL, acknowledged := false));
      return true;
    }

    method Disable()
      modifies this
      ensures Contents() == Disabled(old(Contents()))
      ensures factor.None? && codes == map[] && mfaGeneration == old(mfaGeneration) + 1
    {
      codes := map[];
      factor := None;
      mfaGeneration := mfaGeneration + 1;
    }
  }

  lemma NewCodesAdd(base: Codes, generation: nat, verifiers: set<Verifier>, v: Verifier)
    ensures (base + NewCodes(generation, verifiers))[Code(generation, v) := 0] == base + NewCodes(generation, verifiers + {v})
  {
  }
}
