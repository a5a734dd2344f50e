/**
 The failure circuit of the debouncer and the delays of its timers: how long a
 failed write keeps timer callbacks from writing again.
 */
module TokenUseCircuit {
  import opened Basics
  import opened TokenUseState
  import opened TokenUseRuns

  /** After a write failed at `now`, a callback of the current epoch is stopped at
      time `t` exactly while the backoff lasts. */
  lemma StoppedDuringBackoff(d: Debouncer, batch: Updates, now: int, t: int)
    ensures var after := RequeuedAfterError(d, batch, now);
      CallbackStops(after, after.epoch, t) <==> t < now + d.failureBackoff
  {
  }

  /** The timer armed after the failure waits for the end of the backoff; without
      a backoff it waits for the interval. */
  lemma RearmedForBackoff(d: Debouncer, batch: Updates, now: int)
    requires !d.retired && batch != map[]
    ensures var after := RequeuedAfterError(d, batch, now);
      && after.timer.Some? && after.timer.value in after.armed
      && after.armed[after.timer.value] ==
           Alarm(d.epoch + 1, if d.failureBackoff > 0 then d.failureBackoff else d.interval)
  {
    var k :| k in batch;
    assert k in Merged(d.pending, batch);
  }

  /** A success lifts the circuit: no callback of the current epoch is stopped, and
      what is pending waits for the interval, not for the rest of a backoff. */
  lemma SuccessLiftsCircuit(d: Debouncer, now: int, t: int)
    ensures var after := CircuitClosed(d, now);
      && !CallbackStops(after, after.epoch, t)
      && (d.circuitUntil.Some? && d.pending != map[] && !d.retired && (d.timer.Some? ==> d.timer.value < d.nextTimer) ==>
            after.timer.Some? && after.timer.value in after.armed && after.armed[after.timer.value].delay == d.interval)
  {
  }

  /** The first use after a quiet time arms a timer for the interval, or for the
      rest of a backoff. */
  lemma FirstUseArms(d: Debouncer, id: nat, u: Update, now: int)
    requires id != 0 && !d.retired && d.timer.None?
    ensures var after := Recorded(d, id, u, now);
      && id in after.pending && after.pending[id] == u && after.timer == Some(d.nextTimer) && d.nextTimer in after.armed
      && after.armed[d.nextTimer] ==
           Alarm(d.epoch, if d.circuitUntil.Some? && now < d.circuitUntil.value then d.circuitUntil.value - now else d.interval)
  {
  }

  // ---- runs ----

  /** Callback `timer` has not passed the circuit in the current epoch. */
  predicate NotPast(s: System, timer: nat) {
    !(timer in s.callbacks && s.callbacks[timer].stage.Checked? && s.callbacks[timer].epoch == s.d.epoch)
  }

  /** The circuit is open until `until`, callback `timer` is held up by it, and
      callbacks are not ahead of the epoch. */
  ghost predicate HeldUp(s: System, timer: nat, until: int) {
    && s.d.circuitUntil == Some(until) && NotPast(s, timer)
    && (forall t :: t in s.callbacks ==> s.callbacks[t].epoch <= s.d.epoch)
    && (forall t :: t in s.d.armed ==> s.d.armed[t].epoch <= s.d.epoch)
  }

  /** The step neither ends the circuit nor starts it anew, and does not look at it
      for `timer` after its end. */
  predicate Waits(e: Event, timer: nat, until: int) {
    !e.CloseCircuit? && !e.Requeue? && (e.CheckCircuit? && e.timer == timer ==> e.now < until)
  }

  lemma DebouncerWaits(s: System, e: Event, until: int)
    requires Possible(s, e) && s.d.circuitUntil == Some(until) && !e.CloseCircuit? && !e.Requeue?
    requires forall t :: t in s.d.armed ==> s.d.armed[t].epoch <= s.d.epoch
    ensures var d := DebouncerAfter(s, e);
      d.circuitUntil == Some(until) && s.d.epoch <= d.epoch && forall t :: t in d.armed ==> d.armed[t].epoch <= d.epoch
  {
  }

  lemma CallbacksWait(s: System, e: Event, timer: nat, until: int)
    requires Possible(s, e) && HeldUp(s, timer, until) && Waits(e, timer, until)
    ensures forall t :: t in CallbacksAfter(s, e) ==> CallbacksAfter(s, e)[t].epoch <= s.d.epoch
    ensures timer in CallbacksAfter(s, e) && CallbacksAfter(s, e)[timer].stage.Checked? ==>
      CallbacksAfter(s, e)[timer].epoch < s.d.epoch
  {
  }

  lemma HeldUpStep(s: System, e: Event, timer: nat, until: int)
    requires HeldUp(s, timer, until) && Waits(e, timer, until)
    ensures HeldUp(Apply(s, e), timer, until)
  {
    if Possible(s, e) && GateAllows(s, e) {
      DebouncerWaits(s, e, until);
      CallbacksWait(s, e, timer, until);
      var t := Effect(s, e);
      assert t.d == DebouncerAfter(s, e) && t.callbacks == CallbacksAfter(s, e);
    }
  }

  lemma {:induction false} RunHeldUp(s: System, es: seq<Event>, timer: nat, until: int)
    requires HeldUp(s, timer, until) && forall k :: 0 <= k < |es| ==> Waits(es[k], timer, until)
    ensures HeldUp(Run(s, es), timer, until)
    decreases |es|
  {
    if es != [] {
      RunHeldUp(s, es[..|es| - 1], timer, until);
      HeldUpStep(Run(s, es[..|es| - 1]), es[|es| - 1], timer, until);
    }
  }

  lemma RequeueOpens(d: Debouncer, batch: Updates, now: int)
    requires forall t :: t in d.armed ==> d.armed[t].epoch <= d.epoch
    ensures var after := RequeuedAfterError(d, batch, now);
      && after.circuitUntil == Some(now + d.failureBackoff) && after.epoch == d.epoch + 1
      && forall t :: t in after.armed ==> after.armed[t].epoch <= after.epoch
  {
  }

  lemma RequeueHoldsUp(s: System, i: nat, now: int, timer: nat)
    requires OneTimer(s.d, s.callbacks) && Possible(s, Requeue(i, now))
    ensures HeldUp(Apply(s, Requeue(i, now)), timer, now + s.d.failureBackoff)
  {
    RequeueOpens(s.d, s.calls[i].batch, now);
    var t := Apply(s, Requeue(i, now));
    assert t.callbacks == s.callbacks;
    assert t.d == RequeuedAfterError(s.d, s.calls[i].batch, now);
  }

  lemma HeldUpTakesNothing(s: System, timer: nat, call: nat, until: int)
    requires HeldUp(s, timer, until) && Possible(s, Take(timer, call))
    ensures Grabbed(s, Take(timer, call)) == map[]
  {
  }

  /** In every run, between a failed write that is requeued at `now` and the next
      success or failure, a callback that looks at the circuit only before the end
      of the backoff takes nothing to write. */
  lemma BackoffHolds(s: System, before: seq<Event>, i: nat, now: int, after: seq<Event>, timer: nat, call: nat)
    requires Start(s) && Possible(Run(s, before), Requeue(i, now))
    requires forall k :: 0 <= k < |after| ==> Waits(after[k], timer, now + s.d.failureBackoff)
    ensures var t := Run(Apply(Run(s, before), Requeue(i, now)), after);
      Possible(t, Take(timer, call)) ==> Grabbed(t, Take(timer, call)) == map[]
  {
    var u := Run(s, before);
    RunAwake(s, before);
    RunBackoff(s, before);
    RequeueHoldsUp(u, i, now, timer);
    RunHeldUp(Apply(u, Requeue(i, now)), after, timer, now + s.d.failureBackoff);
    var t := Run(Apply(u, Requeue(i, now)), after);
    if Possible(t, Take(timer, call)) {
      HeldUpTakesNothing(t, timer, call, now + s.d.failureBackoff);
    }
  }

  lemma {:induction false} RunBackoff(s: System, es: seq<Event>)
    ensures Run(s, es).d.failureBackoff == s.d.failureBackoff && Run(s, es).d.interval == s.d.interval
    decreases |es|
  {
    if es != [] {
      RunBackoff(s, es[..|es| - 1]);
      BackoffStep(Run(s, es[..|es| - 1]), es[|es| - 1]);
    }
  }

  lemma BackoffStep(s: System, e: Event)
    ensures Apply(s, e).d.failureBackoff == s.d.failureBackoff && Apply(s, e).d.interval == s.d.interval
  {
  }

  /** A callback of the current epoch that looks at the circuit after the backoff
      does go on and takes everything pending. */
  lemma BackoffEnds(s: System, timer: nat, now: int, call: nat)
    requires At(s, timer, Gated) && s.callbacks[timer].epoch == s.d.epoch && call !in s.calls && !s.d.retired
    requires s.d.circuitUntil.None? || s.d.circuitUntil.value <= now
    ensures var t := Apply(s, CheckCircuit(timer, now));
      Possible(t, Take(timer, call)) && Grabbed(t, Take(timer, call)) == s.d.pending
  {
  }

  // ---- one timer ----

  /** Every armed timer is the debouncer's own. */
  ghost predicate OwnArmed(d: Debouncer) {
    forall t :: t in d.armed ==> d.timer == Some(t)
  }

  lemma OwnArmedParts(d: Debouncer, id: nat, u: Update, batch: Updates, now: int)
    requires OwnArmed(d)
    ensures OwnArmed(Scheduled(d, now)) && OwnArmed(Recorded(d, id, u, now)) && OwnArmed(TimerStopped(d))
    ensures OwnArmed(RequeuedAfterError(d, batch, now)) && OwnArmed(CircuitClosed(d, now)) && OwnArmed(Retired(d)) && OwnArmed(FlushTaken(d))
  {
  }

  lemma OwnArmedCallback(d: Debouncer, callbacks: map<nat, Callback>, t: nat, now: int)
    requires OwnArmed(d) && OneTimer(d, callbacks) && t in callbacks
    ensures var epoch := callbacks[t].epoch;
      OwnArmed(Bounced(d, epoch, now)) && OwnArmed(CircuitChecked(d, epoch, now)) && OwnArmed(Taken(d, epoch))
  {
    if callbacks[t].epoch == d.epoch {
      assert d.timer == Some(t) && t !in d.armed;
    }
  }

  lemma OwnArmedStep(s: System, e: Event)
    requires OwnArmed(s.d) && OneTimer(s.d, s.callbacks)
    ensures OwnArmed(Apply(s, e).d)
  {
    if Possible(s, e) && GateAllows(s, e) {
      var t := Effect(s, e);
      assert t.d == DebouncerAfter(s, e);
      match e
      case Bounce(timer, now) => OwnArmedCallback(s.d, s.callbacks, timer, now);
      case CheckCircuit(timer, now) => OwnArmedCallback(s.d, s.callbacks, timer, now);
      case Take(timer, call) => OwnArmedCallback(s.d, s.callbacks, timer, 0);
      case Record(id, u, now) => OwnArmedParts(s.d, id, u, map[], now);
      case Requeue(i, now) => OwnArmedParts(s.d, 0, Update("", 0), s.calls[i].batch, now);
      case CloseCircuit(i, now) => OwnArmedParts(s.d, 0, Update("", 0), map[], now);
      case Reschedule(i, now) => OwnArmedParts(s.d, 0, Update("", 0), map[], now);
      case Retire(i) => OwnArmedParts(s.d, 0, Update("", 0), map[], 0);
      case FlushTake(i, cancelled) => OwnArmedParts(s.d, 0, Update("", 0), map[], 0);
      case _ =>
    }
  }

  /** In every run at most one timer is armed, and it is the one the debouncer
      would stop: a stopped timer that has not fired never fires. */
  lemma {:induction false} OneArmedTimer(s: System, es: seq<Event>)
    requires Start(s)
    ensures OwnArmed(Run(s, es).d)
    decreases |es|
  {
    if es != [] {
      OneArmedTimer(s, es[..|es| - 1]);
      RunAwake(s, es[..|es| - 1]);
      OwnArmedStep(Run(s, es[..|es| - 1]), es[|es| - 1]);
    }
  }

  // ---- suspension ----

  /** Suspended: every call is a stop or a reset, of the stops only `i`, and no
      callback is past the gate. */
  ghost predicate Hushed(s: System, i: nat) {
    && s.suspended
    && (forall j :: j in s.calls ==> s.calls[j].Exclusive() && (j != i && s.calls[j].Flushing() ==> s.calls[j].kind.ByReset?))
    && (forall t :: t in s.callbacks ==> !s.callbacks[t].stage.Gated? && !s.callbacks[t].stage.Checked?)
  }

  lemma HushedStep(s: System, e: Event, i: nat)
    requires Hushed(s, i) && !e.Resume?
    ensures Hushed(Apply(s, e), i)
  {
    if Possible(s, e) && GateAllows(s, e) {
      var t := Effect(s, e);
      assert t.callbacks == CallbacksAfter(s, e) && t.calls == CallsAfter(s, e) && t.suspended;
    }
  }

  lemma {:induction false} RunHushed(s: System, i: nat, es: seq<Event>)
    requires Possible(s, StartStop(i)) && GateAllows(s, StartStop(i)) && forall k :: 0 <= k < |es| ==> !es[k].Resume?
    ensures Hushed(Run(Apply(s, StartStop(i)), es), i)
    decreases |es|
  {
    if es != [] {
      RunHushed(s, i, es[..|es| - 1]);
      HushedStep(Run(Apply(s, StartStop(i)), es[..|es| - 1]), es[|es| - 1], i);
    }
  }

  /** From the start of a stop to the next resumption, in every run, only this
      stop or a reset takes anything to write: no timer, no flush, no other stop. */
  lemma QuietUntilResumed(s: System, i: nat, es: seq<Event>, e: Event)
    requires Possible(s, StartStop(i)) && GateAllows(s, StartStop(i)) && forall k :: 0 <= k < |es| ==> !es[k].Resume?
    ensures var t := Run(Apply(s, StartStop(i)), es);
      Possible(t, e) && Grabbed(t, e) != map[] ==>
        e.FlushTake? && (t.calls[e.call].kind.ByReset? || (e.call == i && t.calls[e.call].kind.ByStop?))
  {
    RunHushed(s, i, es);
  }

  /** A resumption lets callbacks and flushes through the gate again. */
  lemma ResumeReopens(s: System, timer: nat, i: nat)
    requires GateFree(s)
    ensures var t := Apply(s, Resume);
      && t.d == s.d && (At(s, timer, Started) ==> At(Apply(t, EnterGate(timer)), timer, Gated))
      && (i !in s.calls ==> Possible(t, StartFlush(i)) && GateAllows(t, StartFlush(i)))
  {
  }
}
