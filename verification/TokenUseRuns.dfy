/**
 One debouncer with its timer callbacks, manual flushes, the stop and reset calls
 and the flush gate they share, as a state machine. Every event is one region
 under the debouncer's mutex, one gate operation or the outcome of one write.
 */
module TokenUseRuns {
  import opened Basics
  import opened TokenUseState

  datatype Kind = ByTimer | ByFlush | ByStop | ByReset

  /** A timer callback that has not decided yet whether to take the pending
      updates, under the timer it belongs to. */
  datatype Stage = Started | Turned | Gated | Checked
  datatype Callback = Callback(stage: Stage, epoch: nat)

  /** Every other call in progress. */
  datatype Phase =
    | Ready(kind: Kind)
    | Writing(kind: Kind, batch: Updates)
    | Failed(kind: Kind, batch: Updates)
    | Closing(kind: Kind)
    | Rescheduling
    | Retiring
    | Releasing
  {
    predicate HasBatch() { Writing? || Failed? }

    predicate Flushing() { Ready? || Writing? || Failed? || Closing? }

    /** Holds the gate exclusively, as stop and reset do; every other call
        holds it shared. */
    predicate Exclusive() {
      Retiring? || Releasing? || (Flushing() && (kind.ByStop? || kind.ByReset?))
    }
  }

  /** `table` is the last use stored for each token. `newest` and `handed` record
      history: the last update recorded for each token, and how many batches
      went to be written. */
  datatype System = System(
    d: Debouncer,
    callbacks: map<nat, Callback>,
    calls: map<nat, Phase>,
    suspended: bool,
    newest: Updates,
    table: Updates,
    handed: nat)

  datatype Event =
    | Record(id: nat, u: Update, now: int)
    | Fire(timer: nat)
    | EnterGate(timer: nat)
    | Bounce(timer: nat, now: int)
    | CheckCircuit(timer: nat, now: int)
    | Take(timer: nat, call: nat)
    | StartFlush(call: nat)
    | StartStop(call: nat)
    | StartReset(call: nat)
    | FlushTake(call: nat, cancelled: bool)
    | Succeed(call: nat)
    | Fail(call: nat, done: set<nat>)
    | CloseCircuit(call: nat, now: int)
    | Reschedule(call: nat, now: int)
    | Requeue(call: nat, now: int)
    | Retire(call: nat)
    | Release(call: nat)
    | Resume

  ghost predicate GateShareable(s: System) {
    forall i :: i in s.calls ==> !s.calls[i].Exclusive()
  }

  ghost predicate GateFree(s: System) {
    s.calls == map[] && forall t :: t in s.callbacks ==> !s.callbacks[t].stage.Gated? && !s.callbacks[t].stage.Checked?
  }

  predicate At(s: System, t: nat, stage: Stage) {
    t in s.callbacks && s.callbacks[t].stage == stage
  }

  /** The call or callback is where the event happens. */
  predicate Possible(s: System, e: Event) {
    match e
    case Fire(t) => t in s.d.armed
    case EnterGate(t) => At(s, t, Started)
    case Bounce(t, now) => At(s, t, Turned)
    case CheckCircuit(t, now) => At(s, t, Gated)
    case Take(t, i) => At(s, t, Checked) && i !in s.calls
    case StartFlush(i) => i !in s.calls && !s.suspended
    case StartStop(i) => i !in s.calls && !s.suspended
    case StartReset(i) => i !in s.calls
    case FlushTake(i, cancelled) => i in s.calls && s.calls[i].Ready?
    case Succeed(i) => i in s.calls && s.calls[i].Writing?
    case Fail(i, done) => i in s.calls && s.calls[i].Writing?
    case CloseCircuit(i, now) => i in s.calls && s.calls[i].Closing?
    case Reschedule(i, now) => i in s.calls && s.calls[i].Rescheduling?
    case Requeue(i, now) => i in s.calls && s.calls[i].Failed?
    case Retire(i) => i in s.calls && s.calls[i].Retiring?
    case Release(i) => i in s.calls && s.calls[i].Releasing?
    case _ => true
  }

  /** The gate, if the event needs it, can be had. */
  ghost predicate GateAllows(s: System, e: Event) {
    && (e.EnterGate? || e.StartFlush? ==> GateShareable(s))
    && (e.StartStop? || e.StartReset? || e.Resume? ==> GateFree(s))
  }

  /** The debouncer after an event. */
  function DebouncerAfter(s: System, e: Event): Debouncer
    requires Possible(s, e)
  {
    match e
    case Record(id, u, now) => Recorded(s.d, id, u, now)
    case Fire(t) => s.d.(armed := s.d.armed - {t})
    case Bounce(t, now) => Bounced(s.d, s.callbacks[t].epoch, now)
    case CheckCircuit(t, now) => CircuitChecked(s.d, s.callbacks[t].epoch, now)
    case Take(t, i) => Taken(s.d, s.callbacks[t].epoch)
    case FlushTake(i, cancelled) => if cancelled then s.d else FlushTaken(s.d)
    case CloseCircuit(i, now) => CircuitClosed(s.d, now)
    case Reschedule(i, now) => ScheduledIfPending(s.d, now)
    case Requeue(i, now) => RequeuedAfterError(s.d, s.calls[i].batch, now)
    case Retire(i) => Retired(s.d)
    case _ => s.d
  }

  function CallbacksAfter(s: System, e: Event): map<nat, Callback>
    requires Possible(s, e)
  {
    match e
    case Fire(t) => s.callbacks[t := Callback(Started, s.d.armed[t].epoch)]
    case EnterGate(t) => s.callbacks[t := Callback(if s.suspended then Turned else Gated, s.callbacks[t].epoch)]
    case Bounce(t, now) => s.callbacks - {t}
    case CheckCircuit(t, now) =>
      var epoch := s.callbacks[t].epoch;
      if CallbackStops(s.d, epoch, now) then s.callbacks - {t} else s.callbacks[t := Callback(Checked, epoch)]
    case Take(t, i) => s.callbacks - {t}
    case _ => s.callbacks
  }

  /** The updates an event takes to be written. */
  function Grabbed(s: System, e: Event): Updates
    requires Possible(s, e)
  {
    match e
    case Take(t, i) => if Takes(s.d, s.callbacks[t].epoch) then s.d.pending else map[]
    case FlushTake(i, cancelled) => if cancelled || s.d.retired then map[] else s.d.pending
    case _ => map[]
  }

  /** The updates an event stores. A batch is stored in chunks, so a write that
      fails may have stored a part of it. */
  function Wrote(s: System, e: Event): Updates
    requires Possible(s, e)
  {
    match e
    case Succeed(i) => s.calls[i].batch
    case Fail(i, done) => s.calls[i].batch - (s.calls[i].batch.Keys - done)
    case _ => map[]
  }

  /** What follows the flush inside a call of this kind. */
  function AfterFlush(kind: Kind): Option<Phase> {
    match kind
    case ByTimer => None
    case ByFlush => None
    case ByStop => Some(Releasing)
    case ByReset => Some(Retiring)
  }

  function AfterTake(kind: Kind, batch: Updates): Option<Phase> {
    if batch == map[] then AfterFlush(kind) else Some(Writing(kind, batch))
  }

  /** Where the call an event belongs to goes next; None is its end. */
  function PhaseAfter(s: System, e: Event): Option<Phase>
    requires Possible(s, e) && HasCall(e)
  {
    match e
    case Take(t, i) => AfterTake(ByTimer, Grabbed(s, e))
    case StartFlush(i) => Some(Ready(ByFlush))
    case StartStop(i) => Some(Ready(ByStop))
    case StartReset(i) => Some(Ready(ByReset))
    case FlushTake(i, cancelled) => AfterTake(s.calls[i].kind, Grabbed(s, e))
    case Succeed(i) => Some(Closing(s.calls[i].kind))
    case Fail(i, done) =>
      if s.calls[i].kind.ByReset? then Some(Retiring) else Some(Failed(s.calls[i].kind, s.calls[i].batch))
    case CloseCircuit(i, now) => if s.calls[i].kind.ByTimer? then Some(Rescheduling) else AfterFlush(s.calls[i].kind)
    case Requeue(i, now) => AfterFlush(s.calls[i].kind)
    case Retire(i) => Some(Releasing)
    case _ => None
  }

  predicate HasCall(e: Event) {
    !e.Record? && !e.Fire? && !e.EnterGate? && !e.Bounce? && !e.CheckCircuit? && !e.Resume?
  }

  function CallsAfter(s: System, e: Event): map<nat, Phase>
    requires Possible(s, e)
  {
    if !HasCall(e) then s.calls
    else if PhaseAfter(s, e).Some? then s.calls[e.call := PhaseAfter(s, e).value] else s.calls - {e.call}
  }

  function Effect(s: System, e: Event): System
    requires Possible(s, e)
  {
    System(
      DebouncerAfter(s, e),
      CallbacksAfter(s, e),
      CallsAfter(s, e),
      if e.StartStop? || e.StartReset? then true else if e.Resume? then false else s.suspended,
      if e.Record? && e.id != 0 && !s.d.retired then s.newest[e.id := e.u] else s.newest,
      s.table + Wrote(s, e),
      if Grabbed(s, e) != map[] then s.handed + 1 else s.handed)
  }

  ghost function Apply(s: System, e: Event): System {
    if Possible(s, e) && GateAllows(s, e) then Effect(s, e) else s
  }

  ghost function Run(s: System, es: seq<Event>): System
    decreases |es|
  {
    if es == [] then s else Apply(Run(s, es[..|es| - 1]), es[|es| - 1])
  }

  /** A new debouncer over a token table that may hold uses already. */
  ghost predicate Start(s: System) {
    && s.d.pending == map[] && s.d.timer.None? && !s.d.retired && s.d.armed == map[]
    && s.callbacks == map[] && s.calls == map[] && s.newest == s.table
  }

  // ---- no lost wakeup ----

  /** The timer is armed under the current epoch, or its callback is running and
      has yet to look at the pending updates under the current epoch. */
  predicate Alive(d: Debouncer, callbacks: map<nat, Callback>, t: nat) {
    (t in d.armed && d.armed[t].epoch == d.epoch) || (t in callbacks && callbacks[t].epoch == d.epoch)
  }

  /** Live timers are the debouncer's own, so there is at most one, and a
      debouncer with something pending has one. */
  ghost predicate Awake(d: Debouncer, callbacks: map<nat, Callback>) {
    && OneTimer(d, callbacks)
    && (d.timer.Some? ==> !d.retired && Alive(d, callbacks, d.timer.value))
    && (!d.retired && d.pending != map[] ==> d.timer.Some?)
  }

  ghost predicate OneTimer(d: Debouncer, callbacks: map<nat, Callback>) {
    && (forall t :: t in d.armed ==> t < d.nextTimer && t !in callbacks)
    && (forall t :: t in d.armed ==> d.armed[t].epoch <= d.epoch && (d.armed[t].epoch == d.epoch ==> d.timer == Some(t)))
    && (forall t :: t in callbacks ==> t < d.nextTimer)
    && (forall t :: t in callbacks ==> callbacks[t].epoch <= d.epoch && (callbacks[t].epoch == d.epoch ==> d.timer == Some(t)))
  }

  lemma AwakeScheduled(d: Debouncer, callbacks: map<nat, Callback>, now: int)
    requires Awake(d.(pending := map[]), callbacks)
    ensures Awake(Scheduled(d, now), callbacks)
  {
  }

  lemma AwakeNewEpoch(d: Debouncer, callbacks: map<nat, Callback>)
    requires Awake(d.(pending := map[]), callbacks)
    ensures Awake(TimerStopped(d.(epoch := d.epoch + 1)).(pending := map[]), callbacks)
  {
  }

  lemma AwakeRequeued(d: Debouncer, callbacks: map<nat, Callback>, batch: Updates, now: int)
    requires Awake(d, callbacks)
    ensures Awake(RequeuedAfterError(d, batch, now), callbacks)
  {
    var merged := d.(pending := Merged(d.pending, batch), circuitUntil := Some(now + d.failureBackoff));
    AwakeEmptied(d, merged, callbacks);
    AwakeRearmed(merged, callbacks, now);
  }

  lemma AwakeRearmed(d: Debouncer, callbacks: map<nat, Callback>, now: int)
    requires Awake(d.(pending := map[]), callbacks)
    ensures Awake(ScheduledIfPending(TimerStopped(d.(epoch := d.epoch + 1)), now), callbacks)
  {
    AwakeNewEpoch(d, callbacks);
    AwakeIfPending(TimerStopped(d.(epoch := d.epoch + 1)), callbacks, now);
  }

  /** What is pending and the circuit only matter where something is pending. */
  lemma AwakeEmptied(d: Debouncer, other: Debouncer, callbacks: map<nat, Callback>)
    requires Awake(d, callbacks) && other == d.(pending := other.pending, circuitUntil := other.circuitUntil)
    ensures Awake(other.(pending := map[]), callbacks)
  {
  }

  lemma AwakeIfPending(d: Debouncer, callbacks: map<nat, Callback>, now: int)
    requires Awake(d.(pending := map[]), callbacks)
    ensures Awake(ScheduledIfPending(d, now), callbacks)
  {
    if d.pending != map[] {
      AwakeScheduled(d, callbacks, now);
    }
  }

  lemma AwakeCircuitClosed(d: Debouncer, callbacks: map<nat, Callback>, now: int)
    requires Awake(d, callbacks)
    ensures Awake(CircuitClosed(d, now), callbacks)
  {
    var closed := d.(circuitUntil := None);
    if d.circuitUntil.Some? && d.pending != map[] && d.timer.Some? {
      AwakeNewEpoch(closed, callbacks);
      AwakeScheduled(TimerStopped(closed).(epoch := d.epoch + 1), callbacks, now);
    }
  }

  lemma AwakeRetired(d: Debouncer, callbacks: map<nat, Callback>)
    requires Awake(d, callbacks)
    ensures Awake(Retired(d), callbacks) && Awake(FlushTaken(d), callbacks)
  {
    AwakeNewEpoch(d, callbacks);
  }

  /** The timer of a decided callback of the current epoch is gone. */
  lemma AwakeDecided(d: Debouncer, callbacks: map<nat, Callback>, t: nat)
    requires Awake(d, callbacks) && t in callbacks
    ensures callbacks[t].epoch != d.epoch ==> Awake(d, callbacks - {t})
    ensures callbacks[t].epoch == d.epoch ==> Awake(d.(timer := None, pending := map[]), callbacks - {t})
  {
  }

  lemma AwakeFired(d: Debouncer, callbacks: map<nat, Callback>, t: nat)
    requires Awake(d, callbacks) && t in d.armed
    ensures Awake(d.(armed := d.armed - {t}), callbacks[t := Callback(Started, d.armed[t].epoch)])
  {
  }

  lemma AwakeMoved(d: Debouncer, callbacks: map<nat, Callback>, t: nat, stage: Stage)
    requires Awake(d, callbacks) && t in callbacks
    ensures Awake(d, callbacks[t := Callback(stage, callbacks[t].epoch)])
  {
  }

  lemma AwakeCallback(s: System, e: Event)
    requires Awake(s.d, s.callbacks) && Possible(s, e)
    requires e.Fire? || e.EnterGate? || e.Bounce? || e.CheckCircuit? || e.Take?
    ensures Awake(DebouncerAfter(s, e), CallbacksAfter(s, e))
  {
    var t := e.timer;
    if e.Fire? {
      AwakeFired(s.d, s.callbacks, t);
    } else if e.EnterGate? {
      AwakeMoved(s.d, s.callbacks, t, if s.suspended then Turned else Gated);
    } else {
      AwakeDecided(s.d, s.callbacks, t);
      if e.CheckCircuit? {
        AwakeMoved(s.d, s.callbacks, t, Checked);
        if s.callbacks[t].epoch == s.d.epoch {
          assert s.d.armed - {t} == s.d.armed;
          AwakeScheduled(TimerStopped(s.d), s.callbacks - {t}, e.now);
        }
      } else if e.Bounce? && s.callbacks[t].epoch == s.d.epoch {
        AwakeScheduled(s.d.(timer := None), s.callbacks - {t}, e.now);
      }
    }
  }

  lemma AwakeMutex(s: System, e: Event)
    requires Awake(s.d, s.callbacks) && Possible(s, e)
    requires !e.Fire? && !e.EnterGate? && !e.Bounce? && !e.CheckCircuit? && !e.Take?
    ensures Awake(DebouncerAfter(s, e), CallbacksAfter(s, e))
  {
    match e
    case Record(id, u, now) => AwakeScheduled(s.d.(pending := s.d.pending[id := u]), s.callbacks, now);
    case FlushTake(_, _) => AwakeRetired(s.d, s.callbacks);
    case CloseCircuit(_, now) => AwakeCircuitClosed(s.d, s.callbacks, now);
    case Reschedule(_, now) => AwakeScheduled(s.d, s.callbacks, now);
    case Requeue(i, now) => AwakeRequeued(s.d, s.callbacks, s.calls[i].batch, now);
    case Retire(_) => AwakeRetired(s.d, s.callbacks);
    case _ =>
  }

  lemma AwakeStep(s: System, e: Event)
    requires Awake(s.d, s.callbacks)
    ensures Awake(Apply(s, e).d, Apply(s, e).callbacks)
  {
    if Possible(s, e) {
      if e.Fire? || e.EnterGate? || e.Bounce? || e.CheckCircuit? || e.Take? {
        AwakeCallback(s, e);
      } else {
        AwakeMutex(s, e);
      }
    }
  }

  lemma {:induction false} RunAwake(s: System, es: seq<Event>)
    requires Awake(s.d, s.callbacks)
    ensures Awake(Run(s, es).d, Run(s, es).callbacks)
    decreases |es|
  {
    if es != [] {
      RunAwake(s, es[..|es| - 1]);
      AwakeStep(Run(s, es[..|es| - 1]), es[|es| - 1]);
    }
  }

  /** After every run, a debouncer that is not retired and has something pending
      has exactly one live timer, armed or about to run in the current epoch. */
  lemma NoLostWakeup(s: System, es: seq<Event>)
    requires Start(s)
    ensures var t := Run(s, es);
      !t.d.retired && t.d.pending != map[] ==>
        t.d.timer.Some? && forall timer: nat :: Alive(t.d, t.callbacks, timer) <==> timer == t.d.timer.value
  {
    RunAwake(s, es);
  }

  /** A callback of an earlier epoch takes nothing and changes nothing. */
  lemma StaleCallbackInert(d: Debouncer, epoch: nat, now: int)
    requires epoch != d.epoch
    ensures Bounced(d, epoch, now) == d && CircuitChecked(d, epoch, now) == d && Taken(d, epoch) == d
    ensures CallbackStops(d, epoch, now) && !Takes(d, epoch)
  {
  }

  // ---- retirement ----

  /** An exclusive holder of the gate is alone. */
  ghost predicate GateKept(s: System) {
    forall i :: i in s.calls && s.calls[i].Exclusive() ==> AloneAtGate(s, i)
  }

  ghost predicate AloneAtGate(s: System, i: nat) {
    && (forall j :: j in s.calls ==> j == i)
    && (forall t :: t in s.callbacks ==> !s.callbacks[t].stage.Gated? && !s.callbacks[t].stage.Checked?)
  }

  lemma GateKeptStep(s: System, e: Event)
    requires GateKept(s)
    ensures GateKept(Apply(s, e))
  {
    if Possible(s, e) && GateAllows(s, e) && HasCall(e) {
      GateKeptCall(s, e);
    }
  }

  lemma GateKeptCall(s: System, e: Event)
    requires GateKept(s) && Possible(s, e) && GateAllows(s, e) && HasCall(e)
    ensures GateKept(Effect(s, e))
  {
    if e.call in s.calls {
      GateKeptOn(s, e);
    } else if e.StartStop? || e.StartReset? {
      assert AloneAtGate(Effect(s, e), e.call);
    } else if e.Take? {
      assert forall i :: i in s.calls && s.calls[i].Exclusive() ==> AloneAtGate(s, i);
    }
  }

  /** A call that goes on takes the gate no further than it has it. */
  lemma GateKeptOn(s: System, e: Event)
    requires GateKept(s) && Possible(s, e) && HasCall(e) && e.call in s.calls
    ensures GateKept(Effect(s, e))
  {
    if PhaseAfter(s, e).Some? && PhaseAfter(s, e).value.Exclusive() {
      assert s.calls[e.call].Exclusive();
      assert AloneAtGate(s, e.call);
    }
  }

  lemma {:induction false} RunGateKept(s: System, es: seq<Event>)
    requires GateKept(s)
    ensures GateKept(Run(s, es))
    decreases |es|
  {
    if es != [] {
      RunGateKept(s, es[..|es| - 1]);
      GateKeptStep(Run(s, es[..|es| - 1]), es[|es| - 1]);
    }
  }

  /** Retired, and no batch is on its way to be written. */
  ghost predicate Silent(s: System) {
    s.d.retired && forall i :: i in s.calls ==> !s.calls[i].HasBatch()
  }

  lemma SilentStep(s: System, e: Event)
    requires Silent(s)
    ensures Silent(Apply(s, e)) && Apply(s, e).handed == s.handed && Apply(s, e).table == s.table
  {
    if Possible(s, e) && GateAllows(s, e) {
      SilentCalls(s, e);
      var t := Effect(s, e);
      assert t.d == DebouncerAfter(s, e) && t.calls == CallsAfter(s, e);
      assert s.table + map[] == s.table;
    }
  }

  lemma SilentCalls(s: System, e: Event)
    requires Silent(s) && Possible(s, e)
    ensures DebouncerAfter(s, e).retired && Grabbed(s, e) == map[] && Wrote(s, e) == map[]
    ensures HasCall(e) && PhaseAfter(s, e).Some? ==> !PhaseAfter(s, e).value.HasBatch()
    ensures forall i :: i in CallsAfter(s, e) ==> !CallsAfter(s, e)[i].HasBatch()
  {
  }

  lemma {:induction false} RunSilent(s: System, es: seq<Event>)
    requires Silent(s)
    ensures Silent(Run(s, es)) && Run(s, es).handed == s.handed && Run(s, es).table == s.table
    decreases |es|
  {
    if es != [] {
      RunSilent(s, es[..|es| - 1]);
      SilentStep(Run(s, es[..|es| - 1]), es[|es| - 1]);
    }
  }

  /** Once a reset has retired the debouncer, whatever happened before and
      whatever runs after, nothing more is handed over to be written. */
  lemma RetiredHandsNothing(s: System, before: seq<Event>, i: nat, after: seq<Event>)
    requires Start(s) && Possible(Run(s, before), Retire(i))
    ensures var t := Apply(Run(s, before), Retire(i));
      Silent(t) && Run(t, after).handed == t.handed && Run(t, after).table == t.table
  {
    RunGateKept(s, before);
    var t := Apply(Run(s, before), Retire(i));
    assert AloneAtGate(Run(s, before), i);
    RunSilent(t, after);
  }
}
