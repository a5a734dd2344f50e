/**
 The audit writer and its background loop as a state machine: pushes from any
 goroutine, the loop's steps between its waits, the outcomes of writes, and stop.
 */
module AuditRuns {
  import opened Basics
  import opened AuditQueue
  import AuditWriter

  /** Where the background loop is, with the events it holds. */
  datatype Phase =
    | NotStarted
    | Idle
    | Collecting(batch: Queue)
    | Writing(batch: Queue)
    | Retrying(batch: Queue)
    | LastWriting(batch: Queue)
    | Draining
    | DrainWriting(batch: Queue)
    | Finished
  {
    predicate Stopping() { LastWriting? || Draining? || DrainWriting? || Finished? }

    function Held(): Queue {
      match this
      case Collecting(b) => b
      case Writing(b) => b
      case Retrying(b) => b
      case LastWriting(b) => b
      case DrainWriting(b) => b
      case _ => []
    }
  }

  /** What became of the batch the loop still held at the first drain, when it
      was put back into the writer after that: it went on, or it was left behind
      for good, or a later caller drained it. */
  datatype Stray = GoesOn | LeftBehind | TakenBy(caller: nat)

  /** `offered` is every event pushed before stop, `written` every event in a
      write that succeeded, in order. Stop callers drain the writer and install a
      successor if the writer is still the current one: `drained` is what each of
      them took, `first` the one that drained first and `installer` the one that
      installed the successor. */
  datatype System = System(
    capacity: nat,
    batchSize: nat,
    queue: Queue,
    stopped: bool,
    dropped: nat,
    phase: Phase,
    offered: Queue,
    written: Queue,
    drained: map<nat, Queue>,
    first: Option<nat>,
    stray: Stray,
    installer: Option<nat>,
    successor: Queue)

  datatype Event =
    | Push(e: AuditEvent)
    | Start
    | Stop
    | Pop
    | FlushDue
    | SeeStop
    | Succeed
    | Fail
    | Retry
    | Drain(caller: nat)
    | Replace(caller: nat)

  function Popped(s: System, limit: int): (Queue, Queue) {
    var n := if limit <= 0 then 0 else Min(limit, |s.queue|);
    (s.queue[..n], s.queue[n..])
  }

  function Restored(s: System, batch: Queue, next: Phase): System {
    var combined := batch + s.queue;
    s.(queue := Truncated(combined, s.capacity),
       dropped := s.dropped + |combined| - |Truncated(combined, s.capacity)|,
       phase := next,
       stray := if next.Finished? && s.first.Some? then LeftBehind else s.stray)
  }

  /** A caller drains when its stop returns: the loop is done, or was never
      started, or the caller's deadline has passed. */
  function AfterDrain(s: System, i: nat): System {
    if !s.stopped || i in s.drained then s
    else s.(queue := [], drained := s.drained[i := s.queue],
            first := if s.first.None? then Some(i) else s.first,
            stray := if s.first.Some? && s.queue != [] then TakenBy(i) else s.stray)
  }

  function AfterReplace(s: System, i: nat): System {
    if i in s.drained && s.installer.None?
    then s.(installer := Some(i), successor := PushedAll([], AuditWriter.QUEUE_CAPACITY, s.drained[i]))
    else s
  }

  function Apply(s: System, e: Event): System
    requires s.capacity > 0
  {
    match e
    case Push(x) =>
      if s.stopped then s
      else s.(queue := Pushed(s.queue, s.capacity, x), offered := s.offered + [x],
              dropped := s.dropped + if |s.queue| < s.capacity then 0 else 1)
    case Start => if s.stopped || !s.phase.NotStarted? then s else s.(phase := Idle)
    case Stop => s.(stopped := true)
    case Pop => AfterPop(s)
    case FlushDue => if s.phase.Collecting? then s.(phase := Writing(s.phase.batch)) else s
    case SeeStop =>
      if !s.stopped then s
      else if s.phase.Idle? then s.(phase := Draining)
      else if s.phase.Collecting? then s.(phase := LastWriting(s.phase.batch))
      else if s.phase.Retrying? then Restored(s, s.phase.batch, Draining)
      else s
    case Succeed =>
      var done := s.(written := s.written + s.phase.Held());
      if s.phase.Writing? then done.(phase := Idle)
      else if s.phase.LastWriting? || s.phase.DrainWriting? then done.(phase := Draining)
      else s
    case Fail =>
      if s.phase.Writing? then s.(phase := Retrying(s.phase.batch))
      else if s.phase.LastWriting? || s.phase.DrainWriting? then Restored(s, s.phase.batch, Finished)
      else s
    case Retry => if s.phase.Retrying? then s.(phase := Writing(s.phase.batch)) else s
    case Drain(i) => AfterDrain(s, i)
    case Replace(i) => AfterReplace(s, i)
  }

  function AfterPop(s: System): System {
    if s.phase.Idle? then
      var (batch, rest) := Popped(s, s.batchSize);
      if batch == [] then s else s.(queue := rest, phase := Collecting(batch))
    else if s.phase.Collecting? then
      var (more, rest) := Popped(s, s.batchSize - |s.phase.batch|);
      s.(queue := rest, phase := Collecting(s.phase.batch + more))
    else if s.phase.Draining? then
      var (batch, rest) := Popped(s, s.batchSize);
      if batch == [] then s.(phase := Finished) else s.(queue := rest, phase := DrainWriting(batch))
    else s
  }

  ghost function Run(s: System, es: seq<Event>): (t: System)
    requires s.capacity > 0
    ensures t.capacity == s.capacity
    decreases |es|
  {
    if es == [] then s else Apply(Run(s, es[..|es| - 1]), es[|es| - 1])
  }

  ghost predicate Initial(s: System) {
    && s.capacity > 0 && s.batchSize > 0 && s.queue == [] && !s.stopped && s.dropped == 0
    && s.phase.NotStarted? && s.offered == [] && s.written == []
    && s.drained == map[] && s.first.None? && s.stray.GoesOn? && s.installer.None? && s.successor == []
  }

  /** What the first caller drained, and what a later one found put back. */
  function FirstTaken(s: System): Queue {
    if s.first.Some? && s.first.value in s.drained then s.drained[s.first.value] else []
  }

  function LateTaken(s: System): Queue {
    if s.stray.TakenBy? && s.stray.caller in s.drained then s.drained[s.stray.caller] else []
  }

  /** What was offered and neither written nor dropped, in order. The batch that
      was held at the first drain is older than what was drained. */
  function Remainder(s: System): Queue { s.phase.Held() + s.queue + LateTaken(s) + FirstTaken(s) }

  ghost predicate Accounted(s: System) {
    && s.capacity > 0 && s.batchSize > 0
    && Sub(s.written + Remainder(s), s.offered)
    && |s.offered| == |s.written| + |Remainder(s)| + s.dropped
    && |s.queue| <= s.capacity
    && (s.phase.Stopping() ==> s.stopped)
  }

  /** A batch in hand is not empty and not larger than a batch may be. */
  ghost predicate BatchFits(p: Phase, batchSize: nat) {
    p.Collecting? || p.Writing? || p.Retrying? || p.LastWriting? || p.DrainWriting? ==> p.Held() != [] && |p.Held()| <= batchSize
  }

  /** Who has which events. After the first drain the loop has at most the one
      batch it held then: in hand, or put back whole, or gone. */
  ghost predicate Handed(s: System) {
    && BatchFits(s.phase, s.batchSize)
    && (forall i :: i in s.drained ==> |s.drained[i]| <= s.capacity)
    && (s.first.None? <==> s.drained == map[])
    && (s.first.None? ==> s.stray.GoesOn?)
    && (s.first.Some? ==> s.stopped && s.first.value in s.drained && s.stray != TakenBy(s.first.value))
    && (s.stray.TakenBy? ==> s.stray.caller in s.drained && s.drained[s.stray.caller] != [] && s.phase.Held() == [] && s.queue == [])
    && (s.stray.LeftBehind? ==> s.phase.Finished? && s.queue != [])
    && (s.first.Some? && s.queue != [] ==> (s.phase.Draining? || s.stray.LeftBehind?) && |s.queue| <= s.batchSize)
    && (forall i :: i in s.drained && s.first != Some(i) && s.stray != TakenBy(i) ==> s.drained[i] == [])
    && (s.installer.Some? ==> s.installer.value in s.drained)
    && (s.installer.Some? && s.capacity <= AuditWriter.QUEUE_CAPACITY ==> s.successor == s.drained[s.installer.value])
  }

  // ---- every step keeps the accounts ----

  lemma PushInOrder(before: Queue, queue: Queue, capacity: nat, x: AuditEvent, offered: Queue)
    requires 0 < capacity && |queue| <= capacity && Sub(before + queue, offered)
    ensures Sub(before + Pushed(queue, capacity, x), offered + [x])
  {
    PushKeepsOrder(before, queue, capacity, x);
    SubSnoc(before + queue, offered, x);
    SubTrans(before + Pushed(queue, capacity, x), before + queue + [x], offered + [x]);
  }

  lemma NothingDrained(s: System)
    requires s.first.None? && s.stray.GoesOn?
    ensures s.written + Remainder(s) == s.written + s.phase.Held() + s.queue && |Remainder(s)| == |s.phase.Held()| + |s.queue|
  {
  }

  lemma AccountedPush(s: System, x: AuditEvent)
    requires Accounted(s) && Handed(s)
    ensures Accounted(Apply(s, Push(x)))
  {
    if !s.stopped {
      var t := Apply(s, Push(x));
      NothingDrained(s);
      NothingDrained(t);
      PushInOrder(s.written + s.phase.Held(), s.queue, s.capacity, x, s.offered);
      PushedSize(s.queue, s.capacity, x);
    }
  }

  lemma AccountedRestore(s: System, next: Phase)
    requires Accounted(s) && next.Held() == [] && s.stopped && !s.stray.TakenBy?
    ensures Accounted(Restored(s, s.phase.Held(), next))
  {
    var t, combined := Restored(s, s.phase.Held(), next), s.phase.Held() + s.queue;
    NoneLate(s);
    NoneLate(t);
    assert t.phase.Held() + t.queue == t.queue == combined[..|t.queue|];
    CutInOrder(s.written, combined, |t.queue|, FirstTaken(s), s.offered);
  }

  lemma NoneLate(s: System)
    requires !s.stray.TakenBy?
    ensures s.written + Remainder(s) == s.written + (s.phase.Held() + s.queue) + FirstTaken(s)
    ensures |Remainder(s)| == |s.phase.Held()| + |s.queue| + |FirstTaken(s)|
  {
  }

  lemma CutInOrder(written: Queue, combined: Queue, n: nat, first: Queue, offered: Queue)
    requires n <= |combined|
    ensures Sub(written + combined + first, offered) ==> Sub(written + combined[..n] + first, offered)
  {
    assert written + combined + first == written + combined[..n] + combined[n..] + first;
    SubCut(written + combined[..n], combined[n..], first);
    if Sub(written + combined + first, offered) {
      SubTrans(written + combined[..n] + first, written + combined + first, offered);
    }
  }

  /** A pop moves events from the queue to those held and changes nothing else. */
  ghost predicate Moves(s: System, t: System) {
    && t == s.(queue := t.queue, phase := t.phase)
    && t.phase.Held() + t.queue == s.phase.Held() + s.queue && |t.queue| <= |s.queue|
    && (t.phase.Stopping() ==> s.phase.Stopping())
  }

  lemma TakeAndDrop(batch: Queue, queue: Queue, n: nat)
    requires n <= |queue|
    ensures batch + queue[..n] + queue[n..] == batch + queue
  {
    assert queue[..n] + queue[n..] == queue;
    assert batch + queue[..n] + queue[n..] == batch + (queue[..n] + queue[n..]);
  }

  lemma PopMovesMore(s: System)
    requires s.phase.Collecting?
    ensures Moves(s, AfterPop(s))
  {
    TakeAndDrop(s.phase.batch, s.queue, |Popped(s, s.batchSize - |s.phase.batch|).0|);
  }

  lemma PopMovesFirst(s: System)
    requires s.phase.Idle? || s.phase.Draining?
    ensures Moves(s, AfterPop(s))
  {
    TakeAndDrop([], s.queue, |Popped(s, s.batchSize).0|);
    assert [] + s.queue == s.queue;
  }

  lemma PopMoves(s: System)
    ensures Moves(s, AfterPop(s))
  {
    if s.phase.Collecting? {
      PopMovesMore(s);
    } else if s.phase.Idle? || s.phase.Draining? {
      PopMovesFirst(s);
    }
  }

  lemma AccountedSame(s: System, t: System)
    requires Accounted(s) && t.written + Remainder(t) == s.written + Remainder(s)
    requires t.capacity == s.capacity && t.batchSize == s.batchSize && t.offered == s.offered && t.dropped == s.dropped
    requires |t.queue| <= |s.queue| && (t.phase.Stopping() ==> t.stopped)
    ensures Accounted(t)
  {
    assert |t.written + Remainder(t)| == |s.written + Remainder(s)|;
  }

  /** A drain moves the queue to what the caller has. */
  lemma DrainMoves(s: System, i: nat)
    requires Handed(s) && s.stopped && i !in s.drained
    ensures LateTaken(AfterDrain(s, i)) + FirstTaken(AfterDrain(s, i)) == s.queue + LateTaken(s) + FirstTaken(s)
  {
    var t := AfterDrain(s, i);
    if s.first.None? {
      assert LateTaken(t) == [] && LateTaken(s) == [] && FirstTaken(s) == [] && FirstTaken(t) == s.queue;
    } else {
      assert FirstTaken(t) == FirstTaken(s);
      assert LateTaken(t) == s.queue + LateTaken(s);
    }
  }

  lemma SameRest(held: Queue, queue: Queue, late: Queue, first: Queue, late': Queue, first': Queue)
    requires late' + first' == queue + late + first
    ensures held + [] + late' + first' == held + queue + late + first
  {
    assert held + [] + late' + first' == held + (late' + first');
    assert held + queue + late + first == held + (queue + late + first);
  }

  lemma AccountedDrain(s: System, i: nat)
    requires Accounted(s) && Handed(s)
    ensures Accounted(AfterDrain(s, i))
  {
    var t := AfterDrain(s, i);
    if t != s {
      DrainMoves(s, i);
      SameRest(s.phase.Held(), s.queue, LateTaken(s), FirstTaken(s), LateTaken(t), FirstTaken(t));
      assert Remainder(t) == Remainder(s);
      AccountedSame(s, t);
    }
  }

  lemma AccountedSucceed(s: System)
    requires Accounted(s) && (s.phase.Writing? || s.phase.LastWriting? || s.phase.DrainWriting?)
    ensures Accounted(Apply(s, Succeed))
  {
    var t := Apply(s, Succeed);
    assert LateTaken(t) == LateTaken(s) && FirstTaken(t) == FirstTaken(s);
    WrittenFromHeld(s.written, s.phase.Held(), s.queue, LateTaken(s), FirstTaken(s));
    AccountedSame(s, t);
  }

  lemma WrittenFromHeld(written: Queue, held: Queue, queue: Queue, late: Queue, first: Queue)
    ensures written + held + ([] + queue + late + first) == written + (held + queue + late + first)
  {
  }

  /** The step changes neither the events held nor where any other is. */
  ghost predicate Still(s: System, t: System) {
    t == s.(phase := t.phase, stopped := t.stopped, installer := t.installer, successor := t.successor) &&
    t.phase.Held() == s.phase.Held() && (t.phase.Stopping() ==> s.phase.Stopping() || t.stopped) && (s.stopped ==> t.stopped)
  }

  lemma PlainIsStill(s: System, e: Event)
    requires s.capacity > 0
    requires e.Start? || e.Stop? || e.FlushDue? || e.Retry? || e.Replace? || e.SeeStop? || e.Fail?
    requires !(e.SeeStop? && s.stopped && s.phase.Retrying?) && !(e.Fail? && (s.phase.LastWriting? || s.phase.DrainWriting?))
    ensures Still(s, Apply(s, e))
  {
  }

  lemma AccountedStill(s: System, t: System)
    requires Accounted(s) && Still(s, t)
    ensures Accounted(t)
  {
    assert LateTaken(t) == LateTaken(s) && FirstTaken(t) == FirstTaken(s);
    AccountedSame(s, t);
  }

  lemma AccountedStep(s: System, e: Event)
    requires Accounted(s) && Handed(s)
    ensures Accounted(Apply(s, e))
  {
    if e.Push? {
      AccountedPush(s, e.e);
    } else if e.Pop? {
      PopMoves(s);
      AccountedSame(s, AfterPop(s));
    } else if e.SeeStop? && s.stopped && s.phase.Retrying? {
      AccountedRestore(s, Draining);
    } else if e.Fail? && (s.phase.LastWriting? || s.phase.DrainWriting?) {
      AccountedRestore(s, Finished);
    } else if e.Drain? {
      AccountedDrain(s, e.caller);
    } else if e.Succeed? {
      if Apply(s, e) != s {
        AccountedSucceed(s);
      }
    } else {
      PlainIsStill(s, e);
      AccountedStill(s, Apply(s, e));
    }
  }

  // ---- every step keeps who has what ----

  lemma HandedRestore(s: System, next: Phase)
    requires Handed(s) && s.capacity > 0 && |s.queue| <= s.capacity && s.stopped
    requires s.phase.Retrying? || s.phase.LastWriting? || s.phase.DrainWriting?
    requires next.Finished? || next.Draining?
    ensures Handed(Restored(s, s.phase.Held(), next))
  {
  }

  /** Moving events between queue and batch, where after the first drain they all
      end up in the batch. */
  lemma HandedMoved(s: System, t: System)
    requires Handed(s) && t == s.(queue := t.queue, phase := t.phase) && BatchFits(t.phase, t.batchSize)
    requires s.first.Some? ==> t.queue == [] && !s.stray.LeftBehind? && (s.stray.TakenBy? ==> t.phase.Held() == [])
    ensures Handed(t)
  {
  }

  lemma HandedIdle(s: System)
    requires Handed(s) && s.batchSize > 0 && s.phase.Idle?
    ensures Handed(AfterPop(s))
  {
    var t := AfterPop(s);
    if t != s {
      assert s.queue != [] && s.first.None?;
      HandedMoved(s, t);
    }
  }

  lemma HandedCollecting(s: System)
    requires Handed(s) && s.phase.Collecting?
    ensures Handed(AfterPop(s))
  {
    var t := AfterPop(s);
    assert s.first.Some? ==> s.queue == [];
    HandedMoved(s, t);
  }

  lemma HandedDraining(s: System)
    requires Handed(s) && s.batchSize > 0 && s.phase.Draining?
    ensures Handed(AfterPop(s))
  {
    var t := AfterPop(s);
    if s.first.Some? {
      assert |s.queue| <= s.batchSize;
      assert t.queue == [];
    }
    HandedMoved(s, t);
  }

  lemma HandedPop(s: System)
    requires Handed(s) && s.batchSize > 0
    ensures Handed(AfterPop(s))
  {
    if s.phase.Idle? {
      HandedIdle(s);
    } else if s.phase.Collecting? {
      HandedCollecting(s);
    } else if s.phase.Draining? {
      HandedDraining(s);
    }
  }

  lemma HandedDrain(s: System, i: nat)
    requires Handed(s) && |s.queue| <= s.capacity
    ensures Handed(AfterDrain(s, i))
  {
  }

  lemma HandedReplace(s: System, i: nat)
    requires Handed(s)
    ensures Handed(AfterReplace(s, i))
  {
    if i in s.drained && s.capacity <= AuditWriter.QUEUE_CAPACITY {
      PushedAllFits([], AuditWriter.QUEUE_CAPACITY, s.drained[i]);
    }
  }

  lemma HandedPlain(s: System, e: Event)
    requires Handed(s) && s.capacity > 0 && !e.Pop? && !e.Drain? && !e.Replace?
    requires !(e.SeeStop? && s.stopped && s.phase.Retrying?) && !(e.Fail? && (s.phase.LastWriting? || s.phase.DrainWriting?))
    ensures Handed(Apply(s, e))
  {
  }

  lemma HandedStep(s: System, e: Event)
    requires Accounted(s) && Handed(s)
    ensures Handed(Apply(s, e))
  {
    if e.Pop? {
      HandedPop(s);
    } else if e.Drain? {
      HandedDrain(s, e.caller);
    } else if e.Replace? {
      HandedReplace(s, e.caller);
    } else if e.SeeStop? && s.stopped && s.phase.Retrying? {
      HandedRestore(s, Draining);
    } else if e.Fail? && (s.phase.LastWriting? || s.phase.DrainWriting?) {
      HandedRestore(s, Finished);
    } else {
      HandedPlain(s, e);
    }
  }

  /** In every run, written events, events in flight, queued events and events
      drained by stop callers are, in this order, a subsequence of what was
      offered; the rest is counted as dropped; and the queue never outgrows its
      capacity. */
  lemma {:induction false} RunAccounted(s: System, es: seq<Event>)
    requires Initial(s)
    ensures Accounted(Run(s, es)) && Handed(Run(s, es))
    decreases |es|
  {
    if es != [] {
      RunAccounted(s, es[..|es| - 1]);
      AccountedStep(Run(s, es[..|es| - 1]), es[|es| - 1]);
      HandedStep(Run(s, es[..|es| - 1]), es[|es| - 1]);
    }
  }

  // ---- handing over to a successor ----

  /** The loop has ended, or was never started and will not be. */
  predicate Settled(s: System) { s.phase.Finished? || (s.phase.NotStarted? && s.stopped) }

  /** Every event offered is written, counted as dropped, or with the successor. */
  predicate Complete(s: System) { |s.offered| == |s.written| + |s.successor| + s.dropped }

  lemma HandedOver(t: System, r: nat)
    requires Accounted(t) && Handed(t) && Settled(t) && t.installer == Some(r) && t.successor == t.drained[r]
    ensures Complete(t) <==> (FirstTaken(t) == [] || t.first == Some(r)) && (t.stray.GoesOn? || t.stray == TakenBy(r))
  {
    assert |Remainder(t)| == |t.queue| + |LateTaken(t)| + |FirstTaken(t)|;
  }

  lemma SuccessorInOrder(t: System, r: nat)
    requires Accounted(t) && Handed(t) && t.installer == Some(r) && t.successor == t.drained[r]
    ensures Sub(t.written + t.successor, t.offered)
  {
    assert t.written + Remainder(t) == t.written + (t.phase.Held() + t.queue) + LateTaken(t) + FirstTaken(t);
    InOrder(t.written, t.phase.Held() + t.queue, LateTaken(t), FirstTaken(t), t.offered);
    assert t.successor == [] ==> t.written + t.successor == t.written;
  }

  lemma InOrder(written: Queue, held: Queue, late: Queue, first: Queue, offered: Queue)
    requires Sub(written + held + late + first, offered)
    ensures Sub(written, offered) && Sub(written + late, offered) && Sub(written + first, offered)
  {
    var all := written + held + late + first;
    assert all == written + (held + late) + first;
    SubCut(written, held + late, first);
    SubTrans(written + first, all, offered);
    Fronts(written, held, late, first, offered);
  }

  lemma Fronts(written: Queue, held: Queue, late: Queue, first: Queue, offered: Queue)
    requires Sub(written + held + late + first, offered)
    ensures Sub(written, offered) && Sub(written + late, offered)
  {
    var front := written + held + late;
    SubPrefix(front + first, |front|);
    assert (front + first)[..|front|] == front;
    SubTrans(front, front + first, offered);
    SubCut(written, held, late);
    SubTrans(written + late, front, offered);
    SubPrefix(front, |written|);
    assert front[..|written|] == written;
    SubTrans(written, front, offered);
  }

  /** However many callers stop the runtime's writer, with or without waiting for
      the loop: once the loop has ended, nothing is lost if and only if the
      caller that installed the successor drained first, or the first drained
      nothing, and no write failed for good after the first drain, or that caller
      drained what was put back. What was written and what the successor starts
      with are in order either way. */
  lemma SuccessorGetsRemainderIff(s: System, es: seq<Event>)
    requires Initial(s) && s.capacity <= AuditWriter.QUEUE_CAPACITY
    requires Settled(Run(s, es)) && Run(s, es).installer.Some?
    ensures var t := Run(s, es);
      && Sub(t.written + t.successor, t.offered)
      && (Complete(t) <==>
            (FirstTaken(t) == [] || t.first == t.installer) && (t.stray.GoesOn? || t.stray == TakenBy(t.installer.value)))
  {
    var t := Run(s, es);
    RunAccounted(s, es);
    HandedOver(t, t.installer.value);
    SuccessorInOrder(t, t.installer.value);
  }

  /** When every caller waits for the loop to end before it drains, nothing is put
      back after the first drain. */
  lemma {:induction false} PatientLeavesNoStray(s: System, es: seq<Event>)
    requires Initial(s) && forall k :: 0 <= k < |es| && es[k].Drain? ==> Settled(Run(s, es[..k]))
    ensures Run(s, es).stray.GoesOn? && (Run(s, es).first.Some? ==> Settled(Run(s, es)) && Run(s, es).queue == [])
    decreases |es|
  {
    if es != [] {
      var shorter := es[..|es| - 1];
      forall k | 0 <= k < |shorter| && shorter[k].Drain? ensures Settled(Run(s, shorter[..k])) {
        assert shorter[..k] == es[..k];
      }
      PatientLeavesNoStray(s, shorter);
      RunAccounted(s, shorter);
      PatientStep(Run(s, shorter), es[|es| - 1]);
    }
  }

  lemma PatientStep(s: System, e: Event)
    requires Accounted(s) && Handed(s) && s.stray.GoesOn? && (s.first.Some? ==> Settled(s) && s.queue == [])
    requires e.Drain? ==> Settled(s)
    ensures var t := Apply(s, e);
      t.stray.GoesOn? && (t.first.Some? ==> Settled(t) && t.queue == [])
  {
  }

  /** A single caller is the first to drain and nobody drains after it. */
  lemma {:induction false} OneCallerIsFirst(s: System, es: seq<Event>, i: nat)
    requires Initial(s) && forall k :: 0 <= k < |es| && es[k].Drain? ==> es[k].caller == i
    ensures OnlyCaller(Run(s, es), i)
    decreases |es|
  {
    if es != [] {
      OneCallerIsFirst(s, es[..|es| - 1], i);
      RunAccounted(s, es[..|es| - 1]);
      OneCallerStep(Run(s, es[..|es| - 1]), es[|es| - 1], i);
    }
  }

  ghost predicate OnlyCaller(s: System, i: nat) {
    && !s.stray.TakenBy? && (s.installer.Some? ==> s.first == s.installer) && (s.first.Some? ==> s.first == Some(i))
    && (forall j :: j in s.drained ==> j == i && s.first.Some?)
  }

  lemma OneCallerStep(s: System, e: Event, i: nat)
    requires s.capacity > 0 && Handed(s) && OnlyCaller(s, i) && (e.Drain? ==> e.caller == i)
    ensures OnlyCaller(Apply(s, e), i)
  {
  }

  /** Step `k` is a write that fails for good after the first drain. */
  ghost predicate FailsLate(s: System, es: seq<Event>, k: nat)
    requires s.capacity > 0
  {
    k < |es| && es[k].Fail? &&
    var t := Run(s, es[..k]);
    t.first.Some? && (t.phase.LastWriting? || t.phase.DrainWriting?)
  }

  lemma LeftBehindStep(s: System, e: Event, i: nat)
    requires s.capacity > 0 && OnlyCaller(s, i) && (e.Drain? ==> e.caller == i) && Handed(s)
    ensures Apply(s, e).stray.LeftBehind? <==>
      s.stray.LeftBehind? || (e.Fail? && s.first.Some? && (s.phase.LastWriting? || s.phase.DrainWriting?))
  {
  }

  /** With one caller, events are left behind exactly when a write failed for good
      after it drained. */
  lemma {:induction false} LeftBehindIff(s: System, es: seq<Event>, i: nat)
    requires Initial(s) && forall k :: 0 <= k < |es| && es[k].Drain? ==> es[k].caller == i
    ensures Run(s, es).stray.LeftBehind? <==> exists k: nat :: FailsLate(s, es, k)
    decreases |es|
  {
    if es != [] {
      var shorter := es[..|es| - 1];
      LeftBehindIff(s, shorter, i);
      OneCallerIsFirst(s, shorter, i);
      RunAccounted(s, shorter);
      LeftBehindStep(Run(s, shorter), es[|es| - 1], i);
      FailsLateShorter(s, es, shorter);
    }
  }

  lemma FailsLateShorter(s: System, es: seq<Event>, shorter: seq<Event>)
    requires s.capacity > 0 && es != [] && shorter == es[..|es| - 1]
    ensures (exists k: nat :: FailsLate(s, es, k)) <==>
      FailsLate(s, es, |es| - 1) || exists k: nat :: FailsLate(s, shorter, k)
  {
    forall k: nat | k < |shorter| ensures FailsLate(s, es, k) <==> FailsLate(s, shorter, k) {
      assert shorter[..k] == es[..k];
    }
    if k: nat :| FailsLate(s, es, k) && k < |shorter| {
      assert FailsLate(s, shorter, k);
    }
    if k: nat :| FailsLate(s, shorter, k) {
      assert FailsLate(s, es, k);
    }
  }

  /** One caller, whatever its deadline: nothing is lost exactly when no write
      failed for good after it drained; and nothing is lost if it waited for the
      loop to end. */
  lemma OneCallerLosesIff(s: System, es: seq<Event>, i: nat)
    requires Initial(s) && s.capacity <= AuditWriter.QUEUE_CAPACITY
    requires forall k :: 0 <= k < |es| && es[k].Drain? ==> es[k].caller == i
    requires Settled(Run(s, es)) && Run(s, es).installer.Some?
    ensures Complete(Run(s, es)) <==> !exists k: nat :: FailsLate(s, es, k)
    ensures (forall k :: 0 <= k < |es| && es[k].Drain? ==> Settled(Run(s, es[..k]))) ==> Complete(Run(s, es))
  {
    SuccessorGetsRemainderIff(s, es);
    OneCallerIsFirst(s, es, i);
    LeftBehindIff(s, es, i);
    if forall k :: 0 <= k < |es| && es[k].Drain? ==> Settled(Run(s, es[..k])) {
      PatientLeavesNoStray(s, es);
    }
  }

  // ---- schedules that lose events ----

  lemma {:induction false} RunConcat(s: System, a: seq<Event>, b: seq<Event>)
    requires s.capacity > 0
    ensures Run(s, a + b) == Run(Run(s, a), b)
    decreases |b|
  {
    if b == [] {
      assert a + b == a;
    } else {
      RunConcat(s, a, b[..|b| - 1]);
      assert (a + b)[..|a + b| - 1] == a + b[..|b| - 1];
    }
  }

  lemma RunThree(s: System, a: Event, b: Event, c: Event)
    requires s.capacity > 0
    ensures Run(s, [a, b, c]) == Apply(Apply(Apply(s, a), b), c)
  {
    assert [a, b, c][..2] == [a, b] && [a, b][..1] == [a] && [a][..0] == [];
    assert Run(s, [a]) == Apply(Run(s, []), a);
    assert Run(s, [a, b]) == Apply(Apply(s, a), b);
  }

  lemma OneCollected(s: System, x: AuditEvent)
    requires Initial(s)
    ensures Run(s, [Start, Push(x), Pop]) == s.(phase := Collecting([x]), offered := [x])
  {
    RunThree(s, Start, Push(x), Pop);
    var u := Apply(Apply(s, Start), Push(x));
    assert s.queue + [x] == [x] && s.offered + [x] == [x];
    assert u == s.(phase := Idle, queue := [x], offered := [x]);
    CollectOne(u, x);
  }

  lemma CollectOne(s: System, x: AuditEvent)
    requires s.batchSize > 0 && s.phase.Idle? && s.queue == [x]
    ensures AfterPop(s) == s.(phase := Collecting([x]), queue := [])
  {
    assert [x][..1] == [x] && [x][1..] == [];
  }

  lemma DrainedWhileWriting(s: System, x: AuditEvent)
    requires s.capacity > 0 && s.phase == Collecting([x]) && s.queue == [] && s.drained == map[] && s.first.None?
    ensures Run(s, [FlushDue, Stop, Drain(0)]) == s.(phase := Writing([x]), stopped := true, drained := map[0 := []], first := Some(0))
  {
    RunThree(s, FlushDue, Stop, Drain(0));
    var u := Apply(Apply(s, FlushDue), Stop);
    assert u == s.(phase := Writing([x]), stopped := true);
    assert u.drained[0 := []] == map[0 := []];
  }

  lemma ReplacedThenFails(s: System, x: AuditEvent)
    requires s.capacity > 0 && s.phase == Writing([x]) && s.queue == [] && s.stopped && s.drained == map[0 := []] && s.installer.None?
    ensures Run(s, [Replace(0), Fail, SeeStop]) == s.(phase := Draining, queue := [x], installer := Some(0), successor := [])
  {
    RunThree(s, Replace(0), Fail, SeeStop);
    ReplaceEmpty(s);
    var u := s.(installer := Some(0), successor := []);
    assert Apply(u, Fail) == u.(phase := Retrying([x]));
    PutBack(u.(phase := Retrying([x])), x);
  }

  lemma ReplaceEmpty(s: System)
    requires s.capacity > 0 && s.drained == map[0 := []] && s.installer.None?
    ensures Apply(s, Replace(0)) == s.(installer := Some(0), successor := [])
  {
  }

  lemma PutBack(s: System, x: AuditEvent)
    requires s.capacity > 0 && s.phase == Retrying([x]) && s.queue == [] && s.stopped
    ensures Apply(s, SeeStop) == s.(phase := Draining, queue := [x])
  {
    assert [x] + s.queue == [x];
  }

  lemma FailsForGood(s: System, x: AuditEvent)
    requires s.capacity > 0 && s.batchSize > 0 && s.phase.Draining? && s.queue == [x] && s.first.Some?
    ensures Run(s, [Pop, Fail, Fail]) == s.(phase := Finished, stray := LeftBehind)
  {
    RunThree(s, Pop, Fail, Fail);
    PopOne(s, x);
    FailOne(AfterPop(s), x);
  }

  lemma PopOne(s: System, x: AuditEvent)
    requires s.batchSize > 0 && s.phase.Draining? && s.queue == [x]
    ensures AfterPop(s) == s.(phase := DrainWriting([x]), queue := [])
  {
    assert [x][..1] == [x] && [x][1..] == [];
  }

  lemma FailOne(s: System, x: AuditEvent)
    requires s.capacity > 0 && s.phase == DrainWriting([x]) && s.queue == [] && s.first.Some?
    ensures Apply(s, Fail) == s.(phase := Finished, queue := [x], stray := LeftBehind)
  {
    assert [x] + s.queue == [x];
  }

  /** A caller whose deadline passes while a batch is being written: the write
      fails twice, and its batch is neither written, nor handed over, nor counted
      as dropped. */
  lemma DeadlineLosesBatch(s: System, x: AuditEvent) returns (es: seq<Event>)
    requires Initial(s)
    ensures var t := Run(s, es);
      Settled(t) && t.installer == Some(0) && t.offered == [x] && t.written == [] && t.dropped == 0 && t.successor == []
  {
    var a, b, c, d := [Start, Push(x), Pop], [FlushDue, Stop, Drain(0)], [Replace(0), Fail, SeeStop], [Pop, Fail, Fail];
    es := a + b + c + d;
    RunConcat(s, a, b);
    RunConcat(s, a + b, c);
    RunConcat(s, a + b + c, d);
    OneCollected(s, x);
    DrainedWhileWriting(Run(s, a), x);
    ReplacedThenFails(Run(s, a + b), x);
    FailsForGood(Run(s, a + b + c), x);
  }

  /** Two callers at once: the second drains nothing and installs its empty
      successor first. The writer here was never started. */
  lemma RaceLosesRemainder(s: System, x: AuditEvent) returns (es: seq<Event>)
    requires Initial(s)
    ensures var t := Run(s, es);
      Settled(t) && t.installer == Some(1) && t.offered == [x] && t.written == [] && t.dropped == 0 && t.successor == []
  {
    var a, b := [Push(x), Stop, Drain(0)], [Drain(1), Replace(1), Replace(0)];
    es := a + b;
    RunConcat(s, a, b);
    RunThree(s, Push(x), Stop, Drain(0));
    RunThree(Run(s, a), Drain(1), Replace(1), Replace(0));
    assert s.queue + [x] == [x];
  }
}
