/** The bounded priority queue of the audit writer. */
module AuditQueue {
  datatype AuditEvent = AuditEvent(severity: string, record: string)

  type Queue = seq<AuditEvent>

  predicate LowPriority(e: AuditEvent) { e.severity == "" || e.severity == "info" }

  /** The event that gives way when the queue is full: the oldest low-priority
      one, else the newcomer if it is low-priority (-1), else the oldest. */
  function Victim(queue: Queue, e: AuditEvent): (v: int)
    ensures -1 <= v
    ensures queue != [] ==> v < |queue|
    ensures v >= 0 && queue != [] ==>
      (LowPriority(queue[v]) && forall i :: 0 <= i < v ==> !LowPriority(queue[i])) ||
      (v == 0 && !LowPriority(e) && forall i :: 0 <= i < |queue| ==> !LowPriority(queue[i]))
    ensures v < 0 ==> LowPriority(e) && forall i :: 0 <= i < |queue| ==> !LowPriority(queue[i])
    ensures forall i :: 0 <= i < |queue| && queue[i].severity in {"", "info"} ==>
      0 <= v <= i && queue[v].severity in {"", "info"}
    ensures (forall i :: 0 <= i < |queue| ==> queue[i].severity !in {"", "info"}) ==>
      v == if e.severity in {"", "info"} then -1 else 0
  {
    var i := FirstLow(queue);
    if i < |queue| then i else if LowPriority(e) then -1 else 0
  }

  function FirstLow(queue: Queue): (i: nat)
    ensures i <= |queue|
    ensures i < |queue| ==> LowPriority(queue[i])
    ensures forall j :: 0 <= j < i ==> !LowPriority(queue[j])
  {
    if queue == [] then 0 else if LowPriority(queue[0]) then 0 else 1 + FirstLow(queue[1..])
  }

  function Pushed(queue: Queue, capacity: nat, e: AuditEvent): Queue
    requires capacity > 0
  {
    if |queue| < capacity then queue + [e]
    else if Victim(queue, e) < 0 then queue
    else Without(queue, Victim(queue, e)) + [e]
  }

  function Without(queue: Queue, v: nat): Queue
    requires v < |queue|
  {
    queue[..v] + queue[v + 1..]
  }

  /** Events pushed one after the other. */
  function PushedAll(queue: Queue, capacity: nat, events: Queue): Queue
    requires capacity > 0
    decreases |events|
  {
    if events == [] then queue
    else Pushed(PushedAll(queue, capacity, events[..|events| - 1]), capacity, events[|events| - 1])
  }

  lemma {:induction false} PushedAllFits(queue: Queue, capacity: nat, events: Queue)
    requires 0 < capacity && |queue| + |events| <= capacity
    ensures PushedAll(queue, capacity, events) == queue + events
    decreases |events|
  {
    if events != [] {
      PushedAllFits(queue, capacity, events[..|events| - 1]);
      assert queue + events[..|events| - 1] + [events[|events| - 1]] == queue + events;
    }
  }

  lemma PushedSize(queue: Queue, capacity: nat, e: AuditEvent)
    requires 0 < capacity && |queue| <= capacity
    ensures |Pushed(queue, capacity, e)| == |queue| + if |queue| < capacity then 1 else 0
  {
  }

  function Truncated(queue: Queue, capacity: nat): Queue {
    if |queue| <= capacity then queue else queue[..capacity]
  }

  // ---- subsequences ----

  ghost predicate Sub(a: Queue, b: Queue)
    decreases |b|
  {
    || a == []
    || (b != [] && a[|a| - 1] == b[|b| - 1] && Sub(a[..|a| - 1], b[..|b| - 1]))
    || (b != [] && Sub(a, b[..|b| - 1]))
  }

  lemma {:induction false} SubRefl(a: Queue)
    ensures Sub(a, a)
    decreases |a|
  {
    if a != [] {
      SubRefl(a[..|a| - 1]);
    }
  }

  lemma {:induction false} SubTrans(a: Queue, b: Queue, c: Queue)
    requires Sub(a, b) && Sub(b, c)
    ensures Sub(a, c)
    decreases |c|, |b|
  {
    if a == [] || b == [] {
    } else if Sub(b, c[..|c| - 1]) {
      SubTrans(a, b, c[..|c| - 1]);
    } else if Sub(a, b[..|b| - 1]) {
      SubTrans(a, b[..|b| - 1], c[..|c| - 1]);
    } else {
      SubTrans(a[..|a| - 1], b[..|b| - 1], c[..|c| - 1]);
    }
  }

  lemma SubSnoc(a: Queue, b: Queue, e: AuditEvent)
    requires Sub(a, b)
    ensures Sub(a + [e], b + [e]) && Sub(a, b + [e])
  {
    assert (a + [e])[..|a|] == a && (b + [e])[..|b|] == b;
  }

  lemma {:induction false} SubPrefix(a: Queue, n: nat)
    requires n <= |a|
    ensures Sub(a[..n], a)
    decreases |a|
  {
    SubRefl(a);
    if n < |a| {
      SubPrefix(a[..|a| - 1], n);
      assert a[..|a| - 1][..n] == a[..n];
    } else {
      assert a[..n] == a;
    }
  }

  /** Cutting out a middle part leaves a subsequence. */
  lemma {:induction false} SubCut(a: Queue, b: Queue, c: Queue)
    ensures Sub(a + c, a + b + c)
    decreases |c|
  {
    if c == [] {
      assert a + c == a && a + b + c == a + b && (a + b)[..|a|] == a;
      SubPrefix(a + b, |a|);
    } else {
      var front, last := c[..|c| - 1], c[|c| - 1];
      SubCut(a, b, front);
      SubSnoc(a + front, a + b + front, last);
      assert a + front + [last] == a + c && a + b + front + [last] == a + b + c;
    }
  }

  // ---- what a push does ----

  function Warnings(queue: Queue): nat {
    if queue == [] then 0
    else Warnings(queue[..|queue| - 1]) + if LowPriority(queue[|queue| - 1]) then 0 else 1
  }

  lemma {:induction false} WarningsConcat(a: Queue, b: Queue)
    ensures Warnings(a + b) == Warnings(a) + Warnings(b)
    decreases |b|
  {
    if b == [] {
      assert a + b == a;
    } else {
      WarningsConcat(a, b[..|b| - 1]);
      assert (a + b)[..|a + b| - 1] == a + b[..|b| - 1];
    }
  }

  lemma WarningsOne(e: AuditEvent)
    ensures Warnings([e]) == if LowPriority(e) then 0 else 1
  {
  }

  lemma {:induction false} WarningsWithout(queue: Queue, v: nat)
    requires v < |queue|
    ensures Warnings(Without(queue, v)) == Warnings(queue) - if LowPriority(queue[v]) then 0 else 1
    decreases |queue|
  {
    var front, last, w := queue[..|queue| - 1], queue[|queue| - 1], Without(queue, v);
    if v == |queue| - 1 {
      assert w == front;
    } else {
      WarningsWithout(front, v);
      assert w[..|w| - 1] == Without(front, v) && w[|w| - 1] == last;
    }
  }

  /** A push keeps the capacity, keeps the order of what stays and of the
      newcomer, and drops at most one event. */
  lemma PushKeepsOrder(before: Queue, queue: Queue, capacity: nat, e: AuditEvent)
    requires 0 < capacity && |queue| <= capacity
    ensures |Pushed(queue, capacity, e)| <= capacity
    ensures |Pushed(queue, capacity, e)| == |queue| + if |queue| < capacity then 1 else 0
    ensures Sub(before + Pushed(queue, capacity, e), before + queue + [e])
  {
    var after, v := Pushed(queue, capacity, e), Victim(queue, e);
    var all := before + queue;
    SubRefl(all);
    SubSnoc(all, all, e);
    if |queue| < capacity {
      assert before + after == all + [e];
    } else if v >= 0 {
      VictimGone(before, queue, v, e);
    }
  }

  lemma VictimGone(before: Queue, queue: Queue, v: nat, e: AuditEvent)
    requires v < |queue|
    ensures Sub(before + (queue[..v] + queue[v + 1..] + [e]), before + queue + [e])
  {
    var a, c := before + queue[..v], queue[v + 1..];
    assert queue == queue[..v] + [queue[v]] + c;
    assert before + queue == a + [queue[v]] + c;
    SubCut(a, [queue[v]], c);
    SubSnoc(a + c, before + queue, e);
    assert a + c + [e] == before + (queue[..v] + queue[v + 1..] + [e]);
  }

  /** No push lowers the number of warnings queued. A warning leaves only when
      the queue is full, holds no low-priority event and the newcomer is a
      warning too; then the oldest one goes. */
  lemma PushKeepsWarnings(queue: Queue, capacity: nat, e: AuditEvent)
    requires 0 < capacity && |queue| <= capacity
    ensures Warnings(queue) <= Warnings(Pushed(queue, capacity, e))
    ensures Warnings(Pushed(queue, capacity, e)) ==
      if LowPriority(e) then Warnings(queue)
      else if |queue| < capacity || exists i :: 0 <= i < |queue| && LowPriority(queue[i]) then Warnings(queue) + 1
      else Warnings(queue)
    ensures !LowPriority(e) && |queue| == capacity && (forall i :: 0 <= i < |queue| ==> !LowPriority(queue[i])) ==>
      Pushed(queue, capacity, e) == queue[1..] + [e]
  {
    WarningsOne(e);
    if |queue| < capacity {
      WarningsConcat(queue, [e]);
    } else {
      FullPush(queue, capacity, e);
    }
  }

  lemma FullPush(queue: Queue, capacity: nat, e: AuditEvent)
    requires 0 < capacity == |queue|
    ensures var v, after := Victim(queue, e), Pushed(queue, capacity, e);
            && (v < 0 ==> after == queue)
            && (v >= 0 ==> Warnings(after) == Warnings(queue) - (if LowPriority(queue[v]) then 0 else 1) + if LowPriority(e) then 0 else 1)
            && (v == 0 ==> after == queue[1..] + [e])
  {
    var v := Victim(queue, e);
    if v >= 0 {
      WarningsOne(e);
      WarningsWithout(queue, v);
      WarningsConcat(Without(queue, v), [e]);
    }
  }

  // ---- the same on severities ----

  /** Where an event of severity "" or "info" stands first in the queue. */
  ghost predicate FirstMinor(queue: Queue, v: int) {
    && 0 <= v < |queue| && queue[v].severity in {"", "info"}
    && forall i :: 0 <= i < v ==> queue[i].severity !in {"", "info"}
  }

  ghost predicate NoneMinor(queue: Queue) {
    forall i :: 0 <= i < |queue| ==> queue[i].severity !in {"", "info"}
  }

  /** Every push, on severities: with room the newcomer is appended. A full queue
      loses its first event of severity "" or "info"; if it has none, a newcomer of
      such a severity is refused and any other one replaces the oldest event. */
  lemma PushBySeverity(queue: Queue, capacity: nat, e: AuditEvent)
    requires 0 < capacity && |queue| <= capacity
    ensures |queue| < capacity ==> Pushed(queue, capacity, e) == queue + [e]
    ensures forall v :: |queue| == capacity && FirstMinor(queue, v) ==>
      Pushed(queue, capacity, e) == queue[..v] + queue[v + 1..] + [e]
    ensures |queue| == capacity && NoneMinor(queue) ==>
      Pushed(queue, capacity, e) == if e.severity in {"", "info"} then queue else queue[1..] + [e]
  {
    forall v | |queue| == capacity && FirstMinor(queue, v)
      ensures Pushed(queue, capacity, e) == queue[..v] + queue[v + 1..] + [e]
    {
      VictimIsMinor(queue, e, v);
    }
    if |queue| == capacity && NoneMinor(queue) {
      VictimOfSerious(queue, e);
    }
  }

  lemma VictimIsMinor(queue: Queue, e: AuditEvent, v: int)
    requires FirstMinor(queue, v)
    ensures Victim(queue, e) == v
  {
    assert LowPriority(queue[v]);
    var w := Victim(queue, e);
    assert w >= 0 && LowPriority(queue[w]);
  }

  lemma VictimOfSerious(queue: Queue, e: AuditEvent)
    requires NoneMinor(queue) && queue != []
    ensures Victim(queue, e) == if e.severity in {"", "info"} then -1 else 0
    ensures e.severity !in {"", "info"} ==> Without(queue, 0) == queue[1..]
  {
    assert forall i :: 0 <= i < |queue| ==> !LowPriority(queue[i]);
  }

  /** The number of queued events whose severity is neither "" nor "info". */
  function Serious(queue: Queue): nat {
    if queue == [] then 0
    else Serious(queue[..|queue| - 1]) + if queue[|queue| - 1].severity in {"", "info"} then 0 else 1
  }

  lemma {:induction false} SeriousIsWarnings(queue: Queue)
    ensures Serious(queue) == Warnings(queue)
    decreases |queue|
  {
    if queue != [] {
      SeriousIsWarnings(queue[..|queue| - 1]);
    }
  }

  /** No push lowers their number. */
  lemma PushKeepsSerious(queue: Queue, capacity: nat, e: AuditEvent)
    requires 0 < capacity && |queue| <= capacity
    ensures Serious(queue) <= Serious(Pushed(queue, capacity, e))
  {
    SeriousIsWarnings(queue);
    SeriousIsWarnings(Pushed(queue, capacity, e));
    PushKeepsWarnings(queue, capacity, e);
  }
}
