/** The debouncer as an object; each method is one region under its mutex. */
module TokenUseDebouncer {
  import opened Basics
  import opened TokenUseState

  class TokenUse {
    var pending: Updates
    var timer: Option<nat>
    var epoch: nat
    var circuitUntil: Option<int>
    var retired: bool
    var armed: map<nat, Alarm>
    var nextTimer: nat
    const interval: int
    const failureBackoff: int

    constructor (interval: int, failureBackoff: int)
      ensures State() == Debouncer(map[], None, 0, None, false, map[], 0, if interval <= 0 then 60 else interval, failureBackoff)
    {
      this.interval := if interval <= 0 then 60 else interval;
      this.failureBackoff := failureBackoff;
      pending, timer, epoch, circuitUntil, retired, armed, nextTimer := map[], None, 0, None, false, map[], 0;
    }

    function State(): Debouncer
      reads this
    {
      Debouncer(pending, timer, epoch, circuitUntil, retired, armed, nextTimer, interval, failureBackoff)
    }

    method Schedule(now: int)
      modifies this`timer, this`armed, this`nextTimer
      ensures State() == Scheduled(old(State()), now)
    {
      if retired || timer.Some? {
        return;
      }
      var delay := interval;
      if circuitUntil.Some? && circuitUntil.value > now {
        delay := circuitUntil.value - now;
      }
      timer := Some(nextTimer);
      armed := armed[nextTimer := Alarm(epoch, delay)];
      nextTimer := nextTimer + 1;
    }

    method StopTimer()
      modifies this`timer, this`armed
      ensures State() == TimerStopped(old(State()))
    {
      if timer.Some? {
        armed := armed - {timer.value};
        timer := None;
      }
    }

    method Record(id: nat, ip: string, ts: int, now: int)
      modifies this
      ensures State() == Recorded(old(State()), id, Update(ip, ts), now)
    {
      if id == 0 || retired {
        return;
      }
      pending := pending[id := Update(ip, ts)];
      Schedule(now);
    }

    method Bounce(callbackEpoch: nat, now: int)
      modifies this
      ensures State() == Bounced(old(State()), callbackEpoch, now)
    {
      if callbackEpoch == epoch {
        timer := None;
        if pending != map[] {
          Schedule(now);
        }
      }
    }

    method TimerCircuitOpen(callbackEpoch: nat, now: int) returns (stop: bool)
      modifies this
      ensures stop == CallbackStops(old(State()), callbackEpoch, now)
      ensures State() == CircuitChecked(old(State()), callbackEpoch, now)
    {
      if callbackEpoch != epoch {
        return true;
      }
      if !(circuitUntil.Some? && circuitUntil.value > now) {
        return false;
      }
      StopTimer();
      if pending != map[] {
        Schedule(now);
      }
      return true;
    }

    method TakePending(callbackEpoch: nat) returns (updates: Updates)
      modifies this
      ensures updates == if Takes(old(State()), callbackEpoch) then old(pending) else map[]
      ensures State() == Taken(old(State()), callbackEpoch)
    {
      if retired || callbackEpoch != epoch {
        return map[];
      }
      updates := pending;
      pending := map[];
      timer := None;
    }

    method FlushTake() returns (updates: Updates)
      modifies this
      ensures updates == if old(retired) then map[] else old(pending)
      ensures State() == FlushTaken(old(State()))
    {
      if retired {
        return map[];
      }
      epoch := epoch + 1;
      StopTimer();
      updates := pending;
      pending := map[];
    }

    method MergeLocked(batch: Updates)
      modifies this`pending
      ensures pending == Merged(old(pending), batch)
    {
      var todo := batch.Keys;
      while todo != {}
        invariant todo <= batch.Keys
        invariant pending.Keys == old(pending).Keys + (batch.Keys - todo)
        invariant forall id :: id in pending && id in todo ==> pending[id] == old(pending)[id]
        invariant forall id :: id in pending && id !in todo ==> pending[id] == Merged(old(pending), batch)[id]
        decreases todo
      {
        var id :| id in todo;
        if id !in pending || batch[id].ts > pending[id].ts {
          pending := pending[id := batch[id]];
        }
        todo := todo - {id};
      }
    }

    method RequeueAfterWriteError(batch: Updates, now: int)
      modifies this
      ensures State() == RequeuedAfterError(old(State()), batch, now)
      ensures circuitUntil == Some(now + failureBackoff) && epoch == old(epoch) + 1
    {
      MergeLocked(batch);
      circuitUntil := Some(now + failureBackoff);
      epoch := epoch + 1;
      StopTimer();
      if pending != map[] {
        Schedule(now);
      }
    }

    method CloseFailureCircuit(now: int)
      modifies this
      ensures State() == CircuitClosed(old(State()), now)
    {
      var hadCircuit := circuitUntil.Some?;
      circuitUntil := None;
      if hadCircuit && pending != map[] {
        if timer.Some? {
          StopTimer();
          epoch := epoch + 1;
        }
        Schedule(now);
      }
    }

    method Reschedule(now: int)
      modifies this
      ensures State() == ScheduledIfPending(old(State()), now)
    {
      if pending != map[] {
        Schedule(now);
      }
    }

    method Retire()
      modifies this
      ensures State() == Retired(old(State()))
    {
      retired := true;
      epoch := epoch + 1;
      StopTimer();
      pending := map[];
    }
  }
}
