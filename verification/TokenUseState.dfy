/**
 The state of one token-use debouncer and the effect of each region of code that
 holds its mutex. The runtime timers it has armed are part of the state: a timer
 carries the epoch it was armed under.
 */
module TokenUseState {
  import opened Basics

  datatype Update = Update(ip: string, ts: int)

  type Updates = map<nat, Update>

  datatype Alarm = Alarm(epoch: nat, delay: int)

  datatype Debouncer = Debouncer(
    pending: Updates,
    timer: Option<nat>,
    epoch: nat,
    circuitUntil: Option<int>,
    retired: bool,
    armed: map<nat, Alarm>,
    nextTimer: nat,
    interval: int,
    failureBackoff: int)

  predicate CircuitOpen(d: Debouncer, now: int) {
    d.circuitUntil.Some? && d.circuitUntil.value > now
  }

  function Delay(d: Debouncer, now: int): int {
    if CircuitOpen(d, now) then d.circuitUntil.value - now else d.interval
  }

  function Scheduled(d: Debouncer, now: int): Debouncer {
    if d.retired || d.timer.Some? then d
    else d.(timer := Some(d.nextTimer),
            armed := d.armed[d.nextTimer := Alarm(d.epoch, Delay(d, now))],
            nextTimer := d.nextTimer + 1)
  }

  function ScheduledIfPending(d: Debouncer, now: int): Debouncer {
    if d.pending != map[] then Scheduled(d, now) else d
  }

  /** Stopping a timer that has already fired does not stop its callback. */
  function TimerStopped(d: Debouncer): Debouncer {
    if d.timer.Some? then d.(timer := None, armed := d.armed - {d.timer.value}) else d
  }

  function Recorded(d: Debouncer, id: nat, u: Update, now: int): Debouncer {
    if id == 0 || d.retired then d else Scheduled(d.(pending := d.pending[id := u]), now)
  }

  /** A callback that found the gate suspended. */
  function Bounced(d: Debouncer, epoch: nat, now: int): Debouncer {
    if epoch == d.epoch then ScheduledIfPending(d.(timer := None), now) else d
  }

  predicate CallbackStops(d: Debouncer, epoch: nat, now: int) {
    epoch != d.epoch || CircuitOpen(d, now)
  }

  function CircuitChecked(d: Debouncer, epoch: nat, now: int): Debouncer {
    if epoch == d.epoch && CircuitOpen(d, now) then ScheduledIfPending(TimerStopped(d), now) else d
  }

  predicate Takes(d: Debouncer, epoch: nat) { !d.retired && epoch == d.epoch }

  function Taken(d: Debouncer, epoch: nat): Debouncer {
    if Takes(d, epoch) then d.(pending := map[], timer := None) else d
  }

  function FlushTaken(d: Debouncer): Debouncer {
    if d.retired then d else TimerStopped(d.(epoch := d.epoch + 1, pending := map[]))
  }

  /** The later timestamp wins; on a tie the update already pending stays. */
  function Merged(pending: Updates, batch: Updates): (r: Updates)
    ensures r.Keys == pending.Keys + batch.Keys
  {
    pending + (batch - (set id | id in batch && id in pending && batch[id].ts <= pending[id].ts))
  }

  function RequeuedAfterError(d: Debouncer, batch: Updates, now: int): Debouncer {
    ScheduledIfPending(
      TimerStopped(d.(pending := Merged(d.pending, batch), circuitUntil := Some(now + d.failureBackoff), epoch := d.epoch + 1)),
      now)
  }

  function CircuitClosed(d: Debouncer, now: int): Debouncer {
    var closed := d.(circuitUntil := None);
    if d.circuitUntil.Some? && d.pending != map[] then
      Scheduled(if d.timer.Some? then TimerStopped(closed).(epoch := d.epoch + 1) else closed, now)
    else closed
  }

  function Retired(d: Debouncer): Debouncer {
    TimerStopped(d.(retired := true, epoch := d.epoch + 1)).(pending := map[])
  }
}
