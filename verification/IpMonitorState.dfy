/**
 The shared in-memory state of the IP monitor: the policy cache, the pending
 observations and the flush batches owned by open transactions. Each function
 gives the effect of one region of code that holds the two state locks.
 */
module IpMonitorState {
  import opened Basics

  type Client = string
  type Hash = string

  datatype Mode = Unset | Monitor | Enforce

  datatype Observation = Observation(lastSeen: int, display: Option<string>)

  type Observations = map<Hash, Observation>
  type Snapshot = map<Client, Observations>

  datatype Entry = Entry(limit: int, mode: Mode, ips: set<Hash>, expiresAt: int)
  {
    predicate Limits() { mode.Enforce? && limit > 0 }
  }

  type Cache = map<Client, Entry>

  /** A batch is named by the order in which it was taken; the source tells
      batches apart by address. */
  datatype Mem = Mem(
    revision: nat,
    cache: Cache,
    pending: Snapshot,
    flushing: map<nat, Snapshot>,
    nextBatch: nat)

  const EMPTY := Mem(0, map[], map[], map[], 0)

  function Of(snapshot: Snapshot, c: Client): Observations {
    if c in snapshot then snapshot[c] else map[]
  }

  // ---- what is known about a client in memory ----

  ghost function FlushingHashes(flushing: map<nat, Snapshot>, c: Client): set<Hash> {
    set b, h | b in flushing && h in Of(flushing[b], c) :: h
  }

  /** Hashes that are accepted but not yet known to be only in the database. */
  ghost function Held(m: Mem, c: Client): set<Hash> {
    Of(m.pending, c).Keys + FlushingHashes(m.flushing, c)
  }

  /** The set an admission counts: cached history and everything held. */
  ghost function Seen(m: Mem, c: Client, ips: set<Hash>): set<Hash> {
    ips + Held(m, c)
  }

  // ---- admission ----

  predicate Fresh(m: Mem, c: Client, now: int) {
    c in m.cache && now < m.cache[c].expiresAt
  }

  ghost predicate WithinLimit(m: Mem, c: Client, h: Hash)
    requires c in m.cache
  {
    var e := m.cache[c];
    var seen := Seen(m, c, e.ips);
    e.Limits() ==> h in seen || |seen + {h}| <= e.limit
  }

  ghost predicate Admits(m: Mem, c: Client, h: Hash, revision: nat, now: int) {
    revision == m.revision && Fresh(m, c, now) && WithinLimit(m, c, h)
  }

  function CacheAdd(cache: Cache, c: Client, ips: set<Hash>): Cache {
    if c in cache then cache[c := cache[c].(ips := cache[c].ips + ips)] else cache
  }

  function Recorded(m: Mem, c: Client, h: Hash, o: Observation): Mem {
    m.(pending := m.pending[c := Of(m.pending, c)[h := o]], cache := CacheAdd(m.cache, c, {h}))
  }

  ghost function Decided(m: Mem, c: Client, h: Hash, o: Observation, observe: bool, revision: nat, now: int): Mem {
    if Admits(m, c, h, revision, now) && observe then Recorded(m, c, h, o) else m
  }

  // ---- policy loads ----

  /** A load runs only under the current revision and when no fresh entry is
      there; it drops the stale entry first. */
  predicate LoadStarts(m: Mem, c: Client, revision: nat, now: int) {
    revision == m.revision && !Fresh(m, c, now)
  }

  function LoadStarted(m: Mem, c: Client, revision: nat, now: int): Mem {
    if LoadStarts(m, c, revision, now) then m.(cache := m.cache - {c}) else m
  }

  function Installed(m: Mem, c: Client, e: Entry, revision: nat, expiresAt: int): Mem {
    if revision == m.revision then m.(cache := m.cache[c := e.(expiresAt := expiresAt)]) else m
  }

  // ---- invalidation ----

  function Invalidated(m: Mem, c: Client): Mem {
    m.(revision := m.revision + 1, cache := m.cache - {c})
  }

  function AllInvalidated(m: Mem): Mem {
    m.(revision := m.revision + 1, cache := map[])
  }

  function Reset(m: Mem): Mem {
    m.(revision := m.revision + 1, cache := map[], pending := map[], flushing := map[])
  }

  function Warmed(m: Mem, entries: Cache, revision: nat): Mem {
    if revision == m.revision then m.(revision := m.revision + 1, cache := entries) else m
  }

  // ---- flush batches ----

  function FlushBegun(m: Mem): Mem {
    m.(pending := map[],
       flushing := if m.pending == map[] then m.flushing else m.flushing[m.nextBatch := m.pending],
       nextBatch := m.nextBatch + 1)
  }

  /** Per hash the later sighting wins; on a tie the one already there stays. */
  function MergedObservations(there: Observations, back: Observations): (r: Observations)
    ensures r.Keys == there.Keys + back.Keys
  {
    there + (back - (set h | h in back && h in there && back[h].lastSeen <= there[h].lastSeen))
  }

  function MergedSnapshot(there: Snapshot, back: Snapshot): (r: Snapshot)
    ensures r.Keys == there.Keys + back.Keys
    ensures forall c :: Of(r, c).Keys == Of(there, c).Keys + Of(back, c).Keys
  {
    there + (map c | c in back :: MergedObservations(Of(there, c), back[c]))
  }

  function Requeued(m: Mem, b: nat): Mem {
    if b in m.flushing
    then m.(pending := MergedSnapshot(m.pending, m.flushing[b]), flushing := m.flushing - {b})
    else m
  }

  function CachePublished(cache: Cache, snapshot: Snapshot): (r: Cache)
    ensures r.Keys == cache.Keys
  {
    cache + (map c | c in cache :: cache[c].(ips := cache[c].ips + Of(snapshot, c).Keys))
  }

  function Committed(m: Mem, b: nat): Mem {
    if b in m.flushing
    then m.(revision := m.revision + 1, cache := CachePublished(m.cache, m.flushing[b]), flushing := m.flushing - {b})
    else m
  }
}
