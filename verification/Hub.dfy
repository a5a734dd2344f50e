/** The realtime hub: connection reservations and registered clients. */
module Hub {
  import opened Basics

  datatype Reservation = Reservation(user: string, ip: string)

  /** A registered client; the hub knows it by the number of its registration. */
  datatype Client = Client(sessionRef: string, admin: bool)

  type Counters = map<string, int>

  function Get(c: Counters, k: string): int { if k in c then c[k] else 0 }

  function Up(c: Counters, k: string): Counters { c[k := Get(c, k) + 1] }

  function Down(c: Counters, k: string): Counters { if Get(c, k) > 0 then c[k := Get(c, k) - 1] else c }

  predicate Admits(byUser: Counters, byIp: Counters, r: Reservation, maxPerUser: int, maxPerIp: int) {
    !(maxPerUser > 0 && Get(byUser, r.user) >= maxPerUser) && !(maxPerIp > 0 && Get(byIp, r.ip) >= maxPerIp)
  }

  function OfSession(clients: map<nat, Client>, sessionRef: string): set<nat> {
    if sessionRef == "" then {} else set c | c in clients && clients[c].sessionRef == sessionRef
  }

  /** The clients a topic goes to; security and component topics go to admins. */
  function Audience(clients: map<nat, Client>, adminOnly: bool): set<nat> {
    set c | c in clients && (adminOnly ==> clients[c].admin)
  }

  class Registry {
    var clients: map<nat, Client>
    var next: nat
    var byUser: Counters
    var byIp: Counters

    constructor ()
      ensures clients == map[] && next == 0 && byUser == map[] && byIp == map[]
    {
      clients, next, byUser, byIp := map[], 0, map[], map[];
    }

    method Reserve(r: Reservation, maxPerUser: int, maxPerIp: int) returns (ok: bool)
      modifies this`byUser, this`byIp
      ensures ok == Admits(old(byUser), old(byIp), r, maxPerUser, maxPerIp)
      ensures byUser == if ok then Up(old(byUser), r.user) else old(byUser)
      ensures byIp == if ok then Up(old(byIp), r.ip) else old(byIp)
    {
      if maxPerUser > 0 && Get(byUser, r.user) >= maxPerUser {
        return false;
      }
      if maxPerIp > 0 && Get(byIp, r.ip) >= maxPerIp {
        return false;
      }
      byUser := byUser[r.user := Get(byUser, r.user) + 1];
      byIp := byIp[r.ip := Get(byIp, r.ip) + 1];
      return true;
    }

    method Release(r: Reservation)
      modifies this`byUser, this`byIp
      ensures byUser == Down(old(byUser), r.user) && byIp == Down(old(byIp), r.ip)
    {
      if Get(byUser, r.user) > 0 {
        byUser := byUser[r.user := Get(byUser, r.user) - 1];
      }
      if Get(byIp, r.ip) > 0 {
        byIp := byIp[r.ip := Get(byIp, r.ip) - 1];
      }
    }

    /** A handle without a send channel is not registered. */
    method Register(c: Option<Client>) returns (id: Option<nat>)
      modifies this`clients, this`next
      ensures c.None? ==> id == None && next == old(next) && clients == old(clients)
      ensures c.Some? ==> id == Some(old(next)) && next == old(next) + 1 && clients == old(clients)[old(next) := c.value]
    {
      if c.None? {
        return None;
      }
      id := Some(next);
      clients := clients[next := c.value];
      next := next + 1;
    }

    method Unregister(id: nat)
      modifies this`clients
      ensures clients == old(clients) - {id}
    {
      clients := clients - {id};
    }

    /** Removes the clients of a session and lists those to be told. */
    method CloseSession(sessionRef: string) returns (dropped: multiset<nat>)
      modifies this`clients
      ensures dropped == multiset(OfSession(old(clients), sessionRef))
      ensures clients == old(clients) - OfSession(old(clients), sessionRef)
    {
      dropped := multiset{};
      if sessionRef == "" {
        return;
      }
      var todo, done := clients.Keys, {};
      while todo != {}
        invariant todo <= old(clients).Keys
        invariant done == set c | c in OfSession(old(clients), sessionRef) && c !in todo
        invariant dropped == multiset(done) && clients == old(clients) - done
        decreases todo
      {
        var c :| c in todo;
        if clients[c].sessionRef == sessionRef {
          dropped, done := dropped + multiset{c}, done + {c};
          clients := clients - {c};
        }
        todo := todo - {c};
      }
      assert done == OfSession(old(clients), sessionRef);
    }

    /** Removes every client and lists those to be told. */
    method CloseAll() returns (dropped: multiset<nat>)
      modifies this`clients
      ensures dropped == multiset(old(clients).Keys) && clients == map[]
    {
      dropped := multiset{};
      var todo := clients.Keys;
      while todo != {}
        invariant todo <= clients.Keys && dropped == multiset(clients.Keys - todo)
        decreases todo
      {
        var c :| c in todo;
        assert clients.Keys - (todo - {c}) == (clients.Keys - todo) + {c};
        dropped, todo := dropped + multiset{c}, todo - {c};
      }
      assert clients.Keys - {} == clients.Keys;
      clients := map[];
    }

    /** Removes one client unless somebody else has already. */
    method Drop(c: nat) returns (dropped: bool)
      modifies this`clients
      ensures dropped == (c in old(clients)) && clients == old(clients) - {c}
    {
      dropped := c in clients;
      if dropped {
        clients := clients - {c};
      }
    }

    /** Offers an event to the topic's audience; those in `slow` have
        no room and are dropped, each told once. */
    method Publish(adminOnly: bool, slow: set<nat>) returns (dropped: multiset<nat>)
      modifies this`clients
      ensures dropped == multiset(Audience(old(clients), adminOnly) * slow)
      ensures clients == old(clients) - Audience(old(clients), adminOnly) * slow
    {
      var snapshot := Audience(clients, adminOnly);
      var todo := snapshot;
      dropped := multiset{};
      while todo != {}
        invariant todo <= snapshot
        invariant dropped == multiset((snapshot - todo) * slow)
        invariant clients == old(clients) - (snapshot - todo) * slow
        decreases todo
      {
        var c :| c in todo;
        if c in slow {
          assert (snapshot - (todo - {c})) * slow == (snapshot - todo) * slow + {c};
          var mine := Drop(c);
          if mine {
            dropped := dropped + multiset{c};
          }
        } else {
          assert (snapshot - (todo - {c})) * slow == (snapshot - todo) * slow;
        }
        todo := todo - {c};
      }
      assert (snapshot - {}) * slow == snapshot * slow;
    }
  }

  // ---- runs ----

  /** `held` are the reservations granted and not yet released, by the number of
      the release function handed out. `owed` are the clients some caller has
      removed and not yet told, `told` the drop callbacks made, `left` the
      clients that unregistered. */
  datatype System = System(
    clients: map<nat, Client>,
    next: nat,
    byUser: Counters,
    byIp: Counters,
    held: map<nat, Reservation>,
    granted: nat,
    owed: multiset<nat>,
    told: multiset<nat>,
    left: multiset<nat>)

  datatype Event =
    | Reserve(r: Reservation, maxPerUser: int, maxPerIp: int)
    | Release(handle: nat)
    | Register(c: Client)
    | Unregister(id: nat)
    | CloseSession(sessionRef: string)
    | CloseAll
    | Drop(id: nat)
    | Tell(id: nat)

  const START := System(map[], 0, map[], map[], map[], 0, multiset{}, multiset{}, multiset{})

  /** One locked region or one callback; a release or unregister function called
      again does nothing. */
  function Apply(s: System, e: Event): System {
    match e
    case Reserve(r, maxPerUser, maxPerIp) =>
      if !Admits(s.byUser, s.byIp, r, maxPerUser, maxPerIp) then s
      else s.(byUser := Up(s.byUser, r.user), byIp := Up(s.byIp, r.ip),
              held := s.held[s.granted := r], granted := s.granted + 1)
    case Release(h) =>
      if h !in s.held then s
      else s.(byUser := Down(s.byUser, s.held[h].user), byIp := Down(s.byIp, s.held[h].ip), held := s.held - {h})
    case Register(c) => s.(clients := s.clients[s.next := c], next := s.next + 1)
    case Unregister(id) => if id in s.clients then s.(clients := s.clients - {id}, left := s.left + multiset{id}) else s
    case CloseSession(ref) =>
      s.(clients := s.clients - OfSession(s.clients, ref), owed := s.owed + multiset(OfSession(s.clients, ref)))
    case CloseAll => s.(clients := map[], owed := s.owed + multiset(s.clients.Keys))
    case Drop(id) => if id in s.clients then s.(clients := s.clients - {id}, owed := s.owed + multiset{id}) else s
    case Tell(id) => if id in s.owed then s.(owed := s.owed - multiset{id}, told := s.told + multiset{id}) else s
  }

  function Run(s: System, es: seq<Event>): System
    decreases |es|
  {
    if es == [] then s else Apply(Run(s, es[..|es| - 1]), es[|es| - 1])
  }

  // ---- reservations ----

  datatype Key = ByUser | ByIp
  {
    function Of(r: Reservation): string { if ByUser? then r.user else r.ip }
  }

  ghost function Holders(held: map<nat, Reservation>, key: Key, name: string): set<nat> {
    set h | h in held && key.Of(held[h]) == name
  }

  ghost predicate Counts(c: Counters, held: map<nat, Reservation>, key: Key) {
    forall name :: Get(c, name) == |Holders(held, key, name)|
  }

  ghost predicate Counted(s: System) {
    Counts(s.byUser, s.held, ByUser) && Counts(s.byIp, s.held, ByIp) && forall h :: h in s.held ==> h < s.granted
  }

  lemma OneMore(held: map<nat, Reservation>, h: nat, r: Reservation, key: Key, name: string)
    requires h !in held
    ensures |Holders(held[h := r], key, name)| == |Holders(held, key, name)| + if name == key.Of(r) then 1 else 0
  {
    var before, after := Holders(held, key, name), Holders(held[h := r], key, name);
    assert h !in before && forall k :: k in after - {h} <==> k in before;
    assert before == after - {h} && (h in after <==> name == key.Of(r));
  }

  lemma CountsAfterReserve(c: Counters, held: map<nat, Reservation>, h: nat, r: Reservation, key: Key)
    requires Counts(c, held, key) && h !in held
    ensures Counts(Up(c, key.Of(r)), held[h := r], key)
  {
    forall name ensures Get(Up(c, key.Of(r)), name) == |Holders(held[h := r], key, name)| {
      OneMore(held, h, r, key, name);
    }
  }

  /** A release finds the counter above 0 and takes one off. */
  lemma CountsAfterRelease(c: Counters, held: map<nat, Reservation>, h: nat, key: Key)
    requires Counts(c, held, key) && h in held
    ensures Get(c, key.Of(held[h])) > 0 && Counts(Down(c, key.Of(held[h])), held - {h}, key)
  {
    assert h in Holders(held, key, key.Of(held[h]));
    forall name ensures Get(Down(c, key.Of(held[h])), name) == |Holders(held - {h}, key, name)| {
      if name == key.Of(held[h]) {
        assert Holders(held - {h}, key, name) == Holders(held, key, name) - {h};
      } else {
        assert Holders(held - {h}, key, name) == Holders(held, key, name);
      }
    }
  }

  lemma CountedStep(s: System, e: Event)
    requires Counted(s)
    ensures Counted(Apply(s, e))
  {
    match e
    case Reserve(r, _, _) =>
      CountsAfterReserve(s.byUser, s.held, s.granted, r, ByUser);
      CountsAfterReserve(s.byIp, s.held, s.granted, r, ByIp);
    case Release(h) =>
      if h in s.held {
        CountsAfterRelease(s.byUser, s.held, h, ByUser);
        CountsAfterRelease(s.byIp, s.held, h, ByIp);
      }
    case _ =>
  }

  lemma StartCounted()
    ensures Counted(START)
  {
    assert forall key, name :: Holders(map[], key, name) == {};
  }

  /** In every run the counters are the numbers of outstanding reservations. */
  lemma {:induction false} CountersAreReservations(es: seq<Event>)
    ensures Counted(Run(START, es))
    decreases |es|
  {
    if es == [] {
      StartCounted();
    } else {
      CountersAreReservations(es[..|es| - 1]);
      CountedStep(Run(START, es[..|es| - 1]), es[|es| - 1]);
    }
  }

  /** In no run does the release guard meet a counter that is not above 0. */
  lemma ReleaseNeverClamped(es: seq<Event>, h: nat)
    requires h in Run(START, es).held
    ensures var s := Run(START, es);
            Get(s.byUser, s.held[h].user) > 0 && Get(s.byIp, s.held[h].ip) > 0
  {
    CountersAreReservations(es);
    CountsAfterRelease(Run(START, es).byUser, Run(START, es).held, h, ByUser);
    CountsAfterRelease(Run(START, es).byIp, Run(START, es).held, h, ByIp);
  }

  ghost predicate FixedCaps(es: seq<Event>, perUser: int, perIp: int) {
    forall i :: 0 <= i < |es| && es[i].Reserve? ==> es[i].maxPerUser == perUser && es[i].maxPerIp == perIp
  }

  lemma CapsStep(s: System, e: Event, perUser: int, perIp: int, user: string, ip: string)
    requires 0 < perUser && 0 < perIp && (e.Reserve? ==> e.maxPerUser == perUser && e.maxPerIp == perIp)
    requires Get(s.byUser, user) <= perUser && Get(s.byIp, ip) <= perIp
    ensures Get(Apply(s, e).byUser, user) <= perUser && Get(Apply(s, e).byIp, ip) <= perIp
  {
  }

  lemma {:induction false} CountersWithinCaps(es: seq<Event>, perUser: int, perIp: int, user: string, ip: string)
    requires 0 < perUser && 0 < perIp && FixedCaps(es, perUser, perIp)
    ensures Get(Run(START, es).byUser, user) <= perUser && Get(Run(START, es).byIp, ip) <= perIp
    decreases |es|
  {
    if es != [] {
      CountersWithinCaps(es[..|es| - 1], perUser, perIp, user, ip);
      CapsStep(Run(START, es[..|es| - 1]), es[|es| - 1], perUser, perIp, user, ip);
    }
  }

  /** With fixed positive caps no user and no address ever holds more
      reservations than its cap. */
  lemma CapsHold(es: seq<Event>, perUser: int, perIp: int, user: string, ip: string)
    requires 0 < perUser && 0 < perIp && FixedCaps(es, perUser, perIp)
    ensures |Holders(Run(START, es).held, ByUser, user)| <= perUser
    ensures |Holders(Run(START, es).held, ByIp, ip)| <= perIp
  {
    CountersAreReservations(es);
    CountersWithinCaps(es, perUser, perIp, user, ip);
  }

  // ---- drop callbacks ----

  function Present(s: System, c: nat): nat { if c in s.clients then 1 else 0 }

  /** Client `c` is in exactly one place once registered, and nowhere before. */
  ghost predicate Placed(s: System, c: nat) {
    Present(s, c) + s.owed[c] + s.told[c] + s.left[c] == if c < s.next then 1 else 0
  }

  lemma PlacedClose(s: System, e: Event, c: nat)
    requires Placed(s, c) && (e.CloseSession? || e.CloseAll?)
    ensures Placed(Apply(s, e), c)
  {
    var gone := if e.CloseSession? then OfSession(s.clients, e.sessionRef) else s.clients.Keys;
    var owed: multiset<nat> := multiset(gone);
    assert owed[c] == if c in gone then 1 else 0;
    assert Apply(s, e).owed == s.owed + owed;
  }

  lemma PlacedStep(s: System, e: Event, c: nat)
    requires Placed(s, c)
    ensures Placed(Apply(s, e), c)
  {
    if e.CloseSession? || e.CloseAll? {
      PlacedClose(s, e, c);
    }
  }

  /** In every run each registered client is either still registered, or left by
      unregistering, or is owed exactly one drop callback, or has had exactly
      one. */
  lemma {:induction false} DroppedExactlyOnce(es: seq<Event>, c: nat)
    ensures Placed(Run(START, es), c) && Run(START, es).told[c] <= 1
    decreases |es|
  {
    if es != [] {
      DroppedExactlyOnce(es[..|es| - 1], c);
      PlacedStep(Run(START, es[..|es| - 1]), es[|es| - 1], c);
    }
  }

  // ---- what closing closes ----

  /** Closing a session removes its clients, owes each of them one callback, and
      leaves every other client and debt alone; an empty reference closes nothing. */
  lemma ClosesTheSession(s: System, ref: string, c: nat)
    ensures var t := Apply(s, CloseSession(ref));
      var closed := ref != "" && c in s.clients && s.clients[c].sessionRef == ref;
      && (c in t.clients <==> c in s.clients && !closed)
      && (c in t.clients ==> t.clients[c] == s.clients[c])
      && t.owed[c] == s.owed[c] + if closed then 1 else 0
  {
    var gone := OfSession(s.clients, ref);
    var owed: multiset<nat> := multiset(gone);
    assert owed[c] == if c in gone then 1 else 0;
    assert Apply(s, CloseSession(ref)).owed == s.owed + owed;
  }

  ghost predicate NoneOf(s: System, ref: string) {
    forall c :: c in s.clients ==> s.clients[c].sessionRef != ref
  }

  /** A closed session has no client in any later run that registers none for it. */
  lemma {:induction false} ClosedStaysClosed(s: System, ref: string, es: seq<Event>)
    requires ref != "" && forall k :: 0 <= k < |es| && es[k].Register? ==> es[k].c.sessionRef != ref
    ensures NoneOf(Run(Apply(s, CloseSession(ref)), es), ref)
    decreases |es|
  {
    if es == [] {
      forall c | c in Apply(s, CloseSession(ref)).clients ensures Apply(s, CloseSession(ref)).clients[c].sessionRef != ref {
        ClosesTheSession(s, ref, c);
      }
    } else {
      ClosedStaysClosed(s, ref, es[..|es| - 1]);
      NoneOfStep(Run(Apply(s, CloseSession(ref)), es[..|es| - 1]), es[|es| - 1], ref);
    }
  }

  lemma NoneOfStep(s: System, e: Event, ref: string)
    requires NoneOf(s, ref) && (e.Register? ==> e.c.sessionRef != ref)
    ensures NoneOf(Apply(s, e), ref)
  {
  }

  /** A topic for administrators goes to them only, any other topic to everyone. */
  lemma AudienceIs(clients: map<nat, Client>, c: nat)
    ensures c in Audience(clients, false) <==> c in clients
    ensures c in Audience(clients, true) <==> c in clients && clients[c].admin
  {
  }

  /** In every run a reservation is granted exactly while its user and its address
      hold fewer than their caps; a cap that is not positive is none. */
  lemma GrantedIff(es: seq<Event>, r: Reservation, maxPerUser: int, maxPerIp: int)
    ensures Apply(Run(START, es), Reserve(r, maxPerUser, maxPerIp)).granted == Run(START, es).granted + 1 <==>
      && (maxPerUser <= 0 || |Holders(Run(START, es).held, ByUser, r.user)| < maxPerUser)
      && (maxPerIp <= 0 || |Holders(Run(START, es).held, ByIp, r.ip)| < maxPerIp)
  {
    CountersAreReservations(es);
    GrantedFrom(Run(START, es), r, maxPerUser, maxPerIp);
  }

  lemma GrantedFrom(s: System, r: Reservation, maxPerUser: int, maxPerIp: int)
    requires Counted(s)
    ensures Apply(s, Reserve(r, maxPerUser, maxPerIp)).granted == s.granted + 1 <==>
      && (maxPerUser <= 0 || |Holders(s.held, ByUser, r.user)| < maxPerUser)
      && (maxPerIp <= 0 || |Holders(s.held, ByIp, r.ip)| < maxPerIp)
  {
    assert Get(s.byUser, r.user) == |Holders(s.held, ByUser, r.user)|;
    assert Get(s.byIp, r.ip) == |Holders(s.held, ByIp, r.ip)|;
  }

  /** Counting down stops at 0 and touches no other key. */
  lemma DownStops(c: Counters, k: string, other: string)
    ensures Get(c, k) >= 0 ==> Get(Down(c, k), k) == (if Get(c, k) == 0 then 0 else Get(c, k) - 1)
    ensures other != k ==> Get(Down(c, k), other) == Get(c, other) && Get(Up(c, k), other) == Get(c, other)
    ensures Get(Up(c, k), k) == Get(c, k) + 1
  {
  }
}
