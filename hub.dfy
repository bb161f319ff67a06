/** The connection pool (`Pool` and `Pool.Start` in websocket.go) as an
    event-driven state machine. The goroutine, its three channels and the
    `select` are replaced by the sequence of events the pool actually
    services; the two things the runtime decides while servicing one event
    are explicit parameters: the order in which `range` visits the
    membership map, and which connection writes fail. */
module Hub {
  import opened Envelope

  /** The identity of a `*Client` as the pool sees it (pointer identity). */
  type ClientRef = nat

  /** One value received from one of the pool's intake channels. */
  datatype Event =
    | Register(client: ClientRef)
    | Unregister(client: ClientRef)
    | Broadcast(message: Message)

  /** An event as it was serviced: `order` is the order in which the
      fan-out loop visited the members, `faulty` the members whose
      connection write failed during that fan-out. */
  datatype Serviced = Serviced(event: Event, order: seq<ClientRef>, faulty: set<ClientRef>)

  /** For each client, the envelopes successfully written to its connection
      by the pool, oldest first. */
  type Outbox = map<ClientRef, seq<Message>>

  /** The pool's state: the membership set, whether the control loop is
      still running, and what it has delivered so far. */
  datatype PoolState = PoolState(clients: set<ClientRef>, running: bool, outbox: Outbox)

  function Sent(outbox: Outbox, c: ClientRef): seq<Message> {
    if c in outbox then outbox[c] else []
  }

  predicate Distinct(s: seq<ClientRef>) {
    forall i, j :: 0 <= i < j < |s| ==> s[i] != s[j]
  }

  /** `order` is one possible iteration order of `range` over `members`:
      every member exactly once and nothing else. */
  predicate Enumerates(order: seq<ClientRef>, members: set<ClientRef>) {
    && Distinct(order)
    && (forall c :: c in order ==> c in members)
    && (forall c :: c in members ==> c in order)
  }

  /** One `WriteJSON` of `m` to `c`'s connection; a faulty connection
      receives nothing. */
  function Write(outbox: Outbox, c: ClientRef, faulty: set<ClientRef>, m: Message): Outbox {
    if c in faulty then outbox else outbox[c := Sent(outbox, c) + [m]]
  }

  /** Writing `m` to each of `targets` in turn, ignoring failed writes. */
  function FanOut(outbox: Outbox, targets: seq<ClientRef>, faulty: set<ClientRef>, m: Message): Outbox
    decreases |targets|
  {
    if targets == [] then outbox
    else Write(FanOut(outbox, targets[..|targets| - 1], faulty, m), targets[|targets| - 1], faulty, m)
  }

  /** The position of the first member in `order` whose write fails, or
      `|order|` when none does. */
  function FirstFault(order: seq<ClientRef>, faulty: set<ClientRef>): (k: nat)
    ensures k <= |order|
    ensures forall j :: 0 <= j < k ==> order[j] !in faulty
    ensures k < |order| ==> order[k] in faulty
    decreases |order|
  {
    if order == [] || order[0] in faulty then 0
    else 1 + FirstFault(order[1..], faulty)
  }

  /** The membership set the fan-out of `e` iterates over. */
  function Members(clients: set<ClientRef>, e: Event): set<ClientRef> {
    match e
    case Register(c) => clients + {c}
    case Unregister(c) => clients - {c}
    case Broadcast(_) => clients
  }

  /** The state `NewPool` returns. */
  function Initial(): PoolState {
    PoolState({}, true, map[])
  }

  /** One iteration of the control loop. Login and logout notices are
      written to every member and their write errors are dropped; a
      broadcast stops at the first failed write and ends the loop. Once
      the loop has ended, nothing is received from the channels again. */
  function Step(s: PoolState, sv: Serviced): PoolState {
    if !s.running then s
    else
      match sv.event
      case Register(c) =>
        PoolState(s.clients + {c}, true, FanOut(s.outbox, sv.order, sv.faulty, LoginNotice()))
      case Unregister(c) =>
        PoolState(s.clients - {c}, true, FanOut(s.outbox, sv.order, sv.faulty, LogoutNotice()))
      case Broadcast(m) =>
        var k := FirstFault(sv.order, sv.faulty);
        PoolState(s.clients, k == |sv.order|, FanOut(s.outbox, sv.order[..k], sv.faulty, m))
  }

  /** The control loop over a sequence of serviced events. */
  function Run(s: PoolState, schedule: seq<Serviced>): PoolState
    decreases |schedule|
  {
    if schedule == [] then s else Run(Step(s, schedule[0]), schedule[1..])
  }

  /** Every iteration order in `schedule` is one that `range` could
      produce over the membership at that point. */
  predicate Admissible(s: PoolState, schedule: seq<Serviced>)
    decreases |schedule|
  {
    schedule == [] ||
    ((s.running ==> Enumerates(schedule[0].order, Members(s.clients, schedule[0].event)))
     && Admissible(Step(s, schedule[0]), schedule[1..]))
  }

  function Events(schedule: seq<Serviced>): seq<Event>
    decreases |schedule|
  {
    if schedule == [] then [] else [schedule[0].event] + Events(schedule[1..])
  }

  /** Reference definition of membership: replay the events in order,
      a register adds its client, an unregister removes it if present. */
  function Replay(clients: set<ClientRef>, events: seq<Event>): set<ClientRef>
    decreases |events|
  {
    if events == [] then clients
    else
      var next := match events[0]
        case Register(c) => clients + {c}
        case Unregister(c) => if c in clients then clients - {c} else clients
        case Broadcast(_) => clients;
      Replay(next, events[1..])
  }

  lemma WriteEffect(outbox: Outbox, x: ClientRef, faulty: set<ClientRef>, m: Message, c: ClientRef)
    ensures Sent(Write(outbox, x, faulty, m), c)
            == if c == x && x !in faulty then Sent(outbox, c) + [m] else Sent(outbox, c)
  {
  }

  /** Each target that is not faulty receives `m` exactly once; nobody
      else receives anything. */
  lemma {:induction false} FanOutEffect(outbox: Outbox, targets: seq<ClientRef>, faulty: set<ClientRef>, m: Message)
    requires Distinct(targets)
    ensures forall c :: Sent(FanOut(outbox, targets, faulty, m), c)
                        == if c in targets && c !in faulty then Sent(outbox, c) + [m] else Sent(outbox, c)
    decreases |targets|
  {
    if targets != [] {
      var n := |targets| - 1;
      var prefix, last := targets[..n], targets[n];
      assert Distinct(prefix);
      FanOutEffect(outbox, prefix, faulty, m);
      var prev := FanOut(outbox, prefix, faulty, m);
      assert FanOut(outbox, targets, faulty, m) == Write(prev, last, faulty, m);
      assert last !in prefix by {
        forall j | 0 <= j < n
          ensures prefix[j] != last
        {
          assert prefix[j] == targets[j];
        }
      }
      assert targets == prefix + [last];
      forall c ensures Sent(FanOut(outbox, targets, faulty, m), c)
                       == if c in targets && c !in faulty then Sent(outbox, c) + [m] else Sent(outbox, c)
      {
        WriteEffect(prev, last, faulty, m, c);
        assert c in targets <==> c in prefix || c == last;
      }
    }
  }

  /** Servicing `Register(c)` (websocket.go:152-163): `c` becomes a member
      and no other membership changes; every member after insertion,
      `c` included, receives exactly one login notice unless its write
      fails, and a failed write neither stops the loop nor skips anyone. */
  lemma RegisterStep(s: PoolState, c: ClientRef, order: seq<ClientRef>, faulty: set<ClientRef>)
    requires s.running && Enumerates(order, s.clients + {c})
    ensures var t := Step(s, Serviced(Register(c), order, faulty));
      && t.running
      && c in t.clients
      && (forall d :: d != c ==> (d in t.clients <==> d in s.clients))
      && (c in s.clients ==> t.clients == s.clients)
      && (forall d :: Sent(t.outbox, d) == if d in t.clients && d !in faulty
                                           then Sent(s.outbox, d) + [LoginNotice()]
                                           else Sent(s.outbox, d))
  {
    FanOutEffect(s.outbox, order, faulty, LoginNotice());
  }

  /** Servicing `Unregister(c)` (websocket.go:164-174): `c` is removed, a
      no-op when absent; every remaining member receives exactly one
      logout notice unless its write fails, even when `c` was never a
      member; `c` itself receives nothing; the loop keeps running. */
  lemma UnregisterStep(s: PoolState, c: ClientRef, order: seq<ClientRef>, faulty: set<ClientRef>)
    requires s.running && Enumerates(order, s.clients - {c})
    ensures var t := Step(s, Serviced(Unregister(c), order, faulty));
      && t.running
      && c !in t.clients
      && (forall d :: d != c ==> (d in t.clients <==> d in s.clients))
      && (c !in s.clients ==> t.clients == s.clients)
      && Sent(t.outbox, c) == Sent(s.outbox, c)
      && (forall d :: Sent(t.outbox, d) == if d in t.clients && d !in faulty
                                           then Sent(s.outbox, d) + [LogoutNotice()]
                                           else Sent(s.outbox, d))
  {
    FanOutEffect(s.outbox, order, faulty, LogoutNotice());
  }

  /** Writing `m` to the first `k` members of a duplicate-free order, none
      of which fails: exactly those `k` receive it. */
  lemma {:induction false} PrefixDelivery(outbox: Outbox, order: seq<ClientRef>, faulty: set<ClientRef>, m: Message, k: nat)
    requires Distinct(order) && k <= |order|
    requires forall j :: 0 <= j < k ==> order[j] !in faulty
    ensures forall i :: 0 <= i < |order| ==>
              Sent(FanOut(outbox, order[..k], faulty, m), order[i])
              == if i < k then Sent(outbox, order[i]) + [m] else Sent(outbox, order[i])
    ensures forall d :: d !in order ==> Sent(FanOut(outbox, order[..k], faulty, m), d) == Sent(outbox, d)
  {
    var done := order[..k];
    assert Distinct(done);
    FanOutEffect(outbox, done, faulty, m);
    forall i | 0 <= i < |order|
      ensures Sent(FanOut(outbox, done, faulty, m), order[i])
              == if i < k then Sent(outbox, order[i]) + [m] else Sent(outbox, order[i])
    {
      if i < k {
        assert done[i] == order[i];
      } else {
        forall j | 0 <= j < k
          ensures done[j] != order[i]
        {
          assert done[j] == order[j];
        }
      }
    }
  }

  /** Servicing `Broadcast(m)` (websocket.go:175-182): membership is
      unchanged; the members visited before the first failed write each
      receive `m` once, the failing member and every later one receive
      nothing, and the loop survives exactly when no member's write fails. */
  lemma BroadcastStep(s: PoolState, m: Message, order: seq<ClientRef>, faulty: set<ClientRef>)
    requires s.running && Enumerates(order, s.clients)
    ensures var t := Step(s, Serviced(Broadcast(m), order, faulty));
      var k := FirstFault(order, faulty);
      && t.clients == s.clients
      && (t.running <==> forall d :: d in s.clients ==> d !in faulty)
      && (forall i :: 0 <= i < |order| ==>
            Sent(t.outbox, order[i]) == if i < k then Sent(s.outbox, order[i]) + [m] else Sent(s.outbox, order[i]))
      && (forall d :: d !in s.clients ==> Sent(t.outbox, d) == Sent(s.outbox, d))
  {
    var t := Step(s, Serviced(Broadcast(m), order, faulty));
    var k := FirstFault(order, faulty);
    assert t.outbox == FanOut(s.outbox, order[..k], faulty, m);
    assert t.running == (k == |order|);
    PrefixDelivery(s.outbox, order, faulty, m, k);
    if k < |order| {
      assert order[k] in s.clients;
    } else {
      forall d | d in s.clients
        ensures d !in faulty
      {
        var i :| 0 <= i < |order| && order[i] == d;
      }
    }
  }

  /** When no member's connection fails, a broadcast reaches every member
      exactly once and the loop keeps running. */
  lemma BroadcastReachesAll(s: PoolState, m: Message, order: seq<ClientRef>, faulty: set<ClientRef>)
    requires s.running && Enumerates(order, s.clients)
    requires forall d :: d in s.clients ==> d !in faulty
    ensures var t := Step(s, Serviced(Broadcast(m), order, faulty));
      && t.running
      && forall d :: Sent(t.outbox, d) == if d in s.clients then Sent(s.outbox, d) + [m] else Sent(s.outbox, d)
  {
    BroadcastStep(s, m, order, faulty);
    var t := Step(s, Serviced(Broadcast(m), order, faulty));
    forall d | d in s.clients
      ensures Sent(t.outbox, d) == Sent(s.outbox, d) + [m]
    {
      var i :| 0 <= i < |order| && order[i] == d;
    }
  }

  /** Stopped is terminal: after the loop has returned, no later event
      changes anything. */
  lemma {:induction false} StoppedIsTerminal(s: PoolState, schedule: seq<Serviced>)
    requires !s.running
    ensures Run(s, schedule) == s
    decreases |schedule|
  {
    if schedule != [] {
      StoppedIsTerminal(Step(s, schedule[0]), schedule[1..]);
    }
  }

  /** Only a broadcast whose fan-out meets a failing member can stop the
      loop. */
  lemma OnlyBroadcastStops(s: PoolState, sv: Serviced)
    requires s.running && !Step(s, sv).running
    ensures sv.event.Broadcast?
    ensures exists i :: 0 <= i < |sv.order| && sv.order[i] in sv.faulty
  {
  }

  /** Membership is reconstructible by replay: while the loop is still
      running after a schedule, its membership set is exactly the replay
      of the schedule's events. */
  lemma {:induction false} ReplayMembership(s: PoolState, schedule: seq<Serviced>)
    requires Run(s, schedule).running
    ensures Run(s, schedule).clients == Replay(s.clients, Events(schedule))
    decreases |schedule|
  {
    if schedule != [] {
      if !s.running {
        StoppedIsTerminal(s, schedule);
      } else {
        var t := Step(s, schedule[0]);
        ReplayMembership(t, schedule[1..]);
        assert Events(schedule)[0] == schedule[0].event;
        assert Events(schedule)[1..] == Events(schedule[1..]);
        match schedule[0].event {
          case Register(c) =>
          case Unregister(c) =>
            assert c !in s.clients ==> s.clients - {c} == s.clients;
          case Broadcast(_) =>
        }
      }
    }
  }

  /** What one client `x` receives when a notice is fanned out with no
      failing connection: the notice exactly when it is a member. */
  lemma NoticeSeenBy(s: PoolState, e: Event, order: seq<ClientRef>, x: ClientRef)
    requires s.running && !e.Broadcast? && Enumerates(order, Members(s.clients, e))
    ensures var t := Step(s, Serviced(e, order, {}));
      && t.running
      && t.clients == Members(s.clients, e)
      && Sent(t.outbox, x) == if x in t.clients
                              then Sent(s.outbox, x) + [if e.Register? then LoginNotice() else LogoutNotice()]
                              else Sent(s.outbox, x)
  {
    if e.Register? {
      RegisterStep(s, e.client, order, {});
    } else {
      UnregisterStep(s, e.client, order, {});
    }
  }

  /** Three clients A, B, C register in that order with no failing
      connection, whatever iteration orders `range` picks: A has seen
      three logins, B two and C one. */
  lemma ThreeJoin(a: ClientRef, b: ClientRef, c: ClientRef,
                  o1: seq<ClientRef>, o2: seq<ClientRef>, o3: seq<ClientRef>)
    requires a != b && b != c && a != c
    requires Enumerates(o1, {a}) && Enumerates(o2, {a, b}) && Enumerates(o3, {a, b, c})
    ensures var t := Step(Step(Step(Initial(), Serviced(Register(a), o1, {})),
                                Serviced(Register(b), o2, {})), Serviced(Register(c), o3, {}));
      && t.running
      && t.clients == {a, b, c}
      && Sent(t.outbox, a) == [LoginNotice(), LoginNotice(), LoginNotice()]
      && Sent(t.outbox, b) == [LoginNotice(), LoginNotice()]
      && Sent(t.outbox, c) == [LoginNotice()]
  {
    var s0 := Initial();
    var s1 := Step(s0, Serviced(Register(a), o1, {}));
    NoticeSeenBy(s0, Register(a), o1, a);
    NoticeSeenBy(s0, Register(a), o1, b);
    NoticeSeenBy(s0, Register(a), o1, c);
    assert s1.clients == {a};
    var s2 := Step(s1, Serviced(Register(b), o2, {}));
    NoticeSeenBy(s1, Register(b), o2, a);
    NoticeSeenBy(s1, Register(b), o2, b);
    NoticeSeenBy(s1, Register(b), o2, c);
    assert s2.clients == {a, b};
    NoticeSeenBy(s2, Register(c), o3, a);
    NoticeSeenBy(s2, Register(c), o3, b);
    NoticeSeenBy(s2, Register(c), o3, c);
  }

  /** The joins of `ThreeJoin`, then B leaves: A and C each get exactly
      one logout notice, B gets nothing more and is no longer a member. */
  lemma ThreeClients(a: ClientRef, b: ClientRef, c: ClientRef,
                     o1: seq<ClientRef>, o2: seq<ClientRef>, o3: seq<ClientRef>, o4: seq<ClientRef>)
    requires a != b && b != c && a != c
    requires Enumerates(o1, {a}) && Enumerates(o2, {a, b}) && Enumerates(o3, {a, b, c})
    requires Enumerates(o4, {a, c})
    ensures var t := Run(Initial(), [Serviced(Register(a), o1, {}), Serviced(Register(b), o2, {}),
                                     Serviced(Register(c), o3, {}), Serviced(Unregister(b), o4, {})]);
      && t.running
      && t.clients == {a, c}
      && Sent(t.outbox, a) == [LoginNotice(), LoginNotice(), LoginNotice(), LogoutNotice()]
      && Sent(t.outbox, b) == [LoginNotice(), LoginNotice()]
      && Sent(t.outbox, c) == [LoginNotice(), LogoutNotice()]
  {
    var sch := [Serviced(Register(a), o1, {}), Serviced(Register(b), o2, {}),
                Serviced(Register(c), o3, {}), Serviced(Unregister(b), o4, {})];
    var s3 := Step(Step(Step(Initial(), sch[0]), sch[1]), sch[2]);
    ThreeJoin(a, b, c, o1, o2, o3);
    var s4 := Step(s3, sch[3]);
    NoticeSeenBy(s3, Unregister(b), o4, a);
    NoticeSeenBy(s3, Unregister(b), o4, b);
    NoticeSeenBy(s3, Unregister(b), o4, c);
    assert s4.clients == {a, c};
    RunUnfolds(Initial(), sch);
  }

  /** A four-event schedule is four steps. */
  lemma RunUnfolds(s: PoolState, sch: seq<Serviced>)
    requires |sch| == 4
    ensures Run(s, sch) == Step(Step(Step(Step(s, sch[0]), sch[1]), sch[2]), sch[3])
  {
    var s1 := Step(s, sch[0]);
    var s2 := Step(s1, sch[1]);
    var s3 := Step(s2, sch[2]);
    var s4 := Step(s3, sch[3]);
    assert Run(s4, sch[4..]) == s4;
    assert Run(s3, sch[3..]) == Run(s4, sch[4..]);
    assert Run(s2, sch[2..]) == Run(s3, sch[3..]);
    assert Run(s1, sch[1..]) == Run(s2, sch[2..]);
  }

  /** The pool: the membership map, whether `Start` is still looping, and
      the abstract record of what was written to each connection. */
  class Pool {
    var clients: set<ClientRef>
    var running: bool
    var outbox: Outbox

    function State(): PoolState
      reads this
    {
      PoolState(clients, running, outbox)
    }

    /** `NewPool`: no members, ready to service events. */
    constructor ()
      ensures State() == Initial()
      ensures clients == {} && running
    {
      clients := {};
      running := true;
      outbox := map[];
    }

    /** One fan-out loop of a login or logout notice: every connection in
        `order` is written to, and a write error is ignored. */
    method Notify(order: seq<ClientRef>, faulty: set<ClientRef>, m: Message)
      modifies this`outbox
      ensures outbox == FanOut(old(outbox), order, faulty, m)
    {
      var i := 0;
      while i < |order|
        invariant 0 <= i <= |order|
        invariant outbox == FanOut(old(outbox), order[..i], faulty, m)
      {
        var c := order[i];
        assert order[..i + 1][..i] == order[..i];
        if c !in faulty {
          outbox := outbox[c := Sent(outbox, c) + [m]];
        }
        i := i + 1;
      }
      assert order[..i] == order;
    }

    /** The `Register` case of the control loop. */
    method OnRegister(c: ClientRef, order: seq<ClientRef>, faulty: set<ClientRef>)
      requires running && Enumerates(order, clients + {c})
      modifies this
      ensures State() == Step(old(State()), Serviced(Register(c), order, faulty))
    {
      clients := clients + {c};
      Notify(order, faulty, LoginNotice());
    }

    /** The `Unregister` case of the control loop. */
    method OnUnregister(c: ClientRef, order: seq<ClientRef>, faulty: set<ClientRef>)
      requires running && Enumerates(order, clients - {c})
      modifies this
      ensures State() == Step(old(State()), Serviced(Unregister(c), order, faulty))
    {
      clients := clients - {c};
      Notify(order, faulty, LogoutNotice());
    }

    /** The `Broadcast` case: write `m` to each member in turn; the first
        failed write ends the control loop. */
    method OnBroadcast(m: Message, order: seq<ClientRef>, faulty: set<ClientRef>)
      requires running && Enumerates(order, clients)
      modifies this
      ensures State() == Step(old(State()), Serviced(Broadcast(m), order, faulty))
    {
      var i := 0;
      while i < |order|
        invariant 0 <= i <= |order|
        invariant running && clients == old(clients)
        invariant forall j :: 0 <= j < i ==> order[j] !in faulty
        invariant outbox == FanOut(old(outbox), order[..i], faulty, m)
      {
        var c := order[i];
        if c in faulty {
          assert FirstFault(order, faulty) == i;
          running := false;
          return;
        }
        assert order[..i + 1][..i] == order[..i];
        outbox := outbox[c := Sent(outbox, c) + [m]];
        i := i + 1;
      }
      assert order[..i] == order;
    }

    /** `Start`: service the events of `schedule` in order until they run
        out or a broadcast ends the loop. */
    method Start(schedule: seq<Serviced>)
      requires Admissible(State(), schedule)
      modifies this
      ensures State() == Run(old(State()), schedule)
    {
      var i := 0;
      while i < |schedule| && running
        invariant 0 <= i <= |schedule|
        invariant Admissible(State(), schedule[i..])
        invariant Run(State(), schedule[i..]) == Run(old(State()), schedule)
      {
        var sv := schedule[i];
        assert schedule[i..][0] == sv && schedule[i..][1..] == schedule[i + 1..];
        match sv.event {
          case Register(c) => OnRegister(c, sv.order, sv.faulty);
          case Unregister(c) => OnUnregister(c, sv.order, sv.faulty);
          case Broadcast(m) => OnBroadcast(m, sv.order, sv.faulty);
        }
        i := i + 1;
      }
      if i < |schedule| {
        StoppedIsTerminal(State(), schedule[i..]);
      }
    }
  }
}
