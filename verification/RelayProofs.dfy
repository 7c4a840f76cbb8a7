/** What every run of the relay loop keeps. */
module RelayProofs {
  import opened Bytes
  import opened Impairment
  import opened RelaySpec

  // ----- Conservation and liveness

  /** The packet belongs to a client of the table: it goes to that client's own backend, or
      through the listener to the address whose backend it came from. */
  ghost predicate Live(clients: map<Address, Socket>, p: Packet) {
    if p.destination.None? then p.target == p.backend && exists a :: a in clients && clients[a] == p.backend
    else p.target == LISTENER && p.destination.value in clients && clients[p.destination.value] == p.backend
  }

  ghost predicate TableOk(clients: map<Address, Socket>, lastSeen: map<Address, int>, nextSocket: nat) {
    && clients.Keys == lastSeen.Keys
    && |clients| <= MAXIMUM_CLIENTS
    && LISTENER < nextSocket
    && (forall a :: a in clients ==> LISTENER < clients[a] < nextSocket)
    && (forall a, b :: a in clients && b in clients && a != b ==> clients[a] != clients[b])
  }

  ghost predicate QueueOk(clients: map<Address, Socket>, pending: seq<Packet>, serial: nat) {
    && |pending| <= MAXIMUM_PENDING
    && Sorted(pending)
    && (forall p :: p in pending ==> Live(clients, p) && p.serial <= serial)
  }

  ghost predicate Conserved(s: State, inHand: nat) {
    s.stats.received == s.stats.delivered + s.stats.dropped + |s.pending| + inHand && s.stats.delivered == |s.sent|
  }

  /** Nothing left early, nothing left for a client that was not there, and a packet was
      overtaken only by one due strictly earlier. */
  ghost predicate SentOk(sent: seq<Departure>, pending: seq<Packet>, serial: nat) {
    && (forall i :: 0 <= i < |sent| ==>
          sent[i].packet.due <= sent[i].at && Live(sent[i].clients, sent[i].packet) && sent[i].packet.serial <= serial)
    && (forall i, j :: 0 <= i < j < |sent| ==> RightlyFirst(sent[i].packet, sent[j].packet))
    && (forall i, p :: 0 <= i < |sent| && p in pending ==> RightlyFirst(sent[i].packet, p))
  }

  ghost predicate RightlyFirst(p: Packet, q: Packet) {
    p.serial < q.serial || p.due < q.due
  }

  /** The invariant while `inHand` received packets are not yet queued or dropped. */
  ghost predicate InvWith(s: State, inHand: nat) {
    && TableOk(s.clients, s.lastSeen, s.nextSocket)
    && QueueOk(s.clients, s.pending, s.serial)
    && Conserved(s, inHand)
    && SentOk(s.sent, s.pending, s.serial)
  }

  ghost predicate Inv(s: State) {
    InvWith(s, 0)
  }

  // ----- Queue lemmas

  lemma {:induction false} InsertHas(q: seq<Packet>, p: Packet)
    ensures |Insert(q, p)| == |q| + 1
    ensures forall x :: x in Insert(q, p) <==> x == p || x in q
  {
    if q != [] {
      assert q == [q[0]] + q[1..];
      InsertHas(q[1..], p);
    }
  }

  lemma {:induction false} RetainHas(q: seq<Packet>, retired: set<Socket>, expired: set<Address>)
    ensures forall x :: x in Retain(q, retired, expired) <==> x in q && Kept(x, retired, expired)
  {
    if q != [] {
      assert q == [q[0]] + q[1..];
      RetainHas(q[1..], retired, expired);
    }
  }

  lemma {:induction false} InsertSorts(q: seq<Packet>, p: Packet)
    requires Sorted(q) && forall x :: x in q ==> x.serial < p.serial
    ensures Sorted(Insert(q, p))
  {
    if q != [] && !Before(p, q[0]) {
      InsertSorts(q[1..], p);
      InsertHas(q[1..], p);
      var r := Insert(q[1..], p);
      forall i | 0 <= i < |r|
        ensures Before(q[0], r[i])
      {
        assert r[i] in r;
      }
    }
  }

  lemma {:induction false} RetainSorts(q: seq<Packet>, retired: set<Socket>, expired: set<Address>)
    requires Sorted(q)
    ensures Sorted(Retain(q, retired, expired))
  {
    if q != [] {
      RetainSorts(q[1..], retired, expired);
      RetainHas(q[1..], retired, expired);
      var r := Retain(q[1..], retired, expired);
      forall i | 0 <= i < |r|
        ensures Before(q[0], r[i])
      {
        assert r[i] in r && r[i] in q[1..];
      }
    }
  }

  // ----- Each phase keeps the invariant

  lemma QueueShrinks(clients: map<Address, Socket>, pending: seq<Packet>, serial: nat, expired: set<Address>)
    requires QueueOk(clients, pending, serial)
    ensures QueueOk(clients - expired, Retain(pending, Retired(clients, expired), expired), serial)
  {
    var retired := Retired(clients, expired);
    RetainSorts(pending, retired, expired);
    RetainHas(pending, retired, expired);
    forall p | p in Retain(pending, retired, expired)
      ensures Live(clients - expired, p)
    {
      assert Live(clients, p);
      if p.destination.None? {
        var a :| a in clients && clients[a] == p.backend;
        assert a in clients - expired;
      }
    }
  }

  lemma ExpireKeepsInv(s: State, now: int)
    requires Inv(s)
    ensures Inv(Expire(s, now))
  {
    RetainHas(s.pending, Retired(s.clients, Expired(s, now)), Expired(s, now));
    QueueShrinks(s.clients, s.pending, s.serial, Expired(s, now));
  }

  lemma PopKeepsInv(s: State, now: int)
    requires Inv(s) && s.pending != [] && s.pending[0].due <= now
    ensures Inv(Pop(s, now))
  {
    var s' := Pop(s, now);
    var head := s.pending[0];
    assert head in s.pending;
    forall p | p in s'.pending
      ensures p in s.pending && RightlyFirst(head, p)
    {
      var i :| 0 <= i < |s'.pending| && s'.pending[i] == p;
      assert s.pending[i + 1] == p && Before(s.pending[0], s.pending[i + 1]);
    }
  }

  lemma {:induction false} DrainKeepsInv(s: State, now: int)
    requires Inv(s)
    ensures Inv(Drain(s, now))
    ensures forall p :: p in Drain(s, now).pending ==> p.due > now
    decreases |s.pending|
  {
    if s.pending != [] && s.pending[0].due <= now {
      PopKeepsInv(s, now);
      DrainKeepsInv(Pop(s, now), now);
    } else if s.pending != [] {
      forall p | p in s.pending
        ensures p.due > now
      {
        var i :| 0 <= i < |s.pending| && s.pending[i] == p;
        assert i > 0 ==> Before(s.pending[0], s.pending[i]);
      }
    }
  }

  lemma QueueKeepsLive(clients: map<Address, Socket>, clients': map<Address, Socket>, pending: seq<Packet>, serial: nat)
    requires QueueOk(clients, pending, serial)
    requires forall a :: a in clients ==> a in clients' && clients'[a] == clients[a]
    ensures QueueOk(clients', pending, serial)
  {
    forall p | p in pending
      ensures Live(clients', p)
    {
      assert Live(clients, p);
    }
  }

  lemma AdmitKeepsInv(s: State, now: int, address: Address)
    requires InvWith(s, 1) && !Full(s, address)
    ensures InvWith(Admit(s, now, address), 1) && address in Admit(s, now, address).clients
  {
    if address in s.clients {
      assert s.lastSeen[address := now].Keys == s.lastSeen.Keys;
    } else {
      QueueKeepsLive(s.clients, s.clients[address := s.nextSocket], s.pending, s.serial);
    }
  }

  lemma PushKeepsQueue(clients: map<Address, Socket>, pending: seq<Packet>, packet: Packet, serial: nat)
    requires QueueOk(clients, pending, serial) && |pending| < MAXIMUM_PENDING
    requires Live(clients, packet) && packet.serial == serial + 1
    ensures QueueOk(clients, Insert(pending, packet), serial + 1)
  {
    InsertSorts(pending, packet);
    InsertHas(pending, packet);
  }

  lemma PushKeepsSent(sent: seq<Departure>, pending: seq<Packet>, packet: Packet, serial: nat)
    requires SentOk(sent, pending, serial) && packet.serial == serial + 1
    ensures SentOk(sent, Insert(pending, packet), serial + 1)
  {
    InsertHas(pending, packet);
  }

  /** Queueing for a live client. */
  lemma EnqueueKeepsInv(s: State, backend: Socket, payload: Blob, destination: Option<Address>, at: int, after: int)
    requires InvWith(s, 1)
    requires if destination.None? then exists a :: a in s.clients && s.clients[a] == backend
             else destination.value in s.clients && s.clients[destination.value] == backend
    ensures Inv(Enqueue(s, backend, payload, destination, at, after))
  {
    var s' := Enqueue(s, backend, payload, destination, at, after);
    if s'.serial == s.serial + 1 {
      var packet := s'.accepted[|s'.accepted| - 1];
      InsertHas(s.pending, packet);
      PushKeepsQueue(s.clients, s.pending, packet, s.serial);
      PushKeepsSent(s.sent, s.pending, packet, s.serial);
    }
  }

  lemma ReceiveKeepsInv(s: State, now: int, e: Inbound)
    requires Inv(s) && (e.FromServer? ==> e.address in s.clients)
    ensures Inv(Receive(s, now, e))
  {
    var s1 := s.(stats := s.stats.Received());
    assert InvWith(s1, 1);
    match e
    case ConnectionReset =>
    case NewSchedule(_) =>
    case FromClient(address, payload, at, after) =>
      if !Full(s1, address) {
        AdmitKeepsInv(s1, now, address);
        var s2 := Admit(s1, now, address);
        EnqueueKeepsInv(s2, s2.clients[address], payload, None, at, after);
      }
    case FromServer(address, payload, at, after) =>
      EnqueueKeepsInv(s1, s.clients[address], payload, Some(address), at, after);
  }

  lemma {:induction false} ReceiveAllKeepsInv(s: State, now: int, inbound: seq<Inbound>)
    requires Inv(s) && Ready(s, now, inbound)
    ensures Inv(ReceiveAll(s, now, inbound))
    decreases |inbound|
  {
    if inbound != [] {
      ReceiveKeepsInv(s, now, inbound[0]);
      ReceiveAllKeepsInv(Receive(s, now, inbound[0]), now, inbound[1..]);
    }
  }

  lemma IterateKeepsInv(s: State, tick: Tick)
    requires Inv(s) && Ready(SendPhase(s, tick.now), tick.now, tick.inbound)
    ensures Inv(Iterate(s, tick))
  {
    ExpireKeepsInv(s, tick.now);
    DrainKeepsInv(Expire(s, tick.now), tick.now);
    ReceiveAllKeepsInv(SendPhase(s, tick.now), tick.now, tick.inbound);
  }

  lemma {:induction false} RunKeepsInv(s: State, ticks: seq<Tick>)
    requires Inv(s) && Feasible(s, ticks)
    ensures Inv(Run(s, ticks))
    decreases |ticks|
  {
    if ticks != [] {
      IterateKeepsInv(s, ticks[0]);
      RunKeepsInv(Iterate(s, ticks[0]), ticks[1..]);
    }
  }

  /** At every loop head of every error-free run, whatever schedules are installed: packets
      are conserved, the bounds hold, the two client tables have the same keys, and every
      packet queued or sent belonged to a client that was connected through the same
      backend socket. */
  lemma RelaySafety(profile: Profile, ticks: seq<Tick>)
    requires Feasible(Start(profile), ticks)
    ensures var s := Run(Start(profile), ticks);
            && s.stats.received == s.stats.delivered + s.stats.dropped + |s.pending|
            && |s.clients| <= MAXIMUM_CLIENTS && |s.pending| <= MAXIMUM_PENDING
            && s.clients.Keys == s.lastSeen.Keys
            && (forall p :: p in s.pending ==> Live(s.clients, p))
            && forall i :: 0 <= i < |s.sent| ==>
                 Live(s.sent[i].clients, s.sent[i].packet) && s.sent[i].packet.due <= s.sent[i].at
  {
    RunKeepsInv(Start(profile), ticks);
  }

  // ----- Timing and order

  /** The packet was scheduled as its direction's profile says. */
  ghost predicate Scheduled(profile: Profile, asked: Asked, p: Packet) {
    var times := asked.Of(p.Direction());
    p.order < |times| && Outcome(profile, times, p.order) == Some(p.due)
  }

  ghost predicate Known(accepted: seq<Packet>, p: Packet) {
    1 <= p.serial <= |accepted| && accepted[p.serial - 1] == p
  }

  /** The log of queued packets follows arrival order. */
  ghost predicate LogOk(profile: Profile, asked: Asked, accepted: seq<Packet>) {
    && (forall k :: 0 <= k < |accepted| ==> accepted[k].serial == k + 1 && Scheduled(profile, asked, accepted[k]))
    && (forall k, l :: 0 <= k < l < |accepted| && accepted[k].Direction() == accepted[l].Direction() ==>
          accepted[k].order < accepted[l].order)
  }

  ghost predicate AskedBy(asked: Asked, clock: int) {
    && clock >= 0
    && Clock(asked.toServer) && Clock(asked.toClient)
    && (forall i :: 0 <= i < |asked.toServer| ==> asked.toServer[i] <= clock)
    && (forall i :: 0 <= i < |asked.toClient| ==> asked.toClient[i] <= clock)
  }

  ghost predicate AllKnown(accepted: seq<Packet>, pending: seq<Packet>, sent: seq<Departure>) {
    && (forall p :: p in pending ==> Known(accepted, p))
    && (forall i :: 0 <= i < |sent| ==> Known(accepted, sent[i].packet))
  }

  ghost predicate Traced(s: State, profile: Profile, clock: int) {
    && s.profile == profile
    && |s.accepted| == s.serial
    && AskedBy(s.asked, clock)
    && LogOk(profile, s.asked, s.accepted)
    && AllKnown(s.accepted, s.pending, s.sent)
  }

  /** The clock does not run back while this key is handled, and the schedule stays. */
  ghost predicate SteadyEvent(e: Inbound, clock: int) {
    match e
    case ConnectionReset => true
    case NewSchedule(_) => false
    case FromClient(_, _, at, after) => clock <= at <= after
    case FromServer(_, _, at, after) => clock <= at <= after
  }

  ghost function Clocked(e: Inbound, clock: int): int {
    if e.FromClient? || e.FromServer? then e.after else clock
  }

  ghost predicate Steady(inbound: seq<Inbound>, clock: int)
    decreases |inbound|
  {
    inbound == [] || (SteadyEvent(inbound[0], clock) && Steady(inbound[1..], Clocked(inbound[0], clock)))
  }

  ghost function ClockAfter(inbound: seq<Inbound>, clock: int): int
    decreases |inbound|
  {
    if inbound == [] then clock else ClockAfter(inbound[1..], Clocked(inbound[0], clock))
  }

  /** The clock never runs back over the whole run, and the schedule stays. */
  ghost predicate SteadyRun(ticks: seq<Tick>, clock: int)
    decreases |ticks|
  {
    ticks == []
    || (clock <= ticks[0].now && Steady(ticks[0].inbound, ticks[0].now)
        && SteadyRun(ticks[1..], ClockAfter(ticks[0].inbound, ticks[0].now)))
  }

  lemma LogGrows(profile: Profile, asked: Asked, accepted: seq<Packet>, d: Direction, at: int)
    requires LogOk(profile, asked, accepted)
    ensures LogOk(profile, asked.Add(d, at), accepted)
  {
    forall k | 0 <= k < |accepted|
      ensures Scheduled(profile, asked.Add(d, at), accepted[k])
    {
      var p := accepted[k];
      assert Scheduled(profile, asked, p);
      if p.Direction() == d {
        OutcomeIsFinal(profile, asked.Of(d), [at], p.order);
      }
    }
  }

  lemma LogPush(profile: Profile, asked: Asked, accepted: seq<Packet>, packet: Packet)
    requires LogOk(profile, asked, accepted)
    requires packet.serial == |accepted| + 1 && Scheduled(profile, asked, packet)
    requires packet.order == |asked.Of(packet.Direction())| - 1
    requires forall k :: 0 <= k < |accepted| && accepted[k].Direction() == packet.Direction() ==>
               accepted[k].order < packet.order
    ensures LogOk(profile, asked, accepted + [packet])
  {
  }

  lemma KnownPush(accepted: seq<Packet>, pending: seq<Packet>, sent: seq<Departure>, packet: Packet)
    requires AllKnown(accepted, pending, sent) && packet.serial == |accepted| + 1
    ensures AllKnown(accepted + [packet], Insert(pending, packet), sent)
  {
    InsertHas(pending, packet);
    assert forall p :: Known(accepted, p) ==> Known(accepted + [packet], p);
  }

  lemma EnqueueKeepsTrace(s: State, profile: Profile, clock: int,
                          backend: Socket, payload: Blob, destination: Option<Address>, at: int, after: int)
    requires Traced(s, profile, clock) && clock <= at <= after
    ensures Traced(Enqueue(s, backend, payload, destination, at, after), profile, after)
  {
    var d := if destination.None? then ToServer else ToClient;
    var s' := Enqueue(s, backend, payload, destination, at, after);
    LogGrows(profile, s.asked, s.accepted, d, at);
    if s'.serial == s.serial + 1 {
      var packet := s'.accepted[|s'.accepted| - 1];
      LogPush(profile, s'.asked, s.accepted, packet);
      KnownPush(s.accepted, s.pending, s.sent, packet);
    }
  }

  lemma ReceiveKeepsTrace(s: State, profile: Profile, clock: int, now: int, e: Inbound)
    requires Traced(s, profile, clock) && SteadyEvent(e, clock)
    requires e.FromServer? ==> e.address in s.clients
    ensures Traced(Receive(s, now, e), profile, Clocked(e, clock))
  {
    var s1 := s.(stats := s.stats.Received());
    match e
    case ConnectionReset =>
    case FromClient(address, payload, at, after) =>
      if Full(s1, address) {
        assert AskedBy(s.asked, after);
      } else {
        var s2 := Admit(s1, now, address);
        assert Traced(s2, profile, clock);
        EnqueueKeepsTrace(s2, profile, clock, s2.clients[address], payload, None, at, after);
      }
    case FromServer(address, payload, at, after) =>
      EnqueueKeepsTrace(s1, profile, clock, s.clients[address], payload, Some(address), at, after);
  }

  lemma {:induction false} ReceiveAllKeepsTrace(s: State, profile: Profile, clock: int, now: int, inbound: seq<Inbound>)
    requires Traced(s, profile, clock) && Steady(inbound, clock) && Ready(s, now, inbound)
    ensures Traced(ReceiveAll(s, now, inbound), profile, ClockAfter(inbound, clock))
    decreases |inbound|
  {
    if inbound != [] {
      ReceiveKeepsTrace(s, profile, clock, now, inbound[0]);
      ReceiveAllKeepsTrace(Receive(s, now, inbound[0]), profile, Clocked(inbound[0], clock), now, inbound[1..]);
    }
  }

  lemma {:induction false} DrainKeepsTrace(s: State, profile: Profile, clock: int, now: int)
    requires Traced(s, profile, clock)
    ensures Traced(Drain(s, now), profile, clock)
    decreases |s.pending|
  {
    if s.pending != [] && s.pending[0].due <= now {
      assert s.pending[0] in s.pending;
      assert forall p :: p in s.pending[1..] ==> p in s.pending;
      DrainKeepsTrace(Pop(s, now), profile, clock, now);
    }
  }

  lemma IterateKeepsTrace(s: State, profile: Profile, clock: int, tick: Tick)
    requires Traced(s, profile, clock) && clock <= tick.now && Steady(tick.inbound, tick.now)
    requires Ready(SendPhase(s, tick.now), tick.now, tick.inbound)
    ensures Traced(Iterate(s, tick), profile, ClockAfter(tick.inbound, tick.now))
  {
    RetainHas(s.pending, Retired(s.clients, Expired(s, tick.now)), Expired(s, tick.now));
    assert Traced(Expire(s, tick.now), profile, tick.now);
    DrainKeepsTrace(Expire(s, tick.now), profile, tick.now, tick.now);
    ReceiveAllKeepsTrace(SendPhase(s, tick.now), profile, tick.now, tick.now, tick.inbound);
  }

  lemma {:induction false} RunKeepsTrace(s: State, profile: Profile, clock: int, ticks: seq<Tick>) returns (clock': int)
    requires Traced(s, profile, clock) && SteadyRun(ticks, clock) && Feasible(s, ticks)
    ensures Traced(Run(s, ticks), profile, clock')
    decreases |ticks|
  {
    if ticks == [] {
      clock' := clock;
    } else {
      IterateKeepsTrace(s, profile, clock, ticks[0]);
      clock' := RunKeepsTrace(Iterate(s, ticks[0]), profile, ClockAfter(ticks[0].inbound, ticks[0].now), ticks[1..]);
    }
  }

  /** When a packet was handed to the schedule. */
  ghost function ScheduledAt(s: State, p: Packet): int
    requires p.order < |s.asked.Of(p.Direction())|
  {
    s.asked.Of(p.Direction())[p.order]
  }

  /** Under a clock that never runs back, each packet leaves at or after its scheduled time,
      which lies within the profile's delays of when it was scheduled. */
  lemma DeparturesOnTime(profile: Profile, ticks: seq<Tick>, i: nat)
    requires Feasible(Start(profile), ticks) && SteadyRun(ticks, 0)
    requires i < |Run(Start(profile), ticks).sent|
    ensures var s := Run(Start(profile), ticks);
            var p := s.sent[i].packet;
            && p.order < |s.asked.Of(p.Direction())|
            && p.due <= s.sent[i].at
            && ScheduledAt(s, p) + MinDelay(profile) <= p.due <= ScheduledAt(s, p) + MaxDelay(profile)
  {
    RunKeepsInv(Start(profile), ticks);
    var _ := RunKeepsTrace(Start(profile), profile, 0, ticks);
    var s := Run(Start(profile), ticks);
    var p := s.sent[i].packet;
    assert Known(s.accepted, p) && Scheduled(profile, s.asked, p);
    DelayBounds(profile, s.asked.Of(p.Direction()), p.order);
  }

  /** Under a clock that never runs back, a packet that left before an earlier one of its
      direction did so under jitter, within 40 ms of it, or under navigation, within 175 ms;
      direct, loss and stall deliver every direction in arrival order. */
  lemma DeparturesInOrder(profile: Profile, ticks: seq<Tick>, i: nat, j: nat)
    requires Feasible(Start(profile), ticks) && SteadyRun(ticks, 0)
    requires i < j < |Run(Start(profile), ticks).sent|
    requires var s := Run(Start(profile), ticks);
             s.sent[i].packet.Direction() == s.sent[j].packet.Direction()
             && s.sent[j].packet.order < s.sent[i].packet.order
    ensures var s := Run(Start(profile), ticks);
            var p, q := s.sent[i].packet, s.sent[j].packet;
            && (profile.Jitter? || profile.Navigation?)
            && p.order < |s.asked.Of(p.Direction())|
            && ScheduledAt(s, p) - ScheduledAt(s, q) < (if profile.Jitter? then 400 else 1750)
  {
    RunKeepsInv(Start(profile), ticks);
    var _ := RunKeepsTrace(Start(profile), profile, 0, ticks);
    var s := Run(Start(profile), ticks);
    var p, q := s.sent[i].packet, s.sent[j].packet;
    assert Known(s.accepted, p) && Scheduled(profile, s.asked, p);
    assert Known(s.accepted, q) && Scheduled(profile, s.asked, q);
    assert RightlyFirst(p, q);
    BoundedReordering(profile, s.asked.Of(p.Direction()), q.order, p.order);
  }
}
