/** The relay as the program runs it: one object whose loop updates its tables in place. */
module Relay {
  import opened Bytes
  import opened Impairment
  import opened RelaySpec
  import opened RelayProofs

  class UdpImpairmentRelay {
    var clients: map<Address, Socket>
    var lastSeen: map<Address, int>
    var pending: seq<Packet>
    var serial: nat
    var nextSocket: nat
    var stats: RelayStats
    var schedule: ImpairmentSchedule
    var sent: seq<Departure>
    ghost var asked: Asked
    ghost var accepted: seq<Packet>

    ghost function View(): State
      reads this
    {
      State(clients, lastSeen, pending, serial, nextSocket, stats, schedule.profile,
            asked, accepted, sent)
    }

    /** The schedule object has counted exactly the packets it was asked about. */
    ghost predicate Valid()
      reads this`schedule, this`asked, schedule
    {
      && schedule.Valid()
      && schedule.LaneOf(ToServer) == LaneAfter(schedule.profile, asked.toServer)
      && schedule.LaneOf(ToClient) == LaneAfter(schedule.profile, asked.toClient)
    }

    constructor (profile: Profile)
      ensures Valid() && fresh(schedule)
      ensures View() == Start(profile)
    {
      clients, lastSeen, pending, serial, nextSocket := map[], map[], [], 0, 1;
      stats := RelayStats(0, 0, 0, 0, 0);
      schedule := new ImpairmentSchedule(profile);
      sent, asked, accepted := [], Asked([], []), [];
    }

    /** Retire clients that have been silent for 30 seconds, with everything queued for them. */
    method ExpireIdle(now: int)
      requires Valid()
      modifies this`clients, this`lastSeen, this`pending, this`stats
      ensures Valid()
      ensures View() == Expire(old(View()), now)
    {
      var expired := set a | a in lastSeen && now - lastSeen[a] >= CLIENT_IDLE;
      if expired == {} {
        NothingExpires(View(), now);
      } else {
        var retired := set a | a in expired && a in clients :: clients[a];
        var retained := Filter(pending, retired, expired);
        stats := stats.Dropped(|pending| - |retained|);
        pending := retained;
        clients, lastSeen := clients - expired, lastSeen - expired;
      }
    }

    static method Filter(q: seq<Packet>, retired: set<Socket>, expired: set<Address>) returns (retained: seq<Packet>)
      ensures retained == Retain(q, retired, expired)
    {
      retained := [];
      var rest := q;
      while rest != []
        invariant retained + Retain(rest, retired, expired) == Retain(q, retired, expired)
      {
        var p := rest[0];
        ghost var before, after := retained, Retain(rest[1..], retired, expired);
        if p.target !in retired && (p.destination.Some? ==> p.destination.value !in expired) {
          retained := retained + [p];
          assert before + ([p] + after) == retained + after;
        } else {
          assert [] + after == after;
        }
        rest := rest[1..];
      }
    }

    /** Send everything that is due. */
    method SendDue(now: int)
      requires Valid()
      modifies this`pending, this`stats, this`sent
      ensures Valid()
      ensures View() == Drain(old(View()), now)
    {
      while pending != [] && pending[0].due <= now
        invariant Valid()
        invariant Drain(View(), now) == Drain(old(View()), now)
        decreases |pending|
      {
        sent := sent + [Departure(pending[0], now, clients)];
        pending := pending[1..];
        stats := stats.Delivered();
      }
    }

    /** Consult the schedule about the next packet of a direction. */
    method Ask(direction: Direction, at: int) returns (due: Option<int>, order: nat)
      requires Valid()
      modifies this`asked, schedule
      ensures Valid() && asked == old(asked).Add(direction, at)
      ensures order == |old(asked).Of(direction)|
      ensures due == Outcome(schedule.profile, asked.Of(direction), order)
    {
      NextOutcome(schedule.profile, asked.Of(direction), at);
      match direction {
        case ToServer => order := schedule.sequence[ToServer];
        case ToClient => order := schedule.sequence[ToClient];
      }
      due := schedule.Delivery(direction, at);
      asked := asked.Add(direction, at);
    }

    /** Drop or queue one packet the schedule was asked about. */
    method Finish(due: Option<int>, order: nat, backend: Socket, payload: Blob, destination: Option<Address>,
                  after: int)
      modifies this`stats, this`serial, this`pending, this`accepted
      ensures View() == Settle(old(View()), due, order, backend, payload, destination, after)
    {
      if due.None? || |pending| >= MAXIMUM_PENDING {
        stats := stats.Dropped(1);
      } else {
        var target := if destination.None? then backend else LISTENER;
        serial := serial + 1;
        var packet := Packet(due.value, serial, target, payload, destination, backend, order);
        pending, accepted := Insert(pending, packet), accepted + [packet];
        stats := stats.Delayed(due.value > after + DELAY_THRESHOLD);
      }
    }

    /** Hand one packet to the schedule and queue or drop it. */
    method Queue(backend: Socket, payload: Blob, destination: Option<Address>, at: int, after: int)
      requires Valid()
      modifies this`asked, this`stats, this`serial, this`pending, this`accepted, schedule
      ensures Valid()
      ensures View() == Enqueue(old(View()), backend, payload, destination, at, after)
    {
      var due, order := Ask(if destination.None? then ToServer else ToClient, at);
      Finish(due, order, backend, payload, destination, after);
    }

    /** A datagram from the server on a client's backend socket. */
    method FromBackend(address: Address, payload: Blob, at: int, after: int)
      requires Valid() && address in clients
      modifies this`asked, this`stats, this`serial, this`pending, this`accepted, schedule
      ensures Valid()
      ensures View() == Answer(old(View()), address, payload, at, after)
    {
      stats := stats.Received();
      Queue(clients[address], payload, Some(address), at, after);
    }

    /** Find the backend socket of an address or make one, and note the activity. */
    method Register(now: int, address: Address) returns (backend: Socket)
      modifies this`clients, this`nextSocket, this`lastSeen
      ensures View() == Admit(old(View()), now, address)
      ensures address in clients && backend == clients[address]
    {
      if address !in clients {
        clients, nextSocket := clients[address := nextSocket], nextSocket + 1;
      }
      lastSeen := lastSeen[address := now];
      backend := clients[address];
    }

    /** A datagram from a client on the listener. */
    method FromListener(now: int, address: Address, payload: Blob, at: int, after: int)
      requires Valid()
      modifies this`clients, this`nextSocket, this`lastSeen
      modifies this`asked, this`stats, this`serial, this`pending, this`accepted, schedule
      ensures Valid()
      ensures View() == Greet(old(View()), now, address, payload, at, after)
    {
      stats := stats.Received();
      if address !in clients && |clients| >= MAXIMUM_CLIENTS {
        stats := stats.Dropped(1);
      } else {
        var backend := Register(now, address);
        Queue(backend, payload, None, at, after);
      }
    }

    /** Handle one ready selector key. */
    method HandleKey(now: int, e: Inbound)
      requires Valid() && (e.FromServer? ==> e.address in clients)
      modifies this, schedule
      ensures Valid() && (schedule == old(schedule) || fresh(schedule))
      ensures View() == Receive(old(View()), now, e)
    {
      match e
      case ConnectionReset =>
        stats := stats.SocketReset();
      case NewSchedule(profile) =>
        schedule := new ImpairmentSchedule(profile);
        asked := Asked([], []);
      case FromClient(address, payload, at, after) =>
        FromListener(now, address, payload, at, after);
      case FromServer(address, payload, at, after) =>
        FromBackend(address, payload, at, after);
    }

    /** Handle every ready key of one iteration. */
    method HandleKeys(now: int, inbound: seq<Inbound>)
      requires Valid() && Ready(View(), now, inbound)
      modifies this, schedule
      ensures Valid() && (schedule == old(schedule) || fresh(schedule))
      ensures View() == ReceiveAll(old(View()), now, inbound)
    {
      for k := 0 to |inbound|
        invariant Valid() && (schedule == old(schedule) || fresh(schedule))
        invariant Ready(View(), now, inbound[k..])
        invariant ReceiveAll(View(), now, inbound[k..]) == ReceiveAll(old(View()), now, inbound)
      {
        assert inbound[k..][0] == inbound[k] && inbound[k..][1..] == inbound[k + 1..];
        HandleKey(now, inbound[k]);
      }
    }

    /** The loop of `_run`, over the clock readings and ready keys of its iterations. */
    method Loop(ticks: seq<Tick>)
      requires Valid() && Feasible(View(), ticks)
      modifies this, schedule
      ensures Valid() && View() == Run(old(View()), ticks)
    {
      for i := 0 to |ticks|
        invariant Valid() && (schedule == old(schedule) || fresh(schedule))
        invariant Feasible(View(), ticks[i..]) && Run(View(), ticks[i..]) == Run(old(View()), ticks)
      {
        assert ticks[i..][0] == ticks[i] && ticks[i..][1..] == ticks[i + 1..];
        ExpireIdle(ticks[i].now);
        SendDue(ticks[i].now);
        HandleKeys(ticks[i].now, ticks[i].inbound);
      }
    }

    /** A whole run keeps the invariant. */
    method Serve(ticks: seq<Tick>)
      requires Valid() && Inv(View()) && Feasible(View(), ticks)
      modifies this, schedule
      ensures Valid() && View() == Run(old(View()), ticks)
      ensures Inv(View())
    {
      RunKeepsInv(View(), ticks);
      Loop(ticks);
    }
  }

  lemma {:induction false} RetainAll(q: seq<Packet>)
    ensures Retain(q, {}, {}) == q
  {
    if q != [] {
      RetainAll(q[1..]);
    }
  }

  lemma NothingExpires(s: State, now: int)
    requires Expired(s, now) == {}
    ensures Expire(s, now) == s
  {
    RetainAll(s.pending);
    assert Retired(s.clients, {}) == {};
    assert s.clients - {} == s.clients && s.lastSeen - {} == s.lastSeen;
  }

  /** The next packet of a direction, seen from the counters and from the whole history. */
  lemma NextOutcome(profile: Profile, times: seq<int>, at: int)
    ensures LaneAfter(profile, times + [at]) == Advance(profile, LaneAfter(profile, times), at)
    ensures Outcome(profile, times + [at], |times|) == Due(profile, LaneAfter(profile, times + [at]), at)
  {
    var all := times + [at];
    assert all[..|all| - 1] == times && all[..|times| + 1] == all;
  }
}
