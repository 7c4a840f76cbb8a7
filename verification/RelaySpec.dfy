/**
 The UDP impairment relay as a state machine over its loop.  One iteration retires idle
 clients, sends what is due, and takes in the datagrams the selector reported.
 */
module RelaySpec {
  import opened Bytes
  import opened Impairment

  type Socket = nat
  type Address = string

  const LISTENER: Socket := 0
  const MAXIMUM_CLIENTS := 8
  const MAXIMUM_PENDING := 4096
  const CLIENT_IDLE := 300_000
  const DELAY_THRESHOLD := 10

  /** A queued datagram.  `backend` is the socket of the client connection it belongs to and
      `order` its position among the packets scheduled in its direction. */
  datatype Packet = Packet(
    due: int, serial: nat, target: Socket, payload: Blob, destination: Option<Address>,
    backend: Socket, order: nat)
  {
    function Direction(): Direction {
      if destination.None? then ToServer else ToClient
    }
  }

  /** A datagram that left, the loop's clock, and the client table at that moment. */
  datatype Departure = Departure(packet: Packet, at: int, clients: map<Address, Socket>)

  /** The clock readings at which the schedule was consulted, per direction. */
  datatype Asked = Asked(toServer: seq<int>, toClient: seq<int>) {
    function Of(d: Direction): seq<int> {
      if d.ToServer? then toServer else toClient
    }

    function Add(d: Direction, t: int): Asked {
      if d.ToServer? then Asked(toServer + [t], toClient) else Asked(toServer, toClient + [t])
    }
  }

  datatype RelayStats = RelayStats(received: nat, delivered: nat, dropped: nat, delayed: nat, socketResets: nat) {
    function Received(): RelayStats { this.(received := received + 1) }
    function Delivered(): RelayStats { this.(delivered := delivered + 1) }
    function Dropped(n: nat): RelayStats { this.(dropped := dropped + n) }
    function Delayed(late: bool): RelayStats { this.(delayed := delayed + if late then 1 else 0) }
    function SocketReset(): RelayStats { this.(socketResets := socketResets + 1) }
  }

  datatype State = State(
    clients: map<Address, Socket>,
    lastSeen: map<Address, int>,
    pending: seq<Packet>,
    serial: nat,
    nextSocket: nat,
    stats: RelayStats,
    profile: Profile,
    asked: Asked,
    accepted: seq<Packet>,
    sent: seq<Departure>)

  /** What one ready selector key gives.  `at` is the clock reading handed to the schedule
      and `after` the one that decides whether the packet counts as delayed.  The driver may
      also install a fresh schedule at any time. */
  datatype Inbound =
    | FromClient(address: Address, payload: Blob, at: int, after: int)
    | FromServer(address: Address, payload: Blob, at: int, after: int)
    | ConnectionReset
    | NewSchedule(profile: Profile)

  datatype Tick = Tick(now: int, inbound: seq<Inbound>)

  function Start(profile: Profile): State {
    State(map[], map[], [], 0, 1, RelayStats(0, 0, 0, 0, 0), profile, Asked([], []), [], [])
  }

  // ----- The queue, ordered by due time and then by serial

  predicate Before(p: Packet, q: Packet) {
    p.due < q.due || (p.due == q.due && p.serial < q.serial)
  }

  ghost predicate Sorted(q: seq<Packet>) {
    forall i, j :: 0 <= i < j < |q| ==> Before(q[i], q[j])
  }

  /** `heapq.heappush`. */
  function Insert(q: seq<Packet>, p: Packet): seq<Packet> {
    if q == [] then [p]
    else if Before(p, q[0]) then [p] + q
    else [q[0]] + Insert(q[1..], p)
  }

  /** The packets that do not belong to a retired client. */
  function Retain(q: seq<Packet>, retired: set<Socket>, expired: set<Address>): (r: seq<Packet>)
    ensures |r| <= |q|
  {
    if q == [] then []
    else (if Kept(q[0], retired, expired) then [q[0]] else []) + Retain(q[1..], retired, expired)
  }

  predicate Kept(p: Packet, retired: set<Socket>, expired: set<Address>) {
    p.target !in retired && (p.destination.Some? ==> p.destination.value !in expired)
  }

  // ----- One iteration

  function Expired(s: State, now: int): set<Address> {
    set a | a in s.lastSeen && now - s.lastSeen[a] >= CLIENT_IDLE
  }

  function Retired(clients: map<Address, Socket>, expired: set<Address>): set<Socket> {
    set a | a in expired && a in clients :: clients[a]
  }

  function Expire(s: State, now: int): State {
    var expired := Expired(s, now);
    var retained := Retain(s.pending, Retired(s.clients, expired), expired);
    s.(clients := s.clients - expired,
       lastSeen := s.lastSeen - expired,
       pending := retained,
       stats := s.stats.Dropped(|s.pending| - |retained|))
  }

  function Pop(s: State, now: int): State
    requires s.pending != []
  {
    s.(pending := s.pending[1..],
       stats := s.stats.Delivered(),
       sent := s.sent + [Departure(s.pending[0], now, s.clients)])
  }

  function Drain(s: State, now: int): State
    decreases |s.pending|
  {
    if s.pending != [] && s.pending[0].due <= now then Drain(Pop(s, now), now) else s
  }

  /** Drop a packet the schedule lost or the queue has no room for, and queue any other. */
  function Settle(s: State, due: Option<int>, order: nat, backend: Socket, payload: Blob,
                  destination: Option<Address>, after: int): State {
    if due.None? || |s.pending| >= MAXIMUM_PENDING then s.(stats := s.stats.Dropped(1))
    else
      var target := if destination.None? then backend else LISTENER;
      var packet := Packet(due.value, s.serial + 1, target, payload, destination, backend, order);
      s.(serial := s.serial + 1,
         pending := Insert(s.pending, packet),
         accepted := s.accepted + [packet],
         stats := s.stats.Delayed(due.value > after + DELAY_THRESHOLD))
  }

  /** The tail of the receive loop: consult the schedule, then drop or queue. */
  function Enqueue(s: State, backend: Socket, payload: Blob, destination: Option<Address>, at: int, after: int): State {
    var direction := if destination.None? then ToServer else ToClient;
    var order := |s.asked.Of(direction)|;
    var asked := s.asked.Add(direction, at);
    var due := Outcome(s.profile, asked.Of(direction), order);
    Settle(s.(asked := asked), due, order, backend, payload, destination, after)
  }

  /** A datagram on the listener: find or make its client, unless the table is full. */
  function Admit(s: State, now: int, address: Address): State {
    var s' := if address in s.clients then s
              else s.(clients := s.clients[address := s.nextSocket], nextSocket := s.nextSocket + 1);
    s'.(lastSeen := s'.lastSeen[address := now])
  }

  predicate Full(s: State, address: Address) {
    address !in s.clients && |s.clients| >= MAXIMUM_CLIENTS
  }

  function Greet(s: State, now: int, address: Address, payload: Blob, at: int, after: int): State {
    var s1 := s.(stats := s.stats.Received());
    if Full(s1, address) then s1.(stats := s1.stats.Dropped(1))
    else
      var s2 := Admit(s1, now, address);
      Enqueue(s2, s2.clients[address], payload, None, at, after)
  }

  /** A datagram on the backend of a client. */
  function Answer(s: State, address: Address, payload: Blob, at: int, after: int): State
    requires address in s.clients
  {
    Enqueue(s.(stats := s.stats.Received()), s.clients[address], payload, Some(address), at, after)
  }

  function Receive(s: State, now: int, e: Inbound): State
    requires e.FromServer? ==> e.address in s.clients
  {
    match e
    case ConnectionReset => s.(stats := s.stats.SocketReset())
    case NewSchedule(profile) => s.(profile := profile, asked := Asked([], []))
    case FromClient(address, payload, at, after) => Greet(s, now, address, payload, at, after)
    case FromServer(address, payload, at, after) => Answer(s, address, payload, at, after)
  }

  /** Ready keys are handled in turn.  A backend key is in the selector exactly while its
      client is in the table. */
  ghost predicate Ready(s: State, now: int, inbound: seq<Inbound>)
    decreases |inbound|
  {
    inbound == []
    || ((inbound[0].FromServer? ==> inbound[0].address in s.clients)
        && Ready(Receive(s, now, inbound[0]), now, inbound[1..]))
  }

  function ReceiveAll(s: State, now: int, inbound: seq<Inbound>): State
    requires Ready(s, now, inbound)
    decreases |inbound|
  {
    if inbound == [] then s else ReceiveAll(Receive(s, now, inbound[0]), now, inbound[1..])
  }

  function SendPhase(s: State, now: int): State {
    Drain(Expire(s, now), now)
  }

  ghost predicate Feasible(s: State, ticks: seq<Tick>)
    decreases |ticks|
  {
    ticks == []
    || (Ready(SendPhase(s, ticks[0].now), ticks[0].now, ticks[0].inbound)
        && Feasible(Iterate(s, ticks[0]), ticks[1..]))
  }

  function Iterate(s: State, tick: Tick): State
    requires Ready(SendPhase(s, tick.now), tick.now, tick.inbound)
  {
    ReceiveAll(SendPhase(s, tick.now), tick.now, tick.inbound)
  }

  /** The state at the loop head after these iterations. */
  function Run(s: State, ticks: seq<Tick>): State
    requires Feasible(s, ticks)
    decreases |ticks|
  {
    if ticks == [] then s else Run(Iterate(s, ticks[0]), ticks[1..])
  }
}
