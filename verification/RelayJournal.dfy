/**
 What became of every datagram.  The journal of a run lists what arrived, in the order it was
 handled, and is read off the run's inputs; the theorems say that what the relay queues and
 sends is exactly what the journal says it should.
 */
module RelayJournal {
  import opened Bytes
  import opened Seqs
  import opened Impairment
  import opened RelaySpec
  import opened RelayProofs

  /** `refused` is a datagram of an unknown address while the table is full; `backend` is the
      socket of its client; `room` says that the queue was not full. */
  datatype Note =
    | Began(now: int)
    | Arrived(tick: int, direction: Direction, address: Address, payload: Blob, at: int, after: int,
              refused: bool, backend: Socket, room: bool)
    | Reset
    | Installed(profile: Profile)
  {
    /** A datagram that the schedule was asked about. */
    predicate Admitted(d: Direction) {
      Arrived? && direction == d && !refused
    }
  }

  function NoteOf(s: State, now: int, e: Inbound): Note
    requires e.FromServer? ==> e.address in s.clients
  {
    var room := |s.pending| < MAXIMUM_PENDING;
    match e
    case ConnectionReset => Reset
    case NewSchedule(profile) => Installed(profile)
    case FromClient(a, payload, at, after) =>
      Arrived(now, ToServer, a, payload, at, after, a !in s.clients && |s.clients| >= MAXIMUM_CLIENTS,
              if a in s.clients then s.clients[a] else s.nextSocket, room)
    case FromServer(a, payload, at, after) =>
      Arrived(now, ToClient, a, payload, at, after, false, s.clients[a], room)
  }

  function Notes(s: State, now: int, inbound: seq<Inbound>): seq<Note>
    requires Ready(s, now, inbound)
    decreases |inbound|
  {
    if inbound == [] then []
    else [NoteOf(s, now, inbound[0])] + Notes(Receive(s, now, inbound[0]), now, inbound[1..])
  }

  /** The journal of a run: every iteration's clock reading, then what it took in. */
  function Journal(s: State, ticks: seq<Tick>): seq<Note>
    requires Feasible(s, ticks)
    decreases |ticks|
  {
    if ticks == [] then []
    else
      [Began(ticks[0].now)] + Notes(SendPhase(s, ticks[0].now), ticks[0].now, ticks[0].inbound)
      + Journal(Iterate(s, ticks[0]), ticks[1..])
  }

  // ----- What the journal says

  /** The schedule in force. */
  function ProfileOf(initial: Profile, log: seq<Note>): Profile {
    if log == [] then initial
    else if log[|log| - 1].Installed? then log[|log| - 1].profile
    else ProfileOf(initial, log[..|log| - 1])
  }

  /** When it was asked about the datagrams of a direction. */
  function TimesOf(log: seq<Note>, d: Direction): seq<int> {
    if log == [] || log[|log| - 1].Installed? then []
    else
      var last := log[|log| - 1];
      TimesOf(log[..|log| - 1], d) + if last.Admitted(d) then [last.at] else []
  }

  /** What it decides about one more. */
  function Decision(initial: Profile, log: seq<Note>, n: Note): Option<int>
    requires n.Arrived?
  {
    var times := TimesOf(log, n.direction);
    Outcome(ProfileOf(initial, log), times + [n.at], |times|)
  }

  /** A datagram that has to be carried: admitted, kept by the schedule, met with room. */
  predicate Carries(initial: Profile, log: seq<Note>, n: Note) {
    n.Arrived? && !n.refused && n.room && Decision(initial, log, n).Some?
  }

  datatype Carriage = Carriage(note: Note, due: int, order: nat)

  /** The datagrams to be carried, in the order they arrived. */
  function Carried(initial: Profile, log: seq<Note>): (r: seq<Carriage>)
    ensures forall k :: 0 <= k < |r| ==> r[k].note.Arrived?
  {
    if log == [] then []
    else
      var front, n := log[..|log| - 1], log[|log| - 1];
      Carried(initial, front) +
      if Carries(initial, front, n)
      then [Carriage(n, Decision(initial, front, n).value, |TimesOf(front, n.direction)|)] else []
  }

  /** The packet is the carried datagram: its bytes, for its client, on its way. */
  predicate IsCarriage(p: Packet, c: Carriage)
    requires c.note.Arrived?
  {
    var n := c.note;
    && p.payload == n.payload && p.backend == n.backend && p.due == c.due && p.order == c.order
    && p.destination == (if n.direction.ToServer? then None else Some(n.address))
    && p.target == (if n.direction.ToServer? then n.backend else LISTENER)
  }

  /** When a client was last heard of. */
  function LastHeard(log: seq<Note>, a: Address): Option<int> {
    if log == [] then None
    else
      var last := log[|log| - 1];
      if last.Admitted(ToServer) && last.address == a then Some(last.tick) else LastHeard(log[..|log| - 1], a)
  }

  predicate Idle(log: seq<Note>, a: Address, now: int) {
    LastHeard(log, a).Some? && now - LastHeard(log, a).value >= CLIENT_IDLE
  }

  /** After datagram k was taken in, an iteration began at which its client had been silent for
      30 seconds. */
  ghost predicate Abandoned(initial: Profile, log: seq<Note>, k: nat) {
    exists m :: 0 <= m < |log| && log[m].Began? && k < |Carried(initial, log[..m])|
                && Idle(log[..m], Carried(initial, log[..m])[k].note.address, log[m].now)
  }

  function Received(log: seq<Note>): nat {
    if log == [] then 0 else Received(log[..|log| - 1]) + if log[|log| - 1].Arrived? then 1 else 0
  }

  function Resets(log: seq<Note>): nat {
    if log == [] then 0 else Resets(log[..|log| - 1]) + if log[|log| - 1].Reset? then 1 else 0
  }

  /** Carried datagrams scheduled more than a millisecond ahead. */
  function Late(carried: seq<Carriage>): nat
    requires forall k :: 0 <= k < |carried| ==> carried[k].note.Arrived?
  {
    if carried == [] then 0
    else
      var c := carried[|carried| - 1];
      Late(carried[..|carried| - 1]) + if c.due > c.note.after + DELAY_THRESHOLD then 1 else 0
  }

  // ----- One more note

  lemma Snoc(initial: Profile, log: seq<Note>, n: Note)
    ensures (log + [n])[..|log|] == log
    ensures ProfileOf(initial, log + [n]) == if n.Installed? then n.profile else ProfileOf(initial, log)
    ensures Received(log + [n]) == Received(log) + if n.Arrived? then 1 else 0
    ensures Resets(log + [n]) == Resets(log) + if n.Reset? then 1 else 0
  {
    assert (log + [n])[..|log|] == log;
  }

  lemma SnocTimes(log: seq<Note>, n: Note, d: Direction)
    ensures TimesOf(log + [n], d) ==
            if n.Installed? then [] else TimesOf(log, d) + if n.Admitted(d) then [n.at] else []
  {
    assert (log + [n])[..|log|] == log;
  }

  lemma SnocCarried(initial: Profile, log: seq<Note>, n: Note)
    ensures Carried(initial, log + [n]) ==
            Carried(initial, log) +
            if Carries(initial, log, n)
            then [Carriage(n, Decision(initial, log, n).value, |TimesOf(log, n.direction)|)] else []
  {
    assert (log + [n])[..|log|] == log;
  }

  lemma SnocHeard(log: seq<Note>, n: Note, a: Address)
    ensures LastHeard(log + [n], a) ==
            if n.Admitted(ToServer) && n.address == a then Some(n.tick) else LastHeard(log, a)
  {
    assert (log + [n])[..|log|] == log;
  }

  lemma SnocAbandoned(initial: Profile, log: seq<Note>, n: Note, k: nat)
    requires Abandoned(initial, log, k)
    ensures Abandoned(initial, log + [n], k)
  {
    var m :| 0 <= m < |log| && log[m].Began? && k < |Carried(initial, log[..m])|
             && Idle(log[..m], Carried(initial, log[..m])[k].note.address, log[m].now);
    assert (log + [n])[..m] == log[..m] && (log + [n])[m] == log[m];
  }

  lemma SnocLate(carried: seq<Carriage>, c: Carriage)
    requires c.note.Arrived? && forall k :: 0 <= k < |carried| ==> carried[k].note.Arrived?
    ensures Late(carried + [c]) == Late(carried) + if c.due > c.note.after + DELAY_THRESHOLD then 1 else 0
  {
    assert (carried + [c])[..|carried|] == carried;
  }

  // ----- The state agrees with the journal

  /** The schedule has been asked about exactly the admitted datagrams. */
  ghost predicate AskedOk(s: State, initial: Profile, log: seq<Note>) {
    && s.profile == ProfileOf(initial, log)
    && s.asked.toServer == TimesOf(log, ToServer)
    && s.asked.toClient == TimesOf(log, ToClient)
  }

  /** The packets accepted are exactly the datagrams to be carried. */
  ghost predicate AcceptedOk(s: State, carried: seq<Carriage>)
    requires forall k :: 0 <= k < |carried| ==> carried[k].note.Arrived?
  {
    && s.serial == |s.accepted| == |carried|
    && forall k :: 0 <= k < |carried| ==> s.accepted[k].serial == k + 1 && IsCarriage(s.accepted[k], carried[k])
  }

  ghost predicate HeardOk(lastSeen: map<Address, int>, log: seq<Note>) {
    forall a :: a in lastSeen ==> LastHeard(log, a) == Some(lastSeen[a])
  }

  /** A queued packet's client is in the table, on the packet's own backend. */
  ghost predicate OwnersOk(clients: map<Address, Socket>, accepted: seq<Packet>, pending: seq<Packet>,
                           carried: seq<Carriage>)
    requires forall k :: 0 <= k < |carried| ==> carried[k].note.Arrived?
    requires |accepted| == |carried| && AllKnown(accepted, pending, [])
  {
    forall p :: p in pending ==>
      var a := carried[p.serial - 1].note.address; a in clients && clients[a] == p.backend
  }

  ghost predicate Departed(sent: seq<Departure>, p: Packet) {
    exists i :: 0 <= i < |sent| && sent[i].packet == p
  }

  /** Every accepted packet is queued, was sent, or belonged to a client that went silent. */
  ghost predicate Accounted(s: State, initial: Profile, log: seq<Note>) {
    forall k :: 0 <= k < |s.accepted| ==>
      s.accepted[k] in s.pending || Departed(s.sent, s.accepted[k]) || Abandoned(initial, log, k)
  }

  ghost predicate CountersOk(s: State, initial: Profile, log: seq<Note>) {
    && s.stats.received == Received(log)
    && s.stats.socketResets == Resets(log)
    && s.stats.delayed == Late(Carried(initial, log))
  }

  ghost predicate Journaled(s: State, initial: Profile, log: seq<Note>) {
    var carried := Carried(initial, log);
    && AskedOk(s, initial, log)
    && AcceptedOk(s, carried)
    && AllKnown(s.accepted, s.pending, s.sent)
    && HeardOk(s.lastSeen, log)
    && OwnersOk(s.clients, s.accepted, s.pending, carried)
    && Accounted(s, initial, log)
    && CountersOk(s, initial, log)
  }

  // ----- Expiry

  /** A queued packet of a retired client is discarded, and no other. */
  lemma DiscardedIsIdle(s: State, now: int, p: Packet, c: Carriage)
    requires TableOk(s.clients, s.lastSeen, s.nextSocket) && c.note.Arrived? && IsCarriage(p, c)
    requires c.note.address in s.clients && s.clients[c.note.address] == p.backend
    ensures Kept(p, Retired(s.clients, Expired(s, now)), Expired(s, now)) <==> c.note.address !in Expired(s, now)
  {
    var a, expired := c.note.address, Expired(s, now);
    var retired := Retired(s.clients, expired);
    assert forall b :: b in s.clients ==> LISTENER < s.clients[b];
    if c.note.direction.ToServer? && p.target in retired {
      var b :| b in expired && b in s.clients && s.clients[b] == p.target;
      assert a == b;
    }
    if a in expired {
      assert s.clients[a] in retired;
    }
  }

  lemma SameTimes(log: seq<Note>, now: int)
    ensures TimesOf(log + [Began(now)], ToServer) == TimesOf(log, ToServer)
    ensures TimesOf(log + [Began(now)], ToClient) == TimesOf(log, ToClient)
  {
    SnocTimes(log, Began(now), ToServer);
    SnocTimes(log, Began(now), ToClient);
  }

  lemma ExpireAccounts(s: State, now: int, initial: Profile, log: seq<Note>, k: nat)
    requires Inv(s) && Journaled(s, initial, log) && k < |s.accepted|
    ensures var s' := Expire(s, now);
            s.accepted[k] in s'.pending || Departed(s.sent, s.accepted[k])
            || Abandoned(initial, log + [Began(now)], k)
  {
    var p, carried := s.accepted[k], Carried(initial, log);
    if Abandoned(initial, log, k) {
      SnocAbandoned(initial, log, Began(now), k);
    } else if p in s.pending {
      RetainHas(s.pending, Retired(s.clients, Expired(s, now)), Expired(s, now));
      DiscardedIsIdle(s, now, p, carried[k]);
      var a := carried[k].note.address;
      if a in Expired(s, now) {
        var log' := log + [Began(now)];
        assert log'[..|log|] == log && log'[|log|] == Began(now);
        assert Idle(log, a, now);
        assert Abandoned(initial, log', k);
      }
    }
  }

  lemma ExpireOwners(s: State, now: int, carried: seq<Carriage>, p: Packet)
    requires TableOk(s.clients, s.lastSeen, s.nextSocket)
    requires forall k :: 0 <= k < |carried| ==> carried[k].note.Arrived?
    requires AcceptedOk(s, carried) && AllKnown(s.accepted, s.pending, [])
    requires OwnersOk(s.clients, s.accepted, s.pending, carried)
    requires p in Retain(s.pending, Retired(s.clients, Expired(s, now)), Expired(s, now))
    ensures p in s.pending
    ensures var a := carried[p.serial - 1].note.address;
            a in s.clients - Expired(s, now) && s.clients[a] == p.backend
  {
    RetainHas(s.pending, Retired(s.clients, Expired(s, now)), Expired(s, now));
    assert p in s.pending && Known(s.accepted, p);
    DiscardedIsIdle(s, now, p, carried[p.serial - 1]);
  }

  lemma ExpireKeepsOwners(s: State, now: int, carried: seq<Carriage>)
    requires TableOk(s.clients, s.lastSeen, s.nextSocket)
    requires forall k :: 0 <= k < |carried| ==> carried[k].note.Arrived?
    requires AcceptedOk(s, carried) && AllKnown(s.accepted, s.pending, [])
    requires OwnersOk(s.clients, s.accepted, s.pending, carried)
    ensures var s' := Expire(s, now);
            AllKnown(s.accepted, s'.pending, []) && OwnersOk(s'.clients, s.accepted, s'.pending, carried)
  {
    forall p | p in Expire(s, now).pending
      ensures p in s.pending
      ensures var a := carried[p.serial - 1].note.address;
              a in Expire(s, now).clients && Expire(s, now).clients[a] == p.backend
    {
      ExpireOwners(s, now, carried, p);
    }
  }

  lemma ExpireKeepsJournal(s: State, now: int, initial: Profile, log: seq<Note>)
    requires Inv(s) && Journaled(s, initial, log)
    ensures Journaled(Expire(s, now), initial, log + [Began(now)])
  {
    var s', log', carried := Expire(s, now), log + [Began(now)], Carried(initial, log);
    Snoc(initial, log, Began(now));
    SameTimes(log, now);
    SnocCarried(initial, log, Began(now));
    assert Carried(initial, log') == carried;
    ExpireKeepsOwners(s, now, carried);
    HeardOfServer(s.lastSeen, log, Began(now));
    forall k | 0 <= k < |s.accepted|
      ensures s.accepted[k] in s'.pending || Departed(s'.sent, s.accepted[k]) || Abandoned(initial, log', k)
    {
      ExpireAccounts(s, now, initial, log, k);
    }
  }

  // ----- Sending

  lemma PopAccounts(s: State, now: int, initial: Profile, log: seq<Note>, k: nat)
    requires Journaled(s, initial, log) && s.pending != [] && k < |s.accepted|
    ensures var s' := Pop(s, now);
            s.accepted[k] in s'.pending || Departed(s'.sent, s.accepted[k]) || Abandoned(initial, log, k)
  {
    var p, s' := s.accepted[k], Pop(s, now);
    assert s.pending == [s.pending[0]] + s.pending[1..];
    if p in s.pending && p !in s'.pending {
      assert s'.sent[|s.sent|].packet == p;
    } else if Departed(s.sent, p) {
      var i :| 0 <= i < |s.sent| && s.sent[i].packet == p;
      assert s'.sent[i].packet == p;
    }
  }

  lemma PopKeepsJournal(s: State, now: int, initial: Profile, log: seq<Note>)
    requires Journaled(s, initial, log) && s.pending != []
    ensures Journaled(Pop(s, now), initial, log)
  {
    var s' := Pop(s, now);
    assert s.pending[0] in s.pending && forall p :: p in s'.pending ==> p in s.pending;
    forall k | 0 <= k < |s.accepted|
      ensures s.accepted[k] in s'.pending || Departed(s'.sent, s.accepted[k]) || Abandoned(initial, log, k)
    {
      PopAccounts(s, now, initial, log, k);
    }
  }

  lemma {:induction false} DrainKeepsJournal(s: State, now: int, initial: Profile, log: seq<Note>)
    requires Journaled(s, initial, log)
    ensures Journaled(Drain(s, now), initial, log)
    decreases |s.pending|
  {
    if s.pending != [] && s.pending[0].due <= now {
      PopKeepsJournal(s, now, initial, log);
      DrainKeepsJournal(Pop(s, now), now, initial, log);
    }
  }

  // ----- Taking in a datagram

  /** The state in which an admitted datagram is handed on: its client is in the table. */
  ghost predicate Handing(s: State, n: Note, initial: Profile, log: seq<Note>) {
    && n.Arrived? && !n.refused && n.room == (|s.pending| < MAXIMUM_PENDING)
    && n.address in s.clients && s.clients[n.address] == n.backend
    && AskedOk(s, initial, log)
    && AcceptedOk(s, Carried(initial, log))
    && AllKnown(s.accepted, s.pending, s.sent)
    && OwnersOk(s.clients, s.accepted, s.pending, Carried(initial, log))
    && Accounted(s, initial, log)
    && s.stats.delayed == Late(Carried(initial, log))
  }

  function Hand(s: State, n: Note): State
    requires n.Arrived?
  {
    Enqueue(s, n.backend, n.payload, if n.direction.ToServer? then None else Some(n.address), n.at, n.after)
  }

  lemma HandAsks(s: State, n: Note, initial: Profile, log: seq<Note>)
    requires Handing(s, n, initial, log)
    ensures AskedOk(Hand(s, n), initial, log + [n])
    ensures Hand(s, n).serial == s.serial + (if Carries(initial, log, n) then 1 else 0)
    ensures !Carries(initial, log, n) ==>
              (Hand(s, n).accepted == s.accepted && Hand(s, n).pending == s.pending
               && Hand(s, n).stats.delayed == s.stats.delayed)
  {
    Snoc(initial, log, n);
    SnocTimes(log, n, ToServer);
    SnocTimes(log, n, ToClient);
  }

  lemma HandAccepts(s: State, n: Note, initial: Profile, log: seq<Note>) returns (p: Packet, c: Carriage)
    requires Carries(initial, log, n) && AskedOk(s, initial, log) && |s.pending| < MAXIMUM_PENDING
    ensures c == Carriage(n, Decision(initial, log, n).value, |TimesOf(log, n.direction)|)
    ensures p.serial == s.serial + 1 && IsCarriage(p, c)
    ensures Hand(s, n).accepted == s.accepted + [p] && Hand(s, n).pending == Insert(s.pending, p)
    ensures Hand(s, n).stats.delayed == s.stats.delayed + if c.due > n.after + DELAY_THRESHOLD then 1 else 0
  {
    c := Carriage(n, Decision(initial, log, n).value, |TimesOf(log, n.direction)|);
    p := Hand(s, n).accepted[|s.accepted|];
  }

  lemma OwnersPush(clients: map<Address, Socket>, accepted: seq<Packet>, pending: seq<Packet>, carried: seq<Carriage>,
                   p: Packet, c: Carriage)
    requires c.note.Arrived? && forall k :: 0 <= k < |carried| ==> carried[k].note.Arrived?
    requires |accepted| == |carried| && AllKnown(accepted, pending, []) && OwnersOk(clients, accepted, pending, carried)
    requires p.serial == |accepted| + 1 && c.note.address in clients && clients[c.note.address] == p.backend
    ensures AllKnown(accepted + [p], Insert(pending, p), [])
    ensures OwnersOk(clients, accepted + [p], Insert(pending, p), carried + [c])
  {
    KnownPush(accepted, pending, [], p);
    InsertHas(pending, p);
    forall q | q in Insert(pending, p)
      ensures var a := (carried + [c])[q.serial - 1].note.address; a in clients && clients[a] == q.backend
    {
      if q != p {
        assert Known(accepted, q) && (carried + [c])[q.serial - 1] == carried[q.serial - 1];
      }
    }
  }

  lemma AcceptedPush(s: State, s': State, carried: seq<Carriage>, p: Packet, c: Carriage)
    requires c.note.Arrived? && forall k :: 0 <= k < |carried| ==> carried[k].note.Arrived?
    requires AcceptedOk(s, carried) && s'.serial == s.serial + 1 && s'.accepted == s.accepted + [p]
    requires p.serial == s.serial + 1 && IsCarriage(p, c)
    ensures AcceptedOk(s', carried + [c])
  {
    var all := carried + [c];
    forall k | 0 <= k < |all|
      ensures s'.accepted[k].serial == k + 1 && IsCarriage(s'.accepted[k], all[k])
    {
      if k < |carried| {
        assert s'.accepted[k] == s.accepted[k] && all[k] == carried[k];
      }
    }
  }

  lemma InsertAccounts(s: State, s': State, initial: Profile, log: seq<Note>, n: Note, p: Packet, k: nat)
    requires Accounted(s, initial, log) && s'.sent == s.sent
    requires s'.accepted == s.accepted + [p] && s'.pending == Insert(s.pending, p) && k < |s'.accepted|
    ensures s'.accepted[k] in s'.pending || Departed(s'.sent, s'.accepted[k]) || Abandoned(initial, log + [n], k)
  {
    InsertHas(s.pending, p);
    if k < |s.accepted| && Abandoned(initial, log, k) {
      SnocAbandoned(initial, log, n, k);
    }
  }

  /** Handing a datagram on queues exactly that datagram, or nothing. */
  lemma HandKeepsJournal(s: State, n: Note, initial: Profile, log: seq<Note>)
    requires Handing(s, n, initial, log)
    ensures var s', carried := Hand(s, n), Carried(initial, log + [n]);
            && AskedOk(s', initial, log + [n])
            && AcceptedOk(s', carried)
            && AllKnown(s'.accepted, s'.pending, s'.sent)
            && OwnersOk(s'.clients, s'.accepted, s'.pending, carried)
            && Accounted(s', initial, log + [n])
            && s'.stats.delayed == Late(carried)
  {
    HandAsks(s, n, initial, log);
    SnocCarried(initial, log, n);
    if Carries(initial, log, n) {
      HandCarries(s, n, initial, log);
    } else {
      assert Carried(initial, log + [n]) == Carried(initial, log);
      forall k | 0 <= k < |s.accepted|
        ensures s.accepted[k] in s.pending || Departed(s.sent, s.accepted[k]) || Abandoned(initial, log + [n], k)
      {
        if Abandoned(initial, log, k) {
          SnocAbandoned(initial, log, n, k);
        }
      }
    }
  }

  lemma HandCarries(s: State, n: Note, initial: Profile, log: seq<Note>)
    requires Handing(s, n, initial, log) && Carries(initial, log, n)
    ensures var s', carried := Hand(s, n), Carried(initial, log + [n]);
            && AcceptedOk(s', carried)
            && AllKnown(s'.accepted, s'.pending, s'.sent)
            && OwnersOk(s'.clients, s'.accepted, s'.pending, carried)
            && Accounted(s', initial, log + [n])
            && s'.stats.delayed == Late(carried)
  {
    var before, s' := Carried(initial, log), Hand(s, n);
    HandAsks(s, n, initial, log);
    var p, c := HandAccepts(s, n, initial, log);
    SnocCarried(initial, log, n);
    SnocLate(before, c);
    AcceptedPush(s, s', before, p, c);
    KnownPush(s.accepted, s.pending, s.sent, p);
    OwnersPush(s.clients, s.accepted, s.pending, before, p, c);
    forall k | 0 <= k < |s'.accepted|
      ensures s'.accepted[k] in s'.pending || Departed(s'.sent, s'.accepted[k]) || Abandoned(initial, log + [n], k)
    {
      InsertAccounts(s, s', initial, log, n, p, k);
    }
  }

  // ----- A whole run

  /** A step that neither carries nor asks: nothing but the counters changes. */
  lemma UncarriedKeepsJournal(s: State, s': State, n: Note, initial: Profile, log: seq<Note>)
    requires Journaled(s, initial, log) && !Carries(initial, log, n)
    requires s'.accepted == s.accepted && s'.pending == s.pending && s'.sent == s.sent && s'.serial == s.serial
    requires s'.clients == s.clients && s'.lastSeen == s.lastSeen && !n.Admitted(ToServer)
    requires AskedOk(s', initial, log + [n]) && CountersOk(s', initial, log + [n])
    ensures Journaled(s', initial, log + [n])
  {
    SnocCarried(initial, log, n);
    assert Carried(initial, log + [n]) == Carried(initial, log);
    forall a | a in s.lastSeen
      ensures LastHeard(log + [n], a) == Some(s.lastSeen[a])
    {
      SnocHeard(log, n, a);
    }
    forall k | 0 <= k < |s.accepted|
      ensures s.accepted[k] in s.pending || Departed(s.sent, s.accepted[k]) || Abandoned(initial, log + [n], k)
    {
      if Abandoned(initial, log, k) {
        SnocAbandoned(initial, log, n, k);
      }
    }
  }

  lemma RefusedKeepsJournal(s: State, now: int, e: Inbound, initial: Profile, log: seq<Note>)
    requires Journaled(s, initial, log) && e.FromClient? && Full(s, e.address)
    ensures Journaled(Receive(s, now, e), initial, log + [NoteOf(s, now, e)])
  {
    var n := NoteOf(s, now, e);
    Snoc(initial, log, n);
    SnocTimes(log, n, ToServer);
    SnocTimes(log, n, ToClient);
    SnocCarried(initial, log, n);
    assert Carried(initial, log + [n]) == Carried(initial, log);
    UncarriedKeepsJournal(s, Receive(s, now, e), n, initial, log);
  }

  lemma QuietKeepsJournal(s: State, now: int, e: Inbound, initial: Profile, log: seq<Note>)
    requires Journaled(s, initial, log) && (e.ConnectionReset? || e.NewSchedule?)
    ensures Journaled(Receive(s, now, e), initial, log + [NoteOf(s, now, e)])
  {
    var n := NoteOf(s, now, e);
    Snoc(initial, log, n);
    SnocTimes(log, n, ToServer);
    SnocTimes(log, n, ToClient);
    SnocCarried(initial, log, n);
    assert Carried(initial, log + [n]) == Carried(initial, log);
    UncarriedKeepsJournal(s, Receive(s, now, e), n, initial, log);
  }

  /** Registering a client leaves queued packets with their owners. */
  lemma AdmitKeepsOwners(s: State, now: int, a: Address, carried: seq<Carriage>)
    requires forall k :: 0 <= k < |carried| ==> carried[k].note.Arrived?
    requires |s.accepted| == |carried| && AllKnown(s.accepted, s.pending, [])
    requires OwnersOk(s.clients, s.accepted, s.pending, carried)
    ensures OwnersOk(Admit(s, now, a).clients, s.accepted, s.pending, carried)
  {
    forall p | p in s.pending
      ensures var b := carried[p.serial - 1].note.address;
              b in Admit(s, now, a).clients && Admit(s, now, a).clients[b] == p.backend
    {
      assert Known(s.accepted, p);
    }
  }

  lemma HeardOfClient(lastSeen: map<Address, int>, log: seq<Note>, n: Note)
    requires HeardOk(lastSeen, log) && n.Admitted(ToServer)
    ensures HeardOk(lastSeen[n.address := n.tick], log + [n])
  {
    forall a | a in lastSeen[n.address := n.tick]
      ensures LastHeard(log + [n], a) == Some(lastSeen[n.address := n.tick][a])
    {
      SnocHeard(log, n, a);
    }
  }

  lemma HeardOfServer(lastSeen: map<Address, int>, log: seq<Note>, n: Note)
    requires HeardOk(lastSeen, log) && !n.Admitted(ToServer)
    ensures HeardOk(lastSeen, log + [n])
  {
    forall a | a in lastSeen
      ensures LastHeard(log + [n], a) == Some(lastSeen[a])
    {
      SnocHeard(log, n, a);
    }
  }

  lemma AdmittedIsHanded(s: State, now: int, e: Inbound, initial: Profile, log: seq<Note>)
    requires Journaled(s, initial, log) && e.FromClient? && !Full(s, e.address)
    ensures Handing(Admit(s.(stats := s.stats.Received()), now, e.address), NoteOf(s, now, e), initial, log)
  {
    AdmitKeepsOwners(s, now, e.address, Carried(initial, log));
  }

  lemma ClientKeepsJournal(s: State, now: int, e: Inbound, initial: Profile, log: seq<Note>)
    requires Journaled(s, initial, log) && e.FromClient? && !Full(s, e.address)
    ensures Journaled(Receive(s, now, e), initial, log + [NoteOf(s, now, e)])
  {
    var n := NoteOf(s, now, e);
    var s2 := Admit(s.(stats := s.stats.Received()), now, e.address);
    AdmittedIsHanded(s, now, e, initial, log);
    HandKeepsJournal(s2, n, initial, log);
    Snoc(initial, log, n);
    HeardOfClient(s.lastSeen, log, n);
  }

  lemma ServerKeepsJournal(s: State, now: int, e: Inbound, initial: Profile, log: seq<Note>)
    requires Journaled(s, initial, log) && e.FromServer? && e.address in s.clients
    ensures Journaled(Receive(s, now, e), initial, log + [NoteOf(s, now, e)])
  {
    var n := NoteOf(s, now, e);
    var s2 := s.(stats := s.stats.Received());
    assert Handing(s2, n, initial, log);
    HandKeepsJournal(s2, n, initial, log);
    Snoc(initial, log, n);
    HeardOfServer(s.lastSeen, log, n);
  }

  lemma ReceiveKeepsJournal(s: State, now: int, e: Inbound, initial: Profile, log: seq<Note>)
    requires Journaled(s, initial, log) && (e.FromServer? ==> e.address in s.clients)
    ensures Journaled(Receive(s, now, e), initial, log + [NoteOf(s, now, e)])
  {
    if e.FromClient? {
      if Full(s, e.address) {
        RefusedKeepsJournal(s, now, e, initial, log);
      } else {
        ClientKeepsJournal(s, now, e, initial, log);
      }
    } else if e.FromServer? {
      ServerKeepsJournal(s, now, e, initial, log);
    } else {
      QuietKeepsJournal(s, now, e, initial, log);
    }
  }

  lemma {:induction false} ReceiveAllKeepsJournal(s: State, now: int, inbound: seq<Inbound>,
                                                  initial: Profile, log: seq<Note>)
    requires Journaled(s, initial, log) && Ready(s, now, inbound)
    ensures Journaled(ReceiveAll(s, now, inbound), initial, log + Notes(s, now, inbound))
    decreases |inbound|
  {
    if inbound == [] {
      assert log + [] == log;
    } else {
      var n, s' := NoteOf(s, now, inbound[0]), Receive(s, now, inbound[0]);
      ReceiveKeepsJournal(s, now, inbound[0], initial, log);
      ReceiveAllKeepsJournal(s', now, inbound[1..], initial, log + [n]);
      Regroup(log, [n], Notes(s', now, inbound[1..]));
    }
  }

  lemma IterateKeepsJournal(s: State, tick: Tick, initial: Profile, log: seq<Note>)
    requires Inv(s) && Journaled(s, initial, log) && Ready(SendPhase(s, tick.now), tick.now, tick.inbound)
    ensures Journaled(Iterate(s, tick), initial,
                      log + ([Began(tick.now)] + Notes(SendPhase(s, tick.now), tick.now, tick.inbound)))
  {
    var now := tick.now;
    ExpireKeepsJournal(s, now, initial, log);
    DrainKeepsJournal(Expire(s, now), now, initial, log + [Began(now)]);
    ReceiveAllKeepsJournal(SendPhase(s, now), now, tick.inbound, initial, log + [Began(now)]);
    Regroup(log, [Began(now)], Notes(SendPhase(s, now), now, tick.inbound));
  }

  lemma {:induction false} RunKeepsJournal(s: State, ticks: seq<Tick>, initial: Profile, log: seq<Note>)
    requires Inv(s) && Journaled(s, initial, log) && Feasible(s, ticks)
    ensures Journaled(Run(s, ticks), initial, log + Journal(s, ticks))
    decreases |ticks|
  {
    if ticks == [] {
      assert log + [] == log;
    } else {
      var tick, s' := ticks[0], Iterate(s, ticks[0]);
      var first := [Began(tick.now)] + Notes(SendPhase(s, tick.now), tick.now, tick.inbound);
      IterateKeepsInv(s, tick);
      IterateKeepsJournal(s, tick, initial, log);
      RunKeepsJournal(s', ticks[1..], initial, log + first);
      Regroup(log, first, Journal(s', ticks[1..]));
    }
  }

  // ----- Main results

  /** No packet is queued or sent twice. */
  ghost predicate OnceEach(s: State) {
    && (forall i, j :: 0 <= i < j < |s.sent| ==> s.sent[i].packet.serial != s.sent[j].packet.serial)
    && (forall i, j :: 0 <= i < j < |s.pending| ==> s.pending[i].serial != s.pending[j].serial)
    && (forall i, p :: 0 <= i < |s.sent| && p in s.pending ==> s.sent[i].packet.serial != p.serial)
  }

  lemma NothingTwice(s: State)
    requires Inv(s) && AllKnown(s.accepted, s.pending, s.sent)
    ensures OnceEach(s)
  {
    forall i, j | 0 <= i < j < |s.sent|
      ensures s.sent[i].packet.serial != s.sent[j].packet.serial
    {
      assert RightlyFirst(s.sent[i].packet, s.sent[j].packet);
      assert Known(s.accepted, s.sent[i].packet) && Known(s.accepted, s.sent[j].packet);
    }
    forall i, j | 0 <= i < j < |s.pending|
      ensures s.pending[i].serial != s.pending[j].serial
    {
      assert Before(s.pending[i], s.pending[j]) && s.pending[i] in s.pending && s.pending[j] in s.pending;
      assert Known(s.accepted, s.pending[i]) && Known(s.accepted, s.pending[j]);
    }
    forall i, p | 0 <= i < |s.sent| && p in s.pending
      ensures s.sent[i].packet.serial != p.serial
    {
      assert RightlyFirst(s.sent[i].packet, p);
      assert Known(s.accepted, s.sent[i].packet) && Known(s.accepted, p);
    }
  }

  lemma StartIsJournaled(profile: Profile)
    ensures Inv(Start(profile)) && Journaled(Start(profile), profile, [])
  {
  }

  lemma RunIsJournaled(profile: Profile, ticks: seq<Tick>)
    requires Feasible(Start(profile), ticks)
    ensures var s := Run(Start(profile), ticks);
            Inv(s) && Journaled(s, profile, Journal(Start(profile), ticks))
  {
    var start := Start(profile);
    StartIsJournaled(profile);
    RunKeepsInv(start, ticks);
    RunKeepsJournal(start, ticks, profile, []);
    assert [] + Journal(start, ticks) == Journal(start, ticks);
  }

  lemma KnownOnes(s: State)
    requires AllKnown(s.accepted, s.pending, s.sent)
    ensures forall p :: p in s.pending ==> Known(s.accepted, p)
    ensures forall i :: 0 <= i < |s.sent| ==> Known(s.accepted, s.sent[i].packet)
  {
  }

  /** Over every run: the packets accepted are, in order of arrival, exactly the datagrams that
      were admitted, kept by the schedule and met with room, with their bytes and for their
      clients; whatever is queued or was sent is one of them, and only once; and one that is
      neither belonged to a client that had then been silent for 30 seconds.  The counters
      count what they are named for. */
  lemma EveryDatagramIsAccounted(profile: Profile, ticks: seq<Tick>)
    requires Feasible(Start(profile), ticks)
    ensures var s, log := Run(Start(profile), ticks), Journal(Start(profile), ticks);
            var carried := Carried(profile, log);
            && |s.accepted| == |carried|
            && (forall k :: 0 <= k < |carried| ==>
                  s.accepted[k].serial == k + 1 && IsCarriage(s.accepted[k], carried[k]))
            && (forall p :: p in s.pending ==> Known(s.accepted, p))
            && (forall i :: 0 <= i < |s.sent| ==> Known(s.accepted, s.sent[i].packet))
            && OnceEach(s)
            && (forall k :: 0 <= k < |carried| ==>
                  s.accepted[k] in s.pending || Departed(s.sent, s.accepted[k]) || Abandoned(profile, log, k))
            && CountersOk(s, profile, log)
  {
    RunIsJournaled(profile, ticks);
    KnownOnes(Run(Start(profile), ticks));
    NothingTwice(Run(Start(profile), ticks));
  }

  // ----- The client table

  /** An iteration began at which the client had been silent for 30 seconds, and it has not been
      heard of since. */
  ghost predicate Silenced(log: seq<Note>, a: Address) {
    exists m :: 0 <= m < |log| && log[m].Began? && Idle(log[..m], a, log[m].now) && QuietSince(log, m, a)
  }

  ghost predicate QuietSince(log: seq<Note>, m: nat, a: Address) {
    forall i :: m <= i < |log| ==> !(log[i].Admitted(ToServer) && log[i].address == a)
  }

  /** The table holds the clients heard of that have not gone silent since. */
  ghost predicate Enrolled(lastSeen: map<Address, int>, log: seq<Note>) {
    HeardOk(lastSeen, log) && forall a :: LastHeard(log, a).Some? ==> a in lastSeen || Silenced(log, a)
  }

  lemma StillSilent(log: seq<Note>, n: Note, a: Address)
    requires Silenced(log, a) && !(n.Admitted(ToServer) && n.address == a)
    ensures Silenced(log + [n], a)
  {
    var m :| 0 <= m < |log| && log[m].Began? && Idle(log[..m], a, log[m].now) && QuietSince(log, m, a);
    var log' := log + [n];
    assert log'[..m] == log[..m] && log'[m] == log[m];
    assert QuietSince(log', m, a);
  }

  lemma ExpireEnrolls(s: State, now: int, log: seq<Note>)
    requires Enrolled(s.lastSeen, log)
    ensures Enrolled(Expire(s, now).lastSeen, log + [Began(now)])
  {
    var log', s' := log + [Began(now)], Expire(s, now);
    forall a
      ensures LastHeard(log', a) == LastHeard(log, a)
      ensures LastHeard(log', a).Some? ==> a in s'.lastSeen || Silenced(log', a)
    {
      SnocHeard(log, Began(now), a);
      if a in s.lastSeen && a !in s'.lastSeen {
        assert log'[..|log|] == log && log'[|log|] == Began(now);
        assert Idle(log, a, now) && QuietSince(log', |log|, a);
      } else if Silenced(log, a) {
        StillSilent(log, Began(now), a);
      }
    }
  }

  lemma NoteEnrolls(lastSeen: map<Address, int>, log: seq<Note>, n: Note)
    requires Enrolled(lastSeen, log)
    ensures Enrolled(if n.Admitted(ToServer) then lastSeen[n.address := n.tick] else lastSeen, log + [n])
  {
    if n.Admitted(ToServer) {
      HeardOfClient(lastSeen, log, n);
    } else {
      HeardOfServer(lastSeen, log, n);
    }
    forall a | LastHeard(log + [n], a).Some? && !(n.Admitted(ToServer) && n.address == a)
      ensures a in lastSeen || Silenced(log + [n], a)
    {
      SnocHeard(log, n, a);
      if a !in lastSeen {
        StillSilent(log, n, a);
      }
    }
  }

  lemma ReceiveNotes(s: State, now: int, e: Inbound)
    requires e.FromServer? ==> e.address in s.clients
    ensures var n := NoteOf(s, now, e);
            Receive(s, now, e).lastSeen == if n.Admitted(ToServer) then s.lastSeen[n.address := n.tick] else s.lastSeen
  {
  }

  lemma {:induction false} ReceiveAllEnrolls(s: State, now: int, inbound: seq<Inbound>, log: seq<Note>)
    requires Enrolled(s.lastSeen, log) && Ready(s, now, inbound)
    ensures Enrolled(ReceiveAll(s, now, inbound).lastSeen, log + Notes(s, now, inbound))
    decreases |inbound|
  {
    if inbound == [] {
      assert log + [] == log;
    } else {
      var n, s' := NoteOf(s, now, inbound[0]), Receive(s, now, inbound[0]);
      ReceiveNotes(s, now, inbound[0]);
      NoteEnrolls(s.lastSeen, log, n);
      ReceiveAllEnrolls(s', now, inbound[1..], log + [n]);
      Regroup(log, [n], Notes(s', now, inbound[1..]));
    }
  }

  lemma {:induction false} DrainKeepsRoll(s: State, now: int)
    ensures Drain(s, now).lastSeen == s.lastSeen
    decreases |s.pending|
  {
    if s.pending != [] && s.pending[0].due <= now {
      DrainKeepsRoll(Pop(s, now), now);
    }
  }

  lemma {:induction false} RunEnrolls(s: State, ticks: seq<Tick>, log: seq<Note>)
    requires Enrolled(s.lastSeen, log) && Feasible(s, ticks)
    ensures Enrolled(Run(s, ticks).lastSeen, log + Journal(s, ticks))
    decreases |ticks|
  {
    if ticks == [] {
      assert log + [] == log;
    } else {
      var now, s' := ticks[0].now, Iterate(s, ticks[0]);
      var notes := Notes(SendPhase(s, now), now, ticks[0].inbound);
      ExpireEnrolls(s, now, log);
      DrainKeepsRoll(Expire(s, now), now);
      ReceiveAllEnrolls(SendPhase(s, now), now, ticks[0].inbound, log + [Began(now)]);
      Regroup(log, [Began(now)], notes);
      RunEnrolls(s', ticks[1..], log + ([Began(now)] + notes));
      Regroup(log, [Began(now)] + notes, Journal(s', ticks[1..]));
    }
  }

  /** Over every run: a client in the table has been heard of, and one that was heard of is in
      the table unless it has since been silent for 30 seconds when an iteration began. */
  lemma ClientsStay(profile: Profile, ticks: seq<Tick>, a: Address)
    requires Feasible(Start(profile), ticks)
    ensures var s, log := Run(Start(profile), ticks), Journal(Start(profile), ticks);
            && (a in s.clients ==> a in s.lastSeen && LastHeard(log, a) == Some(s.lastSeen[a]))
            && (LastHeard(log, a).Some? && !Silenced(log, a) ==> a in s.clients)
  {
    var start := Start(profile);
    assert Enrolled(start.lastSeen, []);
    RunKeepsInv(start, ticks);
    RunEnrolls(start, ticks, []);
    assert [] + Journal(start, ticks) == Journal(start, ticks);
  }

  /** And once an iteration has begun, no client of the table has been silent for 30 seconds. */
  lemma SilentClientsGo(s: State, now: int, a: Address)
    requires Inv(s) && a in SendPhase(s, now).clients
    ensures a in SendPhase(s, now).lastSeen && now - SendPhase(s, now).lastSeen[a] < CLIENT_IDLE
  {
    ExpireKeepsInv(s, now);
    DrainKeepsInv(Expire(s, now), now);
    DrainKeepsRoll(Expire(s, now), now);
  }
}
