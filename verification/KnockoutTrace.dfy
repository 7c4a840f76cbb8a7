/**
 The knockout checker: each observer must see every subject go down, get up and stand
 again, in that order, and the two observers must agree where they saw the same tick.
 */
module KnockoutTrace {
  import opened Bytes

  datatype Phase = Down | GetUp | Upright | Other

  /** A knockout pose; `rest` stands for the fields that only equality looks at. */
  datatype Pose = Pose(state: int, rest: string)

  /** What two observers must agree on. */
  datatype Committed = Committed(pose: Pose, fatigue: int)

  datatype Sample = Sample(value: Committed, dead: bool)

  function Classify(s: Sample): Phase {
    var state, fatigue := s.value.pose.state, s.value.fatigue;
    if state == 2 && fatigue < 0 then Down
    else if state == 2 && fatigue >= 0 then GetUp
    else if state == 1 && fatigue >= 0 then Upright
    else Other
  }

  /** The observer and the subject of a sample. */
  datatype Identity = Identity(role: string, subject: int)

  datatype Event = Event(identity: Identity, sample: Sample)

  const WANTED: seq<Phase> := [Down, GetUp, Upright]

  // ----- Recovery

  /** What one observer saw of one subject, over all segments and rows. */
  function Stream(events: seq<Event>, id: Identity): seq<Phase> {
    if events == [] then []
    else
      var last := events[|events| - 1];
      Stream(events[..|events| - 1], id) + if last.identity == id then [Classify(last.sample)] else []
  }

  /** The greedy counter: it advances whenever the next wanted phase is seen. */
  function Greedy(phases: seq<Phase>): (n: nat)
    ensures n <= |WANTED|
  {
    if phases == [] then 0
    else
      var n := Greedy(phases[..|phases| - 1]);
      if n < |WANTED| && phases[|phases| - 1] == WANTED[n] then n + 1 else n
  }

  /** The first n wanted phases occur at increasing positions. */
  ghost predicate Occurs(phases: seq<Phase>, at: seq<nat>) {
    && |at| <= |WANTED|
    && (forall i :: 0 <= i < |at| ==> at[i] < |phases| && phases[at[i]] == WANTED[i])
    && (forall i, j :: 0 <= i < j < |at| ==> at[i] < at[j])
  }

  lemma {:induction false} GreedyFinds(phases: seq<Phase>) returns (at: seq<nat>)
    ensures Occurs(phases, at) && |at| == Greedy(phases)
  {
    if phases == [] {
      at := [];
    } else {
      var front := phases[..|phases| - 1];
      at := GreedyFinds(front);
      assert forall i :: 0 <= i < |at| ==> front[at[i]] == phases[at[i]];
      if Greedy(phases) > Greedy(front) {
        at := at + [|phases| - 1];
      }
    }
  }

  lemma {:induction false} GreedyIsLongest(phases: seq<Phase>, at: seq<nat>)
    requires Occurs(phases, at)
    ensures |at| <= Greedy(phases)
  {
    if at != [] {
      assert at[0] < |phases|;
      var front := phases[..|phases| - 1];
      var last := at[|at| - 1];
      var shorter := at[..|at| - 1];
      if last == |phases| - 1 {
        assert Occurs(front, shorter);
        GreedyIsLongest(front, shorter);
      } else {
        assert forall i :: 0 <= i < |at| ==> at[i] <= last;
        assert Occurs(front, at);
        GreedyIsLongest(front, at);
      }
    }
  }

  ghost predicate Recovers(phases: seq<Phase>) {
    exists i, j, k :: 0 <= i < j < k < |phases| && phases[i] == Down && phases[j] == GetUp && phases[k] == Upright
  }

  lemma OccursMeansRecovers(phases: seq<Phase>, at: seq<nat>)
    requires Occurs(phases, at) && |at| == 3
    ensures Recovers(phases)
  {
    var i, j, k := at[0], at[1], at[2];
    assert phases[i] == WANTED[0] && phases[j] == WANTED[1] && phases[k] == WANTED[2];
  }

  lemma RecoversMeansOccurs(phases: seq<Phase>) returns (at: seq<nat>)
    requires Recovers(phases)
    ensures Occurs(phases, at) && |at| == 3
  {
    var i, j, k :| 0 <= i < j < k < |phases| && phases[i] == Down && phases[j] == GetUp && phases[k] == Upright;
    at := [i, j, k];
  }

  /** Complete: the counter reaches three exactly when down, get-up and upright occur as a
      subsequence, so the occurrences the loop picks do not matter. */
  lemma GreedyDecidesRecovery(phases: seq<Phase>)
    ensures Greedy(phases) == 3 <==> Recovers(phases)
  {
    if Greedy(phases) == 3 {
      var at := GreedyFinds(phases);
      OccursMeansRecovers(phases, at);
    }
    if Recovers(phases) {
      var at := RecoversMeansOccurs(phases);
      GreedyIsLongest(phases, at);
    }
  }

  /** What the checker keeps for one observer and subject: its progress counter and the set
      of phases seen. */
  datatype Track = Track(progress: nat, phases: set<Phase>) {
    function Advance(p: Phase): Track {
      Track(if progress < |WANTED| && p == WANTED[progress] then progress + 1 else progress, phases + {p})
    }

    predicate Accepted() {
      phases == {Down, GetUp, Upright} && progress == 3
    }
  }

  function TrackOf(stream: seq<Phase>): Track {
    if stream == [] then Track(0, {})
    else TrackOf(stream[..|stream| - 1]).Advance(stream[|stream| - 1])
  }

  lemma {:induction false} TrackMeans(stream: seq<Phase>, p: Phase)
    ensures TrackOf(stream).progress == Greedy(stream)
    ensures p in TrackOf(stream).phases <==> p in stream
  {
    if stream != [] {
      TrackMeans(stream[..|stream| - 1], p);
      assert stream == stream[..|stream| - 1] + [stream[|stream| - 1]];
    }
  }

  lemma AcceptedMeans(stream: seq<Phase>)
    ensures TrackOf(stream).Accepted() <==> Recovers(stream) && Other !in stream
  {
    GreedyDecidesRecovery(stream);
    TrackMeans(stream, Down);
    TrackMeans(stream, GetUp);
    TrackMeans(stream, Upright);
    TrackMeans(stream, Other);
    if Recovers(stream) && Other !in stream {
      AllButOther(TrackOf(stream).phases);
    }
  }

  lemma AllButOther(seen: set<Phase>)
    requires Down in seen && GetUp in seen && Upright in seen && Other !in seen
    ensures seen == {Down, GetUp, Upright}
  {
    forall p | p in seen
      ensures p in {Down, GetUp, Upright}
    {
      match p
      case Down =>
      case GetUp =>
      case Upright =>
      case Other =>
    }
  }

  lemma StreamSnoc(events: seq<Event>, e: Event, id: Identity)
    ensures Stream(events + [e], id) ==
            if e.identity == id then Stream(events, id) + [Classify(e.sample)] else Stream(events, id)
  {
    assert (events + [e])[..|events|] == events;
  }

  lemma TrackSnoc(events: seq<Event>, e: Event, id: Identity)
    ensures var before := TrackOf(Stream(events, id));
            TrackOf(Stream(events + [e], id)) ==
            if e.identity == id then before.Advance(Classify(e.sample)) else before
  {
    StreamSnoc(events, e, id);
    var stream := Stream(events, id);
    assert (stream + [Classify(e.sample)])[..|stream|] == stream;
  }

  /** A dead subject raises, and so does an observer or subject without counters. */
  predicate Expected(e: Event, identities: set<Identity>) {
    !e.sample.dead && e.identity in identities
  }

  ghost predicate AllExpected(events: seq<Event>, identities: set<Identity>) {
    forall i :: 0 <= i < |events| ==> Expected(events[i], identities)
  }

  /** The counters after some events. */
  ghost predicate Counted(events: seq<Event>, tracks: map<Identity, Track>) {
    forall id :: id in tracks ==> tracks[id] == TrackOf(Stream(events, id))
  }

  lemma CountOne(events: seq<Event>, e: Event, tracks: map<Identity, Track>)
    requires Counted(events, tracks) && e.identity in tracks
    ensures Counted(events + [e], tracks[e.identity := tracks[e.identity].Advance(Classify(e.sample))])
  {
    var tracks' := tracks[e.identity := tracks[e.identity].Advance(Classify(e.sample))];
    forall id | id in tracks'
      ensures tracks'[id] == TrackOf(Stream(events + [e], id))
    {
      assert id in tracks;
      TrackSnoc(events, e, id);
    }
  }

  /** What the loops have established after some events. */
  ghost predicate CountedUpTo(events: seq<Event>, identities: set<Identity>, tracks: map<Identity, Track>) {
    AllExpected(events, identities) && tracks.Keys == identities && Counted(events, tracks)
  }

  lemma CountStep(events: seq<Event>, i: nat, identities: set<Identity>, tracks: map<Identity, Track>)
    requires i < |events| && CountedUpTo(events[..i], identities, tracks) && Expected(events[i], identities)
    ensures var e := events[i];
            CountedUpTo(events[..i + 1], identities,
                        tracks[e.identity := tracks[e.identity].Advance(Classify(e.sample))])
  {
    assert events[..i + 1] == events[..i] + [events[i]];
    CountOne(events[..i], events[i], tracks);
  }

  /** The loops of `validate_observations` over every sample. */
  method CountAll(events: seq<Event>, identities: set<Identity>) returns (ok: bool, tracks: map<Identity, Track>)
    ensures ok <==> AllExpected(events, identities)
    ensures ok ==> tracks.Keys == identities && Counted(events, tracks)
  {
    tracks := map id | id in identities :: Track(0, {});
    for i := 0 to |events|
      invariant CountedUpTo(events[..i], identities, tracks)
    {
      var e := events[i];
      if !Expected(e, identities) {
        return false, tracks;
      }
      CountStep(events, i, identities, tracks);
      tracks := tracks[e.identity := tracks[e.identity].Advance(Classify(e.sample))];
    }
    assert events[..|events|] == events;
    ok := true;
  }

  /** Each observer's view of each subject recovers and shows no phase outside the three. */
  ghost predicate AllRecover(events: seq<Event>, identities: set<Identity>) {
    forall id :: id in identities ==> Recovers(Stream(events, id)) && Other !in Stream(events, id)
  }

  method ValidateRecovery(events: seq<Event>, identities: set<Identity>) returns (ok: bool)
    ensures ok <==> AllExpected(events, identities) && AllRecover(events, identities)
  {
    var tracks;
    ok, tracks := CountAll(events, identities);
    if ok {
      forall id | id in identities
        ensures tracks[id].Accepted() <==> Recovers(Stream(events, id)) && Other !in Stream(events, id)
      {
        AcceptedMeans(Stream(events, id));
      }
      ok := forall id :: id in identities ==> tracks[id].Accepted();
    }
  }

  // ----- Agreement

  /** What an observer saw of a subject at a tick. */
  datatype Sighting = Sighting(tick: int, subject: int, sample: Sample) {
    function Key(): (int, int) { (tick, subject) }

    function Value(): Committed { sample.value }
  }

  function Last(seen: seq<Sighting>, key: (int, int)): Option<Committed> {
    if seen == [] then None
    else if seen[|seen| - 1].Key() == key then Some(seen[|seen| - 1].Value())
    else Last(seen[..|seen| - 1], key)
  }

  function First(seen: seq<Sighting>, key: (int, int)): Option<Committed> {
    if seen == [] then None
    else if seen[0].Key() == key then Some(seen[0].Value())
    else First(seen[1..], key)
  }

  /** What the check compares: the first observer's last value with the second's first. */
  ghost predicate CheckPasses(alice: seq<Sighting>, bob: seq<Sighting>) {
    forall key :: Last(alice, key).Some? && First(bob, key).Some? ==> Last(alice, key) == First(bob, key)
  }

  /** What is wanted: wherever both saw a tick, all their values agree. */
  ghost predicate Agree(alice: seq<Sighting>, bob: seq<Sighting>) {
    forall a, b :: a in alice && b in bob && a.Key() == b.Key() ==> a.Value() == b.Value()
  }

  /** Neither observer contradicts itself at a tick both of them saw. */
  ghost predicate Steady(alice: seq<Sighting>, bob: seq<Sighting>) {
    && (forall a, a', b :: a in alice && a' in alice && b in bob && a.Key() == a'.Key() == b.Key() ==>
          a.Value() == a'.Value())
    && (forall a, b, b' :: a in alice && b in bob && b' in bob && a.Key() == b.Key() == b'.Key() ==>
          b.Value() == b'.Value())
  }

  ghost predicate Saw(seen: seq<Sighting>, key: (int, int), value: Committed) {
    exists s :: s in seen && s.Key() == key && s.Value() == value
  }

  lemma {:induction false} LastIsSeen(seen: seq<Sighting>, key: (int, int))
    ensures Last(seen, key).Some? ==> Saw(seen, key, Last(seen, key).value)
    ensures Last(seen, key).None? ==> forall s :: s in seen ==> s.Key() != key
  {
    if seen != [] {
      var front, last := seen[..|seen| - 1], seen[|seen| - 1];
      assert seen == front + [last];
      LastIsSeen(front, key);
      assert last in seen && forall s :: s in front ==> s in seen;
    }
  }

  lemma {:induction false} FirstIsSeen(seen: seq<Sighting>, key: (int, int))
    ensures First(seen, key).Some? ==> Saw(seen, key, First(seen, key).value)
    ensures First(seen, key).None? ==> forall s :: s in seen ==> s.Key() != key
  {
    if seen != [] {
      assert seen == [seen[0]] + seen[1..];
      FirstIsSeen(seen[1..], key);
      assert seen[0] in seen && forall s :: s in seen[1..] ==> s in seen;
    }
  }

  /** Agreement is exactly the check together with steadiness of each observer. */
  lemma AgreementExactly(alice: seq<Sighting>, bob: seq<Sighting>)
    ensures Agree(alice, bob) <==> CheckPasses(alice, bob) && Steady(alice, bob)
  {
    if Agree(alice, bob) {
      forall key | Last(alice, key).Some? && First(bob, key).Some?
        ensures Last(alice, key) == First(bob, key)
      {
        LastIsSeen(alice, key);
        FirstIsSeen(bob, key);
      }
    }
    if CheckPasses(alice, bob) && Steady(alice, bob) {
      forall a, b | a in alice && b in bob && a.Key() == b.Key()
        ensures a.Value() == b.Value()
      {
        LastIsSeen(alice, a.Key());
        FirstIsSeen(bob, a.Key());
      }
    }
  }

  /** The check alone is not agreement: a second, different sighting of the same tick by one
      observer is never compared. */
  lemma SecondSightingIsUnchecked(down: Sample, up: Sample)
    requires down.value != up.value
    ensures var alice, bob := [Sighting(1, 1, down)], [Sighting(1, 1, down), Sighting(1, 1, up)];
            CheckPasses(alice, bob) && !Agree(alice, bob)
  {
    var alice, bob := [Sighting(1, 1, down)], [Sighting(1, 1, down), Sighting(1, 1, up)];
    forall key | Last(alice, key).Some?
      ensures key == (1, 1) && Last(alice, key) == Some(down.value)
    {
      assert alice[..0] == [] && Last([], key) == None;
    }
    assert First(bob, (1, 1)) == Some(down.value);
    assert alice[0] in alice && bob[1] in bob;
  }

  /** The committed-tick loop of one segment: every sighting of the first observer, then
      every sighting of the second, against a dictionary of the values recorded so far. */
  method CheckCommitted(alice: seq<Sighting>, bob: seq<Sighting>) returns (ok: bool)
    ensures ok <==> CheckPasses(alice, bob)
  {
    var committed: map<(int, int), Committed> := map[];
    for i := 0 to |alice|
      invariant forall key :: (key in committed <==> Last(alice[..i], key).Some?)
                              && (key in committed ==> Some(committed[key]) == Last(alice[..i], key))
    {
      assert alice[..i + 1][..i] == alice[..i];
      committed := committed[alice[i].Key() := alice[i].Value()];
    }
    assert alice[..|alice|] == alice;
    var rest, seen: set<(int, int)> := bob, {};
    while rest != []
      invariant forall key :: key !in seen ==> First(rest, key) == First(bob, key)
      invariant forall key :: key in seen && Last(alice, key).Some? && First(bob, key).Some? ==>
                  Last(alice, key) == First(bob, key)
    {
      var b := rest[0];
      if b.Key() !in seen && b.Key() in committed && committed[b.Key()] != b.Value() {
        assert First(bob, b.Key()) == Some(b.Value());
        return false;
      }
      seen, rest := seen + {b.Key()}, rest[1..];
    }
    return true;
  }

  // ----- The whole checker

  const ALICE := "Alice"
  const BOB := "Bob"

  /** What the two observers saw in one segment, the first observer's rows first. */
  datatype Segment = Segment(alice: seq<Sighting>, bob: seq<Sighting>)

  function EventsBy(role: string, seen: seq<Sighting>): (r: seq<Event>)
    ensures |r| == |seen|
    ensures forall i :: 0 <= i < |seen| ==> r[i] == Event(Identity(role, seen[i].subject), seen[i].sample)
  {
    seq(|seen|, i requires 0 <= i < |seen| => Event(Identity(role, seen[i].subject), seen[i].sample))
  }

  /** Every sample of every segment, in the order it is looked at. */
  function EventsOf(segments: seq<Segment>): seq<Event> {
    if segments == [] then []
    else
      var last := segments[|segments| - 1];
      EventsOf(segments[..|segments| - 1]) + (EventsBy(ALICE, last.alice) + EventsBy(BOB, last.bob))
  }

  function SubjectsOf(events: seq<Event>): set<int> {
    set i | 0 <= i < |events| :: events[i].identity.subject
  }

  function Identities(subjects: set<int>): set<Identity> {
    set role, subject | role in {ALICE, BOB} && subject in subjects :: Identity(role, subject)
  }

  /** The two players, or the one actor that was observed. */
  function Subjects(events: seq<Event>, npc: bool): set<int> {
    if npc then SubjectsOf(events) else {1, 2}
  }

  /** An actor capture shows one actor, the observers' committed ticks pass the check in every
      segment, every sample is of a living expected subject, and each observer sees each
      subject recover across all segments. */
  ghost predicate Accepts(segments: seq<Segment>, npc: bool) {
    var events := EventsOf(segments);
    var identities := Identities(Subjects(events, npc));
    && (npc ==> |SubjectsOf(events)| == 1)
    && (forall i :: 0 <= i < |segments| ==> CheckPasses(segments[i].alice, segments[i].bob))
    && AllExpected(events, identities) && AllRecover(events, identities)
  }

  /** `validate_observations`. */
  method ValidateObservations(segments: seq<Segment>, npc: bool) returns (ok: bool)
    ensures ok <==> Accepts(segments, npc)
  {
    var events := [];
    var agree := true;
    for i := 0 to |segments|
      invariant events == EventsOf(segments[..i])
      invariant agree <==> forall k :: 0 <= k < i ==> CheckPasses(segments[k].alice, segments[k].bob)
    {
      var passes := CheckCommitted(segments[i].alice, segments[i].bob);
      agree := agree && passes;
      assert segments[..i + 1][..i] == segments[..i];
      events := events + (EventsBy(ALICE, segments[i].alice) + EventsBy(BOB, segments[i].bob));
    }
    assert segments[..|segments|] == segments;
    if npc && |SubjectsOf(events)| != 1 {
      return false;
    }
    ok := ValidateRecovery(events, Identities(Subjects(events, npc)));
    ok := ok && agree;
  }
}
