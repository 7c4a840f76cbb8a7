/** What the knockout checker accepts, said of the segments alone. */
module KnockoutSegments {
  import opened Bytes
  import opened Seqs
  import opened KnockoutTrace

  /** One sighting of an observer. */
  datatype Spot = Spot(segment: nat, index: nat)

  predicate Earlier(p: Spot, q: Spot) {
    p.segment < q.segment || (p.segment == q.segment && p.index < q.index)
  }

  predicate IsRole(role: string) {
    role == ALICE || role == BOB
  }

  function By(s: Segment, role: string): seq<Sighting> {
    if role == ALICE then s.alice else s.bob
  }

  predicate Exists(segments: seq<Segment>, role: string, p: Spot) {
    p.segment < |segments| && p.index < |By(segments[p.segment], role)|
  }

  function At(segments: seq<Segment>, role: string, p: Spot): Sighting
    requires Exists(segments, role, p)
  {
    By(segments[p.segment], role)[p.index]
  }

  /** A sighting of this subject by this observer. */
  predicate IsSpot(segments: seq<Segment>, role: string, subject: int, p: Spot) {
    Exists(segments, role, p) && At(segments, role, p).subject == subject
  }

  function PhaseAt(segments: seq<Segment>, role: string, p: Spot): Phase
    requires Exists(segments, role, p)
  {
    Classify(At(segments, role, p).sample)
  }

  // ----- What is accepted

  predicate LiesDown(s: Sample) {
    s.value.pose.state == 2 && s.value.fatigue < 0
  }

  predicate GetsUp(s: Sample) {
    s.value.pose.state == 2 && s.value.fatigue >= 0
  }

  predicate Stands(s: Sample) {
    s.value.pose.state == 1 && s.value.fatigue >= 0
  }

  lemma PhaseMeans(s: Sample)
    ensures Classify(s) == Down <==> LiesDown(s)
    ensures Classify(s) == GetUp <==> GetsUp(s)
    ensures Classify(s) == Upright <==> Stands(s)
  {
  }

  predicate RecoversAt(segments: seq<Segment>, role: string, subject: int, p: Spot, q: Spot, r: Spot) {
    && Earlier(p, q) && Earlier(q, r)
    && IsSpot(segments, role, subject, p) && LiesDown(At(segments, role, p).sample)
    && IsSpot(segments, role, subject, q) && GetsUp(At(segments, role, q).sample)
    && IsSpot(segments, role, subject, r) && Stands(At(segments, role, r).sample)
  }

  /** The observer sees the subject down, later getting up and later upright. */
  ghost predicate RecoversIn(segments: seq<Segment>, role: string, subject: int) {
    exists p, q, r :: RecoversAt(segments, role, subject, p, q, r)
  }

  ghost predicate NoOther(segments: seq<Segment>, role: string, subject: int) {
    forall p :: IsSpot(segments, role, subject, p) ==>
      var sample := At(segments, role, p).sample; LiesDown(sample) || GetsUp(sample) || Stands(sample)
  }

  ghost predicate Observed(segments: seq<Segment>, subject: int) {
    exists role, p :: IsRole(role) && IsSpot(segments, role, subject, p)
  }

  /** The two players, or in an actor capture the one actor that was observed. */
  ghost predicate Watched(segments: seq<Segment>, npc: bool, subjects: set<int>) {
    if npc then |subjects| == 1 && forall x :: x in subjects <==> Observed(segments, x) else subjects == {1, 2}
  }

  ghost predicate LivingSubjects(segments: seq<Segment>, subjects: set<int>) {
    forall role, p :: IsRole(role) && Exists(segments, role, p) ==>
      !At(segments, role, p).sample.dead && At(segments, role, p).subject in subjects
  }

  predicate SameMoment(a: Sighting, b: Sighting) {
    a.tick == b.tick && a.subject == b.subject
  }

  predicate IsLast(seen: seq<Sighting>, i: int) {
    0 <= i < |seen| && forall j :: i < j < |seen| ==> !SameMoment(seen[j], seen[i])
  }

  predicate IsFirst(seen: seq<Sighting>, i: int) {
    0 <= i < |seen| && forall j :: 0 <= j < i ==> !SameMoment(seen[j], seen[i])
  }

  /** At every tick and subject both saw, the first observer's last value is the second's first. */
  ghost predicate TicksAgree(alice: seq<Sighting>, bob: seq<Sighting>) {
    forall i, j :: IsLast(alice, i) && IsFirst(bob, j) && SameMoment(alice[i], bob[j]) ==>
      alice[i].sample.value == bob[j].sample.value
  }

  ghost predicate Accepted(segments: seq<Segment>, npc: bool) {
    exists subjects ::
      && Watched(segments, npc, subjects) && LivingSubjects(segments, subjects)
      && (forall g :: 0 <= g < |segments| ==> TicksAgree(segments[g].alice, segments[g].bob))
      && forall role, subject :: IsRole(role) && subject in subjects ==>
           RecoversIn(segments, role, subject) && NoOther(segments, role, subject)
  }

  // ----- Committed ticks

  lemma {:induction false} LastIs(seen: seq<Sighting>, key: (int, int), i: int)
    requires IsLast(seen, i) && seen[i].Key() == key
    ensures Last(seen, key) == Some(seen[i].Value())
  {
    var n := |seen| - 1;
    if i < n {
      assert seen[n].Key() != key;
      assert forall j :: i < j < n ==> seen[..n][j] == seen[j];
      LastIs(seen[..n], key, i);
    }
  }

  lemma {:induction false} LastExists(seen: seq<Sighting>, key: (int, int)) returns (i: int)
    requires Last(seen, key).Some?
    ensures IsLast(seen, i) && seen[i].Key() == key
  {
    var n := |seen| - 1;
    if seen[n].Key() == key {
      i := n;
    } else {
      i := LastExists(seen[..n], key);
      assert forall j :: i < j < n ==> seen[..n][j] == seen[j];
    }
  }

  lemma {:induction false} FirstIs(seen: seq<Sighting>, key: (int, int), i: int)
    requires IsFirst(seen, i) && seen[i].Key() == key
    ensures First(seen, key) == Some(seen[i].Value())
  {
    if i > 0 {
      assert seen[0].Key() != key;
      assert forall j :: 0 <= j < i - 1 ==> seen[1..][j] == seen[j + 1];
      FirstIs(seen[1..], key, i - 1);
    }
  }

  lemma {:induction false} FirstExists(seen: seq<Sighting>, key: (int, int)) returns (i: int)
    requires First(seen, key).Some?
    ensures IsFirst(seen, i) && seen[i].Key() == key
  {
    if seen[0].Key() == key {
      i := 0;
    } else {
      var j := FirstExists(seen[1..], key);
      i := j + 1;
      assert forall l :: 1 <= l < i ==> seen[l] == seen[1..][l - 1];
    }
  }

  lemma CheckMeansTicks(alice: seq<Sighting>, bob: seq<Sighting>)
    ensures CheckPasses(alice, bob) <==> TicksAgree(alice, bob)
  {
    if CheckPasses(alice, bob) {
      forall i, j | IsLast(alice, i) && IsFirst(bob, j) && alice[i].Key() == bob[j].Key()
        ensures alice[i].Value() == bob[j].Value()
      {
        LastIs(alice, alice[i].Key(), i);
        FirstIs(bob, alice[i].Key(), j);
      }
    }
    if TicksAgree(alice, bob) {
      forall key | Last(alice, key).Some? && First(bob, key).Some?
        ensures Last(alice, key) == First(bob, key)
      {
        var i := LastExists(alice, key);
        var j := FirstExists(bob, key);
        LastIs(alice, key, i);
        FirstIs(bob, key, j);
      }
    }
  }

  // ----- Streams

  /** Exactly the sightings of the subject by the observer, in order, with their phases. */
  ghost predicate ShowsAt(segments: seq<Segment>, role: string, subject: int, phases: seq<Phase>, at: seq<Spot>) {
    && |phases| == |at|
    && (forall j :: 0 <= j < |at| ==> IsSpot(segments, role, subject, at[j])
                                      && phases[j] == PhaseAt(segments, role, at[j]))
    && (forall i, j :: 0 <= i < j < |at| ==> Earlier(at[i], at[j]))
    && (forall p :: IsSpot(segments, role, subject, p) ==> p in at)
  }

  lemma {:induction false} StreamConcat(xs: seq<Event>, ys: seq<Event>, id: Identity)
    ensures Stream(xs + ys, id) == Stream(xs, id) + Stream(ys, id)
  {
    if ys == [] {
      assert xs + ys == xs;
    } else {
      var front, last := ys[..|ys| - 1], ys[|ys| - 1];
      StreamConcat(xs, front, id);
      assert (xs + ys)[..|xs + ys| - 1] == xs + front;
      Regroup(Stream(xs, id), Stream(front, id), if last.identity == id then [Classify(last.sample)] else []);
    }
  }

  function OfSubject(subject: int): Sighting -> bool {
    (s: Sighting) => s.subject == subject
  }

  function PhaseOf(): Sighting -> Phase {
    (s: Sighting) => Classify(s.sample)
  }

  lemma EventsSnoc(role: string, seen: seq<Sighting>, s: Sighting, id: Identity)
    ensures var before := Stream(EventsBy(role, seen), id);
            Stream(EventsBy(role, seen + [s]), id) ==
            if Identity(role, s.subject) == id then before + [Classify(s.sample)] else before
  {
    var e := Event(Identity(role, s.subject), s.sample);
    assert EventsBy(role, seen + [s]) == EventsBy(role, seen) + [e];
    StreamSnoc(EventsBy(role, seen), e, id);
  }

  lemma RoleShowsOneMore(role: string, seen: seq<Sighting>, s: Sighting, subject: int)
    requires Picked(seen, OfSubject(subject), PhaseOf(), Stream(EventsBy(role, seen), Identity(role, subject)))
    ensures Picked(seen + [s], OfSubject(subject), PhaseOf(),
                   Stream(EventsBy(role, seen + [s]), Identity(role, subject)))
  {
    PickedSnoc(seen, s, OfSubject(subject), PhaseOf(), Stream(EventsBy(role, seen), Identity(role, subject)));
    EventsSnoc(role, seen, s, Identity(role, subject));
  }

  lemma {:induction false} RoleShows(role: string, seen: seq<Sighting>, subject: int)
    ensures Picked(seen, OfSubject(subject), PhaseOf(), Stream(EventsBy(role, seen), Identity(role, subject)))
  {
    if seen == [] {
      PickedNone(OfSubject(subject), PhaseOf());
    } else {
      var front, last := seen[..|seen| - 1], seen[|seen| - 1];
      assert seen == front + [last];
      RoleShows(role, front, subject);
      RoleShowsOneMore(role, front, last, subject);
    }
  }

  lemma {:induction false} OtherRoleShowsNothing(role: string, seen: seq<Sighting>, id: Identity)
    requires id.role != role
    ensures Stream(EventsBy(role, seen), id) == []
  {
    if seen != [] {
      var front, last := seen[..|seen| - 1], seen[|seen| - 1];
      assert seen == front + [last];
      OtherRoleShowsNothing(role, front, id);
      EventsSnoc(role, front, last, id);
    }
  }

  lemma SegmentShows(s: Segment, role: string, subject: int)
    requires IsRole(role)
    ensures Picked(By(s, role), OfSubject(subject), PhaseOf(),
                   Stream(EventsBy(ALICE, s.alice) + EventsBy(BOB, s.bob), Identity(role, subject)))
  {
    var id := Identity(role, subject);
    StreamConcat(EventsBy(ALICE, s.alice), EventsBy(BOB, s.bob), id);
    RoleShows(role, By(s, role), subject);
    if role == ALICE {
      OtherRoleShowsNothing(BOB, s.bob, id);
    } else {
      OtherRoleShowsNothing(ALICE, s.alice, id);
    }
    var mine := Stream(EventsBy(role, By(s, role)), id);
    assert mine + [] == mine && [] + mine == mine;
  }

  function InSegment(g: nat, at: seq<nat>): (r: seq<Spot>)
    ensures |r| == |at| && forall j :: 0 <= j < |at| ==> r[j] == Spot(g, at[j])
  {
    seq(|at|, j requires 0 <= j < |at| => Spot(g, at[j]))
  }

  lemma ShowsSnoc(segments: seq<Segment>, s: Segment, role: string, subject: int,
                  phases: seq<Phase>, at: seq<Spot>, more: seq<Phase>, inLast: seq<nat>)
    requires ShowsAt(segments, role, subject, phases, at)
    requires PickedAt(By(s, role), OfSubject(subject), PhaseOf(), more, inLast)
    ensures ShowsAt(segments + [s], role, subject, phases + more, at + InSegment(|segments|, inLast))
  {
    var all, new_ := segments + [s], InSegment(|segments|, inLast);
    assert all[|segments|] == s;
    forall j | 0 <= j < |at + new_|
      ensures IsSpot(all, role, subject, (at + new_)[j])
      ensures (phases + more)[j] == PhaseAt(all, role, (at + new_)[j])
    {
      if j < |at| {
        assert all[at[j].segment] == segments[at[j].segment];
      } else {
        assert OfSubject(subject)(By(s, role)[inLast[j - |at|]]);
      }
    }
    forall p | IsSpot(all, role, subject, p)
      ensures p in at + new_
    {
      if p.segment < |segments| {
        assert IsSpot(segments, role, subject, p);
      } else {
        assert OfSubject(subject)(By(s, role)[p.index]);
        var j :| 0 <= j < |inLast| && inLast[j] == p.index;
        assert new_[j] == p;
      }
    }
  }

  lemma {:induction false} StreamOneMore(segments: seq<Segment>, s: Segment, role: string, subject: int,
                                         at: seq<Spot>)
    returns (at': seq<Spot>)
    requires IsRole(role)
    requires ShowsAt(segments, role, subject, Stream(EventsOf(segments), Identity(role, subject)), at)
    ensures ShowsAt(segments + [s], role, subject, Stream(EventsOf(segments + [s]), Identity(role, subject)), at')
  {
    var id, events := Identity(role, subject), EventsBy(ALICE, s.alice) + EventsBy(BOB, s.bob);
    SegmentShows(s, role, subject);
    var inLast: seq<nat> :| PickedAt(By(s, role), OfSubject(subject), PhaseOf(), Stream(events, id), inLast);
    ShowsSnoc(segments, s, role, subject, Stream(EventsOf(segments), id), at, Stream(events, id), inLast);
    StreamConcat(EventsOf(segments), events, id);
    assert (segments + [s])[..|segments|] == segments;
    at' := at + InSegment(|segments|, inLast);
  }

  /** The stream of an observer and a subject is exactly what the segments say. */
  lemma {:induction false} StreamIsWhatSegmentsSay(segments: seq<Segment>, role: string, subject: int)
    returns (at: seq<Spot>)
    requires IsRole(role)
    ensures ShowsAt(segments, role, subject, Stream(EventsOf(segments), Identity(role, subject)), at)
  {
    if segments == [] {
      at := [];
    } else {
      var front, last := segments[..|segments| - 1], segments[|segments| - 1];
      assert segments == front + [last];
      at := StreamIsWhatSegmentsSay(front, role, subject);
      at := StreamOneMore(front, last, role, subject, at);
    }
  }

  lemma RecoveryOnSegments(segments: seq<Segment>, role: string, subject: int, phases: seq<Phase>, at: seq<Spot>)
    requires ShowsAt(segments, role, subject, phases, at)
    ensures Recovers(phases) <==> RecoversIn(segments, role, subject)
    ensures Other !in phases <==> NoOther(segments, role, subject)
  {
    if Recovers(phases) {
      ShownRecovery(segments, role, subject, phases, at);
    }
    if RecoversIn(segments, role, subject) {
      RecoveryIsShown(segments, role, subject, phases, at);
    }
    OtherIsShown(segments, role, subject, phases, at);
  }

  lemma OtherIsShown(segments: seq<Segment>, role: string, subject: int, phases: seq<Phase>, at: seq<Spot>)
    requires ShowsAt(segments, role, subject, phases, at)
    ensures Other !in phases <==> NoOther(segments, role, subject)
  {
    if Other !in phases {
      forall p | IsSpot(segments, role, subject, p)
        ensures PhaseAt(segments, role, p) != Other
      {
        var j := Shows(segments, role, subject, phases, at, p);
      }
    }
  }

  lemma Shows(segments: seq<Segment>, role: string, subject: int, phases: seq<Phase>, at: seq<Spot>, p: Spot)
    returns (j: nat)
    requires ShowsAt(segments, role, subject, phases, at) && IsSpot(segments, role, subject, p)
    ensures j < |phases| && at[j] == p && phases[j] == PhaseAt(segments, role, p)
  {
    j :| 0 <= j < |at| && at[j] == p;
  }

  lemma InOrder(segments: seq<Segment>, role: string, subject: int, phases: seq<Phase>, at: seq<Spot>, i: nat, j: nat)
    requires ShowsAt(segments, role, subject, phases, at) && i < |at| && j < |at| && Earlier(at[i], at[j])
    ensures i < j
  {
    var p, q := at[i], at[j];
    assert j < i ==> Earlier(q, p);
  }

  lemma ShownRecovery(segments: seq<Segment>, role: string, subject: int, phases: seq<Phase>, at: seq<Spot>)
    requires ShowsAt(segments, role, subject, phases, at) && Recovers(phases)
    ensures RecoversIn(segments, role, subject)
  {
    var i, j, k :| 0 <= i < j < k < |phases| && phases[i] == Down && phases[j] == GetUp && phases[k] == Upright;
    assert Earlier(at[i], at[j]) && Earlier(at[j], at[k]);
    PhaseMeans(At(segments, role, at[i]).sample);
    PhaseMeans(At(segments, role, at[j]).sample);
    PhaseMeans(At(segments, role, at[k]).sample);
    assert RecoversAt(segments, role, subject, at[i], at[j], at[k]);
  }

  lemma RecoveryIsShown(segments: seq<Segment>, role: string, subject: int, phases: seq<Phase>, at: seq<Spot>)
    requires ShowsAt(segments, role, subject, phases, at) && RecoversIn(segments, role, subject)
    ensures Recovers(phases)
  {
    var p, q, r :| RecoversAt(segments, role, subject, p, q, r);
    PhaseMeans(At(segments, role, p).sample);
    PhaseMeans(At(segments, role, q).sample);
    PhaseMeans(At(segments, role, r).sample);
    var i := Shows(segments, role, subject, phases, at, p);
    var j := Shows(segments, role, subject, phases, at, q);
    var k := Shows(segments, role, subject, phases, at, r);
    InOrder(segments, role, subject, phases, at, i, j);
    InOrder(segments, role, subject, phases, at, j, k);
  }

  // ----- Subjects

  function EventAt(segments: seq<Segment>, role: string, p: Spot): Event
    requires Exists(segments, role, p)
  {
    Event(Identity(role, At(segments, role, p).subject), At(segments, role, p).sample)
  }

  ghost predicate Shown(segments: seq<Segment>, e: Event) {
    exists role, p :: IsRole(role) && Exists(segments, role, p) && EventAt(segments, role, p) == e
  }

  lemma ShownEarlier(front: seq<Segment>, last: Segment, e: Event)
    requires Shown(front, e)
    ensures Shown(front + [last], e)
  {
    var all := front + [last];
    var role, p :| IsRole(role) && Exists(front, role, p) && EventAt(front, role, p) == e;
    assert all[p.segment] == front[p.segment];
    assert Exists(all, role, p) && EventAt(all, role, p) == e;
  }

  lemma ShownByRole(front: seq<Segment>, last: Segment, role: string, e: Event)
    requires IsRole(role) && e in EventsBy(role, By(last, role))
    ensures Shown(front + [last], e)
  {
    var all, events := front + [last], EventsBy(role, By(last, role));
    assert all[|front|] == last;
    var i :| 0 <= i < |events| && events[i] == e;
    var p := Spot(|front|, i);
    assert Exists(all, role, p) && EventAt(all, role, p) == e;
  }

  lemma ShownInLast(front: seq<Segment>, last: Segment, e: Event)
    requires Shown(front + [last], e)
    ensures Shown(front, e) || e in EventsBy(ALICE, last.alice) || e in EventsBy(BOB, last.bob)
  {
    var all := front + [last];
    var role, p :| IsRole(role) && Exists(all, role, p) && EventAt(all, role, p) == e;
    if p.segment < |front| {
      assert all[p.segment] == front[p.segment];
      assert Exists(front, role, p) && EventAt(front, role, p) == e;
    } else {
      assert all[p.segment] == last && EventsBy(role, By(last, role))[p.index] == e;
    }
  }

  lemma {:induction false} EventsAreSightings(segments: seq<Segment>, e: Event)
    ensures e in EventsOf(segments) <==> Shown(segments, e)
  {
    if segments != [] {
      var front, last := segments[..|segments| - 1], segments[|segments| - 1];
      assert segments == front + [last];
      EventsAreSightings(front, e);
      if Shown(segments, e) {
        ShownInLast(front, last, e);
      }
      if e in EventsOf(front) {
        ShownEarlier(front, last, e);
      } else if e in EventsBy(ALICE, last.alice) {
        ShownByRole(front, last, ALICE, e);
      } else if e in EventsBy(BOB, last.bob) {
        ShownByRole(front, last, BOB, e);
      }
    }
  }

  lemma {:induction false} SubjectsAreObserved(segments: seq<Segment>, x: int)
    ensures x in SubjectsOf(EventsOf(segments)) <==> Observed(segments, x)
  {
    var events := EventsOf(segments);
    if x in SubjectsOf(events) {
      var i :| 0 <= i < |events| && events[i].identity.subject == x;
      EventsAreSightings(segments, events[i]);
      var role, p :| IsRole(role) && Exists(segments, role, p) && EventAt(segments, role, p) == events[i];
      assert IsSpot(segments, role, x, p);
    }
    if Observed(segments, x) {
      var role, p :| IsRole(role) && IsSpot(segments, role, x, p);
      EventsAreSightings(segments, EventAt(segments, role, p));
      var i :| 0 <= i < |events| && events[i] == EventAt(segments, role, p);
    }
  }

  lemma {:induction false} LivingMeansExpected(segments: seq<Segment>, subjects: set<int>)
    ensures AllExpected(EventsOf(segments), Identities(subjects)) <==> LivingSubjects(segments, subjects)
  {
    var events := EventsOf(segments);
    if AllExpected(events, Identities(subjects)) {
      forall role, p | IsRole(role) && Exists(segments, role, p)
        ensures !At(segments, role, p).sample.dead && At(segments, role, p).subject in subjects
      {
        EventsAreSightings(segments, EventAt(segments, role, p));
        var i :| 0 <= i < |events| && events[i] == EventAt(segments, role, p);
        assert Expected(events[i], Identities(subjects));
      }
    }
    if LivingSubjects(segments, subjects) {
      forall i | 0 <= i < |events|
        ensures Expected(events[i], Identities(subjects))
      {
        EventsAreSightings(segments, events[i]);
        var role, p :| IsRole(role) && Exists(segments, role, p) && EventAt(segments, role, p) == events[i];
      }
    }
  }

  ghost predicate AllRecoverIn(segments: seq<Segment>, subjects: set<int>) {
    forall role, subject :: IsRole(role) && subject in subjects ==>
      RecoversIn(segments, role, subject) && NoOther(segments, role, subject)
  }

  lemma {:induction false} RecoveryMeansSegments(segments: seq<Segment>, subjects: set<int>)
    ensures AllRecover(EventsOf(segments), Identities(subjects)) <==> AllRecoverIn(segments, subjects)
  {
    forall role, subject | IsRole(role) && subject in subjects
      ensures Identity(role, subject) in Identities(subjects)
      ensures var stream := Stream(EventsOf(segments), Identity(role, subject));
              Recovers(stream) && Other !in stream <==>
              RecoversIn(segments, role, subject) && NoOther(segments, role, subject)
    {
      var at := StreamIsWhatSegmentsSay(segments, role, subject);
      RecoveryOnSegments(segments, role, subject, Stream(EventsOf(segments), Identity(role, subject)), at);
    }
  }

  lemma {:induction false} SubjectsAreWatched(segments: seq<Segment>, npc: bool, subjects: set<int>)
    ensures Watched(segments, npc, subjects) <==>
            subjects == Subjects(EventsOf(segments), npc) && (npc ==> |SubjectsOf(EventsOf(segments))| == 1)
  {
    var observed := SubjectsOf(EventsOf(segments));
    forall x
      ensures x in observed <==> Observed(segments, x)
    {
      SubjectsAreObserved(segments, x);
    }
    if npc && forall x :: x in subjects <==> Observed(segments, x) {
      assert forall x :: x in subjects <==> x in observed;
      assert subjects == observed;
    }
  }

  /** What the checker accepts, on the segments alone. */
  lemma {:induction false} AcceptsExactly(segments: seq<Segment>, npc: bool)
    ensures Accepts(segments, npc) <==> Accepted(segments, npc)
  {
    forall g | 0 <= g < |segments|
      ensures CheckPasses(segments[g].alice, segments[g].bob) <==> TicksAgree(segments[g].alice, segments[g].bob)
    {
      CheckMeansTicks(segments[g].alice, segments[g].bob);
    }
    var subjects := Subjects(EventsOf(segments), npc);
    forall other
      ensures Watched(segments, npc, other) <==>
              other == subjects && (npc ==> |SubjectsOf(EventsOf(segments))| == 1)
    {
      SubjectsAreWatched(segments, npc, other);
    }
    LivingMeansExpected(segments, subjects);
    RecoveryMeansSegments(segments, subjects);
  }
}
