/**
 The swing checker: two clients observe committed melee swings, each at its own ticks.  For
 every swing both have seen in a segment, the checker merges the two observation streams by
 tick and compares neighbours only.
 */
module SwingTrace {
  import opened Bytes
  import opened Seqs

  datatype Role = Alice | Bob

  /** One observed swing.  `identity` stands for source, target life, direction, strength and
      group; `rest` for the fields that only equality looks at. */
  datatype Pose = Pose(identity: seq<int>, phase: int, completion: int, interruption: int, rest: string)

  datatype Swing = Swing(player: int, command: int, pose: Pose)

  datatype Row = Row(tick: int, swings: seq<Swing>)

  datatype Segment = Segment(alice: seq<Row>, bob: seq<Row>)

  datatype Key = Key(player: int, command: int)

  datatype Observation = Observation(tick: int, role: Role, pose: Pose)

  // ----- What is compared

  predicate ClockRegressed(prior: Pose, next: Pose) {
    next.phase < prior.phase || (next.phase == prior.phase && next.completion < prior.completion)
  }

  /** The four checks on two observations, the first at or before the second. */
  predicate Consistent(prior: Observation, next: Observation) {
    && prior.pose.identity == next.pose.identity
    && (prior.tick == next.tick ==> prior.pose == next.pose)
    && (prior.pose.interruption != 0 ==> next.pose.interruption == prior.pose.interruption)
    && !ClockRegressed(prior.pose, next.pose)
  }

  /** Every two observations of the swing, taken in tick order, are consistent. */
  ghost predicate AllConsistent(obs: seq<Observation>) {
    forall a, b :: a in obs && b in obs && a.tick <= b.tick ==> Consistent(a, b)
  }

  ghost predicate NeighboursConsistent(obs: seq<Observation>) {
    forall i :: 0 <= i < |obs| - 1 ==> Consistent(obs[i], obs[i + 1])
  }

  predicate TickSorted(obs: seq<Observation>) {
    forall i, j :: 0 <= i < j < |obs| ==> obs[i].tick <= obs[j].tick
  }

  // ----- Neighbours suffice

  lemma {:induction false} ConsistentAcross(obs: seq<Observation>, i: nat, j: nat)
    requires TickSorted(obs) && NeighboursConsistent(obs) && i < j < |obs|
    ensures Consistent(obs[i], obs[j])
    decreases j
  {
    assert Consistent(obs[j - 1], obs[j - 1 + 1]);
    if i < j - 1 {
      ConsistentAcross(obs, i, j - 1);
    }
  }

  /** Sound and complete: on any tick-sorted arrangement of the observations, however ties
      fall, the neighbour checks pass exactly when all pairs are consistent. */
  lemma NeighboursDecide(obs: seq<Observation>, merged: seq<Observation>)
    requires TickSorted(merged) && forall o :: o in merged <==> o in obs
    ensures NeighboursConsistent(merged) <==> AllConsistent(obs)
  {
    if NeighboursConsistent(merged) {
      forall a, b | a in obs && b in obs && a.tick <= b.tick
        ensures Consistent(a, b)
      {
        var i :| 0 <= i < |merged| && merged[i] == a;
        var j :| 0 <= j < |merged| && merged[j] == b;
        if i < j {
          ConsistentAcross(merged, i, j);
        } else if j < i {
          ConsistentAcross(merged, j, i);
        }
      }
    }
    if AllConsistent(obs) {
      forall i | 0 <= i < |merged| - 1
        ensures Consistent(merged[i], merged[i + 1])
      {
        assert merged[i] in merged && merged[i + 1] in merged;
      }
    }
  }

  // ----- Merging and checking one swing

  predicate SortsBefore(a: Observation, b: Observation) {
    a.tick < b.tick || (a.tick == b.tick && (a.role.Alice? || b.role.Bob?))
  }

  function InsertSorted(obs: seq<Observation>, o: Observation): (r: seq<Observation>)
    ensures forall x :: x in r <==> x == o || x in obs
  {
    if obs == [] then [o]
    else if SortsBefore(o, obs[0]) then [o] + obs
    else
      assert obs == [obs[0]] + obs[1..];
      [obs[0]] + InsertSorted(obs[1..], o)
  }

  /** `sorted(...)` by tick and then by role. */
  function Merge(obs: seq<Observation>): (r: seq<Observation>)
    ensures forall x :: x in r <==> x in obs
  {
    if obs == [] then []
    else
      assert obs == obs[..|obs| - 1] + [obs[|obs| - 1]];
      InsertSorted(Merge(obs[..|obs| - 1]), obs[|obs| - 1])
  }

  lemma {:induction false} InsertKeepsSorted(obs: seq<Observation>, o: Observation)
    requires TickSorted(obs)
    ensures TickSorted(InsertSorted(obs, o))
  {
    if obs != [] && !SortsBefore(o, obs[0]) {
      InsertKeepsSorted(obs[1..], o);
      var r := InsertSorted(obs[1..], o);
      forall i | 0 <= i < |r|
        ensures obs[0].tick <= r[i].tick
      {
        assert r[i] in r;
      }
    }
  }

  lemma {:induction false} MergeSorts(obs: seq<Observation>)
    ensures TickSorted(Merge(obs))
  {
    if obs != [] {
      MergeSorts(obs[..|obs| - 1]);
      InsertKeepsSorted(Merge(obs[..|obs| - 1]), obs[|obs| - 1]);
    }
  }

  /** The loop over one merged stream, carrying the previous observation. */
  method CheckSwing(obs: seq<Observation>) returns (ok: bool)
    ensures ok <==> AllConsistent(obs)
  {
    var merged := Merge(obs);
    MergeSorts(obs);
    NeighboursDecide(obs, merged);
    var previous: Option<Observation> := None;
    for i := 0 to |merged|
      invariant previous == if i == 0 then None else Some(merged[i - 1])
      invariant forall k :: 0 <= k < i - 1 ==> Consistent(merged[k], merged[k + 1])
    {
      if previous.Some? {
        var prior, pose := previous.value.pose, merged[i].pose;
        if prior.identity != pose.identity
           || (merged[i].tick == previous.value.tick && pose != prior)
           || (prior.interruption != 0 && pose.interruption != prior.interruption)
           || ClockRegressed(prior, pose)
        {
          assert !Consistent(merged[i - 1], merged[i - 1 + 1]);
          return false;
        }
      }
      previous := Some(merged[i]);
    }
    return true;
  }

  // ----- A segment

  datatype Seen = Seen(key: Key, observation: Observation)

  /** Everything a client saw of live swings, in order. */
  function SeenInRow(row: Row, role: Role, n: nat): seq<Seen>
    requires n <= |row.swings|
  {
    if n == 0 then []
    else
      var swing := row.swings[n - 1];
      SeenInRow(row, role, n - 1) +
      if swing.command == 0 then []
      else [Seen(Key(swing.player, swing.command), Observation(row.tick, role, swing.pose))]
  }

  function SeenBy(rows: seq<Row>, role: Role): seq<Seen> {
    if rows == [] then []
    else SeenBy(rows[..|rows| - 1], role) + SeenInRow(rows[|rows| - 1], role, |rows[|rows| - 1].swings|)
  }

  function Of(seen: seq<Seen>, key: Key): seq<Observation> {
    if seen == [] then []
    else
      var last := seen[|seen| - 1];
      Of(seen[..|seen| - 1], key) + if last.key == key then [last.observation] else []
  }

  ghost predicate SeenByBoth(s: Segment, key: Key) {
    Of(SeenBy(s.alice, Alice), key) != [] && Of(SeenBy(s.bob, Bob), key) != []
  }

  /** Phases are collected for players 1 and 2; a live swing of another one raises. */
  predicate ExpectedSwing(swing: Swing) {
    swing.command == 0 || swing.player == 1 || swing.player == 2
  }

  predicate ExpectedRow(row: Row) {
    forall k :: 0 <= k < |row.swings| ==> ExpectedSwing(row.swings[k])
  }

  predicate Expected(rows: seq<Row>) {
    forall i :: 0 <= i < |rows| ==> ExpectedRow(rows[i])
  }

  /** Every swing that both clients saw in the segment is consistent over all pairs of its
      observations. */
  ghost predicate SegmentConsistent(s: Segment) {
    forall key :: SeenByBoth(s, key) ==>
      AllConsistent(Of(SeenBy(s.alice, Alice), key) + Of(SeenBy(s.bob, Bob), key))
  }

  // ----- What the rows say

  predicate Live(swing: Swing, key: Key) {
    swing.command != 0 && swing.player == key.player && swing.command == key.command
  }

  /** A swing of a row. */
  datatype Place = Place(row: nat, swing: nat)

  predicate IsPlace(rows: seq<Row>, key: Key, p: Place) {
    p.row < |rows| && p.swing < |rows[p.row].swings| && Live(rows[p.row].swings[p.swing], key)
  }

  function SightingAt(rows: seq<Row>, role: Role, key: Key, p: Place): Observation
    requires IsPlace(rows, key, p)
  {
    Observation(rows[p.row].tick, role, rows[p.row].swings[p.swing].pose)
  }

  predicate Earlier(p: Place, q: Place) {
    p.row < q.row || (p.row == q.row && p.swing < q.swing)
  }

  /** Exactly the places where the rows hold a live swing of this player and command, in order. */
  ghost predicate Places(rows: seq<Row>, key: Key, at: seq<Place>) {
    && (forall j :: 0 <= j < |at| ==> IsPlace(rows, key, at[j]))
    && (forall i, j :: 0 <= i < j < |at| ==> Earlier(at[i], at[j]))
    && (forall p :: IsPlace(rows, key, p) ==> p in at)
  }

  /** The observations are those at these places, in order. */
  ghost predicate SeenAt(rows: seq<Row>, role: Role, key: Key, obs: seq<Observation>, at: seq<Place>) {
    Places(rows, key, at) && |obs| == |at|
    && forall j :: 0 <= j < |at| ==> obs[j] == SightingAt(rows, role, key, at[j])
  }

  lemma {:induction false} OfConcat(xs: seq<Seen>, ys: seq<Seen>, key: Key)
    ensures Of(xs + ys, key) == Of(xs, key) + Of(ys, key)
  {
    if ys == [] {
      assert xs + ys == xs;
    } else {
      var front, last := ys[..|ys| - 1], ys[|ys| - 1];
      OfConcat(xs, front, key);
      assert (xs + ys)[..|xs + ys| - 1] == xs + front;
      Regroup(Of(xs, key), Of(front, key), if last.key == key then [last.observation] else []);
    }
  }

  lemma OfNone(key: Key)
    ensures Of([], key) == []
  {
  }

  lemma OfOne(s: Seen, key: Key)
    ensures Of([s], key) == if s.key == key then [s.observation] else []
  {
    assert [s][..0] == [];
  }

  function LiveSwing(key: Key): Swing -> bool {
    (swing: Swing) => Live(swing, key)
  }

  function Observed(tick: int, role: Role): Swing -> Observation {
    (swing: Swing) => Observation(tick, role, swing.pose)
  }

  /** In one row. */
  lemma {:induction false} RowShows(row: Row, role: Role, key: Key, n: nat)
    requires n <= |row.swings|
    ensures Picked(row.swings[..n], LiveSwing(key), Observed(row.tick, role), Of(SeenInRow(row, role, n), key))
  {
    if n == 0 {
      PickedNone(LiveSwing(key), Observed(row.tick, role));
    } else {
      var swing, before := row.swings[n - 1], SeenInRow(row, role, n - 1);
      assert row.swings[..n] == row.swings[..n - 1] + [swing];
      RowShows(row, role, key, n - 1);
      PickedSnoc(row.swings[..n - 1], swing, LiveSwing(key), Observed(row.tick, role), Of(before, key));
      SwingShows(row, role, key, n);
    }
  }

  lemma SwingShows(row: Row, role: Role, key: Key, n: nat)
    requires 0 < n <= |row.swings|
    ensures var swing, before := row.swings[n - 1], Of(SeenInRow(row, role, n - 1), key);
            Of(SeenInRow(row, role, n), key) ==
            if Live(swing, key) then before + [Observation(row.tick, role, swing.pose)] else before
  {
    var swing, before := row.swings[n - 1], SeenInRow(row, role, n - 1);
    if swing.command == 0 {
      assert before + [] == before;
    } else {
      var s := Seen(Key(swing.player, swing.command), Observation(row.tick, role, swing.pose));
      OfConcat(before, [s], key);
      OfOne(s, key);
      assert Of(before, key) + [] == Of(before, key);
    }
  }

  lemma RowPlaces(row: Row, role: Role, key: Key) returns (at: seq<nat>)
    ensures var obs := Of(SeenInRow(row, role, |row.swings|), key);
            |at| == |obs|
            && (forall j :: 0 <= j < |at| ==> at[j] < |row.swings| && Live(row.swings[at[j]], key)
                                              && obs[j] == Observation(row.tick, role, row.swings[at[j]].pose))
            && (forall i, j :: 0 <= i < j < |at| ==> at[i] < at[j])
            && (forall i :: 0 <= i < |row.swings| && Live(row.swings[i], key) ==> i in at)
  {
    RowShows(row, role, key, |row.swings|);
    assert row.swings[..|row.swings|] == row.swings;
    var seen := Of(SeenInRow(row, role, |row.swings|), key);
    at :| PickedAt(row.swings, LiveSwing(key), Observed(row.tick, role), seen, at);
    assert forall i :: 0 <= i < |row.swings| && Live(row.swings[i], key) ==> LiveSwing(key)(row.swings[i]);
  }

  function InRow(row: nat, at: seq<nat>): (r: seq<Place>)
    ensures |r| == |at| && forall j :: 0 <= j < |at| ==> r[j] == Place(row, at[j])
  {
    seq(|at|, j requires 0 <= j < |at| => Place(row, at[j]))
  }

  lemma PlacesSnoc(rows: seq<Row>, row: Row, key: Key, at: seq<Place>, inRow: seq<nat>)
    requires Places(rows, key, at)
    requires forall j :: 0 <= j < |inRow| ==> inRow[j] < |row.swings| && Live(row.swings[inRow[j]], key)
    requires forall i, j :: 0 <= i < j < |inRow| ==> inRow[i] < inRow[j]
    requires forall i :: 0 <= i < |row.swings| && Live(row.swings[i], key) ==> i in inRow
    ensures Places(rows + [row], key, at + InRow(|rows|, inRow))
  {
    var all, more := rows + [row], InRow(|rows|, inRow);
    forall j | 0 <= j < |at + more|
      ensures IsPlace(all, key, (at + more)[j])
    {
      if j < |at| {
        assert IsPlace(rows, key, at[j]);
      }
    }
    forall p | IsPlace(all, key, p)
      ensures p in at + more
    {
      if p.row < |rows| {
        assert IsPlace(rows, key, p);
      } else {
        var j :| 0 <= j < |inRow| && inRow[j] == p.swing;
        assert more[j] == p;
      }
    }
  }

  /** What a client is taken to have seen of a swing is exactly what its rows say, row by row, each
      time it occurs. */
  lemma {:induction false} SeenIsWhatRowsSay(rows: seq<Row>, role: Role, key: Key) returns (at: seq<Place>)
    ensures SeenAt(rows, role, key, Of(SeenBy(rows, role), key), at)
  {
    if rows == [] {
      at := [];
    } else {
      var front, row := rows[..|rows| - 1], rows[|rows| - 1];
      var before := SeenIsWhatRowsSay(front, role, key);
      var inRow := RowPlaces(row, role, key);
      PlacesSnoc(front, row, key, before, inRow);
      OfConcat(SeenBy(front, role), SeenInRow(row, role, |row.swings|), key);
      assert front + [row] == rows;
      at := before + InRow(|front|, inRow);
      SightingsSnoc(front, row, role, key, before, inRow,
                    Of(SeenBy(front, role), key), Of(SeenInRow(row, role, |row.swings|), key));
    }
  }

  lemma SightingsSnoc(front: seq<Row>, row: Row, role: Role, key: Key, before: seq<Place>, inRow: seq<nat>,
                      obs: seq<Observation>, more: seq<Observation>)
    requires SeenAt(front, role, key, obs, before) && |inRow| == |more|
    requires Places(front + [row], key, before + InRow(|front|, inRow))
    requires forall j :: 0 <= j < |inRow| ==> inRow[j] < |row.swings|
    requires forall j :: 0 <= j < |inRow| ==> more[j] == Observation(row.tick, role, row.swings[inRow[j]].pose)
    ensures SeenAt(front + [row], role, key, obs + more, before + InRow(|front|, inRow))
  {
    var at, all := before + InRow(|front|, inRow), front + [row];
    assert all[|front|] == row;
    forall j | 0 <= j < |at|
      ensures (obs + more)[j] == SightingAt(all, role, key, at[j])
    {
      if j < |before| {
        assert at[j] == before[j] && IsPlace(front, key, before[j]) && all[before[j].row] == front[before[j].row];
      } else {
        assert at[j] == Place(|front|, inRow[j - |before|]);
      }
    }
  }

  function RowsOf(s: Segment, role: Role): seq<Row> {
    if role.Alice? then s.alice else s.bob
  }

  ghost predicate Sees(rows: seq<Row>, key: Key) {
    exists p :: IsPlace(rows, key, p)
  }

  /** Every two sightings of a swing that both clients saw, by either client, are consistent in
      tick order. */
  ghost predicate SightingsConsistent(s: Segment) {
    forall key, r, p, r', p' ::
      Sees(s.alice, key) && Sees(s.bob, key) && IsPlace(RowsOf(s, r), key, p) && IsPlace(RowsOf(s, r'), key, p')
      && SightingAt(RowsOf(s, r), r, key, p).tick <= SightingAt(RowsOf(s, r'), r', key, p').tick ==>
        Consistent(SightingAt(RowsOf(s, r), r, key, p), SightingAt(RowsOf(s, r'), r', key, p'))
  }

  lemma SeenMeansPlace(rows: seq<Row>, role: Role, key: Key)
    ensures Of(SeenBy(rows, role), key) != [] <==> Sees(rows, key)
    ensures forall p :: IsPlace(rows, key, p) ==> SightingAt(rows, role, key, p) in Of(SeenBy(rows, role), key)
    ensures forall o :: o in Of(SeenBy(rows, role), key) ==>
              exists p :: IsPlace(rows, key, p) && o == SightingAt(rows, role, key, p)
  {
    var obs := Of(SeenBy(rows, role), key);
    var at := SeenIsWhatRowsSay(rows, role, key);
    forall p | IsPlace(rows, key, p)
      ensures SightingAt(rows, role, key, p) in obs
    {
      var j :| 0 <= j < |at| && at[j] == p;
      assert obs[j] == SightingAt(rows, role, key, p);
    }
    forall o | o in obs
      ensures exists p :: IsPlace(rows, key, p) && o == SightingAt(rows, role, key, p)
    {
      var j :| 0 <= j < |obs| && obs[j] == o;
      assert IsPlace(rows, key, at[j]) && o == SightingAt(rows, role, key, at[j]);
    }
    if obs != [] {
      assert IsPlace(rows, key, at[0]);
    }
  }

  lemma BothMeansPlaces(s: Segment, key: Key)
    ensures SeenByBoth(s, key) <==> Sees(s.alice, key) && Sees(s.bob, key)
  {
    SeenMeansPlace(s.alice, Alice, key);
    SeenMeansPlace(s.bob, Bob, key);
  }

  function Together(s: Segment, key: Key): seq<Observation> {
    Of(SeenBy(s.alice, Alice), key) + Of(SeenBy(s.bob, Bob), key)
  }

  lemma SightingIsSeen(s: Segment, key: Key, r: Role, p: Place)
    requires IsPlace(RowsOf(s, r), key, p)
    ensures SightingAt(RowsOf(s, r), r, key, p) in Together(s, key)
  {
    SeenMeansPlace(s.alice, Alice, key);
    SeenMeansPlace(s.bob, Bob, key);
  }

  lemma SeenIsSighting(s: Segment, key: Key, o: Observation) returns (r: Role, p: Place)
    requires o in Together(s, key)
    ensures IsPlace(RowsOf(s, r), key, p) && o == SightingAt(RowsOf(s, r), r, key, p)
  {
    SeenMeansPlace(s.alice, Alice, key);
    SeenMeansPlace(s.bob, Bob, key);
    if o in Of(SeenBy(s.alice, Alice), key) {
      r := Alice;
      p :| IsPlace(s.alice, key, p) && o == SightingAt(s.alice, Alice, key, p);
    } else {
      r := Bob;
      p :| IsPlace(s.bob, key, p) && o == SightingAt(s.bob, Bob, key, p);
    }
  }

  /** A segment is consistent exactly when its rows are. */
  lemma SegmentMeansRows(s: Segment)
    ensures SegmentConsistent(s) <==> SightingsConsistent(s)
  {
    if SegmentConsistent(s) {
      forall key, r, p, r', p' | Sees(s.alice, key) && Sees(s.bob, key)
        && IsPlace(RowsOf(s, r), key, p) && IsPlace(RowsOf(s, r'), key, p')
        && SightingAt(RowsOf(s, r), r, key, p).tick <= SightingAt(RowsOf(s, r'), r', key, p').tick
        ensures Consistent(SightingAt(RowsOf(s, r), r, key, p), SightingAt(RowsOf(s, r'), r', key, p'))
      {
        BothMeansPlaces(s, key);
        assert AllConsistent(Together(s, key));
        SightingIsSeen(s, key, r, p);
        SightingIsSeen(s, key, r', p');
      }
    }
    if SightingsConsistent(s) {
      forall key | SeenByBoth(s, key)
        ensures AllConsistent(Together(s, key))
      {
        BothMeansPlaces(s, key);
        forall a, b | a in Together(s, key) && b in Together(s, key) && a.tick <= b.tick
          ensures Consistent(a, b)
        {
          var r, p := SeenIsSighting(s, key, a);
          var r', p' := SeenIsSighting(s, key, b);
        }
      }
    }
  }

  ghost predicate Grouped(groups: Groups<Key, Observation>, seen: seq<Seen>) {
    (forall key :: Lookup(groups, key) == Of(seen, key)) && forall key :: key in groups ==> groups[key] != []
  }

  lemma GroupOne(groups: Groups<Key, Observation>, seen: seq<Seen>, key: Key, o: Observation)
    requires Grouped(groups, seen)
    ensures Grouped(groups[key := Lookup(groups, key) + [o]], seen + [Seen(key, o)])
  {
    var grown := groups[key := Lookup(groups, key) + [o]];
    forall k
      ensures Lookup(grown, k) == Of(seen + [Seen(key, o)], k)
    {
      assert Lookup(groups, k) == Of(seen, k);
    }
  }

  /** The loop over the swings of one row. */
  method ObserveRow(row: Row, role: Role) returns (ok: bool, seen: seq<Seen>)
    ensures ok <==> ExpectedRow(row)
    ensures ok ==> seen == SeenInRow(row, role, |row.swings|)
  {
    seen := [];
    for k := 0 to |row.swings|
      invariant seen == SeenInRow(row, role, k)
      invariant forall j :: 0 <= j < k ==> ExpectedSwing(row.swings[j])
    {
      var swing := row.swings[k];
      if swing.command != 0 {
        if swing.player != 1 && swing.player != 2 {
          assert !ExpectedSwing(row.swings[k]);
          return false, seen;
        }
        seen := seen + [Seen(Key(swing.player, swing.command), Observation(row.tick, role, swing.pose))];
      }
    }
    ok := true;
  }

  /** The loop over one client's rows. */
  method Observe(rows: seq<Row>, role: Role) returns (ok: bool, seen: seq<Seen>)
    ensures ok <==> Expected(rows)
    ensures ok ==> seen == SeenBy(rows, role)
  {
    seen := [];
    for i := 0 to |rows|
      invariant seen == SeenBy(rows[..i], role) && Expected(rows[..i])
    {
      var inRow;
      ok, inRow := ObserveRow(rows[i], role);
      if !ok {
        return;
      }
      assert rows[..i + 1][..i] == rows[..i];
      seen := seen + inRow;
    }
    assert rows[..|rows|] == rows;
    ok := true;
  }

  /** Filing observations by swing. */
  method Collect(seen: seq<Seen>) returns (groups: Groups<Key, Observation>)
    ensures Grouped(groups, seen)
  {
    groups := map[];
    for i := 0 to |seen|
      invariant Grouped(groups, seen[..i])
    {
      var key, o := seen[i].key, seen[i].observation;
      GroupOne(groups, seen[..i], key, o);
      assert seen[..i + 1] == seen[..i] + [Seen(key, o)];
      groups := groups[key := Lookup(groups, key) + [o]];
    }
    assert seen[..|seen|] == seen;
  }

  /** One segment of `validate_observations`: None when a check raises, otherwise the number
      of swings seen by both clients. */
  method CheckSegment(s: Segment) returns (overlap: Option<nat>)
    ensures overlap.Some? <==> Expected(s.alice) && Expected(s.bob) && SightingsConsistent(s)
    ensures overlap.Some? ==>
              exists shared: set<Key> ::
                |shared| == overlap.value && forall key :: key in shared <==> Sees(s.alice, key) && Sees(s.bob, key)
  {
    SegmentMeansRows(s);
    overlap := CheckSeen(s);
    forall key
      ensures SeenByBoth(s, key) <==> Sees(s.alice, key) && Sees(s.bob, key)
    {
      BothMeansPlaces(s, key);
    }
  }

  method CheckSeen(s: Segment) returns (overlap: Option<nat>)
    ensures overlap.Some? <==> Expected(s.alice) && Expected(s.bob) && SegmentConsistent(s)
    ensures overlap.Some? ==>
              exists shared: set<Key> ::
                |shared| == overlap.value && forall key :: key in shared <==> SeenByBoth(s, key)
  {
    var expected, seenByAlice, seenByBob;
    expected, seenByAlice := Observe(s.alice, Alice);
    if !expected {
      return None;
    }
    expected, seenByBob := Observe(s.bob, Bob);
    if !expected {
      return None;
    }
    var alice := Collect(seenByAlice);
    var bob := Collect(seenByBob);
    var shared := set key | key in alice && key in bob;
    assert forall key :: key in shared <==> SeenByBoth(s, key) by {
      forall key
        ensures key in shared <==> SeenByBoth(s, key)
      {
        assert Lookup(alice, key) == Of(SeenBy(s.alice, Alice), key);
        assert Lookup(bob, key) == Of(SeenBy(s.bob, Bob), key);
      }
    }
    var rest := shared;
    while rest != {}
      invariant rest <= shared
      invariant forall key :: key in shared && key !in rest ==> AllConsistent(alice[key] + bob[key])
      decreases |rest|
    {
      var key :| key in rest;
      var ok := CheckSwing(alice[key] + bob[key]);
      assert alice[key] == Lookup(alice, key) && bob[key] == Lookup(bob, key);
      if !ok {
        return None;
      }
      rest := rest - {key};
    }
    assert forall key :: key in shared ==> alice[key] == Lookup(alice, key) && bob[key] == Lookup(bob, key);
    return Some(|shared|);
  }
}
