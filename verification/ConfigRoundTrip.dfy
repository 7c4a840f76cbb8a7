/** Reading back a rendered server configuration. */
module ConfigRoundTrip {
  import opened Bytes
  import opened Seqs
  import opened Text
  import opened ServerConfig

  /** A pack's catalogs by key, its manifest, and the order in which missing catalog keys are
      appended. */
  datatype Pack = Pack(names: map<string, string>, manifest: string, order: seq<string>) {
    ghost predicate Valid() {
      && ValueShape(manifest)
      && (forall k :: k in names ==> k in order && KeyShape(k) && ValueShape(names[k]))
      && (forall i, j :: 0 <= i < j < |order| ==> order[i] != order[j])
      && MANIFEST_KEY !in names
    }
  }

  function NewValue(a: Assignment, p: Pack): Assignment {
    var v := Override(a.key, p.names, p.manifest);
    if v.Some? then a.(value := v.value) else a
  }

  function Update(assignments: seq<Assignment>, p: Pack): (r: seq<Assignment>)
    ensures |r| == |assignments| && forall i :: 0 <= i < |r| ==> r[i] == NewValue(assignments[i], p)
  {
    seq(|assignments|, i requires 0 <= i < |assignments| => NewValue(assignments[i], p))
  }

  function Keys(assignments: seq<Assignment>): set<string> {
    set i | 0 <= i < |assignments| :: assignments[i].key
  }

  /** The baked catalog keys that the source does not assign. */
  function Missing(order: seq<string>, names: map<string, string>, seen: set<string>): seq<Assignment> {
    if order == [] then []
    else
      (if order[0] in names && order[0] !in seen then [Assignment(order[0], names[order[0]])] else [])
      + Missing(order[1..], names, seen)
  }

  function LinesFor(assignments: seq<Assignment>): (r: seq<string>)
    ensures |r| == |assignments| && forall i :: 0 <= i < |r| ==> r[i] == Line(assignments[i].key, assignments[i].value)
  {
    seq(|assignments|, i requires 0 <= i < |assignments| => Line(assignments[i].key, assignments[i].value))
  }

  /** The keys the renderer has met. */
  function RawKeys(lines: seq<string>): set<string> {
    set i | 0 <= i < |lines| && KeyOf(lines[i]).Some? :: KeyOf(lines[i]).value
  }

  /** `_render_server_config`: None when no line assigns the manifest. */
  function Render(lines: seq<string>, p: Pack): Option<seq<string>> {
    if MANIFEST_KEY !in RawKeys(lines) then None
    else Some(RenderLines(lines, p.names, p.manifest) + LinesFor(Missing(p.order, p.names, RawKeys(lines))))
  }

  /** The loops of `_render_server_config`. */
  method RenderServerConfig(lines: seq<string>, p: Pack) returns (r: Option<seq<string>>)
    requires MANIFEST_KEY !in p.names
    ensures r == Render(lines, p)
  {
    var rewritten, seenManifest, seenCatalogs: set<string> := [], false, {};
    for i := 0 to |lines|
      invariant rewritten == RenderLines(lines[..i], p.names, p.manifest)
      invariant seenManifest == (MANIFEST_KEY in RawKeys(lines[..i]))
      invariant seenCatalogs == set k | k in p.names && k in RawKeys(lines[..i])
    {
      RenderOneMore(lines, i, p);
      var key := KeyOf(lines[i]);
      if key.Some? && key.value == MANIFEST_KEY {
        seenManifest := true;
      } else if key.Some? && key.value in p.names {
        seenCatalogs := seenCatalogs + {key.value};
      }
      rewritten := rewritten + [RenderLine(lines[i], p.names, p.manifest)];
    }
    assert lines[..|lines|] == lines;
    if !seenManifest {
      return None;
    }
    MissingSeen(p.order, p.names, seenCatalogs, RawKeys(lines));
    rewritten := AppendMissing(rewritten, p, seenCatalogs);
    return Some(rewritten);
  }

  /** The loop that appends the catalogs the source does not assign. */
  method AppendMissing(rewritten: seq<string>, p: Pack, seen: set<string>) returns (r: seq<string>)
    ensures r == rewritten + LinesFor(Missing(p.order, p.names, seen))
  {
    r := rewritten;
    var rest := p.order;
    while rest != []
      invariant r + LinesFor(Missing(rest, p.names, seen)) == rewritten + LinesFor(Missing(p.order, p.names, seen))
    {
      var key, before := rest[0], r;
      ghost var later := LinesFor(Missing(rest[1..], p.names, seen));
      if key in p.names && key !in seen {
        r := r + [Line(key, p.names[key])];
        assert LinesFor(Missing(rest, p.names, seen)) == [Line(key, p.names[key])] + later;
        Regroup(before, [Line(key, p.names[key])], later);
      } else {
        assert Missing(rest, p.names, seen) == Missing(rest[1..], p.names, seen);
      }
      rest := rest[1..];
    }
    assert r + [] == r;
  }

  lemma RenderOneMore(lines: seq<string>, i: nat, p: Pack)
    requires i < |lines|
    ensures RenderLines(lines[..i + 1], p.names, p.manifest) ==
            RenderLines(lines[..i], p.names, p.manifest) + [RenderLine(lines[i], p.names, p.manifest)]
    ensures RawKeys(lines[..i + 1]) ==
            RawKeys(lines[..i]) + if KeyOf(lines[i]).Some? then {KeyOf(lines[i]).value} else {}
  {
    assert lines[..i + 1] == lines[..i] + [lines[i]];
    RawKeysSnoc(lines[..i], lines[i]);
  }

  lemma RawKeysSnoc(lines: seq<string>, raw: string)
    ensures RawKeys(lines + [raw]) == RawKeys(lines) + if KeyOf(raw).Some? then {KeyOf(raw).value} else {}
  {
    var all := lines + [raw];
    assert all[|lines|] == raw;
    assert forall i :: 0 <= i < |lines| ==> all[i] == lines[i];
  }

  lemma {:induction false} MissingSeen(order: seq<string>, names: map<string, string>, s: set<string>, t: set<string>)
    requires forall k :: k in names ==> (k in s <==> k in t)
    ensures Missing(order, names, s) == Missing(order, names, t)
  {
    if order != [] {
      MissingSeen(order[1..], names, s, t);
    }
  }

  // ----- Line by line

  lemma FixedPaths()
    ensures ValueShape(PASSWORD_PATH) && ValueShape(IDENTITY_PATH)
  {
    assert forall i :: 0 <= i < |PASSWORD_PATH| ==> !IsBreak(PASSWORD_PATH[i]);
    assert forall i :: 0 <= i < |IDENTITY_PATH| ==> !IsBreak(IDENTITY_PATH[i]);
    TrimmedStays(PASSWORD_PATH);
    TrimmedStays(IDENTITY_PATH);
  }

  lemma OverrideShape(key: string, p: Pack)
    requires p.Valid() && Override(key, p.names, p.manifest).Some?
    ensures ValueShape(Override(key, p.names, p.manifest).value)
  {
    FixedPaths();
  }

  lemma LineHasNoBreaks(key: string, value: string)
    requires NoBreaks(key) && NoBreaks(value)
    ensures NoBreaks(Line(key, value))
  {
    assert !IsBreak(' ') && !IsBreak('=');
  }

  lemma LineShape(key: string, value: string)
    requires KeyShape(key) && ValueShape(value)
    ensures NoBreaks(Line(key, value)) && LineOk(Line(key, value))
    ensures AssignmentsOf(Line(key, value)) == [Assignment(key, value)]
  {
    RenderedLineReads(key, value);
    LineHasNoBreaks(key, value);
  }

  lemma UntouchedLine(raw: string)
    requires NoBreaks(raw)
    ensures NoBreaks(RStrip(raw)) && ParseLine(RStrip(raw)) == ParseLine(raw)
  {
    RStripTwice(raw);
    RStripFacts(raw);
  }

  /** A rendered source line assigns the same key, with the baked value. */
  lemma LineReadsBack(raw: string, p: Pack)
    requires p.Valid() && NoBreaks(raw) && LineOk(raw)
    ensures var line := RenderLine(raw, p.names, p.manifest);
            NoBreaks(line) && LineOk(line) && AssignmentsOf(line) == Update(AssignmentsOf(raw), p)
  {
    UntouchedLine(raw);
    if ParseLine(raw).Assigned? {
      var a := ParseLine(raw).assignment;
      SameKey(raw);
      var v := Override(a.key, p.names, p.manifest);
      if v.Some? {
        ParsedKeyShape(raw);
        OverrideShape(a.key, p);
        LineShape(a.key, v.value);
      }
      assert Update([a], p) == [NewValue(a, p)];
    }
  }

  lemma {:induction false} LinesReadBack(lines: seq<string>, p: Pack)
    requires p.Valid() && AllOf(LineOk, lines) && AllOf(NoBreaks, lines)
    ensures var r := RenderLines(lines, p.names, p.manifest);
            AllOf(NoBreaks, r) && AllOf(LineOk, r)
            && FlatMap(AssignmentsOf, r) == Update(FlatMap(AssignmentsOf, lines), p)
  {
    var r := RenderLines(lines, p.names, p.manifest);
    forall i | 0 <= i < |lines|
      ensures NoBreaks(r[i]) && LineOk(r[i])
    {
      LineReadsBack(lines[i], p);
    }
    if lines != [] {
      LineReadsBack(lines[0], p);
      LinesReadBack(lines[1..], p);
      assert r[1..] == RenderLines(lines[1..], p.names, p.manifest);
      UpdateConcat(AssignmentsOf(lines[0]), FlatMap(AssignmentsOf, lines[1..]), p);
    }
  }

  lemma UpdateConcat(xs: seq<Assignment>, ys: seq<Assignment>, p: Pack)
    ensures Update(xs + ys, p) == Update(xs, p) + Update(ys, p)
  {
  }

  predicate ReadsBack(a: Assignment) {
    KeyShape(a.key) && ValueShape(a.value)
  }

  lemma AppendedReadBack(added: seq<Assignment>)
    requires AllOf(ReadsBack, added)
    ensures AllOf(NoBreaks, LinesFor(added)) && AllOf(LineOk, LinesFor(added))
    ensures FlatMap(AssignmentsOf, LinesFor(added)) == added
  {
    var lines := LinesFor(added);
    forall i | 0 <= i < |added|
      ensures NoBreaks(lines[i]) && LineOk(lines[i]) && AssignmentsOf(lines[i]) == [added[i]]
    {
      var a := added[i];
      assert ReadsBack(added[i]);
      LineShape(a.key, a.value);
    }
    FlatMapSingles(AssignmentsOf, lines, added);
  }

  lemma {:induction false} MissingShape(order: seq<string>, p: Pack, seen: set<string>)
    requires p.Valid()
    ensures AllOf(ReadsBack, Missing(order, p.names, seen))
  {
    if order != [] {
      MissingShape(order[1..], p, seen);
      if order[0] in p.names && order[0] !in seen {
        var head := Assignment(order[0], p.names[order[0]]);
        assert ReadsBack(head);
        AllOfConcat(ReadsBack, [head], Missing(order[1..], p.names, seen));
      } else {
        assert [] + Missing(order[1..], p.names, seen) == Missing(order[1..], p.names, seen);
      }
    }
  }

  lemma {:induction false} SameKeys(lines: seq<string>)
    requires AllOf(LineOk, lines)
    ensures RawKeys(lines) == Keys(FlatMap(AssignmentsOf, lines))
  {
    if lines != [] {
      var front, raw := lines[..|lines| - 1], lines[|lines| - 1];
      assert lines == front + [raw];
      AllOfConcat(LineOk, front, [raw]);
      SameKeys(front);
      RawKeysSnoc(front, raw);
      FlatMapConcat(AssignmentsOf, front, [raw]);
      FlatMapOne(AssignmentsOf, raw);
      KeysConcat(FlatMap(AssignmentsOf, front), AssignmentsOf(raw));
      assert LineOk(lines[|lines| - 1]);
      if ParseLine(raw).Assigned? {
        SameKey(raw);
        assert Keys(AssignmentsOf(raw)) == {AssignmentsOf(raw)[0].key};
      } else {
        assert Keys(AssignmentsOf(raw)) == {};
      }
    }
  }

  lemma KeysConcat(xs: seq<Assignment>, ys: seq<Assignment>)
    ensures Keys(xs + ys) == Keys(xs) + Keys(ys)
  {
    var all := xs + ys;
    assert forall i :: 0 <= i < |xs| ==> all[i] == xs[i];
    assert forall i :: 0 <= i < |ys| ==> all[|xs| + i] == ys[i];
  }

  /** Lines that are printed and split again parse as they did. */
  lemma ReadJoined(xs: seq<string>, ys: seq<string>)
    requires AllOf(NoBreaks, xs) && AllOf(NoBreaks, ys) && AllOf(LineOk, xs) && AllOf(LineOk, ys)
    ensures Assignments(SplitLines(Join(xs + ys))) == Some(FlatMap(AssignmentsOf, xs) + FlatMap(AssignmentsOf, ys))
  {
    AllOfConcat(NoBreaks, xs, ys);
    AllOfConcat(LineOk, xs, ys);
    FlatMapConcat(AssignmentsOf, xs, ys);
    SplitOfJoin(xs + ys);
  }

  lemma MissingReadsBack(p: Pack, seen: set<string>)
    requires p.Valid()
    ensures var lines := LinesFor(Missing(p.order, p.names, seen));
            AllOf(NoBreaks, lines) && AllOf(LineOk, lines)
            && FlatMap(AssignmentsOf, lines) == Missing(p.order, p.names, seen)
  {
    MissingShape(p.order, p, seen);
    AppendedReadBack(Missing(p.order, p.names, seen));
  }

  /** Parsing the rendered text gives the source's assignments in order with the baked
      values in place, followed by the catalog keys the source did not assign. */
  lemma ConfigReadsBack(lines: seq<string>, p: Pack)
    requires p.Valid() && AllOf(NoBreaks, lines) && Assignments(lines).Some?
    requires MANIFEST_KEY in Keys(Assignments(lines).value)
    ensures var source := Assignments(lines).value;
            Render(lines, p).Some?
            && Assignments(SplitLines(Join(Render(lines, p).value)))
               == Some(Update(source, p) + Missing(p.order, p.names, Keys(source)))
  {
    SameKeys(lines);
    LinesReadBack(lines, p);
    MissingReadsBack(p, RawKeys(lines));
    ReadJoined(RenderLines(lines, p.names, p.manifest), LinesFor(Missing(p.order, p.names, RawKeys(lines))));
  }

  // ----- Key by key

  function ValuesOf(assignments: seq<Assignment>, key: string): seq<string> {
    if assignments == [] then []
    else (if assignments[0].key == key then [assignments[0].value] else []) + ValuesOf(assignments[1..], key)
  }

  lemma {:induction false} ValuesConcat(xs: seq<Assignment>, ys: seq<Assignment>, key: string)
    ensures ValuesOf(xs + ys, key) == ValuesOf(xs, key) + ValuesOf(ys, key)
  {
    if xs == [] {
      assert xs + ys == ys;
    } else {
      ValuesConcat(xs[1..], ys, key);
      assert (xs + ys)[1..] == xs[1..] + ys && (xs + ys)[0] == xs[0];
      var head := if xs[0].key == key then [xs[0].value] else [];
      assert head + (ValuesOf(xs[1..], key) + ValuesOf(ys, key)) == (head + ValuesOf(xs[1..], key)) + ValuesOf(ys, key);
    }
  }

  lemma {:induction false} ValuesUpdated(assignments: seq<Assignment>, p: Pack, key: string)
    ensures var before, after := ValuesOf(assignments, key), ValuesOf(Update(assignments, p), key);
            var v := Override(key, p.names, p.manifest);
            |after| == |before| && forall i :: 0 <= i < |after| ==> after[i] == if v.Some? then v.value else before[i]
  {
    if assignments != [] {
      ValuesUpdated(assignments[1..], p, key);
      assert Update(assignments, p)[1..] == Update(assignments[1..], p);
      assert Update(assignments, p)[0] == NewValue(assignments[0], p);
    }
  }

  lemma {:induction false} ValuesMissing(order: seq<string>, names: map<string, string>, seen: set<string>, key: string)
    requires forall i, j :: 0 <= i < j < |order| ==> order[i] != order[j]
    ensures ValuesOf(Missing(order, names, seen), key) ==
            if key in order && key in names && key !in seen then [names[key]] else []
  {
    if order != [] {
      ValuesMissing(order[1..], names, seen, key);
      assert order == [order[0]] + order[1..];
      var rest := Missing(order[1..], names, seen);
      if order[0] in names && order[0] !in seen {
        var head := Assignment(order[0], names[order[0]]);
        assert ([head] + rest)[1..] == rest;
      } else {
        assert [] + rest == rest;
      }
    }
  }

  lemma {:induction false} KeyHasValues(assignments: seq<Assignment>, key: string)
    ensures key in Keys(assignments) <==> ValuesOf(assignments, key) != []
  {
    if assignments != [] {
      KeyHasValues(assignments[1..], key);
      assert assignments == [assignments[0]] + assignments[1..];
      KeysConcat([assignments[0]], assignments[1..]);
      assert Keys([assignments[0]]) == {assignments[0].key};
    }
  }

  /** What the rendered configuration says of each key, when the source assigns it at most
      once: the new manifest; each catalog's output name, exactly once; the two fixed
      paths where the source had those keys; and any other key as it was. */
  lemma EachKeyReadsBack(lines: seq<string>, p: Pack, key: string)
    requires p.Valid() && AllOf(NoBreaks, lines) && Assignments(lines).Some?
    requires MANIFEST_KEY in Keys(Assignments(lines).value)
    requires |ValuesOf(Assignments(lines).value, key)| <= 1
    ensures Render(lines, p).Some?
    ensures var source := Assignments(lines).value;
            var config := Assignments(SplitLines(Join(Render(lines, p).value)));
            config.Some?
            && ValuesOf(config.value, key) ==
               if key == MANIFEST_KEY then [p.manifest]
               else if key in p.names then [p.names[key]]
               else if key == PASSWORD_KEY && key in Keys(source) then [PASSWORD_PATH]
               else if key == IDENTITY_KEY && key in Keys(source) then [IDENTITY_PATH]
               else ValuesOf(source, key)
  {
    ConfigReadsBack(lines, p);
    var source := Assignments(lines).value;
    ValuesConcat(Update(source, p), Missing(p.order, p.names, Keys(source)), key);
    ValuesUpdated(source, p, key);
    ValuesMissing(p.order, p.names, Keys(source), key);
    KeyHasValues(source, key);
  }

  /** The condition on values is exact: a rendered line reads back as written if and only if
      its value is not empty and has no surrounding spaces or quotes. */
  lemma ValueReadsBackExactly(key: string, value: string)
    requires KeyShape(key)
    ensures ParseLine(Line(key, value)) == Assigned(Assignment(key, value)) <==> value != "" && Unquote(value) == value
  {
    RenderedLineReads(key, value);
  }
}
