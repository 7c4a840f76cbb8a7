/**
 Exactly when two server configurations are rendered to the same lines: what rendering keeps
 of a text is its skeleton, the lines it leaves alone and the keys whose values it sets.
 */
module ConfigSkeleton {
  import opened Bytes
  import opened Text
  import opened ServerConfig
  import opened ConfigRoundTrip

  datatype Part = Kept(line: string) | Set(key: string)

  predicate Overrides(key: string, p: Pack) {
    Override(key, p.names, p.manifest).Some?
  }

  function PartOf(raw: string, p: Pack): Part {
    var key := KeyOf(raw);
    if key.Some? && Overrides(key.value, p) then Set(key.value) else Kept(RStrip(raw))
  }

  /** The lines of the source and then the catalog keys it does not assign. */
  function Skeleton(lines: seq<string>, p: Pack): (r: seq<Part>)
    ensures |r| == |lines| + |Missing(p.order, p.names, RawKeys(lines))|
    ensures forall i :: 0 <= i < |lines| ==> r[i] == PartOf(lines[i], p)
    ensures forall i :: |lines| <= i < |r| ==> r[i] == Set(Missing(p.order, p.names, RawKeys(lines))[i - |lines|].key)
  {
    var missing := Missing(p.order, p.names, RawKeys(lines));
    seq(|lines|, i requires 0 <= i < |lines| => PartOf(lines[i], p))
    + seq(|missing|, i requires 0 <= i < |missing| => Set(missing[i].key))
  }

  /** The keys of a pack are names, and none of them is the manifest's. */
  ghost predicate KeysFit(p: Pack) {
    && MANIFEST_KEY !in p.names
    && forall k :: k in p.names ==> k in p.order && KeyShape(k)
  }

  ghost predicate PartOk(part: Part, p: Pack) {
    match part
    case Set(key) => Overrides(key, p) && KeyShape(key)
    case Kept(line) => KeyOf(line).Some? ==> !Overrides(KeyOf(line).value, p)
  }

  function Fill(part: Part, p: Pack): string
    requires part.Set? ==> Overrides(part.key, p)
  {
    match part
    case Set(key) => Line(key, Override(key, p.names, p.manifest).value)
    case Kept(line) => line
  }

  // ----- Keys of lines

  lemma FixedKeys()
    ensures KeyShape(MANIFEST_KEY) && KeyShape(PASSWORD_KEY) && KeyShape(IDENTITY_KEY)
  {
    assert forall i :: 0 <= i < |MANIFEST_KEY| ==> !IsBreak(MANIFEST_KEY[i]) && MANIFEST_KEY[i] != '=';
    assert forall i :: 0 <= i < |PASSWORD_KEY| ==> !IsBreak(PASSWORD_KEY[i]) && PASSWORD_KEY[i] != '=';
    assert forall i :: 0 <= i < |IDENTITY_KEY| ==> !IsBreak(IDENTITY_KEY[i]) && IDENTITY_KEY[i] != '=';
  }

  lemma OverriddenKey(key: string, p: Pack)
    requires KeysFit(p) && Overrides(key, p)
    ensures KeyShape(key)
  {
    FixedKeys();
  }

  lemma KeyOfRStrip(raw: string)
    ensures KeyOf(RStrip(raw)) == KeyOf(raw)
  {
    RStripTwice(raw);
    RStripEquals(raw);
  }

  lemma KeyOfRendered(key: string, value: string)
    requires KeyShape(key)
    ensures KeyOf(Line(key, value)) == Some(key)
  {
    RenderedStripped(key, value);
    var line, head := Line(key, value), key + " ";
    assert line == head + ("= " + value);
    assert line[|head|] == '=' && line[..|head|] == head;
    BeforeUnique(line, |head|);
    TrailingSpace(key);
    assert Strip(line)[0] == key[0];
  }

  lemma ValueOfRendered(key: string, x: string, y: string)
    requires Line(key, x) == Line(key, y)
    ensures x == y
  {
    assert Line(key, x)[|key| + 3..] == x && Line(key, y)[|key| + 3..] == y;
  }

  // ----- Rendering fills the skeleton

  lemma PartIsOk(raw: string, p: Pack)
    requires KeysFit(p)
    ensures PartOk(PartOf(raw, p), p) && Fill(PartOf(raw, p), p) == RenderLine(raw, p.names, p.manifest)
  {
    KeyOfRStrip(raw);
    if PartOf(raw, p).Set? {
      OverriddenKey(KeyOf(raw).value, p);
    }
  }

  lemma {:induction false} MissingAreSet(order: seq<string>, p: Pack, seen: set<string>, i: nat)
    requires KeysFit(p) && i < |Missing(order, p.names, seen)|
    ensures var a := Missing(order, p.names, seen)[i];
            a.key in p.names && a.value == p.names[a.key] && Override(a.key, p.names, p.manifest) == Some(a.value)
  {
    var head := if order[0] in p.names && order[0] !in seen then [Assignment(order[0], p.names[order[0]])] else [];
    if i >= |head| {
      MissingAreSet(order[1..], p, seen, i - |head|);
    }
  }

  lemma SkeletonFills(lines: seq<string>, p: Pack, i: nat)
    requires KeysFit(p) && Render(lines, p).Some? && i < |Skeleton(lines, p)|
    ensures |Render(lines, p).value| == |Skeleton(lines, p)|
    ensures PartOk(Skeleton(lines, p)[i], p) && Render(lines, p).value[i] == Fill(Skeleton(lines, p)[i], p)
  {
    if i < |lines| {
      PartIsOk(lines[i], p);
    } else {
      MissingAreSet(p.order, p, RawKeys(lines), i - |lines|);
      OverriddenKey(Skeleton(lines, p)[i].key, p);
    }
  }

  /** Every catalog key is set somewhere. */
  lemma KeyIsSet(lines: seq<string>, p: Pack, key: string) returns (i: nat)
    requires KeysFit(p) && key in p.names
    ensures i < |Skeleton(lines, p)| && Skeleton(lines, p)[i] == Set(key)
  {
    if key in RawKeys(lines) {
      i :| 0 <= i < |lines| && KeyOf(lines[i]) == Some(key);
    } else {
      var j := MissingHas(p.order, p.names, RawKeys(lines), key);
      i := |lines| + j;
    }
  }

  lemma {:induction false} MissingHas(order: seq<string>, names: map<string, string>, seen: set<string>, key: string)
    returns (i: nat)
    requires key in order && key in names && key !in seen
    ensures i < |Missing(order, names, seen)| && Missing(order, names, seen)[i].key == key
  {
    if order[0] == key {
      i := 0;
    } else {
      assert key in order[1..];
      i := MissingHas(order[1..], names, seen, key);
      if order[0] in names && order[0] !in seen {
        i := i + 1;
      }
    }
  }

  // ----- When two texts are rendered alike

  /** Two packs that set the same keys, with the same manifest. */
  ghost predicate Alike(p: Pack, q: Pack) {
    KeysFit(p) && KeysFit(q) && p.names.Keys == q.names.Keys && p.manifest == q.manifest && p.order == q.order
  }

  lemma FillInjective(a: Part, b: Part, p: Pack, q: Pack)
    requires Alike(p, q) && PartOk(a, p) && PartOk(b, q) && Fill(a, p) == Fill(b, q)
    ensures a == b
    ensures a.Set? && a.key in p.names ==> p.names[a.key] == q.names[a.key]
  {
    if a.Set? {
      KeyOfRendered(a.key, Override(a.key, p.names, p.manifest).value);
    }
    if b.Set? {
      KeyOfRendered(b.key, Override(b.key, q.names, q.manifest).value);
    }
    if a.Set? && b.Set? {
      ValueOfRendered(a.key, Override(a.key, p.names, p.manifest).value, Override(b.key, q.names, q.manifest).value);
    }
  }

  /** Two configurations are rendered to the same lines if and only if their skeletons and the
      output names of their catalogs are the same. */
  lemma RenderExactly(xs: seq<string>, ys: seq<string>, p: Pack, q: Pack)
    requires Alike(p, q) && Render(xs, p).Some? && Render(ys, q).Some?
    ensures Render(xs, p) == Render(ys, q) <==> Skeleton(xs, p) == Skeleton(ys, q) && p.names == q.names
  {
    if Render(xs, p) == Render(ys, q) {
      SameSkeleton(xs, ys, p, q);
      SameNames(xs, ys, p, q);
    }
    if Skeleton(xs, p) == Skeleton(ys, q) && p.names == q.names {
      SameRendering(xs, ys, p, q);
    }
  }

  lemma SkeletonLength(lines: seq<string>, p: Pack)
    requires Render(lines, p).Some?
    ensures |Skeleton(lines, p)| == |Render(lines, p).value|
  {
  }

  lemma SameSkeleton(xs: seq<string>, ys: seq<string>, p: Pack, q: Pack)
    requires Alike(p, q) && Render(xs, p).Some? && Render(xs, p) == Render(ys, q)
    ensures Skeleton(xs, p) == Skeleton(ys, q)
  {
    SkeletonLength(xs, p);
    SkeletonLength(ys, q);
    forall i | 0 <= i < |Skeleton(xs, p)|
      ensures Skeleton(xs, p)[i] == Skeleton(ys, q)[i]
    {
      SkeletonFills(xs, p, i);
      SkeletonFills(ys, q, i);
      FillInjective(Skeleton(xs, p)[i], Skeleton(ys, q)[i], p, q);
    }
  }

  lemma SameNames(xs: seq<string>, ys: seq<string>, p: Pack, q: Pack)
    requires Alike(p, q) && Render(xs, p).Some? && Render(xs, p) == Render(ys, q)
    ensures p.names == q.names
  {
    SameSkeleton(xs, ys, p, q);
    forall k | k in p.names
      ensures p.names[k] == q.names[k]
    {
      var i := KeyIsSet(xs, p, k);
      SkeletonFills(xs, p, i);
      SkeletonFills(ys, q, i);
      FillInjective(Skeleton(xs, p)[i], Skeleton(ys, q)[i], p, q);
    }
  }

  lemma SameRendering(xs: seq<string>, ys: seq<string>, p: Pack, q: Pack)
    requires Alike(p, q) && Render(xs, p).Some? && Render(ys, q).Some?
    requires Skeleton(xs, p) == Skeleton(ys, q) && p.names == q.names
    ensures Render(xs, p) == Render(ys, q)
  {
    SkeletonLength(xs, p);
    SkeletonLength(ys, q);
    forall i | 0 <= i < |Skeleton(xs, p)|
      ensures Render(xs, p).value[i] == Render(ys, q).value[i]
    {
      SkeletonFills(xs, p, i);
      SkeletonFills(ys, q, i);
    }
    assert Render(xs, p).value == Render(ys, q).value;
  }
}
