/**
 FlatBuffers schema evolution.  A schema is a list of table, enum and union blocks; every
 table field has an explicit id, and a field of union type also takes the slot just below
 its id for an implicit discriminator.  The policy compares two parsed schemas.
 */
module SchemaPolicy {
  import opened Bytes
  import opened Seqs

  datatype Kind = Table | Enum | Union

  /** One declaration after the line has been matched: the normalised text of a field (its
      type and any default) with its id, or the text and value of an enum or union member.
      A line that does not match its pattern is `Unsupported`. */
  datatype Line = Entry(name: string, text: string, id: nat) | Unsupported

  datatype Key = Key(kind: Kind, name: string)

  datatype Block = Block(key: Key, lines: seq<Line>)

  datatype Signature = Signature(text: string, id: nat)

  type Entries = map<string, Signature>
  type Schema = map<Key, Entries>

  function Sign(e: Line): Signature
    requires e.Entry?
  {
    Signature(e.text, e.id)
  }

  /** `normalized.split("=", 1)[0]`: the type, without a default value. */
  function TypeOf(text: string): string {
    if text == "" || text[0] == '=' then "" else [text[0]] + TypeOf(text[1..])
  }

  predicate Supported(lines: seq<Line>) {
    forall i :: 0 <= i < |lines| ==> lines[i].Entry?
  }

  // ----- Slots

  predicate IsUnion(e: Line, unions: set<string>) {
    e.Entry? && TypeOf(e.text) in unions
  }

  /** A field takes the slot of its id and, for a union, the discriminator slot below it. */
  predicate Takes(e: Line, unions: set<string>, k: int) {
    e.Entry? && (e.id == k || (IsUnion(e, unions) && e.id - 1 == k))
  }

  /** How many fields take slot k. */
  function Takers(lines: seq<Line>, unions: set<string>, k: int): nat {
    if lines == [] then 0
    else Takers(lines[..|lines| - 1], unions, k) + if Takes(lines[|lines| - 1], unions, k) then 1 else 0
  }

  /** How many slots the fields take altogether. */
  function SlotCount(lines: seq<Line>, unions: set<string>): nat {
    if lines == [] then 0
    else
      var last := lines[|lines| - 1];
      SlotCount(lines[..|lines| - 1], unions) +
      if last.Unsupported? then 0 else if IsUnion(last, unions) then 2 else 1
  }

  /** The slots of a table are pairwise distinct and fill 0..n-1. */
  ghost predicate TableOk(lines: seq<Line>, unions: set<string>) {
    Supported(lines)
    && forall k: int :: Takers(lines, unions, k) == if 0 <= k < SlotCount(lines, unions) then 1 else 0
  }

  ghost predicate MembersOk(lines: seq<Line>) {
    Supported(lines) && forall i, j :: 0 <= i < j < |lines| ==> lines[i].id != lines[j].id
  }

  /** The dictionary a block becomes: a later declaration of a name replaces an earlier. */
  function EntriesOf(lines: seq<Line>): Entries
    requires Supported(lines)
  {
    if lines == [] then map[]
    else
      var last := lines[|lines| - 1];
      EntriesOf(lines[..|lines| - 1])[last.name := Sign(last)]
  }

  // ----- Facts about slots

  lemma {:induction false} SlotsConcat(xs: seq<Line>, ys: seq<Line>, unions: set<string>, k: int)
    ensures Takers(xs + ys, unions, k) == Takers(xs, unions, k) + Takers(ys, unions, k)
    ensures SlotCount(xs + ys, unions) == SlotCount(xs, unions) + SlotCount(ys, unions)
  {
    if ys == [] {
      assert xs + ys == xs;
    } else {
      SlotsConcat(xs, ys[..|ys| - 1], unions, k);
      assert (xs + ys)[..|xs + ys| - 1] == xs + ys[..|ys| - 1];
    }
  }

  lemma {:induction false} SlotHasLine(lines: seq<Line>, unions: set<string>, k: int) returns (i: nat)
    requires Takers(lines, unions, k) > 0
    ensures i < |lines| && Takes(lines[i], unions, k)
  {
    if Takes(lines[|lines| - 1], unions, k) {
      i := |lines| - 1;
    } else {
      i := SlotHasLine(lines[..|lines| - 1], unions, k);
    }
  }

  lemma {:induction false} LineTakes(lines: seq<Line>, unions: set<string>, i: nat, k: int)
    requires i < |lines| && Takes(lines[i], unions, k)
    ensures Takers(lines, unions, k) > 0
  {
    if i < |lines| - 1 {
      LineTakes(lines[..|lines| - 1], unions, i, k);
    }
  }

  /** Two lines with a common slot make that slot taken twice. */
  lemma SharedSlot(lines: seq<Line>, unions: set<string>, i: nat, j: nat, k: int)
    requires i < j < |lines| && Takes(lines[i], unions, k) && Takes(lines[j], unions, k)
    ensures Takers(lines, unions, k) >= 2
  {
    SlotsConcat(lines[..j], lines[j..], unions, k);
    assert lines[..j] + lines[j..] == lines;
    LineTakes(lines[..j], unions, i, k);
    LineTakes(lines[j..], unions, 0, k);
  }

  /** In an accepted table a slot has one owner. */
  lemma OneOwner(lines: seq<Line>, unions: set<string>, d: Line, e: Line, k: int)
    requires TableOk(lines, unions) && d in lines && e in lines
    requires Takes(d, unions, k) && Takes(e, unions, k)
    ensures d == e
  {
    var i :| 0 <= i < |lines| && lines[i] == d;
    var j :| 0 <= j < |lines| && lines[j] == e;
    if i < j {
      SharedSlot(lines, unions, i, j, k);
    } else if j < i {
      SharedSlot(lines, unions, j, i, k);
    }
  }

  lemma SlotsWithoutOne(ys: seq<Line>, m: nat, unions: set<string>, k: int)
    requires m < |ys|
    ensures Takers(ys, unions, k) == Takers(ys[..m] + ys[m + 1..], unions, k) + Takers([ys[m]], unions, k)
    ensures SlotCount(ys, unions) == SlotCount(ys[..m] + ys[m + 1..], unions) + SlotCount([ys[m]], unions)
  {
    var before, after := ys[..m], ys[m + 1..];
    assert ys == (before + [ys[m]]) + after;
    SlotsConcat(before + [ys[m]], after, unions, k);
    SlotsConcat(before, [ys[m]], unions, k);
    SlotsConcat(before, after, unions, k);
  }

  lemma SlotsWithoutHead(xs: seq<Line>, unions: set<string>, k: int)
    requires xs != []
    ensures Takers(xs, unions, k) == Takers(xs[1..], unions, k) + Takers([xs[0]], unions, k)
    ensures SlotCount(xs, unions) == SlotCount(xs[1..], unions) + SlotCount([xs[0]], unions)
  {
    SlotsWithoutOne(xs, 0, unions, k);
    assert xs[..0] + xs[1..] == xs[1..];
  }

  lemma {:induction false} SameSlots(xs: seq<Line>, ys: seq<Line>, unions: set<string>, k: int)
    requires multiset(xs) == multiset(ys)
    ensures Takers(xs, unions, k) == Takers(ys, unions, k)
    ensures SlotCount(xs, unions) == SlotCount(ys, unions)
    decreases |xs|
  {
    if xs == [] {
      assert |multiset(ys)| == 0;
    } else {
      var m := MatchHead(xs, ys);
      SameSlots(xs[1..], ys[..m] + ys[m + 1..], unions, k);
      SlotsWithoutHead(xs, unions, k);
      SlotsWithoutOne(ys, m, unions, k);
    }
  }

  lemma SameSupport(xs: seq<Line>, ys: seq<Line>)
    requires multiset(xs) == multiset(ys) && Supported(xs)
    ensures Supported(ys)
  {
    forall i | 0 <= i < |ys|
      ensures ys[i].Entry?
    {
      assert ys[i] in multiset(ys);
      assert ys[i] in xs;
    }
  }

  /** The check depends only on which fields there are, not on the order they are declared in. */
  lemma OrderIndependent(xs: seq<Line>, ys: seq<Line>, unions: set<string>)
    requires multiset(xs) == multiset(ys)
    ensures TableOk(xs, unions) <==> TableOk(ys, unions)
  {
    if Supported(xs) {
      SameSupport(xs, ys);
    }
    if Supported(ys) {
      SameSupport(ys, xs);
    }
    forall k: int
      ensures Takers(xs, unions, k) == Takers(ys, unions, k) && SlotCount(xs, unions) == SlotCount(ys, unions)
    {
      SameSlots(xs, ys, unions, k);
    }
  }

  // ----- Acceptance on the declared ids

  /** The type is what stands before the first `=`. */
  lemma {:induction false} TypeIsBeforeEquals(text: string)
    ensures TypeOf(text) <= text && forall i :: 0 <= i < |TypeOf(text)| ==> TypeOf(text)[i] != '='
    ensures |TypeOf(text)| < |text| ==> text[|TypeOf(text)|] == '='
  {
    if text != "" && text[0] != '=' {
      TypeIsBeforeEquals(text[1..]);
    }
  }

  /** A field is a union's if its type is the name of one. */
  predicate OfUnion(e: Line, unions: set<string>) {
    e.Entry? && TypeOf(e.text) in unions
  }

  /** Ids are distinct, a union field has a free id below its own, and no id is left out. */
  ghost predicate IdsFill(lines: seq<Line>, unions: set<string>) {
    && Supported(lines)
    && (forall i :: 0 <= i < |lines| && OfUnion(lines[i], unions) ==> lines[i].id > 0)
    && (forall i, j :: 0 <= i < |lines| && 0 <= j < |lines| && i != j ==> lines[i].id != lines[j].id)
    && (forall i, j :: 0 <= i < |lines| && 0 <= j < |lines| && OfUnion(lines[i], unions) ==>
          lines[i].id - 1 != lines[j].id)
    && (forall i, k: nat :: 0 <= i < |lines| && k < lines[i].id ==> IdTaken(lines, unions, k))
  }

  ghost predicate IdTaken(lines: seq<Line>, unions: set<string>, k: nat)
    requires Supported(lines)
  {
    exists j :: 0 <= j < |lines| && (lines[j].id == k || (OfUnion(lines[j], unions) && lines[j].id - 1 == k))
  }

  lemma TableIdsFill(lines: seq<Line>, unions: set<string>)
    requires TableOk(lines, unions)
    ensures IdsFill(lines, unions)
  {
    forall i | 0 <= i < |lines|
      ensures lines[i].id < SlotCount(lines, unions)
      ensures OfUnion(lines[i], unions) ==> lines[i].id > 0
    {
      LineTakes(lines, unions, i, lines[i].id);
      assert Takers(lines, unions, lines[i].id) == if 0 <= lines[i].id < SlotCount(lines, unions) then 1 else 0;
      if OfUnion(lines[i], unions) {
        LineTakes(lines, unions, i, lines[i].id - 1);
        assert Takers(lines, unions, lines[i].id - 1) ==
               if 0 <= lines[i].id - 1 < SlotCount(lines, unions) then 1 else 0;
      }
    }
    forall i, j, k: int | 0 <= i < j < |lines| && Takes(lines[i], unions, k)
      ensures !Takes(lines[j], unions, k)
    {
      assert Takers(lines, unions, k) == if 0 <= k < SlotCount(lines, unions) then 1 else 0;
      if Takes(lines[j], unions, k) {
        SharedSlot(lines, unions, i, j, k);
      }
    }
    IdsApart(lines, unions);
    forall i, k: nat | 0 <= i < |lines| && k < lines[i].id
      ensures IdTaken(lines, unions, k)
    {
      assert Takers(lines, unions, k) == 1;
      var j := SlotHasLine(lines, unions, k);
    }
  }

  lemma IdsApart(lines: seq<Line>, unions: set<string>)
    requires Supported(lines)
    requires forall i, j, k: int :: 0 <= i < j < |lines| && Takes(lines[i], unions, k) ==> !Takes(lines[j], unions, k)
    ensures forall i, j :: 0 <= i < |lines| && 0 <= j < |lines| && i != j ==> lines[i].id != lines[j].id
    ensures forall i, j :: 0 <= i < |lines| && 0 <= j < |lines| && OfUnion(lines[i], unions) ==>
              lines[i].id - 1 != lines[j].id
  {
    forall i, j | 0 <= i < |lines| && 0 <= j < |lines| && i != j
      ensures lines[i].id != lines[j].id
      ensures OfUnion(lines[i], unions) ==> lines[i].id - 1 != lines[j].id
    {
      assert Takes(lines[i], unions, lines[i].id) && Takes(lines[j], unions, lines[j].id);
      assert OfUnion(lines[i], unions) ==> Takes(lines[i], unions, lines[i].id - 1);
    }
  }

  lemma SubsetIsSmaller(a: set<int>, b: set<int>)
    requires a <= b
    ensures |a| <= |b| && (|a| == |b| ==> a == b)
  {
    var rest := b - a;
    assert b == a + rest && |a + rest| == |a| + |rest|;
    assert |rest| == 0 ==> rest == {};
  }

  lemma BelowMissing(s: set<int>, k: nat)
    requires k !in s && forall x :: x in s ==> x >= 0
    requires forall x, y: nat :: x in s && y < x ==> y in s
    ensures |s| <= k
  {
    forall x | x in s
      ensures x in Range(k)
    {
      assert x > k ==> k in s;
    }
    SubsetIsSmaller(s, Range(k));
  }

  /** A set of ids with no gaps is 0..n-1. */
  lemma GaplessIsRange(s: set<int>)
    requires forall x :: x in s ==> x >= 0
    requires forall x, y: nat :: x in s && y < x ==> y in s
    ensures s == Range(|s|)
  {
    forall k | k in Range(|s|)
      ensures k in s
    {
      if k !in s {
        BelowMissing(s, k);
      }
    }
    SubsetIsSmaller(Range(|s|), s);
  }

  lemma {:induction false} AccountIds(lines: seq<Line>, unions: set<string>, n: nat)
    returns (used: set<int>, implicit: set<int>)
    requires IdsFill(lines, unions) && n <= |lines|
    ensures Accounted(lines[..n], unions, used, implicit)
  {
    if n == 0 {
      used, implicit := {}, {};
    } else {
      used, implicit := AccountIds(lines, unions, n - 1);
      var line := lines[n - 1];
      assert lines[..n] == lines[..n - 1] + [line];
      IdIsFree(lines, unions, n - 1, used, implicit, line.id);
      if IsUnion(line, unions) {
        IdIsFree(lines, unions, n - 1, used, implicit, line.id - 1);
      }
      AccountLine(lines[..n - 1], line, unions, used, implicit);
      used := used + {line.id};
      implicit := implicit + if IsUnion(line, unions) then {line.id - 1} else {};
    }
  }

  lemma IdIsFree(lines: seq<Line>, unions: set<string>, n: nat, used: set<int>, implicit: set<int>, k: int)
    requires IdsFill(lines, unions) && n < |lines| && Accounted(lines[..n], unions, used, implicit)
    requires Takes(lines[n], unions, k)
    ensures k !in used && k !in implicit
  {
    if k in used || k in implicit {
      assert Takers(lines[..n], unions, k) == 1;
      var j := SlotHasLine(lines[..n], unions, k);
    }
  }

  /** Exactly which tables are accepted, on the declared ids: those whose ids are distinct, with
      a free id below each union field's, and without gaps. */
  lemma TableOkExactly(lines: seq<Line>, unions: set<string>)
    ensures TableOk(lines, unions) <==> IdsFill(lines, unions)
  {
    if TableOk(lines, unions) {
      TableIdsFill(lines, unions);
    }
    if IdsFill(lines, unions) {
      var used, implicit := AccountIds(lines, unions, |lines|);
      assert lines[..|lines|] == lines;
      IdsHaveNoGaps(lines, unions, used, implicit);
      GaplessIsRange(used + implicit);
      FillCheck(lines, unions, used, implicit);
    }
  }

  lemma IdsHaveNoGaps(lines: seq<Line>, unions: set<string>, used: set<int>, implicit: set<int>)
    requires IdsFill(lines, unions) && Accounted(lines, unions, used, implicit)
    ensures forall x :: x in used + implicit ==> x >= 0
    ensures forall x, y: nat :: x in used + implicit && y < x ==> y in used + implicit
  {
    forall x | x in used + implicit
      ensures x >= 0 && forall y: nat :: y < x ==> y in used + implicit
    {
      assert Takers(lines, unions, x) == 1;
      var i := SlotHasLine(lines, unions, x);
      forall y: nat | y < x
        ensures y in used + implicit
      {
        assert IdTaken(lines, unions, y);
        var j :| 0 <= j < |lines| && (lines[j].id == y || (OfUnion(lines[j], unions) && lines[j].id - 1 == y));
        LineTakes(lines, unions, j, y);
      }
    }
  }

  // ----- Parsing

  /** The field loop of `parse_schema` over one table. */
  method ParseTable(lines: seq<Line>, unions: set<string>) returns (r: Option<Entries>)
    ensures r.Some? <==> TableOk(lines, unions)
    ensures r.Some? ==> r.value == EntriesOf(lines)
  {
    var entries: Entries := map[];
    var usedIds: set<int>, implicitUnionIds: set<int> := {}, {};
    for i := 0 to |lines|
      invariant Supported(lines[..i]) && entries == EntriesOf(lines[..i])
      invariant Accounted(lines[..i], unions, usedIds, implicitUnionIds)
    {
      var line := lines[i];
      assert lines[..i + 1] == lines[..i] + [line];
      if line.Unsupported? {
        return None;
      }
      if line.id in usedIds || line.id in implicitUnionIds {
        Refusal(lines, i, unions, usedIds, implicitUnionIds, line.id);
        return None;
      }
      var discriminated := TypeOf(line.text) in unions;
      if discriminated && (line.id == 0 || line.id - 1 in usedIds || line.id - 1 in implicitUnionIds) {
        Refusal(lines, i, unions, usedIds, implicitUnionIds, line.id - 1);
        return None;
      }
      AccountLine(lines[..i], line, unions, usedIds, implicitUnionIds);
      EntriesSnoc(lines[..i], line);
      usedIds := usedIds + {line.id};
      if discriminated {
        implicitUnionIds := implicitUnionIds + {line.id - 1};
      }
      entries := entries[line.name := Sign(line)];
    }
    assert lines[..|lines|] == lines;
    var allIds := usedIds + implicitUnionIds;
    FillCheck(lines, unions, usedIds, implicitUnionIds);
    if allIds == Range(|allIds|) {
      return Some(entries);
    }
    return None;
  }

  /** The two sets hold exactly the slots of the lines read so far, once each. */
  ghost predicate Accounted(lines: seq<Line>, unions: set<string>, used: set<int>, implicit: set<int>) {
    && used !! implicit
    && SlotCount(lines, unions) == |used| + |implicit|
    && forall k: int :: Takers(lines, unions, k) == if k in used || k in implicit then 1 else 0
  }

  lemma AccountLine(lines: seq<Line>, line: Line, unions: set<string>, used: set<int>, implicit: set<int>)
    requires Accounted(lines, unions, used, implicit) && line.Entry?
    requires line.id !in used && line.id !in implicit
    requires IsUnion(line, unions) ==> line.id > 0 && line.id - 1 !in used && line.id - 1 !in implicit
    ensures Accounted(lines + [line], unions, used + {line.id},
                      implicit + if IsUnion(line, unions) then {line.id - 1} else {})
  {
    var all := lines + [line];
    assert all[..|all| - 1] == lines;
    assert |used + {line.id}| == |used| + 1;
    assert IsUnion(line, unions) ==> |implicit + {line.id - 1}| == |implicit| + 1;
  }

  lemma FillCheck(lines: seq<Line>, unions: set<string>, used: set<int>, implicit: set<int>)
    requires Supported(lines) && Accounted(lines, unions, used, implicit)
    ensures TableOk(lines, unions) <==> used + implicit == Range(|used + implicit|)
  {
    var all := used + implicit;
    assert |all| == SlotCount(lines, unions);
    if TableOk(lines, unions) {
      forall k: int
        ensures k in all <==> 0 <= k < |all|
      {
        assert Takers(lines, unions, k) == if 0 <= k < |all| then 1 else 0;
      }
    }
  }

  /** `set(range(n))`. */
  function Range(n: nat): (r: set<int>)
    ensures |r| == n && forall k :: k in r <==> 0 <= k < n
  {
    if n == 0 then {} else Range(n - 1) + {n - 1}
  }

  lemma EntriesSnoc(lines: seq<Line>, line: Line)
    requires Supported(lines) && line.Entry?
    ensures EntriesOf(lines + [line]) == EntriesOf(lines)[line.name := Sign(line)]
  {
    assert (lines + [line])[..|lines|] == lines;
  }

  /** A line that takes a slot already taken, or one below zero, spoils the table. */
  lemma Refusal(lines: seq<Line>, i: nat, unions: set<string>, used: set<int>, implicit: set<int>, k: int)
    requires i < |lines| && Accounted(lines[..i], unions, used, implicit)
    requires Takes(lines[i], unions, k) && (k < 0 || k in used || k in implicit)
    ensures !TableOk(lines, unions)
  {
    LineTakes(lines, unions, i, k);
    if k >= 0 {
      assert Takers(lines[..i], unions, k) == 1;
      var j := SlotHasLine(lines[..i], unions, k);
      SharedSlot(lines, unions, j, i, k);
    }
  }

  /** The member loop over an enum or union: values must be distinct. */
  method ParseMembers(lines: seq<Line>) returns (r: Option<Entries>)
    ensures r.Some? <==> MembersOk(lines)
    ensures r.Some? ==> r.value == EntriesOf(lines)
  {
    var entries: Entries, usedIds: set<nat> := map[], {};
    for i := 0 to |lines|
      invariant MembersOk(lines[..i]) && entries == EntriesOf(lines[..i])
      invariant forall k: nat :: k in usedIds <==> exists j :: 0 <= j < i && lines[j].Entry? && lines[j].id == k
    {
      var line := lines[i];
      assert lines[..i + 1] == lines[..i] + [line];
      if line.Unsupported? || line.id in usedIds {
        return None;
      }
      EntriesSnoc(lines[..i], line);
      usedIds := usedIds + {line.id};
      entries := entries[line.name := Sign(line)];
    }
    assert lines[..|lines|] == lines;
    return Some(entries);
  }

  // ----- Whole schemas

  function UnionNames(blocks: seq<Block>): set<string> {
    set i | 0 <= i < |blocks| && blocks[i].key.kind.Union? :: blocks[i].key.name
  }

  ghost predicate BlockOk(b: Block, unions: set<string>) {
    if b.key.kind.Table? then TableOk(b.lines, unions) else MembersOk(b.lines)
  }

  /** A schema text without comments: the words that occur in it, and its declarations. */
  datatype SchemaText = SchemaText(words: set<string>, blocks: seq<Block>)

  const FORBIDDEN: seq<string> :=
    ["required", "nested_flatbuffer", "flexbuffer", "native_type", "cpp_type", "offset64", "vector64"]

  ghost predicate SchemaOk(text: SchemaText) {
    (forall i :: 0 <= i < |FORBIDDEN| ==> FORBIDDEN[i] !in text.words) && BlocksOk(text.blocks)
  }

  ghost predicate BlocksOk(blocks: seq<Block>) {
    && blocks != []
    && (forall i :: 0 <= i < |blocks| ==> BlockOk(blocks[i], UnionNames(blocks)))
    && (forall i, j :: 0 <= i < j < |blocks| ==> blocks[i].key != blocks[j].key)
  }

  /** What the parsed schema holds. */
  ghost predicate Represents(schema: Schema, blocks: seq<Block>)
    requires forall i :: 0 <= i < |blocks| ==> Supported(blocks[i].lines)
  {
    && (forall i :: 0 <= i < |blocks| ==>
          blocks[i].key in schema && schema[blocks[i].key] == EntriesOf(blocks[i].lines))
    && (forall k :: k in schema ==> exists i :: 0 <= i < |blocks| && blocks[i].key == k)
  }

  method ParseBlock(block: Block, unions: set<string>) returns (r: Option<Entries>)
    ensures r.Some? <==> BlockOk(block, unions)
    ensures r.Some? ==> Supported(block.lines) && r.value == EntriesOf(block.lines)
  {
    if block.key.kind.Table? {
      r := ParseTable(block.lines, unions);
    } else {
      r := ParseMembers(block.lines);
    }
  }

  /** `parse_schema`. */
  method ParseSchema(text: SchemaText) returns (r: Option<Schema>)
    ensures r.Some? <==> SchemaOk(text)
    ensures r.Some? ==> Represents(r.value, text.blocks)
  {
    for i := 0 to |FORBIDDEN|
      invariant forall k :: 0 <= k < i ==> FORBIDDEN[k] !in text.words
    {
      if FORBIDDEN[i] in text.words {
        return None;
      }
    }
    r := ParseBlocks(text.blocks);
  }

  /** The loop over the declarations. */
  method ParseBlocks(blocks: seq<Block>) returns (r: Option<Schema>)
    ensures r.Some? <==> BlocksOk(blocks)
    ensures r.Some? ==> Represents(r.value, blocks)
  {
    var unions := UnionNames(blocks);
    var schema: Schema := map[];
    for i := 0 to |blocks|
      invariant ReadUpTo(blocks[..i], unions, schema)
    {
      var block := blocks[i];
      assert blocks[..i + 1] == blocks[..i] + [block];
      if block.key in schema {
        RepeatedBlock(blocks, i, unions, schema);
        return None;
      }
      var entries := ParseBlock(block, unions);
      if entries.None? {
        assert !BlockOk(blocks[i], unions);
        return None;
      }
      ReadOneMore(blocks[..i], block, unions, schema);
      schema := schema[block.key := entries.value];
    }
    assert blocks[..|blocks|] == blocks;
    return if blocks == [] then None else Some(schema);
  }

  /** What the loop has established about the blocks read. */
  ghost predicate ReadUpTo(blocks: seq<Block>, unions: set<string>, schema: Schema) {
    && (forall i :: 0 <= i < |blocks| ==> BlockOk(blocks[i], unions))
    && (forall i, j :: 0 <= i < j < |blocks| ==> blocks[i].key != blocks[j].key)
    && Represents(schema, blocks)
  }

  lemma RepeatedBlock(blocks: seq<Block>, i: nat, unions: set<string>, schema: Schema)
    requires i < |blocks| && ReadUpTo(blocks[..i], unions, schema) && blocks[i].key in schema
    ensures !BlocksOk(blocks)
  {
    var j :| 0 <= j < i && blocks[..i][j].key == blocks[i].key;
    assert blocks[j].key == blocks[i].key;
  }

  lemma ReadOneMore(blocks: seq<Block>, block: Block, unions: set<string>, schema: Schema)
    requires ReadUpTo(blocks, unions, schema) && BlockOk(block, unions) && block.key !in schema
    ensures ReadUpTo(blocks + [block], unions, schema[block.key := EntriesOf(block.lines)])
  {
    var all := blocks + [block];
    assert forall i :: 0 <= i < |blocks| ==> all[i] == blocks[i];
    RepresentsSnoc(schema, blocks, block);
  }

  lemma RepresentsSnoc(schema: Schema, blocks: seq<Block>, block: Block)
    requires forall i :: 0 <= i < |blocks| ==> Supported(blocks[i].lines)
    requires Supported(block.lines) && Represents(schema, blocks) && block.key !in schema
    ensures forall i :: 0 <= i < |blocks + [block]| ==> Supported((blocks + [block])[i].lines)
    ensures Represents(schema[block.key := EntriesOf(block.lines)], blocks + [block])
  {
    var all := blocks + [block];
    assert all[|blocks|] == block;
    var grown := schema[block.key := EntriesOf(block.lines)];
    forall k | k in grown
      ensures exists i :: 0 <= i < |all| && all[i].key == k
    {
      if k != block.key {
        var i :| 0 <= i < |blocks| && blocks[i].key == k;
        assert all[i].key == k;
      }
    }
  }

  /** `verify_schema_policy`, once both schemas are parsed: nothing old is removed or changed. */
  predicate PolicyOk(old_: Schema, new_: Schema) {
    forall k :: k in old_ ==> k in new_ && Extends(old_[k], new_[k])
  }

  predicate Extends(old_: Entries, new_: Entries) {
    forall n :: n in old_ ==> n in new_ && new_[n] == old_[n]
  }

  // ----- What the dictionary remembers

  predicate DistinctNames(lines: seq<Line>)
    requires Supported(lines)
  {
    forall i, j :: 0 <= i < j < |lines| ==> lines[i].name != lines[j].name
  }

  /** A name maps to its last declaration. */
  lemma {:induction false} EntryIsLast(lines: seq<Line>, i: nat)
    requires Supported(lines) && i < |lines|
    requires forall j :: i < j < |lines| ==> lines[j].name != lines[i].name
    ensures lines[i].name in EntriesOf(lines) && EntriesOf(lines)[lines[i].name] == Sign(lines[i])
    decreases |lines|
  {
    if i < |lines| - 1 {
      EntryIsLast(lines[..|lines| - 1], i);
    }
  }

  lemma {:induction false} EntryHasLine(lines: seq<Line>, name: string) returns (i: nat)
    requires Supported(lines) && name in EntriesOf(lines)
    ensures i < |lines| && lines[i].name == name && EntriesOf(lines)[name] == Sign(lines[i])
    ensures forall j :: i < j < |lines| ==> lines[j].name != name
  {
    if lines[|lines| - 1].name == name {
      i := |lines| - 1;
    } else {
      i := EntryHasLine(lines[..|lines| - 1], name);
    }
  }

  /** With distinct names in the old table, an extending table declares every old field. */
  lemma FieldsSurvive(old_: seq<Line>, new_: seq<Line>, e: Line)
    requires Supported(old_) && Supported(new_) && DistinctNames(old_)
    requires Extends(EntriesOf(old_), EntriesOf(new_)) && e in old_
    ensures e in new_
  {
    var i :| 0 <= i < |old_| && old_[i] == e;
    EntryIsLast(old_, i);
    var j := EntryHasLine(new_, e.name);
    assert new_[j] == e;
  }
}
