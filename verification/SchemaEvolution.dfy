/** What the evolution policy guarantees about accepted versions of a schema. */
module SchemaEvolution {
  import opened SchemaPolicy

  /** Every old field is still declared with its type and id, is a union exactly if it was
      one, and so keeps its slots; every other field only takes slots past the old ones. */
  ghost predicate AppendOnly(old_: seq<Line>, oldUnions: set<string>, new_: seq<Line>, newUnions: set<string>) {
    && (forall e :: e in old_ ==> e in new_)
    && (forall e, k :: e in old_ ==> (Takes(e, newUnions, k) <==> Takes(e, oldUnions, k)))
    && (forall e, k :: e in new_ && e !in old_ && Takes(e, newUnions, k) ==> k >= SlotCount(old_, oldUnions))
  }

  /** Each slot below the old count belongs to a field that is still there. */
  lemma OldSlotHasOwner(old_: seq<Line>, oldUnions: set<string>, new_: seq<Line>, newUnions: set<string>, k: int)
    returns (owner: Line)
    requires TableOk(old_, oldUnions) && oldUnions <= newUnions
    requires forall e :: e in old_ ==> e in new_
    requires 0 <= k < SlotCount(old_, oldUnions)
    ensures owner in old_ && Takes(owner, oldUnions, k) && Takes(owner, newUnions, k)
  {
    assert Takers(old_, oldUnions, k) == 1;
    var i := SlotHasLine(old_, oldUnions, k);
    owner := old_[i];
  }

  /** No old field turns into a union: its discriminator would need a slot that another old
      field holds. */
  lemma NoNewDiscriminator(old_: seq<Line>, oldUnions: set<string>, new_: seq<Line>, newUnions: set<string>, e: Line)
    requires TableOk(old_, oldUnions) && TableOk(new_, newUnions) && oldUnions <= newUnions
    requires forall x :: x in old_ ==> x in new_
    requires e in old_ && IsUnion(e, newUnions)
    ensures IsUnion(e, oldUnions)
  {
    var i :| 0 <= i < |old_| && old_[i] == e;
    LineTakes(old_, oldUnions, i, e.id);
    assert Takers(old_, oldUnions, e.id) == if 0 <= e.id < SlotCount(old_, oldUnions) then 1 else 0;
    var j :| 0 <= j < |new_| && new_[j] == e;
    LineTakes(new_, newUnions, j, e.id - 1);
    assert Takers(new_, newUnions, e.id - 1) == if 0 <= e.id - 1 < SlotCount(new_, newUnions) then 1 else 0;
    var owner := OldSlotHasOwner(old_, oldUnions, new_, newUnions, e.id - 1);
    OneOwner(new_, newUnions, owner, e, e.id - 1);
  }

  lemma TableAppendOnly(old_: seq<Line>, oldUnions: set<string>, new_: seq<Line>, newUnions: set<string>)
    requires TableOk(old_, oldUnions) && TableOk(new_, newUnions) && oldUnions <= newUnions
    requires DistinctNames(old_) && Extends(EntriesOf(old_), EntriesOf(new_))
    ensures AppendOnly(old_, oldUnions, new_, newUnions)
  {
    forall e | e in old_
      ensures e in new_
    {
      FieldsSurvive(old_, new_, e);
    }
    forall e, k | e in old_
      ensures Takes(e, newUnions, k) <==> Takes(e, oldUnions, k)
    {
      if IsUnion(e, newUnions) {
        NoNewDiscriminator(old_, oldUnions, new_, newUnions, e);
      }
    }
    forall e, k | e in new_ && e !in old_ && Takes(e, newUnions, k)
      ensures k >= SlotCount(old_, oldUnions)
    {
      if k < SlotCount(old_, oldUnions) {
        var j :| 0 <= j < |new_| && new_[j] == e;
        LineTakes(new_, newUnions, j, k);
        assert Takers(new_, newUnions, k) == if 0 <= k < SlotCount(new_, newUnions) then 1 else 0;
        var owner := OldSlotHasOwner(old_, oldUnions, new_, newUnions, k);
        OneOwner(new_, newUnions, owner, e, k);
      }
    }
  }

  // ----- Schemas and chains of versions

  /** A schema text that parses. */
  datatype Version = Version(text: SchemaText, schema: Schema)

  ghost predicate Parsed(v: Version) {
    && SchemaOk(v.text)
    && (forall i :: 0 <= i < |v.text.blocks| ==> Supported(v.text.blocks[i].lines))
    && Represents(v.schema, v.text.blocks)
  }

  ghost predicate Accepted(v: Version, w: Version) {
    Parsed(v) && Parsed(w) && PolicyOk(v.schema, w.schema)
  }

  /** `verify_schema_policy`: parse both texts, then compare what they declare. */
  method VerifySchemaPolicy(v1: SchemaText, v2: SchemaText) returns (ok: bool, before: Schema, after: Schema)
    ensures ok <==> Accepted(Version(v1, before), Version(v2, after))
    ensures SchemaOk(v1) && SchemaOk(v2) && !ok ==>
              Parsed(Version(v1, before)) && Parsed(Version(v2, after)) && !PolicyOk(before, after)
  {
    before, after := map[], map[];
    var parsed := ParseSchema(v1);
    if parsed.None? {
      return false, before, after;
    }
    before := parsed.value;
    parsed := ParseSchema(v2);
    if parsed.None? {
      return false, before, after;
    }
    after := parsed.value;
    ok := PolicyOk(before, after);
  }

  /** Append-only evolution: when the policy accepts an old and a new version, every old
      table with distinct field names is still there, and only grew at the end. */
  lemma EvolutionIsAppendOnly(v: Version, w: Version, i: nat)
    requires Accepted(v, w)
    requires i < |v.text.blocks| && v.text.blocks[i].key.kind.Table? && DistinctNames(v.text.blocks[i].lines)
    ensures exists j :: 0 <= j < |w.text.blocks| && w.text.blocks[j].key == v.text.blocks[i].key
                        && AppendOnly(v.text.blocks[i].lines, UnionNames(v.text.blocks),
                                      w.text.blocks[j].lines, UnionNames(w.text.blocks))
  {
    var key := v.text.blocks[i].key;
    assert key in v.schema && key in w.schema;
    var j :| 0 <= j < |w.text.blocks| && w.text.blocks[j].key == key;
    assert BlockOk(v.text.blocks[i], UnionNames(v.text.blocks)) && BlockOk(w.text.blocks[j], UnionNames(w.text.blocks));
    assert Extends(v.schema[key], w.schema[key]);
    TableAppendOnly(v.text.blocks[i].lines, UnionNames(v.text.blocks),
                    w.text.blocks[j].lines, UnionNames(w.text.blocks));
  }

  /** The policy composes over a chain of schemas checked pairwise. */
  lemma {:induction false} PolicyComposes(schemas: seq<Schema>, a: nat, b: nat)
    requires a < b < |schemas|
    requires forall t :: 0 <= t < |schemas| - 1 ==> PolicyOk(schemas[t], schemas[t + 1])
    ensures PolicyOk(schemas[a], schemas[b])
    decreases b
  {
    assert PolicyOk(schemas[b - 1], schemas[b - 1 + 1]);
    if a < b - 1 {
      PolicyComposes(schemas, a, b - 1);
    }
  }

  /** So no table of any version ever loses, retypes or reuses a slot in any later one. */
  lemma ChainIsAppendOnly(versions: seq<Version>, schemas: seq<Schema>, a: nat, b: nat, i: nat)
    requires |schemas| == |versions| && a < b < |versions|
    requires forall t :: 0 <= t < |versions| ==> Parsed(versions[t]) && versions[t].schema == schemas[t]
    requires forall t :: 0 <= t < |schemas| - 1 ==> PolicyOk(schemas[t], schemas[t + 1])
    requires i < |versions[a].text.blocks| && versions[a].text.blocks[i].key.kind.Table?
    requires Supported(versions[a].text.blocks[i].lines) && DistinctNames(versions[a].text.blocks[i].lines)
    ensures exists j :: 0 <= j < |versions[b].text.blocks|
                        && versions[b].text.blocks[j].key == versions[a].text.blocks[i].key
                        && AppendOnly(versions[a].text.blocks[i].lines, UnionNames(versions[a].text.blocks),
                                      versions[b].text.blocks[j].lines, UnionNames(versions[b].text.blocks))
  {
    PolicyComposes(schemas, a, b);
    EvolutionIsAppendOnly(versions[a], versions[b], i);
  }

  // ----- Repeated field names

  /** A table that the policy accepts as the next version, in a schema that keeps the unions. */
  ghost predicate Follows(old_: seq<Line>, oldUnions: set<string>, new_: seq<Line>, newUnions: set<string>)
    requires Supported(old_)
  {
    oldUnions <= newUnions && TableOk(new_, newUnions) && Extends(EntriesOf(old_), EntriesOf(new_))
  }

  /** Whatever the new version is, also with new unions, the policy lets the table only grow
      at the end. */
  ghost predicate AlwaysKept(lines: seq<Line>, unions: set<string>)
    requires Supported(lines)
  {
    forall new_, newUnions :: Follows(lines, unions, new_, newUnions) ==> AppendOnly(lines, unions, new_, newUnions)
  }

  /** A concrete gap: two fields named `a` share a dictionary entry, so the first of them may
      be dropped and its slot given to another field. */
  lemma ShadowedFieldIsLost()
    ensures var old_ := [Entry("a", "int", 0), Entry("a", "string", 1)];
            var new_ := [Entry("b", "float", 0), Entry("a", "string", 1)];
            && TableOk(old_, {}) && TableOk(new_, {})
            && Extends(EntriesOf(old_), EntriesOf(new_))
            && old_[0] !in new_
  {
    var x, y, z := Entry("a", "int", 0), Entry("a", "string", 1), Entry("b", "float", 0);
    TwoFields(x, y);
    TwoFields(z, y);
  }

  lemma TwoFields(x: Line, y: Line)
    requires x.Entry? && y.Entry? && x.id == 0 && y.id == 1
    ensures TableOk([x, y], {})
    ensures EntriesOf([x, y]) == map[x.name := Sign(x)][y.name := Sign(y)]
  {
    assert [x, y][..1] == [x] && [x][..0] == [];
    assert EntriesOf([x]) == map[][x.name := Sign(x)];
    forall k: int
      ensures Takers([x, y], {}, k) == if 0 <= k < 2 then 1 else 0
    {
      assert Takers([x], {}, k) == if k == 0 then 1 else 0;
    }
    assert SlotCount([x], {}) == 1;
  }

  function FreshName(lines: seq<Line>): (name: string)
    ensures forall i :: 0 <= i < |lines| && lines[i].Entry? ==> |lines[i].name| < |name|
  {
    if lines == [] then "_"
    else
      var rest, last := FreshName(lines[..|lines| - 1]), lines[|lines| - 1];
      if last.Entry? && |last.name| >= |rest| then last.name + "_" else rest
  }

  lemma {:induction false} RenameKeepsSlots(lines: seq<Line>, i: nat, name: string, unions: set<string>, k: int)
    requires i < |lines| && lines[i].Entry?
    ensures var renamed := lines[i := lines[i].(name := name)];
            Takers(renamed, unions, k) == Takers(lines, unions, k)
            && SlotCount(renamed, unions) == SlotCount(lines, unions)
  {
    var renamed := lines[i := lines[i].(name := name)];
    var n := |lines| - 1;
    if i < n {
      RenameKeepsSlots(lines[..n], i, name, unions, k);
      assert renamed[..n] == lines[..n][i := lines[i].(name := name)];
    } else {
      assert renamed[..n] == lines[..n];
    }
  }

  /** Exactly when the policy protects a table: every accepted version keeps all its fields and
      slots if and only if the table's field names are distinct. */
  lemma KeptExactlyWhenDistinct(lines: seq<Line>, unions: set<string>)
    requires TableOk(lines, unions)
    ensures AlwaysKept(lines, unions) <==> DistinctNames(lines)
  {
    if DistinctNames(lines) {
      forall new_, newUnions | Follows(lines, unions, new_, newUnions)
        ensures AppendOnly(lines, unions, new_, newUnions)
      {
        TableAppendOnly(lines, unions, new_, newUnions);
      }
    } else {
      var i, j :| 0 <= i < j < |lines| && lines[i].name == lines[j].name;
      var new_ := lines[i := lines[i].(name := FreshName(lines))];
      forall k: int
        ensures Takers(new_, unions, k) == Takers(lines, unions, k)
              && SlotCount(new_, unions) == SlotCount(lines, unions)
      {
        RenameKeepsSlots(lines, i, FreshName(lines), unions, k);
      }
      assert TableOk(new_, unions);
      RenamedExtends(lines, i, j);
      assert Follows(lines, unions, new_, unions);
      RenamedIsGone(lines, i, unions);
      assert lines[i] in lines;
    }
  }

  lemma RenamedExtends(lines: seq<Line>, i: nat, j: nat)
    requires Supported(lines) && i < j < |lines| && lines[i].name == lines[j].name
    ensures var new_ := lines[i := lines[i].(name := FreshName(lines))];
            Supported(new_) && Extends(EntriesOf(lines), EntriesOf(new_))
  {
    var new_ := lines[i := lines[i].(name := FreshName(lines))];
    forall n | n in EntriesOf(lines)
      ensures n in EntriesOf(new_) && EntriesOf(new_)[n] == EntriesOf(lines)[n]
    {
      var m := EntryHasLine(lines, n);
      assert m != i;
      EntryIsLast(new_, m);
    }
  }

  lemma RenamedIsGone(lines: seq<Line>, i: nat, unions: set<string>)
    requires TableOk(lines, unions) && i < |lines|
    ensures lines[i] !in lines[i := lines[i].(name := FreshName(lines))]
  {
    var new_ := lines[i := lines[i].(name := FreshName(lines))];
    if lines[i] in new_ {
      var m :| 0 <= m < |new_| && new_[m] == lines[i];
      assert m != i;
      if m < i {
        SharedSlot(lines, unions, m, i, lines[i].id);
      } else {
        SharedSlot(lines, unions, i, m, lines[i].id);
      }
    }
  }

  // ----- Enums and unions

  /** Every old member is still declared with its text and value, and no other member has an old
      value. */
  ghost predicate MembersKept(old_: seq<Line>, new_: seq<Line>)
    requires Supported(old_) && Supported(new_)
  {
    && (forall e :: e in old_ ==> e in new_)
    && (forall d, e :: d in old_ && e in new_ && e !in old_ ==> d.id != e.id)
  }

  lemma OneOfAValue(lines: seq<Line>, d: Line, e: Line)
    requires MembersOk(lines) && d in lines && e in lines && d.id == e.id
    ensures d == e
  {
    var i :| 0 <= i < |lines| && lines[i] == d;
    var j :| 0 <= j < |lines| && lines[j] == e;
  }

  lemma MembersOnlyAdded(old_: seq<Line>, new_: seq<Line>)
    requires MembersOk(old_) && MembersOk(new_) && DistinctNames(old_) && Extends(EntriesOf(old_), EntriesOf(new_))
    ensures MembersKept(old_, new_)
  {
    forall e | e in old_
      ensures e in new_
    {
      FieldsSurvive(old_, new_, e);
    }
    forall d, e | d in old_ && e in new_ && e !in old_
      ensures d.id != e.id
    {
      if d.id == e.id {
        OneOfAValue(new_, d, e);
      }
    }
  }

  /** When the policy accepts two versions, every old enum or union with distinct member names is
      still there with all its members, and no new member takes an old value. */
  lemma MembersAreKept(v: Version, w: Version, i: nat)
    requires Accepted(v, w)
    requires i < |v.text.blocks| && !v.text.blocks[i].key.kind.Table? && DistinctNames(v.text.blocks[i].lines)
    ensures exists j :: 0 <= j < |w.text.blocks| && w.text.blocks[j].key == v.text.blocks[i].key
                        && MembersKept(v.text.blocks[i].lines, w.text.blocks[j].lines)
  {
    var key := v.text.blocks[i].key;
    assert key in v.schema && key in w.schema;
    var j :| 0 <= j < |w.text.blocks| && w.text.blocks[j].key == key;
    assert BlockOk(v.text.blocks[i], UnionNames(v.text.blocks)) && BlockOk(w.text.blocks[j], UnionNames(w.text.blocks));
    assert Extends(v.schema[key], w.schema[key]);
    MembersOnlyAdded(v.text.blocks[i].lines, w.text.blocks[j].lines);
  }

  /** The same between any two versions of a chain checked pairwise. */
  lemma MembersAreKeptInChain(versions: seq<Version>, schemas: seq<Schema>, a: nat, b: nat, i: nat)
    requires |schemas| == |versions| && a < b < |versions|
    requires forall t :: 0 <= t < |versions| ==> Parsed(versions[t]) && versions[t].schema == schemas[t]
    requires forall t :: 0 <= t < |schemas| - 1 ==> PolicyOk(schemas[t], schemas[t + 1])
    requires i < |versions[a].text.blocks| && !versions[a].text.blocks[i].key.kind.Table?
    requires Supported(versions[a].text.blocks[i].lines) && DistinctNames(versions[a].text.blocks[i].lines)
    ensures exists j :: 0 <= j < |versions[b].text.blocks|
                        && versions[b].text.blocks[j].key == versions[a].text.blocks[i].key
                        && Supported(versions[b].text.blocks[j].lines)
                        && MembersKept(versions[a].text.blocks[i].lines, versions[b].text.blocks[j].lines)
  {
    PolicyComposes(schemas, a, b);
    MembersAreKept(versions[a], versions[b], i);
  }

  /** Whatever the new version of an enum or union is, the policy only lets members be added. */
  ghost predicate AlwaysKeptMembers(lines: seq<Line>)
    requires Supported(lines)
  {
    forall new_ :: MembersOk(new_) && Extends(EntriesOf(lines), EntriesOf(new_)) ==> MembersKept(lines, new_)
  }

  /** Exactly when the policy protects an enum or union: if and only if its member names are
      distinct. */
  lemma MembersKeptExactlyWhenDistinct(lines: seq<Line>)
    requires MembersOk(lines)
    ensures AlwaysKeptMembers(lines) <==> DistinctNames(lines)
  {
    if DistinctNames(lines) {
      forall new_ | MembersOk(new_) && Extends(EntriesOf(lines), EntriesOf(new_))
        ensures MembersKept(lines, new_)
      {
        MembersOnlyAdded(lines, new_);
      }
    } else {
      var i, j :| 0 <= i < j < |lines| && lines[i].name == lines[j].name;
      var new_ := lines[i := lines[i].(name := FreshName(lines))];
      assert MembersOk(new_);
      RenamedExtends(lines, i, j);
      assert lines[i] in lines && !MembersKept(lines, new_);
    }
  }

  // ----- Acceptance on the declared lines

  /** Every old line of every block is still declared in the block of the same name. */
  ghost predicate StillDeclared(old_: seq<Block>, new_: seq<Block>) {
    forall i :: 0 <= i < |old_| ==> BlockKept(old_[i], new_)
  }

  ghost predicate BlockKept(a: Block, new_: seq<Block>) {
    exists j :: 0 <= j < |new_| && LinesKept(a, new_[j])
  }

  ghost predicate LinesKept(a: Block, b: Block) {
    b.key == a.key && forall e :: e in a.lines ==> e in b.lines
  }

  ghost predicate AllDistinctNames(blocks: seq<Block>) {
    forall i :: 0 <= i < |blocks| ==> Supported(blocks[i].lines) && DistinctNames(blocks[i].lines)
  }

  lemma KeptLinesExtend(old_: seq<Line>, new_: seq<Line>)
    requires Supported(old_) && Supported(new_) && DistinctNames(new_) && forall e :: e in old_ ==> e in new_
    ensures Extends(EntriesOf(old_), EntriesOf(new_))
  {
    forall n | n in EntriesOf(old_)
      ensures n in EntriesOf(new_) && EntriesOf(new_)[n] == EntriesOf(old_)[n]
    {
      var i := EntryHasLine(old_, n);
      assert old_[i] in new_;
      var j :| 0 <= j < |new_| && new_[j] == old_[i];
      EntryIsLast(new_, j);
    }
  }

  lemma AcceptedKeepsLines(v: Version, w: Version, i: nat)
    requires Accepted(v, w) && AllDistinctNames(v.text.blocks) && i < |v.text.blocks|
    ensures BlockKept(v.text.blocks[i], w.text.blocks)
  {
    var key := v.text.blocks[i].key;
    assert key in v.schema && key in w.schema;
    var j :| 0 <= j < |w.text.blocks| && w.text.blocks[j].key == key;
    assert Extends(v.schema[key], w.schema[key]);
    forall e | e in v.text.blocks[i].lines
      ensures e in w.text.blocks[j].lines
    {
      FieldsSurvive(v.text.blocks[i].lines, w.text.blocks[j].lines, e);
    }
    assert LinesKept(v.text.blocks[i], w.text.blocks[j]);
  }

  lemma KeptBlockExtends(v: Version, w: Version, key: Key)
    requires Parsed(v) && Parsed(w) && AllDistinctNames(w.text.blocks) && key in v.schema
    requires StillDeclared(v.text.blocks, w.text.blocks)
    ensures key in w.schema && Extends(v.schema[key], w.schema[key])
  {
    var i :| 0 <= i < |v.text.blocks| && v.text.blocks[i].key == key;
    assert BlockKept(v.text.blocks[i], w.text.blocks);
    var j :| 0 <= j < |w.text.blocks| && LinesKept(v.text.blocks[i], w.text.blocks[j]);
    assert Supported(w.text.blocks[j].lines) && DistinctNames(w.text.blocks[j].lines);
    KeptLinesExtend(v.text.blocks[i].lines, w.text.blocks[j].lines);
  }

  /** Between texts that parse and repeat no name, the policy accepts exactly when every old line
      of every block, table, enum or union, is still declared. */
  lemma AcceptedExactly(v: Version, w: Version)
    requires Parsed(v) && Parsed(w) && AllDistinctNames(v.text.blocks) && AllDistinctNames(w.text.blocks)
    ensures Accepted(v, w) <==> StillDeclared(v.text.blocks, w.text.blocks)
  {
    if Accepted(v, w) {
      forall i | 0 <= i < |v.text.blocks|
        ensures BlockKept(v.text.blocks[i], w.text.blocks)
      {
        AcceptedKeepsLines(v, w, i);
      }
    }
    if StillDeclared(v.text.blocks, w.text.blocks) {
      forall key | key in v.schema
        ensures key in w.schema && Extends(v.schema[key], w.schema[key])
      {
        KeptBlockExtends(v, w, key);
      }
    }
  }
}
