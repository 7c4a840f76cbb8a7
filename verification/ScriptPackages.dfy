/**
 Limits of the script package catalog: packages, the variables they declare, and the
 counters the validator keeps while it reads the records once.
 */
module ScriptPackages {
  import opened Bytes

  const MAX_PACKAGES := 64
  const MAX_VARIABLES := 16384
  const MAX_PER_PACKAGE := 256
  const MAX_STRING := 4096
  const MAX_STRING_BYTES := 1024 * 1024

  /** A variable's initial value: a boolean, integer or float that is or is not valid, or a
      string with its decoded length when the encoding is valid. */
  datatype Value = Plain(valid: bool) | Text(length: Option<nat>)

  /** A catalog record after its fields were read.  `fields` says whether the remaining
      fields of a package record (version, order, api, artifact, digest, entry point and
      budget) are admissible. */
  datatype Record =
    | Package(id: int, fields: bool)
    | Variable(owner: int, id: int, value: Value)
    | Malformed

  predicate Id64(n: int) {
    0 < n < U64_LIMIT
  }

  predicate ValueOk(v: Value) {
    match v
    case Plain(valid) => valid
    case Text(length) => length.Some? && length.value <= MAX_STRING
  }

  predicate RecordOk(r: Record) {
    match r
    case Package(id, fields) => Id64(id) && fields
    case Variable(owner, id, value) => Id64(owner) && Id64(id) && ValueOk(value)
    case Malformed => false
  }

  // ----- What an admissible catalog is

  function TextBytes(records: seq<Record>): nat {
    if records == [] then 0
    else
      var last := records[|records| - 1];
      TextBytes(records[..|records| - 1]) +
      if last.Variable? && last.value.Text? && last.value.length.Some? then last.value.length.value else 0
  }

  function PackageCount(records: seq<Record>): nat {
    if records == [] then 0
    else PackageCount(records[..|records| - 1]) + if records[|records| - 1].Package? then 1 else 0
  }

  function VariableCount(records: seq<Record>): nat {
    if records == [] then 0
    else VariableCount(records[..|records| - 1]) + if records[|records| - 1].Variable? then 1 else 0
  }

  predicate Owned(r: Record, owner: int) {
    r.Variable? && r.owner == owner
  }

  function OwnedCount(records: seq<Record>, owner: int): nat {
    if records == [] then 0
    else OwnedCount(records[..|records| - 1], owner) + if Owned(records[|records| - 1], owner) then 1 else 0
  }

  predicate Clash(r: Record, s: Record) {
    (r.Package? && s.Package? && r.id == s.id)
    || (r.Variable? && s.Variable? && r.owner == s.owner && r.id == s.id)
  }

  predicate Declared(records: seq<Record>, id: int) {
    exists i :: 0 <= i < |records| && records[i].Package? && records[i].id == id
  }

  /** All limits but the global one on variables, over the records so far. */
  ghost predicate WithinLimits(records: seq<Record>) {
    && (forall i :: 0 <= i < |records| ==> RecordOk(records[i]))
    && (forall i, j :: 0 <= i < j < |records| ==> !Clash(records[i], records[j]))
    && PackageCount(records) <= MAX_PACKAGES
    && (forall p :: OwnedCount(records, p) <= MAX_PER_PACKAGE)
    && TextBytes(records) <= MAX_STRING_BYTES
  }

  ghost predicate CatalogOk(records: seq<Record>) {
    && WithinLimits(records)
    && forall i :: 0 <= i < |records| && records[i].Variable? ==> Declared(records, records[i].owner)
  }

  // ----- What is counted

  /** Positions of records of a kind. */
  function PackageAt(records: seq<Record>): set<int> {
    set i | 0 <= i < |records| && records[i].Package?
  }

  function VariableAt(records: seq<Record>): set<int> {
    set i | 0 <= i < |records| && records[i].Variable?
  }

  function OwnedAt(records: seq<Record>, owner: int): set<int> {
    set i | 0 <= i < |records| && Owned(records[i], owner)
  }

  lemma {:induction false} PackageCountIsNumber(records: seq<Record>)
    ensures PackageCount(records) == |PackageAt(records)|
  {
    if records != [] {
      var n := |records| - 1;
      PackageCountIsNumber(records[..n]);
      assert PackageAt(records) == PackageAt(records[..n]) + if records[n].Package? then {n} else {};
    }
  }

  lemma {:induction false} VariableCountIsNumber(records: seq<Record>)
    ensures VariableCount(records) == |VariableAt(records)|
  {
    if records != [] {
      var n := |records| - 1;
      VariableCountIsNumber(records[..n]);
      assert VariableAt(records) == VariableAt(records[..n]) + if records[n].Variable? then {n} else {};
    }
  }

  lemma {:induction false} OwnedCountIsNumber(records: seq<Record>, owner: int)
    ensures OwnedCount(records, owner) == |OwnedAt(records, owner)|
  {
    if records != [] {
      var n := |records| - 1;
      OwnedCountIsNumber(records[..n], owner);
      assert OwnedAt(records, owner) == OwnedAt(records[..n], owner) + if Owned(records[n], owner) then {n} else {};
    }
  }

  /** The counts are numbers of records. */
  lemma CountsAreNumbers(records: seq<Record>, owner: int)
    ensures PackageCount(records) == |PackageAt(records)|
    ensures VariableCount(records) == |VariableAt(records)|
    ensures OwnedCount(records, owner) == |OwnedAt(records, owner)|
  {
    PackageCountIsNumber(records);
    VariableCountIsNumber(records);
    OwnedCountIsNumber(records, owner);
  }

  /** The string bytes add up over the records, and a string counts with its decoded length. */
  lemma {:induction false} TextBytesAdd(xs: seq<Record>, ys: seq<Record>)
    ensures TextBytes(xs + ys) == TextBytes(xs) + TextBytes(ys)
  {
    if ys == [] {
      assert xs + ys == xs;
    } else {
      TextBytesAdd(xs, ys[..|ys| - 1]);
      assert (xs + ys)[..|xs + ys| - 1] == xs + ys[..|ys| - 1];
    }
  }

  lemma TextBytesOfOne(r: Record)
    ensures TextBytes([r]) == match r
                              case Variable(_, _, Text(Some(n))) => n
                              case _ => 0
  {
    assert [r][..0] == [];
  }

  // ----- The global limit is redundant

  function Without(records: seq<Record>, owner: int): seq<Record> {
    if records == [] then []
    else
      Without(records[..|records| - 1], owner) +
      if Owned(records[|records| - 1], owner) then [] else [records[|records| - 1]]
  }

  lemma {:induction false} WithoutOwner(records: seq<Record>, owner: int)
    ensures VariableCount(records) == OwnedCount(records, owner) + VariableCount(Without(records, owner))
  {
    if records != [] {
      var last := records[|records| - 1];
      WithoutOwner(records[..|records| - 1], owner);
      var kept := Without(records[..|records| - 1], owner);
      assert (kept + [last])[..|kept|] == kept && kept + [] == kept;
    }
  }

  lemma {:induction false} WithoutHas(records: seq<Record>, owner: int)
    ensures forall r :: r in Without(records, owner) ==> r in records && !Owned(r, owner)
  {
    if records != [] {
      WithoutHas(records[..|records| - 1], owner);
    }
  }

  lemma {:induction false} OthersStay(records: seq<Record>, owner: int, p: int)
    requires p != owner
    ensures OwnedCount(Without(records, owner), p) == OwnedCount(records, p)
  {
    if records != [] {
      var last := records[|records| - 1];
      OthersStay(records[..|records| - 1], owner, p);
      var kept := Without(records[..|records| - 1], owner);
      assert (kept + [last])[..|kept|] == kept && kept + [] == kept;
    }
  }

  lemma {:induction false} NoOwners(records: seq<Record>)
    requires forall r :: r in records ==> !r.Variable?
    ensures VariableCount(records) == 0
  {
    if records != [] {
      assert records[|records| - 1] in records;
      NoOwners(records[..|records| - 1]);
    }
  }

  /** Variables owned by these packages, counted package by package. */
  lemma {:induction false} CountByOwner(records: seq<Record>, owners: set<int>)
    requires forall r :: r in records && r.Variable? ==> r.owner in owners
    ensures VariableCount(records) == SumOwned(records, owners)
    decreases owners
  {
    if owners == {} {
      NoOwners(records);
    } else {
      var p := Pick(owners);
      var rest := Without(records, p);
      WithoutOwner(records, p);
      WithoutHas(records, p);
      forall q | q in owners - {p}
        ensures OwnedCount(rest, q) == OwnedCount(records, q)
      {
        OthersStay(records, p, q);
      }
      CountByOwner(rest, owners - {p});
      SumCongruent(rest, records, owners - {p});
    }
  }

  ghost function Pick<T>(s: set<T>): (p: T)
    requires s != {}
    ensures p in s
  {
    var x :| x in s;
    x
  }

  ghost function SumOwned(records: seq<Record>, owners: set<int>): nat
    decreases owners
  {
    if owners == {} then 0
    else OwnedCount(records, Pick(owners)) + SumOwned(records, owners - {Pick(owners)})
  }

  lemma {:induction false} SumCongruent(xs: seq<Record>, ys: seq<Record>, owners: set<int>)
    requires forall p :: p in owners ==> OwnedCount(xs, p) == OwnedCount(ys, p)
    ensures SumOwned(xs, owners) == SumOwned(ys, owners)
    decreases owners
  {
    if owners != {} {
      SumCongruent(xs, ys, owners - {Pick(owners)});
    }
  }

  lemma {:induction false} SumBound(records: seq<Record>, owners: set<int>)
    requires forall p :: OwnedCount(records, p) <= MAX_PER_PACKAGE
    ensures SumOwned(records, owners) <= MAX_PER_PACKAGE * |owners|
    decreases owners
  {
    if owners != {} {
      SumBound(records, owners - {Pick(owners)});
      assert |owners - {Pick(owners)}| == |owners| - 1;
    }
  }

  function PackageIds(records: seq<Record>): set<int> {
    set i | 0 <= i < |records| && records[i].Package? :: records[i].id
  }

  lemma {:induction false} PackagesAreFew(records: seq<Record>)
    ensures |PackageIds(records)| <= PackageCount(records)
  {
    if records != [] {
      var front, last := records[..|records| - 1], records[|records| - 1];
      PackagesAreFew(front);
      assert PackageIds(records) == PackageIds(front) + if last.Package? then {last.id} else {};
    }
  }

  /** Every variable of an admissible catalog is declared under one of at most 64 packages,
      so the catalog never has more than 64 * 256 variables. */
  lemma GlobalLimitRedundant(records: seq<Record>)
    requires CatalogOk(records)
    ensures VariableCount(records) == SumOwned(records, PackageIds(records))
    ensures VariableCount(records) <= MAX_VARIABLES
  {
    forall r | r in records && r.Variable?
      ensures r.owner in PackageIds(records)
    {
      var i :| 0 <= i < |records| && records[i] == r;
      assert Declared(records, records[i].owner);
    }
    CountByOwner(records, PackageIds(records));
    SumBound(records, PackageIds(records));
    PackagesAreFew(records);
  }

  // ----- The validator

  /** The dictionaries, sets and counters the validator fills. */
  datatype Tally = Tally(packages: set<int>, variables: set<(int, int)>, perPackage: map<int, nat>, stringBytes: nat) {
    function Owned(owner: int): nat {
      if owner in perPackage then perPackage[owner] else 0
    }

    function Length(r: Record): nat
      requires RecordOk(r)
    {
      if r.Variable? && r.value.Text? then r.value.length.value else 0
    }

    /** Every check made on one record but the one against 16384 variables. */
    predicate Admits(r: Record) {
      && RecordOk(r)
      && match r
         case Package(id, _) => |packages| != MAX_PACKAGES && id !in packages
         case Variable(owner, id, _) =>
           (owner, id) !in variables && stringBytes + Length(r) <= MAX_STRING_BYTES
           && Owned(owner) + 1 <= MAX_PER_PACKAGE
         case Malformed => false
    }

    function Add(r: Record): Tally
      requires RecordOk(r)
    {
      match r
      case Package(id, _) => this.(packages := packages + {id})
      case Variable(owner, id, _) =>
        this.(variables := variables + {(owner, id)}, perPackage := perPackage[owner := Owned(owner) + 1],
              stringBytes := stringBytes + Length(r))
    }
  }

  function VariableKeys(records: seq<Record>): set<(int, int)> {
    set i | 0 <= i < |records| && records[i].Variable? :: (records[i].owner, records[i].id)
  }

  ghost predicate Counts(t: Tally, records: seq<Record>) {
    && t.packages == PackageIds(records) && |t.packages| == PackageCount(records)
    && t.variables == VariableKeys(records) && |t.variables| == VariableCount(records)
    && (forall p :: t.Owned(p) == OwnedCount(records, p))
    && t.stringBytes == TextBytes(records)
  }

  lemma Snoc(records: seq<Record>, r: Record)
    ensures (records + [r])[..|records|] == records && (records + [r])[|records|] == r
    ensures PackageIds(records + [r]) == PackageIds(records) + if r.Package? then {r.id} else {}
    ensures VariableKeys(records + [r]) == VariableKeys(records) + if r.Variable? then {(r.owner, r.id)} else {}
  {
    var all := records + [r];
    assert all[..|records|] == records && all[|records|] == r;
    assert forall i :: 0 <= i < |records| ==> all[i] == records[i];
  }

  /** How the counts move when one record is added. */
  lemma SnocCounts(records: seq<Record>, r: Record, p: int)
    ensures PackageCount(records + [r]) == PackageCount(records) + if r.Package? then 1 else 0
    ensures VariableCount(records + [r]) == VariableCount(records) + if r.Variable? then 1 else 0
    ensures OwnedCount(records + [r], p) == OwnedCount(records, p) + if Owned(r, p) then 1 else 0
    ensures RecordOk(r) ==>
              TextBytes(records + [r]) ==
              TextBytes(records) + if r.Variable? && r.value.Text? then r.value.length.value else 0
  {
    assert (records + [r])[..|records|] == records;
  }

  lemma AddCounts(t: Tally, records: seq<Record>, r: Record)
    requires Counts(t, records) && t.Admits(r)
    ensures Counts(t.Add(r), records + [r])
  {
    Snoc(records, r);
    SnocCounts(records, r, 0);
    var t', all := t.Add(r), records + [r];
    assert |t'.packages| == |t.packages| + if r.Package? then 1 else 0;
    assert |t'.variables| == |t.variables| + if r.Variable? then 1 else 0;
    forall p
      ensures t'.Owned(p) == OwnedCount(all, p)
    {
      SnocCounts(records, r, p);
      assert t.Owned(p) == OwnedCount(records, p);
    }
  }

  lemma AdmitsComplete(t: Tally, records: seq<Record>, r: Record)
    requires Counts(t, records) && WithinLimits(records + [r])
    ensures t.Admits(r)
  {
    var all := records + [r];
    assert RecordOk(all[|records|]);
    NoClash(records, r);
    if r.Variable? {
      assert OwnedCount(all, r.owner) <= MAX_PER_PACKAGE && t.Owned(r.owner) == OwnedCount(records, r.owner);
    }
  }

  lemma AdmitsSound(t: Tally, records: seq<Record>, r: Record)
    requires Counts(t, records) && WithinLimits(records) && t.Admits(r)
    ensures WithinLimits(records + [r])
  {
    forall p
      ensures OwnedCount(records + [r], p) <= MAX_PER_PACKAGE
    {
      assert t.Owned(p) == OwnedCount(records, p) <= MAX_PER_PACKAGE;
    }
  }

  /** The incremental checks are exactly what keeps the records within limits. */
  lemma AdmitsExactly(t: Tally, records: seq<Record>, r: Record)
    requires Counts(t, records) && WithinLimits(records)
    ensures t.Admits(r) <==> WithinLimits(records + [r])
  {
    if t.Admits(r) {
      AdmitsSound(t, records, r);
    }
    if WithinLimits(records + [r]) {
      AdmitsComplete(t, records, r);
    }
  }

  lemma NoClash(records: seq<Record>, r: Record)
    requires forall i, j :: 0 <= i < j < |records + [r]| ==> !Clash((records + [r])[i], (records + [r])[j])
    ensures r.Package? ==> r.id !in PackageIds(records)
    ensures r.Variable? ==> (r.owner, r.id) !in VariableKeys(records)
  {
    var all := records + [r];
    assert all[|records|] == r;
    forall i | 0 <= i < |records|
      ensures !Clash(records[i], r)
    {
      assert !Clash(all[i], all[|records|]);
    }
  }

  lemma {:induction false} PrefixCounts(records: seq<Record>, n: nat, p: int)
    requires n <= |records|
    ensures PackageCount(records[..n]) <= PackageCount(records)
    ensures VariableCount(records[..n]) <= VariableCount(records)
    ensures OwnedCount(records[..n], p) <= OwnedCount(records, p)
    ensures TextBytes(records[..n]) <= TextBytes(records)
    decreases |records|
  {
    if n < |records| {
      PrefixCounts(records[..|records| - 1], n, p);
      assert records[..|records| - 1][..n] == records[..n];
    } else {
      assert records[..n] == records;
    }
  }

  lemma PrefixLimits(records: seq<Record>, n: nat)
    requires WithinLimits(records) && n <= |records|
    ensures WithinLimits(records[..n])
  {
    forall p
      ensures OwnedCount(records[..n], p) <= MAX_PER_PACKAGE
    {
      PrefixCounts(records, n, p);
    }
    PrefixCounts(records, n, 0);
  }

  /** `_validate_script_packages`.  It accepts exactly the admissible catalogs: the inline
      check against 16384 variables never decides. */
  method Validate(records: seq<Record>) returns (ok: bool)
    ensures ok <==> CatalogOk(records)
  {
    var t := Tally({}, {}, map[], 0);
    for i := 0 to |records|
      invariant WithinLimits(records[..i]) && Counts(t, records[..i])
    {
      var r := records[i];
      assert records[..i + 1] == records[..i] + [r];
      if r.Variable? && |t.variables| == MAX_VARIABLES {
        TooManyVariables(records, i);
        return false;
      }
      AdmitsExactly(t, records[..i], r);
      if !t.Admits(r) {
        RefusedPrefix(records, i + 1);
        return false;
      }
      AddCounts(t, records[..i], r);
      t := t.Add(r);
    }
    assert records[..|records|] == records;
    OwnersDeclared(records, t);
    ok := forall k :: k in t.variables ==> k.0 in t.packages;
  }

  lemma RefusedPrefix(records: seq<Record>, n: nat)
    requires n <= |records| && !WithinLimits(records[..n])
    ensures !CatalogOk(records)
  {
    if CatalogOk(records) {
      PrefixLimits(records, n);
    }
  }

  lemma TooManyVariables(records: seq<Record>, i: nat)
    requires i < |records| && records[i].Variable? && VariableCount(records[..i]) == MAX_VARIABLES
    ensures !CatalogOk(records)
  {
    assert records[..i + 1][..i] == records[..i];
    PrefixCounts(records, i + 1, 0);
    if CatalogOk(records) {
      GlobalLimitRedundant(records);
    }
  }

  lemma OwnersDeclared(records: seq<Record>, t: Tally)
    requires WithinLimits(records) && Counts(t, records)
    ensures (forall k :: k in t.variables ==> k.0 in t.packages) <==> CatalogOk(records)
  {
    if forall k :: k in t.variables ==> k.0 in t.packages {
      forall i | 0 <= i < |records| && records[i].Variable?
        ensures Declared(records, records[i].owner)
      {
        assert (records[i].owner, records[i].id) in t.variables;
      }
    }
  }
}
