/**
 Plug-in dependencies.  Every content file lists its masters in its TES3 header; a loadout
 is usable when each master comes earlier in load order.  The baker checks this with a map
 from name to position, and pack verification checks it again with a growing set of
 earlier names.
 */
module MasterOrder {
  import opened Bytes
  import opened Seqs
  import opened Tes3Framing
  import opened Tes3Scanner

  const MAX_CONTENT_FILES := 256

  datatype LoadoutFile = LoadoutFile(name: string, size: int, digest: string, masters: seq<string>)

  /** Name handling taken from Python: cp1252 both ways, case folding, and two tests that a
      string is a bare file name: `plain` by the rules of Windows paths, which masters and
      verified packs are held to, and `local` by those of the host, which the baker holds
      content names to. */
  datatype NameRules = NameRules(
    decode: Blob -> Option<string>,
    encode: string -> Option<Blob>,
    fold: string -> string,
    plain: string -> bool,
    local: string -> bool)
  {
    /** Decoding is undone by encoding and only the empty string decodes to nothing. */
    ghost predicate Faithful() {
      forall b :: decode(b).Some? ==> encode(decode(b).value) == Some(b) && (b != [] ==> decode(b).value != "")
    }
  }

  datatype Fault = MissingMaster(file: nat, master: string) | MisorderedMaster(file: nat, master: string)

  predicate FoldDistinct(names: seq<string>, fold: string -> string) {
    forall i, j :: 0 <= i < j < |names| ==> fold(names[i]) != fold(names[j])
  }

  function FileNames(loadout: seq<LoadoutFile>): (names: seq<string>)
    ensures |names| == |loadout|
    ensures forall i :: 0 <= i < |loadout| ==> names[i] == loadout[i].name
  {
    seq(|loadout|, i requires 0 <= i < |loadout| => loadout[i].name)
  }

  // ----- The two orders

  /** Every file of that folded name is before position i, and there is one. */
  ghost predicate AllBefore(loadout: seq<LoadoutFile>, fold: string -> string, master: string, i: nat) {
    && (exists j :: 0 <= j < |loadout| && fold(loadout[j].name) == fold(master))
    && (forall j :: 0 <= j < |loadout| && fold(loadout[j].name) == fold(master) ==> j < i)
  }

  /** Some file of that folded name is before position i. */
  ghost predicate SomeBefore(loadout: seq<LoadoutFile>, fold: string -> string, master: string, i: nat) {
    exists j :: 0 <= j < i && j < |loadout| && fold(loadout[j].name) == fold(master)
  }

  ghost predicate PositionsOk(loadout: seq<LoadoutFile>, fold: string -> string) {
    forall i, k :: 0 <= i < |loadout| && 0 <= k < |loadout[i].masters| ==>
      AllBefore(loadout, fold, loadout[i].masters[k], i)
  }

  /** `_validate_master_order`. */
  method ValidateMasterOrder(loadout: seq<LoadoutFile>, fold: string -> string) returns (r: Option<Fault>)
    ensures r.None? <==> PositionsOk(loadout, fold)
    ensures r.Some? && r.value.MissingMaster? ==>
              forall j :: 0 <= j < |loadout| ==> fold(loadout[j].name) != fold(r.value.master)
  {
    var positions: map<string, nat> := map[];
    for index := 0 to |loadout|
      invariant forall j :: 0 <= j < index ==>
                  fold(loadout[j].name) in positions && positions[fold(loadout[j].name)] >= j
      invariant forall n :: n in positions ==> positions[n] < index && fold(loadout[positions[n]].name) == n
    {
      positions := positions[fold(loadout[index].name) := index];
    }
    for index := 0 to |loadout|
      invariant forall i, k :: 0 <= i < index && 0 <= k < |loadout[i].masters| ==>
                  AllBefore(loadout, fold, loadout[i].masters[k], i)
    {
      var masters := loadout[index].masters;
      for k := 0 to |masters|
        invariant forall m :: 0 <= m < k ==> AllBefore(loadout, fold, masters[m], index)
      {
        var key := fold(masters[k]);
        if key !in positions {
          assert !AllBefore(loadout, fold, loadout[index].masters[k], index);
          return Some(MissingMaster(index, masters[k]));
        }
        if positions[key] >= index {
          assert !AllBefore(loadout, fold, loadout[index].masters[k], index);
          return Some(MisorderedMaster(index, masters[k]));
        }
      }
    }
    return None;
  }

  // ----- Pack verification

  predicate HexDigest(s: string) {
    |s| == 64 && forall i :: 0 <= i < |s| ==> '0' <= s[i] <= '9' || 'a' <= s[i] <= 'f'
  }

  predicate FileShape(f: LoadoutFile, rules: NameRules) {
    f.name != "" && rules.plain(f.name) && f.size >= 0 && HexDigest(f.digest)
  }

  predicate MasterShape(master: string, rules: NameRules) {
    && master != "" && rules.plain(master)
    && rules.encode(master).Some? && |rules.encode(master).value| <= MAX_MASTER_NAME_BYTES
  }

  /** The per-entry checks of the table that are not about order. */
  ghost predicate TableShape(table: seq<LoadoutFile>, rules: NameRules) {
    && 1 <= |table| <= MAX_CONTENT_FILES
    && (forall i :: 0 <= i < |table| ==> FileShape(table[i], rules))
    && (forall i, k :: 0 <= i < |table| && 0 <= k < |table[i].masters| ==> MasterShape(table[i].masters[k], rules))
  }

  ghost predicate EntryOk(table: seq<LoadoutFile>, i: nat, rules: NameRules)
    requires i < |table|
  {
    && FileShape(table[i], rules)
    && (forall j :: 0 <= j < i ==> rules.fold(table[j].name) != rules.fold(table[i].name))
    && |table[i].masters| <= MAX_CONTENT_FILES
    && FoldDistinct(table[i].masters, rules.fold)
    && (forall k :: 0 <= k < |table[i].masters| ==>
          MasterShape(table[i].masters[k], rules) && SomeBefore(table, rules.fold, table[i].masters[k], i))
  }

  ghost predicate TableOk(table: seq<LoadoutFile>, rules: NameRules) {
    && 1 <= |table| <= MAX_CONTENT_FILES
    && forall i :: 0 <= i < |table| ==> EntryOk(table, i, rules)
  }

  /** `_verify_content_metadata`: one pass with the set of folded names seen so far. */
  method VerifyContentMetadata(table: seq<LoadoutFile>, rules: NameRules) returns (ok: bool)
    ensures ok <==> TableOk(table, rules)
  {
    if |table| == 0 || |table| > MAX_CONTENT_FILES {
      return false;
    }
    var earlier: set<string> := {};
    for index := 0 to |table|
      invariant forall n :: n in earlier <==> exists j :: 0 <= j < index && rules.fold(table[j].name) == n
      invariant forall i :: 0 <= i < index ==> EntryOk(table, i, rules)
    {
      var entry := table[index];
      var normalized := rules.fold(entry.name);
      if !FileShape(entry, rules) || normalized in earlier || |entry.masters| > MAX_CONTENT_FILES {
        assert !EntryOk(table, index, rules);
        return false;
      }
      var mastersOk := VerifyMasters(table, index, earlier, rules);
      if !mastersOk {
        assert !EntryOk(table, index, rules);
        return false;
      }
      earlier := earlier + {normalized};
    }
    return true;
  }

  /** The inner loop over one file's masters. */
  method VerifyMasters(table: seq<LoadoutFile>, index: nat, earlier: set<string>, rules: NameRules) returns (ok: bool)
    requires index < |table|
    requires forall n :: n in earlier <==> exists j :: 0 <= j < index && rules.fold(table[j].name) == n
    ensures ok <==>
            && FoldDistinct(table[index].masters, rules.fold)
            && forall k :: 0 <= k < |table[index].masters| ==>
                 MasterShape(table[index].masters[k], rules)
                 && SomeBefore(table, rules.fold, table[index].masters[k], index)
  {
    var masters := table[index].masters;
    var seen: set<string> := {};
    for k := 0 to |masters|
      invariant forall n :: n in seen <==> exists j :: 0 <= j < k && rules.fold(masters[j]) == n
      invariant FoldDistinct(masters[..k], rules.fold)
      invariant forall m :: 0 <= m < k ==>
                  MasterShape(masters[m], rules) && SomeBefore(table, rules.fold, masters[m], index)
    {
      var key := rules.fold(masters[k]);
      if !MasterShape(masters[k], rules) || key in seen || key !in earlier {
        return false;
      }
      seen := seen + {key};
    }
    assert masters[..|masters|] == masters;
    return true;
  }

  // ----- Agreement

  /** A file whose masters are distinct and all come earlier has no more masters than there
      are earlier files. */
  lemma MastersAreFew(table: seq<LoadoutFile>, i: nat, fold: string -> string)
    requires i < |table|
    requires FoldDistinct(table[i].masters, fold)
    requires forall k :: 0 <= k < |table[i].masters| ==> SomeBefore(table, fold, table[i].masters[k], i)
    ensures |table[i].masters| <= i
  {
    var masters := table[i].masters;
    var folded := seq(|masters|, k requires 0 <= k < |masters| => fold(masters[k]));
    var before := seq(i, j requires 0 <= j < i => fold(table[j].name));
    forall k | 0 <= k < |folded|
      ensures folded[k] in before
    {
      var j :| 0 <= j < i && j < |table| && fold(table[j].name) == fold(masters[k]);
      assert before[j] == folded[k];
    }
    DistinctSubset(folded, before);
  }

  lemma {:induction false} DistinctSubset(xs: seq<string>, ys: seq<string>)
    requires forall i, j :: 0 <= i < j < |xs| ==> xs[i] != xs[j]
    requires forall i :: 0 <= i < |xs| ==> xs[i] in ys
    ensures |xs| <= |ys|
  {
    if xs != [] {
      var k :| 0 <= k < |ys| && ys[k] == xs[0];
      var rest := ys[..k] + ys[k + 1..];
      forall i | 0 <= i < |xs[1..]|
        ensures xs[1..][i] in rest
      {
        var m :| 0 <= m < |ys| && ys[m] == xs[i + 1];
        assert m != k;
        assert m < k ==> rest[m] == ys[m];
        assert m > k ==> rest[m - 1] == ys[m];
      }
      DistinctSubset(xs[1..], rest);
    }
  }

  /** The two checkers agree: on a loadout of admissible entries with distinct folded names
      and duplicate-free master lists, the earlier-set check accepts exactly
      when the position-map check of the baker does.  The table bound on masters never
      decides. */
  lemma CheckersAgree(loadout: seq<LoadoutFile>, rules: NameRules)
    requires TableShape(loadout, rules)
    requires FoldDistinct(FileNames(loadout), rules.fold)
    requires forall i :: 0 <= i < |loadout| ==> FoldDistinct(loadout[i].masters, rules.fold)
    ensures TableOk(loadout, rules) <==> PositionsOk(loadout, rules.fold)
    ensures PositionsOk(loadout, rules.fold) ==>
              forall i :: 0 <= i < |loadout| ==> |loadout[i].masters| < MAX_CONTENT_FILES
  {
    var names := FileNames(loadout);
    assert forall i, j :: 0 <= i < j < |loadout| ==> rules.fold(names[i]) != rules.fold(names[j]);
    assert forall i, j :: 0 <= i < j < |loadout| ==> rules.fold(loadout[i].name) != rules.fold(loadout[j].name);
    forall i, k | 0 <= i < |loadout| && 0 <= k < |loadout[i].masters|
      ensures AllBefore(loadout, rules.fold, loadout[i].masters[k], i)
              <==> SomeBefore(loadout, rules.fold, loadout[i].masters[k], i)
    {
    }
    if PositionsOk(loadout, rules.fold) {
      forall i | 0 <= i < |loadout|
        ensures |loadout[i].masters| <= i && EntryOk(loadout, i, rules)
      {
        MastersAreFew(loadout, i, rules.fold);
      }
    }
    if TableOk(loadout, rules) {
      forall i, k | 0 <= i < |loadout| && 0 <= k < |loadout[i].masters|
        ensures AllBefore(loadout, rules.fold, loadout[i].masters[k], i)
      {
        assert EntryOk(loadout, i, rules);
      }
    }
  }

  // ----- Acyclicity

  /** File a names file b as a master. */
  ghost predicate Requires(loadout: seq<LoadoutFile>, fold: string -> string, a: nat, b: nat) {
    && a < |loadout| && b < |loadout|
    && exists k :: 0 <= k < |loadout[a].masters| && fold(loadout[a].masters[k]) == fold(loadout[b].name)
  }

  ghost predicate DependencyPath(loadout: seq<LoadoutFile>, fold: string -> string, path: seq<nat>) {
    forall t :: 0 <= t < |path| - 1 ==> Requires(loadout, fold, path[t], path[t + 1])
  }

  /** In an accepted loadout every dependency path strictly descends the load order, so no
      file depends on itself through any chain of masters. */
  lemma {:induction false} NoDependencyCycle(loadout: seq<LoadoutFile>, fold: string -> string, path: seq<nat>)
    requires PositionsOk(loadout, fold)
    requires |path| >= 2 && DependencyPath(loadout, fold, path)
    ensures path[|path| - 1] < path[0]
  {
    assert Requires(loadout, fold, path[0], path[1]);
    var k :| 0 <= k < |loadout[path[0]].masters|
             && fold(loadout[path[0]].masters[k]) == fold(loadout[path[1]].name);
    assert AllBefore(loadout, fold, loadout[path[0]].masters[k], path[0]);
    if |path| > 2 {
      var rest := path[1..];
      forall t | 0 <= t < |rest| - 1
        ensures Requires(loadout, fold, rest[t], rest[t + 1])
      {
        assert Requires(loadout, fold, path[t + 1], path[t + 1 + 1]);
      }
      NoDependencyCycle(loadout, fold, rest);
    }
  }

  // ----- Where master lists come from

  function MasterNames(ps: seq<Part>): seq<Blob> {
    if ps == [] then []
    else
      var last := ps[|ps| - 1];
      MasterNames(ps[..|ps| - 1]) + (if last.tag == MAST then [UpToNul(last.value)] else [])
  }

  lemma {:induction false} MasterNamesConcat(xs: seq<Part>, ys: seq<Part>)
    ensures MasterNames(xs + ys) == MasterNames(xs) + MasterNames(ys)
  {
    if ys == [] {
      assert xs + ys == xs;
    } else {
      var front, last := ys[..|ys| - 1], ys[|ys| - 1];
      var final := if last.tag == MAST then [UpToNul(last.value)] else [];
      MasterNamesConcat(xs, front);
      assert (xs + ys)[..|xs + ys| - 1] == xs + front;
      calc {
        MasterNames(xs + ys);
        MasterNames(xs + front) + final;
        MasterNames(xs) + MasterNames(front) + final;
        MasterNames(xs) + (MasterNames(front) + final);
      }
    }
  }

  function CutValue(): Part -> Blob {
    (p: Part) => UpToNul(p.value)
  }

  lemma MasterNamesOneMore(ps: seq<Part>, p: Part)
    ensures MasterNames(ps + [p]) == if p.tag == MAST then MasterNames(ps) + [UpToNul(p.value)] else MasterNames(ps)
  {
    assert (ps + [p])[..|ps|] == ps;
  }

  lemma MasterNamesPickOneMore(ps: seq<Part>, x: Part)
    requires Picked(ps, HasTag(MAST), CutValue(), MasterNames(ps))
    ensures Picked(ps + [x], HasTag(MAST), CutValue(), MasterNames(ps + [x]))
  {
    PickedSnoc(ps, x, HasTag(MAST), CutValue(), MasterNames(ps));
    MasterNamesOneMore(ps, x);
  }

  /** The master names are those of exactly the MAST subrecords, up to the NUL and in order. */
  lemma {:induction false} MasterNamesPick(ps: seq<Part>)
    ensures Picked(ps, HasTag(MAST), CutValue(), MasterNames(ps))
  {
    if ps == [] {
      PickedNone(HasTag(MAST), CutValue());
    } else {
      var front, last := ps[..|ps| - 1], ps[|ps| - 1];
      assert ps == front + [last];
      MasterNamesPick(front);
      MasterNamesPickOneMore(front, last);
    }
  }

  predicate MasterNameOk(raw: Blob, rules: NameRules) {
    && raw != [] && |raw| <= MAX_MASTER_NAME_BYTES
    && rules.decode(raw).Some? && rules.plain(rules.decode(raw).value)
  }

  predicate MasterNamesOk(raws: seq<Blob>, rules: NameRules) {
    && (forall i :: 0 <= i < |raws| ==> MasterNameOk(raws[i], rules))
    && forall i, j :: 0 <= i < j < |raws| ==>
         rules.fold(rules.decode(raws[i]).value) != rules.fold(rules.decode(raws[j]).value)
  }

  function Decoded(raws: seq<Blob>, rules: NameRules): (names: seq<string>)
    requires MasterNamesOk(raws, rules)
    ensures |names| == |raws|
    ensures forall i :: 0 <= i < |raws| ==> names[i] == rules.decode(raws[i]).value
  {
    seq(|raws|, i requires 0 <= i < |raws| => rules.decode(raws[i]).value)
  }

  /** The header payload of a file that starts with a TES3 record. */
  function HeaderPayload(blob: Blob): Option<Blob> {
    if |blob| < RECORD_HEADER || blob[..4] != TES3 then None
    else
      var size := Unpack(blob[4..8]);
      if size > MAX_RECORD_BYTES || size > |blob| - RECORD_HEADER then None else Some(blob[16..16 + size])
  }

  /** What a file's header says about its masters: the MAST names in order, or nothing
      where the header is broken, a name is inadmissible or two names fold together. */
  function MasterTable(blob: Blob, rules: NameRules): Option<seq<string>> {
    var payload := HeaderPayload(blob);
    if payload.None? || ParseParts(payload.value).None? then None
    else
      var raws := MasterNames(ParseParts(payload.value).value);
      if MasterNamesOk(raws, rules) then Some(Decoded(raws, rules)) else None
  }

  /** The file begins with a printed header record; whatever follows is not looked at. */
  ghost predicate BeginsWith(blob: Blob, r: Rec) {
    r.tag == TES3 && RecordFits(r, MAX_RECORD_BYTES) && EncodeRecord(r) <= blob
  }

  lemma HeaderIsRead(blob: Blob, r: Rec)
    requires BeginsWith(blob, r)
    ensures HeaderPayload(blob) == Some(EncodeParts(r.parts)) && ParseParts(EncodeParts(r.parts)) == Some(r.parts)
  {
    var payload := EncodeParts(r.parts);
    var n := |EncodeRecord(r)|;
    U32RoundTrip(|payload|);
    PartsPrintThenParse(r.parts);
    RecordLayout(r.tag, Pack(|payload|, 4), Pack(r.unknown, 4), Pack(r.flags, 4), payload, blob[n..], blob);
  }

  lemma HeaderIsPrinted(blob: Blob, r: Rec)
    requires HeaderPayload(blob) == Some(EncodeParts(r.parts)) && r.tag == TES3
    requires r.unknown == Unpack(blob[8..12]) && r.flags == Unpack(blob[12..16])
    ensures EncodeRecord(r) <= blob
  {
    var payload := EncodeParts(r.parts);
    var n := 16 + |payload|;
    U32Rebuild(blob[4..8]);
    U32Rebuild(blob[8..12]);
    U32Rebuild(blob[12..16]);
    RecordSlices(blob, |payload|);
    assert EncodeRecord(r) + blob[n..] == blob;
  }

  lemma ReadIsHeader(blob: Blob) returns (r: Rec)
    requires HeaderPayload(blob).Some? && ParseParts(HeaderPayload(blob).value).Some?
    ensures BeginsWith(blob, r) && EncodeParts(r.parts) == HeaderPayload(blob).value
  {
    var payload := HeaderPayload(blob).value;
    var parts := ParseParts(payload).value;
    PartsParseThenPrint(payload, parts);
    r := Rec(TES3, Unpack(blob[8..12]), Unpack(blob[12..16]), parts);
    U32Rebuild(blob[8..12]);
    U32Rebuild(blob[12..16]);
    HeaderIsPrinted(blob, r);
  }

  /** A file has these masters exactly if it begins with a header record whose MAST names, all
      admissible and different, are these. */
  lemma MastersExactly(blob: Blob, rules: NameRules, names: seq<string>)
    ensures MasterTable(blob, rules) == Some(names) <==>
            exists r :: BeginsWith(blob, r) && MasterNamesOk(MasterNames(r.parts), rules)
                        && Decoded(MasterNames(r.parts), rules) == names
  {
    if MasterTable(blob, rules) == Some(names) {
      var r := ReadIsHeader(blob);
      HeaderIsRead(blob, r);
    }
    if r :| BeginsWith(blob, r) && MasterNamesOk(MasterNames(r.parts), rules)
            && Decoded(MasterNames(r.parts), rules) == names {
      HeaderIsRead(blob, r);
    }
  }

  lemma MasterNamesSnoc(raws: seq<Blob>, raw: Blob, rules: NameRules)
    requires MasterNamesOk(raws, rules)
    ensures MasterNamesOk(raws + [raw], rules) <==>
            MasterNameOk(raw, rules)
            && forall i :: 0 <= i < |raws| ==>
                 rules.fold(Decoded(raws, rules)[i]) != rules.fold(rules.decode(raw).value)
    ensures MasterNamesOk(raws + [raw], rules) ==>
              Decoded(raws + [raw], rules) == Decoded(raws, rules) + [rules.decode(raw).value]
  {
    var all := raws + [raw];
    assert all[|raws|] == raw;
    assert forall i :: 0 <= i < |raws| ==> all[i] == raws[i];
    if MasterNamesOk(all, rules) {
      forall i | 0 <= i < |raws|
        ensures rules.fold(Decoded(raws, rules)[i]) != rules.fold(rules.decode(raw).value)
      {
        assert rules.fold(rules.decode(all[i]).value) != rules.fold(rules.decode(all[|raws|]).value);
      }
    } else if MasterNameOk(raw, rules) {
      var i, j :| 0 <= i < j < |all|
                  && rules.fold(rules.decode(all[i]).value) == rules.fold(rules.decode(all[j]).value);
      assert j == |raws|;
      assert rules.fold(Decoded(raws, rules)[i]) == rules.fold(rules.decode(raw).value);
    }
  }

  /** `_tes3_masters`. */
  method Masters(blob: Blob, rules: NameRules) returns (r: Option<seq<string>>)
    ensures r == MasterTable(blob, rules)
  {
    var header := HeaderPayload(blob);
    if header.None? {
      return None;
    }
    var payload := header.value;
    var masters: seq<string>, seen: set<string>, offset := [], {}, 0;
    ghost var parts: seq<Part> := [];
    assert payload[0..] == payload;
    PrependLaws(parts, [], ParseParts(payload));
    while offset < |payload|
      invariant 0 <= offset <= |payload|
      invariant ParseParts(payload) == Prepend(parts, ParseParts(payload[offset..]))
      invariant MasterNamesOk(MasterNames(parts), rules) && masters == Decoded(MasterNames(parts), rules)
      invariant SeenNames(seen, masters, rules)
    {
      var part := PartAt(payload, offset);
      if part.None? {
        return None;
      }
      offset := offset + PART_HEADER + |part.value.value|;
      PrependLaws(parts, [part.value], ParseParts(payload[offset..]));
      ghost var raws := MasterNames(parts);
      assert (parts + [part.value])[..|parts|] == parts;
      parts := parts + [part.value];
      RefusedMaster(payload, parts, payload[offset..], rules);
      if part.value.tag == MAST {
        var raw := UpToNul(part.value.value);
        MasterNamesSnoc(raws, raw, rules);
        if !MasterNameOk(raw, rules) || rules.fold(rules.decode(raw).value) in seen {
          return None;
        }
        var name := rules.decode(raw).value;
        SeenSnoc(masters, name, seen, rules);
        seen, masters := seen + {rules.fold(name)}, masters + [name];
      }
    }
    assert parts + [] == parts;
    return Some(masters);
  }

  /** The folded names of the masters so far. */
  ghost predicate SeenNames(seen: set<string>, masters: seq<string>, rules: NameRules) {
    forall n :: n in seen <==> exists i :: 0 <= i < |masters| && rules.fold(masters[i]) == n
  }

  lemma SeenSnoc(masters: seq<string>, name: string, seen: set<string>, rules: NameRules)
    requires SeenNames(seen, masters, rules)
    ensures SeenNames(seen + {rules.fold(name)}, masters + [name], rules)
  {
    var more := masters + [name];
    assert more[|masters|] == name;
    forall n
      ensures n in seen + {rules.fold(name)} <==> exists i :: 0 <= i < |more| && rules.fold(more[i]) == n
    {
      if i :| 0 <= i < |masters| && rules.fold(masters[i]) == n {
        assert more[i] == masters[i];
      }
    }
  }

  lemma RefusedMaster(payload: Blob, parts: seq<Part>, tail: Blob, rules: NameRules)
    requires ParseParts(payload) == Prepend(parts, ParseParts(tail))
    ensures !MasterNamesOk(MasterNames(parts), rules) && ParseParts(payload).Some? ==>
              !MasterNamesOk(MasterNames(ParseParts(payload).value), rules)
  {
    if ParseParts(payload).Some? {
      var rest := ParseParts(tail).value;
      MasterNamesConcat(parts, rest);
      var xs, all := MasterNames(parts), MasterNames(parts + rest);
      assert forall i :: 0 <= i < |xs| ==> all[i] == xs[i];
    }
  }

  /** What the baker has made sure of about a content file. */
  ghost predicate Bakeable(f: LoadoutFile, file: Blob, rules: NameRules) {
    && f.name != "" && rules.local(f.name) && f.size >= 0 && HexDigest(f.digest)
    && MasterTable(file, rules) == Some(f.masters)
  }

  lemma MastersHaveShape(f: LoadoutFile, file: Blob, rules: NameRules)
    requires rules.Faithful() && Bakeable(f, file, rules)
    ensures FoldDistinct(f.masters, rules.fold)
    ensures forall k :: 0 <= k < |f.masters| ==> MasterShape(f.masters[k], rules)
  {
    var raws := MasterNames(ParseParts(HeaderPayload(file).value).value);
    assert forall k :: 0 <= k < |raws| ==> MasterNameOk(raws[k], rules) && f.masters[k] == rules.decode(raws[k]).value;
  }

  /** End to end: when the baker accepts a loadout whose master lists were read from the files
      themselves, pack verification accepts the table recorded for it exactly when every
      content name is also bare by Windows rules; order and master tables never decide. */
  lemma BakedLoadoutVerifies(loadout: seq<LoadoutFile>, files: seq<Blob>, rules: NameRules)
    requires rules.Faithful()
    requires 1 <= |loadout| <= MAX_CONTENT_FILES && |files| == |loadout|
    requires FoldDistinct(FileNames(loadout), rules.fold)
    requires forall i :: 0 <= i < |loadout| ==> Bakeable(loadout[i], files[i], rules)
    requires PositionsOk(loadout, rules.fold)
    ensures TableOk(loadout, rules) <==> forall i :: 0 <= i < |loadout| ==> rules.plain(loadout[i].name)
  {
    forall i | 0 <= i < |loadout|
      ensures FoldDistinct(loadout[i].masters, rules.fold)
      ensures forall k :: 0 <= k < |loadout[i].masters| ==> MasterShape(loadout[i].masters[k], rules)
    {
      assert Bakeable(loadout[i], files[i], rules);
      MastersHaveShape(loadout[i], files[i], rules);
    }
    if TableOk(loadout, rules) {
      forall i | 0 <= i < |loadout|
        ensures rules.plain(loadout[i].name)
      {
        assert EntryOk(loadout, i, rules);
      }
    }
    if forall i :: 0 <= i < |loadout| ==> rules.plain(loadout[i].name) {
      forall i | 0 <= i < |loadout|
        ensures FileShape(loadout[i], rules)
      {
        assert Bakeable(loadout[i], files[i], rules);
      }
      CheckersAgree(loadout, rules);
    }
  }

  /** A name that only the host takes for bare, as a POSIX host does with a drive letter, is
      baked and then refused. */
  lemma DriveNameIsRefused(file: Blob, digest: string, rules: NameRules)
    requires rules.local("C:mod.esp") && !rules.plain("C:mod.esp")
    requires HexDigest(digest) && MasterTable(file, rules) == Some([])
    ensures var loadout := [LoadoutFile("C:mod.esp", |file|, digest, [])];
            && Bakeable(loadout[0], file, rules) && PositionsOk(loadout, rules.fold)
            && !TableOk(loadout, rules)
  {
    var loadout := [LoadoutFile("C:mod.esp", |file|, digest, [])];
    assert !EntryOk(loadout, 0, rules);
  }
}
