/**
 The baker's two readers of TES3 files: the record scanner that feeds the winning-record
 table, and the header reader that lists a file's masters.  Decoding and case folding of
 names (cp1252, `casefold`) are parameters.
 */
module Tes3Scanner {
  import opened Bytes
  import opened Seqs
  import opened Tes3Framing

  const NAME: Blob := [78, 65, 77, 69]
  const DELE: Blob := [68, 69, 76, 69]
  const INDX: Blob := [73, 78, 68, 88]
  const SKIL: Blob := [83, 75, 73, 76]
  const MGEF: Blob := [77, 71, 69, 70]
  const TES3: Blob := [84, 69, 83, 51]
  const MAST: Blob := [77, 65, 83, 84]
  const MAX_MASTER_NAME_BYTES := 1024

  datatype Tes3Record = Tes3Record(kind: Blob, name: string, deleted: bool, subrecords: seq<Part>)

  /** `raw.decode("ascii", "strict")` succeeds. */
  predicate Ascii(b: Blob) {
    forall i :: 0 <= i < |b| ==> b[i] < 128
  }

  /** `value.split(b"\0", 1)[0]`. */
  function UpToNul(b: Blob): Blob {
    if b == [] || b[0] == 0 then [] else [b[0]] + UpToNul(b[1..])
  }

  /** It is what stands before the first NUL, or everything. */
  lemma {:induction false} UpToNulMeans(b: Blob)
    ensures UpToNul(b) <= b && forall i :: 0 <= i < |UpToNul(b)| ==> b[i] != 0
    ensures |UpToNul(b)| < |b| ==> b[|UpToNul(b)|] == 0
  {
    if b != [] && b[0] != 0 {
      UpToNulMeans(b[1..]);
      var rest := UpToNul(b[1..]);
      assert UpToNul(b) == [b[0]] + rest;
      assert forall i :: 1 <= i < |rest| + 1 ==> b[i] == b[1..][i - 1];
    }
  }

  // ----- What a record is called

  /** The raw name carried by the first NAME subrecord. */
  function FirstName(ps: seq<Part>): Option<Blob> {
    if ps == [] then None
    else
      var earlier, last := FirstName(ps[..|ps| - 1]), ps[|ps| - 1];
      if earlier.Some? then earlier
      else if last.tag == NAME then Some(UpToNul(last.value))
      else None
  }

  /** It is the name of the first NAME subrecord, and absent when there is none. */
  lemma {:induction false} FirstNameMeans(ps: seq<Part>) returns (at: nat)
    ensures at <= |ps| && forall k :: 0 <= k < at ==> ps[k].tag != NAME
    ensures FirstName(ps) == if at < |ps| then Some(UpToNul(ps[at].value)) else None
    ensures at < |ps| ==> ps[at].tag == NAME
  {
    if ps == [] {
      at := 0;
    } else {
      var front := ps[..|ps| - 1];
      at := FirstNameMeans(front);
      assert forall k :: 0 <= k < |front| ==> front[k] == ps[k];
      if at == |front| && ps[at].tag != NAME {
        at := |ps|;
      }
    }
  }

  lemma {:induction false} FirstNameIsStable(xs: seq<Part>, ys: seq<Part>)
    requires FirstName(xs).Some?
    ensures FirstName(xs + ys) == FirstName(xs)
  {
    if ys == [] {
      assert xs + ys == xs;
    } else {
      FirstNameIsStable(xs, ys[..|ys| - 1]);
      assert (xs + ys)[..|xs + ys| - 1] == xs + ys[..|ys| - 1];
    }
  }

  predicate Deleted(ps: seq<Part>) {
    exists i :: 0 <= i < |ps| && ps[i].tag == DELE
  }

  function Indexes(ps: seq<Part>): seq<Blob> {
    if ps == [] then []
    else
      var last := ps[|ps| - 1];
      Indexes(ps[..|ps| - 1]) + if last.tag == INDX then [last.value] else []
  }

  function Digits(n: nat): (s: string)
    ensures s != ""
  {
    if n < 10 then [('0' as int + n) as char] else Digits(n / 10) + [('0' as int + n % 10) as char]
  }

  /** `str(struct.unpack("<i", value)[0])`. */
  function SignedText(value: Blob): (s: string)
    requires |value| == 4
    ensures s != ""
  {
    var n := Unpack(value);
    if n < 0x8000_0000 || n >= U32_LIMIT then Digits(n) else "-" + Digits(U32_LIMIT - n)
  }

  /** Reading decimal digits. */
  function Decimal(s: string): nat
    requires forall i :: 0 <= i < |s| ==> '0' <= s[i] <= '9'
  {
    if s == "" then 0 else 10 * Decimal(s[..|s| - 1]) + (s[|s| - 1] as int - '0' as int)
  }

  lemma {:induction false} DigitsMean(n: nat)
    ensures forall i :: 0 <= i < |Digits(n)| ==> '0' <= Digits(n)[i] <= '9'
    ensures Decimal(Digits(n)) == n && (n > 0 ==> Digits(n)[0] != '0')
  {
    if n >= 10 {
      DigitsMean(n / 10);
      var front, last := Digits(n / 10), ('0' as int + n % 10) as char;
      assert Digits(n) == front + [last] && (front + [last])[..|front|] == front;
    } else {
      assert Digits(n)[..0] == "";
    }
  }

  /** The text of a 32-bit number in two's complement. */
  lemma SignedTextMeans(value: Blob)
    requires |value| == 4
    ensures Unpack(value) < U32_LIMIT
    ensures Unpack(value) < 0x8000_0000 ==> SignedText(value) == Digits(Unpack(value))
    ensures Unpack(value) >= 0x8000_0000 ==> SignedText(value) == "-" + Digits(U32_LIMIT - Unpack(value))
  {
    U32Rebuild(value);
  }

  function HasTag(tag: Blob): Part -> bool {
    (p: Part) => p.tag == tag
  }

  function ValueOf(): Part -> Blob {
    (p: Part) => p.value
  }

  lemma IndexesSnoc(ps: seq<Part>, p: Part)
    ensures Indexes(ps + [p]) == if p.tag == INDX then Indexes(ps) + [p.value] else Indexes(ps)
  {
    assert (ps + [p])[..|ps|] == ps;
  }

  lemma IndexesPickOneMore(ps: seq<Part>, x: Part)
    requires Picked(ps, HasTag(INDX), ValueOf(), Indexes(ps))
    ensures Picked(ps + [x], HasTag(INDX), ValueOf(), Indexes(ps + [x]))
  {
    PickedSnoc(ps, x, HasTag(INDX), ValueOf(), Indexes(ps));
    IndexesSnoc(ps, x);
  }

  /** The indexes are the values of exactly the INDX subrecords, in order. */
  lemma {:induction false} IndexesPick(ps: seq<Part>)
    ensures Picked(ps, HasTag(INDX), ValueOf(), Indexes(ps))
  {
    if ps == [] {
      PickedNone(HasTag(INDX), ValueOf());
    } else {
      var front, last := ps[..|ps| - 1], ps[|ps| - 1];
      assert ps == front + [last];
      IndexesPick(front);
      IndexesPickOneMore(front, last);
    }
  }

  /** The name a record is stored under; the empty name means the record is skipped. */
  function RecordName(tag: Blob, ps: seq<Part>, decode: Blob -> Option<string>): string {
    var raw := FirstName(ps);
    if raw.Some? then (if decode(raw.value).Some? then decode(raw.value).value else "")
    else if (tag == SKIL || tag == MGEF) && |Indexes(ps)| == 1 && |Indexes(ps)[0]| == 4
    then SignedText(Indexes(ps)[0])
    else ""
  }

  /** Nothing in these subrecords makes the scanner give up. */
  predicate Readable(ps: seq<Part>, decode: Blob -> Option<string>) {
    AsciiTags(ps) && (FirstName(ps).Some? ==> decode(FirstName(ps).value).Some?)
  }

  predicate AsciiTags(ps: seq<Part>) {
    forall i :: 0 <= i < |ps| ==> Ascii(ps[i].tag)
  }

  predicate AllReadable(rs: seq<Rec>, decode: Blob -> Option<string>) {
    forall i :: 0 <= i < |rs| ==> Ascii(rs[i].tag) && Readable(rs[i].parts, decode)
  }

  /** The named records of a parse, in file order. */
  function Named(rs: seq<Rec>, decode: Blob -> Option<string>): seq<Tes3Record> {
    if rs == [] then []
    else
      var last := rs[|rs| - 1];
      var name := RecordName(last.tag, last.parts, decode);
      Named(rs[..|rs| - 1], decode) +
      (if name != "" then [Tes3Record(last.tag, name, Deleted(last.parts), last.parts)] else [])
  }

  function IsNamed(decode: Blob -> Option<string>): Rec -> bool {
    (r: Rec) => RecordName(r.tag, r.parts, decode) != ""
  }

  function AsRecord(decode: Blob -> Option<string>): Rec -> Tes3Record {
    (r: Rec) => Tes3Record(r.tag, RecordName(r.tag, r.parts, decode), Deleted(r.parts), r.parts)
  }

  lemma NamedSnoc(rs: seq<Rec>, r: Rec, decode: Blob -> Option<string>)
    ensures Named(rs + [r], decode) ==
            if IsNamed(decode)(r) then Named(rs, decode) + [AsRecord(decode)(r)] else Named(rs, decode)
  {
    assert (rs + [r])[..|rs|] == rs;
  }

  lemma NamedPicksOneMore(rs: seq<Rec>, decode: Blob -> Option<string>, x: Rec)
    requires Picked(rs, IsNamed(decode), AsRecord(decode), Named(rs, decode))
    ensures Picked(rs + [x], IsNamed(decode), AsRecord(decode), Named(rs + [x], decode))
  {
    PickedSnoc(rs, x, IsNamed(decode), AsRecord(decode), Named(rs, decode));
    NamedSnoc(rs, x, decode);
  }

  /** Exactly the records with a name, each once and in file order. */
  lemma {:induction false} NamedPicks(rs: seq<Rec>, decode: Blob -> Option<string>)
    ensures Picked(rs, IsNamed(decode), AsRecord(decode), Named(rs, decode))
  {
    if rs == [] {
      PickedNone(IsNamed(decode), AsRecord(decode));
    } else {
      var front, last := rs[..|rs| - 1], rs[|rs| - 1];
      assert rs == front + [last];
      NamedPicks(front, decode);
      NamedPicksOneMore(front, decode, last);
    }
  }

  /** What a readable record is called: by its first NAME up to the NUL; a skill or magic effect
      without one by the number in its only INDX, if that has four bytes; no other record. */
  lemma RecordNameMeans(tag: Blob, ps: seq<Part>, decode: Blob -> Option<string>) returns (at: nat)
    requires Readable(ps, decode)
    ensures at <= |ps| && forall j :: 0 <= j < at ==> ps[j].tag != NAME
    ensures at < |ps| ==> ps[at].tag == NAME && decode(UpToNul(ps[at].value)) == Some(RecordName(tag, ps, decode))
    ensures at == |ps| && (tag == SKIL || tag == MGEF) && |Indexes(ps)| == 1 && |Indexes(ps)[0]| == 4 ==>
              RecordName(tag, ps, decode) == SignedText(Indexes(ps)[0])
    ensures at == |ps| && !((tag == SKIL || tag == MGEF) && |Indexes(ps)| == 1 && |Indexes(ps)[0]| == 4) ==>
              RecordName(tag, ps, decode) == ""
  {
    at := FirstNameMeans(ps);
  }

  /** The scan as a statement about the framing: the named records of the one parse, or a
      refusal when the framing is broken or a tag or name cannot be decoded. */
  function Scan(blob: Blob, decode: Blob -> Option<string>): Option<seq<Tes3Record>> {
    var rs := ParseRecords(blob, MAX_RECORD_BYTES);
    if rs.Some? && AllReadable(rs.value, decode) then Some(Named(rs.value, decode)) else None
  }

  /** The name the inner loop has found so far. */
  function NameOf(ps: seq<Part>, decode: Blob -> Option<string>): Option<string> {
    var raw := FirstName(ps);
    if raw.Some? then decode(raw.value) else None
  }

  lemma AsciiSnoc(ps: seq<Part>, p: Part)
    ensures AsciiTags(ps + [p]) <==> AsciiTags(ps) && Ascii(p.tag)
  {
    assert (ps + [p])[|ps|] == p;
    assert forall i :: 0 <= i < |ps| ==> (ps + [p])[i] == ps[i];
  }

  lemma DeletedSnoc(ps: seq<Part>, p: Part)
    ensures Deleted(ps + [p]) <==> Deleted(ps) || p.tag == DELE
  {
    if Deleted(ps) {
      var i :| 0 <= i < |ps| && ps[i].tag == DELE;
      assert (ps + [p])[i].tag == DELE;
    }
    assert (ps + [p])[|ps|] == p;
  }

  /** What one more subrecord changes. */
  lemma ScanSnoc(ps: seq<Part>, p: Part, decode: Blob -> Option<string>)
    requires Readable(ps, decode)
    ensures var name := NameOf(ps, decode);
            var found := if name.None? && p.tag == NAME then decode(UpToNul(p.value)) else name;
            && (Readable(ps + [p], decode) <==>
                Ascii(p.tag) && (NameOf(ps, decode).None? && p.tag == NAME ==> found.Some?))
            && NameOf(ps + [p], decode) == found
            && Deleted(ps + [p]) == (Deleted(ps) || p.tag == DELE)
  {
    AsciiSnoc(ps, p);
    DeletedSnoc(ps, p);
  }

  /** An unreadable prefix of subrecords makes the whole payload unreadable. */
  lemma UnreadablePrefix(payload: Blob, ps: seq<Part>, tail: Blob, decode: Blob -> Option<string>)
    requires ParseParts(payload) == Prepend(ps, ParseParts(tail))
    ensures !Readable(ps, decode) && ParseParts(payload).Some? ==> !Readable(ParseParts(payload).value, decode)
  {
    if ParseParts(payload).Some? {
      var rest := ParseParts(tail).value;
      assert forall i :: 0 <= i < |ps| ==> (ps + rest)[i] == ps[i];
      if FirstName(ps).Some? {
        FirstNameIsStable(ps, rest);
      }
    }
  }

  /** The payload is read up to an offset into these subrecords. */
  ghost predicate ReadTo(payload: Blob, offset: nat, parts: seq<Part>) {
    offset <= |payload| && ParseParts(payload) == Prepend(parts, ParseParts(payload[offset..]))
  }

  lemma ReadNothing(payload: Blob)
    ensures ReadTo(payload, 0, [])
  {
    assert payload[0..] == payload;
    PrependLaws([], [], ParseParts(payload));
  }

  lemma ReadAll(payload: Blob, parts: seq<Part>)
    requires ReadTo(payload, |payload|, parts)
    ensures ParseParts(payload) == Some(parts)
  {
    assert parts + [] == parts;
  }

  /** The inner loop of `_tes3_record_data`: subrecords, first name and deletion mark. */
  method ScanPayload(payload: Blob, decode: Blob -> Option<string>)
    returns (ok: bool, parts: seq<Part>, name: Option<string>, deleted: bool)
    ensures ok <==> ParseParts(payload).Some? && Readable(ParseParts(payload).value, decode)
    ensures ok ==> ParseParts(payload) == Some(parts) && deleted == Deleted(parts)
    ensures ok ==> name == NameOf(parts, decode)
  {
    ok, parts, name, deleted := false, [], None, false;
    var offset := 0;
    ReadNothing(payload);
    while offset < |payload|
      invariant ReadTo(payload, offset, parts)
      invariant Readable(parts, decode)
      invariant deleted == Deleted(parts) && name == NameOf(parts, decode)
    {
      var next := PartAt(payload, offset);
      if next.None? {
        return;
      }
      var part := next.value;
      ScanSnoc(parts, part, decode);
      offset := offset + PART_HEADER + |part.value|;
      PrependLaws(parts, [part], ParseParts(payload[offset..]));
      parts := parts + [part];
      UnreadablePrefix(payload, parts, payload[offset..], decode);
      if !Ascii(part.tag) {
        return;
      }
      if part.tag == NAME && name.None? {
        name := decode(UpToNul(part.value));
        if name.None? {
          return;
        }
      } else if part.tag == DELE {
        deleted := true;
      }
    }
    ReadAll(payload, parts);
    ok := true;
  }

  /** `_tes3_record_data`: it yields exactly the named records of the framing's parse. */
  method RecordData(blob: Blob, decode: Blob -> Option<string>) returns (r: Option<seq<Tes3Record>>)
    ensures r == Scan(blob, decode)
  {
    var offset, result := 0, [];
    ghost var seen := [];
    assert blob[0..] == blob;
    PrependLaws(seen, [], ParseRecords(blob, MAX_RECORD_BYTES));
    while offset < |blob|
      invariant 0 <= offset <= |blob|
      invariant ParseRecords(blob, MAX_RECORD_BYTES) == Prepend(seen, ParseRecords(blob[offset..], MAX_RECORD_BYTES))
      invariant AllReadable(seen, decode)
      invariant result == Named(seen, decode)
    {
      var raw := NextRecord(blob, offset, MAX_RECORD_BYTES);
      if raw.None? {
        return None;
      }
      var tag, payload := raw.value.tag, raw.value.payload;
      offset := offset + RECORD_HEADER + |payload|;
      var ok, parts, name, deleted := ScanPayload(payload, decode);
      ghost var before := seen;
      if ParseParts(payload).Some? {
        ghost var rec := Framed(raw.value, ParseParts(payload).value);
        PrependLaws(seen, [rec], ParseRecords(blob[offset..], MAX_RECORD_BYTES));
        seen := seen + [rec];
        UnreadableRecord(blob, seen, blob[offset..], decode);
      }
      if !Ascii(tag) || !ok {
        return None;
      }
      assert seen[..|seen| - 1] == before;
      if name.None? && (tag == SKIL || tag == MGEF) {
        var indexes := Indexes(parts);
        if |indexes| == 1 && |indexes[0]| == 4 {
          name := Some(SignedText(indexes[0]));
        }
      }
      if name.Some? && name.value != "" {
        result := result + [Tes3Record(tag, name.value, deleted, parts)];
      }
    }
    assert seen + [] == seen;
    return Some(result);
  }

  lemma UnreadableRecord(blob: Blob, rs: seq<Rec>, tail: Blob, decode: Blob -> Option<string>)
    requires rs != []
    requires ParseRecords(blob, MAX_RECORD_BYTES) == Prepend(rs, ParseRecords(tail, MAX_RECORD_BYTES))
    ensures var last := rs[|rs| - 1];
            !(Ascii(last.tag) && Readable(last.parts, decode)) ==> Scan(blob, decode).None?
  {
    var all := ParseRecords(blob, MAX_RECORD_BYTES);
    assert all.Some? ==> all.value[|rs| - 1] == rs[|rs| - 1];
  }

  /** On every input within the fixture budget the scanner and the fixture reader see the
      same records: the scan is the named part of the fixture parse. */
  lemma ScannerSeesFixtureRecords(blob: Blob, decode: Blob -> Option<string>)
    requires |blob| <= FIXTURE_BUDGET
    ensures Scan(blob, decode).Some? <==>
            ParseRecords(blob, U32_LIMIT).Some? && AllReadable(ParseRecords(blob, U32_LIMIT).value, decode)
    ensures Scan(blob, decode).Some? ==>
              Scan(blob, decode).value == Named(ParseRecords(blob, U32_LIMIT).value, decode)
  {
    CapIsIrrelevant(blob, U32_LIMIT, MAX_RECORD_BYTES);
  }

  /** Printing readable records that fit and scanning the result gives the named ones back. */
  lemma PrintThenScan(rs: seq<Rec>, decode: Blob -> Option<string>)
    requires RecordsFit(rs, MAX_RECORD_BYTES)
    ensures Scan(EncodeRecords(rs), decode) == if AllReadable(rs, decode) then Some(Named(rs, decode)) else None
  {
    RecordsPrintThenParse(rs, MAX_RECORD_BYTES);
  }
}
