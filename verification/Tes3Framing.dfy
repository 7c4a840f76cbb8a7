/**
 TES3 plug-in files: a list of records, each a 16-byte header and a payload that is itself
 a list of subrecords with 8-byte headers.  Three programs walk this framing: the fixture
 reader (`records` and `subrecords`), the baker's scanner (`_tes3_record_data`) and the
 baker's master-table reader (`_tes3_masters`).
 */
module Tes3Framing {
  import opened Bytes

  const RECORD_HEADER := 16
  const PART_HEADER := 8
  const FIXTURE_BUDGET := 4 * 1024 * 1024
  const MAX_RECORD_BYTES := 256 * 1024 * 1024

  datatype Part = Part(tag: Blob, value: Blob)

  datatype Rec = Rec(tag: Blob, unknown: nat, flags: nat, parts: seq<Part>)

  // ----- Printing

  /** `sub(tag, value)`. */
  function EncodePart(p: Part): Blob {
    p.tag + Pack(|p.value|, 4) + p.value
  }

  function EncodeParts(ps: seq<Part>): Blob {
    if ps == [] then [] else EncodePart(ps[0]) + EncodeParts(ps[1..])
  }

  function EncodeRecord(r: Rec): Blob {
    var payload := EncodeParts(r.parts);
    r.tag + Pack(|payload|, 4) + Pack(r.unknown, 4) + Pack(r.flags, 4) + payload
  }

  function EncodeRecords(rs: seq<Rec>): Blob {
    if rs == [] then [] else EncodeRecord(rs[0]) + EncodeRecords(rs[1..])
  }

  ghost predicate PartFits(p: Part) {
    |p.tag| == 4 && |p.value| < U32_LIMIT
  }

  ghost predicate PartsFit(ps: seq<Part>) {
    forall i :: 0 <= i < |ps| ==> PartFits(ps[i])
  }

  /** A record the framing can hold: every length and header word is a 32-bit number, and
      the payload is no longer than `cap`. */
  ghost predicate RecordFits(r: Rec, cap: nat) {
    && |r.tag| == 4
    && r.unknown < U32_LIMIT
    && r.flags < U32_LIMIT
    && PartsFit(r.parts)
    && |EncodeParts(r.parts)| < U32_LIMIT
    && |EncodeParts(r.parts)| <= cap
  }

  ghost predicate RecordsFit(rs: seq<Rec>, cap: nat) {
    forall i :: 0 <= i < |rs| ==> RecordFits(rs[i], cap)
  }

  // ----- Parsing

  function Prepend<T>(xs: seq<T>, rest: Option<seq<T>>): Option<seq<T>> {
    if rest.None? then None else Some(xs + rest.value)
  }

  lemma PrependLaws<T>(xs: seq<T>, ys: seq<T>, rest: Option<seq<T>>)
    ensures Prepend(xs, Prepend(ys, rest)) == Prepend(xs + ys, rest)
    ensures Prepend([], rest) == rest
  {
    if rest.Some? {
      assert xs + (ys + rest.value) == (xs + ys) + rest.value;
      assert [] + rest.value == rest.value;
    }
  }

  function ParseParts(b: Blob): Option<seq<Part>>
    decreases |b|
  {
    if b == [] then Some([])
    else if |b| < PART_HEADER then None
    else
      var size := Unpack(b[4..8]);
      if size > |b| - PART_HEADER then None
      else Prepend([Part(b[..4], b[8..8 + size])], ParseParts(b[8 + size..]))
  }

  /** The framing of a whole file; a record whose payload is longer than `cap` is refused. */
  function ParseRecords(b: Blob, cap: nat): Option<seq<Rec>>
    decreases |b|
  {
    if b == [] then Some([])
    else if |b| < RECORD_HEADER then None
    else
      var size := Unpack(b[4..8]);
      if size > cap || size > |b| - RECORD_HEADER then None
      else
        var parts := ParseParts(b[16..16 + size]);
        if parts.None? then None
        else
          Prepend([Rec(b[..4], Unpack(b[8..12]), Unpack(b[12..16]), parts.value)],
                  ParseRecords(b[16 + size..], cap))
  }

  // ----- Round trips

  lemma PartLayout(tag: Blob, size: Blob, value: Blob, rest: Blob, b: Blob)
    requires |tag| == |size| == 4 && b == tag + size + value + rest
    ensures |b| >= 8 + |value|
    ensures b[..4] == tag && b[4..8] == size
    ensures b[8..8 + |value|] == value && b[8 + |value|..] == rest
  {
  }

  /** Where the five fields of a record and the bytes after it lie. */
  lemma RecordLayout(tag: Blob, size: Blob, unknown: Blob, flags: Blob, payload: Blob, rest: Blob, b: Blob)
    requires |tag| == |size| == |unknown| == |flags| == 4
    requires b == tag + size + unknown + flags + payload + rest
    ensures |b| >= 16 + |payload|
    ensures b[..4] == tag && b[4..8] == size && b[8..12] == unknown && b[12..16] == flags
    ensures b[16..16 + |payload|] == payload && b[16 + |payload|..] == rest
  {
  }

  /** A printed record: its tag, the length of its payload, two words, and the payload; numbers are
      written as `PackFour` says. */
  lemma PrintedRecord(r: Rec)
    requires |r.tag| == 4
    ensures var b, payload := EncodeRecord(r), EncodeParts(r.parts);
            && |b| == 16 + |payload|
            && b[..4] == r.tag && b[4..8] == Pack(|payload|, 4)
            && b[8..12] == Pack(r.unknown, 4) && b[12..16] == Pack(r.flags, 4) && b[16..] == payload
  {
    var payload := EncodeParts(r.parts);
    assert EncodeRecord(r) + [] == EncodeRecord(r);
    RecordLayout(r.tag, Pack(|payload|, 4), Pack(r.unknown, 4), Pack(r.flags, 4), payload, [], EncodeRecord(r));
  }

  lemma PartSlices(b: Blob, n: nat)
    requires 8 + n <= |b|
    ensures b == b[..4] + b[4..8] + b[8..8 + n] + b[8 + n..]
  {
  }

  lemma RecordSlices(b: Blob, n: nat)
    requires 16 + n <= |b|
    ensures b == b[..4] + b[4..8] + b[8..12] + b[12..16] + b[16..16 + n] + b[16 + n..]
  {
  }

  lemma {:induction false} PartsPrintThenParse(ps: seq<Part>)
    requires PartsFit(ps)
    ensures ParseParts(EncodeParts(ps)) == Some(ps)
    decreases |ps|
  {
    if ps != [] {
      var p, rest := ps[0], EncodeParts(ps[1..]);
      var b := EncodeParts(ps);
      assert PartFits(p);
      PartsPrintThenParse(ps[1..]);
      U32RoundTrip(|p.value|);
      PartLayout(p.tag, Pack(|p.value|, 4), p.value, rest, b);
      assert [p] + ps[1..] == ps;
    }
  }

  lemma {:induction false} PartsParseThenPrint(b: Blob, ps: seq<Part>)
    requires ParseParts(b) == Some(ps)
    ensures PartsFit(ps) && EncodeParts(ps) == b
    decreases |b|
  {
    if b != [] {
      var size := Unpack(b[4..8]);
      U32Rebuild(b[4..8]);
      var rest := ParseParts(b[8 + size..]).value;
      PartsParseThenPrint(b[8 + size..], rest);
      assert ps[1..] == rest;
      PartSlices(b, size);
    }
  }

  lemma {:induction false} RecordsPrintThenParse(rs: seq<Rec>, cap: nat)
    requires RecordsFit(rs, cap)
    ensures ParseRecords(EncodeRecords(rs), cap) == Some(rs)
    decreases |rs|
  {
    if rs != [] {
      var r, rest := rs[0], EncodeRecords(rs[1..]);
      var b, payload := EncodeRecords(rs), EncodeParts(rs[0].parts);
      assert RecordFits(r, cap);
      RecordsPrintThenParse(rs[1..], cap);
      PartsPrintThenParse(r.parts);
      U32RoundTrip(|payload|);
      U32RoundTrip(r.unknown);
      U32RoundTrip(r.flags);
      RecordLayout(r.tag, Pack(|payload|, 4), Pack(r.unknown, 4), Pack(r.flags, 4), payload, rest, b);
      assert [r] + rs[1..] == rs;
    }
  }

  lemma {:induction false} RecordsParseThenPrint(b: Blob, cap: nat, rs: seq<Rec>)
    requires ParseRecords(b, cap) == Some(rs)
    ensures RecordsFit(rs, cap) && EncodeRecords(rs) == b
    decreases |b|
  {
    if b != [] {
      var size := Unpack(b[4..8]);
      U32Rebuild(b[4..8]);
      U32Rebuild(b[8..12]);
      U32Rebuild(b[12..16]);
      var rest := ParseRecords(b[16 + size..], cap).value;
      RecordsParseThenPrint(b[16 + size..], cap, rest);
      PartsParseThenPrint(b[16..16 + size], rs[0].parts);
      assert rs[1..] == rest;
      RecordSlices(b, size);
    }
  }

  /** The framing is a bijection: a blob parses to `rs` exactly when `rs` fits the framing
      and prints to that blob. */
  lemma FramingBijection(b: Blob, cap: nat, rs: seq<Rec>)
    ensures ParseRecords(b, cap) == Some(rs) <==> RecordsFit(rs, cap) && EncodeRecords(rs) == b
  {
    if ParseRecords(b, cap) == Some(rs) {
      RecordsParseThenPrint(b, cap, rs);
    }
    if RecordsFit(rs, cap) && EncodeRecords(rs) == b {
      RecordsPrintThenParse(rs, cap);
    }
  }

  /** A payload cap at least as large as the file refuses nothing. */
  lemma {:induction false} CapIsIrrelevant(b: Blob, cap: nat, cap': nat)
    requires |b| <= cap && |b| <= cap'
    ensures ParseRecords(b, cap) == ParseRecords(b, cap')
    decreases |b|
  {
    if |b| >= RECORD_HEADER && Unpack(b[4..8]) <= |b| - RECORD_HEADER {
      CapIsIrrelevant(b[16 + Unpack(b[4..8])..], cap, cap');
    }
  }

  // ----- The fixture reader

  /** One `struct.unpack_from("<4sI", payload, offset)` with the slice that follows it; None
      where the header or the value runs past the end. */
  function PartAt(b: Blob, offset: nat): (r: Option<Part>)
    requires offset < |b|
    ensures r.None? ==> ParseParts(b[offset..]).None?
    ensures r.Some? ==> offset + PART_HEADER + |r.value.value| <= |b|
    ensures r.Some? ==> ParseParts(b[offset..]) ==
                        Prepend([r.value], ParseParts(b[offset + PART_HEADER + |r.value.value|..]))
  {
    var tail := b[offset..];
    if |b| - offset < PART_HEADER then None
    else
      assert tail[..4] == b[offset..offset + 4] && tail[4..8] == b[offset + 4..offset + 8];
      var size := Unpack(b[offset + 4..offset + 8]);
      var start := offset + PART_HEADER;
      if size > |b| - start then None
      else
        assert tail[8..8 + size] == b[start..start + size] && tail[8 + size..] == b[start + size..];
        Some(Part(b[offset..offset + 4], b[start..start + size]))
  }

  lemma TailSlice(b: Blob, offset: nat, i: nat, j: nat)
    requires i <= j && offset + j <= |b|
    ensures b[offset..][i..j] == b[offset + i..offset + j]
  {
  }

  datatype RawRecord = RawRecord(tag: Blob, unknown: nat, flags: nat, payload: Blob)

  /** A record's header and unparsed payload at the front of some bytes. */
  function HeadRecord(b: Blob, cap: nat): Option<RawRecord> {
    if |b| < RECORD_HEADER then None
    else
      var size := Unpack(b[4..8]);
      if size > cap || size > |b| - RECORD_HEADER then None
      else Some(RawRecord(b[..4], Unpack(b[8..12]), Unpack(b[12..16]), b[16..16 + size]))
  }

  /** The same at an offset, with the checks and slices of the source. */
  function RecordAt(b: Blob, offset: nat, cap: nat): (r: Option<RawRecord>)
    requires offset < |b|
    ensures r.Some? ==> offset + RECORD_HEADER + |r.value.payload| <= |b|
  {
    if |b| - offset < RECORD_HEADER then None
    else
      var size := Unpack(b[offset + 4..offset + 8]);
      var start := offset + RECORD_HEADER;
      if size > cap || size > |b| - start then None
      else Some(RawRecord(b[offset..offset + 4], Unpack(b[offset + 8..offset + 12]),
                          Unpack(b[offset + 12..offset + 16]), b[start..start + size]))
  }

  lemma RecordAtIsHead(b: Blob, offset: nat, cap: nat)
    requires offset < |b|
    ensures RecordAt(b, offset, cap) == HeadRecord(b[offset..], cap)
  {
    if |b| - offset >= RECORD_HEADER {
      TailSlice(b, offset, 0, 4);
      TailSlice(b, offset, 4, 8);
      TailSlice(b, offset, 8, 12);
      TailSlice(b, offset, 12, 16);
      var size := Unpack(b[offset + 4..offset + 8]);
      if size <= |b| - offset - RECORD_HEADER {
        TailSlice(b, offset, 16, 16 + size);
      }
    }
  }

  /** The framing of the rest of the file is the record at the offset and what follows it. */
  lemma RecordAtParses(b: Blob, offset: nat, cap: nat)
    requires offset < |b|
    ensures var r := RecordAt(b, offset, cap);
            ParseRecords(b[offset..], cap) ==
            if r.None? || ParseParts(r.value.payload).None? then None
            else Prepend([Framed(r.value, ParseParts(r.value.payload).value)],
                         ParseRecords(b[offset + RECORD_HEADER + |r.value.payload|..], cap))
  {
    RecordAtIsHead(b, offset, cap);
    var r := RecordAt(b, offset, cap);
    if r.Some? {
      TailSlice(b, offset, RECORD_HEADER + |r.value.payload|, |b| - offset);
    }
  }

  function Framed(raw: RawRecord, parts: seq<Part>): Rec {
    Rec(raw.tag, raw.unknown, raw.flags, parts)
  }

  /** Read one record's header and payload. */
  method NextRecord(b: Blob, offset: nat, cap: nat) returns (r: Option<RawRecord>)
    requires offset < |b|
    ensures r.Some? ==> offset + RECORD_HEADER + |r.value.payload| <= |b|
    ensures ParseRecords(b[offset..], cap) ==
            if r.None? || ParseParts(r.value.payload).None? then None
            else Prepend([Framed(r.value, ParseParts(r.value.payload).value)],
                         ParseRecords(b[offset + RECORD_HEADER + |r.value.payload|..], cap))
  {
    RecordAtParses(b, offset, cap);
    return RecordAt(b, offset, cap);
  }

  /** `subrecords`: an offset walks the payload, each step over at least one 8-byte header. */
  method Subrecords(payload: Blob) returns (r: Option<seq<Part>>)
    ensures r == ParseParts(payload)
  {
    var offset, parts := 0, [];
    assert payload[0..] == payload;
    PrependLaws(parts, [], ParseParts(payload));
    while offset < |payload|
      invariant 0 <= offset <= |payload|
      invariant ParseParts(payload) == Prepend(parts, ParseParts(payload[offset..]))
    {
      var part := PartAt(payload, offset);
      if part.None? {
        return None;
      }
      offset := offset + PART_HEADER + |part.value.value|;
      PrependLaws(parts, [part.value], ParseParts(payload[offset..]));
      parts := parts + [part.value];
    }
    assert parts + [] == parts;
    return Some(parts);
  }

  /** `records`: the fixture reader refuses input over 4 MiB and otherwise yields exactly
      the parse, each step over at least one 16-byte header. */
  method Records(blob: Blob) returns (r: Option<seq<Rec>>)
    ensures |blob| > FIXTURE_BUDGET ==> r == None
    ensures |blob| <= FIXTURE_BUDGET ==> r == ParseRecords(blob, U32_LIMIT)
  {
    if |blob| > FIXTURE_BUDGET {
      return None;
    }
    var offset, result := 0, [];
    assert blob[0..] == blob;
    PrependLaws(result, [], ParseRecords(blob, U32_LIMIT));
    while offset < |blob|
      invariant 0 <= offset <= |blob|
      invariant ParseRecords(blob, U32_LIMIT) == Prepend(result, ParseRecords(blob[offset..], U32_LIMIT))
    {
      var raw := NextRecord(blob, offset, U32_LIMIT);
      if raw.None? {
        return None;
      }
      offset := offset + RECORD_HEADER + |raw.value.payload|;
      var parts := Subrecords(raw.value.payload);
      if parts.None? {
        return None;
      }
      var rec := Framed(raw.value, parts.value);
      PrependLaws(result, [rec], ParseRecords(blob[offset..], U32_LIMIT));
      result := result + [rec];
    }
    assert result + [] == result;
    return Some(result);
  }

  method PrintParts(parts: seq<Part>) returns (payload: Blob)
    ensures payload == EncodeParts(parts)
  {
    payload := [];
    var rest := parts;
    while rest != []
      invariant payload + EncodeParts(rest) == EncodeParts(parts)
    {
      ghost var before := payload;
      payload := payload + EncodePart(rest[0]);
      assert before + (EncodePart(rest[0]) + EncodeParts(rest[1..])) == payload + EncodeParts(rest[1..]);
      rest := rest[1..];
    }
  }

  /** The rebuild loop of `prepare_fixture`: print every record into a growing buffer. */
  method Rebuild(rs: seq<Rec>) returns (blob: Blob)
    ensures blob == EncodeRecords(rs)
  {
    blob := [];
    var rest := rs;
    while rest != []
      invariant blob + EncodeRecords(rest) == EncodeRecords(rs)
    {
      var r, before := rest[0], blob;
      var payload := PrintParts(r.parts);
      blob := blob + (r.tag + Pack(|payload|, 4) + Pack(r.unknown, 4) + Pack(r.flags, 4) + payload);
      assert before + (EncodeRecord(r) + EncodeRecords(rest[1..])) == blob + EncodeRecords(rest[1..]);
      rest := rest[1..];
    }
  }
}
