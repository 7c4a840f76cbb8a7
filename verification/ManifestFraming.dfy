/**
 The byte stream that a manifest is the SHA-256 of: a domain tag, then for every entry the
 label's length and bytes and the payload's length and bytes.
 */
module ManifestFraming {
  import opened Bytes
  import opened Seqs

  const HASH_DOMAIN: Blob :=
    [84, 69, 83, 51, 77, 80, 95, 67, 79, 78, 84, 69, 78, 84, 95, 80, 65, 67, 75, 95, 86, 50, 0]

  datatype Entry = Entry(name: Blob, payload: Blob)

  /** `add(label, payload)`. */
  function Frame(e: Entry): Blob {
    Pack(|e.name|, 4) + e.name + Pack(|e.payload|, 8) + e.payload
  }

  function Frames(es: seq<Entry>): Blob {
    FlatMap(Frame, es)
  }

  function Preimage(es: seq<Entry>): Blob {
    HASH_DOMAIN + Frames(es)
  }

  /** Lengths that `struct.pack` can write. */
  predicate Fits(e: Entry) {
    |e.name| < U32_LIMIT && |e.payload| < U64_LIMIT
  }

  predicate AllFit(es: seq<Entry>) {
    forall i :: 0 <= i < |es| ==> Fits(es[i])
  }

  /** The four updates of the digest for one entry. */
  method Add(stream: Blob, e: Entry) returns (r: Blob)
    ensures r == stream + Frame(e)
  {
    r := stream + Pack(|e.name|, 4);
    r := r + e.name;
    r := r + Pack(|e.payload|, 8);
    r := r + e.payload;
  }

  /** Reading the frames back. */
  function Unframe(b: Blob): Option<seq<Entry>>
    decreases |b|
  {
    if b == [] then Some([])
    else if |b| < 4 then None
    else
      var n := Unpack(b[..4]);
      if |b| < 4 + n + 8 then None
      else
        var m := Unpack(b[4 + n..4 + n + 8]);
        if |b| < 12 + n + m then None
        else
          var rest := Unframe(b[12 + n + m..]);
          if rest.None? then None else Some([Entry(b[4..4 + n], b[12 + n..12 + n + m])] + rest.value)
  }

  /** Where the four fields of a frame and the bytes after it lie. */
  lemma FrameLayout(m: Blob, name: Blob, n: Blob, payload: Blob, rest: Blob, b: Blob)
    requires |m| == 4 && |n| == 8 && b == m + name + n + payload + rest
    ensures |b| == 12 + |name| + |payload| + |rest|
    ensures b[..4] == m
    ensures b[4..4 + |name|] == name
    ensures b[4 + |name|..4 + |name| + 8] == n
    ensures b[12 + |name|..12 + |name| + |payload|] == payload
    ensures b[12 + |name| + |payload|..] == rest
  {
  }

  lemma UnframeStep(e: Entry, rest: Blob, tail: seq<Entry>, b: Blob)
    requires Fits(e) && b == Frame(e) + rest && Unframe(rest) == Some(tail)
    ensures Unframe(b) == Some([e] + tail)
  {
    UnpackPack(|e.name|, 4);
    UnpackPack(|e.payload|, 8);
    FrameLayout(Pack(|e.name|, 4), e.name, Pack(|e.payload|, 8), e.payload, rest, b);
  }

  /** The stream decodes to the entries it was built from. */
  lemma {:induction false} FramesDecode(es: seq<Entry>)
    requires AllFit(es)
    ensures Unframe(Frames(es)) == Some(es)
  {
    if es != [] {
      var e, rest := es[0], Frames(es[1..]);
      assert Fits(e);
      FramesDecode(es[1..]);
      assert Frames(es) == Frame(e) + rest;
      UnframeStep(e, rest, es[1..], Frames(es));
      assert [e] + es[1..] == es;
    }
  }

  /** Two equal streams were built from the same entries. */
  lemma PreimageInjective(es: seq<Entry>, fs: seq<Entry>)
    requires AllFit(es) && AllFit(fs) && Preimage(es) == Preimage(fs)
    ensures es == fs
  {
    assert Frames(es) == Preimage(es)[|HASH_DOMAIN|..];
    assert Frames(fs) == Preimage(fs)[|HASH_DOMAIN|..];
    FramesDecode(es);
    FramesDecode(fs);
  }
}
