/** Byte strings and the little-endian integers that `struct.pack` writes into them. */
module Bytes {

  type Byte = b: int | 0 <= b < 256
  type Blob = seq<Byte>

  const U32_LIMIT := 0x1_0000_0000
  const U64_LIMIT := 0x1_0000_0000_0000_0000

  datatype Option<+T> = None | Some(value: T)

  function Pow256(width: nat): nat {
    if width == 0 then 1 else 256 * Pow256(width - 1)
  }

  /** `struct.pack("<I", n)` for width 4 and `struct.pack("<Q", n)` for width 8. */
  function Pack(n: nat, width: nat): (b: Blob)
    ensures |b| == width
  {
    if width == 0 then [] else [n % 256] + Pack(n / 256, width - 1)
  }

  lemma PackStep(n: nat, width: nat)
    requires width > 0
    ensures Pack(n, width) == [n % 256] + Pack(n / 256, width - 1)
  {
  }

  /** The four bytes of a 32-bit number, the low one first. */
  lemma PackFour(n: nat)
    ensures Pack(n, 4) == [n % 256, n / 256 % 256, n / 256 / 256 % 256, n / 256 / 256 / 256 % 256]
  {
    var m := n / 256;
    var l := m / 256;
    PackStep(n, 4);
    PackStep(m, 3);
    PackStep(l, 2);
    PackStep(l / 256, 1);
  }

  /** `struct.unpack` of a little-endian unsigned integer of any width. */
  function Unpack(b: Blob): nat {
    if b == [] then 0 else b[0] + 256 * Unpack(b[1..])
  }

  lemma {:induction false} UnpackPack(n: nat, width: nat)
    requires n < Pow256(width)
    ensures Unpack(Pack(n, width)) == n
  {
    if width > 0 {
      UnpackPack(n / 256, width - 1);
      assert Pack(n, width)[1..] == Pack(n / 256, width - 1);
    }
  }

  lemma {:induction false} UnpackBound(b: Blob)
    ensures Unpack(b) < Pow256(|b|)
  {
    if b != [] {
      UnpackBound(b[1..]);
    }
  }

  lemma {:induction false} PackUnpack(b: Blob)
    ensures Pack(Unpack(b), |b|) == b
  {
    if b != [] {
      PackUnpack(b[1..]);
      var n, rest := Unpack(b), Unpack(b[1..]);
      assert n % 256 == b[0] && n / 256 == rest;
      calc {
        Pack(n, |b|);
        [n % 256] + Pack(n / 256, |b| - 1);
        [b[0]] + b[1..];
        b;
      }
    }
  }

  /** What a 32-bit length field written by `Pack` reads back as. */
  lemma U32RoundTrip(n: nat)
    requires n < U32_LIMIT
    ensures Unpack(Pack(n, 4)) == n
  {
    UnpackPack(n, 4);
  }

  lemma U32Rebuild(b: Blob)
    requires |b| == 4
    ensures Unpack(b) < U32_LIMIT && Pack(Unpack(b), 4) == b
  {
    UnpackBound(b);
    PackUnpack(b);
  }
}
