/**
 Stable 64-bit identities of record names: FNV-1a over the lower-cased ASCII name.  The
 baker and the capture scripts each compute them.
 */
module RecordIds {
  import opened Bytes

  const OFFSET_BASIS := 14695981039346656037
  const PRIME := 1099511628211
  const INVERSE := 14886173955864302971

  /** Bitwise exclusive or. */
  function Xor(x: nat, y: nat): nat
    decreases x + y
  {
    if x == 0 && y == 0 then 0
    else 2 * Xor(x / 2, y / 2) + if x % 2 != y % 2 then 1 else 0
  }

  lemma {:induction false} XorUndo(x: nat, y: nat)
    ensures Xor(Xor(x, y), y) == x
    decreases x + y
  {
    if x > 0 || y > 0 {
      XorUndo(x / 2, y / 2);
      var z, bit := Xor(x, y), if x % 2 != y % 2 then 1 else 0;
      assert z / 2 == Xor(x / 2, y / 2) && z % 2 == bit;
    }
  }

  /** Bit k of a number. */
  function Bit(n: nat, k: nat): nat {
    if k == 0 then n % 2 else Bit(n / 2, k - 1)
  }

  /** Every bit is set exactly if it is in one of the two numbers. */
  lemma {:induction false} XorBits(x: nat, y: nat, k: nat)
    ensures Bit(Xor(x, y), k) == if Bit(x, k) != Bit(y, k) then 1 else 0
    decreases k
  {
    var z, bit := Xor(x, y), if x % 2 != y % 2 then 1 else 0;
    assert z == 2 * Xor(x / 2, y / 2) + bit;
    assert z / 2 == Xor(x / 2, y / 2) && z % 2 == bit;
    if k > 0 {
      XorBits(x / 2, y / 2, k - 1);
    }
  }

  lemma {:induction false} XorCommutes(x: nat, y: nat)
    ensures Xor(x, y) == Xor(y, x)
    decreases x + y
  {
    if x > 0 || y > 0 {
      XorCommutes(x / 2, y / 2);
    }
  }

  function Pow2(n: nat): nat {
    if n == 0 then 1 else 2 * Pow2(n - 1)
  }

  lemma {:induction false} XorBound(x: nat, y: nat, n: nat)
    requires x < Pow2(n) && y < Pow2(n)
    ensures Xor(x, y) < Pow2(n)
  {
    if n > 0 && (x > 0 || y > 0) {
      XorBound(x / 2, y / 2, n - 1);
    }
  }

  lemma Pow2Of64()
    ensures Pow2(64) == U64_LIMIT
  {
    assert Pow2(8) == 0x100;
    assert Pow2(16) == 0x1_0000;
    assert Pow2(24) == 0x100_0000;
    assert Pow2(32) == 0x1_0000_0000;
    assert Pow2(40) == 0x100_0000_0000;
    assert Pow2(48) == 0x1_0000_0000_0000;
    assert Pow2(56) == 0x100_0000_0000_0000;
    assert Pow2(64) == 0x1_0000_0000_0000_0000;
  }

  /** One round of FNV-1a on a 64-bit state. */
  function Round(h: nat, b: Byte): nat {
    Xor(h, b) * PRIME % U64_LIMIT
  }

  function Unround(h: nat, b: Byte): nat {
    Xor(h * INVERSE % U64_LIMIT, b)
  }

  lemma AddMultiple(n: int, x: nat, c: int)
    requires x < U64_LIMIT && n == x + c * U64_LIMIT
    ensures n % U64_LIMIT == x
  {
  }

  /** Multiplying by one of two numbers whose product is one more than a multiple of 2^64
      undoes multiplying by the other. */
  lemma MultiplyBy(x: nat, p: nat, i: nat, k: nat)
    requires x < U64_LIMIT && p * i == 1 + k * U64_LIMIT
    ensures x * p % U64_LIMIT * i % U64_LIMIT == x
  {
    var q, r := x * p / U64_LIMIT, x * p % U64_LIMIT;
    assert x * p == q * U64_LIMIT + r;
    calc {
      r * i;
      (x * p - q * U64_LIMIT) * i;
      x * (p * i) - q * i * U64_LIMIT;
      x * (1 + k * U64_LIMIT) - q * i * U64_LIMIT;
      x + (x * k - q * i) * U64_LIMIT;
    }
    AddMultiple(r * i, x, x * k - q * i);
  }

  lemma MultiplyBack(x: nat)
    requires x < U64_LIMIT
    ensures x * PRIME % U64_LIMIT * INVERSE % U64_LIMIT == x
    ensures x * INVERSE % U64_LIMIT * PRIME % U64_LIMIT == x
  {
    MultiplyBy(x, PRIME, INVERSE, 887285111055);
    MultiplyBy(x, INVERSE, PRIME, 887285111055);
  }

  /** Every round is a bijection on 64-bit states. */
  lemma RoundIsBijective(h: nat, b: Byte)
    requires h < U64_LIMIT
    ensures Round(h, b) < U64_LIMIT && Unround(Round(h, b), b) == h
    ensures Unround(h, b) < U64_LIMIT && Round(Unround(h, b), b) == h
  {
    Pow2Of64();
    XorBound(h, b, 64);
    MultiplyBack(Xor(h, b));
    XorUndo(h, b);
    var m := h * INVERSE % U64_LIMIT;
    XorBound(m, b, 64);
    XorUndo(m, b);
    MultiplyBack(h);
  }

  lemma RoundSeparatesStates(g: nat, h: nat, b: Byte)
    requires g < U64_LIMIT && h < U64_LIMIT && Round(g, b) == Round(h, b)
    ensures g == h
  {
    RoundIsBijective(g, b);
    RoundIsBijective(h, b);
  }

  lemma RoundSeparatesBytes(h: nat, b: Byte, c: Byte)
    requires h < U64_LIMIT && Round(h, b) == Round(h, c)
    ensures b == c
  {
    Pow2Of64();
    XorBound(h, b, 64);
    XorBound(h, c, 64);
    MultiplyBack(Xor(h, b));
    MultiplyBack(Xor(h, c));
    XorCommutes(h, b);
    XorCommutes(h, c);
    XorUndo(b, h);
    XorUndo(c, h);
  }

  function Hash(bytes: Blob): (h: nat)
    ensures h < U64_LIMIT
  {
    if bytes == [] then OFFSET_BASIS else Round(Hash(bytes[..|bytes| - 1]), bytes[|bytes| - 1])
  }

  lemma {:induction false} XorZero(x: nat)
    ensures Xor(x, 0) == x
  {
    if x > 0 {
      XorZero(x / 2);
    }
  }

  lemma XorStep(a: nat, b: nat, c: nat, d: nat)
    requires b < 2 && d < 2
    ensures Xor(2 * a + b, 2 * c + d) == 2 * Xor(a, c) + if b != d then 1 else 0
  {
    if a == 0 && b == 0 && c == 0 && d == 0 {
      assert Xor(0, 0) == 0;
    }
  }

  /** Xor with a byte changes the low byte only: here 0x25 and 0x61. */
  lemma XorOfBasis()
    ensures Xor(OFFSET_BASIS, 97) == 0xCBF2_9CE4_8422_2344
  {
    var h := 0xCB_F29C_E484_2223;
    XorZero(h);
    XorStep(h, 0, 0, 0);
    XorStep(2 * h, 0, 0, 1);
    XorStep(4 * h, 1, 1, 1);
    XorStep(8 * h + 1, 0, 3, 0);
    XorStep(16 * h + 2, 0, 6, 0);
    XorStep(32 * h + 4, 1, 12, 0);
    XorStep(64 * h + 9, 0, 24, 0);
    XorStep(128 * h + 18, 1, 48, 1);
  }

  lemma HashOfOne(b: Byte)
    ensures Hash([b]) == Round(OFFSET_BASIS, b)
  {
    assert [b][..0] == [];
  }

  lemma RoundOfBasis()
    ensures Round(OFFSET_BASIS, 97) == 0xAF63_DC4C_8601_EC8C
  {
    XorOfBasis();
    AddMultiple(0xCBF2_9CE4_8422_2344 * PRIME, 0xAF63_DC4C_8601_EC8C, 875948729822);
  }

  /** The identities of the empty name and of the name `a`. */
  lemma FirstIdentities()
    ensures Hash([]) == 0xCBF2_9CE4_8422_2325
    ensures Hash([97]) == 0xAF63_DC4C_8601_EC8C
  {
    HashOfOne(97);
    RoundOfBasis();
  }

  /** Two byte strings that differ in exactly one position have different identities. */
  lemma {:induction false} OneByteNeverCollides(xs: Blob, ys: Blob, i: nat)
    requires |xs| == |ys| && i < |xs| && xs[i] != ys[i]
    requires forall k :: 0 <= k < |xs| && k != i ==> xs[k] == ys[k]
    ensures Hash(xs) != Hash(ys)
  {
    var n := |xs| - 1;
    if i == n {
      assert xs[..n] == ys[..n];
      if Hash(xs) == Hash(ys) {
        RoundSeparatesBytes(Hash(xs[..n]), xs[n], ys[n]);
      }
    } else {
      OneByteNeverCollides(xs[..n], ys[..n], i);
      if Hash(xs) == Hash(ys) {
        RoundSeparatesStates(Hash(xs[..n]), Hash(ys[..n]), xs[n]);
      }
    }
  }

  // ----- Names

  /** `encode("ascii")` of an already lower-cased name. */
  function AsciiBytes(name: string): Option<Blob> {
    if forall i :: 0 <= i < |name| ==> name[i] as int < 128
    then Some(seq(|name|, i requires 0 <= i < |name| && name[i] as int < 128 => name[i] as int))
    else None
  }

  /** The identity of a name, for Python's `str.lower`; None where it raises. */
  function Identity(name: string, lower: string -> string): Option<nat> {
    var bytes := AsciiBytes(lower(name));
    if bytes.None? then None else Some(Hash(bytes.value))
  }

  /** `stable_record_id` in the baker. */
  method StableRecordId(value: string, lower: string -> string) returns (r: Option<nat>)
    ensures r == Identity(value, lower)
  {
    var encoded := AsciiBytes(lower(value));
    if encoded.None? {
      return None;
    }
    var result := OFFSET_BASIS;
    for i := 0 to |encoded.value|
      invariant result == Hash(encoded.value[..i])
    {
      assert encoded.value[..i + 1][..i] == encoded.value[..i];
      result := Xor(result, encoded.value[i]);
      result := result * PRIME % U64_LIMIT;
    }
    assert encoded.value[..|encoded.value|] == encoded.value;
    return Some(result);
  }

  /** `record_id` in the capture scripts. */
  method RecordId(name: string, lower: string -> string) returns (r: Option<nat>)
    ensures r == Identity(name, lower)
  {
    var bytes := AsciiBytes(lower(name));
    if bytes.None? {
      return None;
    }
    var value, n := OFFSET_BASIS, 0;
    while n < |bytes.value|
      invariant 0 <= n <= |bytes.value| && value == Hash(bytes.value[..n])
    {
      assert bytes.value[..n + 1][..n] == bytes.value[..n];
      value := Xor(value, bytes.value[n]) * PRIME % U64_LIMIT;
      n := n + 1;
    }
    assert bytes.value[..n] == bytes.value;
    return Some(value);
  }

  /** Lower-cased ASCII names of equal length that differ in one position never collide. */
  lemma NamesNeverCollide(x: string, y: string, lower: string -> string, i: nat)
    requires Identity(x, lower).Some? && Identity(y, lower).Some?
    requires |lower(x)| == |lower(y)| && i < |lower(x)| && lower(x)[i] != lower(y)[i]
    requires forall k :: 0 <= k < |lower(x)| && k != i ==> lower(x)[k] == lower(y)[k]
    ensures Identity(x, lower) != Identity(y, lower)
  {
    OneByteNeverCollides(AsciiBytes(lower(x)).value, AsciiBytes(lower(y)).value, i);
  }
}
