/**
 Bytes, bits and the numbers they spell: the plain values that the bit
 cursor of bs.h moves over.
 */
module Bits {
  type byte = x: int | 0 <= x < 256

  function Pow2(n: nat): (r: nat)
    ensures r > 0
  {
    if n == 0 then 1 else 2 * Pow2(n - 1)
  }

  lemma SmallWidths()
    ensures Pow2(2) == 4 && Pow2(3) == 8 && Pow2(4) == 16 && Pow2(5) == 32
  {}

  lemma Pow2Values()
    ensures Pow2(8) == 256 && Pow2(16) == 65536 && Pow2(32) == 0x1_0000_0000
  {
    assert Pow2(8) == 256;
    assert Pow2(16) == 65536;
    assert Pow2(24) == 0x1_00_0000;
  }

  /** Bit k of a number, counted from the least significant one: (x >> k) & 1. */
  predicate BitAt(x: nat, k: nat) {
    if k == 0 then x % 2 == 1 else BitAt(x / 2, k - 1)
  }

  /** Number x with bit k cleared and then set to v: x & ~(1 << k) | v << k. */
  function SetBit(x: nat, k: nat, v: bool): (y: nat)
    ensures forall j: nat {:trigger BitAt(y, j)} :: BitAt(y, j) == if j == k then v else BitAt(x, j)
    ensures forall n: nat {:trigger Pow2(n)} :: k < n && x < Pow2(n) ==> y < Pow2(n)
  {
    if k == 0 then
      x / 2 * 2 + (if v then 1 else 0)
    else
      var h := SetBit(x / 2, k - 1, v);
      var y := 2 * h + x % 2;
      assert y / 2 == h && y % 2 == x % 2;
      y
  }

  function SetByteBit(x: byte, k: nat, v: bool): (y: byte)
    requires k < 8
    ensures forall j: nat :: BitAt(y, j) == if j == k then v else BitAt(x, j)
  {
    Pow2Values();
    SetBit(x, k, v)
  }

  /** The n low bits of v, most significant first: (v >> (n - i - 1)) & 1. */
  function BitsU(n: nat, v: nat): (s: seq<bool>)
    ensures |s| == n
  {
    seq(n, i requires 0 <= i < n => BitAt(v, n - 1 - i))
  }

  /** The number a bit string spells, most significant bit first. */
  function NatOf(s: seq<bool>): nat {
    if s == [] then 0 else 2 * NatOf(s[..|s| - 1]) + (if s[|s| - 1] then 1 else 0)
  }

  lemma MulAtLeast(x: int, d: nat)
    requires x >= 1
    ensures x * d >= d
  {}

  /** Quotient and remainder are the only ones. */
  lemma DivUnique(v: int, d: nat, q: int, r: nat)
    requires r < d && v == q * d + r
    ensures v / d == q && v % d == r
  {
    var q' := v / d;
    var diff := q - q';
    assert diff * d == q * d - q' * d;
    if diff >= 1 {
      MulAtLeast(diff, d);
    } else if diff <= -1 {
      MulAtLeast(-diff, d);
    }
  }

  /** Halving and then dividing by m is dividing by 2m. */
  lemma HalfThenDiv(v: nat, m: nat)
    requires m > 0
    ensures v / (2 * m) == (v / 2) / m
    ensures v % (2 * m) == 2 * (v / 2 % m) + v % 2
  {
    var q, r := v / 2 / m, v / 2 % m;
    assert v / 2 == q * m + r;
    assert q * (2 * m) == 2 * (q * m);
    DivUnique(v, 2 * m, q, 2 * r + v % 2);
  }

  /** Dropping the last bit halves the number. */
  lemma BitsUInit(n: nat, v: nat)
    requires n > 0
    ensures BitsU(n, v)[..n - 1] == BitsU(n - 1, v / 2)
    ensures BitsU(n, v)[n - 1] == (v % 2 == 1)
  {
    assert BitsU(n, v)[n - 1] == BitAt(v, 0);
    forall i | 0 <= i < n - 1
      ensures BitsU(n, v)[i] == BitsU(n - 1, v / 2)[i]
    {
      assert BitsU(n, v)[i] == BitAt(v, n - 1 - i);
    }
  }

  /** Spelling a number in n bits and reading the bits keeps it modulo 2^n. */
  lemma {:induction false} NatOfBitsU(n: nat, v: nat)
    ensures NatOf(BitsU(n, v)) == v % Pow2(n)
    ensures v < Pow2(n) ==> NatOf(BitsU(n, v)) == v
  {
    if n > 0 {
      BitsUInit(n, v);
      NatOfBitsU(n - 1, v / 2);
      HalfThenDiv(v, Pow2(n - 1));
    }
    if v < Pow2(n) {
      DivUnique(v, Pow2(n), 0, v);
    }
  }

  /** A bit string of length n spells a number below 2^n and is that number's spelling. */
  lemma {:induction false} BitsUOfNat(s: seq<bool>)
    ensures NatOf(s) < Pow2(|s|)
    ensures BitsU(|s|, NatOf(s)) == s
  {
    if s != [] {
      var init := s[..|s| - 1];
      BitsUOfNat(init);
      BitsUInit(|s|, NatOf(s));
      assert NatOf(s) / 2 == NatOf(init);
      assert BitsU(|s|, NatOf(s)) == BitsU(|s|, NatOf(s))[..|s| - 1] + [BitsU(|s|, NatOf(s))[|s| - 1]];
      assert s == init + [s[|s| - 1]];
    }
  }

  /** The bits of a byte string, most significant bit of each byte first. */
  function BitsOf(s: seq<byte>): (b: seq<bool>)
    ensures |b| == 8 * |s|
  {
    seq(8 * |s|, i requires 0 <= i < 8 * |s| => BitAt(s[i / 8], 7 - i % 8))
  }

  function ByteOf(b: seq<bool>): byte
    requires |b| == 8
  {
    BitsUOfNat(b);
    assert Pow2(8) == 256;
    NatOf(b)
  }

  /** Packs a bit string of whole bytes. */
  function BytesOf(b: seq<bool>): (s: seq<byte>)
    requires |b| % 8 == 0
    ensures |s| == |b| / 8
  {
    seq(|b| / 8, k requires 0 <= k < |b| / 8 => ByteOf(b[8 * k..8 * k + 8]))
  }

  lemma BitsOfByte(x: byte)
    ensures BitsU(8, x) == BitsOf([x])
  {}

  lemma BitsOfOne(s: seq<byte>, k: nat)
    requires k < |s|
    ensures BitsOf(s)[8 * k..8 * k + 8] == BitsOf([s[k]])
  {
    hide BitAt;
    forall i | 0 <= i < 8
      ensures BitsOf(s)[8 * k + i] == BitsOf([s[k]])[i]
    {
      DivUnique(8 * k + i, 8, k, i);
    }
  }

  /** Packing the bits of a byte string gives it back. */
  lemma BytesOfBitsOf(s: seq<byte>)
    ensures BytesOf(BitsOf(s)) == s
  {
    forall k | 0 <= k < |s|
      ensures BytesOf(BitsOf(s))[k] == s[k]
    {
      hide BitsOf, BitsU, BitAt, Pow2;
      BitsOfByte(s[k]);
      BitsOfOne(s, k);
      NatOfBitsU(8, s[k]);
      Pow2Values();
    }
  }

  lemma BitsOfByteOf(w: seq<bool>)
    requires |w| == 8
    ensures BitsOf([ByteOf(w)]) == w
  {
    BitsUOfNat(w);
    BitsOfByte(ByteOf(w));
  }

  lemma PackedAt(b: seq<bool>, k: nat, j: nat)
    requires |b| % 8 == 0 && 8 * k < |b| && j < 8
    ensures 8 * k + j < |b| && BitsOf(BytesOf(b))[8 * k + j] == b[8 * k + j]
  {
    var w := b[8 * k..8 * k + 8];
    assert BytesOf(b)[k] == ByteOf(w);
    hide BytesOf, ByteOf, BitsOf, BitAt;
    BitsOfOne(BytesOf(b), k);
    BitsOfByteOf(w);
    assert BitsOf(BytesOf(b))[8 * k..8 * k + 8][j] == w[j];
  }

  /** The bits of a packed bit string are that bit string. */
  lemma BitsOfBytesOf(b: seq<bool>)
    requires |b| % 8 == 0
    ensures BitsOf(BytesOf(b)) == b
  {
    forall i | 0 <= i < |b|
      ensures BitsOf(BytesOf(b))[i] == b[i]
    {
      PackedAt(b, i / 8, i % 8);
    }
  }

  /** Joining bit strings shifts the first number left by the length of the second. */
  lemma {:induction false} NatOfConcat(s: seq<bool>, t: seq<bool>)
    ensures NatOf(s + t) == NatOf(s) * Pow2(|t|) + NatOf(t)
  {
    if t == [] {
      assert s + t == s;
    } else {
      var init := t[..|t| - 1];
      NatOfConcat(s, init);
      assert (s + t)[..|s + t| - 1] == s + init;
      assert NatOf(s) * (2 * Pow2(|init|)) == 2 * (NatOf(s) * Pow2(|init|));
    }
  }

  function Zeros(n: nat): (s: seq<bool>)
    ensures |s| == n
  {
    seq(n, i => false)
  }

  lemma {:induction false} NatOfZeros(n: nat)
    ensures NatOf(Zeros(n)) == 0
  {
    if n > 0 {
      NatOfZeros(n - 1);
      assert Zeros(n)[..n - 1] == Zeros(n - 1);
    }
  }

  /** The number of bits a positive number needs. */
  function BitLength(x: nat): nat {
    if x == 0 then 0 else 1 + BitLength(x / 2)
  }

  lemma {:induction false} BitLengthBounds(x: nat)
    requires x > 0
    ensures BitLength(x) > 0 && Pow2(BitLength(x) - 1) <= x < Pow2(BitLength(x))
  {
    if x / 2 > 0 {
      BitLengthBounds(x / 2);
    } else {
      assert Pow2(0) == 1 && Pow2(1) == 2;
    }
  }

  lemma {:induction false} Pow2Monotone(a: nat, b: nat)
    requires a <= b
    ensures Pow2(a) <= Pow2(b)
  {
    if a < b {
      Pow2Monotone(a, b - 1);
    }
  }
}
