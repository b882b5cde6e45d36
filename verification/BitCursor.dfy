/**
 The bit cursor of bs.h: a byte buffer, the byte the cursor is in, and the
 number of bits of that byte still to come. Reads advance the cursor and give 0
 past the end; writes change the buffer in place and are lost past the end.
 */
module BitCursor {
  import opened Bits
  import opened BitSyntax

  /** The cursor i bits on sees bit i, and nothing once the bits are used up. */
  lemma SkipAt(s: Input, i: nat)
    ensures GetU1(Skip(s, i)).0 == (i < |s.rest| && s.rest[i])
    ensures Skip(s, i).rest == [] <==> |s.rest| <= i
  {}

  lemma SkipLess(s: Input, i: nat)
    requires s.over == 0 || s.rest == []
    ensures
      |Skip(s, i + 1).rest| - Skip(s, i + 1).over == |Skip(s, i).rest| - Skip(s, i).over - 1
  {}

  lemma ModDown(q: int, i: int)
    requires 0 <= i <= q % 8
    ensures (q - i) % 8 == q % 8 - i
  {}

  lemma PrefixIs(s: Input, i: nat, bit: bool)
    requires i <= 32 && (i == 0 || i < |s.rest|)
    requires bit == (i < |s.rest| && s.rest[i])
    requires forall j :: 0 <= j < i ==> !s.rest[j]
    requires bit || i == 32 || |s.rest| <= i + 1
    ensures i == PrefixUE(s)
  {}

  lemma SkipNothing(s: Input)
    ensures Skip(s, 0) == s && NatOf(Peek(s, 0)) == 0
  {}

  lemma PeekNext(s: Input, i: nat, n: nat)
    requires i < n
    ensures GetU1(Skip(s, i)).0 == (i < |s.rest| && s.rest[i])
    ensures
      NatOf(Peek(s, i + 1)) * Pow2(n - i - 1) ==
      NatOf(Peek(s, i)) * Pow2(n - i) + (if i < |s.rest| && s.rest[i] then Pow2(n - i - 1) else 0)
  {
    assert Peek(s, i + 1)[..i] == Peek(s, i);
    var m, w := NatOf(Peek(s, i)), Pow2(n - i - 1);
    assert m * (2 * w) == (2 * m) * w;
    assert (2 * m + 1) * w == (2 * m) * w + w;
  }

  function TrailingCode(k: nat): seq<bool>
    requires k < 8
  {
    [true] + Zeros(7 - k)
  }

  lemma TrailingCodeIs(k: nat)
    requires k < 8
    ensures |TrailingCode(k)| == 8 - k && forall i :: 0 <= i < 8 - k ==> TrailingCode(k)[i] == (i == 0)
    ensures forall rest :: PutTrailing(k, rest) == TrailingCode(k) + rest
  {}

  lemma ThenPos(t: Tape, code: seq<bool>)
    ensures Then(t, code).pos == t.pos + |code|
  {}

  lemma CodeNext(t: Tape, code: seq<bool>, i: nat)
    requires i < |code|
    ensures Then(Then(t, code[..i]), [code[i]]) == Then(t, code[..i + 1])
  {
    ThenThen(t, code[..i], [code[i]]);
    assert code[..i] + [code[i]] == code[..i + 1];
  }

  /** Writing a code and then anything else is writing the code in front of it. */
  lemma ThenAll(t: Tape, code: seq<bool>)
    ensures forall rest :: Then(Then(t, code), rest) == Then(t, code + rest)
  {
    forall rest {
      ThenThen(t, code, rest);
    }
  }

  lemma OneMore(t: Tape, t': Tape, u: Tape, code: seq<bool>, i: nat)
    requires i < |code| && t' == Then(t, code[..i])
    requires forall rest :: Then(u, rest) == Then(t', PutU1(code[i], rest))
    ensures u == Then(t, code[..i + 1])
  {
    ThenNothing(u);
    assert PutU1(code[i], []) == [code[i]];
    ThenThen(t, code[..i], [code[i]]);
    assert code[..i] + [code[i]] == code[..i + 1];
  }

  lemma BitsUAt(n: nat, v: nat, i: nat)
    requires i < n
    ensures BitsU(n, v)[i] == BitAt(v, n - i - 1)
  {}

  lemma LowByte(v: nat)
    ensures BitsU(8, v) == BitsU(8, v % 256)
  {
    NatOfBitsU(8, v);
    NatOfBitsU(8, v % 256);
    BitsUOfNat(BitsU(8, v));
    BitsUOfNat(BitsU(8, v % 256));
    Pow2Values();
  }

  lemma CodeOfZero()
    ensures CodeUE(0) == [true]
  {
    assert BitLength(1) == 1 + BitLength(0);
    assert BitAt(1, 0);
    assert CodeUE(0) == BitsU(1, 1);
  }

  lemma {:induction false} BitLengthIs(x: nat, n: nat)
    requires n > 0 && Pow2(n - 1) <= x < Pow2(n)
    ensures BitLength(x) == n
  {
    if n > 1 {
      BitLengthIs(x / 2, n - 1);
    } else {
      assert Pow2(0) == 1 && Pow2(1) == 2;
    }
  }

  lemma LenTableEntry(x: byte)
    ensures forall n: nat :: n > 0 && Pow2(n - 1) <= x < Pow2(n) ==> BitLength(x) == n
    ensures Pow2(0) == 1 && Pow2(1) == 2 && Pow2(2) == 4 && Pow2(3) == 8 && Pow2(4) == 16
    ensures Pow2(5) == 32 && Pow2(6) == 64 && Pow2(7) == 128 && Pow2(8) == 256
  {
    forall n: nat | n > 0 && Pow2(n - 1) <= x < Pow2(n)
      ensures BitLength(x) == n
    {
      BitLengthIs(x, n);
    }
    Pow2Values();
  }

  /** The entry of the writer's table of bit lengths, whose entry for 0 is 1. */
  function LenTable(x: byte): (len: nat)
    ensures x > 0 ==> len == BitLength(x)
    ensures len >= 1
  {
    LenTableEntry(x);
    if x < 2 then 1
    else if x < 4 then 2
    else if x < 8 then 3
    else if x < 16 then 4
    else if x < 32 then 5
    else if x < 64 then 6
    else if x < 128 then 7
    else 8
  }

  lemma {:induction false} BitLengthShift(x: nat, k: nat)
    requires x / Pow2(k) > 0
    ensures BitLength(x) == k + BitLength(x / Pow2(k))
  {
    if k > 0 {
      HalfThenDiv(x, Pow2(k - 1));
      BitLengthShift(x / 2, k - 1);
    }
  }

  /** The branches by which the writer finds the length of a 32-bit number. */
  function LenOf(v: nat): (len: nat)
    requires 0 < v < 0x1_0000_0000
    ensures len == BitLength(v)
  {
    Pow2Values();
    if v >= 0x0100_0000 then
      assert Pow2(24) == 0x0100_0000;
      BitLengthShift(v, 24);
      24 + LenTable(v / 0x0100_0000)
    else if v >= 0x0001_0000 then
      BitLengthShift(v, 16);
      16 + LenTable(v / 0x0001_0000)
    else if v >= 0x0000_0100 then
      BitLengthShift(v, 8);
      8 + LenTable(v / 0x0000_0100)
    else
      LenTable(v)
  }

  class BitStream {
    const buf: array<byte>
    const start: nat
    const end: nat
    var p: nat
    var bitsLeft: int

    ghost predicate Valid()
      reads this
    {
      end <= buf.Length && 1 <= bitsLeft <= 8
    }

    /** All bits of the buffer and the position of the cursor among them. */
    ghost function Tape(): (t: Tape)
      requires Valid()
      reads this, buf
      ensures |t.bits| == 8 * end
    {
      BitSyntax.Tape(BitsOf(buf[..end]), 8 * p + 8 - bitsLeft)
    }

    /** What is left to read. */
    ghost function View(): Input
      requires Valid()
      reads this, buf
      ensures View().over == 0 || View().rest == []
    {
      Tape().View()
    }

    constructor (buf: array<byte>, size: nat)
      requires size <= buf.Length
      ensures Valid() && this.buf == buf && end == size && start == 0
      ensures Tape() == BitSyntax.Tape(BitsOf(buf[..size]), 0)
      ensures View() == From(BitsOf(buf[..size]))
    {
      this.buf, start, end, p, bitsLeft := buf, 0, size, 0, 8;
    }

    constructor Clone(src: BitStream)
      requires src.Valid()
      ensures Valid() && buf == src.buf && end == src.end && start == src.p
      ensures Tape() == src.Tape() && View() == src.View()
    {
      buf, start, end, p, bitsLeft := src.buf, src.p, src.end, src.p, src.bitsLeft;
    }

    predicate ByteAligned()
      requires Valid()
      reads this, buf
      ensures ByteAligned() <==> Tape().pos % 8 == 0
      ensures ByteAligned() <==> (|View().rest| - View().over) % 8 == 0
    {
      bitsLeft == 8
    }

    predicate Eof()
      requires Valid()
      reads this, buf
      ensures Eof() <==> View().rest == []
      ensures Eof() <==> Tape().pos >= |Tape().bits|
    {
      p >= end
    }

    predicate Overrun()
      requires Valid()
      reads this, buf
      ensures Overrun() <==> View().over >= 8
      ensures Overrun() <==> Tape().pos >= |Tape().bits| + 8
    {
      p > end
    }

    function Pos(): int
      reads this
    {
      if p > end then end - start else p - start
    }

    /** The bit at the cursor. */
    lemma Current()
      requires Valid()
      ensures p < end <==> View().rest != []
      ensures p < end ==> View().rest[0] == BitAt(buf[p], bitsLeft - 1)
    {
      if p < end {
        DivUnique(8 * p + 8 - bitsLeft, 8, p, 8 - bitsLeft);
        assert Tape().bits[Tape().pos] == BitAt(buf[..end][p], bitsLeft - 1);
      }
    }

    method ReadU1() returns (r: bool)
      requires Valid()
      modifies this`p, this`bitsLeft
      ensures Valid() && (r, View()) == GetU1(old(View()))
    {
      Current();
      r := false;
      bitsLeft := bitsLeft - 1;
      if p < end {
        r := BitAt(buf[p], bitsLeft);
      }
      if bitsLeft == 0 {
        p, bitsLeft := p + 1, 8;
      }
    }

    method SkipU1()
      requires Valid()
      modifies this`p, this`bitsLeft
      ensures Valid() && View() == Skip(old(View()), 1)
    {
      bitsLeft := bitsLeft - 1;
      if bitsLeft == 0 {
        p, bitsLeft := p + 1, 8;
      }
    }

    predicate PeekU1()
      requires Valid()
      reads this, buf
      ensures PeekU1() == GetU1(View()).0
    {
      p < end && BitAt(buf[p], bitsLeft - 1)
    }

    method ReadU(n: nat) returns (r: nat)
      requires Valid()
      modifies this`p, this`bitsLeft
      ensures Valid() && (r, View()) == GetU(n, old(View()))
    {
      hide View, Peek, Skip;
      ghost var s := View();
      SkipNothing(s);
      r := 0;
      for i := 0 to n
        invariant Valid() && View() == Skip(s, i)
        invariant r == NatOf(Peek(s, i)) * Pow2(n - i)
      {
        var bit := ReadU1();
        SkipSkip(s, i, 1);
        // The bit goes to a place where r has a 0, so or-ing it in is adding it.
        r := r + (if bit then Pow2(n - i - 1) else 0);
        PeekNext(s, i, n);
      }
      assert Pow2(0) == 1;
    }

    method SkipU(n: nat)
      requires Valid()
      modifies this`p, this`bitsLeft
      ensures Valid() && View() == Skip(old(View()), n)
    {
      hide View, Skip;
      ghost var s := View();
      SkipNothing(s);
      for i := 0 to n
        invariant Valid() && View() == Skip(s, i)
      {
        SkipU1();
        SkipSkip(s, i, 1);
      }
    }

    /** At a byte boundary the next byte is the next eight bits. */
    lemma FastByte()
      requires Valid() && bitsLeft == 8 && p < end
      ensures (buf[p] as nat, Skip(View(), 8)) == GetU8(View())
    {
      assert Peek(View(), 8) == BitsOf([buf[p]]);
      BitsOfByte(buf[p]);
      NatOfBitsU(8, buf[p]);
      Pow2Values();
    }

    method ReadU8() returns (r: nat)
      requires Valid()
      modifies this`p, this`bitsLeft
      ensures Valid() && (r, View()) == GetU8(old(View()))
    {
      if bitsLeft == 8 && p < end {
        r := buf[p];
        FastByte();
        p := p + 1;
      } else {
        r := ReadU(8);
      }
    }

    method ReadUE() returns (r: nat)
      requires Valid()
      modifies this`p, this`bitsLeft
      ensures Valid() && (r, View()) == GetUE(old(View()))
    {
      hide View, Skip, Peek;
      ghost var s := View();
      var i := 0;
      var bit := ReadU1();
      SkipNothing(s);
      SkipAt(s, 0);
      SkipAt(s, 1);
      assert Eof() <==> p >= end;
      while !bit && i < 32 && p < end
        invariant 0 <= i <= 32 && (i == 0 || i < |s.rest|)
        invariant Valid() && View() == Skip(s, i + 1)
        invariant bit == (i < |s.rest| && s.rest[i])
        invariant forall j :: 0 <= j < i ==> !s.rest[j]
        invariant p >= end <==> |s.rest| <= i + 1
      {
        i := i + 1;
        bit := ReadU1();
        SkipSkip(s, i, 1);
        SkipAt(s, i);
        SkipAt(s, i + 1);
        assert Eof() <==> p >= end;
      }
      PrefixIs(s, i, bit);
      r := ReadU(i);
      r := r + Pow2(i) - 1;
    }

    method ReadSE() returns (r: int)
      requires Valid()
      modifies this`p, this`bitsLeft
      ensures Valid() && (r, View()) == GetSE(old(View()))
    {
      hide View, GetUE;
      var k: int := ReadUE();
      if k % 2 == 1 {
        r := (k + 1) / 2;
      } else {
        r := -(k / 2);
      }
    }

    /** The next n bits as a number, read on a clone. */
    method NextBits(n: nat) returns (r: nat)
      requires Valid()
      ensures r == GetU(n, View()).0
    {
      var b := new BitStream.Clone(this);
      r := b.ReadU(n);
    }

    method WriteU1(v: bool)
      requires Valid()
      modifies this`p, this`bitsLeft, buf
      ensures Valid()
      ensures forall rest {:trigger Then(Tape(), rest)} :: Then(Tape(), rest) == Then(old(Tape()), PutU1(v, rest))
    {
      ghost var t := Tape();
      bitsLeft := bitsLeft - 1;
      if p < end {
        buf[p] := SetByteBit(buf[p], bitsLeft, v);
      }
      if bitsLeft == 0 {
        p, bitsLeft := p + 1, 8;
      }
      assert Tape() == Then(t, [v]);
      ThenAll(t, [v]);
    }

    method WriteU(n: nat, v: nat)
      requires Valid()
      modifies this`p, this`bitsLeft, buf
      ensures Valid()
      ensures forall rest {:trigger Then(Tape(), rest)} :: Then(Tape(), rest) == Then(old(Tape()), PutU(n, v, rest))
    {
      hide Tape, Then, BitsU;
      ghost var t := Tape();
      ThenNothing(t);
      for i := 0 to n
        invariant Valid() && Tape() == Then(t, BitsU(n, v)[..i])
      {
        ghost var t' := Tape();
        WriteU1(BitAt(v, n - i - 1));
        BitsUAt(n, v, i);
        OneMore(t, t', Tape(), BitsU(n, v), i);
      }
      assert BitsU(n, v)[..n] == BitsU(n, v);
      ThenAll(t, BitsU(n, v));
    }

    method WriteU8(v: nat)
      requires Valid()
      modifies this`p, this`bitsLeft, buf
      ensures Valid()
      ensures forall rest {:trigger Then(Tape(), rest)} :: Then(Tape(), rest) == Then(old(Tape()), PutU8(v, rest))
    {
      if bitsLeft == 8 && p < end {
        ghost var t := Tape();
        buf[p] := v % 256;
        p := p + 1;
        BitsOfByte(v % 256);
        LowByte(v);
        assert Tape() == Then(t, BitsOf([v % 256]));
        ThenAll(t, BitsU(8, v));
      } else {
        WriteU(8, v);
      }
    }

    method WriteUE(v: nat)
      requires Valid() && v <= MAX_UE
      modifies this`p, this`bitsLeft, buf
      ensures Valid()
      ensures forall rest {:trigger Then(Tape(), rest)} :: Then(Tape(), rest) == Then(old(Tape()), PutUE(v, rest))
    {
      if v == 0 {
        CodeOfZero();
        WriteU1(true);
      } else {
        var len := LenOf(v + 1);
        WriteU(2 * len - 1, v + 1);
      }
    }

    method WriteSE(v: int)
      requires Valid() && -MAX_SE <= v <= MAX_SE
      modifies this`p, this`bitsLeft, buf
      ensures Valid()
      ensures forall rest {:trigger Then(Tape(), rest)} :: Then(Tape(), rest) == Then(old(Tape()), PutSE(v, rest))
    {
      if v <= 0 {
        WriteUE(-v * 2);
      } else {
        WriteUE(v * 2 - 1);
      }
    }

    method ReadTrailingBits()
      requires Valid()
      modifies this`p, this`bitsLeft
      ensures Valid() && View() == GetTrailing(old(View()))
    {
      hide View, Skip;
      ghost var s := View();
      SkipU(1);
      ghost var s' := View();
      ghost var q := |s'.rest| - s'.over;
      ghost var i := 0;
      SkipNothing(s');
      while !ByteAligned()
        invariant Valid() && 0 <= i <= q % 8 && View() == Skip(s', i)
        invariant |View().rest| - View().over == q - i
        decreases q % 8 - i
      {
        ModDown(q, i);
        assert ByteAligned() <==> (|View().rest| - View().over) % 8 == 0;
        SkipU(1);
        SkipSkip(s', i, 1);
        SkipLess(s', i);
        i := i + 1;
      }
      ModDown(q, i);
      assert ByteAligned() <==> (|View().rest| - View().over) % 8 == 0;
    }

    /** bs_write_u with one bit. */
    method WriteBit(v: bool)
      requires Valid()
      modifies this`p, this`bitsLeft, buf
      ensures Valid() && Tape() == Then(old(Tape()), [v])
    {
      ghost var t := Tape();
      WriteU(1, if v then 1 else 0);
      ThenNothing(Tape());
      assert BitsU(1, if v then 1 else 0) + [] == [v];
      assert PutU(1, if v then 1 else 0, []) == [v];
    }

    method WriteTrailingBits()
      requires Valid()
      modifies this`p, this`bitsLeft, buf
      ensures Valid() && ByteAligned()
      ensures forall rest {:trigger Then(Tape(), rest)} ::
                Then(Tape(), rest) == Then(old(Tape()), PutTrailing(old(Tape()).pos % 8, rest))
    {
      hide Tape, Then, PutTrailing, TrailingCode;
      ghost var t := Tape();
      ghost var k := t.pos % 8;
      ghost var code := TrailingCode(k);
      TrailingCodeIs(k);
      WriteBit(true);
      ghost var i := 1;
      assert code[..1] == [true];
      while !ByteAligned()
        invariant Valid() && 1 <= i <= 8 - k && Tape() == Then(t, code[..i])
        decreases 8 - k - i
      {
        assert ByteAligned() <==> Tape().pos % 8 == 0;
        ThenPos(t, code[..i]);
        WriteBit(false);
        CodeNext(t, code, i);
        i := i + 1;
      }
      assert ByteAligned() <==> Tape().pos % 8 == 0;
      ThenPos(t, code[..i]);
      assert code[..i] == code;
      ThenAll(t, code);
    }

    method MoreRbspData() returns (more: bool)
      requires Valid()
      ensures more == MoreData(View())
    {
      hide View, Skip;
      ghost var s := View();
      SkipNothing(s);
      SkipAt(s, 0);
      if Eof() {
        return false;
      }
      if !PeekU1() {
        return true;
      }
      var tmp := new BitStream.Clone(this);
      tmp.SkipU1();
      ghost var i := 1;
      while !tmp.Eof()
        invariant tmp.Valid() && 1 <= i <= |s.rest|
        invariant tmp.View() == Skip(s, i)
        invariant forall j :: 1 <= j < i ==> !s.rest[j]
        decreases |s.rest| - i
      {
        SkipAt(s, i);
        var bit := tmp.ReadU1();
        if bit {
          return true;
        }
        SkipSkip(s, i, 1);
        i := i + 1;
      }
      SkipAt(s, i);
      return false;
    }
  }

  /** No write moves the cursor back. */
  lemma PosGrows(t: Tape, t': Tape, code: seq<bool>)
    requires Then(t', []) == Then(t, code)
    ensures t' == Then(t, code) && t'.pos == t.pos + |code|
  {
    ThenNothing(t');
  }
}
