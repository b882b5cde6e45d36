/** Parameter sets given as the bytes of their units, with all that is read from them. */
module Samples {
  import opened Bits
  import opened BitSyntax
  import opened NalBytes
  import opened ScalingLists
  import opened VuiParameters
  import opened SliceHeaders
  import opened NalUnits
  import opened UnitReading
  import S = SequenceParameterSet
  import P = PictureParameterSet

  // Bits of bytes, and codes of small numbers

  function Bit(b: bool): nat {
    if b then 1 else 0
  }

  lemma OneBitMore(w: seq<bool>, b: bool)
    ensures NatOf(w + [b]) == 2 * NatOf(w) + Bit(b)
  {
    assert (w + [b])[..|w|] == w;
  }

  lemma NoBits(w: seq<bool>)
    requires w == []
    ensures NatOf(w) == 0
  {}

  /** The bits of a byte, the most significant one first. */
  lemma ByteIs(x: byte, w: seq<bool>)
    requires |w| == 8
    requires
      x == 128 * Bit(w[0]) + 64 * Bit(w[1]) + 32 * Bit(w[2]) + 16 * Bit(w[3]) +
           8 * Bit(w[4]) + 4 * Bit(w[5]) + 2 * Bit(w[6]) + Bit(w[7])
    ensures BitsU(8, x) == w
  {
    hide NatOf, BitsU;
    forall i | 0 <= i < 8
      ensures NatOf(w[..i + 1]) == 2 * NatOf(w[..i]) + Bit(w[i])
    {
      OneBitMore(w[..i], w[i]);
      assert w[..i + 1] == w[..i] + [w[i]];
    }
    assert NatOf(w[..0]) == 0 by { NoBits(w[..0]); }
    assert NatOf(w[..1]) == Bit(w[0]);
    assert NatOf(w[..2]) == 2 * Bit(w[0]) + Bit(w[1]);
    assert NatOf(w[..3]) == 4 * Bit(w[0]) + 2 * Bit(w[1]) + Bit(w[2]);
    assert NatOf(w[..7 + 1]) == x;
    assert w[..8] == w;
    BitsUOfNat(w);
  }

  lemma {:induction false} NumberOf(w: seq<bool>)
    ensures w == [] ==> NatOf(w) == 0
    ensures |w| == 1 ==> NatOf(w) == Bit(w[0])
    ensures |w| == 2 ==> NatOf(w) == 2 * Bit(w[0]) + Bit(w[1])
    ensures |w| == 3 ==> NatOf(w) == 4 * Bit(w[0]) + 2 * Bit(w[1]) + Bit(w[2])
  {
    hide NatOf;
    if w == [] {
      NoBits(w);
    } else if |w| <= 3 {
      var n := |w| - 1;
      NumberOf(w[..n]);
      OneBitMore(w[..n], w[n]);
      assert w == w[..n] + [w[n]];
    }
  }

  lemma PutUEIs(v: nat, rest: seq<bool>)
    ensures PutUE(v, rest) == CodeUE(v) + rest
  {}

  lemma NotWider(a: nat, b: nat, x: nat)
    requires Pow2(a) <= x < 2 * Pow2(b)
    ensures a <= b
  {
    if b < a {
      Pow2Monotone(b + 1, a);
    }
  }

  lemma OneWidth(a: nat, b: nat, x: nat)
    requires Pow2(a) <= x < 2 * Pow2(a) && Pow2(b) <= x < 2 * Pow2(b)
    ensures a == b
  {
    NotWider(a, b, x);
    NotWider(b, a, x);
  }

  /** The code of v is as many zeros as w has bits, a one, and w. */
  lemma CodeIs(v: nat, w: seq<bool>, rest: seq<bool>)
    requires v <= MAX_UE && v + 1 == Pow2(|w|) + NatOf(w)
    ensures PutUE(v, rest) == Zeros(|w|) + ([true] + w) + rest
  {
    hide NatOf, BitsU, BitLength, GetUE, From;
    CodeUEShape(v);
    BitsUOfNat(w);
    OneWidth(BitLength(v + 1) - 1, |w|, v + 1);
    PutUEIs(v, rest);
  }

  lemma CodeOfZero(rest: seq<bool>)
    ensures PutUE(0, rest) == [true] + rest && PutSE(0, rest) == [true] + rest
  {
    hide NatOf;
    NumberOf([]);
    CodeIs(0, [], rest);
    assert Zeros(0) + ([true] + []) == [true];
  }

  lemma CodeOfOne(rest: seq<bool>)
    ensures PutUE(1, rest) == [false, true, false] + rest
  {
    hide NatOf, PutUE;
    assert Pow2(1) == 2;
    NumberOf([false]);
    CodeIs(1, [false], rest);
    assert Zeros(1) + ([true] + [false]) == [false, true, false];
  }

  /** Codes of seven bits. */
  lemma CodeOfSeven(v: nat, w: seq<bool>, rest: seq<bool>)
    requires |w| == 3 && v + 1 == 8 + 4 * Bit(w[0]) + 2 * Bit(w[1]) + Bit(w[2])
    ensures PutUE(v, rest) == [false, false, false, true, w[0], w[1], w[2]] + rest
  {
    hide NatOf, PutUE;
    SmallWidths();
    NumberOf(w);
    CodeIs(v, w, rest);
    assert Zeros(3) + ([true] + w) == [false, false, false, true, w[0], w[1], w[2]];
  }

  lemma ZeroBits(n: nat)
    ensures BitsU(n, 0) == Zeros(n)
  {
    forall i | 0 <= i < n
      ensures !BitsU(n, 0)[i]
    {
      ZeroHasNoBit(n - 1 - i);
    }
  }

  /** Units without two zero bytes in a row need no escape. */
  lemma {:induction false} PlainBytes(count: nat, y: seq<byte>)
    requires count <= 1 && (count == 1 && y != [] ==> y[0] != 0)
    requires forall i :: 0 <= i < |y| - 1 ==> y[i] != 0 || y[i + 1] != 0
    ensures Unesc(count, y) == Some(Payload(y, false))
    decreases |y|
  {
    if y != [] {
      PlainBytes(NextCount(count, y[0]), y[1..]);
      assert [y[0]] + y[1..] == y;
    }
  }

  // A sequence parameter set of the High profile

  function HighProfileUnit(): seq<byte> {
    [0x67, 0x64, 0x00, 0x1f, 0xac, 0xe8, 0x2c, 0x4e, 0x40]
  }

  /** Level 3.1, 4:2:0 and 8 bits, 11x9 macroblocks, one reference frame. */
  function HighProfileSet(): S.Sps {
    S.Sps(S.Head(100, false, false, false, false, false, false, 31, 0),
          Some(S.Chroma(1, false, 0, 0, false, None)), 0, S.Lsb(0),
          S.Format(1, false, 10, 8, true, false, true, None), None)
  }

  /** The stop bit and zeros. */
  function Stop(n: nat): seq<bool> {
    [true] + Zeros(n)
  }

  const EIGHT := [false, false, false, true, false, false, true]
  const TEN := [false, false, false, true, false, true, true]

  lemma FlagsBits(rest: seq<bool>)
    ensures
      var f := HighProfileSet().format;
      PutU1(true, S.PutMbAdaptive(f, PutU1(true, PutOption(S.CROPPING, None, rest)))) == [true, true, false] + rest
  {
    hide S.PutCropping, S.GetCropping, GetOption, From;
  }

  lemma FormatBits(rest: seq<bool>)
    ensures S.PutFormat(HighProfileSet().format, rest) ==
            [false, true, false, false] + (TEN + (EIGHT + ([true, true, false] + rest)))
  {
    hide PutUE, GetUE, S.PutMbAdaptive, S.GetFormat, PutOption, GetOption, GetU1, From;
    var r := [true, true, false] + rest;
    FlagsBits(rest);
    CodeOfSeven(8, [false, false, true], r);
    CodeOfSeven(10, [false, true, true], EIGHT + r);
    CodeOfOne(PutU1(false, TEN + (EIGHT + r)));
    assert [false, true, false] + ([false] + (TEN + (EIGHT + r))) == [false, true, false, false] + (TEN + (EIGHT + r));
  }

  lemma ChromaBits(rest: seq<bool>)
    ensures S.PutChromaPart(HighProfileSet(), rest) == [false, true, false, true, true, false, false] + rest
  {
    hide PutUE, GetUE, S.GetChroma, GetU1, From;
    var r := [false, false] + rest;
    CodeOfZero(r);
    CodeOfZero([true] + r);
    CodeOfOne([true, true] + r);
    assert PutU1(false, S.PutMatrices(None, rest)) == r;
    assert [true] + ([true] + r) == [true, true] + r;
  }

  lemma HeadBits(rest: seq<bool>)
    ensures S.PutHead(HighProfileSet().head, rest) ==
            BitsU(8, 100) + (BitsU(8, 0) + (BitsU(8, 31) + ([true] + rest)))
  {
    hide PutUE, GetUE, GetU8, GetU1, GetU, S.GetHead, BitsU, From;
    CodeOfZero(rest);
    ZeroBits(2);
    ZeroBits(8);
    var r := BitsU(8, 31) + ([true] + rest);
    assert PutU8(31, [true] + rest) == r;
    assert S.PutConstraints(HighProfileSet().head, r) == Zeros(8) + r;
  }

  lemma NoVui(rest: seq<bool>)
    ensures PutOption(VUI, None, rest) == [false] + rest
  {
    hide PutVui, GetVui, GetOption, From;
  }

  lemma NumbersBits(rest: seq<bool>)
    ensures PutUE(0, S.PutPicOrder(S.Lsb(0), rest)) == [true, true, true] + rest
  {
    hide PutUE, GetUE, S.GetPicOrder, From;
    CodeOfZero(rest);
    CodeOfZero([true] + rest);
    CodeOfZero([true] + ([true] + rest));
    assert [true] + ([true] + ([true] + rest)) == [true, true, true] + rest;
  }

  /** The code of the set, field by field. */
  lemma SetBits(rest: seq<bool>)
    ensures S.PutSps(HighProfileSet(), rest) ==
            BitsU(8, 100) + (BitsU(8, 0) + (BitsU(8, 31) +
            ([true] + ([false, true, false, true, true, false, false] + ([true, true, true] +
            ([false, true, false, false] + (TEN + (EIGHT + ([true, true, false] + ([false] + rest))))))))))
  {
    hide PutUE, GetUE, S.PutHead, S.PutFormat, S.PutChromaPart, S.PutPicOrder, PutOption, S.GetSps, BitsU, From;
    var x := HighProfileSet();
    NoVui(rest);
    var r1 := PutOption(VUI, None, rest);
    FormatBits(r1);
    var r2 := S.PutFormat(x.format, r1);
    NumbersBits(r2);
    var r3 := PutUE(0, S.PutPicOrder(S.Lsb(0), r2));
    ChromaBits(r3);
    HeadBits(S.PutChromaPart(x, r3));
  }

  /** The same bits in groups of eight. */
  lemma Grouped()
    ensures
      var a, b := [false, true, false, true, true, false, false], [true, true, true];
      var c, d := [false, true, false, false], [true, true, false];
      [true] + (a + (b + (c + (TEN + (EIGHT + (d + ([false] + Stop(6)))))))) ==
      [true, false, true, false, true, true, false, false] +
      ([true, true, true, false, true, false, false, false] +
       ([false, false, true, false, true, true, false, false] +
        ([false, true, false, false, true, true, true, false] +
         [false, true, false, false, false, false, false, false])))
  {}

  lemma ManyBytes(x: byte, y: byte, z: byte, rest: seq<byte>)
    ensures BitsOf([x, y, z] + rest) == BitsU(8, x) + (BitsU(8, y) + (BitsU(8, z) + BitsOf(rest)))
  {
    hide BitsOf, BitsU;
    assert ([x, y, z] + rest)[1..] == [y, z] + rest && ([y, z] + rest)[1..] == [z] + rest && ([z] + rest)[1..] == rest;
    BitsOfFirst([x, y, z] + rest);
    BitsOfFirst([y, z] + rest);
    BitsOfFirst([z] + rest);
  }

  lemma NoBytes()
    ensures BitsOf([]) == []
  {}

  /** The bytes behind the first one are the code of the set in front of the stop bit. */
  lemma HighProfileBytes()
    ensures BitsOf(HighProfileUnit()[1..]) == S.PutSps(HighProfileSet(), Stop(6))
  {
    hide BitsOf, BitsU, S.PutSps;
    ManyBytes(0x64, 0x00, 0x1f, [0xac, 0xe8, 0x2c, 0x4e, 0x40]);
    assert HighProfileUnit()[1..] == [0x64, 0x00, 0x1f] + [0xac, 0xe8, 0x2c, 0x4e, 0x40];
    ManyBytes(0xac, 0xe8, 0x2c, [0x4e, 0x40]);
    assert [0xac, 0xe8, 0x2c, 0x4e, 0x40] == [0xac, 0xe8, 0x2c] + [0x4e, 0x40];
    BitsOfFirst([0x4e, 0x40]);
    assert [0x4e, 0x40][1..] == [0x40];
    BitsOfFirst([0x40]);
    assert [0x40][1..] == [];
    NoBytes();
    ByteIs(0xac, [true, false, true, false, true, true, false, false]);
    ByteIs(0xe8, [true, true, true, false, true, false, false, false]);
    ByteIs(0x2c, [false, false, true, false, true, true, false, false]);
    ByteIs(0x4e, [false, true, false, false, true, true, true, false]);
    ByteIs(0x40, [false, true, false, false, false, false, false, false]);
    Grouped();
    SetBits(Stop(6));
    assert [false, true, false, false, false, false, false, false] + [] ==
           [false, true, false, false, false, false, false, false];
  }

  lemma HighProfileOk()
    ensures S.SpsOk(HighProfileSet())
  {}

  lemma StopIsPassed(n: nat)
    requires n < 8
    ensures GetTrailing(From(Stop(n))).over == 0
  {}

  lemma HighProfileFields()
    ensures
      var nal := HighProfileUnit();
      Unescape(nal) == Some(Payload(nal, false)) && HasType(nal, 7) && SpsIn(nal) == HighProfileSet() &&
      S.GetSps(BehindFirst(nal)).1 == From(Stop(6))
  {
    hide BitsOf, S.GetSps, S.PutSps, S.SpsOk, Unesc, Stop;
    PlainBytes(0, HighProfileUnit());
    HighProfileBytes();
    HighProfileOk();
  }

  /**
   The unit 67 64 00 1f ac e8 2c 4e 40 reads as a High profile set with its chroma
   fields, and all nine bytes are used.
   */
  lemma HighProfileReads(haveSei: bool, st: State, nal: seq<byte>)
    requires TablesOk(st) && nal == [0x67, 0x64, 0x00, 0x1f, 0xac, 0xe8, 0x2c, 0x4e, 0x40]
    ensures
      match ReadNal(haveSei, st, nal)
      case None => false
      case Some((st', rc)) =>
        rc == 9 && st'.refIdc == 3 && st'.unitType == 7 &&
        |st'.tables.spsTable| == 32 && st'.tables.spsTable[0] == st'.sps &&
        st'.sps ==
        S.Sps(S.Head(100, false, false, false, false, false, false, 31, 0),
              Some(S.Chroma(1, false, 0, 0, false, None)), 0, S.Lsb(0),
              S.Format(1, false, 10, 8, true, false, true, None), None)
  {
    hide ReadNal, Unescape, S.GetSps, GetTrailing, SpsIn, BehindFirst, Stop;
    HighProfileFields();
    StopIsPassed(6);
    SpsUnitRead(haveSei, st, nal);
  }

  // A picture parameter set with the matrix flags of eight lists

  function MatricesUnit(): seq<byte> {
    [0x68, 0xce, 0x3c, 0xc0, 0x30]
  }

  /** transform_8x8_mode_flag is 1, and none of the eight lists is present. */
  function MatricesSet(): P.Pps {
    P.Pps(0, 0, false, false, P.OneGroup, P.Prediction(0, 0, false, 0, 0, 0, 0, true, false, false),
          P.Tail(true, Some([None, None, None, None, None, None, None, None]), 0))
  }

  lemma {:induction false} AbsentLists(ls: seq<Option<ScalingList>>, i: nat, rest: seq<bool>)
    requires i <= |ls| && forall j :: 0 <= j < |ls| ==> ls[j].None?
    ensures PutListsFrom(ls, i, rest) == Zeros(|ls| - i) + rest
    decreases |ls| - i
  {
    hide PutScalingList, GetScalingList, GetOption, From;
    if i < |ls| {
      AbsentLists(ls, i + 1, rest);
      assert Zeros(|ls| - i) + rest == [false] + (Zeros(|ls| - i - 1) + rest);
    } else {
      assert Zeros(0) + rest == rest;
    }
  }

  lemma TailBits(rest: seq<bool>)
    ensures P.PutTail(MatricesSet().tail, rest) == [true, true] + (Zeros(8) + ([true] + rest))
  {
    hide PutSE, GetSE, PutListsFrom, GetLists, P.GetTailFields, P.GetTail, MoreData, StopOnly, P.TailOk, From;
    CodeOfZero(rest);
    AbsentLists(MatricesSet().tail.scalingLists.value, 0, [true] + rest);
  }

  lemma PredictionBits(rest: seq<bool>)
    ensures P.PutPrediction(MatricesSet().prediction, rest) ==
            [true, true, false] + ([false, false] + ([true, true, true, true, false, false] + rest))
  {
    hide PutSE, GetSE, PutUE, GetUE, GetU1, GetU, P.GetPrediction, P.PredictionOk, BitsU, From;
    var r1 := [true, false, false] + rest;
    assert PutU1(true, PutU1(false, PutU1(false, rest))) == r1;
    CodeOfZero(r1);
    CodeOfZero([true] + r1);
    CodeOfZero([true] + ([true] + r1));
    var r2 := [true] + ([true] + ([true] + r1));
    assert r2 == [true, true, true, true, false, false] + rest;
    ZeroBits(2);
    assert Zeros(2) == [false, false];
    var r3 := [false] + ([false, false] + r2);
    CodeOfZero(r3);
    CodeOfZero([true] + r3);
    assert [true] + ([true] + r3) == [true, true, false] + ([false, false] + r2);
  }

  /** The code of the set, field by field. */
  lemma PictureSetBits(rest: seq<bool>)
    ensures P.PutPps(MatricesSet(), rest) ==
            [true, true, false, false, true] +
            ([true, true, false] + ([false, false] + ([true, true, true, true, false, false] +
            ([true, true] + (Zeros(8) + ([true] + rest))))))
  {
    hide PutUE, GetUE, GetU1, P.PutPrediction, P.PutTail, P.GetPps, P.GetGroups, P.PpsOk, StopOnly, Zeros, From;
    TailBits(rest);
    var r1 := P.PutTail(MatricesSet().tail, rest);
    PredictionBits(r1);
    var r2 := P.PutPrediction(MatricesSet().prediction, r1);
    CodeOfZero(r2);
    var r3 := [false, false] + ([true] + r2);
    assert PutU1(false, PutU1(false, [true] + r2)) == r3;
    CodeOfZero(r3);
    CodeOfZero([true] + r3);
    assert [true] + ([true] + r3) == [true, true, false, false, true] + r2;
  }

  /** The same bits in groups of eight. */
  lemma PictureSetGrouped()
    ensures
      [true, true, false, false, true] +
      ([true, true, false] + ([false, false] + ([true, true, true, true, false, false] +
      ([true, true] + (Zeros(8) + ([true] + Stop(4))))))) ==
      [true, true, false, false, true, true, true, false] +
      ([false, false, true, true, true, true, false, false] +
       ([true, true, false, false, false, false, false, false] +
        [false, false, true, true, false, false, false, false]))
  {}

  lemma MatricesBytes()
    ensures BitsOf(MatricesUnit()[1..]) == P.PutPps(MatricesSet(), Stop(4))
  {
    hide BitsOf, BitsU, P.PutPps;
    assert MatricesUnit()[1..] == [0xce, 0x3c, 0xc0] + [0x30];
    ManyBytes(0xce, 0x3c, 0xc0, [0x30]);
    BitsOfFirst([0x30]);
    assert [0x30][1..] == [];
    NoBytes();
    ByteIs(0xce, [true, true, false, false, true, true, true, false]);
    ByteIs(0x3c, [false, false, true, true, true, true, false, false]);
    ByteIs(0xc0, [true, true, false, false, false, false, false, false]);
    ByteIs(0x30, [false, false, true, true, false, false, false, false]);
    PictureSetBits(Stop(4));
    PictureSetGrouped();
    assert [false, false, true, true, false, false, false, false] + [] ==
           [false, false, true, true, false, false, false, false];
  }

  lemma MatricesOk()
    ensures P.PpsOk(MatricesSet()) && StopOnly(Stop(4))
  {}

  lemma MatricesFields()
    ensures
      var nal := MatricesUnit();
      Unescape(nal) == Some(Payload(nal, false)) && HasType(nal, 8) && PpsIn(nal) == MatricesSet() &&
      P.GetPps(BehindFirst(nal)).1 == From(Stop(4))
  {
    hide BitsOf, P.GetPps, P.PutPps, P.PpsOk, Unesc, Stop, StopOnly;
    PlainBytes(0, MatricesUnit());
    MatricesBytes();
    MatricesOk();
  }

  /**
   The unit 68 ce 3c c0 30 reads as a picture set with eight matrix flags and a
   second_chroma_qp_index_offset of 0, and all five bytes are used.
   */
  lemma MatricesRead(haveSei: bool, st: State, nal: seq<byte>)
    requires TablesOk(st) && nal == [0x68, 0xce, 0x3c, 0xc0, 0x30]
    ensures
      match ReadNal(haveSei, st, nal)
      case None => false
      case Some((st', rc)) =>
        rc == 5 && st'.refIdc == 3 && st'.unitType == 8 &&
        |st'.tables.ppsTable| == 256 && st'.tables.ppsTable[0] == st'.pps &&
        st'.pps ==
        P.Pps(0, 0, false, false, P.OneGroup, P.Prediction(0, 0, false, 0, 0, 0, 0, true, false, false),
              P.Tail(true, Some([None, None, None, None, None, None, None, None]), 0))
  {
    hide ReadNal, Unescape, P.GetPps, GetTrailing, PpsIn, BehindFirst, Stop;
    MatricesFields();
    StopIsPassed(4);
    PpsUnitRead(haveSei, st, nal);
  }
}
