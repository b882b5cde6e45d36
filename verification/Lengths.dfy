/**
 How long codes are: what follows a code does not change it, and a reader
 consumes as many bits as the code of the value it returns has. From this
 follows exactly which sequence parameter sets come back.
 */
module Lengths {
  import opened Bits
  import opened BitSyntax
  import opened BitCursor
  import opened HrdParameters
  import opened VuiParameters
  import opened ScalingLists
  import Sps = SequenceParameterSet
  import Pps = PictureParameterSet
  import opened Sei

  predicate EndsWith(r: seq<bool>, rest: seq<bool>) {
    |rest| <= |r| && r[|r| - |rest|..] == rest
  }

  lemma EndsTrans()
    ensures forall r, s, t {:trigger EndsWith(r, s), EndsWith(s, t)} ::
              EndsWith(r, s) && EndsWith(s, t) ==> EndsWith(r, t)
  {}

  /** The code of x is followed by rest, and its length does not depend on rest. */
  ghost predicate Precedes<T(!new)>(put: (T, seq<bool>) -> seq<bool>) {
    forall x, rest {:trigger put(x, rest)} ::
      EndsWith(put(x, rest), rest) && |put(x, rest)| == |put(x, [])| + |rest|
  }

  /** A reader of x consumes as many bits as the code of x has. */
  ghost predicate Exact<T(!new)>(c: Codec<T>) {
    forall s {:trigger c.get(s)} :: Left(c.get(s).1) == Left(s) - |c.put(c.get(s).0, [])|
  }

  ghost predicate Sized<T(!new)>(c: Codec<T>) {
    Precedes(c.put) && Exact(c)
  }

  // Elements

  lemma UEReads(s: Input)
    ensures Left(GetUE(s).1) == Left(s) - |CodeUE(GetUE(s).0)|
  {
    hide PrefixUE, BitLength, BitsU;
    var n := PrefixUE(s);
    var s' := Skip(s, n + 1);
    BitsUOfNat(Peek(s', n));
    BitLengthIs(GetUE(s).0 + 1, n + 1);
  }

  lemma Elements()
    ensures forall v, rest {:trigger PutU1(v, rest)} :: EndsWith(PutU1(v, rest), rest)
    ensures forall n, v, rest {:trigger PutU(n, v, rest)} :: EndsWith(PutU(n, v, rest), rest)
    ensures forall v, rest {:trigger PutU8(v, rest)} :: EndsWith(PutU8(v, rest), rest)
    ensures forall v, rest {:trigger PutUE(v, rest)} :: EndsWith(PutUE(v, rest), rest)
    ensures forall v, rest {:trigger PutSE(v, rest)} :: EndsWith(PutSE(v, rest), rest)
    ensures forall s {:trigger GetU1(s)} :: Left(GetU1(s).1) == Left(s) - 1
    ensures forall n, s {:trigger GetU(n, s)} :: Left(GetU(n, s).1) == Left(s) - n
    ensures forall s {:trigger GetU8(s)} :: Left(GetU8(s).1) == Left(s) - 8
    ensures forall s {:trigger GetUE(s)} :: Left(GetUE(s).1) == Left(s) - |CodeUE(GetUE(s).0)|
    ensures forall s {:trigger GetSE(s)} :: Left(GetSE(s).1) == Left(s) - |CodeUE(UEOfSE(GetSE(s).0))|
  {
    forall s ensures Left(GetUE(s).1) == Left(s) - |CodeUE(GetUE(s).0)| {
      UEReads(s);
    }
    hide PutU1, CodeUE, GetUE;
    forall s ensures Left(GetSE(s).1) == Left(s) - |CodeUE(UEOfSE(GetSE(s).0))| {
      assert UEOfSE(GetSE(s).0) == GetUE(s).0;
    }
  }

  lemma Flags()
    ensures Sized(FLAG)
  {
    Elements();
  }

  lemma Numbers()
    ensures Sized(UE) && Sized(SE) && Sized(U8)
  {
    Elements();
  }

  // Groups

  lemma OptionPrecedes<T(!new)>(c: Codec<T>)
    requires Precedes(c.put)
    ensures forall o, rest {:trigger PutOption(c, o, rest)} ::
              EndsWith(PutOption(c, o, rest), rest) && |PutOption(c, o, rest)| == |PutOption(c, o, [])| + |rest|
  {
    Elements();
    EndsTrans();
    hide PutU1, GetU1, EndsWith, Left;
    forall o: Option<T>, rest
      ensures EndsWith(PutOption(c, o, rest), rest) && |PutOption(c, o, rest)| == |PutOption(c, o, [])| + |rest|
    {
      if o.Some? {
        assert |c.put(o.value, rest)| == |c.put(o.value, [])| + |rest|;
      }
    }
  }

  lemma OptionSized<T(!new)>(c: Codec<T>)
    requires Sized(c)
    ensures forall o, rest {:trigger PutOption(c, o, rest)} ::
              EndsWith(PutOption(c, o, rest), rest) && |PutOption(c, o, rest)| == |PutOption(c, o, [])| + |rest|
    ensures forall s {:trigger GetOption(c, s)} ::
              Left(GetOption(c, s).1) == Left(s) - |PutOption(c, GetOption(c, s).0, [])|
  {
    OptionPrecedes(c);
    Elements();
    hide PutU1, GetU1, EndsWith, Left;
  }

  lemma {:induction false} FromSized<T(!new)>(c: Codec<T>, xs: seq<T>, i: nat, rest: seq<bool>)
    requires Precedes(c.put) && i <= |xs|
    ensures EndsWith(PutFrom(c, xs, i, rest), rest)
    ensures |PutFrom(c, xs, i, rest)| == |PutFrom(c, xs, i, [])| + |rest|
    decreases |xs| - i
  {
    if i < |xs| {
      FromSized(c, xs, i + 1, rest);
      EndsTrans();
      var r := PutFrom(c, xs, i + 1, rest);
      assert |c.put(xs[i], r)| == |c.put(xs[i], [])| + |r|;
      var r' := PutFrom(c, xs, i + 1, []);
      assert |c.put(xs[i], r')| == |c.put(xs[i], [])| + |r'|;
    }
  }

  lemma {:induction false} FromSnoc<T(!new)>(c: Codec<T>, xs: seq<T>, x: T, i: nat)
    requires Precedes(c.put) && i <= |xs|
    ensures |PutFrom(c, xs + [x], i, [])| == |PutFrom(c, xs, i, [])| + |c.put(x, [])|
    decreases |xs| - i
  {
    if i < |xs| {
      FromSnoc(c, xs, x, i + 1);
      var r, r' := PutFrom(c, xs + [x], i + 1, []), PutFrom(c, xs, i + 1, []);
      assert |c.put(xs[i], r)| == |c.put(xs[i], [])| + |r|;
      assert |c.put(xs[i], r')| == |c.put(xs[i], [])| + |r'|;
    }
  }

  lemma {:induction false} ManyReads<T(!new)>(c: Codec<T>, n: nat, s: Input)
    requires Sized(c)
    ensures Left(GetMany(c, n, s).1) == Left(s) - |PutFrom(c, GetMany(c, n, s).0, 0, [])|
  {
    if n > 0 {
      ManyReads(c, n - 1, s);
      var (xs, s') := GetMany(c, n - 1, s);
      FromSnoc(c, xs, c.get(s').0, 0);
    }
  }

  lemma SizedPrecedes<T(!new)>(c: Codec<T>)
    requires Sized(c)
    ensures Precedes(c.put)
  {}

  lemma ManySized<T(!new)>(c: Codec<T>)
    requires Sized(c)
    ensures forall xs, rest {:trigger PutMany(c, xs, rest)} ::
              EndsWith(PutMany(c, xs, rest), rest) && |PutMany(c, xs, rest)| == |PutMany(c, xs, [])| + |rest|
    ensures forall n, s {:trigger GetMany(c, n, s)} ::
              Left(GetMany(c, n, s).1) == Left(s) - |PutMany(c, GetMany(c, n, s).0, [])|
  {
    hide EndsWith, Sized, Precedes, Exact, Left, GetMany, PutFrom;
    forall xs: seq<T>, rest
      ensures EndsWith(PutMany(c, xs, rest), rest) && |PutMany(c, xs, rest)| == |PutMany(c, xs, [])| + |rest|
    {
      assert Precedes(c.put) by { SizedPrecedes(c); }
      FromSized(c, xs, 0, rest);
    }
    forall n, s
      ensures Left(GetMany(c, n, s).1) == Left(s) - |PutMany(c, GetMany(c, n, s).0, [])|
    {
      ManyReads(c, n, s);
    }
  }

  // HRD and VUI parameters

  lemma CpbSized()
    ensures Sized(CPB)
  {
    Elements();
    EndsTrans();
    hide EndsWith, PutUE, GetUE, PutU1, GetU1, Left;
  }

  lemma HrdPrecedes()
    ensures Precedes(HRD.put)
  {
    hide EndsWith, PutUE, PutU, PutMany, GetHrd, HrdOk, From, InvertsAll, Sized;
    Elements();
    EndsTrans();
    CpbSized();
    ManySized(CPB);
  }

  lemma HrdSized()
    ensures Sized(HRD)
  {
    hide EndsWith, PutUE, GetUE, PutU, GetU, PutMany, GetMany, Left, HrdOk, From, InvertsAll, Precedes;
    Elements();
    CpbSized();
    ManySized(CPB);
    HrdPrecedes();
  }

  lemma VuiPartsSized()
    ensures Sized(ASPECT) && Sized(COLOUR) && Sized(CHROMA_LOC) && Sized(TIMING) && Sized(RESTRICTION)
  {
    Elements();
    EndsTrans();
    hide EndsWith, PutUE, GetUE, PutU, GetU, PutU1, GetU1, PutU8, GetU8, Left, From;
    hide AspectOk, ColourOk, ChromaLocOk, TimingOk, RestrictionOk;
  }

  lemma VideoSignalSized()
    ensures Sized(VIDEO_SIGNAL)
  {
    Elements();
    EndsTrans();
    VuiPartsSized();
    OptionSized(COLOUR);
    hide EndsWith, PutU, GetU, PutU1, GetU1, PutOption, GetOption, Left;
  }

  lemma VuiOptions()
    ensures Sized(ASPECT) && Sized(FLAG) && Sized(VIDEO_SIGNAL) && Sized(CHROMA_LOC) && Sized(TIMING)
    ensures Sized(HRD) && Sized(RESTRICTION)
  {
    hide Sized;
    Flags();
    HrdSized();
    VuiPartsSized();
    VideoSignalSized();
  }

  lemma VuiPrecedes()
    ensures Precedes(VUI.put)
  {
    hide EndsWith, PutU1, PutOption, Left, Sized;
    Elements();
    EndsTrans();
    VuiOptions();
    OptionSized(ASPECT);
    OptionSized(FLAG);
    OptionSized(VIDEO_SIGNAL);
    OptionSized(CHROMA_LOC);
    OptionSized(TIMING);
    OptionSized(HRD);
    OptionSized(RESTRICTION);
  }

  lemma VuiExact()
    ensures Exact(VUI)
  {
    hide EndsWith, PutU1, GetU1, PutOption, GetOption, Left, Sized;
    Elements();
    VuiOptions();
    OptionSized(ASPECT);
    OptionSized(FLAG);
    OptionSized(VIDEO_SIGNAL);
    OptionSized(CHROMA_LOC);
    OptionSized(TIMING);
    OptionSized(HRD);
    OptionSized(RESTRICTION);
  }

  // Scaling lists, of which only the written length is fixed

  lemma {:induction false} EntriesSized(l: ScalingList, j: nat, rest: seq<bool>)
    requires j <= |l.entries|
    ensures EndsWith(PutEntries(l, j, rest), rest)
    ensures |PutEntries(l, j, rest)| == |PutEntries(l, j, [])| + |rest|
    decreases |l.entries| - j
  {
    hide PutSE, Delta, NextAt;
    if j < |l.entries| {
      EntriesSized(l, j + 1, rest);
      Elements();
      EndsTrans();
    }
  }

  lemma ListPrecedes(i: nat)
    ensures Precedes(ListCodec(i).put)
  {
    hide EndsWith, PutEntries, ListOk, From, GetScalingList;
    forall l, rest
      ensures EndsWith(ListCodec(i).put(l, rest), rest)
      ensures |ListCodec(i).put(l, rest)| == |ListCodec(i).put(l, [])| + |rest|
    {
      EntriesSized(l, 0, rest);
    }
  }

  lemma EndsWithSelf(rest: seq<bool>)
    ensures EndsWith(rest, rest)
  {}

  lemma {:induction false} ListsSized(ls: seq<Option<ScalingList>>, i: nat, rest: seq<bool>)
    requires i <= |ls|
    ensures EndsWith(PutListsFrom(ls, i, rest), rest)
    ensures |PutListsFrom(ls, i, rest)| == |PutListsFrom(ls, i, [])| + |rest|
    decreases |ls| - i
  {
    hide PutOption, ListCodec, EndsWith, Precedes;
    if i < |ls| {
      ListsSized(ls, i + 1, rest);
      ListPrecedes(i);
      OptionPrecedes(ListCodec(i));
      EndsTrans();
    } else {
      assert EndsWith(rest, rest) by { EndsWithSelf(rest); }
    }
  }

  lemma AllListsSized()
    ensures forall ls, rest {:trigger PutLists(ls, rest)} ::
              EndsWith(PutLists(ls, rest), rest) && |PutLists(ls, rest)| == |PutLists(ls, [])| + |rest|
  {
    hide EndsWith, PutListsFrom;
    forall ls, rest
      ensures EndsWith(PutLists(ls, rest), rest) && |PutLists(ls, rest)| == |PutLists(ls, [])| + |rest|
    {
      ListsSized(ls, 0, rest);
    }
  }

  lemma {:induction false} ListReads(n: nat, s: Input)
    ensures Left(Run(n, s).s) <= Left(s)
  {
    hide GetSE, Left, CMod;
    Elements();
    if n > 0 {
      ListReads(n - 1, s);
    }
  }

  /** Every further list takes at least its presence flag. */
  lemma {:induction false} ListsRead(n: nat, k: nat, s: Input)
    requires n <= k
    ensures Left(GetLists(k, s).1) <= Left(GetLists(n, s).1) - (k - n)
    decreases k
  {
    hide GetU1, Left, Run;
    if n < k {
      ListsRead(n, k - 1, s);
      Elements();
      var s' := GetLists(k - 1, s).1;
      ListReads(16, GetU1(s').1);
      ListReads(64, GetU1(s').1);
    }
  }

  // Sequence parameter sets

  const PIC_ORDER := Codec(Sps.PutPicOrder, Sps.GetPicOrder)
  const FORMAT := Codec(Sps.PutFormat, Sps.GetFormat)

  lemma PicOrderSized()
    ensures Sized(PIC_ORDER)
  {
    hide EndsWith, PutUE, GetUE, PutU1, GetU1, PutSE, GetSE, PutMany, GetMany, Left, From, Sps.PicOrderOk;
    Elements();
    EndsTrans();
    Numbers();
    ManySized(SE);
  }

  lemma CroppingSized()
    ensures Sized(Sps.CROPPING)
  {
    hide EndsWith, PutUE, GetUE, Left;
    Elements();
    EndsTrans();
  }

  lemma FormatSized()
    ensures Sized(FORMAT)
  {
    hide EndsWith, PutUE, GetUE, PutU1, GetU1, PutOption, GetOption, Left;
    Elements();
    EndsTrans();
    CroppingSized();
    OptionSized(Sps.CROPPING);
  }

  lemma ChromaSized()
    ensures Precedes(Sps.PutChroma)
  {
    hide EndsWith, PutUE, PutU1, PutLists, Sps.GetChroma, Sps.ChromaOk, From;
    Elements();
    EndsTrans();
    AllListsSized();
  }

  lemma HeadSized()
    ensures Precedes(Sps.PutHead)
  {
    hide EndsWith, PutUE, PutU1, PutU8, PutU;
    Elements();
    EndsTrans();
  }

  /** What follows the chroma fields of a set. */
  function PutEnd(x: Sps.Sps, rest: seq<bool>): seq<bool> {
    PutUE(x.log2MaxFrameNumMinus4, Sps.PutPicOrder(x.picOrder, Sps.PutFormat(x.format, PutOption(VUI, x.vui, rest))))
  }

  lemma SpsParts()
    ensures Precedes(Sps.PutPicOrder) && Exact(PIC_ORDER)
    ensures Precedes(Sps.PutFormat) && Exact(FORMAT)
    ensures Sized(VUI)
  {
    hide Precedes, Exact;
    PicOrderSized();
    FormatSized();
    VuiPrecedes();
    VuiExact();
  }

  lemma EndSized()
    ensures Precedes(PutEnd)
  {
    hide EndsWith, PutUE, PutOption, Sps.PutPicOrder, Sps.PutFormat, Sized;
    Elements();
    EndsTrans();
    SpsParts();
    OptionSized(VUI);
  }

  lemma SpsSized()
    ensures Precedes(Sps.PutSps)
  {
    hide EndsWith, PutUE, PutOption, Sps.PutHead, Sps.PutChroma, Sps.PutPicOrder, Sps.PutFormat, Sps.IsHighProfile;
    EndsTrans();
    HeadSized();
    ChromaSized();
    EndSized();
    forall x: Sps.Sps, rest
      ensures Sps.PutSps(x, rest) == Sps.PutHead(x.head, Sps.PutChromaPart(x, PutEnd(x, rest)))
    {}
  }

  lemma EndReads(x: Sps.Sps, s: Input)
    ensures
      var (log2, s1) := GetUE(s);
      var (picOrder, s2) := Sps.GetPicOrder(s1);
      var (format, s3) := Sps.GetFormat(s2);
      var (vui, s4) := GetOption(VUI, s3);
      log2 == x.log2MaxFrameNumMinus4 && picOrder == x.picOrder && format == x.format && vui == x.vui ==>
        Left(s4) == Left(s) - |PutEnd(x, [])|
  {
    hide PutUE, GetUE, Sps.PutPicOrder, Sps.GetPicOrder, Sps.PutFormat, Sps.GetFormat, PutOption, GetOption, Left;
    Elements();
    SpsParts();
    OptionSized(VUI);
    var (log2, s1) := GetUE(s);
    var (picOrder, s2) := Sps.GetPicOrder(s1);
    var (format, s3) := Sps.GetFormat(s2);
    assert PIC_ORDER.get(s1) == (picOrder, s2) && FORMAT.get(s2) == (format, s3);
  }

  predicate Has444Matrices(x: Sps.Sps) {
    x.chroma.Some? && x.chroma.value.formatIdc == 3 && x.chroma.value.scalingLists.Some?
  }

  /** The fields that are not sent hold the reader's defaults, and the scaling lists could have been read. */
  predicate InRange(x: Sps.Sps) {
    Sps.SpsWritable(x) &&
    (x.chroma.Some? ==>
       (x.chroma.value.residualColourTransform ==> x.chroma.value.formatIdc == 3) &&
       (x.chroma.value.scalingLists.Some? ==> ListsOk(x.chroma.value.scalingLists.value)))
  }

  lemma LeftFrom(rest: seq<bool>)
    ensures Left(From(rest)) == |rest|
  {}

  /** A delta that is not close to 0 has a long code. */
  lemma DeltaCost(v: int)
    ensures |CodeUE(UEOfSE(v))| >= 1 && (|CodeUE(UEOfSE(v))| >= 4 || -|CodeUE(UEOfSE(v))| <= v <= |CodeUE(UEOfSE(v))|)
  {
    hide BitsU;
    var k := UEOfSE(v);
    BitLengthBounds(k + 1);
    if BitLength(k + 1) >= 3 {
      assert |CodeUE(k)| >= 5;
    } else {
      assert Pow2(BitLength(k + 1)) <= 4 by { SmallWidths(); Pow2Monotone(BitLength(k + 1), 2); }
      assert BitLength(k + 1) == 1 ==> k == 0 by { assert Pow2(1) == 2; }
    }
  }

  lemma CModInRange(a: int)
    requires 0 < a < 256
    ensures CMod(a + 256, 256) == a
  {}

  /** While fewer than four bits were read, the entries stay around 8, so that the list goes on. */
  lemma {:induction false} EntriesCost(n: nat, s: Input)
    requires n <= 4
    ensures
      var c := Run(n, s);
      var cost := Left(s) - Left(c.s);
      cost >= 4 || (n <= cost && 8 - cost <= c.next <= 8 + cost && Last(c) == c.next)
  {
    hide GetSE, Left, CodeUE, CMod;
    if n > 0 {
      EntriesCost(n - 1, s);
      var c := Run(n - 1, s);
      Elements();
      var delta := GetSE(c.s).0;
      DeltaCost(delta);
      if 0 < Last(c) + delta < 256 {
        CModInRange(Last(c) + delta);
      }
    }
  }

  lemma {:induction false} ListCost(n: nat, s: Input)
    requires n >= 4
    ensures Left(Run(n, s).s) <= Left(s) - 4
  {
    hide GetSE, Left, CMod;
    if n == 4 {
      EntriesCost(4, s);
    } else {
      ListCost(n - 1, s);
      Elements();
    }
  }

  /** The next n bits are zeros. */
  predicate ZerosAhead(n: nat, b: seq<bool>) {
    forall i :: 0 <= i < n && i < |b| ==> !b[i]
  }

  lemma NextFlag(b: seq<bool>, n: nat)
    requires ZerosAhead(n, b) && !GetU1(Skip(From(b), n)).0
    ensures ZerosAhead(n + 1, b)
  {
    if n < |b| {
      assert b[n..][0] == b[n];
    }
  }

  lemma LeftSkip(b: seq<bool>, n: nat)
    ensures Left(Skip(From(b), n)) == |b| - n
  {}

  /** A list of 64 entries takes four bits besides its flag. */
  lemma OneListCost(i: nat, s: Input)
    requires i >= 6
    ensures
      var s' := GetOption(ListCodec(i), s).1;
      if GetU1(s).0 then Left(s') <= Left(s) - 5 else s' == Skip(s, 1) && Left(s') == Left(s) - 1
  {
    hide Run;
    ListCost(64, Skip(s, 1));
  }

  lemma NoneAhead(b: seq<bool>)
    ensures ZerosAhead(0, b)
  {}

  lemma AfterZeros(b: seq<bool>, n: nat)
    requires ZerosAhead(n, b) && !GetU1(Skip(From(b), n)).0
    ensures ZerosAhead(n + 1, b) && Skip(Skip(From(b), n), 1) == Skip(From(b), n + 1)
  {
    NextFlag(b, n);
  }

  lemma SkipNothing(b: seq<bool>)
    ensures Skip(From(b), 0) == From(b)
  {}

  /** Further lists: either none is there, and only zero flags are read, or one takes four bits besides the flags. */
  lemma {:induction false} ListsCost(n: nat, k: nat, s: Input, b: seq<bool>)
    requires 6 <= n <= k && GetLists(n, s).1 == From(b)
    ensures
      var s' := GetLists(k, s).1;
      Left(s') <= |b| - (k - n) - 4 || (s' == Skip(From(b), k - n) && ZerosAhead(k - n, b))
    decreases k
  {
    hide GetOption, ListCodec, ZerosAhead, Left, Skip, GetU1, From;
    if n < k {
      ListsCost(n, k - 1, s, b);
      var s' := GetLists(k - 1, s).1;
      OneListCost(k - 1, s');
      assert Left(Skip(From(b), k - 1 - n)) == |b| - (k - 1 - n) by { LeftSkip(b, k - 1 - n); }
      if s' == Skip(From(b), k - 1 - n) && ZerosAhead(k - 1 - n, b) && !GetU1(s').0 {
        AfterZeros(b, k - 1 - n);
      }
    } else {
      NoneAhead(b);
      SkipNothing(b);
    }
  }

  /**
   Behind the eight lists of a 4:4:4 set the reader looks for four more. It reads
   eight bits too many when it sees one there, and otherwise four zeros.
   */
  lemma ChromaOverreads(c: Sps.Chroma, rest: seq<bool>)
    requires Sps.ChromaWritable(c) && c.formatIdc == 3 && c.scalingLists.Some? && ListsOk(c.scalingLists.value)
    ensures
      var s := Sps.GetChroma(From(Sps.PutChroma(c, rest))).1;
      Left(s) <= |rest| - 8 || (s == Skip(From(rest), 4) && ZerosAhead(4, rest))
  {
    hide PutUE, GetUE, PutU1, GetU1, PutLists, GetLists, ListOk, From, SizesOk, ZerosAhead;
    var ls := c.scalingLists.value[..8];
    var s := From(PutLists(ls, rest));
    assert ListsOk(ls);
    assert GetLists(8, s) == (ls, From(rest));
    ListsCost(8, 12, s, rest);
  }

  lemma EndLength(x: Sps.Sps, rest: seq<bool>)
    ensures |PutEnd(x, rest)| == |PutEnd(x, [])| + |rest|
  {
    EndSized();
  }

  lemma SpsIs(x: Sps.Sps, rest: seq<bool>)
    requires Sps.SpsWritable(x) && x.chroma.Some?
    ensures Sps.PutSps(x, rest) == Sps.PutHead(x.head, Sps.PutChroma(x.chroma.value, PutEnd(x, rest)))
  {
    hide Sps.PutHead, Sps.PutChroma;
  }

  lemma MatricesOverread(x: Sps.Sps, rest: seq<bool>)
    requires InRange(x) && Has444Matrices(x)
    ensures Sps.GetSps(From(Sps.PutSps(x, rest))) != (x, From(rest))
  {
    hide Sps.PutHead, Sps.GetHead, Sps.PutChroma, Sps.GetChroma, GetUE, PutEnd, Sps.GetPicOrder, Sps.GetFormat;
    hide GetOption, From, Left, ListsOk, Sps.HeadOk, Sps.ChromaWritable, Sps.IsHighProfile, VuiOk, Precedes;
    var body := PutEnd(x, rest);
    assert Sps.PutSps(x, rest) == Sps.PutHead(x.head, Sps.PutChroma(x.chroma.value, body)) by { SpsIs(x, rest); }
    ChromaOverreads(x.chroma.value, body);
    var s := Sps.GetChroma(From(Sps.PutChroma(x.chroma.value, body))).1;
    EndReads(x, s);
    EndLength(x, rest);
    LeftFrom(rest);
    assert Left(s) <= |body| - 4 by { LeftSkip(body, 4); }
  }

  lemma LowBits(n: nat, s: Input)
    ensures GetU(n, s).0 < Pow2(n)
  {
    BitsUOfNat(Peek(s, n));
  }

  /** A code that starts with four zeros is that of another number without them. */
  lemma ShiftedUE(v: nat, rest: seq<bool>)
    requires v <= MAX_UE && ZerosAhead(4, PutUE(v, rest))
    ensures GetUE(Skip(From(PutUE(v, rest)), 4)).0 != v
  {
    hide PrefixUE, CodeUE, BitsU, BitLength, Skip, Peek;
    CodeUEShape(v);
    CodeUEShort(v);
    var z := BitLength(v + 1) - 1;
    var tail := BitsU(z, v + 1 - Pow2(z)) + rest;
    var code := PutUE(v, rest);
    assert code == Zeros(z) + ([true] + tail);
    assert code[z];
    assert z >= 4;
    assert code == Zeros(4) + (Zeros(z - 4) + ([true] + tail));
    SkipPrefix(Zeros(4), Zeros(z - 4) + ([true] + tail));
    PrefixOfCode(z - 4, tail);
    LowBits(z - 4, From(tail));
    Pow2Monotone(z - 3, z);
    assert Pow2(z - 3) == 2 * Pow2(z - 4);
  }

  lemma TrailingOverrun(s: Input)
    requires Left(s) <= 0
    ensures GetTrailing(s).over >= 8
  {
    var l := Left(Skip(s, 1));
    assert l == Left(s) - 1 && l - l % 8 <= -8;
    assert Left(GetTrailing(s)) == l - l % 8;
  }

  /** When such a set comes back nevertheless, the reader is a byte or more past the end. */
  lemma MatricesOverrun(x: Sps.Sps, k: nat)
    requires InRange(x) && Has444Matrices(x) && k < 8
    ensures
      var (y, s) := Sps.GetSps(From(Sps.PutSps(x, PutTrailing(k, []))));
      y == x ==> GetTrailing(s).over >= 8
  {
    hide Sps.PutHead, Sps.GetHead, Sps.PutChroma, Sps.GetChroma, GetUE, PutUE, Sps.GetPicOrder, Sps.GetFormat;
    hide GetOption, From, Left, ListsOk, Sps.HeadOk, Sps.ChromaWritable, Sps.IsHighProfile, VuiOk, Precedes, ZerosAhead;
    hide PutTrailing, GetTrailing, Skip, PutOption, Sps.PutPicOrder, Sps.PutFormat;
    var rest := PutTrailing(k, []);
    var body := PutEnd(x, rest);
    assert Sps.PutSps(x, rest) == Sps.PutHead(x.head, Sps.PutChroma(x.chroma.value, body)) by { SpsIs(x, rest); }
    ChromaOverreads(x.chroma.value, body);
    var s := Sps.GetChroma(From(Sps.PutChroma(x.chroma.value, body))).1;
    EndReads(x, s);
    EndLength(x, rest);
    var (y, s') := Sps.GetSps(From(Sps.PutSps(x, rest)));
    if y == x {
      if Left(s) <= |body| - 8 {
        TrailingOverrun(s');
      } else {
        ShiftedUE(x.log2MaxFrameNumMinus4,
                  Sps.PutPicOrder(x.picOrder, Sps.PutFormat(x.format, PutOption(VUI, x.vui, rest))));
      }
    }
  }

  /**
   A set comes back, with the reader right behind it, unless it is in 4:4:4 and
   has scaling matrices: the writer sends eight of the lists of which the reader
   expects twelve.
   */
  lemma {:induction false} SpsRoundTripIff(x: Sps.Sps, rest: seq<bool>)
    requires InRange(x)
    ensures Sps.GetSps(From(Sps.PutSps(x, rest))) == (x, From(rest)) <==> !Has444Matrices(x)
  {
    hide Sps.PutSps, Sps.GetSps, From, ListsOk, Sps.ChromaWritable, Sps.IsHighProfile, VuiOk, Sps.HeadOk;
    if Has444Matrices(x) {
      MatricesOverread(x, rest);
    } else {
      Sps.SpsRoundTrip(x, rest);
    }
  }

  /** A set in 4:4:4 with matrices that does not come back, whatever follows it. */
  lemma {:induction false} Example444(rest: seq<bool>)
    ensures
      var lists: seq<Option<ScalingList>> := seq(12, i => None);
      var chroma := Sps.Chroma(3, false, 0, 0, false, Some(lists));
      var head := Sps.Head(244, false, false, false, false, false, false, 40, 0);
      var x := Sps.Sps(head, Some(chroma), 0, Sps.Lsb(0), Sps.Format(1, false, 0, 0, true, false, true, None), None);
      InRange(x) && Sps.GetSps(From(Sps.PutSps(x, rest))) != (x, From(rest))
  {
    hide Sps.GetSps, Sps.PutSps, From;
    var lists: seq<Option<ScalingList>> := seq(12, i => None);
    var chroma := Sps.Chroma(3, false, 0, 0, false, Some(lists));
    var head := Sps.Head(244, false, false, false, false, false, false, 40, 0);
    var x := Sps.Sps(head, Some(chroma), 0, Sps.Lsb(0), Sps.Format(1, false, 0, 0, true, false, true, None), None);
    SpsRoundTripIff(x, rest);
  }

  // Picture parameter sets

  lemma WidthSized(n: nat)
    ensures Sized(U(n))
  {
    Elements();
  }

  lemma RectSized()
    ensures Sized(Pps.RECT)
  {
    hide EndsWith, PutUE, GetUE, Left;
    Elements();
    EndsTrans();
  }

  lemma MapListsSized(n: nat)
    ensures Precedes(Pps.PutRuns) && Precedes(Pps.PutRects)
    ensures forall ids, rest {:trigger Pps.PutIds(n, ids, rest)} ::
              EndsWith(Pps.PutIds(n, ids, rest), rest) &&
                |Pps.PutIds(n, ids, rest)| == |Pps.PutIds(n, ids, [])| + |rest|
  {
    hide EndsWith, PutMany, Pps.IntLog2, Sized;
    Numbers();
    RectSized();
    WidthSized(Pps.IntLog2(n + 1));
    ManySized(UE);
    ManySized(Pps.RECT);
    ManySized(U(Pps.IntLog2(n + 1)));
  }

  lemma MapSized(n: nat, m: Pps.GroupMap, rest: seq<bool>)
    ensures EndsWith(Pps.PutMap(n, m, rest), rest) && |Pps.PutMap(n, m, rest)| == |Pps.PutMap(n, m, [])| + |rest|
  {
    hide EndsWith, PutUE, PutU1, Pps.PutRuns, Pps.PutRects, Pps.PutIds, Pps.GetMap, Pps.MapOk, Pps.RectOk, From, GetUE;
    hide GetMany, Pps.IntLog2;
    Elements();
    EndsTrans();
    MapListsSized(n);
    EndsWithSelf(rest);
  }

  lemma GroupsSized()
    ensures Precedes(Pps.PutGroups)
  {
    hide EndsWith, PutUE, Pps.PutMap;
    Elements();
    EndsTrans();
    forall g: Pps.SliceGroups, rest
      ensures EndsWith(Pps.PutGroups(g, rest), rest) && |Pps.PutGroups(g, rest)| == |Pps.PutGroups(g, [])| + |rest|
    {
      if g.Groups? {
        MapSized(g.numMinus1, g.groupMap, rest);
      } else {
        EndsWithSelf(rest);
      }
    }
  }

  lemma PredictionSized()
    ensures Precedes(Pps.PutPrediction)
  {
    hide EndsWith, PutUE, PutU1, PutU, PutSE;
    Elements();
    EndsTrans();
  }

  lemma TailSized()
    ensures Precedes(Pps.PutTail)
  {
    hide EndsWith, PutU1, PutSE, PutLists;
    Elements();
    EndsTrans();
    AllListsSized();
    forall x: Pps.Tail, rest
      ensures EndsWith(Pps.PutTail(x, rest), rest) && |Pps.PutTail(x, rest)| == |Pps.PutTail(x, [])| + |rest|
    {
      EndsWithSelf(rest);
    }
  }

  lemma PpsSized()
    ensures Precedes(Pps.PutPps)
  {
    hide EndsWith, PutUE, PutU1, Pps.PutGroups, Pps.PutPrediction, Pps.PutTail;
    Elements();
    EndsTrans();
    GroupsSized();
    PredictionSized();
    TailSized();
  }

  // Supplemental enhancement information

  lemma {:induction false} FFSized(n: nat, rest: seq<bool>)
    ensures EndsWith(PutFF(n, rest), rest) && |PutFF(n, rest)| == |PutFF(n, [])| + |rest|
  {
    hide EndsWith, PutU8;
    Elements();
    EndsTrans();
    if n > 0xff {
      FFSized(n - 0xff, rest);
    }
  }

  lemma MessageSized(m: Message, rest: seq<bool>)
    ensures EndsWith(PutMessage(m, rest), rest) && |PutMessage(m, rest)| == |PutMessage(m, [])| + |rest|
  {
    hide EndsWith, PutFF, PutMany, Sized;
    EndsTrans();
    Numbers();
    ManySized(U8);
    FFSized(|m.payload|, PutPayload(m.payload, rest));
    FFSized(|m.payload|, PutPayload(m.payload, []));
    FFSized(m.payloadType, PutFF(|m.payload|, PutPayload(m.payload, rest)));
    FFSized(m.payloadType, PutFF(|m.payload|, PutPayload(m.payload, [])));
  }

  lemma {:induction false} MessagesSized(ms: seq<Message>, i: nat, rest: seq<bool>)
    requires i <= |ms|
    ensures EndsWith(PutMessages(ms, i, rest), rest) && |PutMessages(ms, i, rest)| == |PutMessages(ms, i, [])| + |rest|
    decreases |ms| - i
  {
    hide EndsWith, PutMessage;
    EndsTrans();
    if i < |ms| {
      MessagesSized(ms, i + 1, rest);
      MessageSized(ms[i], PutMessages(ms, i + 1, rest));
      MessageSized(ms[i], PutMessages(ms, i + 1, []));
    } else {
      EndsWithSelf(rest);
    }
  }
}
