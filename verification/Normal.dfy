/**
 What was read can be written: of a structure that was read from any bits, the
 writer asks no more than that its numbers are within the codes that are modelled,
 and then writing it out and reading it again gives the same structure.
 */
module NormalForms {
  import opened Bits
  import opened BitSyntax
  import opened HrdParameters
  import opened VuiParameters
  import opened ScalingLists
  import S = SequenceParameterSet
  import P = PictureParameterSet

  lemma NumbersRead()
    ensures forall n, s {:trigger GetU(n, s)} :: GetU(n, s).0 < Pow2(n)
    ensures forall s {:trigger GetU8(s)} :: GetU8(s).0 < 256
  {
    forall n, s
      ensures GetU(n, s).0 < Pow2(n)
    {
      BitsUOfNat(Peek(s, n));
    }
    Pow2Values();
  }

  /** A group that is present is what its reader returned. */
  lemma OptionRead<T>(c: Codec<T>, s: Input)
    ensures
      var o := GetOption(c, s).0;
      o.Some? ==> o.value == c.get(GetU1(s).1).0
  {}

  // HRD and VUI parameters

  predicate HrdInLimits(h: Hrd) {
    |h.cpbs| <= MAX_UE + 1 && forall c <- h.cpbs :: CpbOk(c)
  }

  lemma HrdReadOk(s: Input)
    ensures HrdOk(GetHrd(s).0) <==> HrdInLimits(GetHrd(s).0)
  {
    hide GetUE, GetU, GetMany, CpbOk;
    NumbersRead();
    SmallWidths();
    var (cnt, s1) := GetUE(s);
    var (rateScale, s2) := GetU(4, s1);
    var (sizeScale, s3) := GetU(4, s2);
    var (cpbs, s4) := GetMany(CPB, cnt + 1, s3);
    var (initial, s5) := GetU(5, s4);
    var (removal, s6) := GetU(5, s5);
    var (output, s7) := GetU(5, s6);
    var (offset, s8) := GetU(5, s7);
    assert GetHrd(s).0 == Hrd(rateScale, sizeScale, cpbs, initial, removal, output, offset);
  }

  predicate VuiInLimits(v: Vui) {
    (v.chromaLoc.Some? ==> ChromaLocOk(v.chromaLoc.value)) &&
    (v.nalHrd.Some? ==> HrdInLimits(v.nalHrd.value)) &&
    (v.vclHrd.Some? ==> HrdInLimits(v.vclHrd.value)) &&
    (v.restriction.Some? ==> RestrictionOk(v.restriction.value))
  }

  lemma AspectReadOk(s: Input)
    ensures AspectOk(GetAspect(s).0)
  {
    hide GetU8, GetU;
    NumbersRead();
    Pow2Values();
  }

  lemma VideoSignalReadOk(s: Input)
    ensures VideoSignalOk(GetVideoSignal(s).0)
  {
    hide GetU8, GetU, GetU1, GetOption;
    NumbersRead();
    SmallWidths();
    OptionRead(COLOUR, GetU1(GetU(3, s).1).1);
  }

  lemma TimingReadOk(s: Input)
    ensures TimingOk(GetTiming(s).0)
  {
    hide GetU, GetU1;
    NumbersRead();
    Pow2Values();
  }

  lemma VuiReadOk(s: Input)
    ensures VuiOk(GetVui(s).0) <==> VuiInLimits(GetVui(s).0)
  {
    hide GetOption, GetU1, AspectOk, VideoSignalOk, TimingOk, HrdOk, HrdInLimits, ChromaLocOk, RestrictionOk;
    hide GetAspect, GetVideoSignal, GetTiming, GetHrd;
    forall s' ensures AspectOk(GetAspect(s').0) { AspectReadOk(s'); }
    forall s' ensures VideoSignalOk(GetVideoSignal(s').0) { VideoSignalReadOk(s'); }
    forall s' ensures TimingOk(GetTiming(s').0) { TimingReadOk(s'); }
    forall s' ensures HrdOk(GetHrd(s').0) <==> HrdInLimits(GetHrd(s').0) { HrdReadOk(s'); }
    var (aspect, s1) := GetOption(ASPECT, s);
    var (overscan, s2) := GetOption(FLAG, s1);
    var (videoSignal, s3) := GetOption(VIDEO_SIGNAL, s2);
    var (chromaLoc, s4) := GetOption(CHROMA_LOC, s3);
    var (timing, s5) := GetOption(TIMING, s4);
    var (nalHrd, s6) := GetOption(HRD, s5);
    OptionRead(ASPECT, s);
    OptionRead(VIDEO_SIGNAL, s2);
    OptionRead(TIMING, s4);
    OptionRead(HRD, s5);
    OptionRead(HRD, s6);
  }

  // Scaling lists

  predicate ListInLimits(l: ScalingList) {
    forall e <- l.entries :: 1 <= e <= 255
  }

  predicate ListsInLimits(ls: seq<Option<ScalingList>>) {
    forall o <- ls :: o.Some? ==> ListInLimits(o.value)
  }

  lemma {:induction false} DefaultIsEight(n: nat, s: Input)
    ensures Run(n, s).useDefault ==> n > 0 && Run(n, s).next == 0 && forall e <- Run(n, s).entries :: e == 8
  {
    hide GetSE, CMod;
    if n > 0 {
      DefaultIsEight(n - 1, s);
      assert forall e <- Run(n, s).entries :: e in Run(n - 1, s).entries || e == Run(n, s).entries[n - 1];
    }
  }

  lemma ListReadOk(n: nat, s: Input)
    requires n > 0
    ensures ListOk(n, GetScalingList(n, s).0) <==> ListInLimits(GetScalingList(n, s).0)
  {
    hide Run;
    DefaultIsEight(n, s);
    var l := GetScalingList(n, s).0;
    assert |l.entries| == n && l.entries == Run(n, s).entries && l.useDefault == Run(n, s).useDefault;
    assert forall j :: 0 <= j < n ==> l.entries[j] in l.entries;
  }

  lemma ListIsSized(n: nat, s: Input)
    ensures |GetScalingList(n, s).0.entries| == n
  {}

  lemma ListsSnoc(ls: seq<Option<ScalingList>>, o: Option<ScalingList>)
    ensures ListsInLimits(ls + [o]) <==> ListsInLimits(ls) && (o.Some? ==> ListInLimits(o.value))
  {
    hide ListInLimits;
    assert o in ls + [o];
  }

  lemma {:induction false} ListsReadOk(n: nat, s: Input)
    ensures SizesOk(GetLists(n, s).0)
    ensures ListsOk(GetLists(n, s).0) <==> ListsInLimits(GetLists(n, s).0)
  {
    hide GetOption, ListOk, ListInLimits, GetScalingList, Run;
    if n > 0 {
      ListsReadOk(n - 1, s);
      var (ls, s') := GetLists(n - 1, s);
      var o := GetOption(ListCodec(n - 1), s').0;
      OptionRead(ListCodec(n - 1), s');
      ListReadOk(ListSize(n - 1), GetU1(s').1);
      ListIsSized(ListSize(n - 1), GetU1(s').1);
      var all := GetLists(n, s).0;
      assert all == ls + [o];
      assert forall i :: 0 <= i < n - 1 ==> all[i] == ls[i];
      assert all[n - 1] == o;
      ListsSnoc(ls, o);
    }
  }

  // Sequence parameter sets

  predicate ChromaInLimits(c: S.Chroma) {
    c.formatIdc <= MAX_UE && c.bitDepthLumaMinus8 <= MAX_UE && c.bitDepthChromaMinus8 <= MAX_UE &&
    (c.scalingLists.Some? ==> c.formatIdc != 3 && ListsInLimits(c.scalingLists.value))
  }

  predicate PicOrderInLimits(p: S.PicOrder) {
    match p
    case Lsb(log2) => log2 <= MAX_UE
    case Cycle(_, nonRef, topToBottom, offsets) =>
      -MAX_SE <= nonRef <= MAX_SE && -MAX_SE <= topToBottom <= MAX_SE &&
      |offsets| <= MAX_UE && forall o <- offsets :: -MAX_SE <= o <= MAX_SE
    case OtherType(t) => t <= MAX_UE
  }

  predicate FormatInLimits(f: S.Format) {
    f.numRefFrames <= MAX_UE && f.picWidthInMbsMinus1 <= MAX_UE && f.picHeightInMapUnitsMinus1 <= MAX_UE &&
    (f.cropping.Some? ==> S.CroppingOk(f.cropping.value))
  }

  predicate SpsInLimits(x: S.Sps) {
    x.head.id <= MAX_UE && (x.chroma.Some? ==> ChromaInLimits(x.chroma.value)) &&
    x.log2MaxFrameNumMinus4 <= MAX_UE && PicOrderInLimits(x.picOrder) && FormatInLimits(x.format) &&
    (x.vui.Some? ==> VuiInLimits(x.vui.value))
  }

  lemma HeadReadOk(s: Input)
    ensures S.HeadOk(S.GetHead(s).0) <==> S.GetHead(s).0.id <= MAX_UE
  {
    hide GetU8, GetU1, GetUE, Skip;
    NumbersRead();
  }

  lemma ChromaReadOk(s: Input)
    ensures S.ChromaOk(S.GetChroma(s).0) <==> ChromaInLimits(S.GetChroma(s).0)
  {
    hide GetUE, GetU1, GetLists, ListsOk, ListsInLimits, SizesOk;
    var (format, s1) := GetUE(s);
    var (residual, s2) := if format == 3 then GetU1(s1) else (false, s1);
    var s5 := GetU1(GetUE(GetUE(s2).1).1).1;
    ListsReadOk(S.ListCount(format), GetU1(s5).1);
    assert S.GetChroma(s).0.scalingLists == S.GetMatrices(format, s5).0;
  }

  lemma PicOrderReadOk(s: Input)
    ensures S.PicOrderOk(S.GetPicOrder(s).0) <==> PicOrderInLimits(S.GetPicOrder(s).0)
  {
    hide GetUE, GetU1, GetSE, GetMany;
  }

  lemma FormatReadOk(s: Input)
    ensures S.FormatOk(S.GetFormat(s).0) <==> FormatInLimits(S.GetFormat(s).0)
  {
    hide GetUE, GetU1, GetOption, S.CroppingOk;
  }

  lemma ChromaIsWritable(c: S.Chroma)
    ensures S.ChromaOk(c) ==> S.ChromaWritable(c)
  {}

  lemma SpsReadOk(s: Input)
    ensures S.SpsOk(S.GetSps(s).0) <==> SpsInLimits(S.GetSps(s).0)
  {
    hide S.GetHead, S.GetChroma, GetUE, S.GetPicOrder, S.GetFormat, GetOption, GetVui, S.HeadOk, S.ChromaOk;
    hide ChromaInLimits;
    hide S.PicOrderOk, PicOrderInLimits, S.FormatOk, FormatInLimits, VuiOk, VuiInLimits, S.IsHighProfile, GetU1;
    var (head, s1) := S.GetHead(s);
    var (chroma, s2) := S.GetChromaPart(head.profileIdc, s1);
    var (log2, s3) := GetUE(s2);
    var (picOrder, s4) := S.GetPicOrder(s3);
    var (format, s5) := S.GetFormat(s4);
    HeadReadOk(s);
    ChromaReadOk(s1);
    PicOrderReadOk(s3);
    FormatReadOk(s4);
    OptionRead(VUI, s5);
    VuiReadOk(GetU1(s5).1);
    assert chroma.Some? ==> (S.ChromaOk(chroma.value) ==> S.ChromaWritable(chroma.value)) by {
      ChromaIsWritable(S.GetChroma(s1).0);
    }
  }

  /** A set that was read from any bits, written out and read again, is the same set. */
  lemma ReadSpsIsNormal(s: Input, rest: seq<bool>)
    requires SpsInLimits(S.GetSps(s).0)
    ensures
      var x := S.GetSps(s).0;
      S.GetSps(From(S.PutSps(x, rest))) == (x, From(rest))
  {
    hide S.GetSps, SpsInLimits, S.SpsOk;
    SpsReadOk(s);
    S.SpsRoundTrip(S.GetSps(s).0, rest);
  }

  // Picture parameter sets

  predicate MapInLimits(n: nat, m: P.GroupMap) {
    match m
    case Interleaved(runs) => forall r <- runs :: r <= MAX_UE
    case Foreground(rects) => forall r <- rects :: P.RectOk(r)
    case Changing(_, _, rate) => rate <= MAX_UE
    case Explicit(ids) => |ids| <= MAX_UE + 1 && forall i <- ids :: i <= n
    case OtherMap(t) => t <= MAX_UE
  }

  predicate GroupsInLimits(g: P.SliceGroups) {
    g.Groups? ==> g.numMinus1 <= MAX_UE && MapInLimits(g.numMinus1, g.groupMap)
  }

  predicate PredictionInLimits(x: P.Prediction) {
    x.numRefIdxL0ActiveMinus1 <= MAX_UE && x.numRefIdxL1ActiveMinus1 <= MAX_UE &&
    -MAX_SE <= x.picInitQpMinus26 <= MAX_SE && -MAX_SE <= x.picInitQsMinus26 <= MAX_SE &&
    -MAX_SE <= x.chromaQpIndexOffset <= MAX_SE
  }

  predicate TailInLimits(x: P.Tail) {
    -MAX_SE <= x.secondChromaQpIndexOffset <= MAX_SE && (x.scalingLists.Some? ==> ListsInLimits(x.scalingLists.value))
  }

  predicate PpsInLimits(x: P.Pps) {
    x.id <= MAX_UE && x.spsId <= MAX_UE && GroupsInLimits(x.groups) && PredictionInLimits(x.prediction) &&
      TailInLimits(x.tail)
  }

  lemma MapReadOk(n: nat, s: Input)
    ensures P.MapOk(n, P.GetMap(n, s).0) <==> MapInLimits(n, P.GetMap(n, s).0)
  {
    hide GetUE, GetU1, GetMany, P.RectOk, P.IntLog2;
    var (t, s1) := GetUE(s);
    var (size, s2) := GetUE(s1);
    assert |GetMany(UE, n + 1, s1).0| == n + 1 && |GetMany(P.RECT, n, s1).0| == n;
    assert |GetMany(U(P.IntLog2(n + 1)), size + 1, s2).0| == size + 1;
  }

  lemma GroupsReadOk(s: Input)
    ensures P.GroupsOk(P.GetGroups(s).0) <==> GroupsInLimits(P.GetGroups(s).0)
  {
    hide GetUE, P.GetMap, P.MapOk, MapInLimits;
    MapReadOk(GetUE(s).0, GetUE(s).1);
  }

  lemma PredictionReadOk(s: Input)
    ensures P.PredictionOk(P.GetPrediction(s).0) <==> PredictionInLimits(P.GetPrediction(s).0)
  {
    hide GetUE, GetU1, GetU, GetSE;
    NumbersRead();
    SmallWidths();
    var s3 := GetU1(GetUE(GetUE(s).1).1).1;
    assert P.GetPrediction(s).0.weightedBipredIdc == GetU(2, s3).0 < Pow2(2);
  }

  lemma TailReadOk(s: Input)
    ensures
      var x := P.GetTail(s).0;
      (P.TailOk(x) <==> TailInLimits(x)) && (P.TailOk(x) ==> P.TailWritable(x))
  {
    hide GetU1, GetSE, GetLists, ListsOk, ListsInLimits, SizesOk, MoreData;
    if MoreData(s) {
      var (transform, s1) := GetU1(s);
      ListsReadOk(P.TailLists(transform), GetU1(s1).1);
      assert P.GetTail(s).0.scalingLists == P.GetMatrices(transform, s1).0;
    }
  }

  lemma PpsReadOk(s: Input)
    ensures P.PpsOk(P.GetPps(s).0) <==> PpsInLimits(P.GetPps(s).0)
  {
    hide GetUE, GetU1, P.GetGroups, P.GetPrediction, P.GetTail, P.GroupsOk, GroupsInLimits, P.PredictionOk;
    hide PredictionInLimits, P.TailOk, P.TailWritable, TailInLimits;
    var s4 := GetU1(GetU1(GetUE(GetUE(s).1).1).1).1;
    var s5 := P.GetGroups(s4).1;
    var s6 := P.GetPrediction(s5).1;
    GroupsReadOk(s4);
    PredictionReadOk(s5);
    TailReadOk(s6);
  }

  /** A set that was read from any bits, written out and read again in front of a stop bit, is the same set. */
  lemma ReadPpsIsNormal(s: Input, rest: seq<bool>)
    requires PpsInLimits(P.GetPps(s).0) && StopOnly(rest)
    ensures
      var x := P.GetPps(s).0;
      P.GetPps(From(P.PutPps(x, rest))) == (x, From(rest))
  {
    hide P.GetPps, PpsInLimits, P.PpsOk;
    PpsReadOk(s);
    P.PpsRoundTrip(P.GetPps(s).0, rest);
  }
}
