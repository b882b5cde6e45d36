/**
 The syntax tables of parameter sets, sections 7.3.2.1.1, 7.3.2.1.1.1, 7.3.2.2, E.1.1
 and E.1.2 of ITU-T H.264, as lists of elements. Every condition and every number
 stands here as the tables have it; that the codes and the readers go by these
 lists is proved.
 */
module ParameterSetSyntax {
  import opened Bits
  import opened BitSyntax
  import opened Fields
  import opened Syntax
  import opened HrdParameters
  import opened VuiParameters
  import opened ScalingLists
  import S = SequenceParameterSet
  import P = PictureParameterSet
  import Lengths

  // HRD parameters, section E.1.2

  function CpbList(c: Cpb): seq<Field> {
    [Exp(c.bitRateValueMinus1), Exp(c.cpbSizeValueMinus1), Flag(c.cbrFlag)]
  }

  function HrdStart(h: Hrd): seq<Field> {
    [Exp(if h.cpbs == [] then 0 else |h.cpbs| - 1), Word(4, h.bitRateScale), Word(4, h.cpbSizeScale)]
  }

  function HrdEnd(h: Hrd): seq<Field> {
    [Word(5, h.initialCpbRemovalDelayLengthMinus1), Word(5, h.cpbRemovalDelayLengthMinus1),
     Word(5, h.dpbOutputDelayLengthMinus1), Word(5, h.timeOffsetLength)]
  }

  function HrdList(h: Hrd): seq<Field> {
    HrdStart(h) + ManyList(CpbList, h.cpbs) + HrdEnd(h)
  }

  lemma CpbSyntax()
    ensures WritesList(CPB, CpbList) && ReadsList(CPB, CpbList)
  {
    hide PutFields, PastFrom, PutField, GetField, PutUE, PutU1, GetUE, GetU1, CpbOk, From;
    Kinds();
    OneByOne();
  }

  lemma HrdStartWritten(h: Hrd, rest: seq<bool>)
    ensures Code(HrdStart(h), rest) == PutUE(CpbCntMinus1(h), PutU(4, h.bitRateScale, PutU(4, h.cpbSizeScale, rest)))
  {
    hide PutFields, PutField, PutUE, PutU, GetU, From;
    Kinds();
    OneByOne();
  }

  lemma HrdEndWritten(h: Hrd, rest: seq<bool>)
    ensures Code(HrdEnd(h), rest) ==
            PutU(5, h.initialCpbRemovalDelayLengthMinus1, PutU(5, h.cpbRemovalDelayLengthMinus1,
            PutU(5, h.dpbOutputDelayLengthMinus1, PutU(5, h.timeOffsetLength, rest))))
  {
    hide PutFields, PutField, PutU, GetU, From;
    Kinds();
    OneByOne();
  }

  lemma HrdWritten(h: Hrd, rest: seq<bool>)
    ensures PutHrd(h, rest) == Code(HrdList(h), rest)
  {
    hide PutFields, PutUE, PutU, GetHrd, HrdOk, PutFrom, GetMany, InvertsAll, ManyList, HrdStart, HrdEnd, From;
    CpbSyntax();
    var a, b, c := HrdStart(h), ManyList(CpbList, h.cpbs), HrdEnd(h);
    var end := Code(c, rest);
    HrdEndWritten(h, rest);
    ManyWritten(CPB, CpbList, h.cpbs, end);
    HrdStartWritten(h, Code(b, end));
    CodeOfTwo(a + b, c, 0, rest);
    CodeOfTwo(a, b, 0, end);
  }

  lemma HrdRead(s: Input)
    ensures GetHrd(s).0.cpbs != []
    ensures Past(HrdList(GetHrd(s).0), s) == Some(GetHrd(s).1)
  {
    hide PastFrom, GetField, GetUE, GetU, GetMany, ManyList;
    Kinds();
    CpbSyntax();
    var h := GetHrd(s).0;
    var s3 := GetU(4, GetU(4, GetUE(s).1).1).1;
    ManyRead(CPB, CpbList, |h.cpbs|, s3);
    var s4 := GetMany(CPB, |h.cpbs|, s3).1;
    assert Past(HrdStart(h), s) == Some(s3) by { OneByOne(); }
    assert Past(HrdEnd(h), s4) == Some(GetHrd(s).1) by { OneByOne(); }
    PastTwo(HrdStart(h) + ManyList(CpbList, h.cpbs), HrdEnd(h), 0, s);
    PastTwo(HrdStart(h), ManyList(CpbList, h.cpbs), 0, s);
  }

  lemma HrdSyntax()
    ensures WritesList(HRD, HrdList) && ReadsList(HRD, HrdList)
  {
    hide PutHrd, GetHrd, HrdList, Code, Past;
    forall h, rest
      ensures PutHrd(h, rest) == Code(HrdList(h), rest)
    {
      HrdWritten(h, rest);
    }
    forall s
      ensures Past(HrdList(GetHrd(s).0), s) == Some(GetHrd(s).1)
    {
      HrdRead(s);
    }
  }

  // VUI parameters, section E.1.1

  function AspectList(a: Aspect): seq<Field> {
    if a.idc == 255 then [Octet(a.idc), Word(16, a.sarWidth), Word(16, a.sarHeight)] else [Octet(a.idc)]
  }

  function ColourList(c: Colour): seq<Field> {
    [Octet(c.primaries), Octet(c.transfer), Octet(c.matrix)]
  }

  function VideoSignalList(v: VideoSignal): seq<Field> {
    [Word(3, v.videoFormat), Flag(v.fullRange)] + OptionList(ColourList, v.colour)
  }

  function ChromaLocList(c: ChromaLoc): seq<Field> {
    [Exp(c.topField), Exp(c.bottomField)]
  }

  function TimingList(t: Timing): seq<Field> {
    [Word(32, t.numUnitsInTick), Word(32, t.timeScale), Flag(t.fixedFrameRate)]
  }

  function RestrictionList(r: Restriction): seq<Field> {
    [Flag(r.motionVectorsOverPicBoundaries), Exp(r.maxBytesPerPicDenom), Exp(r.maxBitsPerMbDenom),
     Exp(r.log2MaxMvLengthHorizontal), Exp(r.log2MaxMvLengthVertical), Exp(r.numReorderFrames),
     Exp(r.maxDecFrameBuffering)]
  }

  /** low_delay_hrd_flag is sent when one of the two HRD structures is. */
  function LowDelayList(v: Vui): seq<Field> {
    if v.nalHrd.Some? || v.vclHrd.Some? then [Flag(v.lowDelayHrd)] else []
  }

  function VuiStart(v: Vui): seq<Field> {
    OptionList(AspectList, v.aspect) +
    OptionList(FlagList, v.overscanAppropriate) +
    OptionList(VideoSignalList, v.videoSignal) +
    OptionList(ChromaLocList, v.chromaLoc) +
    OptionList(TimingList, v.timing)
  }

  function VuiEnd(v: Vui): seq<Field> {
    OptionList(HrdList, v.nalHrd) +
    OptionList(HrdList, v.vclHrd) +
    LowDelayList(v) +
    [Flag(v.picStructPresent)] +
    OptionList(RestrictionList, v.restriction)
  }

  function VuiList(v: Vui): seq<Field> {
    VuiStart(v) + VuiEnd(v)
  }

  /** What is not sent is 0. */
  predicate VuiDefaults(v: Vui) {
    (v.aspect.Some? && v.aspect.value.idc != 255 ==> v.aspect.value.sarWidth == v.aspect.value.sarHeight == 0) &&
    (v.nalHrd.None? && v.vclHrd.None? ==> !v.lowDelayHrd)
  }

  lemma AspectSyntax()
    ensures WritesList(ASPECT, AspectList) && ReadsList(ASPECT, AspectList)
  {
    hide PutFields, PastFrom, PutField, GetField, PutU8, PutU, GetU8, GetU, AspectOk, From;
    Kinds();
    OneByOne();
  }

  lemma ColourSyntax()
    ensures WritesList(COLOUR, ColourList) && ReadsList(COLOUR, ColourList)
  {
    hide PutFields, PastFrom, PutField, GetField, PutU8, GetU8, ColourOk, From;
    Kinds();
    OneByOne();
  }

  lemma VideoSignalSyntax()
    ensures WritesList(VIDEO_SIGNAL, VideoSignalList) && ReadsList(VIDEO_SIGNAL, VideoSignalList)
  {
    hide PutFields, PastFrom, PutField, GetField, PutU, PutU1, GetU, GetU1, PutOption, GetOption, VideoSignalOk;
    hide ColourList, OptionList, From;
    ColourSyntax();
    OptionSyntax(COLOUR, ColourList);
    Kinds();
    forall v: VideoSignal, rest
      ensures PutVideoSignal(v, rest) == Code(VideoSignalList(v), rest)
    {
      OneByOne();
      CodeOfTwo([Word(3, v.videoFormat), Flag(v.fullRange)], OptionList(ColourList, v.colour), 0, rest);
    }
    forall s
      ensures Past(VideoSignalList(GetVideoSignal(s).0), s) == Some(GetVideoSignal(s).1)
    {
      OneByOne();
      var v := GetVideoSignal(s).0;
      PastTwo([Word(3, v.videoFormat), Flag(v.fullRange)], OptionList(ColourList, v.colour), 0, s);
    }
  }

  lemma ChromaLocSyntax()
    ensures WritesList(CHROMA_LOC, ChromaLocList) && ReadsList(CHROMA_LOC, ChromaLocList)
  {
    hide PutFields, PastFrom, PutField, GetField, PutUE, GetUE, ChromaLocOk, From;
    Kinds();
    OneByOne();
  }

  lemma TimingSyntax()
    ensures WritesList(TIMING, TimingList) && ReadsList(TIMING, TimingList)
  {
    hide PutFields, PastFrom, PutField, GetField, PutU, PutU1, GetU, GetU1, TimingOk, From;
    Kinds();
    OneByOne();
  }

  lemma RestrictionSyntax()
    ensures WritesList(RESTRICTION, RestrictionList) && ReadsList(RESTRICTION, RestrictionList)
  {
    hide PutFields, PastFrom, PutField, GetField, PutUE, PutU1, GetUE, GetU1, RestrictionOk, From;
    Kinds();
    OneByOne();
  }

  lemma OneFlag(b: bool, rest: seq<bool>, s: Input)
    ensures Code([Flag(b)], rest) == PutU1(b, rest)
    ensures GetU1(s).0 == b ==> Past([Flag(b)], s) == Some(GetU1(s).1)
  {
    hide PutFields, PastFrom, PutField, GetField, PutU1, GetU1;
    Kinds();
    OneByOne();
  }

  lemma OptionsOfVui()
    ensures WritesList(ASPECT, AspectList) && ReadsList(ASPECT, AspectList)
    ensures WritesList(FLAG, FlagList) && ReadsList(FLAG, FlagList)
    ensures WritesList(VIDEO_SIGNAL, VideoSignalList) && ReadsList(VIDEO_SIGNAL, VideoSignalList)
    ensures WritesList(CHROMA_LOC, ChromaLocList) && ReadsList(CHROMA_LOC, ChromaLocList)
    ensures WritesList(TIMING, TimingList) && ReadsList(TIMING, TimingList)
    ensures WritesList(HRD, HrdList) && ReadsList(HRD, HrdList)
    ensures WritesList(RESTRICTION, RestrictionList) && ReadsList(RESTRICTION, RestrictionList)
  {
    hide WritesList, ReadsList;
    AspectSyntax();
    NumbersAndFlags();
    VideoSignalSyntax();
    ChromaLocSyntax();
    TimingSyntax();
    HrdSyntax();
    RestrictionSyntax();
  }

  lemma AllOptions()
    ensures forall o, rest {:trigger PutOption(ASPECT, o, rest)} ::
              PutOption(ASPECT, o, rest) == Code(OptionList(AspectList, o), rest)
    ensures forall o, rest {:trigger PutOption(FLAG, o, rest)} ::
              PutOption(FLAG, o, rest) == Code(OptionList(FlagList, o), rest)
    ensures forall o, rest {:trigger PutOption(VIDEO_SIGNAL, o, rest)} ::
              PutOption(VIDEO_SIGNAL, o, rest) == Code(OptionList(VideoSignalList, o), rest)
    ensures forall o, rest {:trigger PutOption(CHROMA_LOC, o, rest)} ::
              PutOption(CHROMA_LOC, o, rest) == Code(OptionList(ChromaLocList, o), rest)
    ensures forall o, rest {:trigger PutOption(TIMING, o, rest)} ::
              PutOption(TIMING, o, rest) == Code(OptionList(TimingList, o), rest)
    ensures forall o, rest {:trigger PutOption(HRD, o, rest)} ::
              PutOption(HRD, o, rest) == Code(OptionList(HrdList, o), rest)
    ensures forall o, rest {:trigger PutOption(RESTRICTION, o, rest)} ::
              PutOption(RESTRICTION, o, rest) == Code(OptionList(RestrictionList, o), rest)
  {
    hide WritesList, ReadsList, PutOption, OptionList, Code;
    OptionsOfVui();
    OptionSyntax(ASPECT, AspectList);
    OptionSyntax(FLAG, FlagList);
    OptionSyntax(VIDEO_SIGNAL, VideoSignalList);
    OptionSyntax(CHROMA_LOC, ChromaLocList);
    OptionSyntax(TIMING, TimingList);
    OptionSyntax(HRD, HrdList);
    OptionSyntax(RESTRICTION, RestrictionList);
  }

  lemma VuiStartWritten(v: Vui, rest: seq<bool>)
    ensures Code(VuiStart(v), rest) ==
            PutOption(ASPECT, v.aspect,
            PutOption(FLAG, v.overscanAppropriate,
            PutOption(VIDEO_SIGNAL, v.videoSignal,
            PutOption(CHROMA_LOC, v.chromaLoc,
            PutOption(TIMING, v.timing, rest)))))
  {
    hide PutOption, OptionList, Code, GetOption, Inverts, From;
    AllOptions();
    Joined();
  }

  lemma VuiEndWritten(v: Vui, rest: seq<bool>)
    ensures Code(VuiEnd(v), rest) ==
            PutOption(HRD, v.nalHrd,
            PutOption(HRD, v.vclHrd,
            PutLowDelay(v,
            PutU1(v.picStructPresent,
            PutOption(RESTRICTION, v.restriction, rest)))))
  {
    hide PutU1, PutOption, OptionList, Code, GetOption, Inverts, From;
    AllOptions();
    Joined();
    var r1 := PutOption(RESTRICTION, v.restriction, rest);
    OneFlag(v.picStructPresent, r1, From([]));
    OneFlag(v.lowDelayHrd, PutU1(v.picStructPresent, r1), From([]));
  }

  lemma VuiWritten(v: Vui, rest: seq<bool>)
    ensures PutVui(v, rest) == Code(VuiList(v), rest)
  {
    hide PutU1, PutOption, PutLowDelay, VuiStart, VuiEnd, PutFields, GetVui, VuiOk, From;
    VuiEndWritten(v, rest);
    VuiStartWritten(v, Code(VuiEnd(v), rest));
    CodeOfTwo(VuiStart(v), VuiEnd(v), 0, rest);
  }

  lemma AspectDefaults(s: Input)
    ensures
      var o := GetOption(ASPECT, s).0;
      o.Some? && o.value.idc != 255 ==> o.value.sarWidth == o.value.sarHeight == 0
  {
    hide GetU1, GetU8, GetU;
  }

  /** Whatever is read, the elements of the list stand there, and what is not sent is 0. */
  lemma VuiRead(s: Input)
    ensures VuiDefaults(GetVui(s).0)
    ensures Past(VuiList(GetVui(s).0), s) == Some(GetVui(s).1)
  {
    hide GetU1, GetOption, OptionList, Past, WritesList, ReadsList;
    OptionsOfVui();
    OptionSyntax(ASPECT, AspectList);
    OptionSyntax(FLAG, FlagList);
    OptionSyntax(VIDEO_SIGNAL, VideoSignalList);
    OptionSyntax(CHROMA_LOC, ChromaLocList);
    OptionSyntax(TIMING, TimingList);
    OptionSyntax(HRD, HrdList);
    OptionSyntax(RESTRICTION, RestrictionList);
    Joined();
    forall b, r: Input
      ensures GetU1(r).0 == b ==> Past([Flag(b)], r) == Some(GetU1(r).1)
    {
      OneFlag(b, [], r);
    }
    AspectDefaults(s);
  }

  // Scaling lists, section 7.3.2.1.1.1

  /** lastScale before entry j. */
  function LastScale(es: seq<int>, j: nat): int
    requires j <= |es|
  {
    if j == 0 then 8 else es[j - 1]
  }

  /** nextScale with delta_scale number j: (lastScale + delta_scale + 256) % 256, with the remainder of C. */
  function NextScale(es: seq<int>, ds: seq<int>, j: nat): int
    requires j < |ds| && j <= |es|
  {
    var a := LastScale(es, j) + ds[j] + 256;
    if a >= 0 then a % 256 else -(-a % 256)
  }

  /** The entries that the deltas ds make: deltas are sent up to the first that makes nextScale 0. */
  predicate Follow(es: seq<int>, ds: seq<int>) {
    |ds| <= |es| &&
    (forall j :: 0 <= j < |ds| ==>
       es[j] == if NextScale(es, ds, j) == 0 then LastScale(es, j) else NextScale(es, ds, j)) &&
    (forall j :: 0 <= j < |ds| - 1 ==> NextScale(es, ds, j) != 0) &&
    (forall j :: |ds| <= j < |es| ==> es[j] == LastScale(es, j)) &&
    (0 < |ds| < |es| ==> NextScale(es, ds, |ds| - 1) == 0)
  }

  predicate ListMeans(n: nat, ds: seq<int>, l: ScalingList) {
    |l.entries| == n && ds != [] && Follow(l.entries, ds) && (l.useDefault <==> NextScale(l.entries, ds, 0) == 0)
  }

  function DeltaList(ds: seq<int>): seq<Field> {
    ManyList(SignedList, ds)
  }

  lemma OneDelta(v: int, s: Input)
    ensures GetSE(s).0 == v ==> Past([Signed(v)], s) == Some(GetSE(s).1)
  {
    hide PastFrom, GetField, GetSE;
    Kinds();
    OneByOne();
  }

  lemma DeltasSnoc(ds: seq<int>, v: int, s: Input, s': Input)
    requires Past(DeltaList(ds), s) == Some(s') && GetSE(s').0 == v
    ensures Past(DeltaList(ds + [v]), s) == Some(GetSE(s').1)
  {
    hide PastFrom, GetSE;
    assert (ds + [v])[..|ds|] == ds;
    PastTwo(DeltaList(ds), [Signed(v)], 0, s);
    OneDelta(v, s');
  }

  /** An entry more does not change the scales before it. */
  lemma ScalesStay(es: seq<int>, ds: seq<int>, e: int, j: nat)
    requires j <= |es|
    ensures LastScale(es + [e], j) == LastScale(es, j)
    ensures j < |ds| ==> NextScale(es + [e], ds, j) == NextScale(es, ds, j)
    ensures j < |ds| ==> forall v :: NextScale(es + [e], ds + [v], j) == NextScale(es, ds, j)
  {}

  lemma LastDelta(es: seq<int>, ds: seq<int>, e: int, v: int)
    requires |ds| == |es|
    ensures NextScale(es + [e], ds + [v], |ds|) == CMod(LastScale(es, |es|) + v + 256, 256)
  {}

  lemma FollowMore(es: seq<int>, ds: seq<int>, e: int, v: int)
    requires Follow(es, ds) && |ds| == |es| && (ds != [] ==> NextScale(es, ds, |ds| - 1) != 0)
    requires
      var next := CMod(LastScale(es, |es|) + v + 256, 256);
      e == if next == 0 then LastScale(es, |es|) else next
    ensures Follow(es + [e], ds + [v])
    ensures NextScale(es + [e], ds + [v], |ds|) == CMod(LastScale(es, |es|) + v + 256, 256)
  {
    hide NextScale, LastScale, CMod;
    LastDelta(es, ds, e, v);
    forall j | 0 <= j <= |es|
      ensures LastScale(es + [e], j) == LastScale(es, j)
      ensures j < |ds| ==> NextScale(es + [e], ds + [v], j) == NextScale(es, ds, j)
    {
      ScalesStay(es, ds, e, j);
    }
  }

  lemma FollowSame(es: seq<int>, ds: seq<int>)
    requires Follow(es, ds) && ds != [] && NextScale(es, ds, |ds| - 1) == 0
    ensures
      var es' := es + [LastScale(es, |es|)];
      Follow(es', ds) && forall j :: 0 <= j < |ds| ==> NextScale(es', ds, j) == NextScale(es, ds, j)
  {
    hide NextScale, LastScale;
    forall j | 0 <= j <= |es|
      ensures LastScale(es + [LastScale(es, |es|)], j) == LastScale(es, j)
      ensures j < |ds| ==> NextScale(es + [LastScale(es, |es|)], ds, j) == NextScale(es, ds, j)
    {
      ScalesStay(es, ds, LastScale(es, |es|), j);
    }
  }

  lemma NoDeltas(s: Input)
    ensures Past(DeltaList([]), s) == Some(s) && Follow([], [])
  {}

  lemma FollowFits(es: seq<int>, ds: seq<int>)
    requires Follow(es, ds)
    ensures |ds| <= |es|
  {}

  lemma KeepsFirst(es: seq<int>, ds: seq<int>, e: int, v: int)
    requires ds != [] ==> |es| > 0
    ensures ds != [] ==> NextScale(es + [e], ds + [v], 0) == NextScale(es, ds, 0)
  {}

  lemma {:induction false} RunRead(n: nat, s: Input) returns (ds: seq<int>)
    ensures
      var c := Run(n, s);
      Past(DeltaList(ds), s) == Some(c.s) && Follow(c.entries, ds) && (n > 0 ==> ds != []) &&
      (c.next != 0 ==> |ds| == n) && (ds == [] ==> c.next != 0 && !c.useDefault) &&
      (ds != [] ==> (c.next == 0 <==> NextScale(c.entries, ds, |ds| - 1) == 0) &&
                    (c.useDefault <==> NextScale(c.entries, ds, 0) == 0))
  {
    hide GetSE, CMod, Past, DeltaList, Follow;
    ds := [];
    if n == 0 {
      NoDeltas(s);
    } else {
      ds := RunRead(n - 1, s);
      var c := Run(n - 1, s);
      assert |ds| <= n - 1 by { FollowFits(c.entries, ds); }
      if c.next != 0 {
        var v := GetSE(c.s).0;
        DeltasSnoc(ds, v, s, c.s);
        FollowMore(c.entries, ds, Run(n, s).entries[n - 1], v);
        KeepsFirst(c.entries, ds, Run(n, s).entries[n - 1], v);
        ds := ds + [v];
      } else {
        FollowSame(c.entries, ds);
      }
    }
  }

  /** Whatever is read, the deltas stand there that make the list. */
  lemma ListRead(n: nat, s: Input) returns (ds: seq<int>)
    requires n > 0
    ensures ListMeans(n, ds, GetScalingList(n, s).0) && Past(DeltaList(ds), s) == Some(GetScalingList(n, s).1)
  {
    hide Run, Follow, DeltaList;
    ds := RunRead(n, s);
  }

  /** The deltas that are written for a list. */
  function Deltas(l: ScalingList): (ds: seq<int>)
    ensures |ds| == if l.useDefault && l.entries != [] then 1 else |l.entries|
  {
    hide Delta;
    seq(if l.useDefault && l.entries != [] then 1 else |l.entries|, j requires 0 <= j < |l.entries| => Delta(l, j))
  }

  lemma {:induction false} EntriesWritten(n: nat, l: ScalingList, j: nat, rest: seq<bool>)
    requires ListOk(n, l) && j <= n
    ensures PutEntries(l, j, rest) == PutFrom(SE, Deltas(l), if j <= |Deltas(l)| then j else |Deltas(l)|, rest)
    decreases n - j
  {
    hide PutSE, Delta, NextAt, CMod;
    if j < n {
      EntriesWritten(n, l, j + 1, rest);
      DeltaUndone(n, l, j);
    }
  }

  lemma ListSizePositive(n: nat, l: ScalingList)
    requires ListOk(n, l)
    ensures n > 0
  {}

  lemma StopsAtOnce(n: nat, l: ScalingList, j: nat)
    requires ListOk(n, l) && j < n
    ensures NextAt(l, j + 1) == 0 <==> l.useDefault
  {
    hide NextAt;
    NextAtOk(n, l, j + 1);
  }

  lemma DefaultRepeats(n: nat, l: ScalingList)
    requires ListOk(n, l) && l.useDefault
    ensures forall j :: 0 <= j < n ==> l.entries[j] == LastScale(l.entries, j)
  {}

  lemma DeltasMean(n: nat, l: ScalingList)
    requires ListOk(n, l)
    ensures ListMeans(n, Deltas(l), l)
  {
    hide Delta, NextAt, ListOk;
    ListSizeIs(n, l);
    assert n > 0 by { ListSizePositive(n, l); }
    forall j | 0 <= j < |Deltas(l)|
      ensures NextScale(l.entries, Deltas(l), j) == NextAt(l, j + 1) && LastScale(l.entries, j) == LastAt(l, j)
      ensures NextAt(l, j + 1) == 0 <==> l.useDefault
      ensures l.entries[j] == if NextAt(l, j + 1) == 0 then LastAt(l, j) else NextAt(l, j + 1)
    {
      DeltaUndone(n, l, j);
      StopsAtOnce(n, l, j);
    }
    if l.useDefault {
      DefaultRepeats(n, l);
    }
  }

  lemma ListWritten(n: nat, l: ScalingList, rest: seq<bool>)
    requires ListOk(n, l)
    ensures PutScalingList(n, l, rest) == Code(DeltaList(Deltas(l)), rest) && ListMeans(n, Deltas(l), l)
  {
    hide PutFrom, Code, PutEntries, GetScalingList, From, WritesList, ReadsList;
    EntriesWritten(n, l, 0, rest);
    NumbersAndFlags();
    ManyWritten(SE, SignedList, Deltas(l), rest);
    DeltasMean(n, l);
  }

  /** The lists of a set: the first six have 16 entries, the others 64. */
  predicate ListsMean(ls: seq<Option<ScalingList>>, ds: seq<seq<int>>) {
    |ds| == |ls| &&
    forall i :: 0 <= i < |ls| && ls[i].Some? ==> ListMeans(if i < 6 then 16 else 64, ds[i], ls[i].value)
  }

  lemma MeanSizes(ls: seq<Option<ScalingList>>, ds: seq<seq<int>>)
    requires ListsMean(ls, ds)
    ensures |ds| == |ls|
  {}

  function OneListList(o: Option<ScalingList>, d: seq<int>): seq<Field> {
    if o.Some? then [Flag(true)] + DeltaList(d) else [Flag(false)]
  }

  function ListsList(ls: seq<Option<ScalingList>>, ds: seq<seq<int>>): seq<Field>
    requires |ds| == |ls|
  {
    if ls == [] then [] else
    var n := |ls| - 1;
    ListsList(ls[..n], ds[..n]) + OneListList(ls[n], ds[n])
  }

  lemma OneListRead(i: nat, s: Input) returns (d: seq<int>)
    ensures
      var (o, s') := GetOption(ListCodec(i), s);
      (o.Some? ==> ListMeans(if i < 6 then 16 else 64, d, o.value)) && Past(OneListList(o, d), s) == Some(s')
  {
    hide PastFrom, GetField, GetU1, GetScalingList, ListMeans, DeltaList;
    var s' := GetU1(s).1;
    d := ListRead(if i < 6 then 16 else 64, s');
    OneFlag(GetU1(s).0, [], s);
    PastTwo([Flag(true)], DeltaList(d), 0, s);
  }

  lemma OneListMore(ls: seq<Option<ScalingList>>, ds: seq<seq<int>>, o: Option<ScalingList>, d: seq<int>)
    requires ListsMean(ls, ds) && (o.Some? ==> ListMeans(if |ls| < 6 then 16 else 64, d, o.value))
    ensures ListsMean(ls + [o], ds + [d])
    ensures |ds| == |ls| && ListsList(ls + [o], ds + [d]) == ListsList(ls, ds) + OneListList(o, d)
  {
    hide ListMeans, OneListList;
    assert (ls + [o])[..|ls|] == ls && (ds + [d])[..|ds|] == ds;
  }

  lemma NoListsSent(rest: seq<bool>, s: Input)
    ensures ListsMean([], []) && Code(ListsList([], []), rest) == rest && Past(ListsList([], []), s) == Some(s)
  {}

  lemma {:induction false} ListsRead(n: nat, s: Input) returns (ds: seq<seq<int>>)
    ensures ListsMean(GetLists(n, s).0, ds) && Past(ListsList(GetLists(n, s).0, ds), s) == Some(GetLists(n, s).1)
  {
    hide PastFrom, GetOption, ListCodec, ListMeans, OneListList, ListsMean, ListsList;
    ds := [];
    if n == 0 {
      NoListsSent([], s);
    } else {
      ds := ListsRead(n - 1, s);
      var (ls, s') := GetLists(n - 1, s);
      var d := OneListRead(n - 1, s');
      var o := GetOption(ListCodec(n - 1), s').0;
      MeanSizes(ls, ds);
      OneListMore(ls, ds, o, d);
      PastTwo(ListsList(ls, ds), OneListList(o, d), 0, s);
      ds := ds + [d];
    }
  }

  lemma {:induction false} PutListsSnoc(ls: seq<Option<ScalingList>>, o: Option<ScalingList>, i: nat, rest: seq<bool>)
    requires i <= |ls|
    ensures PutListsFrom(ls + [o], i, rest) == PutListsFrom(ls, i, PutOption(ListCodec(|ls|), o, rest))
    decreases |ls| - i
  {
    hide PutOption, ListCodec;
    if i < |ls| {
      PutListsSnoc(ls, o, i + 1, rest);
    } else {
      assert PutListsFrom(ls + [o], i + 1, rest) == rest;
    }
  }

  lemma OneListWritten(i: nat, o: Option<ScalingList>, rest: seq<bool>) returns (d: seq<int>)
    requires o.Some? ==> ListOk(ListSize(i), o.value)
    ensures o.Some? ==> ListMeans(if i < 6 then 16 else 64, d, o.value)
    ensures PutOption(ListCodec(i), o, rest) == Code(OneListList(o, d), rest)
  {
    hide PutFields, PutField, PutU1, PutScalingList, ListMeans, DeltaList, GetOption, Inverts, ListOk;
    d := [];
    if o.Some? {
      d := Deltas(o.value);
      ListWritten(ListSize(i), o.value, rest);
      CodeOfTwo([Flag(true)], DeltaList(d), 0, rest);
      OneFlag(true, Code(DeltaList(d), rest), From([]));
    } else {
      OneFlag(false, rest, From([]));
    }
  }

  lemma {:induction false} ListsWritten(ls: seq<Option<ScalingList>>, rest: seq<bool>) returns (ds: seq<seq<int>>)
    requires ListsOk(ls)
    ensures ListsMean(ls, ds) && PutLists(ls, rest) == Code(ListsList(ls, ds), rest)
  {
    hide PutFields, PutOption, ListCodec, ListMeans, OneListList, ListOk, GetLists, From;
    ds := [];
    if ls == [] {
      OneByOne();
    } else {
      var n := |ls| - 1;
      assert ls == ls[..n] + [ls[n]];
      PutListsSnoc(ls[..n], ls[n], 0, rest);
      var d := OneListWritten(n, ls[n], rest);
      ds := ListsWritten(ls[..n], Code(OneListList(ls[n], d), rest));
      assert (ds + [d])[..n] == ds;
      CodeOfTwo(ListsList(ls[..n], ds), OneListList(ls[n], d), 0, rest);
      ds := ds + [d];
    }
  }

  // Sequence parameter sets, section 7.3.2.1.1

  function HeadList(h: S.Head, reserved: nat): seq<Field> {
    [Octet(h.profileIdc), Flag(h.constraintSet0), Flag(h.constraintSet1), Flag(h.constraintSet2),
     Flag(h.constraintSet3), Flag(h.constraintSet4), Flag(h.constraintSet5), Word(2, reserved), Octet(h.levelIdc),
     Exp(h.id)]
  }

  function ChromaStart(c: S.Chroma): seq<Field> {
    [Exp(c.formatIdc)] + (if c.formatIdc == 3 then [Flag(c.residualColourTransform)] else [])
  }

  function ChromaMiddle(c: S.Chroma): seq<Field> {
    [Exp(c.bitDepthLumaMinus8), Exp(c.bitDepthChromaMinus8), Flag(c.qpprimeYZeroTransformBypass),
     Flag(c.scalingLists.Some?)]
  }

  /** The lists of scaling matrices that are sent, at most n of them. */
  function Sent(c: S.Chroma, n: nat): seq<Option<ScalingList>> {
    if c.scalingLists.None? then []
    else if |c.scalingLists.value| <= n then c.scalingLists.value
    else c.scalingLists.value[..n]
  }

  /** The fields of the high profiles, with the first n lists of scaling matrices, of which ds are the deltas. */
  function ChromaList(c: S.Chroma, n: nat, ds: seq<seq<int>>): seq<Field>
    requires |ds| == |Sent(c, n)|
  {
    ChromaStart(c) + ChromaMiddle(c) + (if c.scalingLists.Some? then ListsList(Sent(c, n), ds) else [])
  }

  function PicOrderList(p: S.PicOrder): seq<Field> {
    match p
    case Lsb(log2) => [Exp(0), Exp(log2)]
    case Cycle(zero, nonRef, topToBottom, offsets) =>
      [Exp(1), Flag(zero), Signed(nonRef), Signed(topToBottom), Exp(|offsets|)] + ManyList(SignedList, offsets)
    case OtherType(t) => [Exp(t)]
  }

  function CroppingList(c: S.Cropping): seq<Field> {
    [Exp(c.left), Exp(c.right), Exp(c.top), Exp(c.bottom)]
  }

  function FormatList(f: S.Format): seq<Field> {
    [Exp(f.numRefFrames), Flag(f.gapsInFrameNumAllowed), Exp(f.picWidthInMbsMinus1),
     Exp(f.picHeightInMapUnitsMinus1), Flag(f.frameMbsOnly)] +
    (if f.frameMbsOnly then [] else [Flag(f.mbAdaptiveFrameField)]) +
    [Flag(f.direct8x8Inference)] + OptionList(CroppingList, f.cropping)
  }

  /** The profiles with chroma fields. */
  predicate HasChromaFields(profileIdc: nat) {
    profileIdc in {100, 110, 122, 244, 44, 83, 86, 118, 128, 138, 139, 134}
  }

  /** Which fields are there, and what is not sent is 0. */
  predicate SpsShape(x: S.Sps) {
    (x.chroma.Some? <==> HasChromaFields(x.head.profileIdc)) &&
    (x.chroma.Some? ==> x.chroma.value.residualColourTransform ==> x.chroma.value.formatIdc == 3) &&
    (x.chroma.Some? && x.chroma.value.scalingLists.Some? ==>
       |x.chroma.value.scalingLists.value| == if x.chroma.value.formatIdc != 3 then 8 else 12) &&
    (x.picOrder.OtherType? ==> x.picOrder.pocType > 1) &&
    (x.format.frameMbsOnly ==> !x.format.mbAdaptiveFrameField) &&
    (x.vui.Some? ==> VuiDefaults(x.vui.value))
  }

  function SentOf(x: S.Sps, n: nat): seq<Option<ScalingList>> {
    if x.chroma.Some? then Sent(x.chroma.value, n) else []
  }

  function SpsList(x: S.Sps, reserved: nat, n: nat, ds: seq<seq<int>>): seq<Field>
    requires |ds| == |SentOf(x, n)|
  {
    HeadList(x.head, reserved) +
    (if x.chroma.Some? then ChromaList(x.chroma.value, n, ds) else []) +
    [Exp(x.log2MaxFrameNumMinus4)] +
    PicOrderList(x.picOrder) +
    FormatList(x.format) +
    OptionList(VuiList, x.vui)
  }

  lemma HeadWritten(h: S.Head, rest: seq<bool>)
    ensures S.PutHead(h, rest) == Code(HeadList(h, 0), rest)
  {
    hide PutFields, PutField, PutU8, PutU1, PutU, PutUE, GetU8, GetU1, GetU, GetUE, From, S.GetHead, S.HeadOk;
    Kinds();
    OneByOne();
  }

  lemma HeadRead(s: Input) returns (reserved: nat)
    ensures Past(HeadList(S.GetHead(s).0, reserved), s) == Some(S.GetHead(s).1)
  {
    hide PastFrom, GetField, GetU8, GetU1, GetUE;
    Kinds();
    OneByOne();
    var s7 := GetU1(GetU1(GetU1(GetU1(GetU1(GetU1(GetU8(s).1).1).1).1).1).1).1;
    reserved := GetU(2, s7).0;
  }

  lemma CroppingSyntax()
    ensures WritesList(S.CROPPING, CroppingList) && ReadsList(S.CROPPING, CroppingList)
  {
    hide PutFields, PastFrom, PutField, GetField, PutUE, GetUE, S.CroppingOk, From;
    Kinds();
    OneByOne();
  }

  lemma FormatWritten(f: S.Format, rest: seq<bool>)
    ensures S.PutFormat(f, rest) == Code(FormatList(f), rest)
  {
    hide PutFields, PutField, PutU1, PutUE, GetU1, GetUE, PutOption, GetOption, OptionList, From, S.GetFormat;
    hide S.FormatOk;
    hide Inverts, WritesList, ReadsList;
    CroppingSyntax();
    OptionSyntax(S.CROPPING, CroppingList);
    var d := OptionList(CroppingList, f.cropping);
    var b := if f.frameMbsOnly then [] else [Flag(f.mbAdaptiveFrameField)];
    var a := [Exp(f.numRefFrames), Flag(f.gapsInFrameNumAllowed), Exp(f.picWidthInMbsMinus1),
              Exp(f.picHeightInMapUnitsMinus1), Flag(f.frameMbsOnly)];
    var c := [Flag(f.direct8x8Inference)];
    CodeOfTwo(a + b + c, d, 0, rest);
    CodeOfTwo(a + b, c, 0, Code(d, rest));
    CodeOfTwo(a, b, 0, Code(c, Code(d, rest)));
    Kinds();
    OneByOne();
  }

  lemma FormatRead(s: Input)
    ensures Past(FormatList(S.GetFormat(s).0), s) == Some(S.GetFormat(s).1)
    ensures S.GetFormat(s).0.frameMbsOnly ==> !S.GetFormat(s).0.mbAdaptiveFrameField
  {
    hide PastFrom, GetField, GetU1, GetUE, GetOption, OptionList, WritesList, ReadsList;
    CroppingSyntax();
    OptionSyntax(S.CROPPING, CroppingList);
    var f := S.GetFormat(s).0;
    var d := OptionList(CroppingList, f.cropping);
    var b := if f.frameMbsOnly then [] else [Flag(f.mbAdaptiveFrameField)];
    var a := [Exp(f.numRefFrames), Flag(f.gapsInFrameNumAllowed), Exp(f.picWidthInMbsMinus1),
              Exp(f.picHeightInMapUnitsMinus1), Flag(f.frameMbsOnly)];
    var c := [Flag(f.direct8x8Inference)];
    PastTwo(a + b + c, d, 0, s);
    PastTwo(a + b, c, 0, s);
    PastTwo(a, b, 0, s);
    Kinds();
    OneByOne();
  }

  lemma PicOrderWritten(p: S.PicOrder, rest: seq<bool>)
    ensures S.PutPicOrder(p, rest) == Code(PicOrderList(p), rest)
  {
    hide PutFields, PutField, PutU1, PutUE, PutSE, PutFrom, GetMany, ManyList, From, S.GetPicOrder, S.PicOrderOk;
    hide InvertsAll;
    Kinds();
    OneByOne();
    if p.Cycle? {
      NumbersAndFlags();
      ManyWritten(SE, SignedList, p.offsetsForRefFrame, rest);
      CodeOfTwo([Exp(1), Flag(p.deltaAlwaysZero), Signed(p.offsetForNonRefPic), Signed(p.offsetForTopToBottomField),
                 Exp(|p.offsetsForRefFrame|)], ManyList(SignedList, p.offsetsForRefFrame), 0, rest);
    }
  }

  lemma PicOrderRead(s: Input)
    ensures Past(PicOrderList(S.GetPicOrder(s).0), s) == Some(S.GetPicOrder(s).1)
    ensures S.GetPicOrder(s).0.OtherType? ==> S.GetPicOrder(s).0.pocType > 1
  {
    hide PastFrom, GetField, GetU1, GetUE, GetSE, GetMany, ManyList;
    Kinds();
    OneByOne();
    var p := S.GetPicOrder(s).0;
    if p.Cycle? {
      NumbersAndFlags();
      var s5 := GetUE(GetSE(GetSE(GetU1(GetUE(s).1).1).1).1).1;
      ManyRead(SE, SignedList, |p.offsetsForRefFrame|, s5);
      PastTwo([Exp(1), Flag(p.deltaAlwaysZero), Signed(p.offsetForNonRefPic), Signed(p.offsetForTopToBottomField),
               Exp(|p.offsetsForRefFrame|)], ManyList(SignedList, p.offsetsForRefFrame), 0, s);
    }
  }

  lemma ChromaStartSyntax(c: S.Chroma, rest: seq<bool>, s: Input)
    ensures Code(ChromaStart(c), rest) == PutUE(c.formatIdc, S.PutResidual(c, rest))
    ensures GetUE(s).0 == c.formatIdc && (c.formatIdc == 3 ==> GetU1(GetUE(s).1).0 == c.residualColourTransform) ==>
              Past(ChromaStart(c), s) == Some(if c.formatIdc == 3 then GetU1(GetUE(s).1).1 else GetUE(s).1)
  {
    hide PutFields, PastFrom, PutField, GetField, PutUE, PutU1, GetUE, GetU1, From;
    Kinds();
    var a := [Exp(c.formatIdc)];
    var b := if c.formatIdc == 3 then [Flag(c.residualColourTransform)] else [];
    CodeOfTwo(a, b, 0, rest);
    PastTwo(a, b, 0, s);
    OneByOne();
  }

  lemma ChromaMiddleSyntax(c: S.Chroma, rest: seq<bool>, s: Input)
    ensures Code(ChromaMiddle(c), rest) ==
            PutUE(c.bitDepthLumaMinus8, PutUE(c.bitDepthChromaMinus8, PutU1(c.qpprimeYZeroTransformBypass,
            PutU1(c.scalingLists.Some?, rest))))
    ensures
      var (luma, s1) := GetUE(s);
      var (chroma, s2) := GetUE(s1);
      var (bypass, s3) := GetU1(s2);
      var (present, s4) := GetU1(s3);
      luma == c.bitDepthLumaMinus8 && chroma == c.bitDepthChromaMinus8 && bypass == c.qpprimeYZeroTransformBypass &&
      present == c.scalingLists.Some? ==>
        Past(ChromaMiddle(c), s) == Some(s4)
  {
    hide PutFields, PastFrom, PutField, GetField, PutUE, PutU1, GetUE, GetU1, From;
    Kinds();
    OneByOne();
  }

  lemma FirstListsOk(ls: seq<Option<ScalingList>>, n: nat)
    requires ListsOk(ls)
    ensures n <= |ls| ==> ListsOk(ls[..n])
  {
    hide ListOk;
  }

  /** The writer sends the first eight lists in any format. */
  lemma ChromaWritten(c: S.Chroma, rest: seq<bool>) returns (ds: seq<seq<int>>)
    requires c.scalingLists.Some? ==> ListsOk(c.scalingLists.value)
    ensures ListsMean(Sent(c, 8), ds) && S.PutChroma(c, rest) == Code(ChromaList(c, 8, ds), rest)
  {
    hide PutFields, PutUE, PutU1, PutLists, ListsOk, ListMeans, From, S.GetChroma, S.ChromaOk, ChromaStart;
    hide ChromaMiddle;
    hide S.PutResidual, ListsList;
    ds := [];
    var lists := Sent(c, 8);
    var end := rest;
    if c.scalingLists.Some? {
      assert ListsOk(lists) by { FirstListsOk(c.scalingLists.value, 8); }
      ds := ListsWritten(lists, rest);
      end := PutLists(lists, rest);
    }
    var z := if c.scalingLists.Some? then ListsList(lists, ds) else [];
    assert Code(z, rest) == end by { OneByOne(); }
    CodeOfTwo(ChromaStart(c) + ChromaMiddle(c), z, 0, rest);
    CodeOfTwo(ChromaStart(c), ChromaMiddle(c), 0, end);
    ChromaMiddleSyntax(c, end, From([]));
    ChromaStartSyntax(c, Code(ChromaMiddle(c), end), From([]));
  }

  lemma ChromaRead(s: Input) returns (ds: seq<seq<int>>)
    ensures
      var (c, s') := S.GetChroma(s);
      var n := if c.formatIdc != 3 then 8 else 12;
      (c.residualColourTransform ==> c.formatIdc == 3) && (c.scalingLists.Some? ==> |c.scalingLists.value| == n) &&
      ListsMean(Sent(c, n), ds) && Past(ChromaList(c, n, ds), s) == Some(s')
  {
    hide PastFrom, GetUE, GetU1, GetLists, ListMeans, ChromaStart, ChromaMiddle, ListsList;
    var (c, s') := S.GetChroma(s);
    var n := if c.formatIdc != 3 then 8 else 12;
    var (format, s1) := GetUE(s);
    var s2 := if format == 3 then GetU1(s1).1 else s1;
    var s6 := GetU1(GetU1(GetUE(GetUE(s2).1).1).1).1;
    ds := [];
    if c.scalingLists.Some? {
      ds := ListsRead(n, s6);
    }
    var lists := Sent(c, n);
    var z := if c.scalingLists.Some? then ListsList(lists, ds) else [];
    assert Past(z, s6) == Some(s') by { OneByOne(); }
    ChromaStartSyntax(c, [], s);
    ChromaMiddleSyntax(c, [], s2);
    PastTwo(ChromaStart(c) + ChromaMiddle(c), z, 0, s);
    PastTwo(ChromaStart(c), ChromaMiddle(c), 0, s);
  }

  lemma VuiSyntax()
    ensures WritesList(VUI, VuiList) && ReadsList(VUI, VuiList)
  {
    hide PutVui, GetVui, VuiList, Code, Past;
    forall v, rest
      ensures PutVui(v, rest) == Code(VuiList(v), rest)
    {
      VuiWritten(v, rest);
    }
    forall s
      ensures Past(VuiList(GetVui(s).0), s) == Some(GetVui(s).1)
    {
      VuiRead(s);
    }
  }

  lemma OneNumber(v: nat, rest: seq<bool>, s: Input)
    ensures Code([Exp(v)], rest) == PutUE(v, rest)
    ensures GetUE(s).0 == v ==> Past([Exp(v)], s) == Some(GetUE(s).1)
  {
    hide PutFields, PastFrom, PutField, GetField, PutUE, GetUE;
    Kinds();
    OneByOne();
  }

  /** What stands behind the chroma fields. */
  function SpsEnd(x: S.Sps): seq<Field> {
    [Exp(x.log2MaxFrameNumMinus4)] + PicOrderList(x.picOrder) + FormatList(x.format) + OptionList(VuiList, x.vui)
  }

  lemma SpsEndWritten(x: S.Sps, rest: seq<bool>)
    ensures Code(SpsEnd(x), rest) == Lengths.PutEnd(x, rest)
  {
    hide PutUE, S.PutPicOrder, S.PutFormat, PutOption, Code, PicOrderList, FormatList, OptionList, VuiList, From;
    hide GetUE, S.GetPicOrder, S.GetFormat, GetOption, Inverts, WritesList, ReadsList;
    VuiSyntax();
    OptionSyntax(VUI, VuiList);
    Joined();
    var r1 := PutOption(VUI, x.vui, rest);
    FormatWritten(x.format, r1);
    PicOrderWritten(x.picOrder, S.PutFormat(x.format, r1));
    OneNumber(x.log2MaxFrameNumMinus4, S.PutPicOrder(x.picOrder, S.PutFormat(x.format, r1)), From([]));
  }

  lemma SpsSplit(x: S.Sps, reserved: nat, n: nat, ds: seq<seq<int>>)
    requires |ds| == |SentOf(x, n)|
    ensures
      var chroma := if x.chroma.Some? then ChromaList(x.chroma.value, n, ds) else [];
      SpsList(x, reserved, n, ds) == HeadList(x.head, reserved) + chroma + SpsEnd(x)
  {
    hide HeadList, ChromaList, PicOrderList, FormatList, OptionList, Sent;
    var chroma := if x.chroma.Some? then ChromaList(x.chroma.value, n, ds) else [];
    var a, b := [Exp(x.log2MaxFrameNumMinus4)], PicOrderList(x.picOrder);
    var c, d := FormatList(x.format), OptionList(VuiList, x.vui);
    var h := HeadList(x.head, reserved) + chroma;
    assert h + a + b + c + d == h + (a + b + c + d);
  }

  lemma NothingSent(rest: seq<bool>, s: Input)
    ensures Code([], rest) == rest && Past([], s) == Some(s) && ListsMean([], [])
  {}

  lemma InRangeShape(x: S.Sps)
    requires Lengths.InRange(x)
    ensures SpsShape(x)
  {
    hide ListsOk, HrdOk;
  }

  /** The chroma fields are there in the profiles that have them, and scaling lists have entries that can be sent. */
  predicate Sendable(x: S.Sps) {
    (x.chroma.Some? <==> HasChromaFields(x.head.profileIdc)) &&
    (x.chroma.Some? && x.chroma.value.scalingLists.Some? ==> ListsOk(x.chroma.value.scalingLists.value))
  }

  lemma InRangeIsSendable(x: S.Sps)
    requires Lengths.InRange(x)
    ensures Sendable(x)
  {
    hide ListsOk, HrdOk;
  }

  lemma ChromaPartWritten(x: S.Sps, rest: seq<bool>) returns (ds: seq<seq<int>>)
    requires Sendable(x)
    ensures ListsMean(SentOf(x, 8), ds)
    ensures S.PutChromaPart(x, rest) == Code(if x.chroma.Some? then ChromaList(x.chroma.value, 8, ds) else [], rest)
  {
    hide Code, S.PutChroma, ChromaList, ListsOk, ListsMean;
    ds := [];
    if x.chroma.Some? {
      ds := ChromaWritten(x.chroma.value, rest);
    } else {
      NothingSent(rest, From([]));
    }
  }

  lemma SpsIs(x: S.Sps, rest: seq<bool>)
    ensures S.PutSps(x, rest) == S.PutHead(x.head, S.PutChromaPart(x, Lengths.PutEnd(x, rest)))
  {
    hide PutUE, S.PutHead, S.PutChromaPart, S.PutPicOrder, S.PutFormat, PutOption, S.GetSps, S.SpsOk, From;
  }

  /**
   Whatever follows it, the code of a set is the joined code of the elements of
   section 7.3.2.1.1, with the first eight lists of scaling matrices; every set in
   range is sendable.
   */
  lemma SpsWritten(x: S.Sps, rest: seq<bool>) returns (ds: seq<seq<int>>)
    requires Sendable(x)
    ensures ListsMean(SentOf(x, 8), ds)
    ensures S.PutSps(x, rest) == Code(SpsList(x, 0, 8, ds), rest)
  {
    hide PutFields, S.PutHead, S.PutChromaPart, Lengths.PutEnd, HeadList, ChromaList, SpsEnd, SpsList, SpsShape;
    hide S.PutSps, ListsMean, Sendable, From;
    SpsIs(x, rest);
    SpsEndWritten(x, rest);
    var end := Code(SpsEnd(x), rest);
    ds := ChromaPartWritten(x, end);
    MeanSizes(SentOf(x, 8), ds);
    var chroma := if x.chroma.Some? then ChromaList(x.chroma.value, 8, ds) else [];
    SpsSplit(x, 0, 8, ds);
    CodeOfTwo(HeadList(x.head, 0) + chroma, SpsEnd(x), 0, rest);
    CodeOfTwo(HeadList(x.head, 0), chroma, 0, end);
    HeadWritten(x.head, Code(chroma, end));
  }

  lemma SpsEndRead(s: Input)
    ensures
      var (log2, s1) := GetUE(s);
      var (picOrder, s2) := S.GetPicOrder(s1);
      var (format, s3) := S.GetFormat(s2);
      var (vui, s4) := GetOption(VUI, s3);
      (picOrder.OtherType? ==> picOrder.pocType > 1) && (format.frameMbsOnly ==> !format.mbAdaptiveFrameField) &&
      (vui.Some? ==> VuiDefaults(vui.value)) &&
      forall x: S.Sps ::
        x.log2MaxFrameNumMinus4 == log2 && x.picOrder == picOrder && x.format == format && x.vui == vui ==>
        Past(SpsEnd(x), s) == Some(s4)
  {
    hide GetUE, S.GetPicOrder, S.GetFormat, GetVui, Past, PicOrderList, FormatList, OptionList, VuiList, VuiDefaults;
    hide WritesList, ReadsList, GetU1;
    VuiSyntax();
    OptionSyntax(VUI, VuiList);
    Joined();
    var (log2, s1) := GetUE(s);
    var (picOrder, s2) := S.GetPicOrder(s1);
    var (format, s3) := S.GetFormat(s2);
    OneNumber(log2, [], s);
    PicOrderRead(s1);
    FormatRead(s2);
    VuiRead(GetU1(s3).1);
  }

  lemma ChromaPartRead(profileIdc: nat, s: Input) returns (ds: seq<seq<int>>)
    ensures
      var (o, s') := S.GetChromaPart(profileIdc, s);
      (o.Some? <==> HasChromaFields(profileIdc)) &&
      if o.None? then ds == [] && s' == s else
      var c := o.value;
      var n := if c.formatIdc != 3 then 8 else 12;
      (c.residualColourTransform ==> c.formatIdc == 3) && (c.scalingLists.Some? ==> |c.scalingLists.value| == n) &&
      ListsMean(Sent(c, n), ds) && Past(ChromaList(c, n, ds), s) == Some(s')
  {
    hide S.GetChroma, Past, ChromaList, ListsMean, Sent;
    ds := [];
    if S.IsHighProfile(profileIdc) {
      ds := ChromaRead(s);
    }
  }

  /** The number of lists that the reader takes. */
  function ListsTaken(x: S.Sps): nat {
    if x.chroma.Some? && x.chroma.value.formatIdc == 3 then 12 else 8
  }

  /**
   Whatever bits are read, the elements of section 7.3.2.1.1 for the set that is
   returned stand there, and the reader is right behind them.
   */
  lemma SpsRead(s: Input) returns (reserved: nat, ds: seq<seq<int>>)
    ensures
      var (x, s') := S.GetSps(s);
      SpsShape(x) && ListsMean(SentOf(x, ListsTaken(x)), ds) &&
      Past(SpsList(x, reserved, ListsTaken(x), ds), s) == Some(s')
  {
    hide S.GetHead, S.GetChromaPart, GetUE, S.GetPicOrder, S.GetFormat, GetOption, PastFrom, HeadList, ChromaList;
    hide SpsEnd, SpsList, ListsMean, VuiDefaults, Sent;
    var (x, s') := S.GetSps(s);
    var (head, s1) := S.GetHead(s);
    var (chroma, s2) := S.GetChromaPart(head.profileIdc, s1);
    reserved := HeadRead(s);
    ds := ChromaPartRead(head.profileIdc, s1);
    SpsEndRead(s2);
    NothingSent([], s1);
    var n := ListsTaken(x);
    MeanSizes(SentOf(x, n), ds);
    SpsSplit(x, reserved, n, ds);
    var c := if x.chroma.Some? then ChromaList(x.chroma.value, n, ds) else [];
    PastTwo(HeadList(x.head, reserved) + c, SpsEnd(x), 0, s);
    PastTwo(HeadList(x.head, reserved), c, 0, s);
  }

  // Picture parameter sets, section 7.3.2.2

  /** Ceil(Log2(x)). */
  function CeilLog2(x: nat): nat {
    if x <= 1 then 0 else 1 + CeilLog2((x + 1) / 2)
  }

  function RectList(r: P.Rect): seq<Field> {
    [Exp(r.topLeft), Exp(r.bottomRight)]
  }

  function IdList(v: nat): nat -> seq<Field> {
    (id: nat) => [Word(v, id)]
  }

  /** slice_group_map_type and the fields in front of the list of a map. */
  function MapStart(m: P.GroupMap): seq<Field> {
    match m
    case Interleaved(_) => [Exp(0)]
    case Foreground(_) => [Exp(2)]
    case Changing(t, direction, rate) => [Exp(t), Flag(direction), Exp(rate)]
    case Explicit(ids) => [Exp(6), Exp(if ids == [] then 0 else |ids| - 1)]
    case OtherMap(t) => [Exp(t)]
  }

  /** The list of a map; n is num_slice_groups_minus1. */
  function MapRest(n: nat, m: P.GroupMap): seq<Field> {
    match m
    case Interleaved(runs) => ManyList(NumberList, runs)
    case Foreground(rects) => ManyList(RectList, rects)
    case Explicit(ids) => ManyList(IdList(CeilLog2(n + 1)), ids)
    case _ => []
  }

  function MapList(n: nat, m: P.GroupMap): seq<Field> {
    MapStart(m) + MapRest(n, m)
  }

  predicate MapShape(n: nat, m: P.GroupMap) {
    match m
    case Interleaved(runs) => |runs| == n + 1
    case Foreground(rects) => |rects| == n
    case Changing(t, _, _) => t == 3 || t == 4 || t == 5
    case Explicit(ids) => ids != []
    case OtherMap(t) => t == 1 || t > 6
  }

  function GroupsList(g: P.SliceGroups): seq<Field> {
    match g
    case OneGroup => [Exp(0)]
    case Groups(n, m) => [Exp(n)] + MapList(n, m)
  }

  function PredictionList(x: P.Prediction): seq<Field> {
    [Exp(x.numRefIdxL0ActiveMinus1), Exp(x.numRefIdxL1ActiveMinus1), Flag(x.weightedPred),
     Word(2, x.weightedBipredIdc), Signed(x.picInitQpMinus26), Signed(x.picInitQsMinus26),
     Signed(x.chromaQpIndexOffset), Flag(x.deblockingFilterControlPresent), Flag(x.constrainedIntraPred),
     Flag(x.redundantPicCntPresent)]
  }

  /** The fields in front of the look ahead. */
  function PpsStart(x: P.Pps): seq<Field> {
    [Exp(x.id), Exp(x.spsId), Flag(x.entropyCodingMode), Flag(x.picOrderPresent)] + GroupsList(x.groups) +
    PredictionList(x.prediction)
  }

  function MatricesOf(x: P.Tail): seq<Option<ScalingList>> {
    if x.scalingLists.Some? then x.scalingLists.value else []
  }

  function TailList(x: P.Tail, ds: seq<seq<int>>): seq<Field>
    requires |ds| == |MatricesOf(x)|
  {
    [Flag(x.transform8x8Mode), Flag(x.scalingLists.Some?)] + ListsList(MatricesOf(x), ds) +
    [Signed(x.secondChromaQpIndexOffset)]
  }

  /** Which fields are there; the scaling matrices are 6 + 2 * transform_8x8_mode_flag lists. */
  predicate PpsShape(x: P.Pps) {
    (x.groups.Groups? ==> x.groups.numMinus1 > 0 && MapShape(x.groups.numMinus1, x.groups.groupMap)) &&
    (x.tail.scalingLists.Some? ==> |x.tail.scalingLists.value| == 6 + 2 * (if x.tail.transform8x8Mode then 1 else 0))
  }

  lemma OneLog2()
    ensures P.IntLog2(1) == 0
  {}

  lemma HalfLog2(x: nat)
    requires x > 1
    ensures P.IntLog2(x) == 1 + P.IntLog2((x + 1) / 2)
  {
    hide P.IntLog2;
    var y := (x + 1) / 2;
    P.IntLog2IsCeiling(x);
    P.IntLog2IsCeiling(y);
    var a, b := P.IntLog2(x), P.IntLog2(y);
    assert Pow2(b + 1) == 2 * Pow2(b) && Pow2(a) == 2 * Pow2(a - 1);
    if a > b + 1 {
      Pow2Monotone(b + 1, a - 1);
    }
    if a < b + 1 && y > 1 {
      assert Pow2(b) == 2 * Pow2(b - 1);
      Pow2Monotone(a, b);
    }
    if y == 1 {
      assert x == 2;
      assert Pow2(0) == 1;
      if b > 0 {
        assert P.IntLog2(1) == 0 by { OneLog2(); }
      }
    }
  }

  lemma {:induction false} CeilLog2Is(x: nat)
    requires x > 0
    ensures CeilLog2(x) == P.IntLog2(x)
  {
    if x > 1 {
      CeilLog2Is((x + 1) / 2);
      HalfLog2(x);
    } else {
      assert P.IntLog2(1) == 0;
    }
  }

  lemma RectSyntax()
    ensures WritesList(P.RECT, RectList) && ReadsList(P.RECT, RectList)
  {
    hide PutFields, PastFrom, PutField, GetField, PutUE, GetUE, P.RectOk, From;
    Kinds();
    OneByOne();
  }

  lemma IdSyntax(v: nat)
    ensures WritesList(U(v), IdList(v)) && ReadsList(U(v), IdList(v))
  {
    hide PutFields, PastFrom, PutField, GetField, PutU, GetU, From;
    Kinds();
    OneByOne();
  }

  function PutMapRest(n: nat, m: P.GroupMap, rest: seq<bool>): seq<bool> {
    match m
    case Interleaved(runs) => P.PutRuns(runs, rest)
    case Foreground(rects) => P.PutRects(rects, rest)
    case Explicit(ids) => P.PutIds(n, ids, rest)
    case _ => rest
  }

  lemma MapStartWritten(n: nat, m: P.GroupMap, rest: seq<bool>)
    ensures P.PutMap(n, m, rest) == Code(MapStart(m), PutMapRest(n, m, rest))
  {
    hide PutFields, PutField, PutUE, PutU1, GetUE, GetU1, P.PutRuns, P.PutRects, P.PutIds, From, P.GetMap, P.MapOk;
    Kinds();
    OneByOne();
  }

  lemma MapRestWritten(n: nat, m: P.GroupMap, rest: seq<bool>)
    ensures PutMapRest(n, m, rest) == Code(MapRest(n, m), rest)
  {
    hide PutFields, PutFrom, GetMany, ManyList, WritesList, ReadsList, From, P.IntLog2, CeilLog2, InvertsAll, P.RectOk;
    CeilLog2Is(n + 1);
    NumbersAndFlags();
    RectSyntax();
    IdSyntax(CeilLog2(n + 1));
    match m
    case Interleaved(runs) => ManyWritten(UE, NumberList, runs, rest);
    case Foreground(rects) => ManyWritten(P.RECT, RectList, rects, rest);
    case Explicit(ids) => ManyWritten(U(CeilLog2(n + 1)), IdList(CeilLog2(n + 1)), ids, rest);
    case _ => OneByOne();
  }

  lemma MapWritten(n: nat, m: P.GroupMap, rest: seq<bool>)
    ensures P.PutMap(n, m, rest) == Code(MapList(n, m), rest)
  {
    hide PutFields, ManyList, P.PutMap, PutMapRest, CeilLog2;
    MapStartWritten(n, m, rest);
    MapRestWritten(n, m, rest);
    CodeOfTwo(MapStart(m), MapRest(n, m), 0, rest);
  }

  lemma MapRead(n: nat, s: Input)
    ensures MapShape(n, P.GetMap(n, s).0)
    ensures Past(MapList(n, P.GetMap(n, s).0), s) == Some(P.GetMap(n, s).1)
  {
    hide PastFrom, GetField, GetUE, GetU1, GetMany, ManyList, P.IntLog2, CeilLog2, WritesList, ReadsList;
    var (m, s') := P.GetMap(n, s);
    CeilLog2Is(n + 1);
    NumbersAndFlags();
    RectSyntax();
    IdSyntax(CeilLog2(n + 1));
    Kinds();
    var mid := if m.Explicit? then GetUE(GetUE(s).1).1 else if m.Changing? then s' else GetUE(s).1;
    assert Past(MapStart(m), s) == Some(mid) by { OneByOne(); }
    match m {
      case Interleaved(runs) => ManyRead(UE, NumberList, n + 1, mid);
      case Foreground(rects) => ManyRead(P.RECT, RectList, n, mid);
      case Explicit(ids) => ManyRead(U(CeilLog2(n + 1)), IdList(CeilLog2(n + 1)), |ids|, mid);
      case _ => OneByOne();
    }
    PastTwo(MapStart(m), MapRest(n, m), 0, s);
  }

  lemma GroupsWritten(g: P.SliceGroups, rest: seq<bool>)
    ensures P.PutGroups(g, rest) == Code(GroupsList(g), rest)
  {
    hide PutFields, PutUE, P.PutMap, MapList, P.GetGroups, P.GroupsOk, From;
    match g
    case OneGroup => OneNumber(0, rest, From([]));
    case Groups(n, m) =>
      MapWritten(n, m, rest);
      CodeOfTwo([Exp(n)], MapList(n, m), 0, rest);
      OneNumber(n, Code(MapList(n, m), rest), From([]));
  }

  lemma GroupsRead(s: Input)
    ensures
      var (g, s') := P.GetGroups(s);
      Past(GroupsList(g), s) == Some(s') && (g.Groups? ==> g.numMinus1 > 0 && MapShape(g.numMinus1, g.groupMap))
  {
    hide PastFrom, GetUE, P.GetMap, MapList, MapShape;
    var (n, s1) := GetUE(s);
    OneNumber(n, [], s);
    if n > 0 {
      MapRead(n, s1);
      PastTwo([Exp(n)], MapList(n, P.GetMap(n, s1).0), 0, s);
    }
  }

  lemma PredictionWritten(x: P.Prediction, rest: seq<bool>)
    ensures P.PutPrediction(x, rest) == Code(PredictionList(x), rest)
  {
    hide PutFields, PutField, PutUE, PutU1, PutU, PutSE, GetUE, GetU1, GetU, GetSE, From, P.GetPrediction, CodeUE;
    hide P.PredictionOk;
    Kinds();
    OneByOne();
  }

  lemma PredictionRead(s: Input)
    ensures Past(PredictionList(P.GetPrediction(s).0), s) == Some(P.GetPrediction(s).1)
  {
    hide PastFrom, GetField, GetUE, GetU1, GetU, GetSE;
    Kinds();
    OneByOne();
  }

  lemma OneSigned(v: int, rest: seq<bool>, s: Input)
    ensures Code([Signed(v)], rest) == PutSE(v, rest)
    ensures GetSE(s).0 == v ==> Past([Signed(v)], s) == Some(GetSE(s).1)
  {
    hide PutFields, PastFrom, PutField, GetField, PutSE, GetSE;
    Kinds();
    OneByOne();
  }

  lemma TwoFlags(a: bool, b: bool, rest: seq<bool>, s: Input)
    ensures Code([Flag(a), Flag(b)], rest) == PutU1(a, PutU1(b, rest))
    ensures GetU1(s).0 == a && GetU1(GetU1(s).1).0 == b ==> Past([Flag(a), Flag(b)], s) == Some(GetU1(GetU1(s).1).1)
  {
    hide PutFields, PastFrom, PutField, GetField, PutU1, GetU1;
    Kinds();
    OneByOne();
  }

  lemma TailWritten(x: P.Tail, rest: seq<bool>) returns (ds: seq<seq<int>>)
    requires x.scalingLists.Some? ==> ListsOk(x.scalingLists.value)
    ensures ListsMean(MatricesOf(x), ds) && P.PutTailFields(x, rest) == Code(TailList(x, ds), rest)
  {
    hide PutFields, PutU1, PutSE, PutLists, ListsOk, ListMeans, ListsList, P.GetTailFields, P.TailOk, MoreData, From;
    ds := [];
    var end := PutSE(x.secondChromaQpIndexOffset, rest);
    OneSigned(x.secondChromaQpIndexOffset, rest, From([]));
    var mid := end;
    if x.scalingLists.Some? {
      ds := ListsWritten(x.scalingLists.value, end);
      mid := PutLists(x.scalingLists.value, end);
    } else {
      NoListsSent(end, From([]));
    }
    MeanSizes(MatricesOf(x), ds);
    TwoFlags(x.transform8x8Mode, x.scalingLists.Some?, mid, From([]));
    var a, b := [Flag(x.transform8x8Mode), Flag(x.scalingLists.Some?)], ListsList(MatricesOf(x), ds);
    var c := [Signed(x.secondChromaQpIndexOffset)];
    CodeOfTwo(a + b, c, 0, rest);
    CodeOfTwo(a, b, 0, end);
  }

  lemma TailRead(s: Input) returns (ds: seq<seq<int>>)
    ensures
      var (x, s') := P.GetTailFields(s);
      (x.scalingLists.Some? ==> |x.scalingLists.value| == 6 + 2 * (if x.transform8x8Mode then 1 else 0)) &&
      ListsMean(MatricesOf(x), ds) && Past(TailList(x, ds), s) == Some(s')
  {
    hide PastFrom, GetU1, GetSE, GetLists, ListMeans, ListsList;
    var (x, s') := P.GetTailFields(s);
    var s2 := GetU1(GetU1(s).1).1;
    var mid := s2;
    ds := [];
    if x.scalingLists.Some? {
      ds := ListsRead(P.TailLists(x.transform8x8Mode), s2);
      mid := GetLists(P.TailLists(x.transform8x8Mode), s2).1;
    } else {
      NoListsSent([], s2);
    }
    MeanSizes(MatricesOf(x), ds);
    TwoFlags(x.transform8x8Mode, x.scalingLists.Some?, [], s);
    OneSigned(x.secondChromaQpIndexOffset, [], mid);
    var a, b := [Flag(x.transform8x8Mode), Flag(x.scalingLists.Some?)], ListsList(MatricesOf(x), ds);
    var c := [Signed(x.secondChromaQpIndexOffset)];
    PastTwo(a + b, c, 0, s);
    PastTwo(a, b, 0, s);
  }

  lemma StartOfPps(x: P.Pps, rest: seq<bool>, s: Input)
    ensures
      var a := [Exp(x.id), Exp(x.spsId), Flag(x.entropyCodingMode), Flag(x.picOrderPresent)];
      Code(a, rest) == PutUE(x.id, PutUE(x.spsId, PutU1(x.entropyCodingMode, PutU1(x.picOrderPresent, rest))))
    ensures
      var (id, s1) := GetUE(s);
      var (spsId, s2) := GetUE(s1);
      var (entropy, s3) := GetU1(s2);
      var (picOrder, s4) := GetU1(s3);
      var a := [Exp(x.id), Exp(x.spsId), Flag(x.entropyCodingMode), Flag(x.picOrderPresent)];
      id == x.id && spsId == x.spsId && entropy == x.entropyCodingMode && picOrder == x.picOrderPresent ==>
        Past(a, s) == Some(s4)
  {
    hide PutFields, PastFrom, PutField, GetField, PutUE, PutU1, GetUE, GetU1, From;
    Kinds();
    OneByOne();
  }

  lemma PpsOkShape(x: P.Pps)
    requires P.PpsOk(x)
    ensures PpsShape(x)
  {
    hide ListsOk, SizesOk;
  }

  /**
   Whatever follows it, the code of a set is the joined code of the elements of
   section 7.3.2.2; the tail is sent when one of its fields is not the default. In the
   sets in range, the matrices are 6 lists or 8.
   */
  lemma PpsWritten(x: P.Pps, rest: seq<bool>) returns (ds: seq<seq<int>>)
    requires ListsOk(MatricesOf(x.tail))
    ensures P.PpsOk(x) ==> PpsShape(x)
    ensures ListsMean(MatricesOf(x.tail), ds)
    ensures
      var sent := x.tail.transform8x8Mode || x.tail.scalingLists.Some? || x.tail.secondChromaQpIndexOffset != 0;
      P.PutPps(x, rest) == Code(PpsStart(x), if sent then Code(TailList(x.tail, ds), rest) else rest)
  {
    hide PutFields, PutUE, PutU1, P.PutGroups, P.PutPrediction, P.PutTailFields, GroupsList, PredictionList, TailList;
    hide P.GetPps, P.GetTail, P.PpsOk, PpsShape, ListsOk, ListMeans, From, MoreData, StopOnly;
    ds := TailWritten(x.tail, rest);
    MeanSizes(MatricesOf(x.tail), ds);
    var sent := x.tail.transform8x8Mode || x.tail.scalingLists.Some? || x.tail.secondChromaQpIndexOffset != 0;
    var end := if sent then Code(TailList(x.tail, ds), rest) else rest;
    assert P.PutTail(x.tail, rest) == end;
    PredictionWritten(x.prediction, end);
    GroupsWritten(x.groups, P.PutPrediction(x.prediction, end));
    StartOfPps(x, P.PutGroups(x.groups, P.PutPrediction(x.prediction, end)), From([]));
    var a := [Exp(x.id), Exp(x.spsId), Flag(x.entropyCodingMode), Flag(x.picOrderPresent)];
    CodeOfTwo(a + GroupsList(x.groups), PredictionList(x.prediction), 0, end);
    CodeOfTwo(a, GroupsList(x.groups), 0, Code(PredictionList(x.prediction), end));
    if P.PpsOk(x) {
      PpsOkShape(x);
    }
  }

  /**
   Whatever bits are read, the elements of section 7.3.2.2 for the set that is returned
   stand there: the tail exactly when there is more data, and then with 6 lists or 8.
   */
  lemma PpsRead(s: Input) returns (mid: Input, ds: seq<seq<int>>)
    ensures
      var (x, s') := P.GetPps(s);
      PpsShape(x) && ListsMean(MatricesOf(x.tail), ds) && Past(PpsStart(x), s) == Some(mid) &&
      if MoreData(mid) then Past(TailList(x.tail, ds), mid) == Some(s')
      else x.tail == P.Tail(false, None, 0) && s' == mid
  {
    hide PastFrom, GetUE, GetU1, P.GetGroups, P.GetPrediction, P.GetTailFields, GroupsList, PredictionList, TailList;
    hide ListMeans, MoreData, MapShape;
    var (x, s') := P.GetPps(s);
    var s4 := GetU1(GetU1(GetUE(GetUE(s).1).1).1).1;
    var s5 := P.GetGroups(s4).1;
    mid := P.GetPrediction(s5).1;
    StartOfPps(x, [], s);
    GroupsRead(s4);
    PredictionRead(s5);
    var a := [Exp(x.id), Exp(x.spsId), Flag(x.entropyCodingMode), Flag(x.picOrderPresent)];
    PastTwo(a + GroupsList(x.groups), PredictionList(x.prediction), 0, s);
    PastTwo(a, GroupsList(x.groups), 0, s);
    ds := [];
    NoListsSent([], mid);
    if MoreData(mid) {
      ds := TailRead(mid);
    }
  }
}
