/**
 Concrete inputs on which the code departs from ITU-T H.264: a stream of units and
 a parameter set that are read from their bytes, a slice header, and a field width.
 */
module Departures {
  import opened Bits
  import opened BitSyntax
  import opened NalBytes
  import opened Pocs
  import DisplayOrder
  import opened Dpbs
  import opened Sorting
  import opened RefLists
  import opened ScalingLists
  import opened Lengths
  import opened VuiParameters
  import opened SliceHeaders
  import opened NalUnits
  import opened DepAnalyzer
  import opened DepAnalyzerMain
  import S = SequenceParameterSet
  import P = PictureParameterSet

  // Parameter sets and slice headers

  /** A set of 11x9 macroblocks whose order counts are modulo 2^(log2 + 4). */
  function SequenceSet(id: nat, log2: nat): S.Sps {
    S.Sps(S.Head(66, false, false, false, false, false, false, 30, id), None, 0, S.Lsb(log2),
          S.Format(2, false, 10, 8, true, false, true, None), None)
  }

  function PictureSet(l0Minus1: nat, weighted: bool): P.Pps {
    P.Pps(0, 0, false, false, P.OneGroup,
          P.Prediction(l0Minus1, 0, weighted, 0, 0, 0, 0, false, false, false), P.NO_TAIL)
  }

  function Header(sliceType: nat, frameNum: nat, lsb: nat, override: Option<ActiveCounts>,
                  weights: Option<WeightTable>, marking: Marking): SliceHeader
  {
    SliceHeader(0, sliceType, 0,
                Body(Frame(0, frameNum, false, false), Order(0, lsb, 0, 0, 0), References(0, false, override),
                     Reorderings(None, None), weights, marking, Quantizer(0, 0, false, 0), Deblocking(0, 0, 0), 0))
  }

  function IdrHeader(): SliceHeader {
    Header(SLICE_I, 0, 0, None, None, IdrMarking(false, false))
  }

  /** A P slice without an override. */
  function PHeader(frameNum: nat, lsb: nat): SliceHeader {
    Header(SLICE_P, frameNum, lsb, None, None, RefMarking(None))
  }

  const SETS := PictureSet(1, false)
  const IDR := Context(IDR_SLICE, 3, SequenceSet(0, 0), SETS)
  const NON_IDR := Context(NON_IDR_SLICE, 3, SequenceSet(0, 0), SETS)

  lemma SetsOk()
    ensures S.SpsOk(SequenceSet(0, 0)) && S.SpsOk(SequenceSet(1, 4)) && P.PpsOk(SETS)
  {}

  lemma HeadersOk(frameNum: nat, lsb: nat)
    requires frameNum < 16 && lsb < 16
    ensures SliceHeaderOk(IDR, IdrHeader()) && SliceHeaderOk(NON_IDR, PHeader(frameNum, lsb))
  {
    SmallWidths();
  }

  lemma ShortCodes()
    ensures |CodeUE(0)| == 1 && |CodeUE(2)| == 3 && |CodeUE(UEOfSE(0))| == 1
  {
    assert BitLength(1) == 1 && BitLength(3) == 2;
  }

  lemma FrontLengths(x: Body, rest: seq<bool>)
    ensures |PutFrame(IDR, x.frame, rest)| == |PutFrame(NON_IDR, x.frame, rest)| == 4 + |rest|
    ensures x.order.idrPicId == 0 ==> |PutOrder(IDR, false, x.order, rest)| == 5 + |rest|
    ensures |PutOrder(NON_IDR, false, x.order, rest)| == 4 + |rest|
  {
    hide PutUE, PutSE, PutU, PutU1, From, GetU, GetU1, GetUE, GetSE, GetFrame, GetOrder;
    ShortCodes();
  }

  lemma MiddleLengths(rest: seq<bool>)
    ensures |PutReferences(IDR, SLICE_I, References(0, false, None), rest)| == |rest|
    ensures |PutReferences(NON_IDR, SLICE_P, References(0, false, None), rest)| == 1 + |rest|
    ensures |PutReorderings(SLICE_I, Reorderings(None, None), rest)| == |rest|
    ensures |PutReorderings(SLICE_P, Reorderings(None, None), rest)| == 1 + |rest|
    ensures PutOptionalTable(IDR, SLICE_I, None, rest) == PutOptionalTable(NON_IDR, SLICE_P, None, rest) == rest
  {
    hide PutUE, PutSE, PutU, PutU1, From, GetU, GetU1, GetUE, GetSE, GetReferences, GetReorderings;
    hide PutReorderingList, PutCounts;
  }

  lemma EndLengths(rest: seq<bool>)
    ensures |PutMarking(IdrMarking(false, false), rest)| == 2 + |rest|
    ensures |PutMarking(RefMarking(None), rest)| == 1 + |rest|
    ensures |PutQuantizer(IDR, SLICE_I, Quantizer(0, 0, false, 0), rest)| == 1 + |rest|
    ensures |PutQuantizer(NON_IDR, SLICE_P, Quantizer(0, 0, false, 0), rest)| == 1 + |rest|
    ensures PutDeblocking(IDR, Deblocking(0, 0, 0), rest) == PutDeblocking(NON_IDR, Deblocking(0, 0, 0), rest) == rest
    ensures PutCycle(IDR, 0, rest) == PutCycle(NON_IDR, 0, rest) == rest
  {
    hide PutUE, PutSE, PutU, PutU1, From, GetU, GetU1, GetUE, GetSE, GetMarking, GetQuantizer, GetDeblocking, GetCycle;
    hide PutMmcoList;
    ShortCodes();
  }

  lemma IdrLength(data: seq<bool>)
    ensures |PutBody(IDR, SLICE_I, IdrHeader().body, data)| == 12 + |data|
  {
    hide PutFrame, PutOrder, PutReferences, PutReorderings, PutOptionalTable, PutMarking, PutQuantizer, PutDeblocking;
    hide PutCycle, From, GetBody, BodyOk;
    var x := IdrHeader().body;
    EndLengths(data);
    var r1 := PutQuantizer(IDR, SLICE_I, x.quantizer, data);
    EndLengths(r1);
    var r2 := PutMarking(x.marking, r1);
    MiddleLengths(r2);
    var r3 := PutReorderings(SLICE_I, x.reorderings, r2);
    MiddleLengths(r3);
    var r4 := PutReferences(IDR, SLICE_I, x.references, r3);
    FrontLengths(x, r4);
    FrontLengths(x, PutOrder(IDR, false, x.order, r4));
  }

  lemma PLength(frameNum: nat, lsb: nat, data: seq<bool>)
    ensures |PutBody(NON_IDR, SLICE_P, PHeader(frameNum, lsb).body, data)| == 12 + |data|
  {
    hide PutFrame, PutOrder, PutReferences, PutReorderings, PutOptionalTable, PutMarking, PutQuantizer, PutDeblocking;
    hide PutCycle, From, GetBody, BodyOk;
    var x := PHeader(frameNum, lsb).body;
    EndLengths(data);
    var r1 := PutQuantizer(NON_IDR, SLICE_P, x.quantizer, data);
    EndLengths(r1);
    var r2 := PutMarking(x.marking, r1);
    MiddleLengths(r2);
    var r3 := PutReorderings(SLICE_P, x.reorderings, r2);
    MiddleLengths(r3);
    var r4 := PutReferences(NON_IDR, SLICE_P, x.references, r3);
    FrontLengths(x, r4);
    FrontLengths(x, PutOrder(NON_IDR, false, x.order, r4));
  }

  lemma HeaderLengths(frameNum: nat, lsb: nat, data: seq<bool>)
    ensures |PutSliceHeader(IDR, IdrHeader(), data)| == 17 + |data|
    ensures |PutSliceHeader(NON_IDR, PHeader(frameNum, lsb), data)| == 15 + |data|
  {
    hide PutUE, PutBody;
    ShortCodes();
    IdrLength(data);
    PLength(frameNum, lsb, data);
  }

  // A stream with two sequence parameter sets

  /** Any slice data of n bits will do. */
  function Data(n: nat): (d: seq<bool>)
    ensures |d| == n
  {
    seq(n, i => true)
  }

  function IdrSlice(): seq<byte> {
    hide PutSliceHeader, UnitBytes, Escape, IdrHeader, Data, PutUnit, BytesOf;
    HeaderLengths(0, 0, Data(7));
    Escape(UnitBytes(3, IDR_SLICE, PutSliceHeader(IDR, IdrHeader(), Data(7))))
  }

  function PSlice(frameNum: nat, lsb: nat): seq<byte> {
    hide PutSliceHeader, UnitBytes, Escape, PHeader, Data, PutUnit, BytesOf;
    HeaderLengths(frameNum, lsb, Data(1));
    Escape(UnitBytes(3, NON_IDR_SLICE, PutSliceHeader(NON_IDR, PHeader(frameNum, lsb), Data(1))))
  }

  function Unit(c: Content): seq<byte> {
    hide Rbsp, Escape;
    Escape(Rbsp(Nal(3, c)))
  }

  /** Set 0 has the modulus 16, and set 1, to which no picture refers, has 256. */
  function TwoSets(): seq<seq<byte>> {
    hide Unit, IdrSlice, PSlice, SequenceSet;
    [Unit(SpsUnit(SequenceSet(0, 0))), Unit(SpsUnit(SequenceSet(1, 4))), Unit(PpsUnit(SETS)),
     IdrSlice(), PSlice(1, 6), PSlice(2, 12), PSlice(3, 2)]
  }

  /** Units at offsets that do not matter. */
  function Placed(nals: seq<seq<byte>>): seq<(nat, seq<byte>)> {
    seq(|nals|, i requires 0 <= i < |nals| => (0, nals[i]))
  }

  /** The state in which the analyser lets a unit be read. */
  function Cleared(st: State): State {
    st.(unitType := 0, slice := None)
  }

  lemma WatchNext(haveSei: bool, st: State, max: nat, nal: seq<byte>, nals: seq<seq<byte>>, st': State)
    requires ReadNal(haveSei, Cleared(st), nal) == Some((st', |nal|))
    ensures
      var max' := NewMax(st', |nal|, max);
      Watch(Look(haveSei), (st, max), Placed([nal] + nals)) ==
      Before(if StartsPicture(st', |nal|) then [PictureOf(st', max')] else [],
             Watch(Look(haveSei), (st', max'), Placed(nals)))
  {
    hide ReadNal, NewMax, StartsPicture, PictureOf;
    var us := Placed([nal] + nals);
    assert us[0] == (0, nal) && us[1..] == Placed(nals);
  }

  lemma WatchSet(haveSei: bool, st: State, max: nat, c: Content, nals: seq<seq<byte>>)
    requires TablesOk(st) && UnitOk(haveSei, Nal(3, c))
    ensures
      var st' := Received(Cleared(st), Nal(3, c));
      TablesOk(st') &&
      Watch(Look(haveSei), (st, max), Placed([Unit(c)] + nals)) ==
      Watch(Look(haveSei), (st', NewMax(st', 0, max)), Placed(nals))
  {
    hide ReadNal, Escape, Rbsp, Watch, Look, Placed, ContentOk;
    var n := Nal(3, c);
    RbspReads(haveSei, Cleared(st), n);
    var st' := Received(Cleared(st), n);
    WatchNext(haveSei, st, max, Unit(c), nals, st');
    BeforeBoth([], [], Watch(Look(haveSei), (st', NewMax(st', 0, max)), Placed(nals)));
  }

  lemma WatchSlice(haveSei: bool, st: State, max: nat, c: Context, h: SliceHeader, data: seq<bool>,
                   nals: seq<seq<byte>>)
    requires c.nalUnitType in {NON_IDR_SLICE, IDR_SLICE} && c.nalRefIdc < 4 && h.firstMbInSlice == 0
    requires Lookup(st.tables, c.nalUnitType, c.nalRefIdc, h.ppsId) == Some(c) && SliceHeaderOk(c, h)
    requires data != [] && |PutSliceHeader(c, h, data)| % 8 == 0
    ensures
      var nal := Escape(UnitBytes(c.nalRefIdc, c.nalUnitType, PutSliceHeader(c, h, data)));
      var st' := ReceivedSlice(Cleared(st), c, h);
      Watch(Look(haveSei), (st, max), Placed([nal] + nals)) ==
      Before([PictureOf(st', max)], Watch(Look(haveSei), (st', max), Placed(nals)))
  {
    hide ReadNal, Escape, UnitBytes, PutSliceHeader, SliceHeaderOk, Watch, Look, Placed, PictureOf;
    var nal := Escape(UnitBytes(c.nalRefIdc, c.nalUnitType, PutSliceHeader(c, h, data)));
    SliceReads(haveSei, Cleared(st), c, h, data);
    WatchNext(haveSei, st, max, nal, nals, ReceivedSlice(Cleared(st), c, h));
  }

  /** Picture set 0 is SETS, and sequence set 0 the one it refers to. */
  predicate Stored(st: State) {
    Lookup(st.tables, IDR_SLICE, 3, 0) == Some(IDR) && Lookup(st.tables, NON_IDR_SLICE, 3, 0) == Some(NON_IDR)
  }

  lemma SetsStored(st: State, max: nat)
    requires TablesOk(st)
    ensures
      var st1 := Received(Cleared(st), Nal(3, SpsUnit(SequenceSet(0, 0))));
      var st2 := Received(Cleared(st1), Nal(3, SpsUnit(SequenceSet(1, 4))));
      var st3 := Received(Cleared(st2), Nal(3, PpsUnit(SETS)));
      Stored(st3) && NewMax(st3, 0, NewMax(st2, 0, max)) == 256
  {
    Pow2Values();
  }

  lemma WatchSets(haveSei: bool, st: State, max: nat, nals: seq<seq<byte>>) returns (st': State)
    requires TablesOk(st)
    ensures Stored(st')
    ensures
      var sets := [Unit(SpsUnit(SequenceSet(0, 0)))] + ([Unit(SpsUnit(SequenceSet(1, 4)))] + ([Unit(PpsUnit(SETS))] +
        nals));
      Watch(Look(haveSei), (st, max), Placed(sets)) == Watch(Look(haveSei), (st', 256), Placed(nals))
  {
    hide Watch, Look, Placed, Unit, S.SpsOk, P.PpsOk, Received;
    SetsOk();
    var st1 := Received(Cleared(st), Nal(3, SpsUnit(SequenceSet(0, 0))));
    var st2 := Received(Cleared(st1), Nal(3, SpsUnit(SequenceSet(1, 4))));
    st' := Received(Cleared(st2), Nal(3, PpsUnit(SETS)));
    var tail2 := [Unit(PpsUnit(SETS))] + nals;
    var tail1 := [Unit(SpsUnit(SequenceSet(1, 4)))] + tail2;
    WatchSet(haveSei, st, max, SpsUnit(SequenceSet(0, 0)), tail1);
    WatchSet(haveSei, st1, NewMax(st1, 0, max), SpsUnit(SequenceSet(1, 4)), tail2);
    WatchSet(haveSei, st2, NewMax(st2, 0, NewMax(st1, 0, max)), PpsUnit(SETS), nals);
    SetsStored(st, NewMax(st1, 0, max));
  }

  lemma WatchIdr(haveSei: bool, st: State, nals: seq<seq<byte>>) returns (st': State)
    requires Stored(st)
    ensures Stored(st')
    ensures Watch(Look(haveSei), (st, 256), Placed([IdrSlice()] + nals)) ==
            Before([Picture(true, true, 0, 0, 1, 1, Intra, 0, 256, None)],
                   Watch(Look(haveSei), (st', 256), Placed(nals)))
  {
    hide Watch, Look, Placed, Escape, UnitBytes, PutSliceHeader, SliceHeaderOk;
    HeadersOk(0, 0);
    HeaderLengths(0, 0, Data(7));
    st' := ReceivedSlice(Cleared(st), IDR, IdrHeader());
    WatchSlice(haveSei, st, 256, IDR, IdrHeader(), Data(7), nals);
  }

  lemma WatchP(haveSei: bool, st: State, frameNum: nat, lsb: nat, nals: seq<seq<byte>>) returns (st': State)
    requires Stored(st) && frameNum < 16 && lsb < 16
    ensures Stored(st')
    ensures Watch(Look(haveSei), (st, 256), Placed([PSlice(frameNum, lsb)] + nals)) ==
            Before([Picture(false, true, frameNum, lsb, 1, 1, Predicted, 0, 256, None)],
                   Watch(Look(haveSei), (st', 256), Placed(nals)))
  {
    hide Watch, Look, Placed, Escape, UnitBytes, PutSliceHeader, SliceHeaderOk;
    HeadersOk(frameNum, lsb);
    HeaderLengths(frameNum, lsb, Data(1));
    st' := ReceivedSlice(Cleared(st), NON_IDR, PHeader(frameNum, lsb));
    WatchSlice(haveSei, st, 256, NON_IDR, PHeader(frameNum, lsb), Data(1), nals);
  }

  const FIRST := Picture(true, true, 0, 0, 1, 1, Intra, 0, 256, None)
  const SECOND := Picture(false, true, 1, 6, 1, 1, Predicted, 0, 256, None)
  const THIRD := Picture(false, true, 2, 12, 1, 1, Predicted, 0, 256, None)
  const FOURTH := Picture(false, true, 3, 2, 1, 1, Predicted, 0, 256, None)

  lemma WatchNothing(haveSei: bool, st: State)
    ensures Watch(Look(haveSei), (st, 256), Placed([])) == Some([])
  {}

  /** What the analyser sees in the stream, from whatever state it starts. */
  lemma TwoSetsSeen(haveSei: bool, st: State, max: nat)
    requires TablesOk(st)
    ensures Watch(Look(haveSei), (st, max), Placed(TwoSets())) == Some([FIRST, SECOND, THIRD, FOURTH])
  {
    hide Watch, Look, Placed, Unit, IdrSlice, PSlice, Stored, TablesOk;
    var s3 := [PSlice(3, 2)] + [];
    var s2 := [PSlice(2, 12)] + s3;
    var s1 := [PSlice(1, 6)] + s2;
    var s0 := [IdrSlice()] + s1;
    var st0 := WatchSets(haveSei, st, max, s0);
    var st1 := WatchIdr(haveSei, st0, s1);
    var st2 := WatchP(haveSei, st1, 1, 6, s2);
    var st3 := WatchP(haveSei, st2, 2, 12, s3);
    var st4 := WatchP(haveSei, st3, 3, 2, []);
    WatchNothing(haveSei, st4);
    assert [FIRST] + ([SECOND] + ([THIRD] + ([FOURTH] + []))) == [FIRST, SECOND, THIRD, FOURTH];
    assert TwoSets() ==
           [Unit(SpsUnit(SequenceSet(0, 0)))] + ([Unit(SpsUnit(SequenceSet(1, 4)))] + ([Unit(PpsUnit(SETS))] + s0));
  }

  /**
   The last picture gets the count 2, where the modulus of the set that all
   pictures refer to gives 18.
   */
  lemma TwoSetsCount()
    ensures
      var h := [FIRST, SECOND, THIRD, FOURTH];
      PocAt(h, 3) == 2 && PocAt(WithModuli(h, [16, 16, 16, 16]), 3) == 18
  {
    var h := [FIRST, SECOND, THIRD, FOURTH];
    var g := WithModuli(h, [16, 16, 16, 16]);
    assert h[..3] == [FIRST, SECOND, THIRD] && h[..3][..2] == [FIRST, SECOND] && h[..3][..2][..1] == [FIRST];
    assert g[..3][..2] == g[..2] && g[..2][..1] == g[..1] && g[..1][..0] == [];
    assert PrevAfter(g[..1]) == Prev(0, 0);
    assert PrevAfter(g[..2]) == Prev(0, 6);
    assert PrevAfter(g[..3]) == Prev(0, 12);
    assert PrevAfter([FIRST]) == Prev(0, 0);
    assert PrevAfter([FIRST, SECOND]) == Prev(0, 6);
  }

  /**
   The third picture lists one of the two pictures in the buffer, although its
   header does not override the default of two entries.
   */
  lemma TwoSetsDepend(f: FrameInfo)
    requires Describes([FIRST, SECOND, THIRD, FOURTH], 2, f)
    ensures |f.dependencies| == 1 && |RefsFor([FIRST, SECOND, THIRD, FOURTH], 2)| == 2
    ensures ActiveL0(SETS, PHeader(2, 12).body.references) == 2
  {
    hide DisplayOrder.GlobalPoc, PList, OnceEach, Recency;
    var h := [FIRST, SECOND, THIRD, FOURTH];
    assert h[..2] == [FIRST, SECOND] && [FIRST, SECOND][..1] == [FIRST] && [FIRST][..0] == [];
    var r := RefOf([FIRST], 0);
    assert RefsAfter([FIRST]) == [r];
    WithoutNone([r], 1);
    assert |RefsAfter([FIRST, SECOND])| == 2;
    RefsByAge(h[..2]);
    RefsOnce(RefsFor(h, 2));
    PListIsClean(RefsFor(h, 2), 1, f.dependencies);
  }

  // A weight table that is shorter than list 0

  const WEIGHTED := Context(NON_IDR_SLICE, 3, SequenceSet(0, 0), PictureSet(0, true))

  /** A P slice with two entries in list 0, and the one entry that its table can have. */
  function WeightedHeader(): SliceHeader {
    var table := WeightTable(0, 0, [Weights(None, None)], []);
    Header(SLICE_P, 1, 2, Some(ActiveCounts(1, 0)), Some(table), RefMarking(None))
  }

  /** Whatever follows it, that header reads back: list 0 has two entries, and the weight table has one. */
  lemma ShortTable(tables: Tables, rest: seq<bool>)
    requires Lookup(tables, NON_IDR_SLICE, 3, 0) == Some(WEIGHTED)
    ensures
      var h := WeightedHeader();
      SliceHeaderOk(WEIGHTED, h) &&
      GetSliceHeader(tables, NON_IDR_SLICE, 3, From(PutSliceHeader(WEIGHTED, h, rest))) ==
      Some((h, WEIGHTED, From(rest))) &&
      |h.body.weights.value.l0| == 1 && ActiveL0(WEIGHTED.pps, h.body.references) == 2
  {
    hide GetSliceHeader, PutSliceHeader;
    SmallWidths();
    assert SliceHeaderOk(WEIGHTED, WeightedHeader());
    SliceHeaderRoundTrip(tables, WEIGHTED, WeightedHeader(), rest);
  }

  // A slice group field that is too narrow

  const SMALL := SequenceSet(0, 0).(format := S.Format(2, false, 3, 3, true, false, true, None))
  const TWO_GROUPS := PictureSet(0, false).(groups := P.Groups(1, P.Changing(3, false, 1)))
  const NARROW := Context(NON_IDR_SLICE, 3, SMALL, TWO_GROUPS)

  lemma SmallOk()
    ensures S.SpsOk(SMALL) && P.PpsOk(TWO_GROUPS)
  {
    hide CycleBits, SendsCycle, PicSize, ChangeRate;
  }

  lemma TwoBits()
    ensures P.IntLog2(2) == 1 && StandardCycleBits(16, 2) == 4
  {
    hide P.IntLog2;
    SmallWidths();
    assert Pow2(0) == 1 && Pow2(1) == 2;
    IntLog2Is(2, 1);
    StandardCycleBitsIs(16, 2, 4);
  }

  /** In a picture of 4x4 map units that change by 2, the field has one bit; section 7.4.3 gives it four. */
  lemma NarrowCycle()
    ensures S.SpsOk(SMALL) && P.PpsOk(TWO_GROUPS) && SendsCycle(NARROW)
    ensures CycleBits(NARROW) == 1 && StandardCycleBits(PicSize(NARROW), ChangeRate(NARROW)) == 4
  {
    hide S.SpsOk, P.PpsOk, P.IntLog2, StandardCycleBits;
    SmallOk();
    TwoBits();
    assert PicSize(NARROW) == 16 && ChangeRate(NARROW) == 2;
  }

  // A 4:4:4 set that is stored as it was written, although reading it fails

  function Flat(n: nat): seq<int> {
    seq(n, i => 23)
  }

  /** What the reader makes of the end of the set when it looks for a ninth list there. */
  const OVERREAD := ScalingList([8, 8, 8, 7] + Flat(60), false)

  function Nones(n: nat): seq<Option<ScalingList>> {
    seq(n, i => None)
  }

  const LISTS := Nones(8) + [Some(OVERREAD)] + Nones(3)
  const CHROMA := S.Chroma(3, false, 0, 0, false, Some(LISTS))
  const HEAD := S.Head(244, false, false, false, false, false, false, 40, 0)
  const EMPTY_FORMAT := S.Format(0, false, 0, 0, false, false, false, None)
  const STORED := S.Sps(HEAD, Some(CHROMA), 0, S.Lsb(0), EMPTY_FORMAT, None)

  lemma StoredInRange()
    ensures InRange(STORED) && Has444Matrices(STORED)
  {
    assert ListOk(64, OVERREAD);
    assert LISTS[..8] == Nones(8);
    assert ListsOk(LISTS) && SizesOk(LISTS);
  }

  lemma ZeroCodes()
    ensures CodeUE(0) == [true] && CodeUE(UEOfSE(0)) == [true] && CodeUE(UEOfSE(-1)) == [false, true, true]
  {
    assert BitLength(1) == 1 && BitLength(3) == 2;
    assert BitAt(1, 0) && !BitAt(3, 2) && BitAt(3, 1) && BitAt(3, 0);
    assert BitsU(1, 1) == [true] && BitsU(3, 3) == [false, true, true];
  }

  lemma FormatOfStored(rest: seq<bool>)
    ensures S.PutFormat(EMPTY_FORMAT, rest) == [true, false, true, true, false, false, false, false] + rest
  {
    hide GetUE, From, S.GetFormat, GetOption, CodeUE, GetU1;
    ZeroCodes();
  }

  /** The code behind the lists: four numbers 0, a flag, two numbers 0 and five flags; then the stop bit. */
  lemma BitsOfStored()
    ensures PutEnd(STORED, [true]) == [true, true, true] + [true, false, true, true] + Zeros(5) + [true]
  {
    hide GetUE, From, S.GetPicOrder, S.GetFormat, GetOption, CodeUE, S.PutFormat;
    ZeroCodes();
    FormatOfStored([false, true]);
    assert PutOption(VUI, None, [true]) == [false, true];
    var f := S.PutFormat(EMPTY_FORMAT, [false, true]);
    assert S.PutPicOrder(S.Lsb(0), f) == [true] + ([true] + f);
    assert Zeros(5) == [false, false, false, false, false];
    assert f == [true, false, true, true] + Zeros(5) + [true];
    assert [true] + ([true] + ([true] + f)) == [true, true, true] + [true, false, true, true] + Zeros(5) + [true];
  }

  lemma EndOfStored()
    ensures PutEnd(STORED, [true]) ==
            [true] + PutSE(0, PutSE(0, PutSE(0, PutSE(-1, [false, false, false, false, false, true]))))
  {
    hide PutEnd, CodeUE, GetSE, UEOfSE;
    BitsOfStored();
    ZeroCodes();
    assert Zeros(5) == [false, false, false, false, false];
  }

  /** The last number: five zeros, the stop bit, and five bits past the end. */
  lemma LastNumber()
    ensures GetSE(From([false, false, false, false, false, true])) == (16, Input([], 5))
  {
    var b := [false, false, false, false, false, true];
    assert LeadingZeros(b) == 5;
    assert Peek(Input([], 0), 5) == Zeros(5);
    NatOfZeros(5);
    SmallWidths();
  }

  lemma PastEnd(o: nat)
    ensures GetU1(Input([], o)) == (false, Input([], o + 1)) && GetUE(Input([], o)) == (0, Input([], o + 1))
    ensures GetSE(Input([], o)) == (0, Input([], o + 1))
  {
    assert Peek(Input([], o + 1), 0) == [];
    assert Pow2(0) == 1;
  }

  /** One entry, when the delta does not stop the list. */
  lemma NextEntry(n: nat, s: Input, c: Scan, delta: int, s': Input)
    requires Run(n, s) == c && GetSE(c.s) == (delta, s') && c.next != 0 && 0 < Last(c) + delta < 256
    ensures Run(n + 1, s) == Scan(c.entries + [Last(c) + delta], Last(c) + delta, false, s')
  {
    hide GetSE, CMod;
    CModInRange(Last(c) + delta);
  }

  lemma FirstEntries()
    ensures
      var s := From(PutSE(0, PutSE(0, PutSE(0, PutSE(-1, [false, false, false, false, false, true])))));
      Run(5, s) == Scan([8, 8, 8, 7, 23], 23, false, Input([], 5))
  {
    hide PutSE, GetSE, From, CMod, Step;
    var t := [false, false, false, false, false, true];
    LastNumber();
    var r1 := PutSE(0, PutSE(0, PutSE(-1, t)));
    var s := From(PutSE(0, r1));
    assert Run(0, s) == Scan([], 8, false, s);
    NextEntry(0, s, Scan([], 8, false, s), 0, From(r1));
    NextEntry(1, s, Scan([8], 8, false, From(r1)), 0, From(PutSE(0, PutSE(-1, t))));
    NextEntry(2, s, Scan([8, 8], 8, false, From(PutSE(0, PutSE(-1, t)))), 0, From(PutSE(-1, t)));
    NextEntry(3, s, Scan([8, 8, 8], 8, false, From(PutSE(-1, t))), -1, From(t));
    NextEntry(4, s, Scan([8, 8, 8, 7], 7, false, From(t)), 16, Input([], 5));
  }

  lemma {:induction false} OtherEntries(n: nat, s: Input)
    requires n >= 5 && Run(5, s) == Scan([8, 8, 8, 7, 23], 23, false, Input([], 5))
    ensures Run(n, s) == Scan([8, 8, 8, 7] + Flat(n - 4), 23, false, Input([], n))
  {
    hide GetSE;
    if n == 5 {
      assert Flat(1) == [23];
    } else {
      OtherEntries(n - 1, s);
      PastEnd(n - 1);
      assert Flat(n - 4) == Flat(n - 5) + [23];
    }
  }

  lemma FlagAhead(b: seq<bool>)
    ensures GetU1(From([true] + b)) == (true, From(b))
  {
    assert ([true] + b)[1..] == b;
  }

  lemma StoredLists()
    ensures GetLists(12, From(PutLists(Nones(8), PutEnd(STORED, [true])))) == (LISTS, Input([], 67))
  {
    hide PutEnd, PutSE, GetSE, PutLists, GetU1, Run;
    var b := PutSE(0, PutSE(0, PutSE(0, PutSE(-1, [false, false, false, false, false, true]))));
    EndOfStored();
    FirstEntries();
    OtherEntries(64, From(b));
    var s := From(PutLists(Nones(8), [true] + b));
    assert GetLists(8, s) == (Nones(8), From([true] + b));
    assert GetU1(From([true] + b)) == (true, From(b)) by { FlagAhead(b); }
    assert GetLists(9, s) == (Nones(8) + [Some(OVERREAD)], Input([], 64));
    PastEnd(64);
    PastEnd(65);
    PastEnd(66);
    assert GetLists(10, s) == (Nones(8) + [Some(OVERREAD)] + [None], Input([], 65));
    assert GetLists(11, s) == (Nones(8) + [Some(OVERREAD)] + [None] + [None], Input([], 66));
    assert Nones(8) + [Some(OVERREAD)] + [None] + [None] + [None] == LISTS;
  }

  lemma StoredChroma()
    ensures S.GetChroma(From(S.PutChroma(CHROMA, PutEnd(STORED, [true])))) == (CHROMA, Input([], 67))
  {
    hide PutUE, GetUE, PutU1, GetU1, PutLists, GetLists, PutEnd, From, S.ChromaOk;
    assert LISTS[..8] == Nones(8);
    StoredLists();
  }

  lemma NoPicOrder(o: nat)
    ensures S.GetPicOrder(Input([], o)) == (S.Lsb(0), Input([], o + 2))
  {
    hide GetUE, GetU1, GetSE, GetMany;
    PastEnd(o);
    PastEnd(o + 1);
  }

  lemma NoFormat(o: nat)
    ensures S.GetFormat(Input([], o)) == (EMPTY_FORMAT, Input([], o + 8))
  {
    hide GetUE, GetU1, S.GetCropping;
    for i := 0 to 8
      invariant forall k {:trigger Input([], k)} :: o <= k < o + i ==>
                  GetU1(Input([], k)) == (false, Input([], k + 1)) && GetUE(Input([], k)) == (0, Input([], k + 1))
    {
      PastEnd(o + i);
    }
  }

  /** All fields behind the lists are read past the end, as zeros. */
  lemma ZerosRead(o: nat)
    ensures
      var s1 := GetUE(Input([], o)).1;
      var s2 := S.GetPicOrder(s1).1;
      GetUE(Input([], o)).0 == 0 && S.GetPicOrder(s1).0 == S.Lsb(0) && S.GetFormat(s2).0 == EMPTY_FORMAT &&
      GetOption(VUI, S.GetFormat(s2).1).0 == None
  {
    hide GetUE, GetU1, GetVui, S.GetPicOrder, S.GetFormat;
    PastEnd(o);
    NoPicOrder(o + 1);
    NoFormat(o + 3);
    PastEnd(o + 11);
  }

  lemma StoredIsRead()
    ensures S.GetSps(From(S.PutSps(STORED, [true]))).0 == STORED
  {
    hide S.PutHead, S.GetHead, S.PutChroma, S.GetChroma, GetUE, S.GetPicOrder, S.GetFormat, GetOption, PutEnd, From;
    hide S.SpsWritable;
    assert S.SpsWritable(STORED) by { StoredInRange(); }
    SpsIs(STORED, [true]);
    StoredChroma();
    ZerosRead(67);
    assert S.HeadOk(HEAD);
  }

  lemma {:induction false} NonesLength(n: nat, i: nat, rest: seq<bool>)
    requires i <= n
    ensures |PutListsFrom(Nones(n), i, rest)| == n - i + |rest|
    decreases n - i
  {
    hide ListCodec;
    if i < n {
      NonesLength(n, i + 1, rest);
    }
  }

  lemma EndLengthOfStored()
    ensures |PutEnd(STORED, [])| == 12
  {
    hide PutEnd, PutSE;
    EndLength(STORED, [true]);
    EndOfStored();
    ZeroCodes();
  }

  lemma ChromaLength(rest: seq<bool>)
    ensures |S.PutChroma(CHROMA, rest)| == 18 + |rest|
  {
    hide PutUE, PutU1, PutListsFrom, S.GetChroma, S.ChromaOk, From;
    assert LISTS[..8] == Nones(8);
    NonesLength(8, 0, rest);
    ZeroCodes();
    assert |CodeUE(3)| == 5 by { assert BitLength(4) == 3; }
  }

  lemma HeadLength(rest: seq<bool>)
    ensures |S.PutHead(HEAD, rest)| == 25 + |rest|
  {
    hide PutUE, PutU1, PutU8, PutU, S.GetHead, From;
    ZeroCodes();
  }

  lemma StoredLength()
    ensures |PutNal(Nal(3, SpsUnit(STORED)), [])| == 63
  {
    hide S.PutHead, S.PutChroma, PutEnd, PutUnit, S.SpsWritable;
    assert S.SpsWritable(STORED) by { StoredInRange(); }
    SpsIs(STORED, []);
    EndLengthOfStored();
    ChromaLength(PutEnd(STORED, []));
    HeadLength(S.PutChroma(CHROMA, PutEnd(STORED, [])));
  }

  lemma LastStop()
    ensures PutTrailing(7, []) == [true]
  {}

  lemma StoredParsed(haveSei: bool, st: State)
    requires TablesOk(st) && st.unitType == 7
    ensures
      match Parse(haveSei, st, From(S.PutSps(STORED, PutTrailing(7, []))))
      case Parsed(st', s) => st' == StoreSps(st, STORED) && s.over >= 8
      case _ => false
  {
    hide S.PutSps, S.GetSps, PutTrailing, GetTrailing, From;
    assert PutTrailing(7, []) == [true] by { LastStop(); }
    StoredInRange();
    StoredIsRead();
    MatricesOverrun(STORED, 7);
  }

  /**
   Written out and read, that set is left in the stream and its table, but the
   reader is past the end and says so: it returns -1.
   */
  lemma StoredFails(haveSei: bool, st: State)
    requires TablesOk(st)
    ensures
      var n := Nal(3, SpsUnit(STORED));
      SetUnit(n) && Has444Matrices(STORED) && ReadNal(haveSei, st, Escape(Rbsp(n))) == Some((Received(st, n), -1))
  {
    hide Parse, ReadNal, Escape, Rbsp, UnitBytes, S.PutSps, PutTrailing, PutNal, From, InRange, Has444Matrices;
    var n := Nal(3, SpsUnit(STORED));
    StoredInRange();
    StoredLength();
    ContentFits(n);
    UnitReads(haveSei, st, 3, 7, S.PutSps(STORED, PutTrailing(7, [])));
    StoredParsed(haveSei, st.(refIdc := 3, unitType := 7));
  }
}
