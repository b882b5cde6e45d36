/**
 The syntax tables of slice headers, sections 7.3.3, 7.3.3.1, 7.3.3.2 and 7.3.3.3 of
 ITU-T H.264, as lists of elements. Every condition stands here in terms of the unit
 type, nal_ref_idc, slice_type and the fields of the sets; that the codes and the
 readers go by these lists is proved.
 */
module SliceSyntax {
  import opened Bits
  import opened BitSyntax
  import opened Fields
  import opened Syntax
  import opened ParameterSetSyntax
  import opened SliceHeaders
  import P = PictureParameterSet

  /** Slice types from 5 on stand for those below: 0 is P, 1 is B, 2 is I, 3 is SP, 4 is SI. */
  function Kind(sliceType: nat): nat {
    if sliceType >= 5 then sliceType - 5 else sliceType
  }

  lemma KindIs(sliceType: nat)
    requires sliceType < 10
    ensures Kind(sliceType) == sliceType % 5
  {}

  function FrameList(c: Context, x: Frame): seq<Field> {
    When(c.sps.chroma.Some? && c.sps.chroma.value.residualColourTransform, [Word(2, x.colourPlaneId)]) +
    [Word(c.sps.log2MaxFrameNumMinus4 + 4, x.frameNum)] +
    When(!c.sps.format.frameMbsOnly, [Flag(x.fieldPic)]) +
    When(!c.sps.format.frameMbsOnly && x.fieldPic, [Flag(x.bottomField)])
  }

  function OrderList(c: Context, fieldPic: bool, x: Order): seq<Field> {
    When(c.nalUnitType == 5, [Exp(x.idrPicId)]) +
    When(c.sps.picOrder.Lsb?,
         [Word(if c.sps.picOrder.Lsb? then c.sps.picOrder.log2MaxLsbMinus4 + 4 else 0, x.picOrderCntLsb)]) +
    When(c.sps.picOrder.Lsb? && c.pps.picOrderPresent && !fieldPic, [Signed(x.deltaPicOrderCntBottom)]) +
    When(c.sps.picOrder.Cycle? && !c.sps.picOrder.deltaAlwaysZero, [Signed(x.deltaPicOrderCnt0)]) +
    When(c.sps.picOrder.Cycle? && !c.sps.picOrder.deltaAlwaysZero && c.pps.picOrderPresent && !fieldPic,
         [Signed(x.deltaPicOrderCnt1)])
  }

  function CountsList(t: nat): ActiveCounts -> seq<Field> {
    (x: ActiveCounts) => [Exp(x.l0Minus1)] + When(Kind(t) == 1, [Exp(x.l1Minus1)])
  }

  function ReferencesList(c: Context, t: nat, x: References): seq<Field> {
    When(c.pps.prediction.redundantPicCntPresent, [Exp(x.redundantPicCnt)]) +
    When(Kind(t) == 1, [Flag(x.directSpatialMvPred)]) +
    When(Kind(t) == 0 || Kind(t) == 3 || Kind(t) == 1, OptionList(CountsList(t), x.override))
  }

  /** Section 7.3.3.1. */
  function ReorderingList(x: Reordering): seq<Field> {
    [Exp(x.idc)] +
    When(x.idc == 0 || x.idc == 1, [Exp(x.absDiffPicNumMinus1)]) +
    When(x.idc == 2, [Exp(x.longTermPicNum)])
  }

  function CommandsList(xs: seq<Reordering>): seq<Field> {
    ManyList(ReorderingList, xs)
  }

  /** The commands end at their first 3, or the bits end in them. */
  predicate CommandsEnd(xs: seq<Reordering>, s: Input) {
    xs != [] && (xs[|xs| - 1].idc == 3 || s.rest == []) && forall i :: 0 <= i < |xs| - 1 ==> xs[i].idc != 3
  }

  function ReorderingsList(t: nat, x: Reorderings): seq<Field> {
    When(Kind(t) != 2 && Kind(t) != 4, OptionList(CommandsList, x.l0)) +
    When(Kind(t) == 1, OptionList(CommandsList, x.l1))
  }

  /** Section 7.3.3.2. */
  function LumaList(x: LumaWeight): seq<Field> {
    [Signed(x.weight), Signed(x.offset)]
  }

  function ChromaWeightList(x: ChromaWeight): seq<Field> {
    [Signed(x.weight0), Signed(x.offset0), Signed(x.weight1), Signed(x.offset1)]
  }

  function WeightsList(hasChroma: bool): Weights -> seq<Field> {
    (x: Weights) => OptionList(LumaList, x.luma) + When(hasChroma, OptionList(ChromaWeightList, x.chroma))
  }

  /** The chroma format, which is 1 when it is not sent, is not 0. */
  predicate InColour(c: Context) {
    c.sps.chroma.None? || c.sps.chroma.value.formatIdc != 0
  }

  function TableList(c: Context, t: nat, x: WeightTable): seq<Field> {
    [Exp(x.lumaLog2Denom)] + When(InColour(c), [Exp(x.chromaLog2Denom)]) +
    ManyList(WeightsList(InColour(c)), x.l0) + When(Kind(t) == 1, ManyList(WeightsList(InColour(c)), x.l1))
  }

  /** The lists have as many entries as the picture set says, and list 1 is there in B slices. */
  predicate TableShape(c: Context, t: nat, x: WeightTable) {
    |x.l0| == c.pps.prediction.numRefIdxL0ActiveMinus1 + 1 &&
    |x.l1| == (if Kind(t) == 1 then c.pps.prediction.numRefIdxL1ActiveMinus1 + 1 else 0)
  }

  function OptionalTableList(c: Context, t: nat, o: Option<WeightTable>): seq<Field> {
    if o.Some? then TableList(c, t, o.value) else []
  }

  /** Section 7.3.3.3. */
  function MmcoElements(x: Mmco): seq<Field> {
    [Exp(x.operation)] +
    When(x.operation == 1 || x.operation == 3, [Exp(x.differenceOfPicNumsMinus1)]) +
    When(x.operation == 2, [Exp(x.longTermPicNum)]) +
    When(x.operation == 3 || x.operation == 6, [Exp(x.longTermFrameIdx)]) +
    When(x.operation == 4, [Exp(x.maxLongTermFrameIdxPlus1)])
  }

  function OperationsList(xs: seq<Mmco>): seq<Field> {
    ManyList(MmcoElements, xs)
  }

  function MarkingList(x: Marking): seq<Field> {
    match x
    case NotSent => []
    case IdrMarking(noOutput, longTerm) => [Flag(noOutput), Flag(longTerm)]
    case RefMarking(operations) => OptionList(OperationsList, operations)
  }

  /** nal_ref_idc is 0, the unit is an IDR slice, or neither. */
  predicate MarkingShape(c: Context, x: Marking) {
    match x
    case NotSent => c.nalRefIdc == 0
    case IdrMarking(_, _) => c.nalRefIdc != 0 && c.nalUnitType == 5
    case RefMarking(_) => c.nalRefIdc != 0 && c.nalUnitType != 5
  }

  /** The operations end at their first 0, or the bits end in them. */
  predicate OperationsEnd(xs: seq<Mmco>, s: Input) {
    xs != [] && (xs[|xs| - 1].operation == 0 || s.rest == []) &&
    forall i :: 0 <= i < |xs| - 1 ==> xs[i].operation != 0
  }

  function QuantizerList(c: Context, t: nat, x: Quantizer): seq<Field> {
    When(c.pps.entropyCodingMode && Kind(t) != 2 && Kind(t) != 4, [Exp(x.cabacInitIdc)]) +
    [Signed(x.sliceQpDelta)] +
    When(Kind(t) == 3, [Flag(x.spForSwitch)]) +
    When(Kind(t) == 3 || Kind(t) == 4, [Signed(x.sliceQsDelta)])
  }

  function DeblockingList(c: Context, x: Deblocking): seq<Field> {
    When(c.pps.prediction.deblockingFilterControlPresent, [Exp(x.disableIdc)]) +
    When(c.pps.prediction.deblockingFilterControlPresent && x.disableIdc != 1,
         [Signed(x.alphaC0OffsetDiv2)]) +
    When(c.pps.prediction.deblockingFilterControlPresent && x.disableIdc != 1,
         [Signed(x.betaOffsetDiv2)])
  }

  /** Slice groups of the types 3 to 5 that change; the width is that of the code. */
  predicate GroupsChange(c: Context) {
    c.pps.groups.Groups? && c.pps.groups.numMinus1 > 0 && c.pps.groups.groupMap.Changing? &&
    c.pps.groups.groupMap.mapType in {3, 4, 5}
  }

  function CycleList(c: Context, x: nat): seq<Field> {
    When(GroupsChange(c),
         [Word(if GroupsChange(c) then CeilLog2(c.pps.groups.groupMap.changeRateMinus1 + 1) else 0, x)])
  }

  /** The weight table is sent for explicit weights of P and SP slices, or of B slices. */
  predicate ExplicitWeights(c: Context, t: nat) {
    (c.pps.prediction.weightedPred && (Kind(t) == 0 || Kind(t) == 3)) ||
    (c.pps.prediction.weightedBipredIdc == 1 && Kind(t) == 1)
  }

  function FrontList(c: Context, t: nat, x: Body): seq<Field> {
    FrameList(c, x.frame) +
    OrderList(c, x.frame.fieldPic, x.order) +
    ReferencesList(c, t, x.references) +
    ReorderingsList(t, x.reorderings)
  }

  function BackList(c: Context, t: nat, x: Body): seq<Field> {
    OptionalTableList(c, t, x.weights) +
    MarkingList(x.marking) +
    QuantizerList(c, t, x.quantizer) +
    DeblockingList(c, x.deblocking) +
    CycleList(c, x.sliceGroupChangeCycle)
  }

  /** The elements of a slice header. */
  function HeaderList(c: Context, h: SliceHeader): seq<Field> {
    [Exp(h.firstMbInSlice), Exp(h.sliceType), Exp(h.ppsId)] + FrontList(c, h.sliceType, h.body) +
    BackList(c, h.sliceType, h.body)
  }

  lemma Conditions(t: nat)
    ensures IsB(t) <==> Kind(t) == 1
    ensures IsPOrSP(t) <==> Kind(t) == 0 || Kind(t) == 3
    ensures IsIntra(t) <==> Kind(t) == 2 || Kind(t) == 4
    ensures IsSwitching(t) <==> Kind(t) == 3 || Kind(t) == 4
    ensures IsSliceType(t, SLICE_SP) <==> Kind(t) == 3
  {}

  // Each group of fields

  lemma ElementSyntax()
    ensures WritesList(UE, NumberList) && ReadsList(UE, NumberList)
    ensures WritesList(SE, SignedList) && ReadsList(SE, SignedList)
    ensures WritesList(FLAG, FlagList) && ReadsList(FLAG, FlagList)
    ensures forall n {:trigger U(n)} :: WritesList(U(n), IdList(n)) && ReadsList(U(n), IdList(n))
  {
    hide WritesList, ReadsList;
    NumbersAndFlags();
    forall n
      ensures WritesList(U(n), IdList(n)) && ReadsList(U(n), IdList(n))
    {
      IdSyntax(n);
    }
  }

  lemma OneWord(n: nat, v: nat, rest: seq<bool>, s: Input)
    ensures Code([Word(n, v)], rest) == PutU(n, v, rest)
    ensures GetU(n, s).0 == v ==> Past([Word(n, v)], s) == Some(GetU(n, s).1)
  {
    hide PutFields, PastFrom, PutField, GetField, PutU, GetU;
    Kinds();
    OneByOne();
  }

  lemma FrameWritten(c: Context, x: Frame, rest: seq<bool>)
    ensures PutFrame(c, x, rest) == Code(FrameList(c, x), rest)
  {
    hide Code, PutIf, PutU, GetU, GetIf, Inverts, When, WritesList, ReadsList, From, GetFrame, FrameOk;
    ElementSyntax();
    IfSyntax(FLAG, FlagList);
    IfSyntax(U(2), IdList(2));
    Joined();
    OneWord(FrameNumBits(c), x.frameNum, PutIf(SendsField(c), FLAG, x.fieldPic, false,
            PutIf(SendsField(c) && x.fieldPic, FLAG, x.bottomField, false, rest)), From([]));
  }

  lemma FrameRead(c: Context, s: Input)
    ensures Past(FrameList(c, GetFrame(c, s).0), s) == Some(GetFrame(c, s).1)
  {
    hide Past, GetU, GetIf, When, WritesList, ReadsList;
    ElementSyntax();
    IfSyntax(FLAG, FlagList);
    IfSyntax(U(2), IdList(2));
    Joined();
    OneWord(FrameNumBits(c), GetFrame(c, s).0.frameNum, [], GetIf(SendsColourPlane(c), U(2), 0, s).1);
  }

  lemma OrderWritten(c: Context, fieldPic: bool, x: Order, rest: seq<bool>)
    ensures PutOrder(c, fieldPic, x, rest) == Code(OrderList(c, fieldPic, x), rest)
  {
    hide Code, PutIf, GetIf, Inverts, When, WritesList, ReadsList, From, GetOrder, OrderOk;
    ElementSyntax();
    IfSyntax(UE, NumberList);
    IfSyntax(SE, SignedList);
    IfSyntax(U(LsbBits(c)), IdList(LsbBits(c)));
    Joined();
  }

  lemma OrderRead(c: Context, fieldPic: bool, s: Input)
    ensures Past(OrderList(c, fieldPic, GetOrder(c, fieldPic, s).0), s) == Some(GetOrder(c, fieldPic, s).1)
  {
    hide Past, GetIf, When, WritesList, ReadsList;
    ElementSyntax();
    IfSyntax(UE, NumberList);
    IfSyntax(SE, SignedList);
    IfSyntax(U(LsbBits(c)), IdList(LsbBits(c)));
    Joined();
  }

  lemma CountsSyntax(t: nat)
    ensures WritesList(CountsCodec(IsB(t)), CountsList(t)) && ReadsList(CountsCodec(IsB(t)), CountsList(t))
  {
    hide Code, Past, PutUE, GetUE, PutIf, GetIf, When, From, CountsOk, Kind, IsB;
    Conditions(t);
    NumbersAndFlags();
    IfSyntax(UE, NumberList);
    Joined();
    Singles();
  }

  function OverrideList(t: nat): Option<ActiveCounts> -> seq<Field> {
    (o: Option<ActiveCounts>) => OptionList(CountsList(t), o)
  }

  lemma OverrideSyntax(t: nat)
    ensures WritesList(OverrideCodec(IsB(t)), OverrideList(t)) && ReadsList(OverrideCodec(IsB(t)), OverrideList(t))
  {
    hide Code, Past, PutOption, GetOption, OptionList, From, CountsOk, IsB;
    CountsSyntax(t);
    OptionSyntax(CountsCodec(IsB(t)), CountsList(t));
  }

  lemma ReferencesWritten(c: Context, t: nat, x: References, rest: seq<bool>)
    ensures PutReferences(c, t, x, rest) == Code(ReferencesList(c, t, x), rest)
  {
    hide Code, PutIf, GetIf, Inverts, When, OptionList, WritesList, ReadsList, From, GetReferences, ReferencesOk, Kind;
    hide IsB, IsPOrSP, CountsCodec;
    Conditions(t);
    ElementSyntax();
    OverrideSyntax(t);
    IfSyntax(UE, NumberList);
    IfSyntax(FLAG, FlagList);
    IfSyntax(OverrideCodec(IsB(t)), OverrideList(t));
    Joined();
  }

  lemma ReferencesRead(c: Context, t: nat, s: Input)
    ensures Past(ReferencesList(c, t, GetReferences(c, t, s).0), s) == Some(GetReferences(c, t, s).1)
  {
    hide Past, GetIf, When, OptionList, WritesList, ReadsList, Kind, IsB, IsPOrSP, CountsCodec;
    Conditions(t);
    ElementSyntax();
    OverrideSyntax(t);
    IfSyntax(UE, NumberList);
    IfSyntax(FLAG, FlagList);
    IfSyntax(OverrideCodec(IsB(t)), OverrideList(t));
    Joined();
  }

  lemma ReorderingSyntax()
    ensures WritesList(REORDERING, ReorderingList) && ReadsList(REORDERING, ReorderingList)
  {
    hide Code, Past, PutUE, GetUE, PutIf, GetIf, When, From, ReorderingOk;
    NumbersAndFlags();
    IfSyntax(UE, NumberList);
    Joined();
    Singles();
  }

  lemma ReorderingListRead(s: Input)
    ensures
      var (xs, s') := GetReorderingList(s);
      Past(CommandsList(xs), s) == Some(s') && CommandsEnd(xs, s')
  {
    hide Past, GetUntil, WritesList, ReadsList, Consumes, ManyList;
    ReorderingConsumes();
    ReorderingSyntax();
    UntilRead(REORDERING, IsLastReordering, ReorderingList, s);
  }

  lemma CommandsWritten(xs: seq<Reordering>, rest: seq<bool>)
    ensures PutReorderingList(xs, rest) == Code(CommandsList(xs), rest)
  {
    hide Code, PutFrom, WritesList, ReadsList, Consumes, ManyList, GetReorderingList, ReorderingListOk, From;
    ReorderingConsumes();
    ReorderingSyntax();
    ManyWritten(REORDERING, ReorderingList, xs, rest);
  }

  lemma CommandsSyntax()
    ensures WritesList(REORDERING_LIST, CommandsList) && ReadsList(REORDERING_LIST, CommandsList)
  {
    hide Code, Past, PutFrom, GetReorderingList, ReorderingListOk, From, CommandsList;
    forall xs, rest
      ensures PutReorderingList(xs, rest) == Code(CommandsList(xs), rest)
    {
      CommandsWritten(xs, rest);
    }
    forall s
      ensures Past(CommandsList(GetReorderingList(s).0), s) == Some(GetReorderingList(s).1)
    {
      ReorderingListRead(s);
    }
  }

  function OptionalCommands(o: Option<seq<Reordering>>): seq<Field> {
    OptionList(CommandsList, o)
  }

  lemma OptionalCommandsSyntax()
    ensures WritesList(REORDERINGS, OptionalCommands) && ReadsList(REORDERINGS, OptionalCommands)
  {
    hide Code, Past, PutOption, GetOption, OptionList, From, ReorderingListOk;
    CommandsSyntax();
    OptionSyntax(REORDERING_LIST, CommandsList);
  }

  lemma ReorderingsWritten(t: nat, x: Reorderings, rest: seq<bool>)
    ensures PutReorderings(t, x, rest) == Code(ReorderingsList(t, x), rest)
  {
    hide Code, PutIf, GetIf, Inverts, When, OptionList, WritesList, ReadsList, From, GetReorderings, ReorderingsOk;
    hide Kind, IsB, IsIntra;
    Conditions(t);
    OptionalCommandsSyntax();
    IfSyntax(REORDERINGS, OptionalCommands);
    Joined();
  }

  lemma ReorderingsRead(t: nat, s: Input)
    ensures Past(ReorderingsList(t, GetReorderings(t, s).0), s) == Some(GetReorderings(t, s).1)
  {
    hide Past, GetIf, When, OptionList, WritesList, ReadsList, Kind, IsB, IsIntra;
    Conditions(t);
    OptionalCommandsSyntax();
    IfSyntax(REORDERINGS, OptionalCommands);
    Joined();
  }

  lemma LumaSyntax()
    ensures WritesList(LUMA, LumaList) && ReadsList(LUMA, LumaList)
  {
    hide PutFields, PastFrom, PutField, GetField, PutSE, GetSE, LumaOk, From;
    Kinds();
    OneByOne();
  }

  lemma ChromaWeightSyntax()
    ensures WritesList(CHROMA, ChromaWeightList) && ReadsList(CHROMA, ChromaWeightList)
  {
    hide PutFields, PastFrom, PutField, GetField, PutSE, GetSE, ChromaWeightOk, From;
    Kinds();
    OneByOne();
  }

  function OptionalChroma(o: Option<ChromaWeight>): seq<Field> {
    OptionList(ChromaWeightList, o)
  }

  lemma OptionalChromaSyntax()
    ensures WritesList(OPTIONAL_CHROMA, OptionalChroma) && ReadsList(OPTIONAL_CHROMA, OptionalChroma)
  {
    hide Code, Past, PutOption, GetOption, OptionList, From, ChromaWeightOk;
    ChromaWeightSyntax();
    OptionSyntax(CHROMA, ChromaWeightList);
  }

  lemma OneWeightsSyntax(hasChroma: bool)
    ensures WritesList(WeightsCodec(hasChroma), WeightsList(hasChroma))
    ensures ReadsList(WeightsCodec(hasChroma), WeightsList(hasChroma))
  {
    hide Code, Past, PutOption, GetOption, PutIf, GetIf, When, OptionList, From, WeightsOk, Inverts;
    LumaSyntax();
    OptionSyntax(LUMA, LumaList);
    OptionalChromaSyntax();
    IfSyntax(OPTIONAL_CHROMA, OptionalChroma);
    Joined();
  }

  lemma WeightListWritten(hasChroma: bool, xs: seq<Weights>, rest: seq<bool>)
    ensures PutWeightList(hasChroma, xs, rest) == Code(ManyList(WeightsList(hasChroma), xs), rest)
  {
    hide Code, PutFrom, WritesList, ReadsList, ManyList, From, WeightListOk, WeightsCodec, InvertsAll;
    OneWeightsSyntax(hasChroma);
    ManyWritten(WeightsCodec(hasChroma), WeightsList(hasChroma), xs, rest);
  }

  lemma WeightListRead(hasChroma: bool, n: nat, s: Input)
    ensures
      var (xs, s') := GetMany(WeightsCodec(hasChroma), n, s);
      Past(ManyList(WeightsList(hasChroma), xs), s) == Some(s')
  {
    hide Past, GetMany, WritesList, ReadsList, ManyList, WeightsCodec;
    OneWeightsSyntax(hasChroma);
    ManyRead(WeightsCodec(hasChroma), WeightsList(hasChroma), n, s);
  }

  lemma TableWritten(c: Context, t: nat, x: WeightTable, rest: seq<bool>)
    ensures PutWeightTable(c, IsB(t), x, rest) == Code(TableList(c, t, x), rest)
  {
    hide Code, PutUE, GetUE, PutIf, GetIf, Inverts, PutWeightList, GetMany, ManyList, WeightsList, WeightsCodec;
    hide WritesList, ReadsList, From, GetWeightTable, WeightTableOk, Kind, IsB;
    Conditions(t);
    NumbersAndFlags();
    IfSyntax(UE, NumberList);
    Joined();
    Singles();
    WeightListWritten(HasChroma(c), x.l1, rest);
    WeightListWritten(HasChroma(c), x.l0, if IsB(t) then PutWeightList(HasChroma(c), x.l1, rest) else rest);
  }

  /** The numbers of entries are those of the picture set. */
  lemma TableRead(c: Context, t: nat, s: Input)
    ensures
      var (x, s') := GetWeightTable(c, IsB(t), s);
      Past(TableList(c, t, x), s) == Some(s') && TableShape(c, t, x)
  {
    hide Past, GetUE, GetIf, GetMany, ManyList, WeightsList, WeightsCodec, WritesList, ReadsList, Kind, IsB;
    Conditions(t);
    NumbersAndFlags();
    IfSyntax(UE, NumberList);
    Joined();
    Singles();
    var s2 := GetIf(HasChroma(c), UE, 0, GetUE(s).1).1;
    var n0, n1 := c.pps.prediction.numRefIdxL0ActiveMinus1 + 1, c.pps.prediction.numRefIdxL1ActiveMinus1 + 1;
    WeightListRead(HasChroma(c), n0, s2);
    WeightListRead(HasChroma(c), n1, GetMany(WeightsCodec(HasChroma(c)), n0, s2).1);
  }

  lemma MmcoSyntax()
    ensures WritesList(MMCO, MmcoElements) && ReadsList(MMCO, MmcoElements)
  {
    hide Code, Past, PutUE, GetUE, PutIf, GetIf, When, From, MmcoOk;
    NumbersAndFlags();
    IfSyntax(UE, NumberList);
    Joined();
    Singles();
  }

  lemma OperationsWritten(xs: seq<Mmco>, rest: seq<bool>)
    ensures PutMmcoList(xs, rest) == Code(OperationsList(xs), rest)
  {
    hide Code, PutFrom, WritesList, ReadsList, Consumes, ManyList, GetMmcoList, MmcoListOk, From;
    MmcoConsumes();
    MmcoSyntax();
    ManyWritten(MMCO, MmcoElements, xs, rest);
  }

  lemma OperationsRead(s: Input)
    ensures
      var (xs, s') := GetMmcoList(s);
      Past(OperationsList(xs), s) == Some(s') && OperationsEnd(xs, s')
  {
    hide Past, GetUntil, WritesList, ReadsList, Consumes, ManyList;
    MmcoConsumes();
    MmcoSyntax();
    UntilRead(MMCO, IsLastMmco, MmcoElements, s);
  }

  lemma MarkingWritten(x: Marking, rest: seq<bool>)
    ensures PutMarking(x, rest) == Code(MarkingList(x), rest)
  {
    hide PutFields, PutU1, PutOption, GetOption, OptionList, OperationsList, PutMmcoList, GetMmcoList, MmcoListOk, From;
    match x
    case NotSent => OneByOne();
    case IdrMarking(noOutput, longTerm) => TwoFlags(noOutput, longTerm, rest, From([]));
    case RefMarking(o) =>
      if o.Some? {
        OperationsWritten(o.value, rest);
      }
      OptionWritten(MMCO_LIST, OperationsList, o, rest);
  }

  lemma MarkingRead(c: Context, s: Input)
    ensures
      var (x, s') := GetMarking(c, s);
      Past(MarkingList(x), s) == Some(s') && MarkingShape(c, x) &&
      (x.RefMarking? && x.operations.Some? ==> OperationsEnd(x.operations.value, s'))
  {
    hide PastFrom, GetU1, OptionList, OperationsList, GetMmcoList, OperationsEnd;
    match GetMarking(c, s).0 {
      case NotSent => OneByOne();
      case IdrMarking(noOutput, longTerm) => TwoFlags(noOutput, longTerm, [], s);
      case RefMarking(_) =>
        OperationsRead(GetU1(s).1);
        OptionRead(MMCO_LIST, OperationsList, s);
    }
  }

  lemma QuantizerWritten(c: Context, t: nat, x: Quantizer, rest: seq<bool>)
    ensures PutQuantizer(c, t, x, rest) == Code(QuantizerList(c, t, x), rest)
  {
    hide Code, PutSE, GetSE, PutIf, GetIf, Inverts, When, WritesList, ReadsList, From, GetQuantizer, QuantizerOk;
    hide Kind, IsIntra, IsSwitching, IsSliceType;
    Conditions(t);
    NumbersAndFlags();
    IfSyntax(UE, NumberList);
    IfSyntax(SE, SignedList);
    IfSyntax(FLAG, FlagList);
    Joined();
    Singles();
  }

  lemma QuantizerRead(c: Context, t: nat, s: Input)
    ensures Past(QuantizerList(c, t, GetQuantizer(c, t, s).0), s) == Some(GetQuantizer(c, t, s).1)
  {
    hide Past, GetSE, GetIf, When, WritesList, ReadsList, Kind, IsIntra, IsSwitching, IsSliceType;
    Conditions(t);
    NumbersAndFlags();
    IfSyntax(UE, NumberList);
    IfSyntax(SE, SignedList);
    IfSyntax(FLAG, FlagList);
    Joined();
    Singles();
  }

  lemma DeblockingWritten(c: Context, x: Deblocking, rest: seq<bool>)
    ensures PutDeblocking(c, x, rest) == Code(DeblockingList(c, x), rest)
  {
    hide Code, PutIf, GetIf, Inverts, When, WritesList, ReadsList, From, GetDeblocking, DeblockingOk;
    NumbersAndFlags();
    IfSyntax(UE, NumberList);
    IfSyntax(SE, SignedList);
    Joined();
  }

  lemma DeblockingRead(c: Context, s: Input)
    ensures Past(DeblockingList(c, GetDeblocking(c, s).0), s) == Some(GetDeblocking(c, s).1)
  {
    hide Past, GetIf, When, WritesList, ReadsList;
    NumbersAndFlags();
    IfSyntax(UE, NumberList);
    IfSyntax(SE, SignedList);
    Joined();
  }

  lemma CycleWidth(c: Context)
    ensures SendsCycle(c) <==> GroupsChange(c)
    ensures GroupsChange(c) ==> CycleBits(c) == CeilLog2(c.pps.groups.groupMap.changeRateMinus1 + 1)
  {
    hide CeilLog2, P.IntLog2;
    if GroupsChange(c) {
      CeilLog2Is(c.pps.groups.groupMap.changeRateMinus1 + 1);
    }
  }

  lemma CycleWritten(c: Context, x: nat, rest: seq<bool>)
    ensures PutCycle(c, x, rest) == Code(CycleList(c, x), rest)
  {
    hide Code, PutU, GetU, GetIf, Inverts, From, GetCycle, CycleOk, SendsCycle, CycleBits, GroupsChange, CeilLog2;
    CycleWidth(c);
    Joined();
    Singles();
  }

  lemma CycleRead(c: Context, s: Input)
    ensures Past(CycleList(c, GetCycle(c, s).0), s) == Some(GetCycle(c, s).1)
    ensures !GroupsChange(c) ==> GetCycle(c, s).0 == 0
  {
    hide Past, GetU, SendsCycle, CycleBits, GroupsChange, CeilLog2;
    CycleWidth(c);
    Joined();
    Singles();
  }

  lemma WeightsWhen(c: Context, t: nat)
    ensures SendsWeights(c, t) <==> ExplicitWeights(c, t)
  {
    hide Kind, IsB, IsPOrSP;
    Conditions(t);
  }

  lemma OptionalTableWritten(c: Context, t: nat, o: Option<WeightTable>, rest: seq<bool>)
    requires o.Some? ==> SendsWeights(c, t)
    ensures PutOptionalTable(c, t, o, rest) == Code(OptionalTableList(c, t, o), rest)
  {
    hide Code, PutWeightTable, TableList, SendsWeights, IsB;
    Joined();
    if o.Some? {
      TableWritten(c, t, o.value, rest);
    }
  }

  lemma OptionalTableRead(c: Context, t: nat, s: Input)
    ensures
      var (o, s') := GetOptionalTable(c, t, s);
      Past(OptionalTableList(c, t, o), s) == Some(s') && (o.Some? <==> ExplicitWeights(c, t)) &&
      (o.Some? ==> TableShape(c, t, o.value))
  {
    hide Past, GetWeightTable, TableList, SendsWeights, ExplicitWeights, TableShape, IsB;
    Joined();
    WeightsWhen(c, t);
    if SendsWeights(c, t) {
      TableRead(c, t, s);
    }
  }

  // Whole headers

  lemma FrontWritten(c: Context, t: nat, x: Body, rest: seq<bool>)
    ensures Code(FrontList(c, t, x), rest) ==
            PutFrame(c, x.frame,
            PutOrder(c, x.frame.fieldPic, x.order,
            PutReferences(c, t, x.references,
            PutReorderings(t, x.reorderings, rest))))
  {
    hide Code, PutFrame, PutOrder, PutReferences, PutReorderings, FrameList, OrderList, ReferencesList, ReorderingsList;
    hide GetFrame, GetOrder, GetReferences, GetReorderings, FrameOk, OrderOk, ReferencesOk, ReorderingsOk, From;
    Joined();
    ReorderingsWritten(t, x.reorderings, rest);
    var r3 := PutReorderings(t, x.reorderings, rest);
    ReferencesWritten(c, t, x.references, r3);
    var r2 := PutReferences(c, t, x.references, r3);
    OrderWritten(c, x.frame.fieldPic, x.order, r2);
    FrameWritten(c, x.frame, PutOrder(c, x.frame.fieldPic, x.order, r2));
  }

  lemma BackWritten(c: Context, t: nat, x: Body, rest: seq<bool>)
    requires x.weights.Some? ==> SendsWeights(c, t)
    ensures Code(BackList(c, t, x), rest) ==
            PutOptionalTable(c, t, x.weights,
            PutMarking(x.marking,
            PutQuantizer(c, t, x.quantizer,
            PutDeblocking(c, x.deblocking,
            PutCycle(c, x.sliceGroupChangeCycle, rest)))))
  {
    hide Code, PutOptionalTable, PutMarking, PutQuantizer, PutDeblocking, PutCycle, TableList, MarkingList;
    hide QuantizerList, DeblockingList, CycleList, SendsWeights;
    hide GetQuantizer, GetDeblocking, GetCycle, QuantizerOk, DeblockingOk, CycleOk, From;
    Joined();
    CycleWritten(c, x.sliceGroupChangeCycle, rest);
    var r4 := PutCycle(c, x.sliceGroupChangeCycle, rest);
    DeblockingWritten(c, x.deblocking, r4);
    var r3 := PutDeblocking(c, x.deblocking, r4);
    QuantizerWritten(c, t, x.quantizer, r3);
    var r2 := PutQuantizer(c, t, x.quantizer, r3);
    MarkingWritten(x.marking, r2);
    OptionalTableWritten(c, t, x.weights, PutMarking(x.marking, r2));
  }

  lemma BodyIs(c: Context, t: nat, x: Body, rest: seq<bool>)
    ensures PutBody(c, t, x, rest) ==
            PutFrame(c, x.frame,
            PutOrder(c, x.frame.fieldPic, x.order,
            PutReferences(c, t, x.references,
            PutReorderings(t, x.reorderings,
            PutOptionalTable(c, t, x.weights,
            PutMarking(x.marking,
            PutQuantizer(c, t, x.quantizer,
            PutDeblocking(c, x.deblocking,
            PutCycle(c, x.sliceGroupChangeCycle, rest)))))))))
  {
    hide PutFrame, PutOrder, PutReferences, PutReorderings, PutOptionalTable, PutMarking, PutQuantizer, PutDeblocking;
    hide PutCycle, GetBody, BodyOk, From;
  }

  lemma NumbersInFront(h: SliceHeader, rest: seq<bool>, s: Input)
    ensures Code([Exp(h.firstMbInSlice), Exp(h.sliceType), Exp(h.ppsId)], rest) ==
            PutUE(h.firstMbInSlice, PutUE(h.sliceType, PutUE(h.ppsId, rest)))
    ensures
      var (first, s1) := GetUE(s);
      var (t, s2) := GetUE(s1);
      var (ppsId, s3) := GetUE(s2);
      first == h.firstMbInSlice && t == h.sliceType && ppsId == h.ppsId ==>
        Past([Exp(h.firstMbInSlice), Exp(h.sliceType), Exp(h.ppsId)], s) == Some(s3)
  {
    hide PutFields, PastFrom, PutField, GetField, PutUE, GetUE, From;
    Kinds();
    OneByOne();
  }

  /**
   Whatever follows it, the code of a header is the joined code of the elements of
   section 7.3.3. In the headers in range, the weight table is there exactly when the
   sets ask for explicit weights.
   */
  lemma HeaderWritten(c: Context, h: SliceHeader, rest: seq<bool>)
    requires h.body.weights.Some? ==> ExplicitWeights(c, h.sliceType)
    ensures SliceHeaderOk(c, h) ==> (h.body.weights.Some? <==> ExplicitWeights(c, h.sliceType))
    ensures PutSliceHeader(c, h, rest) == Code(HeaderList(c, h), rest)
  {
    hide Code, PutUE, GetUE, PutBody, PutFrame, PutOrder, PutReferences, PutReorderings, PutOptionalTable, PutMarking;
    hide PutQuantizer, PutDeblocking, PutCycle, FrontList, BackList, SendsWeights, ExplicitWeights, From;
    hide FrameOk, OrderOk, ReferencesOk, ReorderingsOk, WeightTableOk, MarkingOk, QuantizerOk, DeblockingOk, CycleOk;
    var t, x := h.sliceType, h.body;
    WeightsWhen(c, t);
    BodyIs(c, t, x, rest);
    BackWritten(c, t, x, rest);
    FrontWritten(c, t, x, Code(BackList(c, t, x), rest));
    Joined();
    NumbersInFront(h, PutBody(c, t, x, rest), From([]));
  }

  /** What is not sent in front of the weight table is 0. */
  predicate FrontDefaults(c: Context, t: nat, x: Body) {
    var frame, order, references, lists := x.frame, x.order, x.references, x.reorderings;
    var sps, pps := c.sps, c.pps;
    (sps.chroma.None? || !sps.chroma.value.residualColourTransform ==> frame.colourPlaneId == 0) &&
    (sps.format.frameMbsOnly ==> !frame.fieldPic) && (!frame.fieldPic ==> !frame.bottomField) &&
    (c.nalUnitType != 5 ==> order.idrPicId == 0) &&
    (!sps.picOrder.Lsb? ==> order.picOrderCntLsb == 0) &&
    (!sps.picOrder.Lsb? || !pps.picOrderPresent || frame.fieldPic ==> order.deltaPicOrderCntBottom == 0) &&
    (!sps.picOrder.Cycle? || sps.picOrder.deltaAlwaysZero ==>
       order.deltaPicOrderCnt0 == order.deltaPicOrderCnt1 == 0) &&
    (!pps.picOrderPresent || frame.fieldPic ==> order.deltaPicOrderCnt1 == 0) &&
    (!pps.prediction.redundantPicCntPresent ==> references.redundantPicCnt == 0) &&
    (Kind(t) != 1 ==> !references.directSpatialMvPred && lists.l1.None?) &&
    (Kind(t) != 0 && Kind(t) != 1 && Kind(t) != 3 ==> references.override.None?) &&
    (Kind(t) != 1 && references.override.Some? ==> references.override.value.l1Minus1 == 0) &&
    (Kind(t) == 2 || Kind(t) == 4 ==> lists.l0.None?)
  }

  /** What is not sent behind the weight table is 0. */
  predicate BackDefaults(c: Context, t: nat, x: Body) {
    var filter := c.pps.prediction.deblockingFilterControlPresent;
    (!c.pps.entropyCodingMode || Kind(t) == 2 || Kind(t) == 4 ==> x.quantizer.cabacInitIdc == 0) &&
    (Kind(t) != 3 ==> !x.quantizer.spForSwitch) &&
    (Kind(t) != 3 && Kind(t) != 4 ==> x.quantizer.sliceQsDelta == 0) &&
    (!filter ==> x.deblocking.disableIdc == 0) &&
    (!filter || x.deblocking.disableIdc == 1 ==>
       x.deblocking.alphaC0OffsetDiv2 == x.deblocking.betaOffsetDiv2 == 0) &&
    (!GroupsChange(c) ==> x.sliceGroupChangeCycle == 0)
  }

  /** Which fields are there, the reader being at s behind them. */
  predicate BodyShape(c: Context, t: nat, x: Body, s: Input) {
    FrontDefaults(c, t, x) && BackDefaults(c, t, x) &&
    (x.reorderings.l0.Some? ==> CommandsEnd(x.reorderings.l0.value, s)) &&
    (x.reorderings.l1.Some? ==> CommandsEnd(x.reorderings.l1.value, s)) &&
    (x.weights.Some? <==> ExplicitWeights(c, t)) && (x.weights.Some? ==> TableShape(c, t, x.weights.value)) &&
    MarkingShape(c, x.marking) &&
    (x.marking.RefMarking? && x.marking.operations.Some? ==> OperationsEnd(x.marking.operations.value, s))
  }

  lemma FrontRead(c: Context, t: nat, s: Input)
    ensures
      var (frame, s1) := GetFrame(c, s);
      var (order, s2) := GetOrder(c, frame.fieldPic, s1);
      var (references, s3) := GetReferences(c, t, s2);
      var (reorderings, s4) := GetReorderings(t, s3);
      Past(FrameList(c, frame) + OrderList(c, frame.fieldPic, order) + ReferencesList(c, t, references) +
           ReorderingsList(t, reorderings), s) == Some(s4)
  {
    hide Past, GetFrame, GetOrder, GetReferences, GetReorderings, FrameList, OrderList, ReferencesList, ReorderingsList;
    Joined();
    var (frame, s1) := GetFrame(c, s);
    var (order, s2) := GetOrder(c, frame.fieldPic, s1);
    var (references, s3) := GetReferences(c, t, s2);
    FrameRead(c, s);
    OrderRead(c, frame.fieldPic, s1);
    ReferencesRead(c, t, s2);
    ReorderingsRead(t, s3);
  }

  lemma BackRead(c: Context, t: nat, s: Input)
    ensures
      var (weights, s5) := GetOptionalTable(c, t, s);
      var (marking, s6) := GetMarking(c, s5);
      var (quantizer, s7) := GetQuantizer(c, t, s6);
      var (deblocking, s8) := GetDeblocking(c, s7);
      var (cycle, s9) := GetCycle(c, s8);
      Past(OptionalTableList(c, t, weights) + MarkingList(marking) + QuantizerList(c, t, quantizer) +
           DeblockingList(c, deblocking) + CycleList(c, cycle), s) == Some(s9) &&
      Past(QuantizerList(c, t, quantizer) + DeblockingList(c, deblocking) + CycleList(c, cycle), s6) == Some(s9)
  {
    hide Past, GetOptionalTable, GetMarking, GetQuantizer, GetDeblocking, GetCycle, OptionalTableList, MarkingList;
    hide QuantizerList, DeblockingList, CycleList, ExplicitWeights, TableShape, MarkingShape;
    Joined();
    var s5 := GetOptionalTable(c, t, s).1;
    var s6 := GetMarking(c, s5).1;
    var s7 := GetQuantizer(c, t, s6).1;
    OptionalTableRead(c, t, s);
    MarkingRead(c, s5);
    QuantizerRead(c, t, s6);
    DeblockingRead(c, s7);
    CycleRead(c, GetDeblocking(c, s7).1);
  }

  lemma FrameIsDefault(c: Context, s: Input)
    ensures
      var x := GetFrame(c, s).0;
      (c.sps.chroma.None? || !c.sps.chroma.value.residualColourTransform ==> x.colourPlaneId == 0) &&
      (c.sps.format.frameMbsOnly ==> !x.fieldPic) && (!x.fieldPic ==> !x.bottomField)
  {
    hide GetU1, GetU;
  }

  lemma OrderIsDefault(c: Context, fieldPic: bool, s: Input)
    ensures
      var x := GetOrder(c, fieldPic, s).0;
      var p := c.sps.picOrder;
      (c.nalUnitType != 5 ==> x.idrPicId == 0) && (!p.Lsb? ==> x.picOrderCntLsb == 0) &&
      (!p.Lsb? || !c.pps.picOrderPresent || fieldPic ==> x.deltaPicOrderCntBottom == 0) &&
      (!p.Cycle? || p.deltaAlwaysZero ==> x.deltaPicOrderCnt0 == x.deltaPicOrderCnt1 == 0) &&
      (!c.pps.picOrderPresent || fieldPic ==> x.deltaPicOrderCnt1 == 0)
  {
    hide GetUE, GetSE, GetU;
  }

  lemma OverrideIsDefault(isB: bool, s: Input)
    ensures
      var x := GetOption(CountsCodec(isB), s).0;
      !isB && x.Some? ==> x.value.l1Minus1 == 0
  {
    hide GetUE, GetU1;
    assert CountsCodec(isB).get(GetU1(s).1) == GetCounts(isB, GetU1(s).1);
  }

  lemma ReferencesAreDefault(c: Context, t: nat, s: Input)
    ensures
      var x := GetReferences(c, t, s).0;
      (!c.pps.prediction.redundantPicCntPresent ==> x.redundantPicCnt == 0) &&
      (Kind(t) != 1 ==> !x.directSpatialMvPred) &&
      (Kind(t) != 0 && Kind(t) != 1 && Kind(t) != 3 ==> x.override.None?) &&
      (Kind(t) != 1 && x.override.Some? ==> x.override.value.l1Minus1 == 0)
  {
    hide GetUE, GetU1, GetOption, Kind, IsB, IsPOrSP;
    Conditions(t);
    var s1 := GetIf(c.pps.prediction.redundantPicCntPresent, UE, 0, s).1;
    var s2 := GetIf(IsB(t), FLAG, false, s1).1;
    OverrideIsDefault(IsB(t), s2);
    assert OverrideCodec(IsB(t)).get(s2) == GetOption(CountsCodec(IsB(t)), s2);
  }

  lemma U1OfNothing(s: Input)
    ensures s.rest == [] ==> GetU1(s).1.rest == []
  {}

  /** Where no bits are left, none are left behind. */
  lemma {:induction false} NothingBehindFrom(fs: seq<Field>, i: nat, s: Input)
    requires i <= |fs|
    ensures s.rest == [] && PastFrom(fs, i, s).Some? ==> PastFrom(fs, i, s).value.rest == []
    decreases |fs| - i
  {
    if i < |fs| {
      NothingBehindFrom(fs, i + 1, GetField(fs[i], s).1);
    }
  }

  lemma NothingBehind(fs: seq<Field>, s: Input)
    ensures s.rest == [] && Past(fs, s).Some? ==> Past(fs, s).value.rest == []
  {
    hide PastFrom;
    NothingBehindFrom(fs, 0, s);
  }

  /** Which lists of commands there are, and how they end. */
  lemma ReorderingsEnd(t: nat, s: Input)
    ensures
      var (x, s') := GetReorderings(t, s);
      (Kind(t) != 1 ==> x.l1.None?) && (Kind(t) == 2 || Kind(t) == 4 ==> x.l0.None?) &&
      (x.l0.Some? ==> CommandsEnd(x.l0.value, s')) && (x.l1.Some? ==> CommandsEnd(x.l1.value, s'))
  {
    hide GetU1, Kind, IsB, IsIntra, GetReorderingList, Past;
    Conditions(t);
    var s1 := GetIf(!IsIntra(t), REORDERINGS, None, s).1;
    ReorderingListRead(GetU1(s).1);
    ReorderingListRead(GetU1(s1).1);
    OptionalCommandsSyntax();
    assert s1.rest == [] ==> GetReorderings(t, s).1.rest == [] by {
      NothingBehind(CommandsList(GetReorderingList(GetU1(s1).1).0), GetU1(s1).1);
      U1OfNothing(s1);
    }
  }

  lemma FrontIsDefault(c: Context, t: nat, s: Input)
    ensures FrontDefaults(c, t, GetBody(c, t, s).0)
  {
    hide GetFrame, GetOrder, GetReferences, GetReorderings, GetOptionalTable, GetMarking, GetQuantizer;
    hide GetDeblocking, GetCycle, Kind;
    var (frame, s1) := GetFrame(c, s);
    var s2 := GetOrder(c, frame.fieldPic, s1).1;
    FrameIsDefault(c, s);
    OrderIsDefault(c, frame.fieldPic, s1);
    ReferencesAreDefault(c, t, s2);
    ReorderingsEnd(t, GetReferences(c, t, s2).1);
  }

  lemma CycleIsDefault(c: Context, t: nat, s: Input)
    ensures !GroupsChange(c) ==> GetBody(c, t, s).0.sliceGroupChangeCycle == 0
  {
    hide GetFrame, GetOrder, GetReferences, GetReorderings, GetOptionalTable, GetMarking, GetQuantizer;
    hide GetDeblocking, SendsCycle, GroupsChange;
    CycleWidth(c);
  }

  lemma BackIsDefault(c: Context, t: nat, s: Input)
    ensures BackDefaults(c, t, GetBody(c, t, s).0)
  {
    hide GetFrame, GetOrder, GetReferences, GetReorderings, GetOptionalTable, GetMarking, GetUE, GetSE, GetU1;
    hide GetCycle, GroupsChange, Kind, IsB, IsPOrSP, IsIntra, IsSwitching, IsSliceType;
    Conditions(t);
    CycleIsDefault(c, t, s);
  }

  lemma BodyReadElements(c: Context, t: nat, s: Input)
    ensures
      var (x, s') := GetBody(c, t, s);
      Past(FrontList(c, t, x) + BackList(c, t, x), s) == Some(s')
  {
    hide Past, GetFrame, GetOrder, GetReferences, GetReorderings, FrameList, OrderList, ReferencesList, ReorderingsList;
    hide GetOptionalTable, GetMarking, GetQuantizer, GetDeblocking, GetCycle, OptionalTableList, MarkingList;
    hide QuantizerList, DeblockingList, CycleList;
    FrontRead(c, t, s);
    var (frame, s1) := GetFrame(c, s);
    var (order, s2) := GetOrder(c, frame.fieldPic, s1);
    BackRead(c, t, GetReorderings(t, GetReferences(c, t, s2).1).1);
    Joined();
  }

  lemma BodyReadShape(c: Context, t: nat, s: Input)
    ensures BodyShape(c, t, GetBody(c, t, s).0, GetBody(c, t, s).1)
  {
    hide Past, GetFrame, GetOrder, GetReferences, GetReorderings, Kind, ExplicitWeights, TableShape, MarkingShape;
    hide GetOptionalTable, GetMarking, GetQuantizer, GetDeblocking, GetCycle, OptionalTableList, MarkingList;
    hide QuantizerList, DeblockingList, CycleList, FrontDefaults, BackDefaults;
    FrontIsDefault(c, t, s);
    BackIsDefault(c, t, s);
    var (frame, s1) := GetFrame(c, s);
    var (order, s2) := GetOrder(c, frame.fieldPic, s1);
    var s3 := GetReferences(c, t, s2).1;
    var s4 := GetReorderings(t, s3).1;
    ReorderingsEnd(t, s3);
    OptionalTableRead(c, t, s4);
    BackRead(c, t, s4);
    var x := GetBody(c, t, s).0;
    var s5 := GetOptionalTable(c, t, s4).1;
    MarkingRead(c, s5);
    NothingBehind(BackList(c, t, x), s4);
    NothingBehind(QuantizerList(c, t, x.quantizer) + DeblockingList(c, x.deblocking) +
                  CycleList(c, x.sliceGroupChangeCycle), GetMarking(c, s5).1);
  }

  /**
   Whatever bits are read as a slice header, the elements of section 7.3.3 for the
   header that is returned stand there, with the reader right behind them: each
   field under its condition, and the weight table when the sets ask for explicit weights.
   */
  lemma HeaderRead(tables: Tables, nalUnitType: nat, nalRefIdc: nat, s: Input)
    ensures
      match GetSliceHeader(tables, nalUnitType, nalRefIdc, s)
      case None => true
      case Some((h, c, s')) =>
        Past(HeaderList(c, h), s) == Some(s') && BodyShape(c, h.sliceType, h.body, s') &&
        c.nalUnitType == nalUnitType && c.nalRefIdc == nalRefIdc
  {
    hide Past, GetUE, GetBody, FrontList, BackList, BodyShape;
    match GetSliceHeader(tables, nalUnitType, nalRefIdc, s) {
      case None =>
      case Some((h, c, s')) =>
        var s3 := GetUE(GetUE(GetUE(s).1).1).1;
        NumbersInFront(h, [], s);
        BodyReadElements(c, h.sliceType, s3);
        BodyReadShape(c, h.sliceType, s3);
        Joined();
    }
  }
}
