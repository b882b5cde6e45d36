/** Slice headers, section 7.3.3 of ITU-T H.264. */
module SliceHeaders {
  import opened Bits
  import opened BitSyntax
  import opened BitCursor
  import opened SequenceParameterSet
  import opened PictureParameterSet

  const SLICE_P: nat := 0
  const SLICE_B: nat := 1
  const SLICE_I: nat := 2
  const SLICE_SP: nat := 3
  const SLICE_SI: nat := 4
  const IDR_SLICE: nat := 5

  predicate IsSliceType(sliceType: nat, cmpType: nat) {
    (if sliceType >= 5 then sliceType - 5 else sliceType) == (if cmpType >= 5 then cmpType - 5 else cmpType)
  }

  /** What a header is read and written against. */
  datatype Context = Context(nalUnitType: nat, nalRefIdc: nat, sps: Sps, pps: Pps)

  datatype Frame = Frame(colourPlaneId: nat, frameNum: nat, fieldPic: bool, bottomField: bool)

  datatype Order = Order(
    idrPicId: nat,
    picOrderCntLsb: nat,
    deltaPicOrderCntBottom: int,
    deltaPicOrderCnt0: int,
    deltaPicOrderCnt1: int)

  datatype ActiveCounts = ActiveCounts(l0Minus1: nat, l1Minus1: nat)

  datatype References = References(redundantPicCnt: nat, directSpatialMvPred: bool, override: Option<ActiveCounts>)

  datatype Reordering = Reordering(idc: nat, absDiffPicNumMinus1: nat, longTermPicNum: nat)

  datatype Reorderings = Reorderings(l0: Option<seq<Reordering>>, l1: Option<seq<Reordering>>)

  datatype LumaWeight = LumaWeight(weight: int, offset: int)

  datatype ChromaWeight = ChromaWeight(weight0: int, offset0: int, weight1: int, offset1: int)

  datatype Weights = Weights(luma: Option<LumaWeight>, chroma: Option<ChromaWeight>)

  datatype WeightTable = WeightTable(lumaLog2Denom: nat, chromaLog2Denom: nat, l0: seq<Weights>, l1: seq<Weights>)

  datatype Mmco = Mmco(
    operation: nat,
    differenceOfPicNumsMinus1: nat,
    longTermPicNum: nat,
    longTermFrameIdx: nat,
    maxLongTermFrameIdxPlus1: nat)

  datatype Marking =
    | NotSent
    | IdrMarking(noOutputOfPriorPics: bool, longTermReference: bool)
    | RefMarking(operations: Option<seq<Mmco>>)

  datatype Quantizer = Quantizer(cabacInitIdc: nat, sliceQpDelta: int, spForSwitch: bool, sliceQsDelta: int)

  datatype Deblocking = Deblocking(disableIdc: nat, alphaC0OffsetDiv2: int, betaOffsetDiv2: int)

  datatype Body = Body(
    frame: Frame,
    order: Order,
    references: References,
    reorderings: Reorderings,
    weights: Option<WeightTable>,
    marking: Marking,
    quantizer: Quantizer,
    deblocking: Deblocking,
    sliceGroupChangeCycle: nat)

  datatype SliceHeader = SliceHeader(firstMbInSlice: nat, sliceType: nat, ppsId: nat, body: Body)

  // The conditions under which fields are sent

  predicate SendsColourPlane(c: Context) {
    c.sps.chroma.Some? && c.sps.chroma.value.residualColourTransform
  }

  function FrameNumBits(c: Context): nat {
    c.sps.log2MaxFrameNumMinus4 + 4
  }

  predicate SendsField(c: Context) {
    !c.sps.format.frameMbsOnly
  }

  predicate IsIdr(c: Context) {
    c.nalUnitType == IDR_SLICE
  }

  predicate SendsLsb(c: Context) {
    c.sps.picOrder.Lsb?
  }

  function LsbBits(c: Context): nat {
    if c.sps.picOrder.Lsb? then c.sps.picOrder.log2MaxLsbMinus4 + 4 else 0
  }

  predicate SendsBottom(c: Context, fieldPic: bool) {
    c.pps.picOrderPresent && !fieldPic
  }

  predicate SendsDelta(c: Context) {
    c.sps.picOrder.Cycle? && !c.sps.picOrder.deltaAlwaysZero
  }

  predicate IsB(sliceType: nat) {
    IsSliceType(sliceType, SLICE_B)
  }

  predicate IsPOrSP(sliceType: nat) {
    IsSliceType(sliceType, SLICE_P) || IsSliceType(sliceType, SLICE_SP)
  }

  predicate IsIntra(sliceType: nat) {
    IsSliceType(sliceType, SLICE_I) || IsSliceType(sliceType, SLICE_SI)
  }

  predicate IsSwitching(sliceType: nat) {
    IsSliceType(sliceType, SLICE_SP) || IsSliceType(sliceType, SLICE_SI)
  }

  predicate SendsWeights(c: Context, sliceType: nat) {
    (c.pps.prediction.weightedPred && IsPOrSP(sliceType)) ||
    (c.pps.prediction.weightedBipredIdc == 1 && IsB(sliceType))
  }

  predicate HasChroma(c: Context) {
    ChromaFormatIdc(c.sps) != 0
  }

  predicate SendsCycle(c: Context) {
    NumGroupsMinus1(c.pps.groups) > 0 && c.pps.groups.groupMap.Changing? &&
    3 <= c.pps.groups.groupMap.mapType <= 5
  }

  function CycleBits(c: Context): nat {
    if SendsCycle(c) then
      IntLog2(PicSizeMinus1(c.pps.groups.groupMap) + c.pps.groups.groupMap.changeRateMinus1 + 1)
    else 0
  }

  // Ranges: fields fit their codes, and fields that are not sent are 0

  predicate FitsUE(v: nat) {
    v <= MAX_UE
  }

  predicate FitsSE(v: int) {
    -MAX_SE <= v <= MAX_SE
  }

  predicate FrameOk(c: Context, x: Frame) {
    x.colourPlaneId < 4 && x.frameNum < Pow2(FrameNumBits(c)) &&
    (!SendsColourPlane(c) ==> x.colourPlaneId == 0) &&
    (!SendsField(c) ==> !x.fieldPic) && (!x.fieldPic ==> !x.bottomField)
  }

  predicate OrderOk(c: Context, fieldPic: bool, x: Order) {
    FitsUE(x.idrPicId) && (!IsIdr(c) ==> x.idrPicId == 0) &&
    (if SendsLsb(c) then x.picOrderCntLsb < Pow2(LsbBits(c)) else x.picOrderCntLsb == 0) &&
    FitsSE(x.deltaPicOrderCntBottom) &&
    (!(SendsLsb(c) && SendsBottom(c, fieldPic)) ==> x.deltaPicOrderCntBottom == 0) &&
    FitsSE(x.deltaPicOrderCnt0) && (!SendsDelta(c) ==> x.deltaPicOrderCnt0 == 0) &&
    FitsSE(x.deltaPicOrderCnt1) &&
    (!(SendsDelta(c) && SendsBottom(c, fieldPic)) ==> x.deltaPicOrderCnt1 == 0)
  }

  predicate CountsOk(isB: bool, x: ActiveCounts) {
    FitsUE(x.l0Minus1) && FitsUE(x.l1Minus1) && (!isB ==> x.l1Minus1 == 0)
  }

  predicate ReferencesOk(c: Context, sliceType: nat, x: References) {
    FitsUE(x.redundantPicCnt) && (!c.pps.prediction.redundantPicCntPresent ==> x.redundantPicCnt == 0) &&
    (!IsB(sliceType) ==> !x.directSpatialMvPred) &&
    (!(IsPOrSP(sliceType) || IsB(sliceType)) ==> x.override.None?) &&
    (x.override.Some? ==> CountsOk(IsB(sliceType), x.override.value))
  }

  predicate ReorderingOk(x: Reordering) {
    FitsUE(x.idc) && FitsUE(x.absDiffPicNumMinus1) && FitsUE(x.longTermPicNum) &&
    (x.idc > 1 ==> x.absDiffPicNumMinus1 == 0) && (x.idc != 2 ==> x.longTermPicNum == 0)
  }

  predicate IsLastReordering(x: Reordering) {
    x.idc == 3
  }

  /** A command list that ends at its first 3. */
  predicate ReorderingListOk(xs: seq<Reordering>) {
    EndsAtFirst(IsLastReordering, xs) && forall x <- xs :: ReorderingOk(x)
  }

  predicate ReorderingsOk(sliceType: nat, x: Reorderings) {
    (IsIntra(sliceType) ==> x.l0.None?) && (x.l0.Some? ==> ReorderingListOk(x.l0.value)) &&
    (!IsB(sliceType) ==> x.l1.None?) && (x.l1.Some? ==> ReorderingListOk(x.l1.value))
  }

  predicate LumaOk(x: LumaWeight) {
    FitsSE(x.weight) && FitsSE(x.offset)
  }

  predicate ChromaWeightOk(x: ChromaWeight) {
    FitsSE(x.weight0) && FitsSE(x.offset0) && FitsSE(x.weight1) && FitsSE(x.offset1)
  }

  predicate WeightsOk(hasChroma: bool, x: Weights) {
    (x.luma.Some? ==> LumaOk(x.luma.value)) && (!hasChroma ==> x.chroma.None?) &&
    (x.chroma.Some? ==> ChromaWeightOk(x.chroma.value))
  }

  predicate WeightListOk(hasChroma: bool, xs: seq<Weights>) {
    forall x <- xs :: WeightsOk(hasChroma, x)
  }

  /** The table has the lengths of the picture parameter set, also when the slice overrides the counts. */
  predicate WeightTableOk(c: Context, isB: bool, x: WeightTable) {
    FitsUE(x.lumaLog2Denom) && FitsUE(x.chromaLog2Denom) && (!HasChroma(c) ==> x.chromaLog2Denom == 0) &&
    |x.l0| == c.pps.prediction.numRefIdxL0ActiveMinus1 + 1 && WeightListOk(HasChroma(c), x.l0) &&
    |x.l1| == (if isB then c.pps.prediction.numRefIdxL1ActiveMinus1 + 1 else 0) && WeightListOk(HasChroma(c), x.l1)
  }

  predicate MmcoOk(x: Mmco) {
    FitsUE(x.operation) && FitsUE(x.differenceOfPicNumsMinus1) && FitsUE(x.longTermPicNum) &&
    FitsUE(x.longTermFrameIdx) && FitsUE(x.maxLongTermFrameIdxPlus1) &&
    (x.operation !in {1, 3} ==> x.differenceOfPicNumsMinus1 == 0) &&
    (x.operation != 2 ==> x.longTermPicNum == 0) &&
    (x.operation !in {3, 6} ==> x.longTermFrameIdx == 0) &&
    (x.operation != 4 ==> x.maxLongTermFrameIdxPlus1 == 0)
  }

  predicate IsLastMmco(x: Mmco) {
    x.operation == 0
  }

  /** A command list that ends at its first 0. */
  predicate MmcoListOk(xs: seq<Mmco>) {
    EndsAtFirst(IsLastMmco, xs) && forall x <- xs :: MmcoOk(x)
  }

  predicate MarkingOk(c: Context, x: Marking) {
    match x
    case NotSent => c.nalRefIdc == 0
    case IdrMarking(_, _) => c.nalRefIdc != 0 && IsIdr(c)
    case RefMarking(o) => c.nalRefIdc != 0 && !IsIdr(c) && (o.Some? ==> MmcoListOk(o.value))
  }

  predicate SendsCabac(c: Context, sliceType: nat) {
    c.pps.entropyCodingMode && !IsIntra(sliceType)
  }

  predicate QuantizerOk(c: Context, sliceType: nat, x: Quantizer) {
    FitsUE(x.cabacInitIdc) && FitsSE(x.sliceQpDelta) && FitsSE(x.sliceQsDelta) &&
    (!SendsCabac(c, sliceType) ==> x.cabacInitIdc == 0) &&
    (!IsSliceType(sliceType, SLICE_SP) ==> !x.spForSwitch) && (!IsSwitching(sliceType) ==> x.sliceQsDelta == 0)
  }

  predicate SendsDeblocking(c: Context) {
    c.pps.prediction.deblockingFilterControlPresent
  }

  predicate SendsOffsets(c: Context, disableIdc: nat) {
    SendsDeblocking(c) && disableIdc != 1
  }

  predicate DeblockingOk(c: Context, x: Deblocking) {
    FitsUE(x.disableIdc) && FitsSE(x.alphaC0OffsetDiv2) && FitsSE(x.betaOffsetDiv2) &&
    (!SendsDeblocking(c) ==> x.disableIdc == 0) &&
    (!SendsOffsets(c, x.disableIdc) ==> x.alphaC0OffsetDiv2 == x.betaOffsetDiv2 == 0)
  }

  predicate CycleOk(c: Context, x: nat) {
    if SendsCycle(c) then x < Pow2(CycleBits(c)) else x == 0
  }

  predicate BodyOk(c: Context, sliceType: nat, x: Body) {
    FrameOk(c, x.frame) && OrderOk(c, x.frame.fieldPic, x.order) && ReferencesOk(c, sliceType, x.references) &&
    ReorderingsOk(sliceType, x.reorderings) &&
    (x.weights.Some? <==> SendsWeights(c, sliceType)) &&
    (x.weights.Some? ==> WeightTableOk(c, IsB(sliceType), x.weights.value)) &&
    MarkingOk(c, x.marking) && QuantizerOk(c, sliceType, x.quantizer) && DeblockingOk(c, x.deblocking) &&
    CycleOk(c, x.sliceGroupChangeCycle)
  }

  // Codes

  function GetFrame(c: Context, s0: Input): (Frame, Input) {
    var (plane, s1) := GetIf(SendsColourPlane(c), U(2), 0, s0);
    var (num, s2) := GetU(FrameNumBits(c), s1);
    var (field, s3) := GetIf(SendsField(c), FLAG, false, s2);
    var (bottom, s4) := GetIf(SendsField(c) && field, FLAG, false, s3);
    (Frame(plane, num, field, bottom), s4)
  }

  function PutFrame(c: Context, x: Frame, rest: seq<bool>): (r: seq<bool>)
    ensures FrameOk(c, x) ==> GetFrame(c, From(r)) == (x, From(rest))
  {
    hide PutU, GetU, PutIf, GetIf, PutU1, GetU1, Pow2, From;
    SmallWidths();
    PutIf(SendsColourPlane(c), U(2), x.colourPlaneId, 0,
    PutU(FrameNumBits(c), x.frameNum,
    PutIf(SendsField(c), FLAG, x.fieldPic, false,
    PutIf(SendsField(c) && x.fieldPic, FLAG, x.bottomField, false, rest))))
  }

  function GetOrder(c: Context, fieldPic: bool, s0: Input): (Order, Input) {
    var (idr, s1) := GetIf(IsIdr(c), UE, 0, s0);
    var (lsb, s2) := GetIf(SendsLsb(c), U(LsbBits(c)), 0, s1);
    var (bottom, s3) := GetIf(SendsLsb(c) && SendsBottom(c, fieldPic), SE, 0, s2);
    var (delta0, s4) := GetIf(SendsDelta(c), SE, 0, s3);
    var (delta1, s5) := GetIf(SendsDelta(c) && SendsBottom(c, fieldPic), SE, 0, s4);
    (Order(idr, lsb, bottom, delta0, delta1), s5)
  }

  function PutOrder(c: Context, fieldPic: bool, x: Order, rest: seq<bool>): (r: seq<bool>)
    ensures OrderOk(c, fieldPic, x) ==> GetOrder(c, fieldPic, From(r)) == (x, From(rest))
  {
    hide PutU, GetU, PutIf, GetIf, PutUE, GetUE, PutSE, GetSE, SendsBottom, SendsLsb, SendsDelta, LsbBits, Pow2, From;
    PutIf(IsIdr(c), UE, x.idrPicId, 0,
    PutIf(SendsLsb(c), U(LsbBits(c)), x.picOrderCntLsb, 0,
    PutIf(SendsLsb(c) && SendsBottom(c, fieldPic), SE, x.deltaPicOrderCntBottom, 0,
    PutIf(SendsDelta(c), SE, x.deltaPicOrderCnt0, 0,
    PutIf(SendsDelta(c) && SendsBottom(c, fieldPic), SE, x.deltaPicOrderCnt1, 0, rest)))))
  }

  function GetCounts(isB: bool, s0: Input): (ActiveCounts, Input) {
    var (l0, s1) := GetUE(s0);
    var (l1, s2) := GetIf(isB, UE, 0, s1);
    (ActiveCounts(l0, l1), s2)
  }

  function PutCounts(isB: bool, x: ActiveCounts, rest: seq<bool>): (r: seq<bool>)
    ensures CountsOk(isB, x) ==> GetCounts(isB, From(r)) == (x, From(rest))
  {
    hide PutUE, GetUE, PutIf, GetIf, From;
    PutUE(x.l0Minus1, PutIf(isB, UE, x.l1Minus1, 0, rest))
  }

  function CountsCodec(isB: bool): Codec<ActiveCounts> {
    Codec((x, rest) => PutCounts(isB, x, rest), s => GetCounts(isB, s))
  }

  function PutOverride(isB: bool, x: Option<ActiveCounts>, rest: seq<bool>): (r: seq<bool>)
    ensures (x.Some? ==> CountsOk(isB, x.value)) ==> GetOption(CountsCodec(isB), From(r)) == (x, From(rest))
  {
    hide PutCounts, GetCounts, PutOption, GetOption, CountsOk, From;
    PutOption(CountsCodec(isB), x, rest)
  }

  function OverrideCodec(isB: bool): Codec<Option<ActiveCounts>> {
    Codec((x, rest) => PutOverride(isB, x, rest), s => GetOption(CountsCodec(isB), s))
  }

  function GetReferences(c: Context, sliceType: nat, s0: Input): (References, Input) {
    var (redundant, s1) := GetIf(c.pps.prediction.redundantPicCntPresent, UE, 0, s0);
    var (direct, s2) := GetIf(IsB(sliceType), FLAG, false, s1);
    var (override, s3) := GetIf(IsPOrSP(sliceType) || IsB(sliceType), OverrideCodec(IsB(sliceType)), None, s2);
    (References(redundant, direct, override), s3)
  }

  function PutReferences(c: Context, sliceType: nat, x: References, rest: seq<bool>): (r: seq<bool>)
    ensures ReferencesOk(c, sliceType, x) ==> GetReferences(c, sliceType, From(r)) == (x, From(rest))
  {
    hide PutIf, GetIf, PutUE, GetUE, PutU1, GetU1, PutOverride, GetOption, IsPOrSP, IsB, CountsOk, From;
    PutIf(c.pps.prediction.redundantPicCntPresent, UE, x.redundantPicCnt, 0,
    PutIf(IsB(sliceType), FLAG, x.directSpatialMvPred, false,
    PutIf(IsPOrSP(sliceType) || IsB(sliceType), OverrideCodec(IsB(sliceType)), x.override, None, rest)))
  }

  function GetReordering(s0: Input): (Reordering, Input) {
    var (idc, s1) := GetUE(s0);
    var (diff, s2) := GetIf(idc == 0 || idc == 1, UE, 0, s1);
    var (long, s3) := GetIf(idc == 2, UE, 0, s2);
    (Reordering(idc, diff, long), s3)
  }

  function PutReordering(x: Reordering, rest: seq<bool>): (r: seq<bool>)
    ensures ReorderingOk(x) ==> GetReordering(From(r)) == (x, From(rest))
  {
    hide PutUE, GetUE, PutIf, GetIf, From;
    PutUE(x.idc,
    PutIf(x.idc == 0 || x.idc == 1, UE, x.absDiffPicNumMinus1, 0,
    PutIf(x.idc == 2, UE, x.longTermPicNum, 0, rest)))
  }

  const REORDERING := Codec(PutReordering, GetReordering)

  lemma ReorderingConsumes()
    ensures Consumes(REORDERING)
  {
    hide GetUE;
    forall s
      ensures Behind(GetReordering(s).1, s)
    {
      UEIsBehind(s);
      forall s' {
        UEIsBehind(s');
      }
    }
  }

  function GetReorderingList(s: Input): (seq<Reordering>, Input) {
    ReorderingConsumes();
    GetUntil(REORDERING, IsLastReordering, s)
  }

  function PutReorderingList(xs: seq<Reordering>, rest: seq<bool>): (r: seq<bool>)
    ensures ReorderingListOk(xs) ==> GetReorderingList(From(r)) == (xs, From(rest))
  {
    hide PutReordering, GetReordering, GetUntil, EndsAtFirst, ReorderingOk, Consumes, From;
    ReorderingConsumes();
    PutUntil(REORDERING, IsLastReordering, xs, rest)
  }

  const REORDERING_LIST := Codec(PutReorderingList, GetReorderingList)

  function GetOptionalReorderings(s: Input): (Option<seq<Reordering>>, Input) {
    GetOption(REORDERING_LIST, s)
  }

  function PutOptionalReorderings(x: Option<seq<Reordering>>, rest: seq<bool>): (r: seq<bool>)
    ensures (x.Some? ==> ReorderingListOk(x.value)) ==> GetOptionalReorderings(From(r)) == (x, From(rest))
  {
    hide PutReorderingList, GetReorderingList, PutOption, GetOption, ReorderingListOk, From;
    PutOption(REORDERING_LIST, x, rest)
  }

  const REORDERINGS := Codec(PutOptionalReorderings, GetOptionalReorderings)

  function GetReorderings(sliceType: nat, s0: Input): (Reorderings, Input) {
    var (l0, s1) := GetIf(!IsIntra(sliceType), REORDERINGS, None, s0);
    var (l1, s2) := GetIf(IsB(sliceType), REORDERINGS, None, s1);
    (Reorderings(l0, l1), s2)
  }

  function PutReorderings(sliceType: nat, x: Reorderings, rest: seq<bool>): (r: seq<bool>)
    ensures ReorderingsOk(sliceType, x) ==> GetReorderings(sliceType, From(r)) == (x, From(rest))
  {
    hide PutIf, GetIf, PutOptionalReorderings, GetOptionalReorderings, IsIntra, IsB, ReorderingListOk, From;
    PutIf(!IsIntra(sliceType), REORDERINGS, x.l0, None, PutIf(IsB(sliceType), REORDERINGS, x.l1, None, rest))
  }

  function GetLuma(s0: Input): (LumaWeight, Input) {
    var (weight, s1) := GetSE(s0);
    var (offset, s2) := GetSE(s1);
    (LumaWeight(weight, offset), s2)
  }

  function PutLuma(x: LumaWeight, rest: seq<bool>): (r: seq<bool>)
    ensures LumaOk(x) ==> GetLuma(From(r)) == (x, From(rest))
  {
    hide PutSE, GetSE, From;
    PutSE(x.weight, PutSE(x.offset, rest))
  }

  function GetChromaWeight(s0: Input): (ChromaWeight, Input) {
    var (weight0, s1) := GetSE(s0);
    var (offset0, s2) := GetSE(s1);
    var (weight1, s3) := GetSE(s2);
    var (offset1, s4) := GetSE(s3);
    (ChromaWeight(weight0, offset0, weight1, offset1), s4)
  }

  function PutChromaWeight(x: ChromaWeight, rest: seq<bool>): (r: seq<bool>)
    ensures ChromaWeightOk(x) ==> GetChromaWeight(From(r)) == (x, From(rest))
  {
    hide PutSE, GetSE, From;
    PutSE(x.weight0, PutSE(x.offset0, PutSE(x.weight1, PutSE(x.offset1, rest))))
  }

  const LUMA := Codec(PutLuma, GetLuma)
  const CHROMA := Codec(PutChromaWeight, GetChromaWeight)

  const OPTIONAL_CHROMA: Codec<Option<ChromaWeight>> :=
    Codec((x, rest) => PutOption(CHROMA, x, rest), s => GetOption(CHROMA, s))

  lemma OptionalChromaBack(x: Option<ChromaWeight>)
    ensures (x.Some? ==> ChromaWeightOk(x.value)) ==> Inverts(OPTIONAL_CHROMA, x)
  {
    hide PutChromaWeight, GetChromaWeight, PutOption, GetOption, ChromaWeightOk, From;
  }

  function GetWeights(hasChroma: bool, s0: Input): (Weights, Input) {
    var (luma, s1) := GetOption(LUMA, s0);
    var (chroma, s2) := GetIf(hasChroma, OPTIONAL_CHROMA, None, s1);
    (Weights(luma, chroma), s2)
  }

  function PutWeights(hasChroma: bool, x: Weights, rest: seq<bool>): (r: seq<bool>)
    ensures WeightsOk(hasChroma, x) ==> GetWeights(hasChroma, From(r)) == (x, From(rest))
  {
    hide PutLuma, GetLuma, PutOption, GetOption, PutIf, GetIf, LumaOk, ChromaWeightOk, From;
    OptionalChromaBack(x.chroma);
    PutOption(LUMA, x.luma, PutIf(hasChroma, OPTIONAL_CHROMA, x.chroma, None, rest))
  }

  function WeightsCodec(hasChroma: bool): Codec<Weights> {
    Codec((x, rest) => PutWeights(hasChroma, x, rest), s => GetWeights(hasChroma, s))
  }

  function PutWeightList(hasChroma: bool, xs: seq<Weights>, rest: seq<bool>): (r: seq<bool>)
    ensures WeightListOk(hasChroma, xs) ==>
              GetMany(WeightsCodec(hasChroma), |xs|, From(r)) == (xs, From(rest))
  {
    hide PutWeights, GetWeights, WeightsOk, GetMany, From;
    PutMany(WeightsCodec(hasChroma), xs, rest)
  }

  function GetWeightTable(c: Context, isB: bool, s0: Input): (WeightTable, Input) {
    var (luma, s1) := GetUE(s0);
    var (chroma, s2) := GetIf(HasChroma(c), UE, 0, s1);
    var (l0, s3) := GetMany(WeightsCodec(HasChroma(c)), c.pps.prediction.numRefIdxL0ActiveMinus1 + 1, s2);
    if isB then
      var (l1, s4) := GetMany(WeightsCodec(HasChroma(c)), c.pps.prediction.numRefIdxL1ActiveMinus1 + 1, s3);
      (WeightTable(luma, chroma, l0, l1), s4)
    else (WeightTable(luma, chroma, l0, []), s3)
  }

  function PutWeightTable(c: Context, isB: bool, x: WeightTable, rest: seq<bool>): (r: seq<bool>)
    ensures WeightTableOk(c, isB, x) ==> GetWeightTable(c, isB, From(r)) == (x, From(rest))
  {
    hide PutUE, GetUE, PutIf, GetIf, PutWeightList, GetMany, WeightListOk, From;
    PutUE(x.lumaLog2Denom, PutIf(HasChroma(c), UE, x.chromaLog2Denom, 0,
    PutWeightList(HasChroma(c), x.l0, if isB then PutWeightList(HasChroma(c), x.l1, rest) else rest)))
  }

  function PutOptionalTable(c: Context, sliceType: nat, x: Option<WeightTable>, rest: seq<bool>): seq<bool> {
    if SendsWeights(c, sliceType) && x.Some? then PutWeightTable(c, IsB(sliceType), x.value, rest) else rest
  }

  function GetOptionalTable(c: Context, sliceType: nat, s0: Input): (Option<WeightTable>, Input) {
    if SendsWeights(c, sliceType) then
      var (x, s1) := GetWeightTable(c, IsB(sliceType), s0);
      (Some(x), s1)
    else (None, s0)
  }

  function GetMmco(s0: Input): (Mmco, Input) {
    var (operation, s1) := GetUE(s0);
    var (difference, s2) := GetIf(operation == 1 || operation == 3, UE, 0, s1);
    var (picNum, s3) := GetIf(operation == 2, UE, 0, s2);
    var (frameIdx, s4) := GetIf(operation == 3 || operation == 6, UE, 0, s3);
    var (maxIdx, s5) := GetIf(operation == 4, UE, 0, s4);
    (Mmco(operation, difference, picNum, frameIdx, maxIdx), s5)
  }

  function PutMmco(x: Mmco, rest: seq<bool>): (r: seq<bool>)
    ensures MmcoOk(x) ==> GetMmco(From(r)) == (x, From(rest))
  {
    hide PutUE, GetUE, PutIf, GetIf, From;
    PutUE(x.operation,
    PutIf(x.operation == 1 || x.operation == 3, UE, x.differenceOfPicNumsMinus1, 0,
    PutIf(x.operation == 2, UE, x.longTermPicNum, 0,
    PutIf(x.operation == 3 || x.operation == 6, UE, x.longTermFrameIdx, 0,
    PutIf(x.operation == 4, UE, x.maxLongTermFrameIdxPlus1, 0, rest)))))
  }

  const MMCO := Codec(PutMmco, GetMmco)

  lemma MmcoConsumes()
    ensures Consumes(MMCO)
  {
    hide GetUE;
    forall s
      ensures Behind(GetMmco(s).1, s)
    {
      UEIsBehind(s);
      forall s' {
        UEIsBehind(s');
      }
    }
  }

  function GetMmcoList(s: Input): (seq<Mmco>, Input) {
    MmcoConsumes();
    GetUntil(MMCO, IsLastMmco, s)
  }

  function PutMmcoList(xs: seq<Mmco>, rest: seq<bool>): (r: seq<bool>)
    ensures MmcoListOk(xs) ==> GetMmcoList(From(r)) == (xs, From(rest))
  {
    hide PutMmco, GetMmco, GetUntil, EndsAtFirst, MmcoOk, Consumes, From;
    MmcoConsumes();
    PutUntil(MMCO, IsLastMmco, xs, rest)
  }

  const MMCO_LIST := Codec(PutMmcoList, GetMmcoList)

  function PutMarking(x: Marking, rest: seq<bool>): seq<bool> {
    match x
    case NotSent => rest
    case IdrMarking(noOutput, longTerm) => PutU1(noOutput, PutU1(longTerm, rest))
    case RefMarking(operations) => PutOption(MMCO_LIST, operations, rest)
  }

  function GetMarking(c: Context, s0: Input): (Marking, Input) {
    if c.nalRefIdc == 0 then (NotSent, s0)
    else if IsIdr(c) then
      var (noOutput, s1) := GetU1(s0);
      var (longTerm, s2) := GetU1(s1);
      (IdrMarking(noOutput, longTerm), s2)
    else
      var (operations, s1) := GetOption(MMCO_LIST, s0);
      (RefMarking(operations), s1)
  }

  lemma MarkingBack(c: Context, x: Marking, rest: seq<bool>)
    ensures MarkingOk(c, x) ==> GetMarking(c, From(PutMarking(x, rest))) == (x, From(rest))
  {
    hide PutU1, GetU1, PutOption, GetOption, PutMmcoList, GetMmcoList, MmcoListOk, From;
  }

  function GetQuantizer(c: Context, sliceType: nat, s0: Input): (Quantizer, Input) {
    var (cabac, s1) := GetIf(SendsCabac(c, sliceType), UE, 0, s0);
    var (qp, s2) := GetSE(s1);
    var (switch, s3) := GetIf(IsSliceType(sliceType, SLICE_SP), FLAG, false, s2);
    var (qs, s4) := GetIf(IsSwitching(sliceType), SE, 0, s3);
    (Quantizer(cabac, qp, switch, qs), s4)
  }

  function PutQuantizer(c: Context, sliceType: nat, x: Quantizer, rest: seq<bool>): (r: seq<bool>)
    ensures QuantizerOk(c, sliceType, x) ==> GetQuantizer(c, sliceType, From(r)) == (x, From(rest))
  {
    hide PutIf, GetIf, PutUE, GetUE, PutSE, GetSE, PutU1, GetU1, SendsCabac, IsSliceType, IsSwitching, From;
    PutIf(SendsCabac(c, sliceType), UE, x.cabacInitIdc, 0,
    PutSE(x.sliceQpDelta,
    PutIf(IsSliceType(sliceType, SLICE_SP), FLAG, x.spForSwitch, false,
    PutIf(IsSwitching(sliceType), SE, x.sliceQsDelta, 0, rest))))
  }

  function GetDeblocking(c: Context, s0: Input): (Deblocking, Input) {
    var (idc, s1) := GetIf(SendsDeblocking(c), UE, 0, s0);
    var (alpha, s2) := GetIf(SendsOffsets(c, idc), SE, 0, s1);
    var (beta, s3) := GetIf(SendsOffsets(c, idc), SE, 0, s2);
    (Deblocking(idc, alpha, beta), s3)
  }

  function PutDeblocking(c: Context, x: Deblocking, rest: seq<bool>): (r: seq<bool>)
    ensures DeblockingOk(c, x) ==> GetDeblocking(c, From(r)) == (x, From(rest))
  {
    hide PutIf, GetIf, PutUE, GetUE, PutSE, GetSE, From;
    PutIf(SendsDeblocking(c), UE, x.disableIdc, 0,
    PutIf(SendsOffsets(c, x.disableIdc), SE, x.alphaC0OffsetDiv2, 0,
    PutIf(SendsOffsets(c, x.disableIdc), SE, x.betaOffsetDiv2, 0, rest)))
  }

  function GetCycle(c: Context, s: Input): (nat, Input) {
    GetIf(SendsCycle(c), U(CycleBits(c)), 0, s)
  }

  function PutCycle(c: Context, x: nat, rest: seq<bool>): (r: seq<bool>)
    ensures CycleOk(c, x) ==> GetCycle(c, From(r)) == (x, From(rest))
  {
    hide PutIf, GetIf, PutU, GetU, SendsCycle, CycleBits, Pow2, From;
    PutIf(SendsCycle(c), U(CycleBits(c)), x, 0, rest)
  }

  function GetBody(c: Context, sliceType: nat, s0: Input): (Body, Input) {
    var (frame, s1) := GetFrame(c, s0);
    var (order, s2) := GetOrder(c, frame.fieldPic, s1);
    var (references, s3) := GetReferences(c, sliceType, s2);
    var (reorderings, s4) := GetReorderings(sliceType, s3);
    var (weights, s5) := GetOptionalTable(c, sliceType, s4);
    var (marking, s6) := GetMarking(c, s5);
    var (quantizer, s7) := GetQuantizer(c, sliceType, s6);
    var (deblocking, s8) := GetDeblocking(c, s7);
    var (cycle, s9) := GetCycle(c, s8);
    (Body(frame, order, references, reorderings, weights, marking, quantizer, deblocking, cycle), s9)
  }

  function PutBody(c: Context, sliceType: nat, x: Body, rest: seq<bool>): (r: seq<bool>)
    ensures BodyOk(c, sliceType, x) ==> GetBody(c, sliceType, From(r)) == (x, From(rest))
  {
    hide PutFrame, GetFrame, PutOrder, GetOrder, PutReferences, GetReferences, PutReorderings, GetReorderings;
    hide PutWeightTable, GetWeightTable, PutMarking, GetMarking, PutQuantizer, GetQuantizer, PutDeblocking;
    hide GetDeblocking;
    hide PutCycle, GetCycle, From, FrameOk, OrderOk, ReferencesOk, ReorderingsOk, WeightTableOk, MarkingOk, QuantizerOk;
    hide DeblockingOk, CycleOk, SendsWeights, IsB;
    MarkingBack(c, x.marking,
      PutQuantizer(c, sliceType, x.quantizer,
      PutDeblocking(c, x.deblocking,
      PutCycle(c, x.sliceGroupChangeCycle, rest))));
    PutFrame(c, x.frame,
    PutOrder(c, x.frame.fieldPic, x.order,
    PutReferences(c, sliceType, x.references,
    PutReorderings(sliceType, x.reorderings,
    PutOptionalTable(c, sliceType, x.weights,
    PutMarking(x.marking,
    PutQuantizer(c, sliceType, x.quantizer,
    PutDeblocking(c, x.deblocking,
    PutCycle(c, x.sliceGroupChangeCycle, rest)))))))))
  }

  // The whole header

  datatype Tables = Tables(spsTable: seq<Sps>, ppsTable: seq<Pps>)

  /** The sets that a header refers to; None when a number is outside its table. */
  function Lookup(tables: Tables, nalUnitType: nat, nalRefIdc: nat, ppsId: nat): Option<Context> {
    if ppsId >= |tables.ppsTable| then None else
    var pps := tables.ppsTable[ppsId];
    if pps.spsId >= |tables.spsTable| then None else
    Some(Context(nalUnitType, nalRefIdc, tables.spsTable[pps.spsId], pps))
  }

  predicate SliceHeaderOk(c: Context, h: SliceHeader) {
    FitsUE(h.firstMbInSlice) && FitsUE(h.sliceType) && FitsUE(h.ppsId) && BodyOk(c, h.sliceType, h.body)
  }

  function PutSliceHeader(c: Context, h: SliceHeader, rest: seq<bool>): seq<bool> {
    PutUE(h.firstMbInSlice, PutUE(h.sliceType, PutUE(h.ppsId, PutBody(c, h.sliceType, h.body, rest))))
  }

  /** None when the header refers to a set outside the tables. */
  function GetSliceHeader(tables: Tables, nalUnitType: nat, nalRefIdc: nat, s0: Input):
    Option<(SliceHeader, Context, Input)>
  {
    var (first, s1) := GetUE(s0);
    var (sliceType, s2) := GetUE(s1);
    var (ppsId, s3) := GetUE(s2);
    match Lookup(tables, nalUnitType, nalRefIdc, ppsId)
    case None => None
    case Some(c) =>
      var (body, s4) := GetBody(c, sliceType, s3);
      Some((SliceHeader(first, sliceType, ppsId, body), c, s4))
  }

  /**
   For all tables, every header within the widths of its fields comes back,
   with both command lists and the weight table.
   */
  lemma SliceHeaderRoundTrip(tables: Tables, c: Context, h: SliceHeader, rest: seq<bool>)
    requires Lookup(tables, c.nalUnitType, c.nalRefIdc, h.ppsId) == Some(c)
    requires SliceHeaderOk(c, h)
    ensures GetSliceHeader(tables, c.nalUnitType, c.nalRefIdc, From(PutSliceHeader(c, h, rest))) ==
            Some((h, c, From(rest)))
  {
    hide PutUE, GetUE, PutBody, GetBody, BodyOk, Lookup, From;
  }

  // Where the code agrees with sections 7.4.2.2 and 7.4.3 of ITU-T H.264

  /** The number of entries of reference list 0: that of the header, or the default of the picture set. */
  function ActiveL0(pps: Pps, x: References): nat {
    1 + if x.override.Some? then x.override.value.l0Minus1 else pps.prediction.numRefIdxL0ActiveMinus1
  }

  function ActiveL1(pps: Pps, x: References): nat {
    1 + if x.override.Some? then x.override.value.l1Minus1 else pps.prediction.numRefIdxL1ActiveMinus1
  }

  /**
   Whatever header is read, its weight table has an entry for each entry of the
   reference lists exactly when the header does not override the default counts
   by others.
   */
  lemma TableLengthIff(c: Context, sliceType: nat, s: Input)
    ensures
      var x := GetBody(c, sliceType, s).0;
      var o := x.references.override;
      x.weights.Some? ==>
        (|x.weights.value.l0| == ActiveL0(c.pps, x.references) <==>
         (o.Some? ==> o.value.l0Minus1 == c.pps.prediction.numRefIdxL0ActiveMinus1)) &&
        (IsB(sliceType) ==>
           (|x.weights.value.l1| == ActiveL1(c.pps, x.references) <==>
            (o.Some? ==> o.value.l1Minus1 == c.pps.prediction.numRefIdxL1ActiveMinus1)))
  {
    hide GetFrame, GetOrder, GetReferences, GetReorderings, GetMarking, GetQuantizer, GetDeblocking, GetCycle;
    hide GetUE, GetIf, GetMany, SendsWeights, IsB, HasChroma;
  }

  /** The size of a picture in map units, and the change rate of slice groups. */
  function PicSize(c: Context): nat {
    (c.sps.format.picWidthInMbsMinus1 + 1) * (c.sps.format.picHeightInMapUnitsMinus1 + 1)
  }

  function ChangeRate(c: Context): nat
    requires SendsCycle(c)
  {
    c.pps.groups.groupMap.changeRateMinus1 + 1
  }

  function CeilDiv(a: nat, b: nat): nat
    requires b > 0
  {
    (a + b - 1) / b
  }

  /** Ceil(Log2(size / rate + 1)), with the exact quotient. */
  function StandardCycleBits(size: nat, rate: nat): nat
    requires rate > 0
  {
    IntLog2(CeilDiv(size + rate, rate))
  }

  lemma Times(x: nat, y: nat, b: nat)
    requires x <= y
    ensures x * b <= y * b
  {}

  lemma CeilDivAtMost(a: nat, b: nat, k: nat)
    requires b > 0
    ensures CeilDiv(a, b) <= k <==> a <= k * b
  {
    var q, r := (a + b - 1) / b, (a + b - 1) % b;
    assert a + b - 1 == q * b + r;
    if q <= k {
      Times(q, k, b);
    } else {
      Times(k + 1, q, b);
    }
  }

  lemma IntLog2Is(x: nat, w: nat)
    requires x > 1
    ensures w == IntLog2(x) <==> w > 0 && x <= Pow2(w) && Pow2(w - 1) < x
  {
    hide IntLog2;
    IntLog2IsCeiling(x);
    var v := IntLog2(x);
    if w < v {
      Pow2Monotone(w, v - 1);
    } else if w > v {
      Pow2Monotone(v, w - 1);
    }
  }

  /** The width is w exactly when 2^w rates reach size and rate together, and half as many do not. */
  lemma StandardCycleBitsIs(size: nat, rate: nat, w: nat)
    requires size > 0 && rate > 0
    ensures w == StandardCycleBits(size, rate) <==>
            w > 0 && size + rate <= Pow2(w) * rate && Pow2(w - 1) * rate < size + rate
  {
    var x := CeilDiv(size + rate, rate);
    CeilDivAtMost(size + rate, rate, 1);
    CeilDivAtMost(size + rate, rate, Pow2(w));
    if w > 0 {
      CeilDivAtMost(size + rate, rate, Pow2(w - 1));
    }
    IntLog2Is(x, w);
  }

  lemma SizeIsPositive(c: Context)
    ensures PicSize(c) > 0
  {
    var x, y := c.sps.format.picWidthInMbsMinus1 + 1, c.sps.format.picHeightInMapUnitsMinus1 + 1;
    assert x * y >= 1 * y by { Times(1, x, y); }
  }

  /**
   The field slice_group_change_cycle has the width of the standard exactly when
   the picture has more than 2^(w-1) - 1 and at most 2^w - 1 times as many map
   units as the change rate says, w being the width that the code uses: the
   logarithm of the change rate.
   */
  lemma CycleBitsIff(c: Context)
    requires SendsCycle(c)
    ensures
      var w := CycleBits(c);
      w == IntLog2(ChangeRate(c)) &&
      (w == StandardCycleBits(PicSize(c), ChangeRate(c)) <==>
       w > 0 && PicSize(c) <= (Pow2(w) - 1) * ChangeRate(c) && PicSize(c) > (Pow2(w - 1) - 1) * ChangeRate(c))
  {
    hide IntLog2;
    var w, rate, size := CycleBits(c), ChangeRate(c), PicSize(c);
    assert size > 0 by { SizeIsPositive(c); }
    StandardCycleBitsIs(size, rate, w);
    assert (Pow2(w) - 1) * rate == Pow2(w) * rate - rate;
    if w > 0 {
      assert (Pow2(w - 1) - 1) * rate == Pow2(w - 1) * rate - rate;
    }
  }
}
