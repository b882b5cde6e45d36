/** Reading and writing slice headers through the bit cursor. */
module SliceHeaderIO {
  import opened Bits
  import opened BitSyntax
  import opened BitCursor
  import opened SequenceParameterSet
  import opened PictureParameterSet
  import opened SliceHeaders

  // Readers

  method ReadFrame(b: BitStream, c: Context) returns (x: Frame)
    requires b.Valid()
    modifies b`p, b`bitsLeft
    ensures b.Valid() && (x, b.View()) == GetFrame(c, old(b.View()))
  {
    hide BitStream.View, GetU, GetU1;
    x := Frame(0, 0, false, false);
    if c.sps.chroma.Some? && c.sps.chroma.value.residualColourTransform {
      var plane := b.ReadU(2);
      x := x.(colourPlaneId := plane);
    }
    var num := b.ReadU(c.sps.log2MaxFrameNumMinus4 + 4);
    x := x.(frameNum := num);
    if !c.sps.format.frameMbsOnly {
      var field := b.ReadU1();
      x := x.(fieldPic := field);
      if field {
        var bottom := b.ReadU1();
        x := x.(bottomField := bottom);
      }
    }
  }

  method ReadOrder(b: BitStream, c: Context, fieldPic: bool) returns (x: Order)
    requires b.Valid()
    modifies b`p, b`bitsLeft
    ensures b.Valid() && (x, b.View()) == GetOrder(c, fieldPic, old(b.View()))
  {
    hide BitStream.View, GetU, GetUE, GetSE;
    x := Order(0, 0, 0, 0, 0);
    if c.nalUnitType == 5 {
      var idr := b.ReadUE();
      x := x.(idrPicId := idr);
    }
    if c.sps.picOrder.Lsb? {
      var lsb := b.ReadU(c.sps.picOrder.log2MaxLsbMinus4 + 4);
      x := x.(picOrderCntLsb := lsb);
      if c.pps.picOrderPresent && !fieldPic {
        var bottom := b.ReadSE();
        x := x.(deltaPicOrderCntBottom := bottom);
      }
    }
    if c.sps.picOrder.Cycle? && !c.sps.picOrder.deltaAlwaysZero {
      var delta0 := b.ReadSE();
      x := x.(deltaPicOrderCnt0 := delta0);
      if c.pps.picOrderPresent && !fieldPic {
        var delta1 := b.ReadSE();
        x := x.(deltaPicOrderCnt1 := delta1);
      }
    }
  }

  method ReadReferences(b: BitStream, c: Context, sliceType: nat) returns (x: References)
    requires b.Valid()
    modifies b`p, b`bitsLeft
    ensures b.Valid() && (x, b.View()) == GetReferences(c, sliceType, old(b.View()))
  {
    hide BitStream.View, GetUE, GetU1;
    x := References(0, false, None);
    if c.pps.prediction.redundantPicCntPresent {
      var redundant := b.ReadUE();
      x := x.(redundantPicCnt := redundant);
    }
    if IsSliceType(sliceType, SLICE_B) {
      var direct := b.ReadU1();
      x := x.(directSpatialMvPred := direct);
    }
    if IsSliceType(sliceType, SLICE_P) || IsSliceType(sliceType, SLICE_SP) || IsSliceType(sliceType, SLICE_B) {
      var override := b.ReadU1();
      if override {
        var l0 := b.ReadUE();
        var l1 := 0;
        if IsSliceType(sliceType, SLICE_B) {
          l1 := b.ReadUE();
        }
        x := x.(override := Some(ActiveCounts(l0, l1)));
      }
    }
  }

  method ReadReordering(b: BitStream) returns (x: Reordering)
    requires b.Valid()
    modifies b`p, b`bitsLeft
    ensures b.Valid() && (x, b.View()) == GetReordering(old(b.View()))
  {
    hide BitStream.View, GetUE;
    var idc := b.ReadUE();
    x := Reordering(idc, 0, 0);
    if idc == 0 || idc == 1 {
      var diff := b.ReadUE();
      x := x.(absDiffPicNumMinus1 := diff);
    } else if idc == 2 {
      var long := b.ReadUE();
      x := x.(longTermPicNum := long);
    }
  }

  lemma ReorderingIsBehind(s: Input)
    ensures Behind(GetReordering(s).1, s)
  {
    ReorderingConsumes();
    assert Behind(REORDERING.get(s).1, s);
  }

  method ReadReorderingList(b: BitStream) returns (xs: seq<Reordering>)
    requires b.Valid()
    modifies b`p, b`bitsLeft
    ensures b.Valid() && (xs, b.View()) == GetReorderingList(old(b.View()))
  {
    hide BitStream.View, GetReordering, GetUntil, UntilSoFar, Consumes;
    ReorderingConsumes();
    ghost var s := b.View();
    UntilFirst(REORDERING, IsLastReordering, s);
    var x := ReadReordering(b);
    xs := [x];
    while x.idc != 3 && !b.Eof()
      invariant b.Valid() && UntilSoFar(REORDERING, IsLastReordering, s, xs, x, b.View())
      decreases |b.View().rest|
    {
      UntilNext(REORDERING, IsLastReordering, s, xs, x, b.View());
      ReorderingIsBehind(b.View());
      x := ReadReordering(b);
      xs := xs + [x];
    }
    UntilDone(REORDERING, IsLastReordering, s, xs, x, b.View());
  }

  method ReadReorderings(b: BitStream, sliceType: nat) returns (x: Reorderings)
    requires b.Valid()
    modifies b`p, b`bitsLeft
    ensures b.Valid() && (x, b.View()) == GetReorderings(sliceType, old(b.View()))
  {
    hide BitStream.View, GetU1, GetReorderingList;
    x := Reorderings(None, None);
    if !IsSliceType(sliceType, SLICE_I) && !IsSliceType(sliceType, SLICE_SI) {
      var flag := b.ReadU1();
      if flag {
        var xs := ReadReorderingList(b);
        x := x.(l0 := Some(xs));
      }
    }
    if IsSliceType(sliceType, SLICE_B) {
      var flag := b.ReadU1();
      if flag {
        var xs := ReadReorderingList(b);
        x := x.(l1 := Some(xs));
      }
    }
  }

  method ReadWeights(b: BitStream, hasChroma: bool) returns (x: Weights)
    requires b.Valid()
    modifies b`p, b`bitsLeft
    ensures b.Valid() && (x, b.View()) == GetWeights(hasChroma, old(b.View()))
  {
    hide BitStream.View, GetU1, GetSE;
    x := Weights(None, None);
    var lumaFlag := b.ReadU1();
    if lumaFlag {
      var weight := b.ReadSE();
      var offset := b.ReadSE();
      x := x.(luma := Some(LumaWeight(weight, offset)));
    }
    if hasChroma {
      var chromaFlag := b.ReadU1();
      if chromaFlag {
        var weight0 := b.ReadSE();
        var offset0 := b.ReadSE();
        var weight1 := b.ReadSE();
        var offset1 := b.ReadSE();
        x := x.(chroma := Some(ChromaWeight(weight0, offset0, weight1, offset1)));
      }
    }
  }

  method ReadWeightList(b: BitStream, hasChroma: bool, n: nat) returns (xs: seq<Weights>)
    requires b.Valid()
    modifies b`p, b`bitsLeft
    ensures b.Valid() && (xs, b.View()) == GetMany(WeightsCodec(hasChroma), n, old(b.View()))
  {
    hide BitStream.View, GetWeights;
    xs := [];
    for i := 0 to n
      invariant b.Valid() && (xs, b.View()) == GetMany(WeightsCodec(hasChroma), i, old(b.View()))
    {
      var x := ReadWeights(b, hasChroma);
      xs := xs + [x];
    }
  }

  method ReadWeightTable(b: BitStream, c: Context, sliceType: nat) returns (x: WeightTable)
    requires b.Valid()
    modifies b`p, b`bitsLeft
    ensures b.Valid() && (x, b.View()) == GetWeightTable(c, IsB(sliceType), old(b.View()))
  {
    hide BitStream.View, GetUE, GetMany;
    var luma := b.ReadUE();
    x := WeightTable(luma, 0, [], []);
    if ChromaFormatIdc(c.sps) != 0 {
      var chroma := b.ReadUE();
      x := x.(chromaLog2Denom := chroma);
    }
    var l0 := ReadWeightList(b, HasChroma(c), c.pps.prediction.numRefIdxL0ActiveMinus1 + 1);
    x := x.(l0 := l0);
    if IsSliceType(sliceType, SLICE_B) {
      var l1 := ReadWeightList(b, HasChroma(c), c.pps.prediction.numRefIdxL1ActiveMinus1 + 1);
      x := x.(l1 := l1);
    }
  }

  method ReadMmco(b: BitStream) returns (x: Mmco)
    requires b.Valid()
    modifies b`p, b`bitsLeft
    ensures b.Valid() && (x, b.View()) == GetMmco(old(b.View()))
  {
    hide BitStream.View, GetUE;
    var op := b.ReadUE();
    x := Mmco(op, 0, 0, 0, 0);
    if op == 1 || op == 3 {
      var difference := b.ReadUE();
      x := x.(differenceOfPicNumsMinus1 := difference);
    }
    if op == 2 {
      var picNum := b.ReadUE();
      x := x.(longTermPicNum := picNum);
    }
    if op == 3 || op == 6 {
      var frameIdx := b.ReadUE();
      x := x.(longTermFrameIdx := frameIdx);
    }
    if op == 4 {
      var maxIdx := b.ReadUE();
      x := x.(maxLongTermFrameIdxPlus1 := maxIdx);
    }
  }

  lemma MmcoIsBehind(s: Input)
    ensures Behind(GetMmco(s).1, s)
  {
    MmcoConsumes();
    assert Behind(MMCO.get(s).1, s);
  }

  method ReadMmcoList(b: BitStream) returns (xs: seq<Mmco>)
    requires b.Valid()
    modifies b`p, b`bitsLeft
    ensures b.Valid() && (xs, b.View()) == GetMmcoList(old(b.View()))
  {
    hide BitStream.View, GetMmco, GetUntil, UntilSoFar, Consumes;
    MmcoConsumes();
    ghost var s := b.View();
    UntilFirst(MMCO, IsLastMmco, s);
    var x := ReadMmco(b);
    xs := [x];
    while x.operation != 0 && !b.Eof()
      invariant b.Valid() && UntilSoFar(MMCO, IsLastMmco, s, xs, x, b.View())
      decreases |b.View().rest|
    {
      UntilNext(MMCO, IsLastMmco, s, xs, x, b.View());
      MmcoIsBehind(b.View());
      x := ReadMmco(b);
      xs := xs + [x];
    }
    UntilDone(MMCO, IsLastMmco, s, xs, x, b.View());
  }

  method ReadMarking(b: BitStream, c: Context) returns (x: Marking)
    requires b.Valid() && c.nalRefIdc != 0
    modifies b`p, b`bitsLeft
    ensures b.Valid() && (x, b.View()) == GetMarking(c, old(b.View()))
  {
    hide BitStream.View, GetU1, GetMmcoList;
    if c.nalUnitType == 5 {
      var noOutput := b.ReadU1();
      var longTerm := b.ReadU1();
      x := IdrMarking(noOutput, longTerm);
    } else {
      x := RefMarking(None);
      var adaptive := b.ReadU1();
      if adaptive {
        var xs := ReadMmcoList(b);
        x := RefMarking(Some(xs));
      }
    }
  }

  method ReadQuantizer(b: BitStream, c: Context, sliceType: nat) returns (x: Quantizer)
    requires b.Valid()
    modifies b`p, b`bitsLeft
    ensures b.Valid() && (x, b.View()) == GetQuantizer(c, sliceType, old(b.View()))
  {
    hide BitStream.View, GetU1, GetUE, GetSE;
    x := Quantizer(0, 0, false, 0);
    if c.pps.entropyCodingMode && !IsSliceType(sliceType, SLICE_I) && !IsSliceType(sliceType, SLICE_SI) {
      var cabac := b.ReadUE();
      x := x.(cabacInitIdc := cabac);
    }
    var qp := b.ReadSE();
    x := x.(sliceQpDelta := qp);
    if IsSliceType(sliceType, SLICE_SP) || IsSliceType(sliceType, SLICE_SI) {
      if IsSliceType(sliceType, SLICE_SP) {
        var switch := b.ReadU1();
        x := x.(spForSwitch := switch);
      }
      var qs := b.ReadSE();
      x := x.(sliceQsDelta := qs);
    }
  }

  method ReadDeblocking(b: BitStream, c: Context) returns (x: Deblocking)
    requires b.Valid()
    modifies b`p, b`bitsLeft
    ensures b.Valid() && (x, b.View()) == GetDeblocking(c, old(b.View()))
  {
    hide BitStream.View, GetUE, GetSE;
    x := Deblocking(0, 0, 0);
    if c.pps.prediction.deblockingFilterControlPresent {
      var idc := b.ReadUE();
      x := x.(disableIdc := idc);
      if idc != 1 {
        var alpha := b.ReadSE();
        var beta := b.ReadSE();
        x := x.(alphaC0OffsetDiv2 := alpha, betaOffsetDiv2 := beta);
      }
    }
  }

  method ComputeCycleBits(c: Context) returns (v: nat)
    requires SendsCycle(c)
    ensures v == CycleBits(c)
  {
    hide IntLog2;
    v := ComputeIntLog2(PicSizeMinus1(c.pps.groups.groupMap) + c.pps.groups.groupMap.changeRateMinus1 + 1);
  }

  method ReadCycle(b: BitStream, c: Context) returns (x: nat)
    requires b.Valid()
    modifies b`p, b`bitsLeft
    ensures b.Valid() && (x, b.View()) == GetCycle(c, old(b.View()))
  {
    hide BitStream.View, GetU, IntLog2;
    x := 0;
    if SendsCycle(c) {
      var v := ComputeCycleBits(c);
      x := b.ReadU(v);
    }
  }

  lemma NoMarking(c: Context, s: Input)
    requires c.nalRefIdc == 0
    ensures GetMarking(c, s) == (NotSent, s)
  {}

  method ReadBody(b: BitStream, c: Context, sliceType: nat) returns (x: Body)
    requires b.Valid()
    modifies b`p, b`bitsLeft
    ensures b.Valid() && (x, b.View()) == GetBody(c, sliceType, old(b.View()))
  {
    hide BitStream.View, GetFrame, GetOrder, GetReferences, GetReorderings, GetWeightTable, GetMarking;
    hide GetQuantizer, GetDeblocking, GetCycle, IsSliceType;
    var frame := ReadFrame(b, c);
    var order := ReadOrder(b, c, frame.fieldPic);
    var references := ReadReferences(b, c, sliceType);
    var reorderings := ReadReorderings(b, sliceType);
    var weights := None;
    if SendsWeights(c, sliceType) {
      var table := ReadWeightTable(b, c, sliceType);
      weights := Some(table);
    }
    var marking := NotSent;
    if c.nalRefIdc != 0 {
      marking := ReadMarking(b, c);
    } else {
      NoMarking(c, b.View());
    }
    var quantizer := ReadQuantizer(b, c, sliceType);
    var deblocking := ReadDeblocking(b, c);
    var cycle := ReadCycle(b, c);
    x := Body(frame, order, references, reorderings, weights, marking, quantizer, deblocking, cycle);
  }

  /** None when the header refers to a set outside the tables. */
  method ReadSliceHeader(b: BitStream, tables: Tables, nalUnitType: nat, nalRefIdc: nat)
    returns (r: Option<(SliceHeader, Context)>)
    requires b.Valid()
    modifies b`p, b`bitsLeft
    ensures b.Valid()
    ensures
      match GetSliceHeader(tables, nalUnitType, nalRefIdc, old(b.View()))
      case None => r.None?
      case Some(g) => r == Some((g.0, g.1)) && b.View() == g.2
  {
    hide BitStream.View, GetUE, GetFrame, GetOrder, GetReferences, GetReorderings, GetWeightTable, GetMarking;
    hide GetQuantizer, GetDeblocking, GetCycle, IsSliceType, Lookup;
    var first := b.ReadUE();
    var sliceType := b.ReadUE();
    var ppsId := b.ReadUE();
    var found := Lookup(tables, nalUnitType, nalRefIdc, ppsId);
    if found.None? {
      return None;
    }
    var body := ReadBody(b, found.value, sliceType);
    r := Some((SliceHeader(first, sliceType, ppsId, body), found.value));
  }

  // Writers. The two loops over command lists also stop at the end of the buffer.
  // The methods around them say whether the code is whole. When it is not, all
  // that was left out lies past the end: the buffer holds what it would hold.

  method WriteFrame(b: BitStream, c: Context, x: Frame)
    requires b.Valid()
    modifies b`p, b`bitsLeft, b.buf
    ensures b.Valid()
    ensures forall rest {:trigger Then(b.Tape(), rest)} ::
              Then(b.Tape(), rest) == Then(old(b.Tape()), PutFrame(c, x, rest))
  {
    hide BitStream.Tape, Then, From, PutU, PutU1, GetFrame, GetIf, Inverts, FrameOk;
    if c.sps.chroma.Some? && c.sps.chroma.value.residualColourTransform {
      b.WriteU(2, x.colourPlaneId);
    }
    b.WriteU(c.sps.log2MaxFrameNumMinus4 + 4, x.frameNum);
    if !c.sps.format.frameMbsOnly {
      b.WriteU1(x.fieldPic);
      if x.fieldPic {
        b.WriteU1(x.bottomField);
      }
    }
  }

  method WriteOrder(b: BitStream, c: Context, fieldPic: bool, x: Order)
    requires b.Valid() && OrderOk(c, fieldPic, x)
    modifies b`p, b`bitsLeft, b.buf
    ensures b.Valid()
    ensures forall rest {:trigger Then(b.Tape(), rest)} ::
              Then(b.Tape(), rest) == Then(old(b.Tape()), PutOrder(c, fieldPic, x, rest))
  {
    hide BitStream.Tape, Then, From, PutU, PutUE, PutSE, GetOrder, GetIf, Inverts, LsbBits, Pow2;
    if c.nalUnitType == 5 {
      b.WriteUE(x.idrPicId);
    }
    if c.sps.picOrder.Lsb? {
      b.WriteU(LsbBits(c), x.picOrderCntLsb);
      if c.pps.picOrderPresent && !fieldPic {
        b.WriteSE(x.deltaPicOrderCntBottom);
      }
    }
    if c.sps.picOrder.Cycle? && !c.sps.picOrder.deltaAlwaysZero {
      b.WriteSE(x.deltaPicOrderCnt0);
      if c.pps.picOrderPresent && !fieldPic {
        b.WriteSE(x.deltaPicOrderCnt1);
      }
    }
  }

  method WriteCounts(b: BitStream, isB: bool, x: ActiveCounts)
    requires b.Valid() && CountsOk(isB, x)
    modifies b`p, b`bitsLeft, b.buf
    ensures b.Valid()
    ensures forall rest {:trigger Then(b.Tape(), rest)} ::
              Then(b.Tape(), rest) == Then(old(b.Tape()), PutCounts(isB, x, rest))
  {
    hide BitStream.Tape, Then, From, PutUE, GetCounts, GetIf, Inverts;
    b.WriteUE(x.l0Minus1);
    if isB {
      b.WriteUE(x.l1Minus1);
    }
  }

  method WriteOverride(b: BitStream, isB: bool, o: Option<ActiveCounts>)
    requires b.Valid() && (o.Some? ==> CountsOk(isB, o.value))
    modifies b`p, b`bitsLeft, b.buf
    ensures b.Valid()
    ensures forall rest {:trigger Then(b.Tape(), rest)} ::
              Then(b.Tape(), rest) == Then(old(b.Tape()), PutOverride(isB, o, rest))
  {
    hide BitStream.Tape, Then, From, PutU1, PutCounts, GetOption, GetCounts, Inverts, CountsOk;
    b.WriteU1(o.Some?);
    if o.Some? {
      WriteCounts(b, isB, o.value);
    }
  }

  method WriteReferences(b: BitStream, c: Context, sliceType: nat, x: References)
    requires b.Valid() && ReferencesOk(c, sliceType, x)
    modifies b`p, b`bitsLeft, b.buf
    ensures b.Valid()
    ensures forall rest {:trigger Then(b.Tape(), rest)} ::
              Then(b.Tape(), rest) == Then(old(b.Tape()), PutReferences(c, sliceType, x, rest))
  {
    hide BitStream.Tape, Then, From, PutUE, PutU1, PutOverride, GetReferences, GetOption, GetIf, Inverts;
    hide CountsOk, IsSliceType;
    if c.pps.prediction.redundantPicCntPresent {
      b.WriteUE(x.redundantPicCnt);
    }
    if IsSliceType(sliceType, SLICE_B) {
      b.WriteU1(x.directSpatialMvPred);
    }
    if IsSliceType(sliceType, SLICE_P) || IsSliceType(sliceType, SLICE_SP) || IsSliceType(sliceType, SLICE_B) {
      WriteOverride(b, IsSliceType(sliceType, SLICE_B), x.override);
    }
  }

  method WriteReordering(b: BitStream, x: Reordering)
    requires b.Valid() && ReorderingOk(x)
    modifies b`p, b`bitsLeft, b.buf
    ensures b.Valid()
    ensures forall rest {:trigger Then(b.Tape(), rest)} ::
              Then(b.Tape(), rest) == Then(old(b.Tape()), PutReordering(x, rest))
  {
    hide BitStream.Tape, Then, From, PutUE, GetReordering, GetIf, Inverts;
    b.WriteUE(x.idc);
    if x.idc == 0 || x.idc == 1 {
      b.WriteUE(x.absDiffPicNumMinus1);
    } else if x.idc == 2 {
      b.WriteUE(x.longTermPicNum);
    }
  }

  lemma ReorderingListIs(xs: seq<Reordering>)
    ensures forall rest :: PutReorderingList(xs, rest) == PutFrom(REORDERING, xs, 0, rest)
  {
    hide PutFrom;
  }

  lemma ReorderingsLeft(xs: seq<Reordering>, n: nat)
    requires n < |xs|
    ensures forall rest :: PutFrom(REORDERING, xs, n, rest) != []
  {
    hide CodeUE;
    forall v, rest
      ensures PutUE(v, rest) != []
    {
      CodeUEHasOne(v, rest);
    }
  }

  /** Whatever is written at the end of the buffer is cut off. */
  lemma RestIsLost(t: Tape)
    requires Full(t)
    ensures forall s {:trigger Then(t, s)} :: s != [] ==> CutFrom(Then(t, s), t)
  {}

  method WriteReorderingList(b: BitStream, xs: seq<Reordering>) returns (ghost whole: bool)
    requires b.Valid() && ReorderingListOk(xs)
    modifies b`p, b`bitsLeft, b.buf
    ensures b.Valid()
    ensures whole ==>
              forall rest {:trigger Then(b.Tape(), rest)} ::
                Then(b.Tape(), rest) == Then(old(b.Tape()), PutReorderingList(xs, rest))
    ensures !whole ==>
              Full(b.Tape()) &&
              forall rest {:trigger PutReorderingList(xs, rest)} ::
                CutFrom(Then(old(b.Tape()), PutReorderingList(xs, rest)), b.Tape())
  {
    hide BitStream.Tape, Then, From, PutReordering, PutFrom, GetReordering, GetReorderingList, InvertsAll, Inverts;
    hide Consumes, ReorderingOk, EndsAtFirst, PutReorderingList;
    NotEmpty(IsLastReordering, xs);
    ReorderingListIs(xs);
    ghost var t := b.Tape();
    var n := 0;
    while true
      invariant b.Valid() && n < |xs|
      invariant forall rest ::
                  Then(b.Tape(), PutFrom(REORDERING, xs, n, rest)) == Then(t, PutFrom(REORDERING, xs, 0, rest))
      decreases |xs| - n
    {
      PutFromStep(REORDERING, xs, n);
      var x := xs[n];
      assert x in xs;
      MoreBehind(IsLastReordering, xs, n);
      WriteReordering(b, x);
      n := n + 1;
      if x.idc == 3 || b.Eof() {
        break;
      }
    }
    whole := n == |xs|;
    if whole {
      PutFromEnd(REORDERING, xs);
    } else {
      assert b.Eof() <==> b.Tape().pos >= |b.Tape().bits|;
      ReorderingsLeft(xs, n);
      RestIsLost(b.Tape());
      forall rest
        ensures CutFrom(Then(t, PutReorderingList(xs, rest)), b.Tape())
      {
        assert Then(b.Tape(), PutFrom(REORDERING, xs, n, rest)) == Then(t, PutFrom(REORDERING, xs, 0, rest));
      }
    }
  }

  method WriteOptionalReorderings(b: BitStream, o: Option<seq<Reordering>>) returns (ghost whole: bool)
    requires b.Valid() && (o.Some? ==> ReorderingListOk(o.value))
    modifies b`p, b`bitsLeft, b.buf
    ensures b.Valid()
    ensures whole ==>
              forall rest {:trigger Then(b.Tape(), rest)} ::
                Then(b.Tape(), rest) == Then(old(b.Tape()), PutOptionalReorderings(o, rest))
    ensures !whole ==>
              Full(b.Tape()) &&
              forall rest {:trigger PutOptionalReorderings(o, rest)} ::
                CutFrom(Then(old(b.Tape()), PutOptionalReorderings(o, rest)), b.Tape())
  {
    hide BitStream.Tape, Then, From, PutU1, PutReorderingList, GetOption, GetReorderingList, Inverts, ReorderingListOk;
    hide CutFrom;
    b.WriteU1(o.Some?);
    whole := true;
    if o.Some? {
      whole := WriteReorderingList(b, o.value);
    }
  }

  /** Behind a cut, nothing that follows changes the buffer. */
  lemma CutAgain(t: Tape, u: Tape, whole: bool, code: seq<bool>)
    requires Full(t)
    requires if whole then Then(u, []) == Then(t, code) else Full(u) && CutFrom(Then(t, code), u)
    ensures Full(u) && u.bits == t.bits
    ensures forall v :: CutFrom(v, t) ==> CutFrom(v, u)
  {
    FullStays(t, code);
    ThenNothing(u);
  }

  method WriteReorderings(b: BitStream, sliceType: nat, x: Reorderings) returns (ghost whole: bool)
    requires b.Valid() && ReorderingsOk(sliceType, x)
    modifies b`p, b`bitsLeft, b.buf
    ensures b.Valid()
    ensures whole ==>
              forall rest {:trigger Then(b.Tape(), rest)} ::
                Then(b.Tape(), rest) == Then(old(b.Tape()), PutReorderings(sliceType, x, rest))
    ensures !whole ==>
              Full(b.Tape()) &&
              forall rest {:trigger PutReorderings(sliceType, x, rest)} ::
                CutFrom(Then(old(b.Tape()), PutReorderings(sliceType, x, rest)), b.Tape())
  {
    hide BitStream.Tape, Then, From, PutOptionalReorderings, GetOptionalReorderings, GetReorderings, GetIf, Inverts;
    hide ReorderingListOk, IsSliceType, CutFrom, Full;
    whole := true;
    if !IsSliceType(sliceType, SLICE_I) && !IsSliceType(sliceType, SLICE_SI) {
      whole := WriteOptionalReorderings(b, x.l0);
    }
    if IsSliceType(sliceType, SLICE_B) {
      ghost var before, t := whole, b.Tape();
      whole := WriteOptionalReorderings(b, x.l1);
      if !before {
        CutAgain(t, b.Tape(), whole, PutOptionalReorderings(x.l1, []));
        whole := false;
      }
    }
  }

  method WriteLuma(b: BitStream, o: Option<LumaWeight>)
    requires b.Valid() && (o.Some? ==> LumaOk(o.value))
    modifies b`p, b`bitsLeft, b.buf
    ensures b.Valid()
    ensures forall rest {:trigger Then(b.Tape(), rest)} ::
              Then(b.Tape(), rest) == Then(old(b.Tape()), PutOption(LUMA, o, rest))
  {
    hide BitStream.Tape, Then, From, PutU1, PutSE, GetLuma, GetOption, Inverts;
    b.WriteU1(o.Some?);
    if o.Some? {
      b.WriteSE(o.value.weight);
      b.WriteSE(o.value.offset);
    }
  }

  method WriteChromaWeights(b: BitStream, o: Option<ChromaWeight>)
    requires b.Valid() && (o.Some? ==> ChromaWeightOk(o.value))
    modifies b`p, b`bitsLeft, b.buf
    ensures b.Valid()
    ensures forall rest {:trigger Then(b.Tape(), rest)} ::
              Then(b.Tape(), rest) == Then(old(b.Tape()), PutOption(CHROMA, o, rest))
  {
    hide BitStream.Tape, Then, From, PutU1, PutSE, GetChromaWeight, GetOption, Inverts;
    b.WriteU1(o.Some?);
    if o.Some? {
      b.WriteSE(o.value.weight0);
      b.WriteSE(o.value.offset0);
      b.WriteSE(o.value.weight1);
      b.WriteSE(o.value.offset1);
    }
  }

  method WriteWeights(b: BitStream, hasChroma: bool, x: Weights)
    requires b.Valid() && WeightsOk(hasChroma, x)
    modifies b`p, b`bitsLeft, b.buf
    ensures b.Valid()
    ensures forall rest {:trigger Then(b.Tape(), rest)} ::
              Then(b.Tape(), rest) == Then(old(b.Tape()), PutWeights(hasChroma, x, rest))
  {
    hide BitStream.Tape, Then, From, PutOption, GetOption, GetWeights, GetIf, Inverts, LumaOk, ChromaWeightOk;
    WriteLuma(b, x.luma);
    if hasChroma {
      WriteChromaWeights(b, x.chroma);
    }
  }

  lemma WeightListIs(hasChroma: bool, xs: seq<Weights>)
    ensures forall rest :: PutWeightList(hasChroma, xs, rest) == PutFrom(WeightsCodec(hasChroma), xs, 0, rest)
  {}

  lemma WeightListStep(hasChroma: bool, xs: seq<Weights>, i: nat)
    requires i < |xs|
    ensures forall rest ::
              PutFrom(WeightsCodec(hasChroma), xs, i, rest) ==
              PutWeights(hasChroma, xs[i], PutFrom(WeightsCodec(hasChroma), xs, i + 1, rest))
  {
    hide PutWeights;
  }

  method WriteWeightList(b: BitStream, hasChroma: bool, xs: seq<Weights>)
    requires b.Valid() && WeightListOk(hasChroma, xs)
    modifies b`p, b`bitsLeft, b.buf
    ensures b.Valid()
    ensures forall rest {:trigger Then(b.Tape(), rest)} ::
              Then(b.Tape(), rest) == Then(old(b.Tape()), PutWeightList(hasChroma, xs, rest))
  {
    hide BitStream.Tape, Then, From, PutFrom, PutWeights, PutWeightList, WeightsCodec, WeightsOk;
    ghost var w := WeightsCodec(hasChroma);
    WeightListIs(hasChroma, xs);
    for i := 0 to |xs|
      invariant b.Valid()
      invariant forall rest :: Then(b.Tape(), PutFrom(w, xs, i, rest)) == Then(old(b.Tape()), PutFrom(w, xs, 0, rest))
    {
      WeightListStep(hasChroma, xs, i);
      assert WeightsOk(hasChroma, xs[i]);
      WriteWeights(b, hasChroma, xs[i]);
    }
    PutFromEnd(w, xs);
  }

  method WriteWeightTable(b: BitStream, c: Context, sliceType: nat, x: WeightTable)
    requires b.Valid() && WeightTableOk(c, IsB(sliceType), x)
    modifies b`p, b`bitsLeft, b.buf
    ensures b.Valid()
    ensures forall rest {:trigger Then(b.Tape(), rest)} ::
              Then(b.Tape(), rest) == Then(old(b.Tape()), PutWeightTable(c, IsB(sliceType), x, rest))
  {
    hide BitStream.Tape, Then, From, PutUE, PutWeightList, GetWeightTable, GetMany, GetIf, Inverts;
    hide WeightListOk, IsSliceType;
    b.WriteUE(x.lumaLog2Denom);
    if ChromaFormatIdc(c.sps) != 0 {
      b.WriteUE(x.chromaLog2Denom);
    }
    WriteWeightList(b, HasChroma(c), x.l0);
    if IsSliceType(sliceType, SLICE_B) {
      WriteWeightList(b, HasChroma(c), x.l1);
    }
  }

  method WriteMmco(b: BitStream, x: Mmco)
    requires b.Valid() && MmcoOk(x)
    modifies b`p, b`bitsLeft, b.buf
    ensures b.Valid()
    ensures forall rest {:trigger Then(b.Tape(), rest)} :: Then(b.Tape(), rest) == Then(old(b.Tape()), PutMmco(x, rest))
  {
    hide BitStream.Tape, Then, From, PutUE, GetMmco, GetIf, Inverts;
    b.WriteUE(x.operation);
    if x.operation == 1 || x.operation == 3 {
      b.WriteUE(x.differenceOfPicNumsMinus1);
    }
    if x.operation == 2 {
      b.WriteUE(x.longTermPicNum);
    }
    if x.operation == 3 || x.operation == 6 {
      b.WriteUE(x.longTermFrameIdx);
    }
    if x.operation == 4 {
      b.WriteUE(x.maxLongTermFrameIdxPlus1);
    }
  }

  lemma MmcoListIs(xs: seq<Mmco>)
    ensures forall rest :: PutMmcoList(xs, rest) == PutFrom(MMCO, xs, 0, rest)
  {
    hide PutFrom;
  }

  lemma MmcosLeft(xs: seq<Mmco>, n: nat)
    requires n < |xs|
    ensures forall rest :: PutFrom(MMCO, xs, n, rest) != []
  {
    hide CodeUE;
    forall v, rest
      ensures PutUE(v, rest) != []
    {
      CodeUEHasOne(v, rest);
    }
  }

  method WriteMmcoList(b: BitStream, xs: seq<Mmco>) returns (ghost whole: bool)
    requires b.Valid() && MmcoListOk(xs)
    modifies b`p, b`bitsLeft, b.buf
    ensures b.Valid()
    ensures whole ==>
              forall rest {:trigger Then(b.Tape(), rest)} ::
                Then(b.Tape(), rest) == Then(old(b.Tape()), PutMmcoList(xs, rest))
    ensures !whole ==>
              Full(b.Tape()) &&
              forall rest {:trigger PutMmcoList(xs, rest)} ::
                CutFrom(Then(old(b.Tape()), PutMmcoList(xs, rest)), b.Tape())
  {
    hide BitStream.Tape, Then, From, PutMmco, PutFrom, GetMmco, GetMmcoList, InvertsAll, Inverts;
    hide Consumes, MmcoOk, EndsAtFirst, PutMmcoList;
    NotEmpty(IsLastMmco, xs);
    MmcoListIs(xs);
    ghost var t := b.Tape();
    var n := 0;
    while true
      invariant b.Valid() && n < |xs|
      invariant forall rest :: Then(b.Tape(), PutFrom(MMCO, xs, n, rest)) == Then(t, PutFrom(MMCO, xs, 0, rest))
      decreases |xs| - n
    {
      PutFromStep(MMCO, xs, n);
      var x := xs[n];
      assert x in xs;
      MoreBehind(IsLastMmco, xs, n);
      WriteMmco(b, x);
      n := n + 1;
      if x.operation == 0 || b.Eof() {
        break;
      }
    }
    whole := n == |xs|;
    if whole {
      PutFromEnd(MMCO, xs);
    } else {
      assert b.Eof() <==> b.Tape().pos >= |b.Tape().bits|;
      MmcosLeft(xs, n);
      RestIsLost(b.Tape());
      forall rest
        ensures CutFrom(Then(t, PutMmcoList(xs, rest)), b.Tape())
      {
        assert Then(b.Tape(), PutFrom(MMCO, xs, n, rest)) == Then(t, PutFrom(MMCO, xs, 0, rest));
      }
    }
  }

  method WriteMarking(b: BitStream, c: Context, x: Marking) returns (ghost whole: bool)
    requires b.Valid() && c.nalRefIdc != 0 && MarkingOk(c, x)
    modifies b`p, b`bitsLeft, b.buf
    ensures b.Valid()
    ensures whole ==>
              forall rest {:trigger Then(b.Tape(), rest)} ::
                Then(b.Tape(), rest) == Then(old(b.Tape()), PutMarking(x, rest))
    ensures !whole ==>
              Full(b.Tape()) &&
              forall rest {:trigger PutMarking(x, rest)} :: CutFrom(Then(old(b.Tape()), PutMarking(x, rest)), b.Tape())
  {
    hide BitStream.Tape, Then, From, PutU1, PutMmcoList, GetOption, GetMmcoList, Inverts, MmcoListOk, CutFrom, Full;
    whole := true;
    if c.nalUnitType == 5 {
      b.WriteU1(x.noOutputOfPriorPics);
      b.WriteU1(x.longTermReference);
    } else {
      b.WriteU1(x.operations.Some?);
      if x.operations.Some? {
        whole := WriteMmcoList(b, x.operations.value);
      }
    }
  }

  method WriteQuantizer(b: BitStream, c: Context, sliceType: nat, x: Quantizer)
    requires b.Valid() && QuantizerOk(c, sliceType, x)
    modifies b`p, b`bitsLeft, b.buf
    ensures b.Valid()
    ensures forall rest {:trigger Then(b.Tape(), rest)} ::
              Then(b.Tape(), rest) == Then(old(b.Tape()), PutQuantizer(c, sliceType, x, rest))
  {
    hide BitStream.Tape, Then, From, PutUE, PutSE, PutU1, GetQuantizer, GetIf, Inverts, IsSliceType;
    if c.pps.entropyCodingMode && !IsSliceType(sliceType, SLICE_I) && !IsSliceType(sliceType, SLICE_SI) {
      b.WriteUE(x.cabacInitIdc);
    }
    b.WriteSE(x.sliceQpDelta);
    if IsSliceType(sliceType, SLICE_SP) || IsSliceType(sliceType, SLICE_SI) {
      if IsSliceType(sliceType, SLICE_SP) {
        b.WriteU1(x.spForSwitch);
      }
      b.WriteSE(x.sliceQsDelta);
    }
  }

  method WriteDeblocking(b: BitStream, c: Context, x: Deblocking)
    requires b.Valid() && DeblockingOk(c, x)
    modifies b`p, b`bitsLeft, b.buf
    ensures b.Valid()
    ensures forall rest {:trigger Then(b.Tape(), rest)} ::
              Then(b.Tape(), rest) == Then(old(b.Tape()), PutDeblocking(c, x, rest))
  {
    hide BitStream.Tape, Then, From, PutUE, PutSE, GetDeblocking, GetIf, Inverts;
    if c.pps.prediction.deblockingFilterControlPresent {
      b.WriteUE(x.disableIdc);
      if x.disableIdc != 1 {
        b.WriteSE(x.alphaC0OffsetDiv2);
        b.WriteSE(x.betaOffsetDiv2);
      }
    }
  }

  lemma CycleIs(c: Context, x: nat)
    ensures forall rest :: PutCycle(c, x, rest) == if SendsCycle(c) then PutU(CycleBits(c), x, rest) else rest
  {
    hide PutU, SendsCycle, CycleBits;
  }

  method WriteCycle(b: BitStream, c: Context, x: nat)
    requires b.Valid()
    modifies b`p, b`bitsLeft, b.buf
    ensures b.Valid()
    ensures forall rest {:trigger Then(b.Tape(), rest)} ::
              Then(b.Tape(), rest) == Then(old(b.Tape()), PutCycle(c, x, rest))
  {
    hide BitStream.Tape, Then, PutU, PutCycle, SendsCycle, CycleBits;
    CycleIs(c, x);
    if SendsCycle(c) {
      var v := ComputeCycleBits(c);
      b.WriteU(v, x);
    }
  }

  /** The optional weight table and the optional marking commands. */
  function PutMiddle(c: Context, sliceType: nat, x: Body, rest: seq<bool>): seq<bool> {
    PutOptionalTable(c, sliceType, x.weights, PutMarking(x.marking, rest))
  }

  lemma NothingToMark(c: Context, x: Marking)
    requires c.nalRefIdc == 0 && MarkingOk(c, x)
    ensures forall rest :: PutMarking(x, rest) == rest
  {}

  method WriteMiddle(b: BitStream, c: Context, sliceType: nat, x: Body) returns (ghost whole: bool)
    requires b.Valid() && BodyOk(c, sliceType, x)
    modifies b`p, b`bitsLeft, b.buf
    ensures b.Valid()
    ensures whole ==>
              forall rest {:trigger Then(b.Tape(), rest)} ::
                Then(b.Tape(), rest) == Then(old(b.Tape()), PutMiddle(c, sliceType, x, rest))
    ensures !whole ==>
              Full(b.Tape()) &&
              forall rest {:trigger PutMiddle(c, sliceType, x, rest)} ::
                CutFrom(Then(old(b.Tape()), PutMiddle(c, sliceType, x, rest)), b.Tape())
  {
    hide BitStream.Tape, Then, From, PutWeightTable, GetWeightTable, PutMarking, SendsWeights, WeightTableOk, MarkingOk;
    hide IsB, FrameOk, OrderOk, ReferencesOk, ReorderingsOk, QuantizerOk, DeblockingOk, CycleOk, CutFrom, Full;
    whole := true;
    if SendsWeights(c, sliceType) {
      WriteWeightTable(b, c, sliceType, x.weights.value);
    }
    if c.nalRefIdc != 0 {
      whole := WriteMarking(b, c, x.marking);
    } else {
      NothingToMark(c, x.marking);
    }
  }

  /** The fields behind the marking commands. */
  function PutEnd(c: Context, sliceType: nat, x: Body, rest: seq<bool>): seq<bool> {
    PutQuantizer(c, sliceType, x.quantizer, PutDeblocking(c, x.deblocking, PutCycle(c, x.sliceGroupChangeCycle, rest)))
  }

  lemma EndIsNotEmpty(c: Context, sliceType: nat, x: Body)
    ensures |PutEnd(c, sliceType, x, [])| > 0
  {
    hide PutDeblocking, IsSwitching, SendsCabac, IsSliceType, CodeUE;
    forall v, rest
      ensures PutSE(v, rest) != []
    {
      SEHasOne(v, rest);
    }
    forall v, rest
      ensures PutUE(v, rest) != []
    {
      CodeUEHasOne(v, rest);
    }
  }

  method WriteEndFields(b: BitStream, c: Context, sliceType: nat, x: Body)
    requires b.Valid() && QuantizerOk(c, sliceType, x.quantizer) && DeblockingOk(c, x.deblocking)
    modifies b`p, b`bitsLeft, b.buf
    ensures b.Valid()
    ensures forall rest {:trigger Then(b.Tape(), rest)} ::
              Then(b.Tape(), rest) == Then(old(b.Tape()), PutEnd(c, sliceType, x, rest))
  {
    hide BitStream.Tape, Then, From, PutQuantizer, PutDeblocking, PutCycle;
    hide GetQuantizer, GetDeblocking, GetCycle, QuantizerOk, DeblockingOk, CycleOk;
    WriteQuantizer(b, c, sliceType, x.quantizer);
    WriteDeblocking(b, c, x.deblocking);
    WriteCycle(b, c, x.sliceGroupChangeCycle);
  }

  /** A body up to the marking commands. */
  function PutFront(c: Context, sliceType: nat, x: Body, rest: seq<bool>): seq<bool> {
    PutFrame(c, x.frame,
    PutOrder(c, x.frame.fieldPic, x.order,
    PutReferences(c, sliceType, x.references,
    PutReorderings(sliceType, x.reorderings,
    PutMiddle(c, sliceType, x, rest)))))
  }

  method WriteFront(b: BitStream, c: Context, sliceType: nat, x: Body) returns (ghost whole: bool)
    requires b.Valid() && BodyOk(c, sliceType, x)
    modifies b`p, b`bitsLeft, b.buf
    ensures b.Valid()
    ensures whole ==>
              forall rest {:trigger Then(b.Tape(), rest)} ::
                Then(b.Tape(), rest) == Then(old(b.Tape()), PutFront(c, sliceType, x, rest))
    ensures !whole ==>
              Full(b.Tape()) &&
              forall rest {:trigger PutFront(c, sliceType, x, rest)} ::
                CutFrom(Then(old(b.Tape()), PutFront(c, sliceType, x, rest)), b.Tape())
  {
    hide BitStream.Tape, Then, From, PutFrame, PutOrder, PutReferences, PutReorderings, PutMiddle, CutFrom, Full;
    hide WeightTableOk, MarkingOk, SendsWeights, IsB, FrameOk, OrderOk, ReferencesOk, ReorderingsOk, QuantizerOk;
    hide DeblockingOk, CycleOk;
    WriteFrame(b, c, x.frame);
    WriteOrder(b, c, x.frame.fieldPic, x.order);
    WriteReferences(b, c, sliceType, x.references);
    whole := WriteReorderings(b, sliceType, x.reorderings);
    ghost var before, t := whole, b.Tape();
    whole := WriteMiddle(b, c, sliceType, x);
    if !before {
      CutAgain(t, b.Tape(), whole, PutMiddle(c, sliceType, x, []));
      whole := false;
    }
  }

  lemma BodyIs(c: Context, sliceType: nat, x: Body)
    requires BodyOk(c, sliceType, x)
    ensures QuantizerOk(c, sliceType, x.quantizer) && DeblockingOk(c, x.deblocking)
    ensures forall rest :: PutBody(c, sliceType, x, rest) == PutFront(c, sliceType, x, PutEnd(c, sliceType, x, rest))
  {
    hide PutFrame, PutOrder, PutReferences, PutReorderings, PutOptionalTable, PutMarking, PutQuantizer, PutDeblocking;
    hide PutCycle, From, GetBody, WeightTableOk, MarkingOk, SendsWeights, IsB, FrameOk, OrderOk, ReferencesOk;
    hide ReorderingsOk, QuantizerOk, DeblockingOk, CycleOk;
  }

  /** The fields behind a cut move the cursor past the end. */
  lemma EndBehindCut(t: Tape, u: Tape, c: Context, sliceType: nat, x: Body)
    requires Full(t) && Then(u, []) == Then(t, PutEnd(c, sliceType, x, []))
    ensures Lost(u) && forall v :: CutFrom(v, t) ==> CutFrom(v, u)
  {
    hide PutEnd;
    EndIsNotEmpty(c, sliceType, x);
    FullStays(t, PutEnd(c, sliceType, x, []));
    ThenNothing(u);
  }

  method WriteBody(b: BitStream, c: Context, sliceType: nat, x: Body) returns (ghost whole: bool)
    requires b.Valid() && BodyOk(c, sliceType, x)
    modifies b`p, b`bitsLeft, b.buf
    ensures b.Valid()
    ensures whole ==>
              forall rest {:trigger Then(b.Tape(), rest)} ::
                Then(b.Tape(), rest) == Then(old(b.Tape()), PutBody(c, sliceType, x, rest))
    ensures !whole ==>
              Lost(b.Tape()) &&
              forall rest {:trigger PutBody(c, sliceType, x, rest)} ::
                CutFrom(Then(old(b.Tape()), PutBody(c, sliceType, x, rest)), b.Tape())
  {
    hide BitStream.Tape, Then, From, PutFront, PutEnd, PutBody, CutFrom, Full, Lost, QuantizerOk, DeblockingOk;
    BodyIs(c, sliceType, x);
    whole := WriteFront(b, c, sliceType, x);
    ghost var t := b.Tape();
    WriteEndFields(b, c, sliceType, x);
    if !whole {
      EndBehindCut(t, b.Tape(), c, sliceType, x);
    }
  }

  /** The fields in front of the look-up of the sets. */
  function PutStart(h: SliceHeader, rest: seq<bool>): seq<bool> {
    PutUE(h.firstMbInSlice, PutUE(h.sliceType, PutUE(h.ppsId, rest)))
  }

  method WriteStart(b: BitStream, h: SliceHeader)
    requires b.Valid() && FitsUE(h.firstMbInSlice) && FitsUE(h.sliceType) && FitsUE(h.ppsId)
    modifies b`p, b`bitsLeft, b.buf
    ensures b.Valid()
    ensures forall rest {:trigger Then(b.Tape(), rest)} ::
              Then(b.Tape(), rest) == Then(old(b.Tape()), PutStart(h, rest))
  {
    hide BitStream.Tape, Then, PutUE;
    b.WriteUE(h.firstMbInSlice);
    b.WriteUE(h.sliceType);
    b.WriteUE(h.ppsId);
  }

  lemma HeaderIs(c: Context, h: SliceHeader)
    ensures forall rest :: PutSliceHeader(c, h, rest) == PutStart(h, PutBody(c, h.sliceType, h.body, rest))
  {
    hide PutUE, PutBody;
  }

  method WriteHeader(b: BitStream, c: Context, h: SliceHeader) returns (ghost whole: bool)
    requires b.Valid() && SliceHeaderOk(c, h)
    modifies b`p, b`bitsLeft, b.buf
    ensures b.Valid()
    ensures whole ==>
              forall rest {:trigger Then(b.Tape(), rest)} ::
                Then(b.Tape(), rest) == Then(old(b.Tape()), PutSliceHeader(c, h, rest))
    ensures !whole ==> Lost(b.Tape()) && CutFrom(Then(old(b.Tape()), PutSliceHeader(c, h, [])), b.Tape())
  {
    hide BitStream.Tape, Then, PutStart, PutSliceHeader, PutBody, BodyOk, CutFrom, Lost, GetBody, From;
    WriteStart(b, h);
    HeaderIs(c, h);
    whole := WriteBody(b, c, h.sliceType, h.body);
  }

  lemma ViewIs(b: BitStream)
    requires b.Valid()
    ensures b.View() == b.Tape().View()
  {}

  lemma WholeOrCut(t: Tape, u: Tape, whole: bool, code: seq<bool>)
    requires if whole then Then(u, []) == Then(t, code) else Lost(u) && CutFrom(Then(t, code), u)
    ensures u.bits == Then(t, code).bits && |u.bits| == |t.bits| && (Lost(u) <==> t.pos + |code| > |t.bits|)
    ensures !Lost(u) ==> whole
  {
    ThenNothing(u);
  }

  /** A reader at the old position sees the code, with what follows the new position behind it. */
  lemma WrittenView(t: Tape, u: Tape, rest: seq<bool>, code: seq<bool>)
    requires u.pos <= |u.bits| && |u.bits| == |t.bits| && rest == u.bits[u.pos..] && Then(u, rest) == Then(t, code)
    ensures Tape(u.bits, t.pos).View() == From(code) && u.View() == From(rest)
  {
    var v := Then(t, code);
    assert v.pos == |u.bits| && v.bits == u.bits;
    assert forall i :: 0 <= i < |code| ==> v.bits[t.pos + i] == code[i];
  }

  /** A header that was written into a buffer is read back from where it was written. */
  lemma HeaderComesBack(tables: Tables, c: Context, nalUnitType: nat, nalRefIdc: nat, h: SliceHeader, t: Tape, u: Tape)
    requires Lookup(tables, nalUnitType, nalRefIdc, h.ppsId) == Some(c) && SliceHeaderOk(c, h)
    requires |u.bits| == |t.bits| && !Lost(u)
    requires forall rest {:trigger Then(u, rest)} :: Then(u, rest) == Then(t, PutSliceHeader(c, h, rest))
    ensures GetSliceHeader(tables, nalUnitType, nalRefIdc, Tape(u.bits, t.pos).View()) == Some((h, c, u.View()))
  {
    hide PutSliceHeader, GetSliceHeader, SliceHeaderOk;
    var rest := u.bits[u.pos..];
    WrittenView(t, u, rest, PutSliceHeader(c, h, rest));
    assert c.nalUnitType == nalUnitType && c.nalRefIdc == nalRefIdc;
    SliceHeaderRoundTrip(tables, c, h, rest);
  }

  /**
   A header for which the buffer has room is written whole, and reading from where
   it was written gives it back. When there is no room, the cursor tells so, and
   the buffer holds as much of the header as it can.
   */
  method WriteSliceHeader(b: BitStream, tables: Tables, nalUnitType: nat, nalRefIdc: nat, h: SliceHeader)
    requires b.Valid() && Lookup(tables, nalUnitType, nalRefIdc, h.ppsId).Some?
    requires SliceHeaderOk(Lookup(tables, nalUnitType, nalRefIdc, h.ppsId).value, h)
    modifies b`p, b`bitsLeft, b.buf
    ensures b.Valid()
    ensures
      var c := Lookup(tables, nalUnitType, nalRefIdc, h.ppsId).value;
      var t := old(b.Tape());
      (Lost(b.Tape()) <==> t.pos + |PutSliceHeader(c, h, [])| > |t.bits|) &&
      b.Tape().bits == Then(t, PutSliceHeader(c, h, [])).bits &&
      (!Lost(b.Tape()) ==>
         (forall rest {:trigger Then(b.Tape(), rest)} :: Then(b.Tape(), rest) == Then(t, PutSliceHeader(c, h, rest))) &&
         GetSliceHeader(tables, nalUnitType, nalRefIdc, Tape(b.Tape().bits, t.pos).View()) == Some((h, c, b.View())))
  {
    hide BitStream.Tape, BitStream.View, Then, PutSliceHeader, SliceHeaderOk, Lookup, CutFrom, Lost, GetSliceHeader;
    ghost var t := b.Tape();
    var c := Lookup(tables, nalUnitType, nalRefIdc, h.ppsId).value;
    ghost var whole := WriteHeader(b, c, h);
    WholeOrCut(t, b.Tape(), whole, PutSliceHeader(c, h, []));
    if !Lost(b.Tape()) {
      HeaderComesBack(tables, c, nalUnitType, nalRefIdc, h, t, b.Tape());
      assert b.View() == b.Tape().View() by { ViewIs(b); }
    }
  }
}
