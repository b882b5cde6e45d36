/** Picture parameter sets, section 7.3.2.2 of ITU-T H.264. */
module PictureParameterSet {
  import opened Bits
  import opened BitSyntax
  import opened BitCursor
  import opened ScalingLists

  datatype Rect = Rect(topLeft: nat, bottomRight: nat)

  /** The fields that depend on slice_group_map_type. */
  datatype GroupMap =
    | Interleaved(runLengthMinus1: seq<nat>)
    | Foreground(rects: seq<Rect>)
    | Changing(mapType: nat, direction: bool, changeRateMinus1: nat)
    | Explicit(groupIds: seq<nat>)
    | OtherMap(mapType: nat)

  datatype SliceGroups = OneGroup | Groups(numMinus1: nat, groupMap: GroupMap)

  datatype Prediction = Prediction(
    numRefIdxL0ActiveMinus1: nat,
    numRefIdxL1ActiveMinus1: nat,
    weightedPred: bool,
    weightedBipredIdc: nat,
    picInitQpMinus26: int,
    picInitQsMinus26: int,
    chromaQpIndexOffset: int,
    deblockingFilterControlPresent: bool,
    constrainedIntraPred: bool,
    redundantPicCntPresent: bool)

  /** The fields that may be missing at the end of the set. */
  datatype Tail = Tail(
    transform8x8Mode: bool,
    scalingLists: Option<seq<Option<ScalingList>>>,
    secondChromaQpIndexOffset: int)

  datatype Pps = Pps(
    id: nat,
    spsId: nat,
    entropyCodingMode: bool,
    picOrderPresent: bool,
    groups: SliceGroups,
    prediction: Prediction,
    tail: Tail)

  const NO_TAIL := Tail(false, None, 0)

  // intlog2

  /** The base 2 logarithm, rounded up. */
  function IntLog2(x: nat): nat {
    var log := BitLength(x);
    if log > 0 && x == Pow2(log - 1) then log - 1 else log
  }

  lemma IntLog2IsCeiling(x: nat)
    requires x > 0
    ensures x <= Pow2(IntLog2(x))
    ensures x > 1 ==> IntLog2(x) > 0 && Pow2(IntLog2(x) - 1) < x
  {
    BitLengthBounds(x);
    assert Pow2(0) == 1;
  }

  lemma AtLeastOnce(x: nat, m: nat)
    requires 0 < m <= x
    ensures x / m > 0
  {
    assert x == x / m * m + x % m;
  }

  lemma {:induction false} BitLengthOfShift(x: nat, log: nat)
    ensures x / Pow2(log) > 0 <==> log < BitLength(x)
  {
    if x > 0 {
      BitLengthBounds(x);
      if log < BitLength(x) {
        Pow2Monotone(log, BitLength(x) - 1);
        AtLeastOnce(x, Pow2(log));
      } else {
        Pow2Monotone(BitLength(x), log);
        DivUnique(x, Pow2(log), 0, x);
      }
    } else {
      DivUnique(0, Pow2(log), 0, 0);
    }
  }

  method ComputeIntLog2(x: int) returns (log: nat)
    ensures log == IntLog2(if x < 0 then 0 else x)
  {
    var y: nat := if x < 0 then 0 else x;
    log := 0;
    BitLengthOfShift(y, log);
    while y / Pow2(log) > 0
      invariant log <= BitLength(y)
      invariant y / Pow2(log) > 0 <==> log < BitLength(y)
      decreases BitLength(y) - log
    {
      log := log + 1;
      BitLengthOfShift(y, log);
    }
    if log > 0 && y == Pow2(log - 1) {
      log := log - 1;
    }
  }

  // Ranges

  predicate RectOk(r: Rect) {
    r.topLeft <= MAX_UE && r.bottomRight <= MAX_UE
  }

  predicate MapOk(numMinus1: nat, m: GroupMap) {
    match m
    case Interleaved(runs) => |runs| == numMinus1 + 1 && forall r <- runs :: r <= MAX_UE
    case Foreground(rects) => |rects| == numMinus1 && forall r <- rects :: RectOk(r)
    case Changing(t, _, rate) => 3 <= t <= 5 && rate <= MAX_UE
    case Explicit(ids) => 1 <= |ids| <= MAX_UE + 1 && forall i <- ids :: i <= numMinus1
    case OtherMap(t) => t <= MAX_UE && (t == 1 || t > 6)
  }

  predicate GroupsOk(g: SliceGroups) {
    g.Groups? ==> 0 < g.numMinus1 <= MAX_UE && MapOk(g.numMinus1, g.groupMap)
  }

  predicate PredictionOk(x: Prediction) {
    x.numRefIdxL0ActiveMinus1 <= MAX_UE && x.numRefIdxL1ActiveMinus1 <= MAX_UE && x.weightedBipredIdc < 4 &&
    -MAX_SE <= x.picInitQpMinus26 <= MAX_SE && -MAX_SE <= x.picInitQsMinus26 <= MAX_SE &&
    -MAX_SE <= x.chromaQpIndexOffset <= MAX_SE
  }

  function TailLists(transform8x8Mode: bool): nat {
    if transform8x8Mode then 8 else 6
  }

  predicate TailWritable(x: Tail) {
    -MAX_SE <= x.secondChromaQpIndexOffset <= MAX_SE &&
    (x.scalingLists.Some? ==>
       |x.scalingLists.value| == TailLists(x.transform8x8Mode) && SizesOk(x.scalingLists.value))
  }

  predicate TailOk(x: Tail) {
    TailWritable(x) && (x.scalingLists.Some? ==> ListsOk(x.scalingLists.value))
  }

  predicate PpsWritable(x: Pps) {
    x.id <= MAX_UE && x.spsId <= MAX_UE && GroupsOk(x.groups) && PredictionOk(x.prediction) && TailWritable(x.tail)
  }

  predicate PpsOk(x: Pps) {
    PpsWritable(x) && TailOk(x.tail)
  }

  // Codes

  function GetRect(s0: Input): (Rect, Input) {
    var (topLeft, s1) := GetUE(s0);
    var (bottomRight, s2) := GetUE(s1);
    (Rect(topLeft, bottomRight), s2)
  }

  function PutRect(x: Rect, rest: seq<bool>): (r: seq<bool>)
    ensures RectOk(x) ==> GetRect(From(r)) == (x, From(rest))
  {
    hide PutUE, GetUE, From;
    PutUE(x.topLeft, PutUE(x.bottomRight, rest))
  }

  const RECT := Codec(PutRect, GetRect)

  function PutRuns(runs: seq<nat>, rest: seq<bool>): (r: seq<bool>)
    ensures (forall x <- runs :: x <= MAX_UE) ==> GetMany(UE, |runs|, From(r)) == (runs, From(rest))
  {
    hide PutUE, GetUE, GetMany, From;
    PutMany(UE, runs, rest)
  }

  function PutRects(rects: seq<Rect>, rest: seq<bool>): (r: seq<bool>)
    ensures (forall x <- rects :: RectOk(x)) ==> GetMany(RECT, |rects|, From(r)) == (rects, From(rest))
  {
    hide PutRect, GetRect, RectOk, GetMany, From;
    PutMany(RECT, rects, rest)
  }

  /** Every group number fits the width that the reader uses. */
  function PutIds(numMinus1: nat, ids: seq<nat>, rest: seq<bool>): (r: seq<bool>)
    ensures (forall x <- ids :: x <= numMinus1) ==>
              GetMany(U(IntLog2(numMinus1 + 1)), |ids|, From(r)) == (ids, From(rest))
  {
    hide PutU, GetU, GetMany, IntLog2, From;
    IntLog2IsCeiling(numMinus1 + 1);
    PutMany(U(IntLog2(numMinus1 + 1)), ids, rest)
  }

  function MapType(m: GroupMap): nat {
    match m
    case Interleaved(_) => 0
    case Foreground(_) => 2
    case Changing(t, _, _) => t
    case Explicit(_) => 6
    case OtherMap(t) => t
  }

  function PicSizeMinus1(m: GroupMap): nat {
    if m.Explicit? && m.groupIds != [] then |m.groupIds| - 1 else 0
  }

  function GetMap(numMinus1: nat, s0: Input): (GroupMap, Input) {
    var (t, s1) := GetUE(s0);
    if t == 0 then
      var (runs, s2) := GetMany(UE, numMinus1 + 1, s1);
      (Interleaved(runs), s2)
    else if t == 2 then
      var (rects, s2) := GetMany(RECT, numMinus1, s1);
      (Foreground(rects), s2)
    else if 3 <= t <= 5 then
      var (direction, s2) := GetU1(s1);
      var (rate, s3) := GetUE(s2);
      (Changing(t, direction, rate), s3)
    else if t == 6 then
      var (size, s2) := GetUE(s1);
      var (ids, s3) := GetMany(U(IntLog2(numMinus1 + 1)), size + 1, s2);
      (Explicit(ids), s3)
    else (OtherMap(t), s1)
  }

  function PutMap(numMinus1: nat, m: GroupMap, rest: seq<bool>): (r: seq<bool>)
    ensures MapOk(numMinus1, m) ==> GetMap(numMinus1, From(r)) == (m, From(rest))
  {
    hide PutUE, GetUE, PutU1, GetU1, PutRuns, PutRects, PutIds, GetMany, IntLog2, RectOk, From;
    PutUE(MapType(m),
      match m
      case Interleaved(runs) => PutRuns(runs, rest)
      case Foreground(rects) => PutRects(rects, rest)
      case Changing(_, direction, rate) => PutU1(direction, PutUE(rate, rest))
      case Explicit(ids) => PutUE(PicSizeMinus1(m), PutIds(numMinus1, ids, rest))
      case OtherMap(_) => rest)
  }

  function NumGroupsMinus1(g: SliceGroups): nat {
    match g
    case OneGroup => 0
    case Groups(n, _) => n
  }

  function GetGroups(s0: Input): (SliceGroups, Input) {
    var (n, s1) := GetUE(s0);
    if n > 0 then
      var (m, s2) := GetMap(n, s1);
      (Groups(n, m), s2)
    else (OneGroup, s1)
  }

  function PutGroups(g: SliceGroups, rest: seq<bool>): (r: seq<bool>)
    ensures GroupsOk(g) ==> GetGroups(From(r)) == (g, From(rest))
  {
    hide PutUE, GetUE, PutMap, GetMap, MapOk, From;
    PutUE(NumGroupsMinus1(g), if g.Groups? then PutMap(g.numMinus1, g.groupMap, rest) else rest)
  }

  function GetPrediction(s0: Input): (Prediction, Input) {
    var (l0, s1) := GetUE(s0);
    var (l1, s2) := GetUE(s1);
    var (weighted, s3) := GetU1(s2);
    var (bipred, s4) := GetU(2, s3);
    var (qp, s5) := GetSE(s4);
    var (qs, s6) := GetSE(s5);
    var (chromaQp, s7) := GetSE(s6);
    var (deblocking, s8) := GetU1(s7);
    var (constrained, s9) := GetU1(s8);
    var (redundant, s10) := GetU1(s9);
    (Prediction(l0, l1, weighted, bipred, qp, qs, chromaQp, deblocking, constrained, redundant), s10)
  }

  function PutPrediction(x: Prediction, rest: seq<bool>): (r: seq<bool>)
    ensures PredictionOk(x) ==> GetPrediction(From(r)) == (x, From(rest))
  {
    hide PutUE, GetUE, PutU1, GetU1, PutU, GetU, PutSE, GetSE, From;
    SmallWidths();
    PutUE(x.numRefIdxL0ActiveMinus1, PutUE(x.numRefIdxL1ActiveMinus1,
    PutU1(x.weightedPred, PutU(2, x.weightedBipredIdc,
    PutSE(x.picInitQpMinus26, PutSE(x.picInitQsMinus26, PutSE(x.chromaQpIndexOffset,
    PutU1(x.deblockingFilterControlPresent, PutU1(x.constrainedIntraPred,
    PutU1(x.redundantPicCntPresent, rest))))))))))
  }

  /** The writer's test for sending the tail. */
  predicate HaveMoreData(x: Tail) {
    x.transform8x8Mode || x.scalingLists.Some? || x.secondChromaQpIndexOffset != 0
  }

  function PutMatrices(o: Option<seq<Option<ScalingList>>>, rest: seq<bool>): seq<bool> {
    PutU1(o.Some?, if o.Some? then PutLists(o.value, rest) else rest)
  }

  lemma SEHasOne(v: int, rest: seq<bool>)
    ensures HasOne(PutSE(v, rest))
  {
    CodeUEHasOne(if v <= 0 then -v * 2 else v * 2 - 1, rest);
  }

  lemma SuffixOne(r: seq<bool>, n: nat)
    requires 0 < n <= |r| && HasOne(r[n..])
    ensures MoreData(From(r))
  {
    var i :| 0 <= i < |r[n..]| && r[n..][i];
    assert r[n + i];
  }

  /** No tail looks like the stop bit: its first bit is 0, or a later bit is 1. */
  lemma TailFieldsSeen(x: Tail, rest: seq<bool>)
    ensures
      MoreData(From(PutU1(x.transform8x8Mode, PutMatrices(x.scalingLists, PutSE(x.secondChromaQpIndexOffset, rest)))))
  {
    hide PutLists, CodeUE, HasOne;
    var se := PutSE(x.secondChromaQpIndexOffset, rest);
    var r := PutU1(x.transform8x8Mode, PutMatrices(x.scalingLists, se));
    if x.scalingLists.Some? {
      assert r[1];
    } else {
      SEHasOne(x.secondChromaQpIndexOffset, rest);
      assert r[2..] == se;
      SuffixOne(r, 2);
    }
  }

  function GetMatrices(transform8x8Mode: bool, s0: Input): (Option<seq<Option<ScalingList>>>, Input) {
    var (present, s1) := GetU1(s0);
    if present then
      var (ls, s2) := GetLists(TailLists(transform8x8Mode), s1);
      (Some(ls), s2)
    else (None, s1)
  }

  function GetTailFields(s0: Input): (Tail, Input) {
    var (transform, s1) := GetU1(s0);
    var (lists, s2) := GetMatrices(transform, s1);
    var (second, s3) := GetSE(s2);
    (Tail(transform, lists, second), s3)
  }

  function PutTailFields(x: Tail, rest: seq<bool>): (r: seq<bool>)
    ensures TailOk(x) ==> GetTailFields(From(r)) == (x, From(rest))
    ensures MoreData(From(r))
  {
    hide PutLists, GetLists, GetU1, PutSE, GetSE, ListsOk, SizesOk;
    var r := PutU1(x.transform8x8Mode, PutMatrices(x.scalingLists, PutSE(x.secondChromaQpIndexOffset, rest)));
    TailFieldsSeen(x, rest);
    r
  }

  function GetTail(s: Input): (Tail, Input) {
    if MoreData(s) then GetTailFields(s) else (NO_TAIL, s)
  }

  function PutTail(x: Tail, rest: seq<bool>): (r: seq<bool>)
    ensures TailOk(x) && StopOnly(rest) ==> GetTail(From(r)) == (x, From(rest))
    ensures StopOnly(rest) ==> (MoreData(From(r)) <==> HaveMoreData(x))
  {
    hide PutTailFields, GetTailFields, TailOk;
    if HaveMoreData(x) then PutTailFields(x, rest) else rest
  }

  function GetPps(s0: Input): (Pps, Input) {
    var (id, s1) := GetUE(s0);
    var (spsId, s2) := GetUE(s1);
    var (entropy, s3) := GetU1(s2);
    var (picOrder, s4) := GetU1(s3);
    var (groups, s5) := GetGroups(s4);
    var (prediction, s6) := GetPrediction(s5);
    var (tail, s7) := GetTail(s6);
    (Pps(id, spsId, entropy, picOrder, groups, prediction, tail), s7)
  }

  function PutPps(x: Pps, rest: seq<bool>): (r: seq<bool>)
    ensures PpsOk(x) && StopOnly(rest) ==> GetPps(From(r)) == (x, From(rest))
  {
    hide PutUE, GetUE, PutU1, GetU1, PutGroups, GetGroups, PutPrediction, GetPrediction, PutTail, GetTail;
    hide GroupsOk, PredictionOk, TailOk, TailWritable, StopOnly, From;
    PutUE(x.id, PutUE(x.spsId, PutU1(x.entropyCodingMode, PutU1(x.picOrderPresent,
    PutGroups(x.groups, PutPrediction(x.prediction, PutTail(x.tail, rest)))))))
  }

  // Readers

  method ReadRuns(b: BitStream, n: nat) returns (runs: seq<nat>)
    requires b.Valid()
    modifies b`p, b`bitsLeft
    ensures b.Valid() && (runs, b.View()) == GetMany(UE, n, old(b.View()))
  {
    hide BitStream.View, GetUE;
    runs := [];
    for i := 0 to n
      invariant b.Valid() && (runs, b.View()) == GetMany(UE, i, old(b.View()))
    {
      var run := b.ReadUE();
      runs := runs + [run];
    }
  }

  method ReadRects(b: BitStream, n: nat) returns (rects: seq<Rect>)
    requires b.Valid()
    modifies b`p, b`bitsLeft
    ensures b.Valid() && (rects, b.View()) == GetMany(RECT, n, old(b.View()))
  {
    hide BitStream.View, GetUE;
    rects := [];
    for i := 0 to n
      invariant b.Valid() && (rects, b.View()) == GetMany(RECT, i, old(b.View()))
    {
      var topLeft := b.ReadUE();
      var bottomRight := b.ReadUE();
      rects := rects + [Rect(topLeft, bottomRight)];
    }
  }

  method ReadIds(b: BitStream, numMinus1: nat, n: nat) returns (ids: seq<nat>)
    requires b.Valid()
    modifies b`p, b`bitsLeft
    ensures b.Valid() && (ids, b.View()) == GetMany(U(IntLog2(numMinus1 + 1)), n, old(b.View()))
  {
    hide BitStream.View, GetU, IntLog2;
    ids := [];
    for i := 0 to n
      invariant b.Valid() && (ids, b.View()) == GetMany(U(IntLog2(numMinus1 + 1)), i, old(b.View()))
    {
      var v := ComputeIntLog2(numMinus1 + 1);
      var id := b.ReadU(v);
      ids := ids + [id];
    }
  }

  method ReadMap(b: BitStream, numMinus1: nat) returns (m: GroupMap)
    requires b.Valid()
    modifies b`p, b`bitsLeft
    ensures b.Valid() && (m, b.View()) == GetMap(numMinus1, old(b.View()))
  {
    hide BitStream.View, GetUE, GetU1, GetMany, IntLog2;
    var t := b.ReadUE();
    if t == 0 {
      var runs := ReadRuns(b, numMinus1 + 1);
      m := Interleaved(runs);
    } else if t == 2 {
      var rects := ReadRects(b, numMinus1);
      m := Foreground(rects);
    } else if t == 3 || t == 4 || t == 5 {
      var direction := b.ReadU1();
      var rate := b.ReadUE();
      m := Changing(t, direction, rate);
    } else if t == 6 {
      var size := b.ReadUE();
      var ids := ReadIds(b, numMinus1, size + 1);
      m := Explicit(ids);
    } else {
      m := OtherMap(t);
    }
  }

  method ReadPrediction(b: BitStream) returns (x: Prediction)
    requires b.Valid()
    modifies b`p, b`bitsLeft
    ensures b.Valid() && (x, b.View()) == GetPrediction(old(b.View()))
  {
    hide BitStream.View, GetUE, GetU1, GetU, GetSE;
    var l0 := b.ReadUE();
    var l1 := b.ReadUE();
    var weighted := b.ReadU1();
    var bipred := b.ReadU(2);
    var qp := b.ReadSE();
    var qs := b.ReadSE();
    var chromaQp := b.ReadSE();
    var deblocking := b.ReadU1();
    var constrained := b.ReadU1();
    var redundant := b.ReadU1();
    x := Prediction(l0, l1, weighted, bipred, qp, qs, chromaQp, deblocking, constrained, redundant);
  }

  method ReadTail(b: BitStream) returns (x: Tail)
    requires b.Valid()
    modifies b`p, b`bitsLeft
    ensures b.Valid() && (x, b.View()) == GetTail(old(b.View()))
  {
    hide BitStream.View, GetU1, GetSE, GetLists, MoreData;
    x := NO_TAIL;
    var haveMoreData := b.MoreRbspData();
    if haveMoreData {
      var transform := b.ReadU1();
      var lists := None;
      var present := b.ReadU1();
      if present {
        var ls := ReadLists(b, if transform then 8 else 6);
        lists := Some(ls);
      }
      var second := b.ReadSE();
      x := Tail(transform, lists, second);
    }
  }

  method ReadPps(b: BitStream) returns (x: Pps)
    requires b.Valid()
    modifies b`p, b`bitsLeft
    ensures b.Valid() && (x, b.View()) == GetPps(old(b.View()))
  {
    hide BitStream.View, GetUE, GetU1, GetMap, GetPrediction, GetTail;
    var id := b.ReadUE();
    var spsId := b.ReadUE();
    var entropy := b.ReadU1();
    var picOrder := b.ReadU1();
    var groups := OneGroup;
    var n := b.ReadUE();
    if n > 0 {
      var m := ReadMap(b, n);
      groups := Groups(n, m);
    }
    var prediction := ReadPrediction(b);
    var tail := ReadTail(b);
    x := Pps(id, spsId, entropy, picOrder, groups, prediction, tail);
  }

  // Writers

  method WriteRuns(b: BitStream, runs: seq<nat>)
    requires b.Valid() && forall r <- runs :: r <= MAX_UE
    modifies b`p, b`bitsLeft, b.buf
    ensures b.Valid()
    ensures forall rest {:trigger Then(b.Tape(), rest)} ::
              Then(b.Tape(), rest) == Then(old(b.Tape()), PutRuns(runs, rest))
  {
    hide BitStream.Tape, Then, PutUE, PutFrom, GetMany, Inverts, InvertsAll, From;
    for i := 0 to |runs|
      invariant b.Valid()
      invariant forall rest ::
                  Then(b.Tape(), PutFrom(UE, runs, i, rest)) == Then(old(b.Tape()), PutFrom(UE, runs, 0, rest))
    {
      PutFromStep(UE, runs, i);
      var r := runs[i];
      assert r in runs;
      b.WriteUE(r);
    }
    PutFromEnd(UE, runs);
  }

  method WriteRects(b: BitStream, rects: seq<Rect>)
    requires b.Valid() && forall r <- rects :: RectOk(r)
    modifies b`p, b`bitsLeft, b.buf
    ensures b.Valid()
    ensures forall rest {:trigger Then(b.Tape(), rest)} ::
              Then(b.Tape(), rest) == Then(old(b.Tape()), PutRects(rects, rest))
  {
    hide BitStream.Tape, Then, PutUE, PutFrom, GetMany, Inverts, InvertsAll, GetRect, From;
    for i := 0 to |rects|
      invariant b.Valid()
      invariant forall rest ::
                  Then(b.Tape(), PutFrom(RECT, rects, i, rest)) == Then(old(b.Tape()), PutFrom(RECT, rects, 0, rest))
    {
      PutFromStep(RECT, rects, i);
      assert RectOk(rects[i]);
      b.WriteUE(rects[i].topLeft);
      b.WriteUE(rects[i].bottomRight);
    }
    PutFromEnd(RECT, rects);
  }

  method WriteIds(b: BitStream, numMinus1: nat, ids: seq<nat>)
    requires b.Valid()
    modifies b`p, b`bitsLeft, b.buf
    ensures b.Valid()
    ensures forall rest {:trigger Then(b.Tape(), rest)} ::
              Then(b.Tape(), rest) == Then(old(b.Tape()), PutIds(numMinus1, ids, rest))
  {
    hide BitStream.Tape, Then, PutU, PutFrom, GetMany, Inverts, InvertsAll, IntLog2, From;
    ghost var c := U(IntLog2(numMinus1 + 1));
    for i := 0 to |ids|
      invariant b.Valid()
      invariant forall rest :: Then(b.Tape(), PutFrom(c, ids, i, rest)) == Then(old(b.Tape()), PutFrom(c, ids, 0, rest))
    {
      PutFromStep(c, ids, i);
      var v := ComputeIntLog2(numMinus1 + 1);
      b.WriteU(v, ids[i]);
    }
    PutFromEnd(c, ids);
  }

  method WriteMap(b: BitStream, numMinus1: nat, m: GroupMap)
    requires b.Valid() && MapOk(numMinus1, m)
    modifies b`p, b`bitsLeft, b.buf
    ensures b.Valid()
    ensures forall rest {:trigger Then(b.Tape(), rest)} ::
              Then(b.Tape(), rest) == Then(old(b.Tape()), PutMap(numMinus1, m, rest))
  {
    hide BitStream.Tape, Then, PutUE, PutU1, PutRuns, PutRects, PutIds, GetMap, GetMany, RectOk, IntLog2, From;
    b.WriteUE(MapType(m));
    match m {
      case Interleaved(runs) =>
        WriteRuns(b, runs);
      case Foreground(rects) =>
        WriteRects(b, rects);
      case Changing(_, direction, rate) =>
        b.WriteU1(direction);
        b.WriteUE(rate);
      case Explicit(ids) =>
        b.WriteUE(PicSizeMinus1(m));
        WriteIds(b, numMinus1, ids);
      case OtherMap(_) =>
    }
  }

  method WriteGroups(b: BitStream, g: SliceGroups)
    requires b.Valid() && GroupsOk(g)
    modifies b`p, b`bitsLeft, b.buf
    ensures b.Valid()
    ensures forall rest {:trigger Then(b.Tape(), rest)} ::
              Then(b.Tape(), rest) == Then(old(b.Tape()), PutGroups(g, rest))
  {
    hide BitStream.Tape, Then, PutUE, PutMap, GetGroups, MapOk, From;
    b.WriteUE(NumGroupsMinus1(g));
    if NumGroupsMinus1(g) > 0 {
      WriteMap(b, g.numMinus1, g.groupMap);
    }
  }

  method WritePrediction(b: BitStream, x: Prediction)
    requires b.Valid() && PredictionOk(x)
    modifies b`p, b`bitsLeft, b.buf
    ensures b.Valid()
    ensures forall rest {:trigger Then(b.Tape(), rest)} ::
              Then(b.Tape(), rest) == Then(old(b.Tape()), PutPrediction(x, rest))
  {
    hide BitStream.Tape, Then, PutUE, PutU1, PutU, PutSE, GetPrediction, From;
    b.WriteUE(x.numRefIdxL0ActiveMinus1);
    b.WriteUE(x.numRefIdxL1ActiveMinus1);
    b.WriteU1(x.weightedPred);
    b.WriteU(2, x.weightedBipredIdc);
    b.WriteSE(x.picInitQpMinus26);
    b.WriteSE(x.picInitQsMinus26);
    b.WriteSE(x.chromaQpIndexOffset);
    b.WriteU1(x.deblockingFilterControlPresent);
    b.WriteU1(x.constrainedIntraPred);
    b.WriteU1(x.redundantPicCntPresent);
  }

  method WriteTailFields(b: BitStream, x: Tail)
    requires b.Valid() && TailWritable(x)
    modifies b`p, b`bitsLeft, b.buf
    ensures b.Valid()
    ensures forall rest {:trigger Then(b.Tape(), rest)} ::
              Then(b.Tape(), rest) == Then(old(b.Tape()), PutTailFields(x, rest))
  {
    hide BitStream.Tape, Then, PutU1, PutLists, PutSE, GetTailFields, GetLists, SizesOk, TailOk, ListsOk;
    hide MoreData, From;
    b.WriteU1(x.transform8x8Mode);
    b.WriteU1(x.scalingLists.Some?);
    if x.scalingLists.Some? {
      WriteLists(b, x.scalingLists.value);
    }
    b.WriteSE(x.secondChromaQpIndexOffset);
  }

  method WriteTail(b: BitStream, x: Tail)
    requires b.Valid() && TailWritable(x)
    modifies b`p, b`bitsLeft, b.buf
    ensures b.Valid()
    ensures forall rest {:trigger Then(b.Tape(), rest)} :: Then(b.Tape(), rest) == Then(old(b.Tape()), PutTail(x, rest))
  {
    hide BitStream.Tape, Then, PutTailFields, GetTail, TailWritable, TailOk, StopOnly, MoreData, From;
    var haveMoreData := x.transform8x8Mode || x.scalingLists.Some? || x.secondChromaQpIndexOffset != 0;
    if haveMoreData {
      WriteTailFields(b, x);
    }
  }

  method WritePps(b: BitStream, x: Pps)
    requires b.Valid() && PpsWritable(x)
    modifies b`p, b`bitsLeft, b.buf
    ensures b.Valid()
    ensures forall rest {:trigger Then(b.Tape(), rest)} :: Then(b.Tape(), rest) == Then(old(b.Tape()), PutPps(x, rest))
  {
    hide BitStream.Tape, Then, PutUE, PutU1, PutGroups, PutPrediction, PutTail;
    hide GetPps, GetTail, GroupsOk, PredictionOk, TailWritable, TailOk, StopOnly, From;
    b.WriteUE(x.id);
    b.WriteUE(x.spsId);
    b.WriteU1(x.entropyCodingMode);
    b.WriteU1(x.picOrderPresent);
    WriteGroups(b, x.groups);
    WritePrediction(b, x.prediction);
    WriteTail(b, x.tail);
  }

  // Results

  /** With the trailing bits behind it, what was written is read back, and the reader stops at the stop bit. */
  lemma PpsRoundTrip(x: Pps, rest: seq<bool>)
    requires PpsOk(x) && StopOnly(rest)
    ensures GetPps(From(PutPps(x, rest))) == (x, From(rest))
  {
    hide GetPps, PpsOk, StopOnly, From;
  }

  /** The reader's look ahead and the writer's test of the fields agree. */
  lemma TailSeenIffSent(x: Tail, rest: seq<bool>)
    requires StopOnly(rest)
    ensures MoreData(From(PutTail(x, rest))) <==> HaveMoreData(x)
  {
    hide MoreData, HaveMoreData, StopOnly, From;
  }
}
