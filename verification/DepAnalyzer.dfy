/** The dependency analyser: pictures from NAL units, their dependencies, and the report in display order. */
module DepAnalyzer {
  import opened Bits
  import opened BitSyntax
  import opened Pocs
  import opened DisplayOrder
  import opened Dpbs
  import opened Sorting
  import opened RefLists
  import opened SliceHeaders
  import opened NalUnits
  import opened NalUnitIO
  import S = SequenceParameterSet

  const MAX_DEPS: nat := 32

  datatype FrameInfo = FrameInfo(
    decodeId: nat,
    poc: int,
    globalPoc: int,
    picture: Picture,
    dependencies: seq<nat>)

  // What a unit tells the analyser

  function PocTypeOf(st: NalUnits.State): nat {
    S.PocType(st.sps.picOrder)
  }

  /** The modulus after a unit: a parameter set with order count type 0 changes it. */
  function NewMax(st: NalUnits.State, rc: int, maxPocLsb: nat): nat {
    if rc >= 0 && st.unitType == 7 && st.sps.picOrder.Lsb? then Pow2(st.sps.picOrder.log2MaxLsbMinus4 + 4)
    else maxPocLsb
  }

  /** A unit starts a picture when it is a slice that begins with the first macroblock. */
  predicate StartsPicture(st: NalUnits.State, rc: int) {
    rc >= 0 && st.unitType in {IDR_SLICE, NON_IDR_SLICE} && st.slice.Some? && st.slice.value.firstMbInSlice == 0
  }

  function KindOf(isIdr: bool, sliceType: nat): Kind {
    if isIdr || sliceType % 5 == SLICE_I || sliceType % 5 == SLICE_SI then Intra
    else if sliceType % 5 == SLICE_P || sliceType % 5 == SLICE_SP then Predicted
    else Bipredicted
  }

  /**
   For slices that are not IDR, the analyser and the header reader agree on what
   a slice type stands for exactly when it is one of the ten that exist.
   */
  lemma KindAgreesIff(sliceType: nat)
    ensures
      sliceType < 10 <==>
      match KindOf(false, sliceType)
      case Intra => IsIntra(sliceType)
      case Predicted => IsPOrSP(sliceType)
      case Bipredicted => IsB(sliceType)
  {}

  predicate HasOperationFive(m: Marking) {
    m.RefMarking? && m.operations.Some? &&
    exists i :: 0 <= i < |m.operations.value| && m.operations.value[i].operation == 5
  }

  /** What pic_order_cnt_lsb counts as behind a picture with operation 5, section 8.2.1. */
  function LsbBehindFive(b: Body): nat {
    if b.frame.fieldPic || b.order.deltaPicOrderCntBottom >= 0 then 0 else -b.order.deltaPicOrderCntBottom
  }

  /** Without an override in the header the counts are 1, whatever the parameter set says. */
  function PictureOf(st: NalUnits.State, maxPocLsb: nat): Picture
    requires st.slice.Some?
  {
    var h := st.slice.value;
    var o := h.body.references.override;
    var isIdr := st.unitType == IDR_SLICE;
    Picture(isIdr, st.refIdc != 0, h.body.frame.frameNum, h.body.order.picOrderCntLsb,
            1 + (if o.Some? then o.value.l0Minus1 else 0), 1 + (if o.Some? then o.value.l1Minus1 else 0),
            KindOf(isIdr, h.sliceType), PocTypeOf(st), maxPocLsb,
            if HasOperationFive(h.body.marking) then Some(LsbBehindFive(h.body)) else None)
  }

  /** The counts are the active counts exactly when the header overrides them or the default is one entry. */
  lemma CountsAreActiveIff(st: NalUnits.State, maxPocLsb: nat)
    requires st.slice.Some?
    ensures
      var x := st.slice.value.body.references;
      var p := PictureOf(st, maxPocLsb);
      (p.numRefIdxL0 == ActiveL0(st.pps, x) <==>
       x.override.Some? || st.pps.prediction.numRefIdxL0ActiveMinus1 == 0) &&
      (p.numRefIdxL1 == ActiveL1(st.pps, x) <==>
       x.override.Some? || st.pps.prediction.numRefIdxL1ActiveMinus1 == 0)
  {}

  // The modulus after some units, given the state and the return value behind each

  function MaxAfter(results: seq<(NalUnits.State, int)>): nat {
    if results == [] then 0 else
    var n := |results| - 1;
    NewMax(results[n].0, results[n].1, MaxAfter(results[..n]))
  }

  /** log2_max_pic_order_cnt_lsb_minus4 of the last parameter set with order count type 0. */
  function LastLog2(results: seq<(NalUnits.State, int)>): Option<nat> {
    if results == [] then None else
    var (st, rc) := results[|results| - 1];
    if rc >= 0 && st.unitType == 7 && st.sps.picOrder.Lsb? then Some(st.sps.picOrder.log2MaxLsbMinus4)
    else LastLog2(results[..|results| - 1])
  }

  lemma {:induction false} MaxIsLast(results: seq<(NalUnits.State, int)>)
    ensures MaxAfter(results) ==
            match LastLog2(results)
            case None => 0
            case Some(log2) => Pow2(log2 + 4)
  {
    if results != [] {
      MaxIsLast(results[..|results| - 1]);
    }
  }

  lemma Pow2Injective(a: nat, b: nat)
    ensures Pow2(a) == Pow2(b) <==> a == b
  {
    if a < b {
      Pow2Monotone(a + 1, b);
    } else if b < a {
      Pow2Monotone(b + 1, a);
    }
  }

  /**
   After all units, the modulus is that of the set which a picture refers to
   exactly when the last set read with order count type 0 has the same logarithm.
   */
  lemma ModulusIff(results: seq<(NalUnits.State, int)>, st: NalUnits.State)
    requires st.sps.picOrder.Lsb?
    ensures
      var log2 := st.sps.picOrder.log2MaxLsbMinus4;
      MaxAfter(results) == Pow2(log2 + 4) <==> LastLog2(results) == Some(log2)
  {
    MaxIsLast(results);
    if LastLog2(results).Some? {
      Pow2Injective(LastLog2(results).value + 4, st.sps.picOrder.log2MaxLsbMinus4 + 4);
    }
  }

  // What the log says about the pictures

  /** The buffer when picture i is looked at. */
  function RefsFor(h: seq<Picture>, i: nat): seq<Ref>
    requires i < |h|
  {
    if h[i].isIdr then [] else RefsAfter(h[..i])
  }

  ghost predicate DependsOk(h: seq<Picture>, i: nat, deps: seq<nat>)
    requires i < |h|
  {
    match h[i].kind
    case Intra => deps == []
    case Predicted => PList(RefsFor(h, i), h[i].numRefIdxL0, deps)
    case Bipredicted => BList(RefsFor(h, i), GlobalPoc(h, i), h[i].numRefIdxL0, h[i].numRefIdxL1, deps)
  }

  ghost predicate Describes(h: seq<Picture>, i: nat, f: FrameInfo)
    requires i < |h|
  {
    f.decodeId == i && f.picture == h[i] && f.poc == PocAt(h, i) && f.globalPoc == GlobalPoc(h, i) &&
    DependsOk(h, i, f.dependencies)
  }

  ghost predicate Logs(h: seq<Picture>, log: seq<FrameInfo>) {
    |log| == |h| && forall i :: 0 <= i < |h| ==> Describes(h, i, log[i])
  }

  lemma DescribesMore(h: seq<Picture>, p: Picture, i: nat, f: FrameInfo)
    requires i < |h| && Describes(h, i, f)
    ensures Describes(h + [p], i, f)
  {
    var h' := h + [p];
    assert h'[..|h|] == h && h'[..i] == h[..i];
    PocInPrefix(h', |h|, i);
    GlobalInPrefix(h', |h|, i);
  }

  lemma LogsMore(h: seq<Picture>, log: seq<FrameInfo>, p: Picture, f: FrameInfo)
    requires Logs(h, log) && Describes(h + [p], |h|, f)
    ensures Logs(h + [p], log + [f])
  {
    hide Describes;
    forall i | 0 <= i < |h|
      ensures Describes(h + [p], i, log[i])
    {
      DescribesMore(h, p, i, log[i]);
    }
  }

  lemma {:induction false} RefsOnce(refs: seq<Ref>)
    requires Recency(refs)
    ensures OnceEach(refs)
  {}

  lemma Arrangement(refs: seq<Ref>, poc: int, n0: nat, n1: nat, deps: seq<nat>)
    returns (past: seq<Ref>, future: seq<Ref>)
    requires BList(refs, poc, n0, n1, deps)
    ensures Arranged(refs, poc, past, future) && deps == Merged(past, future, n0, n1)
  {
    past, future :| Arranged(refs, poc, past, future) && deps == Merged(past, future, n0, n1);
  }

  lemma NothingByAge()
    ensures Recency([])
  {}

  lemma NoneRepeats()
    ensures NoRepeats([])
  {}

  lemma KeptMeans(h: seq<Picture>, d: nat)
    requires Kept(h, d)
    ensures d < |h| && h[d].isRef && forall j :: d < j < |h| ==> !h[j].isIdr
  {}

  /**
   A picture depends, without repetition, on at most 16 pictures: reference
   pictures decoded before it that are still in the buffer, with no IDR picture
   between.
   */
  lemma DependsOnEarlier(h: seq<Picture>, i: nat, f: FrameInfo)
    requires i < |h| && Describes(h, i, f)
    ensures NoRepeats(f.dependencies) && |f.dependencies| <= MAX_REF_FRAMES <= MAX_DEPS
    ensures forall d <- f.dependencies :: Kept(h[..i], d) && h[d].isRef && forall j :: d < j <= i ==> !h[j].isIdr
  {
    hide Recency, Kept, PList, BList, GlobalPoc, OnceEach, NoRepeats, RefsAfter, Arranged, Merged;
    var refs := RefsFor(h, i);
    RefsByAge(h[..i]);
    assert Recency([]) by { NothingByAge(); }
    RefsOnce(refs);
    BufferIsLatest(h[..i], Ref(0, 0, 0));
    match h[i].kind {
      case Intra => assert NoRepeats([]) by { NoneRepeats(); }
      case Predicted => PListIsClean(refs, h[i].numRefIdxL0, f.dependencies);
      case Bipredicted =>
        var past, future := Arrangement(refs, GlobalPoc(h, i), h[i].numRefIdxL0, h[i].numRefIdxL1, f.dependencies);
        BListIsClean(refs, GlobalPoc(h, i), past, future, h[i].numRefIdxL0, h[i].numRefIdxL1);
    }
    forall d | d in f.dependencies
      ensures Kept(h[..i], d) && h[d].isRef && forall j :: d < j <= i ==> !h[j].isIdr
    {
      var r :| r in refs && r.decodeId == d;
      BufferIsLatest(h[..i], r);
      KeptMeans(h[..i], d);
    }
  }

  /**
   A P picture lists as many pictures as its active count and the buffer allow
   exactly when the header overrides the count, or the default is one entry, or
   the buffer holds at most one picture.
   */
  lemma ListedCountIff(h: seq<Picture>, i: nat, f: FrameInfo, st: NalUnits.State, maxPocLsb: nat)
    requires i < |h| && Describes(h, i, f) && h[i].kind == Predicted
    requires st.slice.Some? && h[i] == PictureOf(st, maxPocLsb)
    ensures
      var x := st.slice.value.body.references;
      |f.dependencies| == Min(ActiveL0(st.pps, x), |RefsFor(h, i)|) <==>
      x.override.Some? || st.pps.prediction.numRefIdxL0ActiveMinus1 == 0 || |RefsFor(h, i)| <= 1
  {
    hide PList, GlobalPoc, OnceEach, NoRepeats, RefsAfter, PocAt, AllIn, HasOperationFive, KindOf, Recency;
    RefsByAge(h[..i]);
    assert Recency([]) by { NothingByAge(); }
    RefsOnce(RefsFor(h, i));
    PListIsClean(RefsFor(h, i), h[i].numRefIdxL0, f.dependencies);
  }

  /**
   A B picture names as many pictures as with its active counts exactly when the
   header overrides the counts, or one entry in each list reaches as many pictures of
   the past and of the rest of the buffer as the defaults do.
   */
  lemma ListedCountsIff(h: seq<Picture>, i: nat, f: FrameInfo, st: NalUnits.State, maxPocLsb: nat, active: seq<nat>)
    requires i < |h| && Describes(h, i, f) && h[i].kind == Bipredicted
    requires st.slice.Some? && h[i] == PictureOf(st, maxPocLsb)
    requires
      var x := st.slice.value.body.references;
      BList(RefsFor(h, i), GlobalPoc(h, i), ActiveL0(st.pps, x), ActiveL1(st.pps, x), active)
    ensures
      var x := st.slice.value.body.references;
      var p := |Earlier(RefsFor(h, i), GlobalPoc(h, i))|;
      |f.dependencies| == |active| <==>
      x.override.Some? || OneEachSuffices(p, |RefsFor(h, i)| - p, ActiveL0(st.pps, x), ActiveL1(st.pps, x))
  {
    hide BList, GlobalPoc, OnceEach, RefsAfter, PocAt, HasOperationFive, KindOf, Recency, OneEachSuffices, Earlier;
    var x := st.slice.value.body.references;
    RefsByAge(h[..i]);
    assert Recency([]) by { NothingByAge(); }
    RefsOnce(RefsFor(h, i));
    var poc, n0, n1 := GlobalPoc(h, i), ActiveL0(st.pps, x), ActiveL1(st.pps, x);
    if x.override.Some? {
      BListCount(RefsFor(h, i), poc, n0, n1, f.dependencies);
      BListCount(RefsFor(h, i), poc, n0, n1, active);
    } else {
      BListCountIff(RefsFor(h, i), poc, n0, n1, f.dependencies, active);
    }
  }

  // Which pictures a picture depends on, in terms of the run

  /** The pictures in the buffer that an order puts in front of picture d. */
  function KeptAhead(h: seq<Picture>, less: (Ref, Ref) -> bool, d: nat): set<nat>
    requires d < |h|
  {
    set j | 0 <= j < |h| && Kept(h, j) && less(RefOf(h, j), RefOf(h, d))
  }

  lemma {:induction false} RefCount(h: seq<Picture>, ids: set<nat>, refs: set<Ref>)
    requires forall j <- ids :: j < |h|
    requires forall r {:trigger r in refs} :: r in refs <==> r.decodeId in ids && r == RefOf(h, r.decodeId)
    ensures |refs| == |ids|
    decreases ids
  {
    hide GlobalPoc;
    if ids == {} {
      assert refs == {};
    } else {
      var j :| j in ids;
      assert RefOf(h, j) in refs;
      RefCount(h, ids - {j}, refs - {RefOf(h, j)});
    }
  }

  lemma AheadInRun(h: seq<Picture>, less: (Ref, Ref) -> bool, d: nat)
    requires d < |h|
    ensures |Ahead(less, RefsAfter(h), RefOf(h, d))| == |KeptAhead(h, less, d)|
  {
    hide Kept, GlobalPoc, RefsAfter;
    var ids, refs := KeptAhead(h, less, d), Ahead(less, RefsAfter(h), RefOf(h, d));
    forall r: Ref
      ensures r in refs <==> r.decodeId in ids && r == RefOf(h, r.decodeId)
    {
      BufferIsLatest(h, r);
      if Kept(h, r.decodeId) {
        KeptMeans(h, r.decodeId);
      }
    }
    RefCount(h, ids, refs);
  }

  /**
   In every run, a P picture depends on exactly those pictures in the buffer for
   which fewer than num_ref_idx_l0 others in the buffer have a higher frame_num.
   */
  lemma PDependsOn(h: seq<Picture>, i: nat, f: FrameInfo, d: nat)
    requires d < i < |h| && Describes(h, i, f) && h[i].kind == Predicted && !h[i].isIdr
    ensures d in f.dependencies <==>
            Kept(h[..i], d) && |KeptAhead(h[..i], HigherFrameNum, d)| < h[i].numRefIdxL0
  {
    hide Recency, Kept, KeptAhead, Ahead, PList, GlobalPoc, OnceEach, RefsAfter, Distinct, HigherFrameNum, NoRepeats;
    var refs := RefsAfter(h[..i]);
    var r := RefOf(h[..i], d);
    RefsByAge(h[..i]);
    RefsOnce(refs);
    BufferIsLatest(h[..i], r);
    if Kept(h[..i], d) {
      PListMembers(refs, h[i].numRefIdxL0, f.dependencies, r);
      AheadInRun(h[..i], HigherFrameNum, d);
    } else if d in f.dependencies {
      DependsOnEarlier(h, i, f);
    }
  }

  /** The counts in the buffer of picture i differ. */
  predicate CountsDifferIn(h: seq<Picture>) {
    forall j, k {:trigger Kept(h, j), Kept(h, k)} ::
      0 <= j < k < |h| && Kept(h, j) && Kept(h, k) ==> GlobalPoc(h, j) != GlobalPoc(h, k)
  }

  lemma KeysInRun(h: seq<Picture>)
    requires CountsDifferIn(h)
    ensures KeysDiffer(RisingPoc, RefsAfter(h))
  {
    hide Kept, GlobalPoc, RefsAfter;
    var refs := RefsAfter(h);
    RefsByAge(h);
    forall a, b | 0 <= a < b < |refs|
      ensures RisingPoc(refs[a]) != RisingPoc(refs[b])
    {
      BufferIsLatest(h, refs[a]);
      BufferIsLatest(h, refs[b]);
      assert refs[a] in refs && refs[b] in refs;
    }
  }

  /**
   In every run, when the counts in the buffer differ, a B picture depends on
   exactly those pictures in the buffer for which fewer than num_ref_idx_l0
   others come first in list 0, or fewer than num_ref_idx_l1 in list 1.
   */
  lemma BDependsOn(h: seq<Picture>, i: nat, f: FrameInfo, d: nat)
    requires d < i < |h| && Describes(h, i, f) && h[i].kind == Bipredicted && !h[i].isIdr
    requires CountsDifferIn(h[..i])
    ensures
      var poc := GlobalPoc(h, i);
      d in f.dependencies <==>
      Kept(h[..i], d) &&
      (|KeptAhead(h[..i], FirstInL0(poc), d)| < h[i].numRefIdxL0 ||
       |KeptAhead(h[..i], FirstInL1(poc), d)| < h[i].numRefIdxL1)
  {
    hide Recency, Kept, KeptAhead, Ahead, BList, GlobalPoc, OnceEach, RefsAfter, CountsDifferIn, KeysDiffer, NoRepeats;
    hide Arranged, Merged;
    var refs := RefsAfter(h[..i]);
    var r := RefOf(h[..i], d);
    RefsByAge(h[..i]);
    RefsOnce(refs);
    KeysInRun(h[..i]);
    BufferIsLatest(h[..i], r);
    if Kept(h[..i], d) {
      var past, future := Arrangement(refs, GlobalPoc(h, i), h[i].numRefIdxL0, h[i].numRefIdxL1, f.dependencies);
      BListMembers(refs, GlobalPoc(h, i), past, future, h[i].numRefIdxL0, h[i].numRefIdxL1, r);
      AheadInRun(h[..i], FirstInL0(GlobalPoc(h, i)), d);
      AheadInRun(h[..i], FirstInL1(GlobalPoc(h, i)), d);
    } else if d in f.dependencies {
      DependsOnEarlier(h, i, f);
    }
  }

  // The report

  datatype Line =
    | IntraLine(displayId: nat)
    | NothingFound(displayId: nat, kind: Kind)
    | DependsOn(displayId: nat, kind: Kind, displayIds: seq<nat>)

  /** The place, counted from 1, of the frame with a decode_id; 0 when there is none. */
  function DisplayId(frames: seq<FrameInfo>, decodeId: nat): nat {
    if frames == [] then 0
    else if frames[|frames| - 1].decodeId == decodeId then |frames|
    else DisplayId(frames[..|frames| - 1], decodeId)
  }

  function DisplayIds(frames: seq<FrameInfo>, deps: seq<nat>): seq<nat> {
    seq(|deps|, i requires 0 <= i < |deps| => DisplayId(frames, deps[i]))
  }

  function Value(x: nat): int {
    x
  }

  ghost predicate LineOk(frames: seq<FrameInfo>, i: nat, line: Line)
    requires i < |frames|
  {
    var f := frames[i];
    match f.picture.kind
    case Intra => line == IntraLine(i + 1)
    case _ =>
      if f.dependencies == [] then line == NothingFound(i + 1, f.picture.kind)
      else
        line.DependsOn? && line.displayId == i + 1 && line.kind == f.picture.kind &&
        multiset(line.displayIds) == multiset(DisplayIds(frames, f.dependencies)) && SortedBy(Value, line.displayIds)
  }

  function GlobalKey(f: FrameInfo): int {
    f.globalPoc
  }

  function IdKey(f: FrameInfo): int {
    f.decodeId
  }

  /** The decode_ids of a log are 0, 1, 2 and so on; sorting only moves them. */
  ghost predicate Numbered(frames: seq<FrameInfo>) {
    exists log: seq<FrameInfo> ::
      multiset(log) == multiset(frames) && forall i :: 0 <= i < |log| ==> log[i].decodeId == i
  }

  lemma {:induction false} DisplayIdIs(frames: seq<FrameInfo>, d: nat)
    ensures DisplayId(frames, d) <= |frames|
    ensures DisplayId(frames, d) > 0 ==> frames[DisplayId(frames, d) - 1].decodeId == d
    ensures DisplayId(frames, d) == 0 ==> forall f <- frames :: f.decodeId != d
  {
    if frames != [] {
      var n := |frames| - 1;
      DisplayIdIs(frames[..n], d);
      assert frames == frames[..n] + [frames[n]];
    }
  }

  lemma IdsMap(log: seq<FrameInfo>, frames: seq<FrameInfo>, i: nat, j: nat)
    requires multiset(log) == multiset(frames) && (forall k :: 0 <= k < |log| ==> log[k].decodeId == k)
    requires i < j < |frames|
    ensures frames[i].decodeId != frames[j].decodeId && frames[i].decodeId < |frames|
  {
    SameElements(log, frames);
    assert frames[i] in log;
    RearrangedKeys(IdKey, log, frames);
    assert IdKey(frames[i]) != IdKey(frames[j]);
  }

  /**
   decode_to_display_map is a bijection between the decode_ids 0 to n - 1 and
   the display numbers 1 to n: the two columns of the sorted log.
   */
  lemma DisplayMap(frames: seq<FrameInfo>, d: nat)
    requires Numbered(frames)
    ensures 1 <= DisplayId(frames, d) <= |frames| <==> d < |frames|
    ensures forall i :: 0 <= i < |frames| ==> (DisplayId(frames, d) == i + 1 <==> frames[i].decodeId == d)
  {
    var log: seq<FrameInfo> :| multiset(log) == multiset(frames) && forall i :: 0 <= i < |log| ==> log[i].decodeId == i;
    SameElements(log, frames);
    DisplayIdIs(frames, d);
    if d < |frames| {
      assert log[d] in frames;
    }
    forall i | 0 <= i < |frames|
      ensures frames[i].decodeId < |frames|
      ensures DisplayId(frames, d) == i + 1 <==> frames[i].decodeId == d
    {
      assert frames[i] in log;
      var k := DisplayId(frames, d) - 1;
      if k >= 0 && k < i {
        IdsMap(log, frames, k, i);
      } else if k > i {
        IdsMap(log, frames, i, k);
      }
      assert frames[i] in frames;
    }
  }

  /** In every period the local counts differ, and global counts keep the periods apart. */
  predicate CountsDiffer(h: seq<Picture>) {
    (forall i :: 0 <= i < |h| ==> LateEnough(h, i)) &&
    forall i, j {:trigger PocAt(h, i), PocAt(h, j)} ::
      0 <= i < j < |h| && Period(h, i) == Period(h, j) ==> PocAt(h, i) != PocAt(h, j)
  }

  /** Then sorting by global counts is sorting by IDR period and local count. */
  lemma SortedIsDisplayOrder(h: seq<Picture>, log: seq<FrameInfo>, frames: seq<FrameInfo>, a: nat, b: nat)
    requires Logs(h, log) && multiset(frames) == multiset(log) && SortedBy(GlobalKey, frames) && CountsDiffer(h)
    requires a < b < |frames|
    ensures frames[a].decodeId < |h| && frames[b].decodeId < |h|
    ensures Before(h, frames[a].decodeId, frames[b].decodeId)
  {
    hide Period, GlobalPoc, PocAt, DependsOk, LateEnough;
    SameElements(log, frames);
    assert frames[a] in log && frames[b] in log;
    var i :| 0 <= i < |log| && log[i] == frames[a];
    var j :| 0 <= j < |log| && log[j] == frames[b];
    assert Describes(h, i, log[i]) && Describes(h, j, log[j]);
    IdsMap(log, frames, a, b);
    assert GlobalKey(frames[a]) <= GlobalKey(frames[b]);
    GlobalOrder(h, j, i);
    assert i < j ==> Period(h, i) != Period(h, j) || PocAt(h, i) != PocAt(h, j);
    assert j < i ==> Period(h, j) != Period(h, i) || PocAt(h, j) != PocAt(h, i);
  }

  lemma LogIsNumbered(h: seq<Picture>, log: seq<FrameInfo>, frames: seq<FrameInfo>)
    requires Logs(h, log) && multiset(frames) == multiset(log)
    ensures Numbered(frames)
  {
    hide DependsOk;
    assert forall i :: 0 <= i < |log| ==> Describes(h, i, log[i]);
  }

  /** Every printed dependency is the display number of the frame that is meant. */
  lemma PrintedAreDisplayed(h: seq<Picture>, log: seq<FrameInfo>, frames: seq<FrameInfo>, k: nat, d: nat)
    requires Logs(h, log) && multiset(frames) == multiset(log) && k < |frames| && d in frames[k].dependencies
    ensures 1 <= DisplayId(frames, d) <= |frames| && frames[DisplayId(frames, d) - 1].decodeId == d
  {
    SameElements(log, frames);
    assert frames[k] in log;
    var i :| 0 <= i < |log| && log[i] == frames[k];
    assert Describes(h, i, log[i]);
    DependsOnEarlier(h, i, log[i]);
    KeptMeans(h[..i], d);
    LogIsNumbered(h, log, frames);
    DisplayMap(frames, d);
    DisplayIdIs(frames, d);
  }

  lemma ShownNumbers(frames: seq<FrameInfo>, deps: seq<nat>, ids: seq<nat>)
    requires multiset(ids) == multiset(DisplayIds(frames, deps)) && SortedBy(Value, ids)
    ensures |ids| == |deps|
    ensures forall j, k :: 0 <= j < k < |ids| ==> ids[j] <= ids[k]
    ensures forall v :: v in ids <==> exists d :: d in deps && DisplayId(frames, d) == v
  {
    hide DisplayId;
    SameElements(ids, DisplayIds(frames, deps));
    forall v
      ensures v in ids <==> exists d :: d in deps && DisplayId(frames, d) == v
    {
      if v in ids {
        assert v in DisplayIds(frames, deps);
        var k :| 0 <= k < |deps| && DisplayIds(frames, deps)[k] == v;
        assert deps[k] in deps;
      }
      if d :| d in deps && DisplayId(frames, d) == v {
        var k :| 0 <= k < |deps| && deps[k] == d;
        assert DisplayIds(frames, deps)[k] == v;
      }
    }
    forall j, k | 0 <= j < k < |ids|
      ensures ids[j] <= ids[k]
    {
      assert Value(ids[j]) <= Value(ids[k]);
    }
  }

  /**
   The line of a frame: its display number, which is that of its decode_id, its kind, and
   below each other the display numbers of exactly the frames that it depends on.
   */
  lemma LineIsAbout(frames: seq<FrameInfo>, i: nat, line: Line)
    requires i < |frames| && LineOk(frames, i, line) && Numbered(frames)
    ensures line.displayId == i + 1 == DisplayId(frames, frames[i].decodeId)
    ensures line.IntraLine? <==> frames[i].picture.kind == Intra
    ensures !line.IntraLine? ==> line.kind == frames[i].picture.kind
    ensures line.NothingFound? <==> frames[i].picture.kind != Intra && frames[i].dependencies == []
    ensures line.DependsOn? ==>
              |line.displayIds| == |frames[i].dependencies| &&
              (forall j, k :: 0 <= j < k < |line.displayIds| ==> line.displayIds[j] <= line.displayIds[k]) &&
              forall v :: v in line.displayIds <==> exists d :: d in frames[i].dependencies && DisplayId(frames, d) == v
  {
    hide DisplayId, Numbered;
    DisplayMap(frames, frames[i].decodeId);
    if line.DependsOn? {
      ShownNumbers(frames, frames[i].dependencies, line.displayIds);
    }
  }
}
