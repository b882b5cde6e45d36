/**
 Which pictures the analyser sees in a run of units, and what each of them takes
 from its unit and the sets, in terms of the bytes of the units.
 */
module SeenPictures {
  import opened Bits
  import opened BitSyntax
  import opened NalBytes
  import opened Pocs
  import opened SliceHeaders
  import opened NalUnits
  import opened NalUnitIO
  import opened UnitReading
  import opened DepAnalyzer
  import opened DepAnalyzerMain
  import P = PictureParameterSet
  import S = SequenceParameterSet

  /** A unit of type 1 or 5 that begins with the first macroblock: the first number in it is 0. */
  predicate Shows(nal: seq<byte>) {
    (HasType(nal, 1) || HasType(nal, 5)) && GetUE(BehindFirst(nal)).0 == 0
  }

  /** Marking command number i is operation 5. */
  predicate SendsFive(m: Marking, i: int) {
    m.RefMarking? && m.operations.Some? && 0 <= i < |m.operations.value| && m.operations.value[i].operation == 5
  }

  /** What a picture is in terms of its unit, the header h in it, the sequence set and the modulus m. */
  ghost predicate PictureIs(p: Picture, nal: seq<byte>, sps: S.Sps, h: SliceHeader, m: nat)
    requires nal != []
  {
    var o := h.body.references.override;
    var idr, kind := nal[0] % 32 == 5, h.sliceType % 5;
    (p.isIdr <==> idr) &&
    (p.isRef <==> nal[0] / 32 % 4 != 0) &&
    p.frameNum == h.body.frame.frameNum &&
    p.pocLsb == h.body.order.picOrderCntLsb &&
    p.numRefIdxL0 == (if o.Some? then o.value.l0Minus1 + 1 else 1) &&
    p.numRefIdxL1 == (if o.Some? then o.value.l1Minus1 + 1 else 1) &&
    (p.kind == Predicted <==> !idr && (kind == 0 || kind == 3)) &&
    (p.kind == Bipredicted <==> !idr && kind == 1) &&
    (sps.picOrder.Lsb? ==> p.pocType == 0) && (sps.picOrder.Cycle? ==> p.pocType == 1) &&
    (sps.picOrder.OtherType? ==> p.pocType == sps.picOrder.pocType) &&
    p.maxPocLsb == m &&
    (p.reset.Some? <==> exists i :: SendsFive(h.body.marking, i)) &&
    (p.reset.Some? ==>
       p.reset.value == if h.body.frame.fieldPic || h.body.order.deltaPicOrderCntBottom >= 0 then 0
                        else -h.body.order.deltaPicOrderCntBottom)
  }

  /** The modulus that the unit leaves: a sequence set with order count type 0 that was read to its end changes it. */
  function ModulusBehind(nal: seq<byte>, m: nat): nat {
    if HasType(nal, 7) && SpsIn(nal).picOrder.Lsb? && Used(nal, S.GetSps(BehindFirst(nal)).1) >= 0 then
      Pow2(SpsIn(nal).picOrder.log2MaxLsbMinus4 + 4)
    else m
  }

  function Clear(st: State): State {
    st.(unitType := 0, slice := None)
  }

  lemma FiveIs(m: Marking)
    ensures HasOperationFive(m) <==> exists i :: SendsFive(m, i)
  {
    if HasOperationFive(m) {
      var i :| 0 <= i < |m.operations.value| && m.operations.value[i].operation == 5;
      assert SendsFive(m, i);
    }
  }

  lemma PictureTakes(st: State, nal: seq<byte>, m: nat)
    requires nal != [] && st.slice.Some? && st.refIdc == nal[0] / 32 % 4 && st.unitType == nal[0] % 32
    ensures PictureIs(PictureOf(st, m), nal, st.sps, st.slice.value, m)
  {
    FiveIs(st.slice.value.body.marking);
  }

  /** What the analyser looks at behind a unit, in terms of the bytes of the unit. */
  predicate Agrees(st: State, rc: int, nal: seq<byte>, m: nat) {
    NewMax(st, rc, m) == ModulusBehind(nal, m) && (StartsPicture(st, rc) <==> Shows(nal)) &&
    (Shows(nal) ==> st.slice.Some? && st.refIdc == nal[0] / 32 % 4 && st.unitType == nal[0] % 32)
  }

  lemma SpsInIs(nal: seq<byte>)
    requires HasType(nal, 7)
    ensures SpsIn(nal) == S.GetSps(BehindFirst(nal)).0
  {}

  lemma SetAgrees(haveSei: bool, st: State, nal: seq<byte>, m: nat)
    requires (HasType(nal, 7) || HasType(nal, 8)) && ReadNal(haveSei, st, nal).Some?
    ensures
      var (st', rc) := ReadNal(haveSei, st, nal).value;
      Agrees(st', rc, nal, m)
  {
    hide ReadNal, Unescape, SpsIn, PpsIn, BehindFirst, Used, OnlyAt, S.GetSps, P.GetPps, GetUE, Pow2;
    if HasType(nal, 7) {
      SpsUnitRead(haveSei, st, nal);
      SpsInIs(nal);
    } else {
      PpsUnitRead(haveSei, st, nal);
    }
  }

  /** The bytes that are used are not negative in number. */
  lemma SliceNotEmpty(nal: seq<byte>)
    requires IsSlice(nal)
    ensures |nal| > 0
  {}

  lemma SliceAgrees(haveSei: bool, st: State, nal: seq<byte>, m: nat)
    requires IsSlice(nal) && ReadNal(haveSei, st, nal).Some?
    ensures
      var (st', rc) := ReadNal(haveSei, st, nal).value;
      Agrees(st', rc, nal, m)
  {
    hide ReadNal, Unescape, HeaderStands, SpsIn, PpsIn, ReadAgainst, BehindFirst, GetUE, Used;
    var _, h, _ := SliceUnitRead(haveSei, st, nal);
    SliceNotEmpty(nal);
  }

  lemma OtherAgrees(haveSei: bool, st: State, nal: seq<byte>, m: nat)
    requires !HasType(nal, 7) && !HasType(nal, 8) && !IsSlice(nal) && ReadNal(haveSei, Clear(st), nal).Some?
    ensures
      var (st', rc) := ReadNal(haveSei, Clear(st), nal).value;
      Agrees(st', rc, nal, m)
  {
    hide ReadNal, Unescape, SpsIn, PpsIn, BehindFirst, Used, GetUE, Pow2;
    OtherUnitRead(haveSei, Clear(st), nal);
  }

  lemma UnitAgrees(haveSei: bool, st: State, nal: seq<byte>, m: nat)
    requires ReadNal(haveSei, Clear(st), nal).Some?
    ensures
      var (st', rc) := ReadNal(haveSei, Clear(st), nal).value;
      Agrees(st', rc, nal, m)
  {
    hide ReadNal, Agrees, HasType, IsSlice;
    if HasType(nal, 7) || HasType(nal, 8) {
      SetAgrees(haveSei, Clear(st), nal, m);
    } else if IsSlice(nal) {
      SliceAgrees(haveSei, Clear(st), nal, m);
    } else {
      OtherAgrees(haveSei, st, nal, m);
    }
  }

  lemma ShowsNotEmpty(nal: seq<byte>)
    requires Shows(nal)
    ensures nal != []
  {}

  /** One unit: whether it shows a picture is in its bytes, and so is the modulus that it leaves. */
  lemma UnitShows(haveSei: bool, st: State, m: nat, nal: seq<byte>)
    ensures
      match Look(haveSei)((st, m), nal)
      case None => ReadNal(haveSei, Clear(st), nal).None?
      case Some(((st', m'), ps)) =>
        ReadNal(haveSei, Clear(st), nal).Some? && st' == ReadNal(haveSei, Clear(st), nal).value.0 &&
        m' == ModulusBehind(nal, m) &&
        if Shows(nal) then |ps| == 1 && st'.slice.Some? && PictureIs(ps[0], nal, st'.sps, st'.slice.value, m')
        else ps == []
  {
    hide ReadNal, PictureIs, PictureOf, Shows, ModulusBehind, NewMax, StartsPicture;
    if ReadNal(haveSei, Clear(st), nal).Some? {
      UnitAgrees(haveSei, st, nal, m);
      if Shows(nal) {
        ShowsNotEmpty(nal);
        PictureTakes(ReadNal(haveSei, Clear(st), nal).value.0, nal, ModulusBehind(nal, m));
      }
    }
  }

  // Runs of units

  /** The number of pictures in the first i units. */
  function Shown(nals: seq<seq<byte>>, i: nat): nat
    requires i <= |nals|
  {
    if i == 0 then 0 else Shown(nals, i - 1) + if Shows(nals[i - 1]) then 1 else 0
  }

  /** The modulus behind the first i units: that of the last set which changes it. */
  function Modulus(nals: seq<seq<byte>>, i: nat, m: nat): nat
    requires i <= |nals|
  {
    if i == 0 then m else ModulusBehind(nals[i - 1], Modulus(nals, i - 1, m))
  }

  /** Picture number Shown(nals, j) is that of unit j. */
  ghost predicate PictureAt(haveSei: bool, st: State, m: nat, nals: seq<seq<byte>>, ps: seq<Picture>, j: nat)
    requires j < |nals|
  {
    Shows(nals[j]) ==>
      var st' := StateAt(haveSei, true, st, nals, j + 1);
      Shown(nals, j) < |ps| && nals[j] != [] && st'.Some? && st'.value.slice.Some? &&
      PictureIs(ps[Shown(nals, j)], nals[j], st'.value.sps, st'.value.slice.value, Modulus(nals, j, m))
  }

  /** The pictures ps are those of the first i units. */
  ghost predicate PicturesUpTo(haveSei: bool, st: State, m: nat, nals: seq<seq<byte>>, i: nat, ps: seq<Picture>)
    requires i <= |nals|
  {
    |ps| == Shown(nals, i) && forall j :: 0 <= j < i ==> PictureAt(haveSei, st, m, nals, ps, j)
  }

  lemma OnePicture(haveSei: bool, st: State, m: nat, nals: seq<seq<byte>>, i: nat, ps: seq<Picture>, qs: seq<Picture>)
    requires i < |nals| && PicturesUpTo(haveSei, st, m, nals, i, ps)
    requires |qs| == if Shows(nals[i]) then 1 else 0
    requires PictureAt(haveSei, st, m, nals, ps + qs, i)
    ensures PicturesUpTo(haveSei, st, m, nals, i + 1, ps + qs)
  {
    hide StateAt, Shows, PictureIs, Modulus;
    forall j | 0 <= j < i
      ensures PictureAt(haveSei, st, m, nals, ps + qs, j)
    {
      assert PictureAt(haveSei, st, m, nals, ps, j);
    }
  }

  lemma ShowsIsNoSet(nal: seq<byte>, m: nat)
    requires Shows(nal)
    ensures nal != [] && ModulusBehind(nal, m) == m
  {}

  lemma NoPictures(haveSei: bool, st: State, m: nat, nals: seq<seq<byte>>)
    ensures PicturesUpTo(haveSei, st, m, nals, 0, [])
  {}

  lemma LastPicture(haveSei: bool, st: State, m: nat, nals: seq<seq<byte>>, i: nat, ps: seq<Picture>, qs: seq<Picture>)
    requires i < |nals| && PicturesUpTo(haveSei, st, m, nals, i, ps)
    requires Shows(nals[i]) ==>
               var st' := StateAt(haveSei, true, st, nals, i + 1);
               |qs| == 1 && nals[i] != [] && st'.Some? && st'.value.slice.Some? &&
               PictureIs(qs[0], nals[i], st'.value.sps, st'.value.slice.value, Modulus(nals, i, m))
    ensures PictureAt(haveSei, st, m, nals, ps + qs, i)
  {
    hide StateAt, Shows, PictureIs, Modulus;
  }

  lemma {:induction false} WatchUpTo(haveSei: bool, st: State, m: nat, us: seq<(nat, seq<byte>)>, i: nat)
    returns (ps: seq<Picture>)
    requires i <= |us|
    ensures
      var nals, seen := NalsOf(us), Watch(Look(haveSei), (st, m), us);
      match StateAt(haveSei, true, st, nals, i)
      case None => seen.None?
      case Some(st') =>
        seen == DepAnalyzerMain.Before(ps, Watch(Look(haveSei), (st', Modulus(nals, i, m)), us[i..])) &&
        PicturesUpTo(haveSei, st, m, nals, i, ps)
  {
    hide ReadNal, Look, PicturesUpTo, PictureIs, Shows, ModulusBehind;
    var nals := NalsOf(us);
    ps := [];
    if i == 0 {
      assert us[0..] == us;
      BeforeBoth([], [], Watch(Look(haveSei), (st, m), us));
      NoPictures(haveSei, st, m, nals);
    } else {
      ps := WatchUpTo(haveSei, st, m, us, i - 1);
      var before := StateAt(haveSei, true, st, nals, i - 1);
      if before.Some? {
        var m1 := Modulus(nals, i - 1, m);
        assert us[i - 1..][0] == us[i - 1] && us[i - 1..][1..] == us[i..];
        UnitShows(haveSei, before.value, m1, nals[i - 1]);
        if StateAt(haveSei, true, st, nals, i).Some? {
          var qs := Look(haveSei)((before.value, m1), nals[i - 1]).value.1;
          if Shows(nals[i - 1]) {
            ShowsIsNoSet(nals[i - 1], m1);
          }
          var st' := StateAt(haveSei, true, st, nals, i).value;
          BeforeBoth(ps, qs, Watch(Look(haveSei), (st', Modulus(nals, i, m)), us[i..]));
          LastPicture(haveSei, st, m, nals, i - 1, ps, qs);
          OnePicture(haveSei, st, m, nals, i - 1, ps, qs);
          ps := ps + qs;
        }
      }
    }
  }

  lemma PictureAtMeans(haveSei: bool, st: State, m: nat, nals: seq<seq<byte>>, ps: seq<Picture>, i: nat)
    requires i < |nals| && PicturesUpTo(haveSei, st, m, nals, |nals|, ps) && Shows(nals[i])
    ensures PictureAt(haveSei, st, m, nals, ps, i) && |ps| == Shown(nals, |nals|) && IsSlice(nals[i])
  {
    hide PictureAt, Shown, HasType;
  }

  lemma NalsAre(us: seq<(nat, seq<byte>)>, i: nat)
    requires i < |us|
    ensures |NalsOf(us)| == |us| && NalsOf(us)[i] == us[i].1
  {}

  lemma WatchEnds(haveSei: bool, st: State, m: nat, us: seq<(nat, seq<byte>)>, ps: seq<Picture>)
    ensures
      us[|us|..] == [] &&
      forall s: (State, nat) {:trigger Watch(Look(haveSei), s, us[|us|..])} ::
        DepAnalyzerMain.Before(ps, Watch(Look(haveSei), s, us[|us|..])) == Some(ps)
  {
    hide Look;
    assert ps + [] == ps;
  }

  /**
   The pictures that the analyser sees in a run of units are those of the units that begin
   with the first macroblock, in their order. Each field of a picture is that of its unit's
   first byte and header, and the sets are the last ones read with the numbers that the
   header leads to.
   */
  lemma PictureInRun(haveSei: bool, st: State, m: nat, us: seq<(nat, seq<byte>)>, ps: seq<Picture>, i: nat)
    returns (c: Context, h: SliceHeader, e: Input)
    requires i < |us| && Watch(Look(haveSei), (st, m), us) == Some(ps) && Shows(us[i].1)
    ensures
      var nals := NalsOf(us);
      |ps| == Shown(nals, |nals|) && Shown(nals, i) < |ps| && ReadsLast(st.tables, nals, i, c, h, e) &&
      PictureIs(ps[Shown(nals, i)], nals[i], c.sps, h, Modulus(nals, i, m))
  {
    hide ReadNal, Look, Watch, PicturesUpTo, PictureIs, Shows, StateAt, ReadsLast, Shown, Modulus, IsSlice, NalsOf;
    var nals := NalsOf(us);
    assert nals[i] == us[i].1 && |nals| == |us| by { NalsAre(us, i); }
    var all := WatchUpTo(haveSei, st, m, us, |us|);
    WatchEnds(haveSei, st, m, us, all);
    PictureAtMeans(haveSei, st, m, nals, ps, i);
    c, h, e := SliceInRun(haveSei, true, st, nals, i);
  }

  /** A new stream has room for 32 sequence sets and 256 picture sets, all of whose fields are 0. */
  lemma EmptyTables(k: nat)
    ensures
      var ts := EmptyState().tables;
      |ts.spsTable| == 32 && |ts.ppsTable| == 256 &&
      (k < 32 ==> ts.spsTable[k].picOrder == S.Lsb(0) && ts.spsTable[k].log2MaxFrameNumMinus4 == 0 &&
                  !ts.spsTable[k].format.frameMbsOnly && S.ChromaFormatIdc(ts.spsTable[k]) == 0) &&
      (k < 256 ==> ts.ppsTable[k].spsId == 0 && ts.ppsTable[k].groups == P.OneGroup &&
                   ts.ppsTable[k].prediction == P.Prediction(0, 0, false, 0, 0, 0, 0, false, false, false))
  {}
}
