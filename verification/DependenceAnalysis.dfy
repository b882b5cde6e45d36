/** The methods of dep_analyzer.c. */
module DependenceAnalyses {
  import opened Bits
  import opened BitSyntax
  import opened Pocs
  import opened DisplayOrder
  import opened Dpbs
  import opened Sorting
  import opened RefLists
  import opened SliceHeaders
  import opened NalUnits
  import opened NalUnitIO
  import opened DepAnalyzer
  import S = SequenceParameterSet

  function Room(count: nat, limit: nat): nat {
    if count < limit then limit - count else 0
  }

  lemma JoinTakes(a: seq<nat>, b: seq<nat>, n: nat)
    ensures Take(a, n) + Take(b, Room(|Take(a, n)|, n)) == Take(a + b, n)
    ensures [] + Take(a, n) == Take(a, n)
  {}

  /** The first loops over past and future: entries while fewer than limit were taken. */
  method Append(deps0: seq<nat>, refs: seq<Ref>, count0: nat, limit: nat) returns (deps: seq<nat>, count: nat)
    ensures deps == deps0 + Take(Ids(refs), Room(count0, limit))
    ensures count == count0 + |Take(Ids(refs), Room(count0, limit))|
  {
    deps, count := deps0, count0;
    var i := 0;
    while i < |refs| && count < limit
      invariant i <= |refs| && i <= Room(count0, limit) && deps == deps0 + Ids(refs)[..i] && count == count0 + i
    {
      deps := deps + [refs[i].decodeId];
      i, count := i + 1, count + 1;
    }
  }

  method Contains(ids: seq<nat>, id: nat) returns (found: bool)
    ensures found <==> id in ids
  {
    for i := 0 to |ids|
      invariant id !in ids[..i]
    {
      if ids[i] == id {
        return true;
      }
    }
    return false;
  }

  lemma IdAt(refs: seq<Ref>, i: nat)
    requires i < |refs|
    ensures Ids(refs)[i] == refs[i].decodeId
  {}

  lemma JoinOne(a: seq<nat>, b: seq<nat>, x: nat)
    ensures a + (b + [x]) == a + b + [x] && a + (b + []) == a + b
  {}

  lemma NextNew(l0: seq<nat>, seen: seq<nat>, ids: seq<nat>, i: nat)
    requires NoRepeats(seen + ids) && i < |ids|
    ensures ids[i] in l0 + Minus(seen + ids[..i], l0) <==> ids[i] in l0
    ensures Minus(seen + ids[..i + 1], l0) == Minus(seen + ids[..i], l0) + (if ids[i] in l0 then [] else [ids[i]])
  {
    var xs := seen + ids[..i];
    MinusIs(xs, l0);
    assert seen + ids[..i + 1] == xs + [ids[i]];
    assert (xs + [ids[i]])[..|xs|] == xs;
    assert ids[i] !in xs by {
      assert (seen + ids)[|seen| + i] == ids[i];
      assert forall k :: 0 <= k < |xs| ==> xs[k] == (seen + ids)[k];
    }
  }

  /** The loops over future and past: entries that are not listed yet, while fewer than limit were looked at. */
  method AppendNew(deps0: seq<nat>, ghost l0: seq<nat>, ghost seen: seq<nat>, refs: seq<Ref>, count0: nat, limit: nat)
    returns (deps: seq<nat>, count: nat)
    requires deps0 == l0 + Minus(seen, l0) && NoRepeats(seen + Ids(refs))
    ensures deps == l0 + Minus(seen + Take(Ids(refs), Room(count0, limit)), l0)
    ensures count == count0 + |Take(Ids(refs), Room(count0, limit))|
  {
    hide NoRepeats, Minus, Ids;
    deps, count := deps0, count0;
    var i := 0;
    ghost var ids := Ids(refs);
    assert seen + ids[..0] == seen;
    while i < |refs| && count < limit
      invariant i <= |refs| && i <= Room(count0, limit) && count == count0 + i
      invariant deps == l0 + Minus(seen + ids[..i], l0)
    {
      var id := refs[i].decodeId;
      assert id == ids[i] by { IdAt(refs, i); }
      var isDup := Contains(deps, id);
      NextNew(l0, seen, ids, i);
      JoinOne(l0, Minus(seen + ids[..i], l0), id);
      if !isDup {
        deps := deps + [id];
      }
      i, count := i + 1, count + 1;
    }
    assert ids[..i] == Take(ids, Room(count0, limit));
  }

  lemma PartsOnce(refs: seq<Ref>, poc: int, past: seq<Ref>, future: seq<Ref>)
    requires OnceEach(refs) && Arranged(refs, poc, past, future)
    ensures NoRepeats([] + Ids(future))
    ensures forall n: nat {:trigger Take(Ids(future), n)} :: NoRepeats(Take(Ids(future), n) + Ids(past))
    ensures forall l0 :: l0 + Minus([], l0) == l0
  {
    var all := future + past;
    assert multiset(all) == multiset(refs);
    RearrangedOnce(refs, all);
    IdsOf(all);
    var ids := Ids(all);
    assert forall k :: 0 <= k < |future| ==> Ids(future)[k] == ids[k];
    assert forall k :: 0 <= k < |past| ==> Ids(past)[k] == ids[|future| + k];
  }

  lemma PrefixOf(h: seq<Picture>, p: Picture)
    ensures (h + [p])[..|h|] == h && (h + [p])[..|h| + 1] == h + [p]
  {}

  lemma PocStep(h: seq<Picture>, p: Picture)
    ensures PrevAfter(h + [p]) == NextPrev(p, PrevAfter(h))
    ensures PocAt(h + [p], |h|) == Poc(p, |h|, PrevAfter(h))
  {
    hide Poc, NextPrev;
    PrefixOf(h, p);
  }

  lemma CountStep(h: seq<Picture>, p: Picture)
    ensures
      var g := Enter(GopAfter(h), p);
      var poc := PocAt(h + [p], |h|);
      GlobalPoc(h + [p], |h|) == g.offset + poc &&
      GopAfter(h + [p]) == if poc > g.maxPoc then g.(maxPoc := poc) else g
  {
    hide Enter, PocAt;
    PrefixOf(h, p);
  }

  lemma RefsStep(h: seq<Picture>, p: Picture)
    ensures
      var refs := RefsFor(h + [p], |h|);
      refs == (if p.isIdr then [] else RefsAfter(h)) &&
      RefsAfter(h + [p]) == if p.isRef then Add(refs, RefOf(h + [p], |h|)) else refs
  {
    hide Add, RefOf;
    PrefixOf(h, p);
  }

  lemma RefsForOk(h: seq<Picture>, i: nat)
    requires i < |h|
    ensures var refs := RefsFor(h, i); Distinct(refs) && Recency(refs) && |refs| <= MAX_REF_FRAMES
  {
    RefsByAge(h[..i]);
    BufferIsLatest(h[..i], Ref(0, 0, 0));
  }

  lemma NewDescribed(h: seq<Picture>, p: Picture, f: FrameInfo)
    requires f.decodeId == |h| && f.picture == p && f.poc == PocAt(h + [p], |h|) &&
      f.globalPoc == GlobalPoc(h + [p], |h|)
    requires
      match p.kind
      case Intra => f.dependencies == []
      case Predicted => PList(RefsFor(h + [p], |h|), p.numRefIdxL0, f.dependencies)
      case Bipredicted => BList(RefsFor(h + [p], |h|), f.globalPoc, p.numRefIdxL0, p.numRefIdxL1, f.dependencies)
    ensures Describes(h + [p], |h|, f)
  {
    hide PList, BList, RefsFor, GlobalPoc, PocAt;
  }

  lemma LogSize(h: seq<Picture>, log: seq<FrameInfo>)
    requires Logs(h, log)
    ensures |log| == |h|
  {}

  lemma IdFits(frames: seq<FrameInfo>, i: nat)
    requires Numbered(frames) && i < |frames|
    ensures frames[i].decodeId < |frames|
  {
    hide DisplayId;
    DisplayMap(frames, frames[i].decodeId);
  }

  lemma NothingDisplayed(frames: seq<FrameInfo>)
    ensures forall d {:trigger DisplayId(frames[..0], d)} :: DisplayId(frames[..0], d) == 0
  {
    assert frames[..0] == [];
  }

  lemma DisplayIdStep(frames: seq<FrameInfo>, i: nat)
    requires i < |frames|
    ensures forall d {:trigger DisplayId(frames[..i + 1], d)} ::
              DisplayId(frames[..i + 1], d) == if frames[i].decodeId == d then i + 1 else DisplayId(frames[..i], d)
  {
    assert frames[..i + 1][..i] == frames[..i];
  }

  lemma DependencyFits(h: seq<Picture>, log: seq<FrameInfo>, frames: seq<FrameInfo>, i: nat, d: nat)
    requires Logs(h, log) && multiset(frames) == multiset(log) && i < |frames| && d in frames[i].dependencies
    ensures d < |h|
  {
    hide DisplayId, Logs;
    PrintedAreDisplayed(h, log, frames, i, d);
    LogIsNumbered(h, log, frames);
    DisplayMap(frames, d);
    SameElements(log, frames);
    LogSize(h, log);
  }

  lemma MaxStep(results: seq<(NalUnits.State, int)>, st: NalUnits.State, rc: int)
    ensures MaxAfter(results + [(st, rc)]) == NewMax(st, rc, MaxAfter(results))
  {
    hide NewMax;
    assert (results + [(st, rc)])[..|results|] == results;
  }

  class DependenceAnalysis {
    const h: H264Stream
    var frames: seq<FrameInfo>
    var decodeIdCounter: nat
    const dpb: array<Ref>
    var dpbSize: nat
    var prevPocLsb: int
    var prevPocMsb: int
    var maxPocLsb: nat
    var globalPocOffset: int
    var maxPocInGop: int
    /** The pictures so far, and what was logged about them, in decoding order. */
    ghost var history: seq<Picture>
    ghost var log: seq<FrameInfo>
    /** The state of the stream and the return value behind each unit that was read. */
    ghost var results: seq<(NalUnits.State, int)>

    /** The state is what the history says. */
    ghost predicate Consistent()
      reads this, dpb
    {
      Logs(history, log) && multiset(frames) == multiset(log) && decodeIdCounter == |history| &&
      PrevAfter(history) == Prev(prevPocMsb, prevPocLsb) && GopAfter(history) == Gop(globalPocOffset, maxPocInGop) &&
      maxPocLsb == MaxAfter(results) &&
      dpb.Length == MAX_REF_FRAMES && dpbSize <= MAX_REF_FRAMES &&
        multiset(dpb[..dpbSize]) == multiset(RefsAfter(history))
    }

    ghost predicate Valid()
      reads this, dpb, h, h.spsTable, h.ppsTable
    {
      h.Valid() && Consistent()
    }

    constructor (haveSei: bool)
      ensures Valid() && history == [] && results == [] && maxPocLsb == 0 && fresh(h) && fresh(h.spsTable) &&
                fresh(h.ppsTable) && fresh(dpb)
      ensures h.haveSei == haveSei && h.State() == EmptyState()
    {
      h := new H264Stream(haveSei);
      frames, decodeIdCounter, dpbSize := [], 0, 0;
      dpb := new Ref[MAX_REF_FRAMES](_ => Ref(0, 0, 0));
      prevPocLsb, prevPocMsb, maxPocLsb, globalPocOffset, maxPocInGop := 0, 0, 0, 0, 0;
      history, log, results := [], [], [];
    }

    /** calculate_poc. */
    method CalculatePoc(p: Picture, decodeId: nat) returns (poc: int)
      requires p.maxPocLsb == maxPocLsb
      modifies this`prevPocMsb, this`prevPocLsb
      ensures poc == Poc(p, decodeId, Prev(old(prevPocMsb), old(prevPocLsb)))
      ensures Prev(prevPocMsb, prevPocLsb) == NextPrev(p, Prev(old(prevPocMsb), old(prevPocLsb)))
    {
      if p.pocType == 0 {
        if maxPocLsb == 0 {
          return decodeId;
        }
        var pocMsb;
        if p.isIdr {
          pocMsb := 0;
        } else if p.pocLsb < prevPocLsb && prevPocLsb - p.pocLsb >= maxPocLsb / 2 {
          pocMsb := prevPocMsb + maxPocLsb;
        } else if p.pocLsb > prevPocLsb && p.pocLsb - prevPocLsb > maxPocLsb / 2 {
          pocMsb := prevPocMsb - maxPocLsb;
        } else {
          pocMsb := prevPocMsb;
        }
        poc := pocMsb + p.pocLsb;
        if p.isRef {
          prevPocMsb, prevPocLsb := pocMsb, p.pocLsb;
        }
        if p.isIdr {
          prevPocMsb, prevPocLsb := 0, 0;
        }
        return poc;
      } else if p.pocType == 2 {
        return 2 * p.frameNum;
      }
      return decodeId;
    }

    /** The dependencies of a P picture. */
    method PDependencies(numRefIdxL0: nat) returns (deps: seq<nat>)
      requires dpbSize <= dpb.Length
      ensures PList(dpb[..dpbSize], numRefIdxL0, deps)
    {
      var temp := QSort(dpb[..dpbSize], FallingFrameNum);
      deps := [];
      var i := 0;
      while i < numRefIdxL0 && i < dpbSize
        invariant i <= numRefIdxL0 && i <= dpbSize && deps == Ids(temp)[..i]
      {
        deps := deps + [temp[i].decodeId];
        i := i + 1;
      }
      assert deps == Take(Ids(temp), numRefIdxL0);
    }

    /** The entries before a count, and the others. */
    method Split(poc: int) returns (past: seq<Ref>, future: seq<Ref>)
      requires dpbSize <= dpb.Length
      ensures Arranged(dpb[..dpbSize], poc, past, future)
    {
      past, future := [], [];
      for i := 0 to dpbSize
        invariant multiset(past) + multiset(future) == multiset(dpb[..i])
        invariant (forall r <- past :: r.poc < poc) && forall r <- future :: r.poc >= poc
      {
        assert dpb[..i + 1] == dpb[..i] + [dpb[i]];
        if dpb[i].poc < poc {
          past := past + [dpb[i]];
        } else {
          future := future + [dpb[i]];
        }
      }
      ghost var past0, future0 := past, future;
      past := QSort(past, FallingPoc);
      future := QSort(future, RisingPoc);
      SameElements(past, past0);
      SameElements(future, future0);
    }

    /** The dependencies of a B picture. */
    method BDependencies(poc: int, numRefIdxL0: nat, numRefIdxL1: nat) returns (deps: seq<nat>)
      requires dpbSize <= dpb.Length && OnceEach(dpb[..dpbSize])
      ensures BList(dpb[..dpbSize], poc, numRefIdxL0, numRefIdxL1, deps)
    {
      hide Arranged, NoRepeats, OnceEach, Minus;
      var past, future := Split(poc);
      var count := 0;
      deps := [];
      deps, count := Append(deps, past, count, numRefIdxL0);
      deps, count := Append(deps, future, count, numRefIdxL0);
      JoinTakes(Ids(past), Ids(future), numRefIdxL0);
      ghost var l0 := deps;
      assert l0 == Take(Ids(past) + Ids(future), numRefIdxL0);
      PartsOnce(dpb[..dpbSize], poc, past, future);
      JoinTakes(Ids(future), Ids(past), numRefIdxL1);
      count := 0;
      deps, count := AppendNew(deps, l0, [], future, count, numRefIdxL1);
      deps, count := AppendNew(deps, l0, Take(Ids(future), numRefIdxL1), past, count, numRefIdxL1);
      assert deps == Merged(past, future, numRefIdxL0, numRefIdxL1);
    }

    method Oldest() returns (oldest: nat)
      requires 0 < dpbSize <= dpb.Length
      ensures oldest < dpbSize && forall j :: 0 <= j < dpbSize ==> dpb[oldest].decodeId <= dpb[j].decodeId
    {
      oldest := 0;
      for i := 1 to dpbSize
        invariant oldest < dpbSize && forall j :: 0 <= j < i ==> dpb[oldest].decodeId <= dpb[j].decodeId
      {
        if dpb[i].decodeId < dpb[oldest].decodeId {
          oldest := i;
        }
      }
    }

    /** The entry with the lowest decode_id is overwritten by the last one. */
    method Evict(ghost refs: seq<Ref>)
      requires 0 < dpbSize <= dpb.Length && multiset(dpb[..dpbSize]) == multiset(refs) && Recency(refs)
      modifies this`dpbSize, dpb
      ensures |refs| == old(dpbSize) && dpbSize == |refs| - 1 && multiset(dpb[..dpbSize]) == multiset(refs[..dpbSize])
    {
      hide Recency;
      ghost var a := dpb[..dpbSize];
      var oldest := Oldest();
      Evicted(a, refs, oldest);
      dpb[oldest] := dpb[dpbSize - 1];
      dpbSize := dpbSize - 1;
      assert dpb[..dpbSize] == a[oldest := a[|a| - 1]][..|a| - 1];
    }

    /** update_dpb: an entry with the frame_num is overwritten; a full buffer loses its oldest entry. */
    method UpdateDpb(r: Ref, ghost refs: seq<Ref>)
      requires dpb.Length == MAX_REF_FRAMES && dpbSize <= MAX_REF_FRAMES
      requires multiset(dpb[..dpbSize]) == multiset(refs) && Distinct(refs) && Recency(refs) && |refs| <= MAX_REF_FRAMES
      modifies this`dpbSize, dpb
      ensures dpbSize <= MAX_REF_FRAMES && multiset(dpb[..dpbSize]) == multiset(Add(refs, r))
    {
      hide Distinct, Recency, Add;
      ghost var a := dpb[..dpbSize];
      assert |a| == dpbSize;
      for i := 0 to dpbSize
        invariant dpb[..dpbSize] == a && forall j :: 0 <= j < i ==> a[j].frameNum != r.frameNum
      {
        if dpb[i].frameNum == r.frameNum {
          Replaced(a, refs, i, r);
          dpb[i] := dpb[i].(decodeId := r.decodeId, poc := r.poc);
          assert dpb[..dpbSize] == a[i := r];
          return;
        }
      }
      NoneSame(a, refs, r.frameNum);
      SizesAgree(a, refs);
      if dpbSize >= MAX_REF_FRAMES {
        Evict(refs);
        AppendedToRest(dpb[..dpbSize], refs, r);
      } else {
        Appended(a, refs, r);
      }
      ghost var kept := dpb[..dpbSize];
      dpb[dpbSize] := r;
      dpbSize := dpbSize + 1;
      assert dpb[..dpbSize] == kept + [r];
    }

    method Dependencies(p: Picture, globalPoc: int, ghost refs: seq<Ref>) returns (deps: seq<nat>)
      requires dpbSize <= dpb.Length && multiset(dpb[..dpbSize]) == multiset(refs) && Recency(refs)
      ensures
        match p.kind
        case Intra => deps == []
        case Predicted => PList(refs, p.numRefIdxL0, deps)
        case Bipredicted => BList(refs, globalPoc, p.numRefIdxL0, p.numRefIdxL1, deps)
    {
      hide Recency, OnceEach;
      deps := [];
      if p.kind == Predicted {
        deps := PDependencies(p.numRefIdxL0);
      } else if p.kind == Bipredicted {
        RefsOnce(refs);
        RearrangedOnce(refs, dpb[..dpbSize]);
        deps := BDependencies(globalPoc, p.numRefIdxL0, p.numRefIdxL1);
      }
    }

    /** The order counts of a picture; an IDR picture starts a new period and clears the buffer. */
    method CountPicture(p: Picture, decodeId: nat) returns (poc: int, globalPoc: int)
      requires p.maxPocLsb == maxPocLsb
      modifies this`prevPocLsb, this`prevPocMsb, this`globalPocOffset, this`maxPocInGop, this`dpbSize
      ensures
        var prev := Prev(old(prevPocMsb), old(prevPocLsb));
        var g := Enter(Gop(old(globalPocOffset), old(maxPocInGop)), p);
        poc == Poc(p, decodeId, prev) && Prev(prevPocMsb, prevPocLsb) == NextPrev(p, prev) &&
        globalPoc == g.offset + poc &&
        Gop(globalPocOffset, maxPocInGop) == (if poc > g.maxPoc then g.(maxPoc := poc) else g) &&
        dpbSize == if p.isIdr then 0 else old(dpbSize)
    {
      hide Poc, NextPrev;
      poc := CalculatePoc(p, decodeId);
      if p.isIdr {
        globalPocOffset := globalPocOffset + maxPocInGop + 2;
        maxPocInGop := 0;
        dpbSize := 0;
      }
      globalPoc := globalPocOffset + poc;
      if poc > maxPocInGop {
        maxPocInGop := poc;
      }
    }

    /** add_frame_to_log, behind the search for dependencies. */
    method LogPicture(p: Picture, decodeId: nat, poc: int, globalPoc: int, ghost refs: seq<Ref>)
      requires dpbSize <= dpb.Length && multiset(dpb[..dpbSize]) == multiset(refs) && Recency(refs)
      requires Logs(history, log) && multiset(frames) == multiset(log) && decodeId == |history|
      requires refs == RefsFor(history + [p], |history|)
      requires poc == PocAt(history + [p], |history|) && globalPoc == GlobalPoc(history + [p], |history|)
      modifies this`frames, this`log
      ensures Logs(history + [p], log) && multiset(frames) == multiset(log) && old(log) <= log
    {
      hide Logs, Describes, RefsFor, Recency, PList, BList, PocAt, GlobalPoc;
      var deps := Dependencies(p, globalPoc, refs);
      var fi := FrameInfo(decodeId, poc, globalPoc, p, deps);
      NewDescribed(history, p, fi);
      LogsMore(history, log, p, fi);
      frames := frames + [fi];
      log := log + [fi];
    }

    /** The picture is counted, and logged with its dependencies. */
    method CountAndLog(p: Picture, decodeId: nat, ghost refs: seq<Ref>) returns (globalPoc: int)
      requires Consistent() && p.maxPocLsb == maxPocLsb
      requires decodeId == |history| && refs == RefsFor(history + [p], |history|) && Recency(refs)
      modifies this`frames, this`dpbSize, this`prevPocLsb, this`prevPocMsb, this`globalPocOffset, this`maxPocInGop
      modifies this`log
      ensures Logs(history + [p], log) && multiset(frames) == multiset(log) && old(log) <= log
      ensures Prev(prevPocMsb, prevPocLsb) == PrevAfter(history + [p])
      ensures Gop(globalPocOffset, maxPocInGop) == GopAfter(history + [p])
      ensures globalPoc == GlobalPoc(history + [p], decodeId)
      ensures dpbSize <= MAX_REF_FRAMES && multiset(dpb[..dpbSize]) == multiset(refs)
    {
      hide Logs, PrevAfter, GopAfter, RefsAfter, RefsFor, Recency, MaxAfter, Poc, NextPrev, Enter, PocAt, GlobalPoc;
      PocStep(history, p);
      CountStep(history, p);
      RefsStep(history, p);
      var poc: int;
      poc, globalPoc := CountPicture(p, decodeId);
      assert dpb[..0] == [];
      LogPicture(p, decodeId, poc, globalPoc, refs);
    }

    /** What happens to a unit that starts a picture. */
    method AddPicture(p: Picture)
      requires Consistent() && p.maxPocLsb == maxPocLsb
      modifies this`frames, this`decodeIdCounter, this`dpbSize, this`prevPocLsb, this`prevPocMsb
      modifies this`globalPocOffset, this`maxPocInGop, this`history, this`log, dpb
      ensures Consistent() && history == old(history) + [p] && old(log) <= log
    {
      hide Logs, PrevAfter, GopAfter, RefsAfter, RefsFor, Distinct, Recency, Add, MaxAfter, GlobalPoc;
      RefsStep(history, p);
      ghost var h' := history + [p];
      ghost var refs := RefsFor(h', |history|);
      RefsForOk(h', |history|);
      var decodeId := decodeIdCounter;
      var globalPoc := CountAndLog(p, decodeId, refs);
      decodeIdCounter := decodeIdCounter + 1;
      history := h';
      if p.isRef {
        UpdateDpb(Ref(p.frameNum, decodeId, globalPoc), refs);
      }
    }

    /** A parameter set with order count type 0 changes the modulus. */
    method TakeModulus(rc: int)
      requires Consistent()
      modifies this`maxPocLsb, this`results
      ensures Consistent() && results == old(results) + [(h.State(), rc)]
      ensures maxPocLsb == NewMax(h.State(), rc, old(maxPocLsb))
    {
      hide Logs, PrevAfter, GopAfter, RefsAfter, MaxAfter;
      if rc >= 0 && h.nalUnitType == 7 && h.sps.picOrder.Lsb? {
        maxPocLsb := Pow2(h.sps.picOrder.log2MaxLsbMinus4 + 4);
      }
      MaxStep(results, h.State(), rc);
      results := results + [(h.State(), rc)];
    }

    /** depdence_analysis_process_nal on size bytes from start; false when the unit leads outside the model. */
    method ProcessNal(buf: array<byte>, start: nat, size: nat) returns (known: bool)
      requires Valid() && start + size <= buf.Length
      modifies this, dpb, h, h.spsTable, h.ppsTable
      ensures Valid() && old(log) <= log
      ensures
        match ReadNal(h.haveSei, old(h.State()).(unitType := 0, slice := None), buf[start..start + size])
        case None => !known
        case Some((st, rc)) =>
          known && h.State() == st && results == old(results) + [(st, rc)] &&
          maxPocLsb == NewMax(st, rc, old(maxPocLsb)) &&
          history == old(history) + if StartsPicture(st, rc) then [PictureOf(st, maxPocLsb)] else []
    {
      hide Consistent, ReadNal;
      // No slice header stands for one whose first_mb_in_slice is not 0.
      h.nalUnitType := 0;
      h.slice := None;
      var rc := h.ReadNalUnit(buf, start, size);
      if rc.None? {
        return false;
      }
      known := true;
      TakeModulus(rc.value);
      if rc.value < 0 {
        return;
      }
      if (h.nalUnitType == IDR_SLICE || h.nalUnitType == NON_IDR_SLICE) && h.slice.Some? &&
        h.slice.value.firstMbInSlice == 0 {
        AddPicture(PictureOf(h.CurrentState(), maxPocLsb));
      }
    }

    /** The map from decode_ids to display numbers. */
    method BuildMap() returns (displayIds: array<nat>)
      requires Valid()
      ensures fresh(displayIds) && displayIds.Length == decodeIdCounter
      ensures forall d :: 0 <= d < displayIds.Length ==> displayIds[d] == DisplayId(frames, d)
    {
      hide DisplayId, Numbered, Logs;
      LogIsNumbered(history, log, frames);
      SameElements(log, frames);
      assert |log| == decodeIdCounter by { LogSize(history, log); }
      displayIds := new nat[decodeIdCounter];
      NothingDisplayed(frames);
      for i := 0 to |frames|
        invariant forall d :: 0 <= d < displayIds.Length && DisplayId(frames[..i], d) > 0 ==>
                                displayIds[d] == DisplayId(frames[..i], d)
      {
        IdFits(frames, i);
        displayIds[frames[i].decodeId] := i + 1;
        DisplayIdStep(frames, i);
      }
      assert frames[..|frames|] == frames;
      forall d | 0 <= d < displayIds.Length
        ensures displayIds[d] == DisplayId(frames, d)
      {
        DisplayMap(frames, d);
      }
    }

    method ReportFrame(i: nat, displayIds: array<nat>) returns (line: Line)
      requires Valid() && i < |frames| && displayIds.Length == decodeIdCounter
      requires forall d :: 0 <= d < displayIds.Length ==> displayIds[d] == DisplayId(frames, d)
      ensures LineOk(frames, i, line)
    {
      hide Logs, SortedBy, DisplayId;
      var fi := frames[i];
      if fi.picture.kind == Intra {
        return IntraLine(i + 1);
      }
      if fi.dependencies == [] {
        return NothingFound(i + 1, fi.picture.kind);
      }
      var ids: seq<nat> := [];
      for j := 0 to |fi.dependencies|
        invariant ids == DisplayIds(frames, fi.dependencies)[..j]
      {
        DependencyFits(history, log, frames, i, fi.dependencies[j]);
        ids := ids + [displayIds[fi.dependencies[j]]];
      }
      assert ids == DisplayIds(frames, fi.dependencies);
      ids := QSort(ids, Value);
      return DependsOn(i + 1, fi.picture.kind, ids);
    }

    method ReportFrames(displayIds: array<nat>) returns (lines: seq<Line>)
      requires Valid() && displayIds.Length == decodeIdCounter
      requires forall d :: 0 <= d < displayIds.Length ==> displayIds[d] == DisplayId(frames, d)
      ensures |lines| == |frames| && forall i :: 0 <= i < |lines| ==> LineOk(frames, i, lines[i])
    {
      hide Logs, SortedBy, LineOk, DisplayId;
      lines := [];
      for i := 0 to |frames|
        invariant |lines| == i && forall k :: 0 <= k < i ==> LineOk(frames, k, lines[k])
      {
        var line := ReportFrame(i, displayIds);
        lines := lines + [line];
      }
    }

    /** depdence_analysis_report_results, with the printed lines as a list. */
    method ReportResults() returns (lines: seq<Line>)
      requires Valid()
      modifies this`frames
      ensures Valid() && multiset(frames) == multiset(old(frames)) && SortedBy(GlobalKey, frames)
      ensures |lines| == |frames| && forall i :: 0 <= i < |lines| ==> LineOk(frames, i, lines[i])
    {
      hide Logs, SortedBy, LineOk;
      frames := QSort(frames, GlobalKey);
      var displayIds := BuildMap();
      lines := ReportFrames(displayIds);
    }
  }
}
