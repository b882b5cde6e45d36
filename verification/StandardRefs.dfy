/**
 Reference pictures as ITU-T H.264 treats frames: the sliding window of section
 8.2.5.3, and the initial lists of P and B pictures of sections 8.2.4.2.1 and
 8.2.4.2.3. The standard goes by FrameNumWrap where the analyser goes by age and by
 frame_num, and it keeps list 1 apart from list 0.
 */
module StandardRefs {
  import opened BitSyntax
  import opened Pocs
  import opened DisplayOrder
  import opened Dpbs
  import opened Sorting
  import opened RefLists
  import opened DepAnalyzer

  /** FrameNumWrap, which is PicNum for frames, at a picture with frame_num cur: m is MaxFrameNum, equation 8-27. */
  function FrameNumWrap(r: Ref, cur: nat, m: nat): int {
    if r.frameNum > cur then r.frameNum - m else r.frameNum
  }

  predicate FrameNumsBelow(refs: seq<Ref>, m: nat) {
    forall r <- refs :: r.frameNum < m
  }

  // The sliding window

  /** The place of the entry with the lowest FrameNumWrap. */
  function Lowest(refs: seq<Ref>, cur: nat, m: nat): (k: nat)
    requires refs != []
    ensures k < |refs| && forall r <- refs :: FrameNumWrap(refs[k], cur, m) <= FrameNumWrap(r, cur, m)
  {
    if |refs| == 1 then 0 else
    var k := Lowest(refs[..|refs| - 1], cur, m);
    assert refs == refs[..|refs| - 1] + [refs[|refs| - 1]];
    if FrameNumWrap(refs[|refs| - 1], cur, m) < FrameNumWrap(refs[k], cur, m) then |refs| - 1 else k
  }

  function AtLeastOne(n: nat): nat {
    if n == 0 then 1 else n
  }

  /** A reference picture enters; when there are num_ref_frames already, the lowest FrameNumWrap leaves. */
  function Slide(refs: seq<Ref>, r: Ref, numRefFrames: nat, m: nat): seq<Ref> {
    if |refs| < AtLeastOne(numRefFrames) then [r] + refs else
    var k := Lowest(refs, r.frameNum, m);
    [r] + (refs[..k] + refs[k + 1..])
  }

  /** The short-term reference frames behind the pictures h, latest first, when no picture has marking commands. */
  function Window(h: seq<Picture>, numRefFrames: nat, m: nat): seq<Ref> {
    if h == [] then [] else
    var n := |h| - 1;
    var refs := if h[n].isIdr then [] else Window(h[..n], numRefFrames, m);
    if h[n].isRef then Slide(refs, RefOf(h, n), numRefFrames, m) else refs
  }

  /**
   What a new frame_num f has to find in the buffer: one entry with f that the
   window, of one frame, drops; or 16 entries of which the oldest is the one with the
   lowest FrameNumWrap, in a window of at most 16; or less than the window holds.
   */
  predicate Slides(refs: seq<Ref>, f: nat, numRefFrames: nat, m: nat) {
    if exists r :: r in refs && r.frameNum == f then |refs| == 1 && numRefFrames <= 1
    else if |refs| == MAX_REF_FRAMES then
      numRefFrames <= MAX_REF_FRAMES &&
      forall r <- refs :: FrameNumWrap(refs[MAX_REF_FRAMES - 1], f, m) <= FrameNumWrap(r, f, m)
    else |refs| < AtLeastOne(numRefFrames)
  }

  lemma WrapsDiffer(a: Ref, b: Ref, cur: nat, m: nat)
    requires a.frameNum < m && b.frameNum < m && a.frameNum != b.frameNum
    ensures FrameNumWrap(a, cur, m) != FrameNumWrap(b, cur, m)
    ensures cur == a.frameNum ==> FrameNumWrap(b, cur, m) < FrameNumWrap(a, cur, m)
  {}

  lemma CutApart(refs: seq<Ref>, r: Ref, j: nat, k: nat)
    requires Distinct(refs) && j < |refs| && k < |refs|
    ensures [r] + (refs[..j] + refs[j + 1..]) == [r] + (refs[..k] + refs[k + 1..]) <==> j == k
  {
    if j != k {
      var a, b := [r] + (refs[..j] + refs[j + 1..]), [r] + (refs[..k] + refs[k + 1..]);
      var i := if j < k then j else k;
      assert a[i + 1] != b[i + 1];
    }
  }

  /** An entry with the same frame_num has the highest FrameNumWrap of all. */
  lemma SlidesSame(refs: seq<Ref>, r: Ref, numRefFrames: nat, m: nat, k: nat)
    requires Distinct(refs) && |refs| <= MAX_REF_FRAMES && FrameNumsBelow(refs, m)
    requires IsPlace(refs, r.frameNum, k) && k < |refs|
    ensures Add(refs, r) == Slide(refs, r, numRefFrames, m) <==> |refs| == 1 && numRefFrames <= 1
  {
    assert Add(refs, r) == [r] + (refs[..k] + refs[k + 1..]);
    if |refs| >= AtLeastOne(numRefFrames) {
      var j := Lowest(refs, r.frameNum, m);
      CutApart(refs, r, k, j);
      if |refs| > 1 {
        var i := if k == 0 then 1 else 0;
        assert refs[k] in refs && refs[i] in refs;
        WrapsDiffer(refs[k], refs[i], r.frameNum, m);
      }
    }
  }

  lemma SlidesFull(refs: seq<Ref>, r: Ref, numRefFrames: nat, m: nat)
    requires Distinct(refs) && |refs| == MAX_REF_FRAMES && FrameNumsBelow(refs, m)
    requires forall s <- refs :: s.frameNum != r.frameNum
    ensures Add(refs, r) == Slide(refs, r, numRefFrames, m) <==> Slides(refs, r.frameNum, numRefFrames, m)
  {
    var last := MAX_REF_FRAMES - 1;
    WithoutNone(refs, r.frameNum);
    AddToFull(refs, r);
    assert Add(refs, r) == [r] + (refs[..last] + refs[last + 1..]);
    if |refs| >= AtLeastOne(numRefFrames) {
      var k := Lowest(refs, r.frameNum, m);
      CutApart(refs, r, last, k);
      assert refs[last] in refs && refs[k] in refs;
      if k != last {
        WrapsDiffer(refs[last], refs[k], r.frameNum, m);
      }
    }
  }

  lemma SlidesFree(refs: seq<Ref>, r: Ref, numRefFrames: nat, m: nat)
    requires Without(refs, r.frameNum) == refs && |refs| < MAX_REF_FRAMES
    ensures Add(refs, r) == Slide(refs, r, numRefFrames, m) <==> |refs| < AtLeastOne(numRefFrames)
  {}

  /** One reference picture: exactly when the analyser's buffer does what the window does. */
  lemma SlidesIff(refs: seq<Ref>, r: Ref, numRefFrames: nat, m: nat)
    requires Distinct(refs) && |refs| <= MAX_REF_FRAMES && FrameNumsBelow(refs, m)
    ensures Add(refs, r) == Slide(refs, r, numRefFrames, m) <==> Slides(refs, r.frameNum, numRefFrames, m)
  {
    hide Add, Slide, FrameNumsBelow;
    var k := WithoutIs(refs, r.frameNum);
    if k < |refs| {
      assert refs[k] in refs;
      SlidesSame(refs, r, numRefFrames, m, k);
    } else if |refs| == MAX_REF_FRAMES {
      SlidesFull(refs, r, numRefFrames, m);
    } else {
      SlidesFree(refs, r, numRefFrames, m);
    }
  }

  // Runs of pictures

  predicate NumsBelow(h: seq<Picture>, m: nat) {
    forall p <- h :: p.frameNum < m
  }

  lemma RefsBelow(h: seq<Picture>, m: nat)
    requires NumsBelow(h, m)
    ensures FrameNumsBelow(RefsAfter(h), m) && Distinct(RefsAfter(h)) && |RefsAfter(h)| <= MAX_REF_FRAMES
  {
    hide Kept, GlobalPoc, RefsAfter, Distinct;
    BufferIsLatest(h, Ref(0, 0, 0));
    forall r | r in RefsAfter(h)
      ensures r.frameNum < m
    {
      BufferIsLatest(h, r);
      KeptMeans(h, r.decodeId);
      assert h[r.decodeId] in h;
    }
  }

  predicate SlidesAt(h: seq<Picture>, i: nat, numRefFrames: nat, m: nat)
    requires i < |h|
  {
    h[i].isRef && !h[i].isIdr ==> Slides(RefsAfter(h[..i]), h[i].frameNum, numRefFrames, m)
  }

  lemma NothingIn(r: Ref, numRefFrames: nat, m: nat)
    ensures Add([], r) == Slide([], r, numRefFrames, m)
  {}

  lemma WindowStep(h: seq<Picture>, i: nat, numRefFrames: nat, m: nat)
    requires NumsBelow(h, m) && i < |h| && RefsAfter(h[..i]) == Window(h[..i], numRefFrames, m)
    ensures RefsAfter(h[..i + 1]) == Window(h[..i + 1], numRefFrames, m) <==> SlidesAt(h, i, numRefFrames, m)
  {
    hide GlobalPoc, Add, Slide, Slides, Distinct;
    assert h[..i + 1][..i] == h[..i] && h[..i + 1][i] == h[i];
    if h[i].isRef {
      var r := RefOf(h[..i + 1], i);
      if h[i].isIdr {
        NothingIn(r, numRefFrames, m);
      } else {
        RefsBelow(h[..i], m);
        SlidesIff(RefsAfter(h[..i]), r, numRefFrames, m);
      }
    }
  }

  lemma NothingYet(numRefFrames: nat, m: nat)
    ensures RefsAfter([]) == Window([], numRefFrames, m)
  {}

  lemma {:induction false} WindowUpTo(h: seq<Picture>, n: nat, numRefFrames: nat, m: nat)
    requires NumsBelow(h, m) && n <= |h|
    ensures (forall i :: 0 <= i <= n ==> RefsAfter(h[..i]) == Window(h[..i], numRefFrames, m)) <==>
            (forall i :: 0 <= i < n ==> SlidesAt(h, i, numRefFrames, m))
  {
    hide RefsAfter, Window, SlidesAt;
    if n == 0 {
      assert h[..0] == [];
      NothingYet(numRefFrames, m);
    } else {
      WindowUpTo(h, n - 1, numRefFrames, m);
      if forall i :: 0 <= i <= n - 1 ==> RefsAfter(h[..i]) == Window(h[..i], numRefFrames, m) {
        WindowStep(h, n - 1, numRefFrames, m);
      }
    }
  }

  /**
   In every run whose pictures have no marking commands, the buffer is always the
   sliding window of the standard exactly when every reference picture finds in it
   what makes both do the same.
   */
  lemma WindowIff(h: seq<Picture>, numRefFrames: nat, m: nat)
    requires NumsBelow(h, m)
    ensures (forall i :: 0 <= i <= |h| ==> RefsAfter(h[..i]) == Window(h[..i], numRefFrames, m)) <==>
            (forall i :: 0 <= i < |h| ==> SlidesAt(h, i, numRefFrames, m))
  {
    WindowUpTo(h, |h|, numRefFrames, m);
  }

  // Runs in which frame_num counts up

  /** PrevRefFrameNum, section 7.4.3: that of the last reference picture since the last IDR picture. */
  function PrevRefFrameNum(h: seq<Picture>, i: nat): Option<nat>
    requires i <= |h|
  {
    if i == 0 then None
    else if h[i - 1].isRef then Some(h[i - 1].frameNum)
    else if h[i - 1].isIdr then None
    else PrevRefFrameNum(h, i - 1)
  }

  function Successor(f: nat, m: nat): nat {
    if f + 1 < m then f + 1 else 0
  }

  /** Every reference picture has the next frame_num modulo m. */
  predicate CountsUp(h: seq<Picture>, m: nat) {
    forall i :: 0 <= i < |h| && h[i].isRef && !h[i].isIdr && PrevRefFrameNum(h, i).Some? ==>
      h[i].frameNum == Successor(PrevRefFrameNum(h, i).value, m)
  }

  /** The entries have the frame_nums that lead up to f, the latest one in front. */
  predicate LeadsTo(refs: seq<Ref>, f: nat, m: nat) {
    forall k :: 0 <= k < |refs| ==> refs[k].frameNum == if f >= k then f - k else f - k + m
  }

  lemma AddLeads(refs: seq<Ref>, f: nat, r: Ref, m: nat)
    requires LeadsTo(refs, f, m) && f < m && m > MAX_REF_FRAMES >= |refs| && r.frameNum == Successor(f, m)
    ensures LeadsTo(Add(refs, r), r.frameNum, m) && Slides(refs, r.frameNum, MAX_REF_FRAMES, m)
    ensures Add(refs, r) != []
  {
    forall e | e in refs
      ensures e.frameNum != r.frameNum
    {
      var k :| 0 <= k < |refs| && refs[k] == e;
    }
    WithoutNone(refs, r.frameNum);
    var all := [r] + refs;
    assert forall k :: 0 < k < |all| ==> all[k] == refs[k - 1];
  }

  lemma AddFirst(r: Ref, m: nat)
    ensures LeadsTo(Add([], r), r.frameNum, m) && Add([], r) != []
  {}

  lemma {:induction false} RefsLead(h: seq<Picture>, m: nat, i: nat)
    requires NumsBelow(h, m) && m > MAX_REF_FRAMES && CountsUp(h, m) && i <= |h|
    ensures RefsAfter(h[..i]) == [] <==> PrevRefFrameNum(h, i).None?
    ensures PrevRefFrameNum(h, i).Some? ==>
              PrevRefFrameNum(h, i).value < m && LeadsTo(RefsAfter(h[..i]), PrevRefFrameNum(h, i).value, m)
  {
    hide GlobalPoc, Add, LeadsTo, Slides;
    if i > 0 {
      RefsLead(h, m, i - 1);
      assert h[..i][..i - 1] == h[..i - 1] && h[..i][i - 1] == h[i - 1] && h[i - 1] in h;
      if h[i - 1].isRef {
        var r := RefOf(h[..i], i - 1);
        if h[i - 1].isIdr || RefsAfter(h[..i - 1]) == [] {
          AddFirst(r, m);
        } else {
          RefsBelow(h[..i - 1], m);
          AddLeads(RefsAfter(h[..i - 1]), PrevRefFrameNum(h, i - 1).value, r, m);
        }
      }
    }
  }

  lemma SlidesEmpty(f: nat, m: nat)
    ensures Slides([], f, MAX_REF_FRAMES, m)
  {}

  /** With 16 reference frames and frame_nums that count up modulo more than 16, the buffer is the sliding window. */
  lemma CountingUpSlides(h: seq<Picture>, m: nat)
    requires NumsBelow(h, m) && m > MAX_REF_FRAMES && CountsUp(h, m)
    ensures forall i :: 0 <= i <= |h| ==> RefsAfter(h[..i]) == Window(h[..i], MAX_REF_FRAMES, m)
  {
    hide RefsAfter, Window, Slides, LeadsTo, Add;
    forall i | 0 <= i < |h|
      ensures SlidesAt(h, i, MAX_REF_FRAMES, m)
    {
      if h[i].isRef && !h[i].isIdr {
        RefsLead(h, m, i);
        if RefsAfter(h[..i]) == [] {
          SlidesEmpty(h[i].frameNum, m);
        } else {
          RefsBelow(h[..i], m);
          AddLeads(RefsAfter(h[..i]), PrevRefFrameNum(h, i).value, RefOf(h, i), m);
        }
      }
    }
    WindowIff(h, MAX_REF_FRAMES, m);
  }

  /** With one reference frame the window holds the second of two pictures, where the buffer holds both. */
  lemma WindowOfOne()
    ensures
      var idr := Picture(true, true, 0, 0, 1, 1, Intra, 0, 16, None);
      var next := Picture(false, true, 1, 2, 1, 1, Predicted, 0, 16, None);
      var h := [idr, next];
      Window(h, 1, 16) == [RefOf(h, 1)] && RefsAfter(h) == [RefOf(h, 1), RefOf([idr], 0)]
  {
    hide GlobalPoc;
    var idr := Picture(true, true, 0, 0, 1, 1, Intra, 0, 16, None);
    var next := Picture(false, true, 1, 2, 1, 1, Predicted, 0, 16, None);
    var h := [idr, next];
    assert h[..1] == [idr] && [idr][..0] == [];
    assert RefsAfter([idr]) == [RefOf([idr], 0)] == Window([idr], 1, 16);
    WithoutNone([RefOf([idr], 0)], 1);
  }

  // List 0 of a P picture

  function FallingPicNum(cur: nat, m: nat): Ref -> int {
    (r: Ref) => -FrameNumWrap(r, cur, m)
  }

  /** The first n0 entries by falling PicNum. */
  ghost predicate StandardPList(refs: seq<Ref>, cur: nat, m: nat, n0: nat, deps: seq<nat>) {
    exists ranked: seq<Ref> ::
      multiset(ranked) == multiset(refs) && SortedBy(FallingPicNum(cur, m), ranked) && deps == Take(Ids(ranked), n0)
  }

  /** Frame_num went round between two entries: one is above cur, and the other is not. */
  predicate Wrapped(refs: seq<Ref>, cur: nat) {
    exists r, s :: r in refs && s in refs && r.frameNum > cur >= s.frameNum
  }

  lemma SameRanking(refs: seq<Ref>, ranked: seq<Ref>, cur: nat, m: nat)
    requires !Wrapped(refs, cur) && multiset(ranked) == multiset(refs) && SortedBy(FallingPicNum(cur, m), ranked)
    ensures SortedBy(FallingFrameNum, ranked)
  {
    SameElements(ranked, refs);
    forall i, j | 0 <= i < j < |ranked|
      ensures FallingFrameNum(ranked[i]) <= FallingFrameNum(ranked[j])
    {
      assert FallingPicNum(cur, m)(ranked[i]) <= FallingPicNum(cur, m)(ranked[j]);
      assert ranked[i] in refs && ranked[j] in refs;
    }
  }

  lemma FirstOf<T>(key: T -> int, xs: seq<T>, x: T)
    requires SortedBy(key, xs) && x in xs
    ensures xs != [] && key(xs[0]) <= key(x) && xs[0] in xs
  {
    var i :| 0 <= i < |xs| && xs[i] == x;
    assert i > 0 ==> key(xs[0]) <= key(xs[i]);
  }

  /** When frame_num went round, the two lists start with different pictures. */
  lemma OtherFirst(refs: seq<Ref>, a: seq<Ref>, b: seq<Ref>, cur: nat, m: nat)
    requires Wrapped(refs, cur) && FrameNumsBelow(refs, m)
    requires multiset(a) == multiset(refs) && SortedBy(FallingFrameNum, a)
    requires multiset(b) == multiset(refs) && SortedBy(FallingPicNum(cur, m), b)
    ensures a != [] && b != [] && a[0].frameNum > cur >= b[0].frameNum
  {
    hide SortedBy;
    SameElements(a, refs);
    SameElements(b, refs);
    var r, s :| r in refs && s in refs && r.frameNum > cur >= s.frameNum;
    FirstOf(FallingFrameNum, a, r);
    FirstOf(FallingPicNum(cur, m), b, s);
  }

  lemma OneId(refs: seq<Ref>, r: Ref, s: Ref)
    requires OnceEach(refs) && r in refs && s in refs
    ensures r.decodeId == s.decodeId ==> r == s
  {
    var i :| 0 <= i < |refs| && refs[i] == r;
    var j :| 0 <= j < |refs| && refs[j] == s;
  }

  /** The list of the analyser is that of the standard exactly when frame_num did not go round within the buffer. */
  lemma PListIsStandardIff(refs: seq<Ref>, cur: nat, m: nat, n0: nat, deps: seq<nat>, standard: seq<nat>)
    requires Distinct(refs) && OnceEach(refs) && FrameNumsBelow(refs, m) && n0 > 0
    requires PList(refs, n0, deps) && StandardPList(refs, cur, m, n0, standard)
    ensures deps == standard <==> !Wrapped(refs, cur)
  {
    hide Wrapped, FrameNumsBelow, SortedBy, Distinct, OnceEach, FallingPicNum;
    var b: seq<Ref> :|
      multiset(b) == multiset(refs) && SortedBy(FallingPicNum(cur, m), b) && standard == Take(Ids(b), n0);
    if Wrapped(refs, cur) {
      var a: seq<Ref> :| multiset(a) == multiset(refs) && SortedBy(FallingFrameNum, a) && deps == Take(Ids(a), n0);
      OtherFirst(refs, a, b, cur, m);
      SameElements(a, refs);
      SameElements(b, refs);
      assert a[0] in a && b[0] in b;
      OneId(refs, a[0], b[0]);
      assert deps[0] == a[0].decodeId && standard[0] == b[0].decodeId;
    } else {
      SameRanking(refs, b, cur, m);
      PListIsOne(refs, n0, deps, standard);
    }
  }

  /** In the buffer of a run: a kept picture has a frame_num above cur, and another has not. */
  predicate WrappedIn(h: seq<Picture>, cur: nat) {
    exists j, k {:trigger Kept(h, j), Kept(h, k)} ::
      0 <= j < |h| && 0 <= k < |h| && Kept(h, j) && Kept(h, k) && h[j].frameNum > cur >= h[k].frameNum
  }

  lemma WrappedMeans(h: seq<Picture>, cur: nat)
    ensures Wrapped(RefsAfter(h), cur) <==> WrappedIn(h, cur)
  {
    hide Kept, GlobalPoc, RefsAfter, Distinct;
    var refs := RefsAfter(h);
    if Wrapped(refs, cur) {
      var r, s :| r in refs && s in refs && r.frameNum > cur >= s.frameNum;
      BufferIsLatest(h, r);
      BufferIsLatest(h, s);
      KeptMeans(h, r.decodeId);
      KeptMeans(h, s.decodeId);
    }
    if WrappedIn(h, cur) {
      var j, k :| 0 <= j < |h| && 0 <= k < |h| && Kept(h, j) && Kept(h, k) && h[j].frameNum > cur >= h[k].frameNum;
      BufferIsLatest(h, RefOf(h, j));
      BufferIsLatest(h, RefOf(h, k));
    }
  }

  /**
   In every run, a P picture lists the pictures in the buffer as section 8.2.4.2.1
   orders them exactly when there are no two kept pictures of which one has a
   frame_num above that of the picture and the other has not.
   */
  lemma PDependsAsStandardIff(h: seq<Picture>, i: nat, f: FrameInfo, m: nat, standard: seq<nat>)
    requires i < |h| && Describes(h, i, f) && h[i].kind == Predicted && !h[i].isIdr
    requires NumsBelow(h, m) && h[i].numRefIdxL0 > 0
    requires StandardPList(RefsFor(h, i), h[i].frameNum, m, h[i].numRefIdxL0, standard)
    ensures f.dependencies == standard <==> !WrappedIn(h[..i], h[i].frameNum)
  {
    hide PList, StandardPList, RefsAfter, GlobalPoc, Recency, OnceEach, Wrapped, WrappedIn, Distinct, FrameNumsBelow;
    RefsByAge(h[..i]);
    RefsOnce(RefsAfter(h[..i]));
    RefsBelow(h[..i], m);
    WrappedMeans(h[..i], h[i].frameNum);
    PListIsStandardIff(RefsAfter(h[..i]), h[i].frameNum, m, h[i].numRefIdxL0, f.dependencies, standard);
  }

  lemma StandardPListExists(refs: seq<Ref>, cur: nat, m: nat, n0: nat) returns (standard: seq<nat>)
    ensures StandardPList(refs, cur, m, n0, standard)
  {
    var ranked := CanBeSorted(FallingPicNum(cur, m), refs);
    standard := Take(Ids(ranked), n0);
  }

  /** An IDR picture and 33 reference pictures behind it, with frame_nums that count up modulo 32. */
  function RoundRun(): (h: seq<Picture>)
    ensures |h| == 34
  {
    seq(34, i requires 0 <= i < 34 =>
      Picture(i == 0, true, i % 32, 0, 1, 1, if i == 0 then Intra else Predicted, 0, 16, None))
  }

  lemma {:induction false} RoundCounts(i: nat)
    requires i <= 34
    ensures PrevRefFrameNum(RoundRun(), i) == if i == 0 then None else Some((i - 1) % 32)
  {}

  lemma LeadsHigh(refs: seq<Ref>, r: Ref)
    requires LeadsTo(refs, 0, 32) && |refs| <= MAX_REF_FRAMES && r in refs
    ensures r.frameNum == 0 || r.frameNum > 1
  {
    var k :| 0 <= k < |refs| && refs[k] == r;
  }

  lemma RoundKept()
    ensures
      var h := RoundRun()[..33];
      Kept(h, 31) && Kept(h, 32) && !Kept(h, 0)
  {
    var h := RoundRun()[..33];
    assert h[32].isRef && h[32].frameNum == 0;
    assert LaterNums(h, 32) == {};
    assert 0 in LaterNums(h, 31) && 0 in LaterNums(h, 0);
    assert LaterNums(h, 31) == {0};
  }

  /** What the last of those pictures finds in the buffer: pictures 31 and 32, and no other with frame_num 0 or 1. */
  lemma RoundBuffer(r: Ref)
    ensures
      var h := RoundRun()[..33];
      RefOf(h, 31) in RefsAfter(h) && RefOf(h, 32) in RefsAfter(h) &&
      (r in RefsAfter(h) ==> r.decodeId <= 32 && r == RefOf(h, r.decodeId) && (r.frameNum <= 1 ==> r.decodeId == 32))
  {
    hide GlobalPoc, RefsAfter, LeadsTo;
    var h := RoundRun();
    assert CountsUp(h, 32) by {
      forall i | 0 <= i < |h| && h[i].isRef && !h[i].isIdr && PrevRefFrameNum(h, i).Some?
        ensures h[i].frameNum == Successor(PrevRefFrameNum(h, i).value, 32)
      {
        RoundCounts(i);
      }
    }
    RoundCounts(33);
    RefsLead(h, 32, 33);
    RoundKept();
    BufferIsLatest(h[..33], RefOf(h[..33], 31));
    BufferIsLatest(h[..33], RefOf(h[..33], 32));
    BufferIsLatest(h[..33], r);
    if r in RefsAfter(h[..33]) {
      KeptMeans(h[..33], r.decodeId);
      LeadsHigh(RefsAfter(h[..33]), r);
    }
  }

  /**
   At the turn of frame_num, a P picture with one entry in list 0 names the picture
   with frame_num 31 where the standard names the one before it, with frame_num 0.
   */
  lemma RoundDepends(f: FrameInfo, standard: seq<nat>)
    requires Describes(RoundRun(), 33, f)
    requires StandardPList(RefsFor(RoundRun(), 33), 1, 32, 1, standard)
    ensures f.dependencies == [31] && standard == [32]
  {
    hide RefsAfter, GlobalPoc, SortedBy;
    var refs := RefsAfter(RoundRun()[..33]);
    var a: seq<Ref> :|
      multiset(a) == multiset(refs) && SortedBy(FallingFrameNum, a) && f.dependencies == Take(Ids(a), 1);
    var b: seq<Ref> :|
      multiset(b) == multiset(refs) && SortedBy(FallingPicNum(1, 32), b) && standard == Take(Ids(b), 1);
    var r31, r32 := RefOf(RoundRun()[..33], 31), RefOf(RoundRun()[..33], 32);
    RoundBuffer(r31);
    SameElements(a, refs);
    SameElements(b, refs);
    FirstOf(FallingFrameNum, a, r31);
    FirstOf(FallingPicNum(1, 32), b, r32);
    RoundBuffer(a[0]);
    RoundBuffer(b[0]);
  }

  // List 1 of a B picture

  /** Section 8.2.4.2.3: when list 1 has several entries and is list 0, its first two entries change places. */
  function ListOne(past: seq<Ref>, future: seq<Ref>): (l: seq<nat>)
    ensures |l| == |past| + |future|
  {
    var l := Ids(future) + Ids(past);
    if |l| > 1 && l == Ids(past) + Ids(future) then [l[1], l[0]] + l[2..] else l
  }

  /** The pictures in deps are those of the first n0 entries of list 0 and the first n1 of list 1. */
  ghost predicate Names(deps: seq<nat>, past: seq<Ref>, future: seq<Ref>, n0: nat, n1: nat) {
    forall d :: d in deps <==> d in Take(Ids(past) + Ids(future), n0) || d in Take(ListOne(past, future), n1)
  }

  /** All pictures are on one side, there are several, and each list has one entry. */
  predicate OneSided(p: nat, q: nat, n0: nat, n1: nat) {
    (p == 0 || q == 0) && p + q > 1 && n0 == 1 && n1 == 1
  }

  lemma TwoSided(past: seq<Ref>, future: seq<Ref>)
    requires NoRepeats(Ids(past) + Ids(future)) && past != [] && future != []
    ensures ListOne(past, future) == Ids(future) + Ids(past)
  {
    var l0, l1 := Ids(past) + Ids(future), Ids(future) + Ids(past);
    assert l0[0] != l0[|past|];
    assert l1[0] == l0[|past|];
  }

  lemma SwapKeeps(all: seq<nat>, n: nat, d: nat)
    requires |all| > 1 && n != 1
    ensures d in Take([all[1], all[0]] + all[2..], n) <==> d in Take(all, n)
  {
    var swapped := [all[1], all[0]] + all[2..];
    if n >= 2 {
      var k := if n <= |all| then n else |all|;
      assert Take(all, n) == [all[0], all[1]] + all[2..k];
      assert Take(swapped, n) == [all[1], all[0]] + all[2..k];
    }
  }

  lemma OneSide(all: seq<nat>, n0: nat, n1: nat, d: nat)
    requires NoRepeats(all) && |all| > 1 && n0 > 0 && n1 > 0 && !(n0 == 1 && n1 == 1)
    ensures
      var swapped := [all[1], all[0]] + all[2..];
      d in Take(all, n0) || d in Take(all, n1) <==> d in Take(all, n0) || d in Take(swapped, n1)
  {
    var swapped := [all[1], all[0]] + all[2..];
    if n1 == 1 {
      assert Take(all, n0)[0] == all[0] && Take(all, n0)[1] == all[1];
      assert Take(all, 1) == [all[0]] && Take(swapped, 1) == [all[1]];
    } else {
      SwapKeeps(all, n1, d);
    }
  }

  lemma OneEach(all: seq<nat>)
    requires NoRepeats(all) && |all| > 1
    ensures
      var swapped := [all[1], all[0]] + all[2..];
      all[1] !in Take(all, 1) && all[1] in Take(swapped, 1)
  {
    assert all[0] != all[1];
    var swapped := [all[1], all[0]] + all[2..];
    assert Take(all, 1) == [all[0]] && Take(swapped, 1) == [all[1]];
  }

  lemma BListIsStandardIff(past: seq<Ref>, future: seq<Ref>, n0: nat, n1: nat)
    requires NoRepeats(Ids(past) + Ids(future)) && n0 > 0 && n1 > 0
    ensures Names(Merged(past, future, n0, n1), past, future, n0, n1) <==> !OneSided(|past|, |future|, n0, n1)
  {
    hide Ids, Take, NoRepeats, Minus;
    var l0, l1, deps := Ids(past) + Ids(future), Ids(future) + Ids(past), Merged(past, future, n0, n1);
    MinusIs(Take(l1, n1), Take(l0, n0));
    assert forall d :: d in deps <==> d in Take(l0, n0) || d in Take(l1, n1);
    if past != [] && future != [] {
      TwoSided(past, future);
    } else {
      assert l0 == l1;
      if |l0| > 1 {
        if n0 == 1 && n1 == 1 {
          OneEach(l0);
        } else {
          forall d {:trigger d in deps}
            ensures d in deps <==> d in Take(l0, n0) || d in Take(ListOne(past, future), n1)
          {
            OneSide(l0, n0, n1, d);
          }
        }
      }
    }
  }

  lemma BothOnce(refs: seq<Ref>, poc: int, past: seq<Ref>, future: seq<Ref>)
    requires OnceEach(refs) && Arranged(refs, poc, past, future)
    ensures NoRepeats(Ids(past) + Ids(future))
  {
    hide OnceEach, Ids, NoRepeats;
    assert multiset(past + future) == multiset(refs);
    RearrangedOnce(refs, past + future);
    IdsOf(past + future);
    SwappedIds(past, future);
  }

  /**
   In every run, when the counts in the buffer differ, a B picture depends on the
   pictures that the lists of section 8.2.4.2.3 name, except when the buffer has
   several pictures, all before or all behind it, and each list has one entry.
   */
  lemma BDependsAsStandardIff(h: seq<Picture>, i: nat, f: FrameInfo, past: seq<Ref>, future: seq<Ref>)
    requires i < |h| && Describes(h, i, f) && h[i].kind == Bipredicted && !h[i].isIdr
    requires CountsDifferIn(h[..i]) && h[i].numRefIdxL0 > 0 && h[i].numRefIdxL1 > 0
    requires Arranged(RefsFor(h, i), GlobalPoc(h, i), past, future)
    ensures Names(f.dependencies, past, future, h[i].numRefIdxL0, h[i].numRefIdxL1) <==>
            !OneSided(|past|, |future|, h[i].numRefIdxL0, h[i].numRefIdxL1)
  {
    hide RefsAfter, GlobalPoc, Recency, OnceEach, Arranged, Merged, Names, OneSided, KeysDiffer, CountsDifferIn, Ids;
    hide NoRepeats;
    var refs, poc := RefsAfter(h[..i]), GlobalPoc(h, i);
    RefsByAge(h[..i]);
    RefsOnce(refs);
    KeysInRun(h[..i]);
    var p, q := Arrangement(refs, poc, h[i].numRefIdxL0, h[i].numRefIdxL1, f.dependencies);
    ArrangedIsOne(refs, poc, p, q, past, future);
    BothOnce(refs, poc, past, future);
    BListIsStandardIff(past, future, h[i].numRefIdxL0, h[i].numRefIdxL1);
  }

  const FIRST := Picture(true, true, 0, 0, 1, 1, Intra, 0, 16, None)
  const BEFORE := Picture(false, true, 1, 2, 1, 1, Predicted, 0, 16, None)
  const BEHIND := Picture(false, false, 2, 4, 1, 1, Bipredicted, 0, 16, None)

  lemma OneSidedBuffer()
    ensures
      var h := [FIRST, BEFORE, BEHIND];
      GlobalPoc(h, 2) == 6 && RefsFor(h, 2) == [Ref(1, 1, 4), Ref(0, 0, 2)]
  {
    var h := [FIRST, BEFORE, BEHIND];
    assert h[..0] == [] && h[..1] == [FIRST] && h[..2] == [FIRST, BEFORE] && h[..3] == h;
    assert [FIRST, BEFORE][..1] == [FIRST] && [FIRST][..0] == [];
    GopStep(h, 0);
    GopStep(h, 1);
    GopStep(h, 2);
    GlobalInPrefix(h, 1, 0);
    GlobalInPrefix(h, 2, 1);
    assert RefsAfter([FIRST]) == [Ref(0, 0, 2)];
    WithoutNone([Ref(0, 0, 2)], 1);
  }

  const PAST: seq<Ref> := [Ref(1, 1, 4), Ref(0, 0, 2)]

  lemma ListsOfPast()
    ensures Merged(PAST, [], 1, 1) == [1] && Take(ListOne(PAST, []), 1) == [0]
  {
    var l := Ids(PAST) + Ids([]);
    assert l == Ids([]) + Ids(PAST) == [1, 0];
    assert Take(l, 1) == [1];
    assert [1][..0] == [] && Minus([], [1]) == [];
    assert Minus([1], [1]) == [];
    assert [l[1], l[0]] + l[2..] == [0, 1];
  }

  /**
   A B picture behind two reference pictures, with one entry in each list: the code
   names the latter of them only, where list 1 of the standard has the former.
   */
  lemma OneSidedDepends(f: FrameInfo)
    requires Describes([FIRST, BEFORE, BEHIND], 2, f)
    ensures f.dependencies == [1]
    ensures
      var h := [FIRST, BEFORE, BEHIND];
      Arranged(RefsFor(h, 2), GlobalPoc(h, 2), PAST, []) && Take(ListOne(PAST, []), 1) == [0]
  {
    hide GlobalPoc, RefsAfter, Merged, ListOne, Take, Ids;
    var h := [FIRST, BEFORE, BEHIND];
    OneSidedBuffer();
    assert Arranged(RefsFor(h, 2), GlobalPoc(h, 2), PAST, []);
    var p, q := Arrangement(RefsFor(h, 2), GlobalPoc(h, 2), 1, 1, f.dependencies);
    ArrangedIsOne(RefsFor(h, 2), GlobalPoc(h, 2), p, q, PAST, []);
    ListsOfPast();
  }
}
