/**
 The decoded picture buffer of the dependency analyser: an array in which new
 pictures replace those with their frame_num, or the oldest one, in place. It
 holds the most recent reference pictures, one for each frame_num.
 */
module Dpbs {
  import opened Pocs
  import opened DisplayOrder

  const MAX_REF_FRAMES: nat := 16

  datatype Ref = Ref(frameNum: nat, decodeId: nat, poc: int)

  // The buffer as a list, most recent picture first

  function Without(refs: seq<Ref>, frameNum: nat): seq<Ref> {
    if refs == [] then []
    else if refs[0].frameNum == frameNum then Without(refs[1..], frameNum)
    else [refs[0]] + Without(refs[1..], frameNum)
  }

  function Add(refs: seq<Ref>, r: Ref): seq<Ref> {
    var all := [r] + Without(refs, r.frameNum);
    if |all| > MAX_REF_FRAMES then all[..MAX_REF_FRAMES] else all
  }

  function RefOf(h: seq<Picture>, i: nat): Ref
    requires i < |h|
  {
    Ref(h[i].frameNum, i, GlobalPoc(h, i))
  }

  function RefsAfter(h: seq<Picture>): seq<Ref> {
    if h == [] then [] else
    var n := |h| - 1;
    var refs := if h[n].isIdr then [] else RefsAfter(h[..n]);
    if h[n].isRef then Add(refs, RefOf(h, n)) else refs
  }

  // Which pictures it holds

  /** The frame_nums of the reference pictures behind picture i. */
  function LaterNums(h: seq<Picture>, i: nat): set<nat> {
    set j | i < j < |h| && h[j].isRef :: h[j].frameNum
  }

  predicate NoIdrBehind(h: seq<Picture>, i: nat) {
    forall j :: i < j < |h| ==> !h[j].isIdr
  }

  /**
   Picture i is a reference picture since the last IDR picture, the latest with
   its frame_num, and fewer than 16 other frame_nums came up behind it.
   */
  predicate Kept(h: seq<Picture>, i: nat) {
    i < |h| && h[i].isRef && NoIdrBehind(h, i) && h[i].frameNum !in LaterNums(h, i) &&
    |LaterNums(h, i)| < MAX_REF_FRAMES
  }

  function Nums(refs: seq<Ref>): set<nat> {
    set r | r in refs :: r.frameNum
  }

  predicate Distinct(refs: seq<Ref>) {
    forall j, k :: 0 <= j < k < |refs| ==> refs[j].frameNum != refs[k].frameNum
  }

  lemma LastIsNew(refs: seq<Ref>)
    requires Distinct(refs) && refs != []
    ensures refs[|refs| - 1].frameNum !in Nums(refs[..|refs| - 1])
  {
    forall r | r in refs[..|refs| - 1]
      ensures r.frameNum != refs[|refs| - 1].frameNum
    {
      var j :| 0 <= j < |refs| - 1 && refs[j] == r;
    }
  }

  lemma NoNums()
    ensures Nums([]) == {}
  {}

  lemma NumsOfLast(refs: seq<Ref>)
    requires refs != []
    ensures Nums(refs) == Nums(refs[..|refs| - 1]) + {refs[|refs| - 1].frameNum}
  {
    assert refs == refs[..|refs| - 1] + [refs[|refs| - 1]];
  }

  lemma {:induction false} NumsCount(refs: seq<Ref>)
    requires Distinct(refs)
    ensures |Nums(refs)| == |refs|
  {
    hide Nums;
    assert Nums([]) == {} by { NoNums(); }
    if refs != [] {
      var n := |refs| - 1;
      NumsCount(refs[..n]);
      LastIsNew(refs);
      NumsOfLast(refs);
    }
  }

  lemma {:induction false} WithoutNone(refs: seq<Ref>, f: nat)
    requires forall r <- refs :: r.frameNum != f
    ensures Without(refs, f) == refs
  {
    if refs != [] {
      WithoutNone(refs[1..], f);
    }
  }

  /** Entry k is the only one with frame_num f, and k is the length of the list when there is none. */
  predicate IsPlace(refs: seq<Ref>, f: nat, k: nat) {
    k <= |refs| && (forall j :: 0 <= j < |refs| && j != k ==> refs[j].frameNum != f) &&
    if k < |refs| then refs[k].frameNum == f && Without(refs, f) == refs[..k] + refs[k + 1..]
    else Without(refs, f) == refs
  }

  lemma {:induction false} WithoutIs(refs: seq<Ref>, f: nat) returns (k: nat)
    requires Distinct(refs)
    ensures IsPlace(refs, f, k)
  {
    if refs == [] {
      k := 0;
    } else if refs[0].frameNum == f {
      k := 0;
      WithoutNone(refs[1..], f);
    } else {
      var k' := WithoutIs(refs[1..], f);
      k := k' + 1;
      forall j | 0 <= j < |refs| && j != k
        ensures refs[j].frameNum != f
      {
        if j > 0 {
          assert refs[1..][j - 1] == refs[j];
        }
      }
      if k < |refs| {
        assert [refs[0]] + (refs[1..][..k'] + refs[1..][k' + 1..]) == refs[..k] + refs[k + 1..];
      }
    }
  }

  ghost predicate HoldsAt(h: seq<Picture>, refs: seq<Ref>, k: nat)
    requires k < |refs|
  {
    var i := refs[k].decodeId;
    i < |h| && refs[k] == RefOf(h, i) && h[i].isRef && NoIdrBehind(h, i) && LaterNums(h, i) == Nums(refs[..k])
  }

  /** The list holds the kept pictures and nothing else, each behind as many frame_nums as came up later. */
  ghost predicate Tracks(h: seq<Picture>, refs: seq<Ref>) {
    |refs| <= MAX_REF_FRAMES && Distinct(refs) &&
    (forall k :: 0 <= k < |refs| ==> HoldsAt(h, refs, k)) &&
    (forall i: nat :: Kept(h, i) ==> exists k :: 0 <= k < |refs| && refs[k].decodeId == i)
  }

  lemma LaterStep(h: seq<Picture>, i: nat)
    requires h != [] && i < |h| - 1
    ensures
      var n := |h| - 1;
      LaterNums(h, i) == LaterNums(h[..n], i) + (if h[n].isRef then {h[n].frameNum} else {}) &&
      (NoIdrBehind(h, i) <==> NoIdrBehind(h[..n], i) && !h[n].isIdr)
  {}

  lemma HoldsLater(h: seq<Picture>, refs: seq<Ref>, k: nat)
    requires h != [] && k < |refs| && HoldsAt(h[..|h| - 1], refs, k)
    ensures
      var n := |h| - 1;
      var i := refs[k].decodeId;
      i < n && refs[k] == RefOf(h, i) && h[i].isRef &&
      (NoIdrBehind(h, i) <==> !h[n].isIdr) &&
      LaterNums(h, i) == Nums(refs[..k]) + (if h[n].isRef then {h[n].frameNum} else {})
  {
    hide LaterNums, Nums, GlobalPoc;
    LaterStep(h, refs[k].decodeId);
    GlobalInPrefix(h, |h| - 1, refs[k].decodeId);
  }

  lemma TracksOther(h: seq<Picture>, refs: seq<Ref>)
    requires h != [] && !h[|h| - 1].isRef && !h[|h| - 1].isIdr && Tracks(h[..|h| - 1], refs)
    ensures Tracks(h, refs)
  {
    hide LaterNums, NoIdrBehind, Nums, GlobalPoc, Distinct;
    var n := |h| - 1;
    forall k | 0 <= k < |refs|
      ensures HoldsAt(h, refs, k)
    {
      assert HoldsAt(h[..n], refs, k);
      HoldsLater(h, refs, k);
    }
    forall i: nat | Kept(h, i)
      ensures exists k :: 0 <= k < |refs| && refs[k].decodeId == i
    {
      LaterStep(h, i);
      assert Kept(h[..n], i);
    }
  }

  lemma TracksIdr(h: seq<Picture>)
    requires h != [] && h[|h| - 1].isIdr
    ensures
      var n := |h| - 1;
      Tracks(h, if h[n].isRef then Add([], RefOf(h, n)) else [])
  {
    hide GlobalPoc;
    var n := |h| - 1;
    var refs := if h[n].isRef then Add([], RefOf(h, n)) else [];
    assert h[n].isRef ==> refs == [RefOf(h, n)];
    assert LaterNums(h, n) == {};
    assert forall i: nat :: Kept(h, i) ==> i == n;
    if h[n].isRef {
      assert refs[..0] == [];
      assert HoldsAt(h, refs, 0);
      assert refs[0].decodeId == n;
    }
  }

  /** Where the entries go when one is added: those before an entry with the same frame_num move one place. */
  lemma AddIs(refs: seq<Ref>, r: Ref, k: nat)
    requires Distinct(refs) && |refs| <= MAX_REF_FRAMES && IsPlace(refs, r.frameNum, k)
    ensures |Add(refs, r)| == if k < |refs| then |refs| else if |refs| < MAX_REF_FRAMES then |refs| + 1 else |refs|
    ensures Add(refs, r)[0] == r
    ensures forall j {:trigger Add(refs, r)[j]} ::
              0 < j < |Add(refs, r)| ==> Add(refs, r)[j] == if j <= k then refs[j - 1] else refs[j]
    ensures Distinct(Add(refs, r))
  {}

  /** The frame_nums in front of a place in the longer list. */
  lemma AddNums(refs: seq<Ref>, r: Ref, k: nat, j: nat)
    requires Distinct(refs) && |refs| <= MAX_REF_FRAMES && 0 < j < |Add(refs, r)| && IsPlace(refs, r.frameNum, k)
    ensures (if j <= k then j - 1 else j) <= |refs|
    ensures Nums(Add(refs, r)[..j]) == {r.frameNum} + Nums(refs[..if j <= k then j - 1 else j])
  {
    var all := [r] + Without(refs, r.frameNum);
    assert Add(refs, r)[..j] == all[..j];
    if j <= k {
      assert all[..j] == [r] + refs[..j - 1];
    } else {
      assert all[..j] == [r] + (refs[..k] + refs[k + 1..j]);
      assert refs[..j] == refs[..k] + [refs[k]] + refs[k + 1..j];
    }
  }

  lemma Grows(s: set<nat>, f: nat)
    ensures |s| <= |s + {f}|
    ensures f !in s ==> |s + {f}| == |s| + 1
  {
    if f in s {
      assert s + {f} == s;
    }
  }

  lemma DistinctPrefix(refs: seq<Ref>, m: nat)
    requires Distinct(refs) && m <= |refs|
    ensures Distinct(refs[..m])
  {}

  /** A kept picture was kept before, and its place in front of the buffer's end stays free. */
  lemma KeptBefore(h: seq<Picture>, refs: seq<Ref>, i: nat) returns (m: nat)
    requires h != [] && Tracks(h[..|h| - 1], refs) && Kept(h, i) && i < |h| - 1
    ensures m < |refs| && refs[m].decodeId == i
    ensures h[|h| - 1].isRef ==> refs[m].frameNum != h[|h| - 1].frameNum
    ensures h[|h| - 1].isRef && h[|h| - 1].frameNum !in Nums(refs[..m]) ==> m + 1 < MAX_REF_FRAMES
  {
    hide LaterNums, NoIdrBehind, Nums, GlobalPoc;
    var n := |h| - 1;
    var f := h[n].frameNum;
    LaterStep(h, i);
    Grows(LaterNums(h[..n], i), f);
    assert Kept(h[..n], i);
    m :| 0 <= m < |refs| && refs[m].decodeId == i;
    assert HoldsAt(h[..n], refs, m);
    HoldsLater(h, refs, m);
    assert Distinct(refs[..m]) by { DistinctPrefix(refs, m); }
    NumsCount(refs[..m]);
  }

  lemma NotInFront(refs: seq<Ref>, f: nat, k: nat, m: nat)
    requires IsPlace(refs, f, k) && m <= k
    ensures f !in Nums(refs[..m])
  {}

  lemma PlaceFits(refs: seq<Ref>, f: nat, k: nat)
    requires IsPlace(refs, f, k)
    ensures k <= |refs| && (k < |refs| ==> refs[k].frameNum == f)
  {}

  lemma LastHolds(h: seq<Picture>, refs: seq<Ref>)
    requires h != [] && h[|h| - 1].isRef && refs != [] && refs[0] == RefOf(h, |h| - 1)
    ensures HoldsAt(h, refs, 0)
  {
    hide GlobalPoc;
    assert refs[..0] == [];
    assert LaterNums(h, |h| - 1) == {};
  }

  lemma TracksRef(h: seq<Picture>, refs: seq<Ref>)
    requires h != [] && h[|h| - 1].isRef && !h[|h| - 1].isIdr && Tracks(h[..|h| - 1], refs)
    ensures Tracks(h, Add(refs, RefOf(h, |h| - 1)))
  {
    hide LaterNums, NoIdrBehind, Nums, GlobalPoc, IsPlace, Add;
    var n := |h| - 1;
    var r := RefOf(h, n);
    var added := Add(refs, r);
    var k := WithoutIs(refs, r.frameNum);
    AddIs(refs, r, k);
    assert k <= |refs| by { PlaceFits(refs, r.frameNum, k); }
    forall j | 0 <= j < |added|
      ensures HoldsAt(h, added, j)
    {
      if j == 0 {
        LastHolds(h, added);
      } else {
        var m := if j <= k then j - 1 else j;
        assert HoldsAt(h[..n], refs, m);
        HoldsLater(h, refs, m);
        AddNums(refs, r, k, j);
      }
    }
    forall i: nat | Kept(h, i)
      ensures exists j :: 0 <= j < |added| && added[j].decodeId == i
    {
      if i == n {
        assert added[0].decodeId == i;
      } else {
        var m := KeptBefore(h, refs, i);
        assert m != k by { PlaceFits(refs, r.frameNum, k); }
        if m < k {
          NotInFront(refs, r.frameNum, k, m);
          assert added[m + 1].decodeId == i;
        } else {
          assert added[m].decodeId == i;
        }
      }
    }
  }

  lemma NothingTracked(h: seq<Picture>)
    requires h == []
    ensures Tracks(h, [])
  {}

  /** After every run the list tracks the pictures of the run. */
  lemma {:induction false} RefsTrack(h: seq<Picture>)
    ensures Tracks(h, RefsAfter(h))
  {
    hide Tracks, Add;
    if h == [] {
      NothingTracked(h);
    } else {
      var n := |h| - 1;
      RefsTrack(h[..n]);
      if h[n].isIdr {
        TracksIdr(h);
      } else if h[n].isRef {
        TracksRef(h, RefsAfter(h[..n]));
      } else {
        TracksOther(h, RefsAfter(h[..n]));
      }
    }
  }

  /**
   After every run the buffer holds exactly one entry, with its number and its
   order count, for each of the at most 16 latest frame_nums among the reference
   pictures since the last IDR picture: that of the latest picture that had it.
   */
  lemma BufferIsLatest(h: seq<Picture>, r: Ref)
    ensures r in RefsAfter(h) <==> Kept(h, r.decodeId) && r == RefOf(h, r.decodeId)
    ensures |RefsAfter(h)| <= MAX_REF_FRAMES && Distinct(RefsAfter(h))
  {
    hide LaterNums, NoIdrBehind, GlobalPoc;
    RefsTrack(h);
    var refs := RefsAfter(h);
    if r in refs {
      var k :| 0 <= k < |refs| && refs[k] == r;
      assert HoldsAt(h, refs, k);
      DistinctPrefix(refs, k);
      NumsCount(refs[..k]);
    }
    if Kept(h, r.decodeId) {
      var k :| 0 <= k < |refs| && refs[k].decodeId == r.decodeId;
      assert HoldsAt(h, refs, k);
    }
  }

  // The buffer as an array

  predicate Recency(refs: seq<Ref>) {
    forall j, k :: 0 <= j < k < |refs| ==> refs[j].decodeId > refs[k].decodeId
  }

  lemma {:induction false} WithoutKeepsRecency(refs: seq<Ref>, f: nat, bound: nat)
    requires Recency(refs) && forall e <- refs :: e.decodeId < bound
    ensures Recency(Without(refs, f)) && forall e <- Without(refs, f) :: e.decodeId < bound
  {
    if refs != [] {
      forall e | e in refs[1..]
        ensures e.decodeId < refs[0].decodeId
      {}
      WithoutKeepsRecency(refs[1..], f, refs[0].decodeId);
      assert refs[0] in refs;
    }
  }

  lemma AddKeepsRecency(refs: seq<Ref>, r: Ref)
    requires Recency(refs) && forall e <- refs :: e.decodeId < r.decodeId
    ensures Recency(Add(refs, r)) && forall e <- Add(refs, r) :: e.decodeId <= r.decodeId
  {
    hide Without;
    WithoutKeepsRecency(refs, r.frameNum, r.decodeId);
    var rest := Without(refs, r.frameNum);
    assert forall j :: 0 <= j < |rest| ==> rest[j] in rest;
  }

  /** The list is in order of age. */
  lemma {:induction false} RefsByAge(h: seq<Picture>)
    ensures Recency(RefsAfter(h)) && forall e <- RefsAfter(h) :: e.decodeId < |h|
  {
    hide Add;
    if h != [] {
      var n := |h| - 1;
      RefsByAge(h[..n]);
      var refs := if h[n].isIdr then [] else RefsAfter(h[..n]);
      AddKeepsRecency(refs, RefOf(h, n));
    }
  }

  lemma InSome(a: seq<Ref>, refs: seq<Ref>, i: nat) returns (k: nat)
    requires multiset(a) == multiset(refs) && i < |a|
    ensures k < |refs| && refs[k] == a[i]
  {
    assert a[i] in multiset(refs);
    k :| 0 <= k < |refs| && refs[k] == a[i];
  }

  lemma SizesAgree(a: seq<Ref>, refs: seq<Ref>)
    requires multiset(a) == multiset(refs)
    ensures |a| == |refs|
  {
    assert |multiset(a)| == |a| && |multiset(refs)| == |refs|;
  }

  /** Overwriting the entry with the same frame_num. */
  lemma Replaced(a: seq<Ref>, refs: seq<Ref>, i: nat, r: Ref)
    requires multiset(a) == multiset(refs) && Distinct(refs) && |refs| <= MAX_REF_FRAMES
    requires i < |a| && a[i].frameNum == r.frameNum
    ensures multiset(a[i := r]) == multiset(Add(refs, r))
  {
    var k := WithoutIs(refs, r.frameNum);
    var j := InSome(a, refs, i);
    assert j == k;
    SizesAgree(a, refs);
    assert Add(refs, r) == [r] + (refs[..k] + refs[k + 1..]);
    assert refs == refs[..k] + [refs[k]] + refs[k + 1..];
    assert a == a[..i] + [a[i]] + a[i + 1..];
    assert a[i := r] == a[..i] + [r] + a[i + 1..];
  }

  lemma NoneSame(a: seq<Ref>, refs: seq<Ref>, f: nat)
    requires multiset(a) == multiset(refs) && forall j :: 0 <= j < |a| ==> a[j].frameNum != f
    ensures forall e <- refs :: e.frameNum != f
  {
    forall e | e in refs
      ensures e.frameNum != f
    {
      assert e in multiset(a);
    }
  }

  /** Appending while there is room. */
  lemma Appended(a: seq<Ref>, refs: seq<Ref>, r: Ref)
    requires multiset(a) == multiset(refs) && |a| < MAX_REF_FRAMES && forall e <- refs :: e.frameNum != r.frameNum
    ensures multiset(a + [r]) == multiset(Add(refs, r))
  {
    WithoutNone(refs, r.frameNum);
    SizesAgree(a, refs);
    assert Add(refs, r) == [r] + refs;
  }

  lemma SwappedOut(a: seq<Ref>, m: nat)
    requires m < |a|
    ensures multiset(a[m := a[|a| - 1]][..|a| - 1]) == multiset(a) - multiset{a[m]}
  {
    var n := |a| - 1;
    if m == n {
      assert a == a[..n] + [a[n]];
      assert a[m := a[n]][..n] == a[..n];
    } else {
      assert a == a[..m] + [a[m]] + a[m + 1..n] + [a[n]];
      assert a[m := a[n]][..n] == a[..m] + [a[n]] + a[m + 1..n];
    }
  }

  lemma OldestIsLast(a: seq<Ref>, refs: seq<Ref>, m: nat)
    requires multiset(a) == multiset(refs) && Recency(refs)
    requires m < |a| && forall j :: 0 <= j < |a| ==> a[m].decodeId <= a[j].decodeId
    ensures |refs| == |a| && a[m] == refs[|a| - 1]
  {
    SizesAgree(a, refs);
    var k := InSome(a, refs, m);
    var j := InSome(refs, a, |a| - 1);
  }

  lemma WithoutLast(refs: seq<Ref>)
    requires refs != []
    ensures multiset(refs[..|refs| - 1]) == multiset(refs) - multiset{refs[|refs| - 1]}
  {
    var front, last := refs[..|refs| - 1], refs[|refs| - 1];
    assert refs == front + [last];
    assert multiset(refs) == multiset(front) + multiset{last};
  }

  /** Overwriting the oldest entry by the last one leaves all but the oldest. */
  lemma Evicted(a: seq<Ref>, refs: seq<Ref>, m: nat)
    requires multiset(a) == multiset(refs) && Recency(refs)
    requires m < |a| && forall j :: 0 <= j < |a| ==> a[m].decodeId <= a[j].decodeId
    ensures |refs| == |a| && multiset(a[m := a[|a| - 1]][..|a| - 1]) == multiset(refs[..|a| - 1])
  {
    hide Recency;
    OldestIsLast(a, refs, m);
    SwappedOut(a, m);
    WithoutLast(refs);
  }

  lemma AddToFull(refs: seq<Ref>, r: Ref)
    requires |refs| == MAX_REF_FRAMES && Without(refs, r.frameNum) == refs
    ensures Add(refs, r) == [r] + refs[..|refs| - 1]
  {
    hide Without;
    var all := [r] + refs;
    assert all[..MAX_REF_FRAMES] == [r] + refs[..MAX_REF_FRAMES - 1];
  }

  /** Appending behind the rest of a full buffer. */
  lemma AppendedToRest(kept: seq<Ref>, refs: seq<Ref>, r: Ref)
    requires |refs| == MAX_REF_FRAMES && multiset(kept) == multiset(refs[..|refs| - 1])
    requires forall e <- refs :: e.frameNum != r.frameNum
    ensures multiset(kept + [r]) == multiset(Add(refs, r))
  {
    WithoutNone(refs, r.frameNum);
    AddToFull(refs, r);
  }
}
