/** The pictures that a P or B picture may depend on, as the dependency analyser lists them. */
module RefLists {
  import opened BitSyntax
  import opened Pocs
  import opened DisplayOrder
  import opened Dpbs
  import opened Sorting

  function Ids(refs: seq<Ref>): (ids: seq<nat>)
    ensures |ids| == |refs|
  {
    seq(|refs|, i requires 0 <= i < |refs| => refs[i].decodeId)
  }

  // The keys of the three comparison functions

  function FallingFrameNum(r: Ref): int {
    0 - r.frameNum
  }

  function FallingPoc(r: Ref): int {
    -r.poc
  }

  function RisingPoc(r: Ref): int {
    r.poc
  }

  /** A P picture depends on the first entries by falling frame_num. */
  ghost predicate PList(refs: seq<Ref>, n0: nat, deps: seq<nat>) {
    exists ranked: seq<Ref> ::
      multiset(ranked) == multiset(refs) && SortedBy(FallingFrameNum, ranked) && deps == Take(Ids(ranked), n0)
  }

  /** The members of xs that are not in ids, in order. */
  function Minus(xs: seq<nat>, ids: seq<nat>): seq<nat> {
    if xs == [] then [] else Minus(xs[..|xs| - 1], ids) + (if xs[|xs| - 1] in ids then [] else [xs[|xs| - 1]])
  }

  /** The entries before the count poc by falling count, and the others by rising count. */
  ghost predicate Arranged(refs: seq<Ref>, poc: int, past: seq<Ref>, future: seq<Ref>) {
    multiset(past) + multiset(future) == multiset(refs) &&
    (forall r <- past :: r.poc < poc) && (forall r <- future :: r.poc >= poc) &&
    SortedBy(FallingPoc, past) && SortedBy(RisingPoc, future)
  }

  /** The first n0 of past and future, and what is new among the first n1 of future and past. */
  function Merged(past: seq<Ref>, future: seq<Ref>, n0: nat, n1: nat): seq<nat> {
    var l0 := Take(Ids(past) + Ids(future), n0);
    l0 + Minus(Take(Ids(future) + Ids(past), n1), l0)
  }

  ghost predicate BList(refs: seq<Ref>, poc: int, n0: nat, n1: nat, deps: seq<nat>) {
    exists past, future :: Arranged(refs, poc, past, future) && deps == Merged(past, future, n0, n1)
  }

  predicate NoRepeats(ids: seq<nat>) {
    forall i, j :: 0 <= i < j < |ids| ==> ids[i] != ids[j]
  }

  /** No picture is in the list twice. */
  ghost predicate OnceEach(refs: seq<Ref>) {
    KeysDiffer((r: Ref) => r.decodeId, refs)
  }

  // Facts about the lists

  predicate AllIn(deps: seq<nat>, refs: seq<Ref>) {
    forall d <- deps :: exists r :: r in refs && r.decodeId == d
  }

  function Members(ids: seq<nat>): set<nat> {
    set d | d in ids
  }

  lemma {:induction false} MembersCount(ids: seq<nat>)
    ensures |Members(ids)| <= |ids|
    ensures NoRepeats(ids) ==> |Members(ids)| == |ids|
  {
    if ids != [] {
      var n := |ids| - 1;
      MembersCount(ids[..n]);
      assert ids == ids[..n] + [ids[n]];
      assert Members(ids) == Members(ids[..n]) + {ids[n]};
      assert NoRepeats(ids) ==> ids[n] !in ids[..n];
    }
  }

  lemma Subset(a: set<nat>, b: set<nat>)
    requires a <= b
    ensures |a| <= |b|
  {
    assert b == a + (b - a);
  }

  lemma NotMore(deps: seq<nat>, ids: seq<nat>)
    requires NoRepeats(deps) && forall d <- deps :: d in ids
    ensures |deps| <= |ids|
  {
    MembersCount(deps);
    MembersCount(ids);
    Subset(Members(deps), Members(ids));
  }

  lemma IdsOf(refs: seq<Ref>)
    requires OnceEach(refs)
    ensures NoRepeats(Ids(refs)) && AllIn(Ids(refs), refs)
  {
    forall d | d in Ids(refs)
      ensures exists r :: r in refs && r.decodeId == d
    {
      var i :| 0 <= i < |refs| && Ids(refs)[i] == d;
      assert refs[i] in refs;
    }
  }

  lemma RearrangedOnce(refs: seq<Ref>, xs: seq<Ref>)
    requires OnceEach(refs) && multiset(xs) == multiset(refs)
    ensures OnceEach(xs)
  {
    RearrangedKeys((r: Ref) => r.decodeId, refs, xs);
  }

  lemma {:induction false} MinusIs(xs: seq<nat>, ids: seq<nat>)
    ensures forall x :: x in Minus(xs, ids) <==> x in xs && x !in ids
    ensures NoRepeats(xs) ==> NoRepeats(Minus(xs, ids))
  {
    if xs != [] {
      var n := |xs| - 1;
      MinusIs(xs[..n], ids);
      assert xs == xs[..n] + [xs[n]];
    }
  }

  /** A P picture names no picture twice, and only pictures in the buffer. */
  lemma PListIsClean(refs: seq<Ref>, n0: nat, deps: seq<nat>)
    requires OnceEach(refs) && PList(refs, n0, deps)
    ensures NoRepeats(deps) && AllIn(deps, refs) && |deps| == |Take(refs, n0)|
  {
    var a: seq<Ref> :| multiset(a) == multiset(refs) && SortedBy(FallingFrameNum, a) && deps == Take(Ids(a), n0);
    SameElements(a, refs);
    RearrangedOnce(refs, a);
    IdsOf(a);
  }

  lemma JoinedOnce(a: seq<nat>, b: seq<nat>)
    requires NoRepeats(a) && NoRepeats(b) && forall d <- b :: d !in a
    ensures NoRepeats(a + b)
  {
    forall i, j | 0 <= i < j < |a + b|
      ensures (a + b)[i] != (a + b)[j]
    {
      if i < |a| && |a| <= j {
        assert b[j - |a|] in b && a[i] in a;
      }
    }
  }

  lemma MergedIsClean(x0: seq<nat>, x1: seq<nat>, n0: nat, n1: nat)
    requires NoRepeats(x0) && NoRepeats(x1) && forall d <- x1 :: d in x0
    ensures
      var l0 := Take(x0, n0);
      var deps := l0 + Minus(Take(x1, n1), l0);
      NoRepeats(deps) && (forall d <- deps :: d in x0) && |l0| <= |deps| <= |x0|
  {
    var l0, l1 := Take(x0, n0), Take(x1, n1);
    MinusIs(l1, l0);
    JoinedOnce(l0, Minus(l1, l0));
    NotMore(l0 + Minus(l1, l0), x0);
  }

  lemma AllInOther(refs: seq<Ref>, xs: seq<Ref>, deps: seq<nat>)
    requires multiset(refs) == multiset(xs) && forall d <- deps :: d in Ids(xs)
    ensures AllIn(deps, refs)
  {
    SameElements(xs, refs);
    forall d | d in deps
      ensures exists r :: r in refs && r.decodeId == d
    {
      assert d in Ids(xs);
      var i :| 0 <= i < |xs| && Ids(xs)[i] == d;
      assert xs[i] in xs;
    }
  }

  lemma SwappedIds(past: seq<Ref>, future: seq<Ref>)
    ensures Ids(past) + Ids(future) == Ids(past + future)
    ensures Ids(future) + Ids(past) == Ids(future + past)
    ensures forall d <- Ids(future + past) :: d in Ids(past + future)
  {
    forall d | d in Ids(future) + Ids(past)
      ensures d in Ids(past) + Ids(future)
    {}
  }

  /** A B picture names no picture twice, and only pictures in the buffer. */
  lemma BListIsClean(refs: seq<Ref>, poc: int, past: seq<Ref>, future: seq<Ref>, n0: nat, n1: nat)
    requires OnceEach(refs) && Arranged(refs, poc, past, future)
    ensures
      var deps := Merged(past, future, n0, n1);
      NoRepeats(deps) && AllIn(deps, refs) && |Take(refs, n0)| <= |deps| <= |refs|
  {
    hide OnceEach, NoRepeats, AllIn, Ids, Minus;
    var all, other := past + future, future + past;
    assert multiset(all) == multiset(refs) && multiset(other) == multiset(refs);
    SameElements(all, refs);
    RearrangedOnce(refs, all);
    RearrangedOnce(refs, other);
    IdsOf(all);
    IdsOf(other);
    SwappedIds(past, future);
    MergedIsClean(Ids(all), Ids(other), n0, n1);
    AllInOther(refs, all, Merged(past, future, n0, n1));
  }

  // The lists are determined where the sort keys differ

  /** Frame_nums differ in the buffer, so that there is one list for a P picture. */
  lemma PListIsOne(refs: seq<Ref>, n0: nat, deps: seq<nat>, deps': seq<nat>)
    requires Distinct(refs) && PList(refs, n0, deps) && PList(refs, n0, deps')
    ensures deps == deps'
  {
    var a: seq<Ref> :| multiset(a) == multiset(refs) && SortedBy(FallingFrameNum, a) && deps == Take(Ids(a), n0);
    var b: seq<Ref> :| multiset(b) == multiset(refs) && SortedBy(FallingFrameNum, b) && deps' == Take(Ids(b), n0);
    RearrangedKeys(FallingFrameNum, refs, a);
    OneOrder(FallingFrameNum, a, b);
  }

  lemma PastIsFixed(refs: seq<Ref>, poc: int, past: seq<Ref>, future: seq<Ref>, r: Ref)
    requires Arranged(refs, poc, past, future)
    ensures multiset(past)[r] == if r.poc < poc then multiset(refs)[r] else 0
    ensures multiset(future)[r] == if r.poc < poc then 0 else multiset(refs)[r]
  {
    assert r in multiset(past) <==> r in past;
    assert r in multiset(future) <==> r in future;
    assert (multiset(past) + multiset(future))[r] == multiset(past)[r] + multiset(future)[r];
  }

  lemma PartKeys(refs: seq<Ref>, poc: int, past: seq<Ref>, future: seq<Ref>)
    requires Arranged(refs, poc, past, future) && KeysDiffer(RisingPoc, refs)
    ensures KeysDiffer(FallingPoc, past) && KeysDiffer(RisingPoc, future)
  {
    var all := past + future;
    assert multiset(all) == multiset(refs);
    RearrangedKeys(RisingPoc, refs, all);
    forall i, j | 0 <= i < j < |past|
      ensures FallingPoc(past[i]) != FallingPoc(past[j])
    {
      assert all[i] == past[i] && all[j] == past[j];
    }
    forall i, j | 0 <= i < j < |future|
      ensures RisingPoc(future[i]) != RisingPoc(future[j])
    {
      assert all[|past| + i] == future[i] && all[|past| + j] == future[j];
    }
  }

  /** When the order counts in the buffer differ, there is one arrangement, and with it one list for a B picture. */
  lemma ArrangedIsOne(refs: seq<Ref>, poc: int, p: seq<Ref>, f: seq<Ref>, p': seq<Ref>, f': seq<Ref>)
    requires KeysDiffer(RisingPoc, refs) && Arranged(refs, poc, p, f) && Arranged(refs, poc, p', f')
    ensures p == p' && f == f'
  {
    forall r: Ref
      ensures multiset(p)[r] == multiset(p')[r] && multiset(f)[r] == multiset(f')[r]
    {
      PastIsFixed(refs, poc, p, f, r);
      PastIsFixed(refs, poc, p', f', r);
    }
    assert multiset(p) == multiset(p') && multiset(f) == multiset(f');
    PartKeys(refs, poc, p, f);
    OneOrder(FallingPoc, p, p');
    OneOrder(RisingPoc, f, f');
  }

  // Which pictures are in the lists

  /** The entries of xs that an order puts in front of r. */
  function Ahead(less: (Ref, Ref) -> bool, xs: seq<Ref>, r: Ref): set<Ref> {
    set s | s in xs && less(s, r)
  }

  ghost predicate Ordered(less: (Ref, Ref) -> bool, xs: seq<Ref>) {
    (forall i, j {:trigger xs[i], xs[j]} :: 0 <= i < j < |xs| ==> less(xs[i], xs[j]) && !less(xs[j], xs[i])) &&
    forall i :: 0 <= i < |xs| ==> !less(xs[i], xs[i])
  }

  lemma {:induction false} DifferentCount(xs: seq<Ref>, k: nat)
    requires k <= |xs| && forall i, j :: 0 <= i < j < |xs| ==> xs[i] != xs[j]
    ensures |set s | s in xs[..k]| == k
  {
    if k > 0 {
      DifferentCount(xs, k - 1);
      var front, more := xs[..k - 1], xs[..k];
      assert more == front + [xs[k - 1]];
      assert (set s | s in more) == (set s | s in front) + {xs[k - 1]};
    } else {
      assert (set s | s in xs[..0]) == {};
    }
  }

  /** In an ordered list as many entries are ahead of an entry as stand before it. */
  lemma AheadCount(less: (Ref, Ref) -> bool, xs: seq<Ref>, k: nat)
    requires Ordered(less, xs) && k < |xs|
    ensures |Ahead(less, xs, xs[k])| == k
  {
    assert forall i, j :: 0 <= i < j < |xs| ==> xs[i] != xs[j];
    DifferentCount(xs, k);
    forall s
      ensures s in Ahead(less, xs, xs[k]) <==> s in xs[..k]
    {
      if s in xs {
        var i :| 0 <= i < |xs| && xs[i] == s;
      }
    }
    assert Ahead(less, xs, xs[k]) == set s | s in xs[..k];
  }

  /** The first n of an ordered list are those with fewer than n others ahead. */
  lemma TakenAreAhead(less: (Ref, Ref) -> bool, refs: seq<Ref>, xs: seq<Ref>, n: nat, r: Ref)
    requires OnceEach(refs) && multiset(xs) == multiset(refs) && Ordered(less, xs) && r in refs
    ensures r.decodeId in Take(Ids(xs), n) <==> |Ahead(less, refs, r)| < n
  {
    SameElements(xs, refs);
    RearrangedOnce(refs, xs);
    IdsOf(xs);
    var k :| 0 <= k < |xs| && xs[k] == r;
    AheadCount(less, xs, k);
    assert Ahead(less, xs, r) == Ahead(less, refs, r);
    assert Ids(xs)[k] == r.decodeId;
    if k < n {
      assert Take(Ids(xs), n)[k] == r.decodeId;
    }
    if r.decodeId in Take(Ids(xs), n) {
      var j :| 0 <= j < |Take(Ids(xs), n)| && Take(Ids(xs), n)[j] == r.decodeId;
      assert Ids(xs)[j] == r.decodeId;
    }
  }

  /** And they stand in that order. */
  lemma TakenInOrder(less: (Ref, Ref) -> bool, refs: seq<Ref>, xs: seq<Ref>, n: nat, i: nat, j: nat, r: Ref, s: Ref)
    requires OnceEach(refs) && multiset(xs) == multiset(refs) && Ordered(less, xs) && r in refs && s in refs
    requires i < j < |Take(Ids(xs), n)| && Take(Ids(xs), n)[i] == r.decodeId && Take(Ids(xs), n)[j] == s.decodeId
    ensures less(r, s)
  {
    SameElements(xs, refs);
    RearrangedOnce(refs, xs);
    IdsOf(xs);
    var a :| 0 <= a < |xs| && xs[a] == r;
    var b :| 0 <= b < |xs| && xs[b] == s;
    assert Ids(xs)[a] == Ids(xs)[i] && Ids(xs)[b] == Ids(xs)[j];
  }

  predicate HigherFrameNum(s: Ref, r: Ref) {
    s.frameNum > r.frameNum
  }

  lemma FallingIsOrdered(refs: seq<Ref>, xs: seq<Ref>)
    requires Distinct(refs) && multiset(xs) == multiset(refs) && SortedBy(FallingFrameNum, xs)
    ensures Ordered(HigherFrameNum, xs)
  {
    RearrangedKeys(FallingFrameNum, refs, xs);
    forall i, j | 0 <= i < j < |xs|
      ensures HigherFrameNum(xs[i], xs[j]) && !HigherFrameNum(xs[j], xs[i])
    {
      assert FallingFrameNum(xs[i]) <= FallingFrameNum(xs[j]) && FallingFrameNum(xs[i]) != FallingFrameNum(xs[j]);
    }
  }

  /**
   A P picture depends on the pictures for which fewer than n0 others have a
   higher frame_num, and names them by falling frame_num.
   */
  lemma PListMembers(refs: seq<Ref>, n0: nat, deps: seq<nat>, r: Ref)
    requires Distinct(refs) && OnceEach(refs) && PList(refs, n0, deps) && r in refs
    ensures r.decodeId in deps <==> |Ahead(HigherFrameNum, refs, r)| < n0
    ensures forall i, j, s {:trigger deps[i], deps[j], s in refs} ::
              0 <= i < j < |deps| && s in refs && deps[i] == r.decodeId && deps[j] == s.decodeId ==>
                HigherFrameNum(r, s)
  {
    hide OnceEach, Ordered, SortedBy, Ahead, Distinct, HigherFrameNum, Ids;
    var a: seq<Ref> :| multiset(a) == multiset(refs) && SortedBy(FallingFrameNum, a) && deps == Take(Ids(a), n0);
    FallingIsOrdered(refs, a);
    TakenAreAhead(HigherFrameNum, refs, a, n0, r);
    forall i, j, s | 0 <= i < j < |deps| && s in refs && deps[i] == r.decodeId && deps[j] == s.decodeId
      ensures HigherFrameNum(r, s)
    {
      TakenInOrder(HigherFrameNum, refs, a, n0, i, j, r, s);
    }
  }

  /** In list 0 the past comes first, the nearest in front; then the future, the nearest in front. */
  function FirstInL0(poc: int): (Ref, Ref) -> bool {
    (s: Ref, r: Ref) => if r.poc < poc then r.poc < s.poc < poc else s.poc < poc || s.poc < r.poc
  }

  /** In list 1 it is the other way round. */
  function FirstInL1(poc: int): (Ref, Ref) -> bool {
    (s: Ref, r: Ref) => if r.poc >= poc then poc <= s.poc < r.poc else s.poc >= poc || s.poc > r.poc
  }

  lemma PartsOrdered(refs: seq<Ref>, poc: int, past: seq<Ref>, future: seq<Ref>)
    requires Arranged(refs, poc, past, future) && KeysDiffer(RisingPoc, refs)
    ensures forall i, j {:trigger past[i], past[j]} :: 0 <= i < j < |past| ==> past[j].poc < past[i].poc
    ensures forall i, j {:trigger future[i], future[j]} :: 0 <= i < j < |future| ==> future[i].poc < future[j].poc
    ensures forall i :: 0 <= i < |past| ==> past[i].poc < poc
    ensures forall i :: 0 <= i < |future| ==> future[i].poc >= poc
  {
    PartKeys(refs, poc, past, future);
    forall i, j | 0 <= i < j < |past|
      ensures past[j].poc < past[i].poc
    {
      assert FallingPoc(past[i]) <= FallingPoc(past[j]) && FallingPoc(past[i]) != FallingPoc(past[j]);
    }
    forall i, j | 0 <= i < j < |future|
      ensures future[i].poc < future[j].poc
    {
      assert RisingPoc(future[i]) <= RisingPoc(future[j]) && RisingPoc(future[i]) != RisingPoc(future[j]);
    }
    forall i | 0 <= i < |past| ensures past[i].poc < poc { assert past[i] in past; }
    forall i | 0 <= i < |future| ensures future[i].poc >= poc { assert future[i] in future; }
  }

  lemma BothOrdered(refs: seq<Ref>, poc: int, past: seq<Ref>, future: seq<Ref>)
    requires Arranged(refs, poc, past, future) && KeysDiffer(RisingPoc, refs)
    ensures Ordered(FirstInL0(poc), past + future) && Ordered(FirstInL1(poc), future + past)
  {
    hide Arranged, KeysDiffer;
    PartsOrdered(refs, poc, past, future);
  }

  /**
   When the counts in the buffer differ, a B picture depends on the pictures for
   which fewer than n0 others come first in list 0, or fewer than n1 in list 1.
   */
  lemma BListMembers(refs: seq<Ref>, poc: int, past: seq<Ref>, future: seq<Ref>, n0: nat, n1: nat, r: Ref)
    requires KeysDiffer(RisingPoc, refs) && OnceEach(refs) && Arranged(refs, poc, past, future) && r in refs
    ensures r.decodeId in Merged(past, future, n0, n1) <==>
            |Ahead(FirstInL0(poc), refs, r)| < n0 || |Ahead(FirstInL1(poc), refs, r)| < n1
  {
    hide KeysDiffer, OnceEach, Ordered, Ahead, FirstInL0, FirstInL1;
    var all, other := past + future, future + past;
    assert multiset(all) == multiset(refs) && multiset(other) == multiset(refs);
    BothOrdered(refs, poc, past, future);
    TakenAreAhead(FirstInL0(poc), refs, all, n0, r);
    TakenAreAhead(FirstInL1(poc), refs, other, n1, r);
    SwappedIds(past, future);
    MinusIs(Take(Ids(other), n1), Take(Ids(all), n0));
  }

  // How many pictures the lists name

  function Max(a: nat, b: nat): nat {
    if a >= b then a else b
  }

  function Less(a: nat, b: nat): nat {
    if a <= b then 0 else a - b
  }

  /** How many of a part of own entries the lists reach: n from its own side, and more behind the other part. */
  function Reached(own: nat, other: nat, n: nat, more: nat): nat {
    Max(Min(n, own), Min(Less(more, other), own))
  }

  lemma TakenOfBoth(x: seq<nat>, y: seq<nat>, n: nat, d: nat)
    ensures d in Take(x + y, n) <==> d in x[..Min(n, |x|)] || d in y[..Min(Less(n, |x|), |y|)]
  {
    assert Take(x + y, n) == x[..Min(n, |x|)] + y[..Min(Less(n, |x|), |y|)];
  }

  lemma InLonger(x: seq<nat>, i: nat, j: nat, d: nat)
    requires i <= |x| && j <= |x|
    ensures d in x[..i] || d in x[..j] <==> d in x[..Max(i, j)]
  {
    var k, l := Max(i, j), Min(i, j);
    assert x[..k] == x[..l] + x[l..k];
  }

  lemma FrontsOnce(x: seq<nat>, y: seq<nat>, i: nat, j: nat)
    requires NoRepeats(x + y) && i <= |x| && j <= |y|
    ensures NoRepeats(x[..i] + y[..j])
  {
    var xy, z := x + y, x[..i] + y[..j];
    forall a, b | 0 <= a < b < |z|
      ensures z[a] != z[b]
    {
      var a', b' := if a < i then a else a - i + |x|, if b < i then b else b - i + |x|;
      assert z[a] == xy[a'] && z[b] == xy[b'];
    }
  }

  lemma ReachedFits(own: nat, other: nat, n: nat, more: nat)
    ensures Reached(own, other, n, more) <= own
  {}

  lemma OtherWayRound(x: seq<nat>, y: seq<nat>)
    requires NoRepeats(x + y)
    ensures NoRepeats(y + x) && forall d <- y + x :: d in x + y
  {
    FrontsOnce(x, y, |x|, 0);
    assert x[..|x|] + y[..0] == x;
    FrontsOnce(x, y, 0, |y|);
    assert x[..0] + y[..|y|] == y;
    forall i, j | 0 <= i < |x| && 0 <= j < |y|
      ensures x[i] != y[j]
    {
      assert (x + y)[i] == x[i] && (x + y)[|x| + j] == y[j];
    }
    JoinedOnce(y, x);
  }

  lemma MergedOnce(x: seq<nat>, y: seq<nat>, n0: nat, n1: nat)
    requires NoRepeats(x + y)
    ensures
      var l0 := Take(x + y, n0);
      NoRepeats(l0 + Minus(Take(y + x, n1), l0))
  {
    hide NoRepeats, Take, Minus;
    OtherWayRound(x, y);
    MergedIsClean(x + y, y + x, n0, n1);
  }

  lemma MergedMembers(past: seq<Ref>, future: seq<Ref>, n0: nat, n1: nat, d: nat)
    requires Reached(|past|, |future|, n0, n1) <= |past| && Reached(|future|, |past|, n1, n0) <= |future|
    ensures d in Merged(past, future, n0, n1) <==>
            d in Ids(past)[..Reached(|past|, |future|, n0, n1)] || d in Ids(future)[..Reached(|future|, |past|, n1, n0)]
  {
    hide Ids, Minus, Take, Less;
    var x, y := Ids(past), Ids(future);
    MinusIs(Take(y + x, n1), Take(x + y, n0));
    TakenOfBoth(x, y, n0, d);
    TakenOfBoth(y, x, n1, d);
    InLonger(x, Min(n0, |x|), Min(Less(n1, |y|), |x|), d);
    InLonger(y, Min(n1, |y|), Min(Less(n0, |x|), |y|), d);
  }

  lemma MergedCount(past: seq<Ref>, future: seq<Ref>, n0: nat, n1: nat)
    requires NoRepeats(Ids(past) + Ids(future))
    ensures |Merged(past, future, n0, n1)| ==
            Reached(|past|, |future|, n0, n1) + Reached(|future|, |past|, n1, n0)
  {
    hide Ids, Reached, Max, Min, Less, NoRepeats, Minus;
    var x, y, deps := Ids(past), Ids(future), Merged(past, future, n0, n1);
    var a, b := Reached(|past|, |future|, n0, n1), Reached(|future|, |past|, n1, n0);
    ReachedFits(|past|, |future|, n0, n1);
    ReachedFits(|future|, |past|, n1, n0);
    var all := x[..a] + y[..b];
    FrontsOnce(x, y, a, b);
    MergedOnce(x, y, n0, n1);
    forall d
      ensures d in deps <==> d in all
    {
      MergedMembers(past, future, n0, n1, d);
    }
    NotMore(deps, all);
    NotMore(all, deps);
  }

  /** The entries with a count below poc. */
  function Earlier(refs: seq<Ref>, poc: int): (r: seq<Ref>)
    ensures |r| <= |refs|
  {
    if refs == [] then [] else
    Earlier(refs[..|refs| - 1], poc) + (if refs[|refs| - 1].poc < poc then [refs[|refs| - 1]] else [])
  }

  lemma {:induction false} EarlierIs(refs: seq<Ref>, poc: int, r: Ref)
    ensures multiset(Earlier(refs, poc))[r] == if r.poc < poc then multiset(refs)[r] else 0
  {
    if refs != [] {
      var n := |refs| - 1;
      EarlierIs(refs[..n], poc, r);
      assert refs == refs[..n] + [refs[n]];
      assert multiset(refs) == multiset(refs[..n]) + multiset{refs[n]};
      assert multiset(Earlier(refs, poc)) ==
             multiset(Earlier(refs[..n], poc)) + if refs[n].poc < poc then multiset{refs[n]} else multiset{};
    }
  }

  lemma PartSizes(refs: seq<Ref>, poc: int, past: seq<Ref>, future: seq<Ref>)
    requires Arranged(refs, poc, past, future)
    ensures |past| == |Earlier(refs, poc)| && |past| + |future| == |refs|
  {
    forall r: Ref
      ensures multiset(past)[r] == multiset(Earlier(refs, poc))[r]
    {
      EarlierIs(refs, poc, r);
      PastIsFixed(refs, poc, past, future, r);
    }
    assert multiset(past) == multiset(Earlier(refs, poc));
    SameElements(past, Earlier(refs, poc));
    SameElements(past + future, refs);
  }

  /**
   With p pictures of the past and q others, one entry in each list names as many
   pictures as n0 and n1 entries do.
   */
  predicate OneEachSuffices(p: nat, q: nat, n0: nat, n1: nat) {
    (n0 == 1 && n1 == 1) || p + q <= 1 || (p == 1 && q == 1) || (p == 1 && n1 == 1 && n0 == 2) ||
    (q == 1 && n0 == 1 && n1 == 2)
  }

  lemma ReachedIff(p: nat, q: nat, n0: nat, n1: nat)
    requires n0 > 0 && n1 > 0
    ensures Reached(p, q, 1, 1) + Reached(q, p, 1, 1) == Reached(p, q, n0, n1) + Reached(q, p, n1, n0) <==>
            OneEachSuffices(p, q, n0, n1)
  {}

  lemma BListCount(refs: seq<Ref>, poc: int, n0: nat, n1: nat, deps: seq<nat>)
    requires OnceEach(refs) && BList(refs, poc, n0, n1, deps)
    ensures
      var p := |Earlier(refs, poc)|;
      |deps| == Reached(p, |refs| - p, n0, n1) + Reached(|refs| - p, p, n1, n0)
  {
    hide Earlier, Reached, OnceEach, Merged, Ids, NoRepeats;
    var past, future :| Arranged(refs, poc, past, future) && deps == Merged(past, future, n0, n1);
    PartSizes(refs, poc, past, future);
    assert multiset(past + future) == multiset(refs);
    RearrangedOnce(refs, past + future);
    IdsOf(past + future);
    SwappedIds(past, future);
    MergedCount(past, future, n0, n1);
  }

  /** One entry in each list against n0 and n1 entries: exactly when both name as many pictures. */
  lemma BListCountIff(refs: seq<Ref>, poc: int, n0: nat, n1: nat, deps: seq<nat>, active: seq<nat>)
    requires OnceEach(refs) && n0 > 0 && n1 > 0
    requires BList(refs, poc, 1, 1, deps) && BList(refs, poc, n0, n1, active)
    ensures |deps| == |active| <==> OneEachSuffices(|Earlier(refs, poc)|, |refs| - |Earlier(refs, poc)|, n0, n1)
  {
    hide BList, OnceEach, Earlier, OneEachSuffices, Reached;
    BListCount(refs, poc, 1, 1, deps);
    BListCount(refs, poc, n0, n1, active);
    ReachedIff(|Earlier(refs, poc)|, |refs| - |Earlier(refs, poc)|, n0, n1);
  }
}
