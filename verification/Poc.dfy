/**
 Pictures in decoding order, and the picture order counts that calculate_poc
 gives them, section 8.2.1.1 of ITU-T H.264.
 */
module Pocs {
  import opened Bits
  import opened BitSyntax

  datatype Kind = Intra | Predicted | Bipredicted

  /**
   What the analyser takes from a slice header, with the order count type and
   modulus in force. It does not look at the last field: the lsb that stands behind
   a picture with memory management control operation 5.
   */
  datatype Picture = Picture(
    isIdr: bool,
    isRef: bool,
    frameNum: nat,
    pocLsb: nat,
    numRefIdxL0: nat,
    numRefIdxL1: nat,
    kind: Kind,
    pocType: nat,
    maxPocLsb: nat,
    reset: Option<nat>)

  datatype Prev = Prev(msb: int, lsb: int)

  /** The multiple of the modulus that brings the count close to the previous one, equation 8-3. */
  function Closest(p: Picture, prev: Prev): int {
    if p.pocLsb < prev.lsb && prev.lsb - p.pocLsb >= p.maxPocLsb / 2 then prev.msb + p.maxPocLsb
    else if p.pocLsb > prev.lsb && p.pocLsb - prev.lsb > p.maxPocLsb / 2 then prev.msb - p.maxPocLsb
    else prev.msb
  }

  /** poc_msb. */
  function Msb(p: Picture, prev: Prev): int {
    if p.isIdr then 0 else Closest(p, prev)
  }

  predicate Unwraps(p: Picture) {
    p.pocType == 0 && p.maxPocLsb != 0
  }

  function Poc(p: Picture, decodeId: nat, prev: Prev): int {
    if Unwraps(p) then Msb(p, prev) + p.pocLsb
    else if p.pocType == 2 then 2 * p.frameNum
    else decodeId
  }

  function NextPrev(p: Picture, prev: Prev): Prev {
    if !Unwraps(p) then prev
    else if p.isIdr then Prev(0, 0)
    else if p.isRef then Prev(Msb(p, prev), p.pocLsb)
    else prev
  }

  /** The state behind the pictures h. */
  function PrevAfter(h: seq<Picture>): Prev {
    if h == [] then Prev(0, 0) else NextPrev(h[|h| - 1], PrevAfter(h[..|h| - 1]))
  }

  /** The order count of picture i, counted within its IDR period. */
  function PocAt(h: seq<Picture>, i: nat): int
    requires i < |h|
  {
    Poc(h[i], i, PrevAfter(h[..i]))
  }

  // Unwrapping

  /** A run of pictures with order count type 0 and the modulus m throughout. */
  predicate FixedModulus(h: seq<Picture>, m: nat) {
    m > 0 && m % 2 == 0 && forall p <- h :: p.pocType == 0 && p.maxPocLsb == m && p.pocLsb < m
  }

  lemma Apart(d: int, m: int)
    requires m > 0
    ensures d >= 1 ==> d * m >= m
    ensures d <= -1 ==> d * m <= -m
  {}

  /** Congruent numbers in a window of width m are equal. */
  lemma OneInWindow(a: int, b: int, lo: int, m: nat)
    requires m > 0 && a % m == b % m && lo < a <= lo + m && lo < b <= lo + m
    ensures a == b
  {
    Apart(a / m - b / m, m);
    assert a - b == (a / m - b / m) * m;
  }

  lemma AddMultiple(x: int, q: int, m: nat)
    requires m > 0
    ensures (q * m + x) % m == x % m
  {
    assert (q + x / m) * m == q * m + x / m * m;
    DivUnique(q * m + x, m, q + x / m, x % m);
  }

  /** The previous most significant part stays a multiple of the modulus, the other part a remainder. */
  lemma {:induction false} PrevIsSplit(h: seq<Picture>, m: nat) returns (q: int)
    requires FixedModulus(h, m)
    ensures PrevAfter(h).msb == q * m && 0 <= PrevAfter(h).lsb < m
  {
    if h == [] {
      q := 0;
    } else {
      var p := h[|h| - 1];
      q := PrevIsSplit(h[..|h| - 1], m);
      var msb := Msb(p, PrevAfter(h[..|h| - 1]));
      assert (q + 1) * m == q * m + m && (q - 1) * m == q * m - m;
      if p.isIdr {
        q := 0;
      } else if p.isRef {
        q := if msb == q * m then q else if msb == q * m + m then q + 1 else q - 1;
      }
    }
  }

  /** Half a modulus below (excluded) and above (included) the previous count. */
  predicate InWindow(poc: int, prev: Prev, m: nat) {
    prev.msb + prev.lsb - m / 2 < poc <= prev.msb + prev.lsb + m / 2
  }

  lemma SmallMod(x: nat, m: nat)
    requires x < m
    ensures x % m == x
  {}

  /** The count that is unwrapped is in the window around the previous one, and congruent to the lsb. */
  lemma ClosestInWindow(p: Picture, prev: Prev, q: int, m: nat)
    requires m > 0 && m % 2 == 0 && p.maxPocLsb == m && p.pocLsb < m
    requires prev.msb == q * m && 0 <= prev.lsb < m
    ensures InWindow(Closest(p, prev) + p.pocLsb, prev, m) && (Closest(p, prev) + p.pocLsb) % m == p.pocLsb
  {
    var msb := Closest(p, prev);
    assert (q + 1) * m == q * m + m && (q - 1) * m == q * m - m;
    AddMultiple(p.pocLsb, if msb == q * m then q else if msb == q * m + m then q + 1 else q - 1, m);
    assert p.pocLsb % m == p.pocLsb by { SmallMod(p.pocLsb, m); }
  }

  /** Only one number is in the window and congruent to the lsb. */
  lemma OneNear(x: int, y: int, prev: Prev, m: nat)
    requires m > 0 && m % 2 == 0 && InWindow(x, prev, m) && InWindow(y, prev, m) && x % m == y % m
    ensures x == y
  {
    OneInWindow(x, y, prev.msb + prev.lsb - m / 2, m);
  }

  lemma PocInWindow(h: seq<Picture>, i: nat, m: nat)
    requires FixedModulus(h, m) && i < |h| && !h[i].isIdr
    ensures InWindow(PocAt(h, i), PrevAfter(h[..i]), m) && PocAt(h, i) % m == h[i].pocLsb
  {
    assert FixedModulus(h[..i], m);
    var q := PrevIsSplit(h[..i], m);
    assert h[i] in h;
    ClosestInWindow(h[i], PrevAfter(h[..i]), q, m);
  }

  /** A picture that is not IDR gets the one number in the window that is congruent to its lsb. */
  lemma PocIsUnique(h: seq<Picture>, i: nat, m: nat)
    requires FixedModulus(h, m) && i < |h| && !h[i].isIdr
    ensures InWindow(PocAt(h, i), PrevAfter(h[..i]), m) && PocAt(h, i) % m == h[i].pocLsb
    ensures forall x :: InWindow(x, PrevAfter(h[..i]), m) && x % m == h[i].pocLsb ==> x == PocAt(h, i)
  {
    hide PocAt;
    PocInWindow(h, i, m);
    var prev := PrevAfter(h[..i]);
    forall x | InWindow(x, prev, m) && x % m == h[i].pocLsb
      ensures x == PocAt(h, i)
    {
      OneNear(x, PocAt(h, i), prev, m);
    }
  }

  // Recovery of a sequence of true counts

  /** The true count of the last reference picture before picture i; 0 behind an IDR picture. */
  function TruePrev(h: seq<Picture>, truth: seq<int>, i: nat): int
    requires i <= |h| && |truth| == |h|
  {
    if i == 0 || h[i - 1].isIdr then 0
    else if h[i - 1].isRef then truth[i - 1]
    else TruePrev(h, truth, i - 1)
  }

  /** The pictures carry the remainders of the true counts. */
  predicate Carries(h: seq<Picture>, truth: seq<int>, m: nat)
    requires m > 0
  {
    |truth| == |h| && forall i :: 0 <= i < |h| ==> h[i].pocLsb == truth[i] % m
  }

  /** The true count is near the one before it; that of an IDR picture is its own remainder. */
  predicate NearAt(h: seq<Picture>, truth: seq<int>, m: nat, i: nat)
    requires |truth| == |h| && i < |h|
  {
    if h[i].isIdr then 0 <= truth[i] < m
    else TruePrev(h, truth, i) - m / 2 < truth[i] <= TruePrev(h, truth, i) + m / 2
  }

  predicate Near(h: seq<Picture>, truth: seq<int>, m: nat)
    requires |truth| == |h|
  {
    forall i :: 0 <= i < |h| ==> NearAt(h, truth, m, i)
  }

  lemma {:induction false} PrevIsTrue(h: seq<Picture>, truth: seq<int>, m: nat, i: nat)
    requires FixedModulus(h, m) && Carries(h, truth, m) && i <= |h|
    requires forall j :: 0 <= j < i ==> PocAt(h, j) == truth[j]
    ensures PrevAfter(h[..i]).msb + PrevAfter(h[..i]).lsb == TruePrev(h, truth, i)
  {
    if i > 0 {
      PrevIsTrue(h, truth, m, i - 1);
      assert h[..i][..i - 1] == h[..i - 1];
      assert h[i - 1] in h && PocAt(h, i - 1) == truth[i - 1];
    }
  }

  /** When the pictures before got their true counts, this one does exactly when its count is near. */
  lemma RecoveredAt(h: seq<Picture>, truth: seq<int>, m: nat, i: nat)
    requires FixedModulus(h, m) && Carries(h, truth, m) && i < |h|
    requires forall j :: 0 <= j < i ==> PocAt(h, j) == truth[j]
    ensures PocAt(h, i) == truth[i] <==> NearAt(h, truth, m, i)
  {
    PrevIsTrue(h, truth, m, i);
    assert h[i] in h;
    if h[i].isIdr {
      assert PocAt(h, i) == h[i].pocLsb;
      if 0 <= truth[i] < m {
        SmallMod(truth[i], m);
      }
    } else {
      hide PocAt, PrevAfter, TruePrev, FixedModulus;
      PocIsUnique(h, i, m);
      assert InWindow(truth[i], PrevAfter(h[..i]), m) <==> NearAt(h, truth, m, i);
    }
  }

  lemma {:induction false} RecoveredUpTo(h: seq<Picture>, truth: seq<int>, m: nat, n: nat)
    requires FixedModulus(h, m) && Carries(h, truth, m) && n <= |h|
    requires forall i :: 0 <= i < n ==> NearAt(h, truth, m, i)
    ensures forall i :: 0 <= i < n ==> PocAt(h, i) == truth[i]
  {
    hide NearAt, PocAt;
    if n > 0 {
      RecoveredUpTo(h, truth, m, n - 1);
      RecoveredAt(h, truth, m, n - 1);
    }
  }

  /** Over runs of any length, the true counts are recovered exactly when each is near the one before it. */
  lemma RecoveredIffNear(h: seq<Picture>, truth: seq<int>, m: nat)
    requires FixedModulus(h, m) && m > 0 && Carries(h, truth, m)
    ensures (forall i :: 0 <= i < |h| ==> PocAt(h, i) == truth[i]) <==> Near(h, truth, m)
  {
    hide NearAt, PocAt, FixedModulus;
    if Near(h, truth, m) {
      RecoveredUpTo(h, truth, m, |h|);
    } else if forall i :: 0 <= i < |h| ==> PocAt(h, i) == truth[i] {
      forall i | 0 <= i < |h|
        ensures NearAt(h, truth, m, i)
      {
        RecoveredAt(h, truth, m, i);
      }
    }
  }

  // Where the code agrees with section 8.2.1.1 of ITU-T H.264

  /** prevPicOrderCntMsb and prevPicOrderCntLsb of the standard behind the pictures h. */
  function StandardPrev(h: seq<Picture>): Prev {
    if h == [] then Prev(0, 0) else
    var p := h[|h| - 1];
    var prev := StandardPrev(h[..|h| - 1]);
    if !p.isIdr && !p.isRef then prev
    else if p.reset.Some? then Prev(0, p.reset.value)
    else Prev(Closest(p, if p.isIdr then Prev(0, 0) else prev), p.pocLsb)
  }

  /** PicOrderCntMsb + pic_order_cnt_lsb of the standard: the count of a field, and of the top field of a frame. */
  function StandardPoc(h: seq<Picture>, i: nat): int
    requires i < |h|
  {
    Closest(h[i], if h[i].isIdr then Prev(0, 0) else StandardPrev(h[..i])) + h[i].pocLsb
  }

  /** Operation 5 is sent in reference pictures that are not IDR, and the lsb behind it is below the modulus. */
  predicate ResetsFit(h: seq<Picture>, m: nat) {
    forall p <- h :: p.reset.Some? ==> p.isRef && !p.isIdr && p.reset.value < m
  }

  /**
   The count at which the standard starts anew before picture i, when the last
   reference picture is an IDR picture or has operation 5.
   */
  function Restart(h: seq<Picture>, i: nat): Option<nat>
    requires i <= |h|
  {
    if i == 0 then None
    else if h[i - 1].reset.Some? then h[i - 1].reset
    else if h[i - 1].isIdr then Some(h[i - 1].pocLsb)
    else if h[i - 1].isRef then None
    else Restart(h, i - 1)
  }

  /** The number around v that the lsb stands for. */
  function Around(lsb: nat, v: nat, m: nat): int {
    if lsb <= v - m / 2 then lsb + m else if lsb > v + m / 2 then lsb - m else lsb
  }

  /**
   An IDR picture is in the first half of the modulus; what the lsb of a picture
   behind a restart stands for is also near the previous count that the code keeps.
   */
  predicate StaysNear(h: seq<Picture>, m: nat, i: nat)
    requires i < |h|
  {
    if h[i].isIdr then h[i].pocLsb <= m / 2
    else match Restart(h, i)
         case None => true
         case Some(v) => InWindow(Around(h[i].pocLsb, v, m), PrevAfter(h[..i]), m)
  }

  /** While the counts agree, the previous counts do, too, except behind a restart. */
  lemma {:induction false} PrevsMeet(h: seq<Picture>, m: nat, i: nat) returns (q: int)
    requires FixedModulus(h, m) && ResetsFit(h, m) && i <= |h|
    requires forall j :: 0 <= j < i ==> PocAt(h, j) == StandardPoc(h, j)
    ensures
      var prev := StandardPrev(h[..i]);
      prev.msb == q * m && 0 <= prev.lsb < m &&
      match Restart(h, i)
      case None => prev.msb + prev.lsb == PrevAfter(h[..i]).msb + PrevAfter(h[..i]).lsb
      case Some(v) => prev == Prev(0, v)
  {
    q := 0;
    if i > 0 {
      q := PrevsMeet(h, m, i - 1);
      assert h[..i][..i - 1] == h[..i - 1];
      var p, prev := h[i - 1], StandardPrev(h[..i - 1]);
      assert p in h && PocAt(h, i - 1) == StandardPoc(h, i - 1);
      if p.reset.Some? || p.isIdr {
        q := 0;
      } else if p.isRef {
        var msb := Closest(p, prev);
        assert (q + 1) * m == q * m + m && (q - 1) * m == q * m - m;
        q := if msb == q * m then q else if msb == q * m + m then q + 1 else q - 1;
      }
    }
  }

  lemma ClosestIsAround(p: Picture, v: nat, m: nat)
    requires m > 0 && m % 2 == 0 && p.maxPocLsb == m && p.pocLsb < m && v < m
    ensures Closest(p, Prev(0, v)) + p.pocLsb == Around(p.pocLsb, v, m)
  {}

  lemma ModulusAt(h: seq<Picture>, m: nat, i: nat)
    requires FixedModulus(h, m) && i < |h|
    ensures m > 0 && m % 2 == 0 && h[i].maxPocLsb == m && h[i].pocLsb < m
  {
    assert h[i] in h;
  }

  lemma AgreesAt(h: seq<Picture>, m: nat, i: nat)
    requires FixedModulus(h, m) && ResetsFit(h, m) && i < |h|
    requires forall j :: 0 <= j < i ==> PocAt(h, j) == StandardPoc(h, j)
    ensures PocAt(h, i) == StandardPoc(h, i) <==> StaysNear(h, m, i)
  {
    assert h[i] in h;
    if !h[i].isIdr {
      hide PocAt, PrevAfter, Closest, Restart, FixedModulus;
      var q := PrevsMeet(h, m, i);
      var prev := StandardPrev(h[..i]);
      assert m > 0 && m % 2 == 0 && h[i].maxPocLsb == m && h[i].pocLsb < m by { ModulusAt(h, m, i); }
      ClosestInWindow(h[i], prev, q, m);
      PocInWindow(h, i, m);
      if InWindow(StandardPoc(h, i), PrevAfter(h[..i]), m) {
        OneNear(PocAt(h, i), StandardPoc(h, i), PrevAfter(h[..i]), m);
      }
      if Restart(h, i).Some? {
        ClosestIsAround(h[i], Restart(h, i).value, m);
      }
    }
  }

  lemma {:induction false} AgreesUpTo(h: seq<Picture>, m: nat, n: nat)
    requires FixedModulus(h, m) && ResetsFit(h, m) && n <= |h|
    ensures (forall i :: 0 <= i < n ==> PocAt(h, i) == StandardPoc(h, i)) <==>
            (forall i :: 0 <= i < n ==> StaysNear(h, m, i))
  {
    hide PocAt, StandardPoc, StaysNear, FixedModulus, ResetsFit;
    if n > 0 {
      AgreesUpTo(h, m, n - 1);
      if forall i :: 0 <= i < n - 1 ==> PocAt(h, i) == StandardPoc(h, i) {
        AgreesAt(h, m, n - 1);
      }
    }
  }

  /**
   In every run all counts are those of the standard exactly when every IDR
   picture is in the first half of the modulus, and for every picture whose last
   reference picture is an IDR picture or has operation 5, the number that its lsb
   stands for around the restart is in the window around the previous count of the code.
   */
  lemma StandardPocIff(h: seq<Picture>, m: nat)
    requires FixedModulus(h, m) && ResetsFit(h, m)
    ensures (forall i :: 0 <= i < |h| ==> PocAt(h, i) == StandardPoc(h, i)) <==>
            (forall i :: 0 <= i < |h| ==> StaysNear(h, m, i))
  {
    AgreesUpTo(h, m, |h|);
  }

  /** The last reference picture before picture i is an IDR picture. */
  predicate FollowsIdr(h: seq<Picture>, i: nat)
    requires i <= |h|
  {
    i > 0 && (h[i - 1].isIdr || (!h[i - 1].isRef && FollowsIdr(h, i - 1)))
  }

  lemma {:induction false} PrevBehindIdr(h: seq<Picture>, m: nat, i: nat)
    requires FixedModulus(h, m) && ResetsFit(h, m) && i <= |h| && FollowsIdr(h, i)
    ensures PrevAfter(h[..i]) == Prev(0, 0) && Restart(h, i).Some?
  {
    assert h[..i][..i - 1] == h[..i - 1];
    assert h[i - 1] in h;
    if !h[i - 1].isIdr {
      PrevBehindIdr(h, m, i - 1);
    }
  }

  /** Behind an IDR picture with lsb a: the lsbs for which the count is that of the standard. */
  lemma NearIdrIff(h: seq<Picture>, m: nat, i: nat)
    requires FixedModulus(h, m) && ResetsFit(h, m) && i < |h| && !h[i].isIdr && FollowsIdr(h, i)
    ensures Restart(h, i).Some?
    ensures
      var a, lsb := Restart(h, i).value, h[i].pocLsb;
      StaysNear(h, m, i) <==> !(lsb <= a - m / 2 || m / 2 < lsb <= a + m / 2)
  {
    PrevBehindIdr(h, m, i);
    assert h[i] in h;
  }

  /**
   Two runs with modulus 16 that leave the standard. Behind an IDR picture with
   lsb 6, lsb 14 gives -2, where the standard gives 14. Behind a picture with lsb
   6 and operation 5 it gives 14, where the standard gives -2.
   */
  lemma RestartsAreForgotten()
    ensures
      var late := Picture(true, true, 0, 6, 1, 1, Intra, 0, 16, None);
      var next := Picture(false, true, 1, 14, 1, 1, Predicted, 0, 16, None);
      PocAt([late, next], 1) == -2 && StandardPoc([late, next], 1) == 14
    ensures
      var idr := Picture(true, true, 0, 0, 1, 1, Intra, 0, 16, None);
      var five := Picture(false, true, 1, 6, 1, 1, Predicted, 0, 16, Some(0));
      var next := Picture(false, true, 1, 14, 1, 1, Predicted, 0, 16, None);
      PocAt([idr, five, next], 2) == 14 && StandardPoc([idr, five, next], 2) == -2
  {
    var late := Picture(true, true, 0, 6, 1, 1, Intra, 0, 16, None);
    var idr := Picture(true, true, 0, 0, 1, 1, Intra, 0, 16, None);
    var five := Picture(false, true, 1, 6, 1, 1, Predicted, 0, 16, Some(0));
    var next := Picture(false, true, 1, 14, 1, 1, Predicted, 0, 16, None);
    assert [late, next][..1] == [late] && [late][..0] == [];
    assert [idr, five, next][..2] == [idr, five] && [idr, five][..1] == [idr] && [idr][..0] == [];
    assert PrevAfter([late]) == Prev(0, 0) && StandardPrev([late]) == Prev(0, 6);
    assert PrevAfter([idr]) == Prev(0, 0) && PrevAfter([idr, five]) == Prev(0, 6);
    assert StandardPrev([idr, five]) == Prev(0, 0);
  }

  // Counts under another modulus

  /** The pictures h, each with the modulus of the set that it refers to. */
  function WithModuli(h: seq<Picture>, ms: seq<nat>): (g: seq<Picture>)
    requires |ms| == |h|
    ensures |g| == |h|
  {
    seq(|h|, i requires 0 <= i < |h| => h[i].(maxPocLsb := ms[i]))
  }

  /** The modulus m makes a change of the lsb by d a step of the most significant part. */
  predicate Turns(d: int, m: nat) {
    (d < 0 && -d >= m / 2) || (d > 0 && d > m / 2)
  }

  /** The moduli agree, or the lsb stays so close to the previous one that neither turns. */
  predicate SameTurn(h: seq<Picture>, ms: seq<nat>, i: nat)
    requires |ms| == |h| && i < |h|
  {
    h[i].isIdr || ms[i] == h[i].maxPocLsb ||
    !Turns(h[i].pocLsb - PrevAfter(h[..i]).lsb, Min(ms[i], h[i].maxPocLsb))
  }

  predicate Modular(h: seq<Picture>, ms: seq<nat>) {
    |ms| == |h| && (forall p <- h :: p.pocType == 0 && p.maxPocLsb > 0) && forall m <- ms :: m > 0
  }

  lemma {:induction false} SamePrev(h: seq<Picture>, ms: seq<nat>, n: nat)
    requires Modular(h, ms) && n <= |h|
    requires forall i :: 0 <= i < n ==> PocAt(h, i) == PocAt(WithModuli(h, ms), i)
    ensures PrevAfter(h[..n]) == PrevAfter(WithModuli(h, ms)[..n])
  {
    if n > 0 {
      SamePrev(h, ms, n - 1);
      assert h[n - 1] in h && ms[n - 1] in ms && PocAt(h, n - 1) == PocAt(WithModuli(h, ms), n - 1);
      assert h[..n][..n - 1] == h[..n - 1] && WithModuli(h, ms)[..n][..n - 1] == WithModuli(h, ms)[..n - 1];
    }
  }

  lemma SameAt(h: seq<Picture>, ms: seq<nat>, i: nat)
    requires Modular(h, ms) && i < |h|
    requires forall j :: 0 <= j < i ==> PocAt(h, j) == PocAt(WithModuli(h, ms), j)
    ensures PocAt(h, i) == PocAt(WithModuli(h, ms), i) <==> SameTurn(h, ms, i)
  {
    SamePrev(h, ms, i);
    assert h[i] in h && ms[i] in ms;
  }

  lemma {:induction false} SameUpTo(h: seq<Picture>, ms: seq<nat>, n: nat)
    requires Modular(h, ms) && n <= |h|
    ensures (forall i :: 0 <= i < n ==> PocAt(h, i) == PocAt(WithModuli(h, ms), i)) <==>
            (forall i :: 0 <= i < n ==> SameTurn(h, ms, i))
  {
    hide PocAt, SameTurn, WithModuli;
    if n > 0 {
      SameUpTo(h, ms, n - 1);
      if forall i :: 0 <= i < n - 1 ==> PocAt(h, i) == PocAt(WithModuli(h, ms), i) {
        SameAt(h, ms, n - 1);
      }
    }
  }

  /**
   In every run, all counts are those under the moduli of the sets that the
   pictures refer to exactly when for every picture that is not IDR the moduli
   agree, or the lsb is within half of the smaller one of the previous lsb.
   */
  lemma ModuliCountIff(h: seq<Picture>, ms: seq<nat>)
    requires Modular(h, ms)
    ensures (forall i :: 0 <= i < |h| ==> PocAt(h, i) == PocAt(WithModuli(h, ms), i)) <==>
            (forall i :: 0 <= i < |h| ==> SameTurn(h, ms, i))
  {
    SameUpTo(h, ms, |h|);
  }

  // Order count type 2, section 8.2.1.3 of ITU-T H.264

  /** FrameNumOffset: the multiple of MaxFrameNum that was added up by the falls of frame_num since the last restart. */
  function FrameNumOffset(h: seq<Picture>, i: nat, maxFrameNum: nat): nat
    requires i < |h|
  {
    if h[i].isIdr || i == 0 || h[i - 1].reset.Some? then 0
    else FrameNumOffset(h, i - 1, maxFrameNum) + if h[i - 1].frameNum > h[i].frameNum then maxFrameNum else 0
  }

  /** The count of the standard: twice the unwrapped frame_num, and one less for pictures that are no reference. */
  function StandardPocTwo(h: seq<Picture>, i: nat, maxFrameNum: nat): int
    requires i < |h|
  {
    if h[i].isIdr then 0
    else 2 * (FrameNumOffset(h, i, maxFrameNum) + h[i].frameNum) - if h[i].isRef then 0 else 1
  }

  predicate TypeTwo(h: seq<Picture>, maxFrameNum: nat) {
    maxFrameNum > 0 && forall p <- h :: p.pocType == 2 && p.frameNum < maxFrameNum
  }

  /** frame_num is 0 in an IDR picture; other pictures are reference pictures, and it falls only behind operation 5. */
  predicate PlainNumber(h: seq<Picture>, i: nat)
    requires i < |h|
  {
    if h[i].isIdr then h[i].frameNum == 0
    else h[i].isRef && (i == 0 || h[i - 1].reset.Some? || h[i - 1].frameNum <= h[i].frameNum)
  }

  lemma {:induction false} NoOffset(h: seq<Picture>, i: nat, maxFrameNum: nat)
    requires i < |h| && forall j :: 0 <= j <= i ==> PlainNumber(h, j)
    ensures FrameNumOffset(h, i, maxFrameNum) == 0
  {
    if i > 0 {
      NoOffset(h, i - 1, maxFrameNum);
      assert PlainNumber(h, i);
    }
  }

  lemma TwoAgreesAt(h: seq<Picture>, maxFrameNum: nat, i: nat)
    requires TypeTwo(h, maxFrameNum) && i < |h| && forall j :: 0 <= j < i ==> PlainNumber(h, j)
    ensures PocAt(h, i) == StandardPocTwo(h, i, maxFrameNum) <==> PlainNumber(h, i)
  {
    assert h[i] in h;
    assert PocAt(h, i) == 2 * h[i].frameNum;
    if PlainNumber(h, i) {
      NoOffset(h, i, maxFrameNum);
    }
  }

  lemma {:induction false} TwoAgreesUpTo(h: seq<Picture>, maxFrameNum: nat, n: nat)
    requires TypeTwo(h, maxFrameNum) && n <= |h|
    ensures (forall i :: 0 <= i < n ==> PocAt(h, i) == StandardPocTwo(h, i, maxFrameNum)) <==>
            (forall i :: 0 <= i < n ==> PlainNumber(h, i))
  {
    hide PocAt, StandardPocTwo, PlainNumber;
    if n > 0 {
      TwoAgreesUpTo(h, maxFrameNum, n - 1);
      if forall i :: 0 <= i < n - 1 ==> PlainNumber(h, i) {
        TwoAgreesAt(h, maxFrameNum, n - 1);
      }
    }
  }

  /**
   In every run with order count type 2, all counts are those of the standard exactly
   when IDR pictures have frame_num 0, all others are reference pictures, and frame_num
   falls only at an IDR picture or behind operation 5.
   */
  lemma StandardPocTwoIff(h: seq<Picture>, maxFrameNum: nat)
    requires TypeTwo(h, maxFrameNum)
    ensures (forall i :: 0 <= i < |h| ==> PocAt(h, i) == StandardPocTwo(h, i, maxFrameNum)) <==>
            (forall i :: 0 <= i < |h| ==> PlainNumber(h, i))
  {
    TwoAgreesUpTo(h, maxFrameNum, |h|);
  }

  /** A picture that is no reference and the reference picture behind it share a count; the standard has 1 and 2. */
  lemma NonReferenceTies()
    ensures
      var idr := Picture(true, true, 0, 0, 1, 1, Intra, 2, 0, None);
      var b := Picture(false, false, 1, 0, 1, 1, Bipredicted, 2, 0, None);
      var p := Picture(false, true, 1, 0, 1, 1, Predicted, 2, 0, None);
      PocAt([idr, b, p], 1) == PocAt([idr, b, p], 2) == 2 &&
      StandardPocTwo([idr, b, p], 1, 16) == 1 && StandardPocTwo([idr, b, p], 2, 16) == 2
  {
    var idr := Picture(true, true, 0, 0, 1, 1, Intra, 2, 0, None);
    var b := Picture(false, false, 1, 0, 1, 1, Bipredicted, 2, 0, None);
    var p := Picture(false, true, 1, 0, 1, 1, Predicted, 2, 0, None);
    var h := [idr, b, p];
    assert FrameNumOffset(h, 0, 16) == 0;
    assert FrameNumOffset(h, 1, 16) == 0;
    assert FrameNumOffset(h, 2, 16) == 0;
  }

  /** Pictures with another order count type, or without a modulus, are counted in decoding order. */
  lemma OtherTypesCountUp(h: seq<Picture>, i: nat, j: nat)
    requires i < |h| && j < |h| && forall p <- h :: p.pocType != 2 && (p.pocType == 0 ==> p.maxPocLsb == 0)
    ensures PocAt(h, i) < PocAt(h, j) <==> i < j
  {
    hide PrevAfter;
    assert h[i] in h && h[j] in h;
  }
}
