/**
 The order counts over a whole video, and the display order that sorting by
 them gives.
 */
module DisplayOrder {
  import opened BitSyntax
  import opened Pocs

  /** global_poc_offset and max_poc_in_gop. */
  datatype Gop = Gop(offset: int, maxPoc: int)

  function Enter(g: Gop, p: Picture): Gop {
    if p.isIdr then Gop(g.offset + g.maxPoc + 2, 0) else g
  }

  function GopAfter(h: seq<Picture>): (g: Gop)
    ensures g.maxPoc >= 0
  {
    if h == [] then Gop(0, 0) else
    var n := |h| - 1;
    var g := Enter(GopAfter(h[..n]), h[n]);
    if PocAt(h, n) > g.maxPoc then g.(maxPoc := PocAt(h, n)) else g
  }

  function GlobalPoc(h: seq<Picture>, i: nat): int
    requires i < |h|
  {
    GopAfter(h[..i + 1]).offset + PocAt(h, i)
  }

  /** The number of IDR pictures up to picture i. */
  function Period(h: seq<Picture>, i: nat): nat
    requires i < |h|
  {
    (if i == 0 then 0 else Period(h, i - 1)) + (if h[i].isIdr then 1 else 0)
  }

  /** Period first, then the count within the period. */
  predicate Before(h: seq<Picture>, i: nat, j: nat)
    requires i < |h| && j < |h|
  {
    Period(h, i) < Period(h, j) || (Period(h, i) == Period(h, j) && PocAt(h, i) < PocAt(h, j))
  }

  lemma PocInPrefix(h: seq<Picture>, n: nat, i: nat)
    requires i < n <= |h|
    ensures PocAt(h[..n], i) == PocAt(h, i)
  {
    assert h[..n][..i] == h[..i];
  }

  lemma GlobalInPrefix(h: seq<Picture>, n: nat, i: nat)
    requires i < n <= |h|
    ensures GlobalPoc(h[..n], i) == GlobalPoc(h, i)
  {
    PocInPrefix(h, n, i);
    assert h[..n][..i + 1] == h[..i + 1];
  }

  function Offset(h: seq<Picture>, i: nat): int
    requires i < |h|
  {
    GopAfter(h[..i + 1]).offset
  }

  lemma GopStep(h: seq<Picture>, i: nat)
    requires i < |h|
    ensures
      var g := Enter(GopAfter(h[..i]), h[i]);
      GopAfter(h[..i + 1]) == if PocAt(h, i) > g.maxPoc then g.(maxPoc := PocAt(h, i)) else g
  {
    assert h[..i + 1][..i] == h[..i];
    PocInPrefix(h, i + 1, i);
  }

  /** Within a period the offset stays, and the maximum covers all counts since its start. */
  lemma {:induction false} SamePeriod(h: seq<Picture>, i: nat, j: nat)
    requires i <= j < |h|
    ensures Period(h, i) <= Period(h, j)
    ensures Period(h, i) == Period(h, j) ==>
              Offset(h, i) == Offset(h, j) && PocAt(h, i) <= GopAfter(h[..j + 1]).maxPoc
    decreases j
  {
    GopStep(h, j);
    if i < j {
      SamePeriod(h, i, j - 1);
    }
  }

  /** A later period starts above every global count of the earlier ones, by more than the new count is below 0. */
  lemma {:induction false} LaterPeriod(h: seq<Picture>, i: nat, j: nat)
    requires i <= j < |h| && Period(h, i) < Period(h, j)
    ensures GlobalPoc(h, i) + 2 <= Offset(h, j)
    decreases j
  {
    GopStep(h, j);
    SamePeriod(h, i, j - 1);
    if Period(h, i) < Period(h, j - 1) {
      LaterPeriod(h, i, j - 1);
    }
  }

  lemma IdrNotNegative(h: seq<Picture>, i: nat)
    requires i < |h| && h[i].isIdr
    ensures PocAt(h, i) >= 0
  {}

  /** The highest count is that of a picture, unless all counts before the first IDR picture are below 0. */
  lemma {:induction false} MaxAttained(h: seq<Picture>, n: nat) returns (i: nat)
    requires 0 < n <= |h|
    requires GopAfter(h[..n]).maxPoc > 0 || Period(h, n - 1) > 0
    ensures i < n && Period(h, i) == Period(h, n - 1) && PocAt(h, i) == GopAfter(h[..n]).maxPoc
  {
    hide PocAt;
    GopStep(h, n - 1);
    i := n - 1;
    if h[n - 1].isIdr {
      IdrNotNegative(h, n - 1);
    } else if PocAt(h, n - 1) <= GopAfter(h[..n - 1]).maxPoc {
      i := MaxAttained(h, n - 1);
    }
  }

  /** A later period starts with an IDR picture, which moves the offset past the highest count before. */
  lemma {:induction false} PeriodStart(h: seq<Picture>, j: nat) returns (e: nat)
    requires j < |h| && Period(h, j) > Period(h, 0)
    ensures 0 < e <= j && Period(h, e - 1) == Period(h, j) - 1
    ensures Offset(h, j) == Offset(h, e - 1) + GopAfter(h[..e]).maxPoc + 2
  {
    hide PocAt;
    GopStep(h, j);
    if h[j].isIdr {
      e := j;
    } else {
      e := PeriodStart(h, j - 1);
    }
  }

  /**
   Behind the first period a count is at least -1; in the first period that
   starts with an IDR picture it may also be lower, when no count before that
   picture is higher by more than 1.
   */
  predicate LateEnough(h: seq<Picture>, j: nat)
    requires j < |h|
  {
    Period(h, j) > Period(h, 0) ==>
      PocAt(h, j) >= -1 ||
      (Period(h, j) == 1 && forall i :: 0 <= i < |h| && Period(h, i) == 0 ==> PocAt(h, i) <= PocAt(h, j) + 1)
  }

  lemma BeforeFirstIdr(h: seq<Picture>, i: nat)
    requires i < |h| && Period(h, i) == 0
    ensures Offset(h, i) == 0
  {
    SamePeriod(h, 0, i);
    GopStep(h, 0);
    assert h[..0] == [];
  }

  lemma LateIsAfter(h: seq<Picture>, i: nat, j: nat)
    requires i < |h| && j < |h| && Period(h, i) < Period(h, j) && LateEnough(h, j)
    ensures GlobalPoc(h, i) < GlobalPoc(h, j)
  {
    hide PocAt, Period;
    if j < i {
      SamePeriod(h, j, i);
    }
    SamePeriod(h, 0, i);
    LaterPeriod(h, i, j);
    if PocAt(h, j) < -1 {
      var e := PeriodStart(h, j);
      BeforeFirstIdr(h, i);
      BeforeFirstIdr(h, e - 1);
      if GopAfter(h[..e]).maxPoc > 0 {
        var k := MaxAttained(h, e);
      }
    }
  }

  lemma EarlyIsNotAfter(h: seq<Picture>, j: nat) returns (i: nat)
    requires j < |h| && !LateEnough(h, j)
    ensures i < |h| && Before(h, i, j) && GlobalPoc(h, i) >= GlobalPoc(h, j)
  {
    hide PocAt, Period;
    var e := PeriodStart(h, j);
    if GopAfter(h[..e]).maxPoc > 0 || Period(h, e - 1) > 0 {
      i := MaxAttained(h, e);
      SamePeriod(h, i, e - 1);
    } else {
      BeforeFirstIdr(h, e - 1);
      i :| 0 <= i < |h| && Period(h, i) == 0 && PocAt(h, i) > PocAt(h, j) + 1;
      BeforeFirstIdr(h, i);
    }
  }

  /** Global counts order two pictures of a run like period and local count, when both are late enough. */
  lemma GlobalOrder(h: seq<Picture>, i: nat, j: nat)
    requires i < |h| && j < |h| && LateEnough(h, i) && LateEnough(h, j)
    ensures GlobalPoc(h, i) < GlobalPoc(h, j) <==> Before(h, i, j)
  {
    hide PocAt, Period, LateEnough;
    SamePeriod(h, if i < j then i else j, if i < j then j else i);
    if Period(h, i) < Period(h, j) {
      LateIsAfter(h, i, j);
    } else if Period(h, j) < Period(h, i) {
      LateIsAfter(h, j, i);
    }
  }

  /** In every run, global counts order the pictures like period and local count exactly when all are late enough. */
  lemma GlobalOrderIff(h: seq<Picture>)
    ensures (forall i, j {:trigger GlobalPoc(h, i), GlobalPoc(h, j)} ::
               0 <= i < |h| && 0 <= j < |h| ==> (GlobalPoc(h, i) < GlobalPoc(h, j) <==> Before(h, i, j))) <==>
            (forall j :: 0 <= j < |h| ==> LateEnough(h, j))
  {
    hide GlobalPoc, Before, LateEnough;
    if forall j :: 0 <= j < |h| ==> LateEnough(h, j) {
      forall i, j | 0 <= i < |h| && 0 <= j < |h|
        ensures GlobalPoc(h, i) < GlobalPoc(h, j) <==> Before(h, i, j)
      {
        GlobalOrder(h, i, j);
      }
    } else {
      var j :| 0 <= j < |h| && !LateEnough(h, j);
      var i := EarlyIsNotAfter(h, j);
      assert !(GlobalPoc(h, i) < GlobalPoc(h, j) <==> Before(h, i, j));
    }
  }

  /** When the run starts with an IDR picture, that means that no count in a later period is below -1. */
  lemma LateFromIdr(h: seq<Picture>, j: nat)
    requires j < |h| && h[0].isIdr
    ensures LateEnough(h, j) <==> (Period(h, j) > 1 ==> PocAt(h, j) >= -1)
  {
    SamePeriod(h, 0, j);
  }

  /** A count of -2 in a later period ties with the IDR picture of the period before. */
  lemma MinusTwoTies()
    ensures
      var idr := Picture(true, true, 0, 0, 1, 1, Intra, 0, 16, None);
      var early := Picture(false, false, 1, 14, 1, 1, Bipredicted, 0, 16, None);
      var h := [idr, idr, early];
      PocAt(h, 2) == -2 && Before(h, 0, 2) && GlobalPoc(h, 0) == GlobalPoc(h, 2)
  {
    var idr := Picture(true, true, 0, 0, 1, 1, Intra, 0, 16, None);
    var early := Picture(false, false, 1, 14, 1, 1, Bipredicted, 0, 16, None);
    var h := [idr, idr, early];
    assert h[..0] == [] && h[..1] == [idr] && h[..2] == [idr, idr] && h[..3] == h;
    assert PrevAfter(h[..2]) == Prev(0, 0);
    GopStep(h, 0);
    GopStep(h, 1);
    GopStep(h, 2);
  }
}
