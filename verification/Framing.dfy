/**
 Byte streams of NAL units, section B.1 of ITU-T H.264, and what the search finds
 in them: each unit has a start code with any number of zero bytes before it, and
 any number of zero bytes may stand at the end.
 */
module Framing {
  import opened Bits
  import opened BitSyntax
  import opened NalBytes
  import opened AnnexB

  datatype Piece = Piece(zeros: nat, nal: seq<byte>)

  function Frame(p: Piece): (f: seq<byte>)
    ensures |f| == p.zeros + 3 + |p.nal|
  {
    ZeroBytes(p.zeros) + [0, 0, 1] + p.nal
  }

  function Stream(ps: seq<Piece>, trailing: nat): seq<byte> {
    if ps == [] then ZeroBytes(trailing) else Frame(ps[0]) + Stream(ps[1..], trailing)
  }

  /** The units of a stream with their offsets from off. */
  function Framed(ps: seq<Piece>, off: nat): seq<(nat, seq<byte>)> {
    if ps == [] then [] else
    [(off + ps[0].zeros + 3, ps[0].nal)] + Framed(ps[1..], off + ps[0].zeros + 3 + |ps[0].nal|)
  }

  /** The number of units whose end the search sees: all, or all but the last. */
  function ClosedCount(ps: seq<Piece>, trailing: nat): (n: nat)
    ensures n <= |ps|
  {
    if ps == [] || trailing >= 4 then |ps| else |ps| - 1
  }

  /** A unit that can stand in a stream: no forbidden pattern, and no zero at the end. */
  predicate NalOk(nal: seq<byte>) {
    nal != [] && nal[|nal| - 1] != 0 && Clean(nal, true)
  }

  predicate PiecesOk(ps: seq<Piece>) {
    forall p <- ps :: NalOk(p.nal)
  }

  lemma EscapedIsOk(x: seq<byte>)
    requires x != [] && x[|x| - 1] != 0
    ensures NalOk(Escape(x))
  {
    EscapeIsClean(x);
    EscKeepsLast(0, x);
  }

  lemma NoEndInside(m: seq<byte>, start: nat, nal: seq<byte>, i: nat)
    requires NalOk(nal) && |m| >= start + |nal| + 2 && m[start..start + |nal|] == nal && i < |nal|
    ensures !EndCode(m, start + i)
  {
    assert m[start + i] == nal[i];
    assert i + 1 < |nal| ==> m[start + i + 1] == nal[i + 1];
    if i + 2 < |nal| {
      assert m[start + i + 2] == nal[i + 2];
      assert CleanAt(nal, i, true);
    }
  }

  lemma BytesOfFrame(m: seq<byte>, p: Piece)
    requires |m| >= |Frame(p)| && m[..|Frame(p)|] == Frame(p)
    ensures forall i :: 0 <= i < p.zeros + 2 ==> m[i] == 0
    ensures m[p.zeros + 2] == 1
    ensures m[p.zeros + 3..p.zeros + 3 + |p.nal|] == p.nal
  {
    assert forall i :: 0 <= i < |Frame(p)| ==> m[i] == Frame(p)[i];
  }

  /** The start code is found with one zero byte before it, if there is one. */
  lemma StartOfFrame(m: seq<byte>, size: nat, p: Piece)
    requires |m| >= size + SLACK && size >= |Frame(p)| && m[..|Frame(p)|] == Frame(p) && p.nal != []
    ensures FindStart(m, size, 0).Some?
    ensures
      var k := FindStart(m, size, 0).value;
      k + CodeLength(m, k) == p.zeros + 3
  {
    BytesOfFrame(m, p);
    var k := if p.zeros == 0 then 0 else p.zeros - 1;
    assert StartCode(m, k);
    assert FindStart(m, size, 0).Some?;
    var k' := FindStart(m, size, 0).value;
    assert k' <= k && StartCode(m, k');
  }

  lemma NoEndInFrame(m: seq<byte>, p: Piece)
    requires NalOk(p.nal) && |m| >= |Frame(p)| + 2 && m[..|Frame(p)|] == Frame(p)
    ensures forall j {:trigger EndCode(m, j)} :: p.zeros + 3 <= j < |Frame(p)| ==> !EndCode(m, j)
  {
    BytesOfFrame(m, p);
    forall j | p.zeros + 3 <= j < |Frame(p)|
      ensures !EndCode(m, j)
    {
      NoEndInside(m, p.zeros + 3, p.nal, j - (p.zeros + 3));
    }
  }

  /** In front of another start code, or of four zero bytes, a unit is found whole. */
  lemma FirstFound(m: seq<byte>, size: nat, p: Piece)
    requires NalOk(p.nal) && |m| >= size + SLACK && size >= |Frame(p)| + 4 && m[..|Frame(p)|] == Frame(p)
    requires m[|Frame(p)|] == m[|Frame(p)| + 1] == 0 && m[|Frame(p)| + 2] <= 1
    ensures Find(m, size) == Unit(p.zeros + 3, |Frame(p)|)
  {
    StartOfFrame(m, size, p);
    NoEndInFrame(m, p);
    assert EndCode(m, |Frame(p)|);
    assert FindEnd(m, size, p.zeros + 3) == Some(|Frame(p)|);
  }

  /** With fewer zero bytes behind it the last unit has no end, whatever bytes lie behind the data. */
  lemma LastIsOpen(m: seq<byte>, size: nat, p: Piece)
    requires NalOk(p.nal) && |m| >= size + SLACK && |Frame(p)| <= size < |Frame(p)| + 4 && m[..|Frame(p)|] == Frame(p)
    ensures Find(m, size) == NoEnd(p.zeros + 3)
  {
    StartOfFrame(m, size, p);
    NoEndInFrame(m, p);
  }

  lemma SlackBehind(w: seq<byte>, f: seq<byte>, tail: seq<byte>)
    requires w == f + tail
    ensures
      var m := w + ZeroBytes(SLACK);
      m[..|f|] == f && forall i :: 0 <= i < |tail| ==> m[|f| + i] == tail[i]
  {}

  lemma NotEmptyNal(nal: seq<byte>)
    requires NalOk(nal)
    ensures nal != []
  {}

  /** The last unit is delivered exactly when at least four zero bytes follow it. */
  lemma LastDeliveredIff(p: Piece, trailing: nat)
    requires NalOk(p.nal)
    ensures
      var w := Frame(p) + ZeroBytes(trailing);
      (Next(w).Some? <==> trailing >= 4) &&
      FindIn(w) == if trailing >= 4 then Unit(p.zeros + 3, |Frame(p)|) else NoEnd(p.zeros + 3)
  {
    hide Find, Frame, NalOk;
    var w := Frame(p) + ZeroBytes(trailing);
    SlackBehind(w, Frame(p), ZeroBytes(trailing));
    assert p.nal != [] by { NotEmptyNal(p.nal); }
    if trailing >= 4 {
      FirstFound(w + ZeroBytes(SLACK), |w|, p);
    } else {
      LastIsOpen(w + ZeroBytes(SLACK), |w|, p);
    }
  }

  lemma StreamStarts(ps: seq<Piece>, trailing: nat)
    requires ps != [] && NalOk(ps[0].nal)
    ensures |Stream(ps, trailing)| >= 4 && Stream(ps, trailing)[0] == Stream(ps, trailing)[1] == 0
    ensures Stream(ps, trailing)[2] <= 1
  {
    assert Stream(ps, trailing)[..|Frame(ps[0])|] == Frame(ps[0]);
    BytesOfFrame(Stream(ps, trailing), ps[0]);
  }

  /** A framed unit in front of the start of another one. */
  lemma NextInFront(p: Piece, tail: seq<byte>)
    requires NalOk(p.nal) && |tail| >= 4 && tail[0] == tail[1] == 0 && tail[2] <= 1
    ensures
      var w := Frame(p) + tail;
      Next(w) == Some((p.zeros + 3, |Frame(p)|)) && w[p.zeros + 3..|Frame(p)|] == p.nal && w[|Frame(p)|..] == tail
  {
    hide Find, Frame, NalOk;
    var w := Frame(p) + tail;
    SlackBehind(w, Frame(p), tail);
    NotEmptyNal(p.nal);
    FirstFound(w + ZeroBytes(SLACK), |w|, p);
    assert w[..|Frame(p)|] == Frame(p);
    BytesOfFrame(w, p);
  }

  lemma NextInStream(ps: seq<Piece>, trailing: nat)
    requires |ps| > 1 && PiecesOk(ps)
    ensures
      var (w, p) := (Stream(ps, trailing), ps[0]);
      Next(w) == Some((p.zeros + 3, |Frame(p)|)) && |Frame(p)| <= |w| &&
      w[p.zeros + 3..|Frame(p)|] == p.nal && w[|Frame(p)|..] == Stream(ps[1..], trailing)
  {
    hide Next, Frame, NalOk;
    assert NalOk(ps[0].nal) && NalOk(ps[1].nal);
    StreamStarts(ps[1..], trailing);
    NextInFront(ps[0], Stream(ps[1..], trailing));
  }

  lemma LastInStream(p: Piece, trailing: nat)
    requires NalOk(p.nal)
    ensures
      var w := Stream([p], trailing);
      w == Frame(p) + ZeroBytes(trailing) &&
      (Next(w).Some? <==> trailing >= 4) && (FindIn(w).Unit? <==> trailing >= 4) &&
      (trailing >= 4 ==>
         Next(w) == Some((p.zeros + 3, |Frame(p)|)) && w[p.zeros + 3..|Frame(p)|] == p.nal &&
         w[|Frame(p)|..] == ZeroBytes(trailing))
  {
    hide Find, Frame, NalOk;
    var w := Stream([p], trailing);
    assert [p][1..] == [];
    assert w == Frame(p) + Stream([p][1..], trailing);
    LastDeliveredIff(p, trailing);
    NotEmptyNal(p.nal);
    assert w[..|Frame(p)|] == Frame(p);
    BytesOfFrame(w, p);
  }

  /** Zeros alone hold no start code. */
  lemma NothingInZeros(n: nat)
    ensures FindIn(ZeroBytes(n)) == NoStart && Next(ZeroBytes(n)).None?
  {
    var m := ZeroBytes(n) + ZeroBytes(SLACK);
    assert forall i :: 0 <= i < |m| ==> m[i] == 0;
    assert forall j :: 0 <= j && j + 3 < |m| ==> !StartCode(m, j);
  }

  /**
   The scan of a stream returns its units in order and at their places: all of
   them when at least four zero bytes stand at the end, otherwise all but the last.
   */
  lemma {:induction false} UnitsOfStream(ps: seq<Piece>, trailing: nat, off: nat)
    requires ps != [] && PiecesOk(ps)
    ensures Units(Stream(ps, trailing), off) == Framed(ps[..ClosedCount(ps, trailing)], off)
    ensures Rest(Stream(ps, trailing)) == Stream(ps[ClosedCount(ps, trailing)..], trailing)
  {
    hide NalOk, FindIn, Frame, Next;
    assert NalOk(ps[0].nal);
    if |ps| == 1 {
      assert ps == [ps[0]] && ps[..0] == [] && ps[1..] == [] && ps[..1] == ps && ps[0..] == ps;
      LastInStream(ps[0], trailing);
      NothingInZeros(trailing);
    } else {
      NextInStream(ps, trailing);
      UnitsOfStream(ps[1..], trailing, off + |Frame(ps[0])|);
      var n := ClosedCount(ps, trailing);
      assert ps[1..][..n - 1] == ps[..n][1..] && ps[1..][n - 1..] == ps[n..];
    }
  }

  function EscapeAll(zeros: seq<nat>, rbsps: seq<seq<byte>>): (ps: seq<Piece>)
    requires |zeros| == |rbsps|
    ensures |ps| == |rbsps|
  {
    seq(|rbsps|, i requires 0 <= i < |rbsps| => Piece(zeros[i], Escape(rbsps[i])))
  }

  /**
   Escaping and framing any payloads that do not end in zero: the scan returns the
   units in order and at their places, the last one exactly when four zero bytes
   follow it, and unescaping restores every payload.
   */
  lemma AnnexBRoundTrip(zeros: seq<nat>, rbsps: seq<seq<byte>>, trailing: nat)
    requires |zeros| == |rbsps| && rbsps != [] && forall x <- rbsps :: x != [] && x[|x| - 1] != 0
    ensures
      var ps := EscapeAll(zeros, rbsps);
      Units(Stream(ps, trailing), 0) == Framed(ps[..ClosedCount(ps, trailing)], 0) &&
      forall i :: 0 <= i < |ps| ==> Unescape(ps[i].nal) == Some(Payload(rbsps[i], false))
  {
    hide Escape, Unescape, NalOk;
    var ps := EscapeAll(zeros, rbsps);
    forall i | 0 <= i < |ps|
      ensures NalOk(ps[i].nal) && Unescape(ps[i].nal) == Some(Payload(rbsps[i], false))
    {
      assert rbsps[i] in rbsps;
      EscapedIsOk(rbsps[i]);
      UnescapeOfEscape(rbsps[i]);
    }
    UnitsOfStream(ps, trailing, 0);
  }
}
