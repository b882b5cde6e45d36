/**
 h264_analyze_file: the scan of a file through a buffer that is refilled, and
 its agreement with the scan of the whole file at once.
 */
module FileScan {
  import opened Bits
  import opened BitSyntax
  import opened NalBytes
  import opened AnnexB
  import opened Framing

  lemma NextFits(w: seq<byte>)
    ensures Next(w).Some? ==> Next(w).value.0 < Next(w).value.1 && Next(w).value.1 + 3 < |w|
  {}

  lemma {:induction false} RestIsShorter(w: seq<byte>)
    ensures |Rest(w)| <= |w| && Next(Rest(w)).None? && w[|w| - |Rest(w)|..] == Rest(w)
    decreases |w|
  {
    hide Next;
    NextFits(w);
    if Next(w).Some? {
      RestIsShorter(w[Next(w).value.1..]);
    }
  }

  /**
   The units delivered when the buffer of n bytes holds the bytes window, which
   start at offset off of the file, and unread is still to come.
   */
  function Chunked(window: seq<byte>, unread: seq<byte>, off: nat, n: nat): seq<(nat, seq<byte>)>
    requires |window| <= n
    decreases |unread|
  {
    var rsz := Min(n - |window|, |unread|);
    if rsz == 0 then [] else
    var w := window + unread[..rsz];
    if Next(w).None? then
      // nothing found: the whole buffer is dropped
      Chunked([], unread[rsz..], off + |w|, n)
    else
      RestIsShorter(w);
      Units(w, off) + Chunked(Rest(w), unread[rsz..], off + |w| - |Rest(w)|, n)
  }

  /**
   Every unit of w fits the buffer with its start code and the four bytes behind
   it that the search looks at, and the scan does not stop at an empty unit.
   */
  predicate Fits(w: seq<byte>, n: nat)
    decreases |w|
  {
    match Next(w)
    case None => FindIn(w).Unit? ==> FindIn(w).start + 3 >= |w|
    case Some((_, end)) => end + 4 <= n && Fits(w[end..], n)
  }

  /** No part of r holds a unit with an end. */
  ghost predicate Quiet(r: seq<byte>) {
    forall a, b {:trigger r[a..b]} :: 0 <= a <= b <= |r| ==> Next(r[a..b]).None?
  }

  lemma PrefixAgrees(w: seq<byte>, r: seq<byte>)
    requires w <= r
    ensures (w + ZeroBytes(SLACK))[..|w|] == (r + ZeroBytes(SLACK))[..|w|]
  {}

  lemma NextInPrefix(w: seq<byte>, r: seq<byte>)
    requires w <= r && Next(r).Some? && Next(r).value.1 + 3 < |w|
    ensures Next(w) == Next(r)
  {
    PrefixAgrees(w, r);
    PositiveInPrefix(w + ZeroBytes(SLACK), |w|, r + ZeroBytes(SLACK), |r|);
  }

  lemma NextStays(w: seq<byte>, r: seq<byte>)
    requires w <= r && Next(w).Some?
    ensures Next(r) == Next(w)
  {
    PrefixAgrees(w, r);
    PositiveStays(w + ZeroBytes(SLACK), |w|, r + ZeroBytes(SLACK), |r|);
  }

  lemma PartHasNext(r: seq<byte>, a: nat, b: nat)
    requires a <= b <= |r| && Next(r[a..b]).Some?
    ensures Next(r).Some? || (FindIn(r).Unit? && FindIn(r).start + 3 < |r|)
  {
    var c := r[a..b];
    var m, mc := r + ZeroBytes(SLACK), c + ZeroBytes(SLACK);
    var k := FindStart(mc, |c|, 0).value;
    var start := k + CodeLength(mc, k);
    var end := FindEnd(mc, |c|, start).value;
    assert end + 3 < |c|;
    assert forall i :: 0 <= i < |c| ==> mc[i] == m[a + i];
    assert StartCode(m, a + k);
    assert EndCode(m, a + end);
    var k' := FindStart(m, |r|, 0).value;
    assert k' <= a + k;
    var start' := k' + CodeLength(m, k');
    assert start' <= a + end;
    var end' := FindEnd(m, |r|, start').value;
    assert end' <= a + end;
  }

  /** Where the scan of the whole finds no more units, the scan of no part does. */
  lemma SilenceIsQuiet(r: seq<byte>)
    requires Next(r).None? && (FindIn(r).Unit? ==> FindIn(r).start + 3 >= |r|)
    ensures Quiet(r)
  {
    forall a, b | 0 <= a <= b <= |r|
      ensures Next(r[a..b]).None?
    {
      if Next(r[a..b]).Some? {
        PartHasNext(r, a, b);
      }
    }
  }

  lemma QuietSuffix(r: seq<byte>, k: nat)
    requires Quiet(r) && k <= |r|
    ensures Quiet(r[k..])
  {
    hide Next;
    forall a, b | 0 <= a <= b <= |r| - k
      ensures Next(r[k..][a..b]).None?
    {
      assert r[k..][a..b] == r[k + a..k + b];
    }
  }

  lemma {:induction false} QuietIsSilent(window: seq<byte>, unread: seq<byte>, off: nat, n: nat)
    requires |window| <= n && Quiet(window + unread)
    ensures Chunked(window, unread, off, n) == []
    decreases |unread|
  {
    hide Next;
    var r := window + unread;
    var rsz := Min(n - |window|, |unread|);
    if rsz > 0 {
      var w := window + unread[..rsz];
      assert w == r[0..|w|];
      assert [] + unread[rsz..] == r[|w|..];
      assert Next(w).None?;
      QuietSuffix(r, |w|);
      QuietIsSilent([], unread[rsz..], off + |w|, n);
    }
  }

  /** The units of a prefix of the data come first, and the rest of the prefix stays in front of the data. */
  lemma {:induction false} UnitsSplit(w: seq<byte>, tail: seq<byte>, off: nat, n: nat)
    requires Fits(w + tail, n)
    ensures |Rest(w)| <= |w|
    ensures Units(w + tail, off) == Units(w, off) + Units(Rest(w) + tail, off + |w| - |Rest(w)|)
    ensures Fits(Rest(w) + tail, n)
    decreases |w|
  {
    hide Next, FindIn;
    RestIsShorter(w);
    NextFits(w);
    if Next(w).Some? {
      var end := Next(w).value.1;
      NextStays(w, w + tail);
      assert (w + tail)[end..] == w[end..] + tail;
      assert (w + tail)[Next(w).value.0..end] == w[Next(w).value.0..end];
      UnitsSplit(w[end..], tail, off + end, n);
    }
  }

  /** The heart of the refinement: a buffer that holds no unit is dropped only where none is left. */
  lemma {:induction false} ChunkedIsWhole(window: seq<byte>, unread: seq<byte>, off: nat, n: nat)
    requires |window| <= n && Next(window).None? && Fits(window + unread, n)
    ensures Chunked(window, unread, off, n) == Units(window + unread, off)
    decreases |unread|
  {
    hide Next, FindIn;
    var r := window + unread;
    var rsz := Min(n - |window|, |unread|);
    var w := window + unread[..rsz];
    assert w <= r && |w| == if rsz == |unread| then |r| else n;
    if Next(w).None? {
      if Next(r).Some? {
        NextFits(r);
        NextInPrefix(w, r);
      }
      SilenceIsQuiet(r);
      if rsz > 0 {
        QuietSuffix(r, |w|);
        assert r[|w|..] == [] + unread[rsz..];
        QuietIsSilent([], unread[rsz..], off + |w|, n);
      }
    } else {
      assert rsz == 0 ==> w == window;
      var unread' := unread[rsz..];
      assert r == w + unread';
      RestIsShorter(w);
      UnitsSplit(w, unread', off, n);
      ChunkedIsWhole(Rest(w), unread', off + |w| - |Rest(w)|, n);
    }
  }

  lemma EmptyHasNone()
    ensures Next([]).None?
  {}

  /**
   For a file whose units fit the buffer, the refilled scan delivers the units,
   with the offsets, that one scan of the whole file finds.
   */
  lemma RefilledScanIsWholeScan(file: seq<byte>, n: nat)
    requires Fits(file, n)
    ensures Chunked([], file, 0, n) == Units(file, 0)
  {
    assert [] + file == file;
    EmptyHasNone();
    ChunkedIsWhole([], file, 0, n);
  }

  /** A stream fits when each unit that is closed leaves room for its start code and the look ahead. */
  lemma {:induction false} StreamFits(ps: seq<Piece>, trailing: nat, n: nat)
    requires ps != [] && PiecesOk(ps)
    requires forall i :: 0 <= i < ClosedCount(ps, trailing) ==> |Frame(ps[i])| + 4 <= n
    ensures Fits(Stream(ps, trailing), n)
  {
    hide NalOk, FindIn, Frame, Next;
    assert NalOk(ps[0].nal);
    if |ps| == 1 {
      assert ps == [ps[0]];
      LastInStream(ps[0], trailing);
      NothingInZeros(trailing);
      if trailing >= 4 {
        assert Fits(ZeroBytes(trailing), n);
      }
    } else {
      NextInStream(ps, trailing);
      StreamFits(ps[1..], trailing, n);
    }
  }

  /** The refilled scan of a stream delivers the units that are closed. */
  lemma RefilledScanOfStream(ps: seq<Piece>, trailing: nat, n: nat)
    requires ps != [] && PiecesOk(ps)
    requires forall i :: 0 <= i < ClosedCount(ps, trailing) ==> |Frame(ps[i])| + 4 <= n
    ensures Chunked([], Stream(ps, trailing), 0, n) == Framed(ps[..ClosedCount(ps, trailing)], 0)
  {
    hide PiecesOk, Fits, Chunked, Stream, Framed, Units, Frame;
    StreamFits(ps, trailing, n);
    RefilledScanIsWholeScan(Stream(ps, trailing), n);
    UnitsOfStream(ps, trailing, 0);
  }

  /** One turn of the refill loop. */
  lemma ChunkedStep(window: seq<byte>, unread: seq<byte>, off: nat, n: nat)
    requires |window| <= n
    ensures
      var rsz := Min(n - |window|, |unread|);
      var w := window + unread[..rsz];
      (rsz == 0 ==> Chunked(window, unread, off, n) == []) &&
      |Rest(w)| <= |w| <= n &&
      (rsz > 0 ==>
         Chunked(window, unread, off, n) ==
         Units(w, off) +
         if Next(w).None? then Chunked([], unread[rsz..], off + |w|, n)
         else Chunked(Rest(w), unread[rsz..], off + |w| - |Rest(w)|, n))
  {
    hide Next, Rest;
    var w := window + unread[..Min(n - |window|, |unread|)];
    RestIsShorter(w);
    if Next(w).None? {
      UnitsStep(w, off);
      assert forall us: seq<(nat, seq<byte>)> :: [] + us == us;
    }
  }

  method Fill(buf: array<byte>, sz: nat, file: seq<byte>, pos: nat, rsz: nat)
    requires sz + rsz <= buf.Length && pos + rsz <= |file|
    modifies buf
    ensures buf[..sz + rsz] == old(buf[..sz]) + file[pos..][..rsz]
  {
    forall i | 0 <= i < rsz {
      buf[sz + i] := file[pos + i];
    }
  }

  lemma Slices(w: seq<byte>, p: nat, i: nat, j: nat)
    requires p <= p + i <= p + j <= |w|
    ensures w[p..][i..j] == w[p + i..p + j] && w[p..][j..] == w[p + j..]
  {}

  lemma RestStep(w: seq<byte>)
    ensures Next(w).None? ==> Rest(w) == w
    ensures Next(w).Some? ==> Next(w).value.1 <= |w| && Rest(w) == Rest(w[Next(w).value.1..])
  {}

  /** One unit of what is left at p. */
  lemma DrainStep(w: seq<byte>, p: nat, off: nat, start: nat, end: nat)
    requires p <= |w| && Next(w[p..]) == Some((start, end))
    ensures start < end && p + end <= |w|
    ensures Units(w[p..], off + p) == [(off + p + start, w[p + start..p + end])] + Units(w[p + end..], off + p + end)
    ensures Rest(w[p..]) == Rest(w[p + end..])
    ensures p == 0 ==> Next(w).Some?
  {
    hide Next, Units, Rest;
    UnitsStep(w[p..], off + p);
    RestStep(w[p..]);
    NextFits(w[p..]);
    Slices(w, p, start, end);
    assert w[0..] == w;
  }

  lemma SliceOfPrefix(buf: array<byte>, size: nat, i: nat, j: nat)
    requires i <= j <= size <= buf.Length
    ensures buf[..size][i..j] == buf[i..j]
  {}

  lemma AndThen<T>(a: seq<T>, b: seq<T>, c: seq<T>)
    ensures a + (b + c) == a + b + c
  {}

  /** The inner loop: deliver units while their ends are found. */
  method Drain(buf: array<byte>, size: nat, off: nat) returns (p: nat, sz: nat, units: seq<(nat, seq<byte>)>)
    requires size + SLACK <= buf.Length
    ensures units == Units(buf[..size], off)
    ensures p + sz == size && buf[p..size] == Rest(buf[..size])
    ensures p == 0 <==> Next(buf[..size]).None?
  {
    hide Next, Units, Rest, Find;
    ghost var w := buf[..size];
    p, sz, units := 0, size, [];
    var len, nalStart, nalEnd := FindNalUnit(buf, p, sz);
    NextInBuffer(buf[p..p + sz + SLACK], sz, w, p);
    assert w[0..] == w && [] + Units(w, off) == Units(w, off);
    while len > 0
      invariant p + sz == size
      invariant Units(w, off) == units + Units(w[p..], off + p)
      invariant Rest(w) == Rest(w[p..])
      invariant p > 0 ==> Next(w).Some?
      invariant len > 0 <==> Next(w[p..]).Some?
      invariant len > 0 ==> Next(w[p..]) == Some((nalStart, nalEnd))
      decreases sz
    {
      DrainStep(w, p, off, nalStart, nalEnd);
      AndThen(units, [(off + p + nalStart, w[p + nalStart..p + nalEnd])], Units(w[p + nalEnd..], off + p + nalEnd));
      SliceOfPrefix(buf, size, p + nalStart, p + nalEnd);
      units := units + [(off + p + nalStart, buf[p + nalStart..p + nalEnd])];
      p := p + nalEnd;
      sz := sz - nalEnd;
      len, nalStart, nalEnd := FindNalUnit(buf, p, sz);
      NextInBuffer(buf[p..p + sz + SLACK], sz, w, p);
    }
    UnitsStep(w[p..], off + p);
    RestStep(w[p..]);
  }

  /** memmove of size bytes from p to the front. */
  method Move(buf: array<byte>, p: nat, size: nat)
    requires p + size <= buf.Length
    modifies buf
    ensures buf[..size] == old(buf[p..p + size])
  {
    for i := 0 to size
      invariant forall k :: 0 <= k < i ==> buf[k] == old(buf[p + k])
      invariant forall k :: i <= k < buf.Length ==> buf[k] == old(buf[k])
    {
      buf[i] := buf[p + i];
    }
  }

  /** h264_analyze_file, with the file as a byte string and the callbacks as a list. */
  method AnalyzeFile(file: seq<byte>, bufSize: nat) returns (log: seq<(nat, seq<byte>)>)
    ensures log == Chunked([], file, 0, bufSize)
    ensures Fits(file, bufSize) ==> log == Units(file, 0)
  {
    hide Next, Units, Rest, Fits, Chunked;
    var buf := new byte[bufSize + SLACK];
    var pos: nat, sz: nat, off: nat := 0, 0, 0;
    log := [];
    assert file[0..] == file && buf[..0] == [];
    while true
      invariant pos <= |file| && sz <= bufSize
      invariant Chunked([], file, 0, bufSize) == log + Chunked(buf[..sz], file[pos..], off, bufSize)
      decreases |file| - pos
    {
      ChunkedStep(buf[..sz], file[pos..], off, bufSize);
      // fread: as many bytes as there is room for, fewer only at the end of the file
      var rsz := Min(bufSize - sz, |file| - pos);
      if rsz == 0 {
        break;
      }
      ghost var w := buf[..sz] + file[pos..][..rsz];
      assert file[pos..][rsz..] == file[pos + rsz..];
      Fill(buf, sz, file, pos, rsz);
      sz, pos := sz + rsz, pos + rsz;
      var p, sz', units := Drain(buf, sz, off);
      log := log + units;
      if p == 0 {
        p, sz' := sz, 0;
      }
      Move(buf, p, sz');
      sz, off := sz', off + p;
    }
    if Fits(file, bufSize) {
      RefilledScanIsWholeScan(file, bufSize);
    }
  }
}
