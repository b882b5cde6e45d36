/**
 The byte stream of Annex B of ITU-T H.264: the search for start codes, and the
 scan of a file that is held in one buffer.
 */
module AnnexB {
  import opened Bits
  import opened BitSyntax
  import opened NalBytes

  /** The search looks up to this many bytes past the end of its data. */
  const SLACK: nat := 7

  /** 00 00 01 or 00 00 00 01. */
  predicate StartCode(m: seq<byte>, i: nat)
    requires i + 3 < |m|
  {
    m[i] == 0 && m[i + 1] == 0 && (m[i + 2] == 1 || (m[i + 2] == 0 && m[i + 3] == 1))
  }

  /** 00 00 00 or 00 00 01. */
  predicate EndCode(m: seq<byte>, i: nat)
    requires i + 2 < |m|
  {
    m[i] == 0 && m[i + 1] == 0 && m[i + 2] <= 1
  }

  function CodeLength(m: seq<byte>, i: nat): nat
    requires i + 2 < |m|
  {
    if m[i + 2] == 1 then 3 else 4
  }

  /** The first start code from i on; the last five bytes are not searched, except at 0. */
  function FindStart(m: seq<byte>, size: nat, i: nat): (r: Option<nat>)
    requires |m| >= size + SLACK && (i == 0 || i + 4 < size)
    ensures r.Some? ==> i <= r.value && (r.value == 0 || r.value + 4 < size) && StartCode(m, r.value)
    ensures forall j {:trigger StartCode(m, j)} ::
              i <= j && (j == 0 || j + 4 < size) && (r.Some? ==> j < r.value) ==> !StartCode(m, j)
    decreases size - i
  {
    if StartCode(m, i) then Some(i)
    else if i + 1 + 4 >= size then None
    else FindStart(m, size, i + 1)
  }

  /** The first end code from i on; the last three bytes are not searched, except at i. */
  function FindEnd(m: seq<byte>, size: nat, i: nat): (r: Option<nat>)
    requires |m| >= size + SLACK && i <= size + 4
    ensures r.Some? ==> i <= r.value && (r.value == i || r.value + 3 < size) && EndCode(m, r.value)
    ensures forall j {:trigger EndCode(m, j)} ::
              i <= j && (j == i || j + 3 < size) && (r.Some? ==> j < r.value) ==> !EndCode(m, j)
    decreases size + 4 - i
  {
    if EndCode(m, i) then Some(i)
    else if i + 1 + 3 >= size then None
    else FindEnd(m, size, i + 1)
  }

  datatype Found = NoStart | NoEnd(start: nat) | Unit(start: nat, end: nat)

  function Find(m: seq<byte>, size: nat): Found
    requires |m| >= size + SLACK
  {
    match FindStart(m, size, 0)
    case None => NoStart
    case Some(k) =>
      var start := k + CodeLength(m, k);
      match FindEnd(m, size, start)
      case None => NoEnd(start)
      case Some(end) => Unit(start, end)
  }

  /** The return value of find_nal_unit. */
  function Length(f: Found): int {
    match f
    case NoStart => 0
    case NoEnd(_) => -1
    case Unit(start, end) => end - start
  }

  lemma StartStep(m: seq<byte>, size: nat, i: nat)
    requires |m| >= size + SLACK && (i == 0 || i + 4 < size)
    ensures FindStart(m, size, i) ==
            if StartCode(m, i) then Some(i) else if i + 1 + 4 >= size then None else FindStart(m, size, i + 1)
  {}

  lemma EndStep(m: seq<byte>, size: nat, i: nat)
    requires |m| >= size + SLACK && i <= size + 4
    ensures FindEnd(m, size, i) ==
            if EndCode(m, i) then Some(i) else if i + 1 + 3 >= size then None else FindEnd(m, size, i + 1)
  {}

  lemma FindIs(m: seq<byte>, size: nat)
    requires |m| >= size + SLACK
    ensures
      Find(m, size) ==
      match FindStart(m, size, 0)
      case None => NoStart
      case Some(k) =>
        match FindEnd(m, size, k + CodeLength(m, k))
        case None => NoEnd(k + CodeLength(m, k))
        case Some(end) => Unit(k + CodeLength(m, k), end)
  {}

  /** find_nal_unit on size bytes from p; the bytes behind them are arbitrary. */
  method FindNalUnit(buf: array<byte>, p: nat, size: nat) returns (len: int, nalStart: nat, nalEnd: nat)
    requires p + size + SLACK <= buf.Length
    ensures
      var f := Find(buf[p..p + size + SLACK], size);
      len == Length(f) &&
      match f
      case NoStart => nalStart == nalEnd == 0
      case NoEnd(start) => nalStart == start && nalEnd == size
      case Unit(start, end) => nalStart == start && nalEnd == end
  {
    hide Find, FindStart, FindEnd;
    ghost var m := buf[p..p + size + SLACK];
    assert forall k :: 0 <= k < |m| ==> m[k] == buf[p + k];
    nalStart, nalEnd := 0, 0;
    var i := 0;
    while (buf[p + i] != 0 || buf[p + i + 1] != 0 || buf[p + i + 2] != 1) &&
          (buf[p + i] != 0 || buf[p + i + 1] != 0 || buf[p + i + 2] != 0 || buf[p + i + 3] != 1)
      invariant i == 0 || i + 4 < size
      invariant FindStart(m, size, 0) == FindStart(m, size, i)
      decreases size - i
    {
      assert !StartCode(m, i);
      StartStep(m, size, i);
      i := i + 1;
      if i + 4 >= size {
        FindIs(m, size);
        return 0, 0, 0;
      }
    }
    assert StartCode(m, i);
    StartStep(m, size, i);
    ghost var k := i;
    if buf[p + i] != 0 || buf[p + i + 1] != 0 || buf[p + i + 2] != 1 {
      i := i + 1;
    }
    if buf[p + i] != 0 || buf[p + i + 1] != 0 || buf[p + i + 2] != 1 {
      assert false;
    }
    i := i + 3;
    nalStart := i;
    assert nalStart == k + CodeLength(m, k);
    while (buf[p + i] != 0 || buf[p + i + 1] != 0 || buf[p + i + 2] != 0) &&
          (buf[p + i] != 0 || buf[p + i + 1] != 0 || buf[p + i + 2] != 1)
      invariant nalStart <= i && (i == nalStart || i + 3 < size) && i <= size + 4
      invariant FindEnd(m, size, nalStart) == FindEnd(m, size, i)
      decreases size + 4 - i
    {
      assert !EndCode(m, i);
      EndStep(m, size, i);
      i := i + 1;
      if i + 3 >= size {
        FindIs(m, size);
        return -1, nalStart, size;
      }
    }
    assert EndCode(m, i);
    EndStep(m, size, i);
    FindIs(m, size);
    nalEnd := i;
    len := nalEnd - nalStart;
  }

  // A positive result depends on the data alone

  predicate Positive(f: Found) {
    f.Unit? && f.end > f.start
  }

  lemma Agree(m: seq<byte>, m': seq<byte>, size: nat)
    requires size <= |m| && size <= |m'| && m[..size] == m'[..size]
    ensures forall i {:trigger StartCode(m, i)} {:trigger StartCode(m', i)} ::
              0 <= i && i + 3 < size ==> StartCode(m, i) == StartCode(m', i)
    ensures forall i {:trigger EndCode(m, i)} {:trigger EndCode(m', i)} ::
              0 <= i && i + 2 < size ==> EndCode(m, i) == EndCode(m', i)
    ensures forall i {:trigger CodeLength(m, i)} {:trigger CodeLength(m', i)} ::
              0 <= i && i + 2 < size ==> CodeLength(m, i) == CodeLength(m', i)
  {
    assert forall i :: 0 <= i < size ==> m[i] == m[..size][i] == m'[i];
  }

  /** A unit found in some data is found in all data that go on from it, whatever lies behind either. */
  lemma PositiveStays(m: seq<byte>, size: nat, m': seq<byte>, size': nat)
    requires |m| >= size + SLACK && |m'| >= size' + SLACK && size <= size' && m[..size] == m'[..size]
    requires Positive(Find(m, size))
    ensures Find(m', size') == Find(m, size)
  {
    var k := FindStart(m, size, 0).value;
    var start := k + CodeLength(m, k);
    var end := FindEnd(m, size, start).value;
    assert end + 3 < size && start < end;
    Agree(m, m', size);
    assert StartCode(m', k);
    var k' := FindStart(m', size', 0).value;
    assert k' == k;
    assert EndCode(m', end);
    var end' := FindEnd(m', size', start).value;
    assert end' == end;
  }

  /** A unit that lies, with the three bytes behind it, inside shorter data is found there. */
  lemma PositiveInPrefix(m: seq<byte>, size: nat, m': seq<byte>, size': nat)
    requires |m| >= size + SLACK && |m'| >= size' + SLACK && size <= size' && m[..size] == m'[..size]
    requires Positive(Find(m', size')) && Find(m', size').end + 3 < size
    ensures Find(m, size) == Find(m', size')
  {
    var k := FindStart(m', size', 0).value;
    var start := k + CodeLength(m', k);
    var end := FindEnd(m', size', start).value;
    Agree(m, m', size);
    assert StartCode(m, k);
    var k' := FindStart(m, size, 0).value;
    assert k' == k;
    assert EndCode(m, end);
    var end' := FindEnd(m, size, start).value;
    assert end' == end;
  }

  // The scan of data that are all at hand

  /** The result for the bytes w and nothing known behind them. */
  function FindIn(w: seq<byte>): Found {
    Find(w + ZeroBytes(SLACK), |w|)
  }

  function Next(w: seq<byte>): (r: Option<(nat, nat)>)
    ensures r.Some? ==> r.value.0 < r.value.1 && r.value.1 + 3 < |w|
  {
    var f := FindIn(w);
    if Positive(f) then Some((f.start, f.end)) else None
  }

  /** The units in w with their offsets, counted from off: a unit is returned when its end is found. */
  function Units(w: seq<byte>, off: nat): seq<(nat, seq<byte>)>
    decreases |w|
  {
    match Next(w)
    case None => []
    case Some((start, end)) => [(off + start, w[start..end])] + Units(w[end..], off + end)
  }

  /** What is left of w behind the last unit. */
  function Rest(w: seq<byte>): seq<byte>
    decreases |w|
  {
    match Next(w)
    case None => w
    case Some((_, end)) => Rest(w[end..])
  }

  lemma NextIs(m: seq<byte>, size: nat)
    requires |m| >= size + SLACK
    ensures Positive(Find(m, size)) <==> Next(m[..size]).Some?
    ensures Positive(Find(m, size)) ==> Next(m[..size]) == Some((Find(m, size).start, Find(m, size).end))
  {
    var w := m[..size];
    var m' := w + ZeroBytes(SLACK);
    assert m'[..size] == w;
    if Positive(Find(m, size)) {
      PositiveStays(m, size, m', size);
    }
    if Positive(Find(m', size)) {
      PositiveStays(m', size, m, size);
    }
  }

  lemma NextInBuffer(m: seq<byte>, size: nat, file: seq<byte>, p: nat)
    requires |m| >= size + SLACK && p + size == |file| && m[..size] == file[p..]
    ensures Length(Find(m, size)) > 0 <==> Next(file[p..]).Some?
    ensures Length(Find(m, size)) > 0 ==>
              Find(m, size).Unit? && Next(file[p..]) == Some((Find(m, size).start, Find(m, size).end))
  {
    NextIs(m, size);
  }

  lemma UnitsStep(w: seq<byte>, off: nat)
    ensures Next(w).None? ==> Units(w, off) == []
    ensures Next(w).Some? ==>
              var (start, end) := Next(w).value;
              end <= |w| && Units(w, off) == [(off + start, w[start..end])] + Units(w[end..], off + end)
  {}

  /** The loop over a file in memory: the units that find_nal_unit returns with a positive length. */
  method ScanBuffer(buf: array<byte>, fileSize: nat) returns (units: seq<(nat, seq<byte>)>)
    requires fileSize + SLACK <= buf.Length
    ensures units == Units(buf[..fileSize], 0)
  {
    hide Find, Next, Units;
    ghost var file := buf[..fileSize];
    units := [];
    var p: nat, size: nat := 0, fileSize;
    var len, nalStart, nalEnd := FindNalUnit(buf, p, size);
    NextInBuffer(buf[p..p + size + SLACK], size, file, p);
    assert file[0..] == file && [] + Units(file, 0) == Units(file, 0);
    while len > 0
      invariant p + size == fileSize
      invariant Units(file, 0) == units + Units(file[p..], p)
      invariant len > 0 <==> Next(file[p..]).Some?
      invariant len > 0 ==> Next(file[p..]) == Some((nalStart, nalEnd))
      decreases size
    {
      UnitsStep(file[p..], p);
      units := units + [(p + nalStart, buf[p + nalStart..p + nalEnd])];
      assert file[p..][nalStart..nalEnd] == buf[p + nalStart..p + nalEnd];
      assert file[p..][nalEnd..] == file[p + nalEnd..];
      p := p + nalEnd;
      size := size - nalEnd;
      len, nalStart, nalEnd := FindNalUnit(buf, p, size);
      NextInBuffer(buf[p..p + size + SLACK], size, file, p);
    }
    UnitsStep(file[p..], p);
  }
}
