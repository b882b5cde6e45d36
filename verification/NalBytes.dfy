/**
 Emulation prevention, sections 7.3.1 and 7.4.1 of ITU-T H.264: the bytes 03
 that keep start codes out of a NAL unit, put in by rbsp_to_nal and taken out by
 nal_to_rbsp.
 */
module NalBytes {
  import opened Bits
  import opened BitSyntax

  /** The zeros in a row after byte x, when there were count before it. */
  function NextCount(count: nat, x: byte): nat {
    if x == 0 then count + 1 else 0
  }

  /** The escaped form of x behind count zeros. */
  function Esc(count: nat, x: seq<byte>): seq<byte>
    decreases |x|, count
  {
    if x == [] then []
    else if count == 2 && x[0] < 4 then [3] + Esc(0, x)
    else [x[0]] + Esc(NextCount(count, x[0]), x[1..])
  }

  function Escape(x: seq<byte>): seq<byte> {
    Esc(0, x)
  }

  /** The payload, and whether a last byte 03 was dropped. */
  datatype Payload = Payload(bytes: seq<byte>, dropped: bool)

  function Prepend(x: byte, o: Option<Payload>): Option<Payload> {
    if o.None? then None else Some(o.value.(bytes := [x] + o.value.bytes))
  }

  /** None for bytes that are not allowed behind count zeros. */
  function Unesc(count: nat, y: seq<byte>): Option<Payload>
    decreases |y|
  {
    if y == [] then Some(Payload([], false))
    else if count == 2 && y[0] < 3 then None
    else if count == 2 && y[0] == 3 then
      if |y| == 1 then Some(Payload([], true))
      else if y[1] > 3 then None
      else Unesc(0, y[1..])
    else Prepend(y[0], Unesc(NextCount(count, y[0]), y[1..]))
  }

  function Unescape(y: seq<byte>): Option<Payload> {
    Unesc(0, y)
  }

  // The two are inverse

  lemma {:induction false} UnescOfEsc(count: nat, x: seq<byte>)
    requires count <= 2
    ensures Unesc(count, Esc(count, x)) == Some(Payload(x, false))
    decreases |x|, count
  {
    if x != [] {
      if count == 2 && x[0] < 4 {
        UnescOfEsc(0, x);
        assert Esc(2, x) == [3] + Esc(0, x);
        assert Esc(0, x)[0] == x[0];
        assert Esc(2, x)[1..] == Esc(0, x);
      } else {
        UnescOfEsc(NextCount(count, x[0]), x[1..]);
        assert Esc(count, x)[1..] == Esc(NextCount(count, x[0]), x[1..]);
        assert [x[0]] + x[1..] == x;
      }
    }
  }

  lemma FirstByteStays(y: seq<byte>)
    requires y != [] && Unesc(0, y).Some?
    ensures Unesc(0, y).value.bytes != [] && Unesc(0, y).value.bytes[0] == y[0]
  {}

  lemma {:induction false} EscOfUnesc(count: nat, y: seq<byte>)
    requires count <= 2 && Unesc(count, y).Some?
    ensures
      var p := Unesc(count, y).value;
      Esc(count, p.bytes) + (if p.dropped then [3] else []) == y
    decreases |y|
  {
    if y != [] {
      if count == 2 && y[0] == 3 {
        if |y| > 1 {
          EscOfUnesc(0, y[1..]);
          FirstByteStays(y[1..]);
        }
      } else {
        EscOfUnesc(NextCount(count, y[0]), y[1..]);
      }
    }
  }

  /** Unescaping inverts escaping on every byte string. */
  lemma UnescapeOfEscape(x: seq<byte>)
    ensures Unescape(Escape(x)) == Some(Payload(x, false))
  {
    UnescOfEsc(0, x);
  }

  /** What is accepted is the escaped form of what is returned, up to a dropped last byte 03. */
  lemma EscapeOfUnescape(y: seq<byte>)
    requires Unescape(y).Some?
    ensures
      var p := Unescape(y).value;
      Escape(p.bytes) + (if p.dropped then [3] else []) == y
  {
    EscOfUnesc(0, y);
  }

  lemma EscapeInjective(x: seq<byte>, y: seq<byte>)
    requires Escape(x) == Escape(y)
    ensures x == y
  {
    UnescapeOfEscape(x);
    UnescapeOfEscape(y);
  }

  // The byte patterns

  predicate CleanAt(y: seq<byte>, i: nat, strict: bool)
    requires i < |y|
  {
    i + 2 < |y| && y[i] == 0 && y[i + 1] == 0 ==>
      y[i + 2] >= 3 && (y[i + 2] == 3 ==> if i + 3 < |y| then y[i + 3] <= 3 else !strict)
  }

  /**
   Behind two zeros there is no byte below 3, and a 3 stands before a byte up to
   3. A 3 in the last place is allowed unless the pattern is strict.
   */
  predicate Clean(y: seq<byte>, strict: bool) {
    forall i :: 0 <= i < |y| ==> CleanAt(y, i, strict)
  }

  function ZeroBytes(n: nat): seq<byte> {
    seq(n, i => 0)
  }

  predicate FirstClean(y: seq<byte>, strict: bool)
    requires y != []
  {
    y[0] >= 3 && (y[0] == 3 ==> if |y| > 1 then y[1] <= 3 else !strict)
  }

  lemma CleanDrop(z: seq<byte>, k: nat, strict: bool)
    requires k <= |z|
    ensures Clean(z, strict) <==> (forall i :: 0 <= i < k ==> CleanAt(z, i, strict)) && Clean(z[k..], strict)
  {
    assert forall i :: 0 <= i < |z| - k ==> (CleanAt(z[k..], i, strict) <==> CleanAt(z, k + i, strict));
    if Clean(z[k..], strict) && forall i :: 0 <= i < k ==> CleanAt(z, i, strict) {
      forall i | 0 <= i < |z|
        ensures CleanAt(z, i, strict)
      {
        assert i >= k ==> CleanAt(z[k..], i - k, strict);
      }
    }
  }

  lemma CleanStep(count: nat, y: seq<byte>, strict: bool)
    requires count <= 2 && y != []
    ensures Clean(ZeroBytes(count) + y, strict) <==>
            (count == 2 ==> FirstClean(y, strict)) &&
            Clean(ZeroBytes(if count == 2 then 0 else NextCount(count, y[0])) + y[1..], strict)
  {
    hide Clean;
    var z := ZeroBytes(count) + y;
    if y[0] == 0 && count < 2 {
      assert z == ZeroBytes(count + 1) + y[1..];
    } else if y[0] == 0 {
      CleanDrop(z, 1, strict);
      assert !CleanAt(z, 0, strict);
    } else {
      // Behind count + 1 bytes, of which the last is not 0, counting starts again.
      assert z[count + 1..] == ZeroBytes(0) + y[1..];
      CleanDrop(z, count + 1, strict);
      assert count == 2 ==> (CleanAt(z, 0, strict) <==> FirstClean(y, strict));
      assert forall i :: (if count == 2 then 1 else 0) <= i < count + 1 ==> CleanAt(z, i, strict);
    }
  }

  lemma FewAreClean(count: nat, strict: bool)
    requires count <= 2
    ensures Clean(ZeroBytes(count) + [], strict)
  {}

  lemma {:induction false} UnescAcceptsClean(count: nat, y: seq<byte>)
    requires count <= 2
    ensures Unesc(count, y).Some? <==> Clean(ZeroBytes(count) + y, false)
    decreases |y|
  {
    hide Clean;
    if y == [] {
      assert Clean(ZeroBytes(count) + y, false) by { FewAreClean(count, false); }
    } else {
      CleanStep(count, y, false);
      if count == 2 && y[0] > 2 {
        UnescAcceptsClean(0, y[1..]);
      } else if count < 2 {
        UnescAcceptsClean(NextCount(count, y[0]), y[1..]);
      }
    }
  }

  lemma {:induction false} EscIsClean(count: nat, x: seq<byte>)
    requires count <= 2
    ensures Clean(ZeroBytes(count) + Esc(count, x), true)
    decreases |x|, count
  {
    hide Clean;
    if x == [] {
      FewAreClean(count, true);
    } else {
      CleanStep(count, Esc(count, x), true);
      if count == 2 && x[0] < 4 {
        EscIsClean(0, x);
        assert Esc(count, x)[1..] == Esc(0, x);
        assert Esc(0, x)[0] == x[0];
      } else {
        EscIsClean(NextCount(count, x[0]), x[1..]);
        assert Esc(count, x)[1..] == Esc(NextCount(count, x[0]), x[1..]);
      }
    }
  }

  /** A byte string is accepted exactly when it has no forbidden pattern. */
  lemma UnescapeAcceptsClean(y: seq<byte>)
    ensures Unescape(y).Some? <==> Clean(y, false)
  {
    UnescAcceptsClean(0, y);
    assert ZeroBytes(0) + y == y;
  }

  /** Escaped bytes hold no 000000, 000001 or 000002, and 000003 only before a byte up to 3. */
  lemma EscapeIsClean(x: seq<byte>)
    ensures Clean(Escape(x), true)
  {
    EscIsClean(0, x);
    assert ZeroBytes(0) + Escape(x) == Escape(x);
  }

  // The size

  lemma {:induction false} EscBound(count: nat, x: seq<byte>)
    requires count <= 2
    ensures |x| <= |Esc(count, x)|
    ensures x != [] ==> |Esc(count, x)| <= |x| + (|x| - 1 + count) / 2
    decreases |x|, count
  {
    if x != [] {
      if count == 2 && x[0] < 4 {
        EscBound(0, x);
      } else {
        EscBound(NextCount(count, x[0]), x[1..]);
      }
    }
  }

  lemma {:induction false} EscOfZeros(count: nat, n: nat)
    requires count <= 2 && n > 0
    ensures |Esc(count, ZeroBytes(n))| == n + (n - 1 + count) / 2
    decreases n, count
  {
    if count == 2 {
      EscOfZeros(0, n);
    } else {
      assert ZeroBytes(n)[1..] == ZeroBytes(n - 1);
      if n > 1 {
        EscOfZeros(count + 1, n - 1);
      }
    }
  }

  /** With the pad byte, 3/2 of the payload size, rounded up, always suffices, and zeros need it. */
  lemma EscapeSizeBound(x: seq<byte>)
    requires x != []
    ensures 1 + |Escape(x)| <= (3 * |x| + 1) / 2
    ensures 1 + |Escape(ZeroBytes(|x|))| == (3 * |x| + 1) / 2
  {
    EscBound(0, x);
    EscOfZeros(0, |x|);
  }

  /** Escaping keeps a last byte. */
  lemma {:induction false} EscKeepsLast(count: nat, x: seq<byte>)
    requires x != []
    ensures Esc(count, x) != [] && Esc(count, x)[|Esc(count, x)| - 1] == x[|x| - 1]
    decreases |x|, count
  {
    if count == 2 && x[0] < 4 {
      EscKeepsLast(0, x);
    } else if |x| > 1 {
      EscKeepsLast(NextCount(count, x[0]), x[1..]);
    }
  }

  // The conversions

  lemma OneMore(done: seq<byte>, x: byte, tail: seq<byte>)
    ensures done + ([x] + tail) == done + [x] + tail
    ensures done + ([x] + tail) != done
  {
    assert |done + ([x] + tail)| > |done|;
  }

  /** The byte that one turn of the loop writes. */
  lemma EscStep(done: seq<byte>, count: nat, y: seq<byte>)
    requires y != []
    ensures done + Esc(count, y) ==
            if count == 2 && y[0] < 4 then done + [3] + Esc(0, y)
            else done + [y[0]] + Esc(NextCount(count, y[0]), y[1..])
    ensures done + Esc(count, y) != done
  {
    if count == 2 && y[0] < 4 {
      OneMore(done, 3, Esc(0, y));
    } else {
      OneMore(done, y[0], Esc(NextCount(count, y[0]), y[1..]));
    }
  }

  lemma EscEnd(done: seq<byte>, count: nat)
    ensures done + Esc(count, []) == done
  {}

  lemma Whole(done: seq<byte>, written: seq<byte>)
    requires |written| == |done| + 1 && written[0] == 0
    requires forall k :: 0 <= k < |done| ==> written[k + 1] == done[k]
    ensures written == [0] + done
  {}

  lemma CutShort(x: seq<byte>, done: seq<byte>, written: seq<byte>)
    requires done <= Escape(x) && done != Escape(x)
    requires |written| <= |done| + 1 && (written != [] ==> |written| == |done| + 1 && written[0] == 0)
    requires forall k :: 0 <= k < |done| && written != [] ==> written[k + 1] == done[k]
    ensures 1 + |Escape(x)| > |written| && written == ([0 as byte] + Escape(x))[..|written|]
  {}

  /** rbsp_to_nal: a pad byte 00, then the escaped bytes; -1 when they do not fit. */
  method RbspToNal(rbsp: array<byte>, rbspSize: nat, nal: array<byte>, nalMax: nat) returns (r: int, nalSize: nat)
    requires rbspSize <= rbsp.Length && nalMax <= nal.Length && rbsp != nal
    modifies nal
    ensures
      var out := [0 as byte] + Escape(rbsp[..rbspSize]);
      (r == -1 <==> rbspSize > 0 && |out| > nalMax) &&
      (r != -1 ==> r == nalSize == |out| && (0 < nalMax ==> |out| <= nalMax && nal[..r] == out)) &&
      (r == -1 ==> nalSize == nalMax && nal[..nalMax] == out[..nalMax]) &&
      forall k :: (if r == -1 || nalMax == 0 then nalMax else r) <= k < nal.Length ==> nal[k] == old(nal[k])
  {
    hide Esc;
    ghost var x := rbsp[..rbspSize];
    ghost var done: seq<byte> := [];
    var i, j, count := 0, 1, 0;
    assert x[0..] == x && [] + Escape(x) == Escape(x);
    if nalMax > 0 {
      nal[0] := 0;
    }
    while i < rbspSize
      invariant 0 <= i <= rbspSize && count <= 2 && j == |done| + 1 && (j <= nalMax || j == 1)
      invariant i > 0 ==> |done| > 0
      invariant rbsp[..rbspSize] == x && done + Esc(count, x[i..]) == Escape(x)
      invariant 0 < nalMax ==> nal[0] == 0
      invariant forall k :: 0 <= k < |done| ==> nal[k + 1] == done[k]
      invariant forall k :: j <= k < nal.Length && (k > 0 || nalMax == 0) ==> nal[k] == old(nal[k])
      invariant nalMax == 0 ==> forall k :: 0 <= k < nal.Length ==> nal[k] == old(nal[k])
      decreases rbspSize - i, count
    {
      assert x[i..][0] == rbsp[i] && x[i..][1..] == x[i + 1..];
      if j >= nalMax {
        EscStep(done, count, x[i..]);
        CutShort(x, done, nal[..nalMax]);
        return -1, nalMax;
      }
      if count == 2 && rbsp[i] < 4 {
        nal[j] := 3;
        j := j + 1;
        count := 0;
        EscStep(done, 2, x[i..]);
        done := done + [3];
        continue;
      }
      nal[j] := rbsp[i];
      EscStep(done, count, x[i..]);
      done := done + [x[i]];
      if rbsp[i] == 0 {
        count := count + 1;
      } else {
        count := 0;
      }
      i := i + 1;
      j := j + 1;
    }
    assert x[i..] == [];
    EscEnd(done, count);
    if nalMax > 0 {
      Whole(done, nal[..j]);
    }
    r, nalSize := j, j;
  }

  function Onto(done: seq<byte>, o: Option<Payload>): Option<Payload> {
    if o.None? then None else Some(o.value.(bytes := done + o.value.bytes))
  }

  lemma OntoNothing(o: Option<Payload>)
    ensures Onto([], o) == o
  {
    if o.Some? {
      assert [] + o.value.bytes == o.value.bytes;
    }
  }

  lemma OntoOne(done: seq<byte>, x: byte, o: Option<Payload>)
    ensures Onto(done, Prepend(x, o)) == Onto(done + [x], o)
  {
    if o.Some? {
      assert done + ([x] + o.value.bytes) == done + [x] + o.value.bytes;
    }
  }

  lemma TooLong(done: seq<byte>, x: byte, o: Option<Payload>)
    ensures Onto(done, Prepend(x, o)).Some? ==> |Onto(done, Prepend(x, o)).value.bytes| > |done|
  {}

  /** nal_to_rbsp on size bytes from start; -1 for forbidden bytes or too little room. */
  method NalToRbsp(nal: array<byte>, start: nat, size: nat, rbsp: array<byte>, rbspMax: nat)
    returns (r: int, nalSize: nat, rbspSize: nat)
    requires start + size <= nal.Length && rbspMax <= rbsp.Length && rbsp != nal
    modifies rbsp
    ensures
      var o := Unescape(nal[start..start + size]);
      (r == -1 <==> o.None? || |o.value.bytes| > rbspMax) &&
      (r != -1 ==> r == rbspSize == |o.value.bytes| && rbsp[..r] == o.value.bytes &&
                   nalSize == if o.value.dropped then size - 1 else size) &&
      (r == -1 ==> nalSize == size && rbspSize == rbspMax)
    ensures forall k :: rbspMax <= k < rbsp.Length ==> rbsp[k] == old(rbsp[k])
  {
    ghost var y := nal[start..start + size];
    var i, j, count := 0, 0, 0;
    ghost var done: seq<byte> := [];
    assert y[0..] == y;
    OntoNothing(Unescape(y));
    while i < size
      invariant 0 <= i <= size && j == |done| <= rbspMax && count <= 2
      invariant nal[start..start + size] == y && rbsp[..j] == done
      invariant Unescape(y) == Onto(done, Unesc(count, y[i..]))
      invariant forall k :: rbspMax <= k < rbsp.Length ==> rbsp[k] == old(rbsp[k])
    {
      ghost var rest := y[i..];
      assert rest[0] == nal[start + i] && rest[1..] == y[i + 1..];
      if count == 2 && nal[start + i] < 3 {
        return -1, size, rbspMax;
      }
      if count == 2 && nal[start + i] == 3 {
        if i < size - 1 && nal[start + i + 1] > 3 {
          assert rest[1] == nal[start + i + 1];
          return -1, size, rbspMax;
        }
        if i == size - 1 {
          break;
        }
        assert rest[1] == nal[start + i + 1];
        i := i + 1;
        count := 0;
        rest := y[i..];
        assert rest[0] == nal[start + i] && rest[1..] == y[i + 1..];
      }
      if j >= rbspMax {
        TooLong(done, rest[0], Unesc(NextCount(count, rest[0]), rest[1..]));
        return -1, size, rbspMax;
      }
      rbsp[j] := nal[start + i];
      OntoOne(done, rest[0], Unesc(NextCount(count, rest[0]), rest[1..]));
      done := done + [rest[0]];
      if nal[start + i] == 0 {
        count := count + 1;
      } else {
        count := 0;
      }
      j := j + 1;
      i := i + 1;
    }
    r, nalSize, rbspSize := j, i, j;
  }
}
