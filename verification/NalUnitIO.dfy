/** The methods of h264_stream.c that read and write whole NAL units. */
module NalUnitIO {
  import opened Bits
  import opened BitSyntax
  import opened BitCursor
  import opened NalBytes
  import opened Sei
  import opened SliceHeaders
  import opened SliceHeaderIO
  import opened Lengths
  import opened NalUnits
  import S = SequenceParameterSet
  import P = PictureParameterSet

  /** What the writer needs: numbers within the codes. */
  predicate ContentWritable(c: Content) {
    match c
    case SpsUnit(x) => S.SpsWritable(x)
    case PpsUnit(x) => P.PpsWritable(x)
    case SeiUnit(ms) => forall m <- ms :: MessageOk(m)
    case _ => true
  }

  lemma ContentIs(c: Content)
    ensures c.SpsUnit? ==> (ContentWritable(c) <==> S.SpsWritable(c.sps)) &&
                           forall rest :: PutContent(c, rest) == S.PutSps(c.sps, rest)
    ensures c.PpsUnit? ==> (ContentWritable(c) <==> P.PpsWritable(c.pps)) &&
                           forall rest :: PutContent(c, rest) == P.PutPps(c.pps, rest)
    ensures c.SeiUnit? ==> forall rest :: PutContent(c, rest) == PutMessages(c.messages, 0, rest)
    ensures c.Delimiter? ==> forall rest :: PutContent(c, rest) == PutU(3, c.primaryPicType, rest)
    ensures c.EndOfSequence? || c.EndOfStream? ==> forall rest :: PutContent(c, rest) == rest
  {
    hide S.SpsWritable, P.PpsWritable, S.PutSps, P.PutPps, PutMessages, PutU;
  }

  /** The cases of write_nal_unit. */
  method WriteContent(b: BitStream, c: Content)
    requires b.Valid() && ContentWritable(c)
    modifies b`p, b`bitsLeft, b.buf
    ensures b.Valid()
    ensures forall rest {:trigger Then(b.Tape(), rest)} ::
              Then(b.Tape(), rest) == Then(old(b.Tape()), PutContent(c, rest))
  {
    hide BitStream.Tape, Then, PutContent, ContentWritable, PutMessages, S.PutSps, P.PutPps, PutU;
    hide S.SpsOk, S.SpsWritable, S.GetSps, P.PpsOk, P.PpsWritable, P.GetPps, StopOnly, From, GetU;
    ContentIs(c);
    match c
    case SeiUnit(ms) => WriteSei(b, ms);
    case SpsUnit(x) => S.WriteSps(b, x);
    case PpsUnit(x) => P.WritePps(b, x);
    case Delimiter(t) => b.WriteU(3, t);
    case EndOfSequence =>
    case EndOfStream =>
  }

  function EmptyState(): NalUnits.State {
    NalUnits.State(0, 0, NO_SPS, NO_PPS, Tables(seq(SPS_COUNT, i => NO_SPS), seq(PPS_COUNT, i => NO_PPS)), 0, [], None)
  }

  lemma {:induction false} UnescShrinks(count: nat, y: seq<byte>)
    ensures Unesc(count, y).Some? ==> |Unesc(count, y).value.bytes| <= |y|
    decreases |y|
  {
    if y != [] {
      UnescShrinks(0, y[1..]);
      UnescShrinks(NextCount(count, y[0]), y[1..]);
    }
  }

  lemma UnescapeShrinks(y: seq<byte>)
    ensures Unescape(y).Some? ==> |Unescape(y).value.bytes| <= |y|
  {
    UnescShrinks(0, y);
  }

  lemma ThenFacts(t: Tape, code: seq<bool>)
    ensures |Then(t, code).bits| == |t.bits| && Then(t, code).pos == t.pos + |code|
  {}

  /** An aligned cursor inside the buffer is at a whole number of bytes. */
  lemma WholeBytes(b: BitStream)
    requires b.Valid() && !b.Overrun() && b.start == 0 && b.Tape().pos % 8 == 0
    ensures 8 * b.Pos() == b.Tape().pos && b.Pos() <= b.end
  {}

  lemma TapeIs(b: BitStream)
    requires b.Valid()
    ensures b.Tape().bits == BitsOf(b.buf[..b.end])
  {}

  /** A code written at the front of a buffer is the front of its bytes. */
  lemma PrefixBytes(bytes: seq<byte>, t: Tape, code: seq<bool>)
    requires t.pos == 0 && |code| % 8 == 0 && |code| <= |t.bits|
    requires BitsOf(bytes) == Then(t, code).bits
    ensures |code| / 8 <= |bytes| && bytes[..|code| / 8] == BytesOf(code)
  {
    hide BytesOf, BitAt;
    var k := |code| / 8;
    BytesOfBitsOf(bytes[..k]);
    assert BitsOf(bytes[..k]) == code by {
      forall i | 0 <= i < |code|
        ensures BitsOf(bytes[..k])[i] == code[i]
      {
        assert BitsOf(bytes)[i] == Then(t, code).bits[i];
      }
    }
  }

  class H264Stream {
    /** Whether the library is built with HAVE_SEI. */
    const haveSei: bool
    var nalRefIdc: nat
    var nalUnitType: nat
    var sps: S.Sps
    var pps: P.Pps
    const spsTable: array<S.Sps>
    const ppsTable: array<P.Pps>
    var primaryPicType: nat
    var seis: seq<Message>
    var slice: Option<SliceHeader>

    ghost function State(): NalUnits.State
      reads this, spsTable, ppsTable
    {
      NalUnits.State(nalRefIdc, nalUnitType, sps, pps, Tables(spsTable[..], ppsTable[..]), primaryPicType, seis, slice)
    }

    ghost predicate Valid()
      reads this, spsTable, ppsTable
    {
      TablesOk(State())
    }

    function CurrentState(): NalUnits.State
      reads this, spsTable, ppsTable
      ensures CurrentState() == State()
    {
      NalUnits.State(nalRefIdc, nalUnitType, sps, pps, Tables(spsTable[..], ppsTable[..]), primaryPicType, seis, slice)
    }

    constructor (haveSei: bool)
      ensures Valid() && fresh(spsTable) && fresh(ppsTable) && this.haveSei == haveSei
      ensures State() == EmptyState()
    {
      this.haveSei := haveSei;
      nalRefIdc, nalUnitType, primaryPicType, seis, slice := 0, 0, 0, [], None;
      sps, pps := NO_SPS, NO_PPS;
      spsTable := new S.Sps[SPS_COUNT](_ => NO_SPS);
      ppsTable := new P.Pps[PPS_COUNT](_ => NO_PPS);
      new;
      assert spsTable[..] == seq(SPS_COUNT, i => NO_SPS);
      assert ppsTable[..] == seq(PPS_COUNT, i => NO_PPS);
    }

    /** The cases of read_nal_unit: false and no change when the type is not handled; None outside the model. */
    method ReadContent(b: BitStream) returns (handled: Option<bool>)
      requires Valid() && b.Valid()
      modifies this`sps, this`pps, this`primaryPicType, this`seis, this`slice, spsTable, ppsTable, b`p, b`bitsLeft
      ensures Valid() && b.Valid()
      ensures
        match Parse(haveSei, old(State()), old(b.View()))
        case Outside => handled.None?
        case Unhandled => handled == Some(false) && State() == old(State())
        case Parsed(st, s) => handled == Some(true) && State() == st && b.View() == s
    {
      hide BitStream.View, S.GetSps, P.GetPps, GetMessages, GetSliceHeader, GetU, GetTrailing;
      if nalUnitType == IDR_SLICE || nalUnitType == NON_IDR_SLICE || nalUnitType == AUX_SLICE {
        var h := ReadSliceHeader(b, Tables(spsTable[..], ppsTable[..]), nalUnitType, nalRefIdc);
        if h.None? || b.Eof() {
          return None;
        }
        slice := Some(h.value.0);
        pps := h.value.1.pps;
        sps := h.value.1.sps;
        return Some(true);
      }
      if nalUnitType == 6 && haveSei {
        var ms := ReadSei(b);
        if ms.None? {
          return None;
        }
        seis := ms.value;
      } else if nalUnitType == 7 {
        sps := S.ReadSps(b);
        if sps.head.id >= spsTable.Length {
          return None;
        }
        spsTable[sps.head.id] := sps;
      } else if nalUnitType == 8 {
        pps := P.ReadPps(b);
        if pps.id >= ppsTable.Length {
          return None;
        }
        ppsTable[pps.id] := pps;
      } else if nalUnitType == 9 {
        primaryPicType := b.ReadU(3);
      } else if nalUnitType == 14 || nalUnitType == 15 || nalUnitType == 20 {
        return None;
      } else if nalUnitType != 10 && nalUnitType != 11 {
        return Some(false);
      }
      b.ReadTrailingBits();
      return Some(true);
    }

    /** read_nal_unit on size bytes from start: the bytes used or -1; None outside the model. */
    method ReadNalUnit(buf: array<byte>, start: nat, size: nat) returns (r: Option<int>)
      requires Valid() && start + size <= buf.Length
      modifies this, spsTable, ppsTable
      ensures Valid()
      ensures
        match ReadNal(haveSei, old(State()), buf[start..start + size])
        case None => r.None?
        case Some((st, rc)) => r == Some(rc) && State() == st
    {
      hide Parse, Unescape, GetU, Skip, BitStream.View, BitsOf, From;
      var rbsp := new byte[size];
      var rc, nalSize, rbspSize := NalToRbsp(buf, start, size, rbsp, size);
      UnescapeShrinks(buf[start..start + size]);
      if rc < 0 {
        return Some(-1);
      }
      var b := new BitStream(rbsp, rbspSize);
      b.SkipU(1);
      nalRefIdc := b.ReadU(2);
      nalUnitType := b.ReadU(5);
      var handled := ReadContent(b);
      if handled.None? {
        return None;
      }
      if !handled.value {
        return Some(-1);
      }
      if b.Overrun() {
        return Some(-1);
      }
      return Some(nalSize);
    }

    /** What the unit type selects for writing; slices and units of other annexes are not modelled. */
    function Selected(): Option<Content>
      reads this
    {
      if nalUnitType == 6 && haveSei then Some(SeiUnit(seis))
      else if nalUnitType == 7 then Some(SpsUnit(sps))
      else if nalUnitType == 8 then Some(PpsUnit(pps))
      else if nalUnitType == 9 then Some(Delimiter(primaryPicType))
      else if nalUnitType == 10 then Some(EndOfSequence)
      else if nalUnitType == 11 then Some(EndOfStream)
      else None
    }

    lemma UnitTypeIs()
      requires Selected().Some?
      ensures UnitType(Selected().value) == nalUnitType
    {}

    /** Reading back the unit that is written for a stream leaves all its fields but the tables as they are. */
    lemma OwnUnitReads(size: nat)
      requires Valid() && (7 <= nalUnitType <= 11 || (nalUnitType == 6 && haveSei))
      ensures Selected().Some?
      ensures
        var n := Nal(nalRefIdc, Selected().value);
        match WriteNal(n, size)
        case None => true
        case Some(out) =>
          UnitOk(haveSei, n) ==>
            ReadNal(haveSei, State(), out[1..]).Some? &&
            ReadNal(haveSei, State(), out[1..]).value.0.(tables := State().tables) == State()
    {
      hide WriteNal, ReadNal, UnitOk;
      var n := Nal(nalRefIdc, Selected().value);
      if WriteNal(n, size).Some? && UnitOk(haveSei, n) {
        WrittenNalReads(haveSei, State(), n, size);
      }
    }

    /** The header, the content and the trailing bits. */
    method WriteBits(b: BitStream)
      requires b.Valid() && Selected().Some? && ContentWritable(Selected().value)
      requires b.Tape().pos == 0
      modifies b`p, b`bitsLeft, b.buf
      ensures b.Valid() && b.Tape() == Then(old(b.Tape()), NalCode(Nal(nalRefIdc, Selected().value)))
    {
      hide BitStream.Tape, Then, PutContent, PutU, PutTrailing, ContentWritable;
      ghost var t := b.Tape();
      ghost var n := Nal(nalRefIdc, Selected().value);
      UnitTypeIs();
      b.WriteU(1, 0);
      b.WriteU(2, nalRefIdc);
      b.WriteU(5, nalUnitType);
      WriteContent(b, Selected().value);
      ghost var t1 := b.Tape();
      assert Then(t1, []) == Then(t, PutNal(n, []));
      PosGrows(t, t1, PutNal(n, []));
      b.WriteTrailingBits();
      assert Then(b.Tape(), []) == Then(t1, PutTrailing(t1.pos % 8, []));
      assert Then(t1, PutTrailing(t1.pos % 8, [])) == Then(t, PutNal(n, PutTrailing(t1.pos % 8, [])));
      PosGrows(t, b.Tape(), NalCode(n));
    }

    /** write_nal_unit into size bytes: the bytes used, with the pad byte, or -1. */
    method WriteNalUnit(buf: array<byte>, size: nat) returns (r: int)
      requires Valid() && size <= buf.Length
      requires nalUnitType !in {NON_IDR_SLICE, IDR_SLICE, AUX_SLICE, 14, 15, 20}
      requires Selected().Some? ==> ContentWritable(Selected().value)
      modifies buf
      ensures
        match Selected()
        case None => r == -1
        case Some(c) =>
          match WriteNal(Nal(nalRefIdc, c), size)
          case None => r == -1
          case Some(out) => r == |out| && buf[..r] == out
      ensures !(7 <= nalUnitType <= 11 || (nalUnitType == 6 && haveSei)) ==> r == -1
      ensures Selected().None? ==> buf[..] == old(buf[..])
    {
      hide NalCode, Escape, BitStream.Tape, BytesOf, BitsOf, Then, PutContent, ContentWritable;
      if Selected().None? {
        return -1;
      }
      ghost var n := Nal(nalRefIdc, Selected().value);
      ghost var code := NalCode(n);
      var rbsp := new byte[size](_ => 0);
      var rbspSize := size * 3 / 4;
      var b := new BitStream(rbsp, rbspSize);
      ghost var t := b.Tape();
      WriteBits(b);
      ThenFacts(t, code);
      assert b.Overrun() <==> b.Tape().pos >= |b.Tape().bits| + 8;
      if b.Overrun() {
        return -1;
      }
      var used := b.Pos();
      assert 8 * used == |code| by { WholeBytes(b); }
      ghost var bytes := rbsp[..rbspSize];
      assert b.buf == rbsp && BitsOf(bytes) == Then(t, code).bits by { TapeIs(b); }
      PrefixBytes(bytes, t, code);
      assert rbsp[..used] == bytes[..used];
      var rc, nalSize := RbspToNal(rbsp, used, buf, size);
      r := rc;
    }
  }
}
