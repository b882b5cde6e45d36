/**
 What reading a NAL unit does, in terms of its bytes: the two numbers in its first
 byte, the set or the header behind it, and which fields of a stream change. Over runs
 of units, which sets a slice is read against.
 */
module UnitReading {
  import opened Bits
  import opened BitSyntax
  import Fields
  import opened NalBytes
  import opened Sei
  import opened Syntax
  import opened SliceHeaders
  import opened SliceSyntax
  import opened NalUnits
  import S = SequenceParameterSet
  import P = PictureParameterSet

  // The first byte

  /** A byte that is 1 bit, 2 bits and 5 bits. */
  lemma ByteInThree(x: byte, a: seq<bool>, b: seq<bool>, c: seq<bool>)
    requires BitsU(8, x) == a + b + c && |a| == 1 && |b| == 2 && |c| == 5
    ensures NatOf(b) == x / 32 % 4 && NatOf(c) == x % 32
  {
    hide NatOf, BitsU;
    SmallWidths();
    Pow2Values();
    NatOfBitsU(8, x);
    NatOfConcat(a + b, c);
    NatOfConcat(a, b);
    BitsUOfNat(b);
    BitsUOfNat(c);
  }

  lemma BitsOfFirst(bytes: seq<byte>)
    requires bytes != []
    ensures BitsOf(bytes) == BitsU(8, bytes[0]) + BitsOf(bytes[1..])
  {
    hide BitAt;
    BitsOfByte(bytes[0]);
    forall i | 0 <= i < |BitsOf(bytes)|
      ensures BitsOf(bytes)[i] == (BitsU(8, bytes[0]) + BitsOf(bytes[1..]))[i]
    {
      if i < 8 {
        assert BitsOf([bytes[0]])[i] == BitsOf(bytes)[i];
      } else {
        assert BitsOf(bytes[1..])[i - 8] == BitsOf(bytes)[i];
      }
    }
  }

  lemma HeaderBits(x: byte, rest: seq<bool>)
    ensures
      var (refIdc, s1) := GetU(2, Skip(From(BitsU(8, x) + rest), 1));
      var (unitType, s2) := GetU(5, s1);
      refIdc == x / 32 % 4 && unitType == x % 32 && s2 == From(rest)
  {
    hide NatOf, BitsU;
    var w := BitsU(8, x);
    var a, b, c := w[..1], w[1..3], w[3..8];
    assert w == a + b + c;
    ByteInThree(x, a, b, c);
    assert w + rest == a + (b + (c + rest));
    SkipPrefix(a, b + (c + rest));
    SkipPrefix(b, c + rest);
    SkipPrefix(c, rest);
  }

  /** The bits behind the first byte of a unit. */
  function BehindFirst(nal: seq<byte>): Input
    requires nal != [] && Unescape(nal).Some?
  {
    FirstByteStays(nal);
    From(BitsOf(Unescape(nal).value.bytes[1..]))
  }

  lemma UnescapeIs(nal: seq<byte>)
    ensures Unescape(nal) == Unesc(0, nal)
  {}

  /** nal_ref_idc and nal_unit_type are in the first byte, and the content is read from the bits behind it. */
  lemma FirstByte(haveSei: bool, st: State, nal: seq<byte>)
    requires nal != [] && Unescape(nal).Some?
    ensures
      var st1 := st.(refIdc := nal[0] / 32 % 4, unitType := nal[0] % 32);
      ReadNal(haveSei, st, nal) ==
      match Parse(haveSei, st1, BehindFirst(nal))
      case Outside => None
      case Unhandled => Some((st1, -1))
      case Parsed(st2, s) =>
        Some((st2, if s.over >= 8 then -1 else if Unescape(nal).value.dropped then |nal| - 1 else |nal|))
  {
    hide Unescape, Unesc, BitsOf, Parse, GetU, Skip, From;
    assert Unescape(nal) == Unesc(0, nal) by { UnescapeIs(nal); }
    FirstByteStays(nal);
    var bytes := Unescape(nal).value.bytes;
    BitsOfFirst(bytes);
    HeaderBits(bytes[0], BitsOf(bytes[1..]));
  }

  // What a unit of each type changes

  /** A unit of type t whose bytes are allowed. */
  predicate HasType(nal: seq<byte>, t: nat) {
    nal != [] && Unescape(nal).Some? && nal[0] % 32 == t
  }

  predicate IsSlice(nal: seq<byte>) {
    HasType(nal, 1) || HasType(nal, 5) || HasType(nal, 19)
  }

  /** The set that the bits behind the first byte read as. */
  function SpsIn(nal: seq<byte>): S.Sps
    requires HasType(nal, 7)
  {
    S.GetSps(BehindFirst(nal)).0
  }

  function PpsIn(nal: seq<byte>): P.Pps
    requires HasType(nal, 8)
  {
    P.GetPps(BehindFirst(nal)).0
  }

  /** State st with the numbers of the first byte. */
  function Headed(st: State, nal: seq<byte>): State
    requires nal != []
  {
    st.(refIdc := nal[0] / 32 % 4, unitType := nal[0] % 32)
  }

  /** What is returned when the content was read up to s: -1 at a byte or more past the end, else the bytes used. */
  function Used(nal: seq<byte>, s: Input): int
    requires Unescape(nal).Some?
  {
    if GetTrailing(s).over >= 8 then -1 else if Unescape(nal).value.dropped then |nal| - 1 else |nal|
  }

  /** Table us is ts with entry k replaced by x. */
  predicate OnlyAt<T(==)>(us: seq<T>, ts: seq<T>, k: nat, x: T) {
    |us| == |ts| && k < |us| && us[k] == x && forall j :: 0 <= j < |us| && j != k ==> us[j] == ts[j]
  }

  /** A sequence parameter set goes to the entry with its number and to the current set, and nothing else changes. */
  lemma SpsUnitRead(haveSei: bool, st: State, nal: seq<byte>)
    requires HasType(nal, 7)
    ensures
      var x := SpsIn(nal);
      match ReadNal(haveSei, st, nal)
      case None => x.head.id >= |st.tables.spsTable|
      case Some((st', rc)) =>
        OnlyAt(st'.tables.spsTable, st.tables.spsTable, x.head.id, x) && st'.sps == x &&
        rc == Used(nal, S.GetSps(BehindFirst(nal)).1) &&
        st' == Headed(st, nal).(sps := st'.sps, tables := Tables(st'.tables.spsTable, st.tables.ppsTable))
  {
    hide ReadNal, Unescape, S.GetSps, GetTrailing;
    FirstByte(haveSei, st, nal);
  }

  /** A picture parameter set goes to the entry with its number and to the current set, and nothing else changes. */
  lemma PpsUnitRead(haveSei: bool, st: State, nal: seq<byte>)
    requires HasType(nal, 8)
    ensures
      var x := PpsIn(nal);
      match ReadNal(haveSei, st, nal)
      case None => x.id >= |st.tables.ppsTable|
      case Some((st', rc)) =>
        OnlyAt(st'.tables.ppsTable, st.tables.ppsTable, x.id, x) && st'.pps == x &&
        rc == Used(nal, P.GetPps(BehindFirst(nal)).1) &&
        st' == Headed(st, nal).(pps := st'.pps, tables := Tables(st.tables.spsTable, st'.tables.ppsTable))
  {
    hide ReadNal, Unescape, P.GetPps, GetTrailing;
    FirstByte(haveSei, st, nal);
  }

  lemma NoSuchType(haveSei: bool, st: State, s: Input)
    requires st.unitType == 0
    ensures Parse(haveSei, st, s) == Unhandled
  {}

  lemma EmptyUnit(haveSei: bool, st: State)
    ensures Unescape([]).Some?
    ensures ReadNal(haveSei, st, []) == Some((st.(refIdc := 0, unitType := 0), -1))
  {
    hide NatOf, Parse;
    NatOfZeros(2);
    NatOfZeros(5);
    assert BitsOf([]) == [];
    var s := Skip(From([]), 1);
    assert Peek(s, 2) == Zeros(2);
    assert Peek(Skip(s, 2), 5) == Zeros(5);
    NoSuchType(haveSei, st.(refIdc := 0, unitType := 0), Skip(Skip(s, 2), 5));
  }

  lemma NotAllowed(haveSei: bool, st: State, nal: seq<byte>)
    requires Unescape(nal).None?
    ensures ReadNal(haveSei, st, nal) == Some((st, -1))
  {}

  /** Units that are neither sets nor slices leave the tables, the current sets and the slice header alone. */
  lemma OtherUnitRead(haveSei: bool, st: State, nal: seq<byte>)
    requires !HasType(nal, 7) && !HasType(nal, 8) && !IsSlice(nal)
    ensures
      match ReadNal(haveSei, st, nal)
      case None => HasType(nal, 14) || HasType(nal, 15) || HasType(nal, 20) || (haveSei && HasType(nal, 6))
      case Some((st', rc)) =>
        st'.tables == st.tables && st'.sps == st.sps && st'.pps == st.pps && st'.slice == st.slice &&
        (st'.seis != st.seis ==> haveSei && HasType(nal, 6)) &&
        (st'.primaryPicType != st.primaryPicType ==> HasType(nal, 9)) &&
        (Unescape(nal).None? ==> st' == st && rc == -1) &&
        (nal != [] && Unescape(nal).Some? ==> st'.refIdc == nal[0] / 32 % 4 && st'.unitType == nal[0] % 32) &&
        (nal == [] ==> st'.unitType == 0)
  {
    hide ReadNal, Unescape, GetTrailing, GetMessages, GetU;
    if nal == [] {
      EmptyUnit(haveSei, st);
    } else if Unescape(nal).None? {
      NotAllowed(haveSei, st, nal);
    } else {
      FirstByte(haveSei, st, nal);
    }
  }

  /** pic_parameter_set_id is the third number of a slice header. */
  function PpsIdIn(nal: seq<byte>): nat
    requires IsSlice(nal)
  {
    GetUE(GetUE(GetUE(BehindFirst(nal)).1).1).0
  }

  /** What the header h stands for: the unit's first byte, and the sets with the numbers that it leads to. */
  predicate ReadAgainst(tables: Tables, nal: seq<byte>, c: Context, h: SliceHeader)
    requires nal != []
  {
    c.nalUnitType == nal[0] % 32 && c.nalRefIdc == nal[0] / 32 % 4 &&
    h.ppsId < |tables.ppsTable| && c.pps == tables.ppsTable[h.ppsId] &&
    c.pps.spsId < |tables.spsTable| && c.sps == tables.spsTable[c.pps.spsId]
  }

  /** The elements of section 7.3.3 stand in the unit, and e is the cursor behind them. */
  predicate HeaderStands(nal: seq<byte>, c: Context, h: SliceHeader, e: Input)
    requires nal != [] && Unescape(nal).Some?
  {
    Past(HeaderList(c, h), BehindFirst(nal)) == Some(e) && BodyShape(c, h.sliceType, h.body, e)
  }

  lemma RoomBehind(f: Fields.Field, s: Input)
    ensures
      var s' := Fields.GetField(f, s).1;
      s'.rest != [] ==> s'.over == s.over
  {}

  lemma {:induction false} RoomLeftFrom(fs: seq<Fields.Field>, i: nat, s: Input)
    requires i <= |fs|
    ensures PastFrom(fs, i, s).Some? && PastFrom(fs, i, s).value.rest != [] ==> PastFrom(fs, i, s).value.over == s.over
    decreases |fs| - i
  {
    hide Fields.GetField;
    if i < |fs| {
      var s' := Fields.GetField(fs[i], s).1;
      RoomBehind(fs[i], s);
      NothingBehindFrom(fs, i + 1, s');
      RoomLeftFrom(fs, i + 1, s');
    }
  }

  /** A reader that has bits left has read none past the end. */
  lemma RoomLeft(fs: seq<Fields.Field>, s: Input)
    ensures Past(fs, s).Some? && Past(fs, s).value.rest != [] ==> Past(fs, s).value.over == s.over
  {
    hide PastFrom;
    RoomLeftFrom(fs, 0, s);
  }

  /**
   A slice is read against the picture set whose number its header names and the
   sequence set whose number stands in that set; only these and the header change.
   It fails to be read when there are no such entries or no bits behind the header.
   */
  lemma SliceUnitRead(haveSei: bool, st: State, nal: seq<byte>) returns (c: Context, h: SliceHeader, e: Input)
    requires IsSlice(nal)
    ensures
      match ReadNal(haveSei, st, nal)
      case None =>
        PpsIdIn(nal) >= |st.tables.ppsTable| ||
        st.tables.ppsTable[PpsIdIn(nal)].spsId >= |st.tables.spsTable| ||
        (ReadAgainst(st.tables, nal, c, h) && HeaderStands(nal, c, h, e) && e.rest == [])
      case Some((st', rc)) =>
        ReadAgainst(st.tables, nal, c, h) && HeaderStands(nal, c, h, e) && e.rest != [] &&
        h.firstMbInSlice == GetUE(BehindFirst(nal)).0 && h.ppsId == PpsIdIn(nal) &&
        st' == Headed(st, nal).(slice := Some(h), sps := c.sps, pps := c.pps) &&
        rc == if Unescape(nal).value.dropped then |nal| - 1 else |nal|
  {
    hide ReadNal, Unescape, GetBody, HeaderList, BodyShape, GetUE;
    FirstByte(haveSei, st, nal);
    var s := BehindFirst(nal);
    HeaderRead(st.tables, nal[0] % 32, nal[0] / 32 % 4, s);
    c, h, e := *, *, s;
    match GetSliceHeader(st.tables, nal[0] % 32, nal[0] / 32 % 4, s) {
      case None =>
      case Some((h', c', e')) =>
        c, h, e := c', h', e';
        RoomLeft(HeaderList(c, h), s);
    }
  }

  // Runs of units

  /**
   The state behind the first i units, read one after the other from state st. An
   analyser clears the type and the slice header in front of each unit.
   */
  function StateAt(haveSei: bool, clears: bool, st: State, nals: seq<seq<byte>>, i: nat): Option<State>
    requires i <= |nals|
  {
    if i == 0 then Some(st) else
    match StateAt(haveSei, clears, st, nals, i - 1)
    case None => None
    case Some(st1) =>
      match ReadNal(haveSei, if clears then st1.(unitType := 0, slice := None) else st1, nals[i - 1])
      case None => None
      case Some((st2, _)) => Some(st2)
  }

  /** The set with number k in the last of the first i units that carries one; x when there is none. */
  function LastSps(nals: seq<seq<byte>>, i: nat, k: nat, x: S.Sps): S.Sps
    requires i <= |nals|
  {
    if i == 0 then x
    else if HasType(nals[i - 1], 7) && SpsIn(nals[i - 1]).head.id == k then SpsIn(nals[i - 1])
    else LastSps(nals, i - 1, k, x)
  }

  function LastPps(nals: seq<seq<byte>>, i: nat, k: nat, x: P.Pps): P.Pps
    requires i <= |nals|
  {
    if i == 0 then x
    else if HasType(nals[i - 1], 8) && PpsIn(nals[i - 1]).id == k then PpsIn(nals[i - 1])
    else LastPps(nals, i - 1, k, x)
  }

  /** Every entry of the tables us is the last set with its number in the first i units, or was in the tables ts. */
  predicate HoldsLast(us: Tables, nals: seq<seq<byte>>, i: nat, ts: Tables)
    requires i <= |nals|
  {
    |us.spsTable| == |ts.spsTable| && |us.ppsTable| == |ts.ppsTable| &&
    (forall k :: 0 <= k < |us.spsTable| ==> us.spsTable[k] == LastSps(nals, i, k, ts.spsTable[k])) &&
    (forall k :: 0 <= k < |us.ppsTable| ==> us.ppsTable[k] == LastPps(nals, i, k, ts.ppsTable[k]))
  }

  lemma SpsEntry(nals: seq<seq<byte>>, i: nat, ts: Tables, us: Tables, vs: Tables)
    requires i < |nals| && HasType(nals[i], 7) && HoldsLast(us, nals, i, ts)
    requires OnlyAt(vs.spsTable, us.spsTable, SpsIn(nals[i]).head.id, SpsIn(nals[i])) && vs.ppsTable == us.ppsTable
    ensures HoldsLast(vs, nals, i + 1, ts)
  {
    hide SpsIn, PpsIn, Unescape;
  }

  lemma PpsEntry(nals: seq<seq<byte>>, i: nat, ts: Tables, us: Tables, vs: Tables)
    requires i < |nals| && HasType(nals[i], 8) && HoldsLast(us, nals, i, ts)
    requires OnlyAt(vs.ppsTable, us.ppsTable, PpsIn(nals[i]).id, PpsIn(nals[i])) && vs.spsTable == us.spsTable
    ensures HoldsLast(vs, nals, i + 1, ts)
  {
    hide SpsIn, PpsIn, Unescape;
  }

  lemma NoEntry(nals: seq<seq<byte>>, i: nat, ts: Tables, us: Tables)
    requires i < |nals| && !HasType(nals[i], 7) && !HasType(nals[i], 8) && HoldsLast(us, nals, i, ts)
    ensures HoldsLast(us, nals, i + 1, ts)
  {
    hide SpsIn, PpsIn, Unescape, HasType;
  }

  lemma TablesStep(haveSei: bool, st: State, nals: seq<seq<byte>>, i: nat, ts: Tables)
    requires i < |nals| && HoldsLast(st.tables, nals, i, ts) && ReadNal(haveSei, st, nals[i]).Some?
    ensures HoldsLast(ReadNal(haveSei, st, nals[i]).value.0.tables, nals, i + 1, ts)
  {
    hide ReadNal, SpsIn, PpsIn, Unescape, HoldsLast, OnlyAt, HeaderStands, HasType, IsSlice;
    var vs := ReadNal(haveSei, st, nals[i]).value.0.tables;
    if HasType(nals[i], 7) {
      SpsUnitRead(haveSei, st, nals[i]);
      SpsEntry(nals, i, ts, st.tables, vs);
    } else if HasType(nals[i], 8) {
      PpsUnitRead(haveSei, st, nals[i]);
      PpsEntry(nals, i, ts, st.tables, vs);
    } else {
      if IsSlice(nals[i]) {
        var _, _, _ := SliceUnitRead(haveSei, st, nals[i]);
      } else {
        OtherUnitRead(haveSei, st, nals[i]);
      }
      NoEntry(nals, i, ts, st.tables);
    }
  }

  lemma NothingYet(nals: seq<seq<byte>>, ts: Tables)
    ensures HoldsLast(ts, nals, 0, ts)
  {}

  /** After any run of units, every entry of the tables is the last set that was read with its number. */
  lemma {:induction false} TablesHoldLast(haveSei: bool, clears: bool, st: State, nals: seq<seq<byte>>, i: nat)
    requires i <= |nals|
    ensures
      match StateAt(haveSei, clears, st, nals, i)
      case None => true
      case Some(st') => HoldsLast(st'.tables, nals, i, st.tables)
  {
    hide ReadNal, HoldsLast;
    if i == 0 {
      NothingYet(nals, st.tables);
    } else {
      TablesHoldLast(haveSei, clears, st, nals, i - 1);
      var before := StateAt(haveSei, clears, st, nals, i - 1);
      if before.Some? {
        var st1 := if clears then before.value.(unitType := 0, slice := None) else before.value;
        if ReadNal(haveSei, st1, nals[i - 1]).Some? {
          TablesStep(haveSei, st1, nals, i - 1, st.tables);
        }
      }
    }
  }

  /**
   Unit i of a run carries header h, and the sets in c are the last picture set with the number
   that the header names, and the last sequence set with the number in that set, in front of it.
   */
  predicate ReadsLast(ts: Tables, nals: seq<seq<byte>>, i: nat, c: Context, h: SliceHeader, e: Input)
    requires i < |nals| && nals[i] != [] && Unescape(nals[i]).Some?
  {
    HeaderStands(nals[i], c, h, e) && e.rest != [] &&
    c.nalUnitType == nals[i][0] % 32 && c.nalRefIdc == nals[i][0] / 32 % 4 &&
    h.ppsId < |ts.ppsTable| && c.pps == LastPps(nals, i, h.ppsId, ts.ppsTable[h.ppsId]) &&
    c.pps.spsId < |ts.spsTable| && c.sps == LastSps(nals, i, c.pps.spsId, ts.spsTable[c.pps.spsId])
  }

  /** In every run of units, a slice is read against the last sets with the numbers that it leads to. */
  lemma SliceInRun(haveSei: bool, clears: bool, st: State, nals: seq<seq<byte>>, i: nat)
    returns (c: Context, h: SliceHeader, e: Input)
    requires i < |nals| && IsSlice(nals[i]) && StateAt(haveSei, clears, st, nals, i + 1).Some?
    ensures
      var st' := StateAt(haveSei, clears, st, nals, i + 1).value;
      st'.slice == Some(h) && st'.sps == c.sps && st'.pps == c.pps && ReadsLast(st.tables, nals, i, c, h, e)
  {
    hide ReadNal, HeaderStands, SpsIn, PpsIn, Unescape;
    TablesHoldLast(haveSei, clears, st, nals, i);
    var before := StateAt(haveSei, clears, st, nals, i).value;
    c, h, e := SliceUnitRead(haveSei, if clears then before.(unitType := 0, slice := None) else before, nals[i]);
  }

  // The units that a scan returns

  function NalsOf(us: seq<(nat, seq<byte>)>): seq<seq<byte>> {
    seq(|us|, i requires 0 <= i < |us| => us[i].1)
  }

  /** Reading units one after the other ends in the state behind the last one. */
  lemma {:induction false} ReadAllEnds(haveSei: bool, st: State, us: seq<(nat, seq<byte>)>, i: nat)
    requires i <= |us|
    ensures
      match StateAt(haveSei, false, st, NalsOf(us), i)
      case None => ReadAll(Reader(haveSei), st, us).None?
      case Some(st') =>
        match ReadAll(Reader(haveSei), st', us[i..])
        case None => ReadAll(Reader(haveSei), st, us).None?
        case Some((st'', _)) =>
          ReadAll(Reader(haveSei), st, us).Some? && ReadAll(Reader(haveSei), st, us).value.0 == st''
  {
    hide ReadNal;
    if i == 0 {
      assert us[0..] == us;
    } else {
      ReadAllEnds(haveSei, st, us, i - 1);
      assert us[i - 1..][1..] == us[i..] && us[i - 1..][0] == us[i - 1];
    }
  }

  lemma ReadAllIsLast(haveSei: bool, st: State, us: seq<(nat, seq<byte>)>)
    ensures
      match ReadAll(Reader(haveSei), st, us)
      case None => StateAt(haveSei, false, st, NalsOf(us), |us|).None?
      case Some((st', _)) => StateAt(haveSei, false, st, NalsOf(us), |us|) == Some(st')
  {
    hide ReadNal, Reader;
    ReadAllEnds(haveSei, st, us, |us|);
    assert us[|us|..] == [];
  }

  lemma EscapeKeepsFirst(x: seq<byte>)
    requires x != []
    ensures Escape(x) != [] && Escape(x)[0] == x[0]
  {}

  lemma ThreeInByte(a: seq<bool>, b: seq<bool>, c: seq<bool>)
    requires |a| == 1 && |b| == 2 && |c| == 5
    ensures NatOf(a + b + c) == 128 * NatOf(a) + 32 * NatOf(b) + NatOf(c)
  {
    hide NatOf;
    SmallWidths();
    NatOfConcat(a + b, c);
    NatOfConcat(a, b);
  }

  lemma FirstByteOf(code: seq<bool>)
    requires |code| % 8 == 0 && code != []
    ensures BytesOf(code) != [] && BytesOf(code)[0] == NatOf(code[0..8])
  {}

  /** A unit that is written has a zero byte in front of it, and its header is a zero bit and the two numbers. */
  lemma WrittenHeader(n: Nal, size: nat)
    requires n.refIdc < 4
    ensures
      match WriteNal(n, size)
      case None => true
      case Some(out) => |out| >= 2 && out[0] == 0 && out[1] == 32 * n.refIdc + UnitType(n.content)
  {
    hide Escape, PutContent, PutTrailing, NatOf, BitsU, Pow2;
    RbspEnds(n);
    EscapeKeepsFirst(Rbsp(n));
    SmallWidths();
    ContentFits(n);
    var a, b, c := BitsU(1, 0), BitsU(2, n.refIdc), BitsU(5, UnitType(n.content));
    var code := NalCode(n);
    var rest := PutContent(n.content, PutTrailing(|PutNal(n, [])| % 8, []));
    assert code == a + (b + (c + rest));
    assert code[0..8] == a + b + c;
    ThreeInByte(a, b, c);
    NatOfBitsU(1, 0);
    NatOfBitsU(2, n.refIdc);
    NatOfBitsU(5, UnitType(n.content));
    FirstByteOf(code);
  }
}
