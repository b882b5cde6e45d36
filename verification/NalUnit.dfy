/** NAL units, section 7.3.1 of ITU-T H.264: the state of a stream, and whole units read and written. */
module NalUnits {
  import opened Bits
  import opened BitSyntax
  import opened BitCursor
  import opened NalBytes
  import opened AnnexB
  import opened Framing
  import opened FileScan
  import opened Sei
  import opened SliceHeaders
  import opened Lengths
  import S = SequenceParameterSet
  import P = PictureParameterSet

  const NON_IDR_SLICE: nat := 1
  const AUX_SLICE: nat := 19
  const SPS_COUNT: nat := 32
  const PPS_COUNT: nat := 256

  /** What a unit that can be written carries. */
  datatype Content =
    | SpsUnit(sps: S.Sps)
    | PpsUnit(pps: P.Pps)
    | SeiUnit(messages: seq<Message>)
    | Delimiter(primaryPicType: nat)
    | EndOfSequence
    | EndOfStream

  datatype Nal = Nal(refIdc: nat, content: Content)

  /** The fields of a stream that reading a unit changes. */
  datatype State = State(
    refIdc: nat,
    unitType: nat,
    sps: S.Sps,
    pps: P.Pps,
    tables: Tables,
    primaryPicType: nat,
    seis: seq<Message>,
    slice: Option<SliceHeader>)

  /** A set whose fields are all 0, as in tables that nothing was stored in. */
  const NO_SPS := S.Sps(
    S.Head(0, false, false, false, false, false, false, 0, 0),
    Some(S.Chroma(0, false, 0, 0, false, None)), 0, S.Lsb(0),
    S.Format(0, false, 0, 0, false, false, false, None), None)

  const NO_PPS := P.Pps(0, 0, false, false, P.OneGroup, P.Prediction(0, 0, false, 0, 0, 0, 0, false, false, false),
    P.NO_TAIL)

  function UnitType(c: Content): nat {
    match c
    case SpsUnit(_) => 7
    case PpsUnit(_) => 8
    case SeiUnit(_) => 6
    case Delimiter(_) => 9
    case EndOfSequence => 10
    case EndOfStream => 11
  }

  // Codes

  function PutContent(c: Content, rest: seq<bool>): seq<bool> {
    match c
    case SpsUnit(x) => S.PutSps(x, rest)
    case PpsUnit(x) => P.PutPps(x, rest)
    case SeiUnit(ms) => PutMessages(ms, 0, rest)
    case Delimiter(t) => PutU(3, t, rest)
    case EndOfSequence => rest
    case EndOfStream => rest
  }

  /** The header of a unit in front of its content. */
  function PutUnit(refIdc: nat, unitType: nat, content: seq<bool>): (r: seq<bool>)
    ensures |r| == 8 + |content|
  {
    PutU(1, 0, PutU(2, refIdc, PutU(5, unitType, content)))
  }

  function UnitBytes(refIdc: nat, unitType: nat, content: seq<bool>): seq<byte>
    requires |content| % 8 == 0
  {
    BytesOf(PutUnit(refIdc, unitType, content))
  }

  function PutNal(n: Nal, rest: seq<bool>): seq<bool> {
    PutUnit(n.refIdc, UnitType(n.content), PutContent(n.content, rest))
  }

  lemma Aligned(n: nat)
    ensures (n + 8 - n % 8) % 8 == 0
  {}

  lemma ContentSized(c: Content, rest: seq<bool>)
    ensures EndsWith(PutContent(c, rest), rest) && |PutContent(c, rest)| == |PutContent(c, [])| + |rest|
  {
    hide EndsWith, S.PutSps, P.PutPps, PutMessages, PutU;
    SpsSized();
    PpsSized();
    Elements();
    match c
    case SpsUnit(x) =>
    case PpsUnit(x) =>
    case SeiUnit(ms) => MessagesSized(ms, 0, rest);
    case Delimiter(t) =>
    case EndOfSequence => EndsWithSelf(rest);
    case EndOfStream => EndsWithSelf(rest);
  }

  lemma NalSized(n: Nal, rest: seq<bool>)
    ensures EndsWith(PutNal(n, rest), rest) && |PutNal(n, rest)| == |PutNal(n, [])| + |rest|
  {
    hide EndsWith, PutContent, PutU;
    ContentSized(n.content, rest);
    Elements();
    EndsTrans();
  }

  lemma CodeIsAligned(n: Nal)
    ensures
      var code := PutNal(n, PutTrailing(|PutNal(n, [])| % 8, []));
      |code| % 8 == 0 && |code| > 0
  {
    hide PutNal, EndsWith, GetTrailing;
    NalSized(n, PutTrailing(|PutNal(n, [])| % 8, []));
    Aligned(|PutNal(n, [])|);
  }

  /** The bits of a unit with its trailing bits. */
  function NalCode(n: Nal): (r: seq<bool>)
    ensures |r| % 8 == 0 && |r| > 0
  {
    CodeIsAligned(n);
    PutNal(n, PutTrailing(|PutNal(n, [])| % 8, []))
  }

  /** The payload bytes of a unit. */
  function Rbsp(n: Nal): seq<byte> {
    BytesOf(NalCode(n))
  }

  lemma {:induction false} ZeroHasNoBit(k: nat)
    ensures !BitAt(0, k)
  {
    if k > 0 {
      ZeroHasNoBit(k - 1);
    }
  }

  /** The stop bit is in the last byte. */
  lemma {:induction false} RbspEnds(n: Nal)
    ensures Rbsp(n) != [] && Rbsp(n)[|Rbsp(n)| - 1] != 0
  {
    hide PutNal;
    var code := NalCode(n);
    var k := |PutNal(n, [])| % 8;
    NalSized(n, PutTrailing(k, []));
    var w := code[|code| - 8..];
    assert PutTrailing(k, [])[0];
    assert w[k];
    BitsOfByteOf(w);
    if ByteOf(w) == 0 {
      assert BitAt(0, 7 - k);
      ZeroHasNoBit(7 - k);
    }
    assert code[8 * (|code| / 8 - 1)..8 * (|code| / 8 - 1) + 8] == w;
  }

  /** write_nal_unit into size bytes: the pad byte and the escaped payload; None when they do not fit. */
  function WriteNal(n: Nal, size: nat): Option<seq<byte>> {
    var out := [0 as byte] + Escape(Rbsp(n));
    if |Rbsp(n)| > size * 3 / 4 || |out| > size then None else Some(out)
  }

  /**
   Writing fails exactly when the payload is more than three quarters of the buffer or
   the escaped unit with its pad byte is larger; 3/2 of the payload is always enough.
   */
  lemma WriteFitsIff(n: Nal, size: nat)
    ensures WriteNal(n, size).Some? <==> |Rbsp(n)| <= 3 * size / 4 && |Escape(Rbsp(n))| < size
    ensures 2 * size >= 3 * |Rbsp(n)| ==> WriteNal(n, size).Some?
  {
    hide Rbsp, Escape;
    RbspEnds(n);
    EscapeSizeBound(Rbsp(n));
  }

  // Reading

  /**
   Outside stands for what the model leaves open: numbers outside the tables, slice
   headers behind which nothing is left, and units of other annexes.
   */
  datatype Parsed = Outside | Unhandled | Parsed(st: State, s: Input)

  function StoreSps(st: State, x: S.Sps): State
    requires x.head.id < |st.tables.spsTable|
  {
    st.(sps := x, tables := st.tables.(spsTable := st.tables.spsTable[x.head.id := x]))
  }

  function StorePps(st: State, x: P.Pps): State
    requires x.id < |st.tables.ppsTable|
  {
    st.(pps := x, tables := st.tables.(ppsTable := st.tables.ppsTable[x.id := x]))
  }

  function Parse(haveSei: bool, st: State, s: Input): Parsed {
    if st.unitType in {NON_IDR_SLICE, IDR_SLICE, AUX_SLICE} then
      match GetSliceHeader(st.tables, st.unitType, st.refIdc, s)
      case None => Outside
      case Some((h, c, s')) =>
        // the slice data behind a header that reaches the end of the payload has a negative size
        if s'.rest == [] then Outside else Parsed(st.(slice := Some(h), sps := c.sps, pps := c.pps), s')
    else if st.unitType == 6 && haveSei then
      match GetMessages(s)
      case None => Outside
      case Some((ms, s')) => Parsed(st.(seis := ms), GetTrailing(s'))
    else if st.unitType == 7 then
      var (x, s') := S.GetSps(s);
      if x.head.id >= |st.tables.spsTable| then Outside else
      Parsed(StoreSps(st, x), GetTrailing(s'))
    else if st.unitType == 8 then
      var (x, s') := P.GetPps(s);
      if x.id >= |st.tables.ppsTable| then Outside else
      Parsed(StorePps(st, x), GetTrailing(s'))
    else if st.unitType == 9 then
      var (t, s') := GetU(3, s);
      Parsed(st.(primaryPicType := t), GetTrailing(s'))
    else if st.unitType in {10, 11} then
      Parsed(st, GetTrailing(s))
    else if st.unitType in {14, 15, 20} then
      Outside
    else
      Unhandled
  }

  /** read_nal_unit: the new state, and the size or -1; None when the unit leads outside the model. */
  function ReadNal(haveSei: bool, st: State, nal: seq<byte>): Option<(State, int)> {
    match Unescape(nal)
    case None => Some((st, -1))
    case Some(payload) =>
      var (refIdc, s1) := GetU(2, Skip(From(BitsOf(payload.bytes)), 1));
      var (unitType, s2) := GetU(5, s1);
      var st1 := st.(refIdc := refIdc, unitType := unitType);
      match Parse(haveSei, st1, s2)
      case Outside => None
      case Unhandled => Some((st1, -1))
      case Parsed(st2, s3) =>
        Some((st2, if s3.over >= 8 then -1 else if payload.dropped then |nal| - 1 else |nal|))
  }

  // Whole units come back

  predicate ContentOk(haveSei: bool, c: Content) {
    match c
    case SpsUnit(x) => S.SpsOk(x) && x.head.id < SPS_COUNT
    case PpsUnit(x) => P.PpsOk(x) && x.id < PPS_COUNT
    case SeiUnit(ms) => haveSei && ms != [] && forall m <- ms :: MessageOk(m) && NumbersOk(m)
    case Delimiter(t) => t < 8
    case EndOfSequence => true
    case EndOfStream => true
  }

  predicate UnitOk(haveSei: bool, n: Nal) {
    n.refIdc < 4 && ContentOk(haveSei, n.content)
  }

  predicate TablesOk(st: State) {
    |st.tables.spsTable| == SPS_COUNT && |st.tables.ppsTable| == PPS_COUNT
  }

  /** The state after unit n was read. */
  function Received(st: State, n: Nal): State {
    var st1 := st.(refIdc := n.refIdc, unitType := UnitType(n.content));
    match n.content
    case SpsUnit(x) => if x.head.id < |st.tables.spsTable| then StoreSps(st1, x) else st1
    case PpsUnit(x) => if x.id < |st.tables.ppsTable| then StorePps(st1, x) else st1
    case SeiUnit(ms) => st1.(seis := ms)
    case Delimiter(t) => st1.(primaryPicType := t)
    case EndOfSequence => st1
    case EndOfStream => st1
  }

  lemma TrailingIsStop(k: nat)
    requires k < 8
    ensures StopOnly(PutTrailing(k, []))
  {}

  lemma ContentBack(haveSei: bool, st: State, n: Nal, k: nat)
    requires UnitOk(haveSei, n) && TablesOk(st) && k < 8
    requires st.refIdc == n.refIdc && st.unitType == UnitType(n.content)
    ensures Parse(haveSei, st, From(PutContent(n.content, PutTrailing(k, [])))) ==
            Parsed(Received(st, n), From([]))
  {
    hide S.PutSps, S.GetSps, P.PutPps, P.GetPps, PutMessages, GetMessages, PutU, GetU, PutTrailing, GetTrailing, From;
    hide MessageOk, NumbersOk, S.SpsOk, P.PpsOk;
    var rest := PutTrailing(k, []);
    assert StopOnly(rest) by { TrailingIsStop(k); }
    match n.content
    case SpsUnit(x) =>
    case PpsUnit(x) =>
    case SeiUnit(ms) => SeiRoundTripIff(ms, rest);
    case Delimiter(t) => SmallWidths();
    case EndOfSequence =>
    case EndOfStream =>
  }

  lemma ReceivedAgain(st: State, n: Nal)
    ensures Received(st.(refIdc := n.refIdc, unitType := UnitType(n.content)), n) == Received(st, n)
  {}

  lemma FromEmpty()
    ensures From([]).over == 0
  {}

  lemma SkipZero(rest: seq<bool>)
    ensures Skip(From(PutU(1, 0, rest)), 1) == From(rest)
  {
    SkipPrefix(BitsU(1, 0), rest);
  }

  /** What the bytes of a unit read as: its header first, and then the content by its type. */
  lemma UnitReads(haveSei: bool, st: State, refIdc: nat, unitType: nat, content: seq<bool>)
    requires refIdc < 4 && unitType < 32 && |content| % 8 == 0
    ensures
      var nal := Escape(UnitBytes(refIdc, unitType, content));
      var st1 := st.(refIdc := refIdc, unitType := unitType);
      ReadNal(haveSei, st, nal) ==
      match Parse(haveSei, st1, From(content))
      case Outside => None
      case Unhandled => Some((st1, -1))
      case Parsed(st2, s) => Some((st2, if s.over >= 8 then -1 else |nal|))
  {
    hide Unescape, Escape, BytesOf, BitsOf, Parse, GetU, PutU, From;
    var code := PutUnit(refIdc, unitType, content);
    UnescapeOfEscape(BytesOf(code));
    BitsOfBytesOf(code);
    SmallWidths();
    SkipZero(PutU(2, refIdc, PutU(5, unitType, content)));
  }

  lemma ContentFits(n: Nal)
    ensures UnitType(n.content) < 32
    ensures |PutContent(n.content, PutTrailing(|PutNal(n, [])| % 8, []))| % 8 == 0
    ensures Rbsp(n) ==
            UnitBytes(n.refIdc, UnitType(n.content), PutContent(n.content, PutTrailing(|PutNal(n, [])| % 8, [])))
  {
    hide PutContent, PutTrailing, PutU;
    var code := NalCode(n);
    assert |code| % 8 == 0;
  }

  /** What the bytes of a payload read as. */
  lemma RbspReads(haveSei: bool, st: State, n: Nal)
    requires UnitOk(haveSei, n) && TablesOk(st)
    ensures ReadNal(haveSei, st, Escape(Rbsp(n))) == Some((Received(st, n), |Escape(Rbsp(n))|))
  {
    hide Escape, Rbsp, UnitBytes, PutContent, Parse, ReadNal, PutNal, PutTrailing, Received, ContentOk, From;
    var k := |PutNal(n, [])| % 8;
    ContentFits(n);
    var st1 := st.(refIdc := n.refIdc, unitType := UnitType(n.content));
    UnitReads(haveSei, st, n.refIdc, UnitType(n.content), PutContent(n.content, PutTrailing(k, [])));
    ContentBack(haveSei, st1, n, k);
    assert Received(st1, n) == Received(st, n) by { ReceivedAgain(st, n); }
    assert From([]).over == 0 by { FromEmpty(); }
  }

  /**
   The whole stack: what write_nal_unit put into a buffer, read from byte 1 on,
   succeeds with the size that was written, and leaves the content in the stream.
   */
  lemma {:induction false} WrittenNalReads(haveSei: bool, st: State, n: Nal, size: nat)
    requires UnitOk(haveSei, n) && TablesOk(st)
    ensures
      match WriteNal(n, size)
      case None => true
      case Some(out) => ReadNal(haveSei, st, out[1..]) == Some((Received(st, n), |out| - 1))
  {
    hide Escape, Rbsp, ReadNal, Received, ContentOk;
    RbspReads(haveSei, st, n);
    if WriteNal(n, size).Some? {
      assert WriteNal(n, size).value[1..] == Escape(Rbsp(n));
    }
  }

  // Which parameter sets come back

  predicate SetUnit(n: Nal) {
    n.refIdc < 4 && n.content.SpsUnit? && InRange(n.content.sps) && n.content.sps.head.id < SPS_COUNT
  }

  /** A set that is stored as it was written, with the reader less than a byte past the end, has no 4:4:4 matrices. */
  lemma StoredSet(haveSei: bool, st: State, n: Nal, k: nat)
    requires SetUnit(n) && TablesOk(st) && k < 8 && st.unitType == UnitType(n.content)
    ensures
      match Parse(haveSei, st, From(PutContent(n.content, PutTrailing(k, []))))
      case Parsed(st', s) => st'.sps == n.content.sps && s.over < 8 ==> !Has444Matrices(n.content.sps)
      case _ => true
  {
    hide S.PutSps, S.GetSps, InRange, Has444Matrices, PutTrailing, GetTrailing, From;
    if Has444Matrices(n.content.sps) {
      MatricesOverrun(n.content.sps, k);
    }
  }

  lemma NotMatrices(x: S.Sps)
    requires InRange(x) && !Has444Matrices(x)
    ensures S.SpsOk(x)
  {}

  /**
   Of the sequence parameter sets whose untransmitted fields hold the defaults,
   exactly those without matrices in 4:4:4 come back: writing the unit and reading
   it succeeds and leaves the set in the stream and its table.
   */
  lemma WrittenSetReadsIff(haveSei: bool, st: State, n: Nal, size: nat)
    requires SetUnit(n) && TablesOk(st)
    ensures
      match WriteNal(n, size)
      case None => true
      case Some(out) =>
        ReadNal(haveSei, st, out[1..]) == Some((Received(st, n), |out| - 1)) <==> !Has444Matrices(n.content.sps)
  {
    hide Escape, Rbsp, UnitBytes, ReadNal, Parse, InRange, Has444Matrices, PutContent, PutTrailing, PutNal, From;
    if WriteNal(n, size).Some? {
      assert WriteNal(n, size).value[1..] == Escape(Rbsp(n));
      if !Has444Matrices(n.content.sps) {
        assert S.SpsOk(n.content.sps) by { NotMatrices(n.content.sps); }
        WrittenNalReads(haveSei, st, n, size);
      } else {
        var st1 := st.(refIdc := n.refIdc, unitType := UnitType(n.content));
        ContentFits(n);
        UnitReads(haveSei, st, n.refIdc, UnitType(n.content),
                  PutContent(n.content, PutTrailing(|PutNal(n, [])| % 8, [])));
        StoredSet(haveSei, st1, n, |PutNal(n, [])| % 8);
      }
    }
  }

  // Slice units

  /** The state after a slice with header h was read, c being the sets that it refers to. */
  function ReceivedSlice(st: State, c: Context, h: SliceHeader): State {
    st.(refIdc := c.nalRefIdc, unitType := c.nalUnitType, slice := Some(h), sps := c.sps, pps := c.pps)
  }

  /**
   A slice of any of the three types, whatever data stand behind its header, reads
   as that header, together with the sets of the tables that it refers to.
   */
  lemma SliceReads(haveSei: bool, st: State, c: Context, h: SliceHeader, data: seq<bool>)
    requires c.nalUnitType in {NON_IDR_SLICE, IDR_SLICE, AUX_SLICE} && c.nalRefIdc < 4
    requires Lookup(st.tables, c.nalUnitType, c.nalRefIdc, h.ppsId) == Some(c) && SliceHeaderOk(c, h)
    requires data != [] && |PutSliceHeader(c, h, data)| % 8 == 0
    ensures
      var nal := Escape(UnitBytes(c.nalRefIdc, c.nalUnitType, PutSliceHeader(c, h, data)));
      ReadNal(haveSei, st, nal) == Some((ReceivedSlice(st, c, h), |nal|))
  {
    hide Escape, UnitBytes, PutSliceHeader, GetSliceHeader, ReadNal, SliceHeaderOk, Lookup;
    UnitReads(haveSei, st, c.nalRefIdc, c.nalUnitType, PutSliceHeader(c, h, data));
    SliceHeaderRoundTrip(st.tables, c, h, data);
  }

  // Streams of units

  /** Reading the units that a scan returned, one after the other, from state st. */
  function ReadAll<T>(read: (T, seq<byte>) -> Option<(T, int)>, st: T,
                      us: seq<(nat, seq<byte>)>): Option<(T, seq<int>)>
  {
    if us == [] then Some((st, [])) else
    match read(st, us[0].1)
    case None => None
    case Some((st', rc)) =>
      match ReadAll(read, st', us[1..])
      case None => None
      case Some((st'', rcs)) => Some((st'', [rc] + rcs))
  }

  function Reader(haveSei: bool): (State, seq<byte>) -> Option<(State, int)> {
    (st, nal) => ReadNal(haveSei, st, nal)
  }

  function ReceivedAll(st: State, ns: seq<Nal>): State
    decreases |ns|
  {
    if ns == [] then st else ReceivedAll(Received(st, ns[0]), ns[1..])
  }

  /**
   The units in the buffers that write_nal_unit filled, without their pad bytes, and
   with zeros before start codes.
   */
  function Written(zeros: seq<nat>, ns: seq<Nal>): (ps: seq<Piece>)
    requires |zeros| == |ns|
    ensures |ps| == |ns|
  {
    if ns == [] then [] else [Piece(zeros[0], Escape(Rbsp(ns[0])))] + Written(zeros[1..], ns[1..])
  }

  lemma {:induction false} WrittenOk(zeros: seq<nat>, ns: seq<Nal>)
    requires |zeros| == |ns|
    ensures PiecesOk(Written(zeros, ns))
  {
    hide NalOk, Rbsp, Escape;
    if ns != [] {
      WrittenOk(zeros[1..], ns[1..]);
      RbspEnds(ns[0]);
      EscapedIsOk(Rbsp(ns[0]));
    }
  }

  function Sizes(ps: seq<Piece>): seq<int> {
    if ps == [] then [] else [|ps[0].nal|] + Sizes(ps[1..])
  }

  lemma OneRead(haveSei: bool, st: State, n: Nal)
    requires UnitOk(haveSei, n) && TablesOk(st)
    ensures Reader(haveSei)(st, Escape(Rbsp(n))) == Some((Received(st, n), |Escape(Rbsp(n))|))
    ensures TablesOk(Received(st, n))
  {
    hide ReadNal, Escape, Rbsp, UnitOk;
    RbspReads(haveSei, st, n);
  }

  lemma {:induction false} AllRead(haveSei: bool, st: State, zeros: seq<nat>, ns: seq<Nal>, k: nat, off: nat)
    requires (forall n <- ns :: UnitOk(haveSei, n)) && TablesOk(st)
    requires |zeros| == |ns| && k <= |ns|
    ensures ReadAll(Reader(haveSei), st, Framed(Written(zeros, ns)[..k], off)) ==
            Some((ReceivedAll(st, ns[..k]), Sizes(Written(zeros, ns)[..k])))
    decreases |ns|
  {
    hide Reader, Received, UnitOk, Escape, Rbsp, TablesOk;
    var ps := Written(zeros, ns)[..k];
    if k > 0 {
      OneRead(haveSei, st, ns[0]);
      AllRead(haveSei, Received(st, ns[0]), zeros[1..], ns[1..], k - 1, off + ps[0].zeros + 3 + |ps[0].nal|);
      assert ns[..k][0] == ns[0] && ns[..k][1..] == ns[1..][..k - 1];
      assert ps[1..] == Written(zeros[1..], ns[1..])[..k - 1];
    }
  }

  /**
   For every list of units: writing them, framing them, scanning the stream and
   reading the units that the scan returns gives the contents in order. The
   scan returns the last unit exactly when four zero bytes follow it.
   */
  lemma {:induction false} StreamRoundTrip(haveSei: bool, st: State, zeros: seq<nat>, ns: seq<Nal>, trailing: nat)
    requires |zeros| == |ns| && ns != [] && (forall n <- ns :: UnitOk(haveSei, n)) && TablesOk(st)
    ensures
      var ps := Written(zeros, ns);
      var k := ClosedCount(ps, trailing);
      ReadAll(Reader(haveSei), st, Units(Stream(ps, trailing), 0)) ==
      Some((ReceivedAll(st, ns[..k]), Sizes(ps[..k]))) &&
      Rest(Stream(ps, trailing)) == Stream(ps[k..], trailing)
  {
    hide ReadAll, ReceivedAll, UnitOk, Stream, PiecesOk, Units, Rest, Framed, Reader;
    WrittenOk(zeros, ns);
    UnitsOfStream(Written(zeros, ns), trailing, 0);
    AllRead(haveSei, st, zeros, ns, ClosedCount(Written(zeros, ns), trailing), 0);
  }

  /** The same through a buffer of size bytes that is refilled from a file, when the units that are closed fit. */
  lemma {:induction false} FileRoundTrip(haveSei: bool, st: State, zeros: seq<nat>, ns: seq<Nal>,
                                            trailing: nat, size: nat)
    requires |zeros| == |ns| && ns != [] && (forall n <- ns :: UnitOk(haveSei, n)) && TablesOk(st)
    requires
      var ps := Written(zeros, ns);
      forall i :: 0 <= i < ClosedCount(ps, trailing) ==> |Framing.Frame(ps[i])| + 4 <= size
    ensures
      var ps := Written(zeros, ns);
      var k := ClosedCount(ps, trailing);
      ReadAll(Reader(haveSei), st, Chunked([], Stream(ps, trailing), 0, size)) ==
      Some((ReceivedAll(st, ns[..k]), Sizes(ps[..k])))
  {
    hide ReadAll, ReceivedAll, UnitOk, Stream, PiecesOk, Units, Chunked, Framed, Reader, Framing.Frame;
    WrittenOk(zeros, ns);
    RefilledScanOfStream(Written(zeros, ns), trailing, size);
    AllRead(haveSei, st, zeros, ns, ClosedCount(Written(zeros, ns), trailing), 0);
  }
}
