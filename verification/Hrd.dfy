/** HRD parameters, section E.1.2 of ITU-T H.264. */
module HrdParameters {
  import opened Bits
  import opened BitSyntax
  import opened BitCursor

  datatype Cpb = Cpb(bitRateValueMinus1: nat, cpbSizeValueMinus1: nat, cbrFlag: bool)

  datatype Hrd = Hrd(
    bitRateScale: nat,
    cpbSizeScale: nat,
    cpbs: seq<Cpb>,
    initialCpbRemovalDelayLengthMinus1: nat,
    cpbRemovalDelayLengthMinus1: nat,
    dpbOutputDelayLengthMinus1: nat,
    timeOffsetLength: nat)

  function CpbCntMinus1(h: Hrd): nat {
    if h.cpbs == [] then 0 else |h.cpbs| - 1
  }

  predicate CpbOk(c: Cpb) {
    c.bitRateValueMinus1 <= MAX_UE && c.cpbSizeValueMinus1 <= MAX_UE
  }

  /** Every field within the width of its code. */
  predicate HrdOk(h: Hrd) {
    1 <= |h.cpbs| <= MAX_UE + 1 && (forall c <- h.cpbs :: CpbOk(c)) &&
    h.bitRateScale < 16 && h.cpbSizeScale < 16 &&
    h.initialCpbRemovalDelayLengthMinus1 < 32 && h.cpbRemovalDelayLengthMinus1 < 32 &&
    h.dpbOutputDelayLengthMinus1 < 32 && h.timeOffsetLength < 32
  }

  function GetCpb(s0: Input): (Cpb, Input) {
    var (rate, s1) := GetUE(s0);
    var (size, s2) := GetUE(s1);
    var (cbr, s3) := GetU1(s2);
    (Cpb(rate, size, cbr), s3)
  }

  function PutCpb(c: Cpb, rest: seq<bool>): (r: seq<bool>)
    ensures CpbOk(c) ==> GetCpb(From(r)) == (c, From(rest))
  {
    PutUE(c.bitRateValueMinus1, PutUE(c.cpbSizeValueMinus1, PutU1(c.cbrFlag, rest)))
  }

  const CPB := Codec(PutCpb, GetCpb)

  function GetHrd(s0: Input): (Hrd, Input) {
    var (cnt, s1) := GetUE(s0);
    var (rateScale, s2) := GetU(4, s1);
    var (sizeScale, s3) := GetU(4, s2);
    var (cpbs, s4) := GetMany(CPB, cnt + 1, s3);
    var (initial, s5) := GetU(5, s4);
    var (removal, s6) := GetU(5, s5);
    var (output, s7) := GetU(5, s6);
    var (offset, s8) := GetU(5, s7);
    (Hrd(rateScale, sizeScale, cpbs, initial, removal, output, offset), s8)
  }

  function PutHrd(h: Hrd, rest: seq<bool>): (r: seq<bool>)
    ensures HrdOk(h) ==> GetHrd(From(r)) == (h, From(rest))
  {
    hide PutUE, GetUE, PutU, GetU, GetCpb, PutCpb, PutMany, GetMany, From;
    SmallWidths();
    PutUE(CpbCntMinus1(h), PutU(4, h.bitRateScale, PutU(4, h.cpbSizeScale,
    PutMany(CPB, h.cpbs,
    PutU(5, h.initialCpbRemovalDelayLengthMinus1, PutU(5, h.cpbRemovalDelayLengthMinus1,
    PutU(5, h.dpbOutputDelayLengthMinus1, PutU(5, h.timeOffsetLength, rest))))))))
  }

  const HRD := Codec(PutHrd, GetHrd)

  method ReadHrd(b: BitStream) returns (h: Hrd)
    requires b.Valid()
    modifies b`p, b`bitsLeft
    ensures b.Valid() && (h, b.View()) == GetHrd(old(b.View()))
  {
    hide BitStream.View, GetUE, GetU, GetU1;
    var cnt := b.ReadUE();
    var rateScale := b.ReadU(4);
    var sizeScale := b.ReadU(4);
    var cpbs: seq<Cpb> := [];
    ghost var s := b.View();
    for i := 0 to cnt + 1
      invariant b.Valid() && (cpbs, b.View()) == GetMany(CPB, i, s)
    {
      var rate := b.ReadUE();
      var size := b.ReadUE();
      var cbr := b.ReadU1();
      cpbs := cpbs + [Cpb(rate, size, cbr)];
    }
    var initial := b.ReadU(5);
    var removal := b.ReadU(5);
    var output := b.ReadU(5);
    var offset := b.ReadU(5);
    h := Hrd(rateScale, sizeScale, cpbs, initial, removal, output, offset);
  }

  method WriteCpbs(b: BitStream, cs: seq<Cpb>)
    requires b.Valid() && forall c <- cs :: CpbOk(c)
    modifies b`p, b`bitsLeft, b.buf
    ensures b.Valid()
    ensures forall rest {:trigger Then(b.Tape(), rest)} ::
              Then(b.Tape(), rest) == Then(old(b.Tape()), PutMany(CPB, cs, rest))
  {
    hide BitStream.Tape, Then, PutUE, PutU1, PutFrom, InvertsAll, GetMany;
    for i := 0 to |cs|
      invariant b.Valid()
      invariant forall rest ::
                  Then(b.Tape(), PutFrom(CPB, cs, i, rest)) == Then(old(b.Tape()), PutFrom(CPB, cs, 0, rest))
    {
      assert CpbOk(cs[i]);
      PutFromStep(CPB, cs, i);
      b.WriteUE(cs[i].bitRateValueMinus1);
      b.WriteUE(cs[i].cpbSizeValueMinus1);
      b.WriteU1(cs[i].cbrFlag);
    }
    PutFromEnd(CPB, cs);
  }

  method WriteHrd(b: BitStream, h: Hrd)
    requires b.Valid() && HrdOk(h)
    modifies b`p, b`bitsLeft, b.buf
    ensures b.Valid()
    ensures forall rest {:trigger Then(b.Tape(), rest)} :: Then(b.Tape(), rest) == Then(old(b.Tape()), PutHrd(h, rest))
  {
    hide BitStream.Tape, Then, PutUE, PutU, PutMany, InvertsAll, GetMany, GetHrd, GetU, GetUE, From, PutFrom;
    b.WriteUE(CpbCntMinus1(h));
    b.WriteU(4, h.bitRateScale);
    b.WriteU(4, h.cpbSizeScale);
    WriteCpbs(b, h.cpbs);
    b.WriteU(5, h.initialCpbRemovalDelayLengthMinus1);
    b.WriteU(5, h.cpbRemovalDelayLengthMinus1);
    b.WriteU(5, h.dpbOutputDelayLengthMinus1);
    b.WriteU(5, h.timeOffsetLength);
  }
}
