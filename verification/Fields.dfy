/** Mixed lists of fields, written and read at any alignment. */
module Fields {
  import opened Bits
  import opened BitSyntax
  import opened BitCursor

  datatype Field = Flag(on: bool) | Word(width: nat, v: nat) | Octet(v: nat) | Exp(v: nat) | Signed(x: int)

  predicate FieldOk(f: Field) {
    match f
    case Flag(_) => true
    case Word(n, v) => n <= 32 && v < Pow2(n)
    case Octet(v) => v < 256
    case Exp(v) => v <= MAX_UE
    case Signed(x) => -MAX_SE <= x <= MAX_SE
  }

  /** The field of the same kind that a reader finds where there are no bits. */
  function Blank(f: Field): Field {
    match f
    case Flag(_) => Flag(false)
    case Word(n, _) => Word(n, 0)
    case Octet(_) => Octet(0)
    case Exp(_) => Exp(0)
    case Signed(_) => Signed(0)
  }

  /** Reads a field of the kind, and width, of shape. */
  function GetField(shape: Field, s: Input): (Field, Input) {
    match shape
    case Flag(_) => var (v, s') := GetU1(s); (Flag(v), s')
    case Word(n, _) => var (v, s') := GetU(n, s); (Word(n, v), s')
    case Octet(_) => var (v, s') := GetU8(s); (Octet(v), s')
    case Exp(_) => var (v, s') := GetUE(s); (Exp(v), s')
    case Signed(_) => var (x, s') := GetSE(s); (Signed(x), s')
  }

  function PutField(f: Field, rest: seq<bool>): (r: seq<bool>)
    ensures FieldOk(f) ==> GetField(Blank(f), From(r)) == (f, From(rest))
  {
    hide PutU1, PutU, PutU8, PutUE, PutSE, GetU1, GetU, GetU8, GetUE, GetSE, From;
    match f
    case Flag(v) => PutU1(v, rest)
    case Word(n, v) => PutU(n, v, rest)
    case Octet(v) => PutU8(v, rest)
    case Exp(v) => PutUE(v, rest)
    case Signed(x) => PutSE(x, rest)
  }

  function Blanks(fs: seq<Field>): (bs: seq<Field>)
    ensures |bs| == |fs|
  {
    seq(|fs|, i requires 0 <= i < |fs| => Blank(fs[i]))
  }

  function PutFields(fs: seq<Field>, i: nat, rest: seq<bool>): seq<bool>
    requires i <= |fs|
    decreases |fs| - i
  {
    if i == |fs| then rest else PutField(fs[i], PutFields(fs, i + 1, rest))
  }

  function GetFields(shapes: seq<Field>, n: nat, s: Input): (r: (seq<Field>, Input))
    requires n <= |shapes|
    ensures |r.0| == n
  {
    if n == 0 then ([], s) else
    var (fs, s') := GetFields(shapes, n - 1, s);
    var (f, s'') := GetField(shapes[n - 1], s');
    (fs + [f], s'')
  }

  lemma {:induction false} FieldsBack(fs: seq<Field>, n: nat, rest: seq<bool>)
    requires n <= |fs| && forall f <- fs :: FieldOk(f)
    ensures GetFields(Blanks(fs), n, From(PutFields(fs, 0, rest))) == (fs[..n], From(PutFields(fs, n, rest)))
  {
    hide PutField, GetField, FieldOk, Blank, From;
    if n > 0 {
      FieldsBack(fs, n - 1, rest);
      assert FieldOk(fs[n - 1]);
      assert fs[..n] == fs[..n - 1] + [fs[n - 1]];
    }
  }

  lemma Reassoc(a: seq<bool>, b: seq<bool>, c: seq<bool>)
    ensures a + (b + c) == a + b + c
  {}

  lemma FieldIsPrefix(f: Field, a: seq<bool>, rest: seq<bool>)
    ensures PutField(f, a + rest) == PutField(f, a) + rest
  {
    match f
    case Flag(v) => Reassoc([v], a, rest);
    case Word(n, v) => Reassoc(BitsU(n, v), a, rest);
    case Octet(v) => Reassoc(BitsU(8, v), a, rest);
    case Exp(v) => Reassoc(CodeUE(v), a, rest);
    case Signed(x) => Reassoc(CodeUE(UEOfSE(x)), a, rest);
  }

  lemma {:induction false} FieldsArePrefix(fs: seq<Field>, i: nat, rest: seq<bool>)
    requires i <= |fs|
    ensures PutFields(fs, i, rest) == PutFields(fs, i, []) + rest
    decreases |fs| - i
  {
    hide PutField;
    if i < |fs| {
      FieldsArePrefix(fs, i + 1, rest);
      FieldIsPrefix(fs[i], PutFields(fs, i + 1, []), rest);
    }
  }

  lemma NoFields(fs: seq<Field>, rest: seq<bool>)
    ensures PutFields(fs, |fs|, rest) == rest
  {}

  /**
   Fields written at any place of a buffer that has room for them read back in
   order; the cursor moves by the coded length, and no other bit changes.
   */
  lemma FieldsComeBack(t: Tape, fs: seq<Field>)
    requires (forall f <- fs :: FieldOk(f)) && t.pos + |PutFields(fs, 0, [])| <= |t.bits|
    ensures
      var n := |PutFields(fs, 0, [])|;
      var u := Then(t, PutFields(fs, 0, []));
      GetFields(Blanks(fs), |fs|, Tape(u.bits, t.pos).View()) == (fs, u.View()) && u.pos == t.pos + n &&
      forall i :: 0 <= i < |t.bits| && !(t.pos <= i < t.pos + n) ==> u.bits[i] == t.bits[i]
  {
    hide GetFields, PutFields;
    var code := PutFields(fs, 0, []);
    var u := Then(t, code);
    var rest := t.bits[t.pos + |code|..];
    FieldsArePrefix(fs, 0, rest);
    FieldsBack(fs, |fs|, rest);
    assert PutFields(fs, |fs|, rest) == rest by { NoFields(fs, rest); }
    assert fs[..|fs|] == fs;
    assert u.bits[t.pos..] == code + rest;
    assert u.bits[u.pos..] == rest;
  }

  lemma NoCode(s: Input)
    requires s.rest == []
    ensures GetUE(s).0 == 0
  {
    assert LeadingZeros(s.rest) == 0;
    assert PrefixUE(s) == 0;
    assert Peek(Skip(s, 1), 0) == [];
    assert Pow2(0) == 1;
  }

  /** Past the end of the buffer reads give zeros, and writes change nothing but the position. */
  lemma PastTheEnd(t: Tape, f: Field)
    requires Full(t)
    ensures GetField(f, t.View()).0 == Blank(f)
    ensures Then(t, PutField(f, [])).bits == t.bits
  {
    hide PutField;
    var s := t.View();
    assert s.rest == [];
    match f
    case Flag(_) =>
    case Word(n, _) => assert Peek(s, n) == Zeros(n); NatOfZeros(n);
    case Octet(_) => assert Peek(s, 8) == Zeros(8); NatOfZeros(8);
    case Exp(_) => NoCode(s);
    case Signed(_) => NoCode(s);
  }

  lemma FieldsStep(fs: seq<Field>, i: nat)
    requires i < |fs|
    ensures forall rest :: PutFields(fs, i, rest) == PutField(fs[i], PutFields(fs, i + 1, rest))
  {}

  lemma FieldsEnd(fs: seq<Field>)
    ensures forall rest :: PutFields(fs, |fs|, rest) == rest
  {}

  method WriteField(b: BitStream, f: Field)
    requires b.Valid() && FieldOk(f)
    modifies b`p, b`bitsLeft, b.buf
    ensures b.Valid()
    ensures forall rest {:trigger Then(b.Tape(), rest)} ::
              Then(b.Tape(), rest) == Then(old(b.Tape()), PutField(f, rest))
  {
    hide BitStream.Tape, Then, PutU1, PutU, PutU8, PutUE, PutSE, GetField, From;
    match f
    case Flag(v) => b.WriteU1(v);
    case Word(n, v) => b.WriteU(n, v);
    case Octet(v) => b.WriteU8(v);
    case Exp(v) => b.WriteUE(v);
    case Signed(x) => b.WriteSE(x);
  }

  method WriteFields(b: BitStream, fs: seq<Field>)
    requires b.Valid() && forall f <- fs :: FieldOk(f)
    modifies b`p, b`bitsLeft, b.buf
    ensures b.Valid()
    ensures forall rest {:trigger Then(b.Tape(), rest)} ::
              Then(b.Tape(), rest) == Then(old(b.Tape()), PutFields(fs, 0, rest))
  {
    hide BitStream.Tape, Then, PutField, PutFields;
    for i := 0 to |fs|
      invariant b.Valid()
      invariant forall rest :: Then(b.Tape(), PutFields(fs, i, rest)) == Then(old(b.Tape()), PutFields(fs, 0, rest))
    {
      FieldsStep(fs, i);
      WriteField(b, fs[i]);
    }
    FieldsEnd(fs);
  }

  method ReadFields(b: BitStream, shapes: seq<Field>) returns (fs: seq<Field>)
    requires b.Valid()
    modifies b`p, b`bitsLeft
    ensures b.Valid() && (fs, b.View()) == GetFields(shapes, |shapes|, old(b.View()))
  {
    hide BitStream.View, GetU1, GetU, GetU8, GetUE, GetSE;
    fs := [];
    for i := 0 to |shapes|
      invariant b.Valid() && (fs, b.View()) == GetFields(shapes, i, old(b.View()))
    {
      var f;
      match shapes[i] {
        case Flag(_) => var v := b.ReadU1(); f := Flag(v);
        case Word(n, _) => var v := b.ReadU(n); f := Word(n, v);
        case Octet(_) => var v := b.ReadU8(); f := Octet(v);
        case Exp(_) => var v := b.ReadUE(); f := Exp(v);
        case Signed(_) => var x := b.ReadSE(); f := Signed(x);
      }
      fs := fs + [f];
    }
  }
}
