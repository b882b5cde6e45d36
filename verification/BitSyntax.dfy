/**
 What the reads and writes of bs.h mean on plain bit strings.

 A reader sees an Input: the bits from the cursor to the end of the buffer, and
 the number of bits it has already read past that end. A writer changes a Tape:
 all bits of the buffer and the position of the cursor.

 Every syntax element X has a function GetX from an Input to a value and the
 Input behind it, and a function PutX that puts the code of a value in front of
 the bits that follow it. The contract of PutX is that GetX inverts it.
 */
module BitSyntax {
  import opened Bits

  datatype Input = Input(rest: seq<bool>, over: nat)

  function From(rest: seq<bool>): Input {
    Input(rest, 0)
  }

  /** The cursor n bits on. */
  function Skip(s: Input, n: nat): Input {
    if n <= |s.rest| then Input(s.rest[n..], s.over) else Input([], s.over + n - |s.rest|)
  }

  /** The bits left; what is read past the end counts negative. */
  function Left(s: Input): int {
    |s.rest| - s.over
  }

  /** The next n bits; bits past the end are 0. */
  function Peek(s: Input, n: nat): (b: seq<bool>)
    ensures |b| == n
  {
    seq(n, i requires 0 <= i < n => i < |s.rest| && s.rest[i])
  }

  lemma SkipSkip(s: Input, m: nat, n: nat)
    ensures s.over == 0 || s.rest == [] ==> Skip(Skip(s, m), n) == Skip(s, m + n)
  {}

  lemma SkipPrefix(a: seq<bool>, rest: seq<bool>)
    ensures Skip(From(a + rest), |a|) == From(rest)
    ensures Peek(From(a + rest), |a|) == a
  {
    assert (a + rest)[|a|..] == rest;
  }

  // One bit

  function GetU1(s: Input): (bool, Input) {
    (s.rest != [] && s.rest[0], Skip(s, 1))
  }

  function PutU1(v: bool, rest: seq<bool>): (r: seq<bool>)
    ensures |r| == 1 + |rest|
    ensures GetU1(From(r)) == (v, From(rest))
  {
    [v] + rest
  }

  // u(n)

  function GetU(n: nat, s: Input): (nat, Input) {
    (NatOf(Peek(s, n)), Skip(s, n))
  }

  function PutU(n: nat, v: nat, rest: seq<bool>): (r: seq<bool>)
    ensures |r| == n + |rest|
    ensures v < Pow2(n) ==> GetU(n, From(r)) == (v, From(rest))
  {
    NatOfBitsU(n, v);
    SkipPrefix(BitsU(n, v), rest);
    BitsU(n, v) + rest
  }

  // A byte, u(8)

  function GetU8(s: Input): (nat, Input) {
    GetU(8, s)
  }

  function PutU8(v: nat, rest: seq<bool>): (r: seq<bool>)
    ensures |r| == 8 + |rest|
    ensures v < 256 ==> GetU8(From(r)) == (v, From(rest))
  {
    assert Pow2(8) == 256;
    PutU(8, v, rest)
  }

  // ue(v), section 9.1 of ITU-T H.264

  const MAX_UE: nat := 65534

  function CodeUE(v: nat): seq<bool> {
    BitLengthBounds(v + 1);
    BitsU(2 * BitLength(v + 1) - 1, v + 1)
  }

  function LeadingZeros(b: seq<bool>): (n: nat)
    ensures n <= |b|
    ensures forall i :: 0 <= i < n ==> !b[i]
    ensures n < |b| ==> b[n]
  {
    if b == [] || b[0] then 0 else 1 + LeadingZeros(b[1..])
  }

  function Min(a: nat, b: nat): nat {
    if a <= b then a else b
  }

  /** The number of zero bits that the reader counts: it stops at a one, at 32, or at the last bit. */
  function PrefixUE(s: Input): nat {
    Min(LeadingZeros(s.rest), Min(32, if s.rest == [] then 0 else |s.rest| - 1))
  }

  function GetUE(s: Input): (nat, Input) {
    var n := PrefixUE(s);
    var (low, s') := GetU(n, Skip(s, n + 1));
    (low + Pow2(n) - 1, s')
  }

  /**
   Whatever bits are read: z zeros, where z is the first place with a one, or 32, or the
   last bit; then one bit more, and z bits that spell what is added to 2^z - 1.
   */
  lemma UEOnAnyBits(s: Input) returns (z: nat)
    ensures z <= 32 && (forall i :: 0 <= i < z ==> i + 1 < |s.rest| && !s.rest[i])
    ensures z == 32 || z + 1 >= |s.rest| || s.rest[z]
    ensures GetUE(s) == (NatOf(Peek(Skip(s, z + 1), z)) + Pow2(z) - 1, Skip(Skip(s, z + 1), z))
  {
    hide NatOf, Pow2;
    z := PrefixUE(s);
  }

  /** The code of v: z zeros, a one, and the z low bits of v + 1. */
  lemma CodeUEShape(v: nat)
    ensures
      var z := BitLength(v + 1) - 1;
      z >= 0 && Pow2(z) <= v + 1 < 2 * Pow2(z) &&
      CodeUE(v) == Zeros(z) + ([true] + BitsU(z, v + 1 - Pow2(z)))
  {
    BitLengthBounds(v + 1);
    var z := BitLength(v + 1) - 1;
    var low := BitsU(z, v + 1 - Pow2(z));
    var code := Zeros(z) + ([true] + low);
    NatOfBitsU(z, v + 1 - Pow2(z));
    NatOfConcat([true], low);
    assert [true][..0] == [] && NatOf([true]) == 1;
    NatOfConcat(Zeros(z), [true] + low);
    NatOfZeros(z);
    assert NatOf(code) == v + 1;
    BitsUOfNat(code);
  }

  lemma PrefixOfCode(z: nat, tail: seq<bool>)
    requires z <= 32 && |tail| >= z
    ensures PrefixUE(From(Zeros(z) + ([true] + tail))) == z
    ensures Skip(From(Zeros(z) + ([true] + tail)), z + 1) == From(tail)
  {
    var b := Zeros(z) + ([true] + tail);
    assert b[z] && forall i :: 0 <= i < z ==> !b[i];
    assert LeadingZeros(b) == z;
    assert b == (Zeros(z) + [true]) + tail;
    SkipPrefix(Zeros(z) + [true], tail);
  }

  lemma CodeUEShort(v: nat)
    requires v <= MAX_UE
    ensures 1 <= BitLength(v + 1) <= 16
  {
    BitLengthBounds(v + 1);
    if BitLength(v + 1) > 16 {
      Pow2Monotone(16, BitLength(v + 1) - 1);
      Pow2Values();
    }
  }

  lemma UERoundTrip(v: nat, rest: seq<bool>)
    requires v <= MAX_UE
    ensures GetUE(From(CodeUE(v) + rest)) == (v, From(rest))
  {
    hide LeadingZeros, PrefixUE, CodeUE, BitsU, BitLength, Pow2, Skip, Peek;
    CodeUEShape(v);
    CodeUEShort(v);
    var z := BitLength(v + 1) - 1;
    var low := BitsU(z, v + 1 - Pow2(z));
    assert CodeUE(v) + rest == Zeros(z) + ([true] + (low + rest));
    PrefixOfCode(z, low + rest);
    SkipPrefix(low, rest);
    NatOfBitsU(z, v + 1 - Pow2(z));
  }

  function PutUE(v: nat, rest: seq<bool>): (r: seq<bool>)
    ensures |r| == |CodeUE(v)| + |rest|
    ensures v <= MAX_UE ==> GetUE(From(r)) == (v, From(rest))
  {
    if v <= MAX_UE then
      UERoundTrip(v, rest);
      CodeUE(v) + rest
    else
      CodeUE(v) + rest
  }

  // se(v), section 9.1.1 of ITU-T H.264

  const MAX_SE: int := 32767

  function UEOfSE(v: int): nat {
    if v <= 0 then -v * 2 else v * 2 - 1
  }

  function GetSE(s: Input): (int, Input) {
    var (k, s') := GetUE(s);
    (if k % 2 == 1 then (k + 1) / 2 else -(k / 2), s')
  }

  function PutSE(v: int, rest: seq<bool>): (r: seq<bool>)
    ensures -MAX_SE <= v <= MAX_SE ==> GetSE(From(r)) == (v, From(rest))
    ensures |r| == |CodeUE(UEOfSE(v))| + |rest|
  {
    hide PutUE, GetUE, From;
    PutUE(UEOfSE(v), rest)
  }

  // Groups of elements: optional ones, and lists written and read by counted loops

  datatype Option<+T> = None | Some(value: T)

  /** How the values of a type are put in front of a bit string and taken from it. */
  datatype Codec<!T> = Codec(put: (T, seq<bool>) -> seq<bool>, get: Input -> (T, Input))

  ghost predicate Inverts<T(!new)>(c: Codec<T>, x: T) {
    forall rest :: c.get(From(c.put(x, rest))) == (x, From(rest))
  }

  ghost predicate InvertsAll<T(!new)>(c: Codec<T>, xs: seq<T>) {
    forall x <- xs :: Inverts(c, x)
  }

  function GetOption<T>(c: Codec<T>, s: Input): (Option<T>, Input) {
    var (present, s') := GetU1(s);
    if present then
      var (x, s'') := c.get(s');
      (Some(x), s'')
    else (None, s')
  }

  /** A presence flag and, when it is set, the group. */
  function PutOption<T(!new)>(c: Codec<T>, o: Option<T>, rest: seq<bool>): (r: seq<bool>)
    ensures (o.Some? ==> Inverts(c, o.value)) ==> GetOption(c, From(r)) == (o, From(rest))
  {
    PutU1(o.Some?, if o.Some? then c.put(o.value, rest) else rest)
  }

  function GetIf<T>(cond: bool, c: Codec<T>, absent: T, s: Input): (T, Input) {
    if cond then c.get(s) else (absent, s)
  }

  /** An element that is sent under a condition both sides know; otherwise it has a fixed value. */
  function PutIf<T(!new)>(cond: bool, c: Codec<T>, x: T, absent: T, rest: seq<bool>): (r: seq<bool>)
    ensures (if cond then Inverts(c, x) else x == absent) ==> GetIf(cond, c, absent, From(r)) == (x, From(rest))
  {
    if cond then c.put(x, rest) else rest
  }

  /** The codes of xs[i], xs[i + 1] and so on in front of rest. */
  function PutFrom<T>(c: Codec<T>, xs: seq<T>, i: nat, rest: seq<bool>): seq<bool>
    requires i <= |xs|
    decreases |xs| - i
  {
    if i == |xs| then rest else c.put(xs[i], PutFrom(c, xs, i + 1, rest))
  }

  /** The first n elements that follow each other. */
  function GetMany<T>(c: Codec<T>, n: nat, s: Input): (r: (seq<T>, Input))
    ensures |r.0| == n
  {
    if n == 0 then ([], s) else
    var (xs, s') := GetMany(c, n - 1, s);
    var (x, s'') := c.get(s');
    (xs + [x], s'')
  }

  lemma {:induction false} ManyRoundTrip<T(!new)>(c: Codec<T>, xs: seq<T>, i: nat, rest: seq<bool>)
    requires i <= |xs|
    requires InvertsAll(c, xs)
    ensures GetMany(c, i, From(PutFrom(c, xs, 0, rest))) == (xs[..i], From(PutFrom(c, xs, i, rest)))
  {
    if i > 0 {
      ManyRoundTrip(c, xs, i - 1, rest);
      assert Inverts(c, xs[i - 1]);
      assert xs[..i] == xs[..i - 1] + [xs[i - 1]];
    }
  }

  lemma ManyBack<T(!new)>(c: Codec<T>, xs: seq<T>, rest: seq<bool>)
    ensures InvertsAll(c, xs) ==> GetMany(c, |xs|, From(PutFrom(c, xs, 0, rest))) == (xs, From(rest))
  {
    if InvertsAll(c, xs) {
      ManyRoundTrip(c, xs, |xs|, rest);
      assert xs[..|xs|] == xs;
    }
  }

  function PutMany<T(!new)>(c: Codec<T>, xs: seq<T>, rest: seq<bool>): (r: seq<bool>)
    ensures InvertsAll(c, xs) ==> GetMany(c, |xs|, From(r)) == (xs, From(rest))
  {
    ManyBack(c, xs, rest);
    PutFrom(c, xs, 0, rest)
  }

  /** One turn of a writing loop. */
  lemma PutFromStep<T>(c: Codec<T>, xs: seq<T>, i: nat)
    requires i < |xs|
    ensures forall rest :: PutFrom(c, xs, i, rest) == c.put(xs[i], PutFrom(c, xs, i + 1, rest))
  {}

  lemma PutFromEnd<T>(c: Codec<T>, xs: seq<T>)
    ensures forall rest :: PutFrom(c, xs, |xs|, rest) == rest
  {}

  // Lists that end with a certain element

  /** Cursor s' is behind cursor s. */
  predicate Behind(s': Input, s: Input) {
    if s.rest == [] then s'.rest == [] && s'.over > s.over else |s'.rest| < |s.rest|
  }

  lemma UEIsBehind(s: Input)
    ensures Behind(GetUE(s).1, s)
  {}

  ghost predicate Consumes<T(!new)>(c: Codec<T>) {
    forall s :: Behind(c.get(s).1, s)
  }

  /** Elements up to the first last one, or up to the one in which the input ends. */
  function GetUntil<T(!new)>(c: Codec<T>, isLast: T -> bool, s: Input): (seq<T>, Input)
    requires Consumes(c)
    decreases |s.rest|
  {
    var (x, s') := c.get(s);
    if isLast(x) || s'.rest == [] then ([x], s') else
    var (xs, s'') := GetUntil(c, isLast, s');
    ([x] + xs, s'')
  }

  /** A reading loop has the elements xs, of which x is the last, and is at input s'. */
  ghost predicate UntilSoFar<T(!new)>(c: Codec<T>, isLast: T -> bool, s: Input, xs: seq<T>, x: T, s': Input)
    requires Consumes(c)
  {
    GetUntil(c, isLast, s) ==
    if isLast(x) || s'.rest == [] then (xs, s')
    else (xs + GetUntil(c, isLast, s').0, GetUntil(c, isLast, s').1)
  }

  lemma UntilFirst<T(!new)>(c: Codec<T>, isLast: T -> bool, s: Input)
    requires Consumes(c)
    ensures UntilSoFar(c, isLast, s, [c.get(s).0], c.get(s).0, c.get(s).1)
  {}

  lemma UntilNext<T(!new)>(c: Codec<T>, isLast: T -> bool, s: Input, xs: seq<T>, x: T, s': Input)
    requires Consumes(c) && UntilSoFar(c, isLast, s, xs, x, s') && !isLast(x) && s'.rest != []
    ensures UntilSoFar(c, isLast, s, xs + [c.get(s').0], c.get(s').0, c.get(s').1)
  {
    var (x', s'') := c.get(s');
    var tail := GetUntil(c, isLast, s').0;
    if isLast(x') || s''.rest == [] {
      assert tail == [x'];
    } else {
      assert xs + ([x'] + GetUntil(c, isLast, s'').0) == xs + [x'] + GetUntil(c, isLast, s'').0;
    }
  }

  lemma UntilDone<T(!new)>(c: Codec<T>, isLast: T -> bool, s: Input, xs: seq<T>, x: T, s': Input)
    requires Consumes(c) && UntilSoFar(c, isLast, s, xs, x, s') && (isLast(x) || s'.rest == [])
    ensures GetUntil(c, isLast, s) == (xs, s')
  {}

  predicate EndsAtFirst<T>(isLast: T -> bool, xs: seq<T>) {
    xs != [] && isLast(xs[|xs| - 1]) && forall i :: 0 <= i < |xs| - 1 ==> !isLast(xs[i])
  }

  lemma NotEmpty<T>(isLast: T -> bool, xs: seq<T>)
    requires EndsAtFirst(isLast, xs)
    ensures xs != []
  {}

  lemma MoreBehind<T>(isLast: T -> bool, xs: seq<T>, n: nat)
    requires EndsAtFirst(isLast, xs) && n < |xs|
    ensures isLast(xs[n]) <==> n + 1 == |xs|
  {}

  lemma {:induction false} UntilFrom<T(!new)>(c: Codec<T>, isLast: T -> bool, xs: seq<T>, i: nat, rest: seq<bool>)
    requires Consumes(c) && InvertsAll(c, xs) && EndsAtFirst(isLast, xs) && i < |xs|
    ensures GetUntil(c, isLast, From(PutFrom(c, xs, i, rest))) == (xs[i..], From(rest))
    decreases |xs| - i
  {
    assert Inverts(c, xs[i]);
    var tail := PutFrom(c, xs, i + 1, rest);
    assert c.get(From(PutFrom(c, xs, i, rest))) == (xs[i], From(tail));
    if i == |xs| - 1 {
      assert xs[i..] == [xs[i]];
    } else {
      UntilFrom(c, isLast, xs, i + 1, rest);
      assert Inverts(c, xs[i + 1]);
      assert c.get(From(tail)).1.over == 0;
      assert tail != [];
      assert xs[i..] == [xs[i]] + xs[i + 1..];
    }
  }

  lemma UntilBack<T(!new)>(c: Codec<T>, isLast: T -> bool, xs: seq<T>, rest: seq<bool>)
    ensures Consumes(c) && InvertsAll(c, xs) && EndsAtFirst(isLast, xs) ==>
              GetUntil(c, isLast, From(PutFrom(c, xs, 0, rest))) == (xs, From(rest))
  {
    if Consumes(c) && InvertsAll(c, xs) && EndsAtFirst(isLast, xs) {
      UntilFrom(c, isLast, xs, 0, rest);
      assert xs[0..] == xs;
    }
  }

  function PutUntil<T(!new)>(c: Codec<T>, isLast: T -> bool, xs: seq<T>, rest: seq<bool>): (r: seq<bool>)
    ensures Consumes(c) && InvertsAll(c, xs) && EndsAtFirst(isLast, xs) ==>
              GetUntil(c, isLast, From(r)) == (xs, From(rest))
  {
    UntilBack(c, isLast, xs, rest);
    PutFrom(c, xs, 0, rest)
  }

  const FLAG: Codec<bool> := Codec(PutU1, GetU1)
  const UE: Codec<nat> := Codec(PutUE, GetUE)
  const U8: Codec<nat> := Codec(PutU8, GetU8)
  const SE: Codec<int> := Codec(PutSE, GetSE)

  function U(n: nat): Codec<nat> {
    Codec((v, rest) => PutU(n, v, rest), s => GetU(n, s))
  }

  // RBSP trailing bits and the look ahead for them

  function GetTrailing(s: Input): Input {
    var s' := Skip(s, 1);
    Skip(s', (|s'.rest| - s'.over) % 8)
  }

  /** The stop bit and zeros up to the next byte, for a cursor k bits into a byte. */
  function PutTrailing(k: nat, rest: seq<bool>): (r: seq<bool>)
    requires k < 8
    ensures |rest| % 8 == 0 ==> GetTrailing(From(r)) == From(rest)
    ensures |r| == |rest| + 8 - k
  {
    SkipPrefix([true] + Zeros(7 - k), rest);
    [true] + Zeros(7 - k) + rest
  }

  predicate MoreData(s: Input) {
    s.rest != [] && (s.rest[0] ==> exists i :: 0 < i < |s.rest| && s.rest[i])
  }

  /** A stop bit and nothing but zeros behind it. */
  predicate StopOnly(rest: seq<bool>) {
    rest != [] && rest[0] && forall i :: 0 < i < |rest| ==> !rest[i]
  }

  /**
   In a payload with its trailing bits and any number of zero bytes behind them,
   the look ahead is true at every position before the stop bit, and false at it.
   */
  lemma MoreDataIffBeforeStop(payload: seq<bool>, zeroBytes: nat, pos: nat)
    requires pos <= |payload|
    ensures
      var bits := payload + PutTrailing(|payload| % 8, Zeros(8 * zeroBytes));
      MoreData(From(bits[pos..])) <==> pos < |payload|
  {
    var bits := payload + PutTrailing(|payload| % 8, Zeros(8 * zeroBytes));
    assert bits[pos..][|payload| - pos];
    assert forall i :: |payload| < i < |bits| ==> !bits[i];
  }

  predicate HasOne(b: seq<bool>) {
    exists i :: 0 <= i < |b| && b[i]
  }

  lemma CodeUEHasOne(v: nat, rest: seq<bool>)
    ensures HasOne(PutUE(v, rest))
  {
    CodeUEShape(v);
    var z := BitLength(v + 1) - 1;
    assert PutUE(v, rest) == CodeUE(v) + rest;
    assert PutUE(v, rest)[z];
  }

  // Writing

  datatype Tape = Tape(bits: seq<bool>, pos: nat) {
    /** What a reader at the cursor sees. */
    function View(): Input {
      if pos <= |bits| then Input(bits[pos..], 0) else Input([], pos - |bits|)
    }
  }

  /** The tape after the bits s are written at the cursor; bits past the end are lost. */
  function Then(t: Tape, s: seq<bool>): (u: Tape)
    ensures |u.bits| == |t.bits| && u.pos == t.pos + |s|
  {
    Tape(seq(|t.bits|, i requires 0 <= i < |t.bits| =>
             if t.pos <= i < t.pos + |s| then s[i - t.pos] else t.bits[i]),
         t.pos + |s|)
  }

  /** No bit is left to write to. */
  predicate Full(t: Tape) {
    t.pos >= |t.bits|
  }

  /** Bits were written past the end. */
  predicate Lost(t: Tape) {
    t.pos > |t.bits|
  }

  /** Tape v is what u would be if the bits that a writer left out past the end had been sent, too. */
  predicate CutFrom(v: Tape, u: Tape) {
    Lost(v) && v.bits == u.bits
  }

  lemma FullStays(t: Tape, s: seq<bool>)
    requires Full(t)
    ensures Then(t, s).bits == t.bits && Full(Then(t, s))
    ensures s != [] ==> Lost(Then(t, s))
  {}

  lemma ThenThen(t: Tape, a: seq<bool>, b: seq<bool>)
    ensures Then(Then(t, a), b) == Then(t, a + b)
  {}

  lemma ThenNothing(t: Tape)
    ensures Then(t, []) == t
  {}
}
