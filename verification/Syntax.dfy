/**
 Syntax structures as flat lists of elements: the joined code of a list, and a
 reader that finds the elements of a list one behind the other. Nothing here knows
 how the structures themselves are written or read.
 */
module Syntax {
  import opened BitSyntax
  import opened Fields

  /** The codes of the elements in front of rest. */
  function Code(fs: seq<Field>, rest: seq<bool>): seq<bool> {
    PutFields(fs, 0, rest)
  }

  /** The cursor behind the elements fs[i], fs[i + 1] and so on; None when the reader finds others. */
  function PastFrom(fs: seq<Field>, i: nat, s: Input): Option<Input>
    requires i <= |fs|
    decreases |fs| - i
  {
    if i == |fs| then Some(s) else
    var (f, s') := GetField(fs[i], s);
    if f == fs[i] then PastFrom(fs, i + 1, s') else None
  }

  function Past(fs: seq<Field>, s: Input): Option<Input> {
    PastFrom(fs, 0, s)
  }

  lemma {:induction false} CodeOfSecond(a: seq<Field>, b: seq<Field>, i: nat, rest: seq<bool>)
    requires i <= |b|
    ensures PutFields(a + b, |a| + i, rest) == PutFields(b, i, rest)
    decreases |b| - i
  {
    hide PutField;
    if i < |b| {
      CodeOfSecond(a, b, i + 1, rest);
    }
  }

  lemma {:induction false} CodeOfTwo(a: seq<Field>, b: seq<Field>, i: nat, rest: seq<bool>)
    requires i <= |a|
    ensures PutFields(a + b, i, rest) == PutFields(a, i, PutFields(b, 0, rest))
    decreases |a| - i
  {
    hide PutField;
    if i < |a| {
      CodeOfTwo(a, b, i + 1, rest);
    } else {
      CodeOfSecond(a, b, 0, rest);
    }
  }

  lemma {:induction false} PastSecond(a: seq<Field>, b: seq<Field>, i: nat, s: Input)
    requires i <= |b|
    ensures PastFrom(a + b, |a| + i, s) == PastFrom(b, i, s)
    decreases |b| - i
  {
    hide GetField;
    if i < |b| {
      PastSecond(a, b, i + 1, GetField(b[i], s).1);
    }
  }

  lemma {:induction false} PastTwo(a: seq<Field>, b: seq<Field>, i: nat, s: Input)
    requires i <= |a|
    ensures PastFrom(a + b, i, s) == match PastFrom(a, i, s) case None => None case Some(s') => PastFrom(b, 0, s')
    decreases |a| - i
  {
    hide GetField;
    if i < |a| {
      PastTwo(a, b, i + 1, GetField(a[i], s).1);
    } else {
      PastSecond(a, b, 0, s);
    }
  }

  /** Lists in a row. */
  lemma Joined()
    ensures forall a, b, rest {:trigger Code(a + b, rest)} :: Code(a + b, rest) == Code(a, Code(b, rest))
    ensures forall a, b, s {:trigger Past(a + b, s)} ::
              Past(a + b, s) == match Past(a, s) case None => None case Some(s') => Past(b, s')
    ensures forall rest {:trigger Code([], rest)} :: Code([], rest) == rest
    ensures forall s {:trigger Past([], s)} :: Past([], s) == Some(s)
  {
    forall a: seq<Field>, b: seq<Field>, rest
      ensures Code(a + b, rest) == Code(a, Code(b, rest))
    {
      CodeOfTwo(a, b, 0, rest);
    }
    forall a: seq<Field>, b: seq<Field>, s
      ensures Past(a + b, s) == match Past(a, s) case None => None case Some(s') => Past(b, s')
    {
      PastTwo(a, b, 0, s);
    }
  }

  /** What each kind of element is written and read as. */
  lemma Kinds()
    ensures forall v, rest {:trigger PutField(Flag(v), rest)} :: PutField(Flag(v), rest) == PutU1(v, rest)
    ensures forall n, v, rest {:trigger PutField(Word(n, v), rest)} :: PutField(Word(n, v), rest) == PutU(n, v, rest)
    ensures forall v, rest {:trigger PutField(Octet(v), rest)} :: PutField(Octet(v), rest) == PutU8(v, rest)
    ensures forall v, rest {:trigger PutField(Exp(v), rest)} :: PutField(Exp(v), rest) == PutUE(v, rest)
    ensures forall v, rest {:trigger PutField(Signed(v), rest)} :: PutField(Signed(v), rest) == PutSE(v, rest)
    ensures forall v, s {:trigger GetField(Flag(v), s)} :: GetField(Flag(v), s) == (Flag(GetU1(s).0), GetU1(s).1)
    ensures forall n, v, s {:trigger GetField(Word(n, v), s)} ::
              GetField(Word(n, v), s) == (Word(n, GetU(n, s).0), GetU(n, s).1)
    ensures forall v, s {:trigger GetField(Octet(v), s)} :: GetField(Octet(v), s) == (Octet(GetU8(s).0), GetU8(s).1)
    ensures forall v, s {:trigger GetField(Exp(v), s)} :: GetField(Exp(v), s) == (Exp(GetUE(s).0), GetUE(s).1)
    ensures forall v, s {:trigger GetField(Signed(v), s)} :: GetField(Signed(v), s) == (Signed(GetSE(s).0), GetSE(s).1)
  {
    hide PutU1, PutU, PutU8, PutUE, PutSE, GetU1, GetU, GetU8, GetUE, GetSE;
  }

  /** Lists that are written out, element by element. */
  lemma OneByOne()
    ensures forall fs, i, rest {:trigger PutFields(fs, i, rest)} :: 0 <= i <= |fs| ==>
              PutFields(fs, i, rest) == if i == |fs| then rest else PutField(fs[i], PutFields(fs, i + 1, rest))
    ensures forall fs, i, s {:trigger PastFrom(fs, i, s)} :: 0 <= i <= |fs| ==>
              PastFrom(fs, i, s) ==
              if i == |fs| then Some(s)
              else if GetField(fs[i], s).0 == fs[i] then PastFrom(fs, i + 1, GetField(fs[i], s).1)
              else None
  {
    hide PutField, GetField;
  }

  /** Lists of one element. */
  lemma Singles()
    ensures forall v, rest {:trigger Code([Exp(v)], rest)} :: Code([Exp(v)], rest) == PutUE(v, rest)
    ensures forall v, rest {:trigger Code([Signed(v)], rest)} :: Code([Signed(v)], rest) == PutSE(v, rest)
    ensures forall v, rest {:trigger Code([Flag(v)], rest)} :: Code([Flag(v)], rest) == PutU1(v, rest)
    ensures forall n, v, rest {:trigger Code([Word(n, v)], rest)} :: Code([Word(n, v)], rest) == PutU(n, v, rest)
    ensures forall v, s {:trigger Past([Exp(v)], s)} :: GetUE(s).0 == v ==> Past([Exp(v)], s) == Some(GetUE(s).1)
    ensures forall v, s {:trigger Past([Signed(v)], s)} ::
              GetSE(s).0 == v ==> Past([Signed(v)], s) == Some(GetSE(s).1)
    ensures forall v, s {:trigger Past([Flag(v)], s)} :: GetU1(s).0 == v ==> Past([Flag(v)], s) == Some(GetU1(s).1)
    ensures forall n, v, s {:trigger Past([Word(n, v)], s)} ::
              GetU(n, s).0 == v ==> Past([Word(n, v)], s) == Some(GetU(n, s).1)
  {
    hide PutFields, PastFrom, PutField, GetField, PutUE, PutSE, PutU1, PutU, GetUE, GetSE, GetU1, GetU;
    Kinds();
    OneByOne();
  }

  // Groups of elements, and groups in a row

  /** The elements that code c writes for a value are those of its list. */
  ghost predicate WritesList<T(!new)>(c: Codec<T>, list: T -> seq<Field>) {
    forall x, rest {:trigger c.put(x, rest)} :: c.put(x, rest) == Code(list(x), rest)
  }

  /** Whatever is read, the elements of its list stand there, and the reader is right behind them. */
  ghost predicate ReadsList<T(!new)>(c: Codec<T>, list: T -> seq<Field>) {
    forall s {:trigger c.get(s)} :: Past(list(c.get(s).0), s) == Some(c.get(s).1)
  }

  function OptionList<T>(list: T -> seq<Field>, o: Option<T>): seq<Field> {
    if o.Some? then [Flag(true)] + list(o.value) else [Flag(false)]
  }

  lemma OptionWritten<T(!new)>(c: Codec<T>, list: T -> seq<Field>, o: Option<T>, rest: seq<bool>)
    requires o.Some? ==> c.put(o.value, rest) == Code(list(o.value), rest)
    ensures PutOption(c, o, rest) == Code(OptionList(list, o), rest)
  {
    hide PutFields, PutField, PutU1, GetOption, Inverts;
    Kinds();
    OneByOne();
    if o.Some? {
      CodeOfTwo([Flag(true)], list(o.value), 0, rest);
    }
  }

  lemma OptionRead<T>(c: Codec<T>, list: T -> seq<Field>, s: Input)
    requires
      var s' := GetU1(s).1;
      GetU1(s).0 ==> Past(list(c.get(s').0), s') == Some(c.get(s').1)
    ensures Past(OptionList(list, GetOption(c, s).0), s) == Some(GetOption(c, s).1)
  {
    hide PastFrom, GetField, GetU1;
    Kinds();
    OneByOne();
    if GetU1(s).0 {
      PastTwo([Flag(true)], list(c.get(GetU1(s).1).0), 0, s);
    }
  }

  lemma OptionSyntax<T(!new)>(c: Codec<T>, list: T -> seq<Field>)
    ensures WritesList(c, list) ==>
              forall o, rest {:trigger PutOption(c, o, rest)} ::
                PutOption(c, o, rest) == Code(OptionList(list, o), rest)
    ensures ReadsList(c, list) ==>
              forall s {:trigger GetOption(c, s)} ::
                Past(OptionList(list, GetOption(c, s).0), s) == Some(GetOption(c, s).1)
  {
    hide PutOption, GetOption, OptionList, Code, Past;
    if WritesList(c, list) {
      forall o, rest
        ensures PutOption(c, o, rest) == Code(OptionList(list, o), rest)
      {
        OptionWritten(c, list, o, rest);
      }
    }
    if ReadsList(c, list) {
      forall s
        ensures Past(OptionList(list, GetOption(c, s).0), s) == Some(GetOption(c, s).1)
      {
        OptionRead(c, list, s);
      }
    }
  }

  function ManyList<T>(list: T -> seq<Field>, xs: seq<T>): seq<Field> {
    if xs == [] then [] else ManyList(list, xs[..|xs| - 1]) + list(xs[|xs| - 1])
  }

  lemma {:induction false} PutFromSnoc<T>(c: Codec<T>, xs: seq<T>, x: T, i: nat, rest: seq<bool>)
    requires i <= |xs|
    ensures PutFrom(c, xs + [x], i, rest) == PutFrom(c, xs, i, c.put(x, rest))
    decreases |xs| - i
  {
    if i < |xs| {
      PutFromSnoc(c, xs, x, i + 1, rest);
    } else {
      assert PutFrom(c, xs + [x], i + 1, rest) == rest;
    }
  }

  lemma {:induction false} ManyWritten<T(!new)>(c: Codec<T>, list: T -> seq<Field>, xs: seq<T>, rest: seq<bool>)
    requires WritesList(c, list)
    ensures PutFrom(c, xs, 0, rest) == Code(ManyList(list, xs), rest)
  {
    hide PutFields;
    if xs == [] {
      OneByOne();
    } else {
      var n := |xs| - 1;
      assert xs == xs[..n] + [xs[n]];
      PutFromSnoc(c, xs[..n], xs[n], 0, rest);
      ManyWritten(c, list, xs[..n], c.put(xs[n], rest));
      CodeOfTwo(ManyList(list, xs[..n]), list(xs[n]), 0, rest);
    }
  }

  lemma {:induction false} ManyRead<T(!new)>(c: Codec<T>, list: T -> seq<Field>, n: nat, s: Input)
    requires ReadsList(c, list)
    ensures Past(ManyList(list, GetMany(c, n, s).0), s) == Some(GetMany(c, n, s).1)
  {
    hide PastFrom;
    if n == 0 {
      OneByOne();
    } else {
      var (xs, s') := GetMany(c, n - 1, s);
      ManyRead(c, list, n - 1, s);
      var x := c.get(s').0;
      assert (xs + [x])[..n - 1] == xs;
      PastTwo(ManyList(list, xs), list(x), 0, s);
    }
  }

  function NumberList(v: nat): seq<Field> {
    [Exp(v)]
  }

  function SignedList(v: int): seq<Field> {
    [Signed(v)]
  }

  function FlagList(v: bool): seq<Field> {
    [Flag(v)]
  }

  lemma NumbersAndFlags()
    ensures WritesList(UE, NumberList) && ReadsList(UE, NumberList)
    ensures WritesList(SE, SignedList) && ReadsList(SE, SignedList)
    ensures WritesList(FLAG, FlagList) && ReadsList(FLAG, FlagList)
  {
    hide PutFields, PastFrom, PutField, GetField, PutUE, PutSE, PutU1, GetUE, GetSE, GetU1;
    Kinds();
    OneByOne();
  }

  // Elements under a condition

  function When(cond: bool, fs: seq<Field>): seq<Field> {
    if cond then fs else []
  }

  lemma IfRead<T(!new)>(c: Codec<T>, list: T -> seq<Field>, cond: bool, absent: T, s: Input)
    requires ReadsList(c, list)
    ensures Past(When(cond, list(GetIf(cond, c, absent, s).0)), s) == Some(GetIf(cond, c, absent, s).1)
  {
    hide PastFrom;
    OneByOne();
    if cond {
      assert Past(list(c.get(s).0), s) == Some(c.get(s).1);
    }
  }

  lemma IfSyntax<T(!new)>(c: Codec<T>, list: T -> seq<Field>)
    ensures WritesList(c, list) ==>
              forall cond, x, absent, rest {:trigger PutIf(cond, c, x, absent, rest)} ::
                PutIf(cond, c, x, absent, rest) == Code(When(cond, list(x)), rest)
    ensures ReadsList(c, list) ==>
              forall cond, absent, s {:trigger GetIf(cond, c, absent, s)} ::
                Past(When(cond, list(GetIf(cond, c, absent, s).0)), s) == Some(GetIf(cond, c, absent, s).1)
  {
    hide GetIf, Inverts, PutFields, PastFrom;
    OneByOne();
    if WritesList(c, list) {
      forall cond, x, absent, rest
        ensures PutIf(cond, c, x, absent, rest) == Code(When(cond, list(x)), rest)
      {}
    }
    if ReadsList(c, list) {
      forall cond, absent, s
        ensures Past(When(cond, list(GetIf(cond, c, absent, s).0)), s) == Some(GetIf(cond, c, absent, s).1)
      {
        IfRead(c, list, cond, absent, s);
      }
    }
  }

  // Lists up to an end mark

  lemma {:induction false} ManyCons<T>(list: T -> seq<Field>, x: T, xs: seq<T>)
    ensures ManyList(list, [x] + xs) == list(x) + ManyList(list, xs)
  {
    if xs == [] {
      assert [x] + xs == [x] && [x][..0] == [];
      assert ManyList(list, [x]) == [] + list(x);
    } else {
      var n := |xs| - 1;
      ManyCons(list, x, xs[..n]);
      assert ([x] + xs)[..n + 1] == [x] + xs[..n] && ([x] + xs)[n + 1] == xs[n];
    }
  }

  lemma ManyOne<T>(list: T -> seq<Field>, x: T)
    ensures ManyList(list, [x]) == list(x)
  {
    ManyCons(list, x, []);
    assert [x] + [] == [x];
    assert list(x) + ManyList(list, []) == list(x);
  }

  /** A list that ends at its first end mark, or in which the bits end, s being behind it. */
  predicate Ends<T>(isLast: T -> bool, xs: seq<T>, s: Input) {
    xs != [] && (isLast(xs[|xs| - 1]) || s.rest == []) && forall i :: 0 <= i < |xs| - 1 ==> !isLast(xs[i])
  }

  lemma EndsLater<T>(isLast: T -> bool, x: T, xs: seq<T>, s: Input)
    requires !isLast(x) && Ends(isLast, xs, s)
    ensures Ends(isLast, [x] + xs, s)
  {}

  lemma {:induction false} UntilRead<T(!new)>(c: Codec<T>, isLast: T -> bool, list: T -> seq<Field>, s: Input)
    requires Consumes(c) && ReadsList(c, list)
    ensures
      var (xs, s') := GetUntil(c, isLast, s);
      Past(ManyList(list, xs), s) == Some(s') && Ends(isLast, xs, s')
    decreases |s.rest|
  {
    hide PastFrom, ManyList;
    var (x, s1) := c.get(s);
    assert Past(list(x), s) == Some(s1);
    if isLast(x) || s1.rest == [] {
      ManyOne(list, x);
    } else {
      hide Ends;
      UntilRead(c, isLast, list, s1);
      var (xs, s') := GetUntil(c, isLast, s1);
      EndsLater(isLast, x, xs, s');
      ManyCons(list, x, xs);
      PastTwo(list(x), ManyList(list, xs), 0, s);
    }
  }
}
