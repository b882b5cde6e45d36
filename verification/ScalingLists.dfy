/** Scaling lists, section 7.3.2.1.1.1 of ITU-T H.264, and the loops over them in parameter sets. */
module ScalingLists {
  import opened Bits
  import opened BitSyntax
  import opened BitCursor

  datatype ScalingList = ScalingList(entries: seq<int>, useDefault: bool)

  /** The remainder of C, whose sign is that of the dividend. */
  function CMod(a: int, m: nat): int
    requires m > 0
  {
    if a >= 0 then a % m else -(-a % m)
  }

  /** A list as the reader leaves it for deltas in their range. */
  predicate ListOk(n: nat, l: ScalingList) {
    |l.entries| == n && n > 0 &&
    forall j :: 0 <= j < n ==> if l.useDefault then l.entries[j] == 8 else 1 <= l.entries[j] <= 255
  }

  // Writing

  /** lastScale and nextScale of the writer before entry j. */
  function LastAt(l: ScalingList, j: nat): int
    requires j <= |l.entries|
  {
    if j == 0 then 8 else l.entries[j - 1]
  }

  function NextAt(l: ScalingList, j: nat): int
    requires j <= |l.entries|
  {
    if j == 0 then 8 else if l.useDefault || NextAt(l, j - 1) == 0 then 0 else l.entries[j - 1]
  }

  function Delta(l: ScalingList, j: nat): int
    requires j < |l.entries|
  {
    CMod(NextAt(l, j + 1) - LastAt(l, j), 256)
  }

  function PutEntry(l: ScalingList, j: nat, rest: seq<bool>): seq<bool>
    requires j < |l.entries|
  {
    if NextAt(l, j) != 0 then PutSE(Delta(l, j), rest) else rest
  }

  function PutEntries(l: ScalingList, j: nat, rest: seq<bool>): seq<bool>
    requires j <= |l.entries|
    decreases |l.entries| - j
  {
    if j == |l.entries| then rest else PutEntry(l, j, PutEntries(l, j + 1, rest))
  }

  // Reading

  /** The reader after some entries: the entries, nextScale, the default flag, and the input left. */
  datatype Scan = Scan(entries: seq<int>, next: int, useDefault: bool, s: Input)

  function Last(c: Scan): int {
    if c.entries == [] then 8 else c.entries[|c.entries| - 1]
  }

  function Step(c: Scan): Scan {
    var last := Last(c);
    if c.next != 0 then
      var (delta, s) := GetSE(c.s);
      var next := CMod(last + delta + 256, 256);
      Scan(c.entries + [if next == 0 then last else next], next, c.entries == [] && next == 0, s)
    else
      Scan(c.entries + [last], c.next, c.useDefault, c.s)
  }

  function Run(n: nat, s: Input): (c: Scan)
    ensures |c.entries| == n
  {
    if n == 0 then Scan([], 8, false, s) else Step(Run(n - 1, s))
  }

  function GetScalingList(n: nat, s: Input): (ScalingList, Input) {
    var c := Run(n, s);
    (ScalingList(c.entries, c.useDefault), c.s)
  }

  lemma {:induction false} NextAtOk(n: nat, l: ScalingList, j: nat)
    requires ListOk(n, l) && 0 < j <= n
    ensures NextAt(l, j) == if l.useDefault then 0 else l.entries[j - 1]
  {
    if j > 1 {
      NextAtOk(n, l, j - 1);
      assert !l.useDefault ==> l.entries[j - 2] != 0;
    }
  }

  lemma FirstNext(l: ScalingList)
    ensures NextAt(l, 0) == LastAt(l, 0) == 8
  {}

  /** The reader undoes the delta of entry j, and the delta fits its code. */
  lemma DeltaUndone(n: nat, l: ScalingList, j: nat)
    requires ListOk(n, l) && j < n
    ensures NextAt(l, j) == 0 <==> l.useDefault && j > 0
    ensures !l.useDefault || j == 0 ==>
              CMod(LastAt(l, j) + Delta(l, j) + 256, 256) == NextAt(l, j + 1) && -255 <= Delta(l, j) <= 255
    ensures l.entries[j] == if NextAt(l, j + 1) == 0 then LastAt(l, j) else NextAt(l, j + 1)
    ensures LastAt(l, j + 1) == l.entries[j]
  {
    hide NextAt;
    NextAtOk(n, l, j + 1);
    assert NextAt(l, 0) == 8 by { FirstNext(l); }
    if j > 0 {
      NextAtOk(n, l, j);
      assert if l.useDefault then l.entries[j - 1] == 8 else 1 <= l.entries[j - 1] <= 255;
    }
  }

  lemma ListSizeIs(n: nat, l: ScalingList)
    requires ListOk(n, l)
    ensures |l.entries| == n
  {}

  lemma {:induction false} EntriesBack(n: nat, l: ScalingList, j: nat, rest: seq<bool>)
    requires ListOk(n, l) && j <= n
    ensures Run(j, From(PutEntries(l, 0, rest))) ==
            Scan(l.entries[..j], NextAt(l, j), l.useDefault && j > 0, From(PutEntries(l, j, rest)))
  {
    hide PutSE, GetSE, From, CMod, Delta, ListOk;
    assert |l.entries| == n by { ListSizeIs(n, l); }
    if j > 0 {
      EntriesBack(n, l, j - 1, rest);
      DeltaUndone(n, l, j - 1);
      assert l.entries[..j] == l.entries[..j - 1] + [l.entries[j - 1]];
    }
  }

  lemma ListBack(n: nat, l: ScalingList, rest: seq<bool>)
    ensures ListOk(n, l) ==> GetScalingList(n, From(PutEntries(l, 0, rest))) == (l, From(rest))
  {
    if ListOk(n, l) {
      EntriesBack(n, l, n, rest);
      assert l.entries[..n] == l.entries;
    }
  }

  function PutScalingList(n: nat, l: ScalingList, rest: seq<bool>): (r: seq<bool>)
    ensures ListOk(n, l) ==> GetScalingList(n, From(r)) == (l, From(rest))
  {
    ListBack(n, l, rest);
    PutEntries(l, 0, rest)
  }

  /** One turn of the writing loop. */
  lemma WriterStep(l: ScalingList, j: nat)
    requires j < |l.entries|
    ensures NextAt(l, j + 1) == if l.useDefault || NextAt(l, j) == 0 then 0 else l.entries[j]
    ensures LastAt(l, j + 1) == l.entries[j]
    ensures NextAt(l, j) != 0 ==> Delta(l, j) == CMod((if l.useDefault then 0 else l.entries[j]) - LastAt(l, j), 256)
  {}

  lemma PutEntriesStep(l: ScalingList, j: nat)
    requires j < |l.entries|
    ensures forall rest :: PutEntries(l, j, rest) == PutEntry(l, j, PutEntries(l, j + 1, rest))
  {}

  // Normal form of what is read

  /** No delta read for the first n entries is so low that the remainder can turn negative. */
  ghost predicate DeltasInRange(n: nat, s: Input) {
    forall j {:trigger Run(j, s)} :: 0 <= j < n && Run(j, s).next != 0 ==> -257 <= GetSE(Run(j, s).s).0
  }

  lemma {:induction false} RunInRange(n: nat, s: Input)
    requires DeltasInRange(n, s)
    ensures
      var c := Run(n, s);
      (n == 0 ==> !c.useDefault) && 0 <= c.next <= 255 && (c.useDefault ==> c.next == 0) &&
      forall j :: 0 <= j < n ==> if c.useDefault then c.entries[j] == 8 else 1 <= c.entries[j] <= 255
  {
    hide GetSE;
    if n > 0 {
      RunInRange(n - 1, s);
      assert Run(n - 1, s).next != 0 ==> -257 <= GetSE(Run(n - 1, s).s).0;
    }
  }

  /**
   Whatever list is read, writing it out and reading it again gives the same
   list and the same default flag, also when the list read had stopped early.
   */
  lemma ReadListIsNormal(n: nat, s: Input, rest: seq<bool>)
    requires n > 0 && DeltasInRange(n, s)
    ensures
      var l := GetScalingList(n, s).0;
      ListOk(n, l) && GetScalingList(n, From(PutScalingList(n, l, rest))) == (l, From(rest))
  {
    RunInRange(n, s);
  }

  // The lists of a parameter set: six of 16 entries, then lists of 64

  function ListSize(i: nat): nat {
    if i < 6 then 16 else 64
  }

  const LIST16: Codec<ScalingList> := Codec((l, rest) => PutScalingList(16, l, rest), s => GetScalingList(16, s))
  const LIST64: Codec<ScalingList> := Codec((l, rest) => PutScalingList(64, l, rest), s => GetScalingList(64, s))

  function ListCodec(i: nat): Codec<ScalingList> {
    if i < 6 then LIST16 else LIST64
  }

  predicate ListsOk(ls: seq<Option<ScalingList>>) {
    forall i :: 0 <= i < |ls| && ls[i].Some? ==> ListOk(ListSize(i), ls[i].value)
  }

  predicate SizesOk(ls: seq<Option<ScalingList>>) {
    forall i :: 0 <= i < |ls| && ls[i].Some? ==> |ls[i].value.entries| == ListSize(i)
  }

  function PutListsFrom(ls: seq<Option<ScalingList>>, i: nat, rest: seq<bool>): seq<bool>
    requires i <= |ls|
    decreases |ls| - i
  {
    if i == |ls| then rest else PutOption(ListCodec(i), ls[i], PutListsFrom(ls, i + 1, rest))
  }

  function GetLists(n: nat, s: Input): (r: (seq<Option<ScalingList>>, Input))
    ensures |r.0| == n
  {
    if n == 0 then ([], s) else
    var (ls, s') := GetLists(n - 1, s);
    var (l, s'') := GetOption(ListCodec(n - 1), s');
    (ls + [l], s'')
  }

  lemma OptionalListBack(i: nat, o: Option<ScalingList>, rest: seq<bool>)
    requires o.Some? ==> ListOk(ListSize(i), o.value)
    ensures GetOption(ListCodec(i), From(PutOption(ListCodec(i), o, rest))) == (o, From(rest))
  {
    hide PutOption, GetOption, PutScalingList, GetScalingList, ListOk;
    if o.Some? {
      assert Inverts(ListCodec(i), o.value);
    }
  }

  lemma {:induction false} ListsRoundTrip(ls: seq<Option<ScalingList>>, i: nat, rest: seq<bool>)
    requires ListsOk(ls) && i <= |ls|
    ensures GetLists(i, From(PutListsFrom(ls, 0, rest))) == (ls[..i], From(PutListsFrom(ls, i, rest)))
  {
    hide PutOption, GetOption, ListOk, ListCodec, From;
    if i > 0 {
      ListsRoundTrip(ls, i - 1, rest);
      OptionalListBack(i - 1, ls[i - 1], PutListsFrom(ls, i, rest));
      assert ls[..i] == ls[..i - 1] + [ls[i - 1]];
    }
  }

  lemma ListsBack(ls: seq<Option<ScalingList>>, rest: seq<bool>)
    ensures ListsOk(ls) ==> GetLists(|ls|, From(PutListsFrom(ls, 0, rest))) == (ls, From(rest))
  {
    if ListsOk(ls) {
      ListsRoundTrip(ls, |ls|, rest);
      assert ls[..|ls|] == ls;
    }
  }

  function PutLists(ls: seq<Option<ScalingList>>, rest: seq<bool>): (r: seq<bool>)
    ensures ListsOk(ls) ==> GetLists(|ls|, From(r)) == (ls, From(rest))
  {
    ListsBack(ls, rest);
    PutListsFrom(ls, 0, rest)
  }

  // Methods

  method ReadScalingList(b: BitStream, size: nat) returns (l: ScalingList)
    requires b.Valid()
    modifies b`p, b`bitsLeft
    ensures b.Valid() && (l, b.View()) == GetScalingList(size, old(b.View()))
  {
    hide BitStream.View, GetSE;
    ghost var s := b.View();
    var lastScale, nextScale := 8, 8;
    var list: seq<int> := [];
    var useDefault := false;
    for j := 0 to size
      invariant b.Valid() && Run(j, s) == Scan(list, nextScale, useDefault, b.View())
      invariant lastScale == Last(Run(j, s))
    {
      if nextScale != 0 {
        var deltaScale := b.ReadSE();
        nextScale := CMod(lastScale + deltaScale + 256, 256);
        useDefault := j == 0 && nextScale == 0;
      }
      list := list + [if nextScale == 0 then lastScale else nextScale];
      lastScale := list[j];
    }
    l := ScalingList(list, useDefault);
  }

  lemma CModRange(a: int)
    ensures -256 < CMod(a, 256) < 256
  {}

  method WriteEntry(b: BitStream, l: ScalingList, j: nat, lastScale: int, nextScale: int) returns (next: int)
    requires b.Valid() && j < |l.entries| && lastScale == LastAt(l, j) && nextScale == NextAt(l, j)
    modifies b`p, b`bitsLeft, b.buf
    ensures b.Valid() && next == NextAt(l, j + 1)
    ensures forall rest {:trigger Then(b.Tape(), rest)} ::
              Then(b.Tape(), rest) == Then(old(b.Tape()), PutEntry(l, j, rest))
  {
    hide BitStream.Tape, Then, PutSE, NextAt, LastAt, CMod;
    WriterStep(l, j);
    next := nextScale;
    if next != 0 {
      next := l.entries[j];
      if l.useDefault {
        next := 0;
      }
      var deltaScale := CMod(next - lastScale, 256);
      CModRange(next - lastScale);
      b.WriteSE(deltaScale);
    }
  }

  lemma PutEntriesEnd(l: ScalingList)
    ensures forall rest :: PutEntries(l, |l.entries|, rest) == rest
  {}

  method WriteScalingList(b: BitStream, l: ScalingList, size: nat)
    requires b.Valid() && |l.entries| == size
    modifies b`p, b`bitsLeft, b.buf
    ensures b.Valid()
    ensures forall rest {:trigger Then(b.Tape(), rest)} ::
              Then(b.Tape(), rest) == Then(old(b.Tape()), PutScalingList(size, l, rest))
  {
    hide BitStream.Tape, Then, PutEntry, PutEntries, NextAt, LastAt, GetScalingList, ListOk, From;
    FirstNext(l);
    var lastScale, nextScale := 8, 8;
    for j := 0 to size
      invariant b.Valid() && lastScale == LastAt(l, j) && nextScale == NextAt(l, j)
      invariant forall rest :: Then(b.Tape(), PutEntries(l, j, rest)) == Then(old(b.Tape()), PutEntries(l, 0, rest))
    {
      WriterStep(l, j);
      PutEntriesStep(l, j);
      nextScale := WriteEntry(b, l, j, lastScale, nextScale);
      lastScale := l.entries[j];
    }
    PutEntriesEnd(l);
  }

  method ReadLists(b: BitStream, n: nat) returns (ls: seq<Option<ScalingList>>)
    requires b.Valid()
    modifies b`p, b`bitsLeft
    ensures b.Valid() && (ls, b.View()) == GetLists(n, old(b.View()))
  {
    hide BitStream.View, GetU1, GetScalingList;
    ls := [];
    for i := 0 to n
      invariant b.Valid() && (ls, b.View()) == GetLists(i, old(b.View()))
    {
      var o := None;
      var present := b.ReadU1();
      if present {
        if i < 6 {
          var l := ReadScalingList(b, 16);
          o := Some(l);
        } else {
          var l := ReadScalingList(b, 64);
          o := Some(l);
        }
      }
      ls := ls + [o];
    }
  }

  method WriteOptionalList(b: BitStream, o: Option<ScalingList>, i: nat)
    requires b.Valid() && (o.Some? ==> |o.value.entries| == ListSize(i))
    modifies b`p, b`bitsLeft, b.buf
    ensures b.Valid()
    ensures forall rest {:trigger Then(b.Tape(), rest)} ::
              Then(b.Tape(), rest) == Then(old(b.Tape()), PutOption(ListCodec(i), o, rest))
  {
    hide BitStream.Tape, Then, PutScalingList, PutU1, GetOption, Inverts, From;
    b.WriteU1(o.Some?);
    if o.Some? {
      if i < 6 {
        WriteScalingList(b, o.value, 16);
      } else {
        WriteScalingList(b, o.value, 64);
      }
    }
  }

  lemma PutListsStep(ls: seq<Option<ScalingList>>, i: nat)
    requires i < |ls|
    ensures forall rest :: PutListsFrom(ls, i, rest) == PutOption(ListCodec(i), ls[i], PutListsFrom(ls, i + 1, rest))
    ensures SizesOk(ls) && ls[i].Some? ==> |ls[i].value.entries| == ListSize(i)
  {}

  lemma PutListsEnd(ls: seq<Option<ScalingList>>)
    ensures forall rest :: PutListsFrom(ls, |ls|, rest) == rest
  {}

  method WriteLists(b: BitStream, ls: seq<Option<ScalingList>>)
    requires b.Valid() && SizesOk(ls)
    modifies b`p, b`bitsLeft, b.buf
    ensures b.Valid()
    ensures forall rest {:trigger Then(b.Tape(), rest)} ::
              Then(b.Tape(), rest) == Then(old(b.Tape()), PutLists(ls, rest))
  {
    hide BitStream.Tape, Then, PutListsFrom, PutOption, GetLists, SizesOk;
    for i := 0 to |ls|
      invariant b.Valid()
      invariant forall rest ::
                  Then(b.Tape(), PutListsFrom(ls, i, rest)) == Then(old(b.Tape()), PutListsFrom(ls, 0, rest))
    {
      PutListsStep(ls, i);
      WriteOptionalList(b, ls[i], i);
    }
    PutListsEnd(ls);
  }
}
