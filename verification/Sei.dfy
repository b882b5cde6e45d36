/**
 Supplemental enhancement information, sections 7.3.2.3 and 7.3.2.3.1 of
 ITU-T H.264: a list of messages with a type, a size and raw payload bytes.
 */
module Sei {
  import opened Bits
  import opened BitSyntax
  import opened BitCursor

  datatype Message = Message(payloadType: nat, payload: seq<nat>)

  const SCALABILITY_INFO: nat := 24

  // Numbers coded as a run of 0xff bytes and a last byte

  function PutFF(n: nat, rest: seq<bool>): seq<bool> {
    if n > 0xff then PutU8(0xff, PutFF(n - 0xff, rest)) else PutU8(n, rest)
  }

  lemma {:induction false} NatOfNoOne(b: seq<bool>)
    requires !HasOne(b)
    ensures NatOf(b) == 0
  {
    if b != [] {
      assert !b[|b| - 1];
      NatOfNoOne(b[..|b| - 1]);
    }
  }

  lemma NoByteBehindEnd(s: Input)
    ensures GetU8(s).0 < 256
    ensures GetU8(s).0 != 0 ==> s.rest != []
    ensures Behind(GetU8(s).1, s)
    ensures Left(GetU8(s).1) == Left(s) - 8
  {
    BitsUOfNat(Peek(s, 8));
    Pow2Values();
    if s.rest == [] {
      NatOfNoOne(Peek(s, 8));
    }
  }

  function GetFF(s: Input): (nat, Input)
    decreases |s.rest|
  {
    var (v, s') := GetU8(s);
    NoByteBehindEnd(s);
    if v == 0xff then
      var (w, s'') := GetFF(s');
      (v + w, s'')
    else (v, s')
  }

  /** The numbers whose last byte is not 0xff. */
  predicate FFOk(n: nat) {
    n == 0 || n % 0xff != 0
  }

  /** The bytes by which the reader passes the number n. */
  function ReadBytes(n: nat): nat {
    n / 0xff + 1
  }

  /** The bytes that the writer sends for the number n. */
  function WrittenBytes(n: nat): nat {
    if FFOk(n) then n / 0xff + 1 else n / 0xff
  }

  lemma {:induction false} FFReadsBytes(s: Input)
    ensures Left(GetFF(s).1) == Left(s) - 8 * ReadBytes(GetFF(s).0)
    ensures Behind(GetFF(s).1, s)
    decreases |s.rest|
  {
    hide GetU8;
    NoByteBehindEnd(s);
    var (v, s') := GetU8(s);
    if v == 0xff {
      FFReadsBytes(s');
    }
  }

  lemma {:induction false} FFWritesBytes(n: nat, rest: seq<bool>)
    ensures |PutFF(n, rest)| == |rest| + 8 * WrittenBytes(n)
  {
    if n > 0xff {
      FFWritesBytes(n - 0xff, rest);
    }
  }

  lemma {:induction false} FFBack(n: nat, rest: seq<bool>)
    requires FFOk(n)
    ensures GetFF(From(PutFF(n, rest))) == (n, From(rest))
  {
    hide PutU8, GetU8, From;
    if n > 0xff {
      FFBack(n - 0xff, rest);
    }
  }

  /** A number comes back exactly when it is 0 or no multiple of 255, whatever follows it. */
  lemma FFRoundTripIff(n: nat, rest: seq<bool>)
    ensures GetFF(From(PutFF(n, rest))) == (n, From(rest)) <==> FFOk(n)
  {
    hide GetFF, PutFF;
    if FFOk(n) {
      FFBack(n, rest);
    } else {
      FFReadsBytes(From(PutFF(n, rest)));
      FFWritesBytes(n, rest);
    }
  }

  /** The number 255 is sent as one byte 0xff, behind which the reader goes on. */
  lemma TwoFiftyFiveIsLost(rest: seq<bool>)
    ensures GetFF(From(PutFF(255, rest))) != (255, From(rest))
  {
    hide PutFF, GetFF;
    FFRoundTripIff(255, rest);
  }

  // Messages

  predicate PayloadOk(p: seq<nat>) {
    forall x <- p :: x < 256
  }

  predicate MessageOk(m: Message) {
    m.payloadType != SCALABILITY_INFO && PayloadOk(m.payload)
  }

  predicate NumbersOk(m: Message) {
    FFOk(m.payloadType) && FFOk(|m.payload|)
  }

  lemma {:induction false} PayloadLength(p: seq<nat>, i: nat, rest: seq<bool>)
    requires i <= |p|
    ensures |PutFrom(U8, p, i, rest)| == |rest| + 8 * (|p| - i)
    decreases |p| - i
  {
    if i < |p| {
      PayloadLength(p, i + 1, rest);
    }
  }

  function PutPayload(p: seq<nat>, rest: seq<bool>): (r: seq<bool>)
    ensures PayloadOk(p) ==> GetMany(U8, |p|, From(r)) == (p, From(rest))
    ensures |r| == |rest| + 8 * |p|
  {
    hide PutU8, GetU8, GetMany, From;
    PayloadLength(p, 0, rest);
    PutMany(U8, p, rest)
  }

  lemma {:induction false} PayloadReads(n: nat, s: Input)
    ensures Left(GetMany(U8, n, s).1) == Left(s) - 8 * n
    ensures n > 0 ==> Behind(GetMany(U8, n, s).1, s)
  {
    hide GetU8;
    if n > 0 {
      PayloadReads(n - 1, s);
      NoByteBehindEnd(GetMany(U8, n - 1, s).1);
    }
  }

  function PutMessage(m: Message, rest: seq<bool>): seq<bool> {
    PutFF(m.payloadType, PutFF(|m.payload|, PutPayload(m.payload, rest)))
  }

  /** None for a scalability information message, whose payload is not raw bytes. */
  function GetMessage(s: Input): Option<(Message, Input)> {
    var (t, s1) := GetFF(s);
    var (size, s2) := GetFF(s1);
    if t == SCALABILITY_INFO then None else
    var (p, s3) := GetMany(U8, size, s2);
    Some((Message(t, p), s3))
  }

  lemma MessageReads(s: Input)
    requires GetMessage(s).Some?
    ensures
      var (m, s') := GetMessage(s).value;
      Behind(s', s) && m.payloadType != SCALABILITY_INFO &&
      Left(s') == Left(s) - 8 * (ReadBytes(m.payloadType) + ReadBytes(|m.payload|) + |m.payload|)
  {
    hide GetFF, ReadBytes;
    var (t, s1) := GetFF(s);
    var (size, s2) := GetFF(s1);
    FFReadsBytes(s);
    FFReadsBytes(s1);
    PayloadReads(size, s2);
  }

  lemma MessageBack(m: Message, rest: seq<bool>)
    requires MessageOk(m) && NumbersOk(m)
    ensures GetMessage(From(PutMessage(m, rest))) == Some((m, From(rest)))
  {
    hide PutFF, GetFF, PutPayload, GetMany, From;
    FFBack(m.payloadType, PutFF(|m.payload|, PutPayload(m.payload, rest)));
    FFBack(|m.payload|, PutPayload(m.payload, rest));
  }

  // Lists

  function PutMessages(ms: seq<Message>, i: nat, rest: seq<bool>): seq<bool>
    requires i <= |ms|
    decreases |ms| - i
  {
    if i == |ms| then rest else PutMessage(ms[i], PutMessages(ms, i + 1, rest))
  }

  /** Messages up to the one behind which only the stop bit is left. */
  function GetMessages(s: Input): Option<(seq<Message>, Input)>
    decreases |s.rest|
  {
    match GetMessage(s)
    case None => None
    case Some((m, s')) =>
      if MoreData(s') then
        MessageReads(s);
        match GetMessages(s')
        case None => None
        case Some((ms, s'')) => Some(([m] + ms, s''))
      else Some(([m], s'))
  }

  lemma PayloadIsLoop(p: seq<nat>, rest: seq<bool>)
    ensures PutPayload(p, rest) == PutFrom(U8, p, 0, rest)
  {}

  lemma ByteHasOne(v: nat, rest: seq<bool>)
    requires HasOne(rest)
    ensures HasOne(PutU8(v, rest)) && MoreData(From(PutU8(v, rest)))
  {
    var r := PutU8(v, rest);
    assert r[8..] == rest;
    var i :| 0 <= i < |rest| && rest[i];
    assert r[8 + i];
  }

  lemma {:induction false} FFHasOne(n: nat, rest: seq<bool>)
    requires HasOne(rest)
    ensures HasOne(PutFF(n, rest)) && MoreData(From(PutFF(n, rest)))
  {
    hide HasOne, PutU8, MoreData;
    if n > 0xff {
      FFHasOne(n - 0xff, rest);
      ByteHasOne(0xff, PutFF(n - 0xff, rest));
    } else {
      ByteHasOne(n, rest);
    }
  }

  lemma {:induction false} PayloadHasOne(p: seq<nat>, i: nat, rest: seq<bool>)
    requires HasOne(rest) && i <= |p|
    ensures HasOne(PutFrom(U8, p, i, rest))
    decreases |p| - i
  {
    hide HasOne, PutU8, MoreData;
    if i < |p| {
      PayloadHasOne(p, i + 1, rest);
      ByteHasOne(p[i], PutFrom(U8, p, i + 1, rest));
    }
  }

  /** Behind a first byte, a one further on shows that there is more. */
  lemma MessageSeen(m: Message, rest: seq<bool>)
    requires HasOne(rest)
    ensures HasOne(PutMessage(m, rest)) && MoreData(From(PutMessage(m, rest)))
  {
    hide PutFF, HasOne, GetMany, MoreData, From, PutPayload, PutU8;
    PayloadHasOne(m.payload, 0, rest);
    PayloadIsLoop(m.payload, rest);
    FFHasOne(|m.payload|, PutPayload(m.payload, rest));
    FFHasOne(m.payloadType, PutFF(|m.payload|, PutPayload(m.payload, rest)));
  }

  lemma {:induction false} MessagesSeen(ms: seq<Message>, i: nat, rest: seq<bool>)
    requires i < |ms| && StopOnly(rest)
    ensures HasOne(PutMessages(ms, i, rest)) && MoreData(From(PutMessages(ms, i, rest)))
    decreases |ms| - i
  {
    hide MoreData, PutMessage, From;
    if i + 1 < |ms| {
      MessagesSeen(ms, i + 1, rest);
    } else {
      assert rest[0];
    }
    MessageSeen(ms[i], PutMessages(ms, i + 1, rest));
  }

  lemma NothingSeen(rest: seq<bool>)
    requires StopOnly(rest)
    ensures !MoreData(From(rest))
  {}

  lemma {:induction false} MessagesBack(ms: seq<Message>, i: nat, rest: seq<bool>)
    requires i < |ms| && StopOnly(rest)
    requires forall m <- ms :: MessageOk(m) && NumbersOk(m)
    ensures GetMessages(From(PutMessages(ms, i, rest))) == Some((ms[i..], From(rest)))
    decreases |ms| - i
  {
    hide PutMessage, GetMessage, MessageOk, NumbersOk, MoreData, StopOnly;
    MessageBack(ms[i], PutMessages(ms, i + 1, rest));
    if i + 1 < |ms| {
      MessagesBack(ms, i + 1, rest);
      MessagesSeen(ms, i + 1, rest);
      assert ms[i..] == [ms[i]] + ms[i + 1..];
    } else {
      NothingSeen(rest);
      assert ms[i..] == [ms[i]];
    }
  }

  /** The bytes the reader passes, and the bytes the writer sends, for ms[i..]. */
  function TotalRead(ms: seq<Message>, i: nat): nat
    requires i <= |ms|
    decreases |ms| - i
  {
    if i == |ms| then 0 else
    ReadBytes(ms[i].payloadType) + ReadBytes(|ms[i].payload|) + |ms[i].payload| + TotalRead(ms, i + 1)
  }

  function TotalWritten(ms: seq<Message>, i: nat): nat
    requires i <= |ms|
    decreases |ms| - i
  {
    if i == |ms| then 0 else
    WrittenBytes(ms[i].payloadType) + WrittenBytes(|ms[i].payload|) + |ms[i].payload| + TotalWritten(ms, i + 1)
  }

  lemma MoreMeansRest(s: Input)
    requires MoreData(s)
    ensures s.rest != []
  {}

  lemma {:induction false} TotalReadTail(m: Message, ms: seq<Message>, i: nat)
    requires i <= |ms|
    ensures TotalRead([m] + ms, i + 1) == TotalRead(ms, i)
    decreases |ms| - i
  {
    if i < |ms| {
      TotalReadTail(m, ms, i + 1);
    }
  }

  lemma {:induction false} MessagesRead(s: Input)
    requires GetMessages(s).Some?
    ensures Left(GetMessages(s).value.1) == Left(s) - 8 * TotalRead(GetMessages(s).value.0, 0)
    decreases |s.rest|
  {
    hide GetMessage, ReadBytes, MoreData;
    MessageReads(s);
    var (m, s') := GetMessage(s).value;
    if MoreData(s') {
      MoreMeansRest(s');
      MessagesRead(s');
      TotalReadTail(m, GetMessages(s').value.0, 0);
    } else {
      assert TotalRead([m], 1) == 0;
    }
  }

  lemma {:induction false} MessagesWritten(ms: seq<Message>, i: nat, rest: seq<bool>)
    requires i <= |ms|
    ensures |PutMessages(ms, i, rest)| == |rest| + 8 * TotalWritten(ms, i)
    decreases |ms| - i
  {
    hide PutFF, WrittenBytes, PutPayload;
    if i < |ms| {
      var tail := PutMessages(ms, i + 1, rest);
      MessagesWritten(ms, i + 1, rest);
      FFWritesBytes(|ms[i].payload|, PutPayload(ms[i].payload, tail));
      FFWritesBytes(ms[i].payloadType, PutFF(|ms[i].payload|, PutPayload(ms[i].payload, tail)));
    }
  }

  lemma {:induction false} ReadsMore(ms: seq<Message>, i: nat)
    requires i <= |ms|
    ensures TotalRead(ms, i) >= TotalWritten(ms, i)
    ensures TotalRead(ms, i) == TotalWritten(ms, i) ==> forall j :: i <= j < |ms| ==> NumbersOk(ms[j])
    decreases |ms| - i
  {
    if i < |ms| {
      ReadsMore(ms, i + 1);
    }
  }

  /**
   A list of messages with raw payloads comes back, and the reader stops at the
   stop bit, exactly when every type and size is 0 or no multiple of 255.
   */
  lemma {:induction false} SeiRoundTripIff(ms: seq<Message>, rest: seq<bool>)
    requires ms != [] && StopOnly(rest) && forall m <- ms :: MessageOk(m)
    ensures GetMessages(From(PutMessages(ms, 0, rest))) == Some((ms, From(rest))) <==> forall m <- ms :: NumbersOk(m)
  {
    hide GetMessages, PutMessages, NumbersOk;
    if forall m <- ms :: NumbersOk(m) {
      MessagesBack(ms, 0, rest);
      assert ms[0..] == ms;
    } else if GetMessages(From(PutMessages(ms, 0, rest))) == Some((ms, From(rest))) {
      MessagesRead(From(PutMessages(ms, 0, rest)));
      MessagesWritten(ms, 0, rest);
      ReadsMore(ms, 0);
    }
  }

  // Methods

  method ReadFF(b: BitStream) returns (n: nat)
    requires b.Valid()
    modifies b`p, b`bitsLeft
    ensures b.Valid() && (n, b.View()) == GetFF(old(b.View()))
  {
    hide BitStream.View, GetU8;
    ghost var s := b.View();
    n := 0;
    ghost var last := b.View();
    var n2 := b.ReadU8();
    NoByteBehindEnd(last);
    n := n + n2;
    while n2 == 0xff
      invariant b.Valid() && (n2, b.View()) == GetU8(last)
      invariant |b.View().rest| < |last.rest| || n2 != 0xff
      invariant GetFF(s) == (n - n2 + GetFF(last).0, GetFF(last).1) && n >= n2
      decreases |last.rest|
    {
      last := b.View();
      NoByteBehindEnd(last);
      n2 := b.ReadU8();
      n := n + n2;
    }
  }

  method WriteFF(b: BitStream, num: nat)
    requires b.Valid()
    modifies b`p, b`bitsLeft, b.buf
    ensures b.Valid()
    ensures forall rest {:trigger Then(b.Tape(), rest)} :: Then(b.Tape(), rest) == Then(old(b.Tape()), PutFF(num, rest))
  {
    hide BitStream.Tape, Then, PutU8, From;
    var n := num;
    while n > 0xff
      invariant b.Valid()
      invariant forall rest :: Then(b.Tape(), PutFF(n, rest)) == Then(old(b.Tape()), PutFF(num, rest))
    {
      b.WriteU8(0xff);
      n := n - 0xff;
    }
    b.WriteU8(n);
  }

  /** None for a scalability information message. */
  method ReadMessage(b: BitStream) returns (r: Option<Message>)
    requires b.Valid()
    modifies b`p, b`bitsLeft
    ensures b.Valid()
    ensures
      match GetMessage(old(b.View()))
      case None => r.None?
      case Some((m, s)) => r == Some(m) && b.View() == s
  {
    hide BitStream.View, GetU8, GetFF;
    var payloadType := ReadFF(b);
    var payloadSize := ReadFF(b);
    if payloadType == SCALABILITY_INFO {
      return None;
    }
    ghost var s := b.View();
    var data: seq<nat> := [];
    for i := 0 to payloadSize
      invariant b.Valid() && (data, b.View()) == GetMany(U8, i, s)
    {
      var x := b.ReadU8();
      data := data + [x];
    }
    r := Some(Message(payloadType, data));
  }

  method WritePayload(b: BitStream, p: seq<nat>)
    requires b.Valid()
    modifies b`p, b`bitsLeft, b.buf
    ensures b.Valid()
    ensures forall rest {:trigger Then(b.Tape(), rest)} ::
              Then(b.Tape(), rest) == Then(old(b.Tape()), PutPayload(p, rest))
  {
    hide BitStream.Tape, Then, PutU8, PutFrom, GetMany, PayloadOk, InvertsAll, From;
    for i := 0 to |p|
      invariant b.Valid()
      invariant forall rest :: Then(b.Tape(), PutFrom(U8, p, i, rest)) == Then(old(b.Tape()), PutFrom(U8, p, 0, rest))
    {
      PutFromStep(U8, p, i);
      b.WriteU8(p[i]);
    }
    PutFromEnd(U8, p);
  }

  method WriteMessage(b: BitStream, m: Message)
    requires b.Valid()
    modifies b`p, b`bitsLeft, b.buf
    ensures b.Valid()
    ensures forall rest {:trigger Then(b.Tape(), rest)} ::
              Then(b.Tape(), rest) == Then(old(b.Tape()), PutMessage(m, rest))
  {
    hide BitStream.Tape, Then, PutFF, PutPayload, GetMany, PayloadOk, From;
    WriteFF(b, m.payloadType);
    WriteFF(b, |m.payload|);
    WritePayload(b, m.payload);
  }

  function Prepend(ms: seq<Message>, o: Option<(seq<Message>, Input)>): Option<(seq<Message>, Input)> {
    if o.None? then None else Some((ms + o.value.0, o.value.1))
  }

  lemma PrependNothing(o: Option<(seq<Message>, Input)>)
    ensures Prepend([], o) == o
  {
    if o.Some? {
      assert [] + o.value.0 == o.value.0;
    }
  }

  lemma PrependOne(ms: seq<Message>, m: Message, o: Option<(seq<Message>, Input)>)
    ensures Prepend(ms, Prepend([m], o)) == Prepend(ms + [m], o)
  {
    if o.Some? {
      assert ms + ([m] + o.value.0) == ms + [m] + o.value.0;
    }
  }

  method ReadSei(b: BitStream) returns (r: Option<seq<Message>>)
    requires b.Valid()
    modifies b`p, b`bitsLeft
    ensures b.Valid()
    ensures
      match GetMessages(old(b.View()))
      case None => r.None?
      case Some((ms, s)) => r == Some(ms) && b.View() == s
  {
    hide BitStream.View, GetMessage, MoreData;
    var seis: seq<Message> := [];
    ghost var s := b.View();
    var more := true;
    PrependNothing(GetMessages(s));
    while more
      invariant b.Valid()
      invariant more ==> GetMessages(s) == Prepend(seis, GetMessages(b.View()))
      invariant !more ==> GetMessages(s) == Some((seis, b.View()))
      decreases more, |b.View().rest|
    {
      ghost var before := b.View();
      var m := ReadMessage(b);
      if m.None? {
        return None;
      }
      MessageReads(before);
      ghost var seis0 := seis;
      seis := seis + [m.value];
      more := b.MoreRbspData();
      assert more ==> b.View().rest != [] by {
        if more { MoreMeansRest(b.View()); }
      }
      PrependOne(seis0, m.value, GetMessages(b.View()));
    }
    r := Some(seis);
  }

  lemma PutMessagesStep(ms: seq<Message>, i: nat)
    requires i < |ms|
    ensures forall rest :: PutMessages(ms, i, rest) == PutMessage(ms[i], PutMessages(ms, i + 1, rest))
  {}

  lemma PutMessagesEnd(ms: seq<Message>)
    ensures forall rest :: PutMessages(ms, |ms|, rest) == rest
  {}

  method WriteSei(b: BitStream, ms: seq<Message>)
    requires b.Valid()
    modifies b`p, b`bitsLeft, b.buf
    ensures b.Valid()
    ensures forall rest {:trigger Then(b.Tape(), rest)} ::
              Then(b.Tape(), rest) == Then(old(b.Tape()), PutMessages(ms, 0, rest))
  {
    hide BitStream.Tape, Then, PutMessage, PutMessages, From;
    for i := 0 to |ms|
      invariant b.Valid()
      invariant forall rest :: Then(b.Tape(), PutMessages(ms, i, rest)) == Then(old(b.Tape()), PutMessages(ms, 0, rest))
    {
      PutMessagesStep(ms, i);
      WriteMessage(b, ms[i]);
    }
    PutMessagesEnd(ms);
  }
}
