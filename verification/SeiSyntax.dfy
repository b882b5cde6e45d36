/**
 The syntax of supplemental enhancement information messages, section 7.3.2.3.1 of
 ITU-T H.264, as lists of bytes: what is read, and what is written in its place.
 */
module SeiSyntax {
  import opened Bits
  import opened BitSyntax
  import opened Fields
  import opened Syntax
  import opened Sei

  /** k bytes ff. */
  function FFs(k: nat): seq<Field> {
    seq(k, i => Octet(255))
  }

  /** A number as the standard sends it: a byte ff for each 255 in it, and a last byte below ff. */
  function NumberBytes(n: nat): seq<Field> {
    FFs(n / 255) + [Octet(n % 255)]
  }

  /** A number as it is written: its last byte is not 0, except for the number 0. */
  function WrittenNumber(n: nat): seq<Field> {
    if n == 0 then [Octet(0)] else FFs((n - 1) / 255) + [Octet((n - 1) % 255 + 1)]
  }

  function OctetList(v: nat): seq<Field> {
    [Octet(v)]
  }

  /** payloadType, payloadSize and the bytes of the payload. */
  function MessageList(m: Message): seq<Field> {
    NumberBytes(m.payloadType) + NumberBytes(|m.payload|) + ManyList(OctetList, m.payload)
  }

  function WrittenMessage(m: Message): seq<Field> {
    WrittenNumber(m.payloadType) + WrittenNumber(|m.payload|) + ManyList(OctetList, m.payload)
  }

  lemma OctetSyntax()
    ensures WritesList(U8, OctetList) && ReadsList(U8, OctetList)
  {
    hide PutFields, PastFrom, PutField, GetField, PutU8, GetU8;
    Kinds();
    OneByOne();
  }

  lemma OneOctet(v: nat, rest: seq<bool>, s: Input)
    ensures Code([Octet(v)], rest) == PutU8(v, rest)
    ensures GetU8(s).0 == v ==> Past([Octet(v)], s) == Some(GetU8(s).1)
  {
    hide PutFields, PastFrom, PutField, GetField, PutU8, GetU8;
    Kinds();
    OneByOne();
  }

  lemma FFsMore(k: nat, fs: seq<Field>)
    ensures FFs(k + 1) + fs == [Octet(255)] + (FFs(k) + fs)
  {}

  lemma NumberStep(n: nat)
    requires n > 255
    ensures WrittenNumber(n) == [Octet(255)] + WrittenNumber(n - 255)
  {
    hide FFs;
    var q, r := (n - 256) / 255, (n - 256) % 255;
    DivUnique(n - 1, 255, q + 1, r);
    FFsMore(q, [Octet(r + 1)]);
  }

  lemma NoFFs()
    ensures FFs(0) == []
  {}

  lemma SmallNumber(n: nat)
    requires n <= 255
    ensures WrittenNumber(n) == [Octet(n)]
  {
    NoFFs();
  }

  lemma {:induction false} NumberWritten(n: nat, rest: seq<bool>)
    ensures PutFF(n, rest) == Code(WrittenNumber(n), rest)
  {
    hide PutFields, PutU8, WrittenNumber;
    if n > 255 {
      NumberWritten(n - 255, rest);
      NumberStep(n);
      CodeOfTwo([Octet(255)], WrittenNumber(n - 255), 0, rest);
      OneOctet(255, PutFF(n - 255, rest), From([]));
    } else {
      SmallNumber(n);
      OneOctet(n, rest, From([]));
    }
  }

  lemma {:induction false} NumberRead(s: Input)
    ensures Past(NumberBytes(GetFF(s).0), s) == Some(GetFF(s).1)
    decreases |s.rest|
  {
    hide PastFrom, GetU8, FFs;
    var (v, s') := GetU8(s);
    NoByteBehindEnd(s);
    OneOctet(v, [], s);
    if v == 255 {
      NumberRead(s');
      var w := GetFF(s').0;
      FFsMore(w / 255, [Octet(w % 255)]);
      PastTwo([Octet(255)], NumberBytes(w), 0, s);
    } else {
      assert FFs(0) == [] by { NoFFs(); }
      assert [] + [Octet(v)] == [Octet(v)];
    }
  }

  /** The two forms of a number are the same exactly when it is 0 or no multiple of 255. */
  lemma FormsAgreeIff(n: nat)
    ensures NumberBytes(n) == WrittenNumber(n) <==> n == 0 || n % 255 != 0
  {
    if n > 0 && n % 255 == 0 {
      assert NumberBytes(n)[|NumberBytes(n)| - 1] == Octet(0);
    }
  }

  lemma PayloadWritten(p: seq<nat>, rest: seq<bool>)
    ensures PutPayload(p, rest) == Code(ManyList(OctetList, p), rest)
  {
    hide Code, PutFrom, WritesList, ReadsList, GetMany, ManyList, PayloadOk;
    OctetSyntax();
    PayloadIsLoop(p, rest);
    ManyWritten(U8, OctetList, p, rest);
  }

  lemma MessageWritten(m: Message, rest: seq<bool>)
    ensures PutMessage(m, rest) == Code(WrittenMessage(m), rest)
  {
    hide Code, PutFF, PutPayload, GetMany, ManyList, WrittenNumber;
    Joined();
    PayloadWritten(m.payload, rest);
    var r1 := PutPayload(m.payload, rest);
    NumberWritten(|m.payload|, r1);
    NumberWritten(m.payloadType, PutFF(|m.payload|, r1));
  }

  lemma NoMessages()
    ensures ManyList(WrittenMessage, []) == []
  {}

  /** Whatever follows them, the code of messages is their joined code in the written form. */
  lemma {:induction false} MessagesWritten(ms: seq<Message>, i: nat, rest: seq<bool>)
    requires i <= |ms|
    ensures PutMessages(ms, i, rest) == Code(ManyList(WrittenMessage, ms[i..]), rest)
    decreases |ms| - i
  {
    hide PutFields, PutMessage, WrittenMessage, ManyList;
    if i == |ms| {
      NoMessages();
      assert ms[i..] == [];
      OneByOne();
    } else {
      MessagesWritten(ms, i + 1, rest);
      assert ms[i..] == [ms[i]] + ms[i + 1..];
      ManyCons(WrittenMessage, ms[i], ms[i + 1..]);
      MessageWritten(ms[i], PutMessages(ms, i + 1, rest));
      CodeOfTwo(WrittenMessage(ms[i]), ManyList(WrittenMessage, ms[i + 1..]), 0, rest);
    }
  }

  lemma MessageRead(s: Input)
    requires GetMessage(s).Some?
    ensures
      var (m, s') := GetMessage(s).value;
      Past(MessageList(m), s) == Some(s') && m.payloadType != 24
  {
    hide Past, GetFF, GetMany, WritesList, ReadsList, ManyList, NumberBytes;
    Joined();
    NumberRead(s);
    var s1 := GetFF(s).1;
    NumberRead(s1);
    OctetSyntax();
    ManyRead(U8, OctetList, GetFF(s1).0, GetFF(s1).1);
  }

  lemma MoreHasBits(s: Input)
    requires MoreData(s)
    ensures s.rest != []
  {}

  /**
   Whatever bits are read as messages, their bytes in the form of the standard stand
   there, one message behind the other, and no more data is left behind the last one.
   */
  lemma {:induction false} MessagesRead(s: Input)
    ensures
      match GetMessages(s)
      case None => true
      case Some((ms, s')) =>
        ms != [] && Past(ManyList(MessageList, ms), s) == Some(s') && !MoreData(s') &&
        forall m <- ms :: m.payloadType != 24
    decreases |s.rest|
  {
    hide PastFrom, GetMessage, MessageList, MoreData, ManyList;
    if GetMessage(s).Some? {
      var (m, s1) := GetMessage(s).value;
      MessageRead(s);
      MessageReads(s);
      if MoreData(s1) {
        MoreHasBits(s1);
        MessagesRead(s1);
        if GetMessages(s1).Some? {
          var ms := GetMessages(s1).value.0;
          ManyCons(MessageList, m, ms);
          PastTwo(MessageList(m), ManyList(MessageList, ms), 0, s);
        }
      } else {
        ManyOne(MessageList, m);
      }
    }
  }
}
