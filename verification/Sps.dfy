/** Sequence parameter sets, section 7.3.2.1.1 of ITU-T H.264. */
module SequenceParameterSet {
  import opened Bits
  import opened BitSyntax
  import opened BitCursor
  import opened ScalingLists
  import opened VuiParameters

  datatype Head = Head(
    profileIdc: nat,
    constraintSet0: bool,
    constraintSet1: bool,
    constraintSet2: bool,
    constraintSet3: bool,
    constraintSet4: bool,
    constraintSet5: bool,
    levelIdc: nat,
    id: nat)

  /** The fields that only the high profiles carry. */
  datatype Chroma = Chroma(
    formatIdc: nat,
    residualColourTransform: bool,
    bitDepthLumaMinus8: nat,
    bitDepthChromaMinus8: nat,
    qpprimeYZeroTransformBypass: bool,
    scalingLists: Option<seq<Option<ScalingList>>>)

  /** The fields that depend on pic_order_cnt_type: 0, 1, or any other value. */
  datatype PicOrder =
    | Lsb(log2MaxLsbMinus4: nat)
    | Cycle(deltaAlwaysZero: bool, offsetForNonRefPic: int, offsetForTopToBottomField: int,
      offsetsForRefFrame: seq<int>)
    | OtherType(pocType: nat)

  datatype Cropping = Cropping(left: nat, right: nat, top: nat, bottom: nat)

  datatype Format = Format(
    numRefFrames: nat,
    gapsInFrameNumAllowed: bool,
    picWidthInMbsMinus1: nat,
    picHeightInMapUnitsMinus1: nat,
    frameMbsOnly: bool,
    mbAdaptiveFrameField: bool,
    direct8x8Inference: bool,
    cropping: Option<Cropping>)

  datatype Sps = Sps(
    head: Head,
    chroma: Option<Chroma>,
    log2MaxFrameNumMinus4: nat,
    picOrder: PicOrder,
    format: Format,
    vui: Option<Vui>)

  predicate IsHighProfile(profileIdc: nat) {
    profileIdc in {100, 110, 122, 244, 44, 83, 86, 118, 128, 138, 139, 134}
  }

  /** The chroma format, which is 1 when it is not sent. */
  function ChromaFormatIdc(x: Sps): nat {
    if x.chroma.Some? then x.chroma.value.formatIdc else 1
  }

  function PocType(p: PicOrder): nat {
    match p
    case Lsb(_) => 0
    case Cycle(_, _, _, _) => 1
    case OtherType(t) => t
  }

  // Ranges

  predicate HeadOk(h: Head) {
    h.profileIdc < 256 && h.levelIdc < 256 && h.id <= MAX_UE
  }

  /** The number of scaling lists that the reader expects; the writer sends eight in any case. */
  function ListCount(formatIdc: nat): nat {
    if formatIdc != 3 then 8 else 12
  }

  /** What the writer needs: numbers within the codes, and lists of the right sizes. */
  predicate ChromaWritable(c: Chroma) {
    c.formatIdc <= MAX_UE && c.bitDepthLumaMinus8 <= MAX_UE && c.bitDepthChromaMinus8 <= MAX_UE &&
    (c.scalingLists.Some? ==>
       |c.scalingLists.value| == ListCount(c.formatIdc) && SizesOk(c.scalingLists.value))
  }

  predicate ChromaOk(c: Chroma) {
    ChromaWritable(c) && (c.residualColourTransform ==> c.formatIdc == 3) &&
    (c.scalingLists.Some? ==> c.formatIdc != 3 && ListsOk(c.scalingLists.value))
  }

  predicate PicOrderOk(p: PicOrder) {
    match p
    case Lsb(log2) => log2 <= MAX_UE
    case Cycle(_, nonRef, topToBottom, offsets) =>
      -MAX_SE <= nonRef <= MAX_SE && -MAX_SE <= topToBottom <= MAX_SE &&
      |offsets| <= MAX_UE && forall o <- offsets :: -MAX_SE <= o <= MAX_SE
    case OtherType(t) => 2 <= t <= MAX_UE
  }

  predicate CroppingOk(c: Cropping) {
    c.left <= MAX_UE && c.right <= MAX_UE && c.top <= MAX_UE && c.bottom <= MAX_UE
  }

  predicate FormatOk(f: Format) {
    f.numRefFrames <= MAX_UE && f.picWidthInMbsMinus1 <= MAX_UE && f.picHeightInMapUnitsMinus1 <= MAX_UE &&
    (f.mbAdaptiveFrameField ==> !f.frameMbsOnly) &&
    (f.cropping.Some? ==> CroppingOk(f.cropping.value))
  }

  predicate SpsWritable(x: Sps) {
    HeadOk(x.head) && (x.chroma.Some? <==> IsHighProfile(x.head.profileIdc)) &&
    (x.chroma.Some? ==> ChromaWritable(x.chroma.value)) &&
    x.log2MaxFrameNumMinus4 <= MAX_UE && PicOrderOk(x.picOrder) && FormatOk(x.format) &&
    (x.vui.Some? ==> VuiOk(x.vui.value))
  }

  /** The sets that come back: fields that are not sent are 0, and no scaling matrices in 4:4:4. */
  predicate SpsOk(x: Sps) {
    SpsWritable(x) && (x.chroma.Some? ==> ChromaOk(x.chroma.value))
  }

  // Codes

  /** The constraint flags and two reserved bits. */
  function PutConstraints(h: Head, rest: seq<bool>): seq<bool> {
    PutU1(h.constraintSet0, PutU1(h.constraintSet1, PutU1(h.constraintSet2,
    PutU1(h.constraintSet3, PutU1(h.constraintSet4, PutU1(h.constraintSet5,
    PutU(2, 0, rest)))))))
  }

  lemma SkipReserved(rest: seq<bool>)
    ensures Skip(From(PutU(2, 0, rest)), 2) == From(rest)
  {
    SkipPrefix(BitsU(2, 0), rest);
  }

  function GetHead(s0: Input): (Head, Input) {
    var (profile, s1) := GetU8(s0);
    var (c0, s2) := GetU1(s1);
    var (c1, s3) := GetU1(s2);
    var (c2, s4) := GetU1(s3);
    var (c3, s5) := GetU1(s4);
    var (c4, s6) := GetU1(s5);
    var (c5, s7) := GetU1(s6);
    var (level, s8) := GetU8(Skip(s7, 2));
    var (id, s9) := GetUE(s8);
    (Head(profile, c0, c1, c2, c3, c4, c5, level, id), s9)
  }

  function PutHead(h: Head, rest: seq<bool>): (r: seq<bool>)
    ensures HeadOk(h) ==> GetHead(From(r)) == (h, From(rest))
  {
    hide PutU8, GetU8, PutU1, GetU1, PutUE, GetUE;
    SkipReserved(PutU8(h.levelIdc, PutUE(h.id, rest)));
    PutU8(h.profileIdc, PutConstraints(h, PutU8(h.levelIdc, PutUE(h.id, rest))))
  }

  function PutResidual(c: Chroma, rest: seq<bool>): seq<bool> {
    if c.formatIdc == 3 then PutU1(c.residualColourTransform, rest) else rest
  }

  /** The first eight lists. */
  function PutEight(ls: seq<Option<ScalingList>>, rest: seq<bool>): seq<bool> {
    PutLists(if |ls| <= 8 then ls else ls[..8], rest)
  }

  function PutMatrices(o: Option<seq<Option<ScalingList>>>, rest: seq<bool>): seq<bool> {
    PutU1(o.Some?, if o.Some? then PutEight(o.value, rest) else rest)
  }

  function GetMatrices(formatIdc: nat, s0: Input): (Option<seq<Option<ScalingList>>>, Input) {
    var (present, s1) := GetU1(s0);
    if present then
      var (ls, s2) := GetLists(ListCount(formatIdc), s1);
      (Some(ls), s2)
    else (None, s1)
  }

  function GetChroma(s0: Input): (Chroma, Input) {
    var (format, s1) := GetUE(s0);
    var (residual, s2) := if format == 3 then GetU1(s1) else (false, s1);
    var (luma, s3) := GetUE(s2);
    var (chroma, s4) := GetUE(s3);
    var (bypass, s5) := GetU1(s4);
    var (lists, s6) := GetMatrices(format, s5);
    (Chroma(format, residual, luma, chroma, bypass, lists), s6)
  }

  function PutChroma(c: Chroma, rest: seq<bool>): (r: seq<bool>)
    ensures ChromaOk(c) ==> GetChroma(From(r)) == (c, From(rest))
  {
    hide PutUE, GetUE, PutU1, GetU1, PutLists, GetLists, From, ListsOk, SizesOk;
    PutUE(c.formatIdc,
    PutResidual(c,
    PutUE(c.bitDepthLumaMinus8, PutUE(c.bitDepthChromaMinus8,
    PutU1(c.qpprimeYZeroTransformBypass,
    PutMatrices(c.scalingLists, rest))))))
  }

  function PutOffsets(offsets: seq<int>, rest: seq<bool>): (r: seq<bool>)
    ensures (forall o <- offsets :: -MAX_SE <= o <= MAX_SE) ==> GetMany(SE, |offsets|, From(r)) == (offsets, From(rest))
  {
    hide PutSE, GetSE, GetMany, From;
    PutMany(SE, offsets, rest)
  }

  function GetPicOrder(s0: Input): (PicOrder, Input) {
    var (pocType, s1) := GetUE(s0);
    if pocType == 0 then
      var (log2, s2) := GetUE(s1);
      (Lsb(log2), s2)
    else if pocType == 1 then
      var (zero, s2) := GetU1(s1);
      var (nonRef, s3) := GetSE(s2);
      var (topToBottom, s4) := GetSE(s3);
      var (n, s5) := GetUE(s4);
      var (offsets, s6) := GetMany(SE, n, s5);
      (Cycle(zero, nonRef, topToBottom, offsets), s6)
    else (OtherType(pocType), s1)
  }

  function PutPicOrder(p: PicOrder, rest: seq<bool>): (r: seq<bool>)
    ensures PicOrderOk(p) ==> GetPicOrder(From(r)) == (p, From(rest))
  {
    hide PutUE, GetUE, PutU1, GetU1, PutSE, GetSE, PutOffsets, GetMany, From;
    PutUE(PocType(p),
      match p
      case Lsb(log2) => PutUE(log2, rest)
      case Cycle(zero, nonRef, topToBottom, offsets) =>
        PutU1(zero, PutSE(nonRef, PutSE(topToBottom, PutUE(|offsets|, PutOffsets(offsets, rest)))))
      case OtherType(_) => rest)
  }

  function GetCropping(s0: Input): (Cropping, Input) {
    var (left, s1) := GetUE(s0);
    var (right, s2) := GetUE(s1);
    var (top, s3) := GetUE(s2);
    var (bottom, s4) := GetUE(s3);
    (Cropping(left, right, top, bottom), s4)
  }

  function PutCropping(c: Cropping, rest: seq<bool>): (r: seq<bool>)
    ensures CroppingOk(c) ==> GetCropping(From(r)) == (c, From(rest))
  {
    hide PutUE, GetUE, From;
    PutUE(c.left, PutUE(c.right, PutUE(c.top, PutUE(c.bottom, rest))))
  }

  const CROPPING := Codec(PutCropping, GetCropping)

  function PutMbAdaptive(f: Format, rest: seq<bool>): seq<bool> {
    if !f.frameMbsOnly then PutU1(f.mbAdaptiveFrameField, rest) else rest
  }

  function GetFormat(s0: Input): (Format, Input) {
    var (numRef, s1) := GetUE(s0);
    var (gaps, s2) := GetU1(s1);
    var (width, s3) := GetUE(s2);
    var (height, s4) := GetUE(s3);
    var (mbsOnly, s5) := GetU1(s4);
    var (adaptive, s6) := if !mbsOnly then GetU1(s5) else (false, s5);
    var (direct, s7) := GetU1(s6);
    var (cropping, s8) := GetOption(CROPPING, s7);
    (Format(numRef, gaps, width, height, mbsOnly, adaptive, direct, cropping), s8)
  }

  function PutFormat(f: Format, rest: seq<bool>): (r: seq<bool>)
    ensures FormatOk(f) ==> GetFormat(From(r)) == (f, From(rest))
  {
    hide PutUE, GetUE, PutU1, GetU1, PutOption, GetOption, PutCropping, GetCropping, From;
    PutUE(f.numRefFrames,
    PutU1(f.gapsInFrameNumAllowed,
    PutUE(f.picWidthInMbsMinus1, PutUE(f.picHeightInMapUnitsMinus1,
    PutU1(f.frameMbsOnly,
    PutMbAdaptive(f,
    PutU1(f.direct8x8Inference,
    PutOption(CROPPING, f.cropping, rest))))))))
  }

  function PutChromaPart(x: Sps, rest: seq<bool>): seq<bool> {
    if IsHighProfile(x.head.profileIdc) && x.chroma.Some? then PutChroma(x.chroma.value, rest) else rest
  }

  function GetChromaPart(profileIdc: nat, s0: Input): (Option<Chroma>, Input) {
    if IsHighProfile(profileIdc) then
      var (c, s1) := GetChroma(s0);
      (Some(c), s1)
    else (None, s0)
  }

  function GetSps(s0: Input): (Sps, Input) {
    var (head, s1) := GetHead(s0);
    var (chroma, s2) := GetChromaPart(head.profileIdc, s1);
    var (log2, s3) := GetUE(s2);
    var (picOrder, s4) := GetPicOrder(s3);
    var (format, s5) := GetFormat(s4);
    var (vui, s6) := GetOption(VUI, s5);
    (Sps(head, chroma, log2, picOrder, format, vui), s6)
  }

  function PutSps(x: Sps, rest: seq<bool>): (r: seq<bool>)
    ensures SpsOk(x) ==> GetSps(From(r)) == (x, From(rest))
  {
    hide PutHead, GetHead, PutChroma, GetChroma, PutUE, GetUE, PutPicOrder, GetPicOrder, PutFormat, GetFormat;
    hide PutOption, GetOption, PutVui, GetVui, From, VuiOk, HeadOk, ChromaOk, PicOrderOk, FormatOk, IsHighProfile;
    PutHead(x.head,
    PutChromaPart(x,
    PutUE(x.log2MaxFrameNumMinus4,
    PutPicOrder(x.picOrder,
    PutFormat(x.format,
    PutOption(VUI, x.vui, rest))))))
  }

  // Readers

  method ReadHead(b: BitStream) returns (h: Head)
    requires b.Valid()
    modifies b`p, b`bitsLeft
    ensures b.Valid() && (h, b.View()) == GetHead(old(b.View()))
  {
    hide BitStream.View, GetU8, GetU1, GetUE, Skip;
    var profile := b.ReadU8();
    var c0 := b.ReadU1();
    var c1 := b.ReadU1();
    var c2 := b.ReadU1();
    var c3 := b.ReadU1();
    var c4 := b.ReadU1();
    var c5 := b.ReadU1();
    b.SkipU(2);
    var level := b.ReadU8();
    var id := b.ReadUE();
    h := Head(profile, c0, c1, c2, c3, c4, c5, level, id);
  }

  method ReadChroma(b: BitStream) returns (c: Chroma)
    requires b.Valid()
    modifies b`p, b`bitsLeft
    ensures b.Valid() && (c, b.View()) == GetChroma(old(b.View()))
  {
    hide BitStream.View, GetUE, GetU1, GetLists;
    var format := b.ReadUE();
    var residual := false;
    if format == 3 {
      residual := b.ReadU1();
    }
    var luma := b.ReadUE();
    var chroma := b.ReadUE();
    var bypass := b.ReadU1();
    var lists := None;
    var present := b.ReadU1();
    if present {
      var ls := ReadLists(b, if format != 3 then 8 else 12);
      lists := Some(ls);
    }
    c := Chroma(format, residual, luma, chroma, bypass, lists);
  }

  method ReadPicOrder(b: BitStream) returns (p: PicOrder)
    requires b.Valid()
    modifies b`p, b`bitsLeft
    ensures b.Valid() && (p, b.View()) == GetPicOrder(old(b.View()))
  {
    hide BitStream.View, GetUE, GetU1, GetSE;
    var pocType := b.ReadUE();
    if pocType == 0 {
      var log2 := b.ReadUE();
      p := Lsb(log2);
    } else if pocType == 1 {
      var zero := b.ReadU1();
      var nonRef := b.ReadSE();
      var topToBottom := b.ReadSE();
      var n := b.ReadUE();
      var offsets: seq<int> := [];
      ghost var s := b.View();
      for i := 0 to n
        invariant b.Valid() && (offsets, b.View()) == GetMany(SE, i, s)
      {
        var o := b.ReadSE();
        offsets := offsets + [o];
      }
      p := Cycle(zero, nonRef, topToBottom, offsets);
    } else {
      p := OtherType(pocType);
    }
  }

  method ReadFormat(b: BitStream) returns (f: Format)
    requires b.Valid()
    modifies b`p, b`bitsLeft
    ensures b.Valid() && (f, b.View()) == GetFormat(old(b.View()))
  {
    hide BitStream.View, GetUE, GetU1;
    var numRef := b.ReadUE();
    var gaps := b.ReadU1();
    var width := b.ReadUE();
    var height := b.ReadUE();
    var mbsOnly := b.ReadU1();
    var adaptive := false;
    if !mbsOnly {
      adaptive := b.ReadU1();
    }
    var direct := b.ReadU1();
    var cropping := None;
    var present := b.ReadU1();
    if present {
      var left := b.ReadUE();
      var right := b.ReadUE();
      var top := b.ReadUE();
      var bottom := b.ReadUE();
      cropping := Some(Cropping(left, right, top, bottom));
    }
    f := Format(numRef, gaps, width, height, mbsOnly, adaptive, direct, cropping);
  }

  method ReadSps(b: BitStream) returns (x: Sps)
    requires b.Valid()
    modifies b`p, b`bitsLeft
    ensures b.Valid() && (x, b.View()) == GetSps(old(b.View()))
  {
    hide BitStream.View, GetHead, GetChroma, GetUE, GetPicOrder, GetFormat, GetU1, GetVui, IsHighProfile;
    var head := ReadHead(b);
    var chroma := None;
    if IsHighProfile(head.profileIdc) {
      var c := ReadChroma(b);
      chroma := Some(c);
    }
    var log2 := b.ReadUE();
    var picOrder := ReadPicOrder(b);
    var format := ReadFormat(b);
    var vui := None;
    var present := b.ReadU1();
    if present {
      var v := ReadVui(b);
      vui := Some(v);
    }
    x := Sps(head, chroma, log2, picOrder, format, vui);
  }

  // Writers

  method WriteConstraints(b: BitStream, h: Head)
    requires b.Valid()
    modifies b`p, b`bitsLeft, b.buf
    ensures b.Valid()
    ensures forall rest {:trigger Then(b.Tape(), rest)} ::
              Then(b.Tape(), rest) == Then(old(b.Tape()), PutConstraints(h, rest))
  {
    hide BitStream.Tape, Then, PutU1, PutU, GetU1, GetU, From;
    b.WriteU1(h.constraintSet0);
    b.WriteU1(h.constraintSet1);
    b.WriteU1(h.constraintSet2);
    b.WriteU1(h.constraintSet3);
    b.WriteU1(h.constraintSet4);
    b.WriteU1(h.constraintSet5);
    b.WriteU(2, 0);
  }

  method WriteHead(b: BitStream, h: Head)
    requires b.Valid() && h.id <= MAX_UE
    modifies b`p, b`bitsLeft, b.buf
    ensures b.Valid()
    ensures forall rest {:trigger Then(b.Tape(), rest)} :: Then(b.Tape(), rest) == Then(old(b.Tape()), PutHead(h, rest))
  {
    hide BitStream.Tape, Then, PutU8, PutConstraints, PutUE, GetHead, HeadOk, From;
    b.WriteU8(h.profileIdc);
    WriteConstraints(b, h);
    b.WriteU8(h.levelIdc);
    b.WriteUE(h.id);
  }

  method WriteMatrices(b: BitStream, o: Option<seq<Option<ScalingList>>>)
    requires b.Valid() && (o.Some? ==> |o.value| >= 8 && SizesOk(o.value))
    modifies b`p, b`bitsLeft, b.buf
    ensures b.Valid()
    ensures forall rest {:trigger Then(b.Tape(), rest)} ::
              Then(b.Tape(), rest) == Then(old(b.Tape()), PutMatrices(o, rest))
  {
    hide BitStream.Tape, Then, PutU1, PutLists, GetLists, ListsOk, From;
    b.WriteU1(o.Some?);
    if o.Some? {
      var eight := if |o.value| <= 8 then o.value else o.value[..8];
      WriteLists(b, eight);
    }
  }

  method WriteChroma(b: BitStream, c: Chroma)
    requires b.Valid() && ChromaWritable(c)
    modifies b`p, b`bitsLeft, b.buf
    ensures b.Valid()
    ensures forall rest {:trigger Then(b.Tape(), rest)} ::
              Then(b.Tape(), rest) == Then(old(b.Tape()), PutChroma(c, rest))
  {
    hide BitStream.Tape, Then, PutUE, PutU1, PutMatrices, GetChroma, ChromaOk, SizesOk, From;
    b.WriteUE(c.formatIdc);
    if c.formatIdc == 3 {
      b.WriteU1(c.residualColourTransform);
    }
    b.WriteUE(c.bitDepthLumaMinus8);
    b.WriteUE(c.bitDepthChromaMinus8);
    b.WriteU1(c.qpprimeYZeroTransformBypass);
    WriteMatrices(b, c.scalingLists);
  }

  method WriteOffsets(b: BitStream, offsets: seq<int>)
    requires b.Valid() && forall o <- offsets :: -MAX_SE <= o <= MAX_SE
    modifies b`p, b`bitsLeft, b.buf
    ensures b.Valid()
    ensures forall rest {:trigger Then(b.Tape(), rest)} ::
              Then(b.Tape(), rest) == Then(old(b.Tape()), PutOffsets(offsets, rest))
  {
    hide BitStream.Tape, Then, PutSE, PutFrom, GetMany, Inverts, InvertsAll, From;
    for i := 0 to |offsets|
      invariant b.Valid()
      invariant forall rest ::
                  Then(b.Tape(), PutFrom(SE, offsets, i, rest)) == Then(old(b.Tape()), PutFrom(SE, offsets, 0, rest))
    {
      PutFromStep(SE, offsets, i);
      var o := offsets[i];
      assert o in offsets;
      b.WriteSE(o);
    }
    PutFromEnd(SE, offsets);
  }

  method WritePicOrder(b: BitStream, p: PicOrder)
    requires b.Valid() && PicOrderOk(p)
    modifies b`p, b`bitsLeft, b.buf
    ensures b.Valid()
    ensures forall rest {:trigger Then(b.Tape(), rest)} ::
              Then(b.Tape(), rest) == Then(old(b.Tape()), PutPicOrder(p, rest))
  {
    hide BitStream.Tape, Then, PutUE, PutU1, PutSE, PutOffsets, GetPicOrder, GetMany, From;
    b.WriteUE(PocType(p));
    match p {
      case Lsb(log2) =>
        b.WriteUE(log2);
      case Cycle(zero, nonRef, topToBottom, offsets) =>
        b.WriteU1(zero);
        b.WriteSE(nonRef);
        b.WriteSE(topToBottom);
        b.WriteUE(|offsets|);
        WriteOffsets(b, offsets);
      case OtherType(_) =>
    }
  }

  method WriteCropping(b: BitStream, o: Option<Cropping>)
    requires b.Valid() && (o.Some? ==> CroppingOk(o.value))
    modifies b`p, b`bitsLeft, b.buf
    ensures b.Valid()
    ensures forall rest {:trigger Then(b.Tape(), rest)} ::
              Then(b.Tape(), rest) == Then(old(b.Tape()), PutOption(CROPPING, o, rest))
  {
    hide BitStream.Tape, Then, PutU1, PutUE, GetCropping, GetOption, Inverts, From;
    b.WriteU1(o.Some?);
    if o.Some? {
      b.WriteUE(o.value.left);
      b.WriteUE(o.value.right);
      b.WriteUE(o.value.top);
      b.WriteUE(o.value.bottom);
    }
  }

  method WriteFormat(b: BitStream, f: Format)
    requires b.Valid() && FormatOk(f)
    modifies b`p, b`bitsLeft, b.buf
    ensures b.Valid()
    ensures forall rest {:trigger Then(b.Tape(), rest)} ::
              Then(b.Tape(), rest) == Then(old(b.Tape()), PutFormat(f, rest))
  {
    hide BitStream.Tape, Then, PutUE, PutU1, PutOption, GetFormat, GetOption, Inverts, From;
    b.WriteUE(f.numRefFrames);
    b.WriteU1(f.gapsInFrameNumAllowed);
    b.WriteUE(f.picWidthInMbsMinus1);
    b.WriteUE(f.picHeightInMapUnitsMinus1);
    b.WriteU1(f.frameMbsOnly);
    if !f.frameMbsOnly {
      b.WriteU1(f.mbAdaptiveFrameField);
    }
    b.WriteU1(f.direct8x8Inference);
    WriteCropping(b, f.cropping);
  }

  method WriteOptionalVui(b: BitStream, o: Option<Vui>)
    requires b.Valid() && (o.Some? ==> VuiOk(o.value))
    modifies b`p, b`bitsLeft, b.buf
    ensures b.Valid()
    ensures forall rest {:trigger Then(b.Tape(), rest)} ::
              Then(b.Tape(), rest) == Then(old(b.Tape()), PutOption(VUI, o, rest))
  {
    hide BitStream.Tape, Then, PutU1, PutVui, GetVui, GetOption, Inverts, VuiOk, From;
    b.WriteU1(o.Some?);
    if o.Some? {
      WriteVui(b, o.value);
    }
  }

  method WriteSps(b: BitStream, x: Sps)
    requires b.Valid() && SpsWritable(x)
    modifies b`p, b`bitsLeft, b.buf
    ensures b.Valid()
    ensures forall rest {:trigger Then(b.Tape(), rest)} :: Then(b.Tape(), rest) == Then(old(b.Tape()), PutSps(x, rest))
  {
    hide BitStream.Tape, Then, PutHead, PutChroma, PutUE, PutPicOrder, PutFormat, PutOption;
    hide GetSps, GetOption, Inverts, ChromaWritable, ChromaOk, PicOrderOk, FormatOk, VuiOk, IsHighProfile, From;
    WriteHead(b, x.head);
    if IsHighProfile(x.head.profileIdc) {
      WriteChroma(b, x.chroma.value);
    }
    b.WriteUE(x.log2MaxFrameNumMinus4);
    WritePicOrder(b, x.picOrder);
    WriteFormat(b, x.format);
    WriteOptionalVui(b, x.vui);
  }

  // Results

  /** Reading what was written restores the set and stops right behind it. */
  lemma SpsRoundTrip(x: Sps, rest: seq<bool>)
    requires SpsOk(x)
    ensures GetSps(From(PutSps(x, rest))) == (x, From(rest))
  {
    hide GetSps, SpsOk, From;
  }
}
