/** VUI parameters, section E.1.1 of ITU-T H.264. */
module VuiParameters {
  import opened Bits
  import opened BitSyntax
  import opened BitCursor
  import opened HrdParameters

  const SAR_EXTENDED: nat := 255

  datatype Aspect = Aspect(idc: nat, sarWidth: nat, sarHeight: nat)

  datatype Colour = Colour(primaries: nat, transfer: nat, matrix: nat)

  datatype VideoSignal = VideoSignal(videoFormat: nat, fullRange: bool, colour: Option<Colour>)

  datatype ChromaLoc = ChromaLoc(topField: nat, bottomField: nat)

  datatype Timing = Timing(numUnitsInTick: nat, timeScale: nat, fixedFrameRate: bool)

  datatype Restriction = Restriction(
    motionVectorsOverPicBoundaries: bool,
    maxBytesPerPicDenom: nat,
    maxBitsPerMbDenom: nat,
    log2MaxMvLengthHorizontal: nat,
    log2MaxMvLengthVertical: nat,
    numReorderFrames: nat,
    maxDecFrameBuffering: nat)

  datatype Vui = Vui(
    aspect: Option<Aspect>,
    overscanAppropriate: Option<bool>,
    videoSignal: Option<VideoSignal>,
    chromaLoc: Option<ChromaLoc>,
    timing: Option<Timing>,
    nalHrd: Option<Hrd>,
    vclHrd: Option<Hrd>,
    lowDelayHrd: bool,
    picStructPresent: bool,
    restriction: Option<Restriction>)

  predicate HasHrd(v: Vui) {
    v.nalHrd.Some? || v.vclHrd.Some?
  }

  predicate AspectOk(a: Aspect) {
    a.idc < 256 && a.sarWidth < 0x1_0000 && a.sarHeight < 0x1_0000 &&
    (a.idc != SAR_EXTENDED ==> a.sarWidth == a.sarHeight == 0)
  }

  predicate ColourOk(c: Colour) {
    c.primaries < 256 && c.transfer < 256 && c.matrix < 256
  }

  predicate VideoSignalOk(v: VideoSignal) {
    v.videoFormat < 8 && (v.colour.Some? ==> ColourOk(v.colour.value))
  }

  predicate ChromaLocOk(c: ChromaLoc) {
    c.topField <= MAX_UE && c.bottomField <= MAX_UE
  }

  predicate TimingOk(t: Timing) {
    t.numUnitsInTick < 0x1_0000_0000 && t.timeScale < 0x1_0000_0000
  }

  predicate RestrictionOk(r: Restriction) {
    r.maxBytesPerPicDenom <= MAX_UE && r.maxBitsPerMbDenom <= MAX_UE &&
    r.log2MaxMvLengthHorizontal <= MAX_UE && r.log2MaxMvLengthVertical <= MAX_UE &&
    r.numReorderFrames <= MAX_UE && r.maxDecFrameBuffering <= MAX_UE
  }

  /** The fields fit their codes, and those that are not sent hold the reader's zeros. */
  predicate VuiOk(v: Vui) {
    (v.aspect.Some? ==> AspectOk(v.aspect.value)) &&
    (v.videoSignal.Some? ==> VideoSignalOk(v.videoSignal.value)) &&
    (v.chromaLoc.Some? ==> ChromaLocOk(v.chromaLoc.value)) &&
    (v.timing.Some? ==> TimingOk(v.timing.value)) &&
    (v.nalHrd.Some? ==> HrdOk(v.nalHrd.value)) &&
    (v.vclHrd.Some? ==> HrdOk(v.vclHrd.value)) &&
    (v.lowDelayHrd ==> HasHrd(v)) &&
    (v.restriction.Some? ==> RestrictionOk(v.restriction.value))
  }

  // Codes

  function PutSar(a: Aspect, rest: seq<bool>): seq<bool> {
    if a.idc == SAR_EXTENDED then PutU(16, a.sarWidth, PutU(16, a.sarHeight, rest)) else rest
  }

  function GetAspect(s0: Input): (Aspect, Input) {
    var (idc, s1) := GetU8(s0);
    if idc == SAR_EXTENDED then
      var (width, s2) := GetU(16, s1);
      var (height, s3) := GetU(16, s2);
      (Aspect(idc, width, height), s3)
    else (Aspect(idc, 0, 0), s1)
  }

  function PutAspect(a: Aspect, rest: seq<bool>): (r: seq<bool>)
    ensures AspectOk(a) ==> GetAspect(From(r)) == (a, From(rest))
  {
    hide PutU8, PutU, GetU8, GetU, From;
    Pow2Values();
    PutU8(a.idc, PutSar(a, rest))
  }

  function GetColour(s0: Input): (Colour, Input) {
    var (primaries, s1) := GetU8(s0);
    var (transfer, s2) := GetU8(s1);
    var (matrix, s3) := GetU8(s2);
    (Colour(primaries, transfer, matrix), s3)
  }

  function PutColour(c: Colour, rest: seq<bool>): (r: seq<bool>)
    ensures ColourOk(c) ==> GetColour(From(r)) == (c, From(rest))
  {
    hide PutU8, GetU8, From;
    PutU8(c.primaries, PutU8(c.transfer, PutU8(c.matrix, rest)))
  }

  const COLOUR := Codec(PutColour, GetColour)

  function GetVideoSignal(s0: Input): (VideoSignal, Input) {
    var (format, s1) := GetU(3, s0);
    var (fullRange, s2) := GetU1(s1);
    var (colour, s3) := GetOption(COLOUR, s2);
    (VideoSignal(format, fullRange, colour), s3)
  }

  function PutVideoSignal(v: VideoSignal, rest: seq<bool>): (r: seq<bool>)
    ensures VideoSignalOk(v) ==> GetVideoSignal(From(r)) == (v, From(rest))
  {
    hide PutU, GetU, PutU1, GetU1, PutOption, GetOption, PutColour, GetColour, From;
    SmallWidths();
    PutU(3, v.videoFormat, PutU1(v.fullRange, PutOption(COLOUR, v.colour, rest)))
  }

  function GetChromaLoc(s0: Input): (ChromaLoc, Input) {
    var (top, s1) := GetUE(s0);
    var (bottom, s2) := GetUE(s1);
    (ChromaLoc(top, bottom), s2)
  }

  function PutChromaLoc(c: ChromaLoc, rest: seq<bool>): (r: seq<bool>)
    ensures ChromaLocOk(c) ==> GetChromaLoc(From(r)) == (c, From(rest))
  {
    hide PutUE, GetUE, From;
    PutUE(c.topField, PutUE(c.bottomField, rest))
  }

  function GetTiming(s0: Input): (Timing, Input) {
    var (units, s1) := GetU(32, s0);
    var (scale, s2) := GetU(32, s1);
    var (fixed, s3) := GetU1(s2);
    (Timing(units, scale, fixed), s3)
  }

  function PutTiming(t: Timing, rest: seq<bool>): (r: seq<bool>)
    ensures TimingOk(t) ==> GetTiming(From(r)) == (t, From(rest))
  {
    hide PutU, GetU, PutU1, GetU1, From;
    Pow2Values();
    PutU(32, t.numUnitsInTick, PutU(32, t.timeScale, PutU1(t.fixedFrameRate, rest)))
  }

  function GetRestriction(s0: Input): (Restriction, Input) {
    var (motion, s1) := GetU1(s0);
    var (bytes, s2) := GetUE(s1);
    var (bits, s3) := GetUE(s2);
    var (horizontal, s4) := GetUE(s3);
    var (vertical, s5) := GetUE(s4);
    var (reorder, s6) := GetUE(s5);
    var (buffering, s7) := GetUE(s6);
    (Restriction(motion, bytes, bits, horizontal, vertical, reorder, buffering), s7)
  }

  function PutRestriction(x: Restriction, rest: seq<bool>): (r: seq<bool>)
    ensures RestrictionOk(x) ==> GetRestriction(From(r)) == (x, From(rest))
  {
    hide PutUE, GetUE, PutU1, GetU1, From;
    PutU1(x.motionVectorsOverPicBoundaries,
    PutUE(x.maxBytesPerPicDenom, PutUE(x.maxBitsPerMbDenom,
    PutUE(x.log2MaxMvLengthHorizontal, PutUE(x.log2MaxMvLengthVertical,
    PutUE(x.numReorderFrames, PutUE(x.maxDecFrameBuffering, rest)))))))
  }

  const ASPECT := Codec(PutAspect, GetAspect)
  const VIDEO_SIGNAL := Codec(PutVideoSignal, GetVideoSignal)
  const CHROMA_LOC := Codec(PutChromaLoc, GetChromaLoc)
  const TIMING := Codec(PutTiming, GetTiming)
  const RESTRICTION := Codec(PutRestriction, GetRestriction)

  function PutLowDelay(v: Vui, rest: seq<bool>): seq<bool> {
    if HasHrd(v) then PutU1(v.lowDelayHrd, rest) else rest
  }

  function GetVui(s0: Input): (Vui, Input) {
    var (aspect, s1) := GetOption(ASPECT, s0);
    var (overscan, s2) := GetOption(FLAG, s1);
    var (videoSignal, s3) := GetOption(VIDEO_SIGNAL, s2);
    var (chromaLoc, s4) := GetOption(CHROMA_LOC, s3);
    var (timing, s5) := GetOption(TIMING, s4);
    var (nalHrd, s6) := GetOption(HRD, s5);
    var (vclHrd, s7) := GetOption(HRD, s6);
    var (lowDelay, s8) := if nalHrd.Some? || vclHrd.Some? then GetU1(s7) else (false, s7);
    var (picStruct, s9) := GetU1(s8);
    var (restriction, s10) := GetOption(RESTRICTION, s9);
    (Vui(aspect, overscan, videoSignal, chromaLoc, timing, nalHrd, vclHrd, lowDelay, picStruct, restriction), s10)
  }

  function PutVui(v: Vui, rest: seq<bool>): (r: seq<bool>)
    ensures VuiOk(v) ==> GetVui(From(r)) == (v, From(rest))
  {
    hide PutU1, GetU1, PutOption, GetOption, From;
    hide PutAspect, GetAspect, PutVideoSignal, GetVideoSignal, PutChromaLoc, GetChromaLoc;
    hide PutTiming, GetTiming, PutHrd, GetHrd, PutRestriction, GetRestriction;
    hide AspectOk, VideoSignalOk, ChromaLocOk, TimingOk, HrdOk, RestrictionOk;
    PutOption(ASPECT, v.aspect,
    PutOption(FLAG, v.overscanAppropriate,
    PutOption(VIDEO_SIGNAL, v.videoSignal,
    PutOption(CHROMA_LOC, v.chromaLoc,
    PutOption(TIMING, v.timing,
    PutOption(HRD, v.nalHrd,
    PutOption(HRD, v.vclHrd,
    PutLowDelay(v,
    PutU1(v.picStructPresent,
    PutOption(RESTRICTION, v.restriction, rest))))))))))
  }

  const VUI := Codec(PutVui, GetVui)

  // Readers

  method ReadAspect(b: BitStream) returns (r: Option<Aspect>)
    requires b.Valid()
    modifies b`p, b`bitsLeft
    ensures b.Valid() && (r, b.View()) == GetOption(ASPECT, old(b.View()))
  {
    hide BitStream.View, GetU1, GetU8, GetU;
    r := None;
    var present := b.ReadU1();
    if present {
      var a := Aspect(0, 0, 0);
      var idc := b.ReadU8();
      a := a.(idc := idc);
      if a.idc == SAR_EXTENDED {
        var width := b.ReadU(16);
        var height := b.ReadU(16);
        a := a.(sarWidth := width, sarHeight := height);
      }
      r := Some(a);
    }
  }

  method ReadVideoSignal(b: BitStream) returns (r: Option<VideoSignal>)
    requires b.Valid()
    modifies b`p, b`bitsLeft
    ensures b.Valid() && (r, b.View()) == GetOption(VIDEO_SIGNAL, old(b.View()))
  {
    hide BitStream.View, GetU1, GetU8, GetU;
    r := None;
    var present := b.ReadU1();
    if present {
      var format := b.ReadU(3);
      var fullRange := b.ReadU1();
      var colour := None;
      var described := b.ReadU1();
      if described {
        var primaries := b.ReadU8();
        var transfer := b.ReadU8();
        var matrix := b.ReadU8();
        colour := Some(Colour(primaries, transfer, matrix));
      }
      r := Some(VideoSignal(format, fullRange, colour));
    }
  }

  method ReadRestriction(b: BitStream) returns (r: Option<Restriction>)
    requires b.Valid()
    modifies b`p, b`bitsLeft
    ensures b.Valid() && (r, b.View()) == GetOption(RESTRICTION, old(b.View()))
  {
    hide BitStream.View, GetU1, GetUE;
    r := None;
    var present := b.ReadU1();
    if present {
      var motion := b.ReadU1();
      var bytes := b.ReadUE();
      var bits := b.ReadUE();
      var horizontal := b.ReadUE();
      var vertical := b.ReadUE();
      var reorder := b.ReadUE();
      var buffering := b.ReadUE();
      r := Some(Restriction(motion, bytes, bits, horizontal, vertical, reorder, buffering));
    }
  }

  method ReadOverscan(b: BitStream) returns (r: Option<bool>)
    requires b.Valid()
    modifies b`p, b`bitsLeft
    ensures b.Valid() && (r, b.View()) == GetOption(FLAG, old(b.View()))
  {
    hide BitStream.View, GetU1, GetU;
    r := None;
    var present := b.ReadU1();
    if present {
      var appropriate := b.ReadU1();
      r := Some(appropriate);
    }
  }

  method ReadChromaLoc(b: BitStream) returns (r: Option<ChromaLoc>)
    requires b.Valid()
    modifies b`p, b`bitsLeft
    ensures b.Valid() && (r, b.View()) == GetOption(CHROMA_LOC, old(b.View()))
  {
    hide BitStream.View, GetU1, GetUE;
    r := None;
    var present := b.ReadU1();
    if present {
      var top := b.ReadUE();
      var bottom := b.ReadUE();
      r := Some(ChromaLoc(top, bottom));
    }
  }

  method ReadTiming(b: BitStream) returns (r: Option<Timing>)
    requires b.Valid()
    modifies b`p, b`bitsLeft
    ensures b.Valid() && (r, b.View()) == GetOption(TIMING, old(b.View()))
  {
    hide BitStream.View, GetU1, GetU;
    r := None;
    var present := b.ReadU1();
    if present {
      var units := b.ReadU(32);
      var scale := b.ReadU(32);
      var fixed := b.ReadU1();
      r := Some(Timing(units, scale, fixed));
    }
  }

  method ReadOptionalHrd(b: BitStream) returns (r: Option<Hrd>)
    requires b.Valid()
    modifies b`p, b`bitsLeft
    ensures b.Valid() && (r, b.View()) == GetOption(HRD, old(b.View()))
  {
    hide BitStream.View, GetU1, GetHrd;
    r := None;
    var present := b.ReadU1();
    if present {
      var hrd := ReadHrd(b);
      r := Some(hrd);
    }
  }

  method ReadVui(b: BitStream) returns (v: Vui)
    requires b.Valid()
    modifies b`p, b`bitsLeft
    ensures b.Valid() && (v, b.View()) == GetVui(old(b.View()))
  {
    hide BitStream.View, GetU1, GetOption;
    var aspect := ReadAspect(b);
    var overscan := ReadOverscan(b);
    var videoSignal := ReadVideoSignal(b);
    var chromaLoc := ReadChromaLoc(b);
    var timing := ReadTiming(b);
    var nalHrd := ReadOptionalHrd(b);
    var vclHrd := ReadOptionalHrd(b);
    var lowDelay := false;
    if nalHrd.Some? || vclHrd.Some? {
      lowDelay := b.ReadU1();
    }
    var picStruct := b.ReadU1();
    var restriction := ReadRestriction(b);
    v := Vui(aspect, overscan, videoSignal, chromaLoc, timing, nalHrd, vclHrd, lowDelay, picStruct, restriction);
  }

  // Writers

  method WriteAspect(b: BitStream, o: Option<Aspect>)
    requires b.Valid()
    modifies b`p, b`bitsLeft, b.buf
    ensures b.Valid()
    ensures forall rest {:trigger Then(b.Tape(), rest)} ::
              Then(b.Tape(), rest) == Then(old(b.Tape()), PutOption(ASPECT, o, rest))
  {
    hide BitStream.Tape, Then, PutU8, PutU, PutU1, GetAspect, GetOption, Inverts, From;
    b.WriteU1(o.Some?);
    if o.Some? {
      b.WriteU8(o.value.idc);
      if o.value.idc == SAR_EXTENDED {
        b.WriteU(16, o.value.sarWidth);
        b.WriteU(16, o.value.sarHeight);
      }
    }
  }

  method WriteVideoSignal(b: BitStream, o: Option<VideoSignal>)
    requires b.Valid()
    modifies b`p, b`bitsLeft, b.buf
    ensures b.Valid()
    ensures forall rest {:trigger Then(b.Tape(), rest)} ::
              Then(b.Tape(), rest) == Then(old(b.Tape()), PutOption(VIDEO_SIGNAL, o, rest))
  {
    hide BitStream.Tape, Then, PutU8, PutU, PutU1, GetVideoSignal, GetColour, GetOption, Inverts, From;
    b.WriteU1(o.Some?);
    if o.Some? {
      b.WriteU(3, o.value.videoFormat);
      b.WriteU1(o.value.fullRange);
      b.WriteU1(o.value.colour.Some?);
      if o.value.colour.Some? {
        b.WriteU8(o.value.colour.value.primaries);
        b.WriteU8(o.value.colour.value.transfer);
        b.WriteU8(o.value.colour.value.matrix);
      }
    }
  }

  method WriteRestriction(b: BitStream, o: Option<Restriction>)
    requires b.Valid() && (o.Some? ==> RestrictionOk(o.value))
    modifies b`p, b`bitsLeft, b.buf
    ensures b.Valid()
    ensures forall rest {:trigger Then(b.Tape(), rest)} ::
              Then(b.Tape(), rest) == Then(old(b.Tape()), PutOption(RESTRICTION, o, rest))
  {
    hide BitStream.Tape, Then, PutU1, PutUE, GetRestriction, GetOption, Inverts, From;
    b.WriteU1(o.Some?);
    if o.Some? {
      b.WriteU1(o.value.motionVectorsOverPicBoundaries);
      b.WriteUE(o.value.maxBytesPerPicDenom);
      b.WriteUE(o.value.maxBitsPerMbDenom);
      b.WriteUE(o.value.log2MaxMvLengthHorizontal);
      b.WriteUE(o.value.log2MaxMvLengthVertical);
      b.WriteUE(o.value.numReorderFrames);
      b.WriteUE(o.value.maxDecFrameBuffering);
    }
  }

  method WriteOverscan(b: BitStream, o: Option<bool>)
    requires b.Valid()
    modifies b`p, b`bitsLeft, b.buf
    ensures b.Valid()
    ensures forall rest {:trigger Then(b.Tape(), rest)} ::
              Then(b.Tape(), rest) == Then(old(b.Tape()), PutOption(FLAG, o, rest))
  {
    hide BitStream.Tape, Then, PutU1, GetOption, Inverts, From, GetU1;
    b.WriteU1(o.Some?);
    if o.Some? {
      b.WriteU1(o.value);
    }
  }

  method WriteChromaLoc(b: BitStream, o: Option<ChromaLoc>)
    requires b.Valid() && (o.Some? ==> ChromaLocOk(o.value))
    modifies b`p, b`bitsLeft, b.buf
    ensures b.Valid()
    ensures forall rest {:trigger Then(b.Tape(), rest)} ::
              Then(b.Tape(), rest) == Then(old(b.Tape()), PutOption(CHROMA_LOC, o, rest))
  {
    hide BitStream.Tape, Then, PutU1, GetOption, Inverts, From, PutUE, GetChromaLoc;
    b.WriteU1(o.Some?);
    if o.Some? {
      b.WriteUE(o.value.topField);
      b.WriteUE(o.value.bottomField);
    }
  }

  method WriteTiming(b: BitStream, o: Option<Timing>)
    requires b.Valid()
    modifies b`p, b`bitsLeft, b.buf
    ensures b.Valid()
    ensures forall rest {:trigger Then(b.Tape(), rest)} ::
              Then(b.Tape(), rest) == Then(old(b.Tape()), PutOption(TIMING, o, rest))
  {
    hide BitStream.Tape, Then, PutU1, GetOption, Inverts, From, PutU, GetTiming;
    b.WriteU1(o.Some?);
    if o.Some? {
      b.WriteU(32, o.value.numUnitsInTick);
      b.WriteU(32, o.value.timeScale);
      b.WriteU1(o.value.fixedFrameRate);
    }
  }

  method WriteOptionalHrd(b: BitStream, o: Option<Hrd>)
    requires b.Valid() && (o.Some? ==> HrdOk(o.value))
    modifies b`p, b`bitsLeft, b.buf
    ensures b.Valid()
    ensures forall rest {:trigger Then(b.Tape(), rest)} ::
              Then(b.Tape(), rest) == Then(old(b.Tape()), PutOption(HRD, o, rest))
  {
    hide BitStream.Tape, Then, PutU1, GetOption, Inverts, From, PutHrd, GetHrd;
    b.WriteU1(o.Some?);
    if o.Some? {
      WriteHrd(b, o.value);
    }
  }

  method WriteVui(b: BitStream, v: Vui)
    requires b.Valid() && VuiOk(v)
    modifies b`p, b`bitsLeft, b.buf
    ensures b.Valid()
    ensures forall rest {:trigger Then(b.Tape(), rest)} :: Then(b.Tape(), rest) == Then(old(b.Tape()), PutVui(v, rest))
  {
    hide BitStream.Tape, Then, PutU1, PutOption, GetVui, GetOption, Inverts, From;
    WriteAspect(b, v.aspect);
    WriteOverscan(b, v.overscanAppropriate);
    WriteVideoSignal(b, v.videoSignal);
    WriteChromaLoc(b, v.chromaLoc);
    WriteTiming(b, v.timing);
    WriteOptionalHrd(b, v.nalHrd);
    WriteOptionalHrd(b, v.vclHrd);
    if v.nalHrd.Some? || v.vclHrd.Some? {
      b.WriteU1(v.lowDelayHrd);
    }
    b.WriteU1(v.picStructPresent);
    WriteRestriction(b, v.restriction);
  }
}
