# A verified model of h264bitstream

This project models, in Dafny, the H.264 bitstream reader and writer of
h264bitstream and the frame dependency analyser on top of it, and proves what
they promise. Section numbers are those of ITU-T H.264.

Four layers compose:

1. **Bits** (`bs.h`). `Bits`, `BitSyntax`, `BitCursor`, `Fields`. The class
   `BitStream` works in place on a byte array; its abstract value is a sequence
   of bits with a position (`Tape`), of which a reader sees the rest (`View`).
   Each syntax element X has a function `PutX`, the code of a value in front of
   what follows, and a function `GetX`, what a reader makes of an input. A writer
   method is proved to put `PutX` at the cursor, a reader method to return
   `GetX`, and the contract of `PutX` says that `GetX` inverts it.
2. **Syntax structures** (`h264_stream.c`, `h264_sei.c`). `HrdParameters`,
   `VuiParameters`, `ScalingLists`, `SequenceParameterSet`,
   `PictureParameterSet`, `SliceHeaders` with `SliceHeaderIO`, `Sei`. `Lengths`
   shows that codes have a length of their own and derives from it exactly which
   sequence parameter sets come back. `NormalForms` starts from any input: what
   was read can be written. `Syntax`, `ParameterSetSyntax`, `SliceSyntax` and
   `SeiSyntax` have the syntax tables of the standard as lists of elements, which
   name neither the writers nor the readers: codes are shown to be the joined codes
   of those lists, and whatever bits are read, the elements of the list stand there.
   `Samples` has sets given as bytes.
3. **Bytes** (`h264_nal.c`, `h264_analyzer.c`). `NalBytes` has emulation
   prevention, `AnnexB` and `Framing` have start codes, `FileScan` has the scan
   through a refilled buffer. `NalUnits` and `NalUnitIO` put the layers
   together: whole units, streams of units, and files of units round trip.
4. **Dependencies** (`dep_analyzer.c`). `Pocs`, `DisplayOrder`, `Dpbs`,
   `Sorting`, `RefLists` and `DepAnalyzer` are about runs of pictures of any
   length, and `StandardRefs` compares them with the standard; the class
   `DependenceAnalysis` carries a ghost history, and its methods keep every field
   what the functions on that history say.
   `DepAnalyzerMain` has the loop of the program, and `SeenPictures` says which
   pictures it sees, and what they are in terms of the bytes of the units.

`Departures` has concrete streams, read from their bytes, on which the code leaves
the standard.

Where the code departs from its own promise or from the standard, the model
follows the code, and the departure is a result:

- Numbers coded with ff bytes are lost when they are positive multiples of 255
  (`Sei.FFRoundTripIff`).
- The writer sends eight scaling lists where the reader of a 4:4:4 set expects
  twelve (`NalUnits.WrittenSetReadsIff`, `Lengths.Example444`,
  `Departures.StoredFails`).
- The search for units sees the end of the last unit exactly when four zero
  bytes follow it; otherwise it returns -1, and the analyser and the file scan
  do not deliver that unit (`Framing.LastDeliveredIff`,
  `Framing.UnitsOfStream`).
- The previous picture order count restarts from 0 behind an IDR picture, also
  when the lsb of that picture is not 0, and does not restart behind
  memory_management_control_operation 5 (`Pocs.StandardPocIff`,
  `Pocs.NearIdrIff`, `Pocs.RestartsAreForgotten`).
- With order count type 2 the count is twice the frame_num also for pictures that
  are no reference, and where frame_num went round (`Pocs.StandardPocTwoIff`,
  `Pocs.NonReferenceTies`).
- The distance of two between IDR periods keeps the display order exactly for
  local counts down to -1 (`DisplayOrder.GlobalOrderIff`,
  `DisplayOrder.LateFromIdr`, `DisplayOrder.MinusTwoTies`).
- A comment of the analyser says that the reference counts come from the slice
  header or the parameter set; the code takes those of the header only, so that
  they are 1 without an override (`DepAnalyzer.CountsAreActiveIff`,
  `DepAnalyzer.ListedCountIff`, `DepAnalyzer.ListedCountsIff`,
  `Departures.TwoSetsDepend`).
- Lists of P pictures go by frame_num and not by PicNum, which is another order
  when frame_num went round (`StandardRefs.PDependsAsStandardIff`,
  `StandardRefs.RoundDepends`).
- List 1 of a B picture is not swapped when it is list 0
  (`StandardRefs.BDependsAsStandardIff`, `StandardRefs.OneSidedDepends`).
- A comment says that the buffer is updated by the rules of the standard; it has
  always room for 16 entries, and the oldest one leaves (`StandardRefs.WindowIff`,
  `StandardRefs.CountingUpSlides`, `StandardRefs.WindowOfOne`).
- The weight table has as many entries as the parameter set counts say, also
  when the header overrides them (`SliceHeaders.TableLengthIff`,
  `Departures.ShortTable`).
- The modulus of picture order counts is that of the last set that was read,
  not of the set that the picture refers to (`DepAnalyzer.ModulusIff`,
  `Pocs.ModuliCountIff`, `Departures.TwoSetsCount`).
- The width of `slice_group_change_cycle` is the logarithm of the change rate,
  about which a comment of the code has doubts (`SliceHeaders.CycleBitsIff`,
  `Departures.NarrowCycle`).
- With a payload and no room the escaping function returns -1; with an empty
  payload and no room it still returns 1, the size of the pad byte
  (`NalBytes.RbspToNal`).

## Model

| member | source | states |
|---|---|---|
| Bits.SetByteBit | bs.h:222-229 | Clearing and setting one bit of a byte gives that bit the new value and leaves the other seven as they were. |
| BitSyntax.PutUE | bs.h:262-317 | For every v up to 65534, whatever bits follow, the reader gets v back from its code and stops right behind it. |
| BitSyntax.PutSE | bs.h:319-329 | For every v from -32767 to 32767, whatever bits follow, the reader gets v back and stops right behind the code. |
| BitSyntax.PutU | bs.h:238-245 | Every number that fits n bits comes back from its n bits, at any alignment and with anything behind it. |
| BitSyntax.CodeUEShape | bs.h:262-317 | The code the writer computes from a length table is the code of section 9.1: z zeros, a one, and z more bits, with 2^z <= v + 1 < 2^(z+1). |
| BitSyntax.UEOnAnyBits | bs.h:193-205 | Whatever bits are read: zeros are counted up to the first one, to 32 or to the last bit, one bit more is passed, and as many bits as zeros spell what is added to 2^z - 1. |
| BitSyntax.UntilFrom | h264_stream.c:1077-1126 | A list whose last element is the first one with the end mark is read back whole, by a loop that stops at the end mark or where the input ends. |
| BitSyntax.PutTrailing | h264_stream.c:2280-2288 | In front of whole bytes, reading trailing bits passes exactly the stop bit and the zeros that were written. |
| BitSyntax.MoreDataIffBeforeStop | h264_stream.c:62-84 | In a payload with its trailing bits and any number of zero bytes behind them, the look ahead is true exactly at the positions before the stop bit. |
| BitCursor.BitStream.constructor | bs.h:81-88 | A new cursor sees all bits of the buffer. |
| BitCursor.BitStream.Clone | bs.h:102-109 | A clone sees what its source sees. |
| BitCursor.BitStream.ByteAligned | bs.h:111-114 | True exactly when the bit position is a multiple of 8. |
| BitCursor.BitStream.Eof | bs.h:116 | True exactly when no bit is left. |
| BitCursor.BitStream.Overrun | bs.h:118 | True exactly when the position is a whole byte or more past the end. |
| BitCursor.BitStream.ReadU1 | bs.h:124-138 | Gives the next bit of the bit sequence, or 0 past the end, and moves on by one. |
| BitCursor.BitStream.SkipU1 | bs.h:140-144 | Moves on by one bit. |
| BitCursor.BitStream.PeekU1 | bs.h:146-155 | Gives the bit that bs_read_u1 would give. |
| BitCursor.BitStream.ReadU | bs.h:158-167 | Gives the number that the next n bits spell and moves on by n, at any alignment. |
| BitCursor.BitStream.SkipU | bs.h:169-176 | Moves on by n bits. |
| BitCursor.BitStream.ReadU8 | bs.h:180-191 | The fast byte path and the bit loop give the same number and the same position. |
| BitCursor.BitStream.ReadUE | bs.h:193-205 | The loop finds the prefix of the code, with its three ways to stop, and gives the number of section 9.1. |
| BitCursor.BitStream.ReadSE | bs.h:207-219 | Gives the signed number of section 9.1.1. |
| BitCursor.BitStream.NextBits | bs.h:363-368 | Gives the number the next n bits spell and leaves the cursor where it is. |
| BitCursor.BitStream.WriteU1 | bs.h:222-236 | Puts the bit at the cursor and changes no other bit; past the end nothing but the position changes. |
| BitCursor.BitStream.WriteU | bs.h:238-245 | Puts the n low bits at the cursor, at any alignment, and changes no other bit. |
| BitCursor.BitStream.WriteU8 | bs.h:249-260 | The fast byte path and the bit loop put the same eight bits. |
| BitCursor.BitStream.WriteUE | bs.h:262-317 | Puts the code of v, whose length comes from the table of bit lengths. |
| BitCursor.BitStream.WriteSE | bs.h:319-329 | Puts the code of the signed number. |
| BitCursor.BitStream.ReadTrailingBits | h264_stream.c:951-959 | Passes the stop bit and then as many bits as are missing to the next byte. |
| BitCursor.BitStream.WriteTrailingBits | h264_stream.c:2280-2288 | Puts a one and zeros up to the next byte, and leaves the cursor aligned. |
| BitCursor.BitStream.MoreRbspData | h264_stream.c:62-84 | Answers the look ahead question of section 7.2 on a clone, without moving the cursor. |
| BitCursor.LenOf | bs.h:264-312 | The branches and the table give the number of bits of every 32-bit number above 0. |
| Fields.FieldsComeBack | bs.h:222-329 | Any mixed list of u, u8, ue and se fields, written at any place of a buffer with room for it, reads back in order; the position moves by the coded length, and no other bit of the buffer changes. |
| Fields.PastTheEnd | bs.h:124-245 | Past the end every field reads as zero, and writing changes no bit of the buffer. |
| Fields.WriteFields | bs.h:222-329 | The writers in a row put the codes of a mixed list one behind the other. |
| Fields.ReadFields | bs.h:124-219 | The readers in a row read a mixed list. |
| HrdParameters.ReadHrd | h264_stream.c:671-686 | Reads the fields in their order; the loop reads as many entries as the count just read says. |
| HrdParameters.WriteHrd | h264_stream.c:2000-2015 | Writes the code that ReadHrd inverts. |
| HrdParameters.PutHrd | h264_stream.c:2000-2015 | Every structure within its field widths comes back, with all entries of the loop, whatever follows it. |
| ParameterSetSyntax.HrdWritten | h264_stream.c:2000-2015 | The code of every structure is the joined code of the elements of section E.1.2, which are listed without naming the writer. |
| ParameterSetSyntax.HrdRead | h264_stream.c:671-686 | Whatever bits are read, the elements of section E.1.2 for the structure that is returned stand there, and the reader is right behind them. |
| VuiParameters.ReadVui | h264_stream.c:598-667 | Reads every optional group exactly when its flag is set, and both HRD structures. |
| VuiParameters.WriteVui | h264_stream.c:1927-1996 | Writes the code that ReadVui inverts. |
| VuiParameters.PutVui | h264_stream.c:1927-1996 | Every structure within its field widths, with zeros in what is not sent, comes back, whatever follows it. |
| ParameterSetSyntax.VuiWritten | h264_stream.c:1927-1996 | The code of every structure is the joined code of the elements of section E.1.1; the sample aspect sizes are sent for the number 255. |
| ParameterSetSyntax.VuiRead | h264_stream.c:598-667 | Whatever bits are read, the elements of section E.1.1 for the structure that is returned stand there, and what is not sent is 0. |
| ScalingLists.ReadScalingList | h264_stream.c:460-491 | Reads deltas until one stops the list, and repeats the last value from there on. |
| ScalingLists.WriteScalingList | h264_stream.c:1789-1820 | Writes the deltas that lead from each entry to the next, none behind a stop. |
| ScalingLists.ReadListIsNormal | h264_stream.c:460-491 | A list that was read from deltas of at least -257 has all entries from 1 to 255 (all 8 for the default list), and written out and read again it is the same list with the same default flag, also when the original stopped early. |
| ScalingLists.ReadLists | h264_stream.c:398-414 | Reads a presence flag for each list, and the 16 or 64 entries of those present. |
| ScalingLists.WriteLists | h264_stream.c:1727-1743 | Writes a presence flag for each list, and the 16 or 64 entries of those present. |
| ScalingLists.PutLists | h264_stream.c:1727-1743 | Lists that are present or absent come back as they were, whatever follows them. |
| ParameterSetSyntax.ListWritten | h264_stream.c:1789-1820 | The deltas that are written make the entries of the list by the equations of section 7.3.2.1.1.1. |
| ParameterSetSyntax.ListRead | h264_stream.c:460-491 | Whatever bits are read, deltas stand there that make the entries by those equations, up to the first one that makes nextScale 0. |
| SequenceParameterSet.ReadSps | h264_stream.c:358-457 | Reads the fields with all their conditions and loops: chroma fields for the high profiles, the three kinds of order count, cropping, VUI. |
| SequenceParameterSet.WriteSps | h264_stream.c:1687-1786 | Writes the fields with all their conditions and loops; eight scaling lists in any format. |
| SequenceParameterSet.PutSps | h264_stream.c:1687-1786 | Whatever follows it, the code of every set within its field widths, without scaling matrices in 4:4:4, reads back as that set. |
| SequenceParameterSet.SpsRoundTrip | h264_stream.c:1687-1786 | Every set within its field widths, without scaling matrices in 4:4:4, comes back whole, and the reader stops right behind it. |
| ParameterSetSyntax.SpsWritten | h264_stream.c:1687-1786 | Whatever follows it, the code of a set is the joined code of the elements of section 7.3.2.1.1, the list of profiles included, with the first eight scaling lists. The elements are listed without naming the writer. |
| ParameterSetSyntax.SpsRead | h264_stream.c:358-457 | Whatever bits are read, the elements of section 7.3.2.1.1 for the set that is returned stand there, each under its condition, with 8 scaling lists or 12, and the reader is right behind them. |
| Samples.HighProfileReads | h264_stream.c:379-395 | The unit 67 64 00 1f ac e8 2c 4e 40 reads as a High profile set, all of whose fields are stated, and its nine bytes are used. |
| Lengths.SpsRoundTripIff | h264_stream.c:398 | Of the sets whose untransmitted fields hold the defaults, exactly those come back with the reader right behind them that are not in 4:4:4 with scaling matrices: there the reader takes at least four bits too many. |
| Lengths.MatricesOverrun | h264_stream.c:398 | When a 4:4:4 set with matrices comes back nevertheless, the reader is a whole byte or more past the end of the payload. |
| NalUnits.WrittenSetReadsIff | h264_stream.c:358-457 | At the level of units: writing such a set and reading the unit succeeds and leaves the set in the stream and its table exactly when it is not in 4:4:4 with matrices. |
| Departures.StoredFails | h264_stream.c:398 | A 4:4:4 set with matrices that is left in the stream and its table as it was written, while the return value is -1: so success has to be part of the exact condition. |
| Lengths.Example444 | h264_stream.c:398 | A concrete 4:4:4 set with matrices does not come back, whatever follows it. |
| Lengths.UEReads | bs.h:193-205 | The reader always consumes as many bits as the code of the number it returns has, also where the input ends inside it. |
| PictureParameterSet.IntLog2IsCeiling | h264_stream.c:42-52 | The result is the base 2 logarithm, rounded up: the least width whose powers reach x. |
| PictureParameterSet.ComputeIntLog2 | h264_stream.c:42-52 | The shifting loop computes that logarithm. |
| PictureParameterSet.PutIds | h264_stream.c:2075-2083 | Every slice group number up to the highest fits the width both sides use, and the list comes back. |
| PictureParameterSet.ReadPps | h264_stream.c:707-805 | Reads the fields with the five kinds of slice group maps, and the tail exactly when the look ahead sees more data. |
| PictureParameterSet.WritePps | h264_stream.c:2036-2134 | Writes the fields, and the tail exactly when one of its fields is not the default. |
| PictureParameterSet.PutPps | h264_stream.c:2036-2134 | In front of a stop bit, the code of every set within its field widths reads back as that set, tail included. |
| PictureParameterSet.PpsRoundTrip | h264_stream.c:2036-2134 | With the stop bit behind it, every set within its field widths comes back, and the reader stops at the stop bit. |
| PictureParameterSet.TailSeenIffSent | h264_stream.c:767-774 | The look ahead of the reader sees more data exactly when the field test of the writer sent the tail. |
| ParameterSetSyntax.PpsWritten | h264_stream.c:2036-2134 | Whatever follows it, the code of a set is the joined code of the elements of section 7.3.2.2; the tail is there when one of its fields is not the default. |
| ParameterSetSyntax.PpsRead | h264_stream.c:707-805 | Whatever bits are read, the elements of section 7.3.2.2 for the set that is returned stand there; the tail exactly when there is more data, and its matrices are 6 + 2 * transform_8x8_mode_flag lists. |
| Samples.MatricesRead | h264_stream.c:776-799 | The unit 68 ce 3c c0 30 reads as a picture set with eight matrix flags and the offset 0 behind them; all fields are stated, and its five bytes are used. |
| NormalForms.ReadSpsIsNormal | h264_stream.c:358-457 | A sequence parameter set that was read from any bits, whose numbers are within the codes that are modelled, gives the same set when it is written out and read again. |
| NormalForms.SpsReadOk | h264_stream.c:358-457 | Of a set that was read from any bits the writer asks exactly that: numbers within the codes, HRD counts included, scaling list entries from 1 to 255, and no matrices in 4:4:4. |
| NormalForms.ReadPpsIsNormal | h264_stream.c:707-805 | A picture parameter set that was read from any bits, whose numbers are within the codes that are modelled, gives the same set when it is written out in front of a stop bit and read again. |
| NormalForms.PpsReadOk | h264_stream.c:707-805 | Of a set that was read from any bits the writer asks exactly that: numbers within the codes, group numbers up to the highest, and scaling list entries from 1 to 255. |
| SliceHeaderIO.ReadSliceHeader | h264_stream.c:962-1074 | Looks the parameter sets up and reads every field under its condition, both reordering lists, the weight table and the marking commands. |
| SliceHeaderIO.WriteSliceHeader | h264_stream.c:2291-2403 | Room for its code is enough for every header within its field widths: then it is put whole, and reading from where it was put gives it back with the cursor right behind it. Without room, and only then, the cursor is past the end, and the buffer holds the front of the code. Nothing else changes. |
| SliceHeaderIO.HeaderComesBack | h264_stream.c:962-1074 | A header that was put into a buffer with room is read back from where it was put. |
| SliceHeaders.SliceHeaderRoundTrip | h264_stream.c:2291-2403 | For all tables, every header within its field widths, with zeros in what is not sent, comes back, with both command lists and the weight table. |
| SliceSyntax.HeaderWritten | h264_stream.c:2291-2403 | Whatever follows it, the code of a header is the joined code of the elements of section 7.3.3, each under its condition in terms of the unit type, nal_ref_idc, slice_type and the fields of the sets. |
| SliceSyntax.HeaderRead | h264_stream.c:962-1074 | Whatever bits are read, those elements for the header that is returned stand there with the reader right behind them. The weight table is there exactly for weighted_pred_flag in P and SP slices or weighted_bipred_idc 1 in B slices, and what is not sent is 0. |
| SliceSyntax.ReorderingListRead | h264_stream.c:1077-1126 | Whatever bits are read, the commands of section 7.3.3.1 stand there up to the first 3, or to the end of the bits. |
| SliceSyntax.TableRead | h264_stream.c:1129-1187 | Whatever bits are read, the elements of section 7.3.3.2 stand there, with as many entries as the picture set says, and list 1 in B slices. |
| SliceSyntax.MarkingRead | h264_stream.c:1190-1231 | Whatever bits are read, the elements of section 7.3.3.3 stand there: nothing, the two flags of an IDR slice, or the commands up to the first 0 or the end of the bits. |
| SliceHeaderIO.ReadReorderings | h264_stream.c:1077-1126 | Reads each list up to its first command 3, for the slice types that have it. |
| SliceHeaderIO.WriteReorderings | h264_stream.c:2406-2455 | Writes each list up to its first command 3. The loops stop early only when the buffer is full, and then the code of the lists would go past its end and the buffer holds the front of it. |
| SliceHeaderIO.WriteReorderingList | h264_stream.c:2412-2431 | The same of one list. |
| SliceHeaders.PutReorderingList | h264_stream.c:2412-2431 | A list that ends at its first command 3 comes back. |
| SliceHeaderIO.ReadWeightTable | h264_stream.c:1129-1187 | Reads as many entries as the parameter set counts say, and the chroma weights only where there is chroma. |
| SliceHeaderIO.WriteWeightTable | h264_stream.c:2458-2516 | Writes the table that ReadWeightTable reads. |
| SliceHeaders.PutWeightTable | h264_stream.c:2458-2516 | Tables with as many entries as the parameter set counts come back. |
| SliceHeaderIO.ReadMarking | h264_stream.c:1190-1231 | Reads the two flags of an IDR picture, or the commands up to the first command 0. |
| SliceHeaderIO.WriteMarking | h264_stream.c:2519-2560 | Writes the flags, or the commands up to the first command 0. The loop stops early only when the buffer is full, and then the code of the commands would go past its end and the buffer holds the front of it. |
| SliceHeaders.MarkingBack | h264_stream.c:2519-2560 | Marking commands that end at the first command 0 come back. |
| SliceHeaders.TableLengthIff | h264_stream.c:1142 | Of every header that is read, the weight table has as many entries as list 0 (and in B slices list 1) exactly when the header does not override the default count by another one. |
| Departures.ShortTable | h264_stream.c:1142 | A header with two entries in list 0 over a default of one reads back, whatever follows it, with a weight table of one entry. |
| SliceHeaders.CycleBitsIff | h264_stream.c:1068-1073 | The width used for slice_group_change_cycle is that of section 7.4.3 exactly when the picture has more than 2^(w-1) - 1 and at most 2^w - 1 times as many map units as the change rate, w being the logarithm of that rate. |
| Departures.NarrowCycle | h264_stream.c:1070 | With 4x4 map units and a change rate of 2 the field has one bit, and section 7.4.3 gives it four. |
| SliceHeaders.StandardCycleBitsIs | h264_stream.c:1070 | The width of section 7.4.3, Ceil(Log2(size / rate + 1)) with the exact quotient, is the least w for which 2^w rates reach size and rate together. |
| Sei.FFRoundTripIff | h264_stream.c:88-115 | A number coded with ff bytes comes back exactly when it is 0 or no multiple of 255, whatever follows it. |
| Sei.TwoFiftyFiveIsLost | h264_stream.c:88-115 | 255 does not come back. |
| Sei.ReadFF | h264_stream.c:88-98 | Adds bytes up to the first that is not ff. |
| Sei.WriteFF | h264_stream.c:100-115 | Writes ff bytes while more than 255 is left, then the rest. |
| Sei.ReadMessage | h264_sei.c:252-274 | Reads type, size and as many payload bytes. |
| Sei.WriteMessage | h264_sei.c:459-481 | Writes type, size and the payload bytes. |
| Sei.ReadSei | h264_stream.c:809-837 | Reads messages until the look ahead sees only the stop bit. |
| Sei.WriteSei | h264_stream.c:2138-2166 | Writes the messages one behind the other. |
| Sei.SeiRoundTripIff | h264_stream.c:2138-2182 | A list of raw messages comes back with the reader at the stop bit exactly when every type and size is 0 or no multiple of 255. |
| SeiSyntax.NumberRead | h264_stream.c:88-98 | Whatever bits are read, the number that is returned stands there as section 7.3.2.3.1 sends it: a byte ff for each 255 in it, and a last byte below ff. |
| SeiSyntax.NumberWritten | h264_stream.c:100-115 | A number is written with a last byte from 1 to 255 instead, except for 0. |
| SeiSyntax.FormsAgreeIff | h264_stream.c:88-115 | The two forms are the same exactly for 0 and the numbers that are no multiples of 255. |
| SeiSyntax.MessagesRead | h264_stream.c:809-837 | Whatever bits are read as messages, their types, sizes and payload bytes stand there in this order, none is a scalability message, and no more data is left behind the last one. |
| SeiSyntax.MessagesWritten | h264_stream.c:2138-2166 | The code of messages is their joined code in the written form, whatever follows it. |
| NalBytes.RbspToNal | h264_nal.c:188-226 | The output is a pad byte and the escaped payload; -1 exactly when there is a payload whose output is longer than the room, and then the room holds the front of it. |
| NalBytes.NalToRbsp | h264_nal.c:241-294 | The output is the unescaped payload; -1 exactly for a forbidden pattern or too little room; a last byte 03 is left unused. |
| NalBytes.UnescapeOfEscape | h264_nal.c:188-294 | Unescaping inverts escaping on every byte string. |
| NalBytes.EscapeOfUnescape | h264_nal.c:241-294 | Escaping what was unescaped gives the accepted bytes back, up to a dropped last byte 03. |
| NalBytes.EscapeInjective | h264_nal.c:188-226 | Different payloads have different escaped forms. |
| NalBytes.UnescapeAcceptsClean | h264_nal.c:255-281 | Bytes are accepted exactly when they hold no 000000, 000001 or 000002 and 000003 only before a byte up to 03 or at the end. |
| NalBytes.EscapeIsClean | h264_nal.c:201-214 | Escaped bytes hold no 000000, 000001 or 000002, and 000003 only before a byte up to 03, as section 7.4.1 asks. |
| NalBytes.EscapeSizeBound | h264_nal.c:175-187 | With the pad byte the output takes at most 3/2 of the payload size, rounded up, and a payload of zeros takes that much. |
| AnnexB.FindNalUnit | h264_nal.c:134-172 | Finds the first start code and the first end code behind it, with the source's return values 0, -1 and length, whatever bytes lie behind the data. |
| AnnexB.FindStart | h264_nal.c:142-149 | The result is the first start code among the places searched, and none was passed over. |
| AnnexB.FindEnd | h264_nal.c:160-168 | The result is the first end code among the places searched, and none was passed over. |
| AnnexB.PositiveStays | h264_nal.c:134-172 | A unit found in some data is found, with the same bounds, in all data that go on from it. |
| AnnexB.PositiveInPrefix | h264_nal.c:134-172 | A unit found in longer data is found in every front part that holds it and four more bytes. |
| AnnexB.ScanBuffer | dep_analyzer_main.c:52-56 | The loop over a file in memory returns the units of the scan with their offsets. |
| Framing.FirstFound | h264_nal.c:134-172 | In front of another start code, or of four zero bytes, a unit behind a start code of any length is found whole. |
| Framing.LastIsOpen | h264_nal.c:165-168 | With fewer than four zero bytes behind it the last unit has no end: the search returns -1 with the right start. |
| Framing.LastDeliveredIff | h264_nal.c:160-168 | The last unit of a stream is found exactly when at least four zero bytes follow it; otherwise the search says -1. |
| Framing.UnitsOfStream | dep_analyzer_main.c:52-56 | The scan of units behind start codes of three, four or more bytes returns them in order and at their offsets: all when four zero bytes stand at the end, otherwise all but the last, and leaves what is behind them. |
| Framing.AnnexBRoundTrip | h264_nal.c:134-294 | Escaping, framing and joining any payloads that do not end in zero, with any zero bytes between and behind: the scan returns every unit in order, the last one exactly when four zero bytes follow it, and unescaping restores every payload. |
| FileScan.AnalyzeFile | h264_analyzer.c:6-43 | The loop with its refilled buffer ends and delivers what the chunked scan says; for a file whose units fit the buffer, the units of one scan of the whole file. |
| FileScan.Drain | h264_analyzer.c:23-33 | The inner loop delivers the units found in the buffer and leaves what is behind the last one. |
| FileScan.RefilledScanIsWholeScan | h264_analyzer.c:16-39 | For every file whose units, with start code and look ahead, fit the buffer, and whose scan does not stop at an empty unit, the refilled scan delivers the same offsets and bytes as one scan of the whole file. |
| FileScan.RefilledScanOfStream | h264_analyzer.c:16-39 | Through the refilled buffer every unit of a framed stream whose end is seen is delivered, at its offset. |
| NalUnits.NalCode | h264_stream.c:1491-1560 | The code of a unit with its trailing bits is a whole number of bytes. |
| NalUnits.RbspEnds | h264_stream.c:2280-2288 | The payload that is written never ends in a zero byte, as framing needs. |
| NalUnits.WrittenNalReads | h264_stream.c:160-302 | If writing a unit succeeds, reading from byte 1 of the buffer succeeds with that size and leaves the same content in the stream and its tables. |
| NalUnits.SliceReads | h264_stream.c:160-302 | A slice unit, whatever data stand behind its header, reads as every header within its field widths, together with the sets of the tables that it refers to. |
| NalUnits.WriteFitsIff | h264_stream.c:1508-1511 | Writing a unit fails exactly when the payload is more than 3/4 of the buffer or the escaped unit with its pad byte is larger; 3/2 of the payload is always enough. |
| UnitReading.WrittenHeader | h264_stream.c:1513-1516 | A unit that is written has a zero byte in front, and its first byte is 32 times nal_ref_idc and nal_unit_type. |
| UnitReading.FirstByte | h264_stream.c:182-186 | Of every unit with allowed bytes, nal_ref_idc and nal_unit_type are read from the first byte and the content from the bits behind it, and the return value is -1 exactly for unhandled types and readers a byte past the end. |
| UnitReading.SpsUnitRead | h264_stream.c:216-226 | A unit of type 7 goes to the entry of the table with its number and to the current set; all other entries and fields stay. |
| UnitReading.PpsUnitRead | h264_stream.c:799-804 | A unit of type 8 goes to the entry of the table with its number and to the current set; all other entries and fields stay. |
| UnitReading.OtherUnitRead | h264_stream.c:202-291 | Units that are neither sets nor slices leave the tables, the current sets and the slice header alone. |
| UnitReading.SliceUnitRead | h264_stream.c:973-980 | A slice is read against the picture set whose number its header names and the sequence set whose number stands in that set; the elements of section 7.3.3 stand in its bytes, and only the header and the current sets change. |
| UnitReading.TablesHoldLast | h264_stream.c:216-231 | After any run of units, every entry of the tables is the last set that was read with its number, or what was there before. |
| UnitReading.SliceInRun | h264_stream.c:973-980 | In every run of units, a slice that names picture set k is read against the last picture set with number k in front of it, and the last sequence set with the number in that set. |
| UnitReading.ReadAllIsLast | h264_stream.c:160-302 | Reading the units of a scan one after the other ends in the state of that run. |
| NalUnits.StreamRoundTrip | h264_stream.c:1491-1631 | For every list of units and any zero bytes between and behind them: written, framed, scanned and read, they give their contents in order, with their sizes as return values; the last one exactly when four zero bytes follow it. |
| NalUnits.FileRoundTrip | h264_analyzer.c:16-39 | The same through the refilled buffer, when the units fit it. |
| NalUnitIO.H264Stream.constructor | h264_nal.c:35-69 | A new stream has empty tables. |
| NalUnitIO.H264Stream.ReadNalUnit | h264_stream.c:160-302 | Unescapes, reads header and content by type, stores parameter sets in the tables, and returns the size or -1 (forbidden bytes, unhandled type, or a cursor past the end). A slice header that reaches the end of the payload leads outside the model. |
| NalUnitIO.H264Stream.WriteNalUnit | h264_stream.c:1491-1631 | Returns the length and fills the buffer with pad byte and escaped unit, or returns -1 exactly when the payload exceeds 3/4 of the size or the escaped unit exceeds the size. |
| NalUnitIO.H264Stream.OwnUnitReads | h264_stream.c:1491-1631 | Reading back the unit that is written for a stream leaves all its fields but the tables as they are. |
| Pocs.PrevIsSplit | dep_analyzer.c:260-284 | In every run with one modulus the previous high part stays a multiple of it and the previous low part stays below it. |
| Pocs.PocIsUnique | dep_analyzer.c:266-275 | A picture that is not IDR gets the one number in the half open window around the previous count that is congruent to its lsb. |
| Pocs.RecoveredIffNear | dep_analyzer.c:260-284 | Over runs of any length the true counts are recovered exactly when each lies in the window of the last reference picture, restarting from 0 behind each IDR picture. |
| Pocs.StandardPocIff | dep_analyzer.c:260-284 | In every run with one modulus all counts are those of section 8.2.1.1, operation 5 included, exactly when every IDR picture has an lsb in the first half of the modulus, and for every picture whose last reference picture is an IDR picture or has operation 5, the number that its lsb stands for around the restart of the standard is also near the previous count of the code. |
| Pocs.NearIdrIff | dep_analyzer.c:280-283 | Behind an IDR picture with lsb a the lsbs that stay with the standard are all but those up to a - m/2 and those from m/2 + 1 to a + m/2. |
| Pocs.RestartsAreForgotten | dep_analyzer.c:276-283 | Two runs that leave the standard: behind an IDR picture with lsb 6 the count of the code is -2 and that of the standard 14; behind operation 5 they are 14 and -2. |
| Pocs.ModuliCountIff | dep_analyzer.c:82-84 | In every run, all counts are those under the moduli of the sets that the pictures refer to exactly when for every picture that is not IDR the moduli agree, or its lsb is within half of the smaller modulus of the previous lsb. |
| Pocs.StandardPocTwoIff | dep_analyzer.c:285-287 | In every run with order count type 2 all counts are those of section 8.2.1.3 exactly when IDR pictures have frame_num 0, all others are reference pictures, and frame_num falls only at an IDR picture or behind operation 5. |
| Pocs.NonReferenceTies | dep_analyzer.c:285-287 | With type 2 a picture that is no reference and the reference picture behind it get one count, where the standard gives 1 and 2. |
| Pocs.OtherTypesCountUp | dep_analyzer.c:288 | With any other type, or without a modulus, pictures are counted in decoding order. |
| DisplayOrder.GlobalOrder | dep_analyzer.c:108-119 | Global counts order two pictures of any run by IDR period and local count, when both are late enough; pictures of the first period always are. |
| DisplayOrder.GlobalOrderIff | dep_analyzer.c:108-119 | In every run global counts order all pictures by period and local count exactly when no count behind the first period is below -1, apart from counts in the first IDR period to which all counts before it are closer than 2 from above. |
| DisplayOrder.LateFromIdr | dep_analyzer.c:110-111 | In a run that starts with an IDR picture that means: no count in a later period is below -1. |
| DisplayOrder.MinusTwoTies | dep_analyzer.c:110-111 | With a local count of -2 two pictures of different periods get the same global count. |
| Dpbs.BufferIsLatest | dep_analyzer.c:233-258 | After every run the buffer holds exactly one entry, with its decode_id and count, for each of the at most 16 latest frame_nums among reference pictures since the last IDR picture. |
| Dpbs.RefsByAge | dep_analyzer.c:233-258 | The list that stands for the buffer is in order of decoding, latest first. |
| Dpbs.Replaced | dep_analyzer.c:234-240 | Overwriting in place an entry with the same frame_num is what the list does. |
| Dpbs.Evicted | dep_analyzer.c:243-251 | Overwriting the entry with the lowest decode_id by the last one leaves all but the oldest entry of the list. |
| StandardRefs.SlidesIff | dep_analyzer.c:233-258 | For one reference picture: exactly when the buffer changes as the sliding window of section 8.2.5.3 does. |
| StandardRefs.WindowIff | dep_analyzer.c:168-171 | In every run without marking commands the buffer is always the sliding window with num_ref_frames entries exactly when every reference picture finds in it what makes both do the same. |
| StandardRefs.CountingUpSlides | dep_analyzer.c:168-171 | With 16 reference frames and frame_nums that count up modulo more than 16, the buffer is always the sliding window. |
| StandardRefs.WindowOfOne | dep_analyzer.c:168-171 | With one reference frame the window holds the second of two reference pictures, and the buffer holds both. |
| RefLists.PListIsClean | dep_analyzer.c:122-130 | A P picture names the first pictures by falling frame_num, none twice, as many as asked for or as there are. |
| RefLists.BListIsClean | dep_analyzer.c:131-163 | A B picture names no picture twice and only pictures in the buffer, never more than there are. |
| RefLists.PListMembers | dep_analyzer.c:122-130 | A P picture depends on exactly the entries for which fewer than num_ref_idx_l0 others have a higher frame_num, and names them by falling frame_num. |
| RefLists.BListMembers | dep_analyzer.c:131-163 | When the counts in the buffer differ, a B picture depends on exactly the entries that are among the first num_ref_idx_l0 of list 0 or the first num_ref_idx_l1 of list 1. |
| RefLists.PListIsOne | dep_analyzer.c:20-24 | The list of a P picture does not depend on how qsort orders equal elements. |
| StandardRefs.PListIsStandardIff | dep_analyzer.c:122-130 | The list of a P picture is that by falling PicNum of section 8.2.4.2.1 exactly when no entry has a frame_num above that of the picture while another has not. |
| StandardRefs.PDependsAsStandardIff | dep_analyzer.c:122-130 | The same in terms of the run: exactly when no two kept pictures have frame_nums on both sides of that of the picture. |
| StandardRefs.RoundDepends | dep_analyzer.c:122-130 | In a run of 34 pictures in which frame_num goes round modulo 32, the last picture names picture 31, where the standard names picture 32. |
| StandardRefs.BListIsStandardIff | dep_analyzer.c:131-163 | A B picture names the pictures of the lists of section 8.2.4.2.3 exactly unless several pictures are all on one side of it and each list has one entry, where the standard swaps the first two entries of list 1. |
| StandardRefs.BDependsAsStandardIff | dep_analyzer.c:131-163 | The same in every run in which the counts in the buffer differ. |
| StandardRefs.OneSidedDepends | dep_analyzer.c:131-163 | A B picture behind two reference pictures names the latter only, where list 1 of the standard has the former. |
| RefLists.ArrangedIsOne | dep_analyzer.c:27-36 | Nor does that of a B picture, when the counts in the buffer differ: past and future have one order. |
| DepAnalyzer.KindAgreesIff | dep_analyzer.c:103-106 | For non-IDR slices the analyser and the header reader agree on the kind of a slice exactly for the types below 10. |
| DepAnalyzer.DependsOnEarlier | dep_analyzer.c:121-164 | In every run every picture depends, without repetition, on at most 16 earlier reference pictures that are in the buffer, with no IDR picture between. |
| DepAnalyzer.PDependsOn | dep_analyzer.c:122-130 | In every run, a P picture depends on exactly those pictures in the buffer for which fewer than num_ref_idx_l0 others there have a higher frame_num. |
| DepAnalyzer.BDependsOn | dep_analyzer.c:131-163 | In every run, when the counts in the buffer differ, a B picture depends on exactly those pictures there that fewer than num_ref_idx_l0 others precede in list 0, or fewer than num_ref_idx_l1 in list 1. |
| DepAnalyzer.DisplayMap | dep_analyzer.c:182-187 | decode_to_display_map is a bijection from the decode_ids 0 to n - 1 onto 1 to n. |
| DepAnalyzer.SortedIsDisplayOrder | dep_analyzer.c:180 | When local counts differ within periods and all pictures are late enough, sorting by global count is sorting by IDR period and local count. |
| DepAnalyzer.CountsAreActiveIff | dep_analyzer.c:100-101 | The counts taken from a slice are the active counts of section 7.4.3 exactly when the header overrides them or the default of the set is one entry. |
| DepAnalyzer.ListedCountIff | dep_analyzer.c:100-130 | A P picture lists as many pictures as its active count and the buffer allow exactly when the header overrides the count, the default is one entry, or the buffer holds at most one picture. |
| RefLists.MergedCount | dep_analyzer.c:131-163 | How many pictures a B picture names: of the past and of the rest as many as either list reaches. |
| DepAnalyzer.ListedCountsIff | dep_analyzer.c:100-163 | A B picture names as many pictures as with its active counts exactly when the header overrides them or one entry in each list reaches as many. |
| DepAnalyzer.ModulusIff | dep_analyzer.c:82-84 | After any units, the modulus is that of the set which a picture refers to exactly when the last set read with order count type 0 has the same log2_max_pic_order_cnt_lsb. |
| Departures.TwoSetsSeen | dep_analyzer.c:73-173 | Seven concrete units, two sequence parameter sets among them, show the analyser four pictures, all with the modulus of the set to which none refers. |
| Departures.TwoSetsCount | dep_analyzer.c:82-84 | The last of these pictures gets the count 2, where the modulus of the set that it refers to gives 18. |
| Departures.TwoSetsDepend | dep_analyzer.c:100-130 | The third of them lists one of the two pictures in the buffer, although the default that its header does not override is two. |
| DepAnalyzer.PrintedAreDisplayed | dep_analyzer.c:208-210 | Every printed dependency is the display number of the frame that is meant. |
| DepAnalyzer.LineIsAbout | dep_analyzer.c:190-219 | The line of a frame has its display number, its kind, and in rising order the display numbers of exactly the frames that it depends on. |
| SeenPictures.UnitShows | dep_analyzer.c:73-106 | A unit shows the analyser a picture exactly when its type is 1 or 5 and its first number is 0; only a sequence set with order count type 0 that was read to its end changes the modulus. |
| SeenPictures.PictureInRun | dep_analyzer.c:73-106 | In every run of units the pictures are those of the units that begin with the first macroblock, in order. Each is IDR when its first byte modulo 32 is 5, a reference when the two bits above are not 0, and takes its other fields from its header, which is read against the last sets with the numbers that it leads to. |
| SeenPictures.EmptyTables | h264_nal.c:35-69 | A new stream has room for 32 sequence sets and 256 picture sets, all of whose fields are 0. |
| DependenceAnalyses.DependenceAnalysis.constructor | dep_analyzer.c:40-61 | A new analyser has an empty history. |
| DependenceAnalyses.DependenceAnalysis.CalculatePoc | dep_analyzer.c:260-289 | Computes the count and the new previous count, with the fallbacks for other order count types and for a missing modulus. |
| DependenceAnalyses.DependenceAnalysis.CountPicture | dep_analyzer.c:108-119 | An IDR picture moves the offset past all counts so far and clears the buffer; the highest count is kept up to date. |
| DependenceAnalyses.DependenceAnalysis.PDependencies | dep_analyzer.c:122-130 | The first entries by falling frame_num, for any order that qsort may give. |
| DependenceAnalyses.DependenceAnalysis.BDependencies | dep_analyzer.c:131-164 | The first of past and future, then what is new among the first of future and past. |
| DependenceAnalyses.DependenceAnalysis.UpdateDpb | dep_analyzer.c:233-258 | The array, in some order, holds the entries of the list with the new picture added. |
| DependenceAnalyses.DependenceAnalysis.AddPicture | dep_analyzer.c:91-172 | Every field and every logged frame stay what the history of pictures says. |
| DependenceAnalyses.DependenceAnalysis.ProcessNal | dep_analyzer.c:73-173 | A unit changes the modulus or adds one picture to the history, or nothing when it is not read; the modulus is always the one that all units so far determine, and the state stays consistent. |
| DependenceAnalyses.DependenceAnalysis.ReportResults | dep_analyzer.c:176-222 | Sorts the frames by global count and gives one line for each, with the sorted display numbers of its dependencies. |
| DepAnalyzerMain.Analyze | dep_analyzer_main.c:46-62 | The units that the scan of the file returns make the history, one after the other, and the report is about that history. |
| Sorting.OneOrder | dep_analyzer.c:13-36 | Without equal keys there is only one sorted order, so that nothing depends on how qsort works. |

## Left out

- Slice data: after a slice header the rest of the unit is copied aside and, when written, not put into the buffer; the model ends at the header, and writing slices is modelled for the header only.
- NalUnitIO.H264Stream.ReadNalUnit: behind a slice header that reaches the end of the payload the source takes a negative size for the slice data (h264_stream.c:894-898); the model says that the unit leads outside.
- SVC: prefix units, subset parameter sets, scalable slice headers and the scalability message (type 24) lead outside the model; `ReadNalUnit` says so in its result.
- Numbers outside the tables: a set id of 32 or more, or a picture set id of 256 or more, indexes past a table in the source; the model says that the unit leads outside.
- Fixed-size arrays inside structures (cycle offsets, HRD entries, slice groups, command lists) are sequences, so that counts beyond their sizes do not overflow them.
- Flags are booleans, and a flag with the fields that it makes present is an `Option`; values that are kept in fields which are not sent are not represented.
- Exponential codes: writing is modelled up to 65534 (signed: 32767), where the shifts of the source are defined; the wrap-around of 32-bit numbers behind 32 leading zeros is not modelled, numbers are unbounded, also in shifts like that of the order count modulus.
- NalBytes.RbspToNal: the returned numbers are unbounded, so that nothing is said about sizes beyond the range of a C int.
- AnnexB.FindNalUnit: the bytes that the search reads behind its data are modelled as seven arbitrary bytes of the array.
- FileScan.AnalyzeFile: the file is a byte string, a read fills the buffer unless the file ends, and the callback is a list of what it was given.
- NalUnitIO.H264Stream.WriteNalUnit: slices and units of other annexes are excluded, because the source does not put slice data into the buffer.
- DependenceAnalyses.DependenceAnalysis.ProcessNal: a unit that leads outside the model leaves a consistent state about which no more is said.
- DependenceAnalyses.DependenceAnalysis.ReportResults: printing is a list of lines.
- Sorting.QSort: the library function is an insertion of which callers know only that it sorts.
- The overflow of differences in comparison functions, allocation and its failures, and growing arrays.
- Pocs.StandardPocIff: the count of the standard is that of a field, or of the top field of a frame; the lsb that counts behind operation 5 is required to be below the modulus.
- StandardRefs.WindowIff: marking commands, long-term references, fields and gaps in frame_num, none of which the analyser looks at, are not part of the window and of the lists.
- StandardRefs.BListIsStandardIff: the counts in the lists are the global ones, which order pictures like the counts of the standard when the display order holds.
- Picture order count type 1 as the standard defines it: the code returns the number of the picture in decoding order, and so does the model.
- Pocs.StandardPocTwoIff: the count of the standard is that of the picture when it is decoded, also with operation 5.
- `HAVE_SEI` is not defined in a default build; the class `H264Stream` has a constant for it.
- Filler data, byte string reads and writes, `peek_nal_unit`, the decoder configuration record (`h264_avcc.c`), the debug readers, the command line tools and the user interface.
