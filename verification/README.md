# LinDeX in Dafny

A model of the parts of LinDeX whose correctness spans functions, loops or whole runs, with proofs. LinDeX lets
Linux programs use an Android device's display and hardware codecs: a VA-API driver turns decode and encode
requests into messages for a broker around MediaCodec, and a bridge rewrites what the DRM driver advertises and hands
display leases over. `dafny verify dfyconfig.toml` checks everything.

What is modelled, and the main results:

* **H.264 and H.265 parameter sets and slice headers.** `BitIo` holds the bit writer and reader as classes over byte
  arrays; `Syntax` the standards' syntax elements as bit strings; `AnnexB` emulation prevention and NAL units. The
  straight-line chains of writes in the source are lists of syntax elements walked by `BitIo.BitWriter.Write`.
  `H264Config` and `HevcConfig` compile parameters, `H264Reader` and `HevcReader` are readers written from the syntax
  tables of ITU-T H.264 (sections 7.3.2.1.1, 7.3.2.2 and E.1.1) and ITU-T H.265 (sections 7.3.2.1 to 7.3.2.3), and the two
  are proved inverse, down to the picture size a decoder would show; the runtime's split of a configuration into SPS and
  PPS is exact; the slice parsers invert section 7.3.3 of H.264 and section 7.3.6.1 of H.265 and refuse everything else.
* **AV1.** `Av1Obu` defines both OBU framings as functions on bytes, `Av1Parse` the source's loops over a mutable parse
  state, `Av1Unit` the tile check and the whole build. `Av1Wire` writes both framings as section 5.3 and Annex B of the AV1
  specification do and states the accepted order of OBUs as a grammar: the parsers accept exactly what is so written in
  that order, and read exactly what was written. The Annex B rewriting preserves meaning and never grows; an accepted
  tile list is an exact cover.
* **Encode runtime.** `EncodeRuntime.Runtime` is a class over the slot tables. Every public call keeps the links between
  contexts, surfaces and coded buffers consistent (`EncodeLinks`), in a session without failed pictures the outputs that
  were not lost go to the pictures in order (`EncodeFifo`), and teardown under any broker behaviour leaves nothing
  pending and follows the end-of-stream protocol (`EncodeEos`). Every request to the broker is an operation that puts
  itself on record. `Run` states this over every sequence of calls, that no session's history is rewritten, and that a
  session stays the same one unless its context is destroyed.
* **Decode runtime.** `DecodeRuntime.Runtime` covers picture submission for three codecs, draining, and the private
  end-of-stream machine. `DecodeLog` says what the broker is ever offered and accepts, `DecodeState` what holds between
  calls and what becomes of every lease until a surface holds it, `LeaseLedger` what becomes of it from then on. `Run` states, over every sequence of calls, the invariant, the rules of every
  log, that complete, failed and ended sessions stay so until a call destroys them, that nothing but the end of the
  stream is offered to a session once that has been requested, and that every attached lease is held or has ended once.
* **DRM.** `InFormats` reads and rewrites the IN_FORMATS blob at byte level and proves what the rewritten bytes denote,
  `BlobWire` writes such blobs from tables and proves what the reader makes of them;
  `LeaseList` is the printed, parsed and compared list of leased objects.

Brokers, fences, clocks, allocators and environment gates are nondeterministic choices inside the methods, or
parameters, so every claim holds whatever they answer. Each public call of the runtimes holds one mutex, so a method is
one atomic step; the decode runtime's begin-picture, which lets go of the mutex to wait, is the two methods
`BeginPicture` and `ResumePicture`, and its sync loop is the step `SyncStep`.

Places where the code does not do what one might expect, with the exact condition proved:

* One-bit flags are written by their lowest bit but tested as numbers, so a flag that is even and not zero is lost, and
  where it announces further fields the set no longer reads back at all. A parameter set reads back as given exactly when
  no such flag occurs (`H264Reader.SpsReadsBack`, `H264Reader.PpsReadsBack`, `HevcReader.ConfigReadsBack`; at an input:
  `H264Reader.EvenFlagsAreLost`, `HevcReader.EvenFlagIsLost`).
* An HEVC session's first accepted access unit need not be an IRAP picture: `configured` is set when the configuration is
  accepted, before the access unit is. Before any access unit has been accepted, a picture that is not an IRAP picture
  can go out exactly when its configuration is the remembered one (`DecodeRuntime.Runtime.EndHevc`), which is so exactly
  when that configuration was accepted and its own access unit and all others were refused
  (`DecodeState.HevcOpenToOthers`); `DecodeWitness.StartsWithoutIrap` is such a run, for every set of parameters.
* A fence that is late during a sync loses the output just received and leaves its surface pending. From then on each
  output goes to an earlier picture: output k reaches picture k exactly when none of the outputs up to k was lost
  (`EncodeFifo.OutputReachesItsPicture`; a run: `EncodeWitness.LateFence`).
* Destroying a list of surfaces looks each one up a second time, and a repeated id is gone by then; both runtimes use the
  missing result all the same. This happens exactly when every id may be destroyed and one is repeated
  (`EncodeRuntime.Runtime.DestroySurfaces`, `DecodeRuntime.Runtime.DestroySurfaces`). The model ends the call, and the
  run, there.
* A decoded output is released twice exactly when it was copied and its fenced release refused
  (`DecodeState.EveryLeaseIsSettled`; a run: `DecodeWitness.ReleasedTwice`).
* A lease a surface holds is overwritten, or returned to the wrong session, when another context's picture is queued on
  that surface meanwhile. It goes back to the context the surface waited for exactly when it is returned and no other
  context's picture was the last one queued there (`LeaseLedger.GoesHome`; runs: `DecodeWitness.Overwrites`,
  `DecodeWitness.GoesAstray`).
* The decode runtime matches surfaces by the broker's session number, which each connection assigns on its own. The
  timestamps keep matching exact all the same (`DecodeState.TimestampsAreUnique`), but the end of one stream fails every
  pending surface with that session number, including another context's (`DecodeRuntime.Runtime.MarkRemaining`; a run:
  `DecodeWitness.FailsAnother`).

## Model

| member | source | states |
|---|---|---|
| `SyntaxElements.UeInverts` | src/vaapi_advc/advc_h264_annexb.c:196-220 | reading an unsigned Exp-Golomb code gives the number back, whatever follows, exactly for 0..2^32-2, and fails for larger numbers |
| `SyntaxElements.SeInverts` | src/vaapi_advc/advc_h264_annexb.c:239-249 | the same for signed codes, exactly for int32 without its minimum |
| `SyntaxElements.FirstCodes` | src/vaapi_advc/advc_h264_annexb.c:52-74 | the first codes and signed values, bit by bit, are those of tables 9-2 and 9-3 of ITU-T H.264 |
| `BitIo.BitWriter.PutBit` | src/vaapi_advc/advc_h264_annexb.c:21-35 | appends the low bit in place, or changes nothing when the buffer is full |
| `BitIo.BitWriter.PutBits` | src/vaapi_advc/advc_h264_annexb.c:37-50 | appends the field most significant bit first; succeeds exactly when the width is allowed and the bits fit |
| `BitIo.BitWriter.PutUe` | src/vaapi_advc/advc_h264_annexb.c:52-61 | appends the Exp-Golomb code of the value; exact condition for failure, which for 32-bit fields includes 2^32-1 |
| `BitIo.BitWriter.PutSe` | src/vaapi_advc/advc_h264_annexb.c:63-74 | appends the signed code; fails only at the minimum of int32 or without room |
| `BitIo.BitWriter.FinishRbsp` | src/vaapi_advc/advc_h264_annexb.c:76-81 | appends the stop bit and alignment zeros and ends on a byte boundary |
| `BitIo.BitWriter.Write` | src/vaapi_advc/advc_h264_annexb.c:388-487 | a chain of writes appends the bit string of its syntax, succeeding exactly when every element is writable and the whole fits |
| `BitIo.BitReader.ReadBit` | src/vaapi_advc/advc_h264_annexb.c:180-194 | takes the next bit, or reports the end and changes nothing |
| `BitIo.BitReader.ReadBits` | src/vaapi_advc/advc_h264_annexb.c:222-237 | takes a fixed-width field as the bit-string reader does |
| `BitIo.BitReader.ReadUe` | src/vaapi_advc/advc_h264_annexb.c:196-220 | takes an Exp-Golomb code as the bit-string reader does, refusing more than 31 leading zeros |
| `BitIo.BitReader.ReadSe` | src/vaapi_advc/advc_h264_annexb.c:239-249 | takes a signed code as the bit-string reader does |
| `AnnexB.UnescapeInverts` | src/vaapi_advc/advc_h264_annexb.c:106-125 | removing emulation prevention undoes adding it, for every byte string |
| `AnnexB.EscapeHasNoEmulation` | src/vaapi_advc/advc_h264_annexb.c:106-125 | no escaped payload holds two zero bytes followed by 0, 1 or 2 |
| `AnnexB.EscapeSize` | src/vaapi_advc/advc_h264_annexb.c:106-125 | escaping grows a payload by at most half |
| `AnnexB.AppendNal` | src/vaapi_advc/advc_h264_annexb.c:83-127 | start code, header and escaped payload are appended in place exactly when they fit |
| `AnnexB.UnescapeInto` | src/vaapi_advc/advc_h264_annexb.c:159-177 | the reader's loop yields the unescaped bytes up to its buffer's size |
| `AnnexB.FirstNalSize` | src/vaapi_advc/advc_vaapi_decode_runtime.c:532-542 | the first start code at or after index 4, or 0 if there is none |
| `AnnexB.NoInnerStartCode` | src/vaapi_advc/advc_h264_annexb.c:83-127 | a NAL unit whose payload ends in a nonzero byte holds no start code but its own, even one running into what follows |
| `AnnexB.RbspEndsNonzero` | src/vaapi_advc/advc_h264_annexb.c:76-81 | every compiled payload ends in a nonzero byte |
| `AnnexB.Compile` | src/vaapi_advc/advc_h264_annexb.c:412-478 | the payload bits of a syntax list are produced exactly when they fit the capacity |
| `H264Config.ConfigFits` | src/vaapi_advc/advc_h264_annexb.c:388-487 | for every accepted input the SPS and PPS together stay within 1024 bytes |
| `H264Config.BuildCodecConfig` | src/vaapi_advc/advc_h264_annexb.c:338-487 | succeeds exactly for supported parameters and ids up to 255, and the bytes are the SPS NAL unit followed by the PPS NAL unit |
| `H264Reader.SpsReadsBack` | src/vaapi_advc/advc_h264_annexb.c:412-460 | the standard's SPS reader recovers every field as given, exactly when no one-bit field is even and nonzero |
| `H264Reader.SpsShowsPicture` | src/vaapi_advc/advc_h264_annexb.c:406-434 | whenever the SPS can be read, its macroblocks less the crop it announces, or none, are exactly the visible width and height |
| `H264Reader.PpsReadsBack` | src/vaapi_advc/advc_h264_annexb.c:462-478 | the standard's PPS reader accepts every supported PPS and recovers every field as given exactly when no one-bit field is even and nonzero |
| `H264Reader.EvenFlagsAreLost` | src/vaapi_advc/advc_h264_annexb.c:412-478 | parameters with such fields that the compiler accepts and neither reader gives back |
| `H264Split.SplitIsExact` | src/vaapi_advc/advc_vaapi_decode_runtime.c:532-542 | the scan for a second start code finds exactly the end of the SPS in every built configuration |
| `H264Split.ReadBack` | src/vaapi_advc/advc_h264_annexb.c:388-487 | build, split and read: the two NAL units carry types 7 and 8, each set comes back as given exactly under its condition on one-bit fields, and the SPS shows the visible picture |
| `H264Split.SequenceUnchanged` | src/vaapi_advc/advc_vaapi_decode_runtime.c:2360-2375 | the test for a change outside an IDR picture accepts exactly byte-identical SPS NAL units |
| `H264Split.SameBytesSameSequence` | src/vaapi_advc/advc_vaapi_decode_runtime.c:2360-2375 | byte-identical SPS NAL units are exactly those with the same fields, among parameters that read back |
| `H264Slice.InitSliceReader` | src/vaapi_advc/advc_h264_annexb.c:138-178 | opens exactly the NAL units the specification opens, with the same bits remaining |
| `H264Slice.ParseSliceIdentity` | src/vaapi_advc/advc_h264_annexb.c:251-270 | computes the identity the bit-string parser defines, on every input |
| `H264Slice.ParseReferenceOverride` | src/vaapi_advc/advc_h264_annexb.c:272-336 | computes the override the bit-string parser defines, on every input |
| `H264Slice.SliceHeaderInverts` | src/vaapi_advc/advc_h264_annexb.c:138-336 | for every header byte and every header written by the standard, behind any start code and before any further data, both parsers return what was written when the byte announces a slice and the fields are in range, and nothing otherwise |
| `H264Slice.OthersRefused` | src/vaapi_advc/advc_h264_annexb.c:138-178 | a NAL unit whose header byte is forbidden or of another type is refused by both parsers |
| `HevcConfig.TilesFit` | src/vaapi_advc/advc_vaapi_decode_hevc.c:337-355 | the early-exit sum accepts exactly when the tile sizes leave room for the last tile |
| `HevcConfig.Validate` | src/vaapi_advc/advc_vaapi_decode_hevc.c:262-357 | accepts exactly the supported parameters |
| `HevcConfig.ConfigFits` | src/vaapi_advc/advc_vaapi_decode_hevc.c:359-501 | for every accepted input VPS, SPS and PPS together stay within 2048 bytes |
| `HevcConfig.BuildCodecConfig` | src/vaapi_advc/advc_vaapi_decode_hevc.c:359-501 | succeeds exactly for supported parameters and ids up to 63, and the bytes are the three NAL units in order |
| `HevcReader.ReadsPps` | src/vaapi_advc/advc_vaapi_decode_hevc.c:435-490 | the standard's PPS reader recovers every field as given, exactly when no one-bit field is even and nonzero |
| `HevcReader.ConfigReadsBack` | src/vaapi_advc/advc_vaapi_decode_hevc.c:359-501 | readers of the standard find NAL units of types 32, 33 and 34 and recover the VPS always, and the SPS and the PPS exactly when none of their one-bit fields is even and nonzero; the SPS shows the visible picture |
| `HevcReader.SpsShowsPicture` | src/vaapi_advc/advc_vaapi_decode_hevc.c:379-432 | whenever the SPS can be read, its coded size less its conformance window, or none, is exactly the visible width and height |
| `HevcReader.EvenFlagIsLost` | src/vaapi_advc/advc_vaapi_decode_hevc.c:435-490 | parameters with a sign-data-hiding flag of 2 that the compiler accepts and whose PPS does not come back |
| `HevcSlice.ParseSliceIdentity` | src/vaapi_advc/advc_vaapi_decode_hevc.c:234-260 | computes the identity the bit-string parser defines, on every input |
| `HevcSlice.IdentityInverts` | src/vaapi_advc/advc_vaapi_decode_hevc.c:144-260 | for every NAL unit header and every slice segment start, with the extra flag written for types 16 to 23, the parser returns what was written exactly when the header is that of a slice segment of the base layer and the id is at most 63, and nothing otherwise |
| `AccessUnit.CopyNals` | src/vaapi_advc/advc_h264_annexb.c:536-550 | the copying pass fills exactly the buffer the sizing pass computed |
| `AccessUnit.BuildH264` | src/vaapi_advc/advc_h264_annexb.c:489-554 | accepts exactly matching slices of one PPS that fit one input, and joins them with four-byte start codes |
| `AccessUnit.BuildHevc` | src/vaapi_advc/advc_vaapi_decode_hevc.c:503-574 | accepts exactly matching slice segments of one PPS with one first and one last, and joins them; it is a random access point exactly when some segment's header byte holds a type from 16 to 23 |
| `AccessUnit.NormalizedAt` | src/vaapi_advc/advc_vaapi_decode_hevc.c:536-571 | every slice stands in the joined unit, whole, behind a four-byte start code and after all earlier ones |
| `AccessUnit.NormalKeepsIdentity` | src/vaapi_advc/advc_h264_annexb.c:129-136 | replacing a start code does not change what the slice parsers see |
| `Leb128.Read` | src/vaapi_advc/advc_vaapi_decode_av1.c:62-90 | the shift-and-or loop decodes at most eight bytes of seven bits each |
| `Leb128.Size` | src/vaapi_advc/advc_vaapi_decode_av1.c:92-99 | the length of the code the writer produces |
| `Leb128.Write` | src/vaapi_advc/advc_vaapi_decode_av1.c:101-110 | writes exactly that code in place and touches nothing else |
| `Leb128.DecodeInverts` | src/vaapi_advc/advc_vaapi_decode_av1.c:62-110 | a written code reads back, whatever follows |
| `Leb128.DecodeIsNoShorter` | src/vaapi_advc/advc_vaapi_decode_av1.c:62-110 | no accepted code is shorter than the one the writer would produce for its value |
| `Av1Parse.ParseState.ObserveObu` | src/vaapi_advc/advc_vaapi_decode_av1.c:271-344 | updates flags, counters and payload spans as the order rules say, and fails exactly when they do; `Av1Wire.ObserveFollows` says what they are |
| `Av1Parse.ReadObu` | src/vaapi_advc/advc_vaapi_decode_av1.c:112-170 | the header, extension and size fields are read step by step as `ParseObu` reads them, which `Av1Wire.ObuReads` and `Av1Wire.ObuWritten` tie to what is written |
| `Av1Parse.ParseRawObus` | src/vaapi_advc/advc_vaapi_decode_av1.c:355-382 | accepts exactly the low-overhead units of the specification, with the same final state |
| `Av1Parse.WriteObu` | src/vaapi_advc/advc_vaapi_decode_av1.c:434-448 | writes one rewritten OBU in place |
| `Av1Parse.ObuLoop` | src/vaapi_advc/advc_vaapi_decode_av1.c:404-455 | sizing and writing pass agree byte for byte; the size guard never fires; fails on a good unit only if the output is too small |
| `Av1Parse.ParseAnnexBUnit` | src/vaapi_advc/advc_vaapi_decode_av1.c:384-455 | accepts exactly the Annex B units of the specification and writes exactly the rewriting of their OBUs, no longer than the input |
| `Av1Wire.ObuReads` | src/vaapi_advc/advc_vaapi_decode_av1.c:112-170 | an OBU written by section 5.3 of the AV1 specification, with any size field that denotes the length of its payload or, in Annex B, none, is read as that OBU |
| `Av1Wire.ObuWritten` | src/vaapi_advc/advc_vaapi_decode_av1.c:112-170 | whatever is read as an OBU was so written |
| `Av1Wire.AnnexBReads` | src/vaapi_advc/advc_vaapi_decode_av1.c:404-420 | the next OBU of an Annex B frame unit is the one written, with its place, whatever follows |
| `Av1Wire.RawReads` | src/vaapi_advc/advc_vaapi_decode_av1.c:355-375 | the next OBU of low-overhead input is the one written, with its place, whatever follows |
| `Av1Wire.ObserveFollows` | src/vaapi_advc/advc_vaapi_decode_av1.c:207-344 | one step of the order rules is one step of a grammar: headers with at most one sequence header, then a frame and padding or a frame header and up to 512 tile groups and padding, 1024 OBUs in all, the first bits of the sequence header and the frame agreeing with the picture |
| `Av1Wire.LawfulSnoc` | src/vaapi_advc/advc_vaapi_decode_av1.c:271-344 | that grammar, stated of whole lists, grows by exactly these steps |
| `Av1Wire.FinishedIsLawful` | src/vaapi_advc/advc_vaapi_decode_av1.c:346-353 | a list is complete exactly when it has a frame, or a frame header and a tile group |
| `Av1Wire.UnitReads` | src/vaapi_advc/advc_vaapi_decode_av1.c:384-455 | a temporal unit of Annex B is read as exactly the OBUs it was written from, their tile payloads exactly where they were written, if their order is lawful, and refused otherwise |
| `Av1Wire.UnitAccepted` | src/vaapi_advc/advc_vaapi_decode_av1.c:384-455 | Annex B input is accepted exactly when it is a temporal unit of one frame unit whose OBUs are in a lawful order |
| `Av1Wire.StreamReads` | src/vaapi_advc/advc_vaapi_decode_av1.c:355-382 | the same for low-overhead input: the OBUs written, where they were written, or refused for their order |
| `Av1Wire.StreamAccepted` | src/vaapi_advc/advc_vaapi_decode_av1.c:355-382 | low-overhead input is accepted exactly when it is OBUs with their sizes in a lawful order |
| `Av1Obu.RewrittenReadsBack` | src/vaapi_advc/advc_vaapi_decode_av1.c:112-170 | one rewritten OBU reads back with the same type, extension and payload |
| `Av1Obu.RewritePreserves` | src/vaapi_advc/advc_vaapi_decode_av1.c:271-455 | whatever the Annex B loop accepts, its rewriting is accepted by the raw loop with the same OBUs and the same state up to positions |
| `Av1Unit.AnnexBRewrites` | src/vaapi_advc/advc_vaapi_decode_av1.c:384-455 | a whole accepted unit: same OBUs, same flags and counts, and at most the input length less the two outer length fields |
| `Av1Unit.ValidateTiles` | src/vaapi_advc/advc_vaapi_decode_av1.c:487-543 | accepts exactly the tile lists that are complete, in range, without repeats, contained in a payload and pairwise disjoint |
| `Av1Unit.TilesExactly` | src/vaapi_advc/advc_vaapi_decode_av1.c:487-543 | the accepted lists in terms of rows, columns and bytes: as many as the grid, each at a place of it and within one payload, no two at one place or with a byte in common |
| `Av1Unit.ExactCover` | src/vaapi_advc/advc_vaapi_decode_av1.c:487-543 | in an accepted list every row and column occurs exactly once |
| `Av1Unit.TilesLieInPayloads` | src/vaapi_advc/advc_vaapi_decode_av1.c:303-326 | each accepted tile lies in exactly one span, and that span is the payload of a FRAME or TILE_GROUP OBU |
| `Av1Unit.BuildAccessUnit` | src/vaapi_advc/advc_vaapi_decode_av1.c:545-623 | accepts exactly units of one framing and not the other with valid tiles; the bytes handed on say what the input said |
| `Av1Unit.HandedOn` | src/vaapi_advc/advc_vaapi_decode_av1.c:545-623 | a temporal unit that is built is handed on as exactly the OBUs it was written from, each with its size |
| `SlotIds.IdsRoundTrip` | src/vaapi_advc/advc_vaapi_encode_runtime.c:152-164 | an id names its own slot and no other |
| `SlotIds.SlotIsMasked` | src/vaapi_advc/advc_vaapi_encode_runtime.c:156-164 | the slot test is the one on the type and index parts of the id |
| `EncodeLinks.FrameTime` | src/vaapi_advc/advc_vaapi_encode_runtime.c:1452-1456 | frame i at f frames in a thousand seconds gets the time t with t*f <= i*10^12 < (t+1)*f, and none exactly when f is zero or i*10^12 exceeds 64 bits |
| `EncodeLinks.MediaTime` | src/vaapi_advc/advc_vaapi_encode_runtime.c:351-353 | the timestamp on an output is the picture's in whole microseconds |
| `EncodeLinks.TimesIncrease` | src/vaapi_advc/advc_vaapi_encode_runtime.c:1452-1456 | at every rate from 1 to 240 frames a second later frames have later times, even in whole microseconds |
| `EncodeLinks.PendingIsServed` | src/vaapi_advc/advc_vaapi_encode_runtime.c:401-407 | a pending surface has a live context, an open session, a positive count and a coded buffer, so the orphan branch is unreachable |
| `EncodeLinks.PairsAreUnique` | src/vaapi_advc/advc_vaapi_encode_runtime.c:1703-1708 | no two pending surfaces share a coded buffer |
| `EncodeFifo.OldestIsNext` | src/vaapi_advc/advc_vaapi_encode_runtime.c:355-371 | in a session without failed pictures the oldest pending surface is the first undelivered picture's |
| `EncodeFifo.OutputsMatchPictures` | src/vaapi_advc/advc_vaapi_encode_runtime.c:408-515 | without failed pictures, the k-th output not lost is in the k-th picture's buffer with that picture's time in whole microseconds, and that time is t with t*f <= i*10^12 < (t+1)*f for its frame number i and the session's rate f |
| `EncodeFifo.OutputReachesItsPicture` | src/vaapi_advc/advc_vaapi_encode_runtime.c:408-515 | output k itself goes to picture k, its buffer and its time in whole microseconds, exactly when none of the outputs up to k was lost |
| `EncodeWitness.LateFence` | src/vaapi_advc/advc_vaapi_encode_runtime.c:420-497 | two pictures, the first output lost to a late fence: the second picture's output is stored for the first |
| `EncodeFifo.TimestampsIncrease` | src/vaapi_advc/advc_vaapi_encode_runtime.c:1662-1713 | the timestamps of one session strictly increase, even as truncated |
| `EncodeEos.TraceShape` | src/vaapi_advc/advc_vaapi_encode_eos.c:7-70 | in every run of the protocol only the first event signals, nothing follows the end or the fail-closed call, and nothing else follows a failure |
| `EncodeEos.StateStep` | src/vaapi_advc/advc_vaapi_encode_eos.c:7-70 | the flags the code keeps are a function of the trace |
| `EncodeRuntime.Runtime.FindOldest` | src/vaapi_advc/advc_vaapi_encode_runtime.c:355-371 | a pending surface of the context with the least submission number, or none if there is none |
| `EncodeRuntime.Runtime.MarkPendingError` | src/vaapi_advc/advc_vaapi_encode_runtime.c:373-390 | exactly the context's pending surfaces fail, their buffers are freed and the count is zero |
| `EncodeRuntime.Runtime.Deliver` | src/vaapi_advc/advc_vaapi_encode_runtime.c:481-497 | the output is stored with the picture's timestamp and the pair is undone |
| `EncodeRuntime.Runtime.CloseFrameSession` | src/vaapi_advc/advc_vaapi_encode_runtime.c:505-516 | the session closes and exactly its registrations are dropped |
| `EncodeRuntime.Runtime.Receive` | src/vaapi_advc/advc_vaapi_encode_runtime.c:411-419 | an output that comes is on record at once, and no other may be received before it has met its fate |
| `EncodeRuntime.Runtime.CloseOutput` | src/vaapi_advc/advc_vaapi_encode_runtime.c:423-479 | an output in hand is lost to a late fence, or discarded once its pictures have failed or when none is waiting |
| `EncodeRuntime.Runtime.SubmitInput` | src/vaapi_advc/advc_vaapi_encode_runtime.c:1662-1675 | a picture the broker took is on record, and no other may be offered before it is matched to a job |
| `EncodeRuntime.Runtime.Absorb` | src/vaapi_advc/advc_vaapi_encode_runtime.c:420-516 | one received output completes the oldest picture, or is lost with its surface still pending, or everything in flight fails; its fate tells which |
| `EncodeRuntime.Runtime.ReceiveOne` | src/vaapi_advc/advc_vaapi_encode_runtime.c:408-497 | one request, at most one output, and the fate the result tells |
| `EncodeRuntime.Runtime.SyncLocked` | src/vaapi_advc/advc_vaapi_encode_runtime.c:392-519 | success exactly when the surface is completed and its buffer holds a fitting output with its timestamp; time-out exactly when it is still pending; otherwise nothing is in flight |
| `EncodeRuntime.Runtime.EosFinish` | src/vaapi_advc/advc_vaapi_encode_eos.c:20-70 | signals at most once and never signals or drains after a failure or the end; ends at the end of stream or failed closed, reports which, and does nothing on a later call |
| `EncodeRuntime.Runtime.SendSignal` | src/vaapi_advc/advc_vaapi_encode_runtime.c:680-684 | the signal is on record with its answer, and may only be the first event |
| `EncodeRuntime.Runtime.FailPending` | src/vaapi_advc/advc_vaapi_encode_runtime.c:736-739 | the fail-closed callback is on record, may only follow a signal or a drain that was not the end, and leaves nothing in flight |
| `EncodeRuntime.Runtime.FailOnce` | src/vaapi_advc/advc_vaapi_encode_eos.c:7-18 | the callback is made the first time only |
| `EncodeRuntime.Runtime.DrainOnce` | src/vaapi_advc/advc_vaapi_encode_runtime.c:693-734 | the drain is on record with its answer, and may only follow a successful signal or a drain that found more; a picture was completed, or the end was seen with nothing pending, or it failed |
| `EncodeRuntime.Runtime.DrainLast` | src/vaapi_advc/advc_vaapi_encode_runtime.c:716-731 | with nothing in flight only the end of the stream is accepted, and what was received is on record as discarded |
| `EncodeRuntime.Runtime.DrainFrameSession` | src/vaapi_advc/advc_vaapi_encode_runtime.c:741-773 | nothing is pending afterwards |
| `EncodeRuntime.Runtime.FinishContext` | src/vaapi_advc/advc_vaapi_encode_runtime.c:775-800 | nothing is pending afterwards, whatever the broker did |
| `EncodeRuntime.Runtime.CloseContext` | src/vaapi_advc/advc_vaapi_encode_runtime.c:632-659 | the context lets go of every surface it owns, unregistered, and its slot is cleared |
| `EncodeRuntime.Runtime.DestroyContext` | src/vaapi_advc/advc_vaapi_encode_runtime.c:1200-1215 | no surface is owned by it, none of its former surfaces is pending or registered, no coded buffer names one, and the protocol was followed to its end |
| `EncodeRuntime.Runtime.CreateContext` | src/vaapi_advc/advc_vaapi_encode_runtime.c:1139-1198 | fills one free slot, or changes nothing |
| `EncodeRuntime.Runtime.CreateSurfaces` | src/vaapi_advc/advc_vaapi_encode_runtime.c:926-1041 | all the surfaces asked for in slots that were free, with distinct ids, or none at all |
| `EncodeRuntime.Runtime.DestroySurfaces` | src/vaapi_advc/advc_vaapi_encode_runtime.c:1043-1074 | all of them exactly when none is unknown, pending or registered and none is repeated; a missing lookup exactly when only the last fails; otherwise nothing changes |
| `EncodeRuntime.Runtime.DestroyTwice` | src/vaapi_advc/advc_vaapi_encode_runtime.c:1043-1074 | a surface named twice ends in the missing lookup |
| `EncodeRuntime.Runtime.CreateBuffer` | src/vaapi_advc/advc_vaapi_encode_runtime.c:1217-1263 | fills one free slot with the asked capacity exactly when the arguments are good and there is one, or changes nothing |
| `EncodeRuntime.Runtime.DestroyBuffer` | src/vaapi_advc/advc_vaapi_encode_runtime.c:1352-1371 | exactly buffers that are neither mapped nor awaited |
| `EncodeRuntime.Runtime.MapBuffer` | src/vaapi_advc/advc_vaapi_encode_runtime.c:1287-1331 | a mapped coded buffer awaits nothing and holds an output; the sync it waits for only adds to one session's history and settles pending pictures |
| `EncodeRuntime.Runtime.UnmapBuffer` | src/vaapi_advc/advc_vaapi_encode_runtime.c:1333-1350 | exactly mapped buffers |
| `EncodeRuntime.Runtime.BeginPicture` | src/vaapi_advc/advc_vaapi_encode_runtime.c:1373-1411 | begins exactly when sizes, state, owner and the limit of four pictures in flight allow, or of one in frame mode |
| `EncodeRuntime.Runtime.RenderPicture` | src/vaapi_advc/advc_vaapi_encode_runtime.c:1413-1450 | touches only the frame parameters of an active picture, and accepts only its own unmapped parameter buffers |
| `EncodeRuntime.Runtime.EndPicture` | src/vaapi_advc/advc_vaapi_encode_runtime.c:1564-1718 | the picture is over in every case; on success it is the session's newest job, paired, and timed t with t*f <= i*10^12 < (t+1)*f; on failure every pending link and counter is as before and only the target may have changed |
| `EncodeRuntime.Runtime.SyncSurface` | src/vaapi_advc/advc_vaapi_encode_runtime.c:1731-1747 | success means the surface is done, and if it was pending its output is stored; one session's history only grows |
| `EncodeRuntime.Runtime.SyncBuffer` | src/vaapi_advc/advc_vaapi_encode_runtime.c:1749-1772 | success means the buffer awaits nothing; the surface it names always exists; one session's history only grows |
| `EncodeRuntime.Runtime.ExportSurface` | src/vaapi_advc/advc_vaapi_encode_runtime.c:1795-1865 | an exported surface is not pending, and one exported for writing is not failed; one session's history only grows |
| `EncodeRuntime.Runtime.AcquireImage` | src/vaapi_advc/advc_vaapi_encode_runtime.c:521-555 | refused for writing while the surface is pending; a surface handed out is idle or ready; one session's history only grows |
| `EncodeRuntime.Runtime.Run` | src/vaapi_advc/advc_vaapi_encode_runtime.c:926-1865 | after every sequence of calls the whole invariant holds, of every session that is still the same one everything on record has only grown, and a session not for one frame is still open and the same one unless a call destroyed its context |
| `EncodeRuntime.Runtime.Perform` | src/vaapi_advc/advc_vaapi_encode_runtime.c:926-1865 | one call: an open session keeps its number, and one not for one frame stays open unless the call destroys its context |
| `DecodeLog.NothingAfterEnd` | src/vaapi_advc/advc_vaapi_decode_runtime.c:1204-1242 | nothing is accepted once the end of the stream has been, which is therefore accepted at most once |
| `DecodeLog.OnlyEndTaken` | src/vaapi_advc/advc_vaapi_decode_runtime.c:1848-1863 | a session that is offered nothing but its end takes at most that |
| `DecodeLog.TimestampsIncrease` | src/vaapi_advc/advc_vaapi_decode_runtime.c:2376-2383 | access units are accepted in timestamp order |
| `DecodeLog.SequenceChangesOnlyAtIdr` | src/vaapi_advc/advc_vaapi_decode_runtime.c:2360-2375 | outside an IDR picture only configurations with the same SPS are accepted |
| `DecodeLog.HevcConfigsOnlyAtIrap` | src/vaapi_advc/advc_vaapi_decode_runtime.c:2026-2058 | HEVC configurations are accepted only while ending an IRAP picture |
| `DecodeLog.Vp9StartsWithKeyFrame` | src/vaapi_advc/advc_vaapi_decode_runtime.c:2107-2132 | a VP9 session's first accepted access unit is a key frame |
| `DecodeLog.ConfigComesFirst` | src/vaapi_advc/advc_vaapi_decode_runtime.c:2384-2411 | no H.264 or HEVC access unit is accepted before a configuration |
| `DecodeLog.NoConfigRepeated` | src/vaapi_advc/advc_vaapi_decode_runtime.c:2384-2411 | a configuration in force is not sent again |
| `DecodeLog.ConfiguredWithoutUnit` | src/vaapi_advc/advc_vaapi_decode_runtime.c:2045-2070 | an HEVC session has taken these bytes as its last configuration and no access unit exactly when their own access unit and every other was refused |
| `DecodeLog.FirstUnitNotIrap` | src/vaapi_advc/advc_vaapi_decode_runtime.c:2026-2070 | before a first access unit that is not an IRAP picture, an IRAP picture was refused after its configuration had been taken |
| `DecodeLog.FitsMeansRules` | src/vaapi_advc/advc_vaapi_decode_runtime.c:2026-2435 | all these rules hold of every log that grew by permitted steps |
| `DecodePrepare.PrepareH264` | src/vaapi_advc/advc_vaapi_decode_runtime.c:2178-2350 | access unit, configuration and IDR flag, exactly when the slices match, the first one's reference override can be parsed and the parameters are supported |
| `DecodePrepare.PrepareHevc` | src/vaapi_advc/advc_vaapi_decode_runtime.c:1985-2025 | the same for HEVC |
| `DecodePrepare.MayChange` | src/vaapi_advc/advc_vaapi_decode_runtime.c:2360-2375 | the runtime's test is sameness of the SPS, in both directions |
| `DecodeState.TimestampsAreUnique` | src/vaapi_advc/advc_vaapi_decode_runtime.c:990-998 | pending surfaces of all contexts and codecs carry pairwise distinct timestamps |
| `DecodeState.PendingWasAccepted` | src/vaapi_advc/advc_vaapi_decode_runtime.c:2376-2435 | a pending surface waits for an access unit its context's broker accepted at that timestamp, a whole number of milliseconds below the next one |
| `DecodeState.CompleteMeansSettled` | src/vaapi_advc/advc_vaapi_decode_runtime.c:1134-1143 | once a context is complete nothing it owns is pending |
| `DecodeState.ActiveMeansOpen` | src/vaapi_advc/advc_vaapi_decode_runtime.c:1848-1894 | while a picture is open the end of the stream has not been requested |
| `DecodeState.HevcOpenToOthers` | src/vaapi_advc/advc_vaapi_decode_runtime.c:2026-2070 | a context remembers a configuration with no access unit accepted exactly when that configuration was accepted and its own access unit, like every other, was refused |
| `DecodeWitness.StartsWithoutIrap` | src/vaapi_advc/advc_vaapi_decode_runtime.c:2026-2078 | for every set of parameters a run of public calls whose first accepted access unit is not an IRAP picture |
| `DecodeState.EveryLeaseIsSettled` | src/vaapi_advc/advc_vaapi_decode_runtime.c:861-961 | every lease is attached, returned or given up at once; there is a second release attempt exactly after a refused fenced one |
| `DecodeState.NothingSettledTwice` | src/vaapi_advc/advc_vaapi_decode_runtime.c:1117-1132 | nothing is attached, returned or released but the lease just taken |
| `LeaseLedger.StillHeld` | src/vaapi_advc/advc_vaapi_decode_runtime.c:883-916 | a surface slot holds the lease it took as long as nothing ends that |
| `LeaseLedger.EndsItself` | src/vaapi_advc/advc_vaapi_decode_runtime.c:289-309 | what first ends it names that very lease |
| `LeaseLedger.EndedWasTaken` | src/vaapi_advc/advc_vaapi_decode_runtime.c:289-309 | no lease is returned or overwritten that its slot had not taken, or that had ended before |
| `LeaseLedger.EndsOnce` | src/vaapi_advc/advc_vaapi_decode_runtime.c:289-309 | between two ends in one slot there is another taking, so no lease is released twice from a surface |
| `LeaseLedger.GoesHome` | src/vaapi_advc/advc_vaapi_decode_runtime.c:293-300 | a lease goes back to the context its surface waited for exactly when it is returned and no other context's picture was the last queued on the surface since; it is overwritten only by a booking or after such a picture |
| `LeaseLedger.NothingOverwritten` | src/vaapi_advc/advc_vaapi_decode_runtime.c:318-347 | if pictures are booked and queued only on surfaces without a lease, every lease that ends is returned |
| `DecodeState.BalancedIsConserved` | src/vaapi_advc/advc_vaapi_decode_runtime.c:861-961 | the leases sessions attached are those surfaces took; those taken and not ended are exactly those surfaces hold, each in its own slot; each ends at most once |
| `DecodeWitness.Overwrites` | src/vaapi_advc/advc_vaapi_decode_runtime.c:905-918 | a run in which two contexts draw on one surface and the first one's lease is overwritten |
| `DecodeWitness.GoesAstray` | src/vaapi_advc/advc_vaapi_decode_runtime.c:289-309 | a run in which it is returned to the second one's session |
| `DecodeWitness.ReleasedTwice` | src/vaapi_advc/advc_vaapi_decode_runtime.c:936-1007 | a run of public calls with two release attempts for one lease |
| `DecodeState.EvolvesTrans` | src/vaapi_advc/advc_vaapi_decode_runtime.c:1204-2577 | what one call may change to a context and its history composes over any number of calls |
| `DecodeState.EndIsFinal` | src/vaapi_advc/advc_vaapi_decode_runtime.c:1204-1242 | a log that has the end of the stream never grows again |
| `DecodeRuntime.Runtime.ReleaseSurface` | src/vaapi_advc/advc_vaapi_decode_runtime.c:290-309 | the surface is emptied and what it held, a lease or a reserved destination, is on record as returned to its owner's session; the guard on the owner never prevents that |
| `DecodeRuntime.Runtime.FindPending` | src/vaapi_advc/advc_vaapi_decode_runtime.c:990-998 | the surface an output belongs to is the only one pending at its timestamp, and the one that timestamp was issued for |
| `DecodeRuntime.Runtime.OutputsStayWithOwner` | src/vaapi_advc/advc_vaapi_decode_runtime.c:990-998 | with a session number of its own a context's outputs go only to surfaces it owns |
| `DecodeRuntime.Runtime.DequeueOutput` | src/vaapi_advc/advc_vaapi_decode_runtime.c:982-985 | an output that comes is a lease from then on |
| `DecodeRuntime.Runtime.ReleaseOutput` | src/vaapi_advc/advc_vaapi_decode_runtime.c:1001-1004 | one release attempt, whatever the answer |
| `DecodeRuntime.Runtime.ConvertOutput` | src/vaapi_advc/advc_vaapi_decode_runtime.c:861-961 | by reservation and route the surface is given the output's buffer to hold, or a copy and the buffer is returned under a fence, or is left alone; the lease and what it took the place of are on record |
| `DecodeRuntime.Runtime.AttachOutput` | src/vaapi_advc/advc_vaapi_decode_runtime.c:876-918 | the surface holds the buffer, the session has it attached, and the ledger says by whom it was taken and over what |
| `DecodeRuntime.Runtime.ReleaseHeld` | src/vaapi_advc/advc_vaapi_decode_runtime.c:1117-1132 | releases only an output that is held, which then no longer is |
| `DecodeRuntime.Runtime.HandleFrame` | src/vaapi_advc/advc_vaapi_decode_runtime.c:1088-1115 | success exactly when a surface matches and converts; it becomes ready with the buffer or a copy, or alone fails, and no other changes |
| `DecodeRuntime.Runtime.DrainOpen` | src/vaapi_advc/advc_vaapi_decode_runtime.c:968-1017 | the result, the one surface that changes and how, and the whole life of the lease up to the surface that holds it, by reply and conversion |
| `DecodeRuntime.Runtime.DrainOne` | src/vaapi_advc/advc_vaapi_decode_runtime.c:968-1017 | the result tells whether a surface got its picture; through the end-of-stream machine exactly when the end has been requested; complete and failed states do not change |
| `DecodeRuntime.Runtime.MarkRemaining` | src/vaapi_advc/advc_vaapi_decode_runtime.c:1134-1143 | exactly the pending surfaces with the session's number fail, all the context's own among them, and it is counted |
| `DecodeWitness.FailsAnother` | src/vaapi_advc/advc_vaapi_decode_runtime.c:1134-1143 | a run of public calls in which the end of one context's stream fails another's picture |
| `DecodeRuntime.NextEosIsConsistent` | src/vaapi_advc/advc_vaapi_decode_eos.c:202-248 | every way of taking an output keeps counters and phase consistent, forward only, and completes with what remained failed once |
| `DecodeRuntime.Runtime.SignalLocked` | src/vaapi_advc/advc_vaapi_decode_eos.c:95-145 | the end of the stream is queued once; later calls change nothing; refusals leave it requested or failed |
| `DecodeRuntime.Runtime.TakeOutput` | src/vaapi_advc/advc_vaapi_decode_eos.c:202-248 | the lease is settled on return, whatever came; the output stays held exactly when it has no id; counters and phase move as specified |
| `DecodeRuntime.Runtime.Progress` | src/vaapi_advc/advc_vaapi_decode_eos.c:147-255 | at most the asked number of outputs, none dequeued while one is held; open, complete and failed are left alone; results tell the phase exactly |
| `DecodeRuntime.Runtime.ProgressLocked` | src/vaapi_advc/advc_vaapi_decode_runtime.c:1165-1185 | the same, and nothing is held on return: the clean-up release only ever meets an output without an id |
| `DecodeRuntime.Runtime.Queue` | src/vaapi_advc/advc_vaapi_decode_runtime.c:1274-1290 | the input is in the log exactly when the broker took it; however often it drains, only surfaces waiting in that session complete or fail and every lease taken is settled |
| `DecodeRuntime.Runtime.TakePts` | src/vaapi_advc/advc_vaapi_decode_runtime.c:2376-2383 | a timestamp never used before, exactly while it stays in 63 bits |
| `DecodeRuntime.Runtime.SendConfig` | src/vaapi_advc/advc_vaapi_decode_runtime.c:2045-2058 | the remembered configuration changes exactly when the broker takes it |
| `DecodeRuntime.Runtime.Announce` | src/vaapi_advc/advc_vaapi_decode_runtime.c:2045-2058 | a picture's turn begins with its configuration, which is then in force, or ends with its refusal |
| `DecodeRuntime.Runtime.Reserve` | src/vaapi_advc/advc_vaapi_decode_runtime.c:318-347 | only the target surface changes, and only when a destination was reserved, which is on record with what it took the place of |
| `DecodeRuntime.Runtime.SendUnit` | src/vaapi_advc/advc_vaapi_decode_runtime.c:2412-2435 | the surface becomes pending, and an in-band configuration is remembered, exactly when the broker takes the access unit |
| `DecodeRuntime.Runtime.EndH264` | src/vaapi_advc/advc_vaapi_decode_runtime.c:2360-2435 | on every path the accepted unit is the picture's own, alone or behind its configuration, under that configuration, and SPS changes wait for an IDR picture |
| `DecodeRuntime.Runtime.EndHevc` | src/vaapi_advc/advc_vaapi_decode_runtime.c:1971-2082 | the same, with configurations only at IRAP pictures; the exact outcome for known answers, so that outside one it sends nothing unless the configuration is the remembered one |
| `DecodeRuntime.Runtime.EndVp9` | src/vaapi_advc/advc_vaapi_decode_runtime.c:2084-2142 | nothing is sent before a key frame; the exact outcome for known answers |
| `DecodeRuntime.Runtime.EndPicture` | src/vaapi_advc/advc_vaapi_decode_runtime.c:2144-2441 | the picture is over in every case; on success the target waits for the unit accepted last, which is this picture's data under its own configuration; other contexts are untouched; the exact outcome for HEVC and VP9 pictures and known answers |
| `DecodeRuntime.Runtime.BeginPicture` | src/vaapi_advc/advc_vaapi_decode_runtime.c:1848-1869 | begins exactly when both ids are known, the context is idle and open, the sizes agree and the surface is idle or ready; otherwise nothing changes, and a pending surface sends the caller to wait |
| `DecodeRuntime.Runtime.ResumePicture` | src/vaapi_advc/advc_vaapi_decode_runtime.c:1870-1894 | after the wait everything is tested again, and the picture begins exactly when the tests pass and the surface has not failed |
| `DecodeRuntime.Runtime.SignalEos` | src/vaapi_advc/advc_vaapi_decode_runtime.c:1204-1242 | refused while a picture is open; afterwards the phase is not open, draining exactly when the broker accepted, and the end is never queued twice |
| `DecodeRuntime.Runtime.ProgressEos` | src/vaapi_advc/advc_vaapi_decode_runtime.c:1244-1272 | completion means nothing the context owns is pending; only surfaces waiting in its session change; open, complete and failed states do not |
| `DecodeRuntime.Runtime.SyncStep` | src/vaapi_advc/advc_vaapi_decode_runtime.c:2469-2531 | the answer by surface state, draining its own context exactly when it is pending; histories only grow, complete and failed stay |
| `DecodeRuntime.Runtime.QueryStatus` | src/vaapi_advc/advc_vaapi_decode_runtime.c:2533-2577 | the answer tells whether the surface is still pending after a bounded drain of its own context; nothing is offered to any session; complete and failed stay |
| `DecodeRuntime.Runtime.CreateContext` | src/vaapi_advc/advc_vaapi_decode_runtime.c:1583-1693 | fills the first free slot with an empty history exactly when there is one, or changes nothing |
| `DecodeRuntime.Runtime.DestroyContext` | src/vaapi_advc/advc_vaapi_decode_runtime.c:1696-1725 | exactly its surfaces are emptied and forget it, and all they held is returned to it |
| `DecodeRuntime.Runtime.CreateSurfaces` | src/vaapi_advc/advc_vaapi_decode_runtime.c:1438-1496 | the first free slots in order, exactly when there are enough of them; otherwise nothing is left changed |
| `DecodeRuntime.Runtime.DestroySurfaces` | src/vaapi_advc/advc_vaapi_decode_runtime.c:1498-1520 | releases and clears the listed surfaces in any state exactly when all are known and none is repeated; a missing lookup exactly when one is repeated |
| `DecodeRuntime.Runtime.DestroyTwice` | src/vaapi_advc/advc_vaapi_decode_runtime.c:1498-1520 | a surface named twice ends in the missing lookup |
| `DecodeRuntime.Runtime.Run` | src/vaapi_advc/advc_vaapi_decode_runtime.c:1204-2577 | after every sequence of calls: the invariant with every lease settled; no history was rewritten but of contexts that a call destroyed; complete, failed and ended sessions are as they were and nothing waits for a complete one; a session asked to end is offered nothing but its end, and nothing once that was taken; every log obeys its codec's rules; pending surfaces have accepted units at distinct timestamps; every lease attached is held by the surface that took it or has ended, once, and what surfaces hold has an owner to go back to |
| `DecodeRuntime.Runtime.Perform` | src/vaapi_advc/advc_vaapi_decode_runtime.c:1204-2577 | one call: a context's life ends only by the call that destroys it |
| `DecodeRuntime.Runtime.ValidIsLawful` | src/vaapi_advc/advc_vaapi_decode_runtime.c:1848-1894 | between calls: once the end of the stream has been offered, taken or not, nothing else is, and it has been exactly when the phase is not open |
| `DecodeRuntime.Runtime.LeasesAreKept` | src/vaapi_advc/advc_vaapi_decode_runtime.c:289-309 | between calls: leases attached and not ended are exactly those held, and every holder has a live owner in the right session |
| `DecodeRuntime.Runtime.EvolvesStaysDone` | src/vaapi_advc/advc_vaapi_decode_runtime.c:1848-1894 | what the calls in between may have changed, told from the phase at the start |
| `InFormats.CheckedRegion` | src/bridge/android_drm_blob.c:14-28 | the overflow-safe test is the plain comparison of end and length |
| `InFormats.CheckHeader` | src/bridge/android_drm_blob.c:67-82 | accepts exactly the framed blobs with a counter that can still grow |
| `InFormats.FindTarget` | src/bridge/android_drm_blob.c:89-97 | finds the XB24 slot exactly when there is one and only one |
| `InFormats.ScanModifiers` | src/bridge/android_drm_blob.c:99-121 | accepts exactly well-formed tables and tells whether LINEAR and QCOM cover the target |
| `InFormats.Append` | src/bridge/android_drm_blob.c:42-145 | succeeds exactly for well-formed blobs with one XB24 that offer it LINEAR and not QCOM |
| `InFormats.AppendedDenotes` | src/bridge/android_drm_blob.c:127-145 | the new bytes denote the source's pairs and (XB24, QCOM), no more and no less |
| `InFormats.AppendIsExact` | src/bridge/android_drm_blob.c:42-145 | the result is well formed, denotes exactly that, and is refused by a second append |
| `InFormats.BuildStrict` | src/bridge/android_drm_preload.c:352-443 | a strict blob is built exactly for the sources the append accepts |
| `InFormats.StrictQcomDenotes` | src/bridge/android_drm_preload.c:378-399 | the first strict blob is well formed and denotes exactly (XB24, QCOM) |
| `InFormats.StrictQcomLinearDenotes` | src/bridge/android_drm_preload.c:419-443 | the second denotes exactly that and (XB24, LINEAR) |
| `InFormats.StrictIsSubset` | src/bridge/android_drm_preload.c:352-443 | both denote subsets of the appended source |
| `InFormats.AddEntry` | src/bridge/android_drm_bridge.c:387-405 | one entry a pair with the union of its sources; refused exactly when a new pair finds the table full |
| `InFormats.ListBlob` | src/bridge/android_drm_bridge.c:407-469 | the listing holds exactly the formats and the denoted pairs, each once; refusals mean a malformed blob, too many distinct pairs, or none |
| `BlobWire.BlobDenotes` | src/bridge/android_drm_blob.c:30-40 | a blob written from any two tables, as the kernel lays them out, offers a format with a modifier exactly when the bit for that format is set in the mask of an entry with that modifier |
| `BlobWire.FormatReads` | src/bridge/android_drm_blob.c:83-97 | each format of a written blob is read back |
| `BlobWire.ModifierReads` | src/bridge/android_drm_blob.c:99-121 | each entry of a written blob is read back |
| `BlobWire.WrittenIsAppendable` | src/bridge/android_drm_blob.c:67-125 | a written blob is appended to exactly when it is aligned and ends with its entries, no mask bit points past the formats, XB24 occurs once, and it is offered as linear and not as Qualcomm's |
| `BlobWire.AppendedIsWritten` | src/bridge/android_drm_blob.c:127-145 | appending to a written blob gives, byte for byte, the blob written from the same tables with one more entry, whose offset is a multiple of 64 and whose mask is the one bit of the XB24 format |
| `BlobWire.StrictIsWritten` | src/bridge/android_drm_preload.c:378-443 | the strict blobs are, byte for byte, those written from one XB24 format and one or two entries of its bit |
| `LeaseList.ParseDecimal` | src/seat/drm_lease_seat.c:82-102 | out of range exactly when the digits denote more than the maximum; otherwise their value and end |
| `LeaseList.DecimalDigits` | src/broker/drm_lease_client.c:75-83 | the printed digits of a number: at each place the one that stands there, and no leading zero |
| `LeaseList.PrintObjects` | src/broker/drm_lease_client.c:75-83 | prints the comma-separated list exactly when it fits the buffer |
| `LeaseList.ParseObjects` | src/seat/drm_lease_seat.c:116-158 | computes what the item-by-item specification says, on every text |
| `LeaseList.ObjectsExactly` | src/seat/drm_lease_seat.c:116-158 | a text is read as a list exactly when it is one to 256 distinct nonzero 32-bit numbers in digits between commas, and as those numbers |
| `LeaseList.ObjectsOfJoined` | src/seat/drm_lease_seat.c:116-158 | a printed list reads back as itself exactly when its ids are distinct, nonzero and at most 256, and not at all otherwise |
| `LeaseList.HandOver` | src/broker/drm_lease_client.c:66-86 | every list of up to 64 ids fits the 768-byte buffer and arrives exactly when it is nonempty, distinct and nonzero |
| `LeaseList.HasDuplicates` | src/bridge/android_drm_bridge.c:105-117 | true exactly when an id is zero or occurs twice |
| `LeaseList.EqualObjectSets` | src/bridge/android_drm_bridge.c:119-138 | accepts exactly duplicate-free nonzero lists that are equal as sets |

## Left out

- Error numbers: most failures are one refusal, not the particular errno or VAStatus the source picks.
- Memory allocation failure in the bitstream builders, which adds refusals and nothing else.
- `size_t` is taken to have 64 bits; byte counters and frame counters are unbounded where the source's 64-bit ones cannot wrap in practice.
- The mapping of VA-API structures to parameters, and the default reference counts kept between pictures from the parsed slice headers (src/vaapi_advc/advc_vaapi_decode_runtime.c:545-712, 2280-2303): the mapped parameters are inputs of the model.
- Staging of rendered buffers in the decode runtime: a rendered picture is an argument of `EndPicture`.
- VP9 frame parsing beyond its key-frame result.
- The H.264 reader does not read HRD parameters or SPS extensions and the HEVC reader no scaling lists, PCM, reference picture sets or extensions; the compilers never write them.
- EncodeRuntime.Runtime.RenderPicture: leaves open what each parameter buffer does to the frame parameters, apart from the tests made when the picture ends.
- EncodeRuntime.Runtime.ExportSurface: models the read and the write access mode, not the descriptor that is filled in.
- Leases end in the model with the request to return them; whether the broker accepts that last request is not followed.
- DecodeRuntime.Runtime.CreateSurfaces: the tests on the format, the size limits and the attributes are one parameter.
- Configuration tables, surface attributes, images, accounting counters, tracing and timing.
- File descriptors, dma-buf descriptors, fences, GPU repacking and modifier routes: each is a step that may succeed or fail.
- Vulkan layer, EGL and libseat interposition, launcher, broker process, input, the Firefox socket helper and the vendor candidate scan of the DRM bridge: effects on other systems with little logic of their own.
