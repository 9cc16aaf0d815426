/**
  A reader of H.264 sequence and picture parameter sets, written from sections 7.3.2.1.1, 7.3.2.2 and E.1.1
  of ITU-T H.264, and the proof of exactly when it recovers every field the compiler was given.
  It refuses the profiles with chroma format syntax, hypothetical reference decoder parameters, slice
  groups and picture parameter set extensions.
 */
module H264Reader {
  import opened Bits
  import opened SyntaxElements
  import opened BitIo
  import opened AnnexB
  import opened H264Config

  datatype Poc =
    | PocLsb(log2MaxLsbMinus4: nat)
    | PocCycle(alwaysZero: bool, nonRefOffset: int, topBottomOffset: int, refOffsets: seq<int>)
    | PocImplicit

  datatype Head = Head(profileIdc: nat, constraints: nat, levelIdc: nat, spsId: nat, log2MaxFrameNumMinus4: nat, poc: Poc)

  datatype Size = Size(
    numRefFrames: nat, gaps: bool, widthInMbsMinus1: nat, heightInMbsMinus1: nat,
    frameMbsOnly: bool, mbAdaptive: bool, direct8x8: bool)

  datatype Crop = Crop(left: nat, right: nat, top: nat, bottom: nat)

  datatype Restriction = Restriction(
    mvOverBoundaries: bool, maxBytesDenom: nat, maxBitsDenom: nat, log2MvHorizontal: nat, log2MvVertical: nat,
    maxReorder: nat, maxBuffering: nat)

  datatype Vui = Vui(
    aspectRatio: Option<(nat, nat, nat)>,
    overscan: Option<bool>,
    videoSignal: Option<(nat, bool, Option<(nat, nat, nat)>)>,
    chromaLocation: Option<(nat, nat)>,
    timing: Option<(nat, nat, bool)>,
    picStruct: bool,
    restriction: Option<Restriction>)

  datatype Sps = Sps(head: Head, size: Size, crop: Option<Crop>, vui: Option<Vui>)

  datatype Pps = Pps(
    ppsId: nat, spsId: nat, entropyCodingMode: bool, bottomFieldPicOrder: bool,
    numRefIdxL0Minus1: nat, numRefIdxL1Minus1: nat,
    weightedPred: bool, weightedBipredIdc: nat, picInitQpMinus26: int, picInitQsMinus26: int,
    chromaQpIndexOffset: int, deblockingControl: bool, constrainedIntraPred: bool, redundantPicCnt: bool)

  type Parse<T> = Option<(T, seq<bool>)>

  /** The profiles whose parameter sets carry chroma format syntax. */
  const CHROMA_PROFILES: set<nat> := {100, 110, 122, 244, 44, 83, 86, 118, 128, 138, 139, 134, 135}

  function ReadHead(bits: seq<bool>): Parse<Head> {
    var (profile, b1) :- TakeU(bits, 8);
    var (constraints, b2) :- TakeU(b1, 8);
    var (level, b3) :- TakeU(b2, 8);
    var (id, b4) :- TakeUe(b3);
    if profile in CHROMA_PROFILES then None else
    var (log2FrameNum, b5) :- TakeUe(b4);
    var (poc, b6) :- ReadPoc(b5);
    Some((Head(profile, constraints, level, id, log2FrameNum, poc), b6))
  }

  function ReadPoc(bits: seq<bool>): Parse<Poc> {
    var (kind, b1) :- TakeUe(bits);
    if kind == 0 then
      var (lsb, b2) :- TakeUe(b1);
      Some((PocLsb(lsb), b2))
    else if kind == 1 then
      var (zero, b2) :- TakeFlag(b1);
      var (nonRef, b3) :- TakeSe(b2);
      var (topBottom, b4) :- TakeSe(b3);
      var (n, b5) :- TakeUe(b4);
      var (offsets, b6) :- TakeSes(b5, n);
      Some((PocCycle(zero, nonRef, topBottom, offsets), b6))
    else
      Some((PocImplicit, b1))
  }

  function TakeSes(bits: seq<bool>, n: nat): Parse<seq<int>> {
    if n == 0 then Some(([], bits)) else
    var (v, b1) :- TakeSe(bits);
    var (vs, b2) :- TakeSes(b1, n - 1);
    Some(([v] + vs, b2))
  }

  function ReadSize(bits: seq<bool>): Parse<Size> {
    var (refs, b1) :- TakeUe(bits);
    var (gaps, b2) :- TakeFlag(b1);
    var (width, b3) :- TakeUe(b2);
    var (height, b4) :- TakeUe(b3);
    var (frameMbsOnly, b5) :- TakeFlag(b4);
    var (mbAdaptive, b6) :- if frameMbsOnly then Some((false, b5)) else TakeFlag(b5);
    var (direct, b7) :- TakeFlag(b6);
    Some((Size(refs, gaps, width, height, frameMbsOnly, mbAdaptive, direct), b7))
  }

  function ReadCrop(bits: seq<bool>): Parse<Option<Crop>> {
    var (present, b1) :- TakeFlag(bits);
    if !present then Some((None, b1)) else
    var (left, b2) :- TakeUe(b1);
    var (right, b3) :- TakeUe(b2);
    var (top, b4) :- TakeUe(b3);
    var (bottom, b5) :- TakeUe(b4);
    Some((Some(Crop(left, right, top, bottom)), b5))
  }

  function ReadVui(bits: seq<bool>): Parse<Option<Vui>> {
    var (present, b1) :- TakeFlag(bits);
    if !present then Some((None, b1)) else
    var (aspect, b2) :- ReadAspect(b1);
    var (overscan, b3) :- ReadOverscan(b2);
    var (signal, b4) :- ReadVideoSignal(b3);
    var (chroma, b5) :- ReadChromaLocation(b4);
    var (timing, b6) :- ReadTiming(b5);
    var (nalHrd, b7) :- TakeFlag(b6);
    if nalHrd then None else
    var (vclHrd, b8) :- TakeFlag(b7);
    if vclHrd then None else
    var (picStruct, b9) :- TakeFlag(b8);
    var (restriction, b10) :- ReadRestriction(b9);
    Some((Some(Vui(aspect, overscan, signal, chroma, timing, picStruct, restriction)), b10))
  }

  function ReadAspect(bits: seq<bool>): Parse<Option<(nat, nat, nat)>> {
    var (present, b1) :- TakeFlag(bits);
    if !present then Some((None, b1)) else
    var (idc, b2) :- TakeU(b1, 8);
    if idc != 255 then Some((Some((idc, 0, 0)), b2)) else
    var (w, b3) :- TakeU(b2, 16);
    var (h, b4) :- TakeU(b3, 16);
    Some((Some((idc, w, h)), b4))
  }

  function ReadOverscan(bits: seq<bool>): Parse<Option<bool>> {
    var (present, b1) :- TakeFlag(bits);
    if !present then Some((None, b1)) else
    var (appropriate, b2) :- TakeFlag(b1);
    Some((Some(appropriate), b2))
  }

  function ReadVideoSignal(bits: seq<bool>): Parse<Option<(nat, bool, Option<(nat, nat, nat)>)>> {
    var (present, b1) :- TakeFlag(bits);
    if !present then Some((None, b1)) else
    var (format, b2) :- TakeU(b1, 3);
    var (full, b3) :- TakeFlag(b2);
    var (colour, b4) :- TakeFlag(b3);
    if !colour then Some((Some((format, full, None)), b4)) else
    var (primaries, b5) :- TakeU(b4, 8);
    var (transfer, b6) :- TakeU(b5, 8);
    var (matrix, b7) :- TakeU(b6, 8);
    Some((Some((format, full, Some((primaries, transfer, matrix)))), b7))
  }

  function ReadChromaLocation(bits: seq<bool>): Parse<Option<(nat, nat)>> {
    var (present, b1) :- TakeFlag(bits);
    if !present then Some((None, b1)) else
    var (top, b2) :- TakeUe(b1);
    var (bottom, b3) :- TakeUe(b2);
    Some((Some((top, bottom)), b3))
  }

  function ReadTiming(bits: seq<bool>): Parse<Option<(nat, nat, bool)>> {
    var (present, b1) :- TakeFlag(bits);
    if !present then Some((None, b1)) else
    var (units, b2) :- TakeU(b1, 32);
    var (scale, b3) :- TakeU(b2, 32);
    var (fixed, b4) :- TakeFlag(b3);
    Some((Some((units, scale, fixed)), b4))
  }

  function ReadRestriction(bits: seq<bool>): Parse<Option<Restriction>> {
    var (present, b1) :- TakeFlag(bits);
    if !present then Some((None, b1)) else
    var (over, b2) :- TakeFlag(b1);
    var (bytes, b3) :- TakeUe(b2);
    var (mbBits, b4) :- TakeUe(b3);
    var (mvh, b5) :- TakeUe(b4);
    var (mvv, b6) :- TakeUe(b5);
    var (reorder, b7) :- TakeUe(b6);
    var (buffering, b8) :- TakeUe(b7);
    Some((Some(Restriction(over, bytes, mbBits, mvh, mvv, reorder, buffering)), b8))
  }

  /** Nothing is left but the stop bit and fewer than eight alignment zeros. */
  predicate TrailingOnly(bits: seq<bool>) {
    0 < |bits| <= 8 && bits[0] && forall i :: 1 <= i < |bits| ==> !bits[i]
  }

  function ReadSps(bits: seq<bool>): Option<Sps> {
    var (head, b1) :- ReadHead(bits);
    var (size, b2) :- ReadSize(b1);
    var (crop, b3) :- ReadCrop(b2);
    var (vui, b4) :- ReadVui(b3);
    if TrailingOnly(b4) then Some(Sps(head, size, crop, vui)) else None
  }

  function ReadPps(bits: seq<bool>): Option<Pps> {
    var (ppsId, b1) :- TakeUe(bits);
    var (spsId, b2) :- TakeUe(b1);
    var (entropy, b3) :- TakeFlag(b2);
    var (bottom, b4) :- TakeFlag(b3);
    var (groups, b5) :- TakeUe(b4);
    if groups != 0 then None else
    var (l0, b6) :- TakeUe(b5);
    var (l1, b7) :- TakeUe(b6);
    ReadPpsTail(ppsId, spsId, entropy, bottom, l0, l1, b7)
  }

  function ReadPpsTail(
    ppsId: nat, spsId: nat, entropy: bool, bottom: bool, l0: nat, l1: nat, bits: seq<bool>): Option<Pps>
  {
    var (weighted, b1) :- TakeFlag(bits);
    var (bipred, b2) :- TakeU(b1, 2);
    var (qp, b3) :- TakeSe(b2);
    var (qs, b4) :- TakeSe(b3);
    var (chroma, b5) :- TakeSe(b4);
    var (deblocking, b6) :- TakeFlag(b5);
    var (intra, b7) :- TakeFlag(b6);
    var (redundant, b8) :- TakeFlag(b7);
    if TrailingOnly(b8) then
      Some(Pps(ppsId, spsId, entropy, bottom, l0, l1, weighted, bipred, qp, qs, chroma, deblocking, intra, redundant))
    else None
  }

  /** The payload bits of a NAL unit with a one-byte header. */
  function NalBits(nal: seq<Byte>): seq<bool>
    requires |nal| >= 5
  {
    Unpack(Unescape(nal[5..], 0))
  }

  /**
    A start code and nal_unit() of section 7.3.1: the forbidden bit is zero, the unit is of the given type, and like every
    parameter set it may be referred to.
   */
  predicate IsNal(nal: seq<Byte>, kind: nat) {
    && |nal| >= 5 && nal[0] == 0 && nal[1] == 0 && nal[2] == 0 && nal[3] == 1
    && nal[4] / 128 == 0 && nal[4] / 32 % 4 != 0 && nal[4] % 32 == kind
  }

  function ReadSpsNal(nal: seq<Byte>): Option<Sps> {
    if IsNal(nal, 7) then ReadSps(NalBits(nal)) else None
  }

  function ReadPpsNal(nal: seq<Byte>): Option<Pps> {
    if IsNal(nal, 8) then ReadPps(NalBits(nal)) else None
  }

  // ---------- what a decoder shows ----------

  /** The output size of section 7.4.2.1.1 for 4:2:0 pictures: macroblocks of 16 samples, cropped in units of two. */
  function ShownWidth(r: Sps): int {
    16 * (r.size.widthInMbsMinus1 + 1) - (if r.crop.None? then 0 else 2 * (r.crop.value.left + r.crop.value.right))
  }

  function ShownHeight(r: Sps): int {
    var fields := if r.size.frameMbsOnly then 1 else 2;
    fields * (16 * (r.size.heightInMbsMinus1 + 1) - (if r.crop.None? then 0 else 2 * (r.crop.value.top + r.crop.value.bottom)))
  }

  // ---------- what the compiler was asked to say ----------

  /** A one-bit field is written as its low bit; a field that is even but not zero is therefore not written as given. */
  predicate SaneFlag(flag: Byte) {
    flag == 0 || flag % 2 == 1
  }

  predicate SaneSize(p: Parameters) {
    SaneFlag(p.gapsInFrameNum) && SaneFlag(p.direct8x8Inference)
  }

  /** Every one-bit field of the sequence parameter set. */
  predicate SaneSps(p: Parameters) {
    SaneSize(p) && SaneFlag(p.vuiRestriction)
  }

  predicate SanePpsTail(p: Parameters) {
    && SaneFlag(p.weightedPred) && SaneFlag(p.deblockingControl) && SaneFlag(p.constrainedIntraPred)
    && SaneFlag(p.redundantPicCnt)
  }

  /** Every one-bit field of the picture parameter set. */
  predicate SanePps(p: Parameters) {
    SaneFlag(p.entropyCodingMode) && SaneFlag(p.bottomFieldPicOrder) && SanePpsTail(p)
  }

  function SpsOf(p: Parameters): Sps
    requires Supported(p)
  {
    Sps(
      Head(p.profileIdc, if p.profileIdc == 66 then 0xC0 else 0, 51, 0, p.log2MaxFrameNumMinus4,
           if p.pocType == 0 then PocLsb(p.log2MaxPocLsbMinus4) else PocImplicit),
      Size(p.numRefFrames, p.gapsInFrameNum != 0, p.widthInMbsMinus1, p.heightInMbsMinus1,
           true, false, p.direct8x8Inference != 0),
      if 16 * (p.widthInMbsMinus1 + 1) == p.visibleWidth && 16 * (p.heightInMbsMinus1 + 1) == p.visibleHeight then None
      else Some(Crop(0, (16 * (p.widthInMbsMinus1 + 1) - p.visibleWidth) / 2,
                     0, (16 * (p.heightInMbsMinus1 + 1) - p.visibleHeight) / 2)),
      if p.vuiRestriction == 0 then None else Some(VuiOf(p)))
  }

  function VuiOf(p: Parameters): Vui {
    Vui(None, None, None, None, None, false,
        Some(Restriction(true, 2, 1, 16, 16, p.maxNumReorderFrames, p.maxDecFrameBuffering)))
  }

  function PpsOf(p: Parameters, ppsId: nat): Pps {
    Pps(ppsId, 0, p.entropyCodingMode != 0, p.bottomFieldPicOrder != 0,
        p.numRefIdxL0Minus1, p.numRefIdxL1Minus1,
        p.weightedPred != 0, p.weightedBipredIdc, p.picInitQpMinus26, p.picInitQsMinus26,
        p.chromaQpIndexOffset, p.deblockingControl != 0, p.constrainedIntraPred != 0,
        p.redundantPicCnt != 0)
  }

  /** What the compiler writes of the picture parameter set: the same with the low bit of each flag. */
  function PpsWritten(p: Parameters, ppsId: nat): Pps {
    PpsOf(p, ppsId).(
      entropyCodingMode := p.entropyCodingMode % 2 == 1, bottomFieldPicOrder := p.bottomFieldPicOrder % 2 == 1,
      weightedPred := p.weightedPred % 2 == 1, deblockingControl := p.deblockingControl % 2 == 1,
      constrainedIntraPred := p.constrainedIntraPred % 2 == 1, redundantPicCnt := p.redundantPicCnt % 2 == 1)
  }

  lemma PpsWrittenAsGiven(p: Parameters, ppsId: nat)
    ensures PpsWritten(p, ppsId) == PpsOf(p, ppsId) <==> SanePps(p)
  {
  }

  // ---------- each part of the reader inverts its part of the compiler ----------

  lemma ReadsHead(p: Parameters, rest: Syntax, after: seq<bool>)
    requires Supported(p)
    ensures ReadHead(Encode(SpsHead(p, rest), after)) == Some((SpsOf(p).head, Encode(rest, after)))
  {
    hide Encode, TakeU, TakeUe, TakeFlag, Then;
    SmallFields();
    var s0 := SpsHead(p, rest);
    TakeHead(s0, after);
    var s1 := s0.tail;
    TakeHead(s1, after);
    var s2 := s1.tail;
    TakeHead(s2, after);
    var s3 := s2.tail;
    TakeHead(s3, after);
    var s4 := s3.tail;
    TakeHead(s4, after);
    var s5 := s4.tail;
    TakeHead(s5, after);
    if p.pocType == 0 {
      TakeHead(s5.tail, after);
    }
  }

  lemma ReadsSize(p: Parameters, rest: Syntax, after: seq<bool>)
    requires Supported(p)
    ensures var r := ReadSize(Encode(SpsSize(p, rest), after));
            && r.Some? && r.value.1 == Encode(rest, after) && (r.value.0 == SpsOf(p).size <==> SaneSize(p))
            && r.value.0.widthInMbsMinus1 == p.widthInMbsMinus1 && r.value.0.heightInMbsMinus1 == p.heightInMbsMinus1
            && r.value.0.frameMbsOnly
  {
    hide Encode, TakeU, TakeUe, TakeFlag, Then;
    SmallFields();
    var s0 := SpsSize(p, rest);
    TakeHead(s0, after);
    var s1 := s0.tail;
    TakeHead(s1, after);
    var s2 := s1.tail;
    TakeHead(s2, after);
    var s3 := s2.tail;
    TakeHead(s3, after);
    var s4 := s3.tail;
    TakeHead(s4, after);
    TakeHead(s4.tail, after);
  }

  lemma ReadsCrop(p: Parameters, rest: Syntax, after: seq<bool>)
    requires Supported(p)
    ensures ReadCrop(Encode(SpsCrop(p, rest), after)) == Some((SpsOf(p).crop, Encode(rest, after)))
  {
    hide Encode, TakeU, TakeUe, TakeFlag, Then;
    SmallFields();
    var s0 := SpsCrop(p, rest);
    TakeHead(s0, after);
    if CropRight(p) != 0 || CropBottom(p) != 0 {
      var s1 := s0.tail;
      TakeHead(s1, after);
      var s2 := s1.tail;
      TakeHead(s2, after);
      var s3 := s2.tail;
      TakeHead(s3, after);
      TakeHead(s3.tail, after);
    }
  }

  lemma ReadsRestriction(p: Parameters, after: seq<bool>)
    ensures ReadRestriction(Encode(Then(Bit(1), VuiRestriction(p)), after)) == Some((VuiOf(p).restriction, after))
  {
    assert Encode(Done, after) == after;
    hide Encode, TakeU, TakeUe, TakeFlag, Then;
    SmallFields();
    var s0 := Then(Bit(1), VuiRestriction(p));
    TakeHead(s0, after);
    var s1 := s0.tail;
    TakeHead(s1, after);
    var s2 := s1.tail;
    TakeHead(s2, after);
    var s3 := s2.tail;
    TakeHead(s3, after);
    var s4 := s3.tail;
    TakeHead(s4, after);
    var s5 := s4.tail;
    TakeHead(s5, after);
    var s6 := s5.tail;
    TakeHead(s6, after);
    TakeHead(s6.tail, after);
  }

  /** The presence flag the reader sees is the low bit of the field; the elements follow if it is nonzero. */
  lemma ReadsVui(p: Parameters, after: seq<bool>)
    ensures p.vuiRestriction == 0 ==> ReadVui(Encode(SpsVui(p), after)) == Some((None, after))
    ensures p.vuiRestriction % 2 == 1 ==> ReadVui(Encode(SpsVui(p), after)) == Some((Some(VuiOf(p)), after))
    ensures p.vuiRestriction != 0 && p.vuiRestriction % 2 == 0 ==>
              exists rest :: ReadVui(Encode(SpsVui(p), after)) == Some((None, rest))
  {
    assert Encode(Done, after) == after;
    hide Encode, TakeU, TakeUe, TakeFlag, Then, ReadRestriction;
    SmallFields();
    var s0 := SpsVui(p);
    TakeHead(s0, after);
    if p.vuiRestriction % 2 == 1 {
      var s1 := s0.tail;
      TakeHead(s1, after);
      var s2 := s1.tail;
      TakeHead(s2, after);
      var s3 := s2.tail;
      TakeHead(s3, after);
      var s4 := s3.tail;
      TakeHead(s4, after);
      var s5 := s4.tail;
      TakeHead(s5, after);
      var s6 := s5.tail;
      TakeHead(s6, after);
      var s7 := s6.tail;
      TakeHead(s7, after);
      var s8 := s7.tail;
      TakeHead(s8, after);
      ReadsRestriction(p, after);
    }
  }

  lemma TrailingIsTrailing(n: nat)
    ensures TrailingOnly(Trailing(n))
  {
  }

  /** Reading a compiled sequence parameter set gives the fields it was compiled from, exactly on sane flags. */
  lemma SpsReadsBack(p: Parameters)
    requires Supported(p)
    ensures ReadSps(RbspBits(SpsSyntax(p))) == Some(SpsOf(p)) <==> SaneSps(p)
  {
    hide Encode, ReadHead, ReadSize, ReadCrop, ReadVui, SpsHead, SpsSize, SpsCrop, SpsVui, TrailingOnly, Trailing;
    var bits := Encode(SpsSyntax(p), []);
    var after := Trailing(|bits|);
    EncodeThen(SpsSyntax(p), [], after);
    assert [] + after == after;
    TrailingIsTrailing(|bits|);
    var vui := SpsVui(p);
    ReadsHead(p, SpsSize(p, SpsCrop(p, vui)), after);
    ReadsSize(p, SpsCrop(p, vui), after);
    ReadsCrop(p, vui, after);
    ReadsVui(p, after);
  }

  /** Whatever reads as a sequence parameter set shows the picture that was asked for, in full and nothing else. */
  lemma SpsShowsPicture(p: Parameters)
    requires Supported(p) && ReadSps(RbspBits(SpsSyntax(p))).Some?
    ensures var r := ReadSps(RbspBits(SpsSyntax(p))).value; ShownWidth(r) == p.visibleWidth && ShownHeight(r) == p.visibleHeight
  {
    hide Encode, ReadHead, ReadSize, ReadCrop, ReadVui, SpsHead, SpsSize, SpsCrop, SpsVui, TrailingOnly, Trailing;
    var bits := Encode(SpsSyntax(p), []);
    var after := Trailing(|bits|);
    EncodeThen(SpsSyntax(p), [], after);
    assert [] + after == after;
    var vui := SpsVui(p);
    ReadsHead(p, SpsSize(p, SpsCrop(p, vui)), after);
    ReadsSize(p, SpsCrop(p, vui), after);
    ReadsCrop(p, vui, after);
  }

  lemma ReadsPpsTail(p: Parameters, ppsId: nat, after: seq<bool>)
    requires Supported(p) && TrailingOnly(after)
    ensures var want := PpsWritten(p, ppsId);
            ReadPpsTail(ppsId, 0, want.entropyCodingMode, want.bottomFieldPicOrder, want.numRefIdxL0Minus1,
                        want.numRefIdxL1Minus1, Encode(PpsTail(p), after)) == Some(want)
  {
    assert Encode(Done, after) == after;
    hide Encode, TakeU, TakeUe, TakeFlag, TakeSe, Then, TrailingOnly;
    SmallFields();
    var s0 := PpsTail(p);
    TakeHead(s0, after);
    var s1 := s0.tail;
    TakeHead(s1, after);
    var s2 := s1.tail;
    TakeHead(s2, after);
    var s3 := s2.tail;
    TakeHead(s3, after);
    var s4 := s3.tail;
    TakeHead(s4, after);
    var s5 := s4.tail;
    TakeHead(s5, after);
    var s6 := s5.tail;
    TakeHead(s6, after);
    TakeHead(s6.tail, after);
  }

  lemma PpsReadsWritten(p: Parameters, ppsId: nat)
    requires Supported(p) && ppsId <= 255
    ensures ReadPps(RbspBits(PpsSyntax(p, ppsId))) == Some(PpsWritten(p, ppsId))
  {
    var bits := Encode(PpsSyntax(p, ppsId), []);
    var after := Trailing(|bits|);
    EncodeThen(PpsSyntax(p, ppsId), [], after);
    assert [] + after == after;
    TrailingIsTrailing(|bits|);
    hide Encode, TakeU, TakeUe, TakeFlag, TakeSe, Then, TrailingOnly, Trailing, ReadPpsTail, PpsTail;
    SmallFields();
    var s0 := PpsSyntax(p, ppsId);
    TakeHead(s0, after);
    var s1 := s0.tail;
    TakeHead(s1, after);
    var s2 := s1.tail;
    TakeHead(s2, after);
    var s3 := s2.tail;
    TakeHead(s3, after);
    var s4 := s3.tail;
    TakeHead(s4, after);
    var s5 := s4.tail;
    TakeHead(s5, after);
    TakeHead(s5.tail, after);
    ReadsPpsTail(p, ppsId, after);
  }

  /** Reading a compiled picture parameter set succeeds, with the fields given exactly on sane flags. */
  lemma PpsReadsBack(p: Parameters, ppsId: nat)
    requires Supported(p) && ppsId <= 255
    ensures ReadPps(RbspBits(PpsSyntax(p, ppsId))).Some?
    ensures ReadPps(RbspBits(PpsSyntax(p, ppsId))) == Some(PpsOf(p, ppsId)) <==> SanePps(p)
  {
    hide ReadPps, RbspBits, PpsSyntax, PpsOf, PpsWritten, SanePps, Supported;
    PpsReadsWritten(p, ppsId);
    PpsWrittenAsGiven(p, ppsId);
  }

  /** A supported 16 by 16 picture with two flags given as 2. */
  lemma EvenFlags() returns (p: Parameters)
    ensures Supported(p) && p.gapsInFrameNum == 2 && p.weightedPred == 2
  {
    p := Parameters(77, 16, 16, 0, 0, 0, 0, 1, 0, 2, 1, 0, 1, 0, 0, 0, 1, 0, 0, 0, 0, 0, 0, 0, 0, 2, 0, 0, 0, 0, 0, 0, 0, 0, 0);
  }

  /** The compiler accepts it, and neither set reads back as given. */
  lemma EvenFlagsAreLost() returns (p: Parameters)
    ensures Supported(p) && p.gapsInFrameNum == 2 && p.weightedPred == 2
    ensures ReadPps(RbspBits(PpsSyntax(p, 0))) != Some(PpsOf(p, 0))
    ensures ReadSps(RbspBits(SpsSyntax(p))) != Some(SpsOf(p))
  {
    hide ReadPps, ReadSps, RbspBits, PpsSyntax, SpsSyntax, PpsOf, SpsOf, Supported;
    p := EvenFlags();
    PpsReadsBack(p, 0);
    SpsReadsBack(p);
  }
}
