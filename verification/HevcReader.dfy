/**
  A reader of H.265 video, sequence and picture parameter sets, written from sections 7.3.2.1 to 7.3.2.3 and
  7.3.3 of ITU-T H.265 for one layer and one sub-layer, and the proof of exactly when it recovers every field given.
  It refuses scaling lists, PCM, reference picture sets, VUI and the extensions.
 */
module HevcReader {
  import opened Bits
  import opened SyntaxElements
  import opened BitIo
  import opened AnnexB
  import opened HevcConfig
  import H264Reader

  type Parse<T> = Option<(T, seq<bool>)>

  datatype Profile = Profile(space: nat, tier: bool, idc: nat, compatibility: nat, constraints: nat, levelIdc: nat)

  datatype Buffering = Buffering(forEach: bool, maxDecMinus1: nat, maxReorder: nat, maxLatencyPlus1: nat)

  datatype Vps = Vps(
    vpsId: nat, baseInternal: bool, baseAvailable: bool, maxLayersMinus1: nat, nesting: bool, profile: Profile,
    buffering: Buffering, maxLayerId: nat)

  datatype Window = Window(left: nat, right: nat, top: nat, bottom: nat)

  datatype Picture = Picture(
    vpsId: nat, nesting: bool, profile: Profile, spsId: nat, chroma: nat, width: nat, height: nat, window: Option<Window>)

  datatype Depths = Depths(luma: nat, chroma: nat, log2MaxPocLsbMinus4: nat, buffering: Buffering)

  datatype Blocks = Blocks(minCb: nat, diffCb: nat, minTb: nat, diffTb: nat, depthInter: nat, depthIntra: nat)

  datatype Tools = Tools(amp: bool, sao: bool, temporalMvp: bool, strongIntra: bool)

  datatype Sps = Sps(picture: Picture, depths: Depths, blocks: Blocks, tools: Tools)

  datatype Refs = Refs(
    ppsId: nat, spsId: nat, dependent: bool, outputFlag: bool, extraBits: nat, signHiding: bool, cabacInit: bool,
    l0Minus1: nat, l1Minus1: nat)

  datatype Qp = Qp(initMinus26: int, constrainedIntra: bool, transformSkip: bool, cuQpDepth: Option<nat>)

  datatype Weights = Weights(cb: int, cr: int, sliceChroma: bool, weighted: bool, weightedBi: bool, bypass: bool)

  datatype Grid = Uniform | Explicit(columns: seq<nat>, rows: seq<nat>)

  datatype Tiles = Tiles(columnsMinus1: nat, rowsMinus1: nat, grid: Grid, acrossTiles: bool)

  datatype Layout = Layout(sync: bool, tiles: Option<Tiles>)

  datatype Deblock = Deblock(acrossSlices: bool, control: Option<(bool, Option<(int, int)>)>)

  datatype End = End(listsModification: bool, mergeMinus2: nat, headerExtension: bool)

  datatype Pps = Pps(refs: Refs, qp: Qp, weights: Weights, layout: Layout, deblock: Deblock, end: End)

  // ---------- readers ----------

  function ReadProfile(bits: seq<bool>): Parse<Profile> {
    var (space, b1) :- TakeU(bits, 2);
    var (tier, b2) :- TakeFlag(b1);
    var (idc, b3) :- TakeU(b2, 5);
    var (compatibility, b4) :- TakeU(b3, 32);
    var (constraints, b5) :- TakeU(b4, 48);
    var (level, b6) :- TakeU(b5, 8);
    Some((Profile(space, tier, idc, compatibility, constraints, level), b6))
  }

  function ReadBuffering(bits: seq<bool>): Parse<Buffering> {
    var (each, b1) :- TakeFlag(bits);
    var (dec, b2) :- TakeUe(b1);
    var (reorder, b3) :- TakeUe(b2);
    var (latency, b4) :- TakeUe(b3);
    Some((Buffering(each, dec, reorder, latency), b4))
  }

  function ReadVps(bits: seq<bool>): Option<Vps> {
    var (id, b1) :- TakeU(bits, 4);
    var (internal, b2) :- TakeFlag(b1);
    var (available, b3) :- TakeFlag(b2);
    var (layers, b4) :- TakeU(b3, 6);
    var (subLayers, b5) :- TakeU(b4, 3);
    if subLayers != 0 then None else
    var (nesting, b6) :- TakeFlag(b5);
    var (reserved, b7) :- TakeU(b6, 16);
    if reserved != 0xFFFF then None else
    var (profile, b8) :- ReadProfile(b7);
    var (buffering, b9) :- ReadBuffering(b8);
    var maxLayerId :- ReadVpsEnd(b9);
    Some(Vps(id, internal, available, layers, nesting, profile, buffering, maxLayerId))
  }

  /** The end of the video parameter set: one layer set, no timing and no extension. */
  function ReadVpsEnd(bits: seq<bool>): Option<nat> {
    var (maxLayerId, b1) :- TakeU(bits, 6);
    var (layerSets, b2) :- TakeUe(b1);
    var (timing, b3) :- TakeFlag(b2);
    var (extension, b4) :- TakeFlag(b3);
    if layerSets != 0 || timing || extension || !H264Reader.TrailingOnly(b4) then None else Some(maxLayerId)
  }

  function ReadPicture(bits: seq<bool>): Parse<Picture> {
    var (vpsId, b1) :- TakeU(bits, 4);
    var (subLayers, b2) :- TakeU(b1, 3);
    if subLayers != 0 then None else
    var (nesting, b3) :- TakeFlag(b2);
    var (profile, b4) :- ReadProfile(b3);
    var (spsId, b5) :- TakeUe(b4);
    var (chroma, b6) :- TakeUe(b5);
    if chroma == 3 then None else
    var (width, b7) :- TakeUe(b6);
    var (height, b8) :- TakeUe(b7);
    var (window, b9) :- ReadWindow(b8);
    Some((Picture(vpsId, nesting, profile, spsId, chroma, width, height, window), b9))
  }

  function ReadWindow(bits: seq<bool>): Parse<Option<Window>> {
    var (present, b1) :- TakeFlag(bits);
    if !present then Some((None, b1)) else
    var (left, b2) :- TakeUe(b1);
    var (right, b3) :- TakeUe(b2);
    var (top, b4) :- TakeUe(b3);
    var (bottom, b5) :- TakeUe(b4);
    Some((Some(Window(left, right, top, bottom)), b5))
  }

  function ReadDepths(bits: seq<bool>): Parse<Depths> {
    var (luma, b1) :- TakeUe(bits);
    var (chroma, b2) :- TakeUe(b1);
    var (poc, b3) :- TakeUe(b2);
    var (buffering, b4) :- ReadBuffering(b3);
    Some((Depths(luma, chroma, poc, buffering), b4))
  }

  function ReadBlocks(bits: seq<bool>): Parse<Blocks> {
    var (minCb, b1) :- TakeUe(bits);
    var (diffCb, b2) :- TakeUe(b1);
    var (minTb, b3) :- TakeUe(b2);
    var (diffTb, b4) :- TakeUe(b3);
    var (inter, b5) :- TakeUe(b4);
    var (intra, b6) :- TakeUe(b5);
    Some((Blocks(minCb, diffCb, minTb, diffTb, inter, intra), b6))
  }

  function ReadTools(bits: seq<bool>): Option<Tools> {
    var (scaling, b1) :- TakeFlag(bits);
    if scaling then None else
    var (amp, b2) :- TakeFlag(b1);
    var (sao, b3) :- TakeFlag(b2);
    var (pcm, b4) :- TakeFlag(b3);
    if pcm then None else
    var (mvp, strong) :- ReadMotionTools(b4);
    Some(Tools(amp, sao, mvp, strong))
  }

  /** The end of the sequence parameter set: motion vector prediction and intra smoothing. */
  function ReadMotionTools(bits: seq<bool>): Option<(bool, bool)> {
    var (sets, b5) :- TakeUe(bits);
    if sets != 0 then None else
    var (longTerm, b6) :- TakeFlag(b5);
    if longTerm then None else
    var (mvp, b7) :- TakeFlag(b6);
    var (strong, b8) :- TakeFlag(b7);
    var (vui, b9) :- TakeFlag(b8);
    if vui then None else
    var (extension, b10) :- TakeFlag(b9);
    if extension || !H264Reader.TrailingOnly(b10) then None else Some((mvp, strong))
  }

  function ReadSps(bits: seq<bool>): Option<Sps> {
    var (picture, b1) :- ReadPicture(bits);
    var (depths, b2) :- ReadDepths(b1);
    var (blocks, b3) :- ReadBlocks(b2);
    var tools :- ReadTools(b3);
    Some(Sps(picture, depths, blocks, tools))
  }

  function ReadRefs(bits: seq<bool>): Parse<Refs> {
    var (ppsId, b1) :- TakeUe(bits);
    var (spsId, b2) :- TakeUe(b1);
    var (dependent, b3) :- TakeFlag(b2);
    var (outputFlag, b4) :- TakeFlag(b3);
    var (extra, b5) :- TakeU(b4, 3);
    var (sign, b6) :- TakeFlag(b5);
    var (cabac, b7) :- TakeFlag(b6);
    var (l0, b8) :- TakeUe(b7);
    var (l1, b9) :- TakeUe(b8);
    Some((Refs(ppsId, spsId, dependent, outputFlag, extra, sign, cabac, l0, l1), b9))
  }

  function ReadQp(bits: seq<bool>): Parse<Qp> {
    var (init, b1) :- TakeSe(bits);
    var (intra, b2) :- TakeFlag(b1);
    var (skip, b3) :- TakeFlag(b2);
    var (delta, b4) :- TakeFlag(b3);
    if !delta then Some((Qp(init, intra, skip, None), b4)) else
    var (depth, b5) :- TakeUe(b4);
    Some((Qp(init, intra, skip, Some(depth)), b5))
  }

  function ReadWeights(bits: seq<bool>): Parse<Weights> {
    var (cb, b1) :- TakeSe(bits);
    var (cr, b2) :- TakeSe(b1);
    var (slice, b3) :- TakeFlag(b2);
    var (weighted, b4) :- TakeFlag(b3);
    var (weightedBi, b5) :- TakeFlag(b4);
    var (bypass, b6) :- TakeFlag(b5);
    Some((Weights(cb, cr, slice, weighted, weightedBi, bypass), b6))
  }

  function TakeUes(bits: seq<bool>, n: nat): Parse<seq<nat>> {
    if n == 0 then Some(([], bits)) else
    var (v, b1) :- TakeUe(bits);
    var (vs, b2) :- TakeUes(b1, n - 1);
    Some(([v] + vs, b2))
  }

  function ReadLayout(bits: seq<bool>): Parse<Layout> {
    var (tiles, b1) :- TakeFlag(bits);
    var (sync, b2) :- TakeFlag(b1);
    if !tiles then Some((Layout(sync, None), b2)) else
    var (columns, b3) :- TakeUe(b2);
    var (rows, b4) :- TakeUe(b3);
    var (uniform, b5) :- TakeFlag(b4);
    var (grid, b6) :- ReadGrid(b5, uniform, columns, rows);
    var (across, b7) :- TakeFlag(b6);
    Some((Layout(sync, Some(Tiles(columns, rows, grid, across))), b7))
  }

  function ReadGrid(bits: seq<bool>, uniform: bool, columns: nat, rows: nat): Parse<Grid> {
    if uniform then Some((Uniform, bits)) else
    var (widths, b1) :- TakeUes(bits, columns);
    var (heights, b2) :- TakeUes(b1, rows);
    Some((Explicit(widths, heights), b2))
  }

  function ReadDeblock(bits: seq<bool>): Parse<Deblock> {
    var (across, b1) :- TakeFlag(bits);
    var (control, b2) :- TakeFlag(b1);
    if !control then Some((Deblock(across, None), b2)) else
    var (override, b3) :- TakeFlag(b2);
    var (disable, b4) :- TakeFlag(b3);
    if disable then Some((Deblock(across, Some((override, None))), b4)) else
    var (beta, b5) :- TakeSe(b4);
    var (tc, b6) :- TakeSe(b5);
    Some((Deblock(across, Some((override, Some((beta, tc))))), b6))
  }

  function ReadEnd(bits: seq<bool>): Option<End> {
    var (scaling, b1) :- TakeFlag(bits);
    if scaling then None else
    var (lists, b2) :- TakeFlag(b1);
    var (merge, b3) :- TakeUe(b2);
    var (header, b4) :- TakeFlag(b3);
    var (extension, b5) :- TakeFlag(b4);
    if extension || !H264Reader.TrailingOnly(b5) then None else Some(End(lists, merge, header))
  }

  function ReadPps(bits: seq<bool>): Option<Pps> {
    var (refs, b1) :- ReadRefs(bits);
    var (qp, b2) :- ReadQp(b1);
    var (weights, b3) :- ReadWeights(b2);
    var (layout, b4) :- ReadLayout(b3);
    var (deblock, b5) :- ReadDeblock(b4);
    var end :- ReadEnd(b5);
    Some(Pps(refs, qp, weights, layout, deblock, end))
  }

  // ---------- what the compiler was asked to say ----------

  const MAIN: Profile := Profile(0, false, 1, 0x4000_0000, 0, 186)

  function BufferingOf(p: Parameters): Buffering {
    Buffering(false, p.maxDecPicBufferingMinus1, if p.noPicReordering == 0 then p.maxDecPicBufferingMinus1 else 0, 0)
  }

  function VpsOf(p: Parameters): Vps {
    Vps(0, true, true, 0, true, MAIN, BufferingOf(p), 0)
  }

  function SpsOf(p: Parameters): Sps
    requires SupportedFields(p)
  {
    Sps(
      Picture(0, true, MAIN, 0, p.chromaFormatIdc, p.picWidth, p.picHeight,
              if p.picWidth == p.visibleWidth && p.picHeight == p.visibleHeight then None
              else Some(Window(0, (p.picWidth - p.visibleWidth) / 2, 0, (p.picHeight - p.visibleHeight) / 2))),
      Depths(0, 0, p.log2MaxPocLsbMinus4, BufferingOf(p)),
      Blocks(p.log2MinCbMinus3, p.log2DiffMaxMinCb, p.log2MinTbMinus2, p.log2DiffMaxMinTb,
             p.maxDepthInter, p.maxDepthIntra),
      Tools(p.ampEnabled != 0, p.saoEnabled != 0, p.temporalMvp != 0, p.strongIntraSmoothing != 0))
  }

  function RefsOf(p: Parameters, ppsId: nat): Refs {
    Refs(ppsId, 0, p.dependentSlices != 0, p.outputFlagPresent != 0, p.numExtraSliceHeaderBits,
         p.signDataHiding != 0, p.cabacInitPresent != 0, p.numRefIdxL0Minus1, p.numRefIdxL1Minus1)
  }

  function QpOf(p: Parameters): Qp {
    Qp(p.initQpMinus26, p.constrainedIntraPred != 0, p.transformSkip != 0,
       if p.cuQpDelta != 0 then Some(p.diffCuQpDeltaDepth) else None)
  }

  function WeightsOf(p: Parameters): Weights {
    Weights(p.cbQpOffset, p.crQpOffset, p.sliceChromaQpOffsets != 0, p.weightedPred != 0,
            p.weightedBipred != 0, p.transquantBypass != 0)
  }

  function LayoutOf(p: Parameters): Layout
    requires p.Shaped() && SupportedFields(p)
  {
    Layout(p.entropyCodingSync != 0,
           if p.tilesEnabled == 0 then None
           else Some(Tiles(p.numTileColumnsMinus1, p.numTileRowsMinus1,
                           Explicit(p.columnWidthMinus1[..p.numTileColumnsMinus1], p.rowHeightMinus1[..p.numTileRowsMinus1]),
                           p.loopFilterAcrossTiles != 0)))
  }

  function DeblockOf(p: Parameters): Deblock {
    Deblock(p.loopFilterAcrossSlices != 0,
            Some((p.deblockingOverride != 0,
                  if p.disableDeblocking != 0 then None else Some((p.betaOffsetDiv2, p.tcOffsetDiv2)))))
  }

  function EndOf(p: Parameters): End {
    End(p.listsModification != 0, p.log2ParallelMergeMinus2, p.sliceHeaderExtension != 0)
  }

  function PpsOf(p: Parameters, ppsId: nat): Pps
    requires p.Shaped() && SupportedFields(p)
  {
    Pps(RefsOf(p, ppsId), QpOf(p), WeightsOf(p), LayoutOf(p), DeblockOf(p), EndOf(p))
  }

  // ---------- the fields written as given ----------

  /** A one-bit field is written as its low bit; a field that is even but not zero is torn from what was given. */
  predicate Torn(flag: Byte) {
    flag != 0 && flag % 2 == 0
  }

  /** Every one-bit field of the sequence parameter set. */
  predicate SaneSps(p: Parameters) {
    !Torn(p.ampEnabled) && !Torn(p.saoEnabled) && !Torn(p.temporalMvp) && !Torn(p.strongIntraSmoothing)
  }

  predicate SaneRefs(p: Parameters) {
    !Torn(p.dependentSlices) && !Torn(p.outputFlagPresent) && !Torn(p.signDataHiding) && !Torn(p.cabacInitPresent)
  }

  predicate SaneQp(p: Parameters) {
    !Torn(p.constrainedIntraPred) && !Torn(p.transformSkip) && !Torn(p.cuQpDelta)
  }

  predicate SaneWeights(p: Parameters) {
    !Torn(p.sliceChromaQpOffsets) && !Torn(p.weightedPred) && !Torn(p.weightedBipred) && !Torn(p.transquantBypass)
  }

  /** The filter flag is written only with tiles. */
  predicate SaneLayout(p: Parameters) {
    !Torn(p.tilesEnabled) && !Torn(p.entropyCodingSync) && (p.tilesEnabled != 0 ==> !Torn(p.loopFilterAcrossTiles))
  }

  predicate SaneDeblock(p: Parameters) {
    !Torn(p.loopFilterAcrossSlices) && !Torn(p.deblockingOverride) && !Torn(p.disableDeblocking)
  }

  predicate SaneEnd(p: Parameters) {
    !Torn(p.listsModification) && !Torn(p.sliceHeaderExtension)
  }

  /** Every one-bit field of the picture parameter set. */
  predicate SanePps(p: Parameters) {
    SaneRefs(p) && SaneQp(p) && SaneWeights(p) && SaneLayout(p) && SaneDeblock(p) && SaneEnd(p)
  }

  // ---------- inversion, part by part ----------

  lemma ReadsProfile(rest: Syntax, after: seq<bool>)
    ensures ReadProfile(Encode(ProfileTierLevel(rest), after)) == Some((MAIN, Encode(rest, after)))
  {
    FieldWidths();
    hide Encode, TakeU, TakeFlag, Then, Pow2;
    var s0 := ProfileTierLevel(rest);
    TakeHead(s0, after);
    var s1 := s0.tail;
    TakeHead(s1, after);
    var s2 := s1.tail;
    TakeHead(s2, after);
    var s3 := s2.tail;
    TakeHead(s3, after);
    var s4 := s3.tail;
    TakeHead(s4, after);
    TakeHead(s4.tail, after);
  }

  lemma ReadsBuffering(p: Parameters, rest: Syntax, after: seq<bool>)
    ensures ReadBuffering(Encode(Ordering(p, rest), after)) == Some((BufferingOf(p), Encode(rest, after)))
  {
    FieldWidths();
    hide Encode, TakeUe, TakeFlag, Then, Pow2;
    var s0 := Ordering(p, rest);
    TakeHead(s0, after);
    var s1 := s0.tail;
    TakeHead(s1, after);
    var s2 := s1.tail;
    TakeHead(s2, after);
    TakeHead(s2.tail, after);
  }

  lemma ReadsVpsEnd(after: seq<bool>)
    requires H264Reader.TrailingOnly(after)
    ensures ReadVpsEnd(Encode(VpsEnd(), after)) == Some(0)
  {
    FieldWidths();
    assert Encode(Done, after) == after;
    hide Encode, TakeU, TakeUe, TakeFlag, Then, Pow2;
    var s0 := VpsEnd();
    TakeHead(s0, after);
    var s1 := s0.tail;
    TakeHead(s1, after);
    var s2 := s1.tail;
    TakeHead(s2, after);
    TakeHead(s2.tail, after);
  }

  lemma ReadsVps(p: Parameters, after: seq<bool>)
    requires H264Reader.TrailingOnly(after)
    ensures ReadVps(Encode(VpsSyntax(p), after)) == Some(VpsOf(p))
  {
    FieldWidths();
    hide Encode, TakeU, TakeUe, TakeFlag, Then, Pow2, ReadProfile, ReadBuffering, ReadVpsEnd, ProfileTierLevel, Ordering;
    var s0 := VpsSyntax(p);
    TakeHead(s0, after);
    var s1 := s0.tail;
    TakeHead(s1, after);
    var s2 := s1.tail;
    TakeHead(s2, after);
    var s3 := s2.tail;
    TakeHead(s3, after);
    var s4 := s3.tail;
    TakeHead(s4, after);
    var s5 := s4.tail;
    TakeHead(s5, after);
    TakeHead(s5.tail, after);
    ReadsProfile(VpsTail(p), after);
    ReadsBuffering(p, VpsEnd(), after);
    ReadsVpsEnd(after);
  }

  lemma ReadsWindow(p: Parameters, rest: Syntax, after: seq<bool>)
    requires SupportedFields(p)
    ensures ReadWindow(Encode(SpsWindow(p, rest), after)) == Some((SpsOf(p).picture.window, Encode(rest, after)))
  {
    FieldWidths();
    hide Encode, TakeUe, TakeFlag, Then, Pow2;
    var s0 := SpsWindow(p, rest);
    TakeHead(s0, after);
    if CropRight(p) != 0 || CropBottom(p) != 0 {
      var s1 := s0.tail;
      TakeHead(s1, after);
      var s2 := s1.tail;
      TakeHead(s2, after);
      var s3 := s2.tail;
      TakeHead(s3, after);
      TakeHead(s3.tail, after);
    }
  }

  lemma ReadsPicture(p: Parameters, rest: Syntax, after: seq<bool>)
    requires SupportedFields(p)
    ensures ReadPicture(Encode(SpsPicture(p, rest), after)) == Some((SpsOf(p).picture, Encode(rest, after)))
  {
    FieldWidths();
    hide Encode, TakeU, TakeUe, TakeFlag, Then, Pow2, ReadProfile, ReadWindow, ProfileTierLevel, SpsWindow;
    var s0 := SpsPicture(p, rest);
    TakeHead(s0, after);
    TakeHead(s0.tail, after);
    TakeHead(s0.tail.tail, after);
    var inner := SpsFormat(p, rest);
    ReadsProfile(inner, after);
    TakeHead(inner, after);
    TakeHead(inner.tail, after);
    TakeHead(inner.tail.tail, after);
    TakeHead(inner.tail.tail.tail, after);
    ReadsWindow(p, rest, after);
  }

  lemma ReadsDepths(p: Parameters, rest: Syntax, after: seq<bool>)
    requires SupportedFields(p)
    ensures ReadDepths(Encode(SpsDepths(p, rest), after)) == Some((SpsOf(p).depths, Encode(rest, after)))
  {
    hide Encode, TakeUe, TakeFlag, Then, ReadBuffering;
    var s0 := SpsDepths(p, rest);
    TakeHead(s0, after);
    TakeHead(s0.tail, after);
    TakeHead(s0.tail.tail, after);
    ReadsBuffering(p, rest, after);
  }

  lemma ReadsBlocks(p: Parameters, rest: Syntax, after: seq<bool>)
    requires SupportedFields(p)
    ensures ReadBlocks(Encode(SpsBlocks(p, rest), after)) == Some((SpsOf(p).blocks, Encode(rest, after)))
  {
    hide Encode, TakeUe, Then;
    var s0 := SpsBlocks(p, rest);
    TakeHead(s0, after);
    var s1 := s0.tail;
    TakeHead(s1, after);
    var s2 := s1.tail;
    TakeHead(s2, after);
    var s3 := s2.tail;
    TakeHead(s3, after);
    var s4 := s3.tail;
    TakeHead(s4, after);
    TakeHead(s4.tail, after);
  }

  lemma ReadsMotionTools(p: Parameters, after: seq<bool>)
    requires SupportedFields(p) && H264Reader.TrailingOnly(after)
    ensures var s := SpsTools(p).tail.tail.tail.tail;
            ReadMotionTools(Encode(s, after)) == Some((p.temporalMvp % 2 == 1, p.strongIntraSmoothing % 2 == 1))
  {
    FieldWidths();
    assert Encode(Done, after) == after;
    hide Encode, TakeUe, TakeFlag, Then, Pow2, H264Reader.TrailingOnly;
    var s4 := SpsTools(p).tail.tail.tail.tail;
    TakeHead(s4, after);
    var s5 := s4.tail;
    TakeHead(s5, after);
    var s6 := s5.tail;
    TakeHead(s6, after);
    var s7 := s6.tail;
    TakeHead(s7, after);
    var s8 := s7.tail;
    TakeHead(s8, after);
    TakeHead(s8.tail, after);
  }

  lemma ReadsTools(p: Parameters, after: seq<bool>)
    requires SupportedFields(p) && H264Reader.TrailingOnly(after)
    ensures var r := ReadTools(Encode(SpsTools(p), after)); r.Some? && (r.value == SpsOf(p).tools <==> SaneSps(p))
  {
    FieldWidths();
    hide Encode, TakeUe, TakeFlag, Then, Pow2, H264Reader.TrailingOnly, ReadMotionTools;
    var s0 := SpsTools(p);
    TakeHead(s0, after);
    var s1 := s0.tail;
    TakeHead(s1, after);
    var s2 := s1.tail;
    TakeHead(s2, after);
    var s3 := s2.tail;
    TakeHead(s3, after);
    ReadsMotionTools(p, after);
  }

  lemma ReadsSps(p: Parameters, after: seq<bool>)
    requires SupportedFields(p) && H264Reader.TrailingOnly(after)
    ensures ReadSps(Encode(SpsSyntax(p), after)) == Some(SpsOf(p)) <==> SaneSps(p)
  {
    hide Encode, SaneSps, SpsPicture, SpsDepths, SpsBlocks, SpsTools;
    hide ReadPicture, ReadDepths, ReadBlocks, ReadTools, H264Reader.TrailingOnly, SupportedFields;
    var tools := SpsTools(p);
    var blocks := SpsBlocks(p, tools);
    var depths := SpsDepths(p, blocks);
    ReadsPicture(p, depths, after);
    ReadsDepths(p, blocks, after);
    ReadsBlocks(p, tools, after);
    ReadsTools(p, after);
  }

  lemma ReadsRefs(p: Parameters, ppsId: nat, rest: Syntax, after: seq<bool>)
    requires SupportedFields(p) && ppsId <= 63
    ensures var r := ReadRefs(Encode(PpsHead(p, ppsId, rest), after));
            r.Some? && r.value.1 == Encode(rest, after) && (r.value.0 == RefsOf(p, ppsId) <==> SaneRefs(p))
  {
    FieldWidths();
    hide Encode, TakeU, TakeUe, TakeFlag, Then, Pow2;
    var s0 := PpsHead(p, ppsId, rest);
    TakeHead(s0, after);
    var s1 := s0.tail;
    TakeHead(s1, after);
    var s2 := s1.tail;
    TakeHead(s2, after);
    var s3 := s2.tail;
    TakeHead(s3, after);
    var s4 := s3.tail;
    TakeHead(s4, after);
    var s5 := s4.tail;
    TakeHead(s5, after);
    var s6 := s5.tail;
    TakeHead(s6, after);
    var s7 := s6.tail;
    TakeHead(s7, after);
    TakeHead(s7.tail, after);
  }

  lemma ReadsQp(p: Parameters, rest: Syntax, after: seq<bool>)
    ensures SaneQp(p) ==> ReadQp(Encode(PpsQp(p, rest), after)) == Some((QpOf(p), Encode(rest, after)))
    ensures !SaneQp(p) ==>
              var r := ReadQp(Encode(PpsQp(p, rest), after)); r.Some? && r.value.0 != QpOf(p)
  {
    FieldWidths();
    hide Encode, TakeSe, TakeUe, TakeFlag, Then, Pow2;
    var s0 := PpsQp(p, rest);
    TakeHead(s0, after);
    var s1 := s0.tail;
    TakeHead(s1, after);
    var s2 := s1.tail;
    TakeHead(s2, after);
    var s3 := s2.tail;
    TakeHead(s3, after);
    if p.cuQpDelta != 0 {
      TakeHead(s3.tail, after);
    }
  }

  lemma ReadsWeights(p: Parameters, rest: Syntax, after: seq<bool>)
    ensures var r := ReadWeights(Encode(PpsWeights(p, rest), after));
            r.Some? && r.value.1 == Encode(rest, after) && (r.value.0 == WeightsOf(p) <==> SaneWeights(p))
  {
    FieldWidths();
    hide Encode, TakeSe, TakeFlag, Then, Pow2;
    var s0 := PpsWeights(p, rest);
    TakeHead(s0, after);
    var s1 := s0.tail;
    TakeHead(s1, after);
    var s2 := s1.tail;
    TakeHead(s2, after);
    var s3 := s2.tail;
    TakeHead(s3, after);
    var s4 := s3.tail;
    TakeHead(s4, after);
    TakeHead(s4.tail, after);
  }

  lemma {:induction false} ReadsSizes(sizes: seq<U16>, rest: Syntax, after: seq<bool>)
    ensures TakeUes(Encode(Sizes(sizes, rest), after), |sizes|) == Some((sizes, Encode(rest, after)))
  {
    hide Encode, TakeUe, Then;
    if sizes != [] {
      TakeHead(Sizes(sizes, rest), after);
      ReadsSizes(sizes[1..], rest, after);
      assert [sizes[0]] + sizes[1..] == sizes;
    }
  }

  lemma ReadsLayout(p: Parameters, rest: Syntax, after: seq<bool>)
    requires p.Shaped() && SupportedFields(p)
    ensures SaneLayout(p) ==>
              ReadLayout(Encode(PpsTiles(p, rest), after)) == Some((LayoutOf(p), Encode(rest, after)))
    ensures !SaneLayout(p) ==>
              var r := ReadLayout(Encode(PpsTiles(p, rest), after)); r.Some? && r.value.0 != LayoutOf(p)
  {
    FieldWidths();
    hide Encode, TakeUe, TakeFlag, Then, Pow2, Sizes, TakeUes;
    var s0 := PpsTiles(p, rest);
    TakeHead(s0, after);
    var s1 := s0.tail;
    TakeHead(s1, after);
    if p.tilesEnabled % 2 == 1 {
      var s2 := s1.tail;
      TakeHead(s2, after);
      var s3 := s2.tail;
      TakeHead(s3, after);
      var s4 := s3.tail;
      TakeHead(s4, after);
      var last := Then(Bit(p.loopFilterAcrossTiles), rest);
      var rows := p.rowHeightMinus1[..p.numTileRowsMinus1];
      ReadsSizes(p.columnWidthMinus1[..p.numTileColumnsMinus1], Sizes(rows, last), after);
      ReadsSizes(rows, last, after);
      TakeHead(last, after);
    }
  }

  lemma ReadsDeblock(p: Parameters, rest: Syntax, after: seq<bool>)
    ensures SaneDeblock(p) ==>
              ReadDeblock(Encode(PpsDeblock(p, rest), after)) == Some((DeblockOf(p), Encode(rest, after)))
    ensures !SaneDeblock(p) ==>
              var r := ReadDeblock(Encode(PpsDeblock(p, rest), after)); r.Some? ==> r.value.0 != DeblockOf(p)
  {
    FieldWidths();
    hide Encode, TakeSe, TakeFlag, Then, Pow2;
    var s0 := PpsDeblock(p, rest);
    TakeHead(s0, after);
    var s1 := s0.tail;
    TakeHead(s1, after);
    var s2 := s1.tail;
    TakeHead(s2, after);
    var s3 := s2.tail;
    TakeHead(s3, after);
    if p.disableDeblocking == 0 {
      TakeHead(s3.tail, after);
      TakeHead(s3.tail.tail, after);
    }
  }

  lemma EncodeDone(after: seq<bool>)
    ensures Encode(Done, after) == after
  {
  }

  lemma ReadsEnd(p: Parameters, after: seq<bool>)
    requires H264Reader.TrailingOnly(after)
    ensures var r := ReadEnd(Encode(PpsEnd(p), after)); r.Some? && (r.value == EndOf(p) <==> SaneEnd(p))
  {
    hide Encode, TakeU, TakeUe, TakeFlag, TakeSe, Then, Pow2, Code, H264Reader.TrailingOnly, AllCodable, Length;
    FieldWidths();
    EncodeDone(after);
    var s0 := PpsEnd(p);
    TakeHead(s0, after);
    var s1 := s0.tail;
    TakeHead(s1, after);
    var s2 := s1.tail;
    TakeHead(s2, after);
    var s3 := s2.tail;
    TakeHead(s3, after);
    TakeHead(s3.tail, after);
  }

  lemma ReadsPps(p: Parameters, ppsId: nat, after: seq<bool>)
    requires p.Shaped() && SupportedFields(p) && ppsId <= 63 && H264Reader.TrailingOnly(after)
    ensures ReadPps(Encode(PpsSyntax(p, ppsId), after)) == Some(PpsOf(p, ppsId)) <==> SanePps(p)
  {
    hide Encode, PpsHead, PpsQp, PpsWeights, PpsTiles, PpsDeblock, PpsEnd, H264Reader.TrailingOnly, SupportedFields;
    hide ReadRefs, ReadQp, ReadWeights, ReadLayout, ReadDeblock, ReadEnd;
    hide RefsOf, QpOf, WeightsOf, LayoutOf, DeblockOf, EndOf;
    hide SaneRefs, SaneQp, SaneWeights, SaneLayout, SaneDeblock, SaneEnd;
    var end := PpsEnd(p);
    var deblock := PpsDeblock(p, end);
    var tiles := PpsTiles(p, deblock);
    var weights := PpsWeights(p, tiles);
    ReadsRefs(p, ppsId, PpsQp(p, weights), after);
    ReadsQp(p, weights, after);
    ReadsWeights(p, tiles, after);
    ReadsLayout(p, deblock, after);
    ReadsDeblock(p, end, after);
    ReadsEnd(p, after);
  }

  /** The payload bits of a NAL unit with a two-byte header. */
  function NalBits(nal: seq<Byte>): seq<bool>
    requires |nal| >= 6
  {
    Unpack(Unescape(nal[6..], 0))
  }

  /** A start code and nal_unit_header() of section 7.3.1.2 for the base layer and the lowest temporal sub-layer. */
  predicate IsNal(nal: seq<Byte>, kind: nat) {
    && |nal| >= 6 && nal[0] == 0 && nal[1] == 0 && nal[2] == 0 && nal[3] == 1
    && nal[4] / 128 == 0 && nal[4] / 2 % 64 == kind && nal[4] % 2 * 32 + nal[5] / 8 == 0 && nal[5] % 8 == 1
  }

  function ReadVpsNal(nal: seq<Byte>): Option<Vps> {
    if IsNal(nal, 32) then ReadVps(NalBits(nal)) else None
  }

  function ReadSpsNal(nal: seq<Byte>): Option<Sps> {
    if IsNal(nal, 33) then ReadSps(NalBits(nal)) else None
  }

  function ReadPpsNal(nal: seq<Byte>): Option<Pps> {
    if IsNal(nal, 34) then ReadPps(NalBits(nal)) else None
  }

  /** The output size of section 7.4.3.2.1 for 4:2:0 pictures: the conformance window counts in units of two. */
  function ShownWidth(r: Sps): int {
    r.picture.width - (if r.picture.window.None? then 0 else 2 * (r.picture.window.value.left + r.picture.window.value.right))
  }

  function ShownHeight(r: Sps): int {
    r.picture.height - (if r.picture.window.None? then 0 else 2 * (r.picture.window.value.top + r.picture.window.value.bottom))
  }

  lemma NalKind(header: seq<Byte>, rbsp: seq<Byte>, kind: nat)
    requires |header| == 2 && header[0] == 2 * kind && kind < 64 && header[1] == 1
    ensures IsNal(Nal(header, rbsp), kind)
  {
  }

  lemma NalBitsOfNal(header: seq<Byte>, s: Syntax)
    requires |header| == 2
    ensures |Nal(header, Rbsp(s))| >= 6
    ensures NalBits(Nal(header, Rbsp(s))) == RbspBits(s)
  {
    hide RbspBits, Pack, Unpack, Escape, Unescape;
    var nal := Nal(header, Rbsp(s));
    assert nal[6..] == Escape(Rbsp(s), 0);
    UnescapeInverts(Rbsp(s), 0);
    UnpackOfPack(RbspBits(s));
  }

  lemma RbspIsTrailed(s: Syntax)
    ensures exists after :: H264Reader.TrailingOnly(after) && RbspBits(s) == Encode(s, after)
  {
    hide Encode;
    var after := Trailing(|Encode(s, [])|);
    EncodeThen(s, [], after);
    assert [] + after == after;
    H264Reader.TrailingIsTrailing(|Encode(s, [])|);
  }

  /**
    Each NAL unit of a built configuration is of its type and reads back as the parameters it was built from, the
    sequence and the picture parameter set exactly on sane flags; any other sequence parameter set does not read back at
    all or still shows the picture that was asked for.
   */
  lemma ConfigReadsBack(p: Parameters, ppsId: nat)
    requires p.Shaped() && SupportedFields(p) && ppsId <= 63
    ensures ReadVpsNal(VpsNal(p)) == Some(VpsOf(p))
    ensures ReadSpsNal(SpsNal(p)) == Some(SpsOf(p)) <==> SaneSps(p)
    ensures ReadPpsNal(PpsNal(p, ppsId)) == Some(PpsOf(p, ppsId)) <==> SanePps(p)
    ensures var r := ReadSpsNal(SpsNal(p));
            r.Some? ==> ShownWidth(r.value) == p.visibleWidth && ShownHeight(r.value) == p.visibleHeight
  {
    hide VpsSyntax, SpsSyntax, PpsSyntax, RbspBits, Rbsp, Nal, NalBits, Encode, SupportedFields, IsNal;
    hide ReadVps, ReadSps, ReadPps, VpsOf, SpsOf, PpsOf, SaneSps, SanePps, H264Reader.TrailingOnly, ShownWidth, ShownHeight;
    NalBitsOfNal([64, 1], VpsSyntax(p));
    NalBitsOfNal([66, 1], SpsSyntax(p));
    NalBitsOfNal([68, 1], PpsSyntax(p, ppsId));
    NalKind([64, 1], Rbsp(VpsSyntax(p)), 32);
    NalKind([66, 1], Rbsp(SpsSyntax(p)), 33);
    NalKind([68, 1], Rbsp(PpsSyntax(p, ppsId)), 34);
    RbspIsTrailed(VpsSyntax(p));
    var v :| H264Reader.TrailingOnly(v) && RbspBits(VpsSyntax(p)) == Encode(VpsSyntax(p), v);
    ReadsVps(p, v);
    RbspIsTrailed(SpsSyntax(p));
    var s :| H264Reader.TrailingOnly(s) && RbspBits(SpsSyntax(p)) == Encode(SpsSyntax(p), s);
    ReadsSps(p, s);
    SpsShowsPicture(p, s);
    RbspIsTrailed(PpsSyntax(p, ppsId));
    var q :| H264Reader.TrailingOnly(q) && RbspBits(PpsSyntax(p, ppsId)) == Encode(PpsSyntax(p, ppsId), q);
    ReadsPps(p, ppsId, q);
  }

  lemma SpsShowsPicture(p: Parameters, after: seq<bool>)
    requires SupportedFields(p)
    ensures var r := ReadSps(Encode(SpsSyntax(p), after));
            r.Some? ==> ShownWidth(r.value) == p.visibleWidth && ShownHeight(r.value) == p.visibleHeight
  {
    hide Encode, SpsPicture, ReadPicture, ReadDepths, ReadBlocks, ReadTools;
    ReadsPicture(p, SpsDepths(p, SpsBlocks(p, SpsTools(p))), after);
  }

  /** A flag given as 2 is enough: the compiler accepts these parameters and the set does not read back as given. */
  lemma EvenFlagIsLost() returns (p: Parameters)
    ensures p.Shaped() && Supported(p) && p.signDataHiding == 2
    ensures ReadPpsNal(PpsNal(p, 0)) != Some(PpsOf(p, 0))
  {
    hide ReadPpsNal, ReadSpsNal, ReadVpsNal, PpsNal, SpsNal, VpsNal, PpsOf, SupportedFields;
    p := Smallest(2);
    ConfigReadsBack(p, 0);
  }
}
