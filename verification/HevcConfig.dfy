/** The H.265 parameter-set compiler of src/vaapi_advc/advc_vaapi_decode_hevc.c. */
module HevcConfig {
  import opened Bits
  import opened SyntaxElements
  import opened BitIo
  import opened AnnexB
  import H264Config

  const MAX_CONFIG_BYTES: nat := 2048
  const MAX_TILE_COLUMNS: nat := 20
  const MAX_TILE_ROWS: nat := 22

  type U16 = H264Config.U16
  type U32 = H264Config.U32
  type I8 = H264Config.I8

  datatype Parameters = Parameters(
    visibleWidth: U32,
    visibleHeight: U32,
    picWidth: U16,
    picHeight: U16,
    chromaFormatIdc: Byte,
    separateColourPlane: Byte,
    bitDepthLumaMinus8: Byte,
    bitDepthChromaMinus8: Byte,
    maxDecPicBufferingMinus1: Byte,
    noPicReordering: Byte,
    log2MinCbMinus3: Byte,
    log2DiffMaxMinCb: Byte,
    log2MinTbMinus2: Byte,
    log2DiffMaxMinTb: Byte,
    maxDepthIntra: Byte,
    maxDepthInter: Byte,
    scalingListEnabled: Byte,
    ampEnabled: Byte,
    saoEnabled: Byte,
    pcmEnabled: Byte,
    strongIntraSmoothing: Byte,
    numShortTermRps: Byte,
    longTermRefPics: Byte,
    numLongTermRefPicSps: Byte,
    temporalMvp: Byte,
    log2MaxPocLsbMinus4: Byte,
    dependentSlices: Byte,
    outputFlagPresent: Byte,
    numExtraSliceHeaderBits: Byte,
    signDataHiding: Byte,
    cabacInitPresent: Byte,
    numRefIdxL0Minus1: Byte,
    numRefIdxL1Minus1: Byte,
    initQpMinus26: I8,
    constrainedIntraPred: Byte,
    transformSkip: Byte,
    cuQpDelta: Byte,
    diffCuQpDeltaDepth: Byte,
    cbQpOffset: I8,
    crQpOffset: I8,
    sliceChromaQpOffsets: Byte,
    weightedPred: Byte,
    weightedBipred: Byte,
    transquantBypass: Byte,
    tilesEnabled: Byte,
    entropyCodingSync: Byte,
    numTileColumnsMinus1: Byte,
    numTileRowsMinus1: Byte,
    columnWidthMinus1: seq<U16>,
    rowHeightMinus1: seq<U16>,
    loopFilterAcrossTiles: Byte,
    loopFilterAcrossSlices: Byte,
    deblockingOverride: Byte,
    disableDeblocking: Byte,
    betaOffsetDiv2: I8,
    tcOffsetDiv2: I8,
    listsModification: Byte,
    log2ParallelMergeMinus2: Byte,
    sliceHeaderExtension: Byte)
  {
    /** The two fixed-length arrays of the C struct. */
    predicate Shaped() {
      |columnWidthMinus1| == MAX_TILE_COLUMNS - 1 && |rowHeightMinus1| == MAX_TILE_ROWS - 1
    }

    function CtbLog2(): nat { log2MinCbMinus3 + 3 + log2DiffMaxMinCb }
  }

  function CtbCount(size: nat, log2: nat): nat {
    (size + Pow2(log2) - 1) / Pow2(log2)
  }

  /** The samples covered by the first `n` explicit tile columns or rows, in coding tree blocks. */
  function TileSum(sizes: seq<U16>, n: nat): nat
    requires n <= |sizes|
  {
    if n == 0 then 0 else TileSum(sizes, n - 1) + sizes[n - 1] + 1
  }

  predicate SupportedFields(p: Parameters) {
    && 0 < p.visibleWidth <= 8192 && 0 < p.visibleHeight <= 8192
    && p.picWidth != 0 && p.picHeight != 0
    && p.chromaFormatIdc == 1 && p.separateColourPlane == 0
    && p.bitDepthLumaMinus8 == 0 && p.bitDepthChromaMinus8 == 0
    && p.scalingListEnabled == 0 && p.pcmEnabled == 0
    && p.numShortTermRps == 0 && p.longTermRefPics == 0 && p.numLongTermRefPicSps == 0
    && p.log2MaxPocLsbMinus4 <= 12
    && p.log2MinCbMinus3 <= 3 && p.log2DiffMaxMinCb <= 3
    && p.log2MinTbMinus2 <= 3 && p.log2DiffMaxMinTb <= 3
    && p.maxDecPicBufferingMinus1 <= 15
    && p.numRefIdxL0Minus1 <= 14 && p.numRefIdxL1Minus1 <= 14
    && p.numExtraSliceHeaderBits <= 7
    && p.numTileColumnsMinus1 < MAX_TILE_COLUMNS && p.numTileRowsMinus1 < MAX_TILE_ROWS
    && p.visibleWidth <= p.picWidth && p.visibleHeight <= p.picHeight
    && (p.picWidth - p.visibleWidth) % 2 == 0 && (p.picHeight - p.visibleHeight) % 2 == 0
    && p.CtbLog2() <= 6
  }

  predicate SupportedTiles(p: Parameters)
    requires p.Shaped() && SupportedFields(p)
  {
    if p.tilesEnabled == 0 then
      p.numTileColumnsMinus1 == 0 && p.numTileRowsMinus1 == 0
    else
      && p.numTileColumnsMinus1 + 1 <= CtbCount(p.picWidth, p.CtbLog2())
      && p.numTileRowsMinus1 + 1 <= CtbCount(p.picHeight, p.CtbLog2())
      && TileSum(p.columnWidthMinus1, p.numTileColumnsMinus1) < CtbCount(p.picWidth, p.CtbLog2())
      && TileSum(p.rowHeightMinus1, p.numTileRowsMinus1) < CtbCount(p.picHeight, p.CtbLog2())
  }

  /** The subset `validate_parameters` accepts: explicit tiles leave room for the last, implied one. */
  predicate Supported(p: Parameters)
    requires p.Shaped()
  {
    SupportedFields(p) && SupportedTiles(p)
  }

  /** The smallest picture there is: one minimal coding block, every option off but the flag given. */
  function Smallest(signDataHiding: Byte): (p: Parameters)
    ensures p.Shaped() && Supported(p) && p.signDataHiding == signDataHiding
  {
    Parameters(8, 8, 8, 8, 1, 0, 0, 0, 0, 0, 0, 0, 0, 0, 0, 0, 0, 0, 0, 0, 0, 0, 0, 0, 0, 0, 0, 0, 0, signDataHiding, 0, 0, 0, 0,
               0, 0, 0, 0, 0, 0, 0, 0, 0, 0, 0, 0, 0, 0, seq(MAX_TILE_COLUMNS - 1, _ => 0), seq(MAX_TILE_ROWS - 1, _ => 0), 0, 0, 0,
               0, 0, 0, 0, 0, 0)
  }

  /** One of the two tile loops: fails as soon as the explicit tiles reach the picture's edge. */
  method TilesFit(sizes: seq<U16>, n: nat, limit: nat) returns (ok: bool)
    requires n <= |sizes| && limit > 0
    ensures ok <==> TileSum(sizes, n) < limit
  {
    var sum := 0;
    for i := 0 to n
      invariant sum == TileSum(sizes, i) < limit
    {
      sum := sum + sizes[i] + 1;
      if sum >= limit {
        TileSumGrows(sizes, i + 1, n);
        return false;
      }
    }
    return true;
  }

  lemma {:induction false} TileSumGrows(sizes: seq<U16>, m: nat, n: nat)
    requires m <= n <= |sizes|
    ensures TileSum(sizes, m) <= TileSum(sizes, n)
  {
    if m < n { TileSumGrows(sizes, m, n - 1); }
  }

  method Validate(p: Parameters) returns (ok: bool)
    requires p.Shaped()
    ensures ok <==> Supported(p)
  {
    if !SupportedFields(p) {
      return false;
    }
    var ctbWidth := CtbCount(p.picWidth, p.CtbLog2());
    var ctbHeight := CtbCount(p.picHeight, p.CtbLog2());
    if p.tilesEnabled == 0 {
      return p.numTileColumnsMinus1 == 0 && p.numTileRowsMinus1 == 0;
    }
    hide CtbCount;
    if p.numTileColumnsMinus1 + 1 > ctbWidth || p.numTileRowsMinus1 + 1 > ctbHeight {
      return false;
    }
    ok := TilesFit(p.columnWidthMinus1, p.numTileColumnsMinus1, ctbWidth);
    if ok {
      ok := TilesFit(p.rowHeightMinus1, p.numTileRowsMinus1, ctbHeight);
    }
  }

  function CropRight(p: Parameters): nat
    requires SupportedFields(p)
  {
    (p.picWidth - p.visibleWidth) / 2
  }

  function CropBottom(p: Parameters): nat
    requires SupportedFields(p)
  {
    (p.picHeight - p.visibleHeight) / 2
  }

  function MaxReorder(p: Parameters): nat {
    if p.noPicReordering != 0 then 0 else p.maxDecPicBufferingMinus1
  }

  // ---------- the put chains ----------

  function ProfileTierLevel(rest: Syntax): Syntax {
    Then(U(0, 2),
    Then(Bit(0),
    Then(U(1, 5),
    Then(U(0x4000_0000, 32),
    Then(U(0, 48),
    Then(U(186, 8),
    rest))))))
  }

  function VpsSyntax(p: Parameters): Syntax {
    Then(U(0, 4),
    Then(Bit(1),
    Then(Bit(1),
    Then(U(0, 6),
    Then(U(0, 3),
    Then(Bit(1),
    Then(U(0xFFFF, 16),
    ProfileTierLevel(VpsTail(p)))))))))
  }

  function VpsTail(p: Parameters): Syntax {
    Ordering(p, VpsEnd())
  }

  function VpsEnd(): Syntax {
    Then(U(0, 6),
    Then(UE(0),
    Then(Bit(0),
    Then(Bit(0),
    Done))))
  }

  /** Buffering and reordering limits of the one sub-layer. */
  function Ordering(p: Parameters, rest: Syntax): Syntax {
    Then(Bit(0),
    Then(UE(p.maxDecPicBufferingMinus1),
    Then(UE(MaxReorder(p)),
    Then(UE(0),
    rest))))
  }

  function SpsSyntax(p: Parameters): Syntax
    requires SupportedFields(p)
  {
    SpsPicture(p, SpsDepths(p, SpsBlocks(p, SpsTools(p))))
  }

  function SpsPicture(p: Parameters, rest: Syntax): Syntax
    requires SupportedFields(p)
  {
    Then(U(0, 4),
    Then(U(0, 3),
    Then(Bit(1),
    ProfileTierLevel(SpsFormat(p, rest)))))
  }

  function SpsFormat(p: Parameters, rest: Syntax): Syntax
    requires SupportedFields(p)
  {
    Then(UE(0),
    Then(UE(p.chromaFormatIdc),
    Then(UE(p.picWidth),
    Then(UE(p.picHeight),
    SpsWindow(p, rest)))))
  }

  function SpsWindow(p: Parameters, rest: Syntax): Syntax
    requires SupportedFields(p)
  {
    if CropRight(p) != 0 || CropBottom(p) != 0 then
      Then(Bit(1),
      Then(UE(0),
      Then(UE(CropRight(p)),
      Then(UE(0),
      Then(UE(CropBottom(p)),
      rest)))))
    else
      Then(Bit(0), rest)
  }

  function SpsDepths(p: Parameters, rest: Syntax): Syntax {
    Then(UE(p.bitDepthLumaMinus8),
    Then(UE(p.bitDepthChromaMinus8),
    Then(UE(p.log2MaxPocLsbMinus4),
    Ordering(p, rest))))
  }

  function SpsBlocks(p: Parameters, rest: Syntax): Syntax {
    Then(UE(p.log2MinCbMinus3),
    Then(UE(p.log2DiffMaxMinCb),
    Then(UE(p.log2MinTbMinus2),
    Then(UE(p.log2DiffMaxMinTb),
    Then(UE(p.maxDepthInter),
    Then(UE(p.maxDepthIntra),
    rest))))))
  }

  function SpsTools(p: Parameters): Syntax {
    Then(Bit(p.scalingListEnabled),
    Then(Bit(p.ampEnabled),
    Then(Bit(p.saoEnabled),
    Then(Bit(p.pcmEnabled),
    Then(UE(p.numShortTermRps),
    Then(Bit(p.longTermRefPics),
    Then(Bit(p.temporalMvp),
    Then(Bit(p.strongIntraSmoothing),
    Then(Bit(0),
    Then(Bit(0),
    Done))))))))))
  }

  function PpsSyntax(p: Parameters, ppsId: nat): Syntax
    requires p.Shaped() && SupportedFields(p)
  {
    PpsHead(p, ppsId, PpsQp(p, PpsWeights(p, PpsTiles(p, PpsDeblock(p, PpsEnd(p))))))
  }

  function PpsHead(p: Parameters, ppsId: nat, rest: Syntax): Syntax {
    Then(UE(ppsId),
    Then(UE(0),
    Then(Bit(p.dependentSlices),
    Then(Bit(p.outputFlagPresent),
    Then(U(p.numExtraSliceHeaderBits, 3),
    Then(Bit(p.signDataHiding),
    Then(Bit(p.cabacInitPresent),
    Then(UE(p.numRefIdxL0Minus1),
    Then(UE(p.numRefIdxL1Minus1),
    rest)))))))))
  }

  function PpsQp(p: Parameters, rest: Syntax): Syntax {
    Then(SE(p.initQpMinus26),
    Then(Bit(p.constrainedIntraPred),
    Then(Bit(p.transformSkip),
    Then(Bit(p.cuQpDelta),
    if p.cuQpDelta != 0 then Then(UE(p.diffCuQpDeltaDepth), rest) else rest))))
  }

  function PpsWeights(p: Parameters, rest: Syntax): Syntax {
    Then(SE(p.cbQpOffset),
    Then(SE(p.crQpOffset),
    Then(Bit(p.sliceChromaQpOffsets),
    Then(Bit(p.weightedPred),
    Then(Bit(p.weightedBipred),
    Then(Bit(p.transquantBypass),
    rest))))))
  }

  function PpsTiles(p: Parameters, rest: Syntax): Syntax
    requires p.Shaped() && SupportedFields(p)
  {
    Then(Bit(p.tilesEnabled),
    Then(Bit(p.entropyCodingSync),
    if p.tilesEnabled == 0 then rest else
      Then(UE(p.numTileColumnsMinus1),
      Then(UE(p.numTileRowsMinus1),
      Then(Bit(0),
      Sizes(p.columnWidthMinus1[..p.numTileColumnsMinus1],
      Sizes(p.rowHeightMinus1[..p.numTileRowsMinus1],
      Then(Bit(p.loopFilterAcrossTiles),
      rest))))))))
  }

  /** The loop that writes explicit tile sizes. */
  function Sizes(sizes: seq<U16>, rest: Syntax): Syntax {
    if sizes == [] then rest else Then(UE(sizes[0]), Sizes(sizes[1..], rest))
  }

  function PpsDeblock(p: Parameters, rest: Syntax): Syntax {
    Then(Bit(p.loopFilterAcrossSlices),
    Then(Bit(1),
    Then(Bit(p.deblockingOverride),
    Then(Bit(p.disableDeblocking),
    if p.disableDeblocking == 0 then Then(SE(p.betaOffsetDiv2), Then(SE(p.tcOffsetDiv2), rest)) else rest))))
  }

  function PpsEnd(p: Parameters): Syntax {
    Then(Bit(0),
    Then(Bit(p.listsModification),
    Then(UE(p.log2ParallelMergeMinus2),
    Then(Bit(p.sliceHeaderExtension),
    Then(Bit(0),
    Done)))))
  }

  function VpsNal(p: Parameters): seq<Byte> {
    Nal([64, 1], Rbsp(VpsSyntax(p)))
  }

  function SpsNal(p: Parameters): seq<Byte>
    requires SupportedFields(p)
  {
    Nal([66, 1], Rbsp(SpsSyntax(p)))
  }

  function PpsNal(p: Parameters, ppsId: nat): seq<Byte>
    requires p.Shaped() && SupportedFields(p)
  {
    Nal([68, 1], Rbsp(PpsSyntax(p, ppsId)))
  }

  function CodecConfig(p: Parameters, ppsId: nat): seq<Byte>
    requires p.Shaped() && SupportedFields(p)
  {
    VpsNal(p) + SpsNal(p) + PpsNal(p, ppsId)
  }

  // ---------- sizes ----------

  lemma FieldWidths()
    ensures Pow2(1) == 2 && Pow2(2) == 4 && Pow2(3) == 8 && Pow2(4) == 16 && Pow2(5) == 32 && Pow2(6) == 64
    ensures Pow2(8) == 256 && Pow2(16) == 0x1_0000 && Pow2(32) == 0x1_0000_0000 && Pow2(48) > 0
    ensures AllCodable(Done, 48) && Length(Done) == 0
  {
    Pow2Of8And31And32();
    assert Pow2(16) == 0x1_0000;
  }

  lemma ProfileTierLevelFits(rest: Syntax)
    requires AllCodable(rest, 48)
    ensures AllCodable(ProfileTierLevel(rest), 48) && Length(ProfileTierLevel(rest)) == 6 + Length(rest)
  {
    FieldWidths();
    hide AllCodable, Length, Pow2;
  }

  lemma VpsFits(p: Parameters)
    ensures AllCodable(VpsSyntax(p), 48) && Length(VpsSyntax(p)) == 21
  {
    FieldWidths();
    hide AllCodable, Length, Pow2, ProfileTierLevel;
    ProfileTierLevelFits(VpsTail(p));
  }

  lemma SpsPartsFit(p: Parameters, rest: Syntax)
    requires SupportedFields(p) && AllCodable(rest, 48)
    ensures AllCodable(SpsWindow(p, rest), 48) && Length(SpsWindow(p, rest)) <= 5 + Length(rest)
    ensures AllCodable(SpsDepths(p, rest), 48) && Length(SpsDepths(p, rest)) == 7 + Length(rest)
    ensures AllCodable(SpsBlocks(p, rest), 48) && Length(SpsBlocks(p, rest)) == 6 + Length(rest)
    ensures AllCodable(SpsTools(p), 48) && Length(SpsTools(p)) == 10
  {
    FieldWidths();
    hide AllCodable, Length, Pow2;
  }

  lemma SpsFits(p: Parameters)
    requires SupportedFields(p)
    ensures AllCodable(SpsSyntax(p), 48) && Length(SpsSyntax(p)) <= 41
  {
    FieldWidths();
    hide AllCodable, Length, Pow2, SpsWindow, SpsDepths, SpsBlocks, SpsTools, ProfileTierLevel, SupportedFields;
    SpsPartsFit(p, Done);
    var tools := SpsTools(p);
    SpsPartsFit(p, tools);
    var blocks := SpsBlocks(p, tools);
    SpsPartsFit(p, blocks);
    var depths := SpsDepths(p, blocks);
    SpsPartsFit(p, depths);
    ProfileTierLevelFits(SpsFormat(p, depths));
  }

  lemma {:induction false} SizesFit(sizes: seq<U16>, rest: Syntax)
    requires AllCodable(rest, 48)
    ensures AllCodable(Sizes(sizes, rest), 48) && Length(Sizes(sizes, rest)) == |sizes| + Length(rest)
  {
    if sizes != [] {
      SizesFit(sizes[1..], rest);
    }
  }

  lemma PpsTilesFit(p: Parameters, rest: Syntax)
    requires p.Shaped() && SupportedFields(p) && AllCodable(rest, 48)
    ensures AllCodable(PpsTiles(p, rest), 48) && Length(PpsTiles(p, rest)) <= 46 + Length(rest)
  {
    FieldWidths();
    hide AllCodable, Length, Pow2, Sizes;
    var last := Then(Bit(p.loopFilterAcrossTiles), rest);
    SizesFit(p.rowHeightMinus1[..p.numTileRowsMinus1], last);
    SizesFit(p.columnWidthMinus1[..p.numTileColumnsMinus1], Sizes(p.rowHeightMinus1[..p.numTileRowsMinus1], last));
  }

  lemma PpsPartsFit(p: Parameters, ppsId: nat, rest: Syntax)
    requires SupportedFields(p) && ppsId <= 63 && AllCodable(rest, 48)
    ensures AllCodable(PpsHead(p, ppsId, rest), 48) && Length(PpsHead(p, ppsId, rest)) == 9 + Length(rest)
    ensures AllCodable(PpsQp(p, rest), 48) && Length(PpsQp(p, rest)) <= 5 + Length(rest)
    ensures AllCodable(PpsWeights(p, rest), 48) && Length(PpsWeights(p, rest)) == 6 + Length(rest)
    ensures AllCodable(PpsDeblock(p, rest), 48) && Length(PpsDeblock(p, rest)) <= 6 + Length(rest)
    ensures AllCodable(PpsEnd(p), 48) && Length(PpsEnd(p)) == 5
  {
    FieldWidths();
    hide AllCodable, Length, Pow2;
  }

  lemma PpsFits(p: Parameters, ppsId: nat)
    requires p.Shaped() && SupportedFields(p) && ppsId <= 63
    ensures AllCodable(PpsSyntax(p, ppsId), 48) && Length(PpsSyntax(p, ppsId)) <= 77
  {
    FieldWidths();
    hide AllCodable, Length, Pow2, PpsHead, PpsQp, PpsWeights, PpsTiles, PpsDeblock, PpsEnd, SupportedFields;
    PpsPartsFit(p, ppsId, Done);
    var end := PpsEnd(p);
    PpsPartsFit(p, ppsId, end);
    var deblock := PpsDeblock(p, end);
    PpsTilesFit(p, deblock);
    var tiles := PpsTiles(p, deblock);
    PpsPartsFit(p, ppsId, tiles);
    var weights := PpsWeights(p, tiles);
    PpsPartsFit(p, ppsId, weights);
    PpsPartsFit(p, ppsId, PpsQp(p, weights));
  }

  /** A built configuration always fits its buffer, with room to spare in each bit writer. */
  lemma ConfigFits(p: Parameters, ppsId: nat)
    requires p.Shaped() && SupportedFields(p) && ppsId <= 63
    ensures |RbspBits(VpsSyntax(p))| <= 8 * MAX_CONFIG_BYTES
    ensures |RbspBits(SpsSyntax(p))| <= 8 * MAX_CONFIG_BYTES
    ensures |RbspBits(PpsSyntax(p, ppsId))| <= 8 * MAX_CONFIG_BYTES
    ensures |CodecConfig(p, ppsId)| <= MAX_CONFIG_BYTES
  {
    hide VpsSyntax, SpsSyntax, PpsSyntax, SupportedFields, RbspBits, Rbsp, Nal, AllCodable, Length;
    VpsFits(p);
    SpsFits(p);
    PpsFits(p, ppsId);
    NalSize([64, 1], VpsSyntax(p), 48);
    NalSize([66, 1], SpsSyntax(p), 48);
    NalSize([68, 1], PpsSyntax(p, ppsId), 48);
  }

  method BuildCodecConfig(p: Parameters, ppsId: U32) returns (ok: bool, config: array<Byte>, size: nat)
    requires p.Shaped()
    ensures ok <==> ppsId <= 63 && Supported(p)
    ensures ok ==> size <= config.Length == MAX_CONFIG_BYTES && config[..size] == CodecConfig(p, ppsId)
  {
    hide VpsSyntax, SpsSyntax, PpsSyntax, SupportedFields, SupportedTiles, RbspBits, Rbsp, Nal, AllCodable, BitWriter.Valid;
    config := new Byte[MAX_CONFIG_BYTES](_ => 0);
    size := 0;
    if ppsId > 63 {
      return false, config, size;
    }
    ok := Validate(p);
    if !ok {
      return;
    }
    VpsFits(p);
    SpsFits(p);
    PpsFits(p, ppsId);
    ConfigFits(p, ppsId);
    CodableWider(VpsSyntax(p), 48, 64);
    CodableWider(SpsSyntax(p), 48, 64);
    CodableWider(PpsSyntax(p, ppsId), 48, 64);
    var vps, sps, pps;
    ok, vps := Compile(VpsSyntax(p), MAX_CONFIG_BYTES, 64);
    if !ok {
      return;
    }
    ok, sps := Compile(SpsSyntax(p), MAX_CONFIG_BYTES, 64);
    if !ok {
      return;
    }
    ok, pps := Compile(PpsSyntax(p, ppsId), MAX_CONFIG_BYTES, 64);
    if !ok {
      return;
    }
    ok, size := AppendSet(config, size, [64, 1], vps, VpsSyntax(p));
    if !ok {
      return;
    }
    assert config[..size] == VpsNal(p);
    ok, size := AppendSet(config, size, [66, 1], sps, SpsSyntax(p));
    if !ok {
      return;
    }
    ok, size := AppendSet(config, size, [68, 1], pps, PpsSyntax(p, ppsId));
  }
}
