/** The H.264 parameter-set compiler of src/vaapi_advc/advc_h264_annexb.c: validation, syntax, sizes and bytes. */
module H264Config {
  import opened Bits
  import opened SyntaxElements
  import opened BitIo
  import opened AnnexB

  const MAX_CONFIG_BYTES: nat := 1024

  type U16 = v: int | 0 <= v < 0x1_0000
  type U32 = v: int | 0 <= v < 0x1_0000_0000
  type I8 = v: int | -128 <= v < 128

  datatype Parameters = Parameters(
    profileIdc: Byte,
    visibleWidth: U32,
    visibleHeight: U32,
    widthInMbsMinus1: U16,
    heightInMbsMinus1: U16,
    bitDepthLumaMinus8: Byte,
    bitDepthChromaMinus8: Byte,
    chromaFormatIdc: Byte,
    separateColourPlane: Byte,
    gapsInFrameNum: Byte,
    frameMbsOnly: Byte,
    mbAdaptiveFrameField: Byte,
    direct8x8Inference: Byte,
    log2MaxFrameNumMinus4: Byte,
    pocType: Byte,
    log2MaxPocLsbMinus4: Byte,
    numRefFrames: Byte,
    vuiRestriction: Byte,
    maxNumReorderFrames: Byte,
    maxDecFrameBuffering: Byte,
    picInitQpMinus26: I8,
    picInitQsMinus26: I8,
    chromaQpIndexOffset: I8,
    secondChromaQpIndexOffset: I8,
    entropyCodingMode: Byte,
    weightedPred: Byte,
    weightedBipredIdc: Byte,
    transform8x8Mode: Byte,
    fieldPic: Byte,
    constrainedIntraPred: Byte,
    bottomFieldPicOrder: Byte,
    deblockingControl: Byte,
    redundantPicCnt: Byte,
    numRefIdxL0Minus1: Byte,
    numRefIdxL1Minus1: Byte)
  {
    function CodedWidth(): nat { (widthInMbsMinus1 + 1) * 16 }
    function CodedHeight(): nat { (heightInMbsMinus1 + 1) * 16 }
  }

  /** The subset `validate_parameters` accepts. */
  predicate Supported(p: Parameters) {
    && 0 < p.visibleWidth <= 8192 && 0 < p.visibleHeight <= 8192
    && (p.profileIdc == 66 || p.profileIdc == 77)
    && p.bitDepthLumaMinus8 == 0 && p.bitDepthChromaMinus8 == 0
    && p.chromaFormatIdc == 1 && p.separateColourPlane == 0
    && p.frameMbsOnly == 1 && p.mbAdaptiveFrameField == 0 && p.fieldPic == 0
    && (p.pocType == 0 || p.pocType == 2)
    && p.transform8x8Mode == 0
    && p.secondChromaQpIndexOffset == p.chromaQpIndexOffset
    && p.weightedBipredIdc <= 2
    && p.log2MaxFrameNumMinus4 <= 12 && p.log2MaxPocLsbMinus4 <= 12
    && p.numRefFrames <= 16
    && (if p.vuiRestriction != 0 then
          && p.maxDecFrameBuffering <= 16
          && p.maxNumReorderFrames <= p.maxDecFrameBuffering
          && p.numRefFrames <= p.maxDecFrameBuffering
        else
          p.maxNumReorderFrames == 0 && p.maxDecFrameBuffering == 0)
    && p.visibleWidth <= p.CodedWidth() && p.visibleHeight <= p.CodedHeight()
    && (p.CodedWidth() - p.visibleWidth) % 2 == 0
    && (p.CodedHeight() - p.visibleHeight) % 2 == 0
  }

  function CropRight(p: Parameters): nat
    requires Supported(p)
  {
    (p.CodedWidth() - p.visibleWidth) / 2
  }

  function CropBottom(p: Parameters): nat
    requires Supported(p)
  {
    (p.CodedHeight() - p.visibleHeight) / 2
  }

  // ---------- the put chains ----------

  function SpsSyntax(p: Parameters): Syntax
    requires Supported(p)
  {
    SpsHead(p, SpsSize(p, SpsCrop(p, SpsVui(p))))
  }

  function SpsHead(p: Parameters, rest: Syntax): Syntax {
    Then(U(p.profileIdc, 8),
    Then(U(if p.profileIdc == 66 then 0xC0 else 0, 8),
    Then(U(51, 8),
    Then(UE(0),
    Then(UE(p.log2MaxFrameNumMinus4),
    Then(UE(p.pocType),
    if p.pocType == 0 then Then(UE(p.log2MaxPocLsbMinus4), rest) else rest))))))
  }

  function SpsSize(p: Parameters, rest: Syntax): Syntax {
    Then(UE(p.numRefFrames),
    Then(Bit(p.gapsInFrameNum),
    Then(UE(p.widthInMbsMinus1),
    Then(UE(p.heightInMbsMinus1),
    Then(Bit(p.frameMbsOnly),
    Then(Bit(p.direct8x8Inference),
    rest))))))
  }

  function SpsCrop(p: Parameters, rest: Syntax): Syntax
    requires Supported(p)
  {
    if CropRight(p) != 0 || CropBottom(p) != 0 then
      Then(Bit(1),
      Then(UE(0),
      Then(UE(CropRight(p)),
      Then(UE(0),
      Then(UE(CropBottom(p)),
      rest)))))
    else
      Then(Bit(0), rest)
  }

  function SpsVui(p: Parameters): Syntax {
    Then(Bit(p.vuiRestriction),
    if p.vuiRestriction == 0 then Done else VuiFlags(VuiRestriction(p)))
  }

  function VuiFlags(rest: Syntax): Syntax {
    Then(Bit(0),
    Then(Bit(0),
    Then(Bit(0),
    Then(Bit(0),
    Then(Bit(0),
    Then(Bit(0),
    Then(Bit(0),
    Then(Bit(0),
    Then(Bit(1),
    rest)))))))))
  }

  function VuiRestriction(p: Parameters): Syntax {
    Then(Bit(1),
    Then(UE(2),
    Then(UE(1),
    Then(UE(16),
    Then(UE(16),
    Then(UE(p.maxNumReorderFrames),
    Then(UE(p.maxDecFrameBuffering),
    Done)))))))
  }

  function PpsSyntax(p: Parameters, ppsId: nat): Syntax {
    Then(UE(ppsId),
    Then(UE(0),
    Then(Bit(p.entropyCodingMode),
    Then(Bit(p.bottomFieldPicOrder),
    Then(UE(0),
    Then(UE(p.numRefIdxL0Minus1),
    Then(UE(p.numRefIdxL1Minus1),
    PpsTail(p))))))))
  }

  function PpsTail(p: Parameters): Syntax {
    Then(Bit(p.weightedPred),
    Then(U(p.weightedBipredIdc, 2),
    Then(SE(p.picInitQpMinus26),
    Then(SE(p.picInitQsMinus26),
    Then(SE(p.chromaQpIndexOffset),
    Then(Bit(p.deblockingControl),
    Then(Bit(p.constrainedIntraPred),
    Then(Bit(p.redundantPicCnt),
    Done))))))))
  }

  function SpsNal(p: Parameters): seq<Byte>
    requires Supported(p)
  {
    Nal([0x67], Rbsp(SpsSyntax(p)))
  }

  function PpsNal(p: Parameters, ppsId: nat): seq<Byte> {
    Nal([0x68], Rbsp(PpsSyntax(p, ppsId)))
  }

  function CodecConfig(p: Parameters, ppsId: nat): seq<Byte>
    requires Supported(p)
  {
    SpsNal(p) + PpsNal(p, ppsId)
  }

  // ---------- sizes ----------

  lemma SpsHeadFits(p: Parameters, rest: Syntax)
    requires AllCodable(rest, 32)
    ensures AllCodable(SpsHead(p, rest), 32) && Length(SpsHead(p, rest)) <= 7 + Length(rest)
  {
    hide AllCodable, Length;
    SmallFields();
  }

  lemma SpsSizeFits(p: Parameters, rest: Syntax)
    requires AllCodable(rest, 32)
    ensures AllCodable(SpsSize(p, rest), 32) && Length(SpsSize(p, rest)) == 6 + Length(rest)
  {
    hide AllCodable, Length;
    SmallFields();
  }

  lemma SpsCropFits(p: Parameters, rest: Syntax)
    requires Supported(p) && AllCodable(rest, 32)
    ensures AllCodable(SpsCrop(p, rest), 32) && Length(SpsCrop(p, rest)) <= 5 + Length(rest)
  {
    hide AllCodable, Length;
    SmallFields();
  }

  lemma SpsVuiFits(p: Parameters)
    ensures AllCodable(SpsVui(p), 32) && Length(SpsVui(p)) <= 17
  {
    DoneFacts();
    hide AllCodable, Length;
    SmallFields();
  }

  lemma SpsFits(p: Parameters)
    requires Supported(p)
    ensures AllCodable(SpsSyntax(p), 32) && Length(SpsSyntax(p)) <= 35
  {
    hide AllCodable, Length, SpsHead, SpsSize, SpsCrop, SpsVui, Supported;
    var vui := SpsVui(p);
    SpsVuiFits(p);
    SpsCropFits(p, vui);
    SpsSizeFits(p, SpsCrop(p, vui));
    SpsHeadFits(p, SpsSize(p, SpsCrop(p, vui)));
  }

  lemma PpsFits(p: Parameters, ppsId: nat)
    requires Supported(p) && ppsId <= 255
    ensures AllCodable(PpsSyntax(p, ppsId), 32) && Length(PpsSyntax(p, ppsId)) == 15
  {
    DoneFacts();
    hide AllCodable, Length;
    SmallFields();
  }

  lemma DoneFacts()
    ensures AllCodable(Done, 32) && Length(Done) == 0
  {
  }

  lemma SmallFields()
    ensures Pow2(1) == 2 && Pow2(2) == 4 && Pow2(8) == 256
  {
  }

  /** A built configuration always fits its buffer, with room to spare in each bit writer. */
  lemma ConfigFits(p: Parameters, ppsId: nat)
    requires Supported(p) && ppsId <= 255
    ensures |RbspBits(SpsSyntax(p))| <= 8 * MAX_CONFIG_BYTES
    ensures |RbspBits(PpsSyntax(p, ppsId))| <= 8 * MAX_CONFIG_BYTES
    ensures |CodecConfig(p, ppsId)| <= MAX_CONFIG_BYTES
  {
    hide SpsSyntax, PpsSyntax, Supported, RbspBits, Rbsp, Nal;
    SpsFits(p);
    PpsFits(p, ppsId);
    NalSize([0x67], SpsSyntax(p), 32);
    NalSize([0x68], PpsSyntax(p, ppsId), 32);
  }

  method BuildCodecConfig(p: Parameters, ppsId: U32) returns (ok: bool, config: array<Byte>, size: nat)
    ensures ok <==> ppsId <= 255 && Supported(p)
    ensures ok ==> size <= config.Length == MAX_CONFIG_BYTES && config[..size] == CodecConfig(p, ppsId)
  {
    hide SpsSyntax, PpsSyntax, RbspBits, Rbsp, Nal, BitWriter.Valid, Supported, AllCodable;
    config := new Byte[MAX_CONFIG_BYTES](_ => 0);
    size := 0;
    if ppsId > 255 || !Supported(p) {
      return false, config, size;
    }
    SpsFits(p);
    PpsFits(p, ppsId);
    ConfigFits(p, ppsId);
    var sps, pps;
    ok, sps := Compile(SpsSyntax(p), MAX_CONFIG_BYTES, 32);
    if !ok {
      return;
    }
    ok, pps := Compile(PpsSyntax(p, ppsId), MAX_CONFIG_BYTES, 32);
    if !ok {
      return;
    }
    ok, size := AppendSet(config, size, [0x67], sps, SpsSyntax(p));
    if !ok {
      return;
    }
    assert config[..size] == SpsNal(p);
    ok, size := AppendSet(config, size, [0x68], pps, PpsSyntax(p, ppsId));
  }
}
