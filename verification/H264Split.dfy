/**
  Whole configurations: the runtime's split into sequence and picture parameter set
  (src/vaapi_advc/advc_vaapi_decode_runtime.c:532-542) is exact, what it separates reads back, and its
  test for a mid-stream change (2360-2375) accepts exactly the changes that leave the sequence alone.
 */
module H264Split {
  import opened Bits
  import opened SyntaxElements
  import opened AnnexB
  import opened H264Config
  import opened H264Reader

  lemma NalBitsOfNal(header: Byte, s: Syntax)
    ensures NalBits(Nal([header], Rbsp(s))) == RbspBits(s)
  {
    hide RbspBits, Pack, Unpack, Escape, Unescape;
    var nal := Nal([header], Rbsp(s));
    assert nal[5..] == Escape(Rbsp(s), 0);
    UnescapeInverts(Rbsp(s), 0);
    UnpackOfPack(RbspBits(s));
  }

  /** The first start code after the leading one is where the sequence parameter set ends. */
  lemma SplitIsExact(p: Parameters, ppsId: nat, n: nat)
    requires Supported(p)
    requires forall j: nat :: 4 <= j && StartCodeAt(CodecConfig(p, ppsId), j) ==> n != 0 && n <= j
    requires n != 0 ==> n >= 4 && StartCodeAt(CodecConfig(p, ppsId), n)
    ensures n == |SpsNal(p)|
    ensures CodecConfig(p, ppsId)[..n] == SpsNal(p) && CodecConfig(p, ppsId)[n..] == PpsNal(p, ppsId)
  {
    hide Supported, SpsSyntax, PpsSyntax, Rbsp, Escape;
    var config := CodecConfig(p, ppsId);
    RbspEndsNonzero(SpsSyntax(p));
    assert StartCodeAt(config, |SpsNal(p)|);
    if n < |SpsNal(p)| {
      NoInnerStartCode(0x67, Rbsp(SpsSyntax(p)), PpsNal(p, ppsId), n);
      assert false;
    }
  }

  /** Scan a built configuration, split it, and both halves read back as the parameters it was built from. */
  method ReadBack(p: Parameters, ppsId: U32) returns (ok: bool, sps: Option<Sps>, pps: Option<Pps>)
    ensures ok <==> ppsId <= 255 && Supported(p)
    ensures ok ==> (sps == Some(SpsOf(p)) <==> SaneSps(p))
    ensures ok ==> (pps == Some(PpsOf(p, ppsId)) <==> SanePps(p))
    ensures ok && sps.Some? ==> ShownWidth(sps.value) == p.visibleWidth && ShownHeight(sps.value) == p.visibleHeight
  {
    hide SpsSyntax, PpsSyntax, RbspBits, Rbsp, Nal, SpsOf, PpsOf, ReadSps, ReadPps, NalBits, IsNal, ShownWidth, ShownHeight;
    var config, size;
    ok, config, size := BuildCodecConfig(p, ppsId);
    if !ok {
      return false, None, None;
    }
    var n := FirstNalSize(config[..size]);
    SplitIsExact(p, ppsId, n);
    NalBitsOfNal(0x67, SpsSyntax(p));
    NalBitsOfNal(0x68, PpsSyntax(p, ppsId));
    SpsReadsBack(p);
    PpsReadsBack(p, ppsId);
    NalLength(0x67, Rbsp(SpsSyntax(p)));
    NalLength(0x68, Rbsp(PpsSyntax(p, ppsId)));
    assert config[..n] == config[..size][..n] && config[n..size] == config[..size][n..];
    NalKind(0x67, Rbsp(SpsSyntax(p)), 7);
    NalKind(0x68, Rbsp(PpsSyntax(p, ppsId)), 8);
    if ReadSps(RbspBits(SpsSyntax(p))).Some? { SpsShowsPicture(p); }
    return true, ReadSpsNal(config[..n]), ReadPpsNal(config[n..size]);
  }

  lemma NalLength(header: Byte, rbsp: seq<Byte>)
    ensures |Nal([header], rbsp)| >= 5
  {
  }

  lemma NalKind(header: Byte, rbsp: seq<Byte>, kind: nat)
    requires header / 128 == 0 && header / 32 % 4 != 0 && header % 32 == kind
    ensures IsNal(Nal([header], rbsp), kind)
  {
  }

  /** The runtime's test when a picture other than an IDR picture arrives with new parameters. */
  method SequenceUnchanged(last: seq<Byte>, next: seq<Byte>) returns (same: bool)
    ensures forall p, i, q, j :: Supported(p) && Supported(q) && last == CodecConfig(p, i) && next == CodecConfig(q, j)
              ==> (same <==> SpsNal(p) == SpsNal(q))
  {
    var lastSize := FirstNalSize(last);
    var nextSize := FirstNalSize(next);
    same := lastSize != 0 && nextSize != 0 && lastSize == nextSize && last[..nextSize] == next[..nextSize];
    forall p, i, q, j | Supported(p) && Supported(q) && last == CodecConfig(p, i) && next == CodecConfig(q, j)
      ensures same <==> SpsNal(p) == SpsNal(q)
    {
      hide Supported, SpsNal, PpsNal;
      SplitIsExact(p, i, lastSize);
      SplitIsExact(q, j, nextSize);
      SpsNalLength(p);
    }
  }

  lemma SpsNalLength(p: Parameters)
    requires Supported(p)
    ensures |SpsNal(p)| >= 5
  {
  }

  /** Byte-identical sequence parameter sets are exactly those with the same fields. */
  lemma SameBytesSameSequence(p: Parameters, q: Parameters)
    requires Supported(p) && Supported(q) && SaneSps(p) && SaneSps(q)
    ensures SpsNal(p) == SpsNal(q) <==> SpsOf(p) == SpsOf(q)
  {
    if SpsNal(p) == SpsNal(q) {
      hide SpsSyntax, SpsOf, RbspBits, Rbsp, Nal, ReadSps, Supported;
      NalLength(0x67, Rbsp(SpsSyntax(p)));
      NalBitsOfNal(0x67, SpsSyntax(p));
      NalBitsOfNal(0x67, SpsSyntax(q));
      SpsReadsBack(p);
      SpsReadsBack(q);
    }
    if SpsOf(p) == SpsOf(q) {
      SameSequenceSameSyntax(p, q);
    }
  }

  lemma SameHead(p: Parameters, q: Parameters, rest: Syntax)
    requires Supported(p) && Supported(q) && SpsOf(p).head == SpsOf(q).head
    ensures SpsHead(p, rest) == SpsHead(q, rest)
  {
    hide AllCodable, Length;
  }

  lemma SameSize(p: Parameters, q: Parameters, rest: Syntax)
    requires Supported(p) && Supported(q) && SaneSize(p) && SaneSize(q) && SpsOf(p).size == SpsOf(q).size
    ensures SpsSize(p, rest) == SpsSize(q, rest)
  {
    hide AllCodable, Length;
  }

  lemma SameCrop(p: Parameters, q: Parameters, rest: Syntax)
    requires Supported(p) && Supported(q) && SpsOf(p).crop == SpsOf(q).crop
    ensures SpsCrop(p, rest) == SpsCrop(q, rest)
  {
    hide AllCodable, Length;
  }

  lemma SameVui(p: Parameters, q: Parameters)
    requires Supported(p) && Supported(q) && SaneSps(p) && SaneSps(q)
    requires SpsOf(p).vui == SpsOf(q).vui
    ensures SpsVui(p) == SpsVui(q)
  {
    hide AllCodable, Length;
    if p.vuiRestriction != 0 {
      assert VuiOf(p).restriction == VuiOf(q).restriction;
      assert VuiRestriction(p) == VuiRestriction(q);
    }
  }

  lemma SameSequenceSameSyntax(p: Parameters, q: Parameters)
    requires Supported(p) && Supported(q) && SaneSps(p) && SaneSps(q)
    requires SpsOf(p) == SpsOf(q)
    ensures SpsSyntax(p) == SpsSyntax(q)
  {
    hide Supported, SpsOf, SpsHead, SpsSize, SpsCrop, SpsVui;
    var vui := SpsVui(p);
    SameVui(p, q);
    SameCrop(p, q, vui);
    SameSize(p, q, SpsCrop(p, vui));
    SameHead(p, q, SpsSize(p, SpsCrop(p, vui)));
  }
}
