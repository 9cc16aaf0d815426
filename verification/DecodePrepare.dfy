/**
  What the decode runtime makes of a rendered picture before it talks to the broker: the access unit, its codec
  configuration and whether it is a random access point.
 */
module DecodePrepare {
  import opened Bits
  import opened DecodeLog
  import AccessUnit
  import H264Config
  import H264Slice
  import HevcConfig
  import HevcSlice
  import H264Split

  /** A rendered picture. VP9 frames pass through another parser; only its result is kept here. */
  datatype Picture =
    | H264Picture(slices: seq<AccessUnit.H264Input>, h264: H264Config.Parameters)
    | HevcPicture(hevcSlices: seq<AccessUnit.HevcInput>, hevc: HevcConfig.Parameters)
    | Vp9Picture(frame: Option<seq<Byte>>, keyFrame: bool)

  datatype Prepared = Prepared(config: seq<Byte>, data: seq<Byte>, key: bool)

  /** What an H.264 picture is turned into. */
  ghost predicate IsH264Of(u: Prepared, slices: seq<AccessUnit.H264Input>, p: H264Config.Parameters) {
    && slices != [] && H264Slice.IdentityOf(slices[0].data).Some? && H264Config.Supported(p)
    && u.config == H264Config.CodecConfig(p, H264Slice.IdentityOf(slices[0].data).value.ppsId)
    && u.data == AccessUnit.Normalized(AccessUnit.H264Data(slices))
    && (u.key <==> exists k :: 0 <= k < |slices| && IsIdr(slices[k].data))
  }

  predicate IsIdr(data: seq<Byte>) {
    var id := H264Slice.IdentityOf(data); id.Some? && id.value.isIdr
  }

  /** `p` holds the parameters as they stand once the defaults for reference counts have been filled in. */
  method PrepareH264(slices: seq<AccessUnit.H264Input>, p: H264Config.Parameters) returns (r: Option<Prepared>)
    ensures r.Some? <==> 1 <= |slices| <= AccessUnit.MAX_SLICES && AccessUnit.H264Accepts(slices) && H264Config.Supported(p) &&
                         |AccessUnit.Normalized(AccessUnit.H264Data(slices))| <= MAX_INPUT_BYTES &&
                         H264Slice.OverrideOf(slices[0].data, p).Some?
    ensures r.Some? ==> Built(r.value.config) && IsH264Of(r.value, slices, p)
  {
    hide AccessUnit.Normalized, H264Config.CodecConfig;
    var unit := AccessUnit.BuildH264(slices);
    if unit.None? { return None; }
    assert AccessUnit.H264Matches(slices[0]);
    var reference := H264Slice.ParseReferenceOverride(slices[0].data, p);
    if reference.None? { return None; }
    var ok, config, size := H264Config.BuildCodecConfig(p, unit.value.ppsId);
    if !ok { return None; }
    return Some(Prepared(config[..size], unit.value.data, unit.value.random));
  }

  ghost predicate HevcReady(slices: seq<AccessUnit.HevcInput>, p: HevcConfig.Parameters)
    requires p.Shaped()
  {
    && 1 <= |slices| <= AccessUnit.MAX_SLICES && AccessUnit.HevcAccepts(slices, |slices|) && HevcConfig.Supported(p)
    && |AccessUnit.Normalized(AccessUnit.HevcData(slices))| <= MAX_INPUT_BYTES
  }

  ghost function HevcPrepared(slices: seq<AccessUnit.HevcInput>, p: HevcConfig.Parameters): Prepared
    requires p.Shaped() && HevcReady(slices, p)
  {
    assert AccessUnit.HevcMatches(slices[0], true, 1 == |slices|);
    Prepared(HevcConfig.CodecConfig(p, HevcSlice.IdentityOf(slices[0].data).value.ppsId),
             AccessUnit.Normalized(AccessUnit.HevcData(slices)), HasIrap(slices))
  }

  ghost predicate HasIrap(slices: seq<AccessUnit.HevcInput>) {
    exists k :: 0 <= k < |slices| && IsIrap(slices[k].data)
  }

  /** The type in the NAL unit's header byte is one of the IRAP types. */
  predicate IsIrap(data: seq<Byte>) {
    AccessUnit.TypeByte(data) && 16 <= AccessUnit.NalType(data) <= 23
  }

  method PrepareHevc(slices: seq<AccessUnit.HevcInput>, p: HevcConfig.Parameters) returns (r: Option<Prepared>)
    requires p.Shaped()
    ensures r == if HevcReady(slices, p) then Some(HevcPrepared(slices, p)) else None
  {
    hide AccessUnit.Normalized, HevcConfig.CodecConfig;
    var unit := AccessUnit.BuildHevc(slices);
    if unit.None? { return None; }
    assert AccessUnit.HevcMatches(slices[0], true, 1 == |slices|);
    var ok, config, size := HevcConfig.BuildCodecConfig(p, unit.value.ppsId);
    if !ok { return None; }
    return Some(Prepared(config[..size], unit.value.data, unit.value.random));
  }

  /** A change of configuration outside an IDR picture is let through only with the same sequence parameter set. */
  method MayChange(last: seq<Byte>, next: seq<Byte>) returns (ok: bool)
    requires Built(last) && Built(next)
    ensures ok <==> SameSequence(last, next)
  {
    hide H264Config.CodecConfig, H264Config.SpsNal, H264Config.Supported;
    ok := H264Split.SequenceUnchanged(last, next);
    ghost var p, i :| H264Config.Supported(p) && last == H264Config.CodecConfig(p, i);
    ghost var q, j :| H264Config.Supported(q) && next == H264Config.CodecConfig(q, j);
    assert ok <==> H264Config.SpsNal(p) == H264Config.SpsNal(q);
  }
}
