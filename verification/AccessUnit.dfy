/**
  Access-unit assembly: advc_h264_build_access_unit and advc_hevc_build_access_unit check every slice, add up
  the size, then copy each NAL unit behind a four-byte start code.
 */
module AccessUnit {
  import opened Bits
  import opened AnnexB
  import H264Slice
  import HevcSlice

  const MAX_SLICES: nat := 256

  /** A slice with its start code, whatever it was, replaced by the four-byte one. */
  function Normal(data: seq<Byte>): seq<Byte> {
    START_CODE + data[PrefixSize(data)..]
  }

  function Normalized(slices: seq<seq<Byte>>): seq<Byte> {
    if slices == [] then []
    else Normalized(slices[..|slices| - 1]) + Normal(slices[|slices| - 1])
  }

  lemma NormalizedSnoc(slices: seq<seq<Byte>>, n: nat)
    requires n < |slices|
    ensures Normalized(slices[..n + 1]) == Normalized(slices[..n]) + Normal(slices[n])
  {
    assert slices[..n + 1][..n] == slices[..n];
  }

  lemma {:induction false} NormalizedGrows(slices: seq<seq<Byte>>, n: nat)
    requires n <= |slices|
    ensures |Normalized(slices[..n])| <= |Normalized(slices)|
    decreases |slices| - n
  {
    if n == |slices| {
      assert slices[..n] == slices;
    } else {
      NormalizedSnoc(slices, n);
      NormalizedGrows(slices, n + 1);
    }
  }

  /** The copying pass: the buffer sized by the first pass is filled exactly. */
  method CopyNals(slices: seq<seq<Byte>>, size: nat) returns (output: array<Byte>)
    requires size == |Normalized(slices)|
    ensures fresh(output) && output[..] == Normalized(slices)
  {
    output := new Byte[size](_ => 0);
    var used := 0;
    var i := 0;
    while i < |slices|
      invariant i <= |slices| && used == |Normalized(slices[..i])| <= size
      invariant output[..used] == Normalized(slices[..i])
    {
      NormalizedSnoc(slices, i);
      NormalizedGrows(slices, i + 1);
      var unit := Normal(slices[i]);
      forall k | 0 <= k < |unit| { output[used + k] := unit[k]; }
      assert output[..used + |unit|] == Normalized(slices[..i]) + unit;
      used := used + |unit|;
      i := i + 1;
    }
    assert slices[..i] == slices && output[..used] == output[..];
  }

  /** Slice by slice, in order: a four-byte start code and then the slice without the start code it came with. */
  lemma NormalizedAt(slices: seq<seq<Byte>>, k: nat) returns (at: nat)
    requires k < |slices|
    ensures var body := slices[k][PrefixSize(slices[k])..];
            at + 4 + |body| <= |Normalized(slices)| && Normalized(slices)[at..at + 4 + |body|] == [0, 0, 0, 1] + body
    ensures at == |Normalized(slices[..k])| && at + |Normal(slices[k])| == |Normalized(slices[..k + 1])|
  {
    at := |Normalized(slices[..k])|;
    NormalizedSnoc(slices, k);
    NormalizedPrefix(slices, k + 1);
  }

  lemma {:induction false} NormalizedPrefix(slices: seq<seq<Byte>>, n: nat)
    requires n <= |slices|
    ensures Normalized(slices[..n]) <= Normalized(slices)
    decreases |slices| - n
  {
    if n == |slices| {
      assert slices[..n] == slices;
    } else {
      NormalizedSnoc(slices, n);
      NormalizedPrefix(slices, n + 1);
    }
  }

  // ---------- H.264 ----------

  datatype H264Input = H264Input(data: seq<Byte>, expectedFirstMb: nat, expectedType: Byte)

  predicate H264Matches(s: H264Input) {
    var id := H264Slice.IdentityOf(s.data);
    id.Some? && id.value.firstMb == s.expectedFirstMb && id.value.sliceType % 5 == s.expectedType % 5
  }

  predicate H264Accepts(slices: seq<H264Input>) {
    && (forall k :: 0 <= k < |slices| ==> H264Matches(slices[k]))
    && (forall k :: 0 <= k < |slices| ==>
          H264Slice.IdentityOf(slices[k].data).value.ppsId == H264Slice.IdentityOf(slices[0].data).value.ppsId)
  }

  function H264Data(slices: seq<H264Input>): (r: seq<seq<Byte>>)
    ensures |r| == |slices| && forall k :: 0 <= k < |r| ==> r[k] == slices[k].data
  {
    seq(|slices|, k requires 0 <= k < |slices| => slices[k].data)
  }

  datatype Unit = Unit(data: seq<Byte>, ppsId: nat, random: bool)

  /** Accepts exactly the matching slices of one picture parameter set that fit one input buffer. */
  method BuildH264(slices: seq<H264Input>) returns (r: Option<Unit>)
    ensures r.Some? <==> 1 <= |slices| <= MAX_SLICES && H264Accepts(slices) &&
                         |Normalized(H264Data(slices))| <= MAX_INPUT_BYTES
    ensures r.Some? ==>
              && r.value.data == Normalized(H264Data(slices))
              && r.value.ppsId == H264Slice.IdentityOf(slices[0].data).value.ppsId
              && (r.value.random <==> exists k :: 0 <= k < |slices| && H264Slice.IdentityOf(slices[k].data).value.isIdr)
  {
    hide H264Slice.IdentityOf, Normal, Normalized;
    if |slices| == 0 || |slices| > MAX_SLICES {
      return None;
    }
    var datas := H264Data(slices);
    var outputSize := 0;
    var commonPps := 0;
    var anyIdr := false;
    assert datas[..0] == [];
    EmptyUnit();
    var i := 0;
    while i < |slices|
      invariant i <= |slices|
      invariant H264Accepts(slices[..i])
      invariant i > 0 ==> commonPps == H264Slice.IdentityOf(slices[0].data).value.ppsId
      invariant anyIdr <==> exists k :: 0 <= k < i && H264Slice.IdentityOf(slices[k].data).value.isIdr
      invariant outputSize == |Normalized(datas[..i])| <= MAX_INPUT_BYTES
    {
      var id := H264Slice.ParseSliceIdentity(slices[i].data);
      if id.None? || id.value.firstMb != slices[i].expectedFirstMb || id.value.sliceType % 5 != slices[i].expectedType % 5 {
        assert !H264Matches(slices[i]);
        return None;
      }
      if i == 0 {
        commonPps := id.value.ppsId;
      } else if id.value.ppsId != commonPps {
        return None;
      }
      var unit := UnitSize(slices[i].data);
      NormalizedSnoc(datas, i);
      if outputSize > MAX_INPUT_BYTES - 4 || unit - 4 > MAX_INPUT_BYTES - outputSize - 4 {
        NormalizedGrows(datas, i + 1);
        return None;
      }
      outputSize := outputSize + unit;
      anyIdr := anyIdr || id.value.isIdr;
      assert slices[..i + 1] == slices[..i] + [slices[i]];
      i := i + 1;
    }
    assert slices[..i] == slices && datas[..i] == datas;
    var output := CopyNals(datas, outputSize);
    return Some(Unit(output[..], commonPps, anyIdr));
  }

  lemma EmptyUnit()
    ensures Normalized([]) == []
  {
  }

  function UnitSize(data: seq<Byte>): (n: nat)
    ensures n == |Normal(data)| >= 4
  {
    4 + |data| - PrefixSize(data)
  }

  // ---------- H.265 ----------

  /** Behind its start code, if it has one, the data has a byte whose bits 1 to 6 are the type of the NAL unit. */
  predicate TypeByte(data: seq<Byte>) {
    PrefixSize(data) < |data|
  }

  function NalType(data: seq<Byte>): nat
    requires TypeByte(data)
  {
    data[PrefixSize(data)] / 2 % 64
  }

  lemma TypeOf(data: seq<Byte>)
    requires HevcSlice.IdentityOf(data).Some?
    ensures TypeByte(data) && HevcSlice.IdentityOf(data).value.nalType == NalType(data)
  {
    hide Unescape, Unpack, PrefixSize;
  }

  datatype HevcInput = HevcInput(data: seq<Byte>, segmentAddress: nat, lastSlice: Byte)

  /** The address is zero exactly on a first segment, only the first slice is one, and only the last is marked last. */
  predicate HevcMatches(s: HevcInput, first: bool, last: bool) {
    var id := HevcSlice.IdentityOf(s.data);
    && id.Some? && id.value.firstSegment == first
    && (s.segmentAddress == 0 <==> first)
    && (s.lastSlice != 0 <==> last)
  }

  predicate HevcAccepts(slices: seq<HevcInput>, count: nat) {
    && (forall k :: 0 <= k < |slices| ==> HevcMatches(slices[k], k == 0, k + 1 == count))
    && (forall k :: 0 <= k < |slices| ==>
          HevcSlice.IdentityOf(slices[k].data).value.ppsId == HevcSlice.IdentityOf(slices[0].data).value.ppsId)
  }

  function HevcData(slices: seq<HevcInput>): (r: seq<seq<Byte>>)
    ensures |r| == |slices| && forall k :: 0 <= k < |r| ==> r[k] == slices[k].data
  {
    seq(|slices|, k requires 0 <= k < |slices| => slices[k].data)
  }

  method BuildHevc(slices: seq<HevcInput>) returns (r: Option<Unit>)
    ensures r.Some? <==> 1 <= |slices| <= MAX_SLICES && HevcAccepts(slices, |slices|) &&
                         |Normalized(HevcData(slices))| <= MAX_INPUT_BYTES
    ensures r.Some? ==>
              && r.value.data == Normalized(HevcData(slices))
              && r.value.ppsId == HevcSlice.IdentityOf(slices[0].data).value.ppsId
              && (r.value.random <==> exists k :: 0 <= k < |slices| && TypeByte(slices[k].data) && 16 <= NalType(slices[k].data) <= 23)
  {
    hide HevcSlice.IdentityOf, Normal, Normalized;
    if |slices| == 0 || |slices| > MAX_SLICES {
      return None;
    }
    var datas := HevcData(slices);
    var outputSize := 0;
    var commonPps := 0;
    var anyIrap := false;
    assert datas[..0] == [];
    EmptyUnit();
    var i := 0;
    while i < |slices|
      invariant i <= |slices|
      invariant HevcAccepts(slices[..i], |slices|)
      invariant i > 0 ==> commonPps == HevcSlice.IdentityOf(slices[0].data).value.ppsId
      invariant anyIrap <==> exists k :: 0 <= k < i && TypeByte(slices[k].data) && 16 <= NalType(slices[k].data) <= 23
      invariant outputSize == |Normalized(datas[..i])| <= MAX_INPUT_BYTES
    {
      var id := HevcSlice.ParseSliceIdentity(slices[i].data);
      if id.None? ||
         (slices[i].segmentAddress == 0) != id.value.firstSegment ||
         (i + 1 == |slices|) != (slices[i].lastSlice != 0) {
        assert !HevcMatches(slices[i], i == 0, i + 1 == |slices|);
        return None;
      }
      if i == 0 {
        if !id.value.firstSegment {
          assert !HevcMatches(slices[i], i == 0, i + 1 == |slices|);
          return None;
        }
        commonPps := id.value.ppsId;
      } else if id.value.ppsId != commonPps || id.value.firstSegment {
        assert !HevcMatches(slices[i], i == 0, i + 1 == |slices|) || id.value.ppsId != commonPps;
        return None;
      }
      TypeOf(slices[i].data);
      var unit := UnitSize(slices[i].data);
      NormalizedSnoc(datas, i);
      if outputSize > MAX_INPUT_BYTES - 4 || unit - 4 > MAX_INPUT_BYTES - outputSize - 4 {
        NormalizedGrows(datas, i + 1);
        return None;
      }
      outputSize := outputSize + unit;
      anyIrap := anyIrap || HevcSlice.Irap(id.value.nalType);
      assert slices[..i + 1] == slices[..i] + [slices[i]];
      i := i + 1;
    }
    assert slices[..i] == slices && datas[..i] == datas;
    var output := CopyNals(datas, outputSize);
    return Some(Unit(output[..], commonPps, anyIrap));
  }

  // ---------- normalizing changes only the start code ----------

  lemma NormalPrefix(data: seq<Byte>)
    ensures PrefixSize(Normal(data)) == 4
    ensures Normal(data)[4..] == data[PrefixSize(data)..]
  {
  }

  /** A normalized slice still parses to the same identity, in either codec. */
  lemma NormalKeepsIdentity(data: seq<Byte>)
    ensures H264Slice.IdentityOf(Normal(data)) == H264Slice.IdentityOf(data)
    ensures HevcSlice.IdentityOf(Normal(data)) == HevcSlice.IdentityOf(data)
  {
    hide Unescape, Unpack, PrefixSize;
    NormalPrefix(data);
    var n := PrefixSize(data);
    var tail := data[n..];
    if |tail| >= 1 {
      assert Normal(data)[4] == data[n] && Normal(data)[5..] == tail[1..] == data[n + 1..];
    }
    if |tail| >= 2 {
      assert Normal(data)[5] == data[n + 1] && Normal(data)[6..] == tail[2..] == data[n + 2..];
    }
    assert H264Slice.OpenSlice(Normal(data)) == H264Slice.OpenSlice(data);
    assert HevcSlice.OpenSlice(Normal(data)) == HevcSlice.OpenSlice(data);
  }
}
