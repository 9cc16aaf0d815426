/**
  The slice-header parsers of src/vaapi_advc/advc_h264_annexb.c and the writer they invert:
  the prefix of slice_header() in section 7.3.3 of ITU-T H.264 for progressive pictures.
 */
module H264Slice {
  import opened Bits
  import opened SyntaxElements
  import opened BitIo
  import opened AnnexB
  import opened H264Config

  const READER_BYTES: nat := 128

  datatype Identity = Identity(firstMb: nat, sliceType: nat, ppsId: nat, isIdr: bool)

  datatype Override = Override(usesLists: bool, usesList1: bool, present: bool)

  // ---------- what the parsers compute ----------

  predicate SliceType(header: Byte) {
    header < 0x80 && (header % 32 == 1 || header % 32 == 5)
  }

  /** The NAL header of a slice and the bits its reader can see. */
  function OpenSlice(data: seq<Byte>): Option<(Byte, seq<bool>)> {
    var prefix := PrefixSize(data);
    if prefix >= |data| || !SliceType(data[prefix]) then None else
    var body := Clip(Unescape(data[prefix + 1..], 0), READER_BYTES);
    if body == [] then None else Some((data[prefix], Unpack(body)))
  }

  function IdentityOf(data: seq<Byte>): Option<Identity> {
    var (header, b0) :- OpenSlice(data);
    var (firstMb, b1) :- TakeUe(b0);
    var (sliceType, b2) :- TakeUe(b1);
    var (ppsId, b3) :- TakeUe(b2);
    if sliceType > 9 || ppsId > 255 then None
    else Some(Identity(firstMb, sliceType, ppsId, header % 32 == 5))
  }

  predicate Progressive(p: Parameters) {
    && p.frameMbsOnly == 1 && p.fieldPic == 0
    && (p.pocType == 0 || p.pocType == 2)
    && p.log2MaxFrameNumMinus4 <= 12 && p.log2MaxPocLsbMinus4 <= 12
  }

  function OverrideOf(data: seq<Byte>, p: Parameters): Option<Override> {
    if !Progressive(p) then None else
    var (header, b0) :- OpenSlice(data);
    var (_, b1) :- TakeUe(b0);
    var (sliceType, b2) :- TakeUe(b1);
    var (_, b3) :- TakeUe(b2);
    if sliceType > 9 then None else
    var (_, b4) :- TakeU(b3, p.log2MaxFrameNumMinus4 + 4);
    var (_, b5) :- if header % 32 == 5 then TakeUe(b4) else Some((0, b4));
    var b6 :- SkipPoc(b5, p);
    var (_, b7) :- if p.redundantPicCnt != 0 then TakeUe(b6) else Some((0, b6));
    TakeOverride(b7, sliceType % 5)
  }

  function SkipPoc(bits: seq<bool>, p: Parameters): Option<seq<bool>> {
    if p.pocType != 0 then Some(bits) else
    var (_, b1) :- TakeU(bits, p.log2MaxPocLsbMinus4 + 4);
    if p.bottomFieldPicOrder == 0 then Some(b1) else
    var (_, b2) :- TakeSe(b1);
    Some(b2)
  }

  function TakeOverride(bits: seq<bool>, kind: nat): Option<Override> {
    var (_, b1) :- if kind == 1 then TakeFlag(bits) else Some((false, bits));
    if kind == 0 || kind == 1 || kind == 3 then
      var (flag, _) :- TakeFlag(b1);
      Some(Override(true, kind == 1, flag))
    else
      Some(Override(false, false, false))
  }

  // ---------- the parsers ----------

  method InitSliceReader(data: seq<Byte>) returns (ok: bool, reader: BitReader, header: Byte)
    ensures fresh(reader) && reader.Valid()
    ensures ok <==> OpenSlice(data).Some?
    ensures ok ==> OpenSlice(data) == Some((header, reader.Remaining()))
  {
    hide Unescape, Unpack;
    var buffer := new Byte[READER_BYTES](_ => 0);
    header := 0;
    var prefix := PrefixSize(data);
    if prefix >= |data| {
      reader := new BitReader(buffer, 0);
      return false, reader, header;
    }
    header := data[prefix];
    if header >= 0x80 || (header % 32 != 1 && header % 32 != 5) {
      reader := new BitReader(buffer, 0);
      return false, reader, header;
    }
    var size := UnescapeInto(buffer, data, prefix + 1);
    reader := new BitReader(buffer, size);
    ok := size != 0;
  }

  method ParseSliceIdentity(data: seq<Byte>) returns (r: Option<Identity>)
    ensures r == IdentityOf(data)
  {
    hide OpenSlice, TakeUe;
    var ok, reader, header := InitSliceReader(data);
    if !ok {
      return None;
    }
    var firstMb := reader.ReadUe();
    if firstMb.None? {
      return None;
    }
    var sliceType := reader.ReadUe();
    if sliceType.None? {
      return None;
    }
    var ppsId := reader.ReadUe();
    if ppsId.None? || sliceType.value > 9 || ppsId.value > 255 {
      return None;
    }
    return Some(Identity(firstMb.value, sliceType.value, ppsId.value, header % 32 == 5));
  }

  method ParseReferenceOverride(data: seq<Byte>, p: Parameters) returns (r: Option<Override>)
    ensures r == OverrideOf(data, p)
  {
    hide OpenSlice, TakeUe, TakeU, SkipPoc, TakeOverride;
    if p.frameMbsOnly != 1 || p.fieldPic != 0 || (p.pocType != 0 && p.pocType != 2) ||
       p.log2MaxFrameNumMinus4 > 12 || p.log2MaxPocLsbMinus4 > 12 {
      return None;
    }
    var ok, reader, header := InitSliceReader(data);
    if !ok {
      return None;
    }
    var ignored := reader.ReadUe();
    if ignored.None? {
      return None;
    }
    var sliceType := reader.ReadUe();
    if sliceType.None? {
      return None;
    }
    ignored := reader.ReadUe();
    if ignored.None? || sliceType.value > 9 {
      return None;
    }
    ignored := reader.ReadBits(p.log2MaxFrameNumMinus4 + 4);
    if ignored.None? {
      return None;
    }
    if header % 32 == 5 {
      ignored := reader.ReadUe();
      if ignored.None? {
        return None;
      }
    }
    ok := ReadPoc(reader, p);
    if !ok {
      return None;
    }
    if p.redundantPicCnt != 0 {
      ignored := reader.ReadUe();
      if ignored.None? {
        return None;
      }
    }
    r := ReadOverride(reader, sliceType.value % 5);
  }

  method ReadPoc(reader: BitReader, p: Parameters) returns (ok: bool)
    requires reader.Valid() && Progressive(p)
    modifies reader
    ensures reader.Valid()
    ensures ok <==> SkipPoc(old(reader.Remaining()), p).Some?
    ensures ok ==> SkipPoc(old(reader.Remaining()), p) == Some(reader.Remaining())
  {
    hide TakeU, TakeSe;
    if p.pocType == 0 {
      var lsb := reader.ReadBits(p.log2MaxPocLsbMinus4 + 4);
      if lsb.None? {
        return false;
      }
      if p.bottomFieldPicOrder != 0 {
        var delta := reader.ReadSe();
        if delta.None? {
          return false;
        }
      }
    }
    return true;
  }

  method ReadOverride(reader: BitReader, kind: nat) returns (r: Option<Override>)
    requires reader.Valid()
    modifies reader
    ensures r == TakeOverride(old(reader.Remaining()), kind)
  {
    if kind == 1 {
      var direct := reader.ReadBit();
      if direct.None? {
        return None;
      }
    }
    if kind == 0 || kind == 1 || kind == 3 {
      var flag := reader.ReadBit();
      if flag.None? {
        return None;
      }
      return Some(Override(true, kind == 1, flag.value == 1));
    }
    return Some(Override(false, false, false));
  }

  // ---------- the writer they invert ----------

  datatype SliceHeader = SliceHeader(
    firstMb: nat, sliceType: nat, ppsId: nat, frameNum: nat, idrPicId: nat, pocLsb: nat,
    deltaPocBottom: int, redundantPicCnt: nat, directSpatial: bool, override: bool)

  /** A header that can be written for a progressive picture, whether or not its slice type and parameter set exist. */
  ghost predicate WellFormed(h: SliceHeader, p: Parameters) {
    && p.frameMbsOnly == 1 && p.fieldPic == 0 && (p.pocType == 0 || p.pocType == 2)
    && p.log2MaxFrameNumMinus4 <= 12 && p.log2MaxPocLsbMinus4 <= 12
    && h.firstMb <= MAX_UE && h.sliceType <= MAX_UE && h.ppsId <= MAX_UE
    && h.frameNum < Pow2(p.log2MaxFrameNumMinus4 + 4)
    && h.idrPicId <= MAX_UE
    && h.pocLsb < Pow2(p.log2MaxPocLsbMinus4 + 4)
    && -MAX_SE <= h.deltaPocBottom <= MAX_SE
    && h.redundantPicCnt <= MAX_UE
  }

  /** P, B and SP slices; the numbers from 5 on say that all slices of the picture are of that type. */
  predicate UsesLists(sliceType: nat) {
    sliceType in {0, 1, 3, 5, 6, 8}
  }

  function SliceSyntax(h: SliceHeader, p: Parameters, idr: bool): Syntax {
    Then(UE(h.firstMb),
    Then(UE(h.sliceType),
    Then(UE(h.ppsId),
    Then(U(h.frameNum, p.log2MaxFrameNumMinus4 + 4),
    if idr then Then(UE(h.idrPicId), PocSyntax(h, p)) else PocSyntax(h, p)))))
  }

  function PocSyntax(h: SliceHeader, p: Parameters): Syntax {
    if p.pocType != 0 then RedundantSyntax(h, p)
    else
      Then(U(h.pocLsb, p.log2MaxPocLsbMinus4 + 4),
      if p.bottomFieldPicOrder != 0 then Then(SE(h.deltaPocBottom), RedundantSyntax(h, p)) else RedundantSyntax(h, p))
  }

  function RedundantSyntax(h: SliceHeader, p: Parameters): Syntax {
    if p.redundantPicCnt != 0 then Then(UE(h.redundantPicCnt), OverrideSyntax(h)) else OverrideSyntax(h)
  }

  function OverrideSyntax(h: SliceHeader): Syntax {
    if h.sliceType in {1, 6} then Then(Bit(if h.directSpatial then 1 else 0), OverrideFlag(h))
    else if UsesLists(h.sliceType) then OverrideFlag(h)
    else Done
  }

  function OverrideFlag(h: SliceHeader): Syntax {
    Then(Bit(if h.override then 1 else 0), Done)
  }

  /** An Annex-B slice: optional start code, NAL header, and the escaped header bits followed by slice data. */
  function SliceNal(prefix: seq<Byte>, header: Byte, bits: seq<bool>): seq<Byte>
    requires |bits| % 8 == 0
  {
    prefix + [header] + Escape(Pack(bits), 0)
  }

  // ---------- inversion ----------

  lemma SliceFits(h: SliceHeader, p: Parameters, idr: bool)
    requires WellFormed(h, p)
    ensures AllCodable(SliceSyntax(h, p, idr), 32) && Length(SliceSyntax(h, p, idr)) <= 10
  {
    DoneFacts();
    hide AllCodable, Length;
    SmallFields();
  }

  /** Opening an escaped slice gives back its header byte and at least the bits of the written header. */
  lemma OpenInverts(prefix: seq<Byte>, header: Byte, s: Syntax, rest: seq<bool>)
    requires prefix == [] || prefix == [0, 0, 1] || prefix == START_CODE
    requires SliceType(header) && AllCodable(s, 32) && 1 <= Length(s) <= 16
    requires |Encode(s, rest)| % 8 == 0 && Encode(s, rest) != []
    ensures exists seen :: OpenSlice(SliceNal(prefix, header, Encode(s, rest))) == Some((header, Encode(s, seen)))
  {
    hide Encode, Escape, Unescape, Pack, Unpack, AllCodable, Length;
    var bits := Encode(s, rest);
    var data := SliceNal(prefix, header, bits);
    assert PrefixSize(data) == |prefix|;
    assert data[|prefix| + 1..] == Escape(Pack(bits), 0);
    UnescapeInverts(Pack(bits), 0);
    UnpackOfPack(bits);
    CodableWider(s, 32, 63);
    EncodeSize(s);
    EncodeThen(s, [], rest);
    assert [] + rest == rest;
    if |bits| <= 1024 {
      assert Clip(Pack(bits), 128) == Pack(bits);
      assert OpenSlice(data) == Some((header, Encode(s, rest)));
    } else {
      UnpackOfPrefix(Pack(bits), 128);
      var kept := rest[..1024 - |Encode(s, [])|];
      EncodeThen(s, [], kept);
      assert [] + kept == kept;
      assert bits[..1024] == Encode(s, kept);
      assert OpenSlice(data) == Some((header, Encode(s, kept)));
    }
  }

  lemma IdentityReads(h: SliceHeader, p: Parameters, idr: bool, seen: seq<bool>)
    requires WellFormed(h, p)
    ensures var b0 := Encode(SliceSyntax(h, p, idr), seen);
            && TakeUe(b0).Some? && TakeUe(b0).value.0 == h.firstMb
            && var b1 := TakeUe(b0).value.1;
            && TakeUe(b1).Some? && TakeUe(b1).value.0 == h.sliceType
            && var b2 := TakeUe(b1).value.1;
            && TakeUe(b2) == Some((h.ppsId, Encode(SliceSyntax(h, p, idr).tail.tail.tail, seen)))
  {
    hide Encode, TakeUe, Then;
    var s := SliceSyntax(h, p, idr);
    TakeHead(s, seen);
    TakeHead(s.tail, seen);
    TakeHead(s.tail.tail, seen);
  }

  lemma OverrideReads(h: SliceHeader, seen: seq<bool>)
    requires h.sliceType <= 9
    ensures TakeOverride(Encode(OverrideSyntax(h), seen), h.sliceType % 5) == Some(WrittenOverride(h))
  {
    hide Encode, TakeFlag, Then;
    SmallFields();
    var s := OverrideSyntax(h);
    if h.sliceType in {1, 6} {
      TakeHead(s, seen);
      TakeHead(s.tail, seen);
    } else if UsesLists(h.sliceType) {
      TakeHead(s, seen);
    }
  }

  lemma PocReads(h: SliceHeader, p: Parameters, seen: seq<bool>)
    requires WellFormed(h, p)
    ensures SkipPoc(Encode(PocSyntax(h, p), seen), p) == Some(Encode(RedundantSyntax(h, p), seen))
  {
    hide Encode, TakeU, TakeSe, Then;
    var s := PocSyntax(h, p);
    if p.pocType == 0 {
      TakeHead(s, seen);
      if p.bottomFieldPicOrder != 0 {
        TakeHead(s.tail, seen);
      }
    }
  }

  /** The fields between the identity and the override flag are skipped exactly. */
  lemma OverrideSkips(h: SliceHeader, p: Parameters, idr: bool, seen: seq<bool>)
    requires WellFormed(h, p)
    ensures var b3 := Encode(SliceSyntax(h, p, idr).tail.tail.tail, seen);
            var b4 := Encode(SliceSyntax(h, p, idr).tail.tail.tail.tail, seen);
            var b5 := Encode(PocSyntax(h, p), seen);
            var b6 := Encode(RedundantSyntax(h, p), seen);
            && TakeU(b3, p.log2MaxFrameNumMinus4 + 4) == Some((h.frameNum, b4))
            && (if idr then TakeUe(b4) == Some((h.idrPicId, b5)) else b4 == b5)
            && SkipPoc(b5, p) == Some(b6)
            && (if p.redundantPicCnt != 0 then TakeUe(b6) == Some((h.redundantPicCnt, Encode(OverrideSyntax(h), seen)))
                else b6 == Encode(OverrideSyntax(h), seen))
            && (h.sliceType <= 9 ==> TakeOverride(Encode(OverrideSyntax(h), seen), h.sliceType % 5) == Some(WrittenOverride(h)))
  {
    hide Encode, TakeUe, TakeU, SkipPoc, TakeOverride, Then, PocSyntax, OverrideSyntax;
    var s := SliceSyntax(h, p, idr).tail.tail.tail;
    TakeHead(s, seen);
    if idr {
      TakeHead(s.tail, seen);
    }
    PocReads(h, p, seen);
    if p.redundantPicCnt != 0 {
      TakeHead(RedundantSyntax(h, p), seen);
    }
    if h.sliceType <= 9 {
      OverrideReads(h, seen);
    }
  }

  function WrittenOverride(h: SliceHeader): Override {
    Override(UsesLists(h.sliceType), h.sliceType in {1, 6}, UsesLists(h.sliceType) && h.override)
  }

  lemma ParsersInvert(data: seq<Byte>, header: Byte, h: SliceHeader, p: Parameters, seen: seq<bool>)
    requires WellFormed(h, p)
    requires OpenSlice(data) == Some((header, Encode(SliceSyntax(h, p, header % 32 == 5), seen)))
    ensures IdentityOf(data) ==
            if h.sliceType <= 9 && h.ppsId <= 255 then Some(Identity(h.firstMb, h.sliceType, h.ppsId, header % 32 == 5)) else None
    ensures OverrideOf(data, p) == if h.sliceType <= 9 then Some(WrittenOverride(h)) else None
  {
    hide OpenSlice, Encode, TakeUe, TakeU, SkipPoc, TakeOverride, SliceSyntax, PocSyntax, RedundantSyntax, OverrideSyntax;
    IdentityReads(h, p, header % 32 == 5, seen);
    OverrideSkips(h, p, header % 32 == 5, seen);
  }

  /** NAL units that are not slices are not opened. */
  lemma OthersRefused(prefix: seq<Byte>, header: Byte, rest: seq<Byte>)
    requires prefix == [] || prefix == [0, 0, 1] || prefix == START_CODE
    requires (header >= 128 || header % 32 !in {1, 5}) && (prefix == [] ==> header != 0)
    ensures OpenSlice(prefix + [header] + rest) == None
  {
    var data := prefix + [header] + rest;
    assert PrefixSize(data) == |prefix| && data[|prefix|] == header;
  }

  /**
    For every slice header that can be written, whatever follows it, both parsers recover what was written, exactly when
    the NAL unit is a slice (type 1 or 5) and its fields are in range.
   */
  lemma SliceHeaderInverts(prefix: seq<Byte>, header: Byte, h: SliceHeader, p: Parameters, rest: seq<bool>)
    requires prefix == [] || prefix == [0, 0, 1] || prefix == START_CODE
    requires WellFormed(h, p) && (prefix == [] ==> header != 0)
    requires |Encode(SliceSyntax(h, p, header % 32 == 5), rest)| % 8 == 0
    ensures var data := SliceNal(prefix, header, Encode(SliceSyntax(h, p, header % 32 == 5), rest));
            var slice := header < 128 && header % 32 in {1, 5};
            && IdentityOf(data) == (if slice && h.sliceType <= 9 && h.ppsId <= 255
                                    then Some(Identity(h.firstMb, h.sliceType, h.ppsId, header % 32 == 5)) else None)
            && OverrideOf(data, p) == (if slice && h.sliceType <= 9 then Some(WrittenOverride(h)) else None)
  {
    hide OpenSlice, WellFormed, AllCodable;
    var s := SliceSyntax(h, p, header % 32 == 5);
    if header >= 128 || header % 32 !in {1, 5} {
      OthersRefused(prefix, header, Escape(Pack(Encode(s, rest)), 0));
      return;
    }
    hide IdentityOf, OverrideOf, SliceNal;
    SliceFits(h, p, header % 32 == 5);
    UeShape(h.firstMb, Encode(s.tail, rest));
    OpenInverts(prefix, header, s, rest);
    var data := SliceNal(prefix, header, Encode(s, rest));
    var seen :| OpenSlice(data) == Some((header, Encode(s, seen)));
    ParsersInvert(data, header, h, p, seen);
  }
}
