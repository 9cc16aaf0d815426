/** The slice-identity parser of src/vaapi_advc/advc_vaapi_decode_hevc.c:144-260 and the writer it inverts. */
module HevcSlice {
  import opened Bits
  import opened SyntaxElements
  import opened BitIo
  import opened AnnexB
  import H264Config
  import HevcConfig

  const READER_BYTES: nat := 128

  datatype Identity = Identity(ppsId: nat, nalType: nat, firstSegment: bool, noOutputOfPriorPics: bool)

  predicate Irap(nalType: nat) {
    16 <= nalType <= 23
  }

  /** Video coding layer, base layer, temporal sub-layer zero. */
  predicate SliceHeaderBytes(first: Byte, second: Byte) {
    first < 0x80 && (first / 2) % 64 <= 31 && (first % 2) * 32 + second / 8 == 0 && second % 8 == 1
  }

  function OpenSlice(data: seq<Byte>): Option<(nat, seq<bool>)> {
    var prefix := PrefixSize(data);
    if |data| - prefix < 3 || !SliceHeaderBytes(data[prefix], data[prefix + 1]) then None else
    var body := Clip(Unescape(data[prefix + 2..], 0), READER_BYTES);
    if body == [] then None else Some(((data[prefix] / 2) % 64, Unpack(body)))
  }

  function IdentityOf(data: seq<Byte>): Option<Identity> {
    var (nalType, b0) :- OpenSlice(data);
    var (first, b1) :- TakeFlag(b0);
    var (noOutput, b2) :- if Irap(nalType) then TakeFlag(b1) else Some((false, b1));
    var (ppsId, _) :- TakeUe(b2);
    if ppsId > 63 then None else Some(Identity(ppsId, nalType, first, noOutput))
  }

  method InitSliceReader(data: seq<Byte>) returns (ok: bool, reader: BitReader, nalType: nat)
    ensures fresh(reader) && reader.Valid()
    ensures ok <==> OpenSlice(data).Some?
    ensures ok ==> OpenSlice(data) == Some((nalType, reader.Remaining()))
  {
    hide Unescape, Unpack;
    var buffer := new Byte[READER_BYTES](_ => 0);
    nalType := 0;
    var prefix := PrefixSize(data);
    if |data| - prefix < 3 {
      reader := new BitReader(buffer, 0);
      return false, reader, nalType;
    }
    var first := data[prefix];
    var second := data[prefix + 1];
    nalType := (first / 2) % 64;
    var layerId := (first % 2) * 32 + second / 8;
    if first >= 0x80 || nalType > 31 || layerId != 0 || second % 8 != 1 {
      reader := new BitReader(buffer, 0);
      return false, reader, nalType;
    }
    var size := UnescapeInto(buffer, data, prefix + 2);
    reader := new BitReader(buffer, size);
    ok := size != 0;
  }

  method ParseSliceIdentity(data: seq<Byte>) returns (r: Option<Identity>)
    ensures r == IdentityOf(data)
  {
    hide OpenSlice, TakeUe;
    var ok, reader, nalType := InitSliceReader(data);
    if !ok {
      return None;
    }
    var first := reader.ReadBit();
    if first.None? {
      return None;
    }
    var noOutput := Some(0);
    if 16 <= nalType <= 23 {
      noOutput := reader.ReadBit();
      if noOutput.None? {
        return None;
      }
    }
    var ppsId := reader.ReadUe();
    if ppsId.None? || ppsId.value > 63 {
      return None;
    }
    return Some(Identity(ppsId.value, nalType, first.value == 1, noOutput.value == 1));
  }

  /**
    The start of slice_segment_header() in section 7.3.6.1 of ITU-T H.265: no_output_of_prior_pics_flag is there for the
    types BLA_W_LP to RSV_IRAP_VCL23 of table 7-1.
   */
  function SliceSyntax(id: Identity): Syntax {
    Then(Bit(if id.firstSegment then 1 else 0),
    if 16 <= id.nalType <= 23 then Then(Bit(if id.noOutputOfPriorPics then 1 else 0), Then(UE(id.ppsId), Done))
    else Then(UE(id.ppsId), Done))
  }

  /** nal_unit_header() of section 7.3.1.2: a zero bit, six bits of type, six of layer and three of temporal id plus one. */
  datatype Header = Header(forbidden: bool, nalType: nat, layer: nat, temporalPlus1: nat) {
    predicate Valid() { nalType < 64 && layer < 64 && 0 < temporalPlus1 < 8 }

    function Bytes(): (b: seq<Byte>)
      requires Valid()
      ensures |b| == 2
    {
      [(if forbidden then 128 else 0) + 2 * nalType + layer / 32, 8 * (layer % 32) + temporalPlus1]
    }
  }

  function SliceNal(prefix: seq<Byte>, header: Header, bits: seq<bool>): seq<Byte>
    requires header.Valid() && |bits| % 8 == 0
  {
    prefix + header.Bytes() + Escape(Pack(bits), 0)
  }

  /** The parsers take slice types of the base layer and the lowest temporal sub-layer. */
  predicate Taken(header: Header) {
    !header.forbidden && header.nalType <= 31 && header.layer == 0 && header.temporalPlus1 == 1
  }

  lemma SliceOpens(prefix: seq<Byte>, header: Header, bytes: seq<Byte>)
    requires prefix == [] || prefix == [0, 0, 1] || prefix == START_CODE
    requires header.Valid() && bytes != []
    ensures OpenSlice(prefix + header.Bytes() + Escape(bytes, 0)) ==
            if Taken(header) then Some((header.nalType, Unpack(Clip(bytes, READER_BYTES)))) else None
  {
    hide Unpack, Unescape, SliceHeaderBytes, PrefixSize;
    var h := header.Bytes();
    var data := prefix + h + Escape(bytes, 0);
    assert |Escape(bytes, 0)| >= 1;
    hide Escape;
    PrefixIs(prefix, h, Escape(bytes, 0));
    HeaderBytes(header);
    assert data[|prefix|] == h[0] && data[|prefix| + 1] == h[1];
    assert data[|prefix| + 2..] == Escape(bytes, 0);
    UnescapeInverts(bytes, 0);
    assert Clip(bytes, READER_BYTES) != [];
  }

  lemma PrefixIs(prefix: seq<Byte>, header: seq<Byte>, rest: seq<Byte>)
    requires prefix == [] || prefix == [0, 0, 1] || prefix == START_CODE
    requires |header| == 2 && header[1] != 0
    ensures PrefixSize(prefix + header + rest) == |prefix|
  {
    var data := prefix + header + rest;
    if prefix == [] {
      assert data[0] == header[0] && data[1] == header[1];
    } else if prefix == [0, 0, 1] {
      assert data[0] == 0 && data[1] == 0 && data[2] == 1;
    } else {
      assert data[0] == 0 && data[1] == 0 && data[2] == 0 && data[3] == 1;
    }
  }

  lemma HeaderBytes(header: Header)
    requires header.Valid()
    ensures var h := header.Bytes();
            && h[1] != 0 && (SliceHeaderBytes(h[0], h[1]) <==> Taken(header)) && h[0] / 2 % 64 == header.nalType
  {
  }

  /** The reader keeps enough bits for everything the header needs. */
  lemma ClippedBits(s: Syntax, rest: seq<bool>)
    requires AllCodable(s, 48) && Length(s) <= 3 && |Encode(s, rest)| % 8 == 0
    ensures exists seen :: Unpack(Clip(Pack(Encode(s, rest)), READER_BYTES)) == Encode(s, seen)
  {
    hide Encode, Pack, Unpack, AllCodable, Length;
    var bits := Encode(s, rest);
    UnpackOfPack(bits);
    CodableWider(s, 48, 63);
    EncodeSize(s);
    EncodeThen(s, [], rest);
    assert [] + rest == rest;
    if |bits| <= 1024 {
      assert Clip(Pack(bits), READER_BYTES) == Pack(bits);
    } else {
      UnpackOfPrefix(Pack(bits), 128);
      var kept := rest[..1024 - |Encode(s, [])|];
      EncodeThen(s, [], kept);
      assert [] + kept == kept;
      assert bits[..1024] == Encode(s, kept);
    }
  }

  lemma OpenInverts(prefix: seq<Byte>, header: Header, s: Syntax, rest: seq<bool>)
    requires prefix == [] || prefix == [0, 0, 1] || prefix == START_CODE
    requires header.Valid() && Taken(header)
    requires AllCodable(s, 48) && Length(s) <= 3
    requires |Encode(s, rest)| % 8 == 0 && Encode(s, rest) != []
    ensures exists seen :: OpenSlice(SliceNal(prefix, header, Encode(s, rest))) == Some((header.nalType, Encode(s, seen)))
  {
    hide Encode, Escape, Pack, Unpack, AllCodable, Length, OpenSlice, Clip;
    UnpackOfPack(Encode(s, rest));
    PackNonempty(Encode(s, rest));
    SliceOpens(prefix, header, Pack(Encode(s, rest)));
    ClippedBits(s, rest);
  }

  lemma PackNonempty(bits: seq<bool>)
    requires |bits| % 8 == 0 && bits != []
    ensures Pack(bits) != []
  {
  }

  /**
    For every slice segment header, whatever follows it, the parser recovers its identity exactly when it is of the
    supported kind, and refuses it otherwise.
   */
  lemma IdentityInverts(prefix: seq<Byte>, header: Header, id: Identity, rest: seq<bool>)
    requires prefix == [] || prefix == [0, 0, 1] || prefix == START_CODE
    requires header.Valid() && id.nalType == header.nalType && id.ppsId <= MAX_UE
    requires id.noOutputOfPriorPics ==> 16 <= id.nalType <= 23
    requires |Encode(SliceSyntax(id), rest)| % 8 == 0
    ensures IdentityOf(SliceNal(prefix, header, Encode(SliceSyntax(id), rest))) ==
            if !header.forbidden && header.nalType <= 31 && header.layer == 0 && header.temporalPlus1 == 1 && id.ppsId <= 63
            then Some(id) else None
  {
    var s := SliceSyntax(id);
    SliceSyntaxCodable(id, rest);
    hide OpenSlice, Encode, TakeUe, TakeFlag, Pow2, SliceSyntax, AllCodable, Length;
    if Taken(header) {
      hide SliceNal;
      OpenInverts(prefix, header, s, rest);
      var data := SliceNal(prefix, header, Encode(s, rest));
      var seen :| OpenSlice(data) == Some((id.nalType, Encode(s, seen)));
      SliceReads(id, seen);
    } else {
      PackNonempty(Encode(s, rest));
      SliceOpens(prefix, header, Pack(Encode(s, rest)));
    }
  }

  lemma SliceSyntaxCodable(id: Identity, rest: seq<bool>)
    requires id.ppsId <= MAX_UE
    ensures AllCodable(SliceSyntax(id), 48) && Length(SliceSyntax(id)) <= 3 && Encode(SliceSyntax(id), rest) != []
  {
    HevcConfig.FieldWidths();
    hide Pow2;
    assert |Code(SliceSyntax(id).head)| == 1;
  }

  /** Reading the header bits field by field. */
  lemma SliceReads(id: Identity, seen: seq<bool>)
    requires id.ppsId <= MAX_UE && (!Irap(id.nalType) ==> !id.noOutputOfPriorPics)
    ensures var b0 := Encode(SliceSyntax(id), seen);
            && TakeFlag(b0).Some? && TakeFlag(b0).value.0 == id.firstSegment
            && var b1 := TakeFlag(b0).value.1;
            && (Irap(id.nalType) ==>
                  TakeFlag(b1).Some? && TakeFlag(b1).value.0 == id.noOutputOfPriorPics &&
                  TakeUe(TakeFlag(b1).value.1).Some? && TakeUe(TakeFlag(b1).value.1).value.0 == id.ppsId)
            && (!Irap(id.nalType) ==> TakeUe(b1).Some? && TakeUe(b1).value.0 == id.ppsId)
  {
    HevcConfig.FieldWidths();
    hide Encode, TakeUe, TakeFlag, Pow2;
    var s := SliceSyntax(id);
    TakeHead(s, seen);
    TakeHead(s.tail, seen);
    if Irap(id.nalType) {
      TakeHead(s.tail.tail, seen);
    }
  }
}
