/**
  OBU parsing of src/vaapi_advc/advc_vaapi_decode_av1.c: one OBU, the OBU-order state, and the two framings
  (sections 5.3 and 7.5 and Annex B of the AV1 specification).
 */
module Av1Obu {
  import opened Bits
  import opened SyntaxElements
  import Leb128

  const MAX_TILES: nat := 512
  const MAX_OBUS: nat := 1024

  const SEQUENCE_HEADER: nat := 1
  const TEMPORAL_DELIMITER: nat := 2
  const FRAME_HEADER: nat := 3
  const TILE_GROUP: nat := 4
  const METADATA: nat := 5
  const FRAME: nat := 6
  const PADDING: nat := 15

  /** What an OBU says, whatever its framing. */
  datatype Obu = Obu(kind: nat, extension: bool, payload: seq<Byte>)

  /** An OBU with its header byte and the offset of its payload from its first byte. */
  datatype Located = Located(obu: Obu, header: Byte, offset: nat)

  datatype Picture = Picture(profile: nat, stillPicture: nat, frameType: nat, showFrame: nat, tileCols: nat, tileRows: nat)

  datatype Span = Span(begin: nat, end: nat)

  datatype Progress = Progress(
    obuCount: nat,
    tileGroups: nat,
    sequenceSeen: bool,
    reducedKnown: bool,
    reduced: bool,
    headerSeen: bool,
    frameSeen: bool,
    complete: bool,
    spans: seq<Span>)

  const FRESH: Progress := Progress(0, 0, false, false, false, false, false, false, [])

  function HeaderSize(header: Byte): nat {
    if (header / 4) % 2 == 1 then 2 else 1
  }

  predicate HasSizeField(header: Byte) {
    (header / 2) % 2 == 1
  }

  /** `parse_obu` on exactly the bytes of one OBU. */
  function ParseObu(data: seq<Byte>, annexB: bool): (r: Option<Located>)
    ensures r.Some? ==> r.value.offset + |r.value.obu.payload| == |data|
    ensures r.Some? ==> data[r.value.offset..] == r.value.obu.payload
  {
    if data == [] || data[0] >= 128 || data[0] % 2 == 1 then None else
    var header := data[0];
    var cursor := HeaderSize(header);
    if cursor == 2 && (|data| < 2 || data[1] != 0) then None else
    var kind := (header / 8) % 16;
    if HasSizeField(header) then
      var (field, size) :- Leb128.Decode(data[cursor..], Leb128.MAX_BYTES);
      if size != |data| - cursor - field then None
      else Some(Located(Obu(kind, cursor == 2, data[cursor + field..]), header, cursor + field))
    else if !annexB then None
    else Some(Located(Obu(kind, cursor == 2, data[cursor..]), header, cursor))
  }

  // ---------- payload prefixes ----------

  /** The profile, still-picture and reduced-header bits of a sequence header, checked against the picture. */
  function SequencePrefix(v: Progress, payload: seq<Byte>, picture: Picture): Option<Progress> {
    var (profile, b1) :- TakeU(Unpack(payload), 3);
    var (still, b2) :- TakeU(b1, 1);
    var (reduced, _) :- TakeU(b2, 1);
    if profile != picture.profile || profile != 0 then None
    else if still != picture.stillPicture || (reduced != 0 && still == 0) then None
    else Some(v.(reducedKnown := true, reduced := reduced != 0))
  }

  /** The show-existing, type and show bits of a frame header, checked against the picture. */
  function FramePrefix(v: Progress, payload: seq<Byte>, picture: Picture): Option<Progress> {
    if !v.reducedKnown && picture.stillPicture != 0 then None else
    var w := if v.reducedKnown then v else v.(reducedKnown := true, reduced := false);
    var (frameType, show) :- ShownFrame(payload, w.reduced);
    if frameType != picture.frameType || show != picture.showFrame then None else Some(w)
  }

  function ShownFrame(payload: seq<Byte>, reduced: bool): Option<(nat, nat)> {
    if reduced then Some((0, 1)) else
    var (existing, b1) :- TakeU(Unpack(payload), 1);
    if existing != 0 then None else
    var (frameType, b2) :- TakeU(b1, 2);
    var (show, _) :- TakeU(b2, 1);
    Some((frameType, show))
  }

  // ---------- OBU order ----------

  /** `observe_obu`: the order rules, for an OBU whose payload lies at `at`. */
  function Observe(v: Progress, o: Obu, at: nat, picture: Picture): Option<Progress> {
    if v.obuCount >= MAX_OBUS then None else
    var w := v.(obuCount := v.obuCount + 1);
    var span := Span(at, at + |o.payload|);
    if o.kind == SEQUENCE_HEADER then
      if v.sequenceSeen || v.headerSeen || v.frameSeen then None else
      var checked :- SequencePrefix(w, o.payload, picture);
      Some(checked.(sequenceSeen := true))
    else if o.kind == TEMPORAL_DELIMITER then
      if o.payload != [] || v.headerSeen || v.frameSeen || v.tileGroups != 0 then None else Some(w)
    else if o.kind == FRAME_HEADER then
      if v.headerSeen || v.frameSeen || v.tileGroups != 0 then None else
      var checked :- FramePrefix(w, o.payload, picture);
      Some(checked.(headerSeen := true))
    else if o.kind == TILE_GROUP then
      if !v.headerSeen || v.frameSeen || |v.spans| >= MAX_TILES then None
      else Some(w.(spans := v.spans + [span], tileGroups := v.tileGroups + 1, complete := true))
    else if o.kind == FRAME then
      if v.headerSeen || v.frameSeen || v.tileGroups != 0 then None else
      var checked :- FramePrefix(w, o.payload, picture);
      Some(checked.(frameSeen := true, complete := true, spans := [span]))
    else if o.kind == METADATA then
      if v.headerSeen || v.frameSeen || v.tileGroups != 0 then None else Some(w)
    else if o.kind == PADDING then Some(w)
    else None
  }

  predicate Finished(v: Progress) {
    v.complete && v.spans != [] && !(v.headerSeen && v.tileGroups == 0)
  }

  // ---------- the two framings ----------

  /** The next size-delimited OBU and its length. */
  function NextRaw(data: seq<Byte>): (r: Option<(Located, nat)>)
    requires data != []
    ensures r.Some? ==> 1 <= r.value.1 <= |data|
    ensures r.Some? ==> r.value.0.offset + |r.value.0.obu.payload| == r.value.1
    ensures r.Some? ==> data[r.value.0.offset..r.value.1] == r.value.0.obu.payload
  {
    var headerSize := HeaderSize(data[0]);
    if headerSize >= |data| || !HasSizeField(data[0]) then None else
    var (field, size) :- Leb128.Decode(data[headerSize..], Leb128.MAX_BYTES);
    var total := headerSize + field + size;
    if total > |data| then None else
    var located :- ParseObu(data[..total], false);
    Some((located, total))
  }

  /** The next length-prefixed OBU, the size of its prefix and its length. */
  function NextAnnexB(data: seq<Byte>): (r: Option<(Located, nat, nat)>)
    ensures r.Some? ==> 1 <= r.value.1 && 1 <= r.value.2 && r.value.1 + r.value.2 <= |data|
    ensures r.Some? ==> r.value.0.offset + |r.value.0.obu.payload| == r.value.2
    ensures r.Some? ==> data[r.value.1 + r.value.0.offset..r.value.1 + r.value.2] == r.value.0.obu.payload
  {
    var (field, size) :- Leb128.Decode(data, Leb128.MAX_BYTES);
    if size == 0 || size > |data| - field then None else
    var located :- ParseObu(data[field..field + size], true);
    SliceOfSlice(data, field, field + size, located.offset);
    Some((located, field, size))
  }

  lemma SliceOfSlice(data: seq<Byte>, from: nat, to: nat, at: nat)
    requires from <= to <= |data| && at <= to - from
    ensures data[from..to][at..] == data[from + at..to]
  {
  }

  datatype Outcome = Outcome(progress: Progress, obus: seq<Obu>)

  /** `parse_raw_obus` from a suffix that starts at `at`. */
  function RunRaw(data: seq<Byte>, at: nat, v: Progress, picture: Picture): Option<Outcome>
    decreases |data|
  {
    if data == [] then (if Finished(v) then Some(Outcome(v, [])) else None) else
    var (located, total) :- NextRaw(data);
    var w :- Observe(v, located.obu, at + located.offset, picture);
    var rest :- RunRaw(data[total..], at + total, w, picture);
    Some(Outcome(rest.progress, [located.obu] + rest.obus))
  }

  /** The OBU loop of `parse_annex_b` from a suffix that starts at `at`. */
  function RunAnnexB(data: seq<Byte>, at: nat, v: Progress, picture: Picture): Option<Outcome>
    decreases |data|
  {
    if data == [] then (if Finished(v) then Some(Outcome(v, [])) else None) else
    var (located, field, size) :- NextAnnexB(data);
    var w :- Observe(v, located.obu, at + field + located.offset, picture);
    var rest :- RunAnnexB(data[field + size..], at + field + size, w, picture);
    Some(Outcome(rest.progress, [located.obu] + rest.obus))
  }

  /** The lengths of the temporal-unit and frame-unit size fields, when both describe the whole input. */
  function UnitFields(data: seq<Byte>): (r: Option<(nat, nat)>)
    ensures r.Some? ==> r.value.0 + r.value.1 <= |data| && r.value.0 >= 1 && r.value.1 >= 1
  {
    var (tuField, tuSize) :- Leb128.Decode(data, Leb128.MAX_BYTES);
    if tuSize != |data| - tuField then None else
    var (fuField, fuSize) :- Leb128.Decode(data[tuField..], Leb128.MAX_BYTES);
    if fuSize != |data| - tuField - fuField then None else
    Some((tuField, fuField))
  }

  function ParseRaw(data: seq<Byte>, picture: Picture): Option<Outcome> {
    RunRaw(data, 0, FRESH, picture)
  }

  function ParseAnnexB(data: seq<Byte>, picture: Picture): Option<Outcome> {
    var (tuField, fuField) :- UnitFields(data);
    RunAnnexB(data[tuField + fuField..], tuField + fuField, FRESH, picture)
  }

  // ---------- rewriting ----------

  /** The low-overhead form of one OBU: size flag set, minimal size field. */
  function Rewritten(o: Obu): seq<Byte>
    requires o.kind < 16
  {
    [8 * o.kind + (if o.extension then 4 else 0) + 2] + (if o.extension then [0] else []) +
    Leb128.Encode(|o.payload|) + o.payload
  }

  predicate Kinds(obus: seq<Obu>) {
    forall k :: 0 <= k < |obus| ==> obus[k].kind < 16
  }

  function Rewrite(obus: seq<Obu>): seq<Byte>
    requires Kinds(obus)
  {
    if obus == [] then [] else Rewritten(obus[0]) + Rewrite(obus[1..])
  }

  /** Two states that differ only in where the tile payloads lie. */
  predicate SameBut(v: Progress, w: Progress) {
    v == w.(spans := v.spans) && |v.spans| == |w.spans|
  }

  lemma ObserveIgnoresOffsets(v: Progress, w: Progress, o: Obu, at: nat, at': nat, picture: Picture)
    requires SameBut(v, w)
    ensures Observe(v, o, at, picture).Some? <==> Observe(w, o, at', picture).Some?
    ensures Observe(v, o, at, picture).Some? ==>
              SameBut(Observe(v, o, at, picture).value, Observe(w, o, at', picture).value)
  {
    hide SequencePrefix, FramePrefix;
    if o.kind == SEQUENCE_HEADER {
      SequenceIgnoresOffsets(v, w, o, picture);
    } else if o.kind == FRAME_HEADER || o.kind == FRAME {
      FrameIgnoresOffsets(v, w, o, picture);
    }
  }

  lemma SequenceIgnoresOffsets(v: Progress, w: Progress, o: Obu, picture: Picture)
    requires SameBut(v, w)
    ensures var a := SequencePrefix(v.(obuCount := v.obuCount + 1), o.payload, picture);
            var b := SequencePrefix(w.(obuCount := w.obuCount + 1), o.payload, picture);
            && (a.Some? <==> b.Some?) && (a.Some? ==> SameBut(a.value, b.value))
  {
    hide TakeU, Unpack;
  }

  lemma FrameIgnoresOffsets(v: Progress, w: Progress, o: Obu, picture: Picture)
    requires SameBut(v, w)
    ensures var a := FramePrefix(v.(obuCount := v.obuCount + 1), o.payload, picture);
            var b := FramePrefix(w.(obuCount := w.obuCount + 1), o.payload, picture);
            && (a.Some? <==> b.Some?) && (a.Some? ==> SameBut(a.value, b.value))
  {
    hide TakeU, Unpack;
  }

  lemma HeaderByte(kind: nat, extension: bool)
    requires kind < 16
    ensures var h: Byte := 8 * kind + (if extension then 4 else 0) + 2;
            && h < 128 && h % 2 == 0 && HasSizeField(h) && HeaderSize(h) == (if extension then 2 else 1)
            && (h / 8) % 16 == kind
  {
  }

  /** Whatever follows, the low-overhead parser reads a rewritten OBU back as the OBU it came from. */
  lemma RewrittenReadsBack(o: Obu, rest: seq<Byte>)
    requires o.kind < 16 && |Leb128.Encode(|o.payload|)| <= Leb128.MAX_BYTES
    ensures var r := NextRaw(Rewritten(o) + rest); r.Some? && r.value.0.obu == o && r.value.1 == |Rewritten(o)|
  {
    hide Leb128.Encode, Leb128.Decode;
    var size := Leb128.Encode(|o.payload|);
    var data := Rewritten(o) + rest;
    var cursor := if o.extension then 2 else 1;
    HeaderByte(o.kind, o.extension);
    assert data[cursor..] == size + (o.payload + rest);
    Leb128.DecodeInverts(|o.payload|, o.payload + rest, Leb128.MAX_BYTES);
    var one := data[..|Rewritten(o)|];
    assert one == Rewritten(o);
    assert one[cursor..] == size + o.payload;
    Leb128.DecodeInverts(|o.payload|, o.payload, Leb128.MAX_BYTES);
    assert one[cursor + |size|..] == o.payload;
    assert ParseObu(one, false).Some?;
  }

  lemma HeaderBits(h: Byte)
    requires h < 128 && h % 2 == 0
    ensures h == 8 * ((h / 8) % 16) + (if HeaderSize(h) == 2 then 4 else 0) + (if HasSizeField(h) then 2 else 0)
  {
  }

  /** A size field, where an OBU has one, is at least as long as the one the rewriter would write. */
  lemma ParsedObuShape(data: seq<Byte>)
    requires ParseObu(data, true).Some?
    ensures var located := ParseObu(data, true).value;
            var o := located.obu;
            && o.kind < 16
            && located.header == 8 * o.kind + (if o.extension then 4 else 0) + (if HasSizeField(located.header) then 2 else 0)
            && located.offset >= (if o.extension then 2 else 1) +
                                 (if HasSizeField(located.header) then |Leb128.Encode(|o.payload|)| else 0)
  {
    hide Leb128.Encode, Leb128.Decode;
    HeaderBits(data[0]);
    hide HasSizeField;
    if HasSizeField(data[0]) {
      Leb128.DecodeIsNoShorter(data[HeaderSize(data[0])..], Leb128.MAX_BYTES);
    }
  }

  /** Everything the length-prefixed parser yields is rewritable, in no more bytes than it took. */
  lemma AnnexBObuShape(data: seq<Byte>)
    requires NextAnnexB(data).Some?
    ensures var (located, field, size) := NextAnnexB(data).value;
            var o := located.obu;
            && o.kind < 16 && |Leb128.Encode(|o.payload|)| <= Leb128.MAX_BYTES
            && |Rewritten(o)| <= field + size
  {
    hide Leb128.Encode, Leb128.Decode, ParseObu, HasSizeField;
    var (located, field, size) := NextAnnexB(data).value;
    ParsedObuShape(data[field..field + size]);
    Leb128.DecodeIsNoShorter(data, Leb128.MAX_BYTES);
    Leb128.EncodeMonotone(|located.obu.payload|, size);
  }

  /**
    Rewriting preserves meaning: from any matching state, if the length-prefixed bytes are accepted, their
    low-overhead rewriting is accepted with the same OBUs and the same flags and counts, and is no longer.
   */
  lemma {:induction false} RewritePreserves(data: seq<Byte>, at: nat, v: Progress, at': nat, w: Progress, picture: Picture)
    requires SameBut(v, w)
    requires RunAnnexB(data, at, v, picture).Some?
    ensures var before := RunAnnexB(data, at, v, picture).value;
            && Kinds(before.obus) && |Rewrite(before.obus)| <= |data|
            && var after := RunRaw(Rewrite(before.obus), at', w, picture);
            && after.Some? && after.value.obus == before.obus && SameBut(before.progress, after.value.progress)
    decreases |data|
  {
    hide NextAnnexB, NextRaw, Observe, Rewritten, Leb128.Encode;
    if data != [] {
      var (located, field, size) := NextAnnexB(data).value;
      var o := located.obu;
      AnnexBObuShape(data);
      ObserveIgnoresOffsets(v, w, o, at + field + located.offset, at' + Offset(o), picture);
      var v' := Observe(v, o, at + field + located.offset, picture).value;
      var rest := RunAnnexB(data[field + size..], at + field + size, v', picture).value;
      RewriteStep(o, rest.obus, at', w, picture);
      RewritePreserves(data[field + size..], at + field + size, v', at' + |Rewritten(o)|,
                       Observe(w, o, at' + Offset(o), picture).value, picture);
    }
  }

  /** Where the payload of a rewritten OBU starts. */
  function Offset(o: Obu): nat {
    (if o.extension then 2 else 1) + |Leb128.Encode(|o.payload|)|
  }

  lemma RewriteStep(o: Obu, rest: seq<Obu>, at: nat, w: Progress, picture: Picture)
    requires o.kind < 16 && |Leb128.Encode(|o.payload|)| <= Leb128.MAX_BYTES
    requires Observe(w, o, at + Offset(o), picture).Some?
    ensures Kinds(rest) ==> Kinds([o] + rest) && Rewrite([o] + rest) == Rewritten(o) + Rewrite(rest)
    ensures Kinds(rest) ==>
              var tail := RunRaw(Rewrite(rest), at + |Rewritten(o)|, Observe(w, o, at + Offset(o), picture).value, picture);
              RunRaw(Rewrite([o] + rest), at, w, picture) ==
              if tail.None? then None else Some(Outcome(tail.value.progress, [o] + tail.value.obus))
  {
    hide Observe, NextRaw, Leb128.Encode;
    if Kinds(rest) {
      assert ([o] + rest)[1..] == rest;
      var data := Rewritten(o) + Rewrite(rest);
      assert Rewrite([o] + rest) == data;
      RewrittenReadsBack(o, Rewrite(rest));
      assert data[|Rewritten(o)|..] == Rewrite(rest);
      assert NextRaw(data).value.0.offset == Offset(o);
    }
  }
}
