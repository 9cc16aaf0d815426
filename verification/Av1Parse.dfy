/**
  The parsing and rewriting loops of src/vaapi_advc/advc_vaapi_decode_av1.c, over a mutable parse state, and
  the choice between the two framings.
 */
module Av1Parse {
  import opened Bits
  import opened SyntaxElements
  import opened Av1Obu
  import Leb128

  /** The bit loop over a payload. */
  method ReadPayloadBits(payload: seq<Byte>, bitOffset: nat, count: nat) returns (r: Option<nat>)
    requires bitOffset <= 8 * |payload|
    ensures match TakeU(Unpack(payload)[bitOffset..], count)
            case Some((v, _)) => r == Some(v)
            case None => r.None?
  {
    hide Unpack, Shr, Octet;
    ghost var bits := Unpack(payload)[bitOffset..];
    var result := 0;
    var i := 0;
    while i < count
      invariant i <= count && i <= |bits|
      invariant result == Value(bits[..i])
    {
      var position := bitOffset + i;
      if position >= |payload| * 8 {
        return None;
      }
      UnpackAt(payload, position / 8, position % 8);
      OctetAt(payload[position / 8], position % 8);
      assert bits[..i + 1][..i] == bits[..i];
      result := 2 * result + Shr(payload[position / 8], 7 - position % 8) % 2;
      i := i + 1;
    }
    return Some(result);
  }

  class ParseState {
    const picture: Picture
    const payloads: array<Span>
    var obuCount: nat
    var tileGroupCount: nat
    var sequenceSeen: bool
    var reducedKnown: bool
    var reduced: bool
    var frameHeaderSeen: bool
    var frameObuSeen: bool
    var completeFrame: bool
    var payloadCount: nat

    ghost predicate Valid()
      reads this
    {
      payloads.Length == MAX_TILES && payloadCount <= MAX_TILES
    }

    ghost function View(): Progress
      requires Valid()
      reads this, payloads
    {
      Progress(obuCount, tileGroupCount, sequenceSeen, reducedKnown, reduced, frameHeaderSeen, frameObuSeen,
               completeFrame, payloads[..payloadCount])
    }

    constructor (picture: Picture)
      ensures Valid() && View() == FRESH && this.picture == picture && fresh(payloads)
    {
      this.picture := picture;
      payloads := new Span[MAX_TILES](_ => Span(0, 0));
      obuCount, tileGroupCount, payloadCount := 0, 0, 0;
      sequenceSeen, reducedKnown, reduced := false, false, false;
      frameHeaderSeen, frameObuSeen, completeFrame := false, false, false;
    }

    method CheckSequencePrefix(payload: seq<Byte>) returns (ok: bool)
      requires Valid()
      modifies `reducedKnown, `reduced
      ensures ok <==> SequencePrefix(old(View()), payload, picture).Some?
      ensures ok ==> SequencePrefix(old(View()), payload, picture) == Some(View())
    {
      hide Unpack, Value;
      assert Unpack(payload)[0..] == Unpack(payload);
      var profile := ReadPayloadBits(payload, 0, 3);
      if profile.None? {
        return false;
      }
      assert Unpack(payload)[3..][1..] == Unpack(payload)[4..];
      var still := ReadPayloadBits(payload, 3, 1);
      if still.None? {
        return false;
      }
      var reducedBit := ReadPayloadBits(payload, 4, 1);
      if reducedBit.None? {
        return false;
      }
      if profile.value != picture.profile || profile.value != 0 {
        return false;
      }
      if still.value != picture.stillPicture || (reducedBit.value != 0 && still.value == 0) {
        return false;
      }
      reducedKnown := true;
      reduced := reducedBit.value != 0;
      return true;
    }

    method CheckFramePrefix(payload: seq<Byte>) returns (ok: bool)
      requires Valid()
      modifies `reducedKnown, `reduced
      ensures ok <==> FramePrefix(old(View()), payload, picture).Some?
      ensures ok ==> FramePrefix(old(View()), payload, picture) == Some(View())
    {
      if !reducedKnown {
        if picture.stillPicture != 0 {
          return false;
        }
        reducedKnown := true;
        reduced := false;
      }
      var shown := ReadShown(payload, reduced);
      ok := shown.Some? && shown.value.0 == picture.frameType && shown.value.1 == picture.showFrame;
    }

    method AddPayload(span: Span)
      requires Valid() && payloadCount < MAX_TILES
      modifies `payloadCount, payloads
      ensures Valid() && View() == old(View()).(spans := old(View()).spans + [span])
    {
      payloads[payloadCount] := span;
      payloadCount := payloadCount + 1;
    }

    method SetPayload(span: Span)
      requires Valid()
      modifies `payloadCount, payloads
      ensures Valid() && View() == old(View()).(spans := [span])
    {
      payloads[0] := span;
      payloadCount := 1;
    }

    /** `observe_obu`; a refused OBU leaves the state unspecified, as the caller gives up on it. */
    method ObserveObu(o: Obu, at: nat) returns (ok: bool)
      requires Valid()
      modifies this, payloads
      ensures Valid()
      ensures ok <==> Observe(old(View()), o, at, picture).Some?
      ensures ok ==> Observe(old(View()), o, at, picture) == Some(View())
    {
      hide SequencePrefix, FramePrefix;
      if obuCount >= MAX_OBUS {
        return false;
      }
      obuCount := obuCount + 1;
      if o.kind == SEQUENCE_HEADER {
        if sequenceSeen || frameHeaderSeen || frameObuSeen {
          return false;
        }
        ok := CheckSequencePrefix(o.payload);
        if ok {
          sequenceSeen := true;
        }
      } else if o.kind == TEMPORAL_DELIMITER {
        ok := !(|o.payload| != 0 || frameHeaderSeen || frameObuSeen || tileGroupCount != 0);
      } else if o.kind == FRAME_HEADER {
        if frameHeaderSeen || frameObuSeen || tileGroupCount != 0 {
          return false;
        }
        ok := CheckFramePrefix(o.payload);
        if ok {
          frameHeaderSeen := true;
        }
      } else if o.kind == TILE_GROUP {
        if !frameHeaderSeen || frameObuSeen || payloadCount >= MAX_TILES {
          return false;
        }
        AddPayload(Span(at, at + |o.payload|));
        tileGroupCount := tileGroupCount + 1;
        completeFrame := true;
        ok := true;
      } else if o.kind == FRAME {
        if frameHeaderSeen || frameObuSeen || tileGroupCount != 0 {
          return false;
        }
        ok := CheckFramePrefix(o.payload);
        if ok {
          frameObuSeen := true;
          completeFrame := true;
          SetPayload(Span(at, at + |o.payload|));
        }
      } else if o.kind == METADATA {
        ok := !(frameHeaderSeen || frameObuSeen || tileGroupCount != 0);
      } else {
        ok := o.kind == PADDING;
      }
    }

    method FinishParse() returns (ok: bool)
      requires Valid()
      ensures ok <==> Finished(View())
    {
      ok := !(!completeFrame || payloadCount == 0 || (frameHeaderSeen && tileGroupCount == 0));
    }
  }

  method ReadShown(payload: seq<Byte>, reduced: bool) returns (r: Option<(nat, nat)>)
    ensures r == ShownFrame(payload, reduced)
  {
    if reduced {
      return Some((0, 1));
    }
    hide Unpack, Value;
    assert Unpack(payload)[0..] == Unpack(payload);
    var existing := ReadPayloadBits(payload, 0, 1);
    if existing.None? || existing.value != 0 {
      return None;
    }
    assert Unpack(payload)[1..][2..] == Unpack(payload)[3..];
    var frameType := ReadPayloadBits(payload, 1, 2);
    if frameType.None? {
      return None;
    }
    var show := ReadPayloadBits(payload, 3, 1);
    if show.None? {
      return None;
    }
    return Some((frameType.value, show.value));
  }

  /** `parse_obu`: header, extension and size field of exactly one OBU. */
  method ReadObu(data: seq<Byte>, annexB: bool) returns (r: Option<Located>)
    ensures r == ParseObu(data, annexB)
  {
    hide Leb128.Decode;
    if |data| == 0 { return None; }
    var header := data[0];
    if header >= 128 || header % 2 != 0 { return None; }
    var kind := header / 8 % 16;
    var extension := header / 4 % 2 == 1;
    var cursor := 1;
    if extension {
      if cursor >= |data| || data[cursor] != 0 { return None; }
      cursor := cursor + 1;
    }
    if header / 2 % 2 == 1 {
      var size := Leb128.Read(data[cursor..]);
      if size.None? || size.value.1 != |data| - cursor - size.value.0 { return None; }
      cursor := cursor + size.value.0;
    } else if !annexB {
      return None;
    }
    return Some(Located(Obu(kind, extension, data[cursor..]), header, cursor));
  }

  /** The head of the loop in `parse_raw_obus`: find the end of the next OBU, then read it. */
  method ReadRaw(data: seq<Byte>) returns (r: Option<(Located, nat)>)
    requires data != []
    ensures r == NextRaw(data)
  {
    hide Leb128.Decode, ParseObu;
    var header := data[0];
    var headerSize := if header / 4 % 2 == 1 then 2 else 1;
    if headerSize >= |data| || header / 2 % 2 == 0 { return None; }
    var size := Leb128.Read(data[headerSize..]);
    if size.None? { return None; }
    var total := headerSize + size.value.0 + size.value.1;
    if total > |data| { return None; }
    var located := ReadObu(data[..total], false);
    if located.None? { return None; }
    return Some((located.value, total));
  }

  /** The head of the loop in `parse_annex_b`: the length prefix, then the OBU. */
  method ReadAnnexB(data: seq<Byte>) returns (r: Option<(Located, nat, nat)>)
    ensures r == NextAnnexB(data)
  {
    hide Leb128.Decode, ParseObu;
    var length := Leb128.Read(data);
    if length.None? { return None; }
    var (field, size) := length.value;
    if size == 0 || size > |data| - field { return None; }
    var located := ReadObu(data[field..field + size], true);
    if located.None? { return None; }
    return Some((located.value, field, size));
  }

  method ParseRawObus(data: seq<Byte>, picture: Picture) returns (ok: bool, state: ParseState)
    ensures fresh(state) && fresh(state.payloads) && state.Valid()
    ensures ok <==> ParseRaw(data, picture).Some?
    ensures ok ==> ParseRaw(data, picture).value.progress == state.View()
  {
    hide NextRaw, Observe, Finished;
    state := new ParseState(picture);
    var offset := 0;
    ghost var seen: seq<Obu> := [];
    assert data[0..] == data;
    while offset < |data|
      invariant offset <= |data| && state.Valid() && fresh(state) && fresh(state.payloads) && state.picture == picture
      invariant Continues(ParseRaw(data, picture), RunRaw(data[offset..], offset, state.View(), picture))
    {
      var next := ReadRaw(data[offset..]);
      if next.None? {
        return false, state;
      }
      var (located, total) := next.value;
      ok := state.ObserveObu(located.obu, offset + located.offset);
      if !ok {
        return;
      }
      assert data[offset..][total..] == data[offset + total..];
      offset := offset + total;
    }
    assert data[offset..] == [];
    ok := state.FinishParse();
  }

  /** The whole run succeeds exactly when its remainder does, ending in the same state. */
  predicate Continues(whole: Option<Outcome>, rest: Option<Outcome>) {
    (whole.Some? <==> rest.Some?) && (whole.Some? ==> whole.value.progress == rest.value.progress)
  }

  /** The header byte with its size flag set: `header | 2`. */
  function WithSizeField(header: Byte): Byte {
    if (header / 2) % 2 == 1 then header else if header <= 253 then header + 2 else header
  }

  /** Writes the low-overhead form of one OBU at `at`. */
  method WriteObu(output: array<Byte>, at: nat, o: Obu, header: Byte)
    requires o.kind < 16 && at + |Rewritten(o)| <= output.Length
    requires WithSizeField(header) == 8 * o.kind + (if o.extension then 4 else 0) + 2
    modifies output
    ensures output[..at + |Rewritten(o)|] == old(output[..at]) + Rewritten(o)
  {
    hide Leb128.Encode;
    var headerSize := if o.extension then 2 else 1;
    output[at] := WithSizeField(header);
    if o.extension {
      output[at + 1] := 0;
    }
    ghost var lead := [8 * o.kind + (if o.extension then 4 else 0) + 2] + (if o.extension then [0] else []);
    assert output[..at + headerSize] == old(output[..at]) + lead;
    var sizeField := Leb128.Write(output, at + headerSize, |o.payload|);
    var start := at + headerSize + sizeField;
    ghost var before := output[..start];
    forall k | 0 <= k < |o.payload| { output[start + k] := o.payload[k]; }
    assert output[..start + |o.payload|] == before + o.payload;
    assert before + o.payload == old(output[..at]) + (lead + Leb128.Encode(|o.payload|) + o.payload);
  }

  lemma HeaderWithSize(data: seq<Byte>)
    requires NextAnnexB(data).Some?
    ensures var (located, _, _) := NextAnnexB(data).value;
            && located.obu.kind < 16
            && WithSizeField(located.header) == 8 * located.obu.kind + (if located.obu.extension then 4 else 0) + 2
  {
    hide ParseObu;
    var (located, field, size) := NextAnnexB(data).value;
    ParsedObuShape(data[field..field + size]);
  }

  /**
    `parse_annex_b`: with no output it measures, with one it writes. The size guard never fires on inputs of
    at most the maximum, and the writing pass fills exactly what the measuring pass counted.
   */
  method ParseAnnexBUnit(data: seq<Byte>, picture: Picture, output: array?<Byte>)
    returns (ok: bool, state: ParseState, normalizedSize: nat, ghost obus: seq<Obu>)
    requires |data| <= MAX_INPUT_BYTES
    modifies if output == null then {} else {output}
    ensures fresh(state) && fresh(state.payloads) && state.Valid()
    ensures ok ==> ParseAnnexB(data, picture) == Some(Outcome(state.View(), obus)) && Kinds(obus)
    ensures ok ==> normalizedSize == |Rewrite(obus)| <= |data|
    ensures ok && output != null ==> normalizedSize <= output.Length && output[..normalizedSize] == Rewrite(obus)
    ensures ParseAnnexB(data, picture).Some? && !ok ==>
              output != null && !Covers(ParseAnnexB(data, picture).value.obus, output.Length)
  {
    hide NextAnnexB, Leb128.Decode;
    state := new ParseState(picture);
    normalizedSize := 0;
    obus := [];
    var fields := ReadUnitFields(data);
    if fields.None? {
      return false, state, 0, [];
    }
    var start := fields.value.0 + fields.value.1;
    ok, normalizedSize, obus := ObuLoop(data, start, state, output);
  }

  /** The rewriting of these OBUs fits `n` bytes. */
  ghost predicate Covers(obus: seq<Obu>, n: nat) {
    Kinds(obus) && |Rewrite(obus)| <= n
  }

  method ReadUnitFields(data: seq<Byte>) returns (r: Option<(nat, nat)>)
    ensures r == UnitFields(data)
  {
    hide Leb128.Decode;
    var tu := Leb128.Read(data);
    if tu.None? || tu.value.1 != |data| - tu.value.0 {
      return None;
    }
    var fu := Leb128.Read(data[tu.value.0..]);
    if fu.None? || fu.value.1 != |data| - tu.value.0 - fu.value.0 {
      return None;
    }
    return Some((tu.value.0, fu.value.0));
  }

  /** What is done so far, followed by what the remainder yields, is what the whole yields. */
  predicate Extends(whole: Option<Outcome>, done: seq<Obu>, rest: Option<Outcome>) {
    && (whole.Some? <==> rest.Some?)
    && (whole.Some? ==> whole.value == Outcome(rest.value.progress, done + rest.value.obus))
  }

  lemma {:induction false} RewriteConcat(a: seq<Obu>, b: seq<Obu>)
    requires Kinds(a) && Kinds(b)
    ensures Kinds(a + b) && Rewrite(a + b) == Rewrite(a) + Rewrite(b)
  {
    hide Rewritten;
    if a == [] {
      assert a + b == b;
    } else {
      RewriteConcat(a[1..], b);
      assert (a + b)[1..] == a[1..] + b;
    }
  }

  lemma RewriteOne(o: Obu)
    requires o.kind < 16
    ensures Kinds([o]) && Rewrite([o]) == Rewritten(o)
  {
    hide Rewritten;
    assert [o][1..] == [];
  }

  /** Once a prefix is too long for the buffer, so is the whole. */
  lemma TooLong(done: seq<Obu>, rest: seq<Obu>, n: nat)
    requires Kinds(done) && |Rewrite(done)| > n
    ensures !Covers(done + rest, n)
  {
    if Kinds(done + rest) {
      forall k | 0 <= k < |rest| ensures rest[k].kind < 16 { assert (done + rest)[|done| + k] == rest[k]; }
      RewriteConcat(done, rest);
    }
  }

  method MeasureObu(o: Obu) returns (n: nat)
    requires o.kind < 16
    ensures n == |Rewritten(o)|
  {
    var sizeField := Leb128.Size(|o.payload|);
    n := (if o.extension then 2 else 1) + sizeField + |o.payload|;
  }

  lemma ExtendsStep(whole: Option<Outcome>, done: seq<Obu>, o: Obu, rest: Option<Outcome>, tail: Option<Outcome>)
    requires Extends(whole, done, rest)
    requires rest == if tail.None? then None else Some(Outcome(tail.value.progress, [o] + tail.value.obus))
    ensures Extends(whole, done + [o], tail)
  {
    if tail.Some? {
      assert done + ([o] + tail.value.obus) == done + [o] + tail.value.obus;
    }
  }

  method ObuLoop(data: seq<Byte>, start: nat, state: ParseState, output: array?<Byte>)
    returns (ok: bool, outSize: nat, ghost obus: seq<Obu>)
    requires start <= |data| <= MAX_INPUT_BYTES
    requires state.Valid() && state.View() == FRESH
    modifies state, state.payloads, if output == null then {} else {output}
    ensures state.Valid()
    ensures ok ==> RunAnnexB(data[start..], start, FRESH, state.picture) == Some(Outcome(state.View(), obus)) && Kinds(obus)
    ensures ok ==> outSize == |Rewrite(obus)| <= |data| - start
    ensures ok && output != null ==> outSize <= output.Length && output[..outSize] == Rewrite(obus)
    ensures RunAnnexB(data[start..], start, FRESH, state.picture).Some? && !ok ==>
              output != null && !Covers(RunAnnexB(data[start..], start, FRESH, state.picture).value.obus, output.Length)
  {
    hide NextAnnexB, Observe, Rewritten, Finished, Extends, Kinds;
    ghost var whole := RunAnnexB(data[start..], start, FRESH, state.picture);
    var cursor := start;
    outSize := 0;
    obus := [];
    NothingYet(whole);
    while cursor < |data|
      invariant start <= cursor <= |data| && state.Valid() && Kinds(obus)
      invariant Extends(whole, obus, RunAnnexB(data[cursor..], cursor, state.View(), state.picture))
      invariant outSize == |Rewrite(obus)| <= cursor - start
      invariant output != null ==> outSize <= output.Length && output[..outSize] == Rewrite(obus)
    {
      var next := ReadAnnexB(data[cursor..]);
      ghost var rest := RunAnnexB(data[cursor..], cursor, state.View(), state.picture);
      if next.None? {
        Fails(whole, obus, rest);
        return false, outSize, obus;
      }
      var (located, field, size) := next.value;
      ok := state.ObserveObu(located.obu, cursor + field + located.offset);
      if !ok {
        Fails(whole, obus, rest);
        return false, outSize, obus;
      }
      assert data[cursor..][field + size..] == data[cursor + field + size..];
      ghost var tail := RunAnnexB(data[cursor + field + size..], cursor + field + size, state.View(), state.picture);
      ExtendsStep(whole, obus, located.obu, rest, tail);
      AnnexBObuShape(data[cursor..]);
      HeaderWithSize(data[cursor..]);
      RewriteOne(located.obu);
      RewriteConcat(obus, [located.obu]);
      var normalizedObuSize := MeasureObu(located.obu);
      assert outSize + normalizedObuSize <= MAX_INPUT_BYTES;
      if output != null {
        if outSize > output.Length || normalizedObuSize > output.Length - outSize {
          Overflows(whole, obus + [located.obu], tail, output.Length);
          return false, outSize, obus;
        }
        WriteObu(output, outSize, located.obu, located.header);
      }
      outSize := outSize + normalizedObuSize;
      obus := obus + [located.obu];
      cursor := cursor + field + size;
    }
    assert data[cursor..] == [];
    ok := state.FinishParse();
    Ends(whole, obus, RunAnnexB(data[cursor..], cursor, state.View(), state.picture));
  }

  lemma NothingYet(whole: Option<Outcome>)
    ensures Extends(whole, [], whole) && Kinds([])
  {
    if whole.Some? {
      assert [] + whole.value.obus == whole.value.obus;
    }
  }

  lemma Fails(whole: Option<Outcome>, done: seq<Obu>, rest: Option<Outcome>)
    requires Extends(whole, done, rest) && rest.None?
    ensures whole.None?
  {
  }

  lemma Ends(whole: Option<Outcome>, done: seq<Obu>, rest: Option<Outcome>)
    requires Extends(whole, done, rest) && (rest.Some? ==> rest.value.obus == [])
    ensures whole == if rest.None? then None else Some(Outcome(rest.value.progress, done))
  {
    assert done + [] == done;
  }

  lemma Overflows(whole: Option<Outcome>, done: seq<Obu>, rest: Option<Outcome>, n: nat)
    requires Extends(whole, done, rest) && Kinds(done) && |Rewrite(done)| > n
    ensures whole.Some? ==> !Covers(whole.value.obus, n)
  {
    if whole.Some? {
      TooLong(done, rest.value.obus, n);
    }
  }
}
