/**
  The two framings of section 5.3 and Annex B of the AV1 specification as writers, with any size fields that denote the
  right numbers, and the order of OBUs the bridge takes, as a grammar. The parsers accept exactly what can be written
  with OBUs in that order, and read exactly the OBUs written.
 */
module Av1Wire {
  import opened Bits
  import opened SyntaxElements
  import opened Av1Obu
  import Leb128

  // ---------- numbers ----------

  /** leb128() of section 4.10.5: seven bits a byte, the least significant first. */
  function LebSum(code: seq<Byte>): nat {
    if code == [] then 0 else code[0] % 128 + 128 * LebSum(code[1..])
  }

  /** All bytes but the last have their top bit set. There need not be as few as possible. */
  ghost predicate IsLeb(code: seq<Byte>, v: nat) {
    && 1 <= |code| <= 8 && code[|code| - 1] < 128 && LebSum(code) == v
    && forall i :: 0 <= i < |code| - 1 ==> code[i] >= 128
  }

  lemma {:induction false} LebReads(code: seq<Byte>, rest: seq<Byte>, limit: nat)
    requires 1 <= |code| <= limit && code[|code| - 1] < 128 && forall i :: 0 <= i < |code| - 1 ==> code[i] >= 128
    ensures Leb128.Decode(code + rest, limit) == Some((|code|, LebSum(code)))
  {
    if |code| > 1 {
      LebReads(code[1..], rest, limit - 1);
      assert (code + rest)[1..] == code[1..] + rest;
    }
  }

  lemma {:induction false} LebWritten(data: seq<Byte>, limit: nat)
    requires Leb128.Decode(data, limit).Some?
    ensures var (n, v) := Leb128.Decode(data, limit).value;
            var code := data[..n];
            code[n - 1] < 128 && LebSum(code) == v && forall i :: 0 <= i < n - 1 ==> code[i] >= 128
  {
    if data[0] >= 128 {
      LebWritten(data[1..], limit - 1);
      var (n, v) := Leb128.Decode(data, limit).value;
      assert data[..n][1..] == data[1..][..n - 1];
      forall i | 0 <= i < n - 1 ensures data[..n][i] >= 128 {
        if i > 0 { assert data[1..][..n - 1][i - 1] >= 128; }
      }
    } else {
      assert data[..1][1..] == [];
    }
  }

  // ---------- one OBU ----------

  /** An OBU as it is written: with or without a size field of its own, and with a length in front of it in Annex B. */
  datatype Framed = Framed(obu: Obu, sized: Option<seq<Byte>>, length: seq<Byte>)

  /** open_bitstream_unit() of section 5.3: type, extension flag and size flag between two zero bits, then the rest. */
  function Wire(f: Framed): seq<Byte>
    requires f.obu.kind < 16
  {
    [8 * f.obu.kind + (if f.obu.extension then 4 else 0) + (if f.sized.Some? then 2 else 0)] +
    (if f.obu.extension then [0] else []) + (if f.sized.Some? then f.sized.value else []) + f.obu.payload
  }

  ghost predicate Whole(f: Framed) {
    f.obu.kind < 16 && (f.sized.Some? ==> IsLeb(f.sized.value, |f.obu.payload|))
  }

  ghost predicate Proper(f: Framed) {
    Whole(f) && IsLeb(f.length, |Wire(f)|)
  }

  /** The bytes of header, extension and size field. */
  function Lead(f: Framed): nat {
    (if f.obu.extension then 2 else 1) + (if f.sized.Some? then |f.sized.value| else 0)
  }

  lemma HeaderSays(kind: nat, extension: bool, sized: bool)
    requires kind < 16
    ensures var h: Byte := 8 * kind + (if extension then 4 else 0) + (if sized then 2 else 0);
            && h < 128 && h % 2 == 0 && (HasSizeField(h) <==> sized) && HeaderSize(h) == (if extension then 2 else 1)
            && (h / 8) % 16 == kind
  {
  }

  lemma ObuReads(f: Framed, annexB: bool)
    requires Whole(f) && (annexB || f.sized.Some?)
    ensures ParseObu(Wire(f), annexB) == Some(Located(f.obu, Wire(f)[0], Lead(f)))
  {
    hide LebSum, Leb128.Decode;
    var data := Wire(f);
    HeaderSays(f.obu.kind, f.obu.extension, f.sized.Some?);
    var cursor := if f.obu.extension then 2 else 1;
    assert data[Lead(f)..] == f.obu.payload;
    if f.sized.Some? {
      assert data[cursor..] == f.sized.value + f.obu.payload;
      LebReads(f.sized.value, f.obu.payload, 8);
    }
  }

  lemma LeadOf(data: seq<Byte>, cursor: nat)
    requires data != [] && 1 <= cursor <= 2 && cursor <= |data| && (cursor == 2 ==> data[1] == 0)
    ensures data == [data[0]] + (if cursor == 2 then [0] else []) + data[cursor..]
  {
  }

  lemma ParsedParts(data: seq<Byte>, annexB: bool)
    requires ParseObu(data, annexB).Some?
    ensures data != [] && 1 <= HeaderSize(data[0]) <= 2 && HeaderSize(data[0]) <= |data| && (HeaderSize(data[0]) == 2 ==> data[1] == 0)
    ensures var o, cursor := ParseObu(data, annexB).value.obu, HeaderSize(data[0]);
            && o.kind < 16 && o.extension == (cursor == 2)
            && data[0] == 8 * o.kind + (if o.extension then 4 else 0) + (if HasSizeField(data[0]) then 2 else 0)
            && if HasSizeField(data[0]) then
                 && var r := Leb128.Decode(data[cursor..], 8);
                 && r.Some? && cursor + r.value.0 <= |data| && o.payload == data[cursor + r.value.0..] && r.value.1 == |o.payload|
               else annexB && o.payload == data[cursor..]
  {
    hide Leb128.Decode;
    HeaderBits(data[0]);
  }

  /** Only written OBUs are parsed. */
  lemma ObuWritten(data: seq<Byte>, annexB: bool, length: seq<Byte>) returns (f: Framed)
    requires ParseObu(data, annexB).Some?
    ensures Whole(f) && f.length == length && data == Wire(f) && f.obu == ParseObu(data, annexB).value.obu
    ensures !annexB ==> f.sized.Some?
  {
    ParsedParts(data, annexB);
    hide LebSum, Leb128.Decode, ParseObu, HasSizeField, HeaderSize, IsLeb;
    var located := ParseObu(data, annexB).value;
    var cursor := HeaderSize(data[0]);
    LeadOf(data, cursor);
    if HasSizeField(data[0]) {
      f := Framed(located.obu, Some(data[cursor..][..Leb128.Decode(data[cursor..], 8).value.0]), length);
      SizeWritten(data, cursor, f);
    } else {
      f := Framed(located.obu, None, length);
    }
  }

  lemma SizeWritten(data: seq<Byte>, cursor: nat, f: Framed)
    requires cursor <= |data| && Leb128.Decode(data[cursor..], 8).Some? && f.sized.Some?
    requires var (n, v) := Leb128.Decode(data[cursor..], 8).value;
             f.sized.value == data[cursor..][..n] && cursor + n <= |data| && f.obu.payload == data[cursor + n..] && v == |f.obu.payload|
    ensures IsLeb(f.sized.value, |f.obu.payload|) && data[cursor..] == f.sized.value + f.obu.payload
  {
    hide Leb128.Decode;
    LebWritten(data[cursor..], 8);
  }

  // ---------- the next OBU of either framing ----------

  lemma AnnexBReads(f: Framed, rest: seq<Byte>)
    requires Proper(f)
    ensures NextAnnexB(f.length + Wire(f) + rest) == Some((Located(f.obu, Wire(f)[0], Lead(f)), |f.length|, |Wire(f)|))
  {
    hide LebSum, Leb128.Decode, ParseObu;
    var data := f.length + Wire(f) + rest;
    assert data == f.length + (Wire(f) + rest);
    LebReads(f.length, Wire(f) + rest, 8);
    assert data[|f.length|..|f.length| + |Wire(f)|] == Wire(f);
    ObuReads(f, true);
  }

  lemma AnnexBWritten(data: seq<Byte>) returns (f: Framed)
    requires NextAnnexB(data).Some?
    ensures var (located, field, size) := NextAnnexB(data).value;
            Proper(f) && f.obu == located.obu && data[..field] == f.length && data[field..field + size] == Wire(f)
  {
    hide LebSum, Leb128.Decode, ParseObu;
    var (located, field, size) := NextAnnexB(data).value;
    LebWritten(data, 8);
    f := ObuWritten(data[field..field + size], true, data[..field]);
  }

  lemma RawReads(f: Framed, rest: seq<Byte>)
    requires Whole(f) && f.sized.Some?
    ensures NextRaw(Wire(f) + rest) == Some((Located(f.obu, Wire(f)[0], Lead(f)), |Wire(f)|))
  {
    hide LebSum, Leb128.Decode, ParseObu;
    var data := Wire(f) + rest;
    HeaderSays(f.obu.kind, f.obu.extension, true);
    var cursor := if f.obu.extension then 2 else 1;
    assert data[0] == Wire(f)[0] && data[cursor..] == f.sized.value + (f.obu.payload + rest);
    LebReads(f.sized.value, f.obu.payload + rest, 8);
    assert data[..|Wire(f)|] == Wire(f);
    ObuReads(f, false);
  }

  lemma RawWritten(data: seq<Byte>) returns (f: Framed)
    requires data != [] && NextRaw(data).Some?
    ensures var (located, size) := NextRaw(data).value;
            Whole(f) && f.sized.Some? && f.obu == located.obu && data[..size] == Wire(f)
  {
    hide LebSum, Leb128.Decode, ParseObu;
    var (located, size) := NextRaw(data).value;
    f := ObuWritten(data[..size], false, []);
  }

  // ---------- the order of OBUs ----------

  /** Where the frame header or the frame is, if there is one. */
  function FirstFrame(obus: seq<Obu>): (s: nat)
    ensures s <= |obus| && (s < |obus| ==> obus[s].kind in {3, 6})
    ensures forall i :: 0 <= i < s ==> obus[i].kind !in {3, 6}
  {
    if obus == [] then 0 else
    var n := |obus| - 1;
    var s := FirstFrame(obus[..n]);
    if s < n then s else if obus[n].kind in {3, 6} then n else n + 1
  }

  /** The first bits of a sequence header: seq_profile, still_picture and reduced_still_picture_header. */
  predicate SequenceOk(payload: seq<Byte>, p: Picture) {
    && payload != [] && payload[0] / 32 == p.profile == 0 && payload[0] / 16 % 2 == p.stillPicture
    && (payload[0] / 8 % 2 == 1 ==> payload[0] / 16 % 2 == 1)
  }

  /** At most one sequence header, and anything but tiles and frame headers. */
  ghost predicate HeadOk(head: seq<Obu>, p: Picture) {
    && (forall i :: 0 <= i < |head| ==> head[i].kind in {1, 2, 5, 15})
    && (forall i :: 0 <= i < |head| && head[i].kind == 2 ==> head[i].payload == [])
    && (forall i :: 0 <= i < |head| && head[i].kind == 1 ==> SequenceOk(head[i].payload, p))
    && (forall i, j :: 0 <= i < j < |head| && head[i].kind == 1 ==> head[j].kind != 1)
  }

  ghost predicate Has(obus: seq<Obu>, kind: nat) {
    exists i :: 0 <= i < |obus| && obus[i].kind == kind
  }

  /** A sequence header with reduced_still_picture_header set. */
  predicate Announces(o: Obu) {
    o.kind == 1 && o.payload != [] && o.payload[0] / 8 % 2 == 1
  }

  ghost predicate Reduced(obus: seq<Obu>) {
    exists i :: 0 <= i < |obus| && Announces(obus[i])
  }

  /**
    The first bits of a frame header: show_existing_frame, frame_type and show_frame, unless the sequence header does
    without them; still pictures need a sequence header.
   */
  ghost predicate FrameOk(o: Obu, head: seq<Obu>, p: Picture) {
    && (Has(head, 1) || p.stillPicture == 0)
    && if Reduced(head) then p.frameType == 0 && p.showFrame == 1
       else o.payload != [] && o.payload[0] / 128 == 0 && o.payload[0] / 32 % 4 == p.frameType && o.payload[0] / 16 % 2 == p.showFrame
  }

  function CountOf(obus: seq<Obu>, kind: nat): nat {
    if obus == [] then 0 else CountOf(obus[..|obus| - 1], kind) + (if obus[|obus| - 1].kind == kind then 1 else 0)
  }

  /** Headers, then a frame and padding, or a frame header and tile groups and padding. */
  ghost predicate LawfulSoFar(obus: seq<Obu>, p: Picture) {
    && |obus| <= 1024
    && var s := FirstFrame(obus);
    && HeadOk(obus[..s], p)
    && (s < |obus| ==> FrameOk(obus[s], obus[..s], p))
    && (forall i :: s < i < |obus| ==> obus[i].kind == 15 || (obus[i].kind == 4 && obus[s].kind == 3))
    && CountOf(obus, 4) <= 512
  }

  /** The whole of it: a frame, or a frame header and at least one tile group. */
  ghost predicate Lawful(obus: seq<Obu>, p: Picture) {
    LawfulSoFar(obus, p) && (Has(obus, 6) || (Has(obus, 3) && Has(obus, 4)))
  }

  /** The state the parsers keep, told from the OBUs. */
  ghost function StateOf(obus: seq<Obu>, spans: seq<Span>): Progress {
    Progress(|obus|, CountOf(obus, 4), Has(obus, 1), Has(obus, 1) || Has(obus, 3) || Has(obus, 6), Reduced(obus),
             Has(obus, 3), Has(obus, 6), Has(obus, 4) || Has(obus, 6), spans)
  }

  // ---------- first bits ----------

  lemma {:induction false} ShrAddsUp(v: nat, m: nat, n: nat)
    ensures Shr(v, m + n) == Shr(Shr(v, m), n)
  {
    if m > 0 { ShrAddsUp(v / 2, m - 1, n); }
  }

  lemma ShrIsDiv(b: nat)
    ensures Shr(b, 7) == b / 128 && Shr(b, 6) == b / 64 && Shr(b, 5) == b / 32 && Shr(b, 4) == b / 16 && Shr(b, 3) == b / 8
  {
    ShrAddsUp(b, 1, 1);
    ShrAddsUp(b, 2, 1);
    ShrAddsUp(b, 3, 1);
    ShrAddsUp(b, 4, 1);
    ShrAddsUp(b, 5, 1);
    ShrAddsUp(b, 6, 1);
    ShrOnce(b);
    ShrOnce(b / 2);
    ShrOnce(b / 4);
    ShrOnce(b / 8);
    ShrOnce(b / 16);
    ShrOnce(b / 32);
    ShrOnce(b / 64);
    hide Shr;
  }

  lemma ShrOnce(v: nat)
    ensures Shr(v, 1) == v / 2
  {
  }

  lemma TopBits(payload: seq<Byte>)
    requires payload != []
    ensures var (b, bits) := (payload[0], Unpack(payload));
            && |bits| >= 8 && bits[0] == (b / 128 % 2 == 1) && bits[1] == (b / 64 % 2 == 1) && bits[2] == (b / 32 % 2 == 1)
            && bits[3] == (b / 16 % 2 == 1) && bits[4] == (b / 8 % 2 == 1)
  {
    var b := payload[0];
    ShrIsDiv(b);
    OctetAt(b, 0);
    OctetAt(b, 1);
    OctetAt(b, 2);
    OctetAt(b, 3);
    OctetAt(b, 4);
    hide Octet, Shr;
  }

  function Digit(b: bool): nat {
    if b then 1 else 0
  }

  lemma ValueOfFew(x: bool, y: bool, z: bool)
    ensures Value([x]) == Digit(x) && Value([x, y]) == 2 * Digit(x) + Digit(y)
    ensures Value([x, y, z]) == 4 * Digit(x) + 2 * Digit(y) + Digit(z)
  {
    assert [x][..0] == [] && [x, y][..1] == [x] && [x, y, z][..2] == [x, y];
  }

  lemma NoBits()
    ensures Unpack([]) == []
  {
  }

  lemma SequenceBits(payload: seq<Byte>, v: Progress, p: Picture)
    ensures SequencePrefix(v, payload, p) ==
            if SequenceOk(payload, p) then Some(v.(reducedKnown := true, reduced := payload[0] / 8 % 2 == 1)) else None
  {
    hide Unpack, Value;
    if payload == [] {
      NoBits();
    } else {
      var b, bits := payload[0], Unpack(payload);
      TopBits(payload);
      assert bits[..3] == [bits[0], bits[1], bits[2]];
      assert bits[3..][..1] == [bits[3]] && bits[3..][1..] == bits[4..] && bits[4..][..1] == [bits[4]];
      ValueOfFew(bits[0], bits[1], bits[2]);
      ValueOfFew(bits[3], false, false);
      ValueOfFew(bits[4], false, false);
    }
  }

  lemma ShownBits(payload: seq<Byte>, reduced: bool)
    ensures ShownFrame(payload, reduced) ==
            if reduced then Some((0, 1))
            else if payload == [] || payload[0] / 128 != 0 then None
            else Some((payload[0] / 32 % 4, payload[0] / 16 % 2))
  {
    hide Unpack, Value;
    if payload == [] {
      NoBits();
    } else {
      var b, bits := payload[0], Unpack(payload);
      TopBits(payload);
      assert bits[..1] == [bits[0]];
      assert bits[1..][..2] == [bits[1], bits[2]] && bits[1..][2..] == bits[3..] && bits[3..][..1] == [bits[3]];
      ValueOfFew(bits[0], false, false);
      ValueOfFew(bits[1], bits[2], false);
      ValueOfFew(bits[3], false, false);
    }
  }

  // ---------- one more OBU ----------

  lemma HasSnoc(obus: seq<Obu>, o: Obu)
    ensures forall kind :: Has(obus + [o], kind) <==> Has(obus, kind) || o.kind == kind
    ensures Reduced(obus + [o]) <==> Reduced(obus) || Announces(o)
    ensures forall kind :: CountOf(obus + [o], kind) == CountOf(obus, kind) + if o.kind == kind then 1 else 0
    ensures FirstFrame(obus + [o]) == if FirstFrame(obus) < |obus| || o.kind in {3, 6} then FirstFrame(obus) else |obus| + 1
  {
    var all := obus + [o];
    assert all[..|obus|] == obus && all[|obus|] == o;
    forall kind ensures Has(all, kind) <==> Has(obus, kind) || o.kind == kind {
      if Has(obus, kind) {
        var i :| 0 <= i < |obus| && obus[i].kind == kind;
        assert all[i].kind == kind;
      }
    }
    if Reduced(obus) {
      var i :| 0 <= i < |obus| && Announces(obus[i]);
      assert all[i] == obus[i];
    }
  }

  lemma {:induction false} CountPositive(obus: seq<Obu>, kind: nat)
    ensures CountOf(obus, kind) > 0 <==> Has(obus, kind)
  {
    if obus != [] {
      var n := |obus| - 1;
      CountPositive(obus[..n], kind);
      HasSnoc(obus[..n], obus[n]);
      assert obus[..n] + [obus[n]] == obus;
    }
  }

  lemma HasIn(obus: seq<Obu>, s: nat, kind: nat)
    requires s <= |obus| && forall i :: s <= i < |obus| ==> obus[i].kind != kind
    ensures Has(obus, kind) <==> Has(obus[..s], kind)
  {
    if Has(obus, kind) {
      var i :| 0 <= i < |obus| && obus[i].kind == kind;
      assert obus[..s][i].kind == kind;
    }
    if Has(obus[..s], kind) {
      var i :| 0 <= i < |obus[..s]| && obus[..s][i].kind == kind;
      assert obus[i].kind == kind;
    }
  }

  lemma ReducedIn(obus: seq<Obu>, s: nat)
    requires s <= |obus| && forall i :: s <= i < |obus| ==> obus[i].kind != 1
    ensures Reduced(obus) <==> Reduced(obus[..s])
  {
    if Reduced(obus) {
      var i :| 0 <= i < |obus| && Announces(obus[i]);
      assert Announces(obus[..s][i]);
    }
    if Reduced(obus[..s]) {
      var i :| 0 <= i < |obus[..s]| && Announces(obus[..s][i]);
      assert Announces(obus[i]);
    }
  }

  lemma KindsAround(obus: seq<Obu>, p: Picture)
    requires LawfulSoFar(obus, p)
    ensures var s := FirstFrame(obus);
            && (forall i :: 0 <= i < s ==> obus[i].kind in {1, 2, 5, 15})
            && (forall i :: s < i < |obus| ==> obus[i].kind == 15 || (obus[i].kind == 4 && obus[s].kind == 3))
  {
    hide FrameOk, FirstFrame, SequenceOk, CountOf;
    var s := FirstFrame(obus);
    forall i | 0 <= i < s ensures obus[i].kind in {1, 2, 5, 15} {
      assert obus[..s][i] == obus[i];
    }
  }

  /** What has been seen, told from where the frame starts. */
  lemma KindsSeen(obus: seq<Obu>, p: Picture)
    requires LawfulSoFar(obus, p)
    ensures var s := FirstFrame(obus);
            && (s == |obus| <==> !Has(obus, 3) && !Has(obus, 6))
            && (s < |obus| ==> (Has(obus, 3) <==> obus[s].kind == 3) && (Has(obus, 6) <==> obus[s].kind == 6))
            && (Has(obus, 4) ==> s < |obus| && obus[s].kind == 3)
            && (Has(obus, 1) <==> Has(obus[..s], 1)) && (Reduced(obus) <==> Reduced(obus[..s]))
  {
    hide LawfulSoFar, FirstFrame;
    var s := FirstFrame(obus);
    KindsAround(obus, p);
    if s < |obus| {
      assert obus[s].kind in {3, 6};
    }
    HasIn(obus, s, 1);
    ReducedIn(obus, s);
    hide Reduced;
  }

  /** What may come after OBUs in a lawful order. */
  ghost predicate MayFollow(done: seq<Obu>, o: Obu, p: Picture) {
    && |done| < 1024
    && if Has(done, 3) || Has(done, 6) then o.kind == 15 || (o.kind == 4 && Has(done, 3) && CountOf(done, 4) < 512)
       else if o.kind == 3 || o.kind == 6 then FrameOk(o, done, p)
       else if o.kind == 1 then !Has(done, 1) && SequenceOk(o.payload, p)
       else if o.kind == 2 then o.payload == []
       else o.kind == 5 || o.kind == 15
  }

  lemma HeadSnoc(head: seq<Obu>, o: Obu, p: Picture)
    requires HeadOk(head, p)
    ensures HeadOk(head + [o], p) <==>
            && o.kind in {1, 2, 5, 15} && (o.kind == 2 ==> o.payload == [])
            && (o.kind == 1 ==> !Has(head, 1) && SequenceOk(o.payload, p))
  {
    hide SequenceOk;
    var all := head + [o];
    assert all[|head|] == o && forall i :: 0 <= i < |head| ==> all[i] == head[i];
    if HeadOk(all, p) && Has(head, 1) {
      var i :| 0 <= i < |head| && head[i].kind == 1;
      assert all[i].kind == 1;
    }
  }

  lemma {:induction false} NoTilesInHead(obus: seq<Obu>, kind: nat)
    requires !Has(obus, kind)
    ensures CountOf(obus, kind) == 0
  {
    CountPositive(obus, kind);
  }

  lemma LawfulSnocAfter(done: seq<Obu>, o: Obu, p: Picture)
    requires LawfulSoFar(done, p) && FirstFrame(done) < |done|
    ensures LawfulSoFar(done + [o], p) <==> MayFollow(done, o, p)
  {
    KindsSeen(done, p);
    HasSnoc(done, o);
    hide FirstFrame, CountOf, HeadOk, FrameOk, Reduced, SequenceOk, Has;
    var s := FirstFrame(done);
    var all := done + [o];
    assert all[..s] == done[..s] && all[s] == done[s] && all[|done|] == o;
    assert forall i :: s < i < |done| ==> all[i] == done[i];
  }

  lemma LawfulSnocBefore(done: seq<Obu>, o: Obu, p: Picture)
    requires LawfulSoFar(done, p) && FirstFrame(done) == |done|
    ensures LawfulSoFar(done + [o], p) <==> MayFollow(done, o, p)
  {
    hide FirstFrame, CountOf, HeadOk, FrameOk, Reduced, SequenceOk, Has;
    KindsSeen(done, p);
    HasSnoc(done, o);
    NoTilesInHead(done, 4);
    assert done[..|done|] == done;
    if o.kind == 3 || o.kind == 6 {
      StartsNow(done, o, p);
    } else {
      StillHead(done, o, p);
      HeadSnoc(done, o, p);
    }
  }

  lemma StartsNow(done: seq<Obu>, o: Obu, p: Picture)
    requires FirstFrame(done + [o]) == |done| && CountOf(done + [o], 4) == 0
    ensures LawfulSoFar(done + [o], p) <==> |done| < 1024 && HeadOk(done, p) && FrameOk(o, done, p)
  {
    hide FirstFrame, CountOf, HeadOk, FrameOk;
    var all := done + [o];
    assert all[..|done|] == done && all[|done|] == o;
  }

  lemma StillHead(done: seq<Obu>, o: Obu, p: Picture)
    requires FirstFrame(done + [o]) == |done| + 1 && CountOf(done + [o], 4) <= 1
    ensures LawfulSoFar(done + [o], p) <==> |done| < 1024 && HeadOk(done + [o], p)
  {
    hide FirstFrame, CountOf, HeadOk, FrameOk;
    var all := done + [o];
    assert all[..|done| + 1] == all;
  }

  lemma LawfulSnoc(done: seq<Obu>, o: Obu, p: Picture)
    requires LawfulSoFar(done, p)
    ensures LawfulSoFar(done + [o], p) <==> MayFollow(done, o, p)
  {
    hide LawfulSoFar, MayFollow;
    if FirstFrame(done) < |done| { LawfulSnocAfter(done, o, p); } else { LawfulSnocBefore(done, o, p); }
  }

  /** Where the tiles of an OBU lie, if it has any. */
  function SpanOf(o: Obu, at: nat): seq<Span> {
    if o.kind == 4 || o.kind == 6 then [Span(at, at + |o.payload|)] else []
  }

  lemma FrameStep(v: Progress, done: seq<Obu>, o: Obu, p: Picture)
    requires v.reducedKnown == Has(done, 1) && v.reduced == Reduced(done)
    requires Reduced(done) ==> Has(done, 1)
    ensures FramePrefix(v, o.payload, p) == if FrameOk(o, done, p) then Some(v.(reducedKnown := true)) else None
  {
    ShownBits(o.payload, v.reduced);
    hide ShownFrame, Has, Reduced;
  }

  lemma ReducedNeeds(obus: seq<Obu>)
    ensures Reduced(obus) ==> Has(obus, 1)
  {
  }

  lemma StateSnoc(done: seq<Obu>, spans: seq<Span>, o: Obu, more: seq<Span>)
    ensures var v := StateOf(done, spans);
            StateOf(done + [o], more) ==
            Progress(v.obuCount + 1, v.tileGroups + (if o.kind == 4 then 1 else 0), v.sequenceSeen || o.kind == 1,
                     v.reducedKnown || o.kind in {1, 3, 6}, v.reduced || Announces(o), v.headerSeen || o.kind == 3,
                     v.frameSeen || o.kind == 6, v.complete || o.kind in {4, 6}, more)
  {
    HasSnoc(done, o);
    hide Has, Reduced, CountOf, FirstFrame;
  }

  /** How the parts of the state hang together. */
  lemma StateFacts(done: seq<Obu>, spans: seq<Span>, p: Picture)
    requires LawfulSoFar(done, p) && |spans| == CountOf(done, 4) + CountOf(done, 6)
    ensures var v := StateOf(done, spans);
            && !(v.headerSeen && v.frameSeen) && (v.tileGroups > 0 ==> v.headerSeen)
            && (v.headerSeen ==> |spans| == v.tileGroups) && (!v.headerSeen && !v.frameSeen ==> spans == [])
            && (v.reduced ==> v.sequenceSeen) && (v.frameSeen ==> |spans| > 0)
            && (v.complete <==> v.frameSeen || v.tileGroups > 0)
  {
    KindsSeen(done, p);
    CountPositive(done, 4);
    CountPositive(done, 6);
    ReducedNeeds(done);
    hide LawfulSoFar, Has, Reduced, CountOf, FirstFrame;
  }

  /** One step of the order rules is one step of the grammar. */
  lemma ObserveFollows(done: seq<Obu>, spans: seq<Span>, o: Obu, at: nat, p: Picture)
    requires LawfulSoFar(done, p) && |spans| == CountOf(done, 4) + CountOf(done, 6)
    ensures Observe(StateOf(done, spans), o, at, p) ==
            if MayFollow(done, o, p) then Some(StateOf(done + [o], spans + SpanOf(o, at))) else None
  {
    hide SequencePrefix, FramePrefix, SequenceOk, FrameOk, LawfulSoFar, Has, Reduced, CountOf, FirstFrame;
    var v := StateOf(done, spans);
    var w := v.(obuCount := v.obuCount + 1);
    StateFacts(done, spans, p);
    StateSnoc(done, spans, o, spans + SpanOf(o, at));
    if o.kind == 1 {
      SequenceBits(o.payload, w, p);
      SequenceSays(o.payload, p);
    } else if (o.kind == 3 || o.kind == 6) && !v.headerSeen && !v.frameSeen {
      FrameStep(w, done, o, p);
      assert spans + SpanOf(o, at) == SpanOf(o, at);
    }
    assert spans + [] == spans;
  }

  lemma SequenceSays(payload: seq<Byte>, p: Picture)
    ensures SequenceOk(payload, p) ==> payload != []
  {
  }

  lemma FinishedIsLawful(done: seq<Obu>, spans: seq<Span>, p: Picture)
    requires LawfulSoFar(done, p) && |spans| == CountOf(done, 4) + CountOf(done, 6)
    ensures Finished(StateOf(done, spans)) <==> Lawful(done, p)
  {
    hide LawfulSoFar, Has, Reduced, CountOf;
    StateFacts(done, spans, p);
    CountPositive(done, 4);
  }

  lemma {:induction false} PrefixIsLawful(obus: seq<Obu>, n: nat, p: Picture)
    requires LawfulSoFar(obus, p) && n <= |obus|
    ensures LawfulSoFar(obus[..n], p)
    decreases |obus|
  {
    if n == |obus| {
      assert obus[..n] == obus;
    } else {
      hide LawfulSoFar;
      var m := |obus| - 1;
      assert obus[..m] + [obus[m]] == obus && obus[..m][..n] == obus[..n];
      ButLastIsLawful(obus[..m], obus[m], p);
      PrefixIsLawful(obus[..m], n, p);
    }
  }

  lemma ButLastIsLawful(done: seq<Obu>, o: Obu, p: Picture)
    requires LawfulSoFar(done + [o], p)
    ensures LawfulSoFar(done, p)
  {
    var all := done + [o];
    HasSnoc(done, o);
    var s := FirstFrame(done);
    hide FirstFrame, CountOf, Has, FrameOk, SequenceOk;
    assert forall i :: 0 <= i < |done| ==> all[i] == done[i];
    assert all[..s] == done[..s];
    if FirstFrame(all) != s {
      assert all[..s + 1] == all && all[..s + 1][..s] == all[..s] == done;
      forall i | 0 <= i < s ensures done[i] == all[..s + 1][i] {}
    }
  }

  lemma LawfulFromStart(done: seq<Obu>, o: Obu, rest: seq<Obu>, p: Picture)
    requires Lawful(done + [o] + rest, p)
    ensures LawfulSoFar(done + [o], p)
  {
    hide LawfulSoFar, Has;
    PrefixIsLawful(done + [o] + rest, |done| + 1, p);
    assert (done + [o] + rest)[..|done| + 1] == done + [o];
  }

  // ---------- whole inputs ----------

  ghost predicate AllProper(fs: seq<Framed>) {
    forall k :: 0 <= k < |fs| ==> Proper(fs[k])
  }

  ghost predicate AllSized(fs: seq<Framed>) {
    forall k :: 0 <= k < |fs| ==> Whole(fs[k]) && fs[k].sized.Some?
  }

  function Obus(fs: seq<Framed>): seq<Obu> {
    if fs == [] then [] else [fs[0].obu] + Obus(fs[1..])
  }

  /** The OBUs of a frame unit of Annex B, each behind its length. */
  ghost function Frames(fs: seq<Framed>): seq<Byte>
    requires AllProper(fs)
  {
    if fs == [] then [] else fs[0].length + Wire(fs[0]) + Frames(fs[1..])
  }

  /** Where the tile payloads lie in it, when it starts at `at`. */
  ghost function Spans(fs: seq<Framed>, at: nat): seq<Span>
    requires AllProper(fs)
  {
    if fs == [] then [] else
    var next := at + |fs[0].length| + |Wire(fs[0])|;
    SpanOf(fs[0].obu, next - |fs[0].obu.payload|) + Spans(fs[1..], next)
  }

  lemma LeadAndPayload(f: Framed)
    requires f.obu.kind < 16
    ensures Lead(f) + |f.obu.payload| == |Wire(f)|
  {
  }

  /** The next OBU: the rest is read after it, or it is refused. */
  lemma RunStep(f: Framed, tail: seq<Byte>, at: nat, done: seq<Obu>, spans: seq<Span>, p: Picture)
    requires Proper(f) && LawfulSoFar(done, p) && |spans| == CountOf(done, 4) + CountOf(done, 6)
    ensures |f.length| > 0 && f.obu.kind < 16 && |f.obu.payload| <= |Wire(f)|
    ensures var next := at + |f.length| + |Wire(f)|;
            var rest := RunAnnexB(tail, next, StateOf(done + [f.obu], spans + SpanOf(f.obu, next - |f.obu.payload|)), p);
            RunAnnexB(f.length + Wire(f) + tail, at, StateOf(done, spans), p) ==
            if !MayFollow(done, f.obu, p) || rest.None? then None
            else Some(Outcome(rest.value.progress, [f.obu] + rest.value.obus))
  {
    hide Proper, Wire, NextAnnexB, Observe, StateOf, LawfulSoFar, MayFollow, CountOf, SpanOf;
    ReadsHead(f, tail, at);
    var data := f.length + Wire(f) + tail;
    assert data[|f.length| + |Wire(f)|..] == tail;
    ObserveFollows(done, spans, f.obu, at + |f.length| + |Wire(f)| - |f.obu.payload|, p);
  }

  /** Nothing more: what was read is the whole. */
  lemma RunEnds(done: seq<Obu>, spans: seq<Span>, at: nat, p: Picture)
    requires LawfulSoFar(done, p) && |spans| == CountOf(done, 4) + CountOf(done, 6)
    ensures RunAnnexB([], at, StateOf(done, spans), p) == RunRaw([], at, StateOf(done, spans), p) ==
            if Lawful(done, p) then Some(Outcome(StateOf(done, spans), [])) else None
  {
    hide LawfulSoFar, StateOf, Finished, Lawful, CountOf;
    FinishedIsLawful(done, spans, p);
  }

  /** An OBU that may not follow spoils whatever it is in. */
  lemma NextDecides(done: seq<Obu>, o: Obu, rest: seq<Obu>, p: Picture)
    requires LawfulSoFar(done, p)
    ensures !MayFollow(done, o, p) ==> !Lawful(done + [o] + rest, p)
    ensures MayFollow(done, o, p) <==> LawfulSoFar(done + [o], p)
  {
    hide LawfulSoFar, MayFollow, Lawful;
    LawfulSnoc(done, o, p);
    if Lawful(done + [o] + rest, p) { LawfulFromStart(done, o, rest, p); }
  }

  lemma Regroup<T>(a: seq<T>, b: seq<T>, c: seq<T>)
    ensures a + (b + c) == a + b + c
  {
  }

  lemma FirstOf(fs: seq<Framed>, at: nat)
    requires AllProper(fs) && fs != []
    ensures AllProper(fs[1..]) && Proper(fs[0]) && Obus(fs) == [fs[0].obu] + Obus(fs[1..])
    ensures Frames(fs) == fs[0].length + Wire(fs[0]) + Frames(fs[1..])
    ensures |fs[0].obu.payload| <= |Wire(fs[0])|
    ensures var next := at + |fs[0].length| + |Wire(fs[0])|;
            Spans(fs, at) == SpanOf(fs[0].obu, next - |fs[0].obu.payload|) + Spans(fs[1..], next)
  {
    hide SpanOf, IsLeb;
  }

  lemma {:induction false} RunReads(fs: seq<Framed>, at: nat, done: seq<Obu>, spans: seq<Span>, p: Picture)
    requires AllProper(fs) && LawfulSoFar(done, p) && |spans| == CountOf(done, 4) + CountOf(done, 6)
    ensures var all := done + Obus(fs);
            RunAnnexB(Frames(fs), at, StateOf(done, spans), p) ==
            if Lawful(all, p) then Some(Outcome(StateOf(all, spans + Spans(fs, at)), Obus(fs))) else None
    decreases |fs|
  {
    hide Wire, StateOf, LawfulSoFar, MayFollow, CountOf, Lawful, RunAnnexB, SpanOf;
    if fs == [] {
      assert done + [] == done && spans + [] == spans;
      RunEnds(done, spans, at, p);
    } else {
      FirstOf(fs, at);
      hide AllProper, Proper, Frames, Obus, Spans;
      var f, rest := fs[0], fs[1..];
      RunStep(f, Frames(rest), at, done, spans, p);
      var next := at + |f.length| + |Wire(f)|;
      var more := SpanOf(f.obu, next - |f.obu.payload|);
      NextDecides(done, f.obu, Obus(rest), p);
      Regroup(done, [f.obu], Obus(rest));
      if MayFollow(done, f.obu, p) {
        CountSnoc(done, f.obu, next - |f.obu.payload|);
        RunReads(rest, next, done + [f.obu], spans + more, p);
        Regroup(spans, more, Spans(rest, next));
      }
    }
  }

  lemma CountSnoc(done: seq<Obu>, o: Obu, at: nat)
    ensures CountOf(done + [o], 4) + CountOf(done + [o], 6) == CountOf(done, 4) + CountOf(done, 6) + |SpanOf(o, at)|
  {
    HasSnoc(done, o);
  }

  lemma ReadsHead(f: Framed, rest: seq<Byte>, at: nat)
    requires Proper(f)
    ensures |f.length| > 0 && |f.obu.payload| <= |Wire(f)| && f.obu.kind < 16
    ensures var r := NextAnnexB(f.length + Wire(f) + rest);
            r.Some? && r.value.0.obu == f.obu && r.value.1 == |f.length| && r.value.2 == |Wire(f)|
            && at + |f.length| + r.value.0.offset == at + |f.length| + |Wire(f)| - |f.obu.payload|
  {
    hide NextAnnexB;
    AnnexBReads(f, rest);
    LeadAndPayload(f);
  }

  /** Only written OBUs are read. */
  lemma {:induction false} RunWritten(data: seq<Byte>, at: nat, v: Progress, p: Picture) returns (fs: seq<Framed>)
    requires RunAnnexB(data, at, v, p).Some?
    ensures AllProper(fs) && data == Frames(fs)
    decreases |data|
  {
    hide Proper, Wire, NextAnnexB, Observe, Finished;
    if data == [] {
      fs := [];
    } else {
      var (located, field, size) := NextAnnexB(data).value;
      var w := Observe(v, located.obu, at + field + located.offset, p).value;
      var f := AnnexBWritten(data);
      var rest := RunWritten(data[field + size..], at + field + size, w, p);
      fs := [f] + rest;
      assert fs[1..] == rest;
      assert data == data[..field] + data[field..field + size] + data[field + size..];
    }
  }

  /** A temporal unit of one frame unit: both size fields, then the frame unit's OBUs. */
  ghost predicate IsUnit(data: seq<Byte>, tu: seq<Byte>, fu: seq<Byte>, fs: seq<Framed>) {
    && AllProper(fs) && IsLeb(fu, |Frames(fs)|) && IsLeb(tu, |fu| + |Frames(fs)|)
    && data == tu + fu + Frames(fs)
  }

  lemma FieldsRead(tu: seq<Byte>, fu: seq<Byte>, body: seq<Byte>)
    requires IsLeb(fu, |body|) && IsLeb(tu, |fu| + |body|)
    ensures UnitFields(tu + fu + body) == Some((|tu|, |fu|))
  {
    hide Leb128.Decode, LebSum;
    var data := tu + fu + body;
    assert data == tu + (fu + body) && data[|tu|..] == fu + body;
    LebReads(tu, fu + body, 8);
    LebReads(fu, body, 8);
  }

  /** A temporal unit is read as the OBUs written, with their tiles where they were written, or refused for their order. */
  lemma UnitReads(data: seq<Byte>, tu: seq<Byte>, fu: seq<Byte>, fs: seq<Framed>, p: Picture)
    requires IsUnit(data, tu, fu, fs)
    ensures ParseAnnexB(data, p) ==
            if Lawful(Obus(fs), p) then Some(Outcome(StateOf(Obus(fs), Spans(fs, |tu| + |fu|)), Obus(fs))) else None
  {
    hide AllProper, IsLeb, UnitFields, RunAnnexB, Lawful, LawfulSoFar, Frames, Spans, Obus, StateOf, CountOf;
    FieldsRead(tu, fu, Frames(fs));
    assert data[|tu| + |fu|..] == Frames(fs);
    NothingSeen(p);
    RunReads(fs, |tu| + |fu|, [], [], p);
    assert [] + Obus(fs) == Obus(fs) && [] + Spans(fs, |tu| + |fu|) == Spans(fs, |tu| + |fu|);
  }

  lemma NothingSeen(p: Picture)
    ensures LawfulSoFar([], p) && StateOf([], []) == FRESH && CountOf([], 4) == CountOf([], 6) == 0
  {
  }

  /** Annex B input is accepted exactly when it is a temporal unit of OBUs in a lawful order. */
  lemma UnitAccepted(data: seq<Byte>, p: Picture)
    ensures ParseAnnexB(data, p).Some? <==> exists tu, fu, fs :: IsUnit(data, tu, fu, fs) && Lawful(Obus(fs), p)
  {
    hide Lawful, IsUnit;
    if ParseAnnexB(data, p).Some? {
      var tu, fu, fs := UnitWritten(data, p);
      UnitReads(data, tu, fu, fs, p);
    }
    if tu, fu, fs :| IsUnit(data, tu, fu, fs) && Lawful(Obus(fs), p) {
      UnitReads(data, tu, fu, fs, p);
    }
  }

  lemma UnitWritten(data: seq<Byte>, p: Picture) returns (tu: seq<Byte>, fu: seq<Byte>, fs: seq<Framed>)
    requires ParseAnnexB(data, p).Some?
    ensures IsUnit(data, tu, fu, fs)
  {
    hide Leb128.Decode, LebSum, RunAnnexB;
    var (m, n) := UnitFields(data).value;
    LebWritten(data, 8);
    LebWritten(data[m..], 8);
    fs := RunWritten(data[m + n..], m + n, FRESH, p);
    tu, fu := data[..m], data[m..][..n];
    assert data == data[..m] + data[m..][..n] + data[m + n..];
  }

  // ---------- low-overhead input ----------

  /** OBUs that carry their own sizes, one behind the other. */
  ghost function Sized(fs: seq<Framed>): seq<Byte>
    requires AllSized(fs)
  {
    if fs == [] then [] else Wire(fs[0]) + Sized(fs[1..])
  }

  ghost function SizedSpans(fs: seq<Framed>, at: nat): seq<Span>
    requires AllSized(fs)
  {
    if fs == [] then [] else
    var next := at + |Wire(fs[0])|;
    SpanOf(fs[0].obu, next - |fs[0].obu.payload|) + SizedSpans(fs[1..], next)
  }

  lemma ReadsSizedHead(f: Framed, rest: seq<Byte>)
    requires Whole(f) && f.sized.Some?
    ensures 0 < |Wire(f)| && |f.obu.payload| <= |Wire(f)| && f.obu.kind < 16
    ensures var r := NextRaw(Wire(f) + rest);
            r.Some? && r.value.0.obu == f.obu && r.value.1 == |Wire(f)| && r.value.0.offset == |Wire(f)| - |f.obu.payload|
  {
    hide NextRaw;
    RawReads(f, rest);
    LeadAndPayload(f);
  }

  lemma SizedStep(f: Framed, tail: seq<Byte>, at: nat, done: seq<Obu>, spans: seq<Span>, p: Picture)
    requires Whole(f) && f.sized.Some? && LawfulSoFar(done, p) && |spans| == CountOf(done, 4) + CountOf(done, 6)
    ensures f.obu.kind < 16 && 0 < |Wire(f)| && |f.obu.payload| <= |Wire(f)|
    ensures var next := at + |Wire(f)|;
            var rest := RunRaw(tail, next, StateOf(done + [f.obu], spans + SpanOf(f.obu, next - |f.obu.payload|)), p);
            RunRaw(Wire(f) + tail, at, StateOf(done, spans), p) ==
            if !MayFollow(done, f.obu, p) || rest.None? then None
            else Some(Outcome(rest.value.progress, [f.obu] + rest.value.obus))
  {
    hide Wire, NextRaw, Observe, StateOf, LawfulSoFar, MayFollow, CountOf, SpanOf;
    ReadsSizedHead(f, tail);
    var data := Wire(f) + tail;
    assert data[|Wire(f)|..] == tail;
    ObserveFollows(done, spans, f.obu, at + |Wire(f)| - |f.obu.payload|, p);
  }

  lemma FirstSized(fs: seq<Framed>, at: nat)
    requires AllSized(fs) && fs != []
    ensures AllSized(fs[1..]) && Whole(fs[0]) && fs[0].sized.Some? && Obus(fs) == [fs[0].obu] + Obus(fs[1..])
    ensures Sized(fs) == Wire(fs[0]) + Sized(fs[1..])
    ensures |fs[0].obu.payload| <= |Wire(fs[0])|
    ensures var next := at + |Wire(fs[0])|;
            SizedSpans(fs, at) == SpanOf(fs[0].obu, next - |fs[0].obu.payload|) + SizedSpans(fs[1..], next)
  {
    hide SpanOf, IsLeb;
  }

  lemma {:induction false} SizedReads(fs: seq<Framed>, at: nat, done: seq<Obu>, spans: seq<Span>, p: Picture)
    requires AllSized(fs) && LawfulSoFar(done, p) && |spans| == CountOf(done, 4) + CountOf(done, 6)
    ensures var all := done + Obus(fs);
            RunRaw(Sized(fs), at, StateOf(done, spans), p) ==
            if Lawful(all, p) then Some(Outcome(StateOf(all, spans + SizedSpans(fs, at)), Obus(fs))) else None
    decreases |fs|
  {
    hide Wire, StateOf, LawfulSoFar, MayFollow, CountOf, Lawful, RunRaw, SpanOf;
    if fs == [] {
      assert done + [] == done && spans + [] == spans;
      RunEnds(done, spans, at, p);
    } else {
      FirstSized(fs, at);
      hide AllSized, Whole, Sized, Obus, SizedSpans;
      var f, rest := fs[0], fs[1..];
      SizedStep(f, Sized(rest), at, done, spans, p);
      var next := at + |Wire(f)|;
      var more := SpanOf(f.obu, next - |f.obu.payload|);
      NextDecides(done, f.obu, Obus(rest), p);
      Regroup(done, [f.obu], Obus(rest));
      if MayFollow(done, f.obu, p) {
        CountSnoc(done, f.obu, next - |f.obu.payload|);
        SizedReads(rest, next, done + [f.obu], spans + more, p);
        Regroup(spans, more, SizedSpans(rest, next));
      }
    }
  }

  lemma {:induction false} SizedWritten(data: seq<Byte>, at: nat, v: Progress, p: Picture) returns (fs: seq<Framed>)
    requires RunRaw(data, at, v, p).Some?
    ensures AllSized(fs) && data == Sized(fs)
    decreases |data|
  {
    hide Whole, Wire, NextRaw, Observe, Finished;
    if data == [] {
      fs := [];
    } else {
      var (located, size) := NextRaw(data).value;
      var w := Observe(v, located.obu, at + located.offset, p).value;
      var f := RawWritten(data);
      var rest := SizedWritten(data[size..], at + size, w, p);
      fs := [f] + rest;
      assert fs[1..] == rest;
      assert data == data[..size] + data[size..];
    }
  }

  /** Low-overhead input is read as the OBUs written, with their tiles where they were written, or refused for their order. */
  lemma StreamReads(fs: seq<Framed>, p: Picture)
    requires AllSized(fs)
    ensures ParseRaw(Sized(fs), p) ==
            if Lawful(Obus(fs), p) then Some(Outcome(StateOf(Obus(fs), SizedSpans(fs, 0)), Obus(fs))) else None
  {
    hide RunRaw, Lawful;
    NothingSeen(p);
    SizedReads(fs, 0, [], [], p);
    assert [] + Obus(fs) == Obus(fs) && [] + SizedSpans(fs, 0) == SizedSpans(fs, 0);
  }

  lemma StreamWritten(data: seq<Byte>, p: Picture) returns (fs: seq<Framed>)
    requires ParseRaw(data, p).Some?
    ensures AllSized(fs) && data == Sized(fs)
  {
    hide RunRaw;
    fs := SizedWritten(data, 0, FRESH, p);
  }

  /** Low-overhead input is accepted exactly when it is OBUs with sizes in a lawful order. */
  lemma StreamAccepted(data: seq<Byte>, p: Picture)
    ensures ParseRaw(data, p).Some? <==> exists fs :: AllSized(fs) && data == Sized(fs) && Lawful(Obus(fs), p)
  {
    hide Lawful, AllSized;
    if ParseRaw(data, p).Some? {
      var fs := StreamWritten(data, p);
      StreamReads(fs, p);
    }
    if fs :| AllSized(fs) && data == Sized(fs) && Lawful(Obus(fs), p) {
      StreamReads(fs, p);
    }
  }
}
