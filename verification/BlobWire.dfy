/**
  A writer of IN_FORMATS blobs, after struct drm_format_modifier_blob and struct drm_format_modifier of the kernel's
  drm_mode.h: whatever tables it writes, the reader finds those formats and modifiers, and the blob offers a format with
  a modifier exactly when the written mask says so.
 */
module BlobWire {
  import opened Bits
  import opened InFormats

  /** `v` in `n` bytes, the least significant first. */
  function LittleEndian(v: nat, n: nat): (s: seq<Byte>)
    ensures |s| == n
  {
    if n == 0 then [] else [v % 256] + LittleEndian(v / 256, n - 1)
  }

  /** The number such bytes stand for. */
  function Sum(s: seq<Byte>): nat {
    if s == [] then 0 else s[0] + 256 * Sum(s[1..])
  }

  function Pow256(n: nat): nat {
    if n == 0 then 1 else 256 * Pow256(n - 1)
  }

  lemma {:induction false} SumOfLittleEndian(v: nat, n: nat)
    requires v < Pow256(n)
    ensures Sum(LittleEndian(v, n)) == v
  {
    if n > 0 {
      SumOfLittleEndian(v / 256, n - 1);
      assert LittleEndian(v, n)[1..] == LittleEndian(v / 256, n - 1);
    }
  }

  lemma SumOfFour(s: seq<Byte>)
    requires |s| == 4
    ensures var (a: int, b: int, c: int, d: int) := (s[0], s[1], s[2], s[3]);
            Sum(s) == a + 0x100 * b + 0x1_0000 * c + 0x100_0000 * d
  {
    assert s[1..][1..] == s[2..] && s[2..][1..] == s[3..] && s[3..][1..] == [];
    assert Sum(s[3..]) == s[3] && Sum(s[2..]) == s[2] + 256 * Sum(s[3..]) && Sum(s[1..]) == s[1] + 256 * Sum(s[2..]);
  }

  lemma SumOfEight(s: seq<Byte>)
    requires |s| == 8
    ensures Sum(s) == Sum(s[..4]) + 0x1_0000_0000 * Sum(s[4..])
  {
    assert s[1..][1..] == s[2..] && s[2..][1..] == s[3..] && s[3..][1..] == s[4..];
    assert Sum(s[3..]) == s[3] + 256 * Sum(s[4..]) && Sum(s[2..]) == s[2] + 256 * Sum(s[3..]);
    assert Sum(s[1..]) == s[1] + 256 * Sum(s[2..]) && Sum(s) == s[0] + 256 * Sum(s[1..]);
    SumOfFour(s[..4]);
  }

  lemma U32IsSum(d: seq<Byte>, at: nat)
    requires at + 4 <= |d|
    ensures U32(d, at) == Sum(d[at..at + 4])
  {
    SumOfFour(d[at..at + 4]);
  }

  lemma U64IsSum(d: seq<Byte>, at: nat)
    requires at + 8 <= |d|
    ensures U64(d, at) == Sum(d[at..at + 8])
  {
    hide U32;
    SumOfEight(d[at..at + 8]);
    Within(d, at, at + 8, 0, 4);
    Within(d, at, at + 8, 4, 8);
    U32IsSum(d, at);
    U32IsSum(d, at + 4);
  }

  lemma Within(d: seq<Byte>, at: nat, end: nat, i: nat, j: nat)
    requires at <= end <= |d| && i <= j <= end - at
    ensures d[at..end][i..j] == d[at + i..at + j]
  {
    var a, b := d[at..end][i..j], d[at + i..at + j];
    assert forall k :: 0 <= k < |a| ==> a[k] == d[at..end][i + k] == d[at + i + k] == b[k];
  }

  lemma Powers()
    ensures Pow256(4) == MAX_U32 + 1 && Pow256(8) == MAX_SIZE + 1
  {
    assert Pow256(4) == 0x1_0000_0000;
  }

  /** The field written at some place is read there. */
  lemma FieldReads(d: seq<Byte>, at: nat, v: nat)
    requires at + 4 <= |d| && d[at..at + 4] == LittleEndian(v, 4) && v <= MAX_U32
    ensures U32(d, at) == v
  {
    hide U32, Pow256;
    Powers();
    SumOfLittleEndian(v, 4);
    U32IsSum(d, at);
  }

  lemma WideFieldReads(d: seq<Byte>, at: nat, v: nat)
    requires at + 8 <= |d| && d[at..at + 8] == LittleEndian(v, 8) && v <= MAX_SIZE
    ensures U64(d, at) == v
  {
    hide U64, Pow256;
    Powers();
    SumOfLittleEndian(v, 8);
    U64IsSum(d, at);
  }

  // ---------- tables ----------

  function FormatTable(fs: seq<nat>): (s: seq<Byte>)
    ensures |s| == 4 * |fs|
  {
    if fs == [] then [] else LittleEndian(fs[0], 4) + FormatTable(fs[1..])
  }

  /** formats, offset, pad and modifier of struct drm_format_modifier. */
  function EntryWire(e: Modifier): (s: seq<Byte>)
    ensures |s| == 24
  {
    LittleEndian(e.formats, 8) + LittleEndian(e.offset, 4) + LittleEndian(e.pad, 4) + LittleEndian(e.modifier, 8)
  }

  function EntryTable(es: seq<Modifier>): (s: seq<Byte>)
    ensures |s| == 24 * |es|
  {
    if es == [] then [] else EntryWire(es[0]) + EntryTable(es[1..])
  }

  lemma {:induction false} FormatPlace(fs: seq<nat>, f: nat)
    requires f < |fs|
    ensures FormatTable(fs)[4 * f..4 * f + 4] == LittleEndian(fs[f], 4)
  {
    hide LittleEndian;
    if f > 0 {
      FormatPlace(fs[1..], f - 1);
      assert FormatTable(fs)[4 * f..4 * f + 4] == FormatTable(fs[1..])[4 * (f - 1)..4 * (f - 1) + 4];
    }
  }

  lemma {:induction false} EntryPlace(es: seq<Modifier>, m: nat)
    requires m < |es|
    ensures EntryTable(es)[24 * m..24 * m + 24] == EntryWire(es[m])
  {
    hide EntryWire;
    if m > 0 {
      EntryPlace(es[1..], m - 1);
      assert EntryTable(es)[24 * m..24 * m + 24] == EntryTable(es[1..])[24 * (m - 1)..24 * (m - 1) + 24];
    }
  }

  predicate EntryFits(e: Modifier) {
    e.formats <= MAX_SIZE && e.offset <= MAX_U32 && e.pad <= MAX_U32 && e.modifier <= MAX_SIZE
  }

  lemma EntryReads(d: seq<Byte>, at: nat, e: Modifier)
    requires at + 24 <= |d| && d[at..at + 24] == EntryWire(e) && EntryFits(e)
    ensures EntryBytes(d, at) == e
  {
    hide U32, U64, LittleEndian;
    var w := d[at..at + 24];
    Within(d, at, at + 24, 0, 8);
    Within(d, at, at + 24, 8, 12);
    Within(d, at, at + 24, 12, 16);
    Within(d, at, at + 24, 16, 24);
    assert w[0..8] == LittleEndian(e.formats, 8) && w[8..12] == LittleEndian(e.offset, 4);
    assert w[12..16] == LittleEndian(e.pad, 4) && w[16..24] == LittleEndian(e.modifier, 8);
    WideFieldReads(d, at, e.formats);
    FieldReads(d, at + 8, e.offset);
    FieldReads(d, at + 12, e.pad);
    WideFieldReads(d, at + 16, e.modifier);
  }

  // ---------- blobs ----------

  /** Two tables with anything before, between and after them. */
  datatype Tables = Tables(formats: seq<nat>, entries: seq<Modifier>, lead: seq<Byte>, gap: seq<Byte>, rest: seq<Byte>) {
    function FormatsAt(): nat { 24 + |lead| }

    function EntriesAt(): nat { 24 + |lead| + 4 * |formats| + |gap| }

    predicate Fits() {
      && |formats| <= MAX_U32 && |entries| <= MAX_U32 && EntriesAt() <= MAX_U32
      && (forall f :: 0 <= f < |formats| ==> formats[f] <= MAX_U32)
      && (forall m :: 0 <= m < |entries| ==> EntryFits(entries[m]))
    }
  }

  /** version, flags, count_formats, formats_offset, count_modifiers and modifiers_offset of struct drm_format_modifier_blob. */
  function HeaderWire(t: Tables): (s: seq<Byte>)
    ensures |s| == 24
  {
    LittleEndian(1, 4) + LittleEndian(0, 4) + LittleEndian(|t.formats|, 4) + LittleEndian(t.FormatsAt(), 4) +
    LittleEndian(|t.entries|, 4) + LittleEndian(t.EntriesAt(), 4)
  }

  function BlobOf(t: Tables): seq<Byte> {
    HeaderWire(t) + t.lead + FormatTable(t.formats) + t.gap + EntryTable(t.entries) + t.rest
  }

  lemma HeaderReads(t: Tables)
    requires t.Fits()
    ensures Readable(BlobOf(t)) && CountFormats(BlobOf(t)) == |t.formats| && CountModifiers(BlobOf(t)) == |t.entries|
    ensures FormatsOffset(BlobOf(t)) == t.FormatsAt() && ModifiersOffset(BlobOf(t)) == t.EntriesAt()
  {
    hide U32, LittleEndian, FormatTable, EntryTable;
    var d, h := BlobOf(t), HeaderWire(t);
    assert d[..24] == h;
    assert d[0..4] == h[0..4] && d[4..8] == h[4..8] && d[8..12] == h[8..12];
    assert d[12..16] == h[12..16] && d[16..20] == h[16..20] && d[20..24] == h[20..24];
    FieldReads(d, 0, 1);
    FieldReads(d, 4, 0);
    FieldReads(d, 8, |t.formats|);
    FieldReads(d, 12, t.FormatsAt());
    FieldReads(d, 16, |t.entries|);
    FieldReads(d, 20, t.EntriesAt());
  }

  lemma FormatReads(t: Tables, f: nat)
    requires t.Fits() && f < |t.formats|
    ensures Readable(BlobOf(t)) && f < CountFormats(BlobOf(t)) && FormatAt(BlobOf(t), f) == t.formats[f]
  {
    hide U32, LittleEndian, FormatTable, EntryTable, HeaderWire, Readable;
    HeaderReads(t);
    FormatPlace(t.formats, f);
    var d, at := BlobOf(t), t.FormatsAt();
    assert d[at..at + 4 * |t.formats|] == FormatTable(t.formats);
    assert d[at + 4 * f..at + 4 * f + 4] == d[at..at + 4 * |t.formats|][4 * f..4 * f + 4];
    FieldReads(d, at + 4 * f, t.formats[f]);
  }

  lemma ModifierReads(t: Tables, m: nat)
    requires t.Fits() && m < |t.entries|
    ensures Readable(BlobOf(t)) && m < CountModifiers(BlobOf(t)) && ModifierAt(BlobOf(t), m) == t.entries[m]
  {
    hide U32, LittleEndian, FormatTable, EntryTable, HeaderWire, Readable, EntryWire, EntryBytes;
    HeaderReads(t);
    EntryPlace(t.entries, m);
    var d, at := BlobOf(t), t.EntriesAt();
    assert d[at..at + 24 * |t.entries|] == EntryTable(t.entries);
    assert d[at + 24 * m..at + 24 * m + 24] == d[at..at + 24 * |t.entries|][24 * m..24 * m + 24];
    EntryReads(d, at + 24 * m, t.entries[m]);
  }

  /** Entry `e` offers format `f`: the bit for its distance from the offset is set in the mask. */
  predicate Offers(e: Modifier, f: nat) {
    e.offset <= f < e.offset + 64 && e.formats / Pow2(f - e.offset) % 2 == 1
  }

  lemma {:induction false} ShrIsDivision(v: nat, n: nat)
    ensures Shr(v, n) == v / Pow2(n)
  {
    if n > 0 {
      ShrIsDivision(v / 2, n - 1);
      DivisionNests(v, Pow2(n - 1));
    }
  }

  lemma DivisionNests(v: nat, m: nat)
    requires m > 0
    ensures v / 2 / m == v / (2 * m)
  {
    var h := v / 2;
    var q, r := h / m, h % m;
    assert h == m * q + r;
    Doubled(m, q);
    DivisionIs(v, 2 * m, q, 2 * r + v % 2);
  }

  lemma Doubled(m: nat, q: nat)
    ensures 2 * m * q == 2 * (m * q)
  {
  }

  lemma DivisionIs(v: nat, m: nat, q: nat, r: nat)
    requires m > 0 && v == m * q + r && r < m
    ensures v / m == q
  {
    var d: int := v / m - q;
    assert m * d == m * (v / m) - m * q;
    Multiple(m, d);
  }

  lemma OffersIsCovers(e: Modifier, f: nat)
    ensures Offers(e, f) <==> Covers(e, f)
  {
    if e.offset <= f { ShrIsDivision(e.formats, f - e.offset); }
  }

  /** A written blob offers exactly what its tables say. */
  lemma BlobDenotes(t: Tables, fourcc: nat, modifier: nat)
    requires t.Fits()
    ensures Readable(BlobOf(t))
    ensures Denotes(BlobOf(t), fourcc, modifier) <==>
            exists f, m :: 0 <= f < |t.formats| && 0 <= m < |t.entries| && t.formats[f] == fourcc &&
              t.entries[m].modifier == modifier && Offers(t.entries[m], f)
  {
    hide U32, Readable, FormatAt, ModifierAt, BlobOf, Tables.Fits, Offers, Covers;
    HeaderReads(t);
    var d := BlobOf(t);
    if Denotes(d, fourcc, modifier) {
      var f: nat, m: nat :| PairAt(d, f, m, fourcc, modifier);
      FormatReads(t, f);
      ModifierReads(t, m);
      OffersIsCovers(t.entries[m], f);
      assert t.formats[f] == fourcc && Offers(t.entries[m], f);
    }
    if f, m :| 0 <= f < |t.formats| && 0 <= m < |t.entries| && t.formats[f] == fourcc &&
               t.entries[m].modifier == modifier && Offers(t.entries[m], f) {
      FormatReads(t, f);
      ModifierReads(t, m);
      OffersIsCovers(t.entries[m], f);
      assert PairAt(d, f, m, fourcc, modifier);
    }
  }

  // ---------- which written blobs are appended to ----------

  ghost predicate Pairs(t: Tables, fourcc: nat, modifier: nat) {
    exists f, m :: 0 <= f < |t.formats| && 0 <= m < |t.entries| && t.formats[f] == fourcc &&
      t.entries[m].modifier == modifier && Offers(t.entries[m], f)
  }

  /** The entry starts among the formats and no bit of its mask points past them. */
  ghost predicate Contained(e: Modifier, formats: nat) {
    e.offset < formats && forall b: nat :: b < 64 && e.formats / Pow2(b) % 2 == 1 ==> e.offset + b < formats
  }

  /** "XB24" occurs once. */
  ghost predicate OneXb24(formats: seq<nat>, f: nat) {
    && f < |formats| && formats[f] == 0x34324258
    && forall g :: 0 <= g < |formats| && formats[g] == 0x34324258 ==> g == f
  }

  lemma {:induction false} SomeBit(v: nat, k: nat) returns (b: nat)
    requires 0 < v < Pow2(k)
    ensures b < k && Shr(v, b) % 2 == 1
  {
    if v % 2 == 1 {
      b := 0;
    } else {
      b := SomeBit(v / 2, k - 1);
      b := b + 1;
    }
  }

  lemma {:induction false} ShrBound(v: nat, n: nat, k: nat)
    requires n <= k && v < Pow2(k)
    ensures Shr(v, n) < Pow2(k - n)
  {
    if n > 0 { ShrBound(v / 2, n - 1, k - 1); }
  }

  lemma MaskBound()
    ensures Pow2(64) == MAX_SIZE + 1
  {
    Pow2Of8And31And32();
    Pow2Adds(32, 32);
  }

  lemma ContainedIsOk(e: Modifier, formats: nat)
    requires EntryFits(e)
    ensures Contained(e, formats) <==> EntryOk(e, formats)
  {
    MaskBound();
    hide Pow2;
    var n := formats - e.offset;
    forall b: nat ensures Shr(e.formats, b) == e.formats / Pow2(b) { ShrIsDivision(e.formats, b); }
    if EntryOk(e, formats) {
      forall b: nat | b < 64 && e.formats / Pow2(b) % 2 == 1 ensures e.offset + b < formats {
        if b >= n { NoHighBits(e.formats, n, b); }
      }
    }
    if Contained(e, formats) && n < 64 && Shr(e.formats, n) != 0 {
      ShrBound(e.formats, n, 64);
      var b := SomeBit(Shr(e.formats, n), 64 - n);
      ShrAdds(e.formats, n, b);
      assert e.formats / Pow2(n + b) % 2 == 1;
    }
  }

  lemma WrittenIsFramed(t: Tables)
    requires t.Fits()
    ensures Framed(BlobOf(t)) <==> t.formats != [] && t.FormatsAt() % 4 == 0 && t.EntriesAt() % 8 == 0 && t.rest == []
  {
    hide U32, LittleEndian, FormatTable, EntryTable, Readable;
    HeaderReads(t);
    assert |BlobOf(t)| == t.EntriesAt() + 24 * |t.entries| + |t.rest|;
  }

  lemma WrittenIsWellFormed(t: Tables)
    requires t.Fits()
    ensures WellFormed(BlobOf(t)) <==>
            Framed(BlobOf(t)) && forall m :: 0 <= m < |t.entries| ==> Contained(t.entries[m], |t.formats|)
  {
    hide U32, BlobOf, ModifierAt, Contained, EntryOk, Framed, Readable;
    HeaderReads(t);
    if Framed(BlobOf(t)) {
      FramedIsReadable(BlobOf(t));
      forall m | 0 <= m < |t.entries|
        ensures EntryOk(ModifierAt(BlobOf(t), m), CountFormats(BlobOf(t))) <==> Contained(t.entries[m], |t.formats|)
      {
        ModifierReads(t, m);
        ContainedIsOk(t.entries[m], |t.formats|);
      }
    }
  }

  lemma FramedIsReadable(d: seq<Byte>)
    requires Framed(d)
    ensures Readable(d)
  {
  }

  lemma WrittenTarget(t: Tables, f: nat)
    requires t.Fits()
    ensures Readable(BlobOf(t)) && (OnlyXb24(BlobOf(t), f) <==> OneXb24(t.formats, f))
  {
    hide U32, BlobOf, FormatAt, Readable;
    HeaderReads(t);
    forall g | 0 <= g < |t.formats| ensures FormatAt(BlobOf(t), g) == t.formats[g] { FormatReads(t, g); }
  }

  /** The append takes a written blob exactly when its tables are sound and offer XB24 as linear but not as Qualcomm's. */
  lemma WrittenIsAppendable(t: Tables)
    requires t.Fits()
    ensures Appendable(BlobOf(t)) <==>
            && t.formats != [] && t.FormatsAt() % 4 == 0 && t.EntriesAt() % 8 == 0 && t.rest == []
            && (forall m :: 0 <= m < |t.entries| ==> Contained(t.entries[m], |t.formats|))
            && |t.entries| < 0xFFFF_FFFF && |BlobOf(t)| + 24 <= MAX_SIZE
            && (exists f: nat :: OneXb24(t.formats, f))
            && Pairs(t, 0x34324258, 0) && !Pairs(t, 0x34324258, 0x0500_0000_0000_0001)
  {
    hide U32, BlobOf, WellFormed, Framed, Denotes, OnlyXb24, OneXb24, Contained, Readable;
    WrittenIsFramed(t);
    WrittenIsWellFormed(t);
    HeaderReads(t);
    BlobDenotes(t, XB24, LINEAR);
    BlobDenotes(t, XB24, QCOM);
    forall f: nat ensures OnlyXb24(BlobOf(t), f) <==> OneXb24(t.formats, f) { WrittenTarget(t, f); }
    assert (exists f: nat :: OnlyXb24(BlobOf(t), f)) <==> (exists f: nat :: OneXb24(t.formats, f));
  }

  // ---------- what the append writes ----------

  lemma {:induction false} EntryTableSnoc(es: seq<Modifier>, e: Modifier)
    ensures EntryTable(es + [e]) == EntryTable(es) + EntryWire(e)
  {
    hide EntryWire;
    if es == [] {
      assert [e][1..] == [] && es + [e] == [e];
    } else {
      EntryTableSnoc(es[1..], e);
      assert (es + [e])[1..] == es[1..] + [e];
    }
  }

  lemma FourBytes(v: nat)
    requires v <= MAX_U32
    ensures Put32(v) == LittleEndian(v, 4)
  {
    var a := v / 256;
    var b := a / 256;
    assert LittleEndian(b / 256, 1) == [b / 256 % 256];
    assert LittleEndian(b, 2) == [b % 256] + LittleEndian(b / 256, 1);
    assert LittleEndian(a, 3) == [a % 256] + LittleEndian(b, 2);
  }

  lemma {:induction false} Injective(s: seq<Byte>, u: seq<Byte>)
    requires |s| == |u| && Sum(s) == Sum(u)
    ensures s == u
  {
    if s != [] {
      assert s[0] == Sum(s) % 256 && u[0] == Sum(u) % 256;
      Injective(s[1..], u[1..]);
      assert s == [s[0]] + s[1..] && u == [u[0]] + u[1..];
    }
  }

  lemma EightBytes(v: nat)
    requires v <= MAX_SIZE
    ensures Put64(v) == LittleEndian(v, 8)
  {
    hide U64, Put64, LittleEndian, Pow256;
    Powers();
    SumOfLittleEndian(v, 8);
    U64At([], v, []);
    assert [] + Put64(v) + [] == Put64(v) && Put64(v)[0..8] == Put64(v);
    U64IsSum(Put64(v), 0);
    Injective(Put64(v), LittleEndian(v, 8));
  }

  lemma EncodedIsWire(mask: nat, base: nat, modifier: nat)
    requires mask <= MAX_SIZE && base <= MAX_U32 && modifier <= MAX_SIZE
    ensures Encoded(mask, base, modifier) == EntryWire(Modifier(mask, base, 0, modifier))
  {
    hide Put32, Put64, LittleEndian;
    EightBytes(mask);
    FourBytes(base);
    FourBytes(0);
    EightBytes(modifier);
  }

  lemma NewEntryIsWire(f: nat)
    requires f <= MAX_U32
    ensures NewEntry(f) == EntryWire(Modifier(Pow2(f % 64), f - f % 64, 0, 0x0500_0000_0000_0001))
    ensures Pow2(f % 64) <= MAX_SIZE
  {
    hide Encoded, EntryWire, Pow2;
    MaskFits(f % 64);
    EncodedIsWire(Pow2(f % 64), f - f % 64, 0x0500_0000_0000_0001);
  }

  /** Appending to a written blob is writing its tables with one more entry: one bit, at the format's place in its group of 64. */
  lemma AppendedIsWritten(t: Tables, f: nat)
    requires t.Fits() && t.rest == [] && |t.entries| < MAX_U32 && f < |t.formats|
    ensures var e := Modifier(Pow2(f % 64), f - f % 64, 0, 0x0500_0000_0000_0001);
            |BlobOf(t)| >= HEADER && Appended(BlobOf(t), f) == BlobOf(t.(entries := t.entries + [e])) && t.(entries := t.entries + [e]).Fits()
  {
    hide U32, LittleEndian, Put32, NewEntry, EntryWire, FormatTable, EntryTable, Pow2, Readable;
    var e := Modifier(Pow2(f % 64), f - f % 64, 0, 0x0500_0000_0000_0001);
    var t', d := t.(entries := t.entries + [e]), BlobOf(t);
    NewEntryIsWire(f);
    HeaderReads(t);
    EntryTableSnoc(t.entries, e);
    FourBytes(|t.entries| + 1);
    CountedUp(t, e);
    hide HeaderWire, Tables.Fits;
    var body := t.lead + FormatTable(t.formats) + t.gap + EntryTable(t.entries);
    assert d == HeaderWire(t) + body;
    Spliced(HeaderWire(t), body, Put32(|t.entries| + 1), NewEntry(f));
    assert BlobOf(t') == HeaderWire(t') + body + EntryWire(e);
  }

  lemma CountedUp(t: Tables, e: Modifier)
    ensures HeaderWire(t.(entries := t.entries + [e])) ==
            HeaderWire(t)[..16] + LittleEndian(|t.entries| + 1, 4) + HeaderWire(t)[20..]
  {
    hide LittleEndian;
  }

  lemma Spliced(h: seq<Byte>, body: seq<Byte>, n: seq<Byte>, e: seq<Byte>)
    requires |h| == 24
    ensures (h + body)[..16] + n + (h + body)[20..] + e == h[..16] + n + h[20..] + body + e
  {
    assert (h + body)[..16] == h[..16] && (h + body)[20..] == h[20..] + body;
  }

  /** The tables of the strict blobs. */
  function StrictTables(linear: bool): Tables {
    var qcom := Modifier(1, 0, 0, 0x0500_0000_0000_0001);
    Tables([0x34324258], if linear then [qcom, Modifier(1, 0, 0, 0)] else [qcom], [], [0, 0, 0, 0], [])
  }

  lemma SmallField(v: Byte)
    ensures LittleEndian(v, 4) == [v, 0, 0, 0]
  {
    FourBytes(v);
  }

  lemma Xb24Field()
    ensures LittleEndian(0x34324258, 4) == [0x58, 0x42, 0x32, 0x34]
  {
    FourBytes(0x34324258);
    hide LittleEndian;
  }

  lemma HeadInFours(n: Byte)
    ensures StrictHead(n) == [1, 0, 0, 0] + [0, 0, 0, 0] + [1, 0, 0, 0] + [24, 0, 0, 0] + [n, 0, 0, 0] + [32, 0, 0, 0] +
                             [0x58, 0x42, 0x32, 0x34] + [0, 0, 0, 0]
  {
  }

  lemma StrictHeadIsWire(linear: bool)
    ensures StrictHead(if linear then 2 else 1) == HeaderWire(StrictTables(linear)) + LittleEndian(0x34324258, 4) + [0, 0, 0, 0]
  {
    hide LittleEndian, StrictHead;
    SmallField(0);
    SmallField(1);
    SmallField(2);
    SmallField(24);
    SmallField(32);
    Xb24Field();
    HeadInFours(if linear then 2 else 1);
  }

  lemma StrictEntries(linear: bool)
    ensures EntryTable(StrictTables(linear).entries) ==
            Encoded(1, 0, QCOM) + if linear then Encoded(1, 0, LINEAR) else []
  {
    hide LittleEndian, Encoded, EntryWire;
    EncodedIsWire(1, 0, QCOM);
    EncodedIsWire(1, 0, LINEAR);
    var qcom := Modifier(1, 0, 0, QCOM);
    EntryTableSnoc([], qcom);
    EntryTableSnoc([qcom], Modifier(1, 0, 0, LINEAR));
    assert [] + [qcom] == [qcom];
    assert EntryTable([]) == [];
  }

  lemma OneFormat(f: nat)
    ensures FormatTable([f]) == LittleEndian(f, 4)
  {
    hide LittleEndian;
    assert [f][1..] == [];
  }

  /** The strict blobs are written from their tables. */
  lemma StrictIsWritten()
    ensures StrictQcom() == BlobOf(StrictTables(false)) && StrictQcomLinear() == BlobOf(StrictTables(true))
  {
    hide LittleEndian, Encoded, EntryWire, StrictHead, HeaderWire, EntryTable, FormatTable;
    StrictHeadIsWire(false);
    StrictHeadIsWire(true);
    StrictEntries(false);
    StrictEntries(true);
    OneFormat(0x34324258);
  }
}
