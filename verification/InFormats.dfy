/**
  The DRM IN_FORMATS blob: a packed table of formats and of modifiers that cover them through an offset and a
  64-bit mask. src/bridge/android_drm_blob.c rewrites it, src/bridge/android_drm_preload.c builds strict ones and
  src/bridge/android_drm_bridge.c lists it; all are judged by the (format, modifier) pairs the bytes denote.
 */
module InFormats {
  import opened Bits

  const HEADER: nat := 24
  const ENTRY: nat := 24
  const XB24: nat := 0x34324258
  const LINEAR: nat := 0
  const QCOM: nat := 0x0500_0000_0000_0001
  const INVALID_MODIFIER: nat := 0x00FF_FFFF_FFFF_FFFF
  const MAX_U32: nat := 0xFFFF_FFFF
  const MAX_SIZE: nat := 0xFFFF_FFFF_FFFF_FFFF
  const MAX_PAIRS: nat := 1024

  // ---------- little-endian fields ----------

  function U32(data: seq<Byte>, at: nat): (v: nat)
    requires at + 4 <= |data|
    ensures v <= MAX_U32
  {
    var b0: int, b1: int, b2: int, b3: int := data[at], data[at + 1], data[at + 2], data[at + 3];
    b0 + 0x100 * b1 + 0x1_0000 * b2 + 0x100_0000 * b3
  }

  function U64(data: seq<Byte>, at: nat): nat
    requires at + 8 <= |data|
  {
    U32(data, at) + 0x1_0000_0000 * U32(data, at + 4)
  }

  function Put32(v: nat): (s: seq<Byte>)
    ensures |s| == 4
  {
    [v % 0x100, v / 0x100 % 0x100, v / 0x100 / 0x100 % 0x100, v / 0x100 / 0x100 / 0x100 % 0x100]
  }

  function Put64(v: nat): (s: seq<Byte>)
    ensures |s| == 8
  {
    Put32(v % 0x1_0000_0000) + Put32(v / 0x1_0000_0000)
  }

  lemma U32OfPut32(v: nat)
    requires v <= MAX_U32
    ensures U32(Put32(v), 0) == v
  {
    var a: nat := v / 0x100;
    var b: nat := a / 0x100;
    var c: nat := b / 0x100;
    assert v == 0x100 * a + v % 0x100 && a == 0x100 * b + a % 0x100 && b == 0x100 * c + b % 0x100;
  }

  /** A field reads the same wherever the same four bytes stand. */
  lemma U32Moved(a: seq<Byte>, i: nat, b: seq<Byte>, j: nat)
    requires i + 4 <= |a| && j + 4 <= |b| && a[i..i + 4] == b[j..j + 4]
    ensures U32(a, i) == U32(b, j)
  {
    var x, y := a[i..i + 4], b[j..j + 4];
    assert x[0] == a[i] && x[1] == a[i + 1] && x[2] == a[i + 2] && x[3] == a[i + 3];
    assert y[0] == b[j] && y[1] == b[j + 1] && y[2] == b[j + 2] && y[3] == b[j + 3];
  }

  lemma U32At(before: seq<Byte>, v: nat, after: seq<Byte>)
    requires v <= MAX_U32
    ensures U32(before + Put32(v) + after, |before|) == v
  {
    var all := before + Put32(v) + after;
    assert all[|before|..|before| + 4] == Put32(v)[0..4];
    U32Moved(all, |before|, Put32(v), 0);
    U32OfPut32(v);
  }

  lemma U64At(before: seq<Byte>, v: nat, after: seq<Byte>)
    requires v <= MAX_SIZE
    ensures U64(before + Put64(v) + after, |before|) == v
  {
    hide U32, Put32;
    var low, high := v % 0x1_0000_0000, v / 0x1_0000_0000;
    var all := before + Put64(v) + after;
    assert all == before + Put32(low) + (Put32(high) + after);
    assert all == (before + Put32(low)) + Put32(high) + after;
    U32At(before, low, Put32(high) + after);
    U32At(before + Put32(low), high, after);
  }

  // ---------- masks ----------

  predicate Bit(mask: nat, b: nat) {
    Shr(mask, b) % 2 == 1
  }

  lemma {:induction false} BitOfPow2(k: nat, b: nat)
    ensures Bit(Pow2(k), b) <==> b == k
  {
    if b > 0 {
      if k > 0 {
        assert Pow2(k) / 2 == Pow2(k - 1);
        BitOfPow2(k - 1, b - 1);
      } else {
        ShrZero(b - 1);
      }
    }
  }

  lemma {:induction false} ShrZero(n: nat)
    ensures Shr(0, n) == 0
  {
    if n > 0 { ShrZero(n - 1); }
  }

  lemma {:induction false} ShrAdds(v: nat, m: nat, n: nat)
    ensures Shr(Shr(v, m), n) == Shr(v, m + n)
  {
    if m > 0 { ShrAdds(v / 2, m - 1, n); }
  }

  /** A mask without bits from `n` up has none beyond either. */
  lemma NoHighBits(mask: nat, n: nat, b: nat)
    requires Shr(mask, n) == 0 && b >= n
    ensures !Bit(mask, b)
  {
    ShrAdds(mask, n, b - n);
    ShrZero(b - n);
  }

  lemma {:induction false} ShrSmall(k: nat, n: nat)
    requires k < n
    ensures Shr(Pow2(k), n) == 0
  {
    if k == 0 {
      ShrZero(n - 1);
    } else {
      assert Pow2(k) / 2 == Pow2(k - 1);
      ShrSmall(k - 1, n - 1);
    }
  }

  lemma {:induction false} Pow2Below(k: nat, n: nat)
    requires k < n
    ensures 2 * Pow2(k) <= Pow2(n)
  {
    if n > k + 1 { Pow2Below(k, n - 1); }
  }

  lemma MaskFits(k: nat)
    requires k < 64
    ensures Pow2(k) <= MAX_SIZE
  {
    Pow2Below(k, 64);
    Pow2Of8And31And32();
    Pow2Adds(32, 32);
    hide Pow2;
  }

  lemma {:induction false} Pow2Adds(a: nat, b: nat)
    ensures Pow2(a + b) == Pow2(a) * Pow2(b)
  {
    if a > 0 { Pow2Adds(a - 1, b); }
  }

  // ---------- the table ----------

  datatype Modifier = Modifier(formats: nat, offset: nat, pad: nat, modifier: nat)

  function CountFormats(d: seq<Byte>): nat
    requires |d| >= HEADER
  {
    U32(d, 8)
  }

  function FormatsOffset(d: seq<Byte>): nat
    requires |d| >= HEADER
  {
    U32(d, 12)
  }

  function CountModifiers(d: seq<Byte>): nat
    requires |d| >= HEADER
  {
    U32(d, 16)
  }

  function ModifiersOffset(d: seq<Byte>): nat
    requires |d| >= HEADER
  {
    U32(d, 20)
  }

  /** Version and flags are known and both tables lie inside the blob. */
  predicate Readable(d: seq<Byte>) {
    && |d| >= HEADER && U32(d, 0) == 1 && U32(d, 4) == 0
    && FormatsOffset(d) + 4 * CountFormats(d) <= |d|
    && ModifiersOffset(d) + ENTRY * CountModifiers(d) <= |d|
  }

  function FormatAt(d: seq<Byte>, f: nat): nat
    requires Readable(d) && f < CountFormats(d)
  {
    U32(d, FormatsOffset(d) + 4 * f)
  }

  function EntryBytes(d: seq<Byte>, at: nat): Modifier
    requires at + ENTRY <= |d|
  {
    Modifier(U64(d, at), U32(d, at + 8), U32(d, at + 12), U64(d, at + 16))
  }

  function ModifierAt(d: seq<Byte>, m: nat): Modifier
    requires Readable(d) && m < CountModifiers(d)
  {
    EntryBytes(d, ModifiersOffset(d) + ENTRY * m)
  }

  /** `modifier_covers_format`. */
  predicate Covers(e: Modifier, f: nat) {
    f >= e.offset && f - e.offset < 64 && Bit(e.formats, f - e.offset)
  }

  predicate PairAt(d: seq<Byte>, f: nat, m: nat, fourcc: nat, modifier: nat)
    requires Readable(d)
  {
    && f < CountFormats(d) && m < CountModifiers(d)
    && FormatAt(d, f) == fourcc && ModifierAt(d, m).modifier == modifier && Covers(ModifierAt(d, m), f)
  }

  /** The blob offers the format with the modifier. */
  ghost predicate Denotes(d: seq<Byte>, fourcc: nat, modifier: nat)
    requires Readable(d)
  {
    exists f: nat, m: nat :: PairAt(d, f, m, fourcc, modifier)
  }

  ghost predicate Lists(d: seq<Byte>, fourcc: nat)
    requires Readable(d)
  {
    exists f: nat :: f < CountFormats(d) && FormatAt(d, f) == fourcc
  }

  /** Aligned tables in order, the second ending the blob, and no mask bit past the last format. */
  predicate Framed(d: seq<Byte>) {
    && Readable(d) && CountFormats(d) > 0
    && FormatsOffset(d) % 4 == 0 && ModifiersOffset(d) % 8 == 0
    && FormatsOffset(d) >= HEADER && ModifiersOffset(d) >= FormatsOffset(d) + 4 * CountFormats(d)
    && ModifiersOffset(d) + ENTRY * CountModifiers(d) == |d|
  }

  predicate EntryOk(e: Modifier, formats: nat) {
    e.offset < formats && (formats - e.offset < 64 ==> Shr(e.formats, formats - e.offset) == 0)
  }

  ghost predicate WellFormed(d: seq<Byte>) {
    Framed(d) && forall m :: 0 <= m < CountModifiers(d) ==> EntryOk(ModifierAt(d, m), CountFormats(d))
  }

  // ---------- checked arithmetic ----------

  /** `checked_region`: no wrap-around on the way to the answer, and the answer is the plain comparison. */
  method CheckedRegion(offset: nat, count: nat, size: nat, length: nat) returns (end: Option<nat>)
    requires offset <= MAX_SIZE && count <= MAX_SIZE && 0 < size <= MAX_SIZE && length <= MAX_SIZE
    ensures end == if offset + count * size <= length then Some(offset + count * size) else None
  {
    if count > MAX_SIZE / size {
      Overflows(count, size);
      return None;
    }
    InRange(count, size);
    var bytes := count * size;
    assert bytes <= MAX_SIZE;
    if offset > length || bytes > length - offset {
      return None;
    }
    return Some(offset + bytes);
  }

  lemma Overflows(count: nat, size: nat)
    requires size > 0 && count > MAX_SIZE / size
    ensures count * size > MAX_SIZE
  {
    var q := MAX_SIZE / size;
    assert MAX_SIZE < (q + 1) * size;
    assert (q + 1) * size <= count * size;
  }

  lemma InRange(count: nat, size: nat)
    requires size > 0 && count <= MAX_SIZE / size
    ensures count * size <= MAX_SIZE
  {
    var q := MAX_SIZE / size;
    assert count * size <= q * size <= MAX_SIZE;
  }

  // ---------- the append ----------

  /** The blob has exactly one XB24 slot, `t`. */
  ghost predicate OnlyXb24(d: seq<Byte>, t: nat)
    requires Readable(d)
  {
    && t < CountFormats(d) && FormatAt(d, t) == XB24
    && forall f :: 0 <= f < CountFormats(d) && FormatAt(d, f) == XB24 ==> f == t
  }

  ghost predicate Appendable(d: seq<Byte>) {
    && WellFormed(d) && CountModifiers(d) < MAX_U32 && |d| + ENTRY <= MAX_SIZE
    && (exists t: nat :: OnlyXb24(d, t))
    && Denotes(d, XB24, LINEAR) && !Denotes(d, XB24, QCOM)
  }

  /** The bit of a format in the mask that starts at its 64-aligned base. */
  function Slot(t: nat): (b: nat)
    ensures b < 64 && b <= t
  {
    t % 64
  }

  function Base(t: nat): (b: nat)
    ensures b + Slot(t) == t
  {
    t - Slot(t)
  }

  /** The bytes of a table entry. */
  function Encoded(mask: nat, base: nat, modifier: nat): (s: seq<Byte>)
    ensures |s| == ENTRY
  {
    Put64(mask) + Put32(base) + Put32(0) + Put64(modifier)
  }

  function NewEntry(t: nat): (s: seq<Byte>)
    ensures |s| == ENTRY
  {
    Encoded(Pow2(Slot(t)), Base(t), QCOM)
  }

  function Appended(d: seq<Byte>, t: nat): seq<Byte>
    requires |d| >= HEADER
  {
    d[..16] + Put32(CountModifiers(d) + 1) + d[20..] + NewEntry(t)
  }

  /** A table entry reads back as written. */
  lemma EntryOfFields(before: seq<Byte>, mask: nat, base: nat, modifier: nat, after: seq<Byte>)
    requires mask <= MAX_SIZE && base <= MAX_U32 && modifier <= MAX_SIZE
    ensures EntryBytes(before + Encoded(mask, base, modifier) + after, |before|) == Modifier(mask, base, 0, modifier)
  {
    hide U32, U64, Put32, Put64;
    var a, b, c, d := Put64(mask), Put32(base), Put32(0), Put64(modifier);
    var all := before + (a + b + c + d) + after;
    assert all == before + a + (b + c + d + after);
    U64At(before, mask, b + c + d + after);
    assert all == (before + a) + b + (c + d + after);
    U32At(before + a, base, c + d + after);
    assert all == (before + a + b) + c + (d + after);
    U32At(before + a + b, 0, d + after);
    assert all == (before + a + b + c) + d + after;
    U64At(before + a + b + c, modifier, after);
  }

  lemma NewEntryIs(t: nat)
    ensures NewEntry(t) == Encoded(Pow2(Slot(t)), Base(t), QCOM)
  {
    hide Encoded, Pow2, Slot, Base;
  }

  lemma EntryOfNewEntry(before: seq<Byte>, t: nat)
    requires t <= MAX_U32
    ensures EntryBytes(before + NewEntry(t), |before|) == Modifier(Pow2(Slot(t)), Base(t), 0, QCOM)
  {
    assert QCOM <= MAX_SIZE;
    hide *;
    MaskFits(Slot(t));
    EntryOfFields(before, Pow2(Slot(t)), Base(t), QCOM, []);
    assert NewEntry(t) == Encoded(Pow2(Slot(t)), Base(t), QCOM) by { NewEntryIs(t); }
    assert before + NewEntry(t) + [] == before + NewEntry(t);
  }

  /** Outside the counter the old bytes stay where they were. */
  lemma AppendedKeeps(d: seq<Byte>, t: nat, at: nat)
    requires |d| >= HEADER && at + 4 <= |d| && (at + 4 <= 16 || at >= 20)
    ensures U32(Appended(d, t), at) == U32(d, at)
  {
    hide U32, Put32, NewEntry;
    assert Appended(d, t)[at..at + 4] == d[at..at + 4];
    U32Moved(Appended(d, t), at, d, at);
  }

  lemma AppendedHeader(d: seq<Byte>, t: nat)
    requires |d| >= HEADER && CountModifiers(d) < MAX_U32
    ensures |Appended(d, t)| == |d| + ENTRY && CountModifiers(Appended(d, t)) == CountModifiers(d) + 1
    ensures U32(Appended(d, t), 0) == U32(d, 0) && U32(Appended(d, t), 4) == U32(d, 4)
    ensures CountFormats(Appended(d, t)) == CountFormats(d)
    ensures FormatsOffset(Appended(d, t)) == FormatsOffset(d) && ModifiersOffset(Appended(d, t)) == ModifiersOffset(d)
  {
    hide U32, Put32, NewEntry;
    AppendedKeeps(d, t, 0);
    AppendedKeeps(d, t, 4);
    AppendedKeeps(d, t, 8);
    AppendedKeeps(d, t, 12);
    AppendedKeeps(d, t, 20);
    assert Appended(d, t) == d[..16] + Put32(CountModifiers(d) + 1) + (d[20..] + NewEntry(t));
    U32At(d[..16], CountModifiers(d) + 1, d[20..] + NewEntry(t));
  }

  lemma AppendedFormat(d: seq<Byte>, t: nat, f: nat)
    requires Framed(d) && CountModifiers(d) < MAX_U32 && f < CountFormats(d)
    ensures Framed(Appended(d, t)) && FormatAt(Appended(d, t), f) == FormatAt(d, f)
  {
    hide U32, Put32, NewEntry;
    AppendedHeader(d, t);
    AppendedKeeps(d, t, FormatsOffset(d) + 4 * f);
  }

  lemma AppendedModifier(d: seq<Byte>, t: nat, m: nat)
    requires Framed(d) && CountModifiers(d) < MAX_U32 && m < CountModifiers(d)
    ensures Framed(Appended(d, t)) && ModifierAt(Appended(d, t), m) == ModifierAt(d, m)
  {
    hide U32, Put32, NewEntry;
    AppendedHeader(d, t);
    var at := ModifiersOffset(d) + ENTRY * m;
    AppendedKeeps(d, t, at);
    AppendedKeeps(d, t, at + 4);
    AppendedKeeps(d, t, at + 8);
    AppendedKeeps(d, t, at + 12);
    AppendedKeeps(d, t, at + 16);
    AppendedKeeps(d, t, at + 20);
  }

  lemma AppendedLast(d: seq<Byte>, t: nat)
    requires Framed(d) && CountModifiers(d) < MAX_U32 && t <= MAX_U32
    ensures Framed(Appended(d, t))
    ensures ModifierAt(Appended(d, t), CountModifiers(d)) == Modifier(Pow2(Slot(t)), Base(t), 0, QCOM)
  {
    hide U32, Put32, NewEntry, Pow2, EntryBytes, Slot, Base;
    AppendedHeader(d, t);
    var before := d[..16] + Put32(CountModifiers(d) + 1) + d[20..];
    assert |before| == |d| && Appended(d, t) == before + NewEntry(t);
    EntryOfNewEntry(before, t);
    hide Appended;
  }

  /** The new entry covers the target and nothing else. */
  lemma NewCoversTarget(t: nat, f: nat)
    ensures Covers(Modifier(Pow2(Slot(t)), Base(t), 0, QCOM), f) <==> f == t
  {
    if f >= Base(t) {
      BitOfPow2(Slot(t), f - Base(t));
    }
  }

  /** An accepted append stays well formed. */
  lemma AppendedIsWellFormed(d: seq<Byte>, t: nat)
    requires WellFormed(d) && CountModifiers(d) < MAX_U32 && OnlyXb24(d, t)
    ensures WellFormed(Appended(d, t))
  {
    hide U32, Put32, NewEntry, Pow2, Shr, Appended;
    AppendedHeader(d, t);
    AppendedLast(d, t);
    var n := CountFormats(d);
    forall m | 0 <= m < CountModifiers(Appended(d, t)) ensures EntryOk(ModifierAt(Appended(d, t), m), CountFormats(Appended(d, t))) {
      if m < CountModifiers(d) {
        AppendedModifier(d, t, m);
        assert EntryOk(ModifierAt(d, m), n);
      } else if n - Base(t) < 64 {
        ShrSmall(Slot(t), n - Base(t));
      }
    }
  }

  /** The appended blob denotes the source's pairs and (XB24, QCOM), no more and no less. */
  lemma AppendedDenotes(d: seq<Byte>, t: nat, fourcc: nat, modifier: nat)
    requires Framed(d) && CountModifiers(d) < MAX_U32 && OnlyXb24(d, t)
    ensures Framed(Appended(d, t))
    ensures Denotes(Appended(d, t), fourcc, modifier) <==>
            Denotes(d, fourcc, modifier) || (fourcc == XB24 && modifier == QCOM)
  {
    hide U32, Put32, NewEntry, Pow2, Bit, Appended, FormatAt, ModifierAt;
    AppendedHeader(d, t);
    AppendedLast(d, t);
    var d' := Appended(d, t);
    if Denotes(d', fourcc, modifier) {
      var f: nat, m: nat :| PairAt(d', f, m, fourcc, modifier);
      AppendedFormat(d, t, f);
      if m < CountModifiers(d) {
        AppendedModifier(d, t, m);
        assert PairAt(d, f, m, fourcc, modifier);
      } else {
        NewCoversTarget(t, f);
      }
    }
    if Denotes(d, fourcc, modifier) {
      var f: nat, m: nat :| PairAt(d, f, m, fourcc, modifier);
      AppendedFormat(d, t, f);
      AppendedModifier(d, t, m);
      assert PairAt(d', f, m, fourcc, modifier);
    }
    if fourcc == XB24 && modifier == QCOM {
      AppendedFormat(d, t, t);
      NewCoversTarget(t, t);
      assert PairAt(d', t, CountModifiers(d), fourcc, modifier);
    }
  }

  /** A second append is refused. */
  lemma AppendOnce(d: seq<Byte>, t: nat)
    requires Appendable(d) && OnlyXb24(d, t)
    ensures !Appendable(Appended(d, t))
  {
    hide U32, Denotes, Appended;
    AppendedDenotes(d, t, XB24, QCOM);
  }

  // ---------- the rewriting ----------

  /** The validating part of `android_drm_blob_append_xb24_qcom` that looks at the header. */
  method CheckHeader(d: seq<Byte>) returns (ok: bool)
    requires |d| <= MAX_SIZE
    ensures ok <==> Framed(d) && CountModifiers(d) < MAX_U32
  {
    hide U32;
    if |d| < HEADER { return false; }
    if U32(d, 0) != 1 || U32(d, 4) != 0 || CountFormats(d) == 0 || CountModifiers(d) == MAX_U32 ||
       FormatsOffset(d) % 4 != 0 || ModifiersOffset(d) % 8 != 0 {
      return false;
    }
    var formatsEnd := CheckedRegion(FormatsOffset(d), CountFormats(d), 4, |d|);
    if formatsEnd.None? { return false; }
    var modifiersEnd := CheckedRegion(ModifiersOffset(d), CountModifiers(d), ENTRY, |d|);
    if modifiersEnd.None? { return false; }
    return FormatsOffset(d) >= HEADER && ModifiersOffset(d) >= formatsEnd.value && modifiersEnd.value == |d|;
  }

  /** Finds the one XB24 slot. */
  method FindTarget(d: seq<Byte>) returns (target: Option<nat>)
    requires Framed(d)
    ensures target.Some? <==> exists t: nat :: OnlyXb24(d, t)
    ensures target.Some? ==> OnlyXb24(d, target.value)
  {
    hide U32;
    var index, count := 0, 0;
    ghost var first := 0;
    for i := 0 to CountFormats(d)
      invariant count == 0 ==> forall f :: 0 <= f < i ==> FormatAt(d, f) != XB24
      invariant count > 0 ==> index < i && FormatAt(d, index) == XB24
      invariant count == 1 ==> forall f :: 0 <= f < i && FormatAt(d, f) == XB24 ==> f == index
      invariant count > 1 ==> first < index && FormatAt(d, first) == XB24
    {
      if FormatAt(d, i) == XB24 {
        first := index;
        index := i;
        count := count + 1;
      }
    }
    if count == 1 {
      assert OnlyXb24(d, index);
      return Some(index);
    }
    forall t: nat ensures !OnlyXb24(d, t) {
      if count > 1 && t < CountFormats(d) {
        assert FormatAt(d, first) == XB24 && FormatAt(d, index) == XB24;
      }
    }
    return None;
  }

  /** Walks the modifiers: are they all within the formats, and which of the two is offered for the target? */
  method ScanModifiers(d: seq<Byte>, t: nat) returns (ok: bool, hasLinear: bool, hasQcom: bool)
    requires Framed(d) && t < CountFormats(d)
    ensures ok <==> WellFormed(d)
    ensures ok ==> (hasLinear <==> OffersAt(d, t, CountModifiers(d), LINEAR))
    ensures ok ==> (hasQcom <==> OffersAt(d, t, CountModifiers(d), QCOM))
  {
    hide U32, ModifierAt, Covers, Shr;
    hasLinear, hasQcom := false, false;
    for i := 0 to CountModifiers(d)
      invariant forall m :: 0 <= m < i ==> EntryOk(ModifierAt(d, m), CountFormats(d))
      invariant hasLinear <==> OffersAt(d, t, i, LINEAR)
      invariant hasQcom <==> OffersAt(d, t, i, QCOM)
    {
      var e := ModifierAt(d, i);
      if e.offset >= CountFormats(d) {
        assert !EntryOk(ModifierAt(d, i), CountFormats(d));
        return false, hasLinear, hasQcom;
      }
      if CountFormats(d) - e.offset < 64 && Shr(e.formats, CountFormats(d) - e.offset) != 0 {
        assert !EntryOk(ModifierAt(d, i), CountFormats(d));
        return false, hasLinear, hasQcom;
      }
      OffersStep(d, t, i, LINEAR);
      OffersStep(d, t, i, QCOM);
      if Covers(e, t) {
        if e.modifier == LINEAR {
          hasLinear := true;
        } else if e.modifier == QCOM {
          hasQcom := true;
        }
      }
    }
    return true, hasLinear, hasQcom;
  }

  /** One of the first `n` modifiers is this one and covers format `t`. */
  ghost predicate OffersAt(d: seq<Byte>, t: nat, n: nat, modifier: nat)
    requires Readable(d) && n <= CountModifiers(d)
  {
    exists m :: 0 <= m < n && ModifierAt(d, m).modifier == modifier && Covers(ModifierAt(d, m), t)
  }

  lemma OffersStep(d: seq<Byte>, t: nat, n: nat, modifier: nat)
    requires Readable(d) && n < CountModifiers(d)
    ensures OffersAt(d, t, n + 1, modifier) <==>
            OffersAt(d, t, n, modifier) || (ModifierAt(d, n).modifier == modifier && Covers(ModifierAt(d, n), t))
  {
    hide U32, ModifierAt, Covers;
  }

  lemma OffersIsDenotes(d: seq<Byte>, t: nat, modifier: nat)
    requires Readable(d) && OnlyXb24(d, t)
    ensures OffersAt(d, t, CountModifiers(d), modifier) <==> Denotes(d, XB24, modifier)
  {
    hide U32, ModifierAt, Covers, FormatAt;
    if OffersAt(d, t, CountModifiers(d), modifier) {
      var m: nat :| m < CountModifiers(d) && ModifierAt(d, m).modifier == modifier && Covers(ModifierAt(d, m), t);
      assert PairAt(d, t, m, XB24, modifier);
    }
  }

  /** `android_drm_blob_append_xb24_qcom`. */
  method Append(d: seq<Byte>) returns (r: Option<seq<Byte>>)
    requires |d| <= MAX_SIZE
    ensures r.Some? <==> Appendable(d)
    ensures r.Some? ==> exists t: nat :: OnlyXb24(d, t) && r.value == Appended(d, t)
  {
    hide U32, Denotes, Appended, ModifierAt, FormatAt;
    var ok := CheckHeader(d);
    if !ok { return None; }
    var target := FindTarget(d);
    if target.None? { return None; }
    var t := target.value;
    var hasLinear, hasQcom;
    ok, hasLinear, hasQcom := ScanModifiers(d, t);
    if !ok { return None; }
    OffersIsDenotes(d, t, LINEAR);
    OffersIsDenotes(d, t, QCOM);
    if !hasLinear || hasQcom || |d| > MAX_SIZE - ENTRY { return None; }
    return Some(Appended(d, t));
  }

  /** The whole effect of an accepted append, in terms of what the bytes say. */
  lemma AppendIsExact(d: seq<Byte>, d': seq<Byte>, t: nat)
    requires Appendable(d) && OnlyXb24(d, t) && d' == Appended(d, t)
    ensures WellFormed(d') && !Appendable(d')
    ensures forall fourcc, modifier ::
              Denotes(d', fourcc, modifier) <==> Denotes(d, fourcc, modifier) || (fourcc == XB24 && modifier == QCOM)
  {
    hide U32, Denotes, Appended, ModifierAt, FormatAt, Covers, EntryOk;
    AppendedIsWellFormed(d, t);
    AppendOnce(d, t);
    forall fourcc, modifier
      ensures Denotes(d', fourcc, modifier) <==> Denotes(d, fourcc, modifier) || (fourcc == XB24 && modifier == QCOM)
    {
      AppendedDenotes(d, t, fourcc, modifier);
    }
  }

  // ---------- the strict blobs ----------

  /** Header and format table of a strict blob with `n` modifiers. */
  function StrictHead(n: Byte): (s: seq<Byte>)
    ensures |s| == 32
  {
    [1, 0, 0, 0, 0, 0, 0, 0, 1, 0, 0, 0, 24, 0, 0, 0, n, 0, 0, 0, 32, 0, 0, 0, 0x58, 0x42, 0x32, 0x34, 0, 0, 0, 0]
  }

  function StrictQcom(): (s: seq<Byte>)
    ensures |s| == 56
  {
    StrictHead(1) + Encoded(1, 0, QCOM)
  }

  function StrictQcomLinear(): (s: seq<Byte>)
    ensures |s| == 80
  {
    StrictHead(2) + Encoded(1, 0, QCOM) + Encoded(1, 0, LINEAR)
  }

  /** The header fields of a strict blob. */
  predicate StrictShape(d: seq<Byte>, n: nat) {
    && |d| == 32 + ENTRY * n
    && U32(d, 0) == 1 && U32(d, 4) == 0 && U32(d, 8) == 1 && U32(d, 12) == 24 && U32(d, 16) == n && U32(d, 20) == 32
    && U32(d, 24) == XB24
  }

  lemma StrictFields(n: Byte, rest: seq<Byte>)
    requires |rest| == ENTRY * n
    ensures StrictShape(StrictHead(n) + rest, n)
  {
    var head := StrictHead(n);
    var d := head + rest;
    assert d[0..28] == head[0..28];
    HeadMoves(head, rest, 0);
    HeadMoves(head, rest, 4);
    HeadMoves(head, rest, 8);
    HeadMoves(head, rest, 12);
    HeadMoves(head, rest, 16);
    HeadMoves(head, rest, 20);
    HeadMoves(head, rest, 24);
  }

  lemma HeadMoves(head: seq<Byte>, rest: seq<Byte>, at: nat)
    requires at + 4 <= |head|
    ensures U32(head + rest, at) == U32(head, at)
  {
    hide U32;
    assert (head + rest)[at..at + 4] == head[at..at + 4];
    U32Moved(head + rest, at, head, at);
  }

  /** A strict entry covers the only format. */
  lemma StrictCovers(modifier: nat)
    ensures Covers(Modifier(1, 0, 0, modifier), 0) && EntryOk(Modifier(1, 0, 0, modifier), 1)
  {
    assert Shr(1, 0) == 1 && Shr(1, 1) == Shr(0, 0) == 0;
  }

  lemma OneEntryDenotes(d: seq<Byte>, fourcc: nat, modifier: nat)
    requires StrictShape(d, 1) && EntryBytes(d, 32) == Modifier(1, 0, 0, QCOM)
    ensures WellFormed(d)
    ensures Denotes(d, fourcc, modifier) <==> fourcc == XB24 && modifier == QCOM
  {
    hide U32, EntryBytes, Covers, EntryOk;
    StrictCovers(QCOM);
    assert Framed(d);
    if fourcc == XB24 && modifier == QCOM {
      assert PairAt(d, 0, 0, fourcc, modifier);
    }
  }

  lemma TwoEntriesDenote(d: seq<Byte>, fourcc: nat, modifier: nat)
    requires StrictShape(d, 2)
    requires EntryBytes(d, 32) == Modifier(1, 0, 0, QCOM) && EntryBytes(d, 56) == Modifier(1, 0, 0, LINEAR)
    ensures WellFormed(d)
    ensures Denotes(d, fourcc, modifier) <==> fourcc == XB24 && (modifier == QCOM || modifier == LINEAR)
  {
    hide U32, EntryBytes, Covers, EntryOk;
    StrictCovers(QCOM);
    StrictCovers(LINEAR);
    assert Framed(d);
    assert ModifierAt(d, 0) == EntryBytes(d, 32) && ModifierAt(d, 1) == EntryBytes(d, 56);
    if fourcc == XB24 && modifier == QCOM {
      assert PairAt(d, 0, 0, fourcc, modifier);
    }
    if fourcc == XB24 && modifier == LINEAR {
      assert PairAt(d, 0, 1, fourcc, modifier);
    }
  }

  /** With one entry: exactly (XB24, QCOM). */
  lemma StrictQcomDenotes(fourcc: nat, modifier: nat)
    ensures WellFormed(StrictQcom())
    ensures Denotes(StrictQcom(), fourcc, modifier) <==> fourcc == XB24 && modifier == QCOM
  {
    hide StrictShape, EntryBytes, WellFormed, Denotes, Encoded, StrictHead;
    var head, first := StrictHead(1), Encoded(1, 0, QCOM);
    StrictFields(1, first);
    EntryOfFields(head, 1, 0, QCOM, []);
    assert head + first + [] == head + first;
    OneEntryDenotes(StrictQcom(), fourcc, modifier);
  }

  /** With two: exactly (XB24, QCOM) and (XB24, LINEAR). */
  lemma StrictQcomLinearDenotes(fourcc: nat, modifier: nat)
    ensures WellFormed(StrictQcomLinear())
    ensures Denotes(StrictQcomLinear(), fourcc, modifier) <==> fourcc == XB24 && (modifier == QCOM || modifier == LINEAR)
  {
    hide StrictShape, EntryBytes, WellFormed, Denotes, Encoded, StrictHead;
    var head, first, second := StrictHead(2), Encoded(1, 0, QCOM), Encoded(1, 0, LINEAR);
    StrictFields(2, first + second);
    EntryOfFields(head, 1, 0, QCOM, second);
    EntryOfFields(head + first, 1, 0, LINEAR, []);
    assert head + (first + second) == head + first + second == head + first + second + [];
    TwoEntriesDenote(StrictQcomLinear(), fourcc, modifier);
  }

  /** `build_strict_xb24_qcom_blob` and its sibling: a blob is built exactly for the sources the append accepts. */
  method BuildStrict(d: seq<Byte>, linear: bool) returns (r: Option<seq<Byte>>)
    requires |d| <= MAX_SIZE
    ensures r.Some? <==> Appendable(d)
    ensures r.Some? ==> r.value == if linear then StrictQcomLinear() else StrictQcom()
  {
    hide Appendable, Appended, StrictQcom, StrictQcomLinear;
    var validated := Append(d);
    if validated.None? { return None; }
    return Some(if linear then StrictQcomLinear() else StrictQcom());
  }

  /** Whatever a strict blob offers the appended source offers too. */
  lemma StrictIsSubset(d: seq<Byte>, t: nat, linear: bool, fourcc: nat, modifier: nat)
    requires Appendable(d) && OnlyXb24(d, t)
    requires if linear then WellFormed(StrictQcomLinear()) && Denotes(StrictQcomLinear(), fourcc, modifier)
             else WellFormed(StrictQcom()) && Denotes(StrictQcom(), fourcc, modifier)
    ensures WellFormed(Appended(d, t)) && Denotes(Appended(d, t), fourcc, modifier)
  {
    hide U32, Denotes, Appended, StrictQcom, StrictQcomLinear, ModifierAt, FormatAt, EntryOk;
    AppendedIsWellFormed(d, t);
    AppendedDenotes(d, t, fourcc, modifier);
    StrictQcomDenotes(fourcc, modifier);
    StrictQcomLinearDenotes(fourcc, modifier);
  }

  // ---------- listing ----------

  datatype Source = InFormatsBlob | QcomCandidate

  datatype Pair = Pair(fourcc: nat, modifier: nat)

  datatype Listed = Listed(pair: Pair, sources: set<Source>)

  datatype Listing = Entries(entries: seq<Listed>) | Malformed | TooMany | Empty

  ghost predicate NoRepeats(es: seq<Listed>) {
    forall i, j :: 0 <= i < j < |es| ==> es[i].pair != es[j].pair
  }

  ghost predicate Holds(es: seq<Listed>, p: Pair) {
    exists i :: 0 <= i < |es| && es[i].pair == p
  }

  /** `add_format_entry`: one entry a pair, with the union of where it was seen. */
  method AddEntry(es: seq<Listed>, p: Pair, source: Source) returns (r: Option<seq<Listed>>)
    requires NoRepeats(es) && |es| <= MAX_PAIRS
    ensures r.None? <==> !Holds(es, p) && |es| == MAX_PAIRS
    ensures r.Some? ==> NoRepeats(r.value) && |r.value| <= MAX_PAIRS && |es| <= |r.value|
    ensures r.Some? ==> forall q :: Holds(r.value, q) <==> Holds(es, q) || q == p
    ensures r.Some? ==> forall i :: 0 <= i < |es| ==>
              r.value[i] == if es[i].pair == p then es[i].(sources := es[i].sources + {source}) else es[i]
    ensures r.Some? && !Holds(es, p) ==> r.value == es + [Listed(p, {source})]
  {
    for i := 0 to |es|
      invariant forall k :: 0 <= k < i ==> es[k].pair != p
    {
      if es[i].pair == p {
        var es' := es[i := es[i].(sources := es[i].sources + {source})];
        forall q ensures Holds(es', q) <==> Holds(es, q) || q == p {
          SamePairs(es, es', q);
        }
        return Some(es');
      }
    }
    if |es| >= MAX_PAIRS { return None; }
    var es' := es + [Listed(p, {source})];
    forall q ensures Holds(es', q) <==> Holds(es, q) || q == p {
      HoldsSnoc(es, Listed(p, {source}), q);
    }
    return Some(es');
  }

  lemma SamePairs(a: seq<Listed>, b: seq<Listed>, q: Pair)
    requires |a| == |b| && forall i :: 0 <= i < |a| ==> a[i].pair == b[i].pair
    ensures Holds(a, q) <==> Holds(b, q)
  {
    if Holds(a, q) {
      var i :| 0 <= i < |a| && a[i].pair == q;
      assert b[i].pair == q;
    }
  }

  lemma HoldsSnoc(es: seq<Listed>, e: Listed, q: Pair)
    ensures Holds(es + [e], q) <==> Holds(es, q) || q == e.pair
  {
    var all := es + [e];
    assert all[|es|] == e;
    assert forall i :: 0 <= i < |es| ==> all[i] == es[i];
  }

  /** What the listing promises: every format with no modifier in particular, and every pair denoted. */
  ghost predicate Wanted(d: seq<Byte>, p: Pair)
    requires Readable(d)
  {
    (p.modifier == INVALID_MODIFIER && Lists(d, p.fourcc)) || Denotes(d, p.fourcc, p.modifier)
  }

  /** No format code is zero, no padding is set and no mask bit points past the formats. */
  ghost predicate Clean(d: seq<Byte>) {
    && Readable(d)
    && (forall f :: 0 <= f < CountFormats(d) ==> FormatAt(d, f) != 0)
    && (forall m :: 0 <= m < CountModifiers(d) ==> CleanEntry(ModifierAt(d, m), CountFormats(d), 64))
  }

  /** The first `n` bits of the mask stay within the formats. */
  ghost predicate CleanEntry(e: Modifier, formats: nat, n: nat) {
    e.pad == 0 && forall b :: 0 <= b < n && Bit(e.formats, b) ==> e.offset + b < formats
  }

  /** More distinct pairs are wanted than the table holds. */
  ghost predicate Overfull(d: seq<Byte>)
    requires Readable(d)
  {
    exists es :: NoRepeats(es) && |es| > MAX_PAIRS && AllWanted(d, es)
  }

  ghost predicate AllWanted(d: seq<Byte>, es: seq<Listed>)
    requires Readable(d)
  {
    forall i :: 0 <= i < |es| ==> Wanted(d, es[i].pair)
  }

  ghost predicate ListedBy(d: seq<Byte>, n: nat, p: Pair)
    requires Readable(d) && n <= CountFormats(d)
  {
    exists f :: 0 <= f < n && p == Pair(FormatAt(d, f), INVALID_MODIFIER)
  }

  /** The pair comes from one of the first `n` bits of entry `m`. */
  ghost predicate FromEntry(d: seq<Byte>, m: nat, n: nat, p: Pair)
    requires Readable(d) && m < CountModifiers(d)
  {
    var e := ModifierAt(d, m);
    exists b :: 0 <= b < n && Bit(e.formats, b) && e.offset + b < CountFormats(d) &&
                p == Pair(FormatAt(d, e.offset + b), e.modifier)
  }

  ghost predicate DenotedBy(d: seq<Byte>, n: nat, p: Pair)
    requires Readable(d) && n <= CountModifiers(d)
  {
    exists m :: 0 <= m < n && FromEntry(d, m, 64, p)
  }

  lemma DenotedByAll(d: seq<Byte>, p: Pair)
    requires Readable(d)
    ensures DenotedBy(d, CountModifiers(d), p) <==> Denotes(d, p.fourcc, p.modifier)
  {
    hide U32, ModifierAt, FormatAt, Bit;
    if DenotedBy(d, CountModifiers(d), p) {
      var m :| 0 <= m < CountModifiers(d) && FromEntry(d, m, 64, p);
      var e := ModifierAt(d, m);
      var b :| 0 <= b < 64 && Bit(e.formats, b) && e.offset + b < CountFormats(d) && p == Pair(FormatAt(d, e.offset + b), e.modifier);
      assert e.offset + b - e.offset == b;
      assert PairAt(d, e.offset + b, m, p.fourcc, p.modifier);
    }
    if Denotes(d, p.fourcc, p.modifier) {
      var f: nat, m: nat :| PairAt(d, f, m, p.fourcc, p.modifier);
      var e := ModifierAt(d, m);
      var b := f - e.offset;
      assert e.offset + b == f && Bit(e.formats, b);
      assert FromEntry(d, m, 64, p);
    }
  }

  lemma ListedByAll(d: seq<Byte>, p: Pair)
    requires Readable(d)
    ensures ListedBy(d, CountFormats(d), p) <==> p.modifier == INVALID_MODIFIER && Lists(d, p.fourcc)
  {
    hide U32, FormatAt;
  }

  lemma FromEntryStep(d: seq<Byte>, m: nat, n: nat, p: Pair)
    requires Readable(d) && m < CountModifiers(d)
    ensures var e := ModifierAt(d, m);
            FromEntry(d, m, n + 1, p) <==>
            FromEntry(d, m, n, p) ||
            (Bit(e.formats, n) && e.offset + n < CountFormats(d) && p == Pair(FormatAt(d, e.offset + n), e.modifier))
  {
    hide U32, ModifierAt, FormatAt, Bit;
  }

  lemma DenotedByStep(d: seq<Byte>, n: nat, p: Pair)
    requires Readable(d) && n < CountModifiers(d)
    ensures DenotedBy(d, n + 1, p) <==> DenotedBy(d, n, p) || FromEntry(d, n, 64, p)
  {
    hide U32, FromEntry;
  }

  lemma TooManyPairs(d: seq<Byte>, es: seq<Listed>, p: Pair)
    requires Readable(d) && NoRepeats(es) && |es| == MAX_PAIRS && !Holds(es, p)
    requires Wanted(d, p) && forall q :: Holds(es, q) ==> Wanted(d, q)
    ensures Overfull(d)
  {
    hide U32, Wanted;
    var all := es + [Listed(p, {})];
    forall i | 0 <= i < |all| ensures Wanted(d, all[i].pair) {
      if i < |es| {
        assert all[i] == es[i] && Holds(es, es[i].pair);
      }
    }
    forall i, j | 0 <= i < j < |all| ensures all[i].pair != all[j].pair {
      assert all[i] == es[i] && Holds(es, es[i].pair);
    }
    assert NoRepeats(all) && AllWanted(d, all);
  }

  /** The first loop of `parse_in_formats_blob`. */
  method ListFormats(d: seq<Byte>) returns (r: Listing)
    requires Readable(d)
    ensures r.Entries? ==> NoRepeats(r.entries) && |r.entries| <= MAX_PAIRS
    ensures r.Entries? ==> forall p :: Holds(r.entries, p) <==> ListedBy(d, CountFormats(d), p)
    ensures r.Entries? ==> forall f :: 0 <= f < CountFormats(d) ==> FormatAt(d, f) != 0
    ensures r == Malformed ==> !Clean(d)
    ensures r == TooMany ==> Overfull(d)
    ensures r != Empty
  {
    hide U32, FormatAt, Holds, Overfull, Denotes;
    var es: seq<Listed> := [];
    EmptyHolds();
    for f := 0 to CountFormats(d)
      invariant NoRepeats(es) && |es| <= MAX_PAIRS
      invariant forall p :: Holds(es, p) <==> ListedBy(d, f, p)
      invariant forall k :: 0 <= k < f ==> FormatAt(d, k) != 0
    {
      var fourcc := FormatAt(d, f);
      if fourcc == 0 { return Malformed; }
      var p := Pair(fourcc, INVALID_MODIFIER);
      var added := AddEntry(es, p, InFormatsBlob);
      if added.None? {
        TooManyPairs(d, es, p);
        return TooMany;
      }
      es := added.value;
    }
    return Entries(es);
  }

  lemma EmptyHolds()
    ensures forall p :: !Holds([], p)
  {
  }

  /** The bits of one modifier entry. */
  method ListEntry(d: seq<Byte>, m: nat, before: seq<Listed>) returns (r: Listing)
    requires Readable(d) && m < CountModifiers(d) && NoRepeats(before) && |before| <= MAX_PAIRS
    requires forall q :: Holds(before, q) ==> Wanted(d, q)
    requires forall f :: 0 <= f < CountFormats(d) ==> FormatAt(d, f) != 0
    ensures r.Entries? ==> NoRepeats(r.entries) && |r.entries| <= MAX_PAIRS
    ensures r.Entries? ==> forall p :: Holds(r.entries, p) <==> Holds(before, p) || FromEntry(d, m, 64, p)
    ensures r.Entries? ==> CleanEntry(ModifierAt(d, m), CountFormats(d), 64)
    ensures r == Malformed ==> !CleanEntry(ModifierAt(d, m), CountFormats(d), 64)
    ensures r == TooMany ==> Overfull(d)
    ensures r != Empty
  {
    hide U32, FormatAt, ModifierAt, Holds, Overfull, Denotes, Wanted, FromEntry, Bit;
    var e := ModifierAt(d, m);
    if e.pad != 0 { return Malformed; }
    var es := before;
    NoneFromEntry(d, m);
    for bit := 0 to 64
      invariant NoRepeats(es) && |es| <= MAX_PAIRS
      invariant forall p :: Holds(es, p) <==> Holds(before, p) || FromEntry(d, m, bit, p)
      invariant CleanEntry(e, CountFormats(d), bit)
    {
      forall p ensures FromEntry(d, m, bit + 1, p) <==>
                       FromEntry(d, m, bit, p) ||
                       (Bit(e.formats, bit) && e.offset + bit < CountFormats(d) && p == Pair(FormatAt(d, e.offset + bit), e.modifier))
      {
        FromEntryStep(d, m, bit, p);
      }
      if Bit(e.formats, bit) {
        if e.offset + bit >= CountFormats(d) { return Malformed; }
        var p := Pair(FormatAt(d, e.offset + bit), e.modifier);
        var added := AddEntry(es, p, InFormatsBlob);
        if added.None? {
          forall q | Holds(es, q) || q == p ensures Wanted(d, q) {
            EntryIsWanted(d, m, bit + 1, q);
          }
          TooManyPairs(d, es, p);
          return TooMany;
        }
        es := added.value;
      }
    }
    return Entries(es);
  }

  lemma NoneFromEntry(d: seq<Byte>, m: nat)
    requires Readable(d) && m < CountModifiers(d)
    ensures forall p :: !FromEntry(d, m, 0, p)
  {
  }

  lemma EntryIsWanted(d: seq<Byte>, m: nat, n: nat, p: Pair)
    requires Readable(d) && m < CountModifiers(d) && n <= 64
    ensures FromEntry(d, m, n, p) ==> Wanted(d, p)
  {
    hide U32, FormatAt, ModifierAt, Denotes, Bit;
    if FromEntry(d, m, n, p) {
      assert FromEntry(d, m, 64, p);
      DenotedByAll(d, p);
    }
  }

  /** `parse_in_formats_blob`. */
  method ListBlob(d: seq<Byte>) returns (r: Listing)
    ensures r.Entries? ==> Clean(d) && NoRepeats(r.entries) && 0 < |r.entries| <= MAX_PAIRS
    ensures r.Entries? ==> forall p :: Holds(r.entries, p) <==> Wanted(d, p)
    ensures r == Malformed ==> !Clean(d)
    ensures r == TooMany ==> Readable(d) && Overfull(d)
    ensures r == Empty ==> Clean(d) && forall p :: !Wanted(d, p)
  {
    hide U32, FormatAt, ModifierAt, Holds, Overfull, Denotes, FromEntry, Lists, CleanEntry;
    if !Readable(d) { return Malformed; }
    var listed := ListFormats(d);
    if !listed.Entries? { return listed; }
    var es := listed.entries;
    NoneDenoted(d);
    for m := 0 to CountModifiers(d)
      invariant NoRepeats(es) && |es| <= MAX_PAIRS
      invariant forall p :: Holds(es, p) <==> ListedBy(d, CountFormats(d), p) || DenotedBy(d, m, p)
      invariant forall k :: 0 <= k < m ==> CleanEntry(ModifierAt(d, k), CountFormats(d), 64)
    {
      forall p | Holds(es, p) ensures Wanted(d, p) {
        PartIsWanted(d, m, p);
      }
      var more := ListEntry(d, m, es);
      if !more.Entries? { return more; }
      forall p ensures DenotedBy(d, m + 1, p) <==> DenotedBy(d, m, p) || FromEntry(d, m, 64, p) {
        DenotedByStep(d, m, p);
      }
      es := more.entries;
    }
    forall p ensures Holds(es, p) <==> Wanted(d, p) {
      DenotedByAll(d, p);
      ListedByAll(d, p);
    }
    if |es| == 0 {
      EmptyHolds();
      return Empty;
    }
    return Entries(es);
  }

  lemma NoneDenoted(d: seq<Byte>)
    requires Readable(d)
    ensures forall p :: !DenotedBy(d, 0, p)
  {
  }

  lemma PartIsWanted(d: seq<Byte>, n: nat, p: Pair)
    requires Readable(d) && n <= CountModifiers(d)
    requires ListedBy(d, CountFormats(d), p) || DenotedBy(d, n, p)
    ensures Wanted(d, p)
  {
    hide U32, FormatAt, ModifierAt, Denotes, FromEntry, Lists;
    ListedByAll(d, p);
    if DenotedBy(d, n, p) {
      assert DenotedBy(d, CountModifiers(d), p);
      DenotedByAll(d, p);
    }
  }
}
