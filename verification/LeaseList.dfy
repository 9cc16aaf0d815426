/**
  The list of leased DRM objects: printed in decimal by src/broker/drm_lease_client.c into a fixed buffer, handed over
  in the environment, parsed by src/seat/drm_lease_seat.c and compared as a set by src/bridge/android_drm_bridge.c.
 */
module LeaseList {
  import opened Bits

  const TEXT_BYTES: nat := 768
  const CLIENT_OBJECTS: nat := 64
  const MAX_OBJECTS: nat := 256
  const MAX_U32: nat := 0xFFFF_FFFF

  // ---------- decimal numbers ----------

  predicate IsDigit(c: char) {
    '0' <= c <= '9'
  }

  function Digit(c: char): nat
    requires IsDigit(c)
  {
    c as int - '0' as int
  }

  predicate AllDigits(t: string) {
    forall i :: 0 <= i < |t| ==> IsDigit(t[i])
  }

  function Number(t: string): nat
    requires AllDigits(t)
  {
    if t == "" then 0 else 10 * Number(t[..|t| - 1]) + Digit(t[|t| - 1])
  }

  function Decimal(n: nat): (t: string)
    ensures t != "" && AllDigits(t)
  {
    var last := [(n % 10 + '0' as int) as char];
    if n < 10 then last else Decimal(n / 10) + last
  }

  lemma {:induction false} NumberOfDecimal(n: nat)
    ensures Number(Decimal(n)) == n
  {
    if n >= 10 {
      NumberOfDecimal(n / 10);
      assert Decimal(n)[..|Decimal(n)| - 1] == Decimal(n / 10);
    }
  }

  lemma {:induction false} DecimalLength(n: nat, bound: nat, digits: nat)
    requires n < bound && bound == Pow10(digits) && digits > 0
    ensures |Decimal(n)| <= digits
  {
    if n >= 10 {
      DecimalLength(n / 10, Pow10(digits - 1), digits - 1);
    }
  }

  function Pow10(k: nat): nat {
    if k == 0 then 1 else 10 * Pow10(k - 1)
  }

  lemma {:induction false} Pow10Positive(k: nat)
    ensures Pow10(k) > 0
  {
    if k > 0 { Pow10Positive(k - 1); }
  }

  lemma DivisionNests(n: nat, m: nat)
    requires m > 0
    ensures n / 10 / m == n / (10 * m)
  {
    var q, r := n / (10 * m), n % (10 * m);
    assert n == 10 * (m * q) + r;
    assert n / 10 == m * q + r / 10;
    var d: int := n / 10 / m - q;
    assert m * d == m * (n / 10 / m) - m * q;
    Multiple(m, d);
  }

  /** The printed digits: at each place the one that stands there, and none in front of the first that counts. */
  lemma {:induction false} DecimalDigits(n: nat, k: nat)
    requires k < |Decimal(n)|
    ensures Pow10(k) > 0 && Decimal(n)[|Decimal(n)| - 1 - k] == "0123456789"[n / Pow10(k) % 10]
    ensures n > 0 ==> n / Pow10(k) > 0
  {
    Pow10Positive(k);
    if k > 0 {
      DecimalDigits(n / 10, k - 1);
      DivisionNests(n, Pow10(k - 1));
    }
  }

  lemma U32Length(n: nat)
    requires n <= MAX_U32
    ensures |Decimal(n)| <= 10
  {
    assert Pow10(5) == 100_000 && Pow10(10) == 10_000_000_000;
    DecimalLength(n, Pow10(10), 10);
  }

  /** The number of digits a text starts with. */
  function Span(t: string): (n: nat)
    ensures n <= |t| && AllDigits(t[..n]) && (n < |t| ==> !IsDigit(t[n]))
  {
    if t == "" || !IsDigit(t[0]) then 0
    else
      var n := Span(t[1..]);
      assert forall i :: 1 <= i < n + 1 ==> t[i] == t[1..][..n][i - 1];
      n + 1
  }

  lemma {:induction false} SpanIs(t: string, n: nat)
    requires n <= |t| && AllDigits(t[..n]) && (n < |t| ==> !IsDigit(t[n]))
    ensures Span(t) == n
  {
    if n > 0 {
      assert t[..n][0] == t[0];
      var rest := t[1..][..n - 1];
      forall i | 0 <= i < |rest| ensures IsDigit(rest[i]) {
        assert rest[i] == t[..n][i + 1];
      }
      SpanIs(t[1..], n - 1);
    }
  }

  lemma NumberPrefix(t: string, i: nat)
    requires AllDigits(t) && i < |t|
    ensures AllDigits(t[..i]) && AllDigits(t[..i + 1])
    ensures Number(t[..i + 1]) == 10 * Number(t[..i]) + Digit(t[i])
  {
    assert t[..i + 1][..i] == t[..i];
  }

  lemma {:induction false} NumberGrows(t: string, i: nat)
    requires AllDigits(t) && i <= |t|
    ensures AllDigits(t[..i]) && Number(t[..i]) <= Number(t)
    decreases |t| - i
  {
    if i == |t| {
      assert t[..i] == t;
    } else {
      NumberPrefix(t, i);
      NumberGrows(t, i + 1);
    }
  }

  datatype Parsed = Invalid | OutOfRange | Parsed(value: nat, end: nat)

  /** `parse_decimal`: the digits at the start, refused exactly when they denote more than the maximum. */
  method ParseDecimal(text: string, maximum: nat) returns (r: Parsed)
    requires maximum >= 9
    ensures r == Invalid <==> text == "" || text[0] == '+' || text[0] == '-'
    ensures r == OutOfRange <==> Number(text[..Span(text)]) > maximum
    ensures r.Parsed? ==> r.end == Span(text) && r.value == Number(text[..Span(text)])
  {
    if text == "" || text[0] == '+' || text[0] == '-' {
      assert text[..0] == "";
      return Invalid;
    }
    ghost var n := Span(text);
    ghost var digits := text[..n];
    var cursor, value := 0, 0;
    while cursor < |text| && IsDigit(text[cursor])
      invariant cursor <= n
      invariant value == Number(digits[..cursor]) <= maximum
    {
      assert digits[cursor] == text[cursor];
      NumberPrefix(digits, cursor);
      NumberGrows(digits, cursor + 1);
      var digit := Digit(text[cursor]);
      if value > (maximum - digit) / 10 {
        return OutOfRange;
      }
      value := value * 10 + digit;
      cursor := cursor + 1;
    }
    assert cursor == n && digits[..cursor] == digits;
    return Parsed(value, cursor);
  }

  // ---------- printing ----------

  /** The ids in decimal, separated by commas. */
  function Joined(ids: seq<nat>): string {
    if ids == [] then ""
    else if |ids| == 1 then Decimal(ids[0])
    else Decimal(ids[0]) + "," + Joined(ids[1..])
  }

  function Item(ids: seq<nat>, i: nat): string
    requires i < |ids|
  {
    (if i == 0 then "" else ",") + Decimal(ids[i])
  }

  lemma {:induction false} JoinedSnoc(ids: seq<nat>, i: nat)
    requires i < |ids|
    ensures Joined(ids[..i + 1]) == Joined(ids[..i]) + Item(ids, i)
  {
    if i == 0 {
      assert ids[..1] == [ids[0]] && ids[..0] == [];
    } else {
      var rest := ids[1..];
      JoinedSnoc(rest, i - 1);
      assert ids[..i + 1][1..] == rest[..i] && ids[..i][1..] == rest[..i - 1];
      if i == 1 {
        assert rest[..0] == [] && ids[..1] == [ids[0]];
      }
    }
  }

  lemma {:induction false} JoinedGrows(ids: seq<nat>, i: nat)
    requires i <= |ids|
    ensures |Joined(ids[..i])| <= |Joined(ids)|
    decreases |ids| - i
  {
    if i == |ids| {
      assert ids[..i] == ids;
    } else {
      JoinedSnoc(ids, i);
      JoinedGrows(ids, i + 1);
    }
  }

  /** The printing loop of the client: it succeeds exactly when the text and its terminator fit. */
  method PrintObjects(ids: seq<nat>) returns (ok: bool, text: string)
    ensures ok <==> |Joined(ids)| < TEXT_BYTES
    ensures ok ==> text == Joined(ids)
  {
    text := "";
    var i := 0;
    assert ids[..0] == [];
    while i < |ids|
      invariant i <= |ids| && text == Joined(ids[..i]) && |text| < TEXT_BYTES
    {
      JoinedSnoc(ids, i);
      JoinedGrows(ids, i + 1);
      var written := Item(ids, i);
      if |written| >= TEXT_BYTES - |text| {
        return false, text;
      }
      text := text + written;
      i := i + 1;
    }
    assert ids[..i] == ids;
    return true, text;
  }

  predicate AllU32(ids: seq<nat>) {
    forall i :: 0 <= i < |ids| ==> ids[i] <= MAX_U32
  }

  lemma {:induction false} JoinedLength(ids: seq<nat>)
    requires AllU32(ids)
    ensures |Joined(ids)| <= 11 * |ids|
  {
    if ids != [] {
      U32Length(ids[0]);
      JoinedLength(ids[1..]);
    }
  }

  // ---------- parsing ----------

  /** What the seat makes of the text from some item on, given the ids before it. */
  function Objects(text: string, seen: seq<nat>): Option<seq<nat>>
    decreases |text|
  {
    if text == "" || !IsDigit(text[0]) || |seen| >= MAX_OBJECTS then None
    else
      var n := Span(text);
      var value := Number(text[..n]);
      if value > MAX_U32 || value == 0 || value in seen then None
      else if n == |text| then Some(seen + [value])
      else if text[n] != ',' then None
      else Objects(text[n + 1..], seen + [value])
  }

  /** One step of reading, spelled out. */
  lemma ObjectsStep(text: string, seen: seq<nat>, n: nat, value: nat)
    requires text != "" && n == Span(text) && value == Number(text[..n])
    ensures !IsDigit(text[0]) || |seen| >= MAX_OBJECTS || value > MAX_U32 || value == 0 || value in seen ==> Objects(text, seen) == None
    ensures IsDigit(text[0]) && |seen| < MAX_OBJECTS && 0 < value <= MAX_U32 && value !in seen ==>
              Objects(text, seen) ==
              if n == |text| then Some(seen + [value])
              else if text[n] != ',' then None else Objects(text[n + 1..], seen + [value])
    ensures Objects("", seen) == None
  {
  }

  /** `parse_expected_objects`. */
  method ParseObjects(text: string) returns (r: Option<seq<nat>>)
    ensures r == Objects(text, [])
  {
    hide Number, Span;
    if text == "" {
      return None;
    }
    hide Objects;
    var objects: seq<nat> := [];
    var cursor := 0;
    assert text[0..] == text;
    while true
      invariant cursor < |text| && Objects(text[cursor..], objects) == Objects(text, [])
      decreases |text| - cursor
    {
      var item := text[cursor..];
      ObjectsStep(item, objects, Span(item), Number(item[..Span(item)]));
      if !IsDigit(item[0]) || |objects| >= MAX_OBJECTS {
        return None;
      }
      var parsed := ParseDecimal(item, MAX_U32);
      if parsed.OutOfRange? {
        return None;
      }
      SpanPositive(item);
      if parsed.value == 0 {
        return None;
      }
      var known := Contains(objects, parsed.value);
      if known {
        return None;
      }
      var end := cursor + parsed.end;
      if end == |text| {
        return Some(objects + [parsed.value]);
      }
      if text[end] != ',' {
        return None;
      }
      assert text[end + 1..] == item[parsed.end + 1..];
      objects := objects + [parsed.value];
      cursor := end + 1;
      if cursor == |text| {
        return None;
      }
    }
  }

  lemma SpanPositive(t: string)
    requires t != "" && IsDigit(t[0])
    ensures Span(t) > 0
  {
  }

  method Contains(values: seq<nat>, x: nat) returns (found: bool)
    ensures found <==> x in values
  {
    for i := 0 to |values|
      invariant x !in values[..i]
    {
      if values[i] == x {
        return true;
      }
      assert values[..i + 1] == values[..i] + [values[i]];
    }
    assert values[..|values|] == values;
    return false;
  }

  // ---------- the round trip ----------

  ghost predicate Distinct(ids: seq<nat>) {
    && (forall i :: 0 <= i < |ids| ==> ids[i] != 0)
    && (forall i, j :: 0 <= i < j < |ids| ==> ids[i] != ids[j])
  }

  lemma DistinctSnoc(ids: seq<nat>, x: nat)
    requires Distinct(ids)
    ensures Distinct(ids + [x]) <==> x != 0 && x !in ids
  {
    var all := ids + [x];
    if Distinct(all) {
      assert all[|ids|] == x;
      forall i | 0 <= i < |ids| ensures ids[i] != x {
        assert all[i] == ids[i];
      }
    }
  }

  lemma DistinctPrefix(a: seq<nat>, b: seq<nat>)
    requires Distinct(a + b)
    ensures Distinct(a)
  {
    assert forall i :: 0 <= i < |a| ==> (a + b)[i] == a[i];
  }

  /** Items with a comma between any two. */
  function Commas(items: seq<string>): string {
    if items == [] then "" else if |items| == 1 then items[0] else items[0] + "," + Commas(items[1..])
  }

  /** Every item is one digit or more. */
  ghost predicate AreNumbers(items: seq<string>) {
    forall k :: 0 <= k < |items| ==> items[k] != "" && AllDigits(items[k])
  }

  ghost function Numbers(items: seq<string>): (r: seq<nat>)
    requires AreNumbers(items)
    ensures |r| == |items| && forall k :: 0 <= k < |r| ==> r[k] == Number(items[k])
  {
    seq(|items|, k requires 0 <= k < |items| => Number(items[k]))
  }

  /** What the seat requires of the ids. */
  ghost predicate Acceptable(ids: seq<nat>) {
    Distinct(ids) && AllU32(ids) && |ids| <= 256
  }

  lemma AcceptableSnoc(seen: seq<nat>, x: nat)
    requires Acceptable(seen)
    ensures Acceptable(seen + [x]) <==> x != 0 && x !in seen && x <= MAX_U32 && |seen| < 256
  {
    hide Distinct;
    DistinctSnoc(seen, x);
    var all := seen + [x];
    if AllU32(all) { assert all[|seen|] <= MAX_U32; }
  }

  lemma AcceptablePrefix(a: seq<nat>, b: seq<nat>)
    requires Acceptable(a + b)
    ensures Acceptable(a)
  {
    DistinctPrefix(a, b);
    assert forall i :: 0 <= i < |a| ==> (a + b)[i] == a[i];
  }

  lemma HeadOfItems(item: string, rest: string)
    requires item != "" && AllDigits(item) && (rest == "" || !IsDigit(rest[0]))
    ensures var t := item + rest; IsDigit(t[0]) && Span(t) == |item| && t[..|item|] == item
  {
    var t := item + rest;
    assert t[..|item|] == item;
    SpanIs(t, |item|);
  }

  /** Items are read as their numbers if these are acceptable after those seen, and refused otherwise. */
  lemma {:induction false} ObjectsOfItems(items: seq<string>, seen: seq<nat>)
    requires items != [] && AreNumbers(items) && Acceptable(seen)
    ensures Objects(Commas(items), seen) ==
            if Acceptable(seen + Numbers(items)) then Some(seen + Numbers(items)) else None
    decreases |items|
  {
    hide Distinct, AllU32, Number, Span;
    var x := Number(items[0]);
    var ids := Numbers(items);
    var tail := items[1..];
    var text := Commas(items);
    var rest := if |items| == 1 then "" else "," + Commas(tail);
    assert text == items[0] + rest;
    HeadOfItems(items[0], rest);
    AcceptableSnoc(seen, x);
    assert seen + ids == (seen + [x]) + Numbers(tail);
    ObjectsStep(text, seen, |items[0]|, x);
    hide Objects;
    if Acceptable(seen + ids) {
      AcceptablePrefix(seen + [x], Numbers(tail));
    }
    if |items| == 1 {
      assert seen + ids == seen + [x];
    } else {
      assert text[|items[0]| + 1..] == Commas(tail);
      if Acceptable(seen + [x]) { ObjectsOfItems(tail, seen + [x]); }
    }
  }

  /** Only texts of items are accepted. */
  lemma {:induction false} ItemsOfObjects(text: string, seen: seq<nat>) returns (items: seq<string>)
    requires Objects(text, seen).Some?
    ensures items != [] && AreNumbers(items) && text == Commas(items)
    decreases |text|
  {
    hide Number, Span;
    var n := Span(text);
    SpanPositive(text);
    var item := text[..n];
    if n == |text| {
      items := [item];
      assert text == item;
    } else {
      var tail := ItemsOfObjects(text[n + 1..], seen + [Number(item)]);
      items := [item] + tail;
      assert items[1..] == tail;
      assert text == item + "," + text[n + 1..];
    }
  }

  /** The seat reads exactly the texts of one to 256 distinct nonzero 32-bit numbers between commas, as those numbers. */
  lemma ObjectsExactly(text: string, ids: seq<nat>)
    ensures Objects(text, []) == Some(ids) <==>
            Acceptable(ids) && exists items :: items != [] && AreNumbers(items) && text == Commas(items) && ids == Numbers(items)
  {
    hide Objects, Acceptable;
    NothingIsAcceptable();
    if Objects(text, []) == Some(ids) {
      var items := ItemsOfObjects(text, []);
      ObjectsOfItems(items, []);
      assert [] + Numbers(items) == Numbers(items);
    }
    if items :| Acceptable(ids) && items != [] && AreNumbers(items) && text == Commas(items) && ids == Numbers(items) {
      ObjectsOfItems(items, []);
      assert [] + Numbers(items) == Numbers(items);
    }
  }

  lemma NothingIsAcceptable()
    ensures Acceptable([])
  {
  }

  function Decimals(ids: seq<nat>): (r: seq<string>)
    ensures |r| == |ids| && forall k :: 0 <= k < |r| ==> r[k] == Decimal(ids[k])
  {
    seq(|ids|, k requires 0 <= k < |ids| => Decimal(ids[k]))
  }

  lemma {:induction false} JoinedIsCommas(ids: seq<nat>)
    ensures Joined(ids) == Commas(Decimals(ids))
  {
    if |ids| > 1 {
      JoinedIsCommas(ids[1..]);
      assert Decimals(ids)[1..] == Decimals(ids[1..]);
    }
  }

  /** Reading back a printed list gives that list if its ids are distinct, nonzero and few enough, and nothing otherwise. */
  lemma ObjectsOfJoined(ids: seq<nat>)
    requires ids != [] && AllU32(ids)
    ensures Objects(Joined(ids), []) == if Distinct(ids) && |ids| <= 256 then Some(ids) else None
  {
    hide Objects, Distinct;
    NothingIsAcceptable();
    var items := Decimals(ids);
    JoinedIsCommas(ids);
    forall k | 0 <= k < |ids| ensures Number(items[k]) == ids[k] { NumberOfDecimal(ids[k]); }
    assert Numbers(items) == ids && [] + ids == ids;
    ObjectsOfItems(items, []);
  }

  /** From the client's reply to the seat's list: every list fits, and comes back exactly when it is sound. */
  method HandOver(ids: seq<nat>) returns (ok: bool, received: Option<seq<nat>>)
    requires |ids| <= CLIENT_OBJECTS && AllU32(ids)
    ensures ok
    ensures received == if ids != [] && Distinct(ids) then Some(ids) else None
  {
    JoinedLength(ids);
    var text;
    ok, text := PrintObjects(ids);
    received := ParseObjects(text);
    if ids != [] {
      ObjectsOfJoined(ids);
    }
  }

  // ---------- comparison ----------

  /** `has_duplicates`: whether some value is zero or occurs twice. */
  method HasDuplicates(values: seq<nat>) returns (found: bool)
    ensures found <==> !Distinct(values)
  {
    for i := 0 to |values|
      invariant forall k :: 0 <= k < i ==> values[k] != 0
      invariant forall k, l :: 0 <= k < i && k < l < |values| ==> values[k] != values[l]
    {
      if values[i] == 0 {
        return true;
      }
      for j := i + 1 to |values|
        invariant forall l :: i < l < j ==> values[i] != values[l]
      {
        if values[i] == values[j] {
          return true;
        }
      }
    }
    return false;
  }

  function Elements(s: seq<nat>): (r: set<nat>)
    ensures forall x :: x in r <==> x in s
  {
    if s == [] then {} else Elements(s[..|s| - 1]) + {s[|s| - 1]}
  }

  lemma {:induction false} DistinctSize(s: seq<nat>)
    requires Distinct(s)
    ensures |Elements(s)| == |s|
  {
    if s != [] {
      var n := |s| - 1;
      DistinctSize(s[..n]);
      assert s[n] !in s[..n];
    }
  }

  lemma SubsetOfSameSize(a: set<nat>, b: set<nat>)
    requires a <= b && |a| == |b|
    ensures a == b
  {
    var rest := b - a;
    assert b == a + rest && a !! rest;
    assert |b| == |a| + |rest|;
  }

  /** `equal_object_sets`: accepts exactly the duplicate-free nonzero lists with the same elements. */
  method EqualObjectSets(left: seq<nat>, right: seq<nat>) returns (equal: bool)
    ensures equal <==> Distinct(left) && Distinct(right) && Elements(left) == Elements(right)
  {
    hide Distinct, Elements;
    var leftBad := HasDuplicates(left);
    var rightBad := HasDuplicates(right);
    if leftBad || rightBad {
      return false;
    }
    DistinctSize(left);
    DistinctSize(right);
    if |left| != |right| {
      return false;
    }
    for i := 0 to |left|
      invariant forall k :: 0 <= k < i ==> left[k] in right
    {
      var found := Contains(right, left[i]);
      if !found {
        assert left[i] in Elements(left) && left[i] !in Elements(right);
        return false;
      }
    }
    assert Elements(left) <= Elements(right);
    SubsetOfSameSize(Elements(left), Elements(right));
    return true;
  }
}
