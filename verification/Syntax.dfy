/**
  Fixed-length and Exp-Golomb codes, and lists of syntax elements.
  A writer's straight-line chain of put calls is a `Syntax`; `Encode` is the bit string it produces.
  The `Take` functions are the parsers of section 9.1 of ITU-T H.264 (section 9.2 of ITU-T H.265),
  with the source readers' limit of 31 leading zero bits.
 */
module SyntaxElements {
  import opened Bits

  const MAX_UE: int := 0xFFFF_FFFE
  const MAX_SE: int := 0x7FFF_FFFF

  datatype Element = U(value: nat, width: nat) | UE(value: nat) | SE(signed: int)

  datatype Syntax = Done | Put(head: Element, tail: Syntax)

  /** The number of binary digits of `x`. */
  function BitLength(x: nat): nat {
    if x == 0 then 0 else 1 + BitLength(x / 2)
  }

  function UeCode(v: nat): (bits: seq<bool>) {
    Zeros(BitLength(v + 1) - 1) + Field(v + 1, BitLength(v + 1))
  }

  /** The unsigned code number of a signed value. */
  function SeNumber(v: int): nat {
    if v <= 0 then 2 * -v else 2 * v - 1
  }

  function Code(e: Element): seq<bool> {
    match e
    case U(v, w) => Field(v, w)
    case UE(v) => UeCode(v)
    case SE(v) => UeCode(SeNumber(v))
  }

  function Encode(s: Syntax, after: seq<bool>): seq<bool> {
    match s
    case Done => after
    case Put(e, rest) => Code(e) + Encode(rest, after)
  }

  /** The values that fit their own code and that the readers accept. */
  ghost predicate Codable(e: Element) {
    match e
    case U(v, w) => v < Pow2(w)
    case UE(v) => v <= MAX_UE
    case SE(v) => -MAX_SE <= v <= MAX_SE
  }

  function Length(s: Syntax): nat {
    match s
    case Done => 0
    case Put(_, rest) => 1 + Length(rest)
  }

  lemma FewBits()
    ensures Field(1, 1) == [true] && Field(2, 2) == [true, false] && Field(3, 2) == [true, true]
    ensures Field(4, 3) == [true, false, false] && Field(5, 3) == [true, false, true] && Field(5, 4) == [false, true, false, true]
  {
    assert Field(0, 0) == [] && Field(0, 1) == [false] && Field(1, 1) == Field(0, 0) + [true];
    assert Field(1, 2) == Field(0, 1) + [true] && Field(2, 2) == Field(1, 1) + [false] && Field(3, 2) == Field(1, 1) + [true];
    assert Field(4, 3) == Field(2, 2) + [false] && Field(5, 3) == Field(2, 2) + [true] && Field(2, 3) == Field(1, 2) + [false];
    assert Field(5, 4) == Field(2, 3) + [true];
  }

  lemma FewLengths()
    ensures BitLength(1) == 1 && BitLength(2) == 2 && BitLength(3) == 2 && BitLength(4) == 3 && BitLength(5) == 3
  {
    assert BitLength(1) == 1 && BitLength(2) == 1 + BitLength(1) && BitLength(3) == 1 + BitLength(1);
    assert BitLength(4) == 1 + BitLength(2) && BitLength(5) == 1 + BitLength(2);
  }

  /** The first codes of table 9-2 and the first values of table 9-3 of ITU-T H.264. */
  lemma FirstCodes()
    ensures UeCode(0) == [true] && UeCode(1) == [false, true, false] && UeCode(2) == [false, true, true]
    ensures UeCode(3) == [false, false, true, false, false] && UeCode(4) == [false, false, true, false, true]
    ensures Code(SE(0)) == UeCode(0) && Code(SE(1)) == UeCode(1) && Code(SE(-1)) == UeCode(2)
    ensures Code(SE(2)) == UeCode(3) && Code(SE(-2)) == UeCode(4)
    ensures Code(U(5, 4)) == [false, true, false, true]
  {
    hide Field, BitLength;
    FewBits();
    FewLengths();
    assert Zeros(0) == [] && Zeros(1) == [false] && Zeros(2) == [false, false];
  }

  // ---------- parsers ----------

  function LeadingZeros(bits: seq<bool>): (n: nat)
    ensures n <= |bits|
    ensures n < |bits| ==> bits[n]
  {
    if bits == [] || bits[0] then 0 else 1 + LeadingZeros(bits[1..])
  }

  function TakeU(bits: seq<bool>, n: nat): Option<(nat, seq<bool>)> {
    if |bits| < n then None else Some((Value(bits[..n]), bits[n..]))
  }

  function TakeFlag(bits: seq<bool>): Option<(bool, seq<bool>)> {
    if bits == [] then None else Some((bits[0], bits[1..]))
  }

  function TakeUe(bits: seq<bool>): Option<(nat, seq<bool>)> {
    var z := LeadingZeros(bits);
    if z > 31 || |bits| < 2 * z + 1 then None
    else Some((Pow2(z) - 1 + Value(bits[z + 1..2 * z + 1]), bits[2 * z + 1..]))
  }

  function TakeSe(bits: seq<bool>): Option<(int, seq<bool>)> {
    var (k, rest) :- TakeUe(bits);
    Some((if k % 2 == 1 then (k + 1) / 2 else -(k / 2), rest))
  }

  // ---------- the parsers invert the codes ----------

  lemma {:induction false} BitLengthBounds(x: nat)
    requires x > 0
    ensures BitLength(x) > 0
    ensures Pow2(BitLength(x) - 1) <= x < Pow2(BitLength(x))
  {
    if x > 1 { BitLengthBounds(x / 2); }
  }

  lemma BitLengthAtMost(x: nat, n: nat)
    requires x < Pow2(n)
    ensures BitLength(x) <= n
  {
    if x > 0 && BitLength(x) > n {
      BitLengthBounds(x);
      Pow2Monotone(n, BitLength(x) - 1);
      assert false;
    }
  }

  lemma {:induction false} LeadingZerosOfRun(n: nat, rest: seq<bool>)
    requires rest != [] && rest[0]
    ensures LeadingZeros(Zeros(n) + rest) == n
  {
    if n == 0 {
      assert Zeros(0) + rest == rest;
    } else {
      assert (Zeros(n) + rest)[1..] == Zeros(n - 1) + rest;
      LeadingZerosOfRun(n - 1, rest);
    }
  }

  /** The binary form of a positive number starts with a one; the rest is its offset from a power of two. */
  lemma {:induction false} FieldLeadsWithOne(x: nat, n: nat)
    requires n > 0 && Pow2(n - 1) <= x < Pow2(n)
    ensures Field(x, n) == [true] + Field(x - Pow2(n - 1), n - 1)
  {
    if n == 1 {
      assert Field(1, 1) == [true];
    } else {
      FieldLeadsWithOne(x / 2, n - 1);
      assert (x - Pow2(n - 1)) / 2 == x / 2 - Pow2(n - 2);
      assert (x - Pow2(n - 1)) % 2 == x % 2;
      calc {
        Field(x, n);
        ([true] + Field(x / 2 - Pow2(n - 2), n - 2)) + [x % 2 == 1];
        [true] + (Field(x / 2 - Pow2(n - 2), n - 2) + [x % 2 == 1]);
        [true] + Field(x - Pow2(n - 1), n - 1);
      }
    }
  }

  /** What a reader sees at the start of an Exp-Golomb code, for every code number. */
  lemma UeShape(v: nat, rest: seq<bool>)
    ensures var z := BitLength(v + 1) - 1;
            var bits := UeCode(v) + rest;
            && z >= 0 && Pow2(z) <= v + 1 < Pow2(z + 1)
            && LeadingZeros(bits) == z && |UeCode(v)| == 2 * z + 1
            && bits[z + 1..2 * z + 1] == Field(v + 1 - Pow2(z), z)
            && bits[2 * z + 1..] == rest
  {
    BitLengthBounds(v + 1);
    var z := BitLength(v + 1) - 1;
    FieldLeadsWithOne(v + 1, z + 1);
    var suffix := Field(v + 1 - Pow2(z), z);
    var bits := UeCode(v) + rest;
    assert bits == Zeros(z) + ([true] + suffix + rest);
    LeadingZerosOfRun(z, [true] + suffix + rest);
  }

  /** A code number needs at most 31 leading zeros exactly when it is at most 2^32 - 2. */
  lemma UeZeros(v: nat)
    ensures v <= MAX_UE <==> BitLength(v + 1) <= 32
  {
    Pow2Of8And31And32();
    if v <= MAX_UE {
      BitLengthAtMost(v + 1, 32);
    } else if BitLength(v + 1) <= 32 {
      BitLengthBounds(v + 1);
      Pow2Monotone(BitLength(v + 1), 32);
      assert false;
    }
  }

  /** Exp-Golomb codes round trip at any offset exactly up to 2^32 - 2; larger numbers are refused. */
  lemma UeInverts(v: nat, rest: seq<bool>)
    ensures TakeUe(UeCode(v) + rest) == if v <= MAX_UE then Some((v, rest)) else None
  {
    var z := BitLength(v + 1) - 1;
    UeShape(v, rest);
    UeZeros(v);
    ValueOfField(v + 1 - Pow2(z), z);
  }

  /** Signed codes round trip exactly on the 32-bit integers other than the minimum. */
  lemma SeInverts(v: int, rest: seq<bool>)
    ensures TakeSe(UeCode(SeNumber(v)) + rest) ==
            if -MAX_SE <= v <= MAX_SE then Some((v, rest)) else None
  {
    UeInverts(SeNumber(v), rest);
  }

  lemma UInverts(v: nat, w: nat, rest: seq<bool>)
    requires v < Pow2(w)
    ensures TakeU(Field(v, w) + rest, w) == Some((v, rest))
  {
    ValueOfField(v, w);
    assert (Field(v, w) + rest)[..w] == Field(v, w);
    assert (Field(v, w) + rest)[w..] == rest;
  }

  lemma FlagInverts(b: bool, rest: seq<bool>)
    ensures TakeFlag(Field(if b then 1 else 0, 1) + rest) == Some((b, rest))
  {
    assert Field(if b then 1 else 0, 1) == [b];
    assert ([b] + rest)[1..] == rest;
  }

  /** Reading `e` off the front of `bits` succeeds with its value and leaves `rest`. */
  ghost predicate Takes(bits: seq<bool>, e: Element, rest: seq<bool>) {
    match e
    case U(v, w) =>
      && TakeU(bits, w) == Some((v, rest))
      && (w == 1 ==> TakeFlag(bits) == Some((v == 1, rest)))
    case UE(v) => TakeUe(bits) == Some((v, rest))
    case SE(v) => TakeSe(bits) == Some((v, rest))
  }

  /** One step of any parse: taking the head of an encoded list leaves the encoding of its tail. */
  lemma TakeHead(s: Syntax, after: seq<bool>)
    requires s.Put? && Codable(s.head)
    ensures Takes(Encode(s, after), s.head, Encode(s.tail, after))
  {
    var tail := Encode(s.tail, after);
    match s.head
    case U(v, w) =>
      UInverts(v, w, tail);
      if w == 1 {
        FlagInverts(v == 1, tail);
      }
    case UE(v) =>
      UeInverts(v, tail);
    case SE(v) =>
      SeInverts(v, tail);
  }

  // ---------- sizes and concatenation ----------

  lemma {:induction false} EncodeThen(s: Syntax, a: seq<bool>, b: seq<bool>)
    ensures Encode(s, a) + b == Encode(s, a + b)
  {
    match s
    case Done =>
    case Put(e, rest) =>
      EncodeThen(rest, a, b);
      assert Encode(s, a) + b == Code(e) + (Encode(rest, a) + b);
  }

  /** Every element is codable and no fixed-length field is wider than `width`. */
  ghost predicate AllCodable(s: Syntax, width: nat) {
    s.Put? ==> Codable(s.head) && (s.head.U? ==> s.head.width <= width) && AllCodable(s.tail, width)
  }

  lemma {:induction false} CodableWider(s: Syntax, w: nat, wider: nat)
    requires AllCodable(s, w) && w <= wider
    ensures AllCodable(s, wider)
  {
    if s.Put? { CodableWider(s.tail, w, wider); }
  }

  /** `Put`, carrying along what is known of the tail. */
  function Then(e: Element, rest: Syntax): (s: Syntax)
    ensures s == Put(e, rest)
    ensures Length(s) == 1 + Length(rest)
    ensures forall w: nat :: AllCodable(rest, w) && Codable(e) && (e.U? ==> e.width <= w) ==> AllCodable(s, w)
  {
    Put(e, rest)
  }

  /** The element `put_bit` writes: only the low bit of its argument. */
  function Bit(v: nat): Element {
    U(v % 2, 1)
  }

  /** No codable element takes more than 63 bits. */
  lemma {:induction false} EncodeSize(s: Syntax)
    requires AllCodable(s, 63)
    ensures |Encode(s, [])| <= 63 * Length(s)
  {
    match s
    case Done =>
    case Put(e, rest) =>
      EncodeSize(rest);
      match e
      case U(_, _) =>
      case UE(v) =>
        UeZeros(v);
        UeShape(v, []);
      case SE(v) =>
        UeZeros(SeNumber(v));
        UeShape(SeNumber(v), []);
  }
}
