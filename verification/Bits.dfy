/** Options, bytes and most-significant-bit-first bit strings shared by every bitstream module. */
module Bits {

  datatype Option<+T> = None | Some(value: T) {
    predicate IsFailure() {
      None?
    }

    function PropagateFailure<U>(): Option<U>
      requires None?
    {
      None
    }

    function Extract(): T
      requires Some?
    {
      value
    }
  }

  type Byte = b: int | 0 <= b < 256

  /** The largest input the broker takes. */
  const MAX_INPUT_BYTES: nat := 16 * 1024 * 1024

  function Pow2(n: nat): (p: nat)
    ensures p > 0
  {
    if n == 0 then 1 else 2 * Pow2(n - 1)
  }

  /** `v >> n` */
  function Shr(v: nat, n: nat): nat {
    if n == 0 then v else Shr(v / 2, n - 1)
  }

  function Zeros(n: nat): (bits: seq<bool>)
    ensures |bits| == n
  {
    seq(n, _ => false)
  }

  /** The low `n` bits of `v`, most significant first. */
  function Field(v: nat, n: nat): (bits: seq<bool>)
    ensures |bits| == n
  {
    if n == 0 then [] else Field(v / 2, n - 1) + [v % 2 == 1]
  }

  /** The number a bit string denotes. */
  function Value(bits: seq<bool>): nat {
    if bits == [] then 0
    else 2 * Value(bits[..|bits| - 1]) + (if bits[|bits| - 1] then 1 else 0)
  }

  lemma {:induction false} ValueOfField(v: nat, n: nat)
    requires v < Pow2(n)
    ensures Value(Field(v, n)) == v
  {
    if n > 0 {
      ValueOfField(v / 2, n - 1);
      assert Field(v, n)[..n - 1] == Field(v / 2, n - 1);
    }
  }

  lemma {:induction false} FieldOfValue(bits: seq<bool>)
    ensures Value(bits) < Pow2(|bits|)
    ensures Field(Value(bits), |bits|) == bits
  {
    if bits != [] {
      var init := bits[..|bits| - 1];
      FieldOfValue(init);
      assert Value(bits) / 2 == Value(init);
      assert bits == init + [bits[|bits| - 1]];
    }
  }

  /** Bit `k` of a field is what the source's shift-and-mask extracts. */
  lemma {:induction false} FieldAt(v: nat, n: nat, k: nat)
    requires k < n
    ensures Field(v, n)[k] == (Shr(v, n - 1 - k) % 2 == 1)
  {
    if k < n - 1 {
      FieldAt(v / 2, n - 1, k);
    }
  }

  /** A leading bit contributes its power of two. */
  lemma {:induction false} ValueOfCons(b: bool, bits: seq<bool>)
    ensures Value([b] + bits) == (if b then Pow2(|bits|) else 0) + Value(bits)
  {
    if bits == [] {
      assert [b][..0] == [];
    } else {
      var init := bits[..|bits| - 1];
      ValueOfCons(b, init);
      assert ([b] + bits)[..|bits|] == [b] + init;
    }
  }

  lemma {:induction false} Pow2Monotone(m: nat, n: nat)
    requires m <= n
    ensures Pow2(m) <= Pow2(n)
  {
    if m < n { Pow2Monotone(m, n - 1); }
  }

  lemma Multiple(m: nat, d: int)
    ensures d >= 1 ==> m * d >= m
    ensures d <= -1 ==> m * d <= 0 - m
  {
  }

  lemma Pow2Of8And31And32()
    ensures Pow2(8) == 256 && Pow2(31) == 0x8000_0000 && Pow2(32) == 0x1_0000_0000
  {
    assert Pow2(8) == 256;
    assert Pow2(16) == 65536;
    assert Pow2(24) == 0x100_0000;
    assert Pow2(31) == 0x8000_0000;
  }

  /** The eight bits of a byte. */
  function Octet(b: Byte): (bits: seq<bool>)
    ensures |bits| == 8
  {
    Field(b, 8)
  }

  /** The byte with the given eight bits. */
  function FromOctet(bits: seq<bool>): (b: Byte)
    requires |bits| == 8
    ensures Octet(b) == bits
  {
    FieldOfValue(bits);
    Pow2Of8And31And32();
    Value(bits)
  }

  lemma OctetAt(b: Byte, k: nat)
    requires k < 8
    ensures Octet(b)[k] == (Shr(b, 7 - k) % 2 == 1)
  {
    FieldAt(b, 8, k);
  }

  /** A byte is determined by its bits. */
  lemma OctetInjective(b: Byte, c: Byte)
    requires Octet(b) == Octet(c)
    ensures b == c
  {
    Pow2Of8And31And32();
    ValueOfField(b, 8);
    ValueOfField(c, 8);
  }

  /** The bits of a byte string, eight per byte. */
  function Unpack(bytes: seq<Byte>): (bits: seq<bool>)
    ensures |bits| == 8 * |bytes|
  {
    if bytes == [] then [] else Octet(bytes[0]) + Unpack(bytes[1..])
  }

  /** The bytes of a whole number of octets. */
  function Pack(bits: seq<bool>): (bytes: seq<Byte>)
    requires |bits| % 8 == 0
    ensures |bytes| == |bits| / 8
  {
    if bits == [] then [] else [FromOctet(bits[..8])] + Pack(bits[8..])
  }

  lemma {:induction false} UnpackOfPack(bits: seq<bool>)
    requires |bits| % 8 == 0
    ensures Unpack(Pack(bits)) == bits
  {
    hide Octet, FromOctet;
    if bits != [] {
      UnpackOfPack(bits[8..]);
      assert Pack(bits)[1..] == Pack(bits[8..]);
      assert bits == bits[..8] + bits[8..];
    }
  }

  lemma {:induction false} PackOfUnpack(bytes: seq<Byte>)
    ensures Pack(Unpack(bytes)) == bytes
  {
    hide Octet, FromOctet;
    if bytes != [] {
      PackOfUnpack(bytes[1..]);
      var bits := Unpack(bytes);
      assert bits[..8] == Octet(bytes[0]) && bits[8..] == Unpack(bytes[1..]);
      OctetInjective(FromOctet(bits[..8]), bytes[0]);
    }
  }

  lemma {:induction false} UnpackAt(bytes: seq<Byte>, j: nat, k: nat)
    requires j < |bytes| && k < 8
    ensures Unpack(bytes)[8 * j + k] == Octet(bytes[j])[k]
  {
    hide Octet, FromOctet;
    if j > 0 {
      UnpackAt(bytes[1..], j - 1, k);
      assert Unpack(bytes)[8 * j + k] == Unpack(bytes[1..])[8 * (j - 1) + k];
    }
  }

  lemma {:induction false} UnpackOfPrefix(bytes: seq<Byte>, n: nat)
    requires n <= |bytes|
    ensures Unpack(bytes[..n]) == Unpack(bytes)[..8 * n]
  {
    hide Octet, FromOctet;
    if n > 0 {
      UnpackOfPrefix(bytes[1..], n - 1);
      assert bytes[..n][1..] == bytes[1..][..n - 1];
      assert bytes[..n][0] == bytes[0];
    }
  }
}
