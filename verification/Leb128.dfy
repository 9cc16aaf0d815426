/** The LEB128 reader, sizer and writer of src/vaapi_advc/advc_vaapi_decode_av1.c:62-110 (section 4.10.5 of the AV1 specification). */
module Leb128 {
  import opened Bits

  const MAX_BYTES: nat := 8

  /** The value and length of a code of at most `limit` bytes at the front of `data`. */
  function Decode(data: seq<Byte>, limit: nat): (r: Option<(nat, nat)>)
    ensures r.Some? ==> 1 <= r.value.0 <= |data| && r.value.0 <= limit
    decreases limit
  {
    if data == [] || limit == 0 then None
    else if data[0] < 128 then Some((1, data[0]))
    else
      var (n, v) :- Decode(data[1..], limit - 1);
      Some((n + 1, data[0] - 128 + 128 * v))
  }

  function Encode(v: nat): (bytes: seq<Byte>)
    ensures |bytes| >= 1
  {
    if v < 128 then [v] else [v % 128 + 128] + Encode(v / 128)
  }

  function Pow128(n: nat): (p: nat)
    ensures p > 0
  {
    if n == 0 then 1 else 128 * Pow128(n - 1)
  }

  lemma {:induction false} EncodeLength(v: nat, n: nat)
    requires v < Pow128(n)
    ensures n > 0 ==> |Encode(v)| <= n
  {
    if v >= 128 { EncodeLength(v / 128, n - 1); }
  }

  /** Whatever follows, a code of at most `limit` bytes reads back. */
  lemma {:induction false} DecodeInverts(v: nat, rest: seq<Byte>, limit: nat)
    requires |Encode(v)| <= limit
    ensures Decode(Encode(v) + rest, limit) == Some((|Encode(v)|, v))
  {
    if v >= 128 {
      DecodeInverts(v / 128, rest, limit - 1);
      assert (Encode(v) + rest)[1..] == Encode(v / 128) + rest;
    }
  }

  /** No accepted code is shorter than the one the writer would produce, and none exceeds 7 bits a byte. */
  lemma {:induction false} DecodeIsNoShorter(data: seq<Byte>, limit: nat)
    requires Decode(data, limit).Some?
    ensures var (n, v) := Decode(data, limit).value; |Encode(v)| <= n && v < Pow128(n)
  {
    if data[0] >= 128 {
      DecodeIsNoShorter(data[1..], limit - 1);
    }
  }

  lemma {:induction false} EncodeMonotone(v: nat, w: nat)
    requires v <= w
    ensures |Encode(v)| <= |Encode(w)|
  {
    if v >= 128 { EncodeMonotone(v / 128, w / 128); }
  }

  /** A code read after `i` bytes worth `decoded`. */
  function Scaled(r: Option<(nat, nat)>, i: nat, decoded: nat, scale: nat): Option<(nat, nat)> {
    if r.None? then None else Some((r.value.0 + i, decoded + r.value.1 * scale))
  }

  lemma ScaledStep(data: seq<Byte>, limit: nat, i: nat, decoded: nat, scale: nat)
    requires data != [] && limit > 0 && data[0] >= 128
    ensures decoded + (data[0] - 128) * scale >= 0
    ensures Scaled(Decode(data, limit), i, decoded, scale) ==
            Scaled(Decode(data[1..], limit - 1), i + 1, decoded + (data[0] - 128) * scale, 128 * scale)
  {
    var tail := Decode(data[1..], limit - 1);
    var b: nat := data[0] - 128;
    DigitBound(b, scale);
    if tail.Some? {
      assert Decode(data, limit) == Some((tail.value.0 + 1, b + 128 * tail.value.1));
      hide Decode;
      Distribute(scale, b, tail.value.1);
    }
  }

  lemma ScaledLast(data: seq<Byte>, limit: nat, i: nat, decoded: nat, scale: nat)
    requires data != [] && limit > 0 && data[0] < 128
    ensures decoded + data[0] * scale >= 0
    ensures Scaled(Decode(data, limit), i, decoded, scale) == Some((i + 1, decoded + data[0] * scale))
  {
  }

  lemma Distribute(s: nat, b: nat, v: nat)
    ensures (b + 128 * v) * s == b * s + v * (128 * s)
  {
  }

  lemma DigitBound(b: nat, scale: nat)
    requires b < 128
    ensures 0 <= b * scale <= 127 * scale
  {
  }

  /** `b << 7i`, the place of a digit. */
  function Shifted(b: nat, scale: nat): nat {
    b * scale
  }

  /** What one byte with its continuation bit set does to the loop's variables. */
  lemma ReadStep(data: seq<Byte>, i: nat, decoded: nat, scale: nat)
    requires i < |data| && i < MAX_BYTES && data[i] >= 128 && scale == Pow128(i) && decoded < scale
    ensures var decoded' := decoded + Shifted(data[i] - 128, scale);
            && decoded' < 128 * scale && 128 * scale == Pow128(i + 1)
            && Scaled(Decode(data[i..], MAX_BYTES - i), i, decoded, scale) ==
               Scaled(Decode(data[i + 1..], MAX_BYTES - (i + 1)), i + 1, decoded', 128 * scale)
  {
    assert data[i..][1..] == data[i + 1..];
    PowStep(i + 1);
    hide Pow128, Decode, Scaled;
    ScaledStep(data[i..], MAX_BYTES - i, i, decoded, scale);
    DigitBound(data[i] - 128, scale);
  }

  lemma ReadLast(data: seq<Byte>, i: nat, decoded: nat, scale: nat)
    requires i < |data| && i < MAX_BYTES && data[i] < 128
    ensures Scaled(Decode(data[i..], MAX_BYTES - i), i, decoded, scale) == Some((i + 1, decoded + Shifted(data[i], scale)))
  {
    ScaledLast(data[i..], MAX_BYTES - i, i, decoded, scale);
  }

  lemma ReadEnds(data: seq<Byte>, i: nat, decoded: nat, scale: nat)
    requires i <= MAX_BYTES && i <= |data|
    ensures i == 0 && decoded == 0 && scale == 1 ==> Scaled(Decode(data[i..], MAX_BYTES - i), i, decoded, scale) == Decode(data, MAX_BYTES)
    ensures i == |data| || i == MAX_BYTES ==> Scaled(Decode(data[i..], MAX_BYTES - i), i, decoded, scale) == None
  {
    assert data[0..] == data;
  }

  lemma FirstPower()
    ensures Pow128(0) == 1
  {
  }

  /**
    The shift-and-or loop. The seven bits of byte `i` land above those already decoded, so the or adds;
    eight bytes stay below 2^56, so the source's test against the largest size cannot fail.
   */
  method Read(data: seq<Byte>) returns (r: Option<(nat, nat)>)
    ensures r == Decode(data, MAX_BYTES)
  {
    hide Pow128, Decode, Scaled, Shifted;
    var decoded: nat := 0;
    var scale := 1;
    var i := 0;
    ReadEnds(data, 0, 0, 1);
    FirstPower();
    while i < MAX_BYTES
      invariant i <= MAX_BYTES && i <= |data|
      invariant scale == Pow128(i) && decoded < scale
      invariant Decode(data, MAX_BYTES) == Scaled(Decode(data[i..], MAX_BYTES - i), i, decoded, scale)
    {
      ReadEnds(data, i, decoded, scale);
      if i >= |data| {
        return None;
      }
      if data[i] < 128 {
        ReadLast(data, i, decoded, scale);
        return Some((i + 1, decoded + Shifted(data[i], scale)));
      }
      ReadStep(data, i, decoded, scale);
      decoded := decoded + Shifted(data[i] - 128, scale);
      scale := 128 * scale;
      i := i + 1;
    }
    ReadEnds(data, i, decoded, scale);
    return None;
  }

  lemma PowStep(n: nat)
    requires n > 0
    ensures Pow128(n) == 128 * Pow128(n - 1)
  {
  }

  method Size(value: nat) returns (bytes: nat)
    ensures bytes == |Encode(value)|
  {
    var rest := value;
    bytes := 1;
    while rest >= 128
      invariant bytes + |Encode(rest)| == 1 + |Encode(value)|
    {
      rest := rest / 128;
      bytes := bytes + 1;
    }
  }

  method Write(output: array<Byte>, at: nat, value: nat) returns (written: nat)
    requires at + |Encode(value)| <= output.Length
    modifies output
    ensures written == |Encode(value)|
    ensures output[..at + written] == old(output[..at]) + Encode(value)
    ensures output[at + written..] == old(output[at + written..])
  {
    var rest := value;
    written := 0;
    ghost var done := [];
    while true
      invariant written == |done| && done + Encode(rest) == Encode(value)
      invariant output[..at + written] == old(output[..at]) + done
      invariant output[at + written..] == old(output[at + written..])
      decreases rest
    {
      var byte := rest % 128;
      ghost var code := Encode(rest);
      rest := rest / 128;
      var next: Byte := if rest != 0 then byte + 128 else byte;
      output[at + written] := next;
      assert output[..at + written + 1] == old(output[..at]) + (done + [next]);
      assert output[at + written + 1..] == old(output[at + written + 1..]);
      done := done + [next];
      written := written + 1;
      if rest == 0 {
        break;
      }
      assert code == [next] + Encode(rest);
    }
    assert done == Encode(value);
  }
}
