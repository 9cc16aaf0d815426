/**
  The bit writer and bit reader of src/vaapi_advc/advc_h264_annexb.c and advc_vaapi_decode_hevc.c:
  a byte buffer and a bit position that advances one bit at a time.
 */
module BitIo {
  import opened Bits
  import opened SyntaxElements

  /** `b | (v << (7 - k))` for a single bit `v`: a bit that is already set stays set. */
  function OrBit(b: Byte, k: nat, v: bool): (r: Byte)
    requires k < 8
    ensures Octet(r) == Octet(b)[k := Octet(b)[k] || v]
  {
    FromOctet(Octet(b)[k := Octet(b)[k] || v])
  }

  lemma ZeroOctet(k: nat)
    requires k < 8
    ensures !Octet(0)[k]
  {
    OctetAt(0, k);
  }

  class BitWriter {
    const data: array<Byte>
    const maxField: nat
    var bitCount: nat
    ghost var bits: seq<bool>

    ghost predicate Valid()
      reads this, data
      ensures Valid() ==> |bits| == bitCount <= 8 * data.Length
    {
      && |bits| == bitCount <= 8 * data.Length
      && (forall j, k :: 0 <= j < data.Length && 0 <= k < 8 && 8 * j + k < bitCount ==> Octet(data[j])[k] == bits[8 * j + k])
      && (forall j, k :: 0 <= j < data.Length && 0 <= k < 8 && 8 * j < bitCount <= 8 * j + k ==> !Octet(data[j])[k])
    }

    constructor (capacity: nat, maxField: nat)
      ensures Valid() && fresh(data)
      ensures data.Length == capacity && this.maxField == maxField && bits == []
    {
      data := new Byte[capacity](_ => 0);
      this.maxField := maxField;
      bitCount := 0;
      bits := [];
    }

    ghost predicate Fits(n: nat)
      reads this
    {
      bitCount + n <= 8 * data.Length
    }

    method PutBit(value: nat) returns (ok: bool)
      requires Valid()
      modifies this, data
      ensures Valid()
      ensures ok <==> old(Fits(1))
      ensures bits == if ok then old(bits) + Field(value, 1) else old(bits)
    {
      hide Octet, OrBit;
      if bitCount >= data.Length * 8 {
        return false;
      }
      var byteOffset := bitCount / 8;
      var k := bitCount % 8;
      if k == 0 {
        data[byteOffset] := 0;
        forall i | 0 <= i < 8 ensures !Octet(0)[i] { ZeroOctet(i); }
      }
      data[byteOffset] := OrBit(data[byteOffset], k, value % 2 == 1);
      bits := bits + [value % 2 == 1];
      bitCount := bitCount + 1;
      FieldOfOne(value);
      return true;
    }

    method PutBits(value: nat, count: nat) returns (ok: bool)
      requires Valid()
      modifies this, data
      ensures Valid() && old(bits) <= bits
      ensures ok <==> count <= maxField && old(Fits(count))
      ensures ok ==> bits == old(bits) + Field(value, count)
    {
      hide Shr, Field, Valid;
      if count > maxField {
        return false;
      }
      var i := 0;
      while i < count
        invariant i <= count && Valid()
        invariant bits == old(bits) + Field(value, count)[..i]
      {
        var shift := count - i - 1;
        var fit := PutBit(Shr(value, shift) % 2);
        if !fit {
          return false;
        }
        FieldAt(value, count, i);
        FieldOfOne(Shr(value, shift) % 2);
        i := i + 1;
      }
      return true;
    }

    method PutUe(value: nat) returns (ok: bool)
      requires Valid() && value <= 0xFFFF_FFFF && maxField >= 32
      modifies this, data
      ensures Valid() && old(bits) <= bits
      ensures ok <==> BitLength(value + 1) <= maxField && old(Fits(|UeCode(value)|))
      ensures ok ==> bits == old(bits) + UeCode(value)
    {
      hide Shr, Field, Valid;
      var codeNum := value + 1;
      var n := CountBits(codeNum);
      BitLengthBounds(codeNum);
      var i := 1;
      while i < n
        invariant 1 <= i <= n && Valid()
        invariant bits == old(bits) + Zeros(i - 1)
      {
        var fit := PutBit(0);
        if !fit {
          return false;
        }
        FieldOfOne(0);
        assert Zeros(i - 1) + [false] == Zeros(i);
        i := i + 1;
      }
      ok := PutBits(codeNum, n);
    }

    method PutSe(value: int) returns (ok: bool)
      requires Valid() && -0x8000_0000 <= value <= 0x7FFF_FFFF && maxField >= 32
      modifies this, data
      ensures Valid() && old(bits) <= bits
      ensures ok <==> value != -0x8000_0000 && old(Fits(|UeCode(SeNumber(value))|))
      ensures ok ==> bits == old(bits) + UeCode(SeNumber(value))
    {
      var magnitude := if value < 0 then -value else value;
      var codeNum := if value <= 0 then magnitude * 2 else magnitude * 2 - 1;
      if codeNum > 0xFFFF_FFFF {
        return false;
      }
      UeZeros(codeNum);
      ok := PutUe(codeNum);
    }

    method FinishRbsp() returns (ok: bool)
      requires Valid()
      modifies this, data
      ensures Valid() && old(bits) <= bits
      ensures ok <==> old(Fits(|Trailing(bitCount)|))
      ensures ok ==> bits == old(bits) + Trailing(old(bitCount)) && bitCount % 8 == 0
    {
      hide Field, Valid;
      ok := PutBit(1);
      if !ok {
        return;
      }
      FieldOfOne(1);
      ghost var pad := 0;
      while bitCount % 8 != 0
        invariant Valid() && bits == old(bits) + [true] + Zeros(pad)
        invariant pad <= 7 - old(bitCount) % 8
        decreases 8 * data.Length - bitCount
      {
        ok := PutBit(0);
        if !ok {
          return;
        }
        FieldOfOne(0);
        assert Zeros(pad) + [false] == Zeros(pad + 1);
        pad := pad + 1;
      }
      assert pad == 7 - old(bitCount) % 8;
      return true;
    }

    method PutElement(e: Element) returns (ok: bool)
      requires Valid() && maxField >= 32 && InRange(e)
      modifies this, data
      ensures Valid() && old(bits) <= bits
      ensures ok <==> Writable(e, maxField) && old(Fits(|Code(e)|))
      ensures ok ==> bits == old(bits) + Code(e)
    {
      hide Valid, Field;
      match e {
        case U(v, w) => ok := PutBits(v, w);
        case UE(v) => ok := PutUe(v);
        case SE(v) => ok := PutSe(v);
      }
    }

    /** Walks a chain of put calls, stopping at the first failure. */
    method Write(s: Syntax) returns (ok: bool)
      requires Valid() && maxField >= 32 && AllInRange(s)
      modifies this, data
      ensures Valid() && old(bits) <= bits
      ensures ok <==> AllWritable(s, maxField) && old(Fits(|Encode(s, [])|))
      ensures ok ==> bits == old(bits) + Encode(s, [])
    {
      hide Valid, Code, InRange, Writable;
      var todo := s;
      while todo.Put?
        invariant Valid() && AllInRange(todo) && old(bits) <= bits
        invariant bits + Encode(todo, []) == old(bits) + Encode(s, [])
        invariant AllWritable(s, maxField) <==> AllWritable(todo, maxField)
        decreases Length(todo)
      {
        ghost var before := bits;
        ghost var rest := Encode(todo.tail, []);
        ok := PutElement(todo.head);
        assert |old(bits)| + |Encode(s, [])| == |before| + |Code(todo.head)| + |rest|;
        if !ok {
          return;
        }
        assert before + (Code(todo.head) + rest) == before + Code(todo.head) + rest;
        todo := todo.tail;
      }
      return true;
    }

    /** A finished buffer is the packed form of its bits. */
    lemma BytesAreBits()
      requires Valid() && bitCount % 8 == 0
      ensures data[..bitCount / 8] == Pack(bits)
    {
      hide Octet;
      var bytes := data[..bitCount / 8];
      forall i | 0 <= i < bitCount ensures Unpack(bytes)[i] == bits[i] {
        UnpackAt(bytes, i / 8, i % 8);
      }
      assert Unpack(bytes) == bits;
      PackOfUnpack(bytes);
    }
  }

  lemma FieldOfOne(v: nat)
    ensures Field(v, 1) == [v % 2 == 1]
  {
  }

  /** The C ranges of the values handed to the put functions. */
  predicate InRange(e: Element) {
    match e
    case U(_, _) => true
    case UE(v) => v <= 0xFFFF_FFFF
    case SE(v) => -0x8000_0000 <= v <= 0x7FFF_FFFF
  }

  predicate AllInRange(s: Syntax) {
    s.Put? ==> InRange(s.head) && AllInRange(s.tail)
  }

  /** The elements the put functions do not refuse. */
  predicate Writable(e: Element, maxField: nat) {
    match e
    case U(_, w) => w <= maxField
    case UE(v) => BitLength(v + 1) <= maxField
    case SE(v) => v != -0x8000_0000
  }

  predicate AllWritable(s: Syntax, maxField: nat) {
    s.Put? ==> Writable(s.head, maxField) && AllWritable(s.tail, maxField)
  }

  lemma {:induction false} CodableIsWritable(s: Syntax, maxField: nat)
    requires AllCodable(s, maxField) && maxField >= 32
    ensures AllInRange(s) && AllWritable(s, maxField)
  {
    if s.Put? {
      CodableIsWritable(s.tail, maxField);
      match s.head
      case U(_, _) =>
      case UE(v) => UeZeros(v);
      case SE(v) =>
    }
  }

  /** The stop bit and the alignment zeros after `n` bits. */
  function Trailing(n: nat): (bits: seq<bool>)
    ensures (n + |bits|) % 8 == 0 && |bits| <= 8
  {
    [true] + Zeros(7 - n % 8)
  }

  /** The loop that measures a code number. */
  method CountBits(x: nat) returns (n: nat)
    ensures n == BitLength(x)
  {
    n := 0;
    assert Shr(x, 0) == x;
    hide Shr;
    while Shr(x, n) != 0
      invariant n <= BitLength(x)
      invariant BitLength(Shr(x, n)) == BitLength(x) - n
      decreases BitLength(x) - n
    {
      HalveAgain(x, n);
      n := n + 1;
    }
  }

  lemma {:induction false} HalveAgain(x: nat, n: nat)
    ensures Shr(x, n + 1) == Shr(x, n) / 2
  {
    if n > 0 { HalveAgain(x / 2, n - 1); }
  }

  class BitReader {
    const data: array<Byte>
    const size: nat
    var bitOffset: nat

    ghost predicate Valid()
      reads this
    {
      size <= data.Length && bitOffset <= 8 * size
    }

    ghost function Remaining(): seq<bool>
      requires Valid()
      reads this, data
    {
      Unpack(data[..size])[bitOffset..]
    }

    constructor (data: array<Byte>, size: nat)
      requires size <= data.Length
      ensures Valid() && this.data == data && this.size == size && bitOffset == 0
      ensures Remaining() == Unpack(data[..size])
    {
      this.data := data;
      this.size := size;
      bitOffset := 0;
    }

    method ReadBit() returns (r: Option<nat>)
      requires Valid()
      modifies this
      ensures Valid()
      ensures old(Remaining()) == [] <==> r.None?
      ensures r.None? ==> Remaining() == old(Remaining())
      ensures r.Some? ==> r.value == (if old(Remaining())[0] then 1 else 0) && Remaining() == old(Remaining())[1..]
    {
      if bitOffset >= size * 8 {
        return None;
      }
      hide Octet, Shr;
      var byteOffset := bitOffset / 8;
      var shift := 7 - bitOffset % 8;
      UnpackAt(data[..size], byteOffset, bitOffset % 8);
      OctetAt(data[byteOffset], bitOffset % 8);
      var value := Shr(data[byteOffset], shift) % 2;
      bitOffset := bitOffset + 1;
      return Some(value);
    }

    method ReadBits(count: nat) returns (r: Option<nat>)
      requires Valid() && count <= 32
      modifies this
      ensures Valid()
      ensures match TakeU(old(Remaining()), count)
              case Some((v, rest)) => r == Some(v) && Remaining() == rest
              case None => r.None?
    {
      var result := 0;
      var i := 0;
      while i < count
        invariant Valid() && i <= count && i <= |old(Remaining())|
        invariant Remaining() == old(Remaining())[i..]
        invariant result == Value(old(Remaining())[..i])
      {
        var bit := ReadBit();
        if bit.None? {
          return None;
        }
        assert old(Remaining())[..i + 1][..i] == old(Remaining())[..i];
        result := 2 * result + bit.value;
        i := i + 1;
      }
      return Some(result);
    }

    method ReadUe() returns (r: Option<nat>)
      requires Valid()
      modifies this
      ensures Valid()
      ensures match TakeUe(old(Remaining()))
              case Some((v, rest)) => r == Some(v) && Remaining() == rest
              case None => r.None?
    {
      ghost var all := Remaining();
      var zeroes := 0;
      while true
        invariant Valid() && zeroes <= 31 && zeroes <= |all|
        invariant Remaining() == all[zeroes..]
        invariant LeadingZeros(all) == zeroes + LeadingZeros(all[zeroes..])
        decreases 31 - zeroes
      {
        var bit := ReadBit();
        if bit.None? {
          return None;
        }
        if bit.value != 0 {
          break;
        }
        assert all[zeroes..][1..] == all[zeroes + 1..];
        zeroes := zeroes + 1;
        if zeroes > 31 {
          return None;
        }
      }
      r := ReadSuffix(zeroes, all);
    }

    method ReadSuffix(zeroes: nat, ghost all: seq<bool>) returns (r: Option<nat>)
      requires Valid() && LeadingZeros(all) == zeroes <= 31 && zeroes < |all|
      requires Remaining() == all[zeroes + 1..]
      modifies this
      ensures Valid()
      ensures match TakeUe(all)
              case Some((v, rest)) => r == Some(v) && Remaining() == rest
              case None => r.None?
    {
      var suffix := ReadBits(zeroes);
      if suffix.None? {
        return None;
      }
      assert all[zeroes + 1..][..zeroes] == all[zeroes + 1..2 * zeroes + 1];
      assert all[zeroes + 1..][zeroes..] == all[2 * zeroes + 1..];
      return Some(Pow2(zeroes) - 1 + suffix.value);
    }

    method ReadSe() returns (r: Option<int>)
      requires Valid()
      modifies this
      ensures Valid()
      ensures match TakeSe(old(Remaining()))
              case Some((v, rest)) => r == Some(v) && Remaining() == rest
              case None => r.None?
    {
      var code := ReadUe();
      if code.None? {
        return None;
      }
      var codeNum: int := code.value;
      UeBound(old(Remaining()));
      if codeNum > 0x7FFF_FFFF * 2 {
        return None;
      }
      var value: int := if codeNum % 2 != 0 then (codeNum + 1) / 2 else -(codeNum / 2);
      return Some(value);
    }
  }

  /** The value the Exp-Golomb reader returns never leaves 32 bits, so its overflow test cannot fire. */
  lemma UeBound(bits: seq<bool>)
    ensures TakeUe(bits).Some? ==> TakeUe(bits).value.0 <= MAX_UE
  {
    var z := LeadingZeros(bits);
    if TakeUe(bits).Some? {
      FieldOfValue(bits[z + 1..2 * z + 1]);
      Pow2Monotone(z, 31);
      Pow2Of8And31And32();
    }
  }
}
