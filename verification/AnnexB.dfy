/**
  Annex-B NAL units: start codes and emulation prevention
  (section 7.3.1 and Annex B of ITU-T H.264, section 7.3.1.1 of ITU-T H.265).
 */
module AnnexB {
  import opened Bits
  import opened SyntaxElements
  import opened BitIo

  const START_CODE: seq<Byte> := [0, 0, 0, 1]

  /** Insert a 3 before any byte up to 3 that follows two zeros; `zeros` counts the zeros just written. */
  function Escape(s: seq<Byte>, zeros: nat): seq<Byte> {
    if s == [] then []
    else if zeros >= 2 && s[0] <= 3 then [3, s[0]] + Escape(s[1..], if s[0] == 0 then 1 else 0)
    else [s[0]] + Escape(s[1..], if s[0] == 0 then zeros + 1 else 0)
  }

  /** Drop every 3 that follows two zeros. */
  function Unescape(s: seq<Byte>, zeros: nat): (r: seq<Byte>)
    ensures |r| <= |s|
  {
    if s == [] then []
    else if zeros >= 2 && s[0] == 3 then Unescape(s[1..], 0)
    else [s[0]] + Unescape(s[1..], if s[0] == 0 then zeros + 1 else 0)
  }

  function Nal(header: seq<Byte>, rbsp: seq<Byte>): seq<Byte> {
    START_CODE + header + Escape(rbsp, 0)
  }

  lemma {:induction false} UnescapeInverts(s: seq<Byte>, zeros: nat)
    ensures Unescape(Escape(s, zeros), zeros) == s
  {
    if s != [] {
      var e := Escape(s, zeros);
      if zeros >= 2 && s[0] <= 3 {
        UnescapeInverts(s[1..], if s[0] == 0 then 1 else 0);
        assert e[1..] == [s[0]] + Escape(s[1..], if s[0] == 0 then 1 else 0);
        assert e[1..][1..] == Escape(s[1..], if s[0] == 0 then 1 else 0);
      } else {
        UnescapeInverts(s[1..], if s[0] == 0 then zeros + 1 else 0);
        assert e[1..] == Escape(s[1..], if s[0] == 0 then zeros + 1 else 0);
      }
    }
  }

  /** No two zeros are followed by 0, 1 or 2. */
  ghost predicate NoEmulation(e: seq<Byte>) {
    forall i :: 0 <= i && i + 2 < |e| && e[i] == 0 && e[i + 1] == 0 ==> e[i + 2] > 2
  }

  /** Escaped bytes hold no start code, nor do they complete one begun by `zeros` preceding zeros. */
  lemma {:induction false} EscapeHasNoEmulation(s: seq<Byte>, zeros: nat)
    ensures NoEmulation(Escape(s, zeros))
    ensures zeros >= 2 && s != [] ==> Escape(s, zeros)[0] > 2
    ensures zeros >= 1 && |Escape(s, zeros)| > 1 && Escape(s, zeros)[0] == 0 ==> Escape(s, zeros)[1] > 2
  {
    if s != [] {
      var e := Escape(s, zeros);
      var next := if s[0] != 0 then 0 else if zeros >= 2 then 1 else zeros + 1;
      var tail := Escape(s[1..], next);
      EscapeHasNoEmulation(s[1..], next);
      if zeros >= 2 && s[0] <= 3 {
        assert e == [3, s[0]] + tail;
        forall i | 0 <= i && i + 2 < |e| && e[i] == 0 && e[i + 1] == 0 ensures e[i + 2] > 2 {
          if i > 1 { assert tail[i - 2 + 2] == e[i + 2]; }
        }
      } else {
        assert e == [s[0]] + tail;
        forall i | 0 <= i && i + 2 < |e| && e[i] == 0 && e[i + 1] == 0 ensures e[i + 2] > 2 {
          if i > 0 { assert tail[i - 1 + 2] == e[i + 2]; }
        }
      }
    }
  }

  lemma {:induction false} EscapeKeepsLast(s: seq<Byte>, zeros: nat)
    requires s != []
    ensures var e := Escape(s, zeros); e != [] && e[|e| - 1] == s[|s| - 1]
  {
    if |s| > 1 {
      EscapeKeepsLast(s[1..], if s[0] != 0 then 0 else if zeros >= 2 then 1 else zeros + 1);
    }
  }

  /** At most every second byte is escaped. */
  lemma {:induction false} EscapeSize(s: seq<Byte>, zeros: nat)
    ensures 2 * |Escape(s, zeros)| <= 3 * |s| + (if zeros < 2 then zeros else 2)
  {
    if s != [] {
      EscapeSize(s[1..], if s[0] != 0 then 0 else if zeros >= 2 then 1 else zeros + 1);
    }
  }

  /** The escape loop: appends one NAL unit to `output[..size]` if it fits. */
  method AppendNal(output: array<Byte>, size: nat, header: seq<Byte>, rbsp: BitWriter)
    returns (ok: bool, newSize: nat)
    requires rbsp.Valid() && size <= output.Length && output != rbsp.data
    modifies output
    ensures rbsp.Valid() && rbsp.bits == old(rbsp.bits)
    ensures ok <==> rbsp.bitCount % 8 == 0 && size + |Nal(header, rbsp.data[..rbsp.bitCount / 8])| <= output.Length
    ensures ok ==> newSize <= output.Length
    ensures ok ==> output[..newSize] == old(output[..size]) + Nal(header, rbsp.data[..rbsp.bitCount / 8])
  {
    if rbsp.bitCount % 8 != 0 {
      return false, size;
    }
    ghost var bytes := rbsp.data[..rbsp.bitCount / 8];
    ghost var target := old(output[..size]) + Nal(header, bytes);
    if output.Length - size < 4 + |header| {
      return false, size;
    }
    var lead := START_CODE + header;
    forall k | 0 <= k < |lead| { output[size + k] := lead[k]; }
    newSize := size + |lead|;
    assert output[..newSize] == old(output[..size]) + lead;
    ok, newSize := AppendEscaped(output, newSize, rbsp);
    assert old(output[..size]) + lead + Escape(bytes, 0) == target;
  }

  method AppendEscaped(output: array<Byte>, size: nat, rbsp: BitWriter) returns (ok: bool, newSize: nat)
    requires rbsp.Valid() && size <= output.Length && output != rbsp.data
    modifies output
    ensures ok <==> size + |Escape(rbsp.data[..rbsp.bitCount / 8], 0)| <= output.Length
    ensures ok ==> newSize <= output.Length
    ensures ok ==> output[..newSize] == old(output[..size]) + Escape(rbsp.data[..rbsp.bitCount / 8], 0)
  {
    hide Escape, BitWriter.Valid;
    newSize := size;
    var rbspSize := rbsp.bitCount / 8;
    RbspFits(rbsp);
    ghost var bytes := rbsp.data[..rbspSize];
    ghost var target := old(output[..size]) + Escape(bytes, 0);
    var zeroCount := 0;
    var i := 0;
    assert bytes[0..] == bytes;
    while i < rbspSize
      invariant i <= rbspSize && newSize <= output.Length
      invariant bytes == rbsp.data[..rbspSize]
      invariant output[..newSize] + Escape(bytes[i..], zeroCount) == target
    {
      var byte := rbsp.data[i];
      ghost var before := output[..newSize];
      assert bytes[i..][0] == byte && bytes[i..][1..] == bytes[i + 1..];
      EscapeStep(bytes[i..], zeroCount);
      ghost var rest := Escape(bytes[i + 1..], if byte == 0 then (if zeroCount >= 2 then 1 else zeroCount + 1) else 0);
      if zeroCount >= 2 && byte <= 3 {
        if newSize >= output.Length {
          return false, newSize;
        }
        output[newSize] := 3;
        newSize := newSize + 1;
        zeroCount := 0;
        assert output[..newSize] == before + [3];
        AssocOne(before, 3, [byte] + rest);
      }
      ghost var middle := output[..newSize];
      assert middle + ([byte] + rest) == target;
      if newSize >= output.Length {
        return false, newSize;
      }
      output[newSize] := byte;
      newSize := newSize + 1;
      assert output[..newSize] == middle + [byte];
      AssocOne(middle, byte, rest);
      zeroCount := if byte == 0 then zeroCount + 1 else 0;
      i := i + 1;
    }
    EscapeEnd(bytes[i..], zeroCount);
    return true, newSize;
  }

  lemma EscapeEnd(s: seq<Byte>, zeros: nat)
    requires s == []
    ensures Escape(s, zeros) == []
  {
  }

  lemma RbspFits(rbsp: BitWriter)
    requires rbsp.Valid()
    ensures rbsp.bitCount / 8 <= rbsp.data.Length
  {
  }

  /** One turn of the escape loop. */
  lemma EscapeStep(s: seq<Byte>, zeros: nat)
    requires s != []
    ensures var next := Escape(s[1..], if s[0] == 0 then (if zeros >= 2 then 1 else zeros + 1) else 0);
            Escape(s, zeros) == if zeros >= 2 && s[0] <= 3 then [3] + ([s[0]] + next) else [s[0]] + next
  {
    if zeros >= 2 && s[0] <= 3 {
      var next := Escape(s[1..], if s[0] == 0 then 1 else 0);
      assert [3, s[0]] + next == [3] + ([s[0]] + next);
    }
  }

  lemma AssocOne(a: seq<Byte>, b: Byte, c: seq<Byte>)
    ensures a + ([b] + c) == a + [b] + c
  {
  }

  function Clip(s: seq<Byte>, n: nat): seq<Byte> {
    if |s| <= n then s else s[..n]
  }

  /** The unescape loop of the slice readers, which keeps at most `data.Length` bytes. */
  method UnescapeInto(data: array<Byte>, source: seq<Byte>, from: nat) returns (size: nat)
    requires from <= |source|
    modifies data
    ensures size <= data.Length && data[..size] == Clip(Unescape(source[from..], 0), data.Length)
  {
    ghost var target := Unescape(source[from..], 0);
    var zeroCount := 0;
    var input := from;
    size := 0;
    while input < |source| && size < data.Length
      invariant from <= input <= |source| && size <= data.Length
      invariant data[..size] + Unescape(source[input..], zeroCount) == target
    {
      var byte := source[input];
      assert source[input..][1..] == source[input + 1..];
      input := input + 1;
      if zeroCount >= 2 && byte == 3 {
        zeroCount := 0;
        continue;
      }
      ghost var before := data[..size];
      data[size] := byte;
      size := size + 1;
      assert data[..size] == before + [byte];
      zeroCount := if byte == 0 then zeroCount + 1 else 0;
      AssocOne(before, byte, Unescape(source[input..], zeroCount));
    }
    assert data[..size] == target[..size];
  }

  /** The length of a leading start code, or 0. */
  function PrefixSize(data: seq<Byte>): (n: nat)
    ensures n <= |data|
  {
    if |data| >= 4 && data[0] == 0 && data[1] == 0 && data[2] == 0 && data[3] == 1 then 4
    else if |data| >= 3 && data[0] == 0 && data[1] == 0 && data[2] == 1 then 3
    else 0
  }

  ghost predicate StartCodeAt(data: seq<Byte>, i: nat) {
    i + 4 <= |data| && data[i] == 0 && data[i + 1] == 0 && data[i + 2] == 0 && data[i + 3] == 1
  }

  /** The scan that finds where the first NAL unit of a configuration ends. */
  method FirstNalSize(config: seq<Byte>) returns (n: nat)
    ensures n != 0 ==> n >= 4 && StartCodeAt(config, n)
    ensures forall j: nat :: 4 <= j && StartCodeAt(config, j) ==> n != 0 && n <= j
  {
    var i := 4;
    while i + 4 <= |config|
      invariant 4 <= i
      invariant forall j: nat :: 4 <= j < i ==> !StartCodeAt(config, j)
    {
      if config[i] == 0 && config[i + 1] == 0 && config[i + 2] == 0 && config[i + 3] == 1 {
        return i;
      }
      i := i + 1;
    }
    return 0;
  }

  /**
    A NAL unit whose header byte is above 1 and whose payload ends in a nonzero byte holds no start code
    after its own, not even one that runs into whatever follows.
   */
  lemma NoInnerStartCode(header: Byte, rbsp: seq<Byte>, rest: seq<Byte>, j: nat)
    requires header > 1
    requires rbsp != [] && rbsp[|rbsp| - 1] != 0
    requires 4 <= j < |Nal([header], rbsp)|
    ensures !StartCodeAt(Nal([header], rbsp) + rest, j)
  {
    var e := Escape(rbsp, 0);
    var nal := Nal([header], rbsp);
    EscapeHasNoEmulation(rbsp, 0);
    EscapeKeepsLast(rbsp, 0);
    hide Escape;
    assert |nal| == 5 + |e| && nal[4] == header;
    if j >= 5 {
      assert nal[j] == e[j - 5];
      if j + 2 < |nal| {
        assert e[j - 5 + 1] == nal[j + 1] && e[j - 5 + 2] == nal[j + 2];
      } else if j + 1 < |nal| {
        assert e[j - 5 + 1] == nal[j + 1];
      }
    }
  }

  // ---------- parameter sets ----------

  /** The payload bits of a parameter set: its elements, the stop bit and the alignment zeros. */
  function RbspBits(s: Syntax): (bits: seq<bool>)
    ensures |bits| % 8 == 0
  {
    Encode(s, []) + Trailing(|Encode(s, [])|)
  }

  function Rbsp(s: Syntax): seq<Byte> {
    Pack(RbspBits(s))
  }

  /** Every put call of a chain, then the trailing bits. */
  method Compile(s: Syntax, capacity: nat, maxField: nat) returns (ok: bool, w: BitWriter)
    requires AllCodable(s, maxField) && maxField >= 32
    ensures fresh(w) && fresh(w.data) && w.Valid()
    ensures ok <==> |RbspBits(s)| <= 8 * capacity
    ensures ok ==> w.bits == RbspBits(s)
  {
    hide Encode, BitWriter.Valid, AllCodable;
    w := new BitWriter(capacity, maxField);
    CodableIsWritable(s, maxField);
    ok := w.Write(s);
    if !ok {
      return;
    }
    assert w.bits == Encode(s, []);
    ok := w.FinishRbsp();
  }

  /** Appends a compiled parameter set as a NAL unit. */
  method AppendSet(output: array<Byte>, size: nat, header: seq<Byte>, w: BitWriter, ghost s: Syntax)
    returns (ok: bool, newSize: nat)
    requires w.Valid() && w.bits == RbspBits(s) && size <= output.Length && output != w.data
    modifies output
    ensures ok <==> size + |Nal(header, Rbsp(s))| <= output.Length
    ensures ok ==> newSize == size + |Nal(header, Rbsp(s))|
    ensures ok ==> output[..newSize] == old(output[..size]) + Nal(header, Rbsp(s))
  {
    hide RbspBits, Nal, BitWriter.Valid, Pack;
    w.BytesAreBits();
    ok, newSize := AppendNal(output, size, header, w);
  }

  /** An upper bound on a NAL unit, from the number of elements in its payload. */
  lemma NalSize(header: seq<Byte>, s: Syntax, width: nat)
    requires AllCodable(s, width) && width <= 63
    ensures |RbspBits(s)| <= 63 * Length(s) + 8
    ensures 16 * |Nal(header, Rbsp(s))| <= 16 * (4 + |header|) + 3 * (63 * Length(s) + 8)
  {
    hide Encode, Escape, AllCodable, Pack, Length;
    CodableWider(s, width, 63);
    EncodeSize(s);
    EscapeSize(Rbsp(s), 0);
  }

  /** A parameter set's payload ends in the byte that holds the stop bit, which is never zero. */
  lemma RbspEndsNonzero(s: Syntax)
    ensures var r := Rbsp(s); r != [] && r[|r| - 1] != 0
  {
    hide Encode, Pack, Octet;
    var bits := RbspBits(s);
    var bytes := Rbsp(s);
    var n := |Encode(s, [])|;
    UnpackOfPack(bits);
    UnpackAt(bytes, |bytes| - 1, n % 8);
    assert 8 * (|bytes| - 1) + n % 8 == n;
    assert bits[n];
    ZeroOctet(n % 8);
  }
}
