/** Variable-length and fixed-width integers (mtbl/varint.c, mtbl/fixed.c) and
    the metadata trailer built from them (mtbl/metadata.c). */
module Codec {
  import opened ByteOrder

  const TWO32: nat := 0x1_0000_0000
  const TWO64: nat := 0x1_0000_0000_0000_0000

  // ---------- variable-length integers: what the bytes mean ----------

  /** Seven bits a byte, least significant first; the top bit marks continuation. */
  function VarintBytes(v: nat): (r: Bytes)
    ensures |r| >= 1
  {
    if v < 128 then [v] else [v % 128 + 128] + VarintBytes(v / 128)
  }

  /** The number carried by the first n bytes: byte i contributes its low seven bits at place 128^i. */
  function VarintValue(data: Bytes, n: nat): nat
    requires n <= |data|
  {
    if n == 0 then 0 else VarintValue(data, n - 1) + Shifted(data[n - 1], n - 1)
  }

  function Shifted(b: byte, place: nat): nat { Pow128(place) * (b % 128) }

  /** Bytes up to and including the first one with a clear top bit; 0 if there is none. */
  function VarintSpan(data: Bytes): (n: nat)
    ensures n <= |data|
    ensures n > 0 ==> data[n - 1] < 128 && forall i :: 0 <= i < n - 1 ==> data[i] >= 128
    ensures n == 0 ==> forall i :: 0 <= i < |data| ==> data[i] >= 128
  {
    if |data| == 0 then 0
    else if data[0] < 128 then 1
    else if VarintSpan(data[1..]) == 0 then 0
    else 1 + VarintSpan(data[1..])
  }

  lemma {:induction false} VarintValueHead(data: Bytes, n: nat)
    requires 0 < n <= |data|
    ensures VarintValue(data, n) == data[0] % 128 + 128 * VarintValue(data[1..], n - 1)
  {
    ShiftOnce(data[n - 1], n - 1);
    if n > 1 { VarintValueHead(data, n - 1); }
  }

  lemma ShiftOnce(b: byte, place: nat)
    ensures place == 0 ==> Shifted(b, place) == b % 128
    ensures place > 0 ==> Shifted(b, place) == 128 * Shifted(b, place - 1)
  {
  }

  /** Whatever follows it, an encoded number decodes to itself and reports its own length. */
  lemma {:induction false} VarintRoundTrip(v: nat, data: Bytes)
    requires VarintBytes(v) <= data
    ensures VarintSpan(data) == |VarintBytes(v)|
    ensures VarintValue(data, |VarintBytes(v)|) == v
  {
    assert data[0] == VarintBytes(v)[0];
    VarintValueHead(data, |VarintBytes(v)|);
    if v >= 128 {
      assert VarintBytes(v / 128) == VarintBytes(v)[1..] <= data[1..];
      VarintRoundTrip(v / 128, data[1..]);
    }
  }

  lemma VarintLengths(v: nat)
    ensures v < 128 <==> |VarintBytes(v)| == 1
    ensures v < TWO32 ==> |VarintBytes(v)| <= 5
    ensures v < TWO64 ==> |VarintBytes(v)| <= 10
  {
    assert Pow128(5) >= TWO32 by { assert Pow128(2) == 16384; }
    assert Pow128(10) >= TWO64 by { assert Pow128(2) == 16384; assert Pow128(6) == 0x400_0000_0000; }
    if v < TWO32 { VarintLengthBound(v, 4); }
    if v < TWO64 { VarintLengthBound(v, 9); }
  }

  function Pow128(n: nat): (p: nat)
    ensures p >= 1
  {
    if n == 0 then 1 else 128 * Pow128(n - 1)
  }

  lemma {:induction false} VarintLengthBound(v: nat, n: nat)
    requires v < Pow128(n + 1)
    ensures |VarintBytes(v)| <= n + 1
  {
    if v >= 128 { VarintLengthBound(v / 128, n - 1); }
  }

  // ---------- the encoders and the decoder ----------

  method VarintLength(v: nat) returns (len: nat)
    requires v < TWO64
    ensures len == |VarintBytes(v)|
  {
    len := 1;
    var rest := v;
    while rest >= 128
      invariant |VarintBytes(v)| == len - 1 + |VarintBytes(rest)|
    {
      rest := rest / 128;
      len := len + 1;
    }
  }

  method VarintEncode32(v: nat) returns (r: Bytes)
    requires v < TWO32
    ensures r == VarintBytes(v)
  {
    if v < 0x80 {
      r := [v];
    } else if v < 0x4000 {
      r := [Continued(v), v / 0x80];
    } else if v < 0x20_0000 {
      r := [Continued(v), Continued(v / 0x80), v / 0x4000];
    } else if v < 0x1000_0000 {
      r := [Continued(v), Continued(v / 0x80), Continued(v / 0x4000), v / 0x20_0000];
    } else {
      r := [Continued(v), Continued(v / 0x80), Continued(v / 0x4000), Continued(v / 0x20_0000), v / 0x1000_0000];
    }
    UnfoldVarint(v);
  }

  /** The low byte of v | 0x80. */
  function Continued(v: nat): byte { v % 128 + 128 }

  lemma UnfoldVarint(v: nat)
    requires v < TWO32
    ensures VarintBytes(v) ==
            if v < 0x80 then [v]
            else if v < 0x4000 then [Continued(v), v / 0x80]
            else if v < 0x20_0000 then [Continued(v), Continued(v / 0x80), v / 0x4000]
            else if v < 0x1000_0000 then [Continued(v), Continued(v / 0x80), Continued(v / 0x4000), v / 0x20_0000]
            else [Continued(v), Continued(v / 0x80), Continued(v / 0x4000), Continued(v / 0x20_0000), v / 0x1000_0000]
  {
    ShiftsCompose(v);
    PeelBytes(v, v / 0x80, v / 0x4000, v / 0x20_0000, v / 0x1000_0000);
  }

  lemma PeelBytes(v: nat, a: nat, b: nat, c: nat, d: nat)
    requires a == v / 128 && b == a / 128 && c == b / 128 && d == c / 128 && d < 128
    ensures VarintBytes(v) ==
            if v < 128 then [v]
            else if a < 128 then [Continued(v), a]
            else if b < 128 then [Continued(v), Continued(a), b]
            else if c < 128 then [Continued(v), Continued(a), Continued(b), c]
            else [Continued(v), Continued(a), Continued(b), Continued(c), d]
  {
    PeelByte(v);
    PeelByte(a);
    PeelByte(b);
    PeelByte(c);
    PeelByte(d);
  }

  lemma ShiftsCompose(v: nat)
    ensures v / 0x80 / 0x80 == v / 0x4000
    ensures v / 0x4000 / 0x80 == v / 0x20_0000
    ensures v / 0x20_0000 / 0x80 == v / 0x1000_0000
  {
  }

  lemma PeelByte(v: nat)
    ensures VarintBytes(v) == if v < 128 then [v] else [Continued(v)] + VarintBytes(v / 128)
  {
  }

  method VarintEncode64(v: nat) returns (r: Bytes)
    requires v < TWO64
    ensures r == VarintBytes(v)
  {
    r := [];
    var rest := v;
    while rest >= 128
      invariant r + VarintBytes(rest) == VarintBytes(v)
    {
      r := r + [rest % 128 + 128];
      rest := rest / 128;
    }
    r := r + [rest];
  }

  /** The shared decoding loop; `budget` is the number of bytes it may read
      (5 for 32-bit values, 10 for 64-bit ones).  An encoding longer than that
      gives value 0 and length 0. */
  method VarintDecode(data: Bytes, budget: nat) returns (value: nat, len: nat)
    requires VarintSpan(data) > 0 || |data| >= budget
    ensures 0 < VarintSpan(data) <= budget ==>
              len == VarintSpan(data) && value == VarintValue(data, len) % TWO64
    ensures !(0 < VarintSpan(data) <= budget) ==> len == 0 && value == 0
  {
    len := 0;
    value := 0;
    while len < budget
      invariant len <= budget && len <= |data|
      invariant VarintSpan(data) == 0 || len < VarintSpan(data)
      invariant value == VarintValue(data, len) % TWO64
    {
      value := WrapAdd(value, Shifted(data[len], len), VarintValue(data, len));
      len := len + 1;
      if data[len - 1] < 128 { return; }
    }
    value, len := 0, 0;
  }

  /** 64-bit addition; `sum` is the unbounded sum whose low 64 bits `x` holds. */
  function WrapAdd(x: nat, y: nat, ghost sum: nat): (r: nat)
    requires x == sum % TWO64
    ensures r == (sum + y) % TWO64
  {
    (x + y) % TWO64
  }

  method VarintDecode32(data: Bytes) returns (value: nat, len: nat)
    requires VarintSpan(data) > 0 || |data| >= 5
    ensures 0 < VarintSpan(data) <= 5 ==>
              len == VarintSpan(data) && value == VarintValue(data, len) % TWO64 % TWO32
    ensures !(0 < VarintSpan(data) <= 5) ==> len == 0 && value == 0
  {
    value, len := VarintDecode(data, 5);
    value := value % TWO32;
  }

  method VarintDecode64(data: Bytes) returns (value: nat, len: nat)
    requires VarintSpan(data) > 0 || |data| >= 10
    ensures 0 < VarintSpan(data) <= 10 ==>
              len == VarintSpan(data) && value == VarintValue(data, len) % TWO64
    ensures !(0 < VarintSpan(data) <= 10) ==> len == 0 && value == 0
  {
    value, len := VarintDecode(data, 10);
  }

  // ---------- fixed-width little-endian integers ----------

  function FixedBytes(v: nat, n: nat): (r: Bytes)
    ensures |r| == n
  {
    if n == 0 then [] else [v % 256] + FixedBytes(v / 256, n - 1)
  }

  function FixedValue(data: Bytes, n: nat): nat
    requires n <= |data|
  {
    if n == 0 then 0 else data[0] + 256 * FixedValue(data[1..], n - 1)
  }

  function Pow256(n: nat): nat { if n == 0 then 1 else 256 * Pow256(n - 1) }

  lemma {:induction false} FixedRoundTrip(v: nat, n: nat, data: Bytes)
    requires FixedBytes(v, n) <= data && v < Pow256(n)
    ensures FixedValue(data, n) == v
  {
    if n > 0 {
      assert data[0] == FixedBytes(v, n)[0];
      assert FixedBytes(v / 256, n - 1) == FixedBytes(v, n)[1..] <= data[1..];
      FixedRoundTrip(v / 256, n - 1, data[1..]);
    }
  }

  function Fixed32(v: nat): (r: Bytes) ensures |r| == 4 { FixedBytes(v, 4) }
  function Fixed64(v: nat): (r: Bytes) ensures |r| == 8 { FixedBytes(v, 8) }
  function Decode32(data: Bytes): nat requires |data| >= 4 { FixedValue(data, 4) }
  function Decode64(data: Bytes): nat requires |data| >= 8 { FixedValue(data, 8) }

  lemma Fixed32RoundTrip(v: nat, data: Bytes)
    requires v < TWO32 && Fixed32(v) <= data
    ensures Decode32(data) == v
  {
    assert Pow256(4) == TWO32 by { assert Pow256(2) == 65536; }
    FixedRoundTrip(v, 4, data);
  }

  lemma {:induction false} FixedBelow(data: Bytes, n: nat)
    requires n <= |data|
    ensures FixedValue(data, n) < Pow256(n)
  {
    if n > 0 { FixedBelow(data[1..], n - 1); }
  }

  lemma Decode32Below(data: Bytes)
    requires |data| >= 4
    ensures Decode32(data) < TWO32
  {
    assert Pow256(4) == TWO32 by { assert Pow256(2) == 65536; }
    FixedBelow(data, 4);
  }

  lemma Fixed64RoundTrip(v: nat, data: Bytes)
    requires v < TWO64 && Fixed64(v) <= data
    ensures Decode64(data) == v
  {
    assert Pow256(8) == TWO64 by { assert Pow256(2) == 65536; assert Pow256(5) == 0x100_0000_0000; }
    FixedRoundTrip(v, 8, data);
  }

  // ---------- the bytes themselves ----------

  /** Least significant byte first. */
  lemma FixedAre(v: nat)
    ensures Fixed32(v) == [v % 256, v / 256 % 256, v / 0x1_0000 % 256, v / 0x100_0000 % 256]
    ensures Fixed64(v) == Fixed32(v) + Fixed32(v / 0x1_0000_0000)
  {
    var a := v / 0x1_0000_0000;
    assert v / 256 / 256 == v / 0x1_0000 && v / 256 / 256 / 256 == v / 0x100_0000 && v / 256 / 256 / 256 / 256 == a;
    Unroll4(v);
    Unroll4(a);
    UnrollFixed(v, 8);
    UnrollFixed(v / 256, 7);
    UnrollFixed(v / 256 / 256, 6);
    UnrollFixed(v / 256 / 256 / 256, 5);
  }

  lemma Unroll4(v: nat)
    ensures FixedBytes(v, 4) == [v % 256, v / 256 % 256, v / 256 / 256 % 256, v / 256 / 256 / 256 % 256]
  {
    UnrollFixed(v, 4);
    UnrollFixed(v / 256, 3);
    UnrollFixed(v / 256 / 256, 2);
    UnrollFixed(v / 256 / 256 / 256, 1);
    assert FixedBytes(v / 256 / 256 / 256 / 256, 0) == [];
  }

  lemma UnrollFixed(v: nat, n: nat)
    requires n > 0
    ensures FixedBytes(v, n) == [v % 256] + FixedBytes(v / 256, n - 1)
  {
  }

  /** A digit of seven bits at a time, and a bound below which each length is enough. */
  lemma VarintExamples()
    ensures VarintBytes(0) == [0] && VarintBytes(127) == [0x7F] && VarintBytes(128) == [0x80, 0x01]
    ensures VarintBytes(300) == [0xAC, 0x02] && VarintBytes(16383) == [0xFF, 0x7F] && VarintBytes(16384) == [0x80, 0x80, 0x01]
  {
  }
}
