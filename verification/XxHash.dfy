/** xxHash (libmy/xxhash.c, little-endian): hashing piece by piece gives the hash
    of the whole, for XXH32 and XXH64 and every way of cutting the input. */
module XxHash {
  import opened ByteOrder

  const TWO32 := 0x1_0000_0000
  const TWO64 := 0x1_0000_0000_0000_0000

  // ---------- what both widths share ----------

  /** A hash that consumes whole stripes and then what is left, with the total length. */
  datatype Algorithm<!A, !H> = Algorithm(stripe: nat, start: A, absorb: (A, Bytes) -> A, finish: (A, nat, Bytes) -> H) {
    predicate Ok() { stripe > 0 }
  }

  function Absorb<A, H>(alg: Algorithm<A, H>, a: A, data: Bytes): A
    requires alg.Ok()
    decreases |data|
  {
    if |data| < alg.stripe then a else Absorb(alg, alg.absorb(a, data[..alg.stripe]), data[alg.stripe..])
  }

  /** What is left after the whole stripes. */
  function Left<A, H>(alg: Algorithm<A, H>, data: Bytes): (r: Bytes)
    requires alg.Ok()
    ensures |r| < alg.stripe && |r| <= |data|
    decreases |data|
  {
    if |data| < alg.stripe then data else Left(alg, data[alg.stripe..])
  }

  function Hash<A, H>(alg: Algorithm<A, H>, data: Bytes): H
    requires alg.Ok()
  {
    alg.finish(Absorb(alg, alg.start, data), |data|, Left(alg, data))
  }

  /** Feeding x and then y is feeding y behind what x left over. */
  lemma {:induction false} FeedTwice<A, H>(alg: Algorithm<A, H>, a: A, x: Bytes, y: Bytes)
    requires alg.Ok()
    ensures Absorb(alg, a, x + y) == Absorb(alg, Absorb(alg, a, x), Left(alg, x) + y)
    ensures Left(alg, x + y) == Left(alg, Left(alg, x) + y)
    decreases |x|
  {
    if |x| >= alg.stripe {
      FeedTwice(alg, alg.absorb(a, x[..alg.stripe]), x[alg.stripe..], y);
      assert (x + y)[..alg.stripe] == x[..alg.stripe] && (x + y)[alg.stripe..] == x[alg.stripe..] + y;
    }
  }

  lemma AbsorbOne<A, H>(alg: Algorithm<A, H>, a: A, data: Bytes)
    requires alg.Ok() && |data| >= alg.stripe
    ensures Absorb(alg, a, data) == Absorb(alg, alg.absorb(a, data[..alg.stripe]), data[alg.stripe..])
    ensures Left(alg, data) == Left(alg, data[alg.stripe..])
  {
  }

  lemma AbsorbNone<A, H>(alg: Algorithm<A, H>, a: A, data: Bytes)
    requires alg.Ok() && |data| < alg.stripe
    ensures Absorb(alg, a, data) == a && Left(alg, data) == data
  {
  }

  method CopyInto(dst: array<byte>, at: nat, src: Bytes)
    requires at + |src| <= dst.Length
    modifies dst
    ensures dst[..] == old(dst[..at]) + src + old(dst[at + |src|..])
  {
    var i := 0;
    while i < |src|
      invariant i <= |src|
      invariant forall k :: 0 <= k < dst.Length ==> dst[k] == if at <= k < at + i then src[k - at] else old(dst[k])
    {
      dst[at + i] := src[i];
      i := i + 1;
    }
  }

  /** The streaming state; `fed` is everything given to it so far. */
  class Stream<A, H> {
    const alg: Algorithm<A, H>
    var totalLen: nat
    var v: A
    const mem: array<byte>
    var memsize: nat
    ghost var fed: Bytes

    /** Between calls the buffer holds less than a stripe. */
    ghost predicate Valid()
      reads this, mem
    {
      && alg.Ok() && mem.Length == alg.stripe && memsize < alg.stripe && totalLen == |fed|
      && mem[..memsize] == Left(alg, fed) && v == Absorb(alg, alg.start, fed)
    }

    constructor (alg: Algorithm<A, H>)
      requires alg.Ok()
      ensures Valid() && this.alg == alg && fresh(mem) && fed == []
    {
      this.alg := alg;
      mem := new byte[alg.stripe](_ => 0);
      totalLen, v, memsize, fed := 0, alg.start, 0, [];
    }

    method Update(input: Bytes)
      requires Valid() && totalLen + |input| < TWO64
      modifies this`totalLen, this`v, this`memsize, this`fed, mem
      ensures Valid() && fed == old(fed) + input
    {
      hide Absorb, Left;
      FeedTwice(alg, alg.start, fed, input);
      ghost var all, was := mem[..memsize] + input, v;
      totalLen := totalLen + |input|;
      fed := fed + input;
      if memsize + |input| < mem.Length {
        AbsorbNone(alg, was, all);
        CopyInto(mem, memsize, input);
        memsize := memsize + |input|;
        assert mem[..memsize] == all;
        return;
      }
      var p := 0;
      if memsize > 0 {
        p := mem.Length - memsize;
        CopyInto(mem, memsize, input[..p]);
        AbsorbOne(alg, was, all);
        assert mem[..] == all[..mem.Length];
        v := alg.absorb(v, mem[..]);
        memsize := 0;
        assert all[mem.Length..] == input[p..];
      } else {
        assert all == input[p..];
      }
      while p + mem.Length <= |input|
        invariant 0 <= p <= |input| && memsize == 0 && alg.Ok() && mem.Length == alg.stripe
        invariant Absorb(alg, was, all) == Absorb(alg, v, input[p..]) && Left(alg, all) == Left(alg, input[p..])
        invariant totalLen == |fed| && fed == old(fed) + input
      {
        AbsorbOne(alg, v, input[p..]);
        assert input[p..][..mem.Length] == input[p..p + mem.Length] && input[p..][mem.Length..] == input[p + mem.Length..];
        v := alg.absorb(v, input[p..p + mem.Length]);
        p := p + mem.Length;
      }
      AbsorbNone(alg, v, input[p..]);
      if p < |input| {
        CopyInto(mem, 0, input[p..]);
        memsize := |input| - p;
      }
      assert mem[..memsize] == input[p..];
    }

    method Digest() returns (h: H)
      requires Valid()
      ensures h == Hash(alg, fed)
    {
      h := alg.finish(v, totalLen, mem[..memsize]);
    }
  }

  function Joined(parts: seq<Bytes>): Bytes { if |parts| == 0 then [] else Joined(parts[..|parts| - 1]) + parts[|parts| - 1] }

  /** However the input is cut, the state stands for the whole. */
  method FeedParts<A, H>(alg: Algorithm<A, H>, parts: seq<Bytes>) returns (s: Stream<A, H>)
    requires alg.Ok() && |Joined(parts)| < TWO64
    ensures fresh(s) && fresh(s.mem) && s.Valid() && s.alg == alg && s.fed == Joined(parts)
  {
    s := new Stream<A, H>(alg);
    var i := 0;
    while i < |parts|
      invariant i <= |parts| && fresh(s) && fresh(s.mem) && s.Valid() && s.alg == alg && s.fed == Joined(parts[..i])
    {
      assert parts[..i + 1][..i] == parts[..i];
      JoinedGrows(parts, i + 1);
      s.Update(parts[i]);
      i := i + 1;
    }
    assert parts[..i] == parts;
  }

  /** And the digest is the hash of the whole. */
  method HashParts<A, H>(alg: Algorithm<A, H>, parts: seq<Bytes>) returns (h: H)
    requires alg.Ok() && |Joined(parts)| < TWO64
    ensures h == Hash(alg, Joined(parts))
  {
    var s := FeedParts(alg, parts);
    h := s.Digest();
  }

  lemma {:induction false} JoinedGrows(parts: seq<Bytes>, k: nat)
    requires k <= |parts|
    ensures |Joined(parts[..k])| <= |Joined(parts)|
    decreases |parts| - k
  {
    if k < |parts| {
      JoinedGrows(parts, k + 1);
      assert parts[..k + 1][..k] == parts[..k];
    } else {
      assert parts[..k] == parts;
    }
  }

  // ---------- XXH32 ----------

  const PRIME32_1: bv32 := 2654435761
  const PRIME32_2: bv32 := 2246822519
  const PRIME32_3: bv32 := 3266489917
  const PRIME32_4: bv32 := 668265263
  const PRIME32_5: bv32 := 374761393

  datatype Lanes<T> = Lanes(v1: T, v2: T, v3: T, v4: T)

  function Rotl32(x: bv32, r: nat): bv32
    requires r <= 32
  {
    (x << r) | (x >> (32 - r))
  }

  /** A little-endian load. */
  function Load32(b0: byte, b1: byte, b2: byte, b3: byte): bv32 {
    (b0 as bv32) | ((b1 as bv32) << 8) | ((b2 as bv32) << 16) | ((b3 as bv32) << 24)
  }

  function Read32(s: Bytes, p: nat): bv32
    requires p + 4 <= |s|
  {
    Load32(s[p], s[p + 1], s[p + 2], s[p + 3])
  }

  function Start32(seed: bv32): Lanes<bv32> { Lanes(seed + PRIME32_1 + PRIME32_2, seed + PRIME32_2, seed + 0, seed - PRIME32_1) }

  function Round32(v: bv32, input: bv32): bv32 { Rotl32(v + input * PRIME32_2, 13) * PRIME32_1 }

  function Stripe32(a: Lanes<bv32>, s: Bytes): Lanes<bv32> {
    if |s| != 16 then a
    else Lanes(Round32(a.v1, Read32(s, 0)), Round32(a.v2, Read32(s, 4)), Round32(a.v3, Read32(s, 8)), Round32(a.v4, Read32(s, 12)))
  }

  function Merge32(a: Lanes<bv32>): bv32 { Rotl32(a.v1, 1) + Rotl32(a.v2, 7) + Rotl32(a.v3, 12) + Rotl32(a.v4, 18) }

  function Word32(h: bv32, w: bv32): bv32 { Rotl32(h + w * PRIME32_3, 17) * PRIME32_4 }

  function Byte32(h: bv32, b: byte): bv32 { Rotl32(h + (b as bv32) * PRIME32_5, 11) * PRIME32_1 }

  function Tail32(h: bv32, t: Bytes): bv32
    decreases |t|
  {
    if |t| >= 4 then Tail32(Word32(h, Read32(t, 0)), t[4..])
    else if |t| > 0 then Tail32(Byte32(h, t[0]), t[1..])
    else h
  }

  function Avalanche32(h: bv32): bv32 {
    var h1 := (h ^ (h >> 15)) * PRIME32_2;
    var h2 := (h1 ^ (h1 >> 13)) * PRIME32_3;
    h2 ^ (h2 >> 16)
  }

  function Length32(total: nat): bv32 { (total % TWO32) as bv32 }

  function Begin32(seed: bv32, a: Lanes<bv32>, total: nat): bv32 {
    (if total >= 16 then Merge32(a) else seed + PRIME32_5) + Length32(total)
  }

  function Finish32(seed: bv32, a: Lanes<bv32>, total: nat, tail: Bytes): bv32 {
    Avalanche32(Tail32(Begin32(seed, a, total), tail))
  }

  function Xxh32(seed: bv32): Algorithm<Lanes<bv32>, bv32> {
    Algorithm(16, Start32(seed), Stripe32, (a, total, tail) => Finish32(seed, a, total, tail))
  }

  /** What is left after the stripes: whole words, then bytes. */
  method TailLoop32(start: bv32, tail: Bytes) returns (h: bv32)
    ensures h == Tail32(start, tail)
  {
    hide Word32, Byte32, Read32, Tail32;
    h := start;
    var p := 0;
    assert tail[0..] == tail;
    while p + 4 <= |tail|
      invariant 0 <= p <= |tail| && Tail32(h, tail[p..]) == Tail32(start, tail)
    {
      WordRead32(h, tail, p);
      h := Word32(h, Read32(tail, p));
      p := p + 4;
    }
    while p < |tail|
      invariant 0 <= p <= |tail| < p + 4 && Tail32(h, tail[p..]) == Tail32(start, tail)
    {
      ByteRead32(h, tail, p);
      h := Byte32(h, tail[p]);
      p := p + 1;
    }
    NothingRead32(h, tail[p..]);
  }

  /** The last part of both the one-shot hash and the digest. */
  method FinishLoop32(seed: bv32, a: Lanes<bv32>, total: nat, tail: Bytes) returns (h: bv32)
    ensures h == Finish32(seed, a, total, tail)
  {
    hide Begin32, Avalanche32, Tail32;
    h := TailLoop32(Begin32(seed, a, total), tail);
    h := Avalanche32(h);
  }

  /** The digest of a streaming state. */
  method Digest32(s: Stream<Lanes<bv32>, bv32>, seed: bv32) returns (h: bv32)
    requires s.Valid() && s.alg == Xxh32(seed)
    ensures h == Hash(s.alg, s.fed)
  {
    hide Finish32, Start32, Stripe32, Absorb, Left;
    h := FinishLoop32(seed, s.v, s.totalLen, s.mem[..s.memsize]);
  }

  lemma WordRead32(h: bv32, t: Bytes, p: nat)
    requires p + 4 <= |t|
    ensures Tail32(h, t[p..]) == Tail32(Word32(h, Read32(t, p)), t[p + 4..])
  {
    hide Word32, Byte32;
    Reread32(t, p);
    assert t[p..][4..] == t[p + 4..];
    hide Read32;
  }

  lemma Reread32(t: Bytes, p: nat)
    requires p + 4 <= |t|
    ensures Read32(t[p..], 0) == Read32(t, p)
  {
    hide Load32;
  }

  lemma ByteRead32(h: bv32, t: Bytes, p: nat)
    requires p < |t| < p + 4
    ensures Tail32(h, t[p..]) == Tail32(Byte32(h, t[p]), t[p + 1..])
  {
    hide Word32, Byte32, Read32;
    assert t[p..][1..] == t[p + 1..];
  }

  lemma NothingRead32(h: bv32, t: Bytes)
    requires |t| == 0
    ensures Tail32(h, t) == h
  {
  }

  method OneShot32(input: Bytes, seed: bv32) returns (h: bv32)
    ensures h == Hash(Xxh32(seed), input)
  {
    hide Stripe32, Finish32, Start32, Absorb, Left;
    var alg := Xxh32(seed);
    var p := 0;
    var a := Start32(seed);
    assert input[0..] == input;
    while p + 16 <= |input|
      invariant 0 <= p <= |input| && Absorb(alg, a, input[p..]) == Absorb(alg, alg.start, input) && Left(alg, input[p..]) == Left(alg, input)
    {
      AbsorbOne(alg, a, input[p..]);
      assert input[p..][..16] == input[p..p + 16] && input[p..][16..] == input[p + 16..];
      a := Stripe32(a, input[p..p + 16]);
      p := p + 16;
    }
    AbsorbNone(alg, a, input[p..]);
    h := FinishLoop32(seed, a, |input|, input[p..]);
  }

  method Streaming32(seed: bv32, parts: seq<Bytes>) returns (streamed: bv32, whole: bv32)
    requires |Joined(parts)| < TWO64
    ensures streamed == whole == Hash(Xxh32(seed), Joined(parts))
  {
    var s := FeedParts(Xxh32(seed), parts);
    streamed := Digest32(s, seed);
    whole := OneShot32(Joined(parts), seed);
  }

  // ---------- XXH64 ----------

  const PRIME64_1: bv64 := 11400714785074694791
  const PRIME64_2: bv64 := 14029467366897019727
  const PRIME64_3: bv64 := 1609587929392839161
  const PRIME64_4: bv64 := 9650029242287828579
  const PRIME64_5: bv64 := 2870177450012600261

  function Rotl64(x: bv64, r: nat): bv64
    requires r <= 64
  {
    (x << r) | (x >> (64 - r))
  }

  function Load64(b0: byte, b1: byte, b2: byte, b3: byte, b4: byte, b5: byte, b6: byte, b7: byte): bv64 {
    (b0 as bv64) | ((b1 as bv64) << 8) | ((b2 as bv64) << 16) | ((b3 as bv64) << 24)
    | ((b4 as bv64) << 32) | ((b5 as bv64) << 40) | ((b6 as bv64) << 48) | ((b7 as bv64) << 56)
  }

  function Read64(s: Bytes, p: nat): bv64
    requires p + 8 <= |s|
  {
    Load64(s[p], s[p + 1], s[p + 2], s[p + 3], s[p + 4], s[p + 5], s[p + 6], s[p + 7])
  }

  function Start64(seed: bv64): Lanes<bv64> { Lanes(seed + PRIME64_1 + PRIME64_2, seed + PRIME64_2, seed + 0, seed - PRIME64_1) }

  function Round64(v: bv64, input: bv64): bv64 { Rotl64(v + input * PRIME64_2, 31) * PRIME64_1 }

  function Stripe64(a: Lanes<bv64>, s: Bytes): Lanes<bv64> {
    if |s| != 32 then a
    else Lanes(Round64(a.v1, Read64(s, 0)), Round64(a.v2, Read64(s, 8)), Round64(a.v3, Read64(s, 16)), Round64(a.v4, Read64(s, 24)))
  }

  function MergeRound64(h: bv64, v: bv64): bv64 { (h ^ (Rotl64(v * PRIME64_2, 31) * PRIME64_1)) * PRIME64_1 + PRIME64_4 }

  function Merge64(a: Lanes<bv64>): bv64 {
    var h := Rotl64(a.v1, 1) + Rotl64(a.v2, 7) + Rotl64(a.v3, 12) + Rotl64(a.v4, 18);
    MergeRound64(MergeRound64(MergeRound64(MergeRound64(h, a.v1), a.v2), a.v3), a.v4)
  }

  function Word64(h: bv64, k: bv64): bv64 { Rotl64(h ^ (Rotl64(k * PRIME64_2, 31) * PRIME64_1), 27) * PRIME64_1 + PRIME64_4 }

  function Half64(h: bv64, w: bv32): bv64 { Rotl64(h ^ ((w as bv64) * PRIME64_1), 23) * PRIME64_2 + PRIME64_3 }

  function Byte64(h: bv64, b: byte): bv64 { Rotl64(h ^ ((b as bv64) * PRIME64_5), 11) * PRIME64_1 }

  function Tail64(h: bv64, t: Bytes): bv64
    decreases |t|
  {
    if |t| >= 8 then Tail64(Word64(h, Read64(t, 0)), t[8..])
    else if |t| >= 4 then Tail64(Half64(h, Read32(t, 0)), t[4..])
    else if |t| > 0 then Tail64(Byte64(h, t[0]), t[1..])
    else h
  }

  function Avalanche64(h: bv64): bv64 {
    var h1 := (h ^ (h >> 33)) * PRIME64_2;
    var h2 := (h1 ^ (h1 >> 29)) * PRIME64_3;
    h2 ^ (h2 >> 32)
  }

  function Length64(total: nat): bv64 { (total % TWO64) as bv64 }

  function Begin64(seed: bv64, a: Lanes<bv64>, total: nat): bv64 {
    (if total >= 32 then Merge64(a) else seed + PRIME64_5) + Length64(total)
  }

  function Finish64(seed: bv64, a: Lanes<bv64>, total: nat, tail: Bytes): bv64 {
    Avalanche64(Tail64(Begin64(seed, a, total), tail))
  }

  function Xxh64(seed: bv64): Algorithm<Lanes<bv64>, bv64> {
    Algorithm(32, Start64(seed), Stripe64, (a, total, tail) => Finish64(seed, a, total, tail))
  }

  /** What is left after the stripes: whole words, then bytes. */
  method TailLoop64(start: bv64, tail: Bytes) returns (h: bv64)
    ensures h == Tail64(start, tail)
  {
    hide Word64, Half64, Byte64, Read64, Read32, Tail64;
    h := start;
    var p := 0;
    assert tail[0..] == tail;
    while p + 8 <= |tail|
      invariant 0 <= p <= |tail| && Tail64(h, tail[p..]) == Tail64(start, tail)
    {
      WordRead64(h, tail, p);
      h := Word64(h, Read64(tail, p));
      p := p + 8;
    }
    if p + 4 <= |tail| {
      HalfRead64(h, tail, p);
      h := Half64(h, Read32(tail, p));
      p := p + 4;
    }
    while p < |tail|
      invariant 0 <= p <= |tail| < p + 4 && Tail64(h, tail[p..]) == Tail64(start, tail)
    {
      ByteRead64(h, tail, p);
      h := Byte64(h, tail[p]);
      p := p + 1;
    }
    NothingRead64(h, tail[p..]);
  }

  /** The last part of both the one-shot hash and the digest. */
  method FinishLoop64(seed: bv64, a: Lanes<bv64>, total: nat, tail: Bytes) returns (h: bv64)
    ensures h == Finish64(seed, a, total, tail)
  {
    hide Begin64, Avalanche64, Tail64;
    h := TailLoop64(Begin64(seed, a, total), tail);
    h := Avalanche64(h);
  }

  /** The digest of a streaming state. */
  method Digest64(s: Stream<Lanes<bv64>, bv64>, seed: bv64) returns (h: bv64)
    requires s.Valid() && s.alg == Xxh64(seed)
    ensures h == Hash(s.alg, s.fed)
  {
    hide Finish64, Start64, Stripe64, Absorb, Left;
    h := FinishLoop64(seed, s.v, s.totalLen, s.mem[..s.memsize]);
  }

  lemma WordRead64(h: bv64, t: Bytes, p: nat)
    requires p + 8 <= |t|
    ensures Tail64(h, t[p..]) == Tail64(Word64(h, Read64(t, p)), t[p + 8..])
  {
    hide Word64, Half64, Byte64, Read32;
    Reread64(t, p);
    assert t[p..][8..] == t[p + 8..];
    hide Read64;
  }

  lemma Reread64(t: Bytes, p: nat)
    requires p + 8 <= |t|
    ensures Read64(t[p..], 0) == Read64(t, p)
  {
    hide Load64;
  }

  lemma HalfRead64(h: bv64, t: Bytes, p: nat)
    requires p + 4 <= |t| < p + 8
    ensures Tail64(h, t[p..]) == Tail64(Half64(h, Read32(t, p)), t[p + 4..])
  {
    hide Word64, Half64, Byte64, Read64;
    Reread32(t, p);
    assert t[p..][4..] == t[p + 4..];
    hide Read32;
  }

  lemma ByteRead64(h: bv64, t: Bytes, p: nat)
    requires p < |t| < p + 4
    ensures Tail64(h, t[p..]) == Tail64(Byte64(h, t[p]), t[p + 1..])
  {
    hide Word64, Half64, Byte64, Read64, Read32;
    assert t[p..][1..] == t[p + 1..];
  }

  lemma NothingRead64(h: bv64, t: Bytes)
    requires |t| == 0
    ensures Tail64(h, t) == h
  {
  }

  method OneShot64(input: Bytes, seed: bv64) returns (h: bv64)
    ensures h == Hash(Xxh64(seed), input)
  {
    hide Stripe64, Finish64, Start64, Absorb, Left;
    var alg := Xxh64(seed);
    var p := 0;
    var a := Start64(seed);
    assert input[0..] == input;
    while p + 32 <= |input|
      invariant 0 <= p <= |input| && Absorb(alg, a, input[p..]) == Absorb(alg, alg.start, input) && Left(alg, input[p..]) == Left(alg, input)
    {
      AbsorbOne(alg, a, input[p..]);
      assert input[p..][..32] == input[p..p + 32] && input[p..][32..] == input[p + 32..];
      a := Stripe64(a, input[p..p + 32]);
      p := p + 32;
    }
    AbsorbNone(alg, a, input[p..]);
    h := FinishLoop64(seed, a, |input|, input[p..]);
  }

  method Streaming64(seed: bv64, parts: seq<Bytes>) returns (streamed: bv64, whole: bv64)
    requires |Joined(parts)| < TWO64
    ensures streamed == whole == Hash(Xxh64(seed), Joined(parts))
  {
    var s := FeedParts(Xxh64(seed), parts);
    streamed := Digest64(s, seed);
    whole := OneShot64(Joined(parts), seed);
  }
}
