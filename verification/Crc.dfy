/** The CRC-32C checksum (libmy/crc32c-slicing.c, little-endian form): the
    slicing-by-8 loop computes the byte-at-a-time reflected CRC of section 12.1
    of RFC 3720, for every length and alignment.

    The operations on words are named, so that proofs can work from their laws. */
module Crc {
  const POLY: bv32 := 0x82F6_3B78

  function Xor(a: bv32, b: bv32): bv32 { a ^ b }
  function Low(c: bv32): bv32 { c & 0xFF }
  function Rest(c: bv32): bv32 { c >> 8 }
  function Half(c: bv32): bv32 { c >> 1 }
  predicate Odd(c: bv32) { c & 1 == 1 }

  type octet = x: bv32 | Low(x) == x witness 0

  /** One bit: divide by the reflected polynomial. */
  function Shift(c: bv32): bv32 { if Odd(c) then Xor(Half(c), POLY) else Half(c) }

  function Shift2(c: bv32): bv32 { Shift(Shift(c)) }
  function Shift4(c: bv32): bv32 { Shift2(Shift2(c)) }

  /** Eight bits: one byte of zeros. */
  function Shift8(c: bv32): bv32 { Shift4(Shift4(c)) }

  /** The definition, one byte after another. */
  function CrcBytes(c: bv32, data: seq<octet>): bv32 {
    if |data| == 0 then c else Shift8(Xor(CrcBytes(c, data[..|data| - 1]), data[|data| - 1]))
  }

  const ONES: bv32 := 0xFFFF_FFFF

  function Crc32c(data: seq<octet>): bv32 { !CrcBytes(ONES, data) }

  // ---------- the laws of the word operations ----------

  lemma HalfOfXor(a: bv32, b: bv32)
    ensures Half(Xor(a, b)) == Xor(Half(a), Half(b))
  {
  }

  lemma LowBit(a: bv32)
    ensures a & 1 == 0 || a & 1 == 1
  {
  }

  lemma LowBitOfXor(a: bv32, b: bv32)
    ensures (a ^ b) & 1 == (a & 1) ^ (b & 1)
  {
  }

  lemma LowBits()
    ensures (1 as bv32) ^ 1 == 0 && (1 as bv32) ^ 0 == 1 && (0 as bv32) ^ 1 == 1 && (0 as bv32) ^ 0 == 0
  {
  }

  lemma OddOfXor(a: bv32, b: bv32)
    ensures Odd(Xor(a, b)) == (Odd(a) != Odd(b))
  {
    LowBit(a);
    LowBit(b);
    LowBits();
    LowBitOfXor(a, b);
  }

  lemma XorIs(x: bv32, y: bv32, r: bv32)
    requires r == x ^ y
    ensures Xor(x, y) == r
  {
  }

  lemma XorAssociates(x: bv32, y: bv32, z: bv32)
    ensures Xor(Xor(x, y), z) == Xor(x, Xor(y, z))
  {
  }

  lemma XorZero(x: bv32)
    ensures Xor(x, 0) == x && Xor(0, x) == x
  {
  }

  lemma XorCommutes(x: bv32, y: bv32)
    ensures Xor(x, y) == Xor(y, x) && Xor(x, x) == 0
  {
  }

  lemma XorMoves(x: bv32, y: bv32, p: bv32)
    ensures Xor(Xor(x, p), y) == Xor(Xor(x, y), p) && Xor(x, Xor(y, p)) == Xor(Xor(x, y), p)
  {
    hide Xor;
    XorAssociates(x, p, y);
    XorAssociates(x, y, p);
    XorCommutes(p, y);
  }

  lemma XorCancels(x: bv32, y: bv32, p: bv32)
    ensures Xor(Xor(x, p), Xor(y, p)) == Xor(x, y)
  {
    hide Xor;
    XorAssociates(Xor(x, p), y, p);
    XorMoves(x, y, p);
    XorAssociates(Xor(x, y), p, p);
    XorCommutes(p, p);
    XorZero(Xor(x, y));
  }

  /** Dividing distributes over exclusive or. */
  lemma ShiftLinear(a: bv32, b: bv32)
    ensures Shift(Xor(a, b)) == Xor(Shift(a), Shift(b))
  {
    hide Xor, Half, Odd;
    HalfOfXor(a, b);
    OddOfXor(a, b);
    XorCancels(Half(a), Half(b), POLY);
    XorMoves(Half(a), Half(b), POLY);
  }

  lemma Shift2Linear(a: bv32, b: bv32)
    ensures Shift2(Xor(a, b)) == Xor(Shift2(a), Shift2(b))
  {
    hide Shift, Xor;
    ShiftLinear(a, b);
    ShiftLinear(Shift(a), Shift(b));
  }

  lemma Shift4Linear(a: bv32, b: bv32)
    ensures Shift4(Xor(a, b)) == Xor(Shift4(a), Shift4(b))
  {
    hide Shift2, Xor;
    Shift2Linear(a, b);
    Shift2Linear(Shift2(a), Shift2(b));
  }

  lemma Shift8Linear(a: bv32, b: bv32)
    ensures Shift8(Xor(a, b)) == Xor(Shift8(a), Shift8(b))
  {
    hide Shift4, Xor;
    Shift4Linear(a, b);
    Shift4Linear(Shift4(a), Shift4(b));
  }

  // ---------- zeros below are shifted out ----------

  lemma ShiftClear(c: bv32)
    requires c & 1 == 0
    ensures Shift(c) == c >> 1
  {
  }

  lemma TwoClear(c: bv32)
    requires c & 3 == 0
    ensures c & 1 == 0 && (c >> 1) & 1 == 0 && (c >> 1) >> 1 == c >> 2
  {
  }

  lemma Shift2Clear(c: bv32)
    requires c & 3 == 0
    ensures Shift2(c) == c >> 2
  {
    hide Shift;
    TwoClear(c);
    ShiftClear(c);
    ShiftClear(c >> 1);
  }

  lemma FourClear(c: bv32)
    requires c & 15 == 0
    ensures c & 3 == 0 && (c >> 2) & 3 == 0 && (c >> 2) >> 2 == c >> 4
  {
  }

  lemma Shift4Clear(c: bv32)
    requires c & 15 == 0
    ensures Shift4(c) == c >> 4
  {
    hide Shift2;
    FourClear(c);
    Shift2Clear(c);
    Shift2Clear(c >> 2);
  }

  lemma EightClear(c: bv32)
    requires c & 255 == 0
    ensures c & 15 == 0 && (c >> 4) & 15 == 0 && (c >> 4) >> 4 == c >> 8
  {
  }

  lemma Shift8Clear(c: bv32)
    requires c & 255 == 0
    ensures Shift8(c) == c >> 8
  {
    hide Shift4;
    EightClear(c);
    Shift4Clear(c);
    Shift4Clear(c >> 4);
  }

  function High(c: bv32): bv32 { c & 0xFFFF_FF00 }

  lemma SplitLow(c: bv32)
    ensures Xor(Low(c), High(c)) == c && High(c) & 0xFF == 0 && High(c) >> 8 == Rest(c)
  {
  }

  lemma HighShifts(c: bv32)
    ensures Shift8(High(c)) == Rest(c)
  {
    hide Shift8;
    SplitLow(c);
    Shift8Clear(High(c));
  }

  /** One byte of the definition is a step on the low byte and a shift. */
  lemma LowAndRest(c: bv32)
    ensures Xor(Shift8(Low(c)), Rest(c)) == Shift8(c)
  {
    hide Shift8, Low, High, Rest, Xor;
    SplitLow(c);
    HighShifts(c);
    Shift8Linear(Low(c), High(c));
  }

  // ---------- the tables ----------

  /** Table k + 1 comes from table k by one more byte of zeros. */
  function Table(k: nat, i: bv32): bv32 {
    if k == 0 then Shift8(i)
    else
      var t := Table(k - 1, i);
      Xor(Table(0, Low(t)), Rest(t))
  }

  /** The entries of the first table at the powers of two, as the source lists them. */
  lemma FirstTableBasis()
    ensures Table(0, 1) == 0xF26B_8303 && Table(0, 2) == 0xE13B_70F7 && Table(0, 4) == 0xC79A_971F && Table(0, 8) == 0x8AD9_58CF
    ensures Table(0, 16) == 0x105E_C76F && Table(0, 32) == 0x20BD_8EDE && Table(0, 64) == 0x417B_1DBC && Table(0, 128) == 0x82F6_3B78
  {
  }

  function Shifts(n: nat, c: bv32): bv32 { if n == 0 then c else Shift8(Shifts(n - 1, c)) }

  /** Entry i of table k is i carried through k + 1 bytes. */
  lemma {:induction false} TableShifts(k: nat, i: bv32)
    ensures Table(k, i) == Shifts(k + 1, i)
  {
    hide Shift8, Low, Rest, Xor;
    if k > 0 {
      TableShifts(k - 1, i);
      LowAndRest(Table(k - 1, i));
    }
  }

  lemma {:induction false} ShiftsLinear(n: nat, a: bv32, b: bv32)
    ensures Shifts(n, Xor(a, b)) == Xor(Shifts(n, a), Shifts(n, b))
  {
    hide Shift8, Xor;
    if n > 0 {
      ShiftsLinear(n - 1, a, b);
      Shift8Linear(Shifts(n - 1, a), Shifts(n - 1, b));
    }
  }

  /** Every table distributes over exclusive or, so its entries at powers of two determine it. */
  lemma TableLinear(k: nat, a: bv32, b: bv32)
    ensures Table(k, Xor(a, b)) == Xor(Table(k, a), Table(k, b))
  {
    hide Shifts, Table, Xor;
    TableShifts(k, a);
    TableShifts(k, b);
    TableShifts(k, Xor(a, b));
    ShiftsLinear(k + 1, a, b);
  }

  // ---------- four bytes at a time ----------

  lemma XorWithByte(c: bv32, b: bv32)
    requires b & 0xFF == b
    ensures (c ^ b) >> 8 == c >> 8 && (c ^ b) & 0xFF == (c & 0xFF) ^ b
  {
  }

  lemma RestOfXor(c: bv32, b: octet)
    ensures Rest(Xor(c, b)) == Rest(c) && Low(Xor(c, b)) == Xor(Low(c), b)
  {
    var x: bv32 := b;
    assert Low(x) == x;
    LowIs(x);
    hide Low, Rest, Xor;
    XorWithByte(c, x);
    XorIs(c, x, c ^ x);
    LowIs(c ^ x);
    LowIs(c);
    RestIs(c ^ x);
    RestIs(c);
    XorIs(c & 0xFF, x, (c & 0xFF) ^ x);
  }

  lemma LowIs(c: bv32)
    ensures Low(c) == c & 0xFF
  {
  }

  lemma RestIs(c: bv32)
    ensures Rest(c) == c >> 8
  {
  }

  lemma TableStep(c: bv32, b: octet)
    ensures Xor(Table(0, Low(Xor(c, b))), Rest(c)) == Shift8(Xor(c, b))
  {
    hide Shift8, Low, Rest, Xor;
    LowAndRest(Xor(c, b));
    RestOfXor(c, b);
  }

  /** One byte when the register is the sum of a part that is carried along and a part not yet reached. */
  lemma SumStep(a: bv32, r: bv32, b: octet)
    ensures Shift8(Xor(Xor(a, r), b)) == Xor(Xor(Shift8(a), Shift8(Xor(Low(r), b))), Rest(r))
  {
    hide Shift8, Low, Rest, Xor;
    XorAssociates(a, r, b);
    Shift8Linear(a, Xor(r, b));
    LowAndRest(Xor(r, b));
    RestOfXor(r, b);
    XorAssociates(Shift8(a), Shift8(Xor(Low(r), b)), Rest(r));
  }

  function Fed(x: bv32, b0: octet, b1: octet, b2: octet, b3: octet): bv32 {
    Shift8(Xor(Shift8(Xor(Shift8(Xor(Shift8(Xor(x, b0)), b1)), b2)), b3))
  }

  function Sum(a: bv32, v0: bv32, v1: bv32, v2: bv32, v3: bv32): bv32 {
    Xor(Xor(Xor(Xor(Shifts(4, a), Shifts(4, v0)), Shifts(3, v1)), Shifts(2, v2)), Shifts(1, v3))
  }

  lemma {:induction false} ShiftsOnce(n: nat, c: bv32)
    ensures Shifts(n + 1, c) == Shift8(Shifts(n, c)) && Shifts(0, c) == c
  {
    hide Shift8;
  }

  lemma FourSteps(a: bv32, r: bv32, b0: octet, b1: octet, b2: octet, b3: octet)
    ensures Fed(Xor(a, r), b0, b1, b2, b3)
            == Xor(Sum(a, Xor(Low(r), b0), Xor(Low(Rest(r)), b1), Xor(Low(Rest(Rest(r))), b2), Xor(Low(Rest(Rest(Rest(r)))), b3)),
                   Rest(Rest(Rest(Rest(r)))))
  {
    hide Shift8, Low, Rest, Xor, Shifts;
    var r1 := Rest(r);
    var r2 := Rest(r1);
    var r3 := Rest(r2);
    var v0, v1, v2, v3 := Xor(Low(r), b0), Xor(Low(r1), b1), Xor(Low(r2), b2), Xor(Low(r3), b3);
    var a1 := Xor(Shift8(a), Shift8(v0));
    var a2 := Xor(Shift8(a1), Shift8(v1));
    var a3 := Xor(Shift8(a2), Shift8(v2));
    SumStep(a, r, b0);
    SumStep(a1, r1, b1);
    SumStep(a2, r2, b2);
    SumStep(a3, r3, b3);
    Collected(a, v0, v1, v2, v3);
  }

  lemma Collected(a: bv32, v0: bv32, v1: bv32, v2: bv32, v3: bv32)
    ensures var a1 := Xor(Shift8(a), Shift8(v0));
            var a2 := Xor(Shift8(a1), Shift8(v1));
            var a3 := Xor(Shift8(a2), Shift8(v2));
            Xor(Shift8(a3), Shift8(v3)) == Sum(a, v0, v1, v2, v3)
  {
    hide Shift8, Xor, Shifts;
    forall c: bv32 ensures Shifts(1, c) == Shift8(c) && Shifts(2, c) == Shift8(Shifts(1, c)) { ShiftsOnce(0, c); ShiftsOnce(1, c); }
    forall c: bv32 ensures Shifts(3, c) == Shift8(Shifts(2, c)) && Shifts(4, c) == Shift8(Shifts(3, c)) { ShiftsOnce(2, c); ShiftsOnce(3, c); }
    forall x: bv32, y: bv32 ensures Shift8(Xor(x, y)) == Xor(Shift8(x), Shift8(y)) { Shift8Linear(x, y); }
  }

  // ---------- eight bytes at a time ----------

  /** A 32-bit little-endian load. */
  function Word(b0: octet, b1: octet, b2: octet, b3: octet): bv32 {
    b0 as bv32 | (b1 as bv32 << 8) | (b2 as bv32 << 16) | (b3 as bv32 << 24)
  }

  lemma WordParts(b0: octet, b1: octet, b2: octet, b3: octet)
    ensures var w := Word(b0, b1, b2, b3);
            Low(w) == b0 && Low(Rest(w)) == b1 && Low(Rest(Rest(w))) == b2 && Rest(Rest(Rest(w))) == b3
  {
    var x0: bv32, x1: bv32, x2: bv32, x3: bv32 := b0, b1, b2, b3;
    assert Low(x0) == x0 && Low(x1) == x1 && Low(x2) == x2 && Low(x3) == x3;
    WordBytes(x0, x1, x2, x3);
  }

  lemma WordBytes(b0: bv32, b1: bv32, b2: bv32, b3: bv32)
    requires b0 & 0xFF == b0 && b1 & 0xFF == b1 && b2 & 0xFF == b2 && b3 & 0xFF == b3
    ensures var w := b0 | (b1 << 8) | (b2 << 16) | (b3 << 24);
            w & 0xFF == b0 && (w >> 8) & 0xFF == b1 && ((w >> 8) >> 8) & 0xFF == b2 && ((w >> 8) >> 8) >> 8 == b3
  {
  }

  lemma PartsOfXor(c: bv32, w: bv32)
    ensures Low(Xor(c, w)) == Xor(Low(c), Low(w)) && Rest(Xor(c, w)) == Xor(Rest(c), Rest(w))
  {
  }

  lemma TopByte(c: bv32)
    ensures Low(Rest(Rest(Rest(c)))) == Rest(Rest(Rest(c))) && Rest(Rest(Rest(Rest(c)))) == 0
    ensures Low(0) == 0 && Rest(0) == 0
  {
  }

  /** Eight bytes by the definition are eight lookups, one in each table. */
  lemma EightSteps(c: bv32, b0: octet, b1: octet, b2: octet, b3: octet, b4: octet, b5: octet, b6: octet, b7: octet)
    ensures var w := Xor(c, Word(b0, b1, b2, b3));
            var next := Word(b4, b5, b6, b7);
            Fed(Fed(c, b0, b1, b2, b3), b4, b5, b6, b7) == Lookups(w, next)
  {
    hide Low, Rest, Xor, Shifts, Word, Fed, Sum, Table, Shift8;
    var w := Xor(c, Word(b0, b1, b2, b3));
    var next := Word(b4, b5, b6, b7);
    var w0, w1, w2, w3 := Low(w), Low(Rest(w)), Low(Rest(Rest(w))), Rest(Rest(Rest(w)));
    var x := Sum(0, w0, w1, w2, w3);
    FirstHalf(c, b0, b1, b2, b3);
    SecondHalf(x, b4, b5, b6, b7);
    WordParts(b4, b5, b6, b7);
    SumsAreLookups(w0, w1, w2, w3, b4, b5, b6, b7);
  }

  function Lookups(w: bv32, next: bv32): bv32 {
    Looked(Low(w), Low(Rest(w)), Low(Rest(Rest(w))), Rest(Rest(Rest(w))),
           Low(next), Low(Rest(next)), Low(Rest(Rest(next))), Rest(Rest(Rest(next))))
  }

  function Looked(i7: bv32, i6: bv32, i5: bv32, i4: bv32, i3: bv32, i2: bv32, i1: bv32, i0: bv32): bv32 {
    Xor(Xor(Xor(Xor(Xor(Xor(Xor(Table(7, i7), Table(6, i6)), Table(5, i5)), Table(4, i4)),
        Table(3, i3)), Table(2, i2)), Table(1, i1)), Table(0, i0))
  }

  lemma FirstHalf(c: bv32, b0: octet, b1: octet, b2: octet, b3: octet)
    ensures var w := Xor(c, Word(b0, b1, b2, b3));
            Fed(c, b0, b1, b2, b3) == Sum(0, Low(w), Low(Rest(w)), Low(Rest(Rest(w))), Rest(Rest(Rest(w))))
  {
    hide Low, Rest, Xor, Shifts, Word, Fed, Sum;
    var v := Word(b0, b1, b2, b3);
    var w := Xor(c, v);
    FourSteps(0, c, b0, b1, b2, b3);
    XorZero(c);
    TopByte(c);
    TopByte(w);
    WordParts(b0, b1, b2, b3);
    PartsOfXor(c, v);
    PartsOfXor(Rest(c), Rest(v));
    PartsOfXor(Rest(Rest(c)), Rest(Rest(v)));
    XorZero(Sum(0, Low(w), Low(Rest(w)), Low(Rest(Rest(w))), Rest(Rest(Rest(w)))));
  }

  lemma SecondHalf(x: bv32, b0: octet, b1: octet, b2: octet, b3: octet)
    ensures Fed(x, b0, b1, b2, b3) == Sum(x, b0, b1, b2, b3)
  {
    hide Low, Rest, Xor, Shifts, Word, Fed, Sum;
    FourSteps(x, 0, b0, b1, b2, b3);
    XorZero(x);
    TopByte(0);
    XorZero(b0);
    XorZero(b1);
    XorZero(b2);
    XorZero(b3);
    XorZero(Sum(x, b0, b1, b2, b3));
  }

  lemma {:induction false} ShiftsAdd(m: nat, n: nat, c: bv32)
    ensures Shifts(m, Shifts(n, c)) == Shifts(m + n, c)
  {
    hide Shift8;
    if m > 0 { ShiftsAdd(m - 1, n, c); }
  }

  lemma {:induction false} ShiftsOfZero(n: nat)
    ensures Shifts(n, 0) == 0
  {
    hide Shift8;
    if n > 0 {
      ShiftsOfZero(n - 1);
      Shift8Clear(0);
    }
  }

  lemma SumsAreLookups(w0: bv32, w1: bv32, w2: bv32, w3: bv32, b4: bv32, b5: bv32, b6: bv32, b7: bv32)
    ensures Sum(Sum(0, w0, w1, w2, w3), b4, b5, b6, b7) == Looked(w0, w1, w2, w3, b4, b5, b6, b7)
  {
    hide Xor, Shifts, Table;
    var x0 := Xor(Shifts(4, 0), Shifts(4, w0));
    var x1 := Xor(x0, Shifts(3, w1));
    var x2 := Xor(x1, Shifts(2, w2));
    ShiftsOfZero(4);
    XorZero(Shifts(4, w0));
    ShiftsLinear(4, x2, Shifts(1, w3));
    ShiftsLinear(4, x1, Shifts(2, w2));
    ShiftsLinear(4, x0, Shifts(3, w1));
    ShiftsAdd(4, 4, w0);
    ShiftsAdd(4, 3, w1);
    ShiftsAdd(4, 2, w2);
    ShiftsAdd(4, 1, w3);
    TableShifts(7, w0);
    TableShifts(6, w1);
    TableShifts(5, w2);
    TableShifts(4, w3);
    TableShifts(3, b4);
    TableShifts(2, b5);
    TableShifts(1, b6);
    TableShifts(0, b7);
  }

  // ---------- the loop ----------

  lemma OneByte(c: bv32, data: seq<octet>, p: nat)
    requires p < |data|
    ensures CrcBytes(c, data[..p + 1]) == Shift8(Xor(CrcBytes(c, data[..p]), data[p]))
  {
    hide Shift8, Xor;
    assert data[..p + 1][..p] == data[..p];
  }

  lemma FourBytes(c: bv32, data: seq<octet>, p: nat)
    requires p + 4 <= |data|
    ensures CrcBytes(c, data[..p + 4]) == Fed(CrcBytes(c, data[..p]), data[p], data[p + 1], data[p + 2], data[p + 3])
  {
    hide Shift8, Xor, CrcBytes;
    OneByte(c, data, p);
    OneByte(c, data, p + 1);
    OneByte(c, data, p + 2);
    OneByte(c, data, p + 3);
  }

  lemma EightBytes(c: bv32, data: seq<octet>, p: nat)
    requires p + 8 <= |data|
    ensures CrcBytes(c, data[..p + 8])
            == Lookups(Xor(CrcBytes(c, data[..p]), Word(data[p], data[p + 1], data[p + 2], data[p + 3])),
                       Word(data[p + 4], data[p + 5], data[p + 6], data[p + 7]))
  {
    hide Shift8, Xor, CrcBytes, Fed, Word, Lookups;
    FourBytes(c, data, p);
    FourBytes(c, data, p + 4);
    EightSteps(CrcBytes(c, data[..p]), data[p], data[p + 1], data[p + 2], data[p + 3], data[p + 4], data[p + 5], data[p + 6], data[p + 7]);
  }

  /** `addr` is where the chunk lies in memory; words are read from 4-byte boundaries on. */
  method Slicing(data: seq<octet>, addr: nat) returns (r: bv32)
    ensures r == Crc32c(data)
  {
    hide Shift8, Low, Rest, Table, Word, Xor, CrcBytes;
    var crc := ONES;
    var p, len := 0, |data|;
    NoBytes(ONES, data);
    while (addr + p) % 4 != 0 && len > 0
      invariant 0 <= p && 0 <= len && p + len == |data| && crc == CrcBytes(ONES, data[..p])
      decreases len
    {
      OneByte(ONES, data, p);
      TableStep(crc, data[p]);
      crc := Xor(Table(0, Low(Xor(crc, data[p]))), Rest(crc));
      p, len := p + 1, len - 1;
    }
    var nqwords := len / 8;
    ghost var tail := len % 8;
    while nqwords > 0
      invariant 0 <= p && 0 <= nqwords && p + 8 * nqwords + tail == |data| && crc == CrcBytes(ONES, data[..p])
      decreases nqwords
    {
      EightBytes(ONES, data, p);
      crc := Xor(crc, Word(data[p], data[p + 1], data[p + 2], data[p + 3]));
      p := p + 4;
      var next := Word(data[p], data[p + 1], data[p + 2], data[p + 3]);
      p := p + 4;
      crc := Xor(Xor(Xor(Xor(Xor(Xor(Xor(
               Table(7, Low(crc)), Table(6, Low(Rest(crc)))), Table(5, Low(Rest(Rest(crc))))), Table(4, Rest(Rest(Rest(crc))))),
               Table(3, Low(next))), Table(2, Low(Rest(next)))), Table(1, Low(Rest(Rest(next))))), Table(0, Rest(Rest(Rest(next)))));
      nqwords := nqwords - 1;
    }
    len := len % 8;
    while len > 0
      invariant 0 <= p && 0 <= len && p + len == |data| && crc == CrcBytes(ONES, data[..p])
      decreases len
    {
      OneByte(ONES, data, p);
      TableStep(crc, data[p]);
      crc := Xor(Table(0, Low(Xor(crc, data[p]))), Rest(crc));
      p, len := p + 1, len - 1;
    }
    assert data[..p] == data;
    r := !crc;
  }

  lemma NoBytes(c: bv32, data: seq<octet>)
    ensures CrcBytes(c, data[..0]) == c
  {
  }

  // ---------- published values ----------

  /** What the test vectors (t/test-crc32c.c:15-24) and no bytes at all give. */
  lemma KnownAnswers()
    ensures Crc32c([]) == 0
    ensures Crc32c([0x61]) == 0xC1D0_4330
    ensures Crc32c([0x66, 0x6F, 0x6F]) == 0xCFC4_AE1D
  {
    hide Shift8, CrcBytes, Xor;
    var none: seq<octet>, one: seq<octet>, three: seq<octet> := [], [0x61], [0x66, 0x6F, 0x6F];
    NoBytes(ONES, none);
    NoBytes(ONES, one);
    NoBytes(ONES, three);
    OneByte(ONES, one, 0);
    OneByte(ONES, three, 0);
    OneByte(ONES, three, 1);
    OneByte(ONES, three, 2);
    assert none[..0] == none && one[..1] == one && three[..3] == three;
    FirstSteps();
  }

  lemma FirstSteps()
    ensures Shift8(Xor(0xFFFF_FFFF, 0x61)) == 0x3E2F_BCCF && Shift8(Xor(0xFFFF_FFFF, 0x66)) == 0xEAE5_D824
    ensures Shift8(Xor(0xEAE5_D824, 0x6F)) == 0xD818_535F && Shift8(Xor(0xD818_535F, 0x6F)) == 0x303B_51E2
  {
  }

  /** The checksum of any bytes followed by their own checksum, least significant byte first, is one constant. */
  lemma Residue(data: seq<octet>, b0: octet, b1: octet, b2: octet, b3: octet)
    requires Word(b0, b1, b2, b3) == Crc32c(data)
    ensures Crc32c(data + [b0, b1, b2, b3]) == 0x4867_4BC7
  {
    hide Shift8, CrcBytes, Xor, Low, Rest, Word, Fed, Sum;
    var c, all, n := CrcBytes(ONES, data), data + [b0, b1, b2, b3], |data|;
    assert all[..n] == data && all[..n + 4] == all;
    TopByte(0);
    FourBytes(ONES, all, n);
    FirstHalf(c, b0, b1, b2, b3);
    var zero: octet := 0;
    FirstHalf(ONES, zero, zero, zero, zero);
    Complement(c, Word(b0, b1, b2, b3));
    FourZeros();
  }

  lemma Complement(c: bv32, w: bv32)
    requires w == !c
    ensures Xor(c, w) == Xor(ONES, Word(0, 0, 0, 0))
  {
  }

  lemma FourZeros()
    ensures Fed(ONES, 0, 0, 0, 0) == 0xB798_B438
  {
    hide Shift8;
    ZeroSteps();
    ZerosFed(0xFFFF_FFFF);
  }

  lemma ZerosFed(c: bv32)
    ensures Fed(c, 0, 0, 0, 0) == Shift8(Shift8(Shift8(Shift8(c))))
  {
    hide Shift8;
    XorZero(c);
    XorZero(Shift8(c));
    XorZero(Shift8(Shift8(c)));
    XorZero(Shift8(Shift8(Shift8(c))));
    hide Xor;
  }

  lemma ZeroSteps()
    ensures Shift8(0xFFFF_FFFF) == 0xAD82_ACAE && Shift8(0xAD82_ACAE) == 0x0E9E_882D
    ensures Shift8(0x0E9E_882D) == 0x9F9B_5C85 && Shift8(0x9F9B_5C85) == 0xB798_B438
  {
  }

  /** Another of the test vectors (t/test-crc32c.c:37-44). */
  lemma ThirtyTwoZeros(data: seq<octet>)
    requires |data| == 32 && forall i :: 0 <= i < 32 ==> data[i] == 0
    ensures Crc32c(data) == 0x8A91_36AA
  {
    hide Shift8, CrcBytes, Xor, Fed;
    NoBytes(ONES, data);
    FourZeros();
    MoreZeros();
    FourBytes(ONES, data, 0);
    FourBytes(ONES, data, 4);
    FourBytes(ONES, data, 8);
    FourBytes(ONES, data, 12);
    FourBytes(ONES, data, 16);
    FourBytes(ONES, data, 20);
    FourBytes(ONES, data, 24);
    FourBytes(ONES, data, 28);
    assert data[..32] == data;
  }

  lemma MoreZeros()
    ensures Fed(0xB798_B438, 0, 0, 0, 0) == 0x73D7_4D75
    ensures Fed(0x73D7_4D75, 0, 0, 0, 0) == 0xD49F_4AA2
    ensures Fed(0xD49F_4AA2, 0, 0, 0, 0) == 0xBD8F_6515
    ensures Fed(0xBD8F_6515, 0, 0, 0, 0) == 0x433A_A9C1
    ensures Fed(0x433A_A9C1, 0, 0, 0, 0) == 0x7B04_1311
    ensures Fed(0x7B04_1311, 0, 0, 0, 0) == 0x0836_3896
    ensures Fed(0x0836_3896, 0, 0, 0, 0) == 0x756E_C955
  {
    hide Shift8;
    MoreSteps();
    ZerosFed(0xB798_B438);
    ZerosFed(0x73D7_4D75);
    ZerosFed(0xD49F_4AA2);
    ZerosFed(0xBD8F_6515);
    ZerosFed(0x433A_A9C1);
    ZerosFed(0x7B04_1311);
    ZerosFed(0x0836_3896);
  }

  lemma MoreSteps()
    ensures Shift8(0xB798_B438) == 0xBA8D_89CA && Shift8(0xBA8D_89CA) == 0xA8D5_8375
    ensures Shift8(0xA8D5_8375) == 0x44C1_9592 && Shift8(0x44C1_9592) == 0x73D7_4D75
    ensures Shift8(0x73D7_4D75) == 0x441A_975C && Shift8(0x441A_975C) == 0x1C22_0F94
    ensures Shift8(0x1C22_0F94) == 0x552E_4907 && Shift8(0x552E_4907) == 0xD49F_4AA2
    ensures Shift8(0xD49F_4AA2) == 0x43A4_5A1B && Shift8(0x43A4_5A1B) == 0x8994_C80E
    ensures Shift8(0x8994_C80E) == 0xACF1_2BEF && Shift8(0xACF1_2BEF) == 0xBD8F_6515
    ensures Shift8(0xBD8F_6515) == 0x2512_5C16 && Shift8(0x2512_5C16) == 0x36DA_32DB
    ensures Shift8(0x36DA_32DB) == 0x4A6C_90A2 && Shift8(0x4A6C_90A2) == 0x433A_A9C1
    ensures Shift8(0x433A_A9C1) == 0x31A5_9F6E && Shift8(0x31A5_9F6E) == 0xCD8F_89DA
    ensures Shift8(0xCD8F_89DA) == 0xB8FC_461A && Shift8(0xB8FC_461A) == 0x7B04_1311
    ensures Shift8(0x7B04_1311) == 0xE24E_407F && Shift8(0xE24E_407F) == 0x2F69_2669
    ensures Shift8(0x2F69_2669) == 0x195B_2188 && Shift8(0x195B_2188) == 0x0836_3896
    ensures Shift8(0x0836_3896) == 0xB401_2DC7 && Shift8(0xB401_2DC7) == 0x17F3_4302
    ensures Shift8(0x17F3_4302) == 0xE12C_83B4 && Shift8(0xE12C_83B4) == 0x756E_C955
  {
  }
}
