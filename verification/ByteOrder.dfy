/** Byte strings, their comparison, and key-value entries.

    `BytesCompare` is the comparison every layer of the library uses.  `Less`
    is the lexicographic order it is meant to decide. */
module ByteOrder {
  type byte = x: int | 0 <= x < 256
  type Bytes = seq<byte>

  /** Lexicographic order on byte strings; a proper prefix is smaller. */
  predicate Less(a: Bytes, b: Bytes) {
    |b| > 0 && (|a| == 0 || a[0] < b[0] || (a[0] == b[0] && Less(a[1..], b[1..])))
  }

  /** The library call memcmp on the first n bytes: the sign of the first difference. */
  function MemCmp(a: Bytes, b: Bytes, n: nat): int
    requires n <= |a| && n <= |b|
  {
    if n == 0 then 0
    else if a[0] != b[0] then a[0] - b[0]
    else MemCmp(a[1..], b[1..], n - 1)
  }

  function BytesCompare(a: Bytes, b: Bytes): (r: int)
    ensures r < 0 <==> Less(a, b)
    ensures r == 0 <==> a == b
    ensures r > 0 <==> Less(b, a)
  {
    var len := if |a| > |b| then |b| else |a|;
    var ret := MemCmp(a, b, len);
    CompareDecidesOrder(a, b);
    if ret == 0 then
      if |a| < |b| then -1 else if |a| == |b| then 0 else 1
    else ret
  }

  lemma {:induction false} CompareDecidesOrder(a: Bytes, b: Bytes)
    ensures var n := if |a| > |b| then |b| else |a|;
            var c := MemCmp(a, b, n);
            && (Less(a, b) <==> c < 0 || (c == 0 && |a| < |b|))
            && (Less(b, a) <==> c > 0 || (c == 0 && |b| < |a|))
            && (a == b <==> c == 0 && |a| == |b|)
  {
    if |a| > 0 && |b| > 0 && a[0] == b[0] {
      CompareDecidesOrder(a[1..], b[1..]);
      assert a == [a[0]] + a[1..] && b == [b[0]] + b[1..];
    }
  }

  lemma {:induction false} LessTransitive(a: Bytes, b: Bytes, c: Bytes)
    requires Less(a, b) && Less(b, c)
    ensures Less(a, c)
  {
    if |a| > 0 && a[0] == b[0] == c[0] {
      LessTransitive(a[1..], b[1..], c[1..]);
    }
  }

  lemma {:induction false} LessTrichotomy(a: Bytes, b: Bytes)
    ensures Less(a, b) || a == b || Less(b, a)
    ensures !(Less(a, b) && Less(b, a))
    ensures !Less(a, a)
  {
    var _ := BytesCompare(a, b);
    var _ := BytesCompare(a, a);
  }

  lemma LessOrEqualTransitive(a: Bytes, b: Bytes, c: Bytes)
    requires !Less(b, a) && !Less(c, b)
    ensures !Less(c, a)
    ensures Less(a, b) || Less(b, c) ==> Less(a, c)
  {
    LessTrichotomy(a, b);
    LessTrichotomy(b, c);
    LessTrichotomy(a, c);
    if Less(a, b) && Less(b, c) { LessTransitive(a, b, c); }
  }

  /** Two strings that first differ at position k are ordered by the bytes there. */
  lemma {:induction false} FirstDifferenceDecides(a: Bytes, b: Bytes, k: nat)
    requires k <= |a| && k < |b| && a[..k] == b[..k]
    requires k < |a| ==> a[k] < b[k]
    ensures Less(a, b)
  {
    if k > 0 {
      assert a[0] == a[..k][0] && b[0] == b[..k][0];
      assert a[1..][..k - 1] == a[..k][1..] && b[1..][..k - 1] == b[..k][1..];
      FirstDifferenceDecides(a[1..], b[1..], k - 1);
    }
  }

  /** Length of the longest common prefix. */
  function CommonPrefix(a: Bytes, b: Bytes): (k: nat)
    ensures k <= |a| && k <= |b| && a[..k] == b[..k]
    ensures k < |a| && k < |b| ==> a[k] != b[k]
  {
    if |a| == 0 || |b| == 0 || a[0] != b[0] then 0
    else
      var k := 1 + CommonPrefix(a[1..], b[1..]);
      assert a[..k] == [a[0]] + a[1..][..k - 1] && b[..k] == [b[0]] + b[1..][..k - 1];
      k
  }

  lemma {:induction false} CommonPrefixUnique(a: Bytes, b: Bytes, k: nat)
    requires k <= |a| && k <= |b| && a[..k] == b[..k]
    requires k < |a| && k < |b| ==> a[k] != b[k]
    ensures k == CommonPrefix(a, b)
  {
    if k > 0 {
      assert a[0] == a[..k][0] && b[0] == b[..k][0];
      assert a[1..][..k - 1] == a[..k][1..] && b[1..][..k - 1] == b[..k][1..];
      CommonPrefixUnique(a[1..], b[1..], k - 1);
    }
  }

  /** The converse: a smaller string has such a first difference. */
  lemma {:induction false} LessHasFirstDifference(a: Bytes, b: Bytes) returns (k: nat)
    requires Less(a, b)
    ensures k <= |a| && k < |b| && a[..k] == b[..k]
    ensures k < |a| ==> a[k] < b[k]
  {
    if |a| == 0 || a[0] < b[0] {
      k := 0;
    } else {
      var j := LessHasFirstDifference(a[1..], b[1..]);
      k := j + 1;
      assert a[..k] == [a[0]] + a[1..][..j] && b[..k] == [b[0]] + b[1..][..j];
    }
  }

  // ---------- entries and sorted sequences of them ----------

  datatype Entry = Entry(key: Bytes, val: Bytes)

  ghost predicate Sorted(es: seq<Entry>) {
    forall i, j :: 0 <= i < j < |es| ==> Less(es[i].key, es[j].key)
  }

  ghost predicate KeysDoNotFall(es: seq<Entry>) {
    forall i, j :: 0 <= i < j < |es| ==> !Less(es[j].key, es[i].key)
  }

  /** The position a cursor takes on seek(k): the first entry with key >= k. */
  ghost predicate IsLowerBound(es: seq<Entry>, k: Bytes, p: nat) {
    && p <= |es|
    && (forall i :: 0 <= i < p ==> Less(es[i].key, k))
    && (forall i :: p <= i < |es| ==> !Less(es[i].key, k))
  }

  function LowerBound(es: seq<Entry>, k: Bytes): (p: nat)
    ensures p <= |es|
    ensures forall i :: 0 <= i < p ==> Less(es[i].key, k)
    ensures p < |es| ==> !Less(es[p].key, k)
  {
    if |es| == 0 || !Less(es[0].key, k) then 0 else 1 + LowerBound(es[1..], k)
  }

  lemma LowerBoundIsLowerBound(es: seq<Entry>, k: Bytes)
    requires Sorted(es)
    ensures IsLowerBound(es, k, LowerBound(es, k))
  {
    var p := LowerBound(es, k);
    forall i | p <= i < |es| ensures !Less(es[i].key, k) {
      if p < i { LessTrichotomy(es[i].key, es[p].key); LessOrEqualTransitive(k, es[p].key, es[i].key); }
    }
  }

  lemma LowerBoundUnique(es: seq<Entry>, k: Bytes, p: nat, q: nat)
    requires IsLowerBound(es, k, p) && IsLowerBound(es, k, q)
    ensures p == q
  {
    var m := if p < q then p else q;
    if m < |es| { var _ := Less(es[m].key, k); }
  }

  /** In a sorted sequence, the first entry not below k splits the sequence at k. */
  lemma FirstNotLessSplits(es: seq<Entry>, k: Bytes, p: nat)
    requires Sorted(es) && p <= |es|
    requires p > 0 ==> Less(es[p - 1].key, k)
    requires p < |es| ==> !Less(es[p].key, k)
    ensures IsLowerBound(es, k, p)
  {
    forall i | 0 <= i < p ensures Less(es[i].key, k) {
      if i < p - 1 { LessTransitive(es[i].key, es[p - 1].key, k); }
    }
    forall i | p <= i < |es| ensures !Less(es[i].key, k) {
      if p < i { LessTrichotomy(es[i].key, es[p].key); LessOrEqualTransitive(k, es[p].key, es[i].key); }
    }
  }
}
