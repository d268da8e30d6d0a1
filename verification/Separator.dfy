/** The shortened separator key that the writer stores in its index (mtbl/bytes.h). */
module Separator {
  import opened ByteOrder

  function BigEndian16(hi: byte, lo: byte): int { hi * 256 + lo }

  /** Bump the first differing byte when there is room below `limit`; otherwise
      bump the two bytes there as one big-endian number, which may carry and may
      reach exactly a prefix of `limit`; otherwise leave `start` alone. */
  function Shortened(start: Bytes, limit: Bytes): Bytes {
    var minLength := if |start| < |limit| then |start| else |limit|;
    var d := CommonPrefix(start, limit);
    if d >= minLength then start
    else if start[d] < 0xFF && start[d] + 1 < limit[d] then start[..d] + [start[d] + 1]
    else if d + 2 < minLength then
      var between := (BigEndian16(start[d], start[d + 1]) + 1) % 0x1_0000;
      if BigEndian16(start[d], start[d + 1]) <= between <= BigEndian16(limit[d], limit[d + 1])
      then start[..d] + [between / 256, between % 256]
      else start
    else start
  }

  /** The scanning loop.  The source asserts the result stays below `limit`, so
      a `start` above `limit` is outside its contract. */
  method ShortestSeparator(start: Bytes, limit: Bytes) returns (sep: Bytes)
    requires !Less(limit, start)
    ensures sep == Shortened(start, limit)
  {
    sep := start;
    var minLength := if |start| < |limit| then |start| else |limit|;
    var diff := 0;
    while diff < minLength && start[diff] == limit[diff]
      invariant diff <= minLength
      invariant start[..diff] == limit[..diff]
    {
      diff := diff + 1;
    }
    CommonPrefixUnique(start, limit, diff);
    if diff >= minLength { return; }
    if start[diff] < 0xFF && start[diff] + 1 < limit[diff] {
      sep := start[..diff] + [start[diff] + 1];
    } else if diff + 2 < minLength {
      var uStart := BigEndian16(start[diff], start[diff + 1]);
      var uLimit := BigEndian16(limit[diff], limit[diff + 1]);
      var uBetween := (uStart + 1) % 0x1_0000;
      if uStart <= uBetween <= uLimit {
        sep := start[..diff] + [uBetween / 256, uBetween % 256];
      }
    }
  }

  /** What an index key has to do between the last key of one block and the first of the next. */
  predicate Separates(start: Bytes, sep: Bytes, limit: Bytes) {
    (start == sep || Less(start, sep)) && Less(sep, limit)
  }

  /** Between two keys, the shortened key bounds the first from above, stays
      strictly below the second, and is never longer than the first. */
  lemma ShortenedSeparates(start: Bytes, limit: Bytes)
    requires Less(start, limit)
    ensures var sep := Shortened(start, limit);
            Separates(start, sep, limit) && |sep| <= |start|
  {
    hide CommonPrefix;
    var sep := Shortened(start, limit);
    var d := CommonPrefix(start, limit);
    if sep != start {
      var k := LessHasFirstDifference(start, limit);
      CommonPrefixUnique(start, limit, k);
      if |sep| == d + 1 {
        FirstDifferenceDecides(start, sep, d);
        FirstDifferenceDecides(sep, limit, d);
      } else {
        BumpedPairIsBetween(start, sep, limit, d);
      }
    }
  }

  /** Where the made key ends: at the first difference if a byte fits there, one byte on if two of them have
      room to carry, and otherwise it is `start` itself. */
  lemma ShortenedLength(start: Bytes, limit: Bytes)
    requires Less(start, limit)
    ensures var sep, d := Shortened(start, limit), CommonPrefix(start, limit);
            if d < |start| && d < |limit| && start[d] as int + 1 < limit[d] then |sep| == d + 1
            else if d + 2 < |start| && d + 2 < |limit| then |sep| == d + 2
            else sep == start
  {
    hide Less, CommonPrefix;
    Differs(start, limit);
  }

  /** Nothing of the made key's length lies between it and `start`. */
  lemma {:induction false} ShortenedIsNext(start: Bytes, limit: Bytes, s: Bytes)
    requires Less(start, limit) && Shortened(start, limit) != start
    requires |s| == |Shortened(start, limit)| && Less(start, s)
    ensures !Less(s, Shortened(start, limit))
  {
    hide Less, CommonPrefix;
    var sep, d := Shortened(start, limit), CommonPrefix(start, limit);
    Differs(start, limit);
    var k := LessHasFirstDifference(start, s);
    LessTrichotomy(s, sep);
    if k < d {
      assert sep[..k] == start[..d][..k] == s[..k] && sep[k] == start[..d][k];
      FirstDifferenceDecides(sep, s, k);
    } else {
      assert s[..d] == s[..k][..d] == start[..d] == sep[..d];
      AfterDifference(start, sep, s, d, k);
    }
  }

  lemma AfterDifference(start: Bytes, sep: Bytes, s: Bytes, d: nat, k: nat)
    requires d <= k <= |start| && k < |s| == |sep| <= |start| && start[..k] == s[..k] && (k < |start| ==> start[k] < s[k])
    requires sep[..d] == start[..d] == s[..d] && d < |start|
    requires (|sep| == d + 1 && sep[d] as int == start[d] as int + 1)
             || (|sep| == d + 2 && BigEndian16(sep[d], sep[d + 1]) == BigEndian16(start[d], start[d + 1]) + 1)
    ensures s == sep || Less(sep, s)
  {
    hide Less;
    if |sep| == d + 1 {
      assert s == s[..d] + [s[d]] && sep == sep[..d] + [sep[d]];
      if sep[d] < s[d] { FirstDifferenceDecides(sep, s, d); }
    } else {
      if k > d { assert s[d] == s[..k][d] == start[d]; }
      PairDecides(sep, s, d);
      assert s == s[..d] + [s[d], s[d + 1]] && sep == sep[..d] + [sep[d], sep[d + 1]];
    }
  }

  /** When the edit reaches the shortest separator: `start` runs into `limit`, a byte fits at the first
      difference, `start` ends with it, or `limit` does and nothing but 0xFF bytes could be dropped. */
  predicate ReachesShortest(start: Bytes, limit: Bytes) {
    var d := CommonPrefix(start, limit);
    || d == |start|
    || d == |limit|
    || start[d] as int + 1 < limit[d]
    || |start| == d + 1
    || (|limit| == d + 1 && forall j :: d < j < |start| - 1 ==> start[j] == 0xFF)
  }

  /** The key made is a shortest separator exactly then; otherwise a shorter one was missed. */
  lemma ShortestIff(start: Bytes, limit: Bytes)
    requires Less(start, limit)
    ensures (forall s: Bytes :: Separates(start, s, limit) ==> |Shortened(start, limit)| <= |s|)
            <==> ReachesShortest(start, limit)
  {
    hide Separates, ReachesShortest;
    if ReachesShortest(start, limit) {
      forall s: Bytes | Separates(start, s, limit) ensures |Shortened(start, limit)| <= |s| {
        if |s| < |Shortened(start, limit)| { NothingShorter(start, limit, s); }
      }
    } else {
      var s := ShorterMissed(start, limit);
    }
  }

  lemma NothingShorter(start: Bytes, limit: Bytes, s: Bytes)
    requires Less(start, limit) && ReachesShortest(start, limit) && |s| < |Shortened(start, limit)|
    ensures !Separates(start, s, limit)
  {
    hide Less, CommonPrefix, BigEndian16;
    var d, k := CommonPrefix(start, limit), CommonPrefix(s, start);
    Differs(start, limit);
    LessTrichotomy(s, start);
    LessTrichotomy(s, limit);
    if k == |s| || s[k] < start[k] {
      FirstDifferenceDecides(s, start, k);
    } else {
      assert k <= d && (k == d ==> limit[d] <= s[d]);
      assert limit[..k] == start[..d][..k] == s[..k];
      if k < d { assert limit[k] == limit[..d][k] == start[k]; }
      if k < d || limit[d] < s[d] {
        FirstDifferenceDecides(limit, s, k);
      } else if |limit| == d + 1 {
        assert limit == s[..d + 1];
        if limit != s { FirstDifferenceDecides(limit, s, d + 1); }
      }
    }
  }

  /** A byte of `limit`, or one byte of `start` behind the first difference, would have done. */
  lemma ShorterMissed(start: Bytes, limit: Bytes) returns (s: Bytes)
    requires Less(start, limit) && !ReachesShortest(start, limit)
    ensures Separates(start, s, limit) && |s| < |Shortened(start, limit)|
  {
    hide Less, CommonPrefix, BigEndian16;
    var d := CommonPrefix(start, limit);
    Differs(start, limit);
    if |limit| > d + 1 {
      s := limit[..d + 1];
      FirstDifferenceDecides(start, s, d);
      FirstDifferenceDecides(s, limit, d + 1);
    } else {
      var j :| d < j < |start| - 1 && start[j] != 0xFF;
      s := start[..j] + [start[j] + 1];
      FirstDifferenceDecides(start, s, j);
      assert s[..d] == start[..d];
      FirstDifferenceDecides(s, limit, d);
    }
  }

  lemma Differs(start: Bytes, limit: Bytes)
    requires Less(start, limit)
    ensures var d := CommonPrefix(start, limit); d < |limit| && (d < |start| ==> start[d] < limit[d])
  {
    var k := LessHasFirstDifference(start, limit);
    CommonPrefixUnique(start, limit, k);
  }

  lemma BumpedPairIsBetween(start: Bytes, sep: Bytes, limit: Bytes, d: nat)
    requires d + 2 < |start| && d + 2 < |limit|
    requires start[..d] == limit[..d]
    requires |sep| == d + 2 && sep[..d] == start[..d]
    requires BigEndian16(sep[d], sep[d + 1]) == BigEndian16(start[d], start[d + 1]) + 1
    requires BigEndian16(sep[d], sep[d + 1]) <= BigEndian16(limit[d], limit[d + 1])
    ensures Less(start, sep) && Less(sep, limit)
  {
    PairDecides(start, sep, d);
    PairDecides(sep, limit, d);
    if sep[d] == limit[d] && sep[d + 1] == limit[d + 1] { ProperPrefixIsLess(sep, limit, d); }
  }

  lemma ProperPrefixIsLess(a: Bytes, b: Bytes, d: nat)
    requires |a| == d + 2 < |b| && a[..d] == b[..d] && a[d] == b[d] && a[d + 1] == b[d + 1]
    ensures Less(a, b)
  {
    assert a[..d + 2] == a[..d] + [a[d], a[d + 1]];
    assert b[..d + 2] == b[..d] + [b[d], b[d + 1]];
    FirstDifferenceDecides(a, b, d + 2);
  }

  lemma PairDecides(a: Bytes, b: Bytes, d: nat)
    requires d + 2 <= |a| && d + 2 <= |b| && a[..d] == b[..d]
    ensures BigEndian16(a[d], a[d + 1]) < BigEndian16(b[d], b[d + 1]) ==> Less(a, b)
    ensures BigEndian16(a[d], a[d + 1]) == BigEndian16(b[d], b[d + 1]) ==> a[d] == b[d] && a[d + 1] == b[d + 1]
  {
    if a[d] < b[d] {
      FirstDifferenceDecides(a, b, d);
    } else if a[d] == b[d] && a[d + 1] < b[d + 1] {
      assert a[..d + 1] == a[..d] + [a[d]] == b[..d + 1];
      FirstDifferenceDecides(a, b, d + 1);
    }
  }
}
