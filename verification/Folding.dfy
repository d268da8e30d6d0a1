/** Folding values with an associative, commutative merge: the order of the
    values and how they are grouped do not matter. */
module Folding {
  import opened ByteOrder
  import opened MergeView
  import opened Merger

  ghost predicate Commutes(merge: MergeFn) { forall key, a, b :: merge(key, a, b) == merge(key, b, a) }

  ghost predicate Associates(merge: MergeFn) {
    forall key, a, b, c :: merge(key, merge(key, a, b), c) == merge(key, a, merge(key, b, c))
  }

  lemma Commute(merge: MergeFn, key: Bytes, a: Bytes, b: Bytes)
    requires Commutes(merge)
    ensures merge(key, a, b) == merge(key, b, a)
  {
  }

  lemma Associate(merge: MergeFn, key: Bytes, a: Bytes, b: Bytes, c: Bytes)
    requires Associates(merge)
    ensures merge(key, merge(key, a, b), c) == merge(key, a, merge(key, b, c))
  {
  }

  lemma FoldSnoc(merge: MergeFn, key: Bytes, vs: seq<Bytes>, v: Bytes)
    requires |vs| > 0
    ensures FoldValues(merge, key, vs + [v]) == merge(key, FoldValues(merge, key, vs), v)
  {
    assert (vs + [v])[..|vs|] == vs;
  }

  lemma {:induction false} FoldConcat(merge: MergeFn, key: Bytes, vs: seq<Bytes>, ws: seq<Bytes>)
    requires Associates(merge) && |vs| > 0 && |ws| > 0
    ensures FoldValues(merge, key, vs + ws) == merge(key, FoldValues(merge, key, vs), FoldValues(merge, key, ws))
    decreases |ws|
  {
    hide Associates;
    var n := |ws| - 1;
    if n == 0 {
      assert ws == [ws[0]];
      FoldSnoc(merge, key, vs, ws[0]);
    } else {
      FoldConcat(merge, key, vs, ws[..n]);
      assert vs + ws == (vs + ws[..n]) + [ws[n]];
      FoldSnoc(merge, key, vs + ws[..n], ws[n]);
      Associate(merge, key, FoldValues(merge, key, vs), FoldValues(merge, key, ws[..n]), ws[n]);
    }
  }

  /** Moving one value to the end does not change the fold. */
  lemma {:induction false} MoveToEnd(merge: MergeFn, key: Bytes, a: seq<Bytes>, x: Bytes, b: seq<Bytes>)
    requires Associates(merge) && Commutes(merge)
    ensures FoldValues(merge, key, a + [x] + b) == FoldValues(merge, key, a + b + [x])
  {
    hide Associates, Commutes, FoldValues;
    if |b| == 0 {
      assert a + [x] + b == a + b + [x];
    } else if |a| == 0 {
      assert a + [x] + b == [x] + b && a + b + [x] == b + [x];
      FoldConcat(merge, key, [x], b);
      FoldConcat(merge, key, b, [x]);
      Commute(merge, key, FoldValues(merge, key, [x]), FoldValues(merge, key, b));
    } else {
      assert a + [x] + b == a + ([x] + b) && a + b + [x] == a + (b + [x]);
      FoldConcat(merge, key, a, [x] + b);
      FoldConcat(merge, key, a, b + [x]);
      FoldConcat(merge, key, [x], b);
      FoldConcat(merge, key, b, [x]);
      Commute(merge, key, FoldValues(merge, key, [x]), FoldValues(merge, key, b));
    }
  }

  /** The last of vs is somewhere in a permutation of it; what is left are permutations of each other. */
  lemma TakenOut(vs: seq<Bytes>, ws: seq<Bytes>) returns (j: nat)
    requires |vs| > 0 && multiset(vs) == multiset(ws)
    ensures j < |ws| && ws == ws[..j] + [vs[|vs| - 1]] + ws[j + 1..]
    ensures multiset(ws[..j] + ws[j + 1..]) == multiset(vs[..|vs| - 1])
  {
    var x := vs[|vs| - 1];
    assert vs == vs[..|vs| - 1] + [x];
    assert x in multiset(ws);
    j :| 0 <= j < |ws| && ws[j] == x;
    assert ws == ws[..j] + [x] + ws[j + 1..];
    assert multiset(ws[..j] + ws[j + 1..]) == multiset(ws) - multiset{x};
  }

  lemma {:induction false} FoldPermutes(merge: MergeFn, key: Bytes, vs: seq<Bytes>, ws: seq<Bytes>)
    requires Associates(merge) && Commutes(merge) && |vs| > 0 && multiset(vs) == multiset(ws)
    ensures |ws| == |vs| && FoldValues(merge, key, vs) == FoldValues(merge, key, ws)
  {
    hide Associates, Commutes;
    var n := |vs| - 1;
    assert |multiset(vs)| == |vs| && |multiset(ws)| == |ws|;
    if n > 0 {
      var x := vs[n];
      assert vs == vs[..n] + [x];
      var j := TakenOut(vs, ws);
      var rest := ws[..j] + ws[j + 1..];
      FoldPermutes(merge, key, vs[..n], rest);
      MoveToEnd(merge, key, ws[..j], x, ws[j + 1..]);
      FoldSnoc(merge, key, rest, x);
    } else {
      assert vs == [vs[0]] && ws[0] in multiset(ws);
    }
  }

  /** A bag of values has one fold. */
  lemma FoldIsUnique(merge: MergeFn, key: Bytes, vals: multiset<Bytes>, a: Bytes, b: Bytes)
    requires Associates(merge) && Commutes(merge) && IsFold(merge, key, vals, a) && IsFold(merge, key, vals, b)
    ensures a == b
  {
    var vs: seq<Bytes> :| |vs| > 0 && multiset(vs) == vals && a == FoldValues(merge, key, vs);
    var ws: seq<Bytes> :| |ws| > 0 && multiset(ws) == vals && b == FoldValues(merge, key, ws);
    FoldPermutes(merge, key, vs, ws);
  }

  /** Folding two bags apart and merging the results folds their sum. */
  lemma FoldsJoin(merge: MergeFn, key: Bytes, vals: multiset<Bytes>, more: multiset<Bytes>, a: Bytes, b: Bytes)
    requires Associates(merge) && IsFold(merge, key, vals, a) && IsFold(merge, key, more, b)
    ensures IsFold(merge, key, vals + more, merge(key, a, b))
  {
    var vs: seq<Bytes> :| |vs| > 0 && multiset(vs) == vals && a == FoldValues(merge, key, vs);
    var ws: seq<Bytes> :| |ws| > 0 && multiset(ws) == more && b == FoldValues(merge, key, ws);
    FoldConcat(merge, key, vs, ws);
    assert multiset(vs + ws) == vals + more;
  }

  lemma SingleFold(merge: MergeFn, key: Bytes, v: Bytes)
    ensures IsFold(merge, key, multiset{v}, v)
  {
    assert multiset([v]) == multiset{v} && FoldValues(merge, key, [v]) == v;
  }

  lemma SomeFold(merge: MergeFn, key: Bytes, vals: multiset<Bytes>) returns (a: Bytes)
    requires |vals| > 0
    ensures IsFold(merge, key, vals, a)
  {
    var vs := Listed(vals);
    a := FoldValues(merge, key, vs);
  }

  lemma {:induction false} Listed(vals: multiset<Bytes>) returns (vs: seq<Bytes>)
    ensures multiset(vs) == vals && |vs| == |vals|
    decreases |vals|
  {
    if |vals| == 0 {
      vs := [];
    } else {
      var v :| v in vals;
      var rest := Listed(vals - multiset{v});
      vs := rest + [v];
    }
  }

  // ---------- the summary of a bag of entries ----------

  /** Each key once, in order, with the fold of all its values. */
  ghost predicate IsSummary(merge: MergeFn, es: seq<Entry>, out: seq<Entry>) {
    && Sorted(out)
    && (forall j :: 0 <= j < |out| ==> IsFold(merge, out[j].key, ValuesIn(es, out[j].key), out[j].val))
    && (forall k: Bytes :: ValuesIn(es, k) != multiset{} ==> HasKey(out, k))
  }

  ghost predicate HasKey(out: seq<Entry>, k: Bytes) { exists j :: 0 <= j < |out| && out[j].key == k }

  lemma SummaryFacts(merge: MergeFn, es: seq<Entry>, out: seq<Entry>, k: Bytes)
    requires IsSummary(merge, es, out)
    ensures ValuesIn(es, k) != multiset{} <==> HasKey(out, k)
  {
    if HasKey(out, k) {
      var j :| 0 <= j < |out| && out[j].key == k;
      FoldNeedsValues(merge, k, ValuesIn(es, k), out[j].val);
    }
  }

  lemma FoldNeedsValues(merge: MergeFn, k: Bytes, vals: multiset<Bytes>, a: Bytes)
    requires IsFold(merge, k, vals, a)
    ensures vals != multiset{}
  {
    var vs: seq<Bytes> :| |vs| > 0 && multiset(vs) == vals && a == FoldValues(merge, k, vs);
    assert vs[0] in multiset(vs);
  }

  /** The summary depends only on the bag of values each key has. */
  lemma {:induction false} SummaryIsUnique(merge: MergeFn, es: seq<Entry>, fs: seq<Entry>, out: seq<Entry>, out2: seq<Entry>)
    requires Associates(merge) && Commutes(merge)
    requires IsSummary(merge, es, out) && IsSummary(merge, fs, out2)
    requires forall k: Bytes :: ValuesIn(es, k) == ValuesIn(fs, k)
    ensures out == out2
  {
    hide IsFold, Associates, Commutes;
    forall k: Bytes ensures HasKey(out, k) <==> HasKey(out2, k) {
      SummaryFacts(merge, es, out, k);
      SummaryFacts(merge, fs, out2, k);
    }
    SameKeys(out, out2);
    forall j | 0 <= j < |out| ensures out[j] == out2[j] {
      FoldIsUnique(merge, out[j].key, ValuesIn(es, out[j].key), out[j].val, out2[j].val);
    }
  }

  /** Strictly ordered sequences with the same keys have them at the same places. */
  lemma {:induction false} SameKeys(a: seq<Entry>, b: seq<Entry>)
    requires Sorted(a) && Sorted(b) && forall k: Bytes :: HasKey(a, k) <==> HasKey(b, k)
    ensures |a| == |b| && forall i :: 0 <= i < |a| ==> a[i].key == b[i].key
  {
    var n := 0;
    while n < |a| && n < |b|
      invariant n <= |a| && n <= |b| && forall i :: 0 <= i < n ==> a[i].key == b[i].key
    {
      assert HasKey(a, a[n].key) && HasKey(b, b[n].key);
      NotBelow(a, b, n);
      NotBelow(b, a, n);
      LessTrichotomy(a[n].key, b[n].key);
      n := n + 1;
    }
    if n < |a| { assert HasKey(a, a[n].key); KeyLater(b, a, n); }
    if n < |b| { assert HasKey(b, b[n].key); KeyLater(a, b, n); }
  }

  lemma {:induction false} NotBelow(a: seq<Entry>, b: seq<Entry>, n: nat)
    requires Sorted(a) && Sorted(b) && n < |a| && n < |b| && forall i :: 0 <= i < n ==> a[i].key == b[i].key
    requires HasKey(b, a[n].key)
    ensures !Less(a[n].key, b[n].key)
  {
    var j :| 0 <= j < |b| && b[j].key == a[n].key;
    if j < n { LessTrichotomy(a[j].key, a[n].key); } else if j > n { LessTrichotomy(b[n].key, b[j].key); }
    LessTrichotomy(a[n].key, b[n].key);
  }

  lemma {:induction false} KeyLater(a: seq<Entry>, b: seq<Entry>, n: nat)
    requires Sorted(b) && n == |a| < |b| && forall i :: 0 <= i < n ==> a[i].key == b[i].key
    ensures !HasKey(a, b[n].key)
  {
    forall j | 0 <= j < |a| ensures a[j].key != b[n].key { LessTrichotomy(b[j].key, b[n].key); }
  }
}
