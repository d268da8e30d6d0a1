/** The external sorter (mtbl/sorter.c): entries are collected up to a memory
    limit, sorted and merged into chunk files, and the files are merged.  A
    chunk file is represented by the entries it holds. */
module Sorter {
  import opened ByteOrder
  import opened Maybe
  import opened MergeView
  import opened MergeOrder
  import opened MergerModel
  import opened Merger
  import opened Folding
  import opened MergerEmptyKeys

  const ENTRY_HEADER := 8
  const SIZEOF_HANDLE := 8

  function BytesOf(es: seq<Entry>): nat {
    if |es| == 0 then 0 else BytesOf(es[..|es| - 1]) + ENTRY_HEADER + |es[|es| - 1].key| + |es[|es| - 1].val|
  }

  // ---------- values under a key ----------

  lemma {:induction false} ValuesInCount(es: seq<Entry>, k: Bytes, v: Bytes)
    ensures ValuesIn(es, k)[v] == multiset(es)[Entry(k, v)]
  {
    if |es| > 0 {
      ValuesInCount(es[1..], k, v);
      assert es == [es[0]] + es[1..];
    }
  }

  lemma ValuesInPermuted(es: seq<Entry>, fs: seq<Entry>, k: Bytes)
    requires multiset(es) == multiset(fs)
    ensures ValuesIn(es, k) == ValuesIn(fs, k)
  {
    forall v: Bytes ensures ValuesIn(es, k)[v] == ValuesIn(fs, k)[v] {
      ValuesInCount(es, k, v);
      ValuesInCount(fs, k, v);
    }
  }

  lemma ValuesInConcat(es: seq<Entry>, fs: seq<Entry>, k: Bytes)
    ensures ValuesIn(es + fs, k) == ValuesIn(es, k) + ValuesIn(fs, k)
  {
    forall v: Bytes ensures ValuesIn(es + fs, k)[v] == (ValuesIn(es, k) + ValuesIn(fs, k))[v] {
      ValuesInCount(es, k, v);
      ValuesInCount(fs, k, v);
      ValuesInCount(es + fs, k, v);
    }
  }

  lemma ValuesInSingle(e: Entry, k: Bytes)
    ensures ValuesIn([e], k) == if e.key == k then multiset{e.val} else multiset{}
  {
  }

  lemma {:induction false} NoValues(es: seq<Entry>, k: Bytes)
    requires forall i :: 0 <= i < |es| ==> es[i].key != k
    ensures ValuesIn(es, k) == multiset{}
  {
    if |es| > 0 { NoValues(es[1..], k); }
  }

  lemma {:induction false} SomeValue(es: seq<Entry>, i: nat)
    requires i < |es|
    ensures ValuesIn(es, es[i].key) != multiset{}
  {
    ValuesInCount(es, es[i].key, es[i].val);
    assert es[i] == Entry(es[i].key, es[i].val);
    assert es[i] in multiset(es);
  }

  // ---------- one chunk ----------

  /** What qsort promises; it does not say how entries with equal keys are ordered. */
  method QSort(es: seq<Entry>) returns (s: seq<Entry>)
    ensures KeysDoNotFall(s) && multiset(s) == multiset(es)
  {
    s := [];
    var n := 0;
    while n < |es|
      invariant n <= |es| && KeysDoNotFall(s) && multiset(s) == multiset(es[..n])
    {
      var at := |s|;
      while at > 0 && Less(es[n].key, s[at - 1].key)
        invariant 0 <= at <= |s| && (at < |s| ==> Less(es[n].key, s[at].key))
      {
        at := at - 1;
      }
      InsertSorted(s, es[n], at);
      assert s == s[..at] + s[at..];
      s := s[..at] + [es[n]] + s[at..];
      assert es[..n + 1] == es[..n] + [es[n]];
      n := n + 1;
    }
    assert es[..n] == es;
  }

  lemma {:induction false} InsertSorted(s: seq<Entry>, e: Entry, at: nat)
    requires KeysDoNotFall(s) && at <= |s|
    requires at > 0 ==> !Less(e.key, s[at - 1].key)
    requires at < |s| ==> Less(e.key, s[at].key)
    ensures KeysDoNotFall(s[..at] + [e] + s[at..])
  {
    var t := s[..at] + [e] + s[at..];
    forall i, j | 0 <= i < j < |t| ensures !Less(t[j].key, t[i].key) {
      if j == at {
        LessTrichotomy(s[i].key, s[i].key);
        LessOrEqualTransitive(s[i].key, s[at - 1].key, e.key);
      } else if i == at {
        LessTrichotomy(e.key, s[at].key);
        LessTrichotomy(s[at].key, s[at].key);
        LessOrEqualTransitive(e.key, s[at].key, s[j - 1].key);
      }
    }
  }

  /** Sorts a batch and writes it out, merging neighbours with equal keys in place. */
  method WriteChunk(merge: MergeFn, batch: seq<Entry>) returns (file: seq<Entry>)
    ensures IsSummary(merge, batch, file)
  {
    hide IsSummary, IsFold, ValuesIn, KeysDoNotFall, ChunkState, Less;
    var entries := QSort(batch);
    ghost var sorted := entries;
    ghost var m := 0;
    file := [];
    StartOfChunk(merge, sorted);
    var i := 0;
    while i < |entries|
      invariant i <= |entries| == |sorted| && forall j :: i < j < |entries| ==> entries[j] == sorted[j]
      invariant ChunkState(merge, sorted, file, m, i, if i < |entries| then entries[i] else NOTHING)
    {
      var ent := entries[i];
      if i + 1 < |entries| {
        var next := entries[i + 1];
        if BytesCompare(ent.key, next.key) == 0 {
          ChunkMerges(merge, sorted, file, m, i, ent);
          entries := entries[i + 1 := Entry(ent.key, merge(ent.key, ent.val, next.val))];
          i := i + 1;
          continue;
        }
      }
      ChunkWrites(merge, sorted, file, m, i, ent);
      // The table writer takes only keys above the last one.
      assert |file| > 0 ==> Less(file[|file| - 1].key, ent.key);
      file := file + [ent];
      i := i + 1;
      m := i;
    }
    ChunkDone(merge, batch, sorted, file, m, i);
  }

  const NOTHING := Entry([], [])

  /** Entries before `m` are in the file; those from `m` to `i` share a key and are merged in `ent`. */
  ghost predicate ChunkState(merge: MergeFn, sorted: seq<Entry>, file: seq<Entry>, m: nat, i: nat, ent: Entry) {
    && m <= i <= |sorted| && KeysDoNotFall(sorted)
    && IsSummary(merge, sorted[..m], file)
    && (i == |sorted| ==> m == i)
    && (i < |sorted| ==>
          && ent.key == sorted[i].key
          && (forall j :: m <= j <= i ==> sorted[j].key == ent.key)
          && (forall j :: 0 <= j < m ==> Less(sorted[j].key, ent.key))
          && IsFold(merge, ent.key, ValuesIn(sorted[m..i + 1], ent.key), ent.val))
  }

  lemma {:induction false} GroupStarts(merge: MergeFn, sorted: seq<Entry>, i: nat)
    requires KeysDoNotFall(sorted) && i < |sorted| && (i > 0 ==> sorted[i - 1].key != sorted[i].key)
    ensures IsFold(merge, sorted[i].key, ValuesIn(sorted[i..i + 1], sorted[i].key), sorted[i].val)
    ensures forall j :: 0 <= j < i ==> Less(sorted[j].key, sorted[i].key)
  {
    hide IsFold;
    assert sorted[i..i + 1] == [sorted[i]];
    ValuesInSingle(sorted[i], sorted[i].key);
    SingleFold(merge, sorted[i].key, sorted[i].val);
    forall j | 0 <= j < i ensures Less(sorted[j].key, sorted[i].key) {
      LessTrichotomy(sorted[i - 1].key, sorted[i].key);
      if j < i - 1 { LessOrEqualTransitive(sorted[j].key, sorted[i - 1].key, sorted[i].key); }
    }
  }

  lemma StartOfChunk(merge: MergeFn, sorted: seq<Entry>)
    requires KeysDoNotFall(sorted)
    ensures ChunkState(merge, sorted, [], 0, 0, if |sorted| > 0 then sorted[0] else NOTHING)
  {
    hide IsFold, KeysDoNotFall;
    assert sorted[..0] == [];
    if |sorted| > 0 { GroupStarts(merge, sorted, 0); }
  }

  lemma {:induction false} ChunkMerges(merge: MergeFn, sorted: seq<Entry>, file: seq<Entry>, m: nat, i: nat, ent: Entry)
    requires ChunkState(merge, sorted, file, m, i, ent) && i + 1 < |sorted| && ent.key == sorted[i + 1].key
    ensures ChunkState(merge, sorted, file, m, i + 1, Entry(ent.key, merge(ent.key, ent.val, sorted[i + 1].val)))
  {
    hide IsFold, IsSummary, KeysDoNotFall, ValuesIn;
    var e := sorted[i + 1];
    assert sorted[m..i + 2] == sorted[m..i + 1] + [e];
    ValuesInConcat(sorted[m..i + 1], [e], ent.key);
    ValuesInSingle(e, ent.key);
    FoldGrows(merge, ent.key, ValuesIn(sorted[m..i + 1], ent.key), ent.val, e.val);
  }

  lemma FoldGrows(merge: MergeFn, key: Bytes, vals: multiset<Bytes>, a: Bytes, v: Bytes)
    requires IsFold(merge, key, vals, a)
    ensures IsFold(merge, key, vals + multiset{v}, merge(key, a, v))
  {
    var vs: seq<Bytes> :| |vs| > 0 && multiset(vs) == vals && a == FoldValues(merge, key, vs);
    FoldSnoc(merge, key, vs, v);
    assert multiset(vs + [v]) == vals + multiset{v};
  }

  lemma {:induction false} ChunkWrites(merge: MergeFn, sorted: seq<Entry>, file: seq<Entry>, m: nat, i: nat, ent: Entry)
    requires ChunkState(merge, sorted, file, m, i, ent) && i < |sorted|
    requires i + 1 < |sorted| ==> ent.key != sorted[i + 1].key
    ensures |file| > 0 ==> Less(file[|file| - 1].key, ent.key)
    ensures ChunkState(merge, sorted, file + [ent], i + 1, i + 1, if i + 1 < |sorted| then sorted[i + 1] else NOTHING)
  {
    hide IsFold, IsSummary, KeysDoNotFall, ValuesIn;
    assert sorted[..i + 1] == sorted[..m] + sorted[m..i + 1];
    SummaryGrows(merge, sorted[..m], sorted[m..i + 1], file, ent);
    if i + 1 < |sorted| { GroupStarts(merge, sorted, i + 1); }
  }

  /** Adding a run of equal keys above all the others. */
  lemma {:induction false} SummaryGrows(merge: MergeFn, es: seq<Entry>, run: seq<Entry>, file: seq<Entry>, ent: Entry)
    requires IsSummary(merge, es, file) && (forall j :: 0 <= j < |es| ==> Less(es[j].key, ent.key))
    requires forall j :: 0 <= j < |run| ==> run[j].key == ent.key
    requires IsFold(merge, ent.key, ValuesIn(run, ent.key), ent.val)
    ensures |file| > 0 ==> Less(file[|file| - 1].key, ent.key)
    ensures IsSummary(merge, es + run, file + [ent])
  {
    hide IsFold, ValuesIn, Less;
    var out := file + [ent];
    forall j | 0 <= j < |file| ensures Less(file[j].key, ent.key) && file[j].key != ent.key {
      assert HasKey(file, file[j].key);
      SummaryFacts(merge, es, file, file[j].key);
      SomeKey(es, file[j].key);
      LessTrichotomy(file[j].key, ent.key);
    }
    forall k: Bytes ensures ValuesIn(es + run, k) == ValuesIn(if k == ent.key then run else es, k) {
      ValuesInConcat(es, run, k);
      if k == ent.key {
        forall j | 0 <= j < |es| ensures es[j].key != k { LessTrichotomy(es[j].key, ent.key); }
        NoValues(es, k);
      } else {
        NoValues(run, k);
      }
    }
    forall k: Bytes | ValuesIn(es + run, k) != multiset{} ensures HasKey(out, k) {
      if k == ent.key {
        assert out[|file|].key == k;
      } else {
        assert HasKey(file, k);
        var j :| 0 <= j < |file| && file[j].key == k;
        assert out[j].key == k;
      }
    }
  }

  lemma {:induction false} SomeKey(es: seq<Entry>, k: Bytes)
    requires ValuesIn(es, k) != multiset{}
    ensures exists j :: 0 <= j < |es| && es[j].key == k
  {
    if forall j :: 0 <= j < |es| ==> es[j].key != k { NoValues(es, k); }
  }

  lemma ChunkDone(merge: MergeFn, batch: seq<Entry>, sorted: seq<Entry>, file: seq<Entry>, m: nat, i: nat)
    requires ChunkState(merge, sorted, file, m, i, NOTHING) && i == |sorted| && multiset(sorted) == multiset(batch)
    ensures IsSummary(merge, batch, file)
  {
    hide IsFold;
    assert sorted[..m] == sorted;
    forall k: Bytes ensures ValuesIn(sorted, k) == ValuesIn(batch, k) { ValuesInPermuted(sorted, batch, k); }
  }

  /** The result depends on nothing but the bag of entries. */
  lemma SummaryOfBag(merge: MergeFn, es: seq<Entry>, fs: seq<Entry>, out: seq<Entry>, out2: seq<Entry>)
    requires Associates(merge) && Commutes(merge) && multiset(es) == multiset(fs)
    requires IsSummary(merge, es, out) && IsSummary(merge, fs, out2)
    ensures out == out2
  {
    hide IsSummary;
    forall k: Bytes ensures ValuesIn(es, k) == ValuesIn(fs, k) { ValuesInPermuted(es, fs, k); }
    SummaryIsUnique(merge, es, fs, out, out2);
  }

  // ---------- merging the chunk files ----------

  /** One entry per group, with a fold of the group's values. */
  ghost predicate Merges(merge: MergeFn, gs: seq<Group>, out: seq<Entry>) {
    && |out| == |gs|
    && forall i :: 0 <= i < |gs| ==> out[i].key == gs[i].key && IsFold(merge, gs[i].key, gs[i].vals, out[i].val)
  }

  ghost predicate ChunksOf(merge: MergeFn, batches: Tails, readers: Tails) {
    |batches| == |readers| && forall i :: 0 <= i < |readers| ==> IsSummary(merge, batches[i], readers[i])
  }

  lemma {:induction false} OneValue(t: seq<Entry>, j: nat)
    requires Sorted(t) && j < |t|
    ensures ValuesIn(t, t[j].key) == multiset{t[j].val}
  {
    var k := t[j].key;
    assert t == t[..j] + [t[j]] + t[j + 1..];
    ValuesInConcat(t[..j] + [t[j]], t[j + 1..], k);
    ValuesInConcat(t[..j], [t[j]], k);
    ValuesInSingle(t[j], k);
    forall i | 0 <= i < j ensures t[..j][i].key != k { LessTrichotomy(t[i].key, k); }
    var after := t[j + 1..];
    forall i | 0 <= i < |after| ensures after[i].key != k { LessTrichotomy(t[j + 1 + i].key, k); }
    NoValues(t[..j], k);
    NoValues(after, k);
  }

  /** A chunk has one value for each key of its batch: the fold of the batch's values. */
  lemma {:induction false} ChunkValue(merge: MergeFn, batch: seq<Entry>, file: seq<Entry>, k: Bytes) returns (v: Bytes)
    requires IsSummary(merge, batch, file)
    ensures ValuesIn(batch, k) == multiset{} <==> ValuesIn(file, k) == multiset{}
    ensures ValuesIn(file, k) != multiset{} ==> ValuesIn(file, k) == multiset{v} && IsFold(merge, k, ValuesIn(batch, k), v)
  {
    hide IsFold, ValuesIn, Sorted;
    SummaryFacts(merge, batch, file, k);
    v := [];
    if HasKey(file, k) {
      var j :| 0 <= j < |file| && file[j].key == k;
      OneValue(file, j);
      v := file[j].val;
      SomeValue(file, j);
    } else {
      NoValues(file, k);
    }
  }

  lemma LastValues(ts: Tails, k: Bytes)
    requires |ts| > 0
    ensures ValuesUnder(ts, k) == ValuesUnder(ts[..|ts| - 1], k) + ValuesIn(ts[|ts| - 1], k)
  {
  }

  /** Merging what the chunks hold for a key merges what the batches held for it. */
  lemma {:induction false} FoldOfFolds(merge: MergeFn, batches: Tails, readers: Tails, k: Bytes)
    requires Associates(merge) && Commutes(merge) && ChunksOf(merge, batches, readers)
    ensures ValuesUnder(readers, k) == multiset{} <==> ValuesUnder(batches, k) == multiset{}
    ensures forall x: Bytes :: IsFold(merge, k, ValuesUnder(readers, k), x) ==> IsFold(merge, k, ValuesUnder(batches, k), x)
    decreases |readers|
  {
    hide IsFold, Associates, Commutes, IsSummary, ValuesIn, ValuesUnder;
    if |readers| == 0 {
      NoValuesUnder(k);
    } else {
      var n := |readers| - 1;
      FoldOfFolds(merge, batches[..n], readers[..n], k);
      LastValues(readers, k);
      LastValues(batches, k);
      var v := ChunkValue(merge, batches[n], readers[n], k);
      forall x: Bytes | IsFold(merge, k, ValuesUnder(readers, k), x) ensures IsFold(merge, k, ValuesUnder(batches, k), x) {
        FoldWithLast(merge, k, ValuesUnder(readers[..n], k), ValuesUnder(batches[..n], k), ValuesIn(readers[n], k), ValuesIn(batches[n], k), v, x);
      }
    }
  }

  lemma NoValuesUnder(k: Bytes)
    ensures ValuesUnder([], k) == multiset{}
  {
  }

  lemma {:induction false} FoldWithLast(merge: MergeFn, k: Bytes, folded: multiset<Bytes>, vals: multiset<Bytes>,
                                        last: multiset<Bytes>, more: multiset<Bytes>, v: Bytes, x: Bytes)
    requires Associates(merge) && Commutes(merge) && IsFold(merge, k, folded + last, x)
    requires folded == multiset{} <==> vals == multiset{}
    requires last == multiset{} <==> more == multiset{}
    requires last != multiset{} ==> last == multiset{v} && IsFold(merge, k, more, v)
    requires forall y: Bytes :: IsFold(merge, k, folded, y) ==> IsFold(merge, k, vals, y)
    ensures IsFold(merge, k, vals + more, x)
  {
    hide IsFold, Associates, Commutes;
    if last == multiset{} {
      assert folded + last == folded && vals + more == vals;
    } else if folded == multiset{} {
      assert folded + last == last && vals + more == more;
      SingleFold(merge, k, v);
      FoldIsUnique(merge, k, multiset{v}, v, x);
    } else {
      var y := SomeFold(merge, k, folded);
      SingleFold(merge, k, v);
      FoldsJoin(merge, k, folded, last, y, v);
      FoldIsUnique(merge, k, folded + last, merge(k, y, v), x);
      FoldsJoin(merge, k, vals, more, y, v);
    }
  }

  /** Merging the chunks of a bag of entries summarizes the whole bag. */
  lemma {:induction false} MergeOfChunks(merge: MergeFn, es: seq<Entry>, batches: Tails, readers: Tails, out: seq<Entry>)
    requires Associates(merge) && Commutes(merge) && ChunksOf(merge, batches, readers) && AllSorted(readers)
    requires forall k: Bytes :: ValuesIn(es, k) == ValuesUnder(batches, k)
    requires Merges(merge, Groups(readers), out)
    ensures IsSummary(merge, es, out)
  {
    hide IsFold, Associates, Commutes, ValuesIn, ValuesUnder, Groups, AllSorted, ChunksOf;
    var gs := Groups(readers);
    forall i, j | 0 <= i < j < |out| ensures Less(out[i].key, out[j].key) { GroupsSorted(readers, i, j); }
    forall j | 0 <= j < |out| ensures IsFold(merge, out[j].key, ValuesIn(es, out[j].key), out[j].val) {
      GroupsHoldAllValues(readers, j);
      FoldOfFolds(merge, batches, readers, out[j].key);
    }
    forall k: Bytes | ValuesIn(es, k) != multiset{} ensures HasKey(out, k) {
      FoldOfFolds(merge, batches, readers, k);
      var i, j := SomeEntry(readers, k);
      var g := GroupsHaveEveryKey(readers, i, j);
      assert out[g].key == k;
    }
  }

  lemma {:induction false} SomeEntry(ts: Tails, k: Bytes) returns (i: nat, j: nat)
    requires ValuesUnder(ts, k) != multiset{}
    ensures i < |ts| && j < |ts[i]| && ts[i][j].key == k
  {
    var n := |ts| - 1;
    if ValuesIn(ts[n], k) != multiset{} {
      SomeKey(ts[n], k);
      i := n;
      j :| 0 <= j < |ts[n]| && ts[n][j].key == k;
    } else {
      i, j := SomeEntry(ts[..n], k);
    }
  }

  // ---------- the sorter ----------

  lemma ValuesUnderSnoc(ts: Tails, t: seq<Entry>, k: Bytes)
    ensures ValuesUnder(ts + [t], k) == ValuesUnder(ts, k) + ValuesIn(t, k)
  {
    assert (ts + [t])[..|ts|] == ts;
  }

  lemma {:induction false} ValuesUnderWithout(ts: Tails, i: nat, k: Bytes)
    requires i < |ts|
    ensures ValuesUnder(ts[..i] + ts[i + 1..], k) + ValuesIn(ts[i], k) == ValuesUnder(ts, k)
  {
    hide ValuesIn;
    var n := |ts| - 1;
    if i < n {
      ValuesUnderWithout(ts[..n], i, k);
      assert ts[..i] + ts[i + 1..] == (ts[..n][..i] + ts[..n][i + 1..]) + [ts[n]];
      ValuesUnderSnoc(ts[..n][..i] + ts[..n][i + 1..], ts[n], k);
    } else {
      assert ts[..i] + ts[i + 1..] == ts[..n];
    }
  }

  lemma NoneEmptyMoved(batches: Tails, inFlight: Tails, i: nat)
    requires NoneEmptyIn(batches) && NoneEmptyIn(inFlight) && i < |inFlight|
    ensures NoneEmptyIn(batches + [inFlight[i]]) && NoneEmptyIn(inFlight[..i] + inFlight[i + 1..])
  {
    assert inFlight[i] in inFlight;
    var rest := inFlight[..i] + inFlight[i + 1..];
    forall b | b in rest ensures b != [] {
      var k :| 0 <= k < |rest| && rest[k] == b;
      assert inFlight[if k < i then k else k + 1] in inFlight;
    }
  }

  class Sorter {
    const merge: MergeFn
    const maxMemory: nat
    const pooled: bool
    var vec: seq<Entry>
    var entryBytes: nat
    var iterating: bool
    var readers: Tails
    /** Batches handed to the pool whose files have not come back. */
    var inFlight: Tails
    ghost var added: seq<Entry>
    ghost var batches: Tails

    ghost predicate Accounted()
      reads this`vec, this`inFlight, this`added, this`batches
    {
      forall k: Bytes :: ValuesIn(added, k) == ValuesUnder(batches, k) + ValuesUnder(inFlight, k) + ValuesIn(vec, k)
    }

    ghost predicate Valid()
      reads this
    {
      && Accounted() && ChunksOf(merge, batches, readers) && NoneEmptyIn(batches) && NoneEmptyIn(inFlight)
      && entryBytes == BytesOf(vec) && (vec == [] || entryBytes + SIZEOF_HANDLE * |vec| < maxMemory)
      && (!pooled ==> inFlight == []) && (iterating ==> vec == [] && inFlight == [])
    }

    /** How many chunk files there will be to merge. */
    function Chunks(): nat
      reads this
    {
      |readers| + |inFlight| + if vec == [] then 0 else 1
    }

    constructor (merge: MergeFn, maxMemory: nat, pooled: bool)
      ensures Valid() && added == [] && !iterating
      ensures this.merge == merge && this.maxMemory == maxMemory && this.pooled == pooled
    {
      this.merge, this.maxMemory, this.pooled := merge, maxMemory, pooled;
      vec, entryBytes, iterating, readers, inFlight, added, batches := [], 0, false, [], [], [], [];
    }

    method Add(e: Entry) returns (ok: bool)
      requires Valid()
      modifies this
      ensures Valid() && ok == !old(iterating) && iterating == old(iterating)
      ensures added == old(added) + if ok then [e] else []
      // the entry's memory is a header of 8 bytes, its key and value, and a handle of 8 bytes in the vector
      ensures ok ==>
                var full := old(entryBytes) + 8 + |e.key| + |e.val| + 8 * (|old(vec)| + 1) >= maxMemory;
                && vec == (if full then [] else old(vec) + [e])
                && entryBytes == (if full then 0 else old(entryBytes) + 8 + |e.key| + |e.val|)
                && (full && pooled ==> inFlight == old(inFlight) + [old(vec) + [e]] && readers == old(readers))
                && (full && !pooled ==> |readers| == |old(readers)| + 1 && readers[..|readers| - 1] == old(readers)
                                        && IsSummary(merge, old(vec) + [e], readers[|readers| - 1]))
                && (!full ==> inFlight == old(inFlight) && readers == old(readers))
    {
      hide IsSummary, ValuesIn, ValuesUnder;
      if iterating { return false; }
      Collected(added, vec, e);
      assert (vec + [e])[..|vec|] == vec;
      vec := vec + [e];
      entryBytes := entryBytes + ENTRY_HEADER + |e.key| + |e.val|;
      added := added + [e];
      if entryBytes + SIZEOF_HANDLE * |vec| >= maxMemory { Flush(); }
      ok := true;
    }

    /** Writes the collected entries to a chunk, or hands them to the pool. */
    method Flush()
      requires Accounted() && ChunksOf(merge, batches, readers) && !iterating && (!pooled ==> inFlight == [])
      requires vec != [] && NoneEmptyIn(batches) && NoneEmptyIn(inFlight)
      modifies this
      ensures Valid() && vec == [] && added == old(added) && iterating == old(iterating) && Chunks() == old(Chunks())
      ensures entryBytes == 0
      ensures pooled ==> inFlight == old(inFlight) + [old(vec)] && readers == old(readers)
      ensures !pooled ==> |readers| == |old(readers)| + 1 && readers[..|readers| - 1] == old(readers)
                          && IsSummary(merge, old(vec), readers[|readers| - 1])
    {
      hide IsSummary, ValuesIn, ValuesUnder;
      VecMoves(added, batches, inFlight, vec);
      if pooled {
        inFlight := inFlight + [vec];
      } else {
        var file := WriteChunk(merge, vec);
        readers := readers + [file];
        batches := batches + [vec];
      }
      vec, entryBytes := [], 0;
    }

    /** The pool finishes any one of its batches, and the result handler collects its file. */
    method Deliver(i: nat)
      requires Valid() && i < |inFlight|
      modifies this`readers, this`inFlight, this`batches
      ensures Valid() && |inFlight| == old(|inFlight|) - 1 && Chunks() == old(Chunks())
    {
      hide IsSummary, ValuesIn, ValuesUnder;
      ghost var b := inFlight[i];
      NoneEmptyMoved(batches, inFlight, i);
      forall k: Bytes ensures ValuesUnder(batches + [b], k) + ValuesUnder(inFlight[..i] + inFlight[i + 1..], k)
                              == ValuesUnder(batches, k) + ValuesUnder(inFlight, k)
      {
        ValuesUnderSnoc(batches, b, k);
        ValuesUnderWithout(inFlight, i, k);
      }
      var file := WriteChunk(merge, inFlight[i]);
      readers := readers + [file];
      batches := batches + [b];
      inFlight := inFlight[..i] + inFlight[i + 1..];
    }

    /** An iterator over everything added; the sorter takes no more entries. */
    method Iter() returns (it: MergerIter)
      requires Valid()
      modifies this
      ensures Valid() && iterating && added == old(added)
      ensures fresh(it) && fresh(it.h) && it.Valid() && it.Abstract() == FRESH && it.merge == Some(merge)
      ensures it.gs == Groups(readers) && AllSorted(readers) && |readers| == old(Chunks())
      ensures forall k: Bytes :: ValuesIn(added, k) == ValuesUnder(batches, k)
      ensures Associates(merge) && Commutes(merge) ==>
                forall out: seq<Entry> :: Merges(merge, it.gs, out) ==> IsSummary(merge, added, out)
    {
      hide IsSummary, ValuesIn, ValuesUnder, Groups, Merges, Associates, Commutes, Sorted;
      if |vec| > 0 { Flush(); }
      while |inFlight| > 0
        invariant Valid() && vec == [] && added == old(added) && Chunks() == old(Chunks())
        decreases |inFlight|
      {
        var i: nat :| i < |inFlight|;
        Deliver(i);
      }
      AllCollected();
      NoDupOrder();
      it := Open(merge, None, readers);
      iterating := true;
      if Associates(merge) && Commutes(merge) {
        forall out: seq<Entry> | Merges(merge, it.gs, out) ensures IsSummary(merge, added, out) {
          MergeOfChunks(merge, added, batches, readers, out);
        }
      }
    }

    lemma {:induction false} AllCollected()
      requires Valid() && vec == [] && inFlight == []
      ensures forall k: Bytes :: ValuesIn(added, k) == ValuesUnder(batches, k)
      ensures AllSorted(readers)
    {
      hide IsFold, ValuesIn, ValuesUnder;
      forall k: Bytes ensures ValuesIn(added, k) == ValuesUnder(batches, k) {
        NoValues([], k);
        NoValuesUnder(k);
      }
      forall t | t in readers ensures Sorted(t) { var i :| 0 <= i < |readers| && readers[i] == t; }
    }

    /** Writes the sorted, merged entries out in order.  An empty key is lost if there is another, and all
        but one chunk's values of it are if there is none.  So the result is the summary of everything added
        if no key is empty, or all are and there is one chunk; for a merge function that grows, only then. */
    method Write() returns (out: Option<seq<Entry>>)
      requires Valid() && Associates(merge) && Commutes(merge)
      modifies this
      ensures Valid() && added == old(added)
      ensures old(iterating) ==> out == None
      ensures !old(iterating) ==> out.Some? && Written(merge, added, batches, out.value)
      ensures !old(iterating) ==> (KeysWithin(added, out.value) <==> NoKeyEmpty(added) || AllKeysEmpty(added))
      ensures !old(iterating) && WritesAll(added, old(Chunks())) ==> IsSummary(merge, added, out.value)
      ensures !old(iterating) && Grows(merge) && IsSummary(merge, added, out.value) ==> WritesAll(added, old(Chunks()))
    {
      hide IsSummary, MergerIter.Valid, Associates, Commutes, IsFold, Written, Merges, KeysWithin, NoKeyEmpty, AllKeysEmpty,
           KeysRise, StandForAll, Seen, ValuesIn, ValuesUnder, Groups, AllSorted, NoneEmptyIn, Grows, Sorter.Accounted;
      if iterating { return None; }
      var it := Iter();
      var written := DrainAll(it);
      WriteDone(merge, added, batches, readers, it.dup, written);
      KeysWritten(merge, added, batches, written);
      SummaryIff(merge, added, batches, written);
      out := Some(written);
    }
  }

  // ---------- empty keys ----------

  predicate NoKeyEmpty(es: seq<Entry>) { forall e <- es :: e.key != [] }

  predicate AllKeysEmpty(es: seq<Entry>) { forall e <- es :: e.key == [] }

  /** Every key of the first is a key of the second. */
  ghost predicate KeysWithin(es: seq<Entry>, out: seq<Entry>) { forall e <- es :: HasKey(out, e.key) }

  function NonEmptyOf(es: seq<Entry>): seq<Entry> {
    if |es| == 0 then [] else NonEmptyOf(es[..|es| - 1]) + if es[|es| - 1].key != [] then [es[|es| - 1]] else []
  }

  /** What the sorter writes: the summary of the entries with non-empty keys, or of one batch if there are only others. */
  ghost predicate Written(merge: MergeFn, added: seq<Entry>, batches: Tails, out: seq<Entry>) {
    if added != [] && AllKeysEmpty(added) then exists i :: 0 <= i < |batches| && IsSummary(merge, batches[i], out)
    else IsSummary(merge, NonEmptyOf(added), out)
  }

  /** No key is empty, or all are and they are in one chunk. */
  ghost predicate WritesAll(added: seq<Entry>, chunks: nat) { NoKeyEmpty(added) || (AllKeysEmpty(added) && chunks == 1) }

  ghost predicate NoneEmptyIn(batches: Tails) { forall b <- batches :: b != [] }

  ghost predicate ComesOut(merge: MergeFn, g: Group, e: Entry) {
    e.key == g.key && (g.key != [] ==> IsFold(merge, g.key, g.vals, e.val))
  }

  lemma OutOf(merge: MergeFn, dup: Option<DupSort>, g: Group, e: Entry)
    requires StandsFor(merge, dup, Due(g), e)
    ensures ComesOut(merge, g, e)
  {
    hide IsFold, IsDupFold, IsLast;
    if g.key != [] { DupFoldIsFold(merge, dup, g.key, g.vals, e.val); }
  }

  lemma {:induction false} GroupsHaveValues(ts: Tails, g: nat)
    requires g < |Groups(ts)|
    ensures Groups(ts)[g].vals != multiset{}
    decreases g
  {
    hide Groups, HeadValues, LeastHead;
    var l := GroupsStep(ts);
    if g == 0 {
      var i :| 0 <= i < |ts| && |ts[i]| > 0 && ts[i][0].key == l;
      FrontValue(ts, i, l);
    } else {
      GroupsHaveValues(DropKey(ts, l), g - 1);
    }
  }

  lemma {:induction false} NonEmptyValues(es: seq<Entry>, k: Bytes)
    ensures ValuesIn(NonEmptyOf(es), k) == if k == [] then multiset{} else ValuesIn(es, k)
  {
    if |es| > 0 {
      var n := |es| - 1;
      NonEmptyValues(es[..n], k);
      assert es == es[..n] + [es[n]];
      ValuesInConcat(es[..n], [es[n]], k);
      ValuesInSingle(es[n], k);
      if es[n].key != [] { ValuesInConcat(NonEmptyOf(es[..n]), [es[n]], k); } else { assert NonEmptyOf(es) == NonEmptyOf(es[..n]); }
    }
  }

  /** Some outcome of the merge. */
  lemma {:induction false} SomeMerge(merge: MergeFn, gs: seq<Group>) returns (o: seq<Entry>)
    requires forall g <- gs :: g.vals != multiset{}
    ensures Merges(merge, gs, o)
  {
    hide IsFold;
    o := [];
    if |gs| > 0 {
      var n := |gs| - 1;
      assert gs[n] in gs;
      var v := SomeFold(merge, gs[n].key, gs[n].vals);
      o := SomeMerge(merge, gs[..n]);
      o := o + [Entry(gs[n].key, v)];
    }
  }

  /** What a full iteration over the merged chunks gives. */
  lemma {:induction false} WriteDone(merge: MergeFn, added: seq<Entry>, batches: Tails, readers: Tails, dup: Option<DupSort>, written: seq<Entry>)
    requires Associates(merge) && Commutes(merge) && ChunksOf(merge, batches, readers) && AllSorted(readers)
    requires forall k: Bytes :: ValuesIn(added, k) == ValuesUnder(batches, k)
    requires StandForAll(merge, dup, Seen(Groups(readers)), written)
    ensures Written(merge, added, batches, written)
  {
    hide IsFold, ValuesIn, NonEmptyOf, IsSummary, Merges, StandForAll, Seen, Written, ComesOut, Forgets, KeysWithin, Associates, Commutes, ChunksOf,
         AllSorted, Groups, ValuesUnder, StandsFor;
    var gs := Groups(readers);
    forall o: seq<Entry> | Merges(merge, gs, o) ensures IsSummary(merge, added, o) { MergeOfChunks(merge, added, batches, readers, o); }
    forall g | 0 <= g < |gs| ensures gs[g].vals != multiset{} { GroupsHaveValues(readers, g); }
    forall g, h | 0 <= g < h < |gs| ensures Less(gs[g].key, gs[h].key) { GroupsSorted(readers, g, h); }
    var o := SomeMerge(merge, gs);
    MergedKeys(merge, gs, o);
    SummaryKeys(merge, added, o);
    StandWritten(merge, dup, gs, written);
    ForgetsIs(gs);
    forall i | 0 <= i < |gs| ensures i > 0 ==> gs[i].key != [] { RisesAboveFirst(gs, i); }
    if Forgets(gs, FRESH) {
      MergesFront(merge, gs, o, written);
      WithoutEmpty(merge, added, batches, o, written);
    } else if |gs| > 0 && gs[0].key == [] {
      StandEach(merge, dup, Seen(gs), written);
      SeenAll(gs);
      OneChunkLeft(merge, batches, readers, dup, written);
      OneEmpty(merge, added, batches, o, written);
    } else {
      MergesEach(merge, gs, written);
      NothingEmpty(merge, added, batches, o, written);
    }
  }

  lemma ForgetsIs(gs: seq<Group>)
    ensures Forgets(gs, FRESH) <==> |gs| > 1 && gs[0].key == []
  {
  }

  lemma SeenAll(gs: seq<Group>)
    requires !Forgets(gs, FRESH)
    ensures Seen(gs) == gs
  {
  }

  /** Under the empty key one chunk's value is left. */
  lemma {:induction false} OneChunkLeft(merge: MergeFn, batches: Tails, readers: Tails, dup: Option<DupSort>, written: seq<Entry>)
    requires ChunksOf(merge, batches, readers) && AllSorted(readers) && |Groups(readers)| == 1 == |written|
    requires Groups(readers)[0].key == [] && StandsFor(merge, dup, Due(Groups(readers)[0]), written[0])
    ensures exists i :: 0 <= i < |batches| && IsSummary(merge, batches[i], written)
  {
    hide Groups, StandsFor, IsSummary, ValuesUnder, AllSorted, ValuesIn;
    var e := written[0];
    ValueOfGroup(merge, dup, Groups(readers)[0], e);
    GroupsHoldAllValues(readers, 0);
    var i := ValueFrom(readers, [], e.val);
    forall j | 0 <= j < |readers[i]| ensures readers[i][j].key == [] { var g := GroupsHaveEveryKey(readers, i, j); }
    assert readers[i] in readers;
    OnlyEntry(readers, i, e);
    assert written == readers[i];
  }

  lemma OnlyEntry(readers: Tails, i: nat, e: Entry)
    requires AllSorted(readers) && i < |readers| && (forall j :: 0 <= j < |readers[i]| ==> readers[i][j].key == [])
    requires e.key == [] && e.val in ValuesIn(readers[i], [])
    ensures readers[i] == [e]
  {
    var t := readers[i];
    assert t in readers;
    if |t| > 1 { LessTrichotomy(t[0].key, t[1].key); }
    assert ValuesIn(t[1..], []) == multiset{};
  }

  /** What is due under the empty key is one of its values. */
  lemma ValueOfGroup(merge: MergeFn, dup: Option<DupSort>, g: Group, e: Entry)
    requires g.key == [] && StandsFor(merge, dup, Due(g), e)
    ensures e.key == [] && e.val in g.vals
  {
    hide Ascending;
    if |g.vals| > 1 {
      var vs: seq<Bytes> :| |vs| > 0 && multiset(vs) == g.vals && Ascending(dup, [], vs) && e.val == vs[|vs| - 1];
      assert e.val in multiset(vs);
    } else {
      var vs: seq<Bytes> :| |vs| > 0 && multiset(vs) == g.vals && Ascending(dup, [], vs) && e.val == FoldValues(merge, [], vs);
      assert |multiset(vs)| == |vs| && vs[0] in multiset(vs);
    }
  }

  lemma {:induction false} ValueFrom(ts: Tails, k: Bytes, v: Bytes) returns (i: nat)
    requires v in ValuesUnder(ts, k)
    ensures i < |ts| && v in ValuesIn(ts[i], k)
  {
    var n := |ts| - 1;
    if v in ValuesIn(ts[n], k) { i := n; } else { i := ValueFrom(ts[..n], k, v); }
  }

  lemma WithoutEmpty(merge: MergeFn, added: seq<Entry>, batches: Tails, o: seq<Entry>, written: seq<Entry>)
    requires |o| > 1 && o[0].key == [] && o[1].key != [] && IsSummary(merge, added, [o[0]] + written)
    requires KeysWithin(o, added)
    ensures Written(merge, added, batches, written)
  {
    hide IsFold, ValuesIn, NonEmptyOf, IsSummary;
    SummaryWithoutEmpty(merge, added, o[0], written);
    SomeNotEmpty(added, o, 1);
  }

  lemma OneEmpty(merge: MergeFn, added: seq<Entry>, batches: Tails, o: seq<Entry>, written: seq<Entry>)
    requires |o| == 1 && o[0].key == [] && KeysWithin(added, o) && KeysWithin(o, added)
    requires exists i :: 0 <= i < |batches| && IsSummary(merge, batches[i], written)
    ensures Written(merge, added, batches, written)
  {
    hide IsFold, IsSummary, NonEmptyOf;
    OnlyOneKey(added, o);
  }

  lemma NothingEmpty(merge: MergeFn, added: seq<Entry>, batches: Tails, o: seq<Entry>, written: seq<Entry>)
    requires IsSummary(merge, added, written) && (forall i :: 0 <= i < |o| ==> o[i].key != [])
    requires KeysWithin(added, o)
    ensures Written(merge, added, batches, written)
  {
    hide IsFold, IsSummary, NonEmptyOf;
    NoneWithEmptyKey(added, o);
    NoneEmpty(added);
  }

  lemma StandWritten(merge: MergeFn, dup: Option<DupSort>, gs: seq<Group>, written: seq<Entry>)
    requires StandForAll(merge, dup, Seen(gs), written)
    ensures var skip := if Forgets(gs, FRESH) then 1 else 0;
            |written| + skip == |gs| && forall i :: 0 <= i < |written| ==> ComesOut(merge, gs[i + skip], written[i])
  {
    hide StandsFor, ComesOut, Less, IsDupFold, IsLast;
    StandEach(merge, dup, Seen(gs), written);
    var skip := if Forgets(gs, FRESH) then 1 else 0;
    forall i | 0 <= i < |written| ensures ComesOut(merge, gs[i + skip], written[i]) {
      assert Seen(gs)[i] == gs[i + skip];
      OutOf(merge, dup, gs[i + skip], written[i]);
    }
  }

  lemma StandEach(merge: MergeFn, dup: Option<DupSort>, gs: seq<Group>, out: seq<Entry>)
    requires StandForAll(merge, dup, gs, out)
    ensures |out| == |gs| && forall m :: 0 <= m < |gs| ==> StandsFor(merge, dup, Due(gs[m]), out[m])
  {
    hide StandsFor, Due;
  }

  lemma SomeNotEmpty(es: seq<Entry>, o: seq<Entry>, i: nat)
    requires i < |o| && o[i].key != [] && KeysWithin(o, es)
    ensures !AllKeysEmpty(es)
  {
  }

  lemma OnlyOneKey(es: seq<Entry>, o: seq<Entry>)
    requires |o| == 1 && o[0].key == [] && KeysWithin(es, o) && KeysWithin(o, es)
    ensures es != [] && AllKeysEmpty(es)
  {
    hide KeysWithin, AllKeysEmpty;
    OnlyEmptyKey(es, o);
    SomeEntryThere(es, o);
  }

  lemma OnlyEmptyKey(es: seq<Entry>, o: seq<Entry>)
    requires |o| == 1 && o[0].key == [] && KeysWithin(es, o)
    ensures AllKeysEmpty(es)
  {
  }

  lemma SomeEntryThere(es: seq<Entry>, o: seq<Entry>)
    requires |o| == 1 && KeysWithin(o, es)
    ensures es != []
  {
    assert HasKey(es, o[0].key);
  }

  lemma NoneWithEmptyKey(es: seq<Entry>, o: seq<Entry>)
    requires (forall i :: 0 <= i < |o| ==> o[i].key != []) && KeysWithin(es, o)
    ensures NoKeyEmpty(es) && (es != [] ==> !AllKeysEmpty(es))
  {
    if |es| > 0 { assert es[0] in es; }
  }

  lemma RisesAboveFirst(gs: seq<Group>, i: nat)
    requires KeysRise(gs) && i < |gs|
    ensures i > 0 ==> gs[i].key != []
  {
    if i > 0 { assert Less(gs[0].key, gs[i].key); }
  }

  lemma MergedKeys(merge: MergeFn, gs: seq<Group>, o: seq<Entry>)
    requires Merges(merge, gs, o)
    ensures |o| == |gs| && forall i :: 0 <= i < |gs| ==> o[i].key == gs[i].key
  {
  }

  lemma MergesFront(merge: MergeFn, gs: seq<Group>, o: seq<Entry>, written: seq<Entry>)
    requires Merges(merge, gs, o) && |gs| == |written| + 1 && (forall i :: 0 <= i < |gs| && i > 0 ==> gs[i].key != [])
    requires forall i :: 0 <= i < |written| ==> ComesOut(merge, gs[i + 1], written[i])
    ensures Merges(merge, gs, [o[0]] + written)
  {
    hide IsFold;
    var whole := [o[0]] + written;
    forall i | 0 <= i < |gs| ensures whole[i].key == gs[i].key && IsFold(merge, gs[i].key, gs[i].vals, whole[i].val) {
      if i > 0 { assert whole[i] == written[i - 1] && ComesOut(merge, gs[i - 1 + 1], written[i - 1]); }
    }
  }

  lemma MergesEach(merge: MergeFn, gs: seq<Group>, written: seq<Entry>)
    requires |gs| == |written| && (forall i :: 0 <= i < |gs| ==> gs[i].key != [])
    requires forall i :: 0 <= i < |written| ==> ComesOut(merge, gs[i + 0], written[i])
    ensures Merges(merge, gs, written)
  {
    hide IsFold;
  }

  /** The keys of a summary are those of the entries. */
  lemma {:induction false} SummaryKeys(merge: MergeFn, es: seq<Entry>, out: seq<Entry>)
    requires IsSummary(merge, es, out)
    ensures KeysWithin(es, out) && KeysWithin(out, es)
  {
    hide IsFold, IsSummary;
    forall e | e in es ensures HasKey(out, e.key) {
      var j :| 0 <= j < |es| && es[j] == e;
      SomeValue(es, j);
      SummaryFacts(merge, es, out, e.key);
    }
    forall e | e in out ensures HasKey(es, e.key) {
      assert HasKey(out, e.key);
      SummaryFacts(merge, es, out, e.key);
      SomeKey(es, e.key);
    }
  }

  lemma {:induction false} NoneEmpty(es: seq<Entry>)
    requires NoKeyEmpty(es)
    ensures NonEmptyOf(es) == es
  {
    if |es| > 0 {
      var n := |es| - 1;
      forall e | e in es[..n] ensures e.key != [] { assert e in es; }
      NoneEmpty(es[..n]);
      assert es == es[..n] + [es[n]];
    }
  }

  /** The summary of the entries with non-empty keys is the rest of the summary. */
  lemma {:induction false} SummaryWithoutEmpty(merge: MergeFn, es: seq<Entry>, x: Entry, out: seq<Entry>)
    requires IsSummary(merge, es, [x] + out) && x.key == []
    ensures IsSummary(merge, NonEmptyOf(es), out)
  {
    hide IsFold, ValuesIn, NonEmptyOf;
    var all := [x] + out;
    forall i, j | 0 <= i < j < |out| ensures Less(out[i].key, out[j].key) { assert all[i + 1] == out[i] && all[j + 1] == out[j]; }
    forall j | 0 <= j < |out| ensures IsFold(merge, out[j].key, ValuesIn(NonEmptyOf(es), out[j].key), out[j].val) {
      assert all[j + 1] == out[j] && Less(all[0].key, all[j + 1].key);
      NonEmptyValues(es, out[j].key);
    }
    forall k: Bytes | ValuesIn(NonEmptyOf(es), k) != multiset{} ensures HasKey(out, k) {
      NonEmptyValues(es, k);
      assert HasKey(all, k);
      var j :| 0 <= j < |all| && all[j].key == k;
      assert out[j - 1].key == k;
    }
  }

  /** Every key is written exactly when none is empty or all are. */
  lemma {:induction false} KeysWritten(merge: MergeFn, added: seq<Entry>, batches: Tails, out: seq<Entry>)
    requires Written(merge, added, batches, out) && NoneEmptyIn(batches)
    requires forall k: Bytes :: ValuesIn(added, k) == ValuesUnder(batches, k)
    ensures KeysWithin(added, out) <==> NoKeyEmpty(added) || AllKeysEmpty(added)
  {
    hide IsFold, IsSummary, NonEmptyOf, ValuesIn, ValuesUnder;
    if added != [] && AllKeysEmpty(added) {
      var i :| 0 <= i < |batches| && IsSummary(merge, batches[i], out);
      SummaryKeys(merge, batches[i], out);
      OnlyEmptyIn(added, batches, i);
      assert batches[i][0] in batches[i] && HasKey(out, batches[i][0].key);
      assert KeysWithin(added, out);
    } else {
      SummaryKeys(merge, NonEmptyOf(added), out);
      FilteredIn(added);
      if NoKeyEmpty(added) { NoneEmpty(added); }
    }
  }

  /** If all keys added are empty, so are all in a batch. */
  lemma {:induction false} OnlyEmptyIn(added: seq<Entry>, batches: Tails, i: nat)
    requires AllKeysEmpty(added) && i < |batches| && NoneEmptyIn(batches)
    requires forall k: Bytes :: ValuesIn(added, k) == ValuesUnder(batches, k)
    ensures AllKeysEmpty(batches[i]) && |batches[i]| > 0 && ValuesIn(batches[i], []) != multiset{}
  {
    hide ValuesIn, ValuesUnder;
    assert batches[i] in batches;
    forall e | e in batches[i] ensures e.key == [] {
      var j :| 0 <= j < |batches[i]| && batches[i][j] == e;
      SomeValue(batches[i], j);
      ValuesUnderWithout(batches, i, e.key);
      SomeKey(added, e.key);
    }
    assert batches[i][0] in batches[i];
    SomeValue(batches[i], 0);
  }

  /** Everything added is written, with all its values, if no key is empty or all are in one chunk; a merge
      function that grows shows that in the other cases something is missing. */
  lemma {:induction false} SummaryIff(merge: MergeFn, added: seq<Entry>, batches: Tails, out: seq<Entry>)
    requires Associates(merge) && Commutes(merge) && Written(merge, added, batches, out) && NoneEmptyIn(batches)
    requires forall k: Bytes :: ValuesIn(added, k) == ValuesUnder(batches, k)
    ensures WritesAll(added, |batches|) ==> IsSummary(merge, added, out)
    ensures Grows(merge) && IsSummary(merge, added, out) ==> WritesAll(added, |batches|)
  {
    hide IsSummary, Associates, Commutes, Grows, ValuesIn, ValuesUnder, NonEmptyOf, IsFold, NoKeyEmpty, AllKeysEmpty, NoneEmptyIn;
    if NoKeyEmpty(added) {
      NoneEmpty(added);
      NotBoth(added);
    } else if AllKeysEmpty(added) {
      NotBoth(added);
      var i :| 0 <= i < |batches| && IsSummary(merge, batches[i], out);
      if |batches| == 1 {
        OneBatch(merge, added, batches, out);
      } else if Grows(merge) && IsSummary(merge, added, out) {
        ChunkMissing(merge, added, batches, i, out);
      }
    } else if IsSummary(merge, added, out) {
      SummaryKeys(merge, added, out);
      KeysWritten(merge, added, batches, out);
    }
  }

  lemma NotBoth(es: seq<Entry>)
    ensures NoKeyEmpty(es) && AllKeysEmpty(es) <==> es == []
  {
    if |es| > 0 { assert es[0] in es; }
  }

  lemma OneBatch(merge: MergeFn, added: seq<Entry>, batches: Tails, out: seq<Entry>)
    requires |batches| == 1 && IsSummary(merge, batches[0], out)
    requires forall k: Bytes :: ValuesIn(added, k) == ValuesUnder(batches, k)
    ensures IsSummary(merge, added, out)
  {
    hide ValuesIn, IsFold;
    forall k: Bytes ensures ValuesIn(added, k) == ValuesIn(batches[0], k) {
      LastValues(batches, k);
      NoValuesUnder(k);
    }
  }

  /** The fold of one batch's values is shorter than the fold of all. */
  lemma {:induction false} ChunkMissing(merge: MergeFn, added: seq<Entry>, batches: Tails, i: nat, out: seq<Entry>)
    requires Associates(merge) && Commutes(merge) && Grows(merge) && AllKeysEmpty(added) && NoneEmptyIn(batches)
    requires forall k: Bytes :: ValuesIn(added, k) == ValuesUnder(batches, k)
    requires i < |batches| && |batches| > 1 && IsSummary(merge, batches[i], out)
    ensures !IsSummary(merge, added, out)
  {
    hide Associates, Commutes, ValuesIn, ValuesUnder, IsFold, NoneEmptyIn, AllKeysEmpty;
    var rest := batches[..i] + batches[i + 1..];
    var j := if i == 0 then 1 else 0;
    OnlyEmptyIn(added, batches, i);
    OnlyEmptyIn(added, batches, j);
    ValuesUnderWithout(batches, i, []);
    var p := if i == 0 then 0 else j;
    assert rest[p] == batches[j];
    ValuesUnderWithout(rest, p, []);
    var all, mine, others := ValuesUnder(batches, []), ValuesIn(batches[i], []), ValuesUnder(rest, []);
    assert others != multiset{};
    if IsSummary(merge, added, out) {
      SummaryFacts(merge, added, out, []);
      var m :| 0 <= m < |out| && out[m].key == [];
      var v := out[m].val;
      var y := SomeFold(merge, [], others);
      assert |merge([], y, v)| > |v|;
      FoldsJoin(merge, [], others, mine, y, v);
      FoldIsUnique(merge, [], all, merge([], y, v), v);
    }
  }

  /** A merge function of this kind. */
  const TALLY: MergeFn := (key: Bytes, a: Bytes, b: Bytes) => Zeros(|a| + |b| + 1)

  function Zeros(n: nat): (s: Bytes)
    ensures |s| == n
  {
    seq(n, _ => 0)
  }

  lemma TallyGrows()
    ensures Associates(TALLY) && Commutes(TALLY) && Grows(TALLY)
  {
    hide Zeros;
  }

  lemma {:induction false} FilteredIn(es: seq<Entry>)
    ensures forall e :: e in NonEmptyOf(es) <==> e in es && e.key != []
  {
    if |es| > 0 {
      var n := |es| - 1;
      FilteredIn(es[..n]);
      assert es == es[..n] + [es[n]];
    }
  }

  lemma Collected(added: seq<Entry>, vec: seq<Entry>, e: Entry)
    ensures forall k: Bytes :: ValuesIn(added + [e], k) == ValuesIn(added, k) + ValuesIn([e], k)
    ensures forall k: Bytes :: ValuesIn(vec + [e], k) == ValuesIn(vec, k) + ValuesIn([e], k)
  {
    forall k: Bytes ensures ValuesIn(added + [e], k) == ValuesIn(added, k) + ValuesIn([e], k)
                    ensures ValuesIn(vec + [e], k) == ValuesIn(vec, k) + ValuesIn([e], k)
    {
      ValuesInConcat(added, [e], k);
      ValuesInConcat(vec, [e], k);
    }
  }

  lemma VecMoves(added: seq<Entry>, batches: Tails, inFlight: Tails, vec: seq<Entry>)
    requires forall k: Bytes :: ValuesIn(added, k) == ValuesUnder(batches, k) + ValuesUnder(inFlight, k) + ValuesIn(vec, k)
    ensures forall k: Bytes :: ValuesIn(added, k) == ValuesUnder(batches, k) + ValuesUnder(inFlight + [vec], k) + ValuesIn([], k)
    ensures forall k: Bytes :: ValuesIn(added, k) == ValuesUnder(batches + [vec], k) + ValuesUnder(inFlight, k) + ValuesIn([], k)
  {
    hide ValuesIn, ValuesUnder;
    forall k: Bytes
      ensures ValuesIn(added, k) == ValuesUnder(batches, k) + ValuesUnder(inFlight + [vec], k) + ValuesIn([], k)
      ensures ValuesIn(added, k) == ValuesUnder(batches + [vec], k) + ValuesUnder(inFlight, k) + ValuesIn([], k)
    {
      ValuesUnderSnoc(inFlight, vec, k);
      ValuesUnderSnoc(batches, vec, k);
      NoValues([], k);
    }
  }

  lemma NoDupOrder()
    ensures DupOk(None)
  {
  }

  lemma {:induction false} ValuesUnderHas(ts: Tails, i: nat, k: Bytes)
    requires i < |ts| && ValuesIn(ts[i], k) != multiset{}
    ensures ValuesUnder(ts, k) != multiset{}
  {
    var n := |ts| - 1;
    if i < n { ValuesUnderHas(ts[..n], i, k); }
  }
}
