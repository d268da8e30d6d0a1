/** The sorter on a thread pool (mtbl/sorter.c with mtbl/threadpool.c): chunk files are
    written by unordered jobs and their readers collected as the jobs finish.  Whatever
    the schedule, the merge of the readers is the one of the sorter without a pool. */
module PooledSorter {
  import opened ByteOrder
  import opened MergeView
  import opened Merger
  import opened Folding
  import opened Sorter
  import TP = ThreadPool
  import TR = ThreadPoolResults
  import TS = ThreadPoolSteps
  import TQ = ThreadPoolProgress
  import opened ThreadPoolInv

  ghost predicate Below(ids: seq<nat>, n: nat) { forall p :: 0 <= p < |ids| ==> ids[p] < n }

  /** Each of 0 to n-1 once. */
  ghost predicate IsPermutation(ids: seq<nat>, n: nat) {
    && Below(ids, n)
    && (forall p, q :: 0 <= p < q < |ids| ==> ids[p] != ids[q])
    && (forall i: nat :: i < n ==> i in ids)
  }

  /** The readers, in the order in which their jobs were delivered. */
  ghost function InOrderOf(ts: Tails, ids: seq<nat>): (r: Tails)
    requires Below(ids, |ts|)
    ensures |r| == |ids| && forall p :: 0 <= p < |ids| ==> r[p] == ts[ids[p]]
  {
    seq(|ids|, p requires 0 <= p < |ids| => ts[ids[p]])
  }

  function Without(ids: seq<nat>, p: nat): (r: seq<nat>)
    requires p < |ids|
    ensures |r| == |ids| - 1 && forall q :: 0 <= q < |r| ==> r[q] == ids[if q < p then q else q + 1]
  {
    ids[..p] + ids[p + 1..]
  }

  lemma {:induction false} WithoutLast(ids: seq<nat>, n: nat) returns (p: nat)
    requires IsPermutation(ids, n) && n > 0
    ensures p < |ids| && ids[p] == n - 1 && IsPermutation(Without(ids, p), n - 1)
  {
    var last: nat := n - 1;
    assert last in ids;
    p :| 0 <= p < |ids| && ids[p] == last;
    var rest := Without(ids, p);
    forall q | 0 <= q < |rest| ensures rest[q] < last {
      if q < p { assert ids[q] != ids[p]; } else { assert ids[q + 1] != ids[p]; }
    }
    forall i: nat | i < last ensures i in rest {
      assert i in ids;
      var q :| 0 <= q < |ids| && ids[q] == i;
      if q < p { assert rest[q] == i; } else { assert rest[q - 1] == i; }
    }
  }

  /** Reordering the readers changes no key's values. */
  lemma {:induction false} SameValuesUnder(ts: Tails, ids: seq<nat>, k: Bytes)
    requires IsPermutation(ids, |ts|)
    ensures Below(ids, |ts|) && ValuesUnder(InOrderOf(ts, ids), k) == ValuesUnder(ts, k)
    decreases |ts|
  {
    hide ValuesIn;
    var n := |ts|;
    if |ids| == 0 {
      assert 0 !in ids;
      assert InOrderOf(ts, ids) == [];
    } else {
      assert ids[0] < n;
      var p := WithoutLast(ids, n);
      hide IsPermutation;
      SameValuesUnder(ts[..n - 1], Without(ids, p), k);
      TakesOne(ts, ids, p);
      ValuesUnderWithout(InOrderOf(ts, ids), p, k);
    }
  }

  lemma {:induction false} TakesOne(ts: Tails, ids: seq<nat>, p: nat)
    requires |ts| > 0 && Below(ids, |ts|) && p < |ids| && Below(Without(ids, p), |ts| - 1)
    ensures var all := InOrderOf(ts, ids);
            InOrderOf(ts[..|ts| - 1], Without(ids, p)) == all[..p] + all[p + 1..]
  {
  }

  lemma {:induction false} ReordersChunks(merge: MergeFn, batches: Tails, chunks: Tails, ids: seq<nat>)
    requires ChunksOf(merge, batches, chunks) && Below(ids, |chunks|)
    ensures ChunksOf(merge, InOrderOf(batches, ids), InOrderOf(chunks, ids))
    ensures AllSorted(chunks) && AllSorted(InOrderOf(chunks, ids))
  {
    hide Sorted, IsFold, ValuesIn;
    forall t | t in chunks ensures Sorted(t) {
      var i :| 0 <= i < |chunks| && chunks[i] == t;
      assert IsSummary(merge, batches[i], chunks[i]);
    }
    forall t | t in InOrderOf(chunks, ids) ensures Sorted(t) {
      var p :| 0 <= p < |ids| && InOrderOf(chunks, ids)[p] == t;
      assert chunks[ids[p]] in chunks;
    }
  }

  /** Once the handler has exited, the merge of the readers it collected summarises everything
      added, and it is the merge of the readers in the order of their batches. */
  lemma {:induction false} PoolSortsTheSame(merge: MergeFn, es: seq<Entry>, batches: Tails, chunks: Tails,
                                            progs: seq<seq<bool>>, max: nat, ls: seq<TP.Label>, s: TP.State, c: nat)
    requires Associates(merge) && Commutes(merge) && ChunksOf(merge, batches, chunks)
    requires forall k: Bytes :: ValuesIn(es, k) == ValuesUnder(batches, k)
    requires 0 < max < TP.TWO64 && TP.IsRun(TP.Initial(progs, max), ls, s)
    requires c < |progs| && |progs[c]| == |batches| && c < |s.clients| && s.clients[c].h == TP.Quit
    ensures IsPermutation(s.clients[c].delivered, |chunks|)
    ensures forall out: seq<Entry> :: Merges(merge, Groups(InOrderOf(chunks, s.clients[c].delivered)), out) ==> IsSummary(merge, es, out)
    ensures forall out: seq<Entry>, alone: seq<Entry> ::
              Merges(merge, Groups(InOrderOf(chunks, s.clients[c].delivered)), out) && Merges(merge, Groups(chunks), alone) ==> out == alone
  {
    hide Inv, ClientOk, Associates, Commutes, Groups, Merges, IsSummary, ValuesIn, ValuesUnder, TR.Ordered, TR.OrderedJobs, Sorted;
    TS.InitialInv(progs, max);
    TS.RunKeepsInv(TP.Initial(progs, max), ls, s);
    TQ.ProgramsStay(TP.Initial(progs, max), ls, s);
    TR.AllDelivered(s, c);
    var ids := s.clients[c].delivered;
    assert forall p :: 0 <= p < |ids| ==> ids[p] in ids;
    assert IsPermutation(ids, |batches|);
    ReordersChunks(merge, batches, chunks, ids);
    forall k: Bytes ensures ValuesIn(es, k) == ValuesUnder(InOrderOf(batches, ids), k) { SameValuesUnder(batches, ids, k); }
    forall out: seq<Entry> | Merges(merge, Groups(InOrderOf(chunks, ids)), out) ensures IsSummary(merge, es, out) {
      MergeOfChunks(merge, es, InOrderOf(batches, ids), InOrderOf(chunks, ids), out);
    }
    forall alone: seq<Entry> | Merges(merge, Groups(chunks), alone) ensures IsSummary(merge, es, alone) {
      MergeOfChunks(merge, es, batches, chunks, alone);
    }
    forall out: seq<Entry>, alone: seq<Entry> | Merges(merge, Groups(InOrderOf(chunks, ids)), out) && Merges(merge, Groups(chunks), alone)
      ensures out == alone
    {
      SummaryIsUnique(merge, es, es, out, alone);
    }
  }
}
