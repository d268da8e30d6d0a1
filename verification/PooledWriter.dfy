/** The table writer on a thread pool (mtbl/writer.c with mtbl/threadpool.c).

    Cutting entries into blocks touches only the writer's front; compressing is
    a pool job for each block, dispatched in order; storing a block is the result
    callback and touches only the writer's back.  Whatever the schedule, and
    however many other clients share the pool, the file is the one written
    without a pool. */
module PooledWriter {
  import opened ByteOrder
  import opened Codec
  import opened Block
  import opened Table
  import opened Writer
  import opened RoundTrip
  import TP = ThreadPool
  import TR = ThreadPoolResults
  import TS = ThreadPoolSteps
  import TQ = ThreadPoolProgress
  import opened ThreadPoolInv

  // ---------- without a pool ----------

  lemma AcceptsKnown(w: Writer, e: Entry)
    requires w.Valid()
    ensures Accepts(w.FrontState(), e) <==> w.Entries() == [] || Less(LastKey(w.Entries()), e.key)
  {
    hide Writer.Parts, Writer.BlocksBounded, LastKey, KeyBytes, ValueBytes, AllEntries;
  }

  lemma CountsKnown(w: Writer)
    requires w.Valid()
    ensures w.m.countEntries == |w.Entries()| && w.m.bytesKeys == KeyBytes(w.Entries()) && w.m.bytesValues == ValueBytes(w.Entries())
  {
    hide Writer.Parts, Writer.BlocksBounded, LastKey, KeyBytes, ValueBytes, AllEntries;
  }

  /** Adding all the entries and closing, each block stored as it fills. */
  method WriteSequentially(env: Env, opt: Options, reserved: Bytes, es: seq<Entry>) returns (file: Bytes)
    requires env.Ok() && opt.Ok() && (forall e <- es :: SmallEntry(e))
    requires Fits(opt, reserved, es)
    ensures file == TableFile(env, opt, reserved, es)
  {
    hide Sorted, Added, WriteJobs, AddFront, FlushFront, Writer.Core, Writer.Valid, LastKey, ClosedFile, MainRun, KeyBytes, ValueBytes,
         AllEntries, Accepts, Cost, TableImage, Less, Writer.BlocksBounded, Writer.Weight;
    var w := new Writer(env, opt, reserved);
    ghost var b0 := StartBack(reserved);
    NothingRun(env, opt, b0);
    var i := 0;
    while i < |es|
      invariant i <= |es| && fresh(w) && fresh(w.data) && fresh(w.index)
      invariant w.Valid() && w.env == env && w.opt == opt
      invariant w.Weight() <= |reserved| + 60 + Cost(es[..i])
      invariant w.FrontState() == MainRun(opt, es[..i]).front && w.Entries() == MainRun(opt, es[..i]).kept
      invariant w.BackState() == WriteJobs(env, opt, b0, MainRun(opt, es[..i]).jobs)
    {
      CostSplit(es, i);
      BlocksFit(env, opt, reserved, es, i);
      assert es[i] in es;
      ghost var m := MainRun(opt, es[..i]);
      WriteJobsConcat(env, opt, b0, m.jobs, AddFront(opt, m.front, es[i]).1);
      AcceptsKnown(w, es[i]);
      var added := w.Add(es[i].key, es[i].val);
      MainSnoc(opt, es, i);
      i := i + 1;
    }
    assert es[..i] == es;
    BlocksFit(env, opt, reserved, es, |es|);
    ghost var m := MainRun(opt, es);
    WriteJobsConcat(env, opt, b0, m.jobs, FlushFront(m.front).1);
    CountsKnown(w);
    ghost var raw, lay;
    raw, lay := w.Finish();
    file := w.file;
  }

  // ---------- with a pool ----------

  /** The result callback, for each result in the order the pool delivers them. */
  function Callbacks(env: Env, opt: Options, b: Back, jobs: seq<Job>, ids: seq<nat>): Back {
    if |ids| == 0 then b
    else
      var id := ids[|ids| - 1];
      var before := Callbacks(env, opt, b, jobs, ids[..|ids| - 1]);
      if id < |jobs| then WriteJob(env, opt, before, Compressed(env, jobs[id])) else before
  }

  /** Jobs delivered in order are stored as the first blocks. */
  lemma {:induction false} InOrder(env: Env, opt: Options, b: Back, jobs: seq<Job>, ids: seq<nat>)
    requires |ids| <= |jobs| && forall i :: 0 <= i < |ids| ==> ids[i] == i
    ensures Callbacks(env, opt, b, jobs, ids) == WriteJobs(env, opt, b, jobs[..|ids|])
  {
    if |ids| > 0 {
      var k := |ids| - 1;
      InOrder(env, opt, b, jobs, ids[..k]);
      assert jobs[..k + 1][..k] == jobs[..k];
    }
  }

  function AllOrdered(n: nat): (prog: seq<bool>)
    ensures |prog| == n && forall i :: 0 <= i < n ==> prog[i]
  {
    seq(n, _ => true)
  }

  lemma {:induction false} EveryJobOrdered(n: nat, k: nat)
    requires k <= n
    ensures |TR.OrderedJobs(AllOrdered(n), k)| == k && forall i :: 0 <= i < k ==> TR.OrderedJobs(AllOrdered(n), k)[i] == i
  {
    if k > 0 { EveryJobOrdered(n, k - 1); }
  }

  lemma {:induction false} AllKept(n: nat, ids: seq<nat>)
    requires forall i <- ids :: i < n
    ensures TR.Ordered(AllOrdered(n), ids) == ids
  {
    if |ids| > 0 {
      var k := |ids| - 1;
      assert ids[k] in ids;
      forall i | i in ids[..k] ensures i < n { assert i in ids; }
      AllKept(n, ids[..k]);
      assert ids == ids[..k] + [ids[k]];
    }
  }

  /** At every moment of every schedule the stored part is a beginning of the sequential
      writer's; once the handler has exited, closing gives the sequential writer's file. */
  lemma {:induction false} PoolWritesTheSameFile(env: Env, opt: Options, reserved: Bytes, es: seq<Entry>,
                                                 progs: seq<seq<bool>>, max: nat, ls: seq<TP.Label>, s: TP.State, c: nat)
    requires 0 < max < TP.TWO64 && TP.IsRun(TP.Initial(progs, max), ls, s)
    requires c < |progs| && progs[c] == AllOrdered(|AllJobs(opt, es)|)
    ensures |s.clients| == |progs| && |s.clients[c].delivered| <= |AllJobs(opt, es)|
    ensures var b := Callbacks(env, opt, StartBack(reserved), AllJobs(opt, es), s.clients[c].delivered);
            && b == WriteJobs(env, opt, StartBack(reserved), AllJobs(opt, es)[..|s.clients[c].delivered|])
            && b.file <= WriteJobs(env, opt, StartBack(reserved), AllJobs(opt, es)).file
            && (s.clients[c].h == TP.Quit ==> CloseWith(env, opt, b, MainRun(opt, es).kept) == TableFile(env, opt, reserved, es))
  {
    hide WriteJobs, Callbacks, AllJobs, ClosedFile, TableFile, MainRun, TR.Ordered, TR.OrderedJobs, Inv;
    var jobs, n := AllJobs(opt, es), |AllJobs(opt, es)|;
    TS.InitialInv(progs, max);
    TS.RunKeepsInv(TP.Initial(progs, max), ls, s);
    TQ.ProgramsStay(TP.Initial(progs, max), ls, s);
    TR.DeliveredInOrder(s, c);
    var ids := s.clients[c].delivered;
    AllKept(n, ids);
    EveryJobOrdered(n, s.clients[c].next);
    InOrder(env, opt, StartBack(reserved), jobs, ids);
    JobsPrefix(env, opt, StartBack(reserved), jobs, |ids|);
    if s.clients[c].h == TP.Quit {
      TR.AllDelivered(s, c);
      EveryJobOrdered(n, n);
      assert jobs[..n] == jobs;
      ClosedAlike(env, opt, reserved, es);
    }
  }

  lemma ClosedAlike(env: Env, opt: Options, reserved: Bytes, es: seq<Entry>)
    ensures TableFile(env, opt, reserved, es)
            == CloseWith(env, opt, WriteJobs(env, opt, StartBack(reserved), AllJobs(opt, es)), MainRun(opt, es).kept)
  {
    hide CloseWith, WriteJobs, AllJobs, MainRun;
  }

  lemma JobsPrefix(env: Env, opt: Options, b: Back, jobs: seq<Job>, k: nat)
    requires k <= |jobs|
    ensures WriteJobs(env, opt, b, jobs[..k]).file <= WriteJobs(env, opt, b, jobs).file
  {
    hide WriteJobs;
    assert jobs == jobs[..k] + jobs[k..];
    WriteJobsConcat(env, opt, b, jobs[..k], jobs[k..]);
    JobsExtendFile(env, opt, WriteJobs(env, opt, b, jobs[..k]), jobs[k..]);
  }
}
