/** The table writer (mtbl/writer.c).

    The writer has a front, which cuts the entries into blocks, and a back,
    which stores finished blocks and grows the index.  Both are given as value
    functions, and the class is proved against them. */
module Writer {
  import opened ByteOrder
  import opened Codec
  import opened Block
  import opened Metadata
  import opened Table
  import Separator

  datatype Options = Options(blockSize: nat, interval: nat, compression: nat) {
    predicate Ok() { interval >= 1 && blockSize <= UINT32_MAX && compression < TWO64 }
  }

  /** A finished block on its way to the file, with the key its index entry will have. */
  datatype Job = Job(data: Bytes, lastKey: Bytes)

  datatype Front = Front(data: BuilderState, lastKey: Bytes, count: nat)
  datatype Back = Back(file: Bytes, pending: nat, last: nat, bytesData: nat, countBlocks: nat, index: BuilderState)

  function EstimateOf(s: BuilderState): nat {
    if |s.buf| > UINT32_MAX then |s.buf| + 8 * |s.restarts| + 4 else |s.buf| + 8 * |s.restarts| / 2 + 4
  }

  function FlushFront(f: Front): (Front, seq<Job>) {
    if |f.data.buf| == 0 then (f, []) else (f.(data := EMPTY_BUILDER), [Job(Finished(f.data), f.lastKey)])
  }

  predicate Accepts(f: Front, e: Entry) { f.count == 0 || Less(f.lastKey, e.key) }

  function AddFront(opt: Options, f: Front, e: Entry): (Front, seq<Job>) {
    if !Accepts(f, e) then (f, [])
    else
      var full := EstimateOf(f.data) + 15 + |e.key| + |e.val| >= opt.blockSize;
      var (g, jobs) := if full then FlushFront(f.(lastKey := Separator.Shortened(f.lastKey, e.key))) else (f, []);
      (Front(Added(g.data, opt.interval, e), e.key, g.count + 1), jobs)
  }

  function Compressed(env: Env, j: Job): Job { j.(data := env.compress(j.data)) }

  /** What the result callback does with a compressed block. */
  function WriteJob(env: Env, opt: Options, b: Back, j: Job): Back {
    var n := |Frame(env, j.data)|;
    Back(b.file + Frame(env, j.data), b.pending + n, b.pending, b.bytesData + n, b.countBlocks + 1,
         Added(b.index, opt.interval, Entry(j.lastKey, VarintBytes(b.pending))))
  }

  function WriteJobs(env: Env, opt: Options, b: Back, jobs: seq<Job>): Back {
    if |jobs| == 0 then b
    else WriteJob(env, opt, WriteJobs(env, opt, b, jobs[..|jobs| - 1]), Compressed(env, jobs[|jobs| - 1]))
  }

  lemma {:induction false} WriteJobsConcat(env: Env, opt: Options, b: Back, xs: seq<Job>, ys: seq<Job>)
    ensures WriteJobs(env, opt, b, xs + ys) == WriteJobs(env, opt, WriteJobs(env, opt, b, xs), ys)
  {
    if |ys| == 0 {
      assert xs + ys == xs;
    } else {
      var k := |ys| - 1;
      assert (xs + ys)[..|xs + ys| - 1] == xs + ys[..k];
      WriteJobsConcat(env, opt, b, xs, ys[..k]);
    }
  }

  /** What the adding thread has: the front, the blocks it has cut off so far, and the entries it took. */
  datatype Main = Main(front: Front, jobs: seq<Job>, kept: seq<Entry>)

  const FRESH_MAIN := Main(Front(EMPTY_BUILDER, [], 0), [], [])

  function MainAdd(opt: Options, m: Main, e: Entry): Main {
    var (g, jobs) := AddFront(opt, m.front, e);
    Main(g, m.jobs + jobs, if Accepts(m.front, e) then m.kept + [e] else m.kept)
  }

  function MainRun(opt: Options, es: seq<Entry>): Main {
    if |es| == 0 then FRESH_MAIN else MainAdd(opt, MainRun(opt, es[..|es| - 1]), es[|es| - 1])
  }

  /** Every block the writer hands over for these entries, the last one included. */
  function AllJobs(opt: Options, es: seq<Entry>): seq<Job> {
    MainRun(opt, es).jobs + FlushFront(MainRun(opt, es).front).1
  }

  function StartBack(reserved: Bytes): Back { Back(reserved, |reserved|, |reserved|, 0, 0, EMPTY_BUILDER) }

  lemma MainSnoc(opt: Options, es: seq<Entry>, i: nat)
    requires i < |es|
    ensures MainRun(opt, es[..i + 1]) == MainAdd(opt, MainRun(opt, es[..i]), es[i])
  {
    assert es[..i + 1][..i] == es[..i];
  }

  lemma {:induction false} JobsCount(env: Env, opt: Options, b: Back, jobs: seq<Job>)
    ensures WriteJobs(env, opt, b, jobs).countBlocks == b.countBlocks + |jobs|
  {
    hide Added, Frame;
    if |jobs| > 0 { JobsCount(env, opt, b, jobs[..|jobs| - 1]); }
  }

  /** Blocks handed over stay handed over. */
  lemma {:induction false} JobsGrow(opt: Options, es: seq<Entry>, i: nat)
    requires i <= |es|
    ensures |MainRun(opt, es[..i]).jobs| <= |AllJobs(opt, es)|
    decreases |es| - i
  {
    hide AddFront, FlushFront;
    if i < |es| {
      MainSnoc(opt, es, i);
      JobsGrow(opt, es, i + 1);
    } else {
      assert es[..i] == es;
    }
  }

  /** An entry is added to one block at most, so there are no more blocks than entries. */
  lemma {:induction false} NoMoreJobs(opt: Options, es: seq<Entry>)
    ensures |AllJobs(opt, es)| <= |es|
    ensures var m := MainRun(opt, es); |m.jobs| + (if |m.front.data.buf| == 0 then 0 else 1) <= |es|
  {
    hide Added, Separator.Shortened, Finished;
    if |es| > 0 { NoMoreJobs(opt, es[..|es| - 1]); }
  }

  // ---------- what the open file means ----------

  /** `pending` are the entries in the block being built: every stored separator is below them. */
  ghost predicate OpenTable(env: Env, start: nat, file: Bytes, blks: seq<DataBlock>, pending: seq<Entry>) {
    && DataPart(env, file, start, |file|, blks)
    && (forall i, p :: 0 <= i < |blks| && 0 <= p < |pending| ==> Less(blks[i].sep, pending[p].key))
    && Sorted(AllEntries(blks) + pending)
  }

  lemma {:induction false} KeepOpenAdd(env: Env, start: nat, file: Bytes, blks: seq<DataBlock>, pending: seq<Entry>, e: Entry)
    requires OpenTable(env, start, file, blks, pending)
    requires forall i :: 0 <= i < |blks| ==> Less(blks[i].sep, e.key)
    requires var all := AllEntries(blks) + pending; |all| > 0 ==> Less(all[|all| - 1].key, e.key)
    ensures OpenTable(env, start, file, blks, pending + [e])
  {
    hide DataPart, AllEntries;
    var all := AllEntries(blks) + pending;
    assert AllEntries(blks) + (pending + [e]) == all + [e];
    SortedSnoc(all, e);
  }

  lemma SortedSnoc(es: seq<Entry>, e: Entry)
    requires Sorted(es) && (|es| > 0 ==> Less(es[|es| - 1].key, e.key))
    ensures Sorted(es + [e])
  {
    forall i | 0 <= i < |es| ensures Less(es[i].key, e.key) {
      if i < |es| - 1 { LessTransitive(es[i].key, es[|es| - 1].key, e.key); }
    }
  }

  /** Storing the pending block under a separator that bounds it keeps the file a table prefix. */
  lemma {:induction false} KeepOpenStore(env: Env, start: nat, file: Bytes, blks: seq<DataBlock>, b: DataBlock)
    requires OpenTable(env, start, file, blks, b.lay.ents)
    requires |b.lay.ents| > 0 && !Less(b.sep, b.lay.ents[|b.lay.ents| - 1].key)
    requires b.off == |file| && |file| < TWO64 && |b.raw| < TWO64
    requires BlockImage(env.decompress(b.raw), b.lay)
    ensures OpenTable(env, start, file + Frame(env, b.raw), blks + [b], [])
    ensures AllEntries(blks + [b]) == AllEntries(blks) + b.lay.ents
  {
    hide BlockImage, Frame, FrameAt, Separated, Sorted, Chained, BlockStored;
    assert (blks + [b])[..|blks|] == blks;
    AllEntriesSnoc(blks, b);
    StoredSnoc(env, start, file, blks, b);
    StillSeparated(blks, b);
    ChainedSnoc(env, start, file, blks, b);
    assert AllEntries(blks + [b]) + [] == AllEntries(blks + [b]);
  }

  lemma AllEntriesSnoc(blks: seq<DataBlock>, b: DataBlock)
    ensures AllEntries(blks + [b]) == AllEntries(blks) + b.lay.ents
  {
    assert (blks + [b])[..|blks|] == blks;
  }

  lemma {:induction false} ChainedSnoc(env: Env, start: nat, file: Bytes, blks: seq<DataBlock>, b: DataBlock)
    requires Chained(env, blks, start, |file|) && b.off == |file|
    ensures Chained(env, blks + [b], start, |file + Frame(env, b.raw)|)
  {
    assert (blks + [b])[..|blks|] == blks;
  }

  lemma {:induction false} StoredSnoc(env: Env, start: nat, file: Bytes, blks: seq<DataBlock>, b: DataBlock)
    requires DataPart(env, file, start, |file|, blks)
    requires |b.lay.ents| > 0 && b.off == |file| < TWO64 && |b.raw| < TWO64
    requires BlockImage(env.decompress(b.raw), b.lay)
    ensures forall i :: 0 <= i < |blks + [b]| ==> BlockStored(env, file + Frame(env, b.raw), (blks + [b])[i])
  {
    hide BlockImage, Frame, Separated, Sorted, Chained;
    var frame := Frame(env, b.raw);
    BlocksStay(env, file, frame, start, |file|, blks);
    assert (file + frame)[|file|..|file| + |frame|] == frame;
    forall i | 0 <= i < |blks + [b]| ensures BlockStored(env, file + frame, (blks + [b])[i]) {
      if i < |blks| { assert BlockStored(env, file + frame, blks[i]); }
    }
  }

  lemma {:induction false} StillSeparated(blks: seq<DataBlock>, b: DataBlock)
    requires Separated(blks) && |b.lay.ents| > 0 && Sorted(AllEntries(blks) + b.lay.ents)
    requires forall i, p :: 0 <= i < |blks| && 0 <= p < |b.lay.ents| ==> Less(blks[i].sep, b.lay.ents[p].key)
    requires !Less(b.sep, b.lay.ents[|b.lay.ents| - 1].key)
    ensures Separated(blks + [b])
  {
    var more := blks + [b];
    var es := b.lay.ents;
    var before := AllEntries(blks);
    forall p | 0 <= p < |es| ensures !Less(b.sep, es[p].key) {
      if p < |es| - 1 {
        assert (before + es)[|before| + p] == es[p] && (before + es)[|before| + |es| - 1] == es[|es| - 1];
        LessTrichotomy(es[p].key, es[|es| - 1].key);
        LessOrEqualTransitive(es[p].key, es[|es| - 1].key, b.sep);
      }
    }
    forall i, p | 0 <= i < |more| && 0 <= p < |more[i].lay.ents| ensures !Less(more[i].sep, more[i].lay.ents[p].key) {
      if i < |blks| { assert !Less(blks[i].sep, blks[i].lay.ents[p].key); }
    }
    forall i, j, p | 0 <= i < j < |more| && 0 <= p < |more[j].lay.ents| ensures Less(more[i].sep, more[j].lay.ents[p].key) {
      if j < |blks| { assert Less(blks[i].sep, blks[j].lay.ents[p].key); }
    }
  }

  // ---------- how full the blocks are ----------

  /** With the first of these entries, 15 bytes for its header and a restart slot, the block would reach the block size.
      Its index key is its last key shortened towards that entry's. */
  ghost predicate CutBefore(env: Env, blockSize: nat, b: DataBlock, ents: seq<Entry>) {
    |ents| > 0 ==>
      && |env.decompress(b.raw)| + 15 + |ents[0].key| + |ents[0].val| >= blockSize
      && b.sep == Separator.Shortened(LastKey(b.lay.ents), ents[0].key)
  }

  /** Every block is packed, and none was closed while the next entry had room in it. */
  ghost predicate Filled(env: Env, opt: Options, blks: seq<DataBlock>) {
    && (forall i :: 0 <= i < |blks| ==> Packed(opt.interval, blks[i].lay))
    && (forall i :: 0 <= i < |blks| - 1 ==> CutBefore(env, opt.blockSize, blks[i], blks[i + 1].lay.ents))
  }

  lemma FilledSnoc(env: Env, opt: Options, blks: seq<DataBlock>, b: DataBlock)
    requires Filled(env, opt, blks) && Packed(opt.interval, b.lay)
    requires |blks| > 0 ==> CutBefore(env, opt.blockSize, blks[|blks| - 1], b.lay.ents)
    ensures Filled(env, opt, blks + [b])
  {
    hide Packed, CutBefore;
  }

  lemma NothingOpen(env: Env, reserved: Bytes)
    ensures OpenTable(env, |reserved|, reserved, [], []) && AllEntries([]) == [] && IndexEntries([]) == []
    ensures KeyBytes([]) == 0 && ValueBytes([]) == 0 && LastKey([]) == [] && forall opt :: Filled(env, opt, [])
  {
    assert AllEntries([]) + [] == [];
  }

  lemma NowCut(env: Env, blockSize: nat, b: DataBlock, e: Entry)
    requires |env.decompress(b.raw)| + 15 + |e.key| + |e.val| >= blockSize && b.sep == Separator.Shortened(LastKey(b.lay.ents), e.key)
    ensures CutBefore(env, blockSize, b, [e])
  {
  }

  lemma StillCut(env: Env, blockSize: nat, blks: seq<DataBlock>, ents: seq<Entry>, e: Entry)
    requires |blks| > 0 ==> CutBefore(env, blockSize, blks[|blks| - 1], if ents == [] then [e] else ents)
    ensures |blks| > 0 ==> CutBefore(env, blockSize, blks[|blks| - 1], ents + [e])
  {
    if ents == [] { assert ents + [e] == [e]; }
  }

  // ---------- the writer object ----------

  class Writer {
    const env: Env
    const opt: Options
    ghost const start: nat
    const data: BlockBuilder
    const index: BlockBuilder
    var file: Bytes
    var m: Metadata
    var lastKey: Bytes
    var lastOffset: nat
    var pendingOffset: nat
    var closed: bool
    ghost var blks: seq<DataBlock>

    ghost function Entries(): seq<Entry>
      reads this`blks, data
    {
      AllEntries(blks) + data.Entries()
    }

    ghost function FrontState(): Front
      reads this, data
    {
      Front(data.State(), lastKey, m.countEntries)
    }

    ghost function BackState(): Back
      reads this, index
    {
      Back(file, pendingOffset, lastOffset, m.bytesDataBlocks, m.countDataBlocks, index.State())
    }

    ghost predicate Parts()
      reads this`file, this`pendingOffset, this`closed, this`blks, data, index
    {
      && data != index && env.Ok() && opt.Ok()
      && data.interval == opt.interval && index.interval == opt.interval
      && data.Valid() && index.Valid() && !data.finished && !index.finished && !closed
      && index.Entries() == IndexEntries(blks) && pendingOffset == |file|
      && OpenTable(env, start, file, blks, data.Entries())
    }

    ghost predicate Counts()
      reads this`file, this`m, this`blks, data
    {
      && m.version == V2 && m.dataBlockSize == opt.blockSize && m.compression == opt.compression
      && m.countEntries == |Entries()| && m.bytesKeys == KeyBytes(Entries()) && m.bytesValues == ValueBytes(Entries())
      && m.countDataBlocks == |blks| && start + m.bytesDataBlocks == |file|
    }

    /** A block holds one entry or is smaller than the configured size. */
    ghost predicate BlocksBounded()
      reads this`blks, data
    {
      && (forall i :: 0 <= i < |blks| ==> |blks[i].lay.ents| == 1 || |env.decompress(blks[i].raw)| < opt.blockSize)
      && (|data.Entries()| <= 1 || data.SizeEstimate() < opt.blockSize)
    }

    ghost predicate BlocksFilled()
      reads this`blks, data
    {
      Filled(env, opt, blks) && (|blks| > 0 ==> CutBefore(env, opt.blockSize, blks[|blks| - 1], data.Entries()))
    }

    ghost predicate Core()
      reads this`file, this`m, this`pendingOffset, this`closed, this`blks, data, index
    {
      Parts() && Counts() && BlocksBounded() && BlocksFilled()
    }

    ghost predicate Valid()
      reads this, data, index
    {
      Core() && lastKey == LastKey(Entries()) && (|Entries()| > 0 ==> |data.Entries()| > 0)
    }

    /** An upper bound on every 64-bit quantity the writer keeps. */
    ghost function Weight(): nat
      reads this, data, index
    {
      |file| + 4 * Upper(data) + Upper(index) + 2 * |lastKey| + m.countEntries + m.bytesKeys + m.bytesValues
    }

    ghost predicate Room(extra: nat)
      reads this, data, index
    {
      2 * Weight() + 4096 + 16 * extra < TWO64 && m.countDataBlocks < 0x7FFF_FFFE
    }

    constructor (env: Env, opt: Options, reserved: Bytes)
      requires env.Ok() && opt.Ok()
      ensures Valid() && Entries() == [] && fresh(data) && fresh(index)
      ensures this.env == env && this.opt == opt && start == |reserved| && file == reserved
      ensures FrontState() == Front(EMPTY_BUILDER, [], 0) && Weight() == |reserved| + 60
      ensures BackState() == Back(reserved, |reserved|, |reserved|, 0, 0, EMPTY_BUILDER)
    {
      hide OpenTable, Consistent, Packed, AllEntries, IndexEntries, Filled, CutBefore, KeyBytes, ValueBytes, LastKey, FrameAt, Frame;
      this.env, this.opt, start := env, opt, |reserved|;
      data := new BlockBuilder(opt.interval);
      index := new BlockBuilder(opt.interval);
      file, lastKey, closed := reserved, [], false;
      lastOffset, pendingOffset := |reserved|, |reserved|;
      m := Metadata(V2, 0, opt.blockSize, opt.compression, 0, 0, 0, 0, 0, 0);
      blks := [];
      new;
      NothingOpen(env, reserved);
      assert Entries() == [];
    }

    /** Stores a compressed block and its index entry. */
    method WriteDataBlock(b: Job, ghost lay: Layout)
      requires Parts() && data.Entries() == [] && BlockImage(env.decompress(b.data), lay)
      requires OpenTable(env, start, file, blks, lay.ents) && |lay.ents| > 0
      requires !Less(b.lastKey, lay.ents[|lay.ents| - 1].key) && |b.lastKey| < TWO32
      requires |b.data| < TWO64 && |file| + |b.data| + 14 < TWO64
      modifies this`file, this`m, this`lastOffset, this`pendingOffset, this`blks, index
      ensures Parts() && blks == old(blks) + [DataBlock(lay, b.data, b.lastKey, old(|file|))]
      ensures BackState() == WriteJob(env, opt, old(BackState()), b)
      ensures m == old(m).(bytesDataBlocks := m.bytesDataBlocks, countDataBlocks := m.countDataBlocks)
      ensures m.countDataBlocks == old(m.countDataBlocks) + 1
      ensures m.bytesDataBlocks - old(m.bytesDataBlocks) == |file| - old(|file|)
      ensures Upper(index) <= old(Upper(index)) + 33 + |b.lastKey|
      ensures |file| <= old(|file|) + |b.data| + 14
    {
      hide OpenTable, BlockImage, EntryBytes, Consistent, Added, VarintBytes, Frame, AllEntries, IndexEntries, KeyBytes, ValueBytes, Encoded, Shaped;
      FrameParts(env, b.data);
      VarintLengths(|b.data|);
      VarintLengths(pendingOffset);
      ghost var stored := DataBlock(lay, b.data, b.lastKey, |file|);
      KeepOpenStore(env, start, file, blks, stored);
      IndexEntriesSnoc(blks, stored);
      var header := VarintEncode64(|b.data|);
      var frame := header + Fixed32(env.crc(b.data)) + b.data;
      file := file + frame;
      lastOffset := pendingOffset;
      pendingOffset := pendingOffset + |frame|;
      m := m.(bytesDataBlocks := m.bytesDataBlocks + |frame|, countDataBlocks := m.countDataBlocks + 1);
      var enc := VarintEncode64(lastOffset);
      index.Add(b.lastKey, enc);
      blks := blks + [stored];
    }

    /** Hands over the block being built, if there is one.  `lastKey` is the index
        key: the caller has shortened it, or it is the block's last key. */
    method Flush()
      requires Core() && |lastKey| < TWO32 && Room(0)
      requires data.Entries() != [] ==> !Less(lastKey, LastKey(data.Entries()))
      modifies this`file, this`m, this`lastOffset, this`pendingOffset, this`blks, data, index
      ensures Core() && data.Entries() == [] && Entries() == old(Entries())
      ensures old(data.Entries()) == [] ==> blks == old(blks) && m == old(m)
      ensures old(data.Entries()) != [] ==> |blks| == old(|blks|) + 1 && blks[..|blks| - 1] == old(blks)
                                            && blks[|blks| - 1].sep == lastKey && blks[|blks| - 1].lay.ents == old(data.Entries())
                                            && |env.decompress(blks[|blks| - 1].raw)| == old(data.SizeEstimate())
      ensures m == old(m).(bytesDataBlocks := m.bytesDataBlocks, countDataBlocks := m.countDataBlocks)
      ensures m.countDataBlocks <= old(m.countDataBlocks) + 1
      ensures var (g, jobs) := FlushFront(old(FrontState()));
              FrontState() == g && BackState() == WriteJobs(env, opt, old(BackState()), jobs)
      ensures Weight() <= old(Weight()) + 1200 + |lastKey| && lastKey == old(lastKey)
    {
      hide OpenTable, BlockImage, Consistent, Finished, WriteJob, Frame, AllEntries, KeyBytes, ValueBytes, IndexEntries, WriteJobs;
      NoJobs(env, opt, BackState());
      EmptyMeansNoEntries(data);
      if data.Empty() { return; }
      ghost var before, backBefore := Entries(), BackState();
      ghost var lay := data.lay;
      SizesInRange(this);
      var raw := data.Finish();
      data.Reset();
      DropPending(env, start, file, blks, lay.ents);
      var stored := env.compress(raw);
      AllEntriesSnoc(blks, DataBlock(lay, stored, lastKey, |file|));
      assert env.decompress(stored) == raw;
      ghost var job := Job(raw, lastKey);
      OneJob(env, opt, backBefore, job);
      FilledSnoc(env, opt, blks, DataBlock(lay, stored, lastKey, |file|));
      WriteDataBlock(Job(stored, lastKey), lay);
      assert Entries() == before;
    }

    /** Refuses a key not above the last one; otherwise appends the entry, first
        closing the current block when the entry might not fit. */
    method Add(key: Bytes, val: Bytes) returns (ok: bool)
      requires Valid() && |key| < TWO32 && |val| < TWO32 && Room(|key| + |val|)
      modifies this`file, this`m, this`lastOffset, this`pendingOffset, this`blks, this`lastKey, data, index
      ensures Valid()
      ensures ok <==> old(Entries()) == [] || Less(LastKey(old(Entries())), key)
      ensures Entries() == if ok then old(Entries()) + [Entry(key, val)] else old(Entries())
      ensures var (g, jobs) := AddFront(opt, old(FrontState()), Entry(key, val));
              FrontState() == g && BackState() == WriteJobs(env, opt, old(BackState()), jobs)
      ensures Weight() <= old(Weight()) + 2048 + 8 * (|key| + |val|)
      // a block is stored exactly if there is one and the entry might not fit
      ensures m.countDataBlocks == |blks| == old(|blks|)
                + if ok && old(data.Entries()) != [] && old(data.SizeEstimate()) + 15 + |key| + |val| >= opt.blockSize then 1 else 0
    {
      hide OpenTable, Consistent, Finished, WriteJob, Added, WriteJobs, AllEntries, FlushFront, Parts, Counts, BlocksBounded, Filled,
           CutBefore, Separator.Shortened;
      ghost var e, front := Entry(key, val), FrontState();
      CountIsLength(this);
      NothingWritten(this);
      if m.countEntries > 0 && !(BytesCompare(key, lastKey) > 0) {
        NoJobs(env, opt, BackState());
        return false;
      }
      var estimate := data.SizeEstimate() + 15 + |key| + |val|;
      SeparatorsBelow(this, key);
      if estimate >= opt.blockSize {
        CloseBlock(key);
        if old(data.Entries()) != [] { NowCut(env, opt.blockSize, blks[|blks| - 1], e); }
      } else {
        NoJobs(env, opt, BackState());
      }
      AppendEntry(key, val);
      CountIsLength(this);
      ok := true;
    }

    /** Shortens the last key towards `key` and flushes. */
    method CloseBlock(key: Bytes)
      requires Valid() && Room(0) && |lastKey| < TWO32
      requires |Entries()| > 0 ==> Less(LastKey(Entries()), key)
      requires forall i :: 0 <= i < |blks| ==> Less(blks[i].sep, key)
      modifies this`file, this`m, this`lastOffset, this`pendingOffset, this`blks, this`lastKey, data, index
      ensures Core() && data.Entries() == [] && Entries() == old(Entries())
      ensures forall i :: 0 <= i < |blks| ==> Less(blks[i].sep, key)
      ensures var (g, jobs) := FlushFront(old(FrontState()).(lastKey := Separator.Shortened(old(lastKey), key)));
              FrontState() == g && BackState() == WriteJobs(env, opt, old(BackState()), jobs)
      ensures Weight() <= old(Weight()) + 1200 + |lastKey|
      ensures m == old(m).(bytesDataBlocks := m.bytesDataBlocks, countDataBlocks := m.countDataBlocks)
      ensures m.countDataBlocks <= old(m.countDataBlocks) + 1
      ensures old(data.Entries()) == [] ==> blks == old(blks)
      ensures old(data.Entries()) != [] ==> |blks| == old(|blks|) + 1
                                            && |env.decompress(blks[|blks| - 1].raw)| == old(data.SizeEstimate())
                                            && blks[|blks| - 1].lay.ents == old(data.Entries())
                                            && blks[|blks| - 1].sep == Separator.Shortened(LastKey(old(data.Entries())), key)
    {
      hide OpenTable, Consistent, Finished, WriteJob, Added, WriteJobs, FlushFront, Separator.Shortened, Parts, Counts, BlocksBounded, AllEntries,
           Filled, CutBefore;
      LastOfBlock(blks, data.Entries());
      LessTrichotomy(lastKey, key);
      ghost var pending := data.Entries();
      NothingWritten(this);
      if pending != [] { Separator.ShortenedSeparates(lastKey, key); SeparatorAbove(lastKey, Separator.Shortened(lastKey, key)); }
      else { EmptyShortened(key); LessTrichotomy(key, []); }
      lastKey := Separator.ShortestSeparator(lastKey, key);
      Flush();
      forall i | 0 <= i < |blks| ensures Less(blks[i].sep, key) {
        if pending == [] || i < |blks| - 1 { assert blks[i] == old(blks)[i]; }
      }
    }

    /** The last part of an accepted add. */
    method AppendEntry(key: Bytes, val: Bytes)
      requires Core() && |key| < TWO32 && |val| < TWO32
      requires forall i :: 0 <= i < |blks| ==> Less(blks[i].sep, key)
      requires |Entries()| > 0 ==> Less(LastKey(Entries()), key)
      requires data.Entries() == [] || data.SizeEstimate() + 15 + |key| + |val| < opt.blockSize
      requires data.Entries() == [] && |blks| > 0 ==> CutBefore(env, opt.blockSize, blks[|blks| - 1], [Entry(key, val)])
      modifies this`m, this`lastKey, data
      ensures Valid() && Entries() == old(Entries()) + [Entry(key, val)]
      ensures BackState() == old(BackState())
      ensures FrontState() == Front(Added(old(data.State()), opt.interval, Entry(key, val)), key, old(m.countEntries) + 1)
      ensures m == old(m).(countEntries := m.countEntries, bytesKeys := m.bytesKeys, bytesValues := m.bytesValues)
      ensures Weight() + 2 * old(|lastKey|) <= old(Weight()) + 93 + 7 * |key| + 5 * |val|
    {
      hide OpenTable, Consistent, Added, AllEntries, IndexEntries, KeyBytes, ValueBytes, Shaped, Encoded, Filled, CutBefore, Less,
           BlockBuilder.Valid, BlockBuilder.SizeEstimate;
      ghost var e := Entry(key, val);
      StillCut(env, opt.blockSize, blks, data.Entries(), e);
      KeepOpenAdd(env, start, file, blks, data.Entries(), e);
      CountsSnoc(Entries(), e);
      assert AllEntries(blks) + (data.Entries() + [e]) == Entries() + [e];
      lastKey := key;
      m := m.(countEntries := m.countEntries + 1, bytesKeys := m.bytesKeys + |key|, bytesValues := m.bytesValues + |val|);
      data.Add(key, val);
    }

    /** Flushes, then writes the index block and the trailer. */
    method Finish() returns (ghost indexRaw: Bytes, ghost indexLay: Layout)
      requires Valid() && Room(0)
      modifies this`file, this`m, this`lastOffset, this`pendingOffset, this`blks, this`closed, data, index
      ensures closed && AllEntries(blks) == old(Entries()) && |file| < TWO64
      ensures TableImage(env, file, start, m, blks, indexRaw, indexLay)
      ensures m.dataBlockSize == opt.blockSize && m.compression == opt.compression
      ensures BlocksBounded() && Filled(env, opt, blks) && Packed(opt.interval, indexLay)
      ensures |blks| > 0 ==> blks[|blks| - 1].sep == LastKey(blks[|blks| - 1].lay.ents)
      ensures file == ClosedFile(env, opt, WriteJobs(env, opt, old(BackState()), FlushFront(old(FrontState())).1),
                                 old(m.countEntries), old(m.bytesKeys), old(m.bytesValues))
    {
      hide OpenTable, Consistent, Finished, WriteJob, Added, WriteJobs, FlushFront, Frame, Parts, Counts, BlocksBounded,
           TableImage, ClosedFile, AllEntries;
      CountIsLength(this);
      LastOfBlock(blks, data.Entries());
      LessTrichotomy(lastKey, lastKey);
      NothingWritten(this);
      Flush();
      indexRaw, indexLay := StoreIndex();
    }

    method StoreIndex() returns (ghost indexRaw: Bytes, ghost indexLay: Layout)
      requires Core() && data.Entries() == [] && m.countDataBlocks <= 0x7FFF_FFFE && Weight() + 600 < TWO64
      modifies this`file, this`m, this`lastOffset, this`pendingOffset, this`closed, index
      ensures closed && blks == old(blks) && AllEntries(blks) == old(Entries()) && BlocksBounded() && |file| < TWO64
      ensures BlocksFilled() && Packed(opt.interval, indexLay)
      ensures TableImage(env, file, start, m, blks, indexRaw, indexLay)
      ensures m.dataBlockSize == opt.blockSize && m.compression == opt.compression
      ensures file == ClosedFile(env, opt, old(BackState()), old(m.countEntries), old(m.bytesKeys), old(m.bytesValues))
    {
      hide OpenTable, Consistent, Finished, Added, Frame, BlockImage, DataPart, TrailerBytes, TableImage, ReadMetadata, AllEntries,
           IndexEntries, KeyBytes, ValueBytes;
      SizesInRange(this);
      OpenIsData(env, start, file, blks);
      ghost var dataEnd := file;
      assert AllEntries(blks) == Entries();
      closed := true;
      indexLay := index.lay;
      var raw := index.Finish();
      indexRaw := raw;
      FrameParts(env, raw);
      var header := VarintEncode64(|raw|);
      var frame := header + Fixed32(env.crc(raw)) + raw;
      file := file + frame;
      m := m.(indexBlockOffset := pendingOffset, bytesIndexBlock := |frame|);
      lastOffset := pendingOffset;
      pendingOffset := pendingOffset + |frame|;
      FieldsFit(m);
      var tbuf := WriteMetadata(m);
      file := file + tbuf;
      FinishedTable(env, start, dataEnd, blks, indexRaw, indexLay, m, tbuf);
      assert file == dataEnd + Frame(env, raw) + tbuf;
      index.Reset();
    }
  }

  lemma FieldsFit(m: Metadata)
    requires m.indexBlockOffset < TWO64 && m.dataBlockSize < TWO64 && m.compression < TWO64 && m.countEntries < TWO64
    requires m.countDataBlocks < TWO64 && m.bytesDataBlocks < TWO64 && m.bytesIndexBlock < TWO64
    requires m.bytesKeys < TWO64 && m.bytesValues < TWO64
    ensures m.Fits()
  {
  }

  function ClosedFile(env: Env, opt: Options, b: Back, countEntries: nat, bytesKeys: nat, bytesValues: nat): Bytes {
    var raw := Finished(b.index);
    var m := Metadata(V2, b.pending, opt.blockSize, opt.compression, countEntries, b.countBlocks, b.bytesData,
                      |Frame(env, raw)|, bytesKeys, bytesValues);
    b.file + Frame(env, raw) + TrailerBytes(m)
  }

  function CloseWith(env: Env, opt: Options, b: Back, kept: seq<Entry>): Bytes {
    ClosedFile(env, opt, b, |kept|, KeyBytes(kept), ValueBytes(kept))
  }

  /** The file of the entries, as the writer makes it without a pool. */
  function TableFile(env: Env, opt: Options, reserved: Bytes, es: seq<Entry>): Bytes {
    CloseWith(env, opt, WriteJobs(env, opt, StartBack(reserved), AllJobs(opt, es)), MainRun(opt, es).kept)
  }

  lemma OpenIsData(env: Env, start: nat, file: Bytes, blks: seq<DataBlock>)
    requires OpenTable(env, start, file, blks, [])
    ensures DataPart(env, file, start, |file|, blks)
  {
  }

  lemma FinishedTable(env: Env, start: nat, file: Bytes, blks: seq<DataBlock>, raw: Bytes, index: Layout, m: Metadata, tbuf: Bytes)
    requires DataPart(env, file, start, |file|, blks) && m.indexBlockOffset == |file|
    requires BlockImage(raw, index) && index.ents == IndexEntries(blks)
    requires m.Fits() && m.version == V2 && |tbuf| == METADATA_SIZE && ReadMetadata(tbuf) == Accepted(m)
    requires ExactCounts(env, start, m, blks, raw)
    ensures TableImage(env, file + Frame(env, raw) + tbuf, start, m, blks, raw, index)
  {
    hide BlockImage, Frame, ExactCounts, ReadMetadata, DataPart;
    var frame := Frame(env, raw);
    var whole := file + frame + tbuf;
    assert whole == file + (frame + tbuf);
    BlocksStay(env, file, frame + tbuf, start, |file|, blks);
    assert whole[|file|..|file| + |frame|] == frame;
    assert whole[|whole| - METADATA_SIZE..] == tbuf;
  }

  lemma CountsSnoc(es: seq<Entry>, e: Entry)
    ensures KeyBytes(es + [e]) == KeyBytes(es) + |e.key| && ValueBytes(es + [e]) == ValueBytes(es) + |e.val|
  {
    assert (es + [e])[..|es|] == es;
  }

  lemma LastOfBlock(blks: seq<DataBlock>, pending: seq<Entry>)
    ensures pending != [] ==> LastKey(AllEntries(blks) + pending) == LastKey(pending)
  {
  }

  lemma NothingWritten(w: Writer)
    requires w.Valid()
    ensures w.data.Entries() == [] ==> w.Entries() == [] && w.blks == [] && w.lastKey == []
  {
    if |w.blks| > 0 { assert BlockStored(w.env, w.file, w.blks[|w.blks| - 1]); }
  }

  lemma EmptyShortened(limit: Bytes)
    ensures Separator.Shortened([], limit) == []
  {
  }

  lemma SeparatorAbove(start: Bytes, sep: Bytes)
    requires start == sep || Less(start, sep)
    ensures !Less(sep, start)
  {
    LessTrichotomy(start, sep);
  }

  lemma CountIsLength(w: Writer)
    requires w.Valid()
    ensures w.m.countEntries == |w.Entries()| && w.m.countDataBlocks == |w.blks| && w.lastKey == LastKey(w.Entries())
    ensures |w.lastKey| < TWO32
  {
    hide EntryBytes;
    LastOfBlock(w.blks, w.data.Entries());
    NothingWritten(w);
    var n := |w.data.Entries()|;
    if n > 0 { assert EntryAt(w.data.buf, w.data.lay, n - 1); }
  }

  /** A key above the last one is above every stored separator. */
  lemma SeparatorsBelow(w: Writer, key: Bytes)
    requires w.Valid() && (w.Entries() == [] || Less(LastKey(w.Entries()), key))
    ensures forall i :: 0 <= i < |w.blks| ==> Less(w.blks[i].sep, key)
  {
    var pending := w.data.Entries();
    NothingWritten(w);
    LastOfBlock(w.blks, pending);
    forall i | 0 <= i < |w.blks| ensures Less(w.blks[i].sep, key) {
      LessTransitive(w.blks[i].sep, pending[|pending| - 1].key, key);
    }
  }

  lemma NoJobs(env: Env, opt: Options, b: Back)
    ensures WriteJobs(env, opt, b, []) == b
  {
  }

  lemma OneJob(env: Env, opt: Options, b: Back, j: Job)
    ensures WriteJobs(env, opt, b, [j]) == WriteJob(env, opt, b, Compressed(env, j))
  {
    assert [j][..0] == [];
  }

  lemma DropPending(env: Env, start: nat, file: Bytes, blks: seq<DataBlock>, pending: seq<Entry>)
    requires OpenTable(env, start, file, blks, pending)
    ensures OpenTable(env, start, file, blks, [])
  {
    assert AllEntries(blks) + [] == AllEntries(blks);
  }

  lemma EmptyMeansNoEntries(b: BlockBuilder)
    requires b.Valid()
    ensures b.Empty() <==> b.Entries() == []
  {
    hide EntryBytes;
    if |b.lay.ents| > 0 { assert b.lay.offs[0] < b.lay.offs[|b.lay.ents|]; }
  }

  lemma SizesInRange(w: Writer)
    requires w.Core() && w.m.countDataBlocks <= 0x7FFF_FFFE
    ensures |w.data.restarts| < 0x8000_0000 && |w.index.restarts| < 0x8000_0000
    ensures w.data.SizeEstimate() <= Upper(w.data) && w.index.SizeEstimate() <= Upper(w.index)
  {
    hide EntryBytes, OpenTable;
    RestartsWithinEntries(w.data.lay, |w.data.lay.rix| - 1);
    RestartsWithinEntries(w.index.lay, |w.index.lay.rix| - 1);
  }

  lemma FrameParts(env: Env, raw: Bytes)
    ensures Frame(env, raw) == VarintBytes(|raw|) + Fixed32(env.crc(raw)) + raw
    ensures |raw| < TWO64 ==> |Frame(env, raw)| <= |raw| + 14
  {
    VarintLengths(|raw|);
  }

  ghost function Upper(b: BlockBuilder): nat
    reads b
  {
    |b.buf| + 8 * |b.restarts| + 4
  }

  lemma IndexEntriesSnoc(blks: seq<DataBlock>, b: DataBlock)
    ensures IndexEntries(blks + [b]) == IndexEntries(blks) + [IndexEntry(b)]
  {
    assert (blks + [b])[..|blks|] == blks;
  }
}
