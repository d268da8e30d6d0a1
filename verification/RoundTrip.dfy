/** Writing and reading back: blocks, whole files, and the verifier's walk
    (t/test-block_builder.c, src/mtbl_verify.c). */
module RoundTrip {
  import opened ByteOrder
  import opened Maybe
  import opened Codec
  import opened Block
  import opened BlockIter
  import opened Metadata
  import opened Table
  import opened Writer
  import opened ReaderModel
  import opened Reader

  function Cost(es: seq<Entry>): (c: nat)
    ensures c >= 2048 * |es|
  {
    if |es| == 0 then 0 else Cost(es[..|es| - 1]) + 2048 + 16 * (|es[|es| - 1].key| + |es[|es| - 1].val|)
  }

  lemma {:induction false} CostSplit(es: seq<Entry>, i: nat)
    requires i < |es|
    ensures Cost(es[..i]) + 2048 + 16 * (|es[i].key| + |es[i].val|) == Cost(es[..i + 1]) <= Cost(es)
    decreases |es| - i
  {
    assert es[..i + 1][..i] == es[..i];
    if i + 1 < |es| { CostSplit(es, i + 1); } else { assert es[..i + 1] == es; }
  }

  method BuildBlock(interval: nat, es: seq<Entry>) returns (data: Bytes, ghost lay: Layout)
    requires interval >= 1 && |es| < 0x7FFF_FFFF && Cost(es) + 4096 < TWO64
    requires forall e <- es :: SmallEntry(e)
    ensures BlockImage(data, lay) && lay.ents == es
  {
    hide Consistent, BlockImage, Added, Finished, Cost, CommonPrefix, Less, Encoded, RestartsIn, Extended;
    var b := new BlockBuilder(interval);
    var i := 0;
    while i < |es|
      invariant i <= |es| && fresh(b) && b.Valid() && !b.finished && b.Entries() == es[..i]
      invariant |b.restarts| <= i + 1 && |b.buf| + 8 * |b.restarts| + 4 <= Cost(es[..i]) + 12
    {
      CostSplit(es, i);
      assert es[i] in es;
      b.Add(es[i].key, es[i].val);
      assert es[..i + 1] == es[..i] + [es[i]];
      i := i + 1;
    }
    assert es[..i] == es;
    lay := b.lay;
    data := b.Finish();
  }

  /** Any entries, in any order, come back from a finished block in the order they were added. */
  method BlockRoundTrip(interval: nat, es: seq<Entry>) returns (out: seq<Entry>)
    requires interval >= 1 && |es| < 0x7FFF_FFFF && Cost(es) + 4096 < TWO64
    requires forall e <- es :: SmallEntry(e)
    ensures out == es
  {
    hide BlockImage, BlockIter.Valid;
    ghost var lay;
    var data;
    data, lay := BuildBlock(interval, es);
    var it := new BlockIter(data, lay);
    it.SeekToFirst();
    out := [];
    var ok, k, v := it.Get();
    while ok
      invariant it.Valid() && it.lay == lay && fresh(it) && it.pos <= |es| && out == es[..it.pos]
      invariant ok <==> it.pos < |es|
      invariant ok ==> Entry(k, v) == es[it.pos]
      decreases |es| - it.pos
    {
      out := out + [Entry(k, v)];
      ok := it.Next();
      ok, k, v := it.Get();
    }
  }

  // ---------- the verifier's walk over the data blocks ----------

  lemma {:induction false} ChainedNext(env: Env, blks: seq<DataBlock>, start: nat, end: nat, i: nat)
    requires Chained(env, blks, start, end) && i < |blks|
    ensures blks[i].off + |Frame(env, blks[i].raw)| == (if i + 1 < |blks| then blks[i + 1].off else end) <= end
    ensures blks[0].off == start
  {
    hide Frame;
    var n := |blks| - 1;
    if i < n {
      ChainedNext(env, blks[..n], start, blks[n].off, i);
    } else if n > 0 {
      ChainedNext(env, blks[..n], start, blks[n].off, n - 1);
    }
  }

  lemma ChainStart(env: Env, blks: seq<DataBlock>, start: nat, end: nat)
    requires Chained(env, blks, start, end)
    ensures |blks| > 0 ==> blks[0].off == start
  {
    if |blks| > 0 { ChainedNext(env, blks, start, end, 0); }
  }

  /** A frame as it lies in a file, with whatever checksum. */
  datatype StoredFrame = StoredFrame(raw: Bytes, crc: nat)

  function LengthOf(frames: seq<StoredFrame>): nat {
    if |frames| == 0 then 0 else LengthOf(frames[..|frames| - 1]) + |FrameOf(frames[|frames| - 1].raw, frames[|frames| - 1].crc)|
  }

  /** Frames stand one behind the other. */
  ghost predicate FramesStand(file: Bytes, start: nat, frames: seq<StoredFrame>) {
    forall i :: 0 <= i < |frames| ==>
      |frames[i].raw| < TWO64 && frames[i].crc < TWO32 && StoredAt(file, start + LengthOf(frames[..i]), frames[i].raw, frames[i].crc)
  }

  /** The walk accepts exactly the data sections in which every checksum stored is that of its contents and
      whose frames do not exceed the length given; it stops at the first frame that fails. */
  method VerifyDataBlocks(env: Env, file: Bytes, fileOffset: nat, bytesDataBlocks: nat, count: nat, ghost frames: seq<StoredFrame>)
    returns (ok: bool, walk: seq<nat>)
    requires FramesStand(file, fileOffset, frames) && count == |frames|
    ensures ok <==> (forall i :: 0 <= i < |frames| ==> frames[i].crc == env.crc(frames[i].raw)) && LengthOf(frames) <= bytesDataBlocks
    ensures |walk| <= |frames| && (ok ==> |walk| == |frames|)
    ensures forall i :: 0 <= i < |walk| ==> walk[i] == LengthOf(frames[..i]) && frames[i].crc == env.crc(frames[i].raw)
  {
    hide FrameOf, StoredAt, VarintBytes, VarintSpan, VarintValue, LengthOf;
    walk := [];
    LengthZero(frames);
    if bytesDataBlocks == 0 && count == 0 { return true, walk; }
    var offset: nat, bytesConsumed: nat := 0, 0;
    var block := 1;
    while block <= count
      invariant 1 <= block <= count + 1 && bytesConsumed == offset == LengthOf(frames[..block - 1]) && |walk| == block - 1
      invariant offset <= bytesDataBlocks
      invariant forall i :: 0 <= i < block - 1 ==> walk[i] == LengthOf(frames[..i]) && frames[i].crc == env.crc(frames[i].raw)
    {
      ghost var f := frames[block - 1];
      LengthSnoc(frames, block - 1);
      var at := fileOffset + offset;
      FrameFields(file, at, f.raw, f.crc);
      FrameOfLength(f.raw, f.crc);
      VarintRoundTrip(|f.raw|, file[at..]);
      VarintLengths(|f.raw|);
      var size, sizeLen := VarintDecode64(file[at..]);
      bytesConsumed := bytesConsumed + sizeLen + 4 + size;
      if bytesConsumed > bytesDataBlocks { return false, walk; }
      var raw := file[at + sizeLen + 4..at + sizeLen + 4 + size];
      Fixed32RoundTrip(f.crc, file[at + sizeLen..]);
      if Decode32(file[at + sizeLen..]) != env.crc(raw) { return false, walk; }
      walk := walk + [offset];
      offset := offset + sizeLen + 4 + size;
      block := block + 1;
    }
    assert frames[..|frames|] == frames;
    ok := true;
  }

  lemma LengthZero(frames: seq<StoredFrame>)
    ensures LengthOf(frames[..0]) == 0 && (|frames| == 0 ==> LengthOf(frames) == 0)
  {
  }

  lemma {:induction false} LengthSnoc(frames: seq<StoredFrame>, i: nat)
    requires i < |frames|
    ensures LengthOf(frames[..i + 1]) == LengthOf(frames[..i]) + |FrameOf(frames[i].raw, frames[i].crc)| <= LengthOf(frames)
    decreases |frames| - i
  {
    assert frames[..i + 1][..i] == frames[..i];
    if i + 1 < |frames| { LengthSnoc(frames, i + 1); } else { assert frames[..i + 1] == frames; }
  }

  lemma FrameOfLength(raw: Bytes, crc: nat)
    ensures |FrameOf(raw, crc)| == |VarintBytes(|raw|)| + 4 + |raw|
  {
  }

  function FramesOf(env: Env, blks: seq<DataBlock>): (fs: seq<StoredFrame>)
    ensures |fs| == |blks| && forall i :: 0 <= i < |fs| ==> fs[i] == StoredFrame(blks[i].raw, env.crc(blks[i].raw))
  {
    seq(|blks|, i requires 0 <= i < |blks| => StoredFrame(blks[i].raw, env.crc(blks[i].raw)))
  }

  lemma {:induction false} ChainLength(env: Env, blks: seq<DataBlock>, start: nat, end: nat, i: nat)
    requires Chained(env, blks, start, end) && i <= |blks|
    ensures start + LengthOf(FramesOf(env, blks)[..i]) == if i < |blks| then blks[i].off else end
  {
    hide FrameOf;
    var fs := FramesOf(env, blks);
    if i > 0 {
      ChainLength(env, blks, start, end, i - 1);
      ChainedNext(env, blks, start, end, i - 1);
      LengthSnoc(fs, i - 1);
    } else {
      LengthZero(fs);
      ChainStart(env, blks, start, end);
    }
  }

  lemma {:induction false} WrittenStands(env: Env, file: Bytes, start: nat, end: nat, blks: seq<DataBlock>)
    requires env.Ok() && DataPart(env, file, start, end, blks)
    ensures FramesStand(file, start, FramesOf(env, blks)) && LengthOf(FramesOf(env, blks)) == end - start
  {
    hide BlockImage, Separated, Sorted, AllEntries, Chained, LengthOf, FrameOf, StoredAt, FrameAt;
    var fs := FramesOf(env, blks);
    forall i | 0 <= i < |fs|
      ensures |fs[i].raw| < TWO64 && fs[i].crc < TWO32 && StoredAt(file, start + LengthOf(fs[..i]), fs[i].raw, fs[i].crc)
    {
      assert BlockStored(env, file, blks[i]);
      ChainLength(env, blks, start, end, i);
      FrameIsStored(env, file, blks[i].off, blks[i].raw);
    }
    ChainLength(env, blks, start, end, |blks|);
    assert fs[..|blks|] == fs;
  }

  /** Accepts every file the writer finished, visiting exactly the offsets the index holds. */
  method VerifyWritten(env: Env, file: Bytes, fileOffset: nat, bytesDataBlocks: nat, count: nat, ghost blks: seq<DataBlock>)
    returns (ok: bool, walk: seq<nat>)
    requires env.Ok() && DataPart(env, file, fileOffset, fileOffset + bytesDataBlocks, blks) && count == |blks|
    ensures ok && |walk| == |blks|
    ensures forall i :: 0 <= i < |blks| ==> fileOffset + walk[i] == blks[i].off
  {
    hide BlockStored, Separated, Sorted, AllEntries, Chained, LengthOf, FramesStand;
    WrittenStands(env, file, fileOffset, fileOffset + bytesDataBlocks, blks);
    ok, walk := VerifyDataBlocks(env, file, fileOffset, bytesDataBlocks, count, FramesOf(env, blks));
    forall i | 0 <= i < |blks| ensures fileOffset + walk[i] == blks[i].off {
      ChainLength(env, blks, fileOffset, fileOffset + bytesDataBlocks, i);
    }
  }

  // ---------- a whole table ----------

  lemma {:induction false} JobsExtendFile(env: Env, opt: Options, b: Back, jobs: seq<Job>)
    ensures b.file <= WriteJobs(env, opt, b, jobs).file
  {
    hide Added, Frame;
    if |jobs| > 0 { JobsExtendFile(env, opt, b, jobs[..|jobs| - 1]); }
  }

  /** The blocks of these entries can be counted as the format does, and all sizes fit 64 bits. */
  predicate Fits(opt: Options, reserved: Bytes, es: seq<Entry>) {
    |AllJobs(opt, es)| < 0x7FFF_FFFE && 2 * (|reserved| + Cost(es)) + 65536 < TWO64
  }

  lemma BlocksFit(env: Env, opt: Options, reserved: Bytes, es: seq<Entry>, i: nat)
    requires Fits(opt, reserved, es) && i <= |es|
    ensures WriteJobs(env, opt, StartBack(reserved), MainRun(opt, es[..i]).jobs).countBlocks < 0x7FFF_FFFE
  {
    hide Cost, WriteJobs, MainRun, AllJobs;
    JobsGrow(opt, es, i);
    JobsCount(env, opt, StartBack(reserved), MainRun(opt, es[..i]).jobs);
  }

  lemma NothingRun(env: Env, opt: Options, b: Back)
    ensures MainRun(opt, []) == FRESH_MAIN && WriteJobs(env, opt, b, []) == b && Cost([]) == 0
  {
  }

  lemma LastKeyBelow(es: seq<Entry>, i: nat)
    requires Sorted(es) && i < |es|
    ensures i > 0 ==> Less(LastKey(es[..i]), es[i].key)
  {
  }

  method WriteAll(env: Env, opt: Options, reserved: Bytes, es: seq<Entry>) returns (w: Writer)
    requires env.Ok() && opt.Ok() && Sorted(es) && (forall e <- es :: SmallEntry(e))
    requires Fits(opt, reserved, es)
    ensures fresh(w) && fresh(w.data) && fresh(w.index) && w.env == env && w.opt == opt
    ensures w.Valid() && w.Entries() == es && w.Room(0) && reserved <= w.file && w.start == |reserved|
    ensures w.Weight() <= |reserved| + 60 + Cost(es)
  {
    hide Sorted, Added, WriteJobs, AddFront, FlushFront, Writer.Core, Writer.Valid, LastKey, AllEntries, Cost, Writer.Entries, MainRun, AllJobs;
    w := new Writer(env, opt, reserved);
    ghost var b0 := StartBack(reserved);
    NothingRun(env, opt, b0);
    var i := 0;
    while i < |es|
      invariant i <= |es| && fresh(w) && fresh(w.data) && fresh(w.index) && w.start == |reserved|
      invariant w.Valid() && w.Entries() == es[..i] && w.env == env && w.opt == opt && reserved <= w.file
      invariant w.Weight() <= |reserved| + 60 + Cost(es[..i])
      invariant w.FrontState() == MainRun(opt, es[..i]).front && w.BackState() == WriteJobs(env, opt, b0, MainRun(opt, es[..i]).jobs)
    {
      CostSplit(es, i);
      BlocksFit(env, opt, reserved, es, i);
      MainSnoc(opt, es, i);
      WriteJobsConcat(env, opt, b0, MainRun(opt, es[..i]).jobs, AddFront(opt, w.FrontState(), es[i]).1);
      assert es[i] in es;
      LastKeyBelow(es, i);
      JobsExtendFile(env, opt, w.BackState(), AddFront(opt, w.FrontState(), es[i]).1);
      var added := w.Add(es[i].key, es[i].val);
      assert es[..i + 1] == es[..i] + [es[i]];
      i := i + 1;
    }
    assert es[..i] == es;
    BlocksFit(env, opt, reserved, es, i);
  }

  /** Calls `next` until it fails. */
  method DrainIter(it: ReaderIter) returns (out: seq<Entry>)
    requires it.Valid() && WellTyped(it.r.blks, it.State()) && InStep(it.r.blks, it.State())
    modifies it, it.indexIter, it.bi
    ensures out == TakePassing(it.kind, old(Remaining(it.r.blks, it.State())))
  {
    hide TableImage, NextStep, BlockImage, AllEntries, TableOrder, Remaining, InStep, WellTyped, ReaderIter.Valid,
         Reader.Valid, Passes, TakePassing, Less;
    ItsReader(it);
    TableIsOrdered(it.r);
    ghost var blks, kind, all := it.r.blks, it.kind, Remaining(it.r.blks, it.State());
    ghost var rest := all;
    out := [];
    NextTakesHead(blks, kind, false, it.State());
    var o := it.Next();
    while o.Some?
      invariant it.Valid() && it.r.blks == blks && it.kind == kind && (it.bi == old(it.bi) || it.bi == null || fresh(it.bi))
      invariant WellTyped(blks, it.State()) && InStep(blks, it.State())
      invariant out + TakePassing(kind, rest) == TakePassing(kind, all)
      invariant o == if rest != [] && Passes(kind, rest[0].key) then Some(rest[0]) else None
      invariant o.Some? ==> Remaining(blks, it.State()) == rest[1..]
      decreases |rest|
    {
      TakeOne(kind, rest);
      out := out + [o.value];
      rest := rest[1..];
      NextTakesHead(blks, kind, false, it.State());
      o := it.Next();
    }
    TakeOne(kind, rest);
  }

  lemma TakeOne(t: Kind, es: seq<Entry>)
    ensures es != [] && Passes(t, es[0].key) ==> TakePassing(t, es) == [es[0]] + TakePassing(t, es[1..])
    ensures es == [] || !Passes(t, es[0].key) ==> TakePassing(t, es) == []
  {
  }

  lemma ItsReader(it: ReaderIter)
    requires it.Valid()
    ensures it.r.Valid() && WellTyped(it.r.blks, it.State())
  {
    hide Reader.Valid;
    WellTypedState(it);
  }

  /** A full iteration hands out every entry. */
  method ReadAll(r: Reader) returns (out: seq<Entry>)
    requires r.Valid()
    ensures out == AllEntries(r.blks)
  {
    hide TableImage, BlockImage, AllEntries, TableOrder, Remaining, InStep, WellTyped, ReaderIter.Valid, Reader.Valid;
    TableIsOrdered(r);
    var it := IterAll(r);
    if it == null {
      NoBlocksNoEntries(r.blks);
      return [];
    }
    StartRemaining(r.blks);
    ItsReader(it);
    out := DrainIter(it);
    AllPass(AllEntries(r.blks));
  }

  lemma {:induction false} AllPass(es: seq<Entry>)
    ensures TakePassing(All, es) == es
  {
    if es != [] { AllPass(es[1..]); }
  }

  /** get, get_prefix and get_range: everything the lookup yields from its start key. */
  method ReadFrom(r: Reader, kind: Kind, key: Bytes) returns (out: seq<Entry>)
    requires r.Valid()
    ensures out == TakePassing(kind, AllEntries(r.blks)[LowerBound(AllEntries(r.blks), key)..])
  {
    hide TableImage, BlockImage, AllEntries, TableOrder, Remaining, InStep, WellTyped, ReaderIter.Valid, Reader.Valid, LowerBound, Passes;
    TableIsOrdered(r);
    TailFromKey(r.blks, key);
    var it := Lookup(r, kind, key);
    if it == null { return []; }
    ItsReader(it);
    StartsAtKey(r.blks, key);
    out := DrainIter(it);
  }

  lemma {:induction false} StartsAtKey(blks: seq<DataBlock>, key: Bytes)
    requires TableOrder(blks) && IndexBound(blks, key) < |blks|
    ensures var all := AllEntries(blks);
            var j := IndexBound(blks, key);
            var s := Start(blks, j, LowerBound(blks[j].lay.ents, key), false);
            && WellTyped(blks, s) && InStep(blks, s) && Remaining(blks, s) == all[LowerBound(all, key)..]
  {
    hide Separated, Sorted, Less, IndexBound, LowerBound, AllEntries;
    TailFromKey(blks, key);
    var j := IndexBound(blks, key);
    forall i | j < i < |blks| ensures blks[i].off != 0 { assert blks[j].off < blks[i].off; }
  }

  lemma NoBlocksNoEntries(blks: seq<DataBlock>)
    requires |blks| == 0
    ensures AllEntries(blks) == []
  {
  }

  lemma {:induction false} StartInStep(blks: seq<DataBlock>)
    requires TableOrder(blks) && |blks| > 0
    ensures InStep(blks, Start(blks, 0, 0, false))
  {
    hide Separated, Sorted, AllEntries;
    forall j | 0 < j < |blks| ensures blks[j].off != 0 { assert blks[0].off < blks[j].off; }
  }

  lemma {:induction false} StartRemaining(blks: seq<DataBlock>)
    requires TableOrder(blks) && |blks| > 0
    ensures InStep(blks, Start(blks, 0, 0, false))
    ensures Remaining(blks, Start(blks, 0, 0, false)) == AllEntries(blks)
  {
    StartInStep(blks);
    hide Separated, Sorted, TableOrder, InStep;
    SplitEntries(blks, 0);
    NothingBefore(blks);
  }

  lemma NothingBefore(blks: seq<DataBlock>)
    ensures AllEntries(blks[..0]) == []
  {
  }

  /** Writes the entries after any reserved prefix and opens the file. */
  method WriteAndOpen(env: Env, opt: Options, reserved: Bytes, es: seq<Entry>) returns (r: Reader)
    requires env.Ok() && opt.Ok() && Sorted(es) && (forall e <- es :: SmallEntry(e))
    requires Fits(opt, reserved, es)
    ensures fresh(r) && r.Valid() && r.env == env && AllEntries(r.blks) == es && reserved <= r.file && |r.file| < TWO64
    ensures r.m.countEntries == |es| && r.m.bytesKeys == KeyBytes(es) && r.m.bytesValues == ValueBytes(es)
    ensures r.m.countDataBlocks == |r.blks| && r.m.indexBlockOffset == |reserved| + r.m.bytesDataBlocks
    ensures DataPart(env, r.file, |reserved|, r.m.indexBlockOffset, r.blks)
    ensures forall i :: 0 <= i < |r.blks| ==> |r.blks[i].lay.ents| == 1 || |env.decompress(r.blks[i].raw)| < opt.blockSize
    ensures Filled(env, opt, r.blks)
    ensures |r.blks| > 0 ==> r.blks[|r.blks| - 1].sep == LastKey(r.blks[|r.blks| - 1].lay.ents)
  {
    hide Sorted, TableImage, WriteJobs, FlushFront, ClosedFile, DataPart, RejectedEarly, Writer.Valid, Filled;
    var w := WriteAll(env, opt, reserved, es);
    JobsExtendFile(env, opt, w.BackState(), FlushFront(w.FrontState()).1);
    ghost var b := WriteJobs(env, opt, w.BackState(), FlushFront(w.FrontState()).1);
    ghost var n, kb, vb := w.m.countEntries, w.m.bytesKeys, w.m.bytesValues;
    ClosedExtends(env, opt, b, n, kb, vb);
    ghost var raw, lay;
    raw, lay := w.Finish();
    var rd := OpenReader(env, w.file, true, w.start, w.m, w.blks, raw, lay);
    ImageFacets(env, w.file, w.start, w.m, w.blks, raw, lay);
    r := rd;
  }

  /** For every strictly increasing input and any reserved prefix: write, reopen,
      verify and iterate; the same pairs come back and the counts are exact. */
  method TableRoundTrip(env: Env, opt: Options, reserved: Bytes, es: seq<Entry>)
    returns (file: Bytes, m: Metadata, verified: bool, out: seq<Entry>)
    requires env.Ok() && opt.Ok() && Sorted(es) && (forall e <- es :: SmallEntry(e))
    requires Fits(opt, reserved, es)
    ensures out == es && verified && reserved <= file
    ensures m.countEntries == |es| && m.bytesKeys == KeyBytes(es) && m.bytesValues == ValueBytes(es)
  {
    hide Sorted, DataPart, Reader.Valid, Filled;
    var r := WriteAndOpen(env, opt, reserved, es);
    file, m := r.file, r.m;
    var walk;
    verified, walk := VerifyWritten(env, file, m.indexBlockOffset - m.bytesDataBlocks, m.bytesDataBlocks, m.countDataBlocks, r.blks);
    out := ReadAll(r);
  }

  /** get, get_prefix and get_range on a written file return exactly the pairs asked for, in order. */
  method TableLookup(env: Env, opt: Options, reserved: Bytes, es: seq<Entry>, kind: Kind, key: Bytes) returns (out: seq<Entry>)
    requires env.Ok() && opt.Ok() && Sorted(es) && (forall e <- es :: SmallEntry(e)) && StartsAt(kind, key)
    requires Fits(opt, reserved, es)
    ensures Sorted(out)
    ensures forall e :: e in out <==>
              e in es && !Less(e.key, key)
              && match kind
                 case All => true
                 case Exact(k) => e.key == k
                 case Prefix(k) => |k| <= |e.key| && e.key[..|k|] == k
                 case UpTo(k) => !Less(k, e.key)
  {
    hide DataPart, Reader.Valid, Passes, Less, LowerBound, Filled;
    var r := WriteAndOpen(env, opt, reserved, es);
    out := ReadFrom(r, kind, key);
    LookupIsExact(es, kind, key);
    TakenSorted(es, kind, key);
  }

  lemma TakenSorted(es: seq<Entry>, kind: Kind, key: Bytes)
    requires Sorted(es)
    ensures Sorted(TakePassing(kind, es[LowerBound(es, key)..]))
  {
    hide Less, Passes, LowerBound, TakePassing;
  }

  /** The pairs of an opened table under one key. */
  method Get(r: Reader, key: Bytes) returns (out: seq<Entry>)
    requires r.Valid()
    ensures Sorted(out) && forall e :: e in out <==> e in AllEntries(r.blks) && e.key == key
  {
    hide Reader.Valid, AllEntries, TableOrder, Less, LowerBound, Passes;
    out := ReadFrom(r, Exact(key), key);
    SortedTable(r);
    LookupIsExact(AllEntries(r.blks), Exact(key), key);
    TakenSorted(AllEntries(r.blks), Exact(key), key);
    LessTrichotomy(key, key);
  }

  /** Those whose keys start with a prefix. */
  method GetPrefix(r: Reader, prefix: Bytes) returns (out: seq<Entry>)
    requires r.Valid()
    ensures Sorted(out) && forall e :: e in out <==> e in AllEntries(r.blks) && exists rest: Bytes :: e.key == prefix + rest
  {
    hide Reader.Valid, AllEntries, TableOrder, Less, LowerBound, Passes;
    out := ReadFrom(r, Prefix(prefix), prefix);
    SortedTable(r);
    LookupIsExact(AllEntries(r.blks), Prefix(prefix), prefix);
    TakenSorted(AllEntries(r.blks), Prefix(prefix), prefix);
    forall key: Bytes | |prefix| <= |key| && key[..|prefix|] == prefix ensures !Less(key, prefix) { PrefixNotAbove(prefix, key); }
    forall key: Bytes ensures (exists rest: Bytes :: key == prefix + rest) <==> |prefix| <= |key| && key[..|prefix|] == prefix {
      IsPrefix(prefix, key);
    }
  }

  /** Those from one key to another, both included. */
  method GetRange(r: Reader, first: Bytes, last: Bytes) returns (out: seq<Entry>)
    requires r.Valid()
    ensures Sorted(out) && forall e :: e in out <==> e in AllEntries(r.blks) && !Less(e.key, first) && !Less(last, e.key)
  {
    hide Reader.Valid, AllEntries, TableOrder, Less, LowerBound, Passes;
    out := ReadFrom(r, UpTo(last), first);
    SortedTable(r);
    LookupIsExact(AllEntries(r.blks), UpTo(last), first);
    TakenSorted(AllEntries(r.blks), UpTo(last), first);
  }

  lemma SortedTable(r: Reader)
    requires r.Valid()
    ensures Sorted(AllEntries(r.blks))
  {
    hide Sorted, AllEntries;
    TableIsOrdered(r);
  }

  lemma IsPrefix(prefix: Bytes, key: Bytes)
    ensures (exists rest: Bytes :: key == prefix + rest) <==> |prefix| <= |key| && key[..|prefix|] == prefix
  {
    if |prefix| <= |key| && key[..|prefix|] == prefix { assert key == prefix + key[|prefix|..]; }
    if rest: Bytes :| key == prefix + rest { assert key[..|prefix|] == prefix; }
  }

  /** A key is not below its own prefix. */
  lemma {:induction false} PrefixNotAbove(prefix: Bytes, key: Bytes)
    requires |prefix| <= |key| && key[..|prefix|] == prefix
    ensures !Less(key, prefix)
  {
    if |prefix| > 0 {
      assert key[0] == key[..|prefix|][0] && key[1..][..|prefix| - 1] == key[..|prefix|][1..];
      PrefixNotAbove(prefix[1..], key[1..]);
    }
  }

  lemma ClosedExtends(env: Env, opt: Options, b: Back, n: nat, kb: nat, vb: nat)
    ensures b.file <= ClosedFile(env, opt, b, n, kb, vb)
  {
  }

  lemma ImageFacets(env: Env, file: Bytes, start: nat, m: Metadata, blks: seq<DataBlock>, raw: Bytes, lay: Layout)
    requires TableImage(env, file, start, m, blks, raw, lay)
    ensures ExactCounts(env, start, m, blks, raw)
    ensures start <= m.indexBlockOffset && m.bytesDataBlocks == m.indexBlockOffset - start
    ensures DataPart(env, file, start, m.indexBlockOffset, blks)
  {
    hide Separated, Sorted, BlockImage, AllEntries;
  }
}
