/** Whole runs of a reader's iterator: any sequence of next and seek calls on the
    iterator of an opened table answers as the cursor over its pairs does. */
module ReaderRuns {
  import opened ByteOrder
  import opened Maybe
  import opened Codec
  import opened Block
  import opened Table
  import opened ReaderModel
  import opened Reader
  import opened Writer
  import opened RoundTrip

  /** The calls do what the model of the iterator says, one after the other. */
  method RunOn(it: ReaderIter, ops: seq<Op>) returns (outs: seq<Option<Entry>>)
    requires it.Valid() && WellTyped(it.r.blks, it.State())
    modifies it, it.indexIter, it.bi
    ensures WellTyped(it.r.blks, old(it.State())) && outs == RunReader(it.r.blks, it.kind, false, old(it.State()), ops)
  {
    hide ReaderIter.Valid, Reader.Valid, SeekStep, NextStep, WellTyped, RunReader;
    ghost var blks, kind, start := it.r.blks, it.kind, it.State();
    outs := [];
    var i := 0;
    assert ops[0..] == ops;
    while i < |ops|
      invariant i <= |ops| && it.Valid() && it.r.blks == blks && it.kind == kind
      invariant it.bi == old(it.bi) || it.bi == null || fresh(it.bi)
      invariant WellTyped(blks, start) && WellTyped(blks, it.State())
      invariant outs + RunReader(blks, kind, false, it.State(), ops[i..]) == RunReader(blks, kind, false, start, ops)
      decreases |ops| - i
    {
      OneOp(blks, kind, it.State(), ops[i..]);
      assert ops[i..][1..] == ops[i + 1..];
      match ops[i] {
        case Next =>
          var out := it.Next();
          outs := outs + [out];
        case Seek(key) =>
          it.Seek(key);
      }
      WellTypedState(it);
      i := i + 1;
    }
    NoOps(blks, kind, it.State(), ops[i..]);
  }

  lemma OneOp(blks: seq<DataBlock>, t: Kind, s: State, ops: seq<Op>)
    requires WellTyped(blks, s) && |ops| > 0
    ensures RunReader(blks, t, false, s, ops) ==
            match ops[0]
            case Next => var (s2, out) := NextStep(blks, t, false, s); [out] + RunReader(blks, t, false, s2, ops[1..])
            case Seek(key) => RunReader(blks, t, false, SeekStep(blks, s, key), ops[1..])
  {
  }

  lemma NoOps(blks: seq<DataBlock>, t: Kind, s: State, ops: seq<Op>)
    requires WellTyped(blks, s) && |ops| == 0
    ensures RunReader(blks, t, false, s, ops) == []
  {
  }

  /** Writes any sorted pairs, opens the file, looks a key up and makes any calls on the
      iterator: unless a seek is stale, the answers are those of a cursor over the pairs.
      Without an iterator there is nothing at or after the key. */
  method RunOnWritten(env: Env, opt: Options, reserved: Bytes, es: seq<Entry>, kind: Kind, key: Bytes, ops: seq<Op>)
    returns (outs: Option<seq<Option<Entry>>>, r: Reader)
    requires env.Ok() && opt.Ok() && Sorted(es) && (forall e <- es :: SmallEntry(e))
    requires Fits(opt, reserved, es)
    ensures r.Valid() && AllEntries(r.blks) == es
    ensures outs == None ==> forall e <- es :: Less(e.key, key)
    ensures outs == None <==> IndexBound(r.blks, key) == |r.blks|
    ensures outs.Some? ==>
              var j := IndexBound(r.blks, key);
              NeverStale(r.blks, kind, false, Start(r.blks, j, LowerBound(r.blks[j].lay.ents, key), false), ops) ==>
                outs.value == RunCursor(es, kind, CursorSeek(es, key), ops)
  {
    hide Reader.Valid, TableOrder, AllEntries, Passes, LowerBound, IndexBound, InStep, WellTyped, Remaining, NeverStale, RunCursor, RunReader,
         Less, Sorted, DataPart;
    r := WriteAndOpen(env, opt, reserved, es);
    TableIsOrdered(r);
    NothingFromKey(r.blks, key);
    var it := Lookup(r, kind, key);
    if it == null { return None, r; }
    ItsReader(it);
    StartsAtKey(r.blks, key);
    var o := RunOn(it, ops);
    outs := Some(o);
    ghost var j := IndexBound(r.blks, key);
    ghost var s := Start(r.blks, j, LowerBound(r.blks[j].lay.ents, key), false);
    if NeverStale(r.blks, kind, false, s, ops) { RunMatchesCursor(r.blks, kind, false, s, CursorSeek(es, key), ops); }
  }

  lemma {:induction false} NothingFromKey(blks: seq<DataBlock>, key: Bytes)
    requires TableOrder(blks)
    ensures IndexBound(blks, key) == |blks| ==> forall e <- AllEntries(blks) :: Less(e.key, key)
  {
    hide Separated, Sorted, Less, IndexBound;
    EarlierBlocksBelow(blks, key);
    assert blks[..|blks|] == blks;
  }

  /** The same for the iterator over the whole table. */
  method IterateWritten(env: Env, opt: Options, reserved: Bytes, es: seq<Entry>, ops: seq<Op>)
    returns (outs: Option<seq<Option<Entry>>>, r: Reader)
    requires env.Ok() && opt.Ok() && Sorted(es) && (forall e <- es :: SmallEntry(e))
    requires Fits(opt, reserved, es)
    ensures r.Valid() && AllEntries(r.blks) == es && (outs == None <==> es == []) && (outs == None <==> |r.blks| == 0)
    ensures outs.Some? && NeverStale(r.blks, All, false, Start(r.blks, 0, 0, false), ops) ==>
              outs.value == RunCursor(es, All, Cursor(es, true), ops)
  {
    hide Reader.Valid, TableOrder, AllEntries, Passes, InStep, WellTyped, Remaining, NeverStale, RunCursor, RunReader, Sorted, DataPart;
    r := WriteAndOpen(env, opt, reserved, es);
    TableIsOrdered(r);
    BlocksAndEntries(r.blks);
    var it := IterAll(r);
    if it == null { return None, r; }
    ItsReader(it);
    StartRemaining(r.blks);
    var o := RunOn(it, ops);
    outs := Some(o);
    if NeverStale(r.blks, All, false, Start(r.blks, 0, 0, false), ops) {
      RunMatchesCursor(r.blks, All, false, Start(r.blks, 0, 0, false), Cursor(es, true), ops);
    }
  }

  lemma BlocksAndEntries(blks: seq<DataBlock>)
    requires TableOrder(blks)
    ensures |blks| == 0 <==> AllEntries(blks) == []
  {
    hide Separated, Sorted;
    if |blks| > 0 { BlockEntriesInAll(blks, 0, 0); }
  }

  // ---------- a file on which the iterator goes wrong ----------

  /** A block is at least as long as each of its values. */
  lemma ImageHolds(data: Bytes, lay: Layout, i: nat)
    requires BlockImage(data, lay) && i < |lay.ents|
    ensures |lay.ents[i].val| <= |data|
  {
    assert EntryAt(data, lay, i);
    EntryBytesLength(lay.ents[i], lay.shared[i]);
  }

  lemma {:induction false} AtLeastOneEach(blks: seq<DataBlock>)
    requires forall i :: 0 <= i < |blks| ==> |blks[i].lay.ents| > 0
    ensures |AllEntries(blks)| >= |blks|
  {
    if |blks| > 0 { AtLeastOneEach(blks[..|blks| - 1]); }
  }

  lemma EntriesOf(blks: seq<DataBlock>)
    ensures |blks| == 1 ==> AllEntries(blks) == blks[0].lay.ents
    ensures |blks| == 2 ==> AllEntries(blks) == blks[0].lay.ents + blks[1].lay.ents
  {
    assert AllEntries([]) == [];
    if |blks| == 2 { assert AllEntries(blks[..1]) == AllEntries(blks[..1][..0]) + blks[0].lay.ents; }
  }

  lemma StoredImage(r: Reader, i: nat)
    requires r.Valid() && i < |r.blks|
    ensures BlockImage(r.env.decompress(r.blks[i].raw), r.blks[i].lay)
  {
    hide BlockImage, Separated, Sorted, Chained, AllEntries;
    assert BlockStored(r.env, r.file, r.blks[i]);
  }

  /** With a value as long as a block may be, each of two entries gets a block of its own. */
  lemma {:induction false} OneEach(r: Reader, blockSize: nat, a: Entry, b: Entry)
    requires r.Valid() && AllEntries(r.blks) == [a, b] && |b.val| >= blockSize
    requires forall i :: 0 <= i < |r.blks| ==> |r.blks[i].lay.ents| == 1 || |r.env.decompress(r.blks[i].raw)| < blockSize
    ensures |r.blks| == 2 && r.blks[0].lay.ents == [a] && r.blks[1].lay.ents == [b]
  {
    TableIsOrdered(r);
    AtLeastOneEach(r.blks);
    EntriesOf(r.blks);
    hide Reader.Valid, AllEntries, BlockImage, Separated, Sorted;
    BlocksAndEntries(r.blks);
    if |r.blks| == 1 {
      StoredImage(r, 0);
      ImageHolds(r.env.decompress(r.blks[0].raw), r.blks[0].lay, 1);
    } else {
      TwoParts(r.blks[0].lay.ents, r.blks[1].lay.ents, a, b);
    }
  }

  lemma TwoParts(x: seq<Entry>, y: seq<Entry>, a: Entry, b: Entry)
    requires |x| > 0 && |y| > 0 && x + y == [a, b]
    ensures x == [a] && y == [b]
  {
    assert |x + y| == 2;
    assert (x + y)[0] == x[0] && (x + y)[1] == y[0];
  }

  /** Any two entries, the second as long as a block: read both, seek the first, and the
      iterator returns the second again. */
  method StaleOnDisk(env: Env, opt: Options, a: Entry, b: Entry) returns (out: Option<Entry>)
    requires env.Ok() && opt.Ok() && SmallEntry(a) && SmallEntry(b) && Less(a.key, b.key) && |b.val| >= opt.blockSize
    requires 2 * Cost([a, b]) + 65536 < TWO64
    ensures out == Some(b) && a != b
    ensures RunCursor([a, b], All, Cursor([a, b], true), [Next, Next, Seek(a.key), Next]) == [Some(a), Some(b), Some(a)]
  {
    CursorReturns(a, b);
    hide Reader.Valid, ReaderIter.Valid, TableOrder, AllEntries, WellTyped, SeekStep, NextStep, Less, LowerBound, RunCursor, StaleSeek, Start;
    NoMoreJobs(opt, [a, b]);
    var r := WriteAndOpen(env, opt, [], [a, b]);
    TableIsOrdered(r);
    OneEach(r, opt.blockSize, a, b);
    FirstAtStart(env, r.blks, r.m.indexBlockOffset, r.file);
    StaleRunDiverges(r.blks);
    TwoSteps(r.blks, Start(r.blks, 0, 0, false));
    var it := IterAll(r);
    var _ := it.Next();
    var _ := it.Next();
    it.Seek(a.key);
    out := it.Next();
  }

  lemma FirstAtStart(env: Env, blks: seq<DataBlock>, end: nat, file: Bytes)
    requires DataPart(env, file, 0, end, blks) && |blks| > 0
    ensures blks[0].off == 0
  {
    hide Separated, Sorted, AllEntries, BlockImage;
    ChainedNext(env, blks, 0, end, 0);
  }

  lemma TwoSteps(blks: seq<DataBlock>, s: State)
    requires WellTyped(blks, s)
    ensures AfterNexts(blks, s, 2) == NextStep(blks, All, false, NextStep(blks, All, false, s).0).0
  {
    hide NextStep, WellTyped;
    assert AfterNexts(blks, s, 0) == s;
    assert AfterNexts(blks, s, 1) == NextStep(blks, All, false, s).0;
  }

  lemma CursorReturns(a: Entry, b: Entry)
    requires Less(a.key, b.key)
    ensures RunCursor([a, b], All, Cursor([a, b], true), [Next, Next, Seek(a.key), Next]) == [Some(a), Some(b), Some(a)] && a != b
  {
    hide Less;
    LessTrichotomy(a.key, a.key);
    LessTrichotomy(a.key, b.key);
    var all, ops := [a, b], [Next, Next, Seek(a.key), Next];
    assert LowerBound(all, a.key) == 0;
    assert CursorSeek(all, a.key) == Cursor(all, true);
    assert ops[1..] == [Next, Seek(a.key), Next] && ops[1..][1..] == [Seek(a.key), Next] && ops[1..][1..][1..] == [Next] && [Next][1..] == [];
    assert all[1..] == [b] && [b][1..] == [];
    assert RunCursor(all, All, Cursor(all, true), [Next]) == [Some(a)];
    assert RunCursor(all, All, Cursor([], true), [Seek(a.key), Next]) == [Some(a)];
    assert RunCursor(all, All, Cursor([b], true), [Next, Seek(a.key), Next]) == [Some(b), Some(a)];
  }
}
