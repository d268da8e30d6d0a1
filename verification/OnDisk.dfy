/** Merging and sorting over table files: the iterators of opened tables as sources of a merger,
    and the sorter's chunks written and read through the table layer. */
module OnDisk {
  import opened ByteOrder
  import opened Maybe
  import opened Codec
  import opened Block
  import opened Table
  import opened MergeView
  import opened MergeOrder
  import opened MergeSource
  import opened Merger
  import opened MergerModel
  import opened MergerEmptyKeys
  import opened MergerRuns
  import opened Folding
  import RM = ReaderModel
  import W = Writer
  import R = Reader
  import RT = RoundTrip
  import S = Sorter

  // ---------- merging tables ----------

  /** The pairs of each table. */
  function Contents(tables: seq<seq<DataBlock>>): (ts: Tails)
    ensures |ts| == |tables| && forall i :: 0 <= i < |tables| ==> ts[i] == AllEntries(tables[i])
  {
    seq(|tables|, i requires 0 <= i < |tables| => AllEntries(tables[i]))
  }

  function Scans(tables: seq<seq<DataBlock>>): (ins: seq<Input>)
    ensures |ins| == |tables| && forall i :: 0 <= i < |tables| ==> ins[i] == ScanOf(tables[i])
  {
    seq(|tables|, i requires 0 <= i < |tables| => ScanOf(tables[i]))
  }

  lemma {:induction false} ScansOk(tables: seq<seq<DataBlock>>)
    requires forall t <- tables :: RM.TableOrder(t)
    ensures (forall i <- Scans(tables) :: InputOk(i)) && SrcsOf(Scans(tables)) == Contents(tables) && AllSorted(Contents(tables))
  {
    hide RM.TableOrder, AllEntries, InputOk, Sorted, ScanOf;
    forall k | 0 <= k < |tables|
      ensures InputOk(Scans(tables)[k]) && Scans(tables)[k].src == AllEntries(tables[k]) && Sorted(AllEntries(tables[k]))
    {
      assert tables[k] in tables;
      ScanOk(tables[k]);
      TableSorted(tables[k]);
    }
    assert SrcsOf(Scans(tables)) == Contents(tables);
    forall t | t in Contents(tables) ensures Sorted(t) { var k :| 0 <= k < |tables| && t == Contents(tables)[k]; }
  }

  lemma TableSorted(blks: seq<DataBlock>)
    requires RM.TableOrder(blks)
    ensures Sorted(AllEntries(blks))
  {
  }

  /** A full iteration over the merge of any tables' own iterators: no seek is made, so none is
      stale, and the result is that of merging their pairs. */
  method MergeTables(merge: MergeFn, dup: Option<DupSort>, tables: seq<seq<DataBlock>>) returns (out: seq<Entry>)
    requires DupOk(dup) && forall t <- tables :: RM.TableOrder(t)
    ensures StandForAll(merge, dup, Seen(Groups(Contents(tables))), out)
    ensures AllKeysIn(Contents(tables), out) <==> !Hides(Contents(tables))
    ensures NothingToLose(Contents(tables)) ==> MergesAll(merge, dup, Groups(Contents(tables)), out)
  {
    hide DupOk, Groups, StandForAll, AllKeysIn, Hides, Seen, InputOk, AllSorted, MergerIter.Valid, AllEntries, RM.TableOrder, NothingToLose,
         MergesAll;
    ScansOk(tables);
    var it := OpenInputs(Some(merge), dup, Scans(tables), false);
    out := DrainAll(it);
    SeenKeys(merge, dup, Contents(tables), out);
    MergesAllIff(merge, dup, Contents(tables), out);
  }

  /** Any run of next and seek over that merge answers as the cursor over the merged pairs, up to the
      first seek at which some table's iterator would search the wrong block. */
  method RunTables(merge: MergeFn, dup: Option<DupSort>, tables: seq<seq<DataBlock>>, ops: seq<Op>)
    returns (it: MergerIter, outs: seq<Option<Entry>>, done: nat)
    requires DupOk(dup) && (forall t <- tables :: RM.TableOrder(t))
    requires NeverSkips(Groups(Contents(tables)), FRESH, ops)
    ensures done <= |ops| && AllAnswer(merge, dup, RunCursor(Groups(Contents(tables)), 0, ops[..done]), outs)
    ensures fresh(it) && it.Valid() && Sources(it.ents) == Kept(Contents(tables))
    ensures done < |ops| ==> ops[done].Seek? && !NoneStale(it.ents, ops[done].key)
  {
    hide DupOk, Groups, InputOk, AllSorted, MergerIter.Valid, AllEntries, RM.TableOrder, NeverSkips, AllAnswer, RunCursor, NoneStale;
    ScansOk(tables);
    it := OpenInputs(Some(merge), dup, Scans(tables), false);
    outs, done := RunOn(it, ops);
  }

  /** What an opened file gives such a merge. */
  lemma OpenedTable(r: R.Reader)
    requires r.Valid()
    ensures RM.TableOrder(r.blks)
  {
    hide RM.TableOrder;
    R.TableIsOrdered(r);
  }

  // ---------- chunk files ----------

  /** Whatever the batch is merged to can be stored. */
  ghost predicate Storable(opt: W.Options, merge: MergeFn, batch: seq<Entry>) {
    forall file: seq<Entry> :: IsSummary(merge, batch, file) ==>
      (forall e <- file :: SmallEntry(e)) && RT.Fits(opt, [], file)
  }

  /** A batch is sorted, merged, written as a table and opened: the table holds the batch's summary,
      and iterating it gives the summary back. */
  method StoreChunk(env: Env, opt: W.Options, merge: MergeFn, batch: seq<Entry>) returns (r: R.Reader, back: seq<Entry>)
    requires env.Ok() && opt.Ok() && Storable(opt, merge, batch)
    ensures fresh(r) && r.Valid() && RM.TableOrder(r.blks) && AllEntries(r.blks) == back && IsSummary(merge, batch, back)
  {
    hide RM.TableOrder, AllEntries, R.Reader.Valid, DataPart;
    var file := S.WriteChunk(merge, batch);
    SummarySorted(merge, batch, file);
    hide IsSummary;
    r := RT.WriteAndOpen(env, opt, [], file);
    OpenedTable(r);
    back := RT.ReadAll(r);
  }

  lemma SummarySorted(merge: MergeFn, batch: seq<Entry>, file: seq<Entry>)
    requires IsSummary(merge, batch, file)
    ensures Sorted(file)
  {
  }

  /** The merge of the chunk tables' iterators is what the sorter has to write, whatever the chunk boundaries. */
  method MergeChunkTables(merge: MergeFn, ghost added: seq<Entry>, ghost batches: Tails, tables: seq<seq<DataBlock>>) returns (out: seq<Entry>)
    requires Associates(merge) && Commutes(merge) && (forall t <- tables :: RM.TableOrder(t))
    requires S.ChunksOf(merge, batches, Contents(tables))
    requires forall k: Bytes :: ValuesIn(added, k) == ValuesUnder(batches, k)
    ensures S.Written(merge, added, batches, out)
  {
    hide DupOk, Groups, StandForAll, AllKeysIn, Hides, Seen, AllSorted, AllEntries, RM.TableOrder, Associates, Commutes, ValuesIn, ValuesUnder,
         S.ChunksOf, S.Merges, S.Written, IsSummary, Contents, NothingToLose, MergesAll;
    S.NoDupOrder();
    ScansOk(tables);
    out := MergeTables(merge, None, tables);
    S.WriteDone(merge, added, batches, Contents(tables), None, out);
  }
}
