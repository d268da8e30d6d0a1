# Verified model of the mtbl sorted string table library

mtbl stores sorted key-value pairs in immutable files and reads, merges and sorts
them. This project models its layers in Dafny and proves that they refine one
simple object: a strictly key-sorted sequence of pairs with a cursor, where `next`
returns the pair at the cursor and advances, and `seek(k)` moves to the first pair
whose key is not below `k`. Code that updates state in C is a class or a method
with loops here; each such method is tied to a function or a predicate on values,
and the laws are lemmas about those.

## The layers

- **Order and encodings.** `ByteOrder` (the byte order, sorted sequences, lower
  bounds), `Codec` (varints, fixed-width integers), `Separator` (shortened index
  keys), `Metadata` (the file trailer).
- **Blocks.** `Block` has the prefix-compressing builder; a `Layout` says which
  entries, offsets and restart points a block image holds, and `BlockImage` ties
  the bytes to it. `BlockIter` has the reader's block: width inference, decoding,
  galloping and binary search, resume in place, forward and backward steps. The
  iterator's ghost `pos` is its place in the entry sequence; a lagging
  `restartIndex`, a fresh and an exhausted iterator are all inside `Valid()`.
- **Tables.** `Table` says what a file holds (`TableImage`), `Writer` produces it,
  `Reader` opens it and iterates. `ReaderModel` has the iterator on values, with the
  recorded block offset kept apart from the block that is really decoded.
  `RoundTrip` and `ReaderRuns` compose writer, verifier walk and reader. `KnownFiles`
  spells out a block and a file byte by byte.
- **Merging and sorting.** `Heap`, then `MergeView` (what a merge of sorted sources
  means), `MergeOrder` (the order in which entries may come out), `MergeSource` (what a
  merger reads from: given entries, or a table's iterator with its cached block),
  `MergerModel` (the iterator as a cursor over key groups), `Merger` (the iterator
  itself on the heap), `MergerRuns` and `MergerEmptyKeys`. `Folding` and `Sorter` build
  the external sort on it, and `OnDisk` runs merge and sort over table files.
- **Concurrency.** `ThreadPool` is a state machine whose steps lie between lock
  operations; `ThreadPoolInv` and `ThreadPoolSteps` hold the invariant and its
  preservation by every step, `ThreadPoolResults` and `ThreadPoolProgress` what
  follows. `PooledWriter` composes the pool with the writer's ordered block jobs,
  `PooledSorter` with the sorter's unordered chunk jobs. `RingQueue` is the
  single-producer single-consumer queue.
- **Filesets.** `MyFileset` is the list of files named by a setfile, `Fileset` the
  filesets that share one list, with their mergers and open iterators.
- **Algorithms.** `Crc`, `XxHash` with published values in `XxHashAnswers`, and the
  red-black tree: `RbTree` has the tree that the links spell out and its balance,
  `RbLinks` the left, right and parent links and the rewriting steps, `RbInsert`,
  `RbRemove` and `RbWalk` the operations. The mirrored halves of each macro are one text
  over the side.

## Where the code does not do what one would expect

Four properties fail on some inputs. The code is modelled as it is; for each there
is a failing run and the exact condition.

- *Reader seek.* The offset that identifies the cached block is recorded only by
  `seek` (mtbl/reader.c:483), not at creation (mtbl/reader.c:329, 355) nor when
  `next` enters another block (mtbl/reader.c:518). A seek whose target block has
  the recorded offset while another block is cached searches that other block.
  `SeekCorrectIffNotStale` shows that a seek is right if and only if this is not
  so, `StaleSeekRepeats` what comes out instead, `StaleRunDiverges` gives a run for
  every table of two or more blocks that starts at offset 0, and
  `FixedReaderIsCursor` shows that recording the offset in the three places makes
  every run right. `StaleOnDisk` runs it on a written file.
- *Merger seek.* A seek to exactly the key just returned takes the forward path
  (mtbl/merger.c:206-227) and stays behind it. `SeekCorrectIffNotSkipping` has the
  exact condition and `SkippingRunDiverges` the run; `SeekEach` has it for a merger
  without a merge function.
- *Empty keys.* The merger reads an empty current key as "none yet"
  (mtbl/merger.c:287). So an empty key is forgotten when another follows, and when none
  does, each of its values overwrites the one before instead of being merged with it.
  `NextCorrectIffNothingLost` has the condition for one call. For a full iteration
  `DrainMerged` (with a merge function) and `AllDrainedIff` (without) have it on the
  sources: nothing is lost if no source holds the empty key or there is one entry in
  all. Otherwise something is, which with a merge function shows if its results are
  longer than its arguments. `EmptyKeyLost` and `EmptyValuesLost` are runs on two sources
  of one entry each. For the sorter `Write` says the same: nothing is lost if no key is
  empty, or all are and there is one chunk.
- *Fileset reload.* `mtbl_fileset_reload_now` rebuilds the merger only if files were
  loaded or unloaded, yet stamps the fileset as current (mtbl/fileset.c:395-401). If
  another fileset has reloaded since, and the setfile has not changed again, the
  merger is left on readers that are gone. `Refresh` states exactly, from the state
  before the call and the setfile, when the merger is current afterwards;
  `ReloadNowLeavesBehind` constructs the failing run. In every state
  `IteratorsReadOpenReadersIff` says when an open iterator is safe: exactly if every
  setfile read since its merger was made still names all its files. No other call
  leaves a fileset behind (`Reload`, `OpenIter`, `CloseIter`, `Dup`, `Destroy` keep
  `Synced`), and `SyncedIsSafe` is what follows from that.

Two smaller ones: `bytes_shortest_separator` always makes a separator, but a shortest one
only under the condition of `ShortestIff` (mtbl/bytes.h:7-41); nothing depends on it.
And the unordered counter of a result queue goes below zero for a moment: a worker
can join the queue before its dispatcher counts it (mtbl/threadpool.c:136-140,
227-229). `CounterWraps` reaches the value 2^64 - 1; the invariant counts such
dispatches, and the results are not affected.

The documentation of `mtbl_merger` says that `dupsort_func` orders the data of equal
keys with and without a merge function; `Next` and `Drain` state it for both.

## Model

| member | source | states |
|---|---|---|
| ByteOrder.BytesCompare | mtbl/mtbl-private.h:129-145 | the sign of memcmp-then-length decides lexicographic order both ways, and zero means equal |
| ByteOrder.CompareDecidesOrder | mtbl/mtbl-private.h:129-145 | the common-prefix comparison with the length as tie-break is the lexicographic order |
| Codec.VarintRoundTrip | mtbl/varint.c:93-171 | decoding an encoded number gives it back with its length, whatever bytes follow |
| Codec.VarintLengths | mtbl/varint.c:67-75 | a 32-bit value takes at most 5 bytes, a 64-bit one at most 10, and one byte means below 128 |
| Codec.VarintLength | mtbl/varint.c:67-75 | the length loop counts the bytes the encoder writes |
| Codec.VarintEncode32 | mtbl/varint.c:93-119 | the five unrolled cases write the same bytes as the recursive encoding |
| Codec.VarintEncode64 | mtbl/varint.c:122-132 | the loop writes the same bytes as the recursive encoding |
| Codec.VarintDecode | mtbl/varint.c:135-154 | returns the value modulo 2^64 and its length exactly if the varint ends within the budget, otherwise zero for both |
| Codec.VarintDecode32 | mtbl/varint.c:157-165 | as above for five bytes, truncated to 32 bits |
| Codec.Fixed32RoundTrip | mtbl/fixed.c:50-71 | little-endian 32-bit decode inverts encode with any trailing bytes |
| Codec.Fixed64RoundTrip | mtbl/fixed.c:58-79 | the same for 64 bits |
| Codec.FixedAre | mtbl/fixed.c:50-79 | fixed-width integers are stored least significant byte first |
| Codec.VarintExamples | mtbl/varint.c:93-132 | the bytes of small numbers, at the borders of each length |
| Metadata.WriteMetadata | mtbl/metadata.c:20-67 | the 512-byte trailer has each field at its offset, zeros and the magic bytes last, and the reading side gives every field back |
| Separator.ShortestSeparator | mtbl/bytes.h:7-41 | the in-place edit of the start buffer yields the separator function for every pair with start <= limit |
| Separator.ShortenedSeparates | mtbl/bytes.h:7-41 | start <= separator < limit and the separator is never longer than start, carry case included |
| Separator.ShortenedLength | mtbl/bytes.h:21-38 | where the made key ends: at the first difference if a byte fits, one byte on if two bytes have room to carry, otherwise it is start unchanged |
| Separator.ShortenedIsNext | mtbl/bytes.h:21-38 | no key of its length lies between start and the made key |
| Separator.ShortestIff | mtbl/bytes.h:7-41 | the key made is a shortest separator if and only if start runs into limit, a byte fits at the first difference, start ends with it, or limit does and start goes on with 0xFF bytes up to its last |
| Separator.NothingShorter | mtbl/bytes.h:10-25 | in those cases every shorter key lies below start or not below limit |
| Separator.ShorterMissed | mtbl/bytes.h:26-38 | in all others a shorter separator exists, such as the first bytes of limit |
| Block.BlockBuilder.Add | mtbl/block_builder.c:113-162 | the entry is appended, and the caller's 15 bytes of slack cover the growth of the size estimate, restart slot included |
| Block.BlockBuilder.Finish | mtbl/block_builder.c:88-110 | the finished bytes are an image of exactly the entries added, as long as the size estimate said; there is a restart point every interval entries, and every other entry leaves out the longest prefix shared with the key before |
| Block.BlockBuilder.Reset | mtbl/block_builder.c:62-70 | a used builder is as good as new |
| Block.SharedWithLast | mtbl/block_builder.c:126-133 | the counted shared prefix is the longest common prefix with the last key |
| Block.AppendRestarts | mtbl/block_builder.c:88-108 | the restart array is 64 bits wide exactly if the entries exceed 2^32-1 bytes, with the count behind it |
| Block.AddKeepsConsistent | mtbl/block_builder.c:113-162 | every add keeps bytes, offsets, restart points, shared prefixes and counter consistent with the entries |
| Block.FinishedImage | mtbl/block_builder.c:88-110 | a consistent builder's bytes with the restart array satisfy what the reader relies on |
| Block.RestartsWithinEntries | mtbl/block_builder.c:134-138 | restart points never outnumber entries, except for the one of an empty block |
| BlockIter.BlockInitInfersWidth | mtbl/block.c:102-137 | the reader infers the width the builder chose, the restart offset and the restart count of any image |
| BlockIter.BlockInitAcceptsIff | mtbl/block.c:102-137 | of any bytes a block is made exactly if a restart array of the stored length fits with 32-bit slots up to offset 2^32 - 1 or with 64-bit slots beyond it; otherwise it is empty |
| BlockIter.DecodeEntry | mtbl/block.c:80-99 | both decoding paths return the shared, unshared and value lengths and the body's place for every encoded entry |
| BlockIter.BlockIter.GetRestartPoint | mtbl/block.c:184-190 | reads the offset of the entry at a restart, in either width |
| BlockIter.BlockIter.ParseNextKey | mtbl/block.c:202-229 | from any primed position it loads the next entry or reports the end |
| BlockIter.BlockIter.CatchUp | mtbl/block.c:223-227 | the restart index never passes the entry and lags by at most one restart point |
| BlockIter.BlockIter.SeekToFirst | mtbl/block.c:238-242 | stands on the first entry |
| BlockIter.BlockIter.SeekToLast | mtbl/block.c:245-251 | stands on the last entry |
| BlockIter.BlockIter.Next | mtbl/block.c:347-353 | moves by one entry, and past the last one becomes invalid |
| BlockIter.BlockIter.Prev | mtbl/block.c:356-374 | undoes next, and before the first entry becomes invalid |
| BlockIter.BlockIter.CompareRestartPoint | mtbl/block.c:254-263 | decides from the bytes whether the key at a restart point is below the target |
| BlockIter.BlockIter.FindRestart | mtbl/block.c:266-317 | galloping and binary search end at a restart from which the target can be reached, with none later that could serve; no 32-bit index wraps |
| BlockIter.BlockIter.Seek | mtbl/block.c:266-344 | from every reachable state it lands on the first entry not below the target, or past the end |
| BlockIter.BlockIter.Get | mtbl/block.c:377-392 | returns the entry the iterator stands on, if any |
| Writer.Writer.Add | mtbl/writer.c:215-245 | accepts exactly the keys above the last one; an accepted pair is appended to the table, a rejected one changes nothing; a block is stored exactly if there is one and with the pair, 15 bytes and its size the block size would be reached |
| Writer.Writer.CloseBlock | mtbl/writer.c:228-237 | the block cut off keeps every entry and its index key is its last key shortened towards the next key, below that key |
| Writer.Writer.AppendEntry | mtbl/writer.c:238-245 | keeps every block at one entry or below the block size |
| Writer.Writer.Flush | mtbl/writer.c:277-306 | hands over one block for the pending entries, none if there are none |
| Writer.Writer.WriteDataBlock | mtbl/writer.c:355-391 | frames the block at the file's end, indexes it by its offset and keeps the counters exact |
| Writer.Writer.Finish | mtbl/writer.c:248-274 | the file is the image of a table holding exactly the pairs added, with exact metadata; every block has one entry or is below the block size, no block was closed while the next entry had room, each index key is the block's last key shortened towards the next block's first, and the final one is the last key |
| Writer.Writer.StoreIndex | mtbl/writer.c:257-273 | index block and trailer complete the image |
| Writer.WriteJobsConcat | mtbl/writer.c:372-411 | storing blocks in two runs is storing them in one |
| Writer.NoMoreJobs | mtbl/writer.c:215-306 | there are never more blocks than entries |
| KnownFiles.TwoEntries | mtbl/block_builder.c:88-162 | every byte of a block of two entries whose keys share a prefix |
| KnownFiles.TwoBlocks | mtbl/writer.c:215-411 | every byte of a file of two blocks: frames, shortened index key, index block and trailer fields |
| Reader.OpenReader | mtbl/reader.c:140-218 | opens every written file with the metadata written, and rejects exactly files shorter than the trailer, with another magic number, or whose index would not fit before the trailer |
| Reader.MinimalIndex | mtbl/reader.c:178-211 | even the file of an empty table meets the reader's 13-byte minimum |
| Reader.ReadFrame | mtbl/reader.c:255-299 | returns the stored bytes of a frame; with verification the checksum assertion holds exactly if the stored checksum is that of the bytes |
| Reader.Reader.GetBlock | mtbl/reader.c:255-299 | returns the contents of the block at an indexed offset |
| Reader.TableIsOrdered | mtbl/reader.c:255-369 | in an opened table blocks are full and ordered, separators split them, offsets differ, and the index lists them |
| Reader.BlockAtIndex | mtbl/reader.c:302-317 | loads the block the index cursor names |
| Reader.IterAll | mtbl/reader.c:320-344 | no iterator over an empty table, otherwise one on the first pair |
| Reader.Lookup | mtbl/reader.c:347-410 | no iterator exactly when every separator is below the key, otherwise one on the first pair not below it |
| Reader.ReaderIter.NeedsSeek | mtbl/reader.c:426-451 | decides whether the cached index position can be kept |
| Reader.ReaderIter.Seek | mtbl/reader.c:454-497 | the object does the modelled seek step, cached block and stale offset included |
| Reader.ReaderIter.LoadTarget | mtbl/reader.c:475-486 | reloads the block only if the recorded offset differs from the target's |
| Reader.ReaderIter.Next | mtbl/reader.c:500-551 | the object does the modelled next step, crossing into the next block and filtering by kind |
| Reader.ReaderIter.NextBlock | mtbl/reader.c:508-524 | crossing enters the following block at its first pair, or ends |
| ReaderModel.IndexBoundSplits | mtbl/reader.c:347-369 | the first index entry not below a key separates the blocks that lie below it from the others |
| ReaderModel.TargetIsIndexBound | mtbl/reader.c:426-475 | skipping the index seek never changes the target block |
| ReaderModel.SeekCorrectIffNotStale | mtbl/reader.c:454-497 | a seek leaves exactly the pairs not below the key, gaps between blocks included, if and only if the recorded offset is not stale |
| ReaderModel.StaleSeekRepeats | mtbl/reader.c:475-493 | a stale seek returns the whole cached block instead of the target's pairs |
| ReaderModel.NextTakesHead | mtbl/reader.c:500-551 | next returns the first remaining pair and drops it, or ends at the filter |
| ReaderModel.RunMatchesCursor | mtbl/reader.c:425-524 | any run of next and seek without a stale seek returns what the cursor on the sorted pairs returns |
| ReaderModel.FixedNeverStale | mtbl/reader.c:329-355 | with the offset recorded at creation and in next no seek is ever stale |
| ReaderModel.FixedReaderIsCursor | mtbl/reader.c:320-524 | the repaired iterator is a cursor on every run from every start |
| ReaderModel.StaleRunDiverges | mtbl/reader.c:500-520 | on every table of two or more blocks at offset 0, reading into the second block and seeking the first key returns the second block's first pair |
| ReaderModel.LookupIsExact | mtbl/reader.c:500-551 | a lookup returns exactly the pairs from its start key on whose key equals the key, starts with the prefix, or is not above the end of the range |
| ReaderModel.DrainReturns | mtbl/reader.c:526-550 | a filtered cursor returns its pairs in order and then fails for good |
| RoundTrip.BuildBlock | mtbl/block_builder.c:88-162 | any entries, in any order, become an image holding them |
| RoundTrip.BlockRoundTrip | mtbl/block.c:202-251 | first and next over a finished block return the entries added, for any restart interval |
| RoundTrip.ChainedNext | src/mtbl_verify.c:151-153 | each frame ends where the next begins |
| RoundTrip.VerifyDataBlocks | src/mtbl_verify.c:69-162 | accepts a run of frames exactly if every stored checksum is that of its contents and the frames fit the length given; stops at the first that fails |
| RoundTrip.VerifyWritten | src/mtbl_verify.c:69-162 | accepts every file the writer finished, visiting exactly the offsets the index holds |
| RoundTrip.WriteAll | mtbl/writer.c:215-245 | every strictly increasing input is accepted in full, after any reserved prefix |
| RoundTrip.DrainIter | mtbl/reader.c:500-551 | calling next until it fails yields what the filter passes of the remaining pairs |
| RoundTrip.WriteAndOpen | mtbl/reader.c:140-218 | a written file opens with exactly its pairs, counts and block area, in blocks that are as full as the block size allows, under index keys shortened towards the next block |
| RoundTrip.TableRoundTrip | mtbl/writer.c:215-274 | write, open, verify, iterate: the same pairs, exact counts, accepted |
| RoundTrip.TableLookup | mtbl/reader.c:372-410 | get, prefix and range on a written file return exactly the pairs whose keys were asked for, in order |
| RoundTrip.Get | mtbl/reader.c:372-382 | exactly the pairs under the key |
| RoundTrip.GetPrefix | mtbl/reader.c:384-395 | exactly the pairs whose key is the prefix and more bytes, in order |
| RoundTrip.GetRange | mtbl/reader.c:397-410 | exactly the pairs from the first key to the last, both included, in order |
| ReaderRuns.RunOn | mtbl/reader.c:425-551 | the iterator object follows its model through any sequence of calls |
| ReaderRuns.IterateWritten | mtbl/reader.c:320-551 | any calls on the full iterator over a written file answer as a cursor over the pairs, unless a seek is stale |
| ReaderRuns.StaleOnDisk | mtbl/reader.c:475-520 | a file of any two entries, one to a block, on which the iterator returns the second entry after seeking the first |
| ReaderRuns.RunOnWritten | mtbl/reader.c:347-551 | any calls on a lookup iterator over a written file answer as a cursor over the pairs, unless a seek is stale |
| Heap.Heap.SiftUp | libmy/heap.c:62-76 | repairs a heap with a new last element and keeps its elements |
| Heap.Heap.SiftDown | libmy/heap.c:79-103 | repairs a heap below one element and keeps its elements |
| Heap.Heap.LeastOf | libmy/heap.c:86-94 | picks the lesser child, or the only one |
| Heap.Heap.Heapify | libmy/heap.c:106-111 | makes any vector a heap of the same elements |
| Heap.Heap.Push | libmy/heap.c:120-124 | adds one element |
| Heap.Heap.Pop | libmy/heap.c:127-142 | removes the root even if the root's own key was changed in place |
| Heap.Heap.Replace | libmy/heap.c:145-153 | exchanges the root and restores the order |
| Heap.RootIsLeast | libmy/heap.c:156-161 | the root precedes every element |
| MergeView.GroupsSorted | mtbl/merger.c:257-333 | the merged keys come out in strictly increasing order |
| MergeView.GroupsHoldAllValues | mtbl/merger.c:296-318 | each key's group has all the values the sources hold for it |
| MergeView.GroupsHaveEveryKey | mtbl/merger.c:257-333 | every key of every source comes out |
| MergeView.GroupsFrom | mtbl/merger.c:206-222 | seeking every source to a key leaves exactly the groups from that key on |
| MergeOrder.AscendingIsUnique | mtbl/merger.c:166-172 | a duplicate order without ties lets the values of a key come out in one order only |
| MergeOrder.SeekOnIff | mtbl/merger.c:224-243 | seeking on in what is left is seeking in the sources, if and only if the key itself has not been handed out |
| MergerModel.SeekCorrectIffNotSkipping | mtbl/merger.c:189-254 | a seek lands on the first group not below the key if and only if it is not to the key just returned with groups left |
| MergerModel.SeekKeepsInv | mtbl/merger.c:245-254 | every seek keeps the remembered key at or above all groups passed |
| MergerModel.NextKeepsInv | mtbl/merger.c:257-333 | every next keeps it too |
| MergerModel.NextCorrectIffNothingLost | mtbl/merger.c:284-321 | next returns the next group with all its values merged if and only if its key is not empty, or it is the last group and has one value |
| MergerModel.ForgettingRunDiverges | mtbl/merger.c:287-296 | an empty key with another behind it is never seen |
| MergerModel.OverwritingRunDiverges | mtbl/merger.c:287-296 | an empty key that is the only one comes out with its last value instead of the merge of several |
| MergerModel.RunMatchesCursor | mtbl/merger.c:188-333 | any run that never seeks the key just returned, nor meets an empty key before another or with several values, is a cursor over the merged groups |
| MergerModel.SkippingRunDiverges | mtbl/merger.c:206-227 | with two keys, next, seek of that key, next skips it |
| MergerModel.StillSkips | mtbl/merger.c:224-251 | a seek that moves no source is not remembered: next, seek between the two keys, seek back to the first, next skips it all the same |
| Merger.OrderIsOrder | mtbl/merger.c:151-175 | comparison by key, then by the duplicate order, is a total preorder for the heap |
| Merger.RootLeads | mtbl/merger.c:151-175 | the root may come out before every other front, by key and by the duplicate order |
| Merger.DupFoldIsUnique | mtbl/merger.c:296-311 | under a duplicate order without ties the merged value is determined for any merge function |
| Merger.MergerIter.AddSources | mtbl/merger.c:386-397 | the heap holds the first entry of every source that has one |
| Merger.MergerIter.AddEntry | mtbl/merger.c:371-383 | one more source, or none if it is empty |
| Merger.MergerIter.Settle | mtbl/merger.c:272-282 | exhausted roots are dropped until the root is live or the heap is empty |
| Merger.MergerIter.FillRoot | mtbl/merger.c:178-186 | the root's source advances by one entry with the heap's order and elements kept |
| Merger.MergerIter.Next | mtbl/merger.c:257-333 | returns the least key once, with the fold of all its values in the duplicate order; an empty key only when no other is left, and then with the last of its values in that order |
| Merger.MergerIter.Collect | mtbl/merger.c:271-321 | the loop lets each value of the empty key replace the one before, and then takes exactly the fronts of one key, in the duplicate order |
| Merger.MergerIter.Seek | mtbl/merger.c:189-254 | backward, forward and unchanged seeks all do the modelled step |
| Merger.MergerIter.Rebuild | mtbl/merger.c:206-222 | every source stands at the key and the heap is rebuilt from those that have entries |
| Merger.MergerIter.Forward | mtbl/merger.c:224-243 | only sources behind the key move, which positions all of them |
| Merger.MergerIter.SeekRoot | mtbl/merger.c:228-240 | the root's source moves to the key, and the total left shrinks |
| Merger.MergerIter.NextEach | mtbl/merger.c:257-333 | without a merge function empty keys are forgotten and one front comes out that no other has to precede; if there are only empty keys, the last one does |
| Merger.MergerIter.SeekEach | mtbl/merger.c:189-254 | without a merge function every source ends at the key, if and only if that key was not the one just handed out with entries left |
| Merger.Open | mtbl/merger.c:386-397 | a new iterator stands before the first group |
| Merger.OpenInputs | mtbl/merger.c:386-397 | the same over any mix of given entries and table iterators |
| MergeSource.LoadTakes | mtbl/merger.c:178-186 | loading from a source, a table's iterator included, takes the first entry it has left |
| MergeSource.SeekLeaves | mtbl/merger.c:206-240 | seeking a source leaves its entries from the key on, unless it is a table's iterator whose seek is stale |
| OnDisk.MergeTables | mtbl/merger.c:257-397 | a full iteration over the merge of any tables' iterators is the merge of their pairs |
| OnDisk.RunTables | mtbl/merger.c:188-397 | any run of next and seek over that merge answers as the cursor over the merged pairs, up to the first seek that is stale for some table's iterator |
| MergerRuns.Run | mtbl/merger.c:188-333 | any run over any sources answers as the cursor over the merged groups, unless it seeks the key just returned or meets an empty key before another or with several values |
| MergerRuns.RunOn | mtbl/merger.c:188-333 | the same over a new iterator with sources of any kind; only a seek that is stale for a table stops the run |
| MergerRuns.Drain | mtbl/merger.c:257-333 | without a merge function every entry of every source comes out once, by key and then by the duplicate order, except for forgotten empty keys; if there are no others, the last of them comes out |
| MergerRuns.AllDrainedIff | mtbl/merger.c:284-299 | without a merge function everything comes out if and only if no source starts with the empty key or there is one entry in all |
| MergerRuns.EachFrom | mtbl/merger.c:188-333 | without a merge function any calls answer as a cursor over the entries does, unless one seeks to the key returned last |
| MergerRuns.RunEach | mtbl/merger.c:188-333 | the same from a new iterator over any sources without empty keys |
| MergerEmptyKeys.DrainMerged | mtbl/merger.c:284-321 | a full iteration gives one entry for each key seen; every key is seen if and only if no source holds the empty key while some source holds another; every value is merged if no source holds the empty key or there is one entry in all, and for a merge function longer than its arguments only then |
| MergerEmptyKeys.MergesAllIff | mtbl/merger.c:284-321 | that last condition, from what the iterator gives for each group |
| MergerEmptyKeys.EmptyValuesLost | mtbl/merger.c:287-296 | two sources with one value each under the empty key: every key comes out, but the value is no merge of the two |
| MergerEmptyKeys.DrainAll | mtbl/merger.c:257-333 | calling next until it fails passes every group, except an empty key with another behind it |
| MergerEmptyKeys.ForgetsIffHides | mtbl/merger.c:287-296 | the first call forgets a key if and only if some source holds the empty key and some source another |
| MergerEmptyKeys.EmptyKeyLost | mtbl/merger.c:287-296 | two sources of one entry each from which only one entry comes out |
| MergerEmptyKeys.JoinsInOrder | mtbl/merger.c:257-333 | with a duplicate order and an appending merge function, a merge of [2] and [1] under one key is [1, 2] |
| Folding.FoldPermutes | mtbl/sorter.c:206-236 | an associative and commutative merge gives one result for every order of the values |
| Folding.FoldsJoin | mtbl/merger.c:296-311 | merging two folds is a fold of all the values |
| Folding.SummaryIsUnique | mtbl/sorter.c:397-424 | sorted distinct keys with folded values are determined by the values each key has |
| Sorter.QSort | mtbl/sorter.c:170-177 | any arrangement by key, equal keys in any order |
| Sorter.WriteChunk | mtbl/sorter.c:180-259 | a chunk file has each key of its batch once, in order, with all its values folded |
| Sorter.SummaryOfBag | mtbl/sorter.c:206-250 | the chunk does not depend on how the sort orders equal keys |
| Sorter.FoldOfFolds | mtbl/sorter.c:397-424 | folding the chunks' folds folds every value added |
| Sorter.MergeOfChunks | mtbl/sorter.c:397-424 | the merge of the chunk files summarises everything added, whatever the chunk boundaries |
| Sorter.Sorter.Add | mtbl/sorter.c:284-310 | the entry is kept; a batch is cut exactly when the accounted memory, 8 bytes for header and handle included, reaches the limit; adding fails once iterating |
| Sorter.Sorter.Flush | mtbl/sorter.c:313-337 | the pending entries become a chunk or a job, none lost |
| Sorter.Sorter.Deliver | mtbl/sorter.c:357-366 | a chunk job may finish in any order |
| Sorter.Sorter.Iter | mtbl/sorter.c:397-424 | the iterator merges chunks that together hold everything added |
| Sorter.Sorter.Write | mtbl/sorter.c:262-281 | fails once iterating; otherwise writes the sorted distinct keys with all values folded if no key is empty or all are and there is one chunk, and for a merge function longer than its arguments only then; every key is written if and only if none is empty or all are |
| Sorter.WriteDone | mtbl/sorter.c:262-281 | what a full iteration over the merged chunks gives is the summary of the entries with non-empty keys, or of one batch if there are none |
| Sorter.KeysWritten | mtbl/merger.c:287-296 | every key added is written if and only if none is empty or all are |
| Sorter.SummaryIff | mtbl/sorter.c:262-281 | the output is the summary of everything added if no key is empty or all are and there is one chunk, and for a merge function longer than its arguments only then |
| OnDisk.StoreChunk | mtbl/sorter.c:180-259 | a batch written as a table and opened holds, and gives back, the batch's summary |
| OnDisk.MergeChunkTables | mtbl/sorter.c:262-281 | the merge of the chunk tables' iterators is what the sorter has to write |
| ThreadPoolSteps.InitialInv | mtbl/threadpool.c:153-162 | a new pool with any clients satisfies the invariant |
| ThreadPoolSteps.StepKeepsInv | mtbl/threadpool.c:104-399 | every step of every thread keeps the invariant |
| ThreadPoolSteps.RunKeepsInv | mtbl/threadpool.c:104-399 | so does every interleaving |
| ThreadPoolSteps.AssignKeeps | mtbl/threadpool.c:207-229 | handing a thread its job keeps it |
| ThreadPoolSteps.AnnounceKeeps | mtbl/threadpool.c:218-235 | appending to the queue or counting the dispatch keeps it, also when the worker was faster |
| ThreadPoolSteps.StopRunningKeeps | mtbl/threadpool.c:125-134 | finishing a job and signalling keeps it |
| ThreadPoolSteps.JoinQueueKeeps | mtbl/threadpool.c:136-144 | a worker queueing itself keeps it |
| ThreadPoolSteps.LookKeeps | mtbl/threadpool.c:295-317 | the handler taking a thread, waiting or quitting keeps it |
| ThreadPoolSteps.AwaitKeeps | mtbl/threadpool.c:318-324 | waiting for the thread's result keeps it |
| ThreadPoolSteps.ReturnKeeps | mtbl/threadpool.c:325-333 | returning the thread to the pool keeps it |
| ThreadPoolSteps.CollectKeeps | mtbl/threadpool.c:239-262 | taking the threads back for shutdown keeps it |
| ThreadPoolResults.OnePlace | mtbl/threadpool.c:165-236 | each thread is in exactly one place |
| ThreadPoolResults.NoListHoldsTwice | mtbl/threadpool.c:165-334 | neither the pool nor a result queue holds a thread twice |
| ThreadPoolResults.OneWaiter | mtbl/threadpool.c:104-124 | at most one party waits on a thread's condition variable, so a signal cannot go astray |
| ThreadPoolResults.AssertionsHold | mtbl/threadpool.c:165-334 | every assertion in the code holds when reached |
| ThreadPoolResults.NoneOvertaken | mtbl/threadpool.c:295-334 | an ordered job is never delivered before an earlier ordered one |
| ThreadPoolResults.DeliveredInOrder | mtbl/threadpool.c:295-375 | at all times results are delivered at most once and the ordered ones form a prefix of the dispatch order |
| ThreadPoolResults.AllDelivered | mtbl/threadpool.c:301-358 | when a handler exits every dispatched job has been delivered exactly once |
| ThreadPoolProgress.NoDeadlock | mtbl/threadpool.c:104-277 | until everything is done some thread can take a step that is not a spurious wakeup |
| ThreadPoolProgress.StepUses | mtbl/threadpool.c:104-399 | each such step lowers a measure |
| ThreadPoolProgress.RunsAreBounded | mtbl/threadpool.c:104-399 | so no run of them is longer than the measure at its start |
| ThreadPoolProgress.EveryRunDelivers | mtbl/threadpool.c:104-399 | a run that cannot go on has shut down with every job delivered once, ordered jobs in dispatch order |
| ThreadPoolProgress.ThreadsWithinLimit | mtbl/threadpool.c:165-205 | no run makes more worker threads than the pool was given |
| ThreadPoolProgress.CounterWraps | mtbl/threadpool.c:136-140 | a run in which the unsigned dispatch counter is 2^64 - 1 |
| PooledWriter.WriteSequentially | mtbl/writer.c:277-306 | without a pool the writer's file is the one its block jobs determine |
| PooledWriter.PoolWritesTheSameFile | mtbl/writer.c:372-411 | under every schedule and with any other clients the pooled file is a prefix of that file while running and equal to it after closing |
| PooledSorter.SameValuesUnder | mtbl/sorter.c:357-366 | collecting readers in any order keeps every key's values |
| PooledSorter.PoolSortsTheSame | mtbl/sorter.c:313-366 | under every schedule each chunk's reader is collected once and the merge is the one without a pool |
| MyFileset.FetchEntry | libmy/my_fileset.c:97-108 | finds the entry of a name exactly if there is one |
| MyFileset.SortEntries | libmy/my_fileset.c:83-94 | sorts the entries by name and loses none |
| MyFileset.LiveAfter | libmy/my_fileset.c:156-221 | dropping the readers of vanished names leaves exactly the readers of the new list |
| MyFileset.Files.Reload | libmy/my_fileset.c:156-221 | kept files keep their reader, only new files load, only removed ones unload, and nothing happens if the setfile is unchanged |
| MyFileset.Files.ReadNames | libmy/my_fileset.c:174-203 | the new list holds the existing files named, and the counters count |
| MyFileset.Files.ReadName | libmy/my_fileset.c:180-200 | a known name keeps its reader, an unknown one is loaded |
| MyFileset.Files.UnloadOthers | libmy/my_fileset.c:208-219 | unloads exactly the entries not marked |
| MyFileset.Files.Destroy | libmy/my_fileset.c:131-147 | unloads everything |
| Fileset.CollectSources | mtbl/fileset.c:297-327 | the loop adds the readers that pass the filters, in list order |
| Fileset.SourcesAreReaders | mtbl/fileset.c:297-327 | a merger's sources are exactly the open readers of current entries that each filter there is says yes to |
| Fileset.SameEntries | mtbl/fileset.c:395-399 | if nothing was loaded or unloaded the list of entries is the same |
| Fileset.Filesets.ReinitMerger | mtbl/fileset.c:297-327 | exactly one merger is replaced, by one over exactly the readers of current entries that the name filter and the reader filter accept |
| Fileset.Filesets.Reload | mtbl/fileset.c:330-368 | afterwards the merger holds the current entries that pass if and only if its stamp was old, it did before, or the setfile is due and changes; open iterators or the interval defer it |
| Fileset.Filesets.Resync | mtbl/fileset.c:336-341 | a fileset older than the shared list gets a merger over it |
| Fileset.Filesets.Refresh | mtbl/fileset.c:384-402 | afterwards the merger is current if and only if the setfile was updated to name other files or it was current before |
| Fileset.Filesets.ReloadNow | mtbl/fileset.c:371-402 | with open iterators the reload is only noted, otherwise it happens; it is the one call that can leave a fileset behind, and only with an old stamp |
| Fileset.Filesets.OpenIter | mtbl/fileset.c:92-112 | an iterator reads from the fileset's merger, reloaded if due |
| Fileset.Filesets.CloseIter | mtbl/fileset.c:80-89 | closing the last iterator performs the deferred reload |
| Fileset.Filesets.Dup | mtbl/fileset.c:258-268 | a duplicate shares the files and starts out of date |
| Fileset.Filesets.Destroy | mtbl/fileset.c:271-286 | the files are closed exactly when the last fileset goes |
| Fileset.IteratorsReadOpenReadersIff | mtbl/fileset.c:79-102 | the merger under an open iterator exists, and all its readers are open if and only if every setfile read since it was made names their files |
| Fileset.SyncedIsSafe | mtbl/fileset.c:79-102 | while no fileset has been left behind every open iterator reads from open readers only |
| Fileset.OneMoreRead | libmy/my_fileset.c:156-221 | reading another setfile keeps the readers of files still named and destroys the others for good |
| Fileset.ChangesIff | mtbl/fileset.c:395-399 | something is loaded or unloaded if and only if the setfile names other files than the list |
| Fileset.TwoFilesets | mtbl/fileset.c:242-268 | two filesets over one setfile, both up to date |
| Fileset.ReloadNowLeavesBehind | mtbl/fileset.c:395-401 | a run after which an open iterator reads from a destroyed reader |
| Crc.Slicing | libmy/crc32c-slicing.c:1099-1164 | the sliced loops compute the byte-at-a-time reflected CRC32C for every length and alignment |
| Crc.KnownAnswers | t/test-crc32c.c:15-24 | the checksums of no bytes and of the first two test vectors |
| Crc.ThirtyTwoZeros | t/test-crc32c.c:37-44 | the checksum of 32 zero bytes, a longer test vector |
| Crc.Residue | libmy/crc32c-slicing.c:1099-1164 | any bytes followed by their own checksum have one constant checksum |
| Crc.EightSteps | libmy/crc32c-slicing.c:1120-1150 | eight table lookups equal eight byte steps |
| Crc.EightBytes | libmy/crc32c-slicing.c:1120-1150 | one sliced iteration extends the CRC by eight bytes |
| Crc.TableShifts | libmy/crc32c-slicing.c:1099-1164 | table k holds the remainders of k+1 byte shifts |
| Crc.TableLinear | libmy/crc32c-slicing.c:1099-1164 | every table is linear over exclusive or |
| Crc.TableStep | libmy/crc32c-slicing.c:1110-1118 | a lookup and a shift are eight bit steps |
| Crc.FirstTableBasis | libmy/crc32c-slicing.c:560-600 | the first table's entries at the powers of two are the literal ones |
| XxHash.FeedTwice | libmy/xxhash.c:632-718 | feeding two pieces is feeding the second behind what the first left over |
| XxHash.Stream.Update | libmy/xxhash.c:632-718 | the state always stands for all bytes fed, with less than one stripe buffered |
| XxHash.Stream.Digest | libmy/xxhash.c:732-770 | the digest is the hash of all bytes fed |
| XxHash.FeedParts | libmy/xxhash.c:604-718 | after reset and any updates the state stands for the concatenation |
| XxHash.HashParts | libmy/xxhash.c:604-781 | reset, any updates, digest: the hash of the concatenation |
| XxHash.OneShot32 | libmy/xxhash.c:304-378 | the one-shot loop computes the same hash |
| XxHash.OneShot64 | libmy/xxhash.c:409-518 | the same for 64 bits |
| XxHash.FinishLoop32 | libmy/xxhash.c:732-770 | the tail loop with the avalanche is the finishing function |
| XxHash.FinishLoop64 | libmy/xxhash.c:887-965 | the same for 64 bits |
| XxHash.Streaming32 | libmy/xxhash.c:304-770 | streaming, with the digest's own tail loop, equals one-shot for every cut of the input and every seed |
| XxHash.Streaming64 | libmy/xxhash.c:409-965 | the same for 64 bits |
| XxHashAnswers.KnownAnswers32 | libmy/xxhash.c:304-378 | the published values for nothing, a letter, a letter with a seed and a text of 39 bytes |
| XxHashAnswers.KnownAnswers64 | libmy/xxhash.c:409-518 | the same for 64 bits, with a text of 63 bytes |
| RingQueue.AndWithPred | libmy/my_queue_mb.c:55-65 | the bit check recognises exactly the powers of two |
| RingQueue.InitKeeps | libmy/my_queue_mb.c:55-65 | creation succeeds exactly for powers of two from 2 on |
| RingQueue.SpaceAndCount | libmy/my_queue_mb.c:84-93 | the masked unsigned differences are the free and the used slots |
| RingQueue.StepKeeps | libmy/my_queue_mb.c:96-132 | every shared read or write of either side keeps the queue consistent, no unread slot is overwritten |
| RingQueue.FirstInFirstOut | libmy/my_queue_mb.c:96-132 | in every interleaving the items received are the first ones sent, and at most size-1 are held |
| RingQueue.ReportsAreSafe | libmy/my_queue_mb.c:96-132 | the reported space and count never exceed what is there, and failures mean full or empty |
| RingQueue.InsertAnswers | libmy/my_queue_mb.c:96-113 | a call to insert alone fails exactly on a full ring; otherwise the item is sent and the room reported is exact |
| RingQueue.RemoveAnswers | libmy/my_queue_mb.c:115-132 | a call to remove alone fails exactly on an empty ring; otherwise it returns the oldest item and the count reported is exact |
| RbLinks.Rotate | libmy/tree.h:336-374 | rewrites the links of a rotation in either direction: the links spell out the turned tree, parent links included |
| RbLinks.ReplaceChild | libmy/tree.h:342-348 | the link from the parent, or from the head, leads to the new child and all other links stay |
| RbLinks.Adopt | libmy/tree.h:338-340 | a subtree's root gets its parent link |
| RbLinks.Paint | libmy/tree.h:327-330 | one element changes its colour |
| RbLinks.ParentLinks | libmy/tree.h:306-312 | every child's parent link leads back, and every element but the root is a child of its parent |
| RbLinks.TreeLinks | libmy/tree.h:306-312 | in a valid tree exactly the root has no parent, and all links agree |
| RbLinks.AtWhole | libmy/tree.h:314-319 | the links at a position say the same as the links of the whole tree |
| RbTree.TurnedOrder | libmy/tree.h:336-374 | a rotation keeps the elements in order |
| RbTree.Rotated | libmy/tree.h:416-423 | both rotations of an insertion together end the violation and keep the order |
| RbTree.RotateOutKeeps | libmy/tree.h:416-421 | the inner rotation keeps order and balance |
| RbTree.RotateUpKeeps | libmy/tree.h:422-423 | the outer rotation keeps order and balance |
| RbInsert.Recolor | libmy/tree.h:409-415 | with a red uncle three elements change colour |
| RbInsert.TurnOut | libmy/tree.h:416-421 | an inner child is rotated to the outside, on the links |
| RbInsert.TurnUp | libmy/tree.h:422-423 | the grandparent is rotated below the parent, on the links |
| RbInsert.InsertColor | libmy/tree.h:401-443 | recolouring and rotations restore a red-black tree from a red element in place, with the same elements in order |
| RbInsert.LinkLeaf | libmy/tree.h:608-616 | a new red element without children hangs below its parent or at the head |
| RbInsert.Insert | libmy/tree.h:591-619 | the new element is added at its place, or the one with an equal key is returned and nothing changes |
| RbTree.LiftKeeps | libmy/tree.h:452-457 | rotating a red sibling away keeps order and balance |
| RbTree.SettleKeeps | libmy/tree.h:476-480 | the last rotation restores the missing black element |
| RbRemove.BlackSibling | libmy/tree.h:452-457 | after a red sibling is rotated away the sibling is black, on the links |
| RbRemove.Straighten | libmy/tree.h:466-475 | the sibling's red child is rotated to the far side, on the links |
| RbRemove.Settle | libmy/tree.h:476-482 | the sibling takes the parent's place and colour, on the links |
| RbRemove.RemoveColor | libmy/tree.h:445-521 | a subtree one black element short is repaired, with the same elements in order |
| RbRemove.CutOut | libmy/tree.h:572-583 | an element with at most one child leaves the links around it to the child |
| RbRemove.Substitute | libmy/tree.h:552-563 | another element takes over an element's links, colour, parent and children |
| RbRemove.Leftmost | libmy/tree.h:534-536 | the walk to the left ends at the successor |
| RbRemove.Splice | libmy/tree.h:532-571 | an element with two children is replaced by its successor, also when that is its own child |
| RbRemove.Remove | libmy/tree.h:523-588 | exactly the one element goes, whichever case applies, and links, order and balance hold again |
| RbWalk.NFind | libmy/tree.h:640-658 | the first element whose key is not below the given one |
| RbWalk.Next | libmy/tree.h:661-680 | the in-order successor through right and parent links, none exactly for the last |
| RbTree.RankIsIndex | libmy/tree.h:661-680 | an element's rank along its path is its index in order |

## Left out

- Reader.OpenReader: files that pass its checks and were not made by the writer, version 1 or corrupt, are not modelled.
- RoundTrip.VerifyDataBlocks: checksums and contents may be damaged, the length fields of the frames not.
- Compression libraries: one abstract pair with decompress(compress(x)) = x; the table's checksum is an abstract function below 2^32, and `Crc` is about the function itself.
- Memory mapping, descriptors, temporary files, clocks and stat: a file is a byte sequence, a clock reading a parameter.
- Sizes: fewer than 2^31 restart points per block and data blocks per table (`Fits`), and totals that fit 64 bits, as the formats assume.
- A merge function that fails by returning NULL: merging is total here.
- The duplicate order is taken to be a total preorder on the values of each key.
- The two sides of the branch on a missing merge function (mtbl/merger.c:298-299) are two methods, `Next` and `NextEach`; `SeekEach` is the same code as `Seek` proved about single entries.
- Merger.MergerIter.Seek: over table iterators it is proved for seeks that are not stale for any of them; over other sources nothing is asked.
- Merger.MergerIter.Rebuild: the same.
- Merger.MergerIter.Forward: the same.
- Merger.MergerIter.SeekRoot: the same, for the root's source.
- Merger.MergerIter.SeekEach: the same.
- A merger's table sources are the states of `ReaderModel`, which `ReaderIter` follows call by call, not the objects.
- Heap: the comparison is passed to each call, and elements are handles compared through the entries they name.
- Sources of a merger are iterators over all their entries; get, prefix and range sources of mergers and filesets are not modelled.
- Reader seeks below a range's lower bound: the iterator checks only the upper bound, and the cursor here does the same.
- Sorter.WriteChunk: the class represents a chunk file by its entries; `StoreChunk` and `MergeChunkTables` tie that to table files.
- Thread pool: linked lists of threads are sequences; a condition wait is a state ended by a signal or a spurious wakeup, and spurious wakeups are left out of the termination measure; a pool is destroyed after its clients have finished; jobs are identified by their number instead of their data.
- MyFileset.Files.Reload: a setfile that names a file twice is not modelled, where two entries would share one reader; nor is it in `Fileset`.
- MyFileset.Files.ReadNames: the same.
- Fileset: strictly increasing clock readings are assumed; mtbl_fileset_partition and a setfile that vanishes between stat and fopen are not modelled.
- CRC tables: defined by their recurrence, with the basis of the first checked; big-endian and SSE4.2 variants are not modelled.
- xxHash: little-endian reads only, and no NULL input.
- Ring queue: sequential consistency; the effect of the barriers on weaker memories is not modelled.
- Red-black tree: the augmentation hook (empty unless a user defines it), RB_FIND, RB_PREV, RB_MINMAX and splay trees.
- Command-line tools other than the verifier's walk, iterator and source wrappers, option setters and the small helper codecs.
