/** Whole blocks and files, byte by byte. */
module KnownFiles {
  import opened ByteOrder
  import opened Codec
  import opened Block
  import opened Metadata
  import opened Table
  import opened Writer
  import Separator

  const AA := Entry([0x61, 0x61], [0x78])
  const AB := Entry([0x61, 0x62], [0x79])
  const CC := Entry([0x63, 0x63], [0x79])

  const AA_BYTES: Bytes := [0, 2, 1, 0x61, 0x61, 0x78]
  const CC_BYTES: Bytes := [0, 2, 1, 0x63, 0x63, 0x79]

  /** One restart point, at 0, and the number of restart points. */
  const ONE_RESTART: Bytes := [0, 0, 0, 0, 1, 0, 0, 0]

  lemma SmallNumbers()
    ensures VarintBytes(0) == [0] && VarintBytes(1) == [1] && VarintBytes(2) == [2]
    ensures VarintBytes(14) == [14] && VarintBytes(19) == [19]
    ensures Fixed32(0) == [0, 0, 0, 0] && Fixed32(1) == [1, 0, 0, 0] && Fixed32(0x0403_0201) == [1, 2, 3, 4]
  {
    hide FixedBytes;
    FixedAre(0);
    FixedAre(1);
    FixedAre(0x0403_0201);
  }

  /** An entry with lengths below 128. */
  lemma ShortEntry(e: Entry, shared: nat, bytes: Bytes)
    requires shared <= |e.key| < 128 && |e.val| < 128
    requires bytes == [shared, |e.key| - shared, |e.val|] + e.key[shared..] + e.val
    ensures EntryBytes(e, shared) == bytes
  {
    var a, b, c := VarintBytes(shared), VarintBytes(|e.key| - shared), VarintBytes(|e.val|);
    assert a == [shared] && b == [|e.key| - shared] && c == [|e.val|];
    hide VarintBytes;
    assert a + b + c == [shared, |e.key| - shared, |e.val|];
  }

  /** An entry added where no restart point is due. */
  lemma AddOne(s: BuilderState, e: Entry, shared: nat, bytes: Bytes)
    requires s.counter < 16 && shared <= |e.key| && CommonPrefix(s.lastKey, e.key) == shared && EntryBytes(e, shared) == bytes
    ensures Added(s, 16, e) == BuilderState(s.buf + bytes, e.key, s.restarts, s.counter + 1)
  {
    hide EntryBytes, CommonPrefix;
  }

  lemma Ended(s: BuilderState)
    requires s.restarts == [0] && |s.buf| <= UINT32_MAX
    ensures Finished(s) == s.buf + ONE_RESTART
  {
    hide FixedBytes;
    SmallNumbers();
    NoRestartBytes(false);
    assert s.restarts[..0] == [];
  }

  // ---------- a block in which the second key shares its first byte ----------

  lemma TwoEntries()
    ensures Finished(Added(Added(EMPTY_BUILDER, 16, AA), 16, AB)) == AA_BYTES + [1, 1, 1, 0x62, 0x79] + ONE_RESTART
  {
    hide VarintBytes, FixedBytes, CommonPrefix, EntryBytes, Added, Finished;
    FirstBytes();
    CommonPrefixUnique([], AA.key, 0);
    CommonPrefixUnique(AA.key, AB.key, 1);
    AddOne(EMPTY_BUILDER, AA, 0, AA_BYTES);
    var s := BuilderState(AA_BYTES, AA.key, [0], 1);
    assert EMPTY_BUILDER.buf + AA_BYTES == AA_BYTES;
    AddOne(s, AB, 1, [1, 1, 1, 0x62, 0x79]);
    Ended(Added(s, 16, AB));
  }

  lemma FirstBytes()
    ensures EntryBytes(AA, 0) == AA_BYTES && EntryBytes(CC, 0) == CC_BYTES && EntryBytes(AB, 1) == [1, 1, 1, 0x62, 0x79]
  {
    hide EntryBytes;
    ShortEntry(AA, 0, AA_BYTES);
    ShortEntry(CC, 0, CC_BYTES);
    ShortEntry(AB, 1, [1, 1, 1, 0x62, 0x79]);
  }

  // ---------- a file of two blocks of one entry each ----------

  const SMALL_BLOCKS := Options(16, 16, 0)

  /** No compression, and a checksum that is easy to recognise. */
  const PLAIN := Env((x: Bytes) => x, (x: Bytes) => x, (x: Bytes) => 0x0403_0201)

  /** The index has a one-byte separator for the first block and the last key for the second. */
  const INDEX_BYTES: Bytes := [0, 1, 1, 0x62, 0, 0, 2, 1, 0x63, 0x63, 19]

  lemma TwoBlocks()
    ensures TableFile(PLAIN, SMALL_BLOCKS, [], [AA, CC])
            == [14, 1, 2, 3, 4] + AA_BYTES + ONE_RESTART
               + [14, 1, 2, 3, 4] + CC_BYTES + ONE_RESTART
               + [19, 1, 2, 3, 4] + INDEX_BYTES + ONE_RESTART
               + TrailerBytes(Metadata(V2, 38, 16, 0, 2, 2, 38, 24, 4, 2))
  {
    hide VarintBytes, FixedBytes, CommonPrefix, EntryBytes, Added, Finished, TrailerBytes, WriteJobs, WriteJob, AllJobs, MainRun;
    JobsMade();
    JobsStored();
    Ended(BuilderState(INDEX_BYTES, [0x63, 0x63], [0], 2));
    Framed(INDEX_BYTES + ONE_RESTART, [19]);
    Sizes([AA, CC]);
  }

  lemma Sizes(es: seq<Entry>)
    requires es == [AA, CC]
    ensures KeyBytes(es) == 4 && ValueBytes(es) == 2
  {
    assert es[..1] == [AA] && es[..1][..0] == [];
    assert KeyBytes(es[..1]) == 2 && ValueBytes(es[..1]) == 1;
  }

  lemma Framed(raw: Bytes, size: Bytes)
    requires (size == [14] && |raw| == 14) || (size == [19] && |raw| == 19)
    ensures Frame(PLAIN, raw) == size + [1, 2, 3, 4] + raw
  {
    hide VarintBytes, FixedBytes;
    SmallNumbers();
  }

  const FIRST_JOB := Job(AA_BYTES + ONE_RESTART, [0x62])
  const LAST_JOB := Job(CC_BYTES + ONE_RESTART, [0x63, 0x63])

  /** The second entry does not fit, so the first block is closed under a shortened key. */
  lemma JobsMade()
    ensures AllJobs(SMALL_BLOCKS, [AA, CC]) == [FIRST_JOB, LAST_JOB] && MainRun(SMALL_BLOCKS, [AA, CC]).kept == [AA, CC]
  {
    hide CommonPrefix, EntryBytes, Added, Finished, Separator.Shortened, MainRun;
    FirstBytes();
    CommonPrefixUnique([], AA.key, 0);
    CommonPrefixUnique([], CC.key, 0);
    AddOne(EMPTY_BUILDER, AA, 0, AA_BYTES);
    AddOne(EMPTY_BUILDER, CC, 0, CC_BYTES);
    EmptyShortened(AA.key);
    ShortKey();
    var es := [AA, CC];
    MainSnoc(SMALL_BLOCKS, es, 0);
    MainSnoc(SMALL_BLOCKS, es, 1);
    assert es[..0] == [] && es[..1] == [AA] && es[..2] == es;
    NoneRun();
    var first := Main(Front(BuilderState(AA_BYTES, AA.key, [0], 1), AA.key, 1), [], [AA]);
    assert MainRun(SMALL_BLOCKS, [AA]) == first;
    Ended(first.front.data);
    Ended(BuilderState(CC_BYTES, CC.key, [0], 1));
    var second := Main(Front(BuilderState(CC_BYTES, CC.key, [0], 1), CC.key, 2), [FIRST_JOB], [AA, CC]);
    assert MainAdd(SMALL_BLOCKS, first, CC) == second;
  }

  lemma NoneRun()
    ensures MainRun(SMALL_BLOCKS, []) == FRESH_MAIN
  {
  }

  lemma ShortKey()
    ensures Separator.Shortened(AA.key, CC.key) == [0x62]
  {
    CommonPrefixUnique(AA.key, CC.key, 0);
  }

  const FIRST_BACK := Back([14, 1, 2, 3, 4] + FIRST_JOB.data, 19, 0, 19, 1, BuilderState(INDEX_BYTES[..5], [0x62], [0], 1))
  const LAST_BACK := Back([14, 1, 2, 3, 4] + FIRST_JOB.data + [14, 1, 2, 3, 4] + LAST_JOB.data, 38, 19, 38, 2,
                          BuilderState(INDEX_BYTES, [0x63, 0x63], [0], 2))

  lemma JobsStored()
    ensures WriteJobs(PLAIN, SMALL_BLOCKS, StartBack([]), [FIRST_JOB, LAST_JOB]) == LAST_BACK
  {
    hide WriteJobs, WriteJob;
    FirstStored();
    LastStored();
    OneJob(PLAIN, SMALL_BLOCKS, StartBack([]), FIRST_JOB);
    OneJob(PLAIN, SMALL_BLOCKS, FIRST_BACK, LAST_JOB);
    WriteJobsConcat(PLAIN, SMALL_BLOCKS, StartBack([]), [FIRST_JOB], [LAST_JOB]);
    assert [FIRST_JOB, LAST_JOB] == [FIRST_JOB] + [LAST_JOB];
  }

  lemma FirstStored()
    ensures WriteJob(PLAIN, SMALL_BLOCKS, StartBack([]), FIRST_JOB) == FIRST_BACK
  {
    hide VarintBytes, EntryBytes, Added, Frame, CommonPrefix;
    Framed(FIRST_JOB.data, [14]);
    IndexKeys();
    CommonPrefixUnique([], [0x62], 0);
    SmallNumbers();
    AddOne(EMPTY_BUILDER, Entry([0x62], [0]), 0, INDEX_BYTES[..5]);
    assert [] + Frame(PLAIN, FIRST_JOB.data) == [14, 1, 2, 3, 4] + FIRST_JOB.data;
    assert EMPTY_BUILDER.buf + INDEX_BYTES[..5] == INDEX_BYTES[..5];
  }

  lemma LastStored()
    ensures WriteJob(PLAIN, SMALL_BLOCKS, FIRST_BACK, LAST_JOB) == LAST_BACK
  {
    hide VarintBytes, EntryBytes, Added, Frame, CommonPrefix;
    Framed(LAST_JOB.data, [14]);
    IndexKeys();
    CommonPrefixUnique([0x62], [0x63, 0x63], 0);
    SmallNumbers();
    AddOne(FIRST_BACK.index, Entry([0x63, 0x63], [19]), 0, INDEX_BYTES[5..]);
    assert FIRST_BACK.file + Frame(PLAIN, LAST_JOB.data) == LAST_BACK.file;
    assert INDEX_BYTES[..5] + INDEX_BYTES[5..] == INDEX_BYTES;
  }

  lemma IndexKeys()
    ensures EntryBytes(Entry([0x62], [0]), 0) == INDEX_BYTES[..5]
    ensures EntryBytes(Entry([0x63, 0x63], [19]), 0) == INDEX_BYTES[5..]
  {
    hide EntryBytes;
    ShortEntry(Entry([0x62], [0]), 0, INDEX_BYTES[..5]);
    ShortEntry(Entry([0x63, 0x63], [19]), 0, INDEX_BYTES[5..]);
  }
}
