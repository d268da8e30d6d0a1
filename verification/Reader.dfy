/** Opening a table and iterating over it (mtbl/reader.c), proved against ReaderModel. */
module Reader {
  import opened ByteOrder
  import opened Maybe
  import opened Codec
  import opened Block
  import opened BlockIter
  import opened Metadata
  import opened Table
  import opened ReaderModel

  /** Three 32-bit numbers and the length, which version 1 stores in 32 bits and version 2 as a varint. */
  function MinBlockLength(v: Version): nat { if v == V1 then 16 else 13 }

  class Reader {
    const env: Env
    const file: Bytes
    const m: Metadata
    const index: Bytes
    const verifyChecksums: bool
    ghost const start: nat
    ghost const blks: seq<DataBlock>
    ghost const indexLay: Layout

    ghost predicate Valid() {
      env.Ok() && TableImage(env, file, start, m, blks, index, indexLay)
    }

    constructor (env: Env, file: Bytes, m: Metadata, index: Bytes, verify: bool,
                 ghost start: nat, ghost blks: seq<DataBlock>, ghost indexLay: Layout)
      requires env.Ok() && TableImage(env, file, start, m, blks, index, indexLay)
      ensures Valid() && this.env == env && this.file == file && this.m == m && this.index == index
      ensures this.start == start && this.blks == blks && this.indexLay == indexLay
    {
      this.env, this.file, this.m, this.index, verifyChecksums := env, file, m, index, verify;
      this.start, this.blks, this.indexLay := start, blks, indexLay;
    }

    /** Decodes the block stored at `offset`; the checksum comparison cannot fail. */
    method GetBlock(offset: nat, ghost i: nat) returns (contents: Bytes)
      requires Valid() && i < |blks| && offset == blks[i].off
      ensures contents == env.decompress(blks[i].raw)
    {
      hide BlockImage, Frame, FrameAt, Separated, Sorted, Chained, AllEntries, VarintBytes, VarintValue, VarintSpan;
      assert BlockStored(env, file, blks[i]);
      FrameIsStored(env, file, blks[i].off, blks[i].raw);
      var raw, intact := ReadFrame(env, file, offset, verifyChecksums, blks[i].raw, env.crc(blks[i].raw));
      assert intact;
      contents := env.decompress(raw);
    }
  }

  /** Length, checksum, contents; with `verify` the stored checksum is compared, whatever it is. */
  method ReadFrame(env: Env, file: Bytes, offset: nat, verify: bool, ghost expected: Bytes, ghost crc: nat)
    returns (raw: Bytes, intact: bool)
    requires StoredAt(file, offset, expected, crc) && |expected| < TWO64 && crc < TWO32
    ensures raw == expected && (intact <==> !verify || crc == env.crc(expected))
  {
    hide VarintBytes, VarintValue, VarintSpan, FrameOf, StoredAt;
    FrameFields(file, offset, expected, crc);
    VarintRoundTrip(|expected|, file[offset..]);
    VarintLengths(|expected|);
    var size, sizeLen := VarintDecode64(file[offset..]);
    raw := file[offset + sizeLen + 4..offset + sizeLen + 4 + size];
    intact := true;
    if verify {
      Fixed32RoundTrip(crc, file[offset + sizeLen..]);
      var storedCrc := Decode32(file[offset + sizeLen..]);
      intact := storedCrc == env.crc(raw);
    }
  }

  lemma FrameIsStored(env: Env, file: Bytes, offset: nat, raw: Bytes)
    requires FrameAt(env, file, offset, raw)
    ensures StoredAt(file, offset, raw, env.crc(raw))
  {
    hide FrameOf;
  }

  lemma FrameFields(file: Bytes, offset: nat, raw: Bytes, crc: nat)
    requires StoredAt(file, offset, raw, crc)
    ensures var n := |VarintBytes(|raw|)|;
            && offset + n + 4 + |raw| <= |file|
            && VarintBytes(|raw|) <= file[offset..]
            && Fixed32(crc) <= file[offset + n..]
            && file[offset + n + 4..offset + n + 4 + |raw|] == raw
  {
    hide VarintBytes, FixedBytes;
    var v, c := VarintBytes(|raw|), Fixed32(crc);
    assert FrameOf(raw, crc) == v + (c + raw);
    SplitTwo(file, offset, v, c + raw);
    SplitTwo(file, offset + |v|, c, raw);
  }

  // ---------- opening a file ----------

  ghost predicate RejectedEarly(file: Bytes) {
    |file| < METADATA_SIZE
    || ReadMetadata(file[|file| - METADATA_SIZE..]).Rejected?
    || TooFar(ReadMetadata(file[|file| - METADATA_SIZE..]).m, |file|)
  }

  /** The index must leave room for the trailer and a minimal block, without 64-bit overflow. */
  predicate TooFar(m: Metadata, len: nat) {
    var end := m.indexBlockOffset + METADATA_SIZE + MinBlockLength(m.version);
    end >= TWO64 || end > len
  }

  /** The same on the bytes of the file. */
  lemma RejectedMeans(file: Bytes)
    requires |file| < TWO64
    ensures RejectedEarly(file) <==>
            || |file| < 512
            || (var n := |file|;
                var magic, indexOffset := Decode32(file[n - 4..]), Decode64(file[n - 512..]);
                || (magic != 0x7784_6676 && magic != 0x4D54_424C)
                || indexOffset + 512 + (if magic == 0x7784_6676 then 16 else 13) > n)
  {
    hide FixedValue;
    var n := |file|;
    if n >= 512 {
      var tail := file[n - 512..];
      assert tail[512 - 4..] == file[n - 4..] && tail[0..] == tail;
    }
  }

  /** A short file, a foreign trailer or an index offset out of range gives no
      reader; a file the writer finished always gives one. */
  method OpenReader(env: Env, file: Bytes, verify: bool,
                    ghost start: nat, ghost m: Metadata, ghost blks: seq<DataBlock>, ghost raw: Bytes, ghost lay: Layout)
    returns (r: Reader?)
    requires env.Ok() && |file| < TWO64
    requires RejectedEarly(file) || TableImage(env, file, start, m, blks, raw, lay)
    ensures r == null <==>
            || |file| < 512
            || (var n := |file|;
                var magic, indexOffset := Decode32(file[n - 4..]), Decode64(file[n - 512..]);
                || (magic != 0x7784_6676 && magic != 0x4D54_424C)
                || indexOffset + 512 + (if magic == 0x7784_6676 then 16 else 13) > n)
    ensures TableImage(env, file, start, m, blks, raw, lay) ==> r != null
    ensures r != null ==> r.Valid() && fresh(r) && r.env == env && r.file == file && r.m == m
                          && r.start == start && r.blks == blks && r.indexLay == lay
  {
    hide BlockImage, Frame, FrameAt, ReadMetadata, DataPart, FixedValue;
    RejectedMeans(file);
    if |file| < METADATA_SIZE { return null; }
    var md := ReadMetadata(file[|file| - METADATA_SIZE..]);
    if TableImage(env, file, start, m, blks, raw, lay) { MinimalIndex(env, file, start, m, blks, raw, lay); }
    if md.Rejected? { return null; }
    if TooFar(md.m, |file|) { return null; }
    ImageSize(raw, lay);
    FrameIsStored(env, file, m.indexBlockOffset, raw);
    var index, intact := ReadFrame(env, file, md.m.indexBlockOffset, verify, raw, env.crc(raw));
    assert intact;
    r := new Reader(env, file, md.m, index, verify, start, blks, lay);
  }

  lemma ImageSize(raw: Bytes, lay: Layout)
    requires BlockImage(raw, lay)
    ensures 8 <= |raw| < TWO64
  {
    BlockInitInfersWidth(raw, lay);
  }

  /** Even an empty table's index meets the reader's minimum. */
  lemma MinimalIndex(env: Env, file: Bytes, start: nat, m: Metadata, blks: seq<DataBlock>, raw: Bytes, lay: Layout)
    requires TableImage(env, file, start, m, blks, raw, lay) && |file| < TWO64
    ensures ReadMetadata(file[|file| - METADATA_SIZE..]) == Accepted(m)
    ensures m.indexBlockOffset + METADATA_SIZE + MinBlockLength(m.version) <= |file| && !RejectedEarly(file)
  {
    hide DataPart, ReadMetadata, ExactCounts, FrameAt;
    ImageSize(raw, lay);
  }

  // ---------- a finished table has the order the iterator relies on ----------

  lemma {:induction false} ChainedOffsets(env: Env, blks: seq<DataBlock>, start: nat, end: nat, i: nat, j: nat)
    requires Chained(env, blks, start, end) && i <= j < |blks|
    ensures start <= blks[i].off <= blks[j].off < end
    ensures i < j ==> blks[i].off < blks[j].off
  {
    hide Frame;
    var n := |blks| - 1;
    var init := blks[..n];
    if j < n {
      ChainedOffsets(env, init, start, blks[n].off, i, j);
    } else if i < n {
      ChainedOffsets(env, init, start, blks[n].off, i, n - 1);
    } else if n > 0 {
      ChainedOffsets(env, init, start, blks[n].off, 0, n - 1);
    }
  }

  lemma {:induction false} TableIsOrdered(r: Reader)
    requires r.Valid()
    ensures TableOrder(r.blks) && r.indexLay.ents == IndexEntries(r.blks)
  {
    hide Sorted, Separated, AllEntries, BlockImage, FrameAt, Frame, Chained, ReadMetadata;
    var blks := r.blks;
    forall i | 0 <= i < |blks| ensures |blks[i].lay.ents| > 0 { assert BlockStored(r.env, r.file, blks[i]); }
    forall i, j | 0 <= i < j < |blks| ensures blks[i].off < blks[j].off {
      ChainedOffsets(r.env, blks, r.start, r.m.indexBlockOffset, i, j);
    }
  }

  // ---------- the iterator ----------

  class ReaderIter {
    const r: Reader
    const indexIter: BlockIter
    const kind: Kind
    var bi: BlockIter?
    var blockOffset: nat
    var first: bool
    var valid: bool
    ghost var cached: int

    ghost predicate Valid()
      reads this, indexIter, bi
    {
      && r.Valid() && indexIter.Valid() && indexIter.lay == r.indexLay && |r.indexLay.ents| == |r.blks|
      && (bi == null <==> cached == -1) && -1 <= cached < |r.blks|
      && (bi != null ==> bi != indexIter && bi.Valid() && bi.lay == r.blks[cached].lay)
      && (valid ==> bi != null && indexIter.pos < |r.blks|)
    }

    ghost function State(): State
      requires Valid()
      reads this, indexIter, bi
    {
      ReaderModel.State(indexIter.pos, cached, if bi == null then 0 else bi.pos, first, valid, blockOffset)
    }

    constructor (r: Reader, kind: Kind, indexIter: BlockIter, bi: BlockIter)
      requires r.Valid() && indexIter.Valid() && indexIter.lay == r.indexLay && indexIter.pos < |r.blks| == |r.indexLay.ents|
      requires bi != indexIter && bi.Valid() && bi.lay == r.blks[indexIter.pos].lay
      ensures Valid() && this.r == r && this.kind == kind && this.indexIter == indexIter && this.bi == bi
      ensures State() == Start(r.blks, indexIter.pos, bi.pos, false)
    {
      this.r, this.kind, this.indexIter, this.bi := r, kind, indexIter, bi;
      blockOffset, first, valid, cached := 0, true, true, indexIter.pos;
    }

    method NeedsSeek(key: Bytes) returns (needs: bool)
      requires Valid()
      ensures WellTyped(r.blks, State()) && needs == NeedsIndexSeek(r.blks, State(), key)
    {
      hide BlockImage, DataPart;
      WellTypedState(this);
      TableIsOrdered(r);
      if first || bi == null { return true; }
      var ok, k, v := bi.Get();
      if !ok { return true; }
      if BytesCompare(k, key) > 0 { return true; }
      ok, k, v := indexIter.Get();
      if !ok { return true; }
      return BytesCompare(k, key) < 0;
    }

    method Seek(key: Bytes)
      requires Valid()
      modifies this`bi, this`blockOffset, this`first, this`valid, this`cached, indexIter, bi
      ensures Valid() && (bi == old(bi) || fresh(bi))
      ensures WellTyped(r.blks, old(State())) && State() == SeekStep(r.blks, old(State()), key)
    {
      hide BlockIter.Valid, TableImage, LowerBound, IndexBound, TableOrder, NeedsIndexSeek;
      WellTypedState(this);
      ghost var before := State();
      var needs := NeedsSeek(key);
      if needs { SeekIndex(r, indexIter, key); }
      assert indexIter.pos == TargetBlock(r.blks, before, key);
      var ok, _, _ := indexIter.Get();
      if !ok {
        valid := false;
        return;
      }
      LoadTarget();
      SeekBlock(r, bi, cached, key);
      first := true;
      valid := true;
    }

    /** Decodes the block under the index cursor unless the recorded offset is already its offset. */
    method LoadTarget()
      requires Valid() && indexIter.pos < |r.blks|
      modifies this`bi, this`blockOffset, this`cached
      ensures Valid() && bi != null && (bi == old(bi) || fresh(bi))
      ensures blockOffset == r.blks[indexIter.pos].off
      ensures cached == if old(bi) == null || old(blockOffset) != r.blks[indexIter.pos].off then indexIter.pos else old(cached)
    {
      hide BlockIter.Valid, TableImage;
      var newOffset := OffsetAtIndex(r, indexIter);
      if bi == null || blockOffset != newOffset {
        var b, _ := BlockAtIndex(r, indexIter);
        bi := b;
        blockOffset := newOffset;
        cached := indexIter.pos;
      }
    }

    method Next() returns (out: Option<Entry>)
      requires Valid()
      modifies this`bi, this`first, this`valid, this`cached, indexIter, bi
      ensures Valid() && (bi == old(bi) || bi == null || fresh(bi))
      ensures WellTyped(r.blks, old(State())) && (State(), out) == NextStep(r.blks, kind, false, old(State()))
    {
      hide BlockIter.Valid, TableImage, Passes;
      WellTypedState(this);
      if !valid { return None; }
      if !first { var _ := bi.Next(); }
      first := false;
      var ok, key, val := bi.Get();
      valid := ok;
      if !valid {
        ok, key, val := NextBlock();
        valid := ok;
        if !valid { return None; }
      }
      if !Passes(kind, key) { valid := false; }
      out := if valid then Some(Entry(key, val)) else None;
    }

    /** Drops the decoded block and moves to the first entry of the next one. */
    method NextBlock() returns (ok: bool, key: Bytes, val: Bytes)
      requires Valid() && !valid && indexIter.pos < |r.blks|
      modifies this`bi, this`cached, indexIter
      ensures Valid() && !valid && indexIter.pos == old(indexIter.pos) + 1
      ensures indexIter.pos == |r.blks| ==> !ok && bi == null
      ensures indexIter.pos < |r.blks| ==> bi != null && fresh(bi) && bi.pos == 0 && cached == indexIter.pos
      ensures indexIter.pos < |r.blks| ==> (ok <==> |r.blks[cached].lay.ents| > 0) && (ok ==> Entry(key, val) == r.blks[cached].lay.ents[0])
    {
      hide TableImage, BlockImage;
      ok, key, val := false, [], [];
      bi := null;
      cached := -1;
      var more := indexIter.Next();
      if !more { return; }
      var b, _ := BlockAtIndex(r, indexIter);
      b.SeekToFirst();
      bi := b;
      cached := indexIter.pos;
      ok, key, val := b.Get();
    }
  }

  lemma WellTypedState(it: ReaderIter)
    requires it.Valid()
    ensures WellTyped(it.r.blks, it.State())
  {
    hide BlockImage, TableImage;
  }

  /** Loads data block i through the index cursor standing on it. */
  method BlockAtIndex(r: Reader, indexIter: BlockIter) returns (bi: BlockIter, offset: nat)
    requires r.Valid() && indexIter.Valid() && indexIter.lay == r.indexLay && indexIter.pos < |r.blks| == |r.indexLay.ents|
    ensures bi.Valid() && fresh(bi) && bi.lay == r.blks[indexIter.pos].lay && bi.pos == |bi.lay.ents|
    ensures offset == r.blks[indexIter.pos].off
  {
    hide BlockImage, Frame, FrameAt, Separated, Sorted, Chained, AllEntries;
    ghost var i := indexIter.pos;
    offset := OffsetAtIndex(r, indexIter);
    var contents := r.GetBlock(offset, i);
    assert BlockStored(r.env, r.file, r.blks[i]);
    bi := new BlockIter(contents, r.blks[i].lay);
  }

  method OffsetAtIndex(r: Reader, indexIter: BlockIter) returns (offset: nat)
    requires r.Valid() && indexIter.Valid() && indexIter.lay == r.indexLay && indexIter.pos < |r.blks| == |r.indexLay.ents|
    ensures offset == r.blks[indexIter.pos].off
  {
    hide BlockImage, Frame, FrameAt, Separated, Sorted, Chained, AllEntries, VarintBytes, VarintSpan, VarintValue;
    ghost var i := indexIter.pos;
    var ok, ikey, ival := indexIter.Get();
    assert BlockStored(r.env, r.file, r.blks[i]);
    VarintRoundTrip(r.blks[i].off, ival);
    VarintLengths(r.blks[i].off);
    var len;
    offset, len := VarintDecode64(ival);
  }

  /** reader_iter: no iterator over an empty table, otherwise one on the first entry. */
  method IterAll(r: Reader) returns (it: ReaderIter?)
    requires r.Valid()
    ensures it == null <==> |r.blks| == 0
    ensures it != null ==> fresh(it) && it.Valid() && it.r == r && it.kind == All
                           && it.State() == Start(r.blks, 0, 0, false)
                           && fresh(it.indexIter) && it.bi != null && fresh(it.bi)
  {
    hide BlockImage, TableOrder, DataPart;
    TableIsOrdered(r);
    var indexIter := new BlockIter(r.index, r.indexLay);
    indexIter.SeekToFirst();
    var ok, _, _ := indexIter.Get();
    if !ok { return null; }
    var bi, _ := BlockAtIndex(r, indexIter);
    bi.SeekToFirst();
    it := new ReaderIter(r, All, indexIter, bi);
  }

  /** get, get_prefix and get_range: no iterator when every key is below `key`. */
  method Lookup(r: Reader, kind: Kind, key: Bytes) returns (it: ReaderIter?)
    requires r.Valid()
    ensures it == null <==> IndexBound(r.blks, key) == |r.blks|
    ensures it != null ==>
      var j := IndexBound(r.blks, key);
      && fresh(it) && it.Valid() && it.r == r && it.kind == kind
      && it.State() == Start(r.blks, j, LowerBound(r.blks[j].lay.ents, key), false)
      && fresh(it.indexIter) && it.bi != null && fresh(it.bi)
  {
    hide BlockImage, DataPart, LowerBound;
    TableIsOrdered(r);
    var indexIter := new BlockIter(r.index, r.indexLay);
    SeekIndex(r, indexIter, key);
    var ok, _, _ := indexIter.Get();
    if !ok { return null; }
    var bi, _ := BlockAtIndex(r, indexIter);
    SeekBlock(r, bi, indexIter.pos, key);
    it := new ReaderIter(r, kind, indexIter, bi);
  }

  method SeekIndex(r: Reader, indexIter: BlockIter, key: Bytes)
    requires r.Valid() && indexIter.Valid() && indexIter.lay == r.indexLay
    modifies indexIter
    ensures indexIter.Valid() && indexIter.pos == IndexBound(r.blks, key)
  {
    hide BlockImage, DataPart, LowerBound;
    TableIsOrdered(r);
    IndexSorted(r.blks);
    indexIter.Seek(key);
    LowerBoundIsLowerBound(r.indexLay.ents, key);
    LowerBoundUnique(r.indexLay.ents, key, indexIter.pos, IndexBound(r.blks, key));
  }

  method SeekBlock(r: Reader, bi: BlockIter, ghost c: nat, key: Bytes)
    requires r.Valid() && c < |r.blks| && bi.Valid() && bi.lay == r.blks[c].lay
    modifies bi
    ensures bi.Valid() && bi.pos == LowerBound(r.blks[c].lay.ents, key)
  {
    hide BlockImage, DataPart, LowerBound;
    TableIsOrdered(r);
    BlocksSorted(r.blks, c);
    bi.Seek(key);
    LowerBoundIsLowerBound(bi.lay.ents, key);
    LowerBoundUnique(bi.lay.ents, key, bi.pos, LowerBound(bi.lay.ents, key));
  }
}
