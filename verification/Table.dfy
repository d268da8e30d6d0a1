/** What a finished table file is: framed data blocks, an index block of
    separator keys and block offsets, and the metadata trailer. */
module Table {
  import opened ByteOrder
  import opened Codec
  import opened Block
  import opened Metadata

  /** The compression library and the checksum, as functions. */
  datatype Env = Env(compress: Bytes -> Bytes, decompress: Bytes -> Bytes, crc: Bytes -> nat) {
    ghost predicate Ok() {
      && (forall x: Bytes :: decompress(compress(x)) == x)
      && (forall x: Bytes :: |compress(x)| <= 2 * |x| + 1024)
      && (forall x: Bytes :: crc(x) < TWO32)
    }
  }

  /** Length, checksum, contents. */
  function FrameOf(raw: Bytes, crc: nat): (r: Bytes)
    ensures |r| >= 5 + |raw|
  {
    VarintBytes(|raw|) + Fixed32(crc) + raw
  }

  function Frame(env: Env, raw: Bytes): (r: Bytes)
    ensures |r| >= 5 + |raw|
  {
    FrameOf(raw, env.crc(raw))
  }

  ghost predicate StoredAt(file: Bytes, off: nat, raw: Bytes, crc: nat) {
    off + |FrameOf(raw, crc)| <= |file| && file[off..off + |FrameOf(raw, crc)|] == FrameOf(raw, crc)
  }

  ghost predicate FrameAt(env: Env, file: Bytes, off: nat, raw: Bytes) {
    off + |Frame(env, raw)| <= |file| && file[off..off + |Frame(env, raw)|] == Frame(env, raw)
  }

  datatype DataBlock = DataBlock(lay: Layout, raw: Bytes, sep: Bytes, off: nat)

  ghost predicate BlockStored(env: Env, file: Bytes, b: DataBlock) {
    && |b.raw| < TWO64 && b.off < TWO64 && |b.lay.ents| > 0
    && FrameAt(env, file, b.off, b.raw)
    && BlockImage(env.decompress(b.raw), b.lay)
  }

  /** Each separator bounds its own block from above and every later block strictly from below. */
  ghost predicate Separated(blks: seq<DataBlock>) {
    && (forall i, p :: 0 <= i < |blks| && 0 <= p < |blks[i].lay.ents| ==> !Less(blks[i].sep, blks[i].lay.ents[p].key))
    && (forall i, j, p :: 0 <= i < j < |blks| && 0 <= p < |blks[j].lay.ents| ==> Less(blks[i].sep, blks[j].lay.ents[p].key))
  }

  /** Blocks stand back to back, starting at `start` and ending at `end`. */
  ghost predicate Chained(env: Env, blks: seq<DataBlock>, start: nat, end: nat) {
    if |blks| == 0 then start == end
    else
      var last := blks[|blks| - 1];
      last.off + |Frame(env, last.raw)| == end && Chained(env, blks[..|blks| - 1], start, last.off)
  }

  function AllEntries(blks: seq<DataBlock>): seq<Entry> {
    if |blks| == 0 then [] else AllEntries(blks[..|blks| - 1]) + blks[|blks| - 1].lay.ents
  }

  function IndexEntry(b: DataBlock): Entry { Entry(b.sep, VarintBytes(b.off)) }

  function IndexEntries(blks: seq<DataBlock>): (es: seq<Entry>)
    ensures |es| == |blks| && forall i :: 0 <= i < |blks| ==> es[i] == IndexEntry(blks[i])
  {
    if |blks| == 0 then [] else IndexEntries(blks[..|blks| - 1]) + [IndexEntry(blks[|blks| - 1])]
  }

  function KeyBytes(es: seq<Entry>): nat {
    if |es| == 0 then 0 else KeyBytes(es[..|es| - 1]) + |es[|es| - 1].key|
  }

  function ValueBytes(es: seq<Entry>): nat {
    if |es| == 0 then 0 else ValueBytes(es[..|es| - 1]) + |es[|es| - 1].val|
  }

  /** Everything the data part of a file promises. */
  ghost predicate DataPart(env: Env, file: Bytes, start: nat, end: nat, blks: seq<DataBlock>) {
    && (forall i :: 0 <= i < |blks| ==> BlockStored(env, file, blks[i]))
    && Chained(env, blks, start, end) && start <= end <= |file|
    && Separated(blks) && Sorted(AllEntries(blks))
  }

  /** `file` is a finished table holding `blks`, with exact counts in its trailer. */
  ghost predicate TableImage(env: Env, file: Bytes, start: nat, m: Metadata, blks: seq<DataBlock>, indexRaw: Bytes, index: Layout) {
    && DataPart(env, file, start, m.indexBlockOffset, blks)
    && BlockImage(indexRaw, index) && index.ents == IndexEntries(blks)
    && FrameAt(env, file, m.indexBlockOffset, indexRaw)
    && m.Fits() && m.version == V2
    && |file| == m.indexBlockOffset + |Frame(env, indexRaw)| + METADATA_SIZE
    && ReadMetadata(file[|file| - METADATA_SIZE..]) == Accepted(m)
    && ExactCounts(env, start, m, blks, indexRaw)
  }

  ghost predicate ExactCounts(env: Env, start: nat, m: Metadata, blks: seq<DataBlock>, indexRaw: Bytes) {
    && m.countEntries == |AllEntries(blks)|
    && m.countDataBlocks == |blks|
    && m.bytesDataBlocks == m.indexBlockOffset - start
    && m.bytesIndexBlock == |Frame(env, indexRaw)|
    && m.bytesKeys == KeyBytes(AllEntries(blks))
    && m.bytesValues == ValueBytes(AllEntries(blks))
  }

  // ---------- appending keeps what is there ----------

  lemma FrameStays(env: Env, file: Bytes, more: Bytes, off: nat, raw: Bytes)
    requires FrameAt(env, file, off, raw)
    ensures FrameAt(env, file + more, off, raw)
  {
    hide Frame;
    var n := |Frame(env, raw)|;
    assert (file + more)[off..off + n] == file[off..off + n];
  }

  lemma BlocksStay(env: Env, file: Bytes, more: Bytes, start: nat, end: nat, blks: seq<DataBlock>)
    requires DataPart(env, file, start, end, blks)
    ensures DataPart(env, file + more, start, end, blks)
  {
    hide FrameAt, BlockImage, Separated, Sorted, Chained;
    forall i | 0 <= i < |blks| ensures BlockStored(env, file + more, blks[i]) {
      assert BlockStored(env, file, blks[i]);
      FrameStays(env, file, more, blks[i].off, blks[i].raw);
    }
  }

  lemma {:induction false} AllEntriesFrom(blks: seq<DataBlock>, e: Entry) returns (i: nat, p: nat)
    requires e in AllEntries(blks)
    ensures i < |blks| && p < |blks[i].lay.ents| && blks[i].lay.ents[p] == e
  {
    var n := |blks| - 1;
    if e in blks[n].lay.ents {
      i := n;
      p :| 0 <= p < |blks[n].lay.ents| && blks[n].lay.ents[p] == e;
    } else {
      i, p := AllEntriesFrom(blks[..n], e);
    }
  }

  lemma {:induction false} BlockEntriesInAll(blks: seq<DataBlock>, i: nat, p: nat)
    requires i < |blks| && p < |blks[i].lay.ents|
    ensures blks[i].lay.ents[p] in AllEntries(blks)
  {
    if i < |blks| - 1 { BlockEntriesInAll(blks[..|blks| - 1], i, p); }
  }
}
