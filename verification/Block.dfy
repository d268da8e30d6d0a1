/** The block format and its builder (mtbl/block_builder.c).

    A block is a run of prefix-compressed entries, an array of restart offsets
    (32 or 64 bits wide, the width is not stored), and the restart count. */
module Block {
  import opened ByteOrder
  import opened Codec

  const UINT32_MAX: nat := 0xFFFF_FFFF

  /** What a block holds: its entries, how much of each key is shared with the
      previous one, where each entry starts (and the last one ends), and which
      entries are restart points. */
  datatype Layout = Layout(ents: seq<Entry>, shared: seq<nat>, offs: seq<nat>, rix: seq<nat>) {
    function End(): nat
      requires |offs| > 0
    {
      offs[|offs| - 1]
    }
  }

  const EMPTY_LAYOUT := Layout([], [], [0], [0])

  function EntryBytes(e: Entry, shared: nat): Bytes
    requires shared <= |e.key|
  {
    VarintBytes(shared) + VarintBytes(|e.key| - shared) + VarintBytes(|e.val|) + e.key[shared..] + e.val
  }

  predicate SharesPrefix(ents: seq<Entry>, shared: seq<nat>, i: nat)
    requires i < |ents| == |shared|
  {
    && shared[i] <= |ents[i].key|
    && (i == 0 ==> shared[i] == 0)
    && (i > 0 ==> shared[i] <= |ents[i - 1].key| && ents[i].key[..shared[i]] == ents[i - 1].key[..shared[i]])
  }

  predicate SmallEntry(e: Entry) { |e.key| < TWO32 && |e.val| < TWO32 }

  ghost predicate Shaped(lay: Layout) {
    && |lay.shared| == |lay.ents| && |lay.offs| == |lay.ents| + 1 && lay.offs[0] == 0
    && (forall i, j :: 0 <= i < j < |lay.offs| ==> lay.offs[i] < lay.offs[j])
  }

  ghost predicate EntryAt(data: Bytes, lay: Layout, i: nat)
    requires Shaped(lay) && i < |lay.ents| && lay.End() <= |data|
  {
    && SmallEntry(lay.ents[i]) && SharesPrefix(lay.ents, lay.shared, i)
    && data[lay.offs[i]..lay.offs[i + 1]] == EntryBytes(lay.ents[i], lay.shared[i])
  }

  ghost predicate Encoded(data: Bytes, lay: Layout) {
    Shaped(lay) && lay.End() <= |data|
    && forall i :: 0 <= i < |lay.ents| ==> EntryAt(data, lay, i)
  }

  ghost predicate RestartsIn(lay: Layout) {
    var n := |lay.ents|;
    && |lay.shared| == n
    && |lay.rix| > 0 && lay.rix[0] == 0
    && (forall j, k :: 0 <= j < k < |lay.rix| ==> lay.rix[j] < lay.rix[k])
    && (forall j :: 0 <= j < |lay.rix| ==> lay.rix[j] < n || (n == 0 && j == 0))
    && (forall j :: 0 <= j < |lay.rix| && n > 0 ==> lay.shared[lay.rix[j]] == 0)
  }

  /** Each entry that is not a restart point leaves out the longest prefix its key has in common with the key before. */
  ghost predicate PrefixesOut(lay: Layout) {
    && |lay.shared| == |lay.ents|
    && forall i :: 0 < i < |lay.ents| && i !in lay.rix ==> lay.shared[i] == CommonPrefix(lay.ents[i - 1].key, lay.ents[i].key)
  }

  /** Such prefixes are left out, and every `interval` entries there is a restart point. */
  ghost predicate Packed(interval: nat, lay: Layout) {
    && PrefixesOut(lay)
    && |lay.rix| > 0 && lay.rix[0] == 0 && |lay.ents| <= lay.rix[|lay.rix| - 1] + interval
    && forall j :: 0 < j < |lay.rix| ==> lay.rix[j] == lay.rix[j - 1] + interval
  }

  // ---------- finished blocks ----------

  function Width(end: nat): nat { if end > UINT32_MAX then 8 else 4 }

  function RestartBytes(restarts: seq<nat>, wide: bool): (r: Bytes)
    ensures |r| == if wide then 8 * |restarts| else 4 * |restarts|
  {
    if |restarts| == 0 then []
    else RestartBytes(restarts[..|restarts| - 1], wide) + Slot(restarts[|restarts| - 1], wide)
  }

  function Slot(offset: nat, wide: bool): (r: Bytes)
    ensures |r| == if wide then 8 else 4
  {
    if wide then Fixed64(offset) else Fixed32(offset)
  }

  function RestartAt(data: Bytes, end: nat, j: nat): nat
    requires end + Width(end) * j + Width(end) <= |data|
  {
    if end > UINT32_MAX then Decode64(data[end + 8 * j..]) else Decode32(data[end + 4 * j..])
  }

  /** `data` is a finished block with this content.  The bound on the number of
      restart points is the one under which the 32-bit index arithmetic of the
      reader cannot wrap. */
  ghost predicate BlockImage(data: Bytes, lay: Layout) {
    && Encoded(data, lay) && RestartsIn(lay)
    && |lay.rix| < 0x8000_0000
    && |data| == lay.End() + Width(lay.End()) * |lay.rix| + 4 < TWO64
    && Decode32(data[|data| - 4..]) == |lay.rix|
    && forall j :: 0 <= j < |lay.rix| ==>
         lay.End() + Width(lay.End()) * j + Width(lay.End()) <= |data| - 4
         && RestartAt(data, lay.End(), j) == lay.offs[lay.rix[j]]
  }

  // ---------- growing a layout by one entry ----------

  function Extended(lay: Layout, e: Entry, shared: nat, restart: bool): Layout
    requires |lay.offs| > 0 && shared <= |e.key|
  {
    Layout(lay.ents + [e], lay.shared + [shared],
           lay.offs + [lay.End() + |EntryBytes(e, shared)|],
           if restart then lay.rix + [|lay.ents|] else lay.rix)
  }

  lemma ExtendEncoded(data: Bytes, lay: Layout, e: Entry, shared: nat, restart: bool)
    requires Encoded(data, lay) && lay.End() == |data| && SmallEntry(e) && shared <= |e.key|
    requires |lay.ents| == 0 ==> shared == 0
    requires |lay.ents| > 0 ==>
      var prev := lay.ents[|lay.ents| - 1].key;
      shared <= |prev| && e.key[..shared] == prev[..shared]
    ensures Encoded(data + EntryBytes(e, shared), Extended(lay, e, shared, restart))
  {
    var data2 := data + EntryBytes(e, shared);
    var lay2 := Extended(lay, e, shared, restart);
    EntryBytesLength(e, shared);
    assert Shaped(lay2);
    forall i | 0 <= i < |lay2.ents| ensures EntryAt(data2, lay2, i) {
      if i < |lay.ents| {
        assert EntryAt(data, lay, i);
        SameBytesSameEntry(data, lay, data2, lay2, i);
      }
    }
  }

  lemma SameBytesSameEntry(data: Bytes, lay: Layout, data2: Bytes, lay2: Layout, i: nat)
    requires Shaped(lay) && i < |lay.ents| && lay.End() <= |data| && EntryAt(data, lay, i)
    requires Shaped(lay2) && lay2.End() <= |data2| && i < |lay2.ents|
    requires lay.ents <= lay2.ents && lay.shared <= lay2.shared && lay.offs <= lay2.offs
    requires lay.End() <= |data2| && data[..lay.End()] == data2[..lay.End()]
    ensures EntryAt(data2, lay2, i)
  {
    hide EntryBytes;
    var lo, hi := lay.offs[i], lay.offs[i + 1];
    assert hi <= lay.End();
    assert data[lo..hi] == data[..lay.End()][lo..hi];
    assert data2[lo..hi] == data2[..lay.End()][lo..hi];
  }

  lemma EntryBytesLength(e: Entry, shared: nat)
    requires shared <= |e.key| && SmallEntry(e)
    ensures 3 <= |EntryBytes(e, shared)| - (|e.key| - shared) - |e.val| <= 15
    ensures shared == 0 ==> |EntryBytes(e, shared)| <= 11 + |e.key| + |e.val|
  {
    VarintLengths(shared);
    VarintLengths(|e.key| - shared);
    VarintLengths(|e.val|);
  }

  // ---------- the builder ----------

  function LastKey(ents: seq<Entry>): Bytes { if |ents| == 0 then [] else ents[|ents| - 1].key }

  ghost predicate RestartsMatch(restarts: seq<nat>, lay: Layout)
    requires Shaped(lay) && RestartsIn(lay)
  {
    |restarts| == |lay.rix|
    && forall j :: 0 <= j < |restarts| ==> restarts[j] == lay.offs[lay.rix[j]]
  }

  ghost predicate Consistent(interval: nat, buf: Bytes, lastKey: Bytes, restarts: seq<nat>, counter: nat, lay: Layout) {
    && counter <= interval
    && Encoded(buf, lay) && RestartsIn(lay) && lay.End() == |buf|
    && RestartsMatch(restarts, lay)
    && |lay.ents| == lay.rix[|lay.rix| - 1] + counter
    && (forall j :: 0 < j < |lay.rix| ==> lay.rix[j] == lay.rix[j - 1] + interval)
    && lastKey == LastKey(lay.ents) && PrefixesOut(lay)
  }

  lemma ConsistentIsPacked(interval: nat, buf: Bytes, lastKey: Bytes, restarts: seq<nat>, counter: nat, lay: Layout)
    requires Consistent(interval, buf, lastKey, restarts, counter, lay)
    ensures Packed(interval, lay)
  {
    hide Encoded;
  }

  /** Adding an entry keeps the builder consistent, with or without a restart. */
  lemma AddKeepsConsistent(interval: nat, buf: Bytes, lastKey: Bytes, restarts: seq<nat>, counter: nat, lay: Layout,
                           e: Entry, shared: nat)
    requires interval >= 1 && Consistent(interval, buf, lastKey, restarts, counter, lay)
    requires SmallEntry(e) && shared == if counter == interval then 0 else CommonPrefix(lastKey, e.key)
    ensures var restart := counter == interval;
            var lay2 := Extended(lay, e, shared, restart);
            Consistent(interval, buf + EntryBytes(e, shared), e.key,
                       if restart then restarts + [|buf|] else restarts,
                       if restart then 1 else counter + 1, lay2)
  {
    hide EntryBytes, EntryAt, SharesPrefix, RestartsIn, RestartsMatch, SmallEntry;
    var restart := counter == interval;
    var lay2 := Extended(lay, e, shared, restart);
    SomeRestart(lay);
    ExtendPrefixes(lay, e, shared, restart);
    ExtendEncoded(buf, lay, e, shared, restart);
    ExtendRestarts(interval, lay, e, shared, counter);
    ExtendMatch(lay, e, shared, restart, restarts);
    forall j | 0 < j < |lay2.rix| ensures lay2.rix[j] == lay2.rix[j - 1] + interval {
      if j < |lay.rix| { assert lay.rix[j] == lay.rix[j - 1] + interval; }
    }
  }

  lemma ExtendPrefixes(lay: Layout, e: Entry, shared: nat, restart: bool)
    requires PrefixesOut(lay) && RestartsIn(lay) && |lay.offs| > 0 && shared <= |e.key|
    requires !restart ==> shared == CommonPrefix(LastKey(lay.ents), e.key)
    ensures PrefixesOut(Extended(lay, e, shared, restart))
  {
    hide EntryBytes, CommonPrefix;
    var lay2 := Extended(lay, e, shared, restart);
    forall i | 0 < i < |lay2.ents| && i !in lay2.rix
      ensures lay2.shared[i] == CommonPrefix(lay2.ents[i - 1].key, lay2.ents[i].key)
    {
      if restart { assert lay2.rix[|lay.rix|] == |lay.ents|; }
      assert i !in lay.rix;
    }
  }

  lemma SomeRestart(lay: Layout)
    requires RestartsIn(lay)
    ensures |lay.rix| > 0
    ensures |lay.ents| == 0 ==> lay.rix[|lay.rix| - 1] == 0
  {
  }

  lemma ExtendMatch(lay: Layout, e: Entry, shared: nat, restart: bool, restarts: seq<nat>)
    requires Shaped(lay) && RestartsIn(lay) && RestartsMatch(restarts, lay) && shared <= |e.key|
    requires Shaped(Extended(lay, e, shared, restart)) && RestartsIn(Extended(lay, e, shared, restart))
    ensures RestartsMatch(if restart then restarts + [lay.End()] else restarts, Extended(lay, e, shared, restart))
  {
    hide EntryBytes;
    var lay2 := Extended(lay, e, shared, restart);
    forall j | 0 <= j < |lay2.rix|
      ensures (if restart then restarts + [lay.End()] else restarts)[j] == lay2.offs[lay2.rix[j]]
    {
      if j < |lay.rix| { assert lay.rix[j] <= |lay.ents|; }
    }
  }

  lemma ExtendRestarts(interval: nat, lay: Layout, e: Entry, shared: nat, counter: nat)
    requires RestartsIn(lay) && Shaped(lay) && shared <= |e.key| && 1 <= interval
    requires counter <= interval && |lay.ents| == lay.rix[|lay.rix| - 1] + counter
    requires counter == interval ==> shared == 0
    requires |lay.ents| == 0 ==> shared == 0
    ensures RestartsIn(Extended(lay, e, shared, counter == interval))
  {
    hide EntryBytes;
    var lay2 := Extended(lay, e, shared, counter == interval);
    forall j | 0 <= j < |lay2.rix| ensures lay2.rix[j] < |lay2.ents| && lay2.shared[lay2.rix[j]] == 0 {
      if j < |lay.rix| && |lay.ents| > 0 { assert lay.shared[lay.rix[j]] == 0; }
    }
    forall j, k | 0 <= j < k < |lay2.rix| ensures lay2.rix[j] < lay2.rix[k] {
      if k == |lay.rix| && j < k - 1 { assert lay.rix[j] < lay.rix[k - 1]; }
    }
  }

  /** The builder's whole state and its two operations, as values.  A restart
      point stores the whole key; otherwise the longest prefix common with the
      previous key is left out. */
  datatype BuilderState = BuilderState(buf: Bytes, lastKey: Bytes, restarts: seq<nat>, counter: nat)

  const EMPTY_BUILDER := BuilderState([], [], [0], 0)

  function SharedLength(s: BuilderState, interval: nat, key: Bytes): (n: nat)
    ensures n <= |key|
  {
    if s.counter < interval then CommonPrefix(s.lastKey, key) else 0
  }

  function Added(s: BuilderState, interval: nat, e: Entry): BuilderState {
    var restart := s.counter >= interval;
    BuilderState(s.buf + EntryBytes(e, SharedLength(s, interval, e.key)), e.key,
                 if restart then s.restarts + [|s.buf|] else s.restarts,
                 if restart then 1 else s.counter + 1)
  }

  function Finished(s: BuilderState): Bytes {
    s.buf + RestartBytes(s.restarts, |s.buf| > UINT32_MAX) + Fixed32(|s.restarts|)
  }

  lemma EntryBytesParts(e: Entry, shared: nat)
    requires shared <= |e.key|
    ensures EntryBytes(e, shared) == VarintBytes(shared) + VarintBytes(|e.key| - shared) + VarintBytes(|e.val|)
                                     + e.key[shared..] + e.val
  {
  }

  class BlockBuilder {
    const interval: nat
    var buf: Bytes
    var lastKey: Bytes
    var restarts: seq<nat>
    var finished: bool
    var counter: nat
    ghost var lay: Layout

    ghost predicate Valid()
      reads this
    {
      interval >= 1 && Consistent(interval, buf, lastKey, restarts, counter, lay)
    }

    ghost function Entries(): seq<Entry>
      reads this
    {
      lay.ents
    }

    ghost function State(): BuilderState
      reads this
    {
      BuilderState(buf, lastKey, restarts, counter)
    }

    constructor (interval: nat)
      requires interval >= 1
      ensures Valid() && Entries() == [] && !finished && this.interval == interval
      ensures lay == EMPTY_LAYOUT && State() == EMPTY_BUILDER
    {
      this.interval := interval;
      buf, lastKey, restarts, finished, counter := [], [], [0], false, 0;
      lay := EMPTY_LAYOUT;
    }

    method Reset()
      requires interval >= 1
      modifies this
      ensures Valid() && Entries() == [] && !finished && lay == EMPTY_LAYOUT && State() == EMPTY_BUILDER
    {
      buf, lastKey, restarts, finished, counter := [], [], [0], false, 0;
      lay := EMPTY_LAYOUT;
    }

    predicate Empty()
      reads this
    {
      |buf| == 0
    }

    function SizeEstimate(): nat
      reads this
    {
      if |buf| > UINT32_MAX then |buf| + 8 * |restarts| + 4 else |buf| + 8 * |restarts| / 2 + 4
    }

    /** Appends one entry.  A restart point stores the whole key; otherwise the
        longest prefix common with the previous key is left out. */
    method Add(key: Bytes, val: Bytes)
      requires Valid() && !finished && |key| < TWO32 && |val| < TWO32
      modifies this
      ensures Valid() && !finished
      ensures Entries() == old(Entries()) + [Entry(key, val)]
      ensures !Empty()
      ensures |restarts| <= old(|restarts|) + 1
      ensures |buf| <= old(|buf|) + 15 + |key| + |val|
      // the caller's slack of 3*5 bytes covers the entry header and a new restart slot
      ensures old(SizeEstimate()) + 15 + |key| + |val| <= UINT32_MAX ==>
                SizeEstimate() <= old(SizeEstimate()) + 15 + |key| + |val|
      ensures State() == Added(old(State()), interval, Entry(key, val))
    {
      hide Consistent, Encoded, RestartsIn, EntryBytes, VarintBytes, CommonPrefix;
      ConsistentFacts(this);
      ghost var e := Entry(key, val);
      ghost var len := SharedLength(State(), interval, key);
      ghost var atRestart := counter == interval;
      AddKeepsConsistent(interval, buf, lastKey, restarts, counter, lay, e, len);
      EntryBytesLength(e, len);
      EntryBytesParts(e, len);
      ghost var extended := Extended(lay, e, len, atRestart);
      var shared := 0;
      if counter < interval {
        shared := SharedWithLast(lastKey, key);
      } else {
        restarts := restarts + [|buf|];
        counter := 0;
      }
      var b1 := VarintEncode32(shared);
      var b2 := VarintEncode32(|key| - shared);
      var b3 := VarintEncode32(|val|);
      buf := buf + (b1 + b2 + b3 + key[shared..] + val);
      lay := extended;
      lastKey := key;
      counter := counter + 1;
    }

    /** Appends the restart array and count and hands the bytes over. */
    method Finish() returns (data: Bytes)
      requires Valid() && !finished
      requires |restarts| < 0x8000_0000 && SizeEstimate() < TWO64
      modifies this
      ensures BlockImage(data, old(lay)) && Packed(interval, old(lay))
      ensures |data| == old(SizeEstimate()) && data == Finished(old(State()))
      ensures finished && buf == []
    {
      hide Encoded, RestartsIn, RestartsMatch, RestartBytes, Packed;
      ConsistentFacts(this);
      ConsistentIsPacked(interval, buf, lastKey, restarts, counter, lay);
      data := AppendRestarts(buf, restarts);
      FinishedImage(buf, lay, restarts, data);
      buf := [];
      finished := true;
    }
  }

  /** How much of `key` is already in the previous key. */
  method SharedWithLast(lastKey: Bytes, key: Bytes) returns (shared: nat)
    ensures shared == CommonPrefix(lastKey, key)
  {
    shared := 0;
    var minLength := if |lastKey| > |key| then |key| else |lastKey|;
    while shared < minLength && lastKey[shared] == key[shared]
      invariant shared <= minLength && lastKey[..shared] == key[..shared]
    {
      shared := shared + 1;
    }
    CommonPrefixUnique(lastKey, key, shared);
  }

  method AppendRestarts(buf: Bytes, restarts: seq<nat>) returns (data: Bytes)
    requires |restarts| < TWO32
    ensures data == buf + RestartBytes(restarts, |buf| > UINT32_MAX) + Fixed32(|restarts|)
    ensures |data| == if |buf| > 0xFFFF_FFFF then |buf| + 8 * |restarts| + 4 else |buf| + 4 * |restarts| + 4
  {
    hide RestartBytes, FixedBytes;
    var restart64 := |buf| > UINT32_MAX;
    assert restarts[..0] == [] && RestartBytes([], restart64) == [] by { NoRestartBytes(restart64); }
    data := buf;
    var i := 0;
    while i < |restarts|
      invariant i <= |restarts|
      invariant data == buf + RestartBytes(restarts[..i], restart64)
    {
      RestartBytesSnoc(restarts, i, restart64);
      var slot := if restart64 then Fixed64(restarts[i]) else Fixed32(restarts[i]);
      assert data + slot == buf + (RestartBytes(restarts[..i], restart64) + slot);
      data := data + slot;
      i := i + 1;
    }
    assert restarts[..i] == restarts;
    data := data + Fixed32(|restarts|);
  }

  /** There are no more restart points than entries (one when there are none). */
  lemma {:induction false} RestartsWithinEntries(lay: Layout, j: nat)
    requires RestartsIn(lay) && j < |lay.rix|
    ensures j <= lay.rix[j]
    ensures |lay.ents| > 0 ==> j < |lay.ents|
    ensures |lay.ents| == 0 ==> |lay.rix| == 1
  {
    if j > 0 {
      RestartsWithinEntries(lay, j - 1);
      assert lay.rix[j - 1] < lay.rix[j];
    }
    if |lay.rix| > 1 { var _ := lay.rix[1]; }
  }

  lemma ConsistentFacts(b: BlockBuilder)
    requires b.Valid()
    ensures b.counter <= b.interval && |b.restarts| == |b.lay.rix| && |b.lay.offs| > 0
    ensures b.counter == 0 ==> b.lastKey == []
    ensures Encoded(b.buf, b.lay) && RestartsIn(b.lay) && RestartsMatch(b.restarts, b.lay)
    ensures |b.lay.shared| == |b.lay.ents| && b.lay.End() == |b.buf| && b.lastKey == LastKey(b.lay.ents)
  {
  }

  lemma NoRestartBytes(wide: bool)
    ensures RestartBytes([], wide) == []
  {
  }

  lemma RestartBytesSnoc(restarts: seq<nat>, i: nat, wide: bool)
    requires i < |restarts|
    ensures RestartBytes(restarts[..i + 1], wide) == RestartBytes(restarts[..i], wide) + Slot(restarts[i], wide)
  {
    assert restarts[..i + 1][..i] == restarts[..i];
  }

  lemma FinishedImage(buf: Bytes, lay: Layout, restarts: seq<nat>, data: Bytes)
    requires Encoded(buf, lay) && RestartsIn(lay) && lay.End() == |buf|
    requires RestartsMatch(restarts, lay) && |restarts| < 0x8000_0000
    requires |data| < TWO64
    requires data == buf + RestartBytes(restarts, |buf| > UINT32_MAX) + Fixed32(|restarts|)
    ensures BlockImage(data, lay)
  {
    hide EntryBytes, RestartBytes, RestartAt;
    forall i | 0 <= i < |lay.ents| ensures EntryAt(data, lay, i) {
      assert EntryAt(buf, lay, i);
      SameBytesSameEntry(buf, lay, data, lay, i);
    }
    assert data[|data| - 4..] == Fixed32(|restarts|);
    Fixed32RoundTrip(|restarts|, data[|data| - 4..]);
    forall j | 0 <= j < |lay.rix|
      ensures |buf| + Width(|buf|) * j + Width(|buf|) <= |data| - 4
      ensures RestartAt(data, |buf|, j) == lay.offs[lay.rix[j]]
    {
      assert lay.offs[lay.rix[j]] <= |buf|;
      RestartSlot(buf, restarts, j, data);
    }
  }

  lemma RestartSlot(buf: Bytes, restarts: seq<nat>, j: nat, data: Bytes)
    requires j < |restarts| && restarts[j] <= |buf| <= |data| < TWO64
    requires buf + RestartBytes(restarts, |buf| > UINT32_MAX) <= data
    ensures |buf| + Width(|buf|) * j + Width(|buf|) <= |buf + RestartBytes(restarts, |buf| > UINT32_MAX)| <= |data|
    ensures RestartAt(data, |buf|, j) == restarts[j]
  {
    hide RestartBytes, Slot;
    var wide := |buf| > UINT32_MAX;
    var at := if wide then 8 * j else 4 * j;
    var all := RestartBytes(restarts, wide);
    SlotPosition(restarts, wide, j);
    var slot := data[|buf| + at..];
    assert data[|buf|..|buf| + |all|] == all;
    assert slot[..Width(|buf|)] == data[|buf|..|buf| + |all|][at..at + Width(|buf|)];
    SlotDecodes(restarts[j], wide, slot);
  }

  lemma SlotDecodes(offset: nat, wide: bool, data: Bytes)
    requires Slot(offset, wide) <= data && offset < TWO64 && (!wide ==> offset < TWO32)
    ensures (if wide then Decode64(data) else Decode32(data)) == offset
  {
    if wide { Fixed64RoundTrip(offset, data); } else { Fixed32RoundTrip(offset, data); }
  }

  lemma {:induction false} SlotPosition(restarts: seq<nat>, wide: bool, j: nat)
    requires j < |restarts|
    ensures var at := if wide then 8 * j else 4 * j;
            var w := if wide then 8 else 4;
            RestartBytes(restarts, wide)[at..at + w] == Slot(restarts[j], wide)
  {
    hide Slot;
    var last := |restarts| - 1;
    if j < last {
      SlotPosition(restarts[..last], wide, j);
      var at := if wide then 8 * j else 4 * j;
      var w := if wide then 8 else 4;
      SliceOfPrefix(RestartBytes(restarts[..last], wide), Slot(restarts[last], wide), at, at + w);
    }
  }

  lemma SliceOfPrefix(a: Bytes, b: Bytes, lo: nat, hi: nat)
    requires lo <= hi <= |a|
    ensures (a + b)[lo..hi] == a[lo..hi]
  {
  }
}
