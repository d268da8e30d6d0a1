/** Reading a block: width inference, entry decoding and the cursor (mtbl/block.c). */
module BlockIter {
  import opened ByteOrder
  import opened Codec
  import opened Block

  newtype uint32 = x: int | 0 <= x < 0x1_0000_0000

  // ---------- opening a block ----------

  datatype Opened = Opened(data: Bytes, size: nat, restartOffset: int)

  function NumRestarts(data: Bytes): nat
    requires |data| >= 4
  {
    Decode32(data[|data| - 4..])
  }

  function Increment32(n: nat): nat { if n == TWO32 - 1 then 0 else n + 1 }

  function Subtract64(a: nat, b: nat): int { if a >= b then a - b else a - b + TWO64 }

  /** The width of the restart array is inferred: 32-bit slots are assumed
      unless that would put the array past offset 2^32 - 1.  The arithmetic is
      unsigned: the count wraps at 32 bits and offsets at 64. */
  function BlockInit(data: Bytes): Opened
    requires |data| < 4 || |data| >= 8
  {
    var size := |data|;
    if size < 4 then Opened(data, 0, 0)
    else
      var n := NumRestarts(data);
      var narrow := Subtract64(size, 4 * Increment32(n));
      var wide := Subtract64(size, 4 + 8 * n);
      var end := if narrow > UINT32_MAX then wide else narrow;
      var malformed := (narrow > UINT32_MAX && wide <= UINT32_MAX) || end > size - 4;
      Opened(data, if malformed then 0 else size, end)
  }

  /** The reader infers exactly the width the builder chose. */
  lemma BlockInitInfersWidth(data: Bytes, lay: Layout)
    requires BlockImage(data, lay)
    ensures |data| >= 8
    ensures BlockInit(data) == Opened(data, |data|, lay.End())
    ensures NumRestarts(data) == |lay.rix|
  {
    hide Encoded, RestartsIn, RestartAt;
    assert Shaped(lay) && |lay.rix| > 0 by { ImageFacts(data, lay); }
    if lay.End() > UINT32_MAX {
      assert |data| == lay.End() + 8 * |lay.rix| + 4;
    } else {
      assert |data| == lay.End() + 4 * |lay.rix| + 4;
    }
  }

  /** Any other bytes are an empty block, unless their restart array fits with slots of one width or the other. */
  lemma BlockInitAcceptsIff(data: Bytes)
    requires 8 <= |data| < TWO64
    ensures var b, n := BlockInit(data), Decode32(data[|data| - 4..]);
            var narrow, wide := |data| - 4 - 4 * n, |data| - 4 - 8 * n;
            && (b.size == |data| <==> (n < UINT32_MAX && 0 <= narrow <= UINT32_MAX) || wide > UINT32_MAX)
            && (b.size != |data| ==> b.size == 0)
            && (b.size == |data| ==> b.restartOffset == if narrow <= UINT32_MAX then narrow else wide)
  {
    Decode32Below(data[|data| - 4..]);
    hide FixedValue;
  }

  lemma ImageFacts(data: Bytes, lay: Layout)
    requires BlockImage(data, lay)
    ensures Shaped(lay) && lay.End() <= |data| && 0 < |lay.rix| < 0x8000_0000
    ensures lay.rix[0] == 0
    ensures forall i, j :: 0 <= i <= j < |lay.offs| ==> lay.offs[i] <= lay.offs[j] <= lay.End()
    ensures forall j :: 0 <= j < |lay.rix| ==> lay.rix[j] <= |lay.ents|
    ensures |lay.ents| > 0 ==> forall j :: 0 <= j < |lay.rix| ==> lay.rix[j] < |lay.ents|
  {
    hide EntryAt, RestartAt;
  }

  // ---------- decoding one entry ----------

  datatype Decoded = NoEntry | Header(at: nat, shared: nat, nonShared: nat, valLen: nat)

  /** An entry starts at `off` and ends no later than `limit`. */
  ghost predicate EntryStarts(data: Bytes, off: nat, limit: nat, e: Entry, shared: nat) {
    && off <= limit <= |data| && SmallEntry(e) && shared <= |e.key|
    && off + |EntryBytes(e, shared)| <= limit
    && data[off..off + |EntryBytes(e, shared)|] == EntryBytes(e, shared)
  }

  ghost function HeaderLength(e: Entry, shared: nat): nat
    requires shared <= |e.key|
  {
    |VarintBytes(shared)| + |VarintBytes(|e.key| - shared)| + |VarintBytes(|e.val|)|
  }

  lemma EntryParts(data: Bytes, off: nat, limit: nat, e: Entry, shared: nat)
    requires EntryStarts(data, off, limit, e, shared)
    ensures var a := off + |VarintBytes(shared)|;
            var b := a + |VarintBytes(|e.key| - shared)|;
            var c := b + |VarintBytes(|e.val|)|;
            && c == off + HeaderLength(e, shared) && c + |e.key| - shared + |e.val| <= limit
            && c + |e.key| - shared + |e.val| == off + |EntryBytes(e, shared)|
            && VarintBytes(shared) <= data[off..]
            && VarintBytes(|e.key| - shared) <= data[a..]
            && VarintBytes(|e.val|) <= data[b..]
            && data[c..c + |e.key| - shared] == e.key[shared..]
            && data[c + |e.key| - shared..c + |e.key| - shared + |e.val|] == e.val
  {
    hide VarintBytes;
    var x, y, z := VarintBytes(shared), VarintBytes(|e.key| - shared), VarintBytes(|e.val|);
    SplitFive(data, off, x, y, z, e.key[shared..], e.val);
  }

  lemma SplitFive(data: Bytes, off: nat, x: Bytes, y: Bytes, z: Bytes, s: Bytes, v: Bytes)
    requires off + |x + y + z + s + v| <= |data|
    requires data[off..off + |x + y + z + s + v|] == x + y + z + s + v
    ensures x <= data[off..] && y <= data[off + |x|..] && z <= data[off + |x| + |y|..]
    ensures var c := off + |x| + |y| + |z|; data[c..c + |s|] == s && data[c + |s|..c + |s| + |v|] == v
  {
    assert x + y + z + s + v == x + (y + (z + (s + v)));
    SplitTwo(data, off, x, y + (z + (s + v)));
    SplitTwo(data, off + |x|, y, z + (s + v));
    SplitTwo(data, off + |x| + |y|, z, s + v);
    SplitTwo(data, off + |x| + |y| + |z|, s, v);
  }

  lemma SplitTwo(data: Bytes, off: nat, x: Bytes, rest: Bytes)
    requires off + |x + rest| <= |data| && data[off..off + |x + rest|] == x + rest
    ensures x <= data[off..] && data[off..off + |x|] == x
    ensures data[off + |x|..off + |x| + |rest|] == rest
  {
    var whole := data[off..off + |x + rest|];
    assert data[off..off + |x|] == whole[..|x|] == x;
    assert data[off + |x|..off + |x| + |rest|] == whole[|x|..] == rest;
  }

  /** Small headers take the three-byte path; the result is the same either way. */
  method DecodeEntry(data: Bytes, off: nat, limit: nat, ghost e: Entry, ghost shared: nat) returns (d: Decoded)
    requires off <= limit <= |data|
    requires limit - off >= 3 ==> EntryStarts(data, off, limit, e, shared)
    ensures limit - off < 3 ==> d == NoEntry
    ensures limit - off >= 3 ==> d == Header(off + HeaderLength(e, shared), shared, |e.key| - shared, |e.val|)
  {
    if limit - off < 3 { return NoEntry; }
    var p0, p1, p2 := data[off], data[off + 1], data[off + 2];
    if p0 < 128 && p1 < 128 && p2 < 128 {
      ThreeByteHeader(data, off, limit, e, shared);
      d := Header(off + 3, p0, p1, p2);
    } else {
      d := DecodeLongHeader(data, off, limit, e, shared);
    }
  }

  lemma ThreeByteHeader(data: Bytes, off: nat, limit: nat, e: Entry, shared: nat)
    requires EntryStarts(data, off, limit, e, shared) && limit - off >= 3
    requires data[off] < 128 && data[off + 1] < 128 && data[off + 2] < 128
    ensures HeaderLength(e, shared) == 3
    ensures data[off] == shared && data[off + 1] == |e.key| - shared && data[off + 2] == |e.val|
  {
    hide VarintBytes, EntryStarts;
    EntryParts(data, off, limit, e, shared);
    EntrySizes(data, off, limit, e, shared);
    OneByte(shared, data[off..]);
    OneByte(|e.key| - shared, data[off + 1..]);
    OneByte(|e.val|, data[off + 2..]);
  }

  method DecodeLongHeader(data: Bytes, off: nat, limit: nat, ghost e: Entry, ghost shared: nat) returns (d: Decoded)
    requires EntryStarts(data, off, limit, e, shared)
    ensures d == Header(off + HeaderLength(e, shared), shared, |e.key| - shared, |e.val|)
  {
    hide VarintBytes, EntryStarts;
    EntryParts(data, off, limit, e, shared);
    EntrySizes(data, off, limit, e, shared);
    var p := off;
    var sh, len := Decode32At(data, p, shared);
    p := p + len;
    var ns;
    ns, len := Decode32At(data, p, |e.key| - shared);
    p := p + len;
    var vl;
    vl, len := Decode32At(data, p, |e.val|);
    p := p + len;
    d := Header(p, sh, ns, vl);
  }

  lemma EntrySizes(data: Bytes, off: nat, limit: nat, e: Entry, shared: nat)
    requires EntryStarts(data, off, limit, e, shared)
    ensures shared < TWO32 && |e.key| - shared < TWO32 && |e.val| < TWO32 && shared <= |e.key|
    ensures off <= limit <= |data|
  {
  }

  lemma OneByte(v: nat, data: Bytes)
    requires VarintBytes(v) <= data && data[0] < 128
    ensures v == data[0] && |VarintBytes(v)| == 1
  {
    assert VarintBytes(v)[0] == data[0];
  }

  method Decode32At(data: Bytes, p: nat, ghost v: nat) returns (value: nat, len: nat)
    requires p <= |data| && v < TWO32 && VarintBytes(v) <= data[p..]
    ensures value == v && len == |VarintBytes(v)|
  {
    hide VarintBytes, VarintValue, VarintSpan;
    VarintRoundTrip(v, data[p..]);
    VarintLengths(v);
    value, len := VarintDecode32(data[p..]);
  }

  // ---------- the cursor ----------

  /** The cursor a block iterator implements: an entry position, or |ents| when
      it is not on an entry. */
  class BlockIter {
    const block: Opened
    const numRestarts: uint32
    var current: nat
    var restartIndex: uint32
    var next: nat
    var key: Bytes
    var val: Bytes
    ghost const lay: Layout
    ghost var pos: nat

    ghost predicate OverBlock() {
      BlockImage(block.data, lay) && block.restartOffset == lay.End() && numRestarts as nat == |lay.rix|
    }

    /** On an entry, `restartIndex` may lag by one: the next restart point is at
        or after the current entry, not strictly after it. */
    ghost predicate Valid()
      reads this
    {
      && OverBlock() && pos <= |lay.ents|
      && (pos == |lay.ents| ==> current == block.restartOffset && restartIndex == numRestarts)
      && (pos < |lay.ents| ==>
            && current == lay.offs[pos] && next == lay.offs[pos + 1]
            && key == lay.ents[pos].key && val == lay.ents[pos].val
            && restartIndex < numRestarts && lay.rix[restartIndex] <= pos
            && (restartIndex + 1 < numRestarts ==> pos <= lay.rix[restartIndex + 1]))
    }

    /** Ready to parse entry i: `next` is there and `key` holds what it shares. */
    ghost predicate Primed(i: nat)
      reads this
    {
      && OverBlock() && i <= |lay.ents| && next == lay.offs[i]
      && restartIndex < numRestarts && lay.rix[restartIndex] <= i
      && (i < |lay.ents| ==> lay.shared[i] <= |key| && lay.shared[i] <= |lay.ents[i].key|
                             && key[..lay.shared[i]] == lay.ents[i].key[..lay.shared[i]])
    }

    constructor (data: Bytes, ghost lay: Layout)
      requires BlockImage(data, lay)
      ensures Valid() && pos == |lay.ents| && this.lay == lay && block == BlockInit(data)
    {
      BlockInitInfersWidth(data, lay);
      ImageFacts(data, lay);
      this.lay := lay;
      block := BlockInit(data);
      numRestarts := NumRestarts(data) as uint32;
      current := BlockInit(data).restartOffset;
      restartIndex := NumRestarts(data) as uint32;
      next, key, val := 0, [], [];
      pos := |lay.ents|;
    }

    predicate OnEntry()
      reads this
    {
      current < block.restartOffset
    }

    method GetRestartPoint(idx: uint32) returns (off: nat)
      requires OverBlock() && idx < numRestarts
      ensures off == lay.offs[lay.rix[idx]]
    {
      off := RestartAt(block.data, block.restartOffset, idx as nat);
    }

    method SeekToRestartPoint(idx: uint32)
      requires OverBlock() && idx < numRestarts
      modifies this`key, this`restartIndex, this`next
      ensures Primed(lay.rix[idx]) && restartIndex == idx
    {
      hide BlockImage;
      RestartFacts(block.data, lay, idx as nat);
      key := [];
      restartIndex := idx;
      next := GetRestartPoint(idx);
    }

    /** Steps onto entry i, or off the end. */
    method ParseNextKey(ghost i: nat) returns (ok: bool)
      requires Primed(i)
      modifies this
      ensures Valid() && pos == i && (ok <==> i < |lay.ents|)
    {
      hide BlockImage;
      PrimedFacts(this, i);
      current := next;
      pos := i;
      if current >= block.restartOffset {
        current := block.restartOffset;
        restartIndex := numRestarts;
        return false;
      }
      LoadEntry(i);
      CatchUp(i);
      ok := true;
    }

    method LoadEntry(ghost i: nat)
      requires OverBlock() && i < |lay.ents| && |lay.offs| == |lay.ents| + 1 && |lay.shared| == |lay.ents|
      requires current == lay.offs[i]
      requires lay.shared[i] <= |key| && lay.shared[i] <= |lay.ents[i].key|
      requires key[..lay.shared[i]] == lay.ents[i].key[..lay.shared[i]]
      modifies this`key, this`val, this`next
      ensures next == lay.offs[i + 1] && key == lay.ents[i].key && val == lay.ents[i].val
    {
      hide BlockImage, EntryStarts, EntryBytes, VarintBytes;
      EntryFacts(block.data, lay, i);
      ghost var e, shared := lay.ents[i], lay.shared[i];
      EntryParts(block.data, current, block.restartOffset, e, shared);
      EntrySizes(block.data, current, block.restartOffset, e, shared);
      var d := DecodeEntry(block.data, current, block.restartOffset, e, shared);
      var p := d.at;
      key := key[..d.shared] + block.data[p..p + d.nonShared];
      assert key == e.key[..shared] + e.key[shared..] == e.key;
      next := p + d.nonShared + d.valLen;
      val := block.data[p + d.nonShared..p + d.nonShared + d.valLen];
    }

    /** Advances `restartIndex` while the next restart point is strictly before the current entry. */
    method CatchUp(ghost i: nat)
      requires OverBlock() && i < |lay.ents| && |lay.offs| == |lay.ents| + 1 && current == lay.offs[i]
      requires restartIndex < numRestarts && lay.rix[restartIndex] <= i
      modifies this`restartIndex
      ensures restartIndex < numRestarts && lay.rix[restartIndex] <= i
      ensures restartIndex + 1 < numRestarts ==> i <= lay.rix[restartIndex + 1]
    {
      hide BlockImage;
      while restartIndex + 1 < numRestarts
        invariant restartIndex < numRestarts && lay.rix[restartIndex] <= i
        decreases numRestarts - restartIndex
      {
        RestartOrder(block.data, lay, restartIndex as nat + 1, i);
        var following := GetRestartPoint(restartIndex + 1);
        if following >= current { break; }
        restartIndex := restartIndex + 1;
      }
    }

    method SeekToFirst()
      requires OverBlock()
      modifies this
      ensures Valid() && pos == 0
    {
      assert lay.rix[0] == 0 by { ImageFacts(block.data, lay); }
      assert |lay.rix| > 0 by { ImageFacts(block.data, lay); }
      SeekToRestartPoint(0);
      var _ := ParseNextKey(0);
    }

    method Next() returns (ok: bool)
      requires Valid()
      modifies this
      ensures Valid() && pos == (if old(pos) < |lay.ents| then old(pos) + 1 else old(pos))
      ensures ok <==> pos < |lay.ents|
    {
      hide BlockImage;
      OnEntryIffPosition(this);
      if !OnEntry() { return false; }
      PrimedForNext(this);
      ok := ParseNextKey(pos + 1);
    }

    method SeekToLast()
      requires OverBlock()
      modifies this
      ensures Valid() && pos == (if |lay.ents| == 0 then 0 else |lay.ents| - 1)
    {
      hide BlockImage;
      assert |lay.rix| > 0 by { ImageFacts(block.data, lay); }
      SeekToRestartPoint(numRestarts - 1);
      RestartFacts(block.data, lay, numRestarts as nat - 1);
      ghost var i := lay.rix[numRestarts - 1];
      while true
        invariant i <= |lay.ents| && Primed(i) && (i == |lay.ents| ==> i == 0)
        decreases |lay.ents| - i
      {
        var ok := ParseNextKey(i);
        if ok { NextReachesEnd(this); }
        if !ok || next >= block.restartOffset { return; }
        PrimedForNext(this);
        i := i + 1;
      }
    }

    /** Steps back: from the last restart point strictly before the current entry,
        forward until the entry that ends where the current one starts. */
    method Prev()
      requires Valid() && pos < |lay.ents|
      modifies this
      ensures Valid() && pos == (if old(pos) == 0 then |lay.ents| else old(pos) - 1)
    {
      hide BlockImage, EntryBytes;
      assert OverBlock();
      ghost var p := pos;
      var original := current;
      ImageFacts(block.data, lay);
      while true
        invariant OverBlock() && restartIndex < numRestarts
        invariant pos == p && original == lay.offs[p]
        decreases restartIndex
      {
        RestartOrder(block.data, lay, restartIndex as nat, p);
        var point := GetRestartPoint(restartIndex);
        if point < original { break; }
        if restartIndex == 0 {
          current := block.restartOffset;
          restartIndex := numRestarts;
          pos := |lay.ents|;
          return;
        }
        restartIndex := restartIndex - 1;
      }
      ghost var i := lay.rix[restartIndex];
      SeekToRestartPoint(restartIndex);
      while true
        invariant i < p && Primed(i)
        decreases p - i
      {
        var ok := ParseNextKey(i);
        OffsetOrder(block.data, lay, i + 1, p);
        if !ok || next >= original { return; }
        PrimedForNext(this);
        i := i + 1;
      }
    }

    /** The sign of (key at restart point i) compared with target. */
    method CompareRestartPoint(i: uint32, target: Bytes) returns (c: int)
      requires OverBlock() && i < numRestarts && |lay.ents| > 0
      ensures lay.rix[i] < |lay.ents|
      ensures c < 0 <==> Less(lay.ents[lay.rix[i]].key, target)
    {
      hide BlockImage, EntryStarts, EntryBytes, VarintBytes;
      assert lay.rix[i] < |lay.ents| by { ImageFacts(block.data, lay); }
      RestartFacts(block.data, lay, i as nat);
      var regionOffset := GetRestartPoint(i);
      ghost var e := lay.ents[lay.rix[i]];
      EntryFacts(block.data, lay, lay.rix[i]);
      EntrySizes(block.data, regionOffset, block.restartOffset, e, 0);
      EntryParts(block.data, regionOffset, block.restartOffset, e, 0);
      var d := DecodeEntry(block.data, regionOffset, block.restartOffset, e, 0);
      var k := block.data[d.at..d.at + d.nonShared];
      assert k == e.key[0..] == e.key;
      c := BytesCompare(k, target);
    }

    /** No entry before restart point `left` can be the answer. */
    ghost predicate SafeStart(left: uint32, target: Bytes) {
      && OverBlock() && left < numRestarts
      && (left == 0 || (lay.rix[left] < |lay.ents| && Less(lay.ents[lay.rix[left]].key, target)))
    }

    /** Restart points after j start at or above target. */
    ghost predicate UselessAfter(j: int, target: Bytes) {
      && (forall k :: 0 <= k < |lay.rix| ==> lay.rix[k] <= |lay.ents|)
      && forall k :: 0 <= k < |lay.rix| && j < k && lay.rix[k] < |lay.ents| ==> !Less(lay.ents[lay.rix[k]].key, target)
    }

    /** Galloping from the current restart index when there is one, then binary
        search unless only two candidates remain: the scan that follows starts
        in the right restart interval or in the one before it.  The unsigned
        index arithmetic stays in range because there are fewer than 2^31
        restart points. */
    method FindRestart(target: Bytes) returns (left: uint32)
      requires Valid() && Sorted(lay.ents)
      ensures SafeStart(left, target)
      ensures UselessAfter(left as int + 1, target)
    {
      hide BlockImage;
      ImageFacts(block.data, lay);
      left := 0;
      var right := numRestarts - 1;
      if numRestarts != restartIndex && restartIndex != 0 {
        var i := restartIndex;
        right := i;
        var incr: uint32 := 1;
        while true
          invariant left <= i < numRestarts && right == i && 1 <= incr <= i
          invariant SafeStart(left, target)
          decreases numRestarts - i
        {
          var c := CompareRestartPoint(i, target);
          if c >= 0 { UselessFrom(this, i, target); break; }
          left := i;
          i := i + incr;
          if i > numRestarts - 1 {
            right := numRestarts - 1;
            break;
          }
          right := i;
          incr := incr * 2;
        }
      }
      if left + 1 < right {
        while left < right
          invariant left <= right < numRestarts
          invariant SafeStart(left, target) && UselessAfter(right as int, target)
          decreases right - left
        {
          var mid := (left + right + 1) / 2;
          SeveralRestartsMeanEntries(this, mid);
          var c := CompareRestartPoint(mid, target);
          if c < 0 { left := mid; } else { UselessFrom(this, mid, target); right := mid - 1; }
        }
      }
    }

    /** From any reachable state, lands on the first entry with key >= target, or past the end. */
    method Seek(target: Bytes)
      requires Valid() && Sorted(lay.ents)
      modifies this
      ensures Valid() && IsLowerBound(lay.ents, target, pos)
    {
      hide BlockImage;
      ImageFacts(block.data, lay);
      var startIndex := restartIndex;
      var fromStart := true;
      var left := FindRestart(target);
      if startIndex == left {
        var cmp := BytesCompare(key, target);
        if cmp == 0 {
          FoundHere(lay.ents, target, pos);
          return;
        }
        if cmp < 0 { fromStart := false; }
      }
      ghost var i;
      if fromStart {
        SeekToRestartPoint(left);
        i := lay.rix[left];
        BelowSafeStart(this, left, target);
      } else {
        i := pos + 1;
        BelowCurrent(lay.ents, target, pos);
        PrimedForNext(this);
      }
      while true
        invariant i <= |lay.ents| && Primed(i)
        invariant i > 0 ==> Less(lay.ents[i - 1].key, target)
        decreases |lay.ents| - i
      {
        var ok := ParseNextKey(i);
        if !ok || BytesCompare(key, target) >= 0 {
          FirstNotLessSplits(lay.ents, target, i);
          return;
        }
        PrimedForNext(this);
        i := i + 1;
      }
    }

    method Get() returns (ok: bool, k: Bytes, v: Bytes)
      requires Valid()
      ensures ok <==> pos < |lay.ents|
      ensures ok ==> Entry(k, v) == lay.ents[pos]
    {
      OnEntryIffPosition(this);
      ok := OnEntry();
      k, v := key, val;
    }
  }

  lemma OnEntryIffPosition(it: BlockIter)
    requires it.Valid()
    ensures it.OnEntry() <==> it.pos < |it.lay.ents|
  {
    ImageFacts(it.block.data, it.lay);
  }

  lemma NextReachesEnd(it: BlockIter)
    requires it.Valid() && it.pos < |it.lay.ents|
    ensures it.next >= it.block.restartOffset <==> it.pos == |it.lay.ents| - 1
  {
    ImageFacts(it.block.data, it.lay);
  }

  lemma OffsetOrder(data: Bytes, lay: Layout, i: nat, j: nat)
    requires BlockImage(data, lay) && i <= |lay.ents| && j <= |lay.ents|
    ensures |lay.offs| == |lay.ents| + 1 && (lay.offs[i] < lay.offs[j] <==> i < j)
  {
    hide EntryAt, RestartAt;
  }

  lemma UselessFrom(it: BlockIter, i: uint32, target: Bytes)
    requires it.OverBlock() && i < it.numRestarts && Sorted(it.lay.ents) && it.lay.rix[i] < |it.lay.ents|
    requires !Less(it.lay.ents[it.lay.rix[i]].key, target)
    ensures it.UselessAfter(i as int - 1, target)
  {
    hide EntryAt, RestartAt;
    var lay := it.lay;
    forall k | i as nat <= k < |lay.rix| && lay.rix[k] < |lay.ents| ensures !Less(lay.ents[lay.rix[k]].key, target) {
      if i as nat < k {
        LessTrichotomy(lay.ents[lay.rix[i]].key, lay.ents[lay.rix[k]].key);
        LessOrEqualTransitive(target, lay.ents[lay.rix[i]].key, lay.ents[lay.rix[k]].key);
      }
    }
  }

  lemma SeveralRestartsMeanEntries(it: BlockIter, mid: uint32)
    requires it.OverBlock() && 0 < mid < it.numRestarts
    ensures |it.lay.ents| > 0
  {
    hide EntryAt, RestartAt;
    var _ := it.lay.rix[mid];
  }

  lemma FoundHere(es: seq<Entry>, target: Bytes, p: nat)
    requires Sorted(es) && p < |es| && es[p].key == target
    ensures IsLowerBound(es, target, p)
  {
    LessTrichotomy(target, target);
    if p > 0 { assert Less(es[p - 1].key, es[p].key); }
    FirstNotLessSplits(es, target, p);
  }

  lemma BelowCurrent(es: seq<Entry>, target: Bytes, p: nat)
    requires Sorted(es) && p < |es| && Less(es[p].key, target)
    ensures forall i :: 0 <= i <= p ==> Less(es[i].key, target)
  {
    forall i | 0 <= i <= p ensures Less(es[i].key, target) {
      if i < p { LessTransitive(es[i].key, es[p].key, target); }
    }
  }

  lemma BelowSafeStart(it: BlockIter, left: uint32, target: Bytes)
    requires it.SafeStart(left, target) && Sorted(it.lay.ents)
    ensures it.lay.rix[left] <= |it.lay.ents|
    ensures it.lay.rix[left] > 0 ==> Less(it.lay.ents[it.lay.rix[left] - 1].key, target)
  {
    ImageFacts(it.block.data, it.lay);
    if left > 0 { BelowCurrent(it.lay.ents, target, it.lay.rix[left]); }
  }

  lemma PrimedForNext(it: BlockIter)
    requires it.Valid() && it.pos < |it.lay.ents|
    ensures it.Primed(it.pos + 1)
  {
    hide EntryBytes;
    ImageFacts(it.block.data, it.lay);
    var i := it.pos + 1;
    if i < |it.lay.ents| { assert EntryAt(it.block.data, it.lay, i); }
  }

  lemma PrimedFacts(it: BlockIter, i: nat)
    requires it.Primed(i)
    ensures |it.lay.offs| == |it.lay.ents| + 1 && |it.lay.shared| == |it.lay.ents|
    ensures it.next >= it.block.restartOffset <==> i == |it.lay.ents|
  {
    ImageFacts(it.block.data, it.lay);
  }

  lemma EntryFacts(data: Bytes, lay: Layout, i: nat)
    requires BlockImage(data, lay) && i < |lay.ents|
    ensures EntryStarts(data, lay.offs[i], lay.End(), lay.ents[i], lay.shared[i])
    ensures lay.offs[i] + |EntryBytes(lay.ents[i], lay.shared[i])| == lay.offs[i + 1] <= lay.End()
    ensures lay.offs[i] + 3 <= lay.offs[i + 1]
  {
    hide RestartAt, EntryBytes;
    assert EntryAt(data, lay, i);
    ImageFacts(data, lay);
    assert lay.offs[i + 1] <= lay.End();
    EntryBytesLength(lay.ents[i], lay.shared[i]);
  }

  lemma RestartFacts(data: Bytes, lay: Layout, j: nat)
    requires BlockImage(data, lay) && j < |lay.rix|
    ensures lay.rix[j] <= |lay.ents| && |lay.shared| == |lay.ents|
    ensures lay.rix[j] == |lay.ents| ==> |lay.ents| == 0
    ensures lay.rix[j] < |lay.ents| ==> lay.shared[lay.rix[j]] == 0
  {
    hide EntryAt, RestartAt;
  }

  lemma RestartOrder(data: Bytes, lay: Layout, j: nat, i: nat)
    requires BlockImage(data, lay) && j < |lay.rix| && i < |lay.ents|
    ensures lay.rix[j] <= |lay.ents| && (lay.offs[lay.rix[j]] < lay.offs[i] <==> lay.rix[j] < i)
  {
    hide EntryAt, RestartAt;
    ImageFacts(data, lay);
  }
}
