/** The two-level reader iterator as steps on values (mtbl/reader.c), and its
    relation to a cursor over all the entries of the table. */
module ReaderModel {
  import opened ByteOrder
  import opened Maybe
  import opened Table

  // ---------- iterator kinds ----------

  datatype Kind = All | Exact(k: Bytes) | Prefix(k: Bytes) | UpTo(k: Bytes)

  predicate Passes(t: Kind, key: Bytes) {
    match t
    case All => true
    case Exact(k) => BytesCompare(key, k) == 0
    case Prefix(k) => |k| <= |key| && key[..|k|] == k
    case UpTo(k) => BytesCompare(key, k) <= 0
  }

  // ---------- the iterator's state ----------

  /** `idx` is the index cursor (|blks| when it is off the end); `cached` says
      which data block the decoded block is, -1 for none; `pos` is the cursor in
      it; `blockOffset` is the offset the reader believes the decoded block has. */
  datatype State = State(idx: nat, cached: int, pos: nat, first: bool, valid: bool, blockOffset: nat)

  ghost predicate WellTyped(blks: seq<DataBlock>, s: State) {
    && s.idx <= |blks| && -1 <= s.cached < |blks|
    && (s.cached >= 0 ==> s.pos <= |blks[s.cached].lay.ents|)
    && (s.valid ==> s.cached >= 0 && s.idx < |blks|)
  }

  function IndexBound(blks: seq<DataBlock>, key: Bytes): (j: nat)
    ensures j <= |blks|
  {
    LowerBound(IndexEntries(blks), key)
  }

  predicate NeedsIndexSeek(blks: seq<DataBlock>, s: State, key: Bytes)
    requires WellTyped(blks, s)
  {
    s.first || s.cached < 0
    || s.pos == |blks[s.cached].lay.ents|
    || Less(key, blks[s.cached].lay.ents[s.pos].key)
    || s.idx == |blks|
    || Less(blks[s.idx].sep, key)
  }

  function TargetBlock(blks: seq<DataBlock>, s: State, key: Bytes): (j: nat)
    requires WellTyped(blks, s)
    ensures j <= |blks|
  {
    if NeedsIndexSeek(blks, s, key) then IndexBound(blks, key) else s.idx
  }

  /** The decoded block is kept when its recorded offset is the target's. */
  function SeekStep(blks: seq<DataBlock>, s: State, key: Bytes): (s2: State)
    requires WellTyped(blks, s)
    ensures WellTyped(blks, s2)
  {
    var j := TargetBlock(blks, s, key);
    if j == |blks| then s.(idx := j, valid := false)
    else
      var c := if s.cached < 0 || s.blockOffset != blks[j].off then j else s.cached;
      State(j, c, LowerBound(blks[c].lay.ents, key), true, true, blks[j].off)
  }

  /** `fixed` selects the repair that also records the offset when `next` moves to another block. */
  function NextStep(blks: seq<DataBlock>, t: Kind, fixed: bool, s: State): (r: (State, Option<Entry>))
    requires WellTyped(blks, s)
    ensures WellTyped(blks, r.0)
  {
    if !s.valid then (s, None)
    else
      var es := blks[s.cached].lay.ents;
      var p := if !s.first && s.pos < |es| then s.pos + 1 else s.pos;
      if p < |es| then Filtered(t, s.(pos := p, first := false), es[p])
      else if s.idx + 1 >= |blks| then (State(|blks|, -1, 0, false, false, s.blockOffset), None)
      else
        var offset := if fixed then blks[s.idx + 1].off else s.blockOffset;
        if |blks[s.idx + 1].lay.ents| == 0 then (State(s.idx + 1, s.idx + 1, 0, false, false, offset), None)
        else Filtered(t, State(s.idx + 1, s.idx + 1, 0, false, true, offset), blks[s.idx + 1].lay.ents[0])
  }

  function Filtered(t: Kind, s: State, e: Entry): (State, Option<Entry>) {
    if Passes(t, e.key) then (s, Some(e)) else (s.(valid := false), None)
  }

  function Start(blks: seq<DataBlock>, j: nat, p: nat, fixed: bool): State
    requires j < |blks|
  {
    State(j, j, p, true, true, if fixed then blks[j].off else 0)
  }

  // ---------- what a state will still return ----------

  function Rest(blks: seq<DataBlock>, i: nat): seq<Entry>
    decreases |blks| - i
  {
    if i >= |blks| then [] else blks[i].lay.ents + Rest(blks, i + 1)
  }

  ghost function Remaining(blks: seq<DataBlock>, s: State): seq<Entry>
    requires WellTyped(blks, s)
  {
    if !s.valid then []
    else
      var es := blks[s.cached].lay.ents;
      var p := if !s.first && s.pos < |es| then s.pos + 1 else s.pos;
      es[p..] + Rest(blks, s.idx + 1)
  }

  /** What the reader relies on: full blocks, ordered keys, and offsets that tell blocks apart. */
  ghost predicate TableOrder(blks: seq<DataBlock>) {
    && (forall i :: 0 <= i < |blks| ==> |blks[i].lay.ents| > 0)
    && Separated(blks) && Sorted(AllEntries(blks))
    && (forall i, j :: 0 <= i < j < |blks| ==> blks[i].off < blks[j].off)
  }

  /** The index cursor is on the decoded block, and the recorded offset never names a later block. */
  ghost predicate InStep(blks: seq<DataBlock>, s: State) {
    && WellTyped(blks, s)
    && (s.cached >= 0 && s.idx < |blks| ==> s.cached == s.idx)
    && (s.cached >= 0 ==> forall j :: s.cached < j < |blks| ==> s.blockOffset != blks[j].off)
  }

  /** The guard that goes wrong: the recorded offset is the target's, but another block is decoded. */
  predicate StaleSeek(blks: seq<DataBlock>, s: State, key: Bytes)
    requires WellTyped(blks, s)
  {
    var j := TargetBlock(blks, s, key);
    j < |blks| && s.cached >= 0 && s.cached != j && s.blockOffset == blks[j].off
  }

  // ---------- order facts ----------

  lemma {:induction false} SplitEntries(blks: seq<DataBlock>, i: nat)
    requires i <= |blks|
    ensures AllEntries(blks) == AllEntries(blks[..i]) + Rest(blks, i)
    decreases |blks| - i
  {
    if i == |blks| {
      assert blks[..i] == blks;
    } else {
      SplitEntries(blks, i + 1);
      assert blks[..i + 1][..i] == blks[..i];
      assert AllEntries(blks[..i + 1]) == AllEntries(blks[..i]) + blks[i].lay.ents;
    }
  }

  lemma {:induction false} SplitAtBlock(blks: seq<DataBlock>, j: nat)
    requires j < |blks|
    ensures AllEntries(blks) == AllEntries(blks[..j]) + (blks[j].lay.ents + Rest(blks, j + 1))
  {
    SplitEntries(blks, j);
  }

  lemma {:induction false} BlocksSorted(blks: seq<DataBlock>, i: nat)
    requires TableOrder(blks) && i < |blks|
    ensures Sorted(blks[i].lay.ents)
  {
    hide AllEntries, Separated;
    SplitAtBlock(blks, i);
    var all, pre, es := AllEntries(blks), AllEntries(blks[..i]), blks[i].lay.ents;
    forall p, q | 0 <= p < q < |es| ensures Less(es[p].key, es[q].key) {
      assert all[|pre| + p] == es[p] && all[|pre| + q] == es[q];
    }
  }

  lemma {:induction false} IndexSorted(blks: seq<DataBlock>)
    requires TableOrder(blks)
    ensures Sorted(IndexEntries(blks))
  {
    hide AllEntries, IndexEntries;
    forall i, j | 0 <= i < j < |blks| ensures Less(blks[i].sep, blks[j].sep) {
      var k := blks[j].lay.ents[0].key;
      LessTrichotomy(blks[i].sep, k);
      LessOrEqualTransitive(blks[i].sep, k, blks[j].sep);
    }
  }

  /** The one block that can hold the first entry >= key. */
  lemma {:induction false} IndexBoundSplits(blks: seq<DataBlock>, key: Bytes)
    requires TableOrder(blks)
    ensures var j := IndexBound(blks, key);
            && (forall i :: 0 <= i < j ==> Less(blks[i].sep, key))
            && (forall i :: j <= i < |blks| ==> !Less(blks[i].sep, key))
  {
    hide AllEntries, IndexEntries;
    IndexSorted(blks);
    var ix := IndexEntries(blks);
    LowerBoundIsLowerBound(ix, key);
    var j := IndexBound(blks, key);
    forall i | 0 <= i < j ensures Less(blks[i].sep, key) { assert Less(ix[i].key, key); }
    forall i | j <= i < |blks| ensures !Less(blks[i].sep, key) { assert !Less(ix[i].key, key); }
  }

  /** Skipping the index seek is sound: the current block is the target anyway. */
  lemma {:induction false} TargetIsIndexBound(blks: seq<DataBlock>, s: State, key: Bytes)
    requires TableOrder(blks) && InStep(blks, s)
    ensures TargetBlock(blks, s, key) == IndexBound(blks, key)
  {
    hide AllEntries, IndexBound;
    IndexBoundSplits(blks, key);
    var j := IndexBound(blks, key);
    if !NeedsIndexSeek(blks, s, key) {
      var e := blks[s.cached].lay.ents[s.pos];
      if j < s.idx {
        LessTrichotomy(blks[j].sep, e.key);
        LessOrEqualTransitive(blks[j].sep, e.key, key);
      }
    }
  }

  /** Everything at or after `key`: the tail of the target block, then the later blocks. */
  lemma {:induction false} TailFromKey(blks: seq<DataBlock>, key: Bytes)
    requires TableOrder(blks)
    ensures var all := AllEntries(blks);
            var j := IndexBound(blks, key);
            all[LowerBound(all, key)..] ==
              if j == |blks| then []
              else blks[j].lay.ents[LowerBound(blks[j].lay.ents, key)..] + Rest(blks, j + 1)
  {
    hide IndexBound, LowerBound, Separated;
    var all := AllEntries(blks);
    var j := IndexBound(blks, key);
    var pre := AllEntries(blks[..j]);
    EarlierBlocksBelow(blks, key);
    LowerBoundIsLowerBound(all, key);
    if j == |blks| {
      assert blks[..j] == blks;
      assert IsLowerBound(all, key, |all|) by {
        forall i | 0 <= i < |all| ensures Less(all[i].key, key) { assert all[i] in pre; }
      }
      LowerBoundUnique(all, key, LowerBound(all, key), |all|);
    } else {
      SplitAtBlock(blks, j);
      BlocksSorted(blks, j);
      var es := blks[j].lay.ents;
      LowerBoundIsLowerBound(es, key);
      var p := LowerBound(es, key);
      LaterBlocksAbove(blks, key);
      assert IsLowerBound(all, key, |pre| + p) by {
        BoundInParts(pre, es, Rest(blks, j + 1), all, key, p);
      }
      LowerBoundUnique(all, key, LowerBound(all, key), |pre| + p);
      assert all[|pre| + p..] == es[p..] + Rest(blks, j + 1);
    }
  }

  lemma {:induction false} BoundInParts(pre: seq<Entry>, es: seq<Entry>, post: seq<Entry>, all: seq<Entry>, key: Bytes, p: nat)
    requires all == pre + (es + post) && IsLowerBound(es, key, p)
    requires forall e <- pre :: Less(e.key, key)
    requires forall e <- post :: !Less(e.key, key)
    ensures IsLowerBound(all, key, |pre| + p)
  {
    forall i | 0 <= i < |pre| + p ensures Less(all[i].key, key) {
      if i < |pre| { assert all[i] in pre; } else { assert all[i] == es[i - |pre|]; }
    }
    forall i | |pre| + p <= i < |all| ensures !Less(all[i].key, key) {
      if i < |pre| + |es| { assert all[i] == es[i - |pre|]; } else { assert all[i] == post[i - |pre| - |es|]; }
    }
  }

  lemma {:induction false} EarlierBlocksBelow(blks: seq<DataBlock>, key: Bytes)
    requires TableOrder(blks)
    ensures forall e <- AllEntries(blks[..IndexBound(blks, key)]) :: Less(e.key, key)
  {
    hide IndexBound;
    var j := IndexBound(blks, key);
    IndexBoundSplits(blks, key);
    forall e | e in AllEntries(blks[..j]) ensures Less(e.key, key) {
      var i, p := AllEntriesFrom(blks[..j], e);
      assert !Less(blks[i].sep, blks[i].lay.ents[p].key);
      LessTrichotomy(e.key, blks[i].sep);
      LessOrEqualTransitive(e.key, blks[i].sep, key) by { LessTrichotomy(blks[i].sep, key); }
    }
  }

  lemma {:induction false} LaterBlocksAbove(blks: seq<DataBlock>, key: Bytes)
    requires TableOrder(blks) && IndexBound(blks, key) < |blks|
    ensures forall e <- Rest(blks, IndexBound(blks, key) + 1) :: !Less(e.key, key)
  {
    hide IndexBound;
    var j := IndexBound(blks, key);
    IndexBoundSplits(blks, key);
    forall e | e in Rest(blks, j + 1) ensures !Less(e.key, key) {
      var i, p := RestFrom(blks, j + 1, e);
      AboveSeparator(blks, j, i, p, key);
    }
  }

  lemma {:induction false} AboveSeparator(blks: seq<DataBlock>, j: nat, i: nat, p: nat, key: Bytes)
    requires TableOrder(blks) && j < i < |blks| && p < |blks[i].lay.ents| && !Less(blks[j].sep, key)
    ensures Less(key, blks[i].lay.ents[p].key) && !Less(blks[i].lay.ents[p].key, key)
  {
    var k := blks[i].lay.ents[p].key;
    assert Less(blks[j].sep, k);
    LessTrichotomy(blks[j].sep, k);
    LessOrEqualTransitive(key, blks[j].sep, k);
    LessTrichotomy(key, k);
  }

  lemma {:induction false} RestFrom(blks: seq<DataBlock>, at: nat, e: Entry) returns (i: nat, p: nat)
    requires e in Rest(blks, at)
    ensures at <= i < |blks| && p < |blks[i].lay.ents| && blks[i].lay.ents[p] == e
    decreases |blks| - at
  {
    if e in blks[at].lay.ents {
      i := at;
      p :| 0 <= p < |blks[at].lay.ents| && blks[at].lay.ents[p] == e;
    } else {
      i, p := RestFrom(blks, at + 1, e);
    }
  }

  // ---------- seek is right exactly when the guard is not stale ----------

  lemma {:induction false} SeekCorrectIffNotStale(blks: seq<DataBlock>, s: State, key: Bytes)
    requires TableOrder(blks) && InStep(blks, s)
    ensures var all := AllEntries(blks);
            Remaining(blks, SeekStep(blks, s, key)) == all[LowerBound(all, key)..] <==> !StaleSeek(blks, s, key)
    ensures !StaleSeek(blks, s, key) ==> InStep(blks, SeekStep(blks, s, key))
  {
    hide IndexBound, LowerBound, AllEntries, TableOrder, SeekStep, Rest;
    TargetIsIndexBound(blks, s, key);
    TailFromKey(blks, key);
    if StaleSeek(blks, s, key) { StaleSeekRepeats(blks, s, key); } else { SeekLandsRight(blks, s, key); }
  }

  lemma {:induction false} SeekLandsRight(blks: seq<DataBlock>, s: State, key: Bytes)
    requires TableOrder(blks) && InStep(blks, s) && !StaleSeek(blks, s, key)
    ensures var j := TargetBlock(blks, s, key);
            Remaining(blks, SeekStep(blks, s, key)) ==
              if j == |blks| then []
              else blks[j].lay.ents[LowerBound(blks[j].lay.ents, key)..] + Rest(blks, j + 1)
    ensures InStep(blks, SeekStep(blks, s, key))
  {
    hide LowerBound, TargetBlock, Rest, Separated, Sorted, AllEntries;
  }

  /** A stale seek starts in a later block and then walks from the target's successor: it returns that block twice. */
  lemma {:induction false} StaleSeekRepeats(blks: seq<DataBlock>, s: State, key: Bytes)
    requires TableOrder(blks) && InStep(blks, s) && StaleSeek(blks, s, key)
    ensures var j := IndexBound(blks, key);
            && j < s.cached
            && Remaining(blks, SeekStep(blks, s, key)) == blks[s.cached].lay.ents + Rest(blks, j + 1)
            && Remaining(blks, SeekStep(blks, s, key)) !=
                 blks[j].lay.ents[LowerBound(blks[j].lay.ents, key)..] + Rest(blks, j + 1)
  {
    hide IndexBound, AllEntries;
    TargetIsIndexBound(blks, s, key);
    IndexBoundSplits(blks, key);
    var j := IndexBound(blks, key);
    var c := s.cached;
    assert j < c;
    var es, target := blks[c].lay.ents, blks[j].lay.ents;
    AboveSeparator(blks, j, c, 0, key);
    assert LowerBound(es, key) == 0;
    SeekLandsIn(blks, s, key, j);
    var p := LowerBound(target, key);
    if p < |target| {
      assert !Less(blks[j].sep, target[p].key) && Less(blks[j].sep, es[0].key);
    }
    DifferentHeads(es, target[p..], Rest(blks, j + 1));
  }

  lemma {:induction false} SeekLandsIn(blks: seq<DataBlock>, s: State, key: Bytes, j: nat)
    requires InStep(blks, s) && StaleSeek(blks, s, key) && TargetBlock(blks, s, key) == j
    requires LowerBound(blks[s.cached].lay.ents, key) == 0
    ensures Remaining(blks, SeekStep(blks, s, key)) == blks[s.cached].lay.ents + Rest(blks, j + 1)
  {
    hide LowerBound, TargetBlock, Rest;
  }

  lemma {:induction false} DifferentHeads(a: seq<Entry>, b: seq<Entry>, rest: seq<Entry>)
    requires a != [] && (b != [] ==> a[0] != b[0])
    ensures a + rest != b + rest
  {
    assert (a + rest)[0] == a[0];
    if |b| == |a| { assert (b + rest)[0] == b[0]; }
  }

  // ---------- next returns the head of what remains ----------

  lemma {:induction false} NextTakesHead(blks: seq<DataBlock>, t: Kind, fixed: bool, s: State)
    requires TableOrder(blks) && InStep(blks, s)
    ensures var (s2, out) := NextStep(blks, t, fixed, s);
            var rest := Remaining(blks, s);
            && InStep(blks, s2)
            && (rest == [] ==> out == None && !s2.valid)
            && (rest != [] && Passes(t, rest[0].key) ==> out == Some(rest[0]) && Remaining(blks, s2) == rest[1..])
            && (rest != [] && !Passes(t, rest[0].key) ==> out == None && !s2.valid)
  {
    hide Passes, TableOrder;
    if s.valid {
      var es := blks[s.cached].lay.ents;
      if NextPos(blks, s) < |es| {
        NextInBlock(blks, t, fixed, s);
      } else {
        NextCrosses(blks, t, fixed, s);
      }
    }
  }

  ghost function NextPos(blks: seq<DataBlock>, s: State): nat
    requires WellTyped(blks, s) && s.valid
  {
    if !s.first && s.pos < |blks[s.cached].lay.ents| then s.pos + 1 else s.pos
  }

  lemma {:induction false} NextInBlock(blks: seq<DataBlock>, t: Kind, fixed: bool, s: State)
    requires InStep(blks, s) && s.valid && NextPos(blks, s) < |blks[s.cached].lay.ents|
    ensures var (s2, out) := NextStep(blks, t, fixed, s);
            var rest := Remaining(blks, s);
            && rest != [] && InStep(blks, s2)
            && (Passes(t, rest[0].key) ==> out == Some(rest[0]) && Remaining(blks, s2) == rest[1..])
            && (!Passes(t, rest[0].key) ==> out == None && !s2.valid)
  {
    hide Passes, Rest;
    var es := blks[s.cached].lay.ents;
    var p := NextPos(blks, s);
    var tail := Rest(blks, s.idx + 1);
    assert (es[p..] + tail)[1..] == es[p + 1..] + tail;
  }

  lemma RestOnce(blks: seq<DataBlock>, i: nat)
    ensures Rest(blks, i) == if i >= |blks| then [] else blks[i].lay.ents + Rest(blks, i + 1)
  {
  }

  lemma {:induction false} NextCrosses(blks: seq<DataBlock>, t: Kind, fixed: bool, s: State)
    requires TableOrder(blks) && InStep(blks, s) && s.valid && NextPos(blks, s) == |blks[s.cached].lay.ents|
    ensures var (s2, out) := NextStep(blks, t, fixed, s);
            var rest := Remaining(blks, s);
            && InStep(blks, s2)
            && (rest == [] ==> out == None && !s2.valid)
            && (rest != [] && Passes(t, rest[0].key) ==> out == Some(rest[0]) && Remaining(blks, s2) == rest[1..])
            && (rest != [] && !Passes(t, rest[0].key) ==> out == None && !s2.valid)
  {
    hide Passes, Separated, Sorted, AllEntries, Rest;
    RestOnce(blks, s.idx + 1);
    assert Remaining(blks, s) == Rest(blks, s.idx + 1);
    if s.idx + 1 < |blks| {
      hide TableOrder, InStep, Remaining, NextStep, Filtered;
      EntersNext(blks, t, fixed, s);
    }
  }

  lemma EntersNext(blks: seq<DataBlock>, t: Kind, fixed: bool, s: State)
    requires TableOrder(blks) && InStep(blks, s) && s.valid && NextPos(blks, s) == |blks[s.cached].lay.ents| && s.idx + 1 < |blks|
    ensures var (s2, out) := NextStep(blks, t, fixed, s);
            var rest := blks[s.idx + 1].lay.ents + Rest(blks, s.idx + 2);
            && InStep(blks, s2) && rest != []
            && (Passes(t, rest[0].key) ==> out == Some(rest[0]) && Remaining(blks, s2) == rest[1..])
            && (!Passes(t, rest[0].key) ==> out == None && !s2.valid)
  {
    hide Passes, Separated, Sorted, AllEntries, Rest;
    var nx, tail := blks[s.idx + 1].lay.ents, Rest(blks, s.idx + 2);
    assert (nx + tail)[1..] == nx[1..] + tail;
  }

  // ---------- whole runs ----------

  datatype Op = Next | Seek(key: Bytes)

  /** The ideal: a cursor over all entries that closes when an entry fails the filter. */
  datatype Cursor = Cursor(rest: seq<Entry>, open: bool)

  function CursorNext(t: Kind, c: Cursor): (Cursor, Option<Entry>) {
    if !c.open || c.rest == [] then (Cursor([], false), None)
    else if Passes(t, c.rest[0].key) then (Cursor(c.rest[1..], true), Some(c.rest[0]))
    else (Cursor([], false), None)
  }

  function CursorSeek(all: seq<Entry>, key: Bytes): Cursor { Cursor(all[LowerBound(all, key)..], true) }

  function RunCursor(all: seq<Entry>, t: Kind, c: Cursor, ops: seq<Op>): seq<Option<Entry>>
    decreases |ops|
  {
    if |ops| == 0 then []
    else match ops[0]
      case Next => var (c2, out) := CursorNext(t, c); [out] + RunCursor(all, t, c2, ops[1..])
      case Seek(key) => RunCursor(all, t, CursorSeek(all, key), ops[1..])
  }

  ghost function RunReader(blks: seq<DataBlock>, t: Kind, fixed: bool, s: State, ops: seq<Op>): seq<Option<Entry>>
    requires WellTyped(blks, s)
    decreases |ops|
  {
    if |ops| == 0 then []
    else match ops[0]
      case Next => var (s2, out) := NextStep(blks, t, fixed, s); [out] + RunReader(blks, t, fixed, s2, ops[1..])
      case Seek(key) => RunReader(blks, t, fixed, SeekStep(blks, s, key), ops[1..])
  }

  ghost predicate NeverStale(blks: seq<DataBlock>, t: Kind, fixed: bool, s: State, ops: seq<Op>)
    requires WellTyped(blks, s)
    decreases |ops|
  {
    |ops| == 0 ||
    match ops[0]
    case Next => NeverStale(blks, t, fixed, NextStep(blks, t, fixed, s).0, ops[1..])
    case Seek(key) => !StaleSeek(blks, s, key) && NeverStale(blks, t, fixed, SeekStep(blks, s, key), ops[1..])
  }

  ghost predicate Agrees(blks: seq<DataBlock>, s: State, c: Cursor)
    requires WellTyped(blks, s)
  {
    Remaining(blks, s) == if c.open then c.rest else []
  }

  /** Any run of seeks and nexts without a stale seek returns what the cursor returns. */
  lemma {:induction false} RunMatchesCursor(blks: seq<DataBlock>, t: Kind, fixed: bool, s: State, c: Cursor, ops: seq<Op>)
    requires TableOrder(blks) && InStep(blks, s) && Agrees(blks, s, c)
    requires NeverStale(blks, t, fixed, s, ops)
    ensures RunReader(blks, t, fixed, s, ops) == RunCursor(AllEntries(blks), t, c, ops)
    decreases |ops|
  {
    hide TableOrder, AllEntries, Passes, SeekStep, NextStep, StaleSeek, LowerBound;
    if |ops| > 0 {
      match ops[0]
      case Next =>
        NextTakesHead(blks, t, fixed, s);
        RunMatchesCursor(blks, t, fixed, NextStep(blks, t, fixed, s).0, CursorNext(t, c).0, ops[1..]);
      case Seek(key) =>
        SeekCorrectIffNotStale(blks, s, key);
        RunMatchesCursor(blks, t, fixed, SeekStep(blks, s, key), CursorSeek(AllEntries(blks), key), ops[1..]);
    }
  }

  /** With the offset recorded at creation and in `next`, no seek is ever stale. */
  ghost predicate OffsetRecorded(blks: seq<DataBlock>, s: State)
    requires WellTyped(blks, s)
  {
    s.cached >= 0 ==> s.blockOffset == blks[s.cached].off
  }

  lemma {:induction false} FixedNeverStale(blks: seq<DataBlock>, t: Kind, s: State, ops: seq<Op>)
    requires TableOrder(blks) && InStep(blks, s) && OffsetRecorded(blks, s)
    ensures NeverStale(blks, t, true, s, ops)
    decreases |ops|
  {
    hide AllEntries, Passes, Separated, Sorted, LowerBound, IndexBound;
    if |ops| > 0 {
      match ops[0]
      case Next =>
        NextTakesHead(blks, t, true, s);
        FixedNeverStale(blks, t, NextStep(blks, t, true, s).0, ops[1..]);
      case Seek(key) =>
        assert !StaleSeek(blks, s, key);
        SeekCorrectIffNotStale(blks, s, key);
        FixedNeverStale(blks, t, SeekStep(blks, s, key), ops[1..]);
    }
  }

  /** The repaired reader is a cursor on every run, from every opening. */
  lemma {:induction false} FixedReaderIsCursor(blks: seq<DataBlock>, t: Kind, key: Bytes, ops: seq<Op>)
    requires TableOrder(blks) && IndexBound(blks, key) < |blks|
    ensures var all := AllEntries(blks);
            var j := IndexBound(blks, key);
            RunReader(blks, t, true, Start(blks, j, LowerBound(blks[j].lay.ents, key), true), ops)
            == RunCursor(all, t, CursorSeek(all, key), ops)
  {
    hide IndexBound, LowerBound, AllEntries, Passes, Separated, Sorted;
    var j := IndexBound(blks, key);
    var s := Start(blks, j, LowerBound(blks[j].lay.ents, key), true);
    TailFromKey(blks, key);
    FixedNeverStale(blks, t, s, ops);
    RunMatchesCursor(blks, t, true, s, CursorSeek(AllEntries(blks), key), ops);
  }

  // ---------- lookups: get, get_prefix, get_range ----------

  /** What a filtered iterator hands out before it closes. */
  function TakePassing(t: Kind, es: seq<Entry>): (r: seq<Entry>)
    ensures r <= es
  {
    if es == [] || !Passes(t, es[0].key) then [] else [es[0]] + TakePassing(t, es[1..])
  }

  lemma {:induction false} DrainReturns(all: seq<Entry>, t: Kind, rest: seq<Entry>, n: nat)
    ensures var out := RunCursor(all, t, Cursor(rest, true), seq(n, _ => Next));
            && |out| == n
            && forall i :: 0 <= i < n ==>
                 out[i] == if i < |TakePassing(t, rest)| then Some(TakePassing(t, rest)[i]) else None
    decreases n
  {
    hide Passes;
    var ops := seq(n, _ => Next);
    if n > 0 {
      assert ops[1..] == seq(n - 1, _ => Next);
      if rest != [] && Passes(t, rest[0].key) {
        DrainReturns(all, t, rest[1..], n - 1);
        var tail := RunCursor(all, t, Cursor(rest[1..], true), ops[1..]);
        assert RunCursor(all, t, Cursor(rest, true), ops) == [Some(rest[0])] + tail;
        assert TakePassing(t, rest) == [rest[0]] + TakePassing(t, rest[1..]);
      } else {
        ClosedReturnsNothing(all, t, n - 1);
      }
    }
  }

  lemma {:induction false} ClosedReturnsNothing(all: seq<Entry>, t: Kind, n: nat)
    ensures var out := RunCursor(all, t, Cursor([], false), seq(n, _ => Next));
            |out| == n && forall i :: 0 <= i < n ==> out[i] == None
  {
    var ops := seq(n, _ => Next);
    if n > 0 {
      assert ops[1..] == seq(n - 1, _ => Next);
      ClosedReturnsNothing(all, t, n - 1);
    }
  }

  /** The start key each lookup seeks to. */
  predicate StartsAt(t: Kind, k: Bytes) {
    match t
    case All => true
    case Exact(key) => k == key
    case Prefix(key) => k == key
    case UpTo(_) => true
  }

  /** A lookup returns exactly the entries from its start key on that it asks for, in order. */
  lemma {:induction false} LookupIsExact(all: seq<Entry>, t: Kind, k: Bytes)
    requires Sorted(all) && StartsAt(t, k)
    ensures forall e :: e in TakePassing(t, all[LowerBound(all, k)..]) <==>
              e in all && !Less(e.key, k)
              && match t
                 case All => true
                 case Exact(key) => e.key == key
                 case Prefix(key) => |key| <= |e.key| && e.key[..|key|] == key
                 case UpTo(key) => !Less(key, e.key)
  {
    PassingTaken(all, t, k);
  }

  lemma {:induction false} PassingTaken(all: seq<Entry>, t: Kind, k: Bytes)
    requires Sorted(all) && StartsAt(t, k)
    ensures forall e :: e in TakePassing(t, all[LowerBound(all, k)..]) <==>
              e in all && !Less(e.key, k) && Passes(t, e.key)
  {
    hide LowerBound, Passes, Sorted, Less, TakePassing;
    var p := LowerBound(all, k);
    LowerBoundIsLowerBound(all, k);
    TakeStops(all, t, k, p);
    var taken := TakePassing(t, all[p..]);
    forall e | e in taken ensures e in all && !Less(e.key, k) && Passes(t, e.key) {
      var i :| 0 <= i < |taken| && taken[i] == e;
      assert taken[i] == all[p..][i] == all[p + i];
      TakenPass(t, all[p..], i);
    }
    forall e | e in all && !Less(e.key, k) && Passes(t, e.key) ensures e in taken {
      var i :| 0 <= i < |all| && all[i] == e;
      assert p <= i;
      if i < p + |taken| { assert taken[i - p] == e; }
    }
  }

  lemma {:induction false} TakenPass(t: Kind, es: seq<Entry>, i: nat)
    requires i < |TakePassing(t, es)|
    ensures Passes(t, es[i].key)
  {
    if i > 0 { TakenPass(t, es[1..], i - 1); }
  }

  /** Once one entry fails the filter, no later one passes it. */
  lemma {:induction false} TakeStops(all: seq<Entry>, t: Kind, k: Bytes, p: nat)
    requires Sorted(all) && StartsAt(t, k) && p <= |all|
    requires forall i :: p <= i < |all| ==> !Less(all[i].key, k)
    ensures forall i :: p + |TakePassing(t, all[p..])| <= i < |all| ==> !Passes(t, all[i].key)
    decreases |all| - p
  {
    hide Passes;
    if p < |all| {
      if Passes(t, all[p].key) {
        assert all[p..][1..] == all[p + 1..];
        TakeStops(all, t, k, p + 1);
      } else {
        forall i | p <= i < |all| ensures !Passes(t, all[i].key) {
          if p < i { PassingIsConvex(t, k, all[p].key, all[i].key); }
        }
      }
    }
  }

  lemma {:induction false} PassingIsConvex(t: Kind, k: Bytes, a: Bytes, b: Bytes)
    requires StartsAt(t, k) && !Less(a, k) && Less(a, b)
    ensures Passes(t, b) ==> Passes(t, a)
  {
    LessTrichotomy(a, b);
    match t
    case All =>
    case Exact(key) => LessTrichotomy(k, a);
    case Prefix(key) => if Passes(t, b) { PrefixIsConvex(key, a, b); }
    case UpTo(limit) => if Passes(t, b) { LessOrEqualTransitive(a, b, limit); }
  }

  lemma {:induction false} PrefixIsConvex(k: Bytes, a: Bytes, b: Bytes)
    requires !Less(a, k) && Less(a, b) && |k| <= |b| && b[..|k|] == k
    ensures |k| <= |a| && a[..|k|] == k
  {
    if |k| > 0 {
      assert b[0] == b[..|k|][0] && b[1..][..|k| - 1] == b[..|k|][1..] == k[1..];
      PrefixIsConvex(k[1..], a[1..], b[1..]);
      assert a[..|k|] == [a[0]] + a[1..][..|k| - 1];
    }
  }

  // ---------- the reader as written diverges ----------

  lemma {:induction false} NextWalks(blks: seq<DataBlock>, n: nat)
    requires TableOrder(blks) && |blks| > 0 && n < |blks[0].lay.ents|
    ensures AfterNexts(blks, Start(blks, 0, 0, false), n + 1) == State(0, 0, n, false, true, 0)
  {
    hide Separated, Sorted, AllEntries;
    if n > 0 { NextWalks(blks, n - 1); }
  }

  ghost function AfterNexts(blks: seq<DataBlock>, s: State, n: nat): (s2: State)
    requires WellTyped(blks, s)
    ensures WellTyped(blks, s2)
  {
    if n == 0 then s else NextStep(blks, All, false, AfterNexts(blks, s, n - 1)).0
  }

  /** In any table written from offset 0 with two blocks or more: read one entry
      past the first block, seek back to the very first key, and the next entry
      returned is the second block's. */
  lemma {:induction false} StaleRunDiverges(blks: seq<DataBlock>)
    requires TableOrder(blks) && |blks| >= 2 && blks[0].off == 0
    ensures var s := AfterNexts(blks, Start(blks, 0, 0, false), |blks[0].lay.ents| + 1);
            var first := blks[0].lay.ents[0];
            && StaleSeek(blks, s, first.key)
            && NextStep(blks, All, false, SeekStep(blks, s, first.key)).1 == Some(blks[1].lay.ents[0])
            && blks[1].lay.ents[0] != first
  {
    hide AllEntries, Sorted, IndexEntries, LowerBound;
    var n := |blks[0].lay.ents|;
    NextWalks(blks, n - 1);
    var s := AfterNexts(blks, Start(blks, 0, 0, false), n + 1);
    assert s == State(1, 1, 0, false, true, 0);
    var first, second := blks[0].lay.ents[0], blks[1].lay.ents[0];
    LessTrichotomy(blks[0].sep, first.key);
    TargetIsIndexBound(blks, s, first.key);
    IndexBoundSplits(blks, first.key);
    assert IndexBound(blks, first.key) == 0;
    AboveSeparator(blks, 0, 1, 0, first.key);
    LessTrichotomy(first.key, second.key);
    assert LowerBound(blks[1].lay.ents, first.key) == 0;
  }
}
