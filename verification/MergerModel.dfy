/** The merger as a cursor over the merged groups (mtbl/merger.c), on values:
    what each call does to the position and the remembered key, and whole runs. */
module MergerModel {
  import opened ByteOrder
  import opened Maybe
  import opened MergeView

  /** `curKey` is the last key returned or sought; empty means none yet. */
  datatype State = State(pos: nat, curKey: Bytes, finished: bool)

  const FRESH := State(0, [], false)

  /** Backward seeks, and seeks from the end, reposition every source; a forward
      seek moves only if the current group is behind the key. */
  function SeekStep(gs: seq<Group>, s: State, key: Bytes): State
    requires s.pos <= |gs|
  {
    var p := GroupBound(gs, key);
    if s.pos == |gs| || s.curKey == [] || Less(key, s.curKey) then State(p, s.curKey, false)
    else if Less(gs[s.pos].key, key) then State(p, key, p == |gs|)
    else s.(finished := false)
  }

  /** What comes out for a group: its values merged, or only the one taken last. */
  datatype Outcome = Merged(group: Group) | LastOf(group: Group)

  /** Under the empty key each value taken replaces the one before (mtbl/merger.c:287-296). */
  function Due(g: Group): Outcome { if g.key == [] && |g.vals| > 1 then LastOf(g) else Merged(g) }

  function NextStep(gs: seq<Group>, s: State): (State, Option<Outcome>)
    requires s.pos <= |gs|
  {
    if s.finished then (s, None)
    else if s.pos == |gs| then (State(s.pos, [], true), None)
    else
      var q := if Forgets(gs, s) then s.pos + 1 else s.pos;
      (State(q + 1, gs[q].key, q + 1 == |gs|), Some(Due(gs[q])))
  }

  /** The second guard that goes wrong: the next key is empty and another follows. */
  predicate Forgets(gs: seq<Group>, s: State)
    requires s.pos <= |gs|
  {
    !s.finished && s.pos + 1 < |gs| && gs[s.pos].key == []
  }

  /** The third: the empty key is the only one left and has several values. */
  predicate Overwrites(gs: seq<Group>, s: State)
    requires s.pos <= |gs|
  {
    !s.finished && s.pos + 1 == |gs| && gs[s.pos].key == [] && |gs[s.pos].vals| > 1
  }

  ghost predicate KeysRise(gs: seq<Group>) {
    forall g, h :: 0 <= g < h < |gs| ==> Less(gs[g].key, gs[h].key)
  }

  lemma OnlyFirstForgotten(gs: seq<Group>, s: State)
    requires KeysRise(gs) && s.pos <= |gs|
    ensures s.pos > 0 ==> !Forgets(gs, s)
  {
    if 0 < s.pos < |gs| { assert Less(gs[0].key, gs[s.pos].key); }
  }

  /** Groups already passed are not above the remembered key. */
  ghost predicate Inv(gs: seq<Group>, s: State) {
    && s.pos <= |gs| && (s.finished ==> s.pos == |gs|)
    && (s.curKey != [] ==> forall i :: 0 <= i < s.pos ==> !Less(s.curKey, gs[i].key))
  }

  /** The guard that goes wrong: seeking to the very key just returned, with entries still to come. */
  predicate SkipsReturned(gs: seq<Group>, s: State, key: Bytes)
    requires s.pos <= |gs|
  {
    0 < s.pos < |gs| && key != [] && s.curKey == key && gs[s.pos - 1].key == key
  }

  lemma {:induction false} BoundSplits(gs: seq<Group>, key: Bytes, p: nat)
    requires KeysRise(gs) && p <= |gs|
    requires p > 0 ==> Less(gs[p - 1].key, key)
    requires p < |gs| ==> !Less(gs[p].key, key)
    ensures GroupBound(gs, key) == p
  {
    var b := GroupBound(gs, key);
    if b < p {
      if b < p - 1 { LessTransitive(gs[b].key, gs[p - 1].key, key); }
    }
    assert p < |gs| ==> b <= p;
  }

  /** A seek lands on the first group at or after the key exactly when it is not that guard. */
  lemma {:induction false} SeekCorrectIffNotSkipping(gs: seq<Group>, s: State, key: Bytes)
    requires KeysRise(gs) && Inv(gs, s)
    ensures SeekStep(gs, s, key).pos == GroupBound(gs, key) <==> !SkipsReturned(gs, s, key)
    ensures Inv(gs, SeekStep(gs, s, key))
  {
    var p := GroupBound(gs, key);
    SeekKeepsInv(gs, s, key);
    if s.pos == |gs| || s.curKey == [] || Less(key, s.curKey) {
    } else if Less(gs[s.pos].key, key) {
      if SkipsReturned(gs, s, key) {
        LessTransitive(gs[s.pos - 1].key, gs[s.pos].key, key);
        LessTrichotomy(key, key);
      }
    } else if s.pos > 0 {
      var last := gs[s.pos - 1].key;
      LessOrEqualTransitive(last, s.curKey, key);
      LessTrichotomy(last, key);
      LessTrichotomy(last, s.curKey);
      LessTrichotomy(s.curKey, key);
      if Less(last, key) { BoundSplits(gs, key, s.pos); }
    } else {
      BoundSplits(gs, key, 0);
    }
  }

  lemma {:induction false} SeekKeepsInv(gs: seq<Group>, s: State, key: Bytes)
    requires KeysRise(gs) && Inv(gs, s)
    ensures Inv(gs, SeekStep(gs, s, key))
  {
    var s2 := SeekStep(gs, s, key);
    if s2.curKey != [] {
      forall i | 0 <= i < s2.pos ensures !Less(s2.curKey, gs[i].key) {
        if s.pos < |gs| {
          if Less(key, s.curKey) {
            LessTransitive(gs[i].key, key, s.curKey);
            LessTrichotomy(gs[i].key, s.curKey);
          } else {
            LessTrichotomy(gs[i].key, key);
          }
        }
      }
    }
  }

  lemma {:induction false} NextKeepsInv(gs: seq<Group>, s: State)
    requires KeysRise(gs) && Inv(gs, s)
    ensures Inv(gs, NextStep(gs, s).0)
  {
    if !s.finished && s.pos < |gs| {
      var q := if Forgets(gs, s) then s.pos + 1 else s.pos;
      var k := gs[q].key;
      forall i | 0 <= i < q + 1 ensures !Less(k, gs[i].key) { LessTrichotomy(gs[i].key, k); }
    }
  }

  /** `next` returns the merged group at the position and passes it, exactly when it is neither of these guards. */
  lemma {:induction false} NextCorrectIffNothingLost(gs: seq<Group>, s: State)
    requires KeysRise(gs) && Inv(gs, s)
    ensures (if s.pos == |gs| then NextStep(gs, s).1 == None && NextStep(gs, s).0.pos == s.pos
             else NextStep(gs, s).1 == Some(Merged(gs[s.pos])) && NextStep(gs, s).0.pos == s.pos + 1)
            <==> !Forgets(gs, s) && !Overwrites(gs, s)
    ensures Inv(gs, NextStep(gs, s).0)
  {
    NextKeepsInv(gs, s);
  }

  // ---------- whole runs ----------

  datatype Op = Next | Seek(key: Bytes)

  function RunMerger(gs: seq<Group>, s: State, ops: seq<Op>): seq<Option<Outcome>>
    requires s.pos <= |gs|
    decreases |ops|
  {
    if |ops| == 0 then []
    else match ops[0]
      case Next => var (s2, out) := NextStep(gs, s); [out] + RunMerger(gs, s2, ops[1..])
      case Seek(key) => RunMerger(gs, SeekStep(gs, s, key), ops[1..])
  }

  function RunCursor(gs: seq<Group>, pos: nat, ops: seq<Op>): seq<Option<Outcome>>
    requires pos <= |gs|
    decreases |ops|
  {
    if |ops| == 0 then []
    else match ops[0]
      case Next =>
        if pos == |gs| then [None] + RunCursor(gs, pos, ops[1..])
        else [Some(Merged(gs[pos]))] + RunCursor(gs, pos + 1, ops[1..])
      case Seek(key) => RunCursor(gs, GroupBound(gs, key), ops[1..])
  }

  predicate NeverSkips(gs: seq<Group>, s: State, ops: seq<Op>)
    requires s.pos <= |gs|
    decreases |ops|
  {
    |ops| == 0 ||
    match ops[0]
    case Next => !Forgets(gs, s) && !Overwrites(gs, s) && NeverSkips(gs, NextStep(gs, s).0, ops[1..])
    case Seek(key) => !SkipsReturned(gs, s, key) && NeverSkips(gs, SeekStep(gs, s, key), ops[1..])
  }

  lemma {:induction false} PrefixNeverSkips(gs: seq<Group>, s: State, ops: seq<Op>, n: nat)
    requires s.pos <= |gs| && n <= |ops| && NeverSkips(gs, s, ops)
    ensures NeverSkips(gs, s, ops[..n])
    decreases |ops|
  {
    if n > 0 {
      assert ops[..n][1..] == ops[1..][..n - 1];
      match ops[0]
      case Next => PrefixNeverSkips(gs, NextStep(gs, s).0, ops[1..], n - 1);
      case Seek(key) => PrefixNeverSkips(gs, SeekStep(gs, s, key), ops[1..], n - 1);
    }
  }

  /** On any run that never seeks to the key just returned, nor meets an empty key before another or
      with several values, the merger is a cursor over the merged groups. */
  lemma {:induction false} RunMatchesCursor(gs: seq<Group>, s: State, ops: seq<Op>)
    requires KeysRise(gs) && Inv(gs, s) && NeverSkips(gs, s, ops)
    ensures RunMerger(gs, s, ops) == RunCursor(gs, s.pos, ops)
    decreases |ops|
  {
    hide KeysRise, GroupBound;
    if |ops| > 0 {
      match ops[0]
      case Next =>
        NextCorrectIffNothingLost(gs, s);
        RunMatchesCursor(gs, NextStep(gs, s).0, ops[1..]);
      case Seek(key) =>
        SeekCorrectIffNotSkipping(gs, s, key);
        RunMatchesCursor(gs, SeekStep(gs, s, key), ops[1..]);
    }
  }

  /** Two groups are enough to see the difference: read the first key, seek it again, read on. */
  lemma {:induction false} SkippingRunDiverges(gs: seq<Group>)
    requires KeysRise(gs) && |gs| >= 2 && gs[0].key != []
    ensures var ops := [Next, Seek(gs[0].key), Next];
            && RunMerger(gs, FRESH, ops) == [Some(Merged(gs[0])), Some(Merged(gs[1]))]
            && RunCursor(gs, 0, ops) == [Some(Merged(gs[0])), Some(Merged(gs[0]))]
  {
    var ops := [Next, Seek(gs[0].key), Next];
    assert ops[1..] == [Seek(gs[0].key), Next] && ops[1..][1..] == [Next] && [Next][1..] == [];
    LessTrichotomy(gs[0].key, gs[0].key);
    LessTrichotomy(gs[0].key, gs[1].key);
    var s1 := State(1, gs[0].key, false);
    assert NextStep(gs, FRESH) == (s1, Some(Merged(gs[0])));
    assert SeekStep(gs, s1, gs[0].key) == s1;
    assert RunMerger(gs, s1, [Next]) == [Some(Merged(gs[1]))];
    assert RunMerger(gs, s1, ops[1..]) == [Some(Merged(gs[1]))];
    BoundSplits(gs, gs[0].key, 0);
    assert RunCursor(gs, 0, [Next]) == [Some(Merged(gs[0]))];
    assert RunCursor(gs, 1, ops[1..]) == [Some(Merged(gs[0]))];
  }

  /** A seek that moves nothing is not remembered, so the key returned before it is skipped all the same. */
  lemma {:induction false} StillSkips(gs: seq<Group>, mid: Bytes)
    requires KeysRise(gs) && |gs| >= 2 && gs[0].key != [] && Less(gs[0].key, mid) && !Less(gs[1].key, mid)
    ensures var ops := [Next, Seek(mid), Seek(gs[0].key), Next];
            && RunMerger(gs, FRESH, ops) == [Some(Merged(gs[0])), Some(Merged(gs[1]))]
            && RunCursor(gs, 0, ops) == [Some(Merged(gs[0])), Some(Merged(gs[0]))]
  {
    var ops := [Next, Seek(mid), Seek(gs[0].key), Next];
    assert ops[1..] == [Seek(mid), Seek(gs[0].key), Next] && ops[1..][1..] == [Seek(gs[0].key), Next];
    assert [Seek(gs[0].key), Next][1..] == [Next] && [Next][1..] == [];
    LessTrichotomy(gs[0].key, mid);
    LessTrichotomy(gs[0].key, gs[1].key);
    LessTrichotomy(gs[0].key, gs[0].key);
    var s1 := State(1, gs[0].key, false);
    assert NextStep(gs, FRESH) == (s1, Some(Merged(gs[0])));
    assert SeekStep(gs, s1, mid) == s1 && SeekStep(gs, s1, gs[0].key) == s1;
    assert RunMerger(gs, s1, [Next]) == [Some(Merged(gs[1]))];
    assert RunMerger(gs, s1, [Seek(gs[0].key), Next]) == [Some(Merged(gs[1]))];
    BoundSplits(gs, gs[0].key, 0);
    BoundSplits(gs, mid, 1);
    assert RunCursor(gs, 0, [Next]) == [Some(Merged(gs[0]))];
    assert RunCursor(gs, 1, [Seek(gs[0].key), Next]) == [Some(Merged(gs[0]))];
    assert RunCursor(gs, 1, ops[1..]) == [Some(Merged(gs[0]))];
  }

  /** An empty key with another behind it is never seen. */
  lemma ForgettingRunDiverges(gs: seq<Group>)
    requires KeysRise(gs) && |gs| >= 2 && gs[0].key == []
    ensures RunMerger(gs, FRESH, [Next]) == [Some(Merged(gs[1]))] && RunCursor(gs, 0, [Next]) == [Some(Merged(gs[0]))]
    ensures gs[1].key != gs[0].key
  {
    assert [Next][1..] == [];
    LessTrichotomy(gs[0].key, gs[1].key);
    var s := State(2, gs[1].key, 2 == |gs|);
    assert NextStep(gs, FRESH) == (s, Some(Merged(gs[1])));
    assert RunMerger(gs, s, []) == [];
  }

  /** An empty key alone, with several values, is seen with one of them only. */
  lemma {:induction false} OverwritingRunDiverges(gs: seq<Group>)
    requires |gs| == 1 && gs[0].key == [] && |gs[0].vals| > 1
    ensures RunMerger(gs, FRESH, [Next]) == [Some(LastOf(gs[0]))] && RunCursor(gs, 0, [Next]) == [Some(Merged(gs[0]))]
  {
    assert [Next][1..] == [];
    var s := State(1, [], true);
    assert NextStep(gs, FRESH) == (s, Some(LastOf(gs[0])));
    assert RunMerger(gs, s, []) == [];
  }
}
