/** What gets lost of empty keys in a merge (mtbl/merger.c): an empty `cur_key` means that no key
    has been taken yet, so an empty key is forgotten as soon as another one follows, and each
    of its values is overwritten by the next. */
module MergerEmptyKeys {
  import opened ByteOrder
  import opened Maybe
  import opened MergeView
  import opened MergeOrder
  import opened MergerModel
  import opened Merger
  import opened Heap

  /** Some source holds the empty key, and some source holds another. */
  predicate Hides(srcs: Tails) {
    && (exists i, j :: 0 <= i < |srcs| && 0 <= j < |srcs[i]| && srcs[i][j].key == [])
    && (exists i, j :: 0 <= i < |srcs| && 0 <= j < |srcs[i]| && srcs[i][j].key != [])
  }

  predicate KeyComesOut(out: seq<Entry>, k: Bytes) { exists m :: 0 <= m < |out| && out[m].key == k }

  predicate AllKeysIn(srcs: Tails, out: seq<Entry>) {
    forall i, j :: 0 <= i < |srcs| && 0 <= j < |srcs[i]| ==> KeyComesOut(out, srcs[i][j].key)
  }

  /** The groups that come out of a full iteration. */
  ghost function Seen(gs: seq<Group>): seq<Group> { if Forgets(gs, FRESH) then gs[1..] else gs }

  ghost predicate StandForAll(merge: MergeFn, dup: Option<DupSort>, gs: seq<Group>, out: seq<Entry>) {
    |out| == |gs| && forall m :: 0 <= m < |gs| ==> StandsFor(merge, dup, Due(gs[m]), out[m])
  }

  /** One entry for each group, with all its values merged. */
  ghost predicate MergesAll(merge: MergeFn, dup: Option<DupSort>, gs: seq<Group>, out: seq<Entry>) {
    |out| == |gs| && forall m :: 0 <= m < |gs| ==> StandsFor(merge, dup, Merged(gs[m]), out[m])
  }

  /** No source starts with the empty key, or there is one entry in all. */
  predicate NothingToLose(srcs: Tails) { NoEmptyFront(srcs) || TotalLength(srcs) == 1 }

  /** A merge function whose result is longer than what it merges, so that it shows whether it was called. */
  ghost predicate Grows(merge: MergeFn) {
    forall key, a, b :: |merge(key, a, b)| > |a| && |merge(key, a, b)| > |b|
  }

  /** A full iteration over any sources: one entry for each key seen, and every key of every
      source is seen exactly when the sources do not hide one.  Every value gets merged as
      well if there is nothing to lose; for a merge function that grows, only then. */
  method DrainMerged(merge: MergeFn, dup: Option<DupSort>, srcs: Tails) returns (out: seq<Entry>)
    requires DupOk(dup) && AllSorted(srcs)
    ensures StandForAll(merge, dup, Seen(Groups(srcs)), out)
    ensures AllKeysIn(srcs, out) <==> !Hides(srcs)
    ensures NothingToLose(srcs) ==> MergesAll(merge, dup, Groups(srcs), out)
    ensures Grows(merge) && MergesAll(merge, dup, Groups(srcs), out) ==> NothingToLose(srcs)
  {
    hide MergerIter.Valid, Groups, StandForAll, DupOk, AllSorted, AllKeysIn, Hides, Seen, MergesAll, NothingToLose, Grows;
    var it := Open(merge, dup, srcs);
    out := DrainAll(it);
    SeenKeys(merge, dup, srcs, out);
    MergesAllIff(merge, dup, srcs, out);
  }

  /** Calls `next` on a new iterator until it fails. */
  method DrainAll(it: MergerIter) returns (out: seq<Entry>)
    requires it.Valid() && it.Abstract() == FRESH
    modifies it, it.h
    ensures it.merge.Some? && StandForAll(it.merge.value, it.dup, Seen(it.gs), out)
  {
    hide MergerIter.Valid, Groups, KeysRise, Inv, StandsFor, DupOk, AllSorted;
    ghost var gs := it.gs;
    ghost var skip := if Forgets(gs, FRESH) then 1 else 0;
    it.Opened();
    out := [];
    while true
      invariant it.Valid() && KeysRise(gs)
      invariant if out == [] then it.Abstract() == FRESH else it.pos == |out| + skip
      invariant it.pos <= |gs| && |out| + skip <= |gs| && (it.finished ==> it.pos == |gs|)
      invariant forall m :: 0 <= m < |out| ==> StandsFor(it.merge.value, it.dup, Due(gs[m + skip]), out[m])
      decreases |gs| - |out|
    {
      OnlyFirstForgotten(gs, it.Abstract());
      var e := it.Next();
      if e == None { break; }
      out := out + [e.value];
    }
  }

  /** A key is missing exactly when it is the empty one and another is there. */
  lemma {:induction false} SeenKeys(merge: MergeFn, dup: Option<DupSort>, srcs: Tails, out: seq<Entry>)
    requires AllSorted(srcs) && StandForAll(merge, dup, Seen(Groups(srcs)), out)
    ensures AllKeysIn(srcs, out) <==> !Hides(srcs)
  {
    hide Groups, AllSorted, Less, IsDupFold, IsLast;
    var gs := Groups(srcs);
    ForgetsIffHides(srcs);
    if Hides(srcs) {
      var i, j :| 0 <= i < |srcs| && 0 <= j < |srcs[i]| && srcs[i][j].key == [];
      forall m | 0 <= m < |out| ensures out[m].key != [] {
        assert gs[1..][m] == gs[m + 1];
        GroupsSorted(srcs, 0, m + 1);
        LessTrichotomy(gs[0].key, gs[m + 1].key);
      }
      assert !KeyComesOut(out, srcs[i][j].key);
    } else {
      forall i, j | 0 <= i < |srcs| && 0 <= j < |srcs[i]| ensures KeyComesOut(out, srcs[i][j].key) {
        var g := GroupsHaveEveryKey(srcs, i, j);
        assert out[g].key == srcs[i][j].key;
      }
    }
  }

  lemma {:induction false} ForgetsIffHides(srcs: Tails)
    requires AllSorted(srcs)
    ensures Forgets(Groups(srcs), FRESH) <==> Hides(srcs)
  {
    hide Groups, AllSorted;
    var gs := Groups(srcs);
    if Forgets(gs, FRESH) {
      var i, j := GroupKeyFrom(srcs, 0);
      var i2, j2 := GroupKeyFrom(srcs, 1);
      GroupsSorted(srcs, 0, 1);
      assert srcs[i][j].key == [] && srcs[i2][j2].key != [];
    }
    if Hides(srcs) {
      var i, j :| 0 <= i < |srcs| && 0 <= j < |srcs[i]| && srcs[i][j].key == [];
      var i2, j2 :| 0 <= i2 < |srcs| && 0 <= j2 < |srcs[i2]| && srcs[i2][j2].key != [];
      var g := GroupsHaveEveryKey(srcs, i, j);
      var g2 := GroupsHaveEveryKey(srcs, i2, j2);
      if g > 0 { GroupsSorted(srcs, 0, g); }
    }
  }

  // ---------- values ----------

  /** A fold of several values is longer than each of them. */
  lemma {:induction false} FoldGrows(merge: MergeFn, key: Bytes, vs: seq<Bytes>, i: nat)
    requires Grows(merge) && i < |vs|
    ensures |FoldValues(merge, key, vs)| >= |vs[i]|
    ensures |vs| > 1 ==> |FoldValues(merge, key, vs)| > |vs[i]|
  {
    var n := |vs| - 1;
    if n > 0 {
      FoldGrows(merge, key, vs[..n], if i < n then i else 0);
      var a := FoldValues(merge, key, vs[..n]);
      assert |merge(key, a, vs[n])| > |a| && |merge(key, a, vs[n])| > |vs[n]|;
    }
  }

  lemma {:induction false} LastIsNoFold(merge: MergeFn, dup: Option<DupSort>, key: Bytes, vals: multiset<Bytes>, v: Bytes)
    requires Grows(merge) && |vals| > 1 && IsLast(dup, key, vals, v)
    ensures !IsFold(merge, key, vals, v)
  {
    hide FoldValues, Ascending, Grows;
    var vs :| |vs| > 0 && multiset(vs) == vals && Ascending(dup, key, vs) && v == vs[|vs| - 1];
    assert v in multiset(vs);
    if IsFold(merge, key, vals, v) {
      var ws: seq<Bytes> :| |ws| > 0 && multiset(ws) == vals && v == FoldValues(merge, key, ws);
      assert |multiset(ws)| == |ws| && v in multiset(ws);
      var i :| 0 <= i < |ws| && ws[i] == v;
      FoldGrows(merge, key, ws, i);
    }
  }

  /** A key has at most as many values as there are entries, and if there is no other key, as many. */
  lemma {:induction false} ValuesInCount(t: seq<Entry>, k: Bytes)
    ensures |ValuesIn(t, k)| <= |t|
    ensures (forall e <- t :: e.key == k) ==> |ValuesIn(t, k)| == |t|
  {
    if |t| > 0 {
      ValuesInCount(t[1..], k);
      if forall e <- t :: e.key == k { assert forall e <- t[1..] :: e in t; }
    }
  }

  lemma {:induction false} ValuesCount(ts: Tails, k: Bytes)
    ensures |ValuesUnder(ts, k)| <= TotalLength(ts)
    ensures (forall t <- ts, e <- t :: e.key == k) ==> |ValuesUnder(ts, k)| == TotalLength(ts)
  {
    hide ValuesIn;
    if |ts| > 0 {
      var n := |ts| - 1;
      ValuesCount(ts[..n], k);
      ValuesInCount(ts[n], k);
      if forall t <- ts, e <- t :: e.key == k {
        assert forall t <- ts[..n], e <- t :: t in ts && e.key == k;
        assert ts[n] in ts;
      }
    }
  }

  lemma {:induction false} MergesAllIff(merge: MergeFn, dup: Option<DupSort>, srcs: Tails, out: seq<Entry>)
    requires AllSorted(srcs) && StandForAll(merge, dup, Seen(Groups(srcs)), out)
    ensures NothingToLose(srcs) ==> MergesAll(merge, dup, Groups(srcs), out)
    ensures Grows(merge) && MergesAll(merge, dup, Groups(srcs), out) ==> NothingToLose(srcs)
  {
    hide Groups, AllSorted, Less, StandsFor, NothingToLose, Grows;
    var gs := Groups(srcs);
    if NothingToLose(srcs) {
      NothingLost(srcs);
      assert Seen(gs) == gs;
    } else if Grows(merge) && MergesAll(merge, dup, gs, out) {
      EmptyFirst(srcs);
      assert Seen(gs) == gs;
      StillStands(merge, dup, gs[0], out[0]);
    }
  }

  lemma StillStands(merge: MergeFn, dup: Option<DupSort>, g: Group, e: Entry)
    requires g.key == [] && |g.vals| > 1 && StandsFor(merge, dup, Due(g), e) && Grows(merge)
    ensures !StandsFor(merge, dup, Merged(g), e)
  {
    hide Grows, IsLast, IsFold, IsDupFold;
    LastIsNoFold(merge, dup, [], g.vals, e.val);
    if IsDupFold(merge, dup, [], g.vals, e.val) { DupFoldIsFold(merge, dup, [], g.vals, e.val); }
  }

  lemma {:induction false} NothingLost(srcs: Tails)
    requires AllSorted(srcs) && NothingToLose(srcs)
    ensures !Forgets(Groups(srcs), FRESH) && forall m :: 0 <= m < |Groups(srcs)| ==> Due(Groups(srcs)[m]) == Merged(Groups(srcs)[m])
  {
    hide Groups, AllSorted, IsLeastHead, DropKey, ValuesUnder;
    var gs := Groups(srcs);
    if NoEmptyFront(srcs) {
      forall m | 0 <= m < |gs| ensures gs[m].key != [] {
        if m > 0 { GroupsSorted(srcs, 0, m); } else { FirstNotEmpty(srcs); }
      }
    } else if |gs| > 0 {
      var k := GroupsStep(srcs);
      OneGroup(srcs, k);
      GroupsHoldAllValues(srcs, 0);
      ValuesCount(srcs, gs[0].key);
    }
  }

  lemma FirstNotEmpty(srcs: Tails)
    requires NoEmptyFront(srcs) && |Groups(srcs)| > 0
    ensures Groups(srcs)[0].key != []
  {
    hide Groups, HeadValues;
    var k := GroupsStep(srcs);
  }

  lemma {:induction false} OneGroup(srcs: Tails, k: Bytes)
    requires TotalLength(srcs) == 1 && IsLeastHead(srcs, k)
    ensures |Groups(srcs)| == 1
  {
    hide TotalLength, HeadValues;
    GroupsHead(srcs, k);
    DropShortens(srcs, k);
    NoLength(DropKey(srcs, k));
  }

  /** Something to lose: the empty key comes first, before another or with several values. */
  lemma {:induction false} EmptyFirst(srcs: Tails)
    requires AllSorted(srcs) && !NothingToLose(srcs)
    ensures var gs := Groups(srcs); |gs| > 0 && gs[0].key == [] && (|gs| == 1 ==> |gs[0].vals| > 1)
  {
    hide Groups, AllSorted, HeadValues, TotalLength, ValuesUnder;
    var i :| 0 <= i < |srcs| && |srcs[i]| > 0 && srcs[i][0].key == [];
    assert IsLeastHead(srcs, []);
    GroupsHead(srcs, []);
    var gs := Groups(srcs);
    if |gs| == 1 {
      GroupsHoldAllValues(srcs, 0);
      forall t, e | t in srcs && e in t ensures e.key == [] {
        var a :| 0 <= a < |srcs| && srcs[a] == t;
        var b :| 0 <= b < |t| && t[b] == e;
        var g := GroupsHaveEveryKey(srcs, a, b);
      }
      ValuesCount(srcs, []);
      NoLength(srcs);
    }
  }

  // ---------- failing runs ----------

  const LOST := Entry([], [1])
  const FOUND := Entry([7], [2])

  function TwoSources(): Tails { [[LOST], [FOUND]] }

  /** Two sources, one entry each: the empty key does not come out. */
  method EmptyKeyLost(merge: MergeFn) returns (out: seq<Entry>)
    ensures |out| == 1 && out[0].key == FOUND.key && !KeyComesOut(out, LOST.key)
  {
    hide Groups, StandForAll, AllSorted, AllKeysIn, Hides, TwoSources;
    TwoGroups();
    out := DrainMerged(merge, None, TwoSources());
    OnlyFound(merge, Groups(TwoSources()), out);
  }

  lemma OnlyFound(merge: MergeFn, gs: seq<Group>, out: seq<Entry>)
    requires StandForAll(merge, None, Seen(gs), out) && |gs| == 2 && gs[0].key == LOST.key && gs[1].key == FOUND.key
    ensures |out| == 1 && out[0].key == FOUND.key && !KeyComesOut(out, LOST.key)
  {
    hide IsDupFold;
  }

  lemma TwoGroups()
    ensures DupOk(None) && AllSorted(TwoSources()) && |Groups(TwoSources())| == 2
    ensures Groups(TwoSources())[0].key == LOST.key && Groups(TwoSources())[1].key == FOUND.key
  {
    var rest: Tails := [[], [FOUND]];
    FirstGroup(rest);
    SecondGroup(rest);
  }

  lemma FirstGroup(rest: Tails)
    requires rest == [[], [FOUND]]
    ensures exists vs: multiset<Bytes> :: Groups(TwoSources()) == [Group([], vs)] + Groups(rest)
  {
    hide Groups, HeadValues;
    var ts := TwoSources();
    assert ts[0][0] == LOST;
    assert IsLeastHead(ts, []);
    GroupsHead(ts, []);
    assert DropKey(ts, []) == rest;
  }

  lemma SecondGroup(rest: Tails)
    requires rest == [[], [FOUND]]
    ensures |Groups(rest)| == 1 && Groups(rest)[0].key == FOUND.key
  {
    hide HeadValues;
    assert rest[1][0] == FOUND;
    assert IsLeastHead(rest, [7]);
    GroupsHead(rest, [7]);
    assert AllEmpty(DropKey(rest, [7]));
  }

  const ONE := Entry([], [1])
  const TWO := Entry([], [2])

  /** A merge function that appends. */
  const JOIN: MergeFn := (key: Bytes, a: Bytes, b: Bytes) => a + b

  function SameKeySources(): Tails { [[ONE], [TWO]] }

  /** Two sources, one entry each under the empty key: every key comes out, but only one of the values does. */
  method EmptyValuesLost() returns (out: seq<Entry>)
    ensures !Hides(SameKeySources()) && AllKeysIn(SameKeySources(), out)
    ensures |out| == 1 && out[0].key == [] && !IsFold(JOIN, [], multiset{ONE.val, TWO.val}, out[0].val)
  {
    hide Groups, StandForAll, AllSorted, AllKeysIn, Hides, SameKeySources;
    SameKeyGroup();
    out := DrainMerged(JOIN, None, SameKeySources());
    OneOfTwo(Groups(SameKeySources()), out);
  }

  lemma {:induction false} SameKeyGroup()
    ensures DupOk(None) && AllSorted(SameKeySources()) && !Hides(SameKeySources())
    ensures Groups(SameKeySources()) == [Group([], multiset{ONE.val, TWO.val})]
  {
    hide Groups, HeadValues;
    var ts := SameKeySources();
    assert ts[0][0] == ONE && ts[1][0] == TWO;
    assert IsLeastHead(ts, []);
    GroupsHead(ts, []);
    assert AllEmpty(DropKey(ts, []));
    assert Groups(DropKey(ts, [])) == [] by { NothingLeft(DropKey(ts, [])); }
    TwoHeadValues(ts, ONE, TWO);
  }

  lemma NothingLeft(ts: Tails)
    requires AllEmpty(ts)
    ensures Groups(ts) == []
  {
  }

  lemma TwoHeadValues(ts: Tails, a: Entry, b: Entry)
    requires ts == [[a], [b]] && a.key == b.key
    ensures HeadValues(ts, a.key) == multiset{a.val, b.val}
  {
    assert ts[..1] == [[a]] && ts[..1][..0] == [];
    LastHeadValue(ts[..1], a.key);
    LastHeadValue(ts, a.key);
  }

  lemma OneOfTwo(gs: seq<Group>, out: seq<Entry>)
    requires gs == [Group([], multiset{ONE.val, TWO.val})] && StandForAll(JOIN, None, Seen(gs), out)
    ensures |out| == 1 && out[0].key == [] && !IsFold(JOIN, [], multiset{ONE.val, TWO.val}, out[0].val)
  {
    hide FoldValues, Ascending;
    var vals := multiset{ONE.val, TWO.val};
    assert |vals| == 2 && Due(gs[0]) == LastOf(gs[0]);
    assert StandsFor(JOIN, None, Due(gs[0]), out[0]);
    var vs: seq<Bytes> :| |vs| > 0 && multiset(vs) == vals && Ascending(None, [], vs) && out[0].val == vs[|vs| - 1];
    assert out[0].val in multiset(vs);
    if IsFold(JOIN, [], vals, out[0].val) {
      var ws: seq<Bytes> :| |ws| > 0 && multiset(ws) == vals && out[0].val == FoldValues(JOIN, [], ws);
      assert |multiset(ws)| == |ws| && ws[0] in multiset(ws) && ws[1] in multiset(ws);
      Joined([], ws);
    }
  }

  lemma Joined(key: Bytes, ws: seq<Bytes>)
    requires |ws| == 2
    ensures FoldValues(JOIN, key, ws) == ws[0] + ws[1]
  {
    assert ws[..1] == [ws[0]];
  }

  // ---------- the order of a merge ----------

  /** Values by the order of their bytes. */
  const BY_VALUE: DupSort := (key: Bytes, a: Bytes, b: Bytes) => BytesCompare(a, b)

  const LATER := Entry([7], [2])
  const SOONER := Entry([7], [1])

  function OneKeySources(): Tails { [[LATER], [SOONER]] }

  /** Whatever the order of the sources, values come in the duplicate order, the one merged so far on the left. */
  method JoinsInOrder() returns (out: seq<Entry>)
    ensures out == [Entry([7], [1, 2])]
  {
    hide Groups, StandForAll, AllSorted, AllKeysIn, Hides, OneKeySources, MergesAll;
    OneKeyGroup();
    out := DrainMerged(JOIN, Some(BY_VALUE), OneKeySources());
    InValueOrder(Groups(OneKeySources()), out);
  }

  lemma {:induction false} OneKeyGroup()
    ensures DupOk(Some(BY_VALUE)) && AllSorted(OneKeySources()) && NothingToLose(OneKeySources())
    ensures Groups(OneKeySources()) == [Group([7], multiset{LATER.val, SOONER.val})]
  {
    hide Groups, HeadValues;
    ByValueIsOrder();
    var ts := OneKeySources();
    assert ts[0][0] == LATER && ts[1][0] == SOONER;
    LessTrichotomy([7], [7]);
    assert IsLeastHead(ts, [7]);
    GroupsHead(ts, [7]);
    assert AllEmpty(DropKey(ts, [7]));
    NothingLeft(DropKey(ts, [7]));
    TwoHeadValues(ts, LATER, SOONER);
  }

  lemma InValueOrder(gs: seq<Group>, out: seq<Entry>)
    requires gs == [Group([7], multiset{LATER.val, SOONER.val})] && MergesAll(JOIN, Some(BY_VALUE), gs, out)
    ensures out == [Entry([7], [1, 2])]
  {
    hide FoldValues, Ascending;
    var vals, v := multiset{LATER.val, SOONER.val}, out[0].val;
    assert StandsFor(JOIN, Some(BY_VALUE), Merged(gs[0]), out[0]);
    var vs: seq<Bytes> :| |vs| > 0 && multiset(vs) == vals && Ascending(Some(BY_VALUE), [7], vs) && v == FoldValues(JOIN, [7], vs);
    OnlyOrder(vs);
    Joined([7], vs);
    assert v == [1, 2] && out == [out[0]];
  }

  lemma OnlyOrder(vs: seq<Bytes>)
    requires multiset(vs) == multiset{LATER.val, SOONER.val} && Ascending(Some(BY_VALUE), [7], vs)
    ensures vs == [[1], [2]]
  {
    assert |multiset{LATER.val, SOONER.val}| == 2 && |multiset(vs)| == |vs|;
    var a, b := vs[0], vs[1];
    assert vs == [a, b];
    assert multiset(vs) == multiset{a, b};
    assert a in multiset(vs) && b in multiset(vs) && LATER.val in multiset(vs) && SOONER.val in multiset(vs);
    assert Leads(Some(BY_VALUE), Entry([7], a), Entry([7], b));
    assert !Leads(Some(BY_VALUE), LATER, SOONER);
  }

  lemma ByValueIsOrder()
    ensures DupOk(Some(BY_VALUE))
  {
    forall key: Bytes ensures IsOrder(ValueOrder(BY_VALUE, key)) {
      var f := ValueOrder(BY_VALUE, key);
      forall a: Bytes, b: Bytes ensures f(a, b) <= 0 || f(b, a) <= 0 { LessTrichotomy(a, b); }
      forall a: Bytes, b: Bytes, c: Bytes | f(a, b) <= 0 && f(b, c) <= 0 ensures f(a, c) <= 0 {
        LessTrichotomy(a, b);
        LessTrichotomy(b, c);
        LessTrichotomy(a, c);
        LessOrEqualTransitive(a, b, c);
      }
    }
  }
}
