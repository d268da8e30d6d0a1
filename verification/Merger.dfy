/** The k-way merging iterator (mtbl/merger.c) on the binary heap, proved
    against MergeView and MergerModel. */
module Merger {
  import opened ByteOrder
  import opened Maybe
  import opened Heap
  import opened MergeView
  import opened MergeOrder
  import opened MergeSource
  import opened MergerModel

  type MergeFn = (Bytes, Bytes, Bytes) -> Bytes

  /** One source iterator with the entry loaded from it; `src` is all it has. */
  datatype Ent = Ent(src: seq<Entry>, from: Source, key: Bytes, val: Bytes, finished: bool) {
    ghost predicate Ok() {
      && SourceOk(src, from)
      && (finished ==> Unread() == [])
      && (!finished ==> |Unread()| < |src| && Entry(key, val) == src[|src| - |Unread()| - 1])
    }

    ghost function Unread(): seq<Entry> { Left(src, from) }

    /** What the source has not yet given to the merge, the loaded entry included. */
    ghost function Tail(): seq<Entry>
      requires !finished ==> |Unread()| < |src|
    {
      if finished then [] else src[|src| - |Unread()| - 1..]
    }
  }

  function Filled(e: Ent): Ent {
    var (from, out) := Load(e.src, e.from);
    if out.Some? then Ent(e.src, from, out.value.key, out.value.val, false) else e.(from := from, finished := true)
  }

  function Sought(e: Ent, key: Bytes): Ent { e.(from := SeekIn(e.src, e.from, key)) }

  ghost predicate AllGiven(es: seq<Ent>) { forall i :: 0 <= i < |es| ==> es[i].from.Given? }

  /** No source would search the wrong block for this key. */
  ghost predicate NoneStale(es: seq<Ent>, key: Bytes) { forall i :: 0 <= i < |es| ==> !StaleAt(es[i].from, key) }

  // ---------- the comparison ----------

  /** By key, then by the duplicate order when there is one; a handle without an entry comes last. */
  function Compare(es: seq<Ent>, dup: Option<DupSort>, i: nat, j: nat): int {
    if i >= |es| && j >= |es| then 0
    else if i >= |es| then 1
    else if j >= |es| then -1
    else
      var c := BytesCompare(es[i].key, es[j].key);
      if c == 0 && dup.Some? then dup.value(es[i].key, es[i].val, es[j].val) else c
  }

  function Order(es: seq<Ent>, dup: Option<DupSort>): (nat, nat) -> int {
    (i: nat, j: nat) => Compare(es, dup, i, j)
  }

  /** The duplicate order is a total preorder on the values of each key. */
  ghost predicate DupOk(dup: Option<DupSort>) {
    dup.Some? ==> forall key :: IsOrder(ValueOrder(dup.value, key))
  }

  function ValueOrder(dup: DupSort, key: Bytes): (Bytes, Bytes) -> int {
    (v: Bytes, w: Bytes) => dup(key, v, w)
  }

  lemma {:induction false} OrderIsOrder(es: seq<Ent>, dup: Option<DupSort>)
    requires DupOk(dup)
    ensures IsOrder(Order(es, dup))
  {
    var cmp := Order(es, dup);
    forall a, b ensures cmp(a, b) <= 0 || cmp(b, a) <= 0 { CompareTotal(es, dup, a, b); }
    forall a, b, c | cmp(a, b) <= 0 && cmp(b, c) <= 0 ensures cmp(a, c) <= 0 { CompareTransitive(es, dup, a, b, c); }
  }

  lemma DupTotal(dup: Option<DupSort>, key: Bytes, v: Bytes, w: Bytes)
    requires DupOk(dup) && dup.Some?
    ensures dup.value(key, v, w) <= 0 || dup.value(key, w, v) <= 0
  {
    var f := ValueOrder(dup.value, key);
    assert IsOrder(f);
    assert f(v, w) <= 0 || f(w, v) <= 0;
  }

  lemma DupTransitive(dup: Option<DupSort>, key: Bytes, u: Bytes, v: Bytes, w: Bytes)
    requires DupOk(dup) && dup.Some? && dup.value(key, u, v) <= 0 && dup.value(key, v, w) <= 0
    ensures dup.value(key, u, w) <= 0
  {
    var f := ValueOrder(dup.value, key);
    assert IsOrder(f);
    assert f(u, v) <= 0 && f(v, w) <= 0;
    assert f(u, w) <= 0;
  }

  lemma CompareTotal(es: seq<Ent>, dup: Option<DupSort>, a: nat, b: nat)
    requires DupOk(dup)
    ensures Compare(es, dup, a, b) <= 0 || Compare(es, dup, b, a) <= 0
  {
    hide DupOk;
    if a < |es| && b < |es| {
      LessTrichotomy(es[a].key, es[b].key);
      if es[a].key == es[b].key && dup.Some? { DupTotal(dup, es[a].key, es[a].val, es[b].val); }
    }
  }

  lemma CompareTransitive(es: seq<Ent>, dup: Option<DupSort>, a: nat, b: nat, c: nat)
    requires DupOk(dup) && Compare(es, dup, a, b) <= 0 && Compare(es, dup, b, c) <= 0
    ensures Compare(es, dup, a, c) <= 0
  {
    hide DupOk;
    if a < |es| && b < |es| && c < |es| {
      var x, y, z := es[a].key, es[b].key, es[c].key;
      LessTrichotomy(x, y);
      LessTrichotomy(y, z);
      LessTrichotomy(x, z);
      LessOrEqualTransitive(x, y, z);
      if x == y == z && dup.Some? { DupTransitive(dup, x, es[a].val, es[b].val, es[c].val); }
    }
  }

  // ---------- folding values ----------

  function FoldValues(merge: MergeFn, key: Bytes, vs: seq<Bytes>): Bytes
    requires |vs| > 0
  {
    if |vs| == 1 then vs[0] else merge(key, FoldValues(merge, key, vs[..|vs| - 1]), vs[|vs| - 1])
  }

  /** `out` merges exactly these values, in some order. */
  ghost predicate IsFold(merge: MergeFn, key: Bytes, vals: multiset<Bytes>, out: Bytes) {
    exists vs: seq<Bytes> :: |vs| > 0 && multiset(vs) == vals && out == FoldValues(merge, key, vs)
  }

  /** As above, in the order in which the duplicate order lets the values come out. */
  ghost predicate IsDupFold(merge: MergeFn, dup: Option<DupSort>, key: Bytes, vals: multiset<Bytes>, out: Bytes) {
    exists vs: seq<Bytes> :: |vs| > 0 && multiset(vs) == vals && Ascending(dup, key, vs) && out == FoldValues(merge, key, vs)
  }

  lemma DupFoldIsFold(merge: MergeFn, dup: Option<DupSort>, key: Bytes, vals: multiset<Bytes>, out: Bytes)
    requires IsDupFold(merge, dup, key, vals, out)
    ensures IsFold(merge, key, vals, out)
  {
    hide FoldValues;
  }

  /** A duplicate order without ties fixes the merged value, whatever the merge function. */
  lemma {:induction false} DupFoldIsUnique(merge: MergeFn, dup: Option<DupSort>, key: Bytes, vals: multiset<Bytes>, a: Bytes, b: Bytes)
    requires NoTies(dup, key) && IsDupFold(merge, dup, key, vals, a) && IsDupFold(merge, dup, key, vals, b)
    ensures a == b
  {
    hide FoldValues, NoTies, Ascending;
    var vs :| |vs| > 0 && multiset(vs) == vals && Ascending(dup, key, vs) && a == FoldValues(merge, key, vs);
    var ws :| |ws| > 0 && multiset(ws) == vals && Ascending(dup, key, ws) && b == FoldValues(merge, key, ws);
    AscendingIsUnique(dup, key, vs, ws);
  }

  /** The last of these values in such an order. */
  ghost predicate IsLast(dup: Option<DupSort>, key: Bytes, vals: multiset<Bytes>, out: Bytes) {
    exists vs: seq<Bytes> :: |vs| > 0 && multiset(vs) == vals && Ascending(dup, key, vs) && out == vs[|vs| - 1]
  }

  ghost predicate StandsFor(merge: MergeFn, dup: Option<DupSort>, o: Outcome, out: Entry) {
    var g := o.group;
    && out.key == g.key
    && if o.Merged? then IsDupFold(merge, dup, g.key, g.vals, out.val) else IsLast(dup, g.key, g.vals, out.val)
  }

  /** What is done to values under the empty key. */
  const OVERWRITE: MergeFn := (key: Bytes, a: Bytes, b: Bytes) => b

  lemma OverwriteLeavesLast(key: Bytes, vs: seq<Bytes>)
    requires |vs| > 0
    ensures FoldValues(OVERWRITE, key, vs) == vs[|vs| - 1]
  {
  }

  /** Overwriting gives what is due under the empty key, a single value being as good as merged. */
  lemma {:induction false} OverwrittenIsDue(merge: MergeFn, dup: Option<DupSort>, g: Group, out: Entry)
    requires g.key == [] == out.key && IsDupFold(OVERWRITE, dup, [], g.vals, out.val)
    ensures StandsFor(merge, dup, Due(g), out)
  {
    hide FoldValues, Ascending;
    var vs :| |vs| > 0 && multiset(vs) == g.vals && Ascending(dup, [], vs) && out.val == FoldValues(OVERWRITE, [], vs);
    OverwriteLeavesLast([], vs);
    if |vs| == 1 { OneFold(merge, [], vs); } else { assert |g.vals| > 1; }
  }

  lemma OneFold(merge: MergeFn, key: Bytes, vs: seq<Bytes>)
    requires |vs| == 1
    ensures FoldValues(merge, key, vs) == vs[0]
  {
  }

  // ---------- the tails the entries stand for ----------

  ghost predicate AllOk(es: seq<Ent>) { forall i :: 0 <= i < |es| ==> es[i].Ok() }

  ghost function TailsOf(es: seq<Ent>): (ts: Tails)
    requires AllOk(es)
    ensures |ts| == |es| && forall i :: 0 <= i < |es| ==> ts[i] == es[i].Tail()
  {
    seq(|es|, i requires 0 <= i < |es| => es[i].Tail())
  }

  ghost function Sources(es: seq<Ent>): (ts: Tails)
    ensures |ts| == |es| && forall i :: 0 <= i < |es| ==> ts[i] == es[i].src
  {
    seq(|es|, i requires 0 <= i < |es| => es[i].src)
  }

  function Live(es: seq<Ent>): (s: set<nat>)
    ensures forall i: nat :: i in s <==> i < |es| && !es[i].finished
  {
    set i: nat | 0 <= i < |es| && !es[i].finished
  }

  lemma FillAdvances(e: Ent)
    requires e.Ok() && !e.finished
    ensures Filled(e).Ok() && Filled(e).src == e.src && |e.Tail()| > 0 && Filled(e).Tail() == e.Tail()[1..]
    ensures e.Tail()[0] == Entry(e.key, e.val) && (Filled(e).from.Given? <==> e.from.Given?)
    ensures Filled(e).finished ==> Filled(e).key == e.key && Filled(e).val == e.val
  {
    FillTakes(e);
    SortedSource(e);
  }

  /** Loading an entry, whatever was loaded before. */
  lemma FillTakes(e: Ent)
    requires SourceOk(e.src, e.from)
    ensures Filled(e).Ok() && Filled(e).src == e.src && (Filled(e).from.Given? <==> e.from.Given?)
    ensures Filled(e).Tail() == Left(e.src, e.from) && (Filled(e).finished <==> Left(e.src, e.from) == [])
  {
    hide Load, Left, Sorted;
    LoadTakes(e.src, e.from);
  }

  lemma SortedSource(e: Ent)
    requires e.Ok()
    ensures Sorted(e.src)
  {
  }

  lemma SeekFills(e: Ent, key: Bytes)
    requires e.Ok() && !StaleAt(e.from, key)
    ensures Filled(Sought(e, key)).Ok() && Filled(Sought(e, key)).src == e.src && (Filled(Sought(e, key)).from.Given? <==> e.from.Given?)
    ensures Filled(Sought(e, key)).Tail() == e.src[LowerBound(e.src, key)..]
    ensures Filled(Sought(e, key)).finished <==> LowerBound(e.src, key) == |e.src|
  {
    hide Filled, Left, SeekIn, Sorted, LowerBound, StaleAt;
    SeekLeaves(e.src, e.from, key);
    FillTakes(Sought(e, key));
  }

  // ---------- one entry changes ----------

  lemma {:induction false} TailsUpdate(es: seq<Ent>, i: nat, e: Ent)
    requires AllOk(es) && i < |es| && e.Ok() && e.src == es[i].src
    ensures AllOk(es[i := e]) && TailsOf(es[i := e]) == TailsOf(es)[i := e.Tail()]
    ensures Sources(es[i := e]) == Sources(es)
  {
  }

  lemma LiveUpdate(es: seq<Ent>, i: nat, e: Ent)
    requires i < |es|
    ensures Live(es[i := e]) == if e.finished then Live(es) - {i} else Live(es) + {i}
  {
  }

  /** Changing the root's entry in place disturbs only comparisons with the root. */
  lemma {:induction false} RootMayMove(v: seq<nat>, es: seq<Ent>, dup: Option<DupSort>, e: Ent)
    requires |v| > 0 && v[0] < |es| && HeapFrom(v, Order(es, dup), 0)
    requires multiset(v)[v[0]] == 1
    ensures HeapFrom(v, Order(es[v[0] := e], dup), 1)
  {
    hide Compare;
    var es2 := es[v[0] := e];
    assert v == [v[0]] + v[1..];
    forall i | 0 < i < |v| && 1 <= Parent(i) ensures Leq(Order(es2, dup), v[Parent(i)], v[i]) {
      assert v[1..][i - 1] in multiset(v[1..]) && v[1..][Parent(i) - 1] in multiset(v[1..]);
      assert Leq(Order(es, dup), v[Parent(i)], v[i]);
      SameComparison(es, es2, dup, v[Parent(i)], v[i]);
    }
  }

  lemma SameComparison(es: seq<Ent>, es2: seq<Ent>, dup: Option<DupSort>, i: nat, j: nat)
    requires |es| == |es2| || (|es| <= |es2| && i < |es| && j < |es|)
    requires i < |es| ==> es2[i].key == es[i].key && es2[i].val == es[i].val
    requires j < |es| ==> es2[j].key == es[j].key && es2[j].val == es[j].val
    ensures Compare(es2, dup, i, j) == Compare(es, dup, i, j)
  {
  }

  /** The root's entry may come out before every other front. */
  lemma {:induction false} RootLeads(v: seq<nat>, es: seq<Ent>, dup: Option<DupSort>)
    requires DupOk(dup) && |v| > 0 && HeapFrom(v, Order(es, dup), 0) && multiset(v) == multiset(Live(es)) && AllOk(es)
    ensures v[0] < |es| && LeadsFronts(dup, Entry(es[v[0]].key, es[v[0]].val), TailsOf(es))
  {
    hide Compare, Sorted, Leads;
    assert v[0] in multiset(v);
    var r := v[0];
    OrderIsOrder(es, dup);
    forall i | 0 <= i < |es| && |TailsOf(es)[i]| > 0 ensures Leads(dup, Entry(es[r].key, es[r].val), TailsOf(es)[i][0]) {
      FillAdvances(es[i]);
      assert i in multiset(v);
      var j :| 0 <= j < |v| && v[j] == i;
      RootIsLeast(v, Order(es, dup), j);
      ComparedLeads(es, dup, r, i);
    }
  }

  lemma ComparedLeads(es: seq<Ent>, dup: Option<DupSort>, i: nat, j: nat)
    requires i < |es| && j < |es| && Compare(es, dup, i, j) <= 0
    ensures Leads(dup, Entry(es[i].key, es[i].val), Entry(es[j].key, es[j].val))
  {
  }

  /** The root holds a least key. */
  lemma {:induction false} RootKeyLeast(v: seq<nat>, es: seq<Ent>, dup: Option<DupSort>)
    requires DupOk(dup) && |v| > 0 && HeapFrom(v, Order(es, dup), 0) && multiset(v) == multiset(Live(es)) && AllOk(es)
    ensures v[0] < |es| && !es[v[0]].finished
    ensures IsLeastHead(TailsOf(es), es[v[0]].key)
  {
    hide Compare, Sorted;
    assert v[0] in multiset(v);
    var r := v[0];
    FillAdvances(es[r]);
    OrderIsOrder(es, dup);
    forall i | 0 <= i < |es| && |TailsOf(es)[i]| > 0 ensures !Less(TailsOf(es)[i][0].key, es[r].key) {
      FillAdvances(es[i]);
      assert i in multiset(v);
      var j :| 0 <= j < |v| && v[j] == i;
      RootIsLeast(v, Order(es, dup), j);
      KeysFollow(es, dup, r, i);
    }
  }

  lemma KeysFollow(es: seq<Ent>, dup: Option<DupSort>, i: nat, j: nat)
    requires i < |es| && j < |es| && Compare(es, dup, i, j) <= 0
    ensures !Less(es[j].key, es[i].key)
  {
  }

  // ---------- the iterator ----------

  class MergerIter {
    const merge: Option<MergeFn>
    const dup: Option<DupSort>
    const h: Heap<nat>
    var ents: seq<Ent>
    var curKey: Bytes
    var curVal: Bytes
    var finished: bool
    var pending: bool
    ghost const gs: seq<Group>
    /** Whether no source is a table's iterator, so that no seek of a source can go wrong. */
    ghost const given: bool
    ghost var pos: nat

    ghost predicate HeapMatches()
      reads this`ents, h
    {
      multiset(h.vec) == multiset(Live(ents)) && HeapFrom(h.vec, Order(ents, dup), 0)
    }

    /** As above, except that the root may be an entry that has just run out. */
    ghost predicate HeapSettles()
      reads this`ents, h
    {
      && HeapFrom(h.vec, Order(ents, dup), 0)
      && (multiset(h.vec) == multiset(Live(ents))
          || (|h.vec| > 0 && h.vec[0] < |ents| && ents[h.vec[0]].finished && multiset(h.vec) == multiset(Live(ents) + {h.vec[0]})))
    }

    ghost predicate Steady()
      reads this`ents
    {
      DupOk(dup) && AllOk(ents) && gs == Groups(Sources(ents)) && (given ==> AllGiven(ents))
    }

    ghost predicate Valid()
      reads this, h
    {
      && merge.Some? && Steady() && HeapMatches() && !pending
      && Inv(gs, State(pos, curKey, finished)) && Groups(TailsOf(ents)) == gs[pos..]
    }

    ghost function Abstract(): State
      reads this
    {
      State(pos, curKey, finished)
    }

    constructor (merge: Option<MergeFn>, dup: Option<DupSort>, ghost gs: seq<Group>, ghost given: bool)
      ensures fresh(h) && h.vec == [] && ents == [] && Abstract() == FRESH && !pending
      ensures this.merge == merge && this.dup == dup && this.gs == gs && this.given == given
    {
      this.merge, this.dup, this.gs, this.given := merge, dup, gs, given;
      h := new Heap<nat>();
      ents, curKey, curVal, finished, pending, pos := [], [], [], false, false, 0;
    }

    /** Sources with nothing to give are left out. */
    method AddSources(ins: seq<Input>)
      requires DupOk(dup) && (forall i <- ins :: InputOk(i)) && (given ==> forall i <- ins :: i.from.Given?)
      requires ents == [] && h.vec == [] && gs == Groups(SrcsOf(ins))
      modifies this`ents, h
      ensures Steady() && HeapMatches() && Groups(TailsOf(ents)) == gs
      ensures Sources(ents) == TailsOf(ents) == Kept(SrcsOf(ins))
    {
      hide Compare, Sorted, Order, Live, Kept, HeapFrom, Groups, InputOk;
      ghost var srcs := SrcsOf(ins);
      NothingYet(dup);
      NothingKept();
      assert srcs[..0] == [];
      var i := 0;
      while i < |ins|
        invariant i <= |ins|
        invariant AllOk(ents) && Sources(ents) == Kept(srcs[..i]) == TailsOf(ents) && HeapMatches()
        invariant (forall j :: 0 <= j < |ents| ==> !ents[j].finished) && (given ==> AllGiven(ents))
      {
        KeptSnoc(srcs, i);
        assert ins[i] in ins;
        AddEntry(ins[i]);
        i := i + 1;
      }
      assert srcs[..i] == srcs;
      KeptIdempotent(srcs);
      GroupsOfKept(srcs, Kept(srcs));
    }

    method AddEntry(inp: Input)
      requires DupOk(dup) && AllOk(ents) && HeapMatches() && InputOk(inp)
      requires forall j :: 0 <= j < |ents| ==> !ents[j].finished
      modifies this`ents, h
      ensures AllOk(ents) && HeapMatches() && (forall j :: 0 <= j < |ents| ==> !ents[j].finished)
      ensures Sources(ents) == old(Sources(ents)) + if |inp.src| > 0 then [inp.src] else []
      ensures TailsOf(ents) == old(TailsOf(ents)) + if |inp.src| > 0 then [inp.src] else []
      ensures old(AllGiven(ents)) && inp.from.Given? ==> AllGiven(ents)
    {
      hide Compare, DupOk, Sorted, HeapFrom, Order, Live, AllOk, TailsOf, Sources, Filled, Left, SourceOk, Ent.Ok, Ent.Tail;
      var ent := Filled(Ent(inp.src, inp.from, [], [], false));
      FillTakes(Ent(inp.src, inp.from, [], [], false));
      if !ent.finished {
        EntsExtend(ents, ent);
        OrderExtends(h.vec, ents, dup, ent);
        LiveExtends(ents, ent);
        var id: nat := |ents|;
        ents := ents + [ent];
        OrderIsOrder(ents, dup);
        h.Push(id, Order(ents, dup));
      }
    }

    method Settle() returns (e: Option<nat>)
      requires Steady() && HeapSettles()
      modifies h
      ensures HeapMatches()
      ensures e == if |h.vec| == 0 then None else Some(h.vec[0])
    {
      hide Compare, DupOk, Sorted, HeapFrom, Order, Live;
      OrderIsOrder(ents, dup);
      while |h.vec| > 0 && h.vec[0] < |ents| && ents[h.vec[0]].finished
        invariant HeapSettles()
        decreases |h.vec|
      {
        ghost var r := h.vec[0];
        assert r in multiset(h.vec);
        SubHeap(h.vec, Order(ents, dup));
        var _ := h.Pop(Order(ents, dup));
        WithoutStale(Live(ents), r);
      }
      if |h.vec| > 0 { assert h.vec[0] in multiset(h.vec); }
      e := if |h.vec| == 0 then None else Some(h.vec[0]);
    }

    /** Loads the next entry of the root's source and restores the heap; a source
        that has run out stays at the root until it is settled. */
    method FillRoot(e: nat)
      requires Steady() && HeapMatches() && |h.vec| > 0 && h.vec[0] == e && e < |ents| && !ents[e].finished
      modifies this`ents, h
      ensures Steady() && HeapSettles() && Sources(ents) == old(Sources(ents))
      ensures TailsOf(ents) == old(TailsOf(ents))[e := old(TailsOf(ents))[e][1..]]
    {
      hide Compare, DupOk, Sorted, HeapFrom, Order, Live, TailsOf, Sources, Load, Left, SourceOk, Filled, Groups, AllGiven;
      var filled := Filled(ents[e]);
      AfterFill(h.vec, ents, dup);
      ents := ents[e := filled];
      if !filled.finished {
        OrderIsOrder(ents, dup);
        assert h.vec[0 := e] == h.vec;
        var _ := h.Replace(e, Order(ents, dup));
      }
    }

    /** With a merge function: takes the least key, merging every source's value for
        it in the duplicate order.  An empty key comes out only when no other is left,
        and then with the last of its values. */
    method Next() returns (out: Option<Entry>)
      requires Valid()
      modifies this`ents, this`curKey, this`curVal, this`finished, this`pending, this`pos, h
      ensures Valid() && old(pos) <= |gs| && Sources(ents) == old(Sources(ents))
      ensures var (s, g) := NextStep(gs, old(Abstract()));
              && Abstract() == s && (out == None <==> g == None)
              && (g.Some? ==> StandsFor(merge.value, dup, g.value, out.value))
    {
      hide Compare, DupOk, AllOk, TailsOf, Sources, IsDupFold, IsTaking, TakenLead, MergerIter.HeapMatches, KeysRise, Inv, AllEmpty, Groups,
           DropKey, HeadValues;
      InvFacts(gs, Abstract());
      if finished { return None; }
      ghost var before := TailsOf(ents);
      TailsSorted(ents);
      GroupsRise(ents);
      NextKeepsInv(gs, Abstract());
      EmptyMeansEnd(gs, pos, before);
      ghost var q := EmptyFronts(gs, pos, before);
      ghost var taken := Collect();
      EmptyMeansEnd(gs, q, DropKey(before, []));
      if pending {
        pending := false;
        LeadAscending(dup, curKey, taken, TailsOf(ents));
        if curKey != [] {
          GroupTaken(merge.value, dup, gs, q, DropKey(before, []), TailsOf(ents), taken, curKey, curVal);
          pos := q + 1;
        } else {
          NoFronts(TailsOf(ents));
          GroupTaken(OVERWRITE, dup, gs, pos, before, TailsOf(ents), taken, [], curVal);
          OverwrittenIsDue(merge.value, dup, gs[pos], Entry([], curVal));
          pos := q;
        }
        out := Some(Entry(curKey, curVal));
      } else {
        out := None;
      }
    }

    /** The loop of `next`: forgets empty keys, then merges fronts while they carry the key taken first. */
    method Collect() returns (ghost taken: seq<Bytes>)
      requires merge.Some? && Steady() && HeapMatches() && !finished && !pending && AllSorted(TailsOf(ents))
      modifies this`ents, this`curKey, this`curVal, this`finished, this`pending, h
      ensures Steady() && HeapMatches() && Sources(ents) == old(Sources(ents))
      ensures finished <==> AllEmpty(TailsOf(ents))
      ensures curKey == [] ==> finished && TailsOf(ents) == DropKey(old(TailsOf(ents)), []) && (pending <==> !AllEmpty(old(TailsOf(ents))))
                               && (pending ==> Taking(OVERWRITE, old(TailsOf(ents)), TailsOf(ents), taken))
      ensures curKey != [] ==> pending && Taking(merge.value, DropKey(old(TailsOf(ents)), []), TailsOf(ents), taken)
                               && forall i :: 0 <= i < |ents| && |TailsOf(ents)[i]| > 0 ==> TailsOf(ents)[i][0].key != curKey
    {
      hide DupOk, Sorted, IsLeastHead, HeadValues, FoldValues, AllOk, TailsOf, Sources, IsTaking, TakenLead, LeadsFronts, MergerIter.HeapMatches,
           MergerIter.HeapSettles, AllSorted, AllEmpty, Groups, TotalLength, PartlyDropped, DropKey, Left, SourceOk, AllGiven, Less,
           EmptiesTaken;
      ghost var before := TailsOf(ents);
      ghost var rest := DropKey(before, []);
      DropKeepsSorted(before, []);
      taken := [];
      curKey, curVal := [], [];
      NoneTaken(dup, before, curVal);
      AlreadySettled();
      while true
        invariant Steady() && HeapSettles() && Sources(ents) == old(Sources(ents)) && !finished
        invariant curKey == [] ==> (pending <==> taken != []) && EmptiesTaken(dup, before, TailsOf(ents), taken, curVal)
        invariant curKey != [] ==> pending && Taking(merge.value, rest, TailsOf(ents), taken)
        decreases TotalLength(TailsOf(ents))
      {
        var e := Settle();
        HeapEmptyMeansDone();
        if e == None {
          NoFronts(TailsOf(ents));
          if curKey == [] { EmptiesDone(dup, before, TailsOf(ents), taken, curVal); }
          finished := true;
          break;
        }
        var r := e.value;
        RootFront();
        ghost var now := TailsOf(ents);
        TailsSorted(ents);
        SortedAt(now, r);
        LengthUpdate(now, r, now[r][1..]);
        if |curKey| == 0 {
          if ents[r].key == [] {
            EmptyTaken(dup, before, now, r, taken, curVal);
            taken := taken + [ents[r].val];
          } else {
            EmptiesPassed(dup, before, now, taken, curVal, ents[r].key);
            FirstTaken(merge.value, now, r, ents[r].key, ents[r].val);
            FirstLeads(dup, now, r, ents[r].key, ents[r].val);
            taken := [ents[r].val];
          }
          curVal := ents[r].val;
          curKey := ents[r].key;
          pending := true;
          FillRoot(r);
        } else if BytesCompare(curKey, ents[r].key) == 0 {
          ghost var v := ents[r].val;
          NextLeads(dup, now, r, curKey, taken, v);
          NextTaken(merge.value, rest, now, taken, r, curKey, curVal, v);
          curVal := merge.value(curKey, curVal, ents[r].val);
          FillRoot(r);
          taken := taken + [v];
        } else {
          TakingFacts(merge.value, rest, now, taken, curKey, curVal);
          FrontsPassed(rest, now, curKey, ents[r].key);
          break;
        }
      }
    }

    lemma AlreadySettled()
      requires HeapMatches()
      ensures HeapSettles()
    {
    }

    /** The root holds a least front. */
    lemma RootFront()
      requires Steady() && HeapMatches() && |h.vec| > 0
      ensures var r := h.vec[0];
              && r < |ents| && !ents[r].finished
              && IsLeastHead(TailsOf(ents), ents[r].key)
              && |TailsOf(ents)[r]| > 0 && TailsOf(ents)[r][0] == Entry(ents[r].key, ents[r].val)
              && LeadsFronts(dup, TailsOf(ents)[r][0], TailsOf(ents))
    {
      hide Compare, Sorted, HeapFrom, Order, Live, DupOk, IsLeastHead, AllOk, LeadsFronts;
      RootLeads(h.vec, ents, dup);
      RootKeyLeast(h.vec, ents, dup);
      RootHead(ents, h.vec[0]);
    }

    /** The values taken so far under curKey, and what the sources have left. */
    ghost predicate Taking(merge: MergeFn, before: Tails, now: Tails, taken: seq<Bytes>)
      reads this`curKey, this`curVal
    {
      IsTaking(merge, before, now, taken, curKey, curVal) && TakenLead(dup, curKey, taken, now)
    }

    /** Moves to the first group at or after the key, except that a forward seek
        never moves back: entries already handed out stay handed out. */
    method Seek(key: Bytes)
      requires Valid() && (given || NoneStale(ents, key))
      modifies this`ents, this`curKey, this`curVal, this`finished, this`pending, this`pos, h
      ensures Valid() && old(pos) <= |gs| && Abstract() == SeekStep(gs, old(Abstract()), key) && Sources(ents) == old(Sources(ents))
    {
      hide AllOk, TailsOf, Sources, MergerIter.HeapMatches, Inv, AllEmpty, Groups, TailsFrom, Sorted, KeysRise, AllSorted,
           SeekStep, SkipsReturned, GroupBound, MergerIter.Valid, DupOk, Less, NoneStale, AllGiven, Left, SourceOk;
      Opened();
      ghost var before, s := TailsOf(ents), Abstract();
      SeekCorrectIffNotSkipping(gs, s, key);
      finished := false;
      pending := false;
      if |h.vec| == 0 || |curKey| == 0 || BytesCompare(key, curKey) < 0 {
        Rebuild(key);
        GroupsFrom(Sources(ents), key);
        pos := GroupBound(gs, key);
        SeekBack(gs, s, key);
      } else {
        RootGroup();
        var changed := Forward(key);
        if changed {
          curVal := [];
          curKey := key;
          GroupsFrom(before, key);
          SeekAhead(gs, s, key, TailsOf(ents));
          pos := GroupBound(gs, key);
        } else {
          SeekStays(gs, s, key);
        }
      }
      Closed();
    }

    /** What holds between calls. */
    lemma Opened()
      requires Valid()
      ensures merge.Some? && Steady() && HeapMatches() && AllOk(ents) && gs == Groups(Sources(ents))
      ensures pos <= |gs| && Groups(TailsOf(ents)) == gs[pos..] && Inv(gs, Abstract()) && KeysRise(gs)
      ensures AllSorted(TailsOf(ents)) && AllSorted(Sources(ents))
      ensures finished ==> pos == |gs|
      ensures AllEmpty(TailsOf(ents)) <==> pos == |gs|
      ensures |h.vec| == 0 <==> pos == |gs|
      ensures Abstract() == State(pos, curKey, finished)
    {
      hide Compare, DupOk, AllOk, TailsOf, Sources, MergerIter.HeapMatches, KeysRise, AllSorted, Sorted, Groups;
      GroupsRise(ents);
      TailsSorted(ents);
      EmptyMeansEnd(gs, pos, TailsOf(ents));
      HeapEmptyMeansDone();
    }

    lemma Closed()
      requires merge.Some? && Steady() && HeapMatches() && !pending && pos <= |gs|
      requires Inv(gs, Abstract()) && AllOk(ents) && Groups(TailsOf(ents)) == gs[pos..]
      ensures Valid()
    {
      hide Compare, DupOk, AllOk, TailsOf, Sources, MergerIter.HeapMatches, Groups, Inv;
    }

    lemma RootGroup()
      requires Steady() && HeapMatches() && |h.vec| > 0 && pos <= |gs| && Groups(TailsOf(ents)) == gs[pos..]
      ensures pos < |gs| && h.vec[0] < |ents| && gs[pos].key == ents[h.vec[0]].key && !ents[h.vec[0]].finished
    {
      hide Groups, DupOk, AllOk, IsLeastHead, MergerIter.HeapMatches;
      RootFront();
      GroupsHead(TailsOf(ents), ents[h.vec[0]].key);
      assert gs[pos] == gs[pos..][0];
    }

    lemma HeapEmptyMeansDone()
      requires Steady() && HeapMatches()
      ensures |h.vec| == 0 <==> AllEmpty(TailsOf(ents))
    {
      if |h.vec| == 0 {
        NoneLive(h.vec, ents);
      } else {
        assert h.vec[0] in multiset(h.vec);
        RootHead(ents, h.vec[0]);
      }
    }

    /** Positions every source at the key and builds the heap afresh. */
    method Rebuild(key: Bytes)
      requires Steady() && (given || NoneStale(ents, key))
      modifies this`ents, h
      ensures Steady() && HeapMatches() && Sources(ents) == old(Sources(ents))
      ensures TailsOf(ents) == TailsFrom(Sources(ents), key)
    {
      hide Compare, DupOk, AllOk, TailsOf, Sources, TailsFrom, HeapFrom, Order, Live, LowerBound, Groups, Filled, Sought,
           MergerIter.HeapMatches, NoneStale, StaleAt, AllGiven, Left, SourceOk;
      h.Clip();
      ghost var was0, was := ents, TailsFrom(Sources(ents), key);
      NoneYet(ents);
      var i := 0;
      while i < |ents|
        invariant i <= |ents| == |was| && was == TailsFrom(Sources(ents), key)
        invariant Steady() && Sources(ents) == old(Sources(ents))
        invariant |was0| == |ents| && forall j :: i <= j < |ents| ==> ents[j] == was0[j]
        invariant multiset(h.vec) == multiset(Live(ents[..i])) && TailsOf(ents)[..i] == was[..i]
      {
        NotStale(was0, ents, i, key, given);
        SoughtOne(ents, i, key);
        var ent := Filled(Sought(ents[i], key));
        ents := ents[i := ent];
        if !ent.finished { h.Append(i); }
        i := i + 1;
      }
      assert ents[..i] == ents && TailsOf(ents)[..i] == TailsOf(ents) && was[..i] == was;
      OrderIsOrder(ents, dup);
      h.Heapify(Order(ents, dup));
      NowMatches();
    }

    lemma NowMatches()
      requires multiset(h.vec) == multiset(Live(ents)) && HeapFrom(h.vec, Order(ents, dup), 0)
      ensures HeapMatches()
    {
      hide Live, HeapFrom, Order;
    }

    /** Seeks only the sources that are behind the key. */
    method Forward(key: Bytes) returns (changed: bool)
      requires (given || NoneStale(ents, key)) && Steady() && HeapMatches() && |h.vec| > 0 && h.vec[0] < |ents| && !finished
      modifies this`ents, this`finished, h
      ensures Steady() && HeapMatches() && Sources(ents) == old(Sources(ents))
      ensures changed <==> Less(old(ents[h.vec[0]].key), key)
      ensures TailsOf(ents) == if changed then TailsFrom(old(TailsOf(ents)), key) else old(TailsOf(ents))
      ensures finished <==> AllEmpty(TailsOf(ents))
    {
      hide Compare, DupOk, AllOk, TailsOf, Sources, Inv, AllEmpty, Groups, TailsFrom, Sorted, AllSorted, IsLeastHead,
           MergerIter.HeapMatches, PartlySought, NoneStale, StaleAt, AllGiven, Left, SourceOk;
      ghost var was0, before := ents, TailsOf(ents);
      changed := false;
      NoneSought(before, key);
      HeapEmptyMeansDone();
      RootIsLive();
      var e := h.vec[0];
      while BytesCompare(key, ents[e].key) > 0
        invariant Steady() && HeapMatches() && Sources(ents) == old(Sources(ents)) && !finished
        invariant PartlySought(before, TailsOf(ents), key)
        invariant |h.vec| > 0 && e == h.vec[0] && e < |ents| && !ents[e].finished
        invariant if changed then Less(old(ents[h.vec[0]].key), key) else ents == old(ents) && h.vec == old(h.vec)
        invariant |was0| == |ents| && forall j :: 0 <= j < |ents| ==> ents[j] == was0[j] || ents[j].finished || !Less(ents[j].key, key)
        decreases TotalLength(TailsOf(ents))
      {
        changed := true;
        NotStale(was0, ents, e, key, given);
        SeekRoot(e, key, before);
        if |h.vec| == 0 { finished := true; break; }
        RootIsLive();
        e := h.vec[0];
      }
      HeapEmptyMeansDone();
      FrontsReached(key);
      if changed { SoughtAll(before, TailsOf(ents), key); }
    }

    /** Seeks the source at the root of the heap, which is behind the key. */
    method SeekRoot(e: nat, key: Bytes, ghost before: Tails)
      requires Steady() && HeapMatches() && |h.vec| > 0 && h.vec[0] == e && e < |ents| && !ents[e].finished
      requires Less(ents[e].key, key) && PartlySought(before, TailsOf(ents), key) && !StaleAt(ents[e].from, key)
      modifies this`ents, h
      ensures |ents| == |old(ents)| && (forall j :: 0 <= j < |ents| && j != e ==> ents[j] == old(ents)[j])
      ensures ents[e].finished || !Less(ents[e].key, key)
      ensures Steady() && HeapMatches() && Sources(ents) == old(Sources(ents))
      ensures PartlySought(before, TailsOf(ents), key) && TotalLength(TailsOf(ents)) < old(TotalLength(TailsOf(ents)))
    {
      hide Compare, DupOk, AllOk, TailsOf, Sources, Groups, TailsFrom, Sorted, HeapFrom, Order, Live, PartlySought, Filled, Sought,
           StaleAt, AllGiven, Left, SourceOk;
      var ent := Filled(Sought(ents[e], key));
      AfterSeek(h.vec, ents, dup, key);
      SoughtRoot(before, ents, e, key);
      ents := ents[e := ent];
      OrderIsOrder(ents, dup);
      if !ent.finished {
        assert h.vec[0 := e] == h.vec;
        var _ := h.Replace(e, Order(ents, dup));
      } else {
        var _ := h.Pop(Order(ents, dup));
      }
    }

    // ---------- without a merge function ----------

    /** What holds between calls when every entry comes out by itself. */
    ghost predicate Unmerged()
      reads this, h
    {
      && merge == None && Steady() && HeapMatches() && !pending
      && (finished ==> AllEmpty(TailsOf(ents)))
      && InTurn(Sources(ents), TailsOf(ents), curKey)
    }

    /** `next` when merging is off: forgets empty keys, then hands out one front that no other
        has to precede.  An empty key comes out only when no other is left. */
    method NextEach() returns (out: Option<Entry>)
      requires Unmerged()
      modifies this`ents, this`curKey, this`curVal, this`finished, this`pending, h
      ensures Unmerged() && Sources(ents) == old(Sources(ents))
      ensures out == None ==> AllEmpty(old(TailsOf(ents))) && TailsOf(ents) == old(TailsOf(ents)) && (curKey == [] || curKey == old(curKey))
      ensures out.Some? ==> !AllEmpty(old(TailsOf(ents))) && curKey == out.value.key
      ensures out.Some? && curKey == [] ==> AllEmpty(TailsOf(ents)) && TailsOf(ents) == DropKey(old(TailsOf(ents)), [])
                                            && IsLast(dup, [], HeadValues(old(TailsOf(ents)), []), out.value.val)
      ensures out.Some? && curKey != [] ==> TakesFront(dup, DropKey(old(TailsOf(ents)), []), TailsOf(ents), out.value)
    {
      hide DupOk, AllOk, TailsOf, Sources, MergerIter.HeapMatches, AllSorted, AllEmpty, Groups, InTurn, TakesFront, DropKey, HeadValues,
           AllGiven, Less, Suffixes, IsLast;
      if finished { return None; }
      ClearedInTurn(Sources(ents), TailsOf(ents), curKey);
      CollectEach();
      if pending {
        pending := false;
        out := Some(Entry(curKey, curVal));
      } else {
        out := None;
      }
    }

    /** The loop of `next` when merging is off. */
    method CollectEach()
      requires merge == None && Steady() && HeapMatches() && !finished && !pending && InTurn(Sources(ents), TailsOf(ents), [])
      modifies this`ents, this`curKey, this`curVal, this`finished, this`pending, h
      ensures Steady() && HeapMatches() && Sources(ents) == old(Sources(ents)) && InTurn(Sources(ents), TailsOf(ents), curKey)
      ensures (finished ==> AllEmpty(TailsOf(ents))) && (pending <==> !AllEmpty(old(TailsOf(ents))))
      ensures !pending ==> curKey == [] && TailsOf(ents) == old(TailsOf(ents))
      ensures pending && curKey == [] ==> AllEmpty(TailsOf(ents)) && TailsOf(ents) == DropKey(old(TailsOf(ents)), [])
                                          && IsLast(dup, [], HeadValues(old(TailsOf(ents)), []), curVal)
      ensures curKey != [] ==> TakesFront(dup, DropKey(old(TailsOf(ents)), []), TailsOf(ents), Entry(curKey, curVal))
    {
      hide DupOk, Sorted, IsLeastHead, AllOk, TailsOf, Sources, LeadsFronts, MergerIter.HeapMatches, MergerIter.HeapSettles,
           AllSorted, AllEmpty, Groups, InTurn, TakesFront, DropKey, HeadValues, EmptiesTaken, TotalLength, Left, SourceOk, AllGiven, Less, Suffixes,
           IsLast, IsTaking, TakenLead, FoldValues;
      ghost var before, srcs := TailsOf(ents), Sources(ents);
      TailsSorted(ents);
      ghost var taken: seq<Bytes> := [];
      curKey, curVal := [], [];
      NoneTaken(dup, before, curVal);
      AlreadySettled();
      while true
        invariant Steady() && HeapSettles() && Sources(ents) == srcs && !finished
        invariant InTurn(srcs, TailsOf(ents), curKey) && (pending <==> taken != []) && (pending ==> !AllEmpty(before))
        invariant curKey == [] ==> EmptiesTaken(dup, before, TailsOf(ents), taken, curVal)
        invariant curKey != [] ==> pending && TakesFront(dup, DropKey(before, []), TailsOf(ents), Entry(curKey, curVal))
        decreases TotalLength(TailsOf(ents))
      {
        var e := Settle();
        HeapEmptyMeansDone();
        if e == None {
          NoFronts(TailsOf(ents));
          if curKey == [] { EmptiesDone(dup, before, TailsOf(ents), taken, curVal); }
          finished := true;
          break;
        }
        if |curKey| != 0 { break; }
        var r := e.value;
        RootFront();
        ghost var now := TailsOf(ents);
        TailsSorted(ents);
        TakesOne(dup, srcs, before, now, r, taken, curVal);
        curVal := ents[r].val;
        curKey := ents[r].key;
        pending := true;
        taken := taken + [curVal];
        FillRoot(r);
      }
    }

    /** `seek` when merging is off.  Every source ends up at the key, except in one
        case: the key is the one just handed out and entries are left. */
    method SeekEach(key: Bytes)
      requires Unmerged() && (given || NoneStale(ents, key))
      modifies this`ents, this`curKey, this`curVal, this`finished, this`pending, h
      ensures Unmerged() && Sources(ents) == old(Sources(ents))
      ensures TailsOf(ents) == TailsFrom(Sources(ents), key) <==>
              !SkipsTaken(Sources(ents), old(TailsOf(ents)), old(curKey), key)
      ensures curKey == if AllEmpty(old(TailsOf(ents))) || old(curKey) == [] || Less(key, old(curKey))
                           || TailsOf(ents) == old(TailsOf(ents)) then old(curKey) else key
    {
      hide DupOk, Sorted, AllOk, TailsOf, Sources, MergerIter.HeapMatches, AllSorted, AllEmpty, Groups, InTurn, SkipsTaken, TailsFrom, Less,
           MergerIter.Unmerged, NoneStale, AllGiven, Left, SourceOk;
      EachOpened();
      ghost var srcs, was, cur := Sources(ents), TailsOf(ents), curKey;
      finished := false;
      pending := false;
      if |h.vec| == 0 || |curKey| == 0 || BytesCompare(key, curKey) < 0 {
        Rebuild(key);
        TurnsBack(srcs, was, cur, key);
      } else {
        TurnsOn(srcs, was, cur, key);
        ForwardEach(key);
      }
      EachClosed();
    }

    /** A forward seek: every source that is behind the key moves. */
    method ForwardEach(key: Bytes)
      requires (given || NoneStale(ents, key)) && Steady() && HeapMatches() && |h.vec| > 0 && !finished
      modifies this`ents, this`curKey, this`curVal, this`finished, h
      ensures Steady() && HeapMatches() && Sources(ents) == old(Sources(ents)) && (finished <==> AllEmpty(TailsOf(ents)))
      ensures TailsOf(ents) == TailsFrom(old(TailsOf(ents)), key)
      ensures curKey == if TailsOf(ents) == old(TailsOf(ents)) then old(curKey) else key
    {
      hide DupOk, Sorted, AllOk, TailsOf, Sources, MergerIter.HeapMatches, AllEmpty, Groups, TailsFrom, Less, NoneStale, AllGiven, Left, SourceOk;
      RootIsLive();
      StaysIffReached(key);
      var changed := Forward(key);
      if changed {
        curVal := [];
        curKey := key;
      }
    }

    lemma EachOpened()
      requires Unmerged()
      ensures merge == None && Steady() && HeapMatches() && !pending && InTurn(Sources(ents), TailsOf(ents), curKey)
      ensures AllSorted(TailsOf(ents)) && AllSorted(Sources(ents)) && (|h.vec| == 0 <==> AllEmpty(TailsOf(ents)))
      ensures Suffixes(Sources(ents), TailsOf(ents))
    {
      hide DupOk, AllOk, TailsOf, Sources, MergerIter.HeapMatches, AllSorted, AllEmpty, Groups, Suffixes, HandedOutFirst, NothingAbove;
      HeapEmptyMeansDone();
      TailsSorted(ents);
    }

    lemma EachClosed()
      requires merge == None && Steady() && HeapMatches() && !pending && InTurn(Sources(ents), TailsOf(ents), curKey)
      requires finished ==> AllEmpty(TailsOf(ents))
      ensures Unmerged()
    {
      hide DupOk, AllOk, TailsOf, Sources, MergerIter.HeapMatches, AllEmpty, Groups, InTurn;
    }

    /** A root that is not behind the key means that no front is. */
    lemma StaysIffReached(key: Bytes)
      requires Steady() && HeapMatches() && |h.vec| > 0 && h.vec[0] < |ents|
      ensures TailsFrom(TailsOf(ents), key) == TailsOf(ents) <==> !Less(ents[h.vec[0]].key, key)
    {
      hide DupOk, Sorted, AllOk, TailsOf, Sources, MergerIter.HeapMatches, TailsFrom, Less, Groups;
      if !Less(ents[h.vec[0]].key, key) {
        FrontsReached(key);
        NoneSought(TailsOf(ents), key);
        SoughtAll(TailsOf(ents), TailsOf(ents), key);
      } else {
        RootIsLive();
        RootHead(ents, h.vec[0]);
        FrontMoves(TailsOf(ents), h.vec[0], key);
      }
    }

    lemma FrontsReached(key: Bytes)
      requires Steady() && HeapMatches()
      requires |h.vec| > 0 ==> h.vec[0] < |ents| && !Less(ents[h.vec[0]].key, key)
      ensures forall i :: 0 <= i < |ents| && |TailsOf(ents)[i]| > 0 ==> !Less(TailsOf(ents)[i][0].key, key)
    {
      hide Compare, DupOk, Sorted, HeapFrom, Order, Live, AllOk, TailsOf, Sources, Groups;
      if |h.vec| == 0 {
        NoneLive(h.vec, ents);
      } else {
        RootKeyLeast(h.vec, ents, dup);
        forall i | 0 <= i < |ents| && |TailsOf(ents)[i]| > 0 ensures !Less(TailsOf(ents)[i][0].key, key) {
          LessOrEqualTransitive(key, ents[h.vec[0]].key, TailsOf(ents)[i][0].key);
        }
      }
    }

    lemma RootIsLive()
      requires HeapMatches() && |h.vec| > 0
      ensures h.vec[0] < |ents| && !ents[h.vec[0]].finished
    {
      assert h.vec[0] in multiset(h.vec);
    }
  }

  ghost predicate IsTaking(merge: MergeFn, before: Tails, now: Tails, taken: seq<Bytes>, key: Bytes, val: Bytes) {
    && IsLeastHead(before, key) && PartlyDropped(before, now, key)
    && |taken| > 0 && val == FoldValues(merge, key, taken)
    && HeadValues(now, key) + multiset(taken) == HeadValues(before, key)
  }

  lemma FrontMoves(ts: Tails, i: nat, key: Bytes)
    requires i < |ts| && |ts[i]| > 0 && Less(ts[i][0].key, key)
    ensures TailsFrom(ts, key) != ts
  {
    hide Less;
    assert |TailsFrom(ts, key)[i]| == |ts[i]| - LowerBound(ts[i], key);
  }

  lemma NoFronts(ts: Tails)
    requires AllEmpty(ts)
    ensures forall i :: 0 <= i < |ts| ==> |ts[i]| == 0
  {
  }

  lemma EmptyMeansEnd(gs: seq<Group>, pos: nat, ts: Tails)
    requires pos <= |gs| && Groups(ts) == gs[pos..]
    ensures AllEmpty(ts) <==> pos == |gs|
  {
  }

  lemma InvFacts(gs: seq<Group>, s: State)
    requires Inv(gs, s)
    ensures s.pos <= |gs| && (s.finished ==> s.pos == |gs|)
  {
  }

  lemma TakingFacts(merge: MergeFn, before: Tails, now: Tails, taken: seq<Bytes>, key: Bytes, val: Bytes)
    requires IsTaking(merge, before, now, taken, key, val)
    ensures IsLeastHead(before, key) && PartlyDropped(before, now, key)
  {
  }

  lemma {:induction false} FirstTaken(merge: MergeFn, before: Tails, r: nat, key: Bytes, val: Bytes)
    requires AllSorted(before) && r < |before| && |before[r]| > 0 && before[r][0] == Entry(key, val)
    requires IsLeastHead(before, key)
    ensures IsTaking(merge, before, before[r := before[r][1..]], [val], key, val)
  {
    hide HeadValues;
    assert before[r] in before;
    TailAbove(before[r]);
    HeadValuesUpdate(before, r, before[r][1..], key);
  }

  lemma {:induction false} NextTaken(merge: MergeFn, before: Tails, now: Tails, taken: seq<Bytes>, r: nat, key: Bytes, cur: Bytes, val: Bytes)
    requires IsTaking(merge, before, now, taken, key, cur) && AllSorted(before)
    requires r < |now| && |now[r]| > 0 && now[r][0] == Entry(key, val)
    ensures IsTaking(merge, before, now[r := now[r][1..]], taken + [val], key, merge(key, cur, val))
  {
    hide HeadValues, IsLeastHead;
    assert before[r] in before;
    TailAbove(before[r]);
    HeadValuesUpdate(now, r, now[r][1..], key);
    assert (taken + [val])[..|taken|] == taken;
    MoveOne(HeadValues(now[r := now[r][1..]], key), val, taken);
  }

  lemma MoveOne(a: multiset<Bytes>, v: Bytes, taken: seq<Bytes>)
    ensures a + multiset(taken + [v]) == (a + multiset{v}) + multiset(taken)
  {
  }

  lemma TailAbove(t: seq<Entry>)
    requires Sorted(t) && |t| > 0
    ensures |t| > 1 ==> t[1].key != t[0].key
  {
    if |t| > 1 { LessTrichotomy(t[0].key, t[1].key); }
  }

  /** With no front left under the key taken, one group has been handed out. */
  lemma {:induction false} GroupTaken(merge: MergeFn, dup: Option<DupSort>, gs: seq<Group>, pos: nat, before: Tails, now: Tails,
                                      taken: seq<Bytes>, key: Bytes, val: Bytes)
    requires IsTaking(merge, before, now, taken, key, val) && pos <= |gs| && Groups(before) == gs[pos..]
    requires Ascending(dup, key, taken)
    requires forall i :: 0 <= i < |now| && |now[i]| > 0 ==> now[i][0].key != key
    ensures pos < |gs| && gs[pos].key == key && IsDupFold(merge, dup, key, gs[pos].vals, val)
    ensures Groups(now) == gs[pos + 1..]
    ensures AllEmpty(now) <==> pos + 1 == |gs|
  {
    hide HeadValues, IsLeastHead, PartlyDropped, FoldValues, Ascending;
    AllDropped(before, now, key);
    GroupsHead(before, key);
    assert multiset{} + multiset(taken) == multiset(taken);
    assert gs[pos] == gs[pos..][0] && gs[pos + 1..] == gs[pos..][1..];
  }

  lemma LeadAscending(dup: Option<DupSort>, key: Bytes, taken: seq<Bytes>, now: Tails)
    requires TakenLead(dup, key, taken, now)
    ensures Ascending(dup, key, taken)
  {
  }

  /** The empty keys taken so far, of which the last value is at hand. */
  ghost predicate EmptiesTaken(dup: Option<DupSort>, before: Tails, now: Tails, taken: seq<Bytes>, last: Bytes) {
    && PartlyDropped(before, now, [])
    && if taken == [] then now == before
       else IsTaking(OVERWRITE, before, now, taken, [], last) && TakenLead(dup, [], taken, now) && !AllEmpty(before)
  }

  lemma NoneTaken(dup: Option<DupSort>, ts: Tails, val: Bytes)
    ensures EmptiesTaken(dup, ts, ts, [], val)
  {
    NoneDropped(ts, []);
  }

  /** One more source's empty key is taken, and its value replaces the one before. */
  lemma {:induction false} EmptyTaken(dup: Option<DupSort>, before: Tails, now: Tails, r: nat, taken: seq<Bytes>, last: Bytes)
    requires AllSorted(before) && EmptiesTaken(dup, before, now, taken, last)
    requires r < |now| && |now[r]| > 0 && now[r][0].key == [] && LeadsFronts(dup, now[r][0], now) && IsLeastHead(now, [])
    ensures EmptiesTaken(dup, before, now[r := now[r][1..]], taken + [now[r][0].val], now[r][0].val)
  {
    hide HeadValues, IsLeastHead, LeadsFronts, Ascending, FoldValues, Sorted;
    var v := now[r][0].val;
    NotAllEmpty(now, r);
    if taken == [] {
      assert taken + [v] == [v];
      FirstTaken(OVERWRITE, now, r, [], v);
      FirstLeads(dup, now, r, [], v);
    } else {
      NextTaken(OVERWRITE, before, now, taken, r, [], last, v);
      NextLeads(dup, now, r, [], taken, v);
    }
  }

  /** A least front that is not empty means that all of them have been taken. */
  lemma EmptiesPassed(dup: Option<DupSort>, before: Tails, now: Tails, taken: seq<Bytes>, last: Bytes, k: Bytes)
    requires EmptiesTaken(dup, before, now, taken, last) && IsLeastHead(now, k) && k != []
    ensures now == DropKey(before, []) && !AllEmpty(before)
  {
    hide DropKey;
    AllDropped(before, now, []);
    var i :| 0 <= i < |now| && |now[i]| > 0 && now[i][0].key == k;
    assert |before[i]| > 0;
    NotAllEmpty(before, i);
  }

  /** With no front left, the value at hand is the last one of the empty key. */
  lemma {:induction false} EmptiesDone(dup: Option<DupSort>, before: Tails, now: Tails, taken: seq<Bytes>, last: Bytes)
    requires EmptiesTaken(dup, before, now, taken, last) && AllEmpty(now)
    ensures now == DropKey(before, []) && (taken == [] <==> AllEmpty(before)) && (taken == [] ==> now == before)
    ensures taken != [] ==> IsTaking(OVERWRITE, before, now, taken, [], last) && TakenLead(dup, [], taken, now)
                            && IsLast(dup, [], HeadValues(before, []), last)
  {
    hide HeadValues, Ascending, FoldValues, DropKey;
    AllDropped(before, now, []);
    if taken != [] {
      LeadAscending(dup, [], taken, now);
      NoHeadValues(now, []);
      assert multiset{} + multiset(taken) == multiset(taken);
      OverwriteLeavesLast([], taken);
    }
  }

  /** Without a merge function: the front taken is the one to hand out, unless its key is empty. */
  lemma {:induction false} TakesOne(dup: Option<DupSort>, srcs: Tails, before: Tails, now: Tails, r: nat, taken: seq<Bytes>, last: Bytes)
    requires AllSorted(before) && AllSorted(now) && EmptiesTaken(dup, before, now, taken, last) && InTurn(srcs, now, [])
    requires r < |now| && |now[r]| > 0 && LeadsFronts(dup, now[r][0], now) && IsLeastHead(now, now[r][0].key)
    ensures var e, next := now[r][0], now[r := now[r][1..]];
            && InTurn(srcs, next, e.key) && !AllEmpty(before) && TotalLength(next) < TotalLength(now)
            && if e.key == [] then EmptiesTaken(dup, before, next, taken + [e.val], e.val)
               else TakesFront(dup, DropKey(before, []), next, e)
  {
    hide LeadsFronts, Sorted, InTurn, TakesFront, DropKey, TotalLength, IsTaking, TakenLead;
    TakePasses(dup, srcs, now, [], r, now[r][0]);
    LengthUpdate(now, r, now[r][1..]);
    if now[r][0].key == [] {
      EmptyTaken(dup, before, now, r, taken, last);
    } else {
      EmptiesPassed(dup, before, now, taken, last, now[r][0].key);
    }
  }

  lemma {:induction false} FrontValue(ts: Tails, i: nat, k: Bytes)
    requires i < |ts| && |ts[i]| > 0 && ts[i][0].key == k
    ensures ts[i][0].val in HeadValues(ts, k)
  {
    if i < |ts| - 1 { FrontValue(ts[..|ts| - 1], i, k); }
  }

  lemma NoneDropped(ts: Tails, k: Bytes)
    ensures PartlyDropped(ts, ts, k)
  {
  }

  /** The empty key is the first group, if any source starts with it. */
  lemma {:induction false} EmptyFronts(gs: seq<Group>, pos: nat, ts: Tails) returns (q: nat)
    requires AllSorted(ts) && pos <= |gs| && Groups(ts) == gs[pos..]
    ensures pos <= q <= |gs| && Groups(DropKey(ts, [])) == gs[q..]
    ensures q == pos ==> DropKey(ts, []) == ts && (pos < |gs| ==> gs[pos].key != [])
    ensures q != pos ==> q == pos + 1 && gs[pos] == Group([], HeadValues(ts, []))
  {
    hide Groups, HeadValues, AllSorted;
    if i :| 0 <= i < |ts| && |ts[i]| > 0 && ts[i][0].key == [] {
      assert IsLeastHead(ts, []);
      GroupsHead(ts, []);
      assert gs[pos] == gs[pos..][0] && gs[pos + 1..] == gs[pos..][1..];
      q := pos + 1;
    } else {
      q := pos;
      assert DropKey(ts, []) == ts;
      if pos < |gs| {
        var k := GroupsStep(ts);
        assert gs[pos] == gs[pos..][0];
      }
    }
  }

  lemma SortedAt(ts: Tails, r: nat)
    requires AllSorted(ts) && r < |ts|
    ensures Sorted(ts[r])
  {
    assert ts[r] in ts;
  }

  lemma {:induction false} GroupsRise(es: seq<Ent>)
    requires AllOk(es)
    ensures KeysRise(Groups(Sources(es)))
  {
    hide Sorted, Groups;
    TailsSorted(es);
    var ts := Sources(es);
    var gs := Groups(ts);
    forall g, h | 0 <= g < h < |gs| ensures Less(gs[g].key, gs[h].key) { GroupsSorted(ts, g, h); }
  }

  lemma {:induction false} TailsSorted(es: seq<Ent>)
    requires AllOk(es)
    ensures AllSorted(TailsOf(es)) && AllSorted(Sources(es))
  {
    forall t | t in TailsOf(es) ensures Sorted(t) { var i :| 0 <= i < |es| && t == TailsOf(es)[i]; }
    forall t | t in Sources(es) ensures Sorted(t) { var i :| 0 <= i < |es| && t == Sources(es)[i]; }
  }

  lemma RootHead(es: seq<Ent>, r: nat)
    requires AllOk(es) && r < |es| && !es[r].finished
    ensures |TailsOf(es)[r]| > 0 && TailsOf(es)[r][0] == Entry(es[r].key, es[r].val)
  {
  }

  lemma NoneLive(v: seq<nat>, es: seq<Ent>)
    requires AllOk(es) && v == [] && multiset(v) == multiset(Live(es))
    ensures AllEmpty(TailsOf(es))
  {
    forall i | 0 <= i < |es| ensures es[i].finished { assert i !in multiset(v); }
  }

  lemma NotAllEmpty(ts: Tails, r: nat)
    requires r < |ts| && |ts[r]| > 0
    ensures !AllEmpty(ts)
  {
  }

  /** An iterator over the merge of the inputs, at its start. */
  method OpenInputs(merge: Option<MergeFn>, dup: Option<DupSort>, ins: seq<Input>, ghost given: bool) returns (it: MergerIter)
    requires DupOk(dup) && (forall i <- ins :: InputOk(i)) && (given ==> forall i <- ins :: i.from.Given?)
    ensures fresh(it) && fresh(it.h) && it.merge == merge && it.dup == dup && it.gs == Groups(SrcsOf(ins)) && it.given == given
    ensures it.Steady() && Sources(it.ents) == TailsOf(it.ents) == Kept(SrcsOf(ins))
    ensures if merge.Some? then it.Valid() && it.Abstract() == FRESH else it.Unmerged() && it.curKey == []
  {
    hide Compare, Sorted, Order, Live, Kept, Groups, HeapFrom, DupOk, InputOk, AllOk, Inv, TailsOf, Sources, InTurn, MergerIter.HeapMatches;
    it := new MergerIter(merge, dup, Groups(SrcsOf(ins)), given);
    it.AddSources(ins);
    StartOfRun(it.gs);
    if merge == None { StartsInTurn(Kept(SrcsOf(ins))); }
  }

  lemma StartsInTurn(srcs: Tails)
    ensures InTurn(srcs, srcs, [])
  {
  }

  /** An iterator over sorted sources. */
  method Open(merge: MergeFn, dup: Option<DupSort>, srcs: Tails) returns (it: MergerIter)
    requires DupOk(dup) && AllSorted(srcs)
    ensures fresh(it) && fresh(it.h) && it.Valid() && it.gs == Groups(srcs) && it.Abstract() == FRESH
    ensures it.merge == Some(merge) && it.dup == dup && it.given
  {
    hide Groups, DupOk, Kept, TailsOf, Sources, Inv, AllOk, MergerIter.Valid, InputOk;
    CursorsOk(srcs);
    it := OpenInputs(Some(merge), dup, Cursors(srcs), true);
  }

  /** The same without a merge function. */
  method OpenEach(dup: Option<DupSort>, srcs: Tails) returns (it: MergerIter)
    requires DupOk(dup) && AllSorted(srcs)
    ensures fresh(it) && fresh(it.h) && it.Unmerged() && it.dup == dup && it.curKey == [] && it.given
    ensures Sources(it.ents) == TailsOf(it.ents) == Kept(srcs)
  {
    hide Groups, DupOk, Kept, TailsOf, Sources, AllOk, InputOk;
    CursorsOk(srcs);
    it := OpenInputs(None, dup, Cursors(srcs), true);
  }

  // ---------- seeking ----------

  ghost predicate PartlySought(before: Tails, now: Tails, key: Bytes) {
    |now| == |before| && forall i :: 0 <= i < |before| ==> now[i] == before[i] || now[i] == TailsFrom(before, key)[i]
  }

  /** The entry loaded from a source that is behind the key is passed over with the others. */
  lemma {:induction false} BoundInTail(src: seq<Entry>, at: nat, key: Bytes)
    requires Sorted(src) && 1 <= at <= |src| && Less(src[at - 1].key, key)
    ensures LowerBound(src, key) >= at
    ensures src[LowerBound(src, key)..] == src[at - 1..][LowerBound(src[at - 1..], key)..]
  {
    hide Less;
    if at > 1 {
      assert Less(src[0].key, key) by { LessTransitive(src[0].key, src[at - 1].key, key); }
      var rest := src[1..];
      BoundInTail(rest, at - 1, key);
      assert rest[at - 2..] == src[at - 1..];
      assert src[LowerBound(src, key)..] == rest[LowerBound(rest, key)..];
    } else {
      assert src[0..] == src;
    }
  }

  /** Seeking a source that is behind the key, seen from its remaining entries. */
  lemma {:induction false} SeekAdvances(e: Ent, key: Bytes)
    requires e.Ok() && !e.finished && Less(e.key, key) && !StaleAt(e.from, key)
    ensures var f := Filled(Sought(e, key));
            && f.Ok() && f.src == e.src && |f.Tail()| < |e.Tail()| && (f.from.Given? <==> e.from.Given?)
            && f.Tail() == e.Tail()[LowerBound(e.Tail(), key)..] && (f.finished || !Less(f.key, key))
  {
    hide Less, Sorted, LowerBound, Left, SourceOk, Filled, Sought;
    SeekFills(e, key);
    SortedSource(e);
    BoundInTail(e.src, |e.src| - |e.Unread()|, key);
    var f := Filled(Sought(e, key));
    if !f.finished {
      assert f.Tail()[0] == Entry(f.key, f.val);
      assert e.src[LowerBound(e.src, key)..][0] == e.src[LowerBound(e.src, key)];
    }
  }

  lemma {:induction false} SoughtRoot(before: Tails, es: seq<Ent>, r: nat, key: Bytes)
    requires AllOk(es) && r < |es| && !es[r].finished && Less(es[r].key, key) && !StaleAt(es[r].from, key)
    requires PartlySought(before, TailsOf(es), key)
    ensures var f := Filled(Sought(es[r], key));
            && f.Ok() && f.src == es[r].src && (f.finished || !Less(f.key, key)) && PartlySought(before, TailsOf(es)[r := f.Tail()], key)
            && TotalLength(TailsOf(es)[r := f.Tail()]) < TotalLength(TailsOf(es))
  {
    hide Less, Filled, Sought, PartlySought, LowerBound, Sorted, Ent.Tail, TotalLength, AllOk;
    EachOk(es, r);
    SeekAdvances(es[r], key);
    SoughtMore(before, TailsOf(es), r, key);
    LengthUpdate(TailsOf(es), r, Filled(Sought(es[r], key)).Tail());
  }

  lemma {:induction false} SoughtMore(before: Tails, now: Tails, r: nat, key: Bytes)
    requires PartlySought(before, now, key) && r < |now|
    ensures PartlySought(before, now[r := now[r][LowerBound(now[r], key)..]], key)
  {
    hide LowerBound, TailsFrom;
    SoughtOnce(before[r], key);
    SoughtUpdate(before, now, r, key, now[r][LowerBound(now[r], key)..]);
  }

  lemma {:induction false} SoughtUpdate(before: Tails, now: Tails, r: nat, key: Bytes, t: seq<Entry>)
    requires PartlySought(before, now, key) && r < |now| && t == TailsFrom(before, key)[r]
    ensures PartlySought(before, now[r := t], key)
  {
    hide LowerBound, TailsFrom;
  }

  /** Seeking again changes nothing. */
  lemma {:induction false} SoughtOnce(t: seq<Entry>, key: Bytes)
    ensures var u := t[LowerBound(t, key)..]; u[LowerBound(u, key)..] == u
  {
    var u := t[LowerBound(t, key)..];
    if |u| > 0 { assert u[0] == t[LowerBound(t, key)]; }
  }

  lemma {:induction false} AfterSeek(v: seq<nat>, es: seq<Ent>, dup: Option<DupSort>, key: Bytes)
    requires AllOk(es) && |v| > 0 && multiset(v) == multiset(Live(es)) && HeapFrom(v, Order(es, dup), 0)
    requires v[0] < |es| && !es[v[0]].finished && !StaleAt(es[v[0]].from, key)
    ensures var f := Filled(Sought(es[v[0]], key));
            var es2 := es[v[0] := f];
            && AllOk(es2) && Sources(es2) == Sources(es) && (AllGiven(es) ==> AllGiven(es2)) && f.Ok() && TailsOf(es2) == TailsOf(es)[v[0] := f.Tail()]
            && HeapFrom(v, Order(es2, dup), 1)
            && multiset(Live(es2)) == if f.finished then multiset(v) - multiset{v[0]} else multiset(v)
  {
    hide Compare, Sorted, HeapFrom, Order, Filled, Sought, Ent.Ok, Load, Left, SourceOk, Ent.Tail, SeekIn, StaleAt;
    EachOk(es, v[0]);
    SeekFills(es[v[0]], key);
    var f := Filled(Sought(es[v[0]], key));
    TailsUpdate(es, v[0], f);
    LiveUpdate(es, v[0], f);
    RootOnce(v, es);
    RootMayMove(v, es, dup, f);
    if f.finished {
      assert Live(es) == Live(es[v[0] := f]) + {v[0]};
    } else {
      assert Live(es) == Live(es[v[0] := f]);
    }
  }

  lemma NoneSought(before: Tails, key: Bytes)
    ensures PartlySought(before, before, key)
  {
  }

  /** Once no front is behind the key, every source has been sought or needed not be. */
  lemma {:induction false} SoughtAll(before: Tails, now: Tails, key: Bytes)
    requires PartlySought(before, now, key)
    requires forall i :: 0 <= i < |now| && |now[i]| > 0 ==> !Less(now[i][0].key, key)
    ensures now == TailsFrom(before, key)
  {
    forall i | 0 <= i < |now| ensures now[i] == TailsFrom(before, key)[i] {
      if now[i] == before[i] { assert LowerBound(now[i], key) == 0; }
    }
  }


  lemma NoneYet(es: seq<Ent>)
    requires AllOk(es)
    ensures var v: seq<nat> := []; multiset(v) == multiset(Live(es[..0])) && TailsOf(es)[..0] == []
  {
    assert Live(es[..0]) == {};
  }

  lemma {:induction false} SoughtOne(es: seq<Ent>, i: nat, key: Bytes)
    requires AllOk(es) && i < |es| && !StaleAt(es[i].from, key)
    ensures var e := Filled(Sought(es[i], key));
            var es2 := es[i := e];
            && AllOk(es2) && Sources(es2) == Sources(es) && (AllGiven(es) ==> AllGiven(es2))
            && multiset(Live(es2[..i + 1])) == multiset(Live(es[..i])) + (if e.finished then multiset{} else multiset{i})
            && TailsOf(es2)[..i + 1] == TailsOf(es)[..i] + [TailsFrom(Sources(es), key)[i]]
            && TailsFrom(Sources(es), key)[..i + 1] == TailsFrom(Sources(es), key)[..i] + [TailsFrom(Sources(es), key)[i]]
  {
    hide AllOk, AllGiven, TailsOf, Live, Sorted, LowerBound, Ent.Ok, Ent.Tail, Filled, Sought, Left, SourceOk, StaleAt, SeekIn;
    EachOk(es, i);
    SeekFills(es[i], key);
    var e := Filled(Sought(es[i], key));
    TailsUpdate(es, i, e);
    LiveUpTo(es, i, e);
    GivenUpdate(es, i, e);
    OneMoreTail(TailsOf(es), TailsFrom(Sources(es), key), i);
  }

  lemma GivenUpdate(es: seq<Ent>, i: nat, e: Ent)
    requires i < |es| && (es[i].from.Given? ==> e.from.Given?)
    ensures AllGiven(es) ==> AllGiven(es[i := e])
  {
  }

  lemma OneMoreTail(ts: Tails, us: Tails, i: nat)
    requires i < |ts| == |us|
    ensures ts[i := us[i]][..i + 1] == ts[..i] + [us[i]] && us[..i + 1] == us[..i] + [us[i]]
  {
  }

  /** A source not yet sought may be sought. */
  lemma NotStale(was: seq<Ent>, es: seq<Ent>, i: nat, key: Bytes, given: bool)
    requires (given || NoneStale(was, key)) && (given ==> AllGiven(es)) && i < |es| == |was| && es[i] == was[i]
    ensures !StaleAt(es[i].from, key)
  {
  }

  lemma EachOk(es: seq<Ent>, i: nat)
    requires AllOk(es) && i < |es|
    ensures es[i].Ok()
  {
  }

  lemma LiveUpTo(es: seq<Ent>, i: nat, e: Ent)
    requires i < |es|
    ensures multiset(Live(es[i := e][..i + 1])) == multiset(Live(es[..i])) + (if e.finished then multiset{} else multiset{i})
  {
    assert Live(es[i := e][..i + 1]) == if e.finished then Live(es[..i]) else Live(es[..i]) + {i};
  }

  lemma SeekBack(gs: seq<Group>, s: State, key: Bytes)
    requires s.pos <= |gs| && (s.pos == |gs| || s.curKey == [] || Less(key, s.curKey))
    ensures SeekStep(gs, s, key) == State(GroupBound(gs, key), s.curKey, false)
  {
  }

  lemma SeekStays(gs: seq<Group>, s: State, key: Bytes)
    requires s.pos < |gs| && s.curKey != [] && !Less(key, s.curKey) && !Less(gs[s.pos].key, key)
    ensures SeekStep(gs, s, key) == s.(finished := false)
  {
  }

  lemma SeekAhead(gs: seq<Group>, s: State, key: Bytes, now: Tails)
    requires KeysRise(gs) && s.pos < |gs| && s.curKey != [] && !Less(key, s.curKey) && Less(gs[s.pos].key, key)
    requires Groups(now) == gs[s.pos..][GroupBound(gs[s.pos..], key)..]
    ensures SeekStep(gs, s, key) == State(GroupBound(gs, key), key, AllEmpty(now))
    ensures Groups(now) == gs[GroupBound(gs, key)..]
  {
    hide Groups, AllEmpty, KeysRise;
    BoundAhead(gs, s.pos, key);
    EmptyMeansEnd(gs, GroupBound(gs, key), now);
  }

  lemma BoundAhead(gs: seq<Group>, pos: nat, key: Bytes)
    requires KeysRise(gs) && pos < |gs| && Less(gs[pos].key, key)
    ensures GroupBound(gs, key) == pos + GroupBound(gs[pos..], key)
    ensures gs[pos..][GroupBound(gs[pos..], key)..] == gs[GroupBound(gs, key)..]
  {
    hide KeysRise, Less;
    var b := GroupBound(gs[pos..], key);
    assert gs[pos..][0] == gs[pos];
    if b > 0 { assert gs[pos + b - 1] == gs[pos..][b - 1]; }
    if pos + b < |gs| { assert gs[pos + b] == gs[pos..][b]; }
    BoundSplits(gs, key, pos + b);
  }

  /** What loading the root's next entry does to everything the heap depends on. */
  lemma {:induction false} AfterFill(v: seq<nat>, es: seq<Ent>, dup: Option<DupSort>)
    requires AllOk(es) && |v| > 0 && multiset(v) == multiset(Live(es)) && HeapFrom(v, Order(es, dup), 0)
    requires v[0] < |es| && !es[v[0]].finished
    ensures var filled := Filled(es[v[0]]);
            var es2 := es[v[0] := filled];
            && AllOk(es2) && Sources(es2) == Sources(es) && (AllGiven(es) ==> AllGiven(es2))
            && |TailsOf(es)[v[0]]| > 0 && TailsOf(es2) == TailsOf(es)[v[0] := TailsOf(es)[v[0]][1..]]
            && (!filled.finished ==> multiset(v) == multiset(Live(es2)) && HeapFrom(v, Order(es2, dup), 1))
            && (filled.finished ==> es2[v[0]].finished && multiset(v) == multiset(Live(es2) + {v[0]}) && HeapFrom(v, Order(es2, dup), 0))
  {
    hide Compare, Sorted, HeapFrom, Order, Load, Left, SourceOk, Filled, Ent.Ok, Ent.Tail;
    var e := v[0];
    var filled := Filled(es[e]);
    FillAdvances(es[e]);
    TailsUpdate(es, e, filled);
    LiveUpdate(es, e, filled);
    RootOnce(v, es);
    RootMayMove(v, es, dup, filled);
    if filled.finished {
      StaleRootStays(v, es, dup, e, filled);
      assert Live(es) == Live(es[e := filled]) + {e};
    } else {
      assert Live(es) == Live(es[e := filled]);
    }
  }

  lemma WithoutStale(live: set<nat>, r: nat)
    requires r !in live
    ensures multiset(live + {r}) - multiset{r} == multiset(live)
  {
  }

  lemma EntsExtend(es: seq<Ent>, e: Ent)
    requires AllOk(es) && e.Ok() && !e.finished && e.Tail() == e.src
    ensures AllOk(es + [e]) && Sources(es + [e]) == Sources(es) + [e.src] && TailsOf(es + [e]) == TailsOf(es) + [e.src]
  {
    hide Sorted, Left, SourceOk;
  }

  lemma LiveExtends(es: seq<Ent>, e: Ent)
    requires !e.finished
    ensures var id: nat := |es|; multiset(Live(es + [e])) == multiset(Live(es)) + multiset{id}
  {
    var id: nat := |es|;
    assert Live(es + [e]) == Live(es) + {id};
  }

  lemma OrderExtends(v: seq<nat>, es: seq<Ent>, dup: Option<DupSort>, e: Ent)
    requires HeapFrom(v, Order(es, dup), 0) && multiset(v) == multiset(Live(es))
    ensures HeapFrom(v, Order(es + [e], dup), 0)
  {
    hide Compare;
    forall i | 0 < i < |v| ensures Leq(Order(es + [e], dup), v[Parent(i)], v[i]) {
      assert v[i] in multiset(v) && v[Parent(i)] in multiset(v);
      assert Leq(Order(es, dup), v[Parent(i)], v[i]);
      SameComparison(es, es + [e], dup, v[Parent(i)], v[i]);
    }
  }

  lemma NothingYet(dup: Option<DupSort>)
    ensures var v: seq<nat> := []; multiset(v) == multiset(Live([])) && HeapFrom(v, Order([], dup), 0)
  {
    assert Live([]) == {};
  }

  lemma StartOfRun(gs: seq<Group>)
    ensures gs[0..] == gs && Inv(gs, State(0, [], false))
  {
  }

  lemma NothingKept()
    ensures Kept([]) == []
  {
  }

  lemma KeptSnoc(ts: Tails, i: nat)
    requires i < |ts|
    ensures Kept(ts[..i + 1]) == Kept(ts[..i]) + if |ts[i]| > 0 then [ts[i]] else []
  {
    assert ts[..i + 1][..i] == ts[..i];
  }

  lemma SubHeap<T>(v: seq<T>, cmp: (T, T) -> int)
    requires HeapFrom(v, cmp, 0)
    ensures HeapFrom(v, cmp, 1)
  {
  }

  lemma RootOnce(v: seq<nat>, es: seq<Ent>)
    requires |v| > 0 && multiset(v) == multiset(Live(es))
    ensures multiset(v)[v[0]] == 1
  {
    assert v[0] in multiset(v);
  }

  /** An entry that has run out keeps its old key, so the order is undisturbed. */
  lemma StaleRootStays(v: seq<nat>, es: seq<Ent>, dup: Option<DupSort>, e: nat, filled: Ent)
    requires e < |es| && HeapFrom(v, Order(es, dup), 0) && filled.key == es[e].key && filled.val == es[e].val
    ensures HeapFrom(v, Order(es[e := filled], dup), 0)
  {
    hide Compare;
    var es2 := es[e := filled];
    forall i | 0 < i < |v| ensures Leq(Order(es2, dup), v[Parent(i)], v[i]) {
      assert Leq(Order(es, dup), v[Parent(i)], v[i]);
      SameComparison(es, es2, dup, v[Parent(i)], v[i]);
    }
  }
}
