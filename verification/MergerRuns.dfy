/** Whole runs of the merging iterator: with a merge function it is a cursor over
    the merged keys, without one it hands out every entry in order. */
module MergerRuns {
  import opened ByteOrder
  import opened Maybe
  import opened MergeView
  import opened MergeOrder
  import opened MergeSource
  import opened MergerModel
  import opened Merger

  // ---------- with a merge function ----------

  /** `out` answers for the outcome the cursor names. */
  ghost predicate Answers(merge: MergeFn, dup: Option<DupSort>, o: Option<Outcome>, out: Option<Entry>) {
    && (out == None <==> o == None)
    && (o.Some? ==> StandsFor(merge, dup, o.value, out.value))
  }

  ghost predicate AllAnswer(merge: MergeFn, dup: Option<DupSort>, os: seq<Option<Outcome>>, outs: seq<Option<Entry>>) {
    |os| == |outs| && forall i :: 0 <= i < |os| ==> Answers(merge, dup, os[i], outs[i])
  }

  /** Any run of next and seek over the merge of any sources answers as the cursor over
      the merged groups does, as long as it never seeks to the key just returned, nor meets an
      empty key before another or with several values. */
  method Run(merge: MergeFn, dup: Option<DupSort>, srcs: Tails, ops: seq<Op>) returns (outs: seq<Option<Entry>>)
    requires DupOk(dup) && AllSorted(srcs) && NeverSkips(Groups(srcs), FRESH, ops)
    ensures AllAnswer(merge, dup, RunCursor(Groups(srcs), 0, ops), outs)
  {
    hide MergerIter.Valid, Groups, RunCursor, NeverSkips, AllAnswer, DupOk, AllSorted;
    var it := Open(merge, dup, srcs);
    var done: nat;
    outs, done := RunOn(it, ops);
    assert ops[..done] == ops;
  }

  /** The same over a new iterator, whatever its sources.  Where they are iterators of tables, the run
      goes on up to the first seek that is stale for one of them (mtbl/reader.c:475-493). */
  method RunOn(it: MergerIter, ops: seq<Op>) returns (outs: seq<Option<Entry>>, done: nat)
    requires it.Valid() && it.Abstract() == FRESH && NeverSkips(it.gs, FRESH, ops)
    modifies it, it.h
    ensures it.Valid() && done <= |ops| && Sources(it.ents) == old(Sources(it.ents))
    ensures it.merge.Some? && AllAnswer(it.merge.value, it.dup, RunCursor(it.gs, 0, ops[..done]), outs)
    ensures done < |ops| ==> !it.given && ops[done].Seek? && !NoneStale(it.ents, ops[done].key)
  {
    hide MergerIter.Valid, Groups, NextStep, SeekStep, KeysRise, Inv, Answers, DupOk, RunCursor, NeverSkips, NoneStale, Sources, AllAnswer, RunSoFar, RunMerger,
         StandsFor;
    ghost var gs := it.gs;
    StateOfFresh(it);
    NothingAnswered(it, gs, ops);
    outs := [];
    ghost var given: seq<Option<Outcome>> := [];
    done := 0;
    while done < |ops|
      invariant done <= |ops| && it.Valid() && Sources(it.ents) == old(Sources(it.ents))
      invariant it.merge.Some? && AllAnswer(it.merge.value, it.dup, given, outs) && RunSoFar(gs, it.Abstract(), ops, done, given)
      decreases |ops| - done
    {
      if ops[done].Seek? && StaleSeek(it.ents, ops[done].key) {
        if it.given { GivenNeverStale(it, ops[done].key); }
        break;
      }
      ghost var s := it.Abstract();
      SoFarOn(gs, s, ops, done, given);
      match ops[done] {
        case Next =>
          ghost var o := NextStep(gs, s).1;
          var out := it.Next();
          OneMoreAnswer(it.merge.value, it.dup, given, outs, o, out);
          outs := outs + [out];
          given := given + [o];
        case Seek(key) =>
          it.Seek(key);
      }
      done := done + 1;
    }
    SoFarDone(gs, it.Abstract(), ops, done, given);
    PrefixNeverSkips(gs, FRESH, ops, done);
    RunMatchesCursor(gs, FRESH, ops[..done]);
  }

  /** After the first `done` calls the answers are those of the model, however many more calls follow. */
  ghost predicate RunSoFar(gs: seq<Group>, s: State, ops: seq<Op>, done: nat, given: seq<Option<Outcome>>) {
    && s.pos <= |gs| && done <= |ops|
    && forall n :: done <= n <= |ops| ==> given + RunMerger(gs, s, ops[done..n]) == RunMerger(gs, FRESH, ops[..n])
  }

  lemma NothingAnswered(it: MergerIter, gs: seq<Group>, ops: seq<Op>)
    requires it.merge.Some?
    ensures RunSoFar(gs, FRESH, ops, 0, []) && AllAnswer(it.merge.value, it.dup, [], [])
  {
  }

  lemma SoFarOn(gs: seq<Group>, s: State, ops: seq<Op>, done: nat, given: seq<Option<Outcome>>)
    requires RunSoFar(gs, s, ops, done, given) && done < |ops|
    ensures s.pos <= |gs|
    ensures match ops[done]
            case Next => var (s2, o) := NextStep(gs, s); RunSoFar(gs, s2, ops, done + 1, given + [o])
            case Seek(key) => RunSoFar(gs, SeekStep(gs, s, key), ops, done + 1, given)
  {
    hide RunMerger;
    forall n | done + 1 <= n <= |ops|
      ensures given + RunMerger(gs, s, ops[done..n]) == RunMerger(gs, FRESH, ops[..n])
      ensures RunMerger(gs, s, ops[done..n]) ==
              match ops[done]
              case Next => var (s2, o) := NextStep(gs, s); [o] + RunMerger(gs, s2, ops[done + 1..n])
              case Seek(key) => RunMerger(gs, SeekStep(gs, s, key), ops[done + 1..n])
    {
      OneOp(gs, s, ops[done..n]);
      assert ops[done..n][1..] == ops[done + 1..n];
    }
  }

  lemma SoFarDone(gs: seq<Group>, s: State, ops: seq<Op>, done: nat, given: seq<Option<Outcome>>)
    requires RunSoFar(gs, s, ops, done, given)
    ensures given == RunMerger(gs, FRESH, ops[..done])
  {
    assert ops[done..done] == [];
    assert given + RunMerger(gs, s, ops[done..done]) == RunMerger(gs, FRESH, ops[..done]);
  }

  /** Looks for a source that would search the wrong block. */
  predicate StaleSeek(es: seq<Ent>, key: Bytes)
    ensures StaleSeek(es, key) <==> !NoneStale(es, key)
  {
    exists i :: 0 <= i < |es| && StaleAt(es[i].from, key)
  }

  lemma OneMoreAnswer(merge: MergeFn, dup: Option<DupSort>, os: seq<Option<Outcome>>, outs: seq<Option<Entry>>,
                      o: Option<Outcome>, out: Option<Entry>)
    requires AllAnswer(merge, dup, os, outs) && (out == None <==> o == None)
    requires o.Some? ==> StandsFor(merge, dup, o.value, out.value)
    ensures AllAnswer(merge, dup, os + [o], outs + [out])
  {
    hide StandsFor;
  }

  lemma StateOf(it: MergerIter)
    requires it.Valid()
    ensures it.pos <= |it.gs| && it.Abstract().pos == it.pos && KeysRise(it.gs) && Inv(it.gs, it.Abstract())
  {
    hide KeysRise, Groups;
    it.Opened();
  }

  lemma StateOfFresh(it: MergerIter)
    requires it.Valid() && it.Abstract() == FRESH
    ensures it.pos == 0 <= |it.gs| && KeysRise(it.gs) && Inv(it.gs, FRESH) && it.merge.Some?
  {
    hide KeysRise, Groups;
    StateOf(it);
  }

  lemma GivenNeverStale(it: MergerIter, key: Bytes)
    requires it.Valid() && it.given
    ensures NoneStale(it.ents, key)
  {
    it.Opened();
  }

  lemma OneOp(gs: seq<Group>, s: State, ops: seq<Op>)
    requires s.pos <= |gs| && |ops| > 0
    ensures RunMerger(gs, s, ops) ==
            match ops[0]
            case Next => var (s2, out) := NextStep(gs, s); [out] + RunMerger(gs, s2, ops[1..])
            case Seek(key) => RunMerger(gs, SeekStep(gs, s, key), ops[1..])
  {
  }

  // ---------- without a merge function ----------

  function Bag(ts: Tails): multiset<Entry> {
    if |ts| == 0 then multiset{} else Bag(ts[..|ts| - 1]) + multiset(ts[|ts| - 1])
  }

  lemma {:induction false} BagUpdate(ts: Tails, i: nat, t: seq<Entry>)
    requires i < |ts|
    ensures Bag(ts[i := t]) + multiset(ts[i]) == Bag(ts) + multiset(t)
  {
    var n := |ts| - 1;
    if i < n {
      assert ts[i := t][..n] == ts[..n][i := t];
      BagUpdate(ts[..n], i, t);
      AddBoth(Bag(ts[..n][i := t]), multiset(ts[i]), Bag(ts[..n]), multiset(t), multiset(ts[n]));
    } else {
      assert ts[i := t][..n] == ts[..n];
    }
  }

  lemma AddBoth(a: multiset<Entry>, b: multiset<Entry>, c: multiset<Entry>, d: multiset<Entry>, x: multiset<Entry>)
    requires a + b == c + d
    ensures (a + x) + b == (c + x) + d
  {
    forall e: Entry ensures ((a + x) + b)[e] == ((c + x) + d)[e] { assert (a + b)[e] == (c + d)[e]; }
  }

  lemma {:induction false} BagTake(ts: Tails, i: nat)
    requires i < |ts| && |ts[i]| > 0
    ensures Bag(ts) == Bag(ts[i := ts[i][1..]]) + multiset{ts[i][0]}
  {
    var t := ts[i];
    assert t == [t[0]] + t[1..];
    assert multiset(t) == multiset{t[0]} + multiset(t[1..]);
    BagUpdate(ts, i, t[1..]);
    TakeAway(Bag(ts[i := t[1..]]), multiset{t[0]}, multiset(t[1..]), Bag(ts));
  }

  lemma TakeAway(a: multiset<Entry>, b: multiset<Entry>, c: multiset<Entry>, d: multiset<Entry>)
    requires a + (b + c) == d + c
    ensures d == a + b
  {
    forall e: Entry ensures d[e] == (a + b)[e] { assert (a + (b + c))[e] == (d + c)[e]; }
  }

  lemma {:induction false} BagEmpty(ts: Tails)
    requires AllEmpty(ts)
    ensures Bag(ts) == multiset{}
  {
    if |ts| > 0 { BagEmpty(ts[..|ts| - 1]); }
  }

  lemma {:induction false} BagOfKept(ts: Tails)
    ensures Bag(Kept(ts)) == Bag(ts)
  {
    if |ts| > 0 {
      var n := |ts| - 1;
      BagOfKept(ts[..n]);
      var k := Kept(ts[..n]);
      assert (k + [ts[n]])[..|k|] == k;
      assert k + [] == k;
    }
  }

  /** Each entry handed out may precede everything left. */
  ghost predicate LeadAll(dup: Option<DupSort>, out: seq<Entry>, ts: Tails) {
    InOrder(dup, out) && forall e <- out :: LeadsFronts(dup, e, ts)
  }

  lemma {:induction false} LeadMore(dup: Option<DupSort>, out: seq<Entry>, ts: Tails, ts2: Tails, e: Entry)
    requires LeadAll(dup, out, ts) && TakesFront(dup, ts, ts2, e) && AllSorted(ts)
    ensures LeadAll(dup, out + [e], ts2) && Bag(ts) == Bag(ts2) + multiset{e} && TotalLength(ts2) < TotalLength(ts)
  {
    hide Leads, Sorted, InOrder;
    var i: nat :| i < |ts| && |ts[i]| > 0 && ts[i][0] == e && ts2 == ts[i := ts[i][1..]];
    assert ts[i] in ts;
    BagTake(ts, i);
    LengthUpdate(ts, i, ts[i][1..]);
    forall x | x in out + [e] ensures LeadsFronts(dup, x, ts2) { FrontPassed(dup, x, ts, i); }
    InOrderSnoc(dup, out, ts, i);
  }

  lemma InOrderSnoc(dup: Option<DupSort>, out: seq<Entry>, ts: Tails, i: nat)
    requires InOrder(dup, out) && i < |ts| && |ts[i]| > 0 && forall e <- out :: LeadsFronts(dup, e, ts)
    ensures InOrder(dup, out + [ts[i][0]])
  {
    hide Leads;
    forall j | 0 <= j < |out| ensures Leads(dup, out[j], ts[i][0]) { assert LeadsFronts(dup, out[j], ts); }
  }

  lemma {:induction false} BagSize(ts: Tails)
    ensures |Bag(ts)| == TotalLength(ts)
  {
    if |ts| > 0 {
      BagSize(ts[..|ts| - 1]);
      assert |multiset(ts[|ts| - 1])| == |ts[|ts| - 1]|;
    }
  }

  /** Only empty keys, and at least one of them. */
  predicate OnlyEmpty(ts: Tails) { !AllEmpty(ts) && AllEmpty(DropKey(ts, [])) }

  lemma KeptEmpty(srcs: Tails)
    ensures Bag(DropKey(Kept(srcs), [])) == Bag(DropKey(srcs, [])) && Bag(Kept(srcs)) == Bag(srcs)
    ensures (AllEmpty(Kept(srcs)) <==> AllEmpty(srcs)) && (OnlyEmpty(Kept(srcs)) <==> OnlyEmpty(srcs))
  {
    hide Bag, Kept, DropKey, AllEmpty, TotalLength;
    BagOfKept(srcs);
    BagOfKept(DropKey(srcs, []));
    BagOfKept(DropKey(Kept(srcs), []));
    KeptDrop(srcs, []);
    BagSize(srcs);
    BagSize(Kept(srcs));
    BagSize(DropKey(srcs, []));
    BagSize(DropKey(Kept(srcs), []));
    NoLength(srcs);
    NoLength(Kept(srcs));
    NoLength(DropKey(srcs, []));
    NoLength(DropKey(Kept(srcs), []));
  }

  /** What draining gives: the entries with non-empty keys in order, or the last entry if there are none of them. */
  ghost predicate Drained(dup: Option<DupSort>, srcs: Tails, out: seq<Entry>) {
    if OnlyEmpty(srcs) then |out| == 1 && out[0].key == [] && IsLast(dup, [], HeadValues(srcs, []), out[0].val)
    else InOrder(dup, out) && multiset(out) == Bag(DropKey(srcs, []))
  }

  /** Everything comes out exactly when no source starts with the empty key, or there is only one entry. */
  lemma AllDrainedIff(dup: Option<DupSort>, srcs: Tails, out: seq<Entry>)
    requires AllSorted(srcs) && Drained(dup, srcs, out)
    ensures multiset(out) == Bag(srcs) <==> NoEmptyFront(srcs) || TotalLength(srcs) == 1
  {
    hide Bag, DropKey, InOrder, AllSorted, NoEmptyFront, TotalLength, HeadValues, IsLast;
    DropEmpty(srcs);
    BagSize(srcs);
    BagSize(DropKey(srcs, []));
    NoLength(srcs);
    NoLength(DropKey(srcs, []));
    if OnlyEmpty(srcs) {
      assert |multiset(out)| == 1;
      LastInBag(dup, srcs, out[0].val);
      if TotalLength(srcs) == 1 { OneOf(Bag(srcs), out[0]); assert out == [out[0]]; }
    }
  }

  lemma OneOf(b: multiset<Entry>, e: Entry)
    requires |b| == 1 && e in b
    ensures b == multiset{e}
  {
    assert b == (b - multiset{e}) + multiset{e};
    assert |b - multiset{e}| == 0;
  }

  /** Without a merge function every entry of every source comes out once, by key and then by
      the duplicate order; an empty key is passed over if another follows. */
  method Drain(dup: Option<DupSort>, srcs: Tails) returns (out: seq<Entry>)
    requires DupOk(dup) && AllSorted(srcs)
    ensures Drained(dup, srcs, out)
    ensures multiset(out) == Bag(srcs) <==> NoEmptyFront(srcs) || TotalLength(srcs) == 1
  {
    hide DupOk, AllSorted, AllEmpty, Kept, Bag, TailsOf, Sources, TakesFront, InOrder, TotalLength, InTurn, AllOk, DropKey, HeadValues,
         NoEmptyFront, MergerIter.HeapMatches, OnlyEmpty, IsLast, SoFarDrained, Drained;
    var it := OpenEach(dup, srcs);
    ghost var all := Kept(srcs);
    DrainStarts(dup, all);
    out := [];
    while true
      invariant fresh(it) && fresh(it.h) && it.Unmerged() && it.dup == dup && SoFarDrained(dup, all, TailsOf(it.ents), out)
      decreases TotalLength(TailsOf(it.ents))
    {
      ghost var was := TailsOf(it.ents);
      TailsSorted(it.ents);
      var e := it.NextEach();
      if e == None {
        DrainEnds(dup, all, was, out);
        break;
      }
      DrainGoesOn(dup, all, was, TailsOf(it.ents), out, e.value);
      out := out + [e.value];
    }
    DrainedOfKept(dup, srcs, out);
    AllDrainedIff(dup, srcs, out);
  }

  /** `ts` is left of all; nothing has come out yet, or what comes out of only empty keys, or non-empty keys in order. */
  ghost predicate SoFarDrained(dup: Option<DupSort>, all: Tails, ts: Tails, out: seq<Entry>) {
    if out == [] then ts == all
    else if OnlyEmpty(all) then AllEmpty(ts) && |out| == 1 && out[0].key == [] && IsLast(dup, [], HeadValues(all, []), out[0].val)
    else NoEmptyFront(ts) && LeadAll(dup, out, ts) && multiset(out) + Bag(ts) == Bag(DropKey(all, []))
  }

  lemma DrainStarts(dup: Option<DupSort>, all: Tails)
    ensures SoFarDrained(dup, all, all, [])
  {
  }

  lemma {:induction false} DrainGoesOn(dup: Option<DupSort>, all: Tails, was: Tails, now: Tails, out: seq<Entry>, e: Entry)
    requires SoFarDrained(dup, all, was, out) && AllSorted(was) && !AllEmpty(was)
    requires if e.key == [] then AllEmpty(now) && now == DropKey(was, []) && IsLast(dup, [], HeadValues(was, []), e.val)
             else TakesFront(dup, DropKey(was, []), now, e)
    ensures SoFarDrained(dup, all, now, out + [e]) && TotalLength(now) < TotalLength(was)
  {
    hide AllSorted, AllEmpty, Bag, TakesFront, InOrder, LeadsFronts, LeadAll, TotalLength, DropKey, HeadValues, NoEmptyFront, IsLast;
    var d := DropKey(was, []);
    DropEmpty(was);
    DropKeepsSorted(was, []);
    NoLength(was);
    NoLength(d);
    if e.key != [] {
      NotAllTaken(dup, d, now, e);
      if out == [] { NothingOut(dup, d); }
      LeadMore(dup, out, d, now, e);
      StillNoEmpty(dup, d, now, e);
      OneOut(out, e, Bag(now), Bag(d));
    }
  }

  lemma OneOut(out: seq<Entry>, e: Entry, a: multiset<Entry>, b: multiset<Entry>)
    requires b == a + multiset{e}
    ensures multiset(out + [e]) + a == multiset(out) + b
  {
  }

  lemma {:induction false} DrainEnds(dup: Option<DupSort>, all: Tails, ts: Tails, out: seq<Entry>)
    requires SoFarDrained(dup, all, ts, out) && AllEmpty(ts)
    ensures Drained(dup, all, out)
  {
    hide AllEmpty, Bag, InOrder, LeadsFronts, DropKey, HeadValues, NoEmptyFront, IsLast, OnlyEmpty;
    EmptyDrained(dup, ts);
  }

  lemma DrainedOfKept(dup: Option<DupSort>, srcs: Tails, out: seq<Entry>)
    requires Drained(dup, Kept(srcs), out)
    ensures Drained(dup, srcs, out)
  {
    hide AllEmpty, Kept, Bag, InOrder, DropKey, HeadValues, OnlyEmpty, IsLast;
    KeptEmpty(srcs);
    KeptHeadValues(srcs, []);
  }

  lemma EmptyDrained(dup: Option<DupSort>, ts: Tails)
    requires AllEmpty(ts)
    ensures Bag(ts) == multiset{} && DropKey(ts, []) == ts && !OnlyEmpty(ts) && InOrder(dup, [])
  {
    BagEmpty(ts);
  }

  lemma {:induction false} HeadInBag(ts: Tails, k: Bytes, v: Bytes)
    requires v in HeadValues(ts, k)
    ensures Entry(k, v) in Bag(ts)
  {
    var n := |ts| - 1;
    if v in HeadValues(ts[..n], k) {
      HeadInBag(ts[..n], k, v);
    } else {
      assert v in HeadValue(ts[n], k);
      assert ts[n][0] == Entry(k, v);
    }
  }

  lemma LastInBag(dup: Option<DupSort>, ts: Tails, v: Bytes)
    requires IsLast(dup, [], HeadValues(ts, []), v)
    ensures Entry([], v) in Bag(ts)
  {
    hide HeadValues, Ascending, Bag;
    var vs :| |vs| > 0 && multiset(vs) == HeadValues(ts, []) && Ascending(dup, [], vs) && v == vs[|vs| - 1];
    assert v in multiset(vs);
    HeadInBag(ts, [], v);
  }

  lemma NotAllTaken(dup: Option<DupSort>, ts: Tails, ts2: Tails, e: Entry)
    requires TakesFront(dup, ts, ts2, e)
    ensures !AllEmpty(ts)
  {
  }

  lemma NothingOut(dup: Option<DupSort>, ts: Tails)
    ensures LeadAll(dup, [], ts)
  {
  }

  // ---------- next and seek without a merge function ----------

  /** The answers are those of a cursor over the sources' entries: `ts` is what it has left. */
  ghost predicate EachRun(dup: Option<DupSort>, srcs: Tails, ts: Tails, ops: seq<Op>, outs: seq<Option<Entry>>)
    decreases |ops|
  {
    if |ops| == 0 then outs == []
    else match ops[0]
      case Next =>
        |outs| > 0 &&
        (if AllEmpty(ts) then outs[0] == None && EachRun(dup, srcs, ts, ops[1..], outs[1..])
         else outs[0].Some? && exists ts2: Tails :: TakesFront(dup, ts, ts2, outs[0].value) && EachRun(dup, srcs, ts2, ops[1..], outs[1..]))
      case Seek(key) => EachRun(dup, srcs, TailsFrom(srcs, key), ops[1..], outs)
  }

  /** Some seek is to the key that `next` returned last; a caller sees this from the calls and the answers. */
  predicate SeeksLast(ops: seq<Op>, outs: seq<Option<Entry>>, last: Bytes)
    decreases |ops|
  {
    |ops| > 0 &&
    match ops[0]
    case Next => |outs| > 0 && SeeksLast(ops[1..], outs[1..], if outs[0].Some? then outs[0].value.key else last)
    case Seek(key) => (key != [] && key == last) || SeeksLast(ops[1..], outs, last)
  }

  /** An entry with this key has been handed out. */
  ghost predicate HandedOut(srcs: Tails, ts: Tails, key: Bytes)
    requires Suffixes(srcs, ts)
  {
    exists i, j :: 0 <= i < |ts| && 0 <= j < |srcs[i]| - |ts[i]| && srcs[i][j].key == key
  }

  /** The remembered key was handed out only if it is the one returned last. */
  ghost predicate Remembers(srcs: Tails, ts: Tails, cur: Bytes, last: Bytes) {
    InTurn(srcs, ts, cur) && (cur != [] && HandedOut(srcs, ts, cur) ==> cur == last)
  }

  lemma TakenIsHandedOut(srcs: Tails, ts: Tails, key: Bytes)
    requires Suffixes(srcs, ts)
    ensures TakenAt(srcs, ts, key) ==> HandedOut(srcs, ts, key)
  {
    if TakenAt(srcs, ts, key) {
      var i :| 0 <= i < |ts| && |ts[i]| < |srcs[i]| && srcs[i][|srcs[i]| - |ts[i]| - 1].key == key;
    }
  }

  lemma NotSkipping(srcs: Tails, ts: Tails, cur: Bytes, last: Bytes, key: Bytes)
    requires Remembers(srcs, ts, cur, last) && (key == [] || key != last)
    ensures !SkipsTaken(srcs, ts, cur, key)
  {
    hide NothingAbove, HandedOutFirst, HandedOut, TakenAt;
    TakenIsHandedOut(srcs, ts, key);
  }

  lemma BelowIsHandedOut(srcs: Tails, key: Bytes, k: Bytes)
    requires Suffixes(srcs, TailsFrom(srcs, key)) && HandedOut(srcs, TailsFrom(srcs, key), k)
    ensures Less(k, key)
  {
    hide Less, LowerBound;
    var i, j :| 0 <= i < |srcs| && 0 <= j < |srcs[i]| - |TailsFrom(srcs, key)[i]| && srcs[i][j].key == k;
    assert j < LowerBound(srcs[i], key);
  }

  lemma AllHandedOut(srcs: Tails, ts: Tails, ts2: Tails, k: Bytes)
    requires Suffixes(srcs, ts) && Suffixes(srcs, ts2) && AllEmpty(ts) && HandedOut(srcs, ts2, k)
    ensures HandedOut(srcs, ts, k)
  {
    var i, j :| 0 <= i < |ts2| && 0 <= j < |srcs[i]| - |ts2[i]| && srcs[i][j].key == k;
    assert j < |srcs[i]| - |ts[i]|;
  }

  /** After a seek that is right, what is remembered is still as it should be. */
  lemma {:induction false} SeekRemembers(srcs: Tails, ts: Tails, cur: Bytes, last: Bytes, key: Bytes, now: Bytes)
    requires AllSorted(srcs) && Remembers(srcs, ts, cur, last) && InTurn(srcs, TailsFrom(srcs, key), now)
    requires now == key || (now == cur && (AllEmpty(ts) || cur == [] || Less(key, cur) || TailsFrom(srcs, key) == ts))
    ensures Remembers(srcs, TailsFrom(srcs, key), now, last)
  {
    hide NothingAbove, HandedOutFirst, Less, Suffixes, TailsFrom, HandedOut, AllEmpty, AllSorted;
    var ts2 := TailsFrom(srcs, key);
    if now != [] && HandedOut(srcs, ts2, now) {
      BelowIsHandedOut(srcs, key, now);
      LessTrichotomy(now, key);
      LessTrichotomy(key, key);
      if AllEmpty(ts) { AllHandedOut(srcs, ts, ts2, now); }
    }
  }

  lemma NoEmptyLeft(srcs: Tails, ts: Tails)
    requires AllSorted(srcs) && NoEmptyFront(srcs) && Suffixes(srcs, ts)
    ensures NoEmptyFront(ts)
  {
    forall i | 0 <= i < |ts| && |ts[i]| > 0 ensures ts[i][0].key != [] {
      assert srcs[i] in srcs;
      assert ts[i][0] == srcs[i][|srcs[i]| - |ts[i]|];
    }
  }

  lemma TakenRemembers(srcs: Tails, ts: Tails, cur: Bytes)
    requires InTurn(srcs, ts, cur)
    ensures Remembers(srcs, ts, cur, cur) && Remembers(srcs, ts, [], cur)
  {
    ClearedInTurn(srcs, ts, cur);
  }

  /** Runs the calls from where the iterator stands; `last` is the key returned last, if any. */
  method EachFrom(it: MergerIter, ops: seq<Op>, ghost last: Bytes) returns (outs: seq<Option<Entry>>)
    requires it.given && it.Unmerged() && AllSorted(Sources(it.ents)) && Remembers(Sources(it.ents), TailsOf(it.ents), it.curKey, last)
    modifies it, it.h
    ensures it.Unmerged() && Sources(it.ents) == old(Sources(it.ents))
    ensures NoEmptyFront(Sources(it.ents)) && !SeeksLast(ops, outs, last) ==>
              EachRun(it.dup, Sources(it.ents), old(TailsOf(it.ents)), ops, outs)
    decreases |ops|
  {
    hide MergerIter.Unmerged, TailsOf, Sources, AllEmpty, AllSorted, TakesFront, TailsFrom, DropKey, HeadValues, NoEmptyFront, Remembers,
         SkipsTaken, InTurn, Groups, DupOk, AllOk, MergerIter.HeapMatches, Suffixes;
    outs := [];
    if |ops| == 0 { return; }
    it.EachOpened();
    ghost var srcs, was, cur := Sources(it.ents), TailsOf(it.ents), it.curKey;
    match ops[0] {
      case Next =>
        ClearedRemembers(srcs, was, cur, last);
        var out := it.NextEach();
        it.EachOpened();
        if out.Some? { TakenRemembers(srcs, TailsOf(it.ents), it.curKey); }
        if NoEmptyFront(srcs) {
          NoEmptyLeft(srcs, was);
          DropEmpty(was);
        }
        var rest := EachFrom(it, ops[1..], if out.Some? then out.value.key else last);
        outs := [out] + rest;
        assert outs[1..] == rest;
      case Seek(key) =>
        if key == [] || key != last { NotSkipping(srcs, was, cur, last, key); }
        it.SeekEach(key);
        it.EachOpened();
        if key == [] || key != last {
          SeekRemembers(srcs, was, cur, last, key, it.curKey);
        } else {
          TakenRemembers(srcs, TailsOf(it.ents), it.curKey);
        }
        outs := EachFrom(it, ops[1..], if key == [] || key != last then last else it.curKey);
    }
  }

  lemma ClearedRemembers(srcs: Tails, ts: Tails, cur: Bytes, last: Bytes)
    requires Remembers(srcs, ts, cur, last)
    ensures Remembers(srcs, ts, [], last)
  {
    ClearedInTurn(srcs, ts, cur);
  }

  /** Any run of next and seek over any sources without empty keys answers as a cursor over their
      entries does, unless it seeks to the key returned last. */
  method RunEach(dup: Option<DupSort>, srcs: Tails, ops: seq<Op>) returns (outs: seq<Option<Entry>>)
    requires DupOk(dup) && AllSorted(srcs)
    ensures NoEmptyFront(srcs) && !SeeksLast(ops, outs, []) ==> EachRun(dup, Kept(srcs), Kept(srcs), ops, outs)
  {
    hide DupOk, AllSorted, Kept, TailsOf, Sources, EachRun, SeeksLast, InTurn, AllOk, MergerIter.HeapMatches, Groups;
    var it := OpenEach(dup, srcs);
    it.EachOpened();
    TakenRemembers(Kept(srcs), Kept(srcs), it.curKey);
    if NoEmptyFront(srcs) { KeptNoEmpty(srcs); }
    outs := EachFrom(it, ops, []);
  }

  lemma KeptNoEmpty(srcs: Tails)
    requires NoEmptyFront(srcs)
    ensures NoEmptyFront(Kept(srcs))
  {
    KeptSame(srcs);
    hide Kept;
    forall m | 0 <= m < |Kept(srcs)| && |Kept(srcs)[m]| > 0 ensures Kept(srcs)[m][0].key != [] {
      var i :| 0 <= i < |srcs| && srcs[i] == Kept(srcs)[m];
    }
  }
}
