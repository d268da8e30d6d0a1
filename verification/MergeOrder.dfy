/** The order in which merged entries come out: by key and, for one key, by the
    duplicate order when there is one (mtbl/merger.c, _mtbl_merger_compare). */
module MergeOrder {
  import opened ByteOrder
  import opened Maybe
  import opened MergeView

  type DupSort = (Bytes, Bytes, Bytes) -> int

  /** `a` may come out before `b`. */
  predicate Leads(dup: Option<DupSort>, a: Entry, b: Entry) {
    Less(a.key, b.key) || (a.key == b.key && (dup.Some? ==> dup.value(a.key, a.val, b.val) <= 0))
  }

  ghost predicate InOrder(dup: Option<DupSort>, es: seq<Entry>) {
    forall i, j :: 0 <= i < j < |es| ==> Leads(dup, es[i], es[j])
  }

  /** Values of one key, in the order they may come out. */
  ghost predicate Ascending(dup: Option<DupSort>, key: Bytes, vs: seq<Bytes>) {
    forall i, j :: 0 <= i < j < |vs| ==> Leads(dup, Entry(key, vs[i]), Entry(key, vs[j]))
  }

  ghost predicate LeadsFronts(dup: Option<DupSort>, e: Entry, ts: Tails) {
    forall i :: 0 <= i < |ts| && |ts[i]| > 0 ==> Leads(dup, e, ts[i][0])
  }

  /** Each value taken so far may precede each front. */
  ghost predicate TakenLead(dup: Option<DupSort>, key: Bytes, taken: seq<Bytes>, now: Tails) {
    Ascending(dup, key, taken) && forall v <- taken :: LeadsFronts(dup, Entry(key, v), now)
  }

  /** Moving past a front keeps what leads the fronts. */
  lemma FrontPassed(dup: Option<DupSort>, e: Entry, ts: Tails, r: nat)
    requires LeadsFronts(dup, e, ts) && r < |ts| && |ts[r]| > 0 && Sorted(ts[r])
    ensures LeadsFronts(dup, e, ts[r := ts[r][1..]])
  {
    if |ts[r]| > 1 && Less(e.key, ts[r][0].key) { LessTransitive(e.key, ts[r][0].key, ts[r][1].key); }
  }

  lemma FirstLeads(dup: Option<DupSort>, ts: Tails, r: nat, key: Bytes, val: Bytes)
    requires LeadsFronts(dup, Entry(key, val), ts) && r < |ts| && |ts[r]| > 0 && Sorted(ts[r])
    ensures TakenLead(dup, key, [val], ts[r := ts[r][1..]])
  {
    FrontPassed(dup, Entry(key, val), ts, r);
  }

  lemma {:induction false} NextLeads(dup: Option<DupSort>, ts: Tails, r: nat, key: Bytes, taken: seq<Bytes>, val: Bytes)
    requires TakenLead(dup, key, taken, ts) && LeadsFronts(dup, Entry(key, val), ts)
    requires r < |ts| && |ts[r]| > 0 && Sorted(ts[r]) && ts[r][0] == Entry(key, val)
    ensures TakenLead(dup, key, taken + [val], ts[r := ts[r][1..]])
  {
    hide Leads, Sorted;
    forall v | v in taken + [val] ensures LeadsFronts(dup, Entry(key, v), ts[r := ts[r][1..]]) {
      FrontPassed(dup, Entry(key, v), ts, r);
    }
    forall i, j | 0 <= i < j < |taken + [val]| ensures Leads(dup, Entry(key, (taken + [val])[i]), Entry(key, (taken + [val])[j])) {
      if j == |taken| { assert LeadsFronts(dup, Entry(key, taken[i]), ts); }
    }
  }

  // ---------- a duplicate order without ties ----------

  ghost predicate NoTies(dup: Option<DupSort>, key: Bytes) {
    dup.Some? && forall v: Bytes, w: Bytes :: dup.value(key, v, w) <= 0 && dup.value(key, w, v) <= 0 ==> v == w
  }

  lemma {:induction false} LastIsLast(dup: Option<DupSort>, key: Bytes, vs: seq<Bytes>, v: Bytes)
    requires dup.Some? && Ascending(dup, key, vs) && |vs| > 0 && v in multiset(vs)
    ensures v == vs[|vs| - 1] || dup.value(key, v, vs[|vs| - 1]) <= 0
  {
    var n := |vs| - 1;
    var i :| 0 <= i <= n && vs[i] == v;
    if i < n {
      LessTrichotomy(key, key);
      assert Leads(dup, Entry(key, vs[i]), Entry(key, vs[n]));
    }
  }

  lemma {:induction false} AscendingInit(dup: Option<DupSort>, key: Bytes, vs: seq<Bytes>)
    requires Ascending(dup, key, vs) && |vs| > 0
    ensures Ascending(dup, key, vs[..|vs| - 1]) && vs == vs[..|vs| - 1] + [vs[|vs| - 1]]
    ensures multiset(vs[..|vs| - 1]) == multiset(vs) - multiset{vs[|vs| - 1]}
  {
    hide Leads;
    var n := |vs| - 1;
    assert vs == vs[..n] + [vs[n]];
    assert multiset(vs) == multiset(vs[..n]) + multiset{vs[n]};
  }

  /** Then the values of a key can come out in one order only. */
  lemma {:induction false} AscendingIsUnique(dup: Option<DupSort>, key: Bytes, vs: seq<Bytes>, ws: seq<Bytes>)
    requires NoTies(dup, key) && Ascending(dup, key, vs) && Ascending(dup, key, ws) && multiset(vs) == multiset(ws)
    ensures vs == ws
  {
    hide Ascending;
    assert |vs| == |multiset(vs)| == |ws|;
    if |vs| > 0 {
      var n := |vs| - 1;
      assert vs[n] in multiset(ws) && ws[n] in multiset(vs);
      LastIsLast(dup, key, vs, ws[n]);
      LastIsLast(dup, key, ws, vs[n]);
      AscendingInit(dup, key, vs);
      AscendingInit(dup, key, ws);
      AscendingIsUnique(dup, key, vs[..n], ws[..n]);
    }
  }

  // ---------- entries handed out one at a time ----------

  /** `e` is the front of a source, and no other front has to come before it. */
  ghost predicate TakesFront(dup: Option<DupSort>, ts: Tails, ts2: Tails, e: Entry) {
    LeadsFronts(dup, e, ts) && exists i :: 0 <= i < |ts| && |ts[i]| > 0 && ts[i][0] == e && ts2 == ts[i := ts[i][1..]]
  }

  lemma StillNoEmpty(dup: Option<DupSort>, ts: Tails, ts2: Tails, e: Entry)
    requires AllSorted(ts) && NoEmptyFront(ts) && TakesFront(dup, ts, ts2, e)
    ensures NoEmptyFront(ts2)
  {
    var i :| 0 <= i < |ts| && |ts[i]| > 0 && ts[i][0] == e && ts2 == ts[i := ts[i][1..]];
    assert ts[i] in ts;
  }

  /** `ts` is what the sources still have after some entries were handed out. */
  ghost predicate Suffixes(srcs: Tails, ts: Tails) {
    |srcs| == |ts| && forall i :: 0 <= i < |ts| ==> |ts[i]| <= |srcs[i]| && ts[i] == srcs[i][|srcs[i]| - |ts[i]|..]
  }

  ghost predicate HandedOutUpTo(src: seq<Entry>, n: nat, key: Bytes)
    requires n <= |src|
  {
    forall j :: 0 <= j < n ==> !Less(key, src[j].key)
  }

  /** Nothing above `key` has been handed out. */
  ghost predicate NothingAbove(srcs: Tails, ts: Tails, key: Bytes)
    requires Suffixes(srcs, ts)
  {
    forall i :: 0 <= i < |ts| ==> HandedOutUpTo(srcs[i], |srcs[i]| - |ts[i]|, key)
  }

  /** A source has handed out its entry for `key`. */
  ghost predicate TakenAt(srcs: Tails, ts: Tails, key: Bytes)
    requires Suffixes(srcs, ts)
  {
    exists i :: 0 <= i < |ts| && |ts[i]| < |srcs[i]| && srcs[i][|srcs[i]| - |ts[i]| - 1].key == key
  }

  /** Seeking on in what a source has left is seeking in the source, unless the key itself is gone. */
  lemma {:induction false} SeekOnInSuffix(src: seq<Entry>, n: nat, cur: Bytes, key: Bytes)
    requires Sorted(src) && n <= |src| && HandedOutUpTo(src, n, cur) && !Less(key, cur)
    ensures var t := src[n..];
            t[LowerBound(t, key)..] == src[LowerBound(src, key)..] <==> !(n > 0 && src[n - 1].key == key)
  {
    hide Less;
    var t := src[n..];
    var p, q := LowerBound(src, key), LowerBound(t, key);
    if n > 0 {
      assert !Less(key, src[n - 1].key) by { LessOrEqualTransitive(src[n - 1].key, cur, key); }
      LessTrichotomy(src[n - 1].key, key);
    }
    if n > 0 && src[n - 1].key == key {
      assert p <= n - 1;
      assert |src[p..]| > |t|;
    } else {
      FirstNotLessSplitsAt(src, n, key, q);
      LowerBoundIsLowerBound(src, key);
      LowerBoundUnique(src, key, p, n + q);
      assert t[q..] == src[n + q..];
    }
  }

  lemma FirstNotLessSplitsAt(src: seq<Entry>, n: nat, key: Bytes, q: nat)
    requires Sorted(src) && n <= |src| && q == LowerBound(src[n..], key) && (n > 0 ==> Less(src[n - 1].key, key))
    ensures IsLowerBound(src, key, n + q)
  {
    hide Less;
    if q > 0 { assert src[n..][q - 1] == src[n + q - 1]; }
    if n + q < |src| { assert src[n..][q] == src[n + q]; }
    FirstNotLessSplits(src, key, n + q);
  }

  /** The same over all sources: where a forward seek goes wrong, exactly. */
  lemma {:induction false} SeekOnIff(srcs: Tails, ts: Tails, cur: Bytes, key: Bytes)
    requires AllSorted(srcs) && Suffixes(srcs, ts) && NothingAbove(srcs, ts, cur) && !Less(key, cur)
    ensures TailsFrom(ts, key) == TailsFrom(srcs, key) <==> !TakenAt(srcs, ts, key)
  {
    hide Sorted, LowerBound, HandedOutUpTo;
    forall i | 0 <= i < |ts|
      ensures TailsFrom(ts, key)[i] == TailsFrom(srcs, key)[i] <==>
              !(|ts[i]| < |srcs[i]| && srcs[i][|srcs[i]| - |ts[i]| - 1].key == key)
    {
      assert srcs[i] in srcs;
      SeekOnInSuffix(srcs[i], |srcs[i]| - |ts[i]|, cur, key);
    }
  }

  /** After a forward seek nothing above the key sought has been handed out. */
  lemma {:induction false} ForwardPasses(srcs: Tails, ts: Tails, cur: Bytes, key: Bytes)
    requires Suffixes(srcs, ts) && NothingAbove(srcs, ts, cur) && !Less(key, cur)
    ensures Suffixes(srcs, TailsFrom(ts, key)) && NothingAbove(srcs, TailsFrom(ts, key), key)
  {
    hide Less;
    var now := TailsFrom(ts, key);
    forall i | 0 <= i < |ts|
      ensures |now[i]| <= |srcs[i]| && now[i] == srcs[i][|srcs[i]| - |now[i]|..]
      ensures HandedOutUpTo(srcs[i], |srcs[i]| - |now[i]|, key)
    {
      var n, p := |srcs[i]| - |ts[i]|, LowerBound(ts[i], key);
      assert HandedOutUpTo(srcs[i], n, cur);
      forall j | 0 <= j < n + p ensures !Less(key, srcs[i][j].key) {
        if j < n {
          LessOrEqualTransitive(srcs[i][j].key, cur, key);
        } else {
          assert srcs[i][j] == ts[i][j - n];
          LessTrichotomy(srcs[i][j].key, key);
        }
      }
    }
  }

  /** After repositioning every source, what was handed out is below the key sought. */
  lemma {:induction false} BackwardPasses(srcs: Tails, ts: Tails, cur: Bytes, key: Bytes)
    requires Suffixes(srcs, ts) && NothingAbove(srcs, ts, cur) && (AllEmpty(ts) || Less(key, cur))
    ensures Suffixes(srcs, TailsFrom(srcs, key)) && NothingAbove(srcs, TailsFrom(srcs, key), cur)
  {
    hide Less;
    var now := TailsFrom(srcs, key);
    forall i | 0 <= i < |ts| ensures HandedOutUpTo(srcs[i], |srcs[i]| - |now[i]|, cur) {
      assert HandedOutUpTo(srcs[i], |srcs[i]| - |ts[i]|, cur);
      forall j | 0 <= j < |srcs[i]| - |now[i]| ensures !Less(cur, srcs[i][j].key) {
        if !AllEmpty(ts) {
          LessTransitive(srcs[i][j].key, key, cur);
          LessTrichotomy(srcs[i][j].key, cur);
        }
      }
    }
  }

  /** Everything handed out may precede everything that is left. */
  ghost predicate HandedOutFirst(srcs: Tails, ts: Tails)
    requires Suffixes(srcs, ts)
  {
    forall i :: 0 <= i < |ts| && |ts[i]| > 0 ==> NothingAbove(srcs, ts, ts[i][0].key)
  }

  lemma {:induction false} UpToFronts(srcs: Tails, ts: Tails, key: Bytes)
    requires Suffixes(srcs, ts) && NothingAbove(srcs, ts, key)
    requires forall i :: 0 <= i < |ts| && |ts[i]| > 0 ==> !Less(ts[i][0].key, key)
    ensures HandedOutFirst(srcs, ts)
  {
    hide Less;
    forall h, i | 0 <= h < |ts| && |ts[h]| > 0 && 0 <= i < |ts| ensures HandedOutUpTo(srcs[i], |srcs[i]| - |ts[i]|, ts[h][0].key) {
      assert HandedOutUpTo(srcs[i], |srcs[i]| - |ts[i]|, key);
      forall j | 0 <= j < |srcs[i]| - |ts[i]| ensures !Less(ts[h][0].key, srcs[i][j].key) {
        LessOrEqualTransitive(srcs[i][j].key, key, ts[h][0].key);
      }
    }
  }

  lemma {:induction false} SoughtFirst(srcs: Tails, key: Bytes)
    requires AllSorted(srcs)
    ensures Suffixes(srcs, TailsFrom(srcs, key)) && HandedOutFirst(srcs, TailsFrom(srcs, key))
  {
    hide Less, Sorted;
    var now := TailsFrom(srcs, key);
    forall i | 0 <= i < |srcs| ensures HandedOutUpTo(srcs[i], |srcs[i]| - |now[i]|, key) {
      forall j | 0 <= j < |srcs[i]| - |now[i]| ensures !Less(key, srcs[i][j].key) { LessTrichotomy(srcs[i][j].key, key); }
    }
    UpToFronts(srcs, now, key);
  }

  /** What holds between calls: `cur` is the key last returned or sought, empty when there is none. */
  ghost predicate InTurn(srcs: Tails, ts: Tails, cur: Bytes) {
    Suffixes(srcs, ts) && HandedOutFirst(srcs, ts) && (cur != [] ==> NothingAbove(srcs, ts, cur))
  }

  lemma ClearedInTurn(srcs: Tails, ts: Tails, cur: Bytes)
    requires InTurn(srcs, ts, cur)
    ensures InTurn(srcs, ts, []) && Suffixes(srcs, ts)
  {
  }

  /** The guard that goes wrong: the key sought is the one just handed out, and entries are left. */
  ghost predicate SkipsTaken(srcs: Tails, ts: Tails, cur: Bytes, key: Bytes)
    requires Suffixes(srcs, ts)
  {
    !AllEmpty(ts) && cur == key && key != [] && TakenAt(srcs, ts, key)
  }

  lemma {:induction false} TurnsBack(srcs: Tails, ts: Tails, cur: Bytes, key: Bytes)
    requires AllSorted(srcs) && InTurn(srcs, ts, cur) && (AllEmpty(ts) || cur == [] || Less(key, cur))
    ensures InTurn(srcs, TailsFrom(srcs, key), cur) && !SkipsTaken(srcs, ts, cur, key)
  {
    hide Less, NothingAbove, HandedOutFirst, TailsFrom, AllSorted, AllEmpty, TakenAt;
    SoughtFirst(srcs, key);
    if cur != [] { BackwardPasses(srcs, ts, cur, key); }
    LessTrichotomy(key, cur);
  }

  /** A forward seek: right unless the key is the one just handed out. */
  lemma {:induction false} TurnsOn(srcs: Tails, ts: Tails, cur: Bytes, key: Bytes)
    requires AllSorted(srcs) && InTurn(srcs, ts, cur) && !AllEmpty(ts) && cur != [] && !Less(key, cur)
    ensures TailsFrom(ts, key) == TailsFrom(srcs, key) <==> !SkipsTaken(srcs, ts, cur, key)
    ensures InTurn(srcs, TailsFrom(ts, key), key)
  {
    hide Less, NothingAbove, AllSorted, AllEmpty, TakenAt, HandedOutFirst, Suffixes;
    SeekOnIff(srcs, ts, cur, key);
    OnlyAtCurrent(srcs, ts, cur, key);
    ForwardPasses(srcs, ts, cur, key);
    if key == [] { LessTrichotomy(key, cur); }
    UpToFronts(srcs, TailsFrom(ts, key), key);
  }

  /** A key already handed out, at or after the current key, is the current key. */
  lemma OnlyAtCurrent(srcs: Tails, ts: Tails, cur: Bytes, key: Bytes)
    requires Suffixes(srcs, ts) && NothingAbove(srcs, ts, cur) && !Less(key, cur)
    ensures TakenAt(srcs, ts, key) ==> cur == key
  {
    hide Less;
    if TakenAt(srcs, ts, key) {
      var i :| 0 <= i < |ts| && |ts[i]| < |srcs[i]| && srcs[i][|srcs[i]| - |ts[i]| - 1].key == key;
      assert HandedOutUpTo(srcs[i], |srcs[i]| - |ts[i]|, cur);
      LessTrichotomy(key, cur);
    }
  }

  /** Handing out a front that no front has to precede. */
  lemma {:induction false} TakePasses(dup: Option<DupSort>, srcs: Tails, ts: Tails, cur: Bytes, r: nat, e: Entry)
    requires AllSorted(ts) && InTurn(srcs, ts, cur) && LeadsFronts(dup, e, ts)
    requires r < |ts| && |ts[r]| > 0 && ts[r][0] == e
    ensures var now := ts[r := ts[r][1..]];
            && TakesFront(dup, ts, now, e)
            && InTurn(srcs, now, e.key)
  {
    hide Sorted, Less;
    var now := ts[r := ts[r][1..]];
    assert Suffixes(srcs, now);
    assert NothingAbove(srcs, ts, e.key);
    LessTrichotomy(e.key, e.key);
    forall i | 0 <= i < |now| ensures HandedOutUpTo(srcs[i], |srcs[i]| - |now[i]|, e.key) {
      assert HandedOutUpTo(srcs[i], |srcs[i]| - |ts[i]|, e.key);
      if i == r { assert srcs[r][|srcs[r]| - |ts[r]|] == ts[r][0]; }
    }
    assert ts[r] in ts;
    FrontPassed(dup, e, ts, r);
    forall i | 0 <= i < |now| && |now[i]| > 0 ensures !Less(now[i][0].key, e.key) {
      assert Leads(dup, e, now[i][0]);
      LessTrichotomy(e.key, now[i][0].key);
    }
    UpToFronts(srcs, now, e.key);
  }
}
