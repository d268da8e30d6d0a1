/** What merging several sorted sources means: one group per distinct key, in
    key order, holding the values every source has for it. */
module MergeView {
  import opened ByteOrder

  datatype Group = Group(key: Bytes, vals: multiset<Bytes>)

  /** A source's entries not yet handed out; a merge works on several of them. */
  type Tails = seq<seq<Entry>>

  ghost predicate AllSorted(ts: Tails) { forall t <- ts :: Sorted(t) }

  predicate AllEmpty(ts: Tails) { forall i :: 0 <= i < |ts| ==> |ts[i]| == 0 }

  function TotalLength(ts: Tails): nat {
    if |ts| == 0 then 0 else TotalLength(ts[..|ts| - 1]) + |ts[|ts| - 1]|
  }

  /** The least key at the front of a source. */
  ghost predicate IsLeastHead(ts: Tails, k: Bytes) {
    && (exists i :: 0 <= i < |ts| && |ts[i]| > 0 && ts[i][0].key == k)
    && (forall i :: 0 <= i < |ts| && |ts[i]| > 0 ==> !Less(ts[i][0].key, k))
  }

  ghost function LeastHead(ts: Tails): (k: Bytes)
    requires !AllEmpty(ts)
    ensures IsLeastHead(ts, k)
  {
    SomeLeastHead(ts);
    var k :| IsLeastHead(ts, k);
    k
  }

  lemma {:induction false} SomeLeastHead(ts: Tails)
    requires !AllEmpty(ts)
    ensures exists k :: IsLeastHead(ts, k)
  {
    var n := |ts| - 1;
    var init := ts[..n];
    if AllEmpty(init) {
      assert forall i :: 0 <= i < n ==> ts[i] == init[i];
      LessTrichotomy(ts[n][0].key, ts[n][0].key);
      assert IsLeastHead(ts, ts[n][0].key);
    } else {
      SomeLeastHead(init);
      var k :| IsLeastHead(init, k);
      var i :| 0 <= i < |init| && |init[i]| > 0 && init[i][0].key == k;
      assert ts[i] == init[i];
      if |ts[n]| > 0 && Less(ts[n][0].key, k) {
        LessTrichotomy(ts[n][0].key, k);
        LessTrichotomy(ts[n][0].key, ts[n][0].key);
        forall j | 0 <= j < |ts| && |ts[j]| > 0 ensures !Less(ts[j][0].key, ts[n][0].key) {
          if j < n {
            assert ts[j] == init[j];
            LessOrEqualTransitive(ts[n][0].key, k, ts[j][0].key);
          }
        }
        assert IsLeastHead(ts, ts[n][0].key);
      } else {
        forall j | 0 <= j < |ts| && |ts[j]| > 0 ensures !Less(ts[j][0].key, k) {
          if j < n { assert ts[j] == init[j]; }
        }
        assert IsLeastHead(ts, k);
      }
    }
  }

  lemma LeastHeadUnique(ts: Tails, a: Bytes, b: Bytes)
    requires IsLeastHead(ts, a) && IsLeastHead(ts, b)
    ensures a == b
  {
    LessTrichotomy(a, b);
  }

  function WithoutHead(t: seq<Entry>, k: Bytes): seq<Entry> {
    if |t| > 0 && t[0].key == k then t[1..] else t
  }

  function DropKey(ts: Tails, k: Bytes): (r: Tails)
    ensures |r| == |ts| && forall i :: 0 <= i < |ts| ==> r[i] == WithoutHead(ts[i], k)
  {
    seq(|ts|, i requires 0 <= i < |ts| => WithoutHead(ts[i], k))
  }

  function HeadValue(t: seq<Entry>, k: Bytes): multiset<Bytes> {
    if |t| > 0 && t[0].key == k then multiset{t[0].val} else multiset{}
  }

  /** The values at the front under key k. */
  function HeadValues(ts: Tails, k: Bytes): multiset<Bytes> {
    if |ts| == 0 then multiset{}
    else
      var t := ts[|ts| - 1];
      HeadValues(ts[..|ts| - 1], k) + HeadValue(t, k)
  }

  lemma {:induction false} DropShortens(ts: Tails, k: Bytes)
    ensures TotalLength(DropKey(ts, k)) <= TotalLength(ts)
    ensures (exists i :: 0 <= i < |ts| && |ts[i]| > 0 && ts[i][0].key == k) ==> TotalLength(DropKey(ts, k)) < TotalLength(ts)
  {
    if |ts| > 0 {
      var n := |ts| - 1;
      DropShortens(ts[..n], k);
      assert DropKey(ts, k)[..n] == DropKey(ts[..n], k);
      if i :| 0 <= i < n && |ts[i]| > 0 && ts[i][0].key == k { assert ts[..n][i] == ts[i]; }
    }
  }

  lemma {:induction false} NoLength(ts: Tails)
    ensures TotalLength(ts) == 0 <==> AllEmpty(ts)
  {
    if |ts| > 0 { NoLength(ts[..|ts| - 1]); }
  }

  /** The merged content: one group per distinct key. */
  ghost function Groups(ts: Tails): seq<Group>
    decreases TotalLength(ts)
  {
    if AllEmpty(ts) then []
    else
      var k := LeastHead(ts);
      DropShortens(ts, k);
      [Group(k, HeadValues(ts, k))] + Groups(DropKey(ts, k))
  }

  lemma GroupsHead(ts: Tails, k: Bytes)
    requires IsLeastHead(ts, k)
    ensures Groups(ts) == [Group(k, HeadValues(ts, k))] + Groups(DropKey(ts, k))
  {
    var i :| 0 <= i < |ts| && |ts[i]| > 0 && ts[i][0].key == k;
    LeastHeadUnique(ts, k, LeastHead(ts));
  }

  lemma GroupsStep(ts: Tails) returns (k: Bytes)
    requires |Groups(ts)| > 0
    ensures IsLeastHead(ts, k)
    ensures Groups(ts) == [Group(k, HeadValues(ts, k))] + Groups(DropKey(ts, k))
  {
    k := LeastHead(ts);
    GroupsHead(ts, k);
  }

  // ---------- empty keys ----------

  predicate NoEmptyFront(ts: Tails) { forall i :: 0 <= i < |ts| && |ts[i]| > 0 ==> ts[i][0].key != [] }

  lemma {:induction false} DropEmpty(ts: Tails)
    requires AllSorted(ts)
    ensures NoEmptyFront(DropKey(ts, [])) && (DropKey(ts, []) == ts <==> NoEmptyFront(ts))
    ensures !NoEmptyFront(ts) ==> TotalLength(DropKey(ts, [])) < TotalLength(ts)
  {
    DropShortens(ts, []);
    forall i | 0 <= i < |ts| && |DropKey(ts, [])[i]| > 0 ensures DropKey(ts, [])[i][0].key != [] { assert ts[i] in ts; }
    if NoEmptyFront(ts) { assert DropKey(ts, []) == ts; }
  }

  // ---------- taking the fronts one source at a time ----------

  lemma {:induction false} HeadValuesUpdate(ts: Tails, i: nat, t: seq<Entry>, k: Bytes)
    requires i < |ts|
    ensures HeadValues(ts[i := t], k) + HeadValue(ts[i], k) == HeadValues(ts, k) + HeadValue(t, k)
  {
    hide HeadValue;
    var n := |ts| - 1;
    var init := ts[..n];
    LastHeadValue(ts, k);
    LastHeadValue(ts[i := t], k);
    if i < n {
      HeadValuesUpdate(init, i, t, k);
      assert ts[i := t][..n] == init[i := t];
      SwapLast(HeadValues(init[i := t], k), HeadValue(ts[n], k), HeadValue(ts[i], k));
      SwapLast(HeadValues(init, k), HeadValue(ts[n], k), HeadValue(t, k));
    } else {
      assert ts[i := t][..n] == init;
      SwapLast(HeadValues(init, k), HeadValue(t, k), HeadValue(ts[i], k));
    }
  }

  lemma LastHeadValue(ts: Tails, k: Bytes)
    requires |ts| > 0
    ensures HeadValues(ts, k) == HeadValues(ts[..|ts| - 1], k) + HeadValue(ts[|ts| - 1], k)
  {
  }

  lemma SwapLast(a: multiset<Bytes>, b: multiset<Bytes>, c: multiset<Bytes>)
    ensures (a + b) + c == (a + c) + b
  {
  }

  lemma {:induction false} LengthUpdate(ts: Tails, i: nat, t: seq<Entry>)
    requires i < |ts|
    ensures TotalLength(ts[i := t]) + |ts[i]| == TotalLength(ts) + |t|
  {
    var n := |ts| - 1;
    if i < n {
      LengthUpdate(ts[..n], i, t);
      assert ts[i := t][..n] == ts[..n][i := t];
    } else {
      assert ts[i := t][..n] == ts[..n];
    }
  }

  lemma {:induction false} NoHeadValues(ts: Tails, k: Bytes)
    requires forall i :: 0 <= i < |ts| && |ts[i]| > 0 ==> ts[i][0].key != k
    ensures HeadValues(ts, k) == multiset{}
  {
    if |ts| > 0 {
      var init := ts[..|ts| - 1];
      assert forall i :: 0 <= i < |init| ==> init[i] == ts[i];
      NoHeadValues(init, k);
    }
  }

  /** Some sources have given up their front entry under k, the others are untouched. */
  ghost predicate PartlyDropped(before: Tails, now: Tails, k: Bytes) {
    && |now| == |before|
    && forall i :: 0 <= i < |before| ==> now[i] == before[i] || (now[i] == WithoutHead(before[i], k))
  }

  /** When no front under k is left, exactly that key has been dropped. */
  lemma {:induction false} AllDropped(before: Tails, now: Tails, k: Bytes)
    requires PartlyDropped(before, now, k)
    requires forall i :: 0 <= i < |now| && |now[i]| > 0 ==> now[i][0].key != k
    ensures now == DropKey(before, k)
    ensures HeadValues(now, k) == multiset{}
  {
    NoHeadValues(now, k);
  }

  /** If the least remaining front is not k then no front is k. */
  lemma {:induction false} FrontsPassed(before: Tails, now: Tails, k: Bytes, l: Bytes)
    requires AllSorted(before) && IsLeastHead(before, k) && PartlyDropped(before, now, k)
    requires IsLeastHead(now, l) && l != k
    ensures forall i :: 0 <= i < |now| && |now[i]| > 0 ==> now[i][0].key != k
  {
    var j :| 0 <= j < |now| && |now[j]| > 0 && now[j][0].key == l;
    assert before[j] in before;
    assert !Less(l, k) by {
      if |before[j]| > 1 { LessTrichotomy(k, before[j][1].key); }
    }
    LessTrichotomy(l, k);
  }

  // ---------- order ----------

  lemma {:induction false} DropKeepsSorted(ts: Tails, k: Bytes)
    requires AllSorted(ts)
    ensures AllSorted(DropKey(ts, k))
  {
    forall t | t in DropKey(ts, k) ensures Sorted(t) {
      var i :| 0 <= i < |ts| && DropKey(ts, k)[i] == t;
      assert ts[i] in ts;
    }
  }

  /** After the least key is dropped every front is above it. */
  lemma {:induction false} HeadsRise(ts: Tails, k: Bytes, i: nat)
    requires AllSorted(ts) && IsLeastHead(ts, k) && i < |ts| && |DropKey(ts, k)[i]| > 0
    ensures Less(k, DropKey(ts, k)[i][0].key)
  {
    assert ts[i] in ts;
    LessTrichotomy(k, ts[i][0].key);
  }

  lemma LeastIsAbove(ts: Tails, k: Bytes, l: Bytes)
    requires IsLeastHead(ts, l) && forall i :: 0 <= i < |ts| && |ts[i]| > 0 ==> Less(k, ts[i][0].key)
    ensures Less(k, l)
  {
  }

  lemma {:induction false} GroupsAbove(ts: Tails, k: Bytes, g: nat)
    requires AllSorted(ts) && g < |Groups(ts)|
    requires forall i :: 0 <= i < |ts| && |ts[i]| > 0 ==> Less(k, ts[i][0].key)
    ensures Less(k, Groups(ts)[g].key)
    decreases g
  {
    hide Sorted, HeadValues, AllSorted, Groups, DropKey;
    var l := GroupsStep(ts);
    LeastIsAbove(ts, k, l);
    if g > 0 {
      DropKeepsSorted(ts, l);
      var rest: Tails := DropKey(ts, l);
      forall i | 0 <= i < |rest| && |rest[i]| > 0 ensures Less(k, rest[i][0].key) {
        HeadsRise(ts, l, i);
        LessTransitive(k, l, rest[i][0].key);
      }
      GroupsAbove(rest, k, g - 1);
    }
  }

  /** Each distinct key appears once, in increasing order. */
  lemma {:induction false} GroupsSorted(ts: Tails, g: nat, h: nat)
    requires AllSorted(ts) && g < h < |Groups(ts)|
    ensures Less(Groups(ts)[g].key, Groups(ts)[h].key)
    decreases g
  {
    hide Sorted, HeadValues, AllSorted, Groups, DropKey, IsLeastHead;
    var l := GroupsStep(ts);
    DropKeepsSorted(ts, l);
    var rest := DropKey(ts, l);
    if g > 0 {
      GroupsSorted(rest, g - 1, h - 1);
    } else {
      forall i | 0 <= i < |rest| && |rest[i]| > 0 ensures Less(l, rest[i][0].key) { HeadsRise(ts, l, i); }
      GroupsAbove(rest, l, h - 1);
    }
  }

  // ---------- the groups are exactly the keys and values of the sources ----------

  function ValuesIn(t: seq<Entry>, k: Bytes): multiset<Bytes> {
    if |t| == 0 then multiset{}
    else (if t[0].key == k then multiset{t[0].val} else multiset{}) + ValuesIn(t[1..], k)
  }

  /** All values any source has under k. */
  function ValuesUnder(ts: Tails, k: Bytes): multiset<Bytes> {
    if |ts| == 0 then multiset{} else ValuesUnder(ts[..|ts| - 1], k) + ValuesIn(ts[|ts| - 1], k)
  }

  lemma {:induction false} NothingBelow(t: seq<Entry>, k: Bytes)
    requires Sorted(t) && (|t| > 0 ==> Less(k, t[0].key))
    ensures ValuesIn(t, k) == multiset{}
  {
    if |t| > 0 {
      LessTrichotomy(k, t[0].key);
      if |t| > 1 { LessTransitive(k, t[0].key, t[1].key); }
      NothingBelow(t[1..], k);
    }
  }

  lemma {:induction false} LeastValues(ts: Tails, k: Bytes)
    requires AllSorted(ts) && forall i :: 0 <= i < |ts| && |ts[i]| > 0 ==> !Less(ts[i][0].key, k)
    ensures ValuesUnder(ts, k) == HeadValues(ts, k)
  {
    hide Sorted, ValuesIn;
    if |ts| > 0 {
      var n := |ts| - 1;
      var init, t := ts[..n], ts[n];
      assert forall x <- init :: x in ts;
      assert forall i :: 0 <= i < n ==> init[i] == ts[i];
      LeastValues(init, k);
      assert t in ts;
      AtMostHead(t, k);
    }
  }

  lemma AtMostHead(t: seq<Entry>, k: Bytes)
    requires Sorted(t) && (|t| > 0 ==> !Less(t[0].key, k))
    ensures ValuesIn(t, k) == if |t| > 0 && t[0].key == k then multiset{t[0].val} else multiset{}
  {
    if |t| > 0 {
      LessTrichotomy(t[0].key, k);
      if t[0].key == k { NothingBelow(t[1..], k); } else { NothingBelow(t, k); }
    }
  }

  lemma {:induction false} OtherValues(ts: Tails, l: Bytes, k: Bytes)
    requires l != k
    ensures ValuesUnder(DropKey(ts, l), k) == ValuesUnder(ts, k)
  {
    if |ts| > 0 {
      var n := |ts| - 1;
      OtherValues(ts[..n], l, k);
      assert DropKey(ts, l)[..n] == DropKey(ts[..n], l);
    }
  }

  lemma {:induction false} GroupsHoldAllValues(ts: Tails, g: nat)
    requires AllSorted(ts) && g < |Groups(ts)|
    ensures Groups(ts)[g].vals == ValuesUnder(ts, Groups(ts)[g].key)
    decreases g
  {
    hide Sorted, HeadValues, DropKey, ValuesUnder, Groups, AllSorted;
    var l := GroupsStep(ts);
    if g == 0 {
      LeastValues(ts, l);
    } else {
      DropKeepsSorted(ts, l);
      GroupsHoldAllValues(DropKey(ts, l), g - 1);
      GroupsSorted(ts, 0, g);
      LessTrichotomy(l, Groups(ts)[g].key);
      OtherValues(ts, l, Groups(ts)[g].key);
    }
  }

  lemma SomeFront(ts: Tails, l: Bytes)
    requires IsLeastHead(ts, l)
    ensures exists i :: 0 <= i < |ts| && |ts[i]| > 0 && ts[i][0].key == l
  {
  }

  lemma {:induction false} GroupsHaveEveryKey(ts: Tails, i: nat, j: nat) returns (g: nat)
    requires i < |ts| && j < |ts[i]|
    ensures g < |Groups(ts)| && Groups(ts)[g].key == ts[i][j].key
    decreases TotalLength(ts)
  {
    hide HeadValues, LeastHead, Groups, IsLeastHead;
    assert !AllEmpty(ts);
    var l := LeastHead(ts);
    GroupsHead(ts, l);
    SomeFront(ts, l);
    DropShortens(ts, l);
    if ts[i][j].key == l {
      g := 0;
    } else {
      var d := DropKey(ts, l);
      var h := GroupsHaveEveryKey(d, i, if ts[i][0].key == l then j - 1 else j);
      g := h + 1;
    }
  }

  /** Every group's key is a key of some source. */
  lemma {:induction false} GroupKeyFrom(ts: Tails, g: nat) returns (i: nat, j: nat)
    requires g < |Groups(ts)|
    ensures i < |ts| && j < |ts[i]| && ts[i][j].key == Groups(ts)[g].key
    decreases g
  {
    hide Groups, HeadValues, LeastHead;
    var l := GroupsStep(ts);
    if g == 0 {
      i :| i < |ts| && |ts[i]| > 0 && ts[i][0].key == l;
      j := 0;
    } else {
      i, j := GroupKeyFrom(DropKey(ts, l), g - 1);
      j := if WithoutHead(ts[i], l) == ts[i] then j else j + 1;
    }
  }

  // ---------- seeking in the merged content ----------

  function GroupBound(gs: seq<Group>, k: Bytes): (p: nat)
    ensures p <= |gs|
    ensures forall i :: 0 <= i < p ==> Less(gs[i].key, k)
    ensures p < |gs| ==> !Less(gs[p].key, k)
  {
    if |gs| == 0 || !Less(gs[0].key, k) then 0 else 1 + GroupBound(gs[1..], k)
  }

  function TailsFrom(ts: Tails, k: Bytes): (r: Tails)
    ensures |r| == |ts| && forall i :: 0 <= i < |ts| ==> r[i] == ts[i][LowerBound(ts[i], k)..]
  {
    seq(|ts|, i requires 0 <= i < |ts| => ts[i][LowerBound(ts[i], k)..])
  }

  /** Seeking every source to k leaves exactly the groups from k on. */
  lemma {:induction false} GroupsFrom(ts: Tails, k: Bytes)
    requires AllSorted(ts)
    ensures Groups(TailsFrom(ts, k)) == Groups(ts)[GroupBound(Groups(ts), k)..]
    decreases TotalLength(ts)
  {
    hide TailsFrom, HeadValues, LeastHead, AllSorted, DropKey;
    if AllEmpty(ts) {
      NothingFrom(ts, k);
    } else {
      var l := LeastHead(ts);
      GroupsHead(ts, l);
      if Less(l, k) {
        DropShortens(ts, l);
        DropKeepsSorted(ts, l);
        GroupsFrom(DropKey(ts, l), k);
        FromSkipsHead(ts, l, k);
      } else {
        FromKeepsAll(ts, l, k);
      }
    }
  }

  lemma NothingFrom(ts: Tails, k: Bytes)
    requires AllEmpty(ts)
    ensures AllEmpty(TailsFrom(ts, k))
  {
  }

  lemma FromSkipsHead(ts: Tails, l: Bytes, k: Bytes)
    requires Less(l, k)
    ensures TailsFrom(ts, k) == TailsFrom(DropKey(ts, l), k)
  {
    var d := DropKey(ts, l);
    forall i | 0 <= i < |ts| ensures TailsFrom(ts, k)[i] == TailsFrom(d, k)[i] {
      if |ts[i]| > 0 && ts[i][0].key == l { assert LowerBound(ts[i], k) == 1 + LowerBound(ts[i][1..], k); }
    }
  }

  lemma FromKeepsAll(ts: Tails, l: Bytes, k: Bytes)
    requires IsLeastHead(ts, l) && !Less(l, k)
    ensures TailsFrom(ts, k) == ts
  {
    forall i | 0 <= i < |ts| ensures LowerBound(ts[i], k) == 0 {
      if |ts[i]| > 0 { LessTrichotomy(l, ts[i][0].key); LessOrEqualTransitive(k, l, ts[i][0].key); }
    }
  }

  // ---------- empty sources do not matter ----------

  function Kept(ts: Tails): Tails {
    if |ts| == 0 then []
    else Kept(ts[..|ts| - 1]) + if |ts[|ts| - 1]| > 0 then [ts[|ts| - 1]] else []
  }

  lemma {:induction false} KeptHas(ts: Tails, i: nat)
    requires i < |ts| && |ts[i]| > 0
    ensures ts[i] in Kept(ts)
  {
    if i < |ts| - 1 { KeptHas(ts[..|ts| - 1], i); }
  }

  lemma {:induction false} KeptFrom(ts: Tails, m: nat) returns (i: nat)
    requires m < |Kept(ts)|
    ensures i < |ts| && ts[i] == Kept(ts)[m] && |ts[i]| > 0
  {
    var n := |ts| - 1;
    if m < |Kept(ts[..n])| { i := KeptFrom(ts[..n], m); } else { i := n; }
  }

  lemma {:induction false} KeptSame(ts: Tails)
    ensures forall i :: 0 <= i < |ts| && |ts[i]| > 0 ==> ts[i] in Kept(ts)
    ensures forall m :: 0 <= m < |Kept(ts)| ==> Kept(ts)[m] in ts && |Kept(ts)[m]| > 0
    ensures AllEmpty(ts) ==> Kept(ts) == []
  {
    hide Kept;
    forall i | 0 <= i < |ts| && |ts[i]| > 0 ensures ts[i] in Kept(ts) { KeptHas(ts, i); }
    forall m | 0 <= m < |Kept(ts)| ensures Kept(ts)[m] in ts && |Kept(ts)[m]| > 0 { var i := KeptFrom(ts, m); }
    if |Kept(ts)| > 0 { var i := KeptFrom(ts, 0); }
  }

  lemma {:induction false} KeptHeadValues(ts: Tails, k: Bytes)
    ensures HeadValues(Kept(ts), k) == HeadValues(ts, k)
  {
    if |ts| > 0 {
      var n := |ts| - 1;
      KeptHeadValues(ts[..n], k);
      HeadValuesSnoc(Kept(ts[..n]), ts[n], k);
      assert Kept(ts) == if |ts[n]| > 0 then Kept(ts[..n]) + [ts[n]] else Kept(ts[..n]);
    }
  }

  lemma HeadValuesSnoc(ts: Tails, t: seq<Entry>, k: Bytes)
    ensures HeadValues(ts + [t], k) ==
            HeadValues(ts, k) + HeadValue(t, k)
  {
    assert (ts + [t])[..|ts|] == ts;
  }

  lemma {:induction false} KeptDrop(ts: Tails, k: Bytes)
    ensures Kept(DropKey(Kept(ts), k)) == Kept(DropKey(ts, k))
  {
    if |ts| > 0 {
      var n := |ts| - 1;
      var init := Kept(ts[..n]);
      KeptDrop(ts[..n], k);
      assert DropKey(ts, k)[..n] == DropKey(ts[..n], k);
      if |ts[n]| > 0 {
        assert DropKey(Kept(ts), k)[..|init|] == DropKey(init, k);
      } else {
        assert Kept(ts) == init;
      }
    }
  }

  lemma {:induction false} KeptLeast(ts: Tails, k: Bytes)
    requires IsLeastHead(ts, k)
    ensures IsLeastHead(Kept(ts), k)
  {
    KeptSame(ts);
    var i :| 0 <= i < |ts| && |ts[i]| > 0 && ts[i][0].key == k;
    var j :| 0 <= j < |Kept(ts)| && Kept(ts)[j] == ts[i];
    forall m | 0 <= m < |Kept(ts)| && |Kept(ts)[m]| > 0 ensures !Less(Kept(ts)[m][0].key, k) {
      var x :| 0 <= x < |ts| && ts[x] == Kept(ts)[m];
    }
  }

  lemma {:induction false} GroupsOfKept(a: Tails, b: Tails)
    requires Kept(a) == Kept(b)
    ensures Groups(a) == Groups(b)
    decreases TotalLength(a)
  {
    KeptSame(a);
    KeptSame(b);
    if AllEmpty(a) {
      assert AllEmpty(b);
    } else {
      assert !AllEmpty(b) by {
        var i :| 0 <= i < |a| && |a[i]| > 0;
        assert a[i] in Kept(b);
      }
      var k, l := LeastHead(a), LeastHead(b);
      KeptLeast(a, k);
      KeptLeast(b, l);
      LeastHeadUnique(Kept(a), k, l);
      KeptHeadValues(a, k);
      KeptHeadValues(b, k);
      KeptDrop(a, k);
      KeptDrop(b, k);
      DropShortens(a, k);
      GroupsOfKept(DropKey(a, k), DropKey(b, k));
    }
  }

  lemma {:induction false} KeptIdempotent(ts: Tails)
    ensures Kept(Kept(ts)) == Kept(ts)
  {
    if |ts| > 0 {
      var n := |ts| - 1;
      KeptIdempotent(ts[..n]);
      if |ts[n]| > 0 { assert Kept(ts)[..|Kept(ts)| - 1] == Kept(ts[..n]); } else { assert Kept(ts) == Kept(ts[..n]); }
    }
  }
}
