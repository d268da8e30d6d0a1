/** The binary heap (libmy/heap.c).  Elements are handles whose pointees the
    owner may change between calls, so each operation takes the comparison as
    it stands at that moment. */
module Heap {
  /** What the heap needs of its comparison: `<= 0` is a total preorder. */
  ghost predicate IsOrder<T(!new)>(cmp: (T, T) -> int) {
    && (forall a, b :: cmp(a, b) <= 0 || cmp(b, a) <= 0)
    && (forall a, b, c :: cmp(a, b) <= 0 && cmp(b, c) <= 0 ==> cmp(a, c) <= 0)
  }

  predicate Leq<T>(cmp: (T, T) -> int, a: T, b: T) { cmp(a, b) <= 0 }

  lemma LeqTotal<T(!new)>(cmp: (T, T) -> int, a: T, b: T)
    requires IsOrder(cmp)
    ensures Leq(cmp, a, b) || Leq(cmp, b, a)
    ensures Leq(cmp, a, a)
  {
  }

  lemma LeqTransitive<T(!new)>(cmp: (T, T) -> int, a: T, b: T, c: T)
    requires IsOrder(cmp) && Leq(cmp, a, b) && Leq(cmp, b, c)
    ensures Leq(cmp, a, c)
  {
  }

  function Parent(i: nat): nat
    requires i > 0
  {
    (i - 1) / 2
  }

  /** Every child of a node at or after `lo` is not below its parent. */
  ghost predicate HeapFrom<T>(v: seq<T>, cmp: (T, T) -> int, lo: int) {
    forall i :: 0 < i < |v| && lo <= Parent(i) ==> Leq(cmp, v[Parent(i)], v[i])
  }

  // ---------- a heap but for one hole ----------

  /** Ordered except between `pos` and its parent, and across `pos`. */
  ghost predicate HoleUp<T>(w: seq<T>, cmp: (T, T) -> int, pos: nat) {
    && pos < |w|
    && (forall i :: 0 < i < |w| && i != pos ==> Leq(cmp, w[Parent(i)], w[i]))
    && (pos > 0 ==> forall i :: 0 < i < |w| && Parent(i) == pos ==> Leq(cmp, w[Parent(pos)], w[i]))
  }

  lemma HoleUpStep<T(!new)>(w: seq<T>, cmp: (T, T) -> int, pos: nat)
    requires IsOrder(cmp) && HoleUp(w, cmp, pos) && pos > 0 && !Leq(cmp, w[Parent(pos)], w[pos])
    ensures HoleUp(w[pos := w[Parent(pos)]][Parent(pos) := w[pos]], cmp, Parent(pos))
  {
    hide IsOrder, Leq;
    var up := Parent(pos);
    var w2 := w[pos := w[up]][up := w[pos]];
    LeqTotal(cmp, w[pos], w[up]);
    forall i | 0 < i < |w2| && i != up ensures Leq(cmp, w2[Parent(i)], w2[i]) {
      if Parent(i) == up && i != pos { LeqTransitive(cmp, w[pos], w[up], w[i]); }
    }
    forall i | 0 < i < |w2| && Parent(i) == up && up > 0 ensures Leq(cmp, w2[Parent(up)], w2[i]) {
      if i != pos { LeqTransitive(cmp, w[Parent(up)], w[up], w[i]); }
    }
  }

  /** Ordered from `start` on except between `pos` and its children. */
  ghost predicate HoleDown<T>(w: seq<T>, cmp: (T, T) -> int, start: nat, pos: nat) {
    && start <= pos < |w|
    && (forall i :: 0 < i < |w| && start <= Parent(i) && Parent(i) != pos ==> Leq(cmp, w[Parent(i)], w[i]))
    && (pos > start ==> start <= Parent(pos)
                        && forall i :: 0 < i < |w| && Parent(i) == pos ==> Leq(cmp, w[Parent(pos)], w[i]))
  }

  ghost predicate LeastChild<T>(w: seq<T>, cmp: (T, T) -> int, pos: nat, child: nat) {
    && 0 < child < |w| && Parent(child) == pos
    && forall i :: 0 < i < |w| && Parent(i) == pos ==> Leq(cmp, w[child], w[i])
  }

  lemma HoleDownStep<T(!new)>(w: seq<T>, cmp: (T, T) -> int, start: nat, pos: nat, child: nat)
    requires IsOrder(cmp) && HoleDown(w, cmp, start, pos) && LeastChild(w, cmp, pos, child)
    requires !Leq(cmp, w[pos], w[child])
    ensures HoleDown(w[pos := w[child]][child := w[pos]], cmp, start, child)
  {
    hide IsOrder, Leq;
    var w2 := w[pos := w[child]][child := w[pos]];
    LeqTotal(cmp, w[pos], w[child]);
    forall i | 0 < i < |w2| && start <= Parent(i) && Parent(i) != child ensures Leq(cmp, w2[Parent(i)], w2[i]) {
    }
    forall i | 0 < i < |w2| && Parent(i) == child ensures Leq(cmp, w2[Parent(child)], w2[i]) {
      assert Leq(cmp, w[Parent(i)], w[i]);
    }
  }

  lemma HoleDownDone<T(!new)>(w: seq<T>, cmp: (T, T) -> int, start: nat, pos: nat, child: nat)
    requires IsOrder(cmp) && HoleDown(w, cmp, start, pos) && LeastChild(w, cmp, pos, child) && Leq(cmp, w[pos], w[child])
    ensures HeapFrom(w, cmp, start)
  {
    hide IsOrder, Leq;
    forall i | 0 < i < |w| && Parent(i) == pos ensures Leq(cmp, w[pos], w[i]) {
      LeqTransitive(cmp, w[pos], w[child], w[i]);
    }
  }

  lemma {:induction false} RootIsLeast<T(!new)>(v: seq<T>, cmp: (T, T) -> int, i: nat)
    requires IsOrder(cmp) && HeapFrom(v, cmp, 0) && i < |v|
    ensures Leq(cmp, v[0], v[i])
  {
    hide IsOrder, Leq;
    if i > 0 {
      RootIsLeast(v, cmp, Parent(i));
      LeqTransitive(cmp, v[0], v[Parent(i)], v[i]);
    } else {
      LeqTotal(cmp, v[0], v[0]);
    }
  }

  class Heap<T(==, !new)> {
    var vec: seq<T>

    constructor ()
      ensures vec == []
    {
      vec := [];
    }

    method SiftUp(cmp: (T, T) -> int)
      requires |vec| > 0 && IsOrder(cmp) && HeapFrom(vec[..|vec| - 1], cmp, 0)
      modifies this
      ensures HeapFrom(vec, cmp, 0) && multiset(vec) == multiset(old(vec)) && |vec| == old(|vec|)
    {
      hide IsOrder, HeapFrom;
      var pos := |vec| - 1;
      var newItem := vec[pos];
      ghost var w := vec;
      HoleAtEnd(w, cmp);
      while pos > 0
        invariant pos < |vec| == |w| && w == vec[pos := newItem] && |vec| == old(|vec|)
        invariant multiset(w) == multiset(old(vec)) && HoleUp(w, cmp, pos)
      {
        var parentPos := (pos - 1) / 2;
        var parent := vec[parentPos];
        if cmp(parent, newItem) <= 0 { break; }
        MoveHole(vec, pos, parentPos, newItem);
        HoleUpStep(w, cmp, pos);
        w := w[pos := parent][parentPos := newItem];
        vec := vec[pos := parent];
        pos := parentPos;
      }
      vec := vec[pos := newItem];
      HoleClosed(w, cmp, pos);
    }

    /** Moves the element at `start` down to its place; the subtrees below are heaps. */
    method SiftDown(start: nat, cmp: (T, T) -> int)
      requires start < |vec| && IsOrder(cmp) && HeapFrom(vec, cmp, start + 1)
      modifies this
      ensures HeapFrom(vec, cmp, start) && multiset(vec) == multiset(old(vec)) && |vec| == old(|vec|)
    {
      hide IsOrder, HeapFrom, HoleDown, LeastChild, Parent;
      HoleAtStart(vec, cmp, start);
      var pos := start;
      var newItem := vec[pos];
      var end := |vec|;
      var child := 2 * pos + 1;
      ghost var w := vec;
      while child < end
        invariant start <= pos < |vec| == |w| == end && child == 2 * pos + 1 && w == vec[pos := newItem] && |vec| == old(|vec|)
        invariant multiset(w) == multiset(old(vec)) && HoleDown(w, cmp, start, pos)
        decreases end - pos
      {
        var least := LeastOf(child, cmp);
        LeastElsewhere(vec, w, cmp, pos, least, newItem);
        if cmp(newItem, vec[least]) <= 0 {
          HoleDownDone(w, cmp, start, pos, least);
          vec := vec[pos := newItem];
          return;
        }
        MoveHole(vec, pos, least, newItem);
        HoleDownStep(w, cmp, start, pos, least);
        w := w[pos := w[least]][least := newItem];
        vec := vec[pos := vec[least]];
        pos := least;
        child := 2 * pos + 1;
      }
      NoChildren(w, cmp, start, pos);
      vec := vec[pos := newItem];
    }

    /** The smaller of the children at `child` and `child + 1`; the right one when they tie. */
    method LeastOf(child: nat, cmp: (T, T) -> int) returns (least: nat)
      requires 0 < child < |vec| && child % 2 == 1 && IsOrder(cmp)
      ensures LeastChild(vec, cmp, (child - 1) / 2, least) && least > (child - 1) / 2
    {
      hide IsOrder;
      least := child;
      var right := child + 1;
      LeqTotal(cmp, vec[child], vec[child]);
      if right < |vec| {
        LeqTotal(cmp, vec[right], vec[child]);
        LeqTotal(cmp, vec[right], vec[right]);
        if cmp(vec[right], vec[child]) <= 0 { least := right; }
      }
      TwoChildren(vec, cmp, (child - 1) / 2, least);
    }

    method Heapify(cmp: (T, T) -> int)
      requires IsOrder(cmp)
      modifies this
      ensures HeapFrom(vec, cmp, 0) && multiset(vec) == multiset(old(vec)) && |vec| == old(|vec|)
    {
      var i := |vec| / 2;
      while i > 0
        invariant 0 <= i <= |vec| && |vec| == old(|vec|) && HeapFrom(vec, cmp, i) && multiset(vec) == multiset(old(vec))
      {
        i := i - 1;
        SiftDown(i, cmp);
      }
    }

    /** Appends without restoring order; the caller will heapify. */
    method Append(item: T)
      modifies this
      ensures vec == old(vec) + [item]
    {
      vec := vec + [item];
    }

    method Clip()
      modifies this
      ensures vec == []
    {
      vec := [];
    }

    method Push(item: T, cmp: (T, T) -> int)
      requires IsOrder(cmp) && HeapFrom(vec, cmp, 0)
      modifies this
      ensures HeapFrom(vec, cmp, 0) && multiset(vec) == multiset(old(vec)) + multiset{item}
    {
      var before := vec;
      vec := vec + [item];
      assert vec[..|vec| - 1] == before;
      SiftUp(cmp);
    }

    /** Only the root may be out of place when this is called. */
    method Pop(cmp: (T, T) -> int) returns (item: T)
      requires |vec| > 0 && IsOrder(cmp) && HeapFrom(vec, cmp, 1)
      modifies this
      ensures item == old(vec)[0] && HeapFrom(vec, cmp, 0)
      ensures multiset(vec) == multiset(old(vec)) - multiset{item} && |vec| == old(|vec|) - 1
    {
      var before := vec;
      var last := vec[|vec| - 1];
      vec := vec[..|vec| - 1];
      assert before == vec + [last];
      if |vec| > 0 {
        item := vec[0];
        ghost var shorter := vec;
        vec := vec[0 := last];
        assert before == [item] + shorter[1..] + [last] && vec == [last] + shorter[1..];
        assert HeapFrom(vec, cmp, 1);
        SiftDown(0, cmp);
      } else {
        item := last;
      }
    }

    method Replace(item: T, cmp: (T, T) -> int) returns (previous: T)
      requires |vec| > 0 && IsOrder(cmp) && HeapFrom(vec[0 := item], cmp, 1)
      modifies this
      ensures previous == old(vec)[0] && HeapFrom(vec, cmp, 0)
      ensures multiset(vec) == multiset(old(vec)) - multiset{previous} + multiset{item} && |vec| == old(|vec|)
    {
      previous := vec[0];
      ghost var before := vec;
      vec := vec[0 := item];
      assert before == [previous] + before[1..] && vec == [item] + before[1..];
      SiftDown(0, cmp);
    }
  }

  lemma TwoChildren<T>(w: seq<T>, cmp: (T, T) -> int, pos: nat, child: nat)
    requires child < |w| && (child == 2 * pos + 1 || child == 2 * pos + 2)
    requires Leq(cmp, w[child], w[2 * pos + 1])
    requires 2 * pos + 2 < |w| ==> Leq(cmp, w[child], w[2 * pos + 2])
    ensures LeastChild(w, cmp, pos, child)
  {
    forall i | 0 < i < |w| && Parent(i) == pos ensures i == 2 * pos + 1 || i == 2 * pos + 2 {
    }
  }

  lemma LeastElsewhere<T>(v: seq<T>, w: seq<T>, cmp: (T, T) -> int, pos: nat, least: nat, x: T)
    requires pos < |v| && w == v[pos := x] && LeastChild(v, cmp, pos, least)
    ensures LeastChild(w, cmp, pos, least) && w[least] == v[least] && w[pos] == x
    ensures pos < least < |v|
  {
  }

  lemma HoleAtStart<T>(v: seq<T>, cmp: (T, T) -> int, start: nat)
    requires start < |v| && HeapFrom(v, cmp, start + 1)
    ensures HoleDown(v, cmp, start, start)
  {
  }

  lemma NoChildren<T>(w: seq<T>, cmp: (T, T) -> int, start: nat, pos: nat)
    requires HoleDown(w, cmp, start, pos) && 2 * pos + 1 >= |w|
    ensures HeapFrom(w, cmp, start)
  {
  }

  lemma HoleAtEnd<T>(v: seq<T>, cmp: (T, T) -> int)
    requires |v| > 0 && HeapFrom(v[..|v| - 1], cmp, 0)
    ensures HoleUp(v, cmp, |v| - 1)
  {
    var init := v[..|v| - 1];
    forall i | 0 < i < |v| - 1 ensures Leq(cmp, v[Parent(i)], v[i]) {
      assert Leq(cmp, init[Parent(i)], init[i]);
    }
  }

  lemma HoleClosed<T>(w: seq<T>, cmp: (T, T) -> int, pos: nat)
    requires HoleUp(w, cmp, pos) && (pos > 0 ==> Leq(cmp, w[Parent(pos)], w[pos]))
    ensures HeapFrom(w, cmp, 0)
  {
  }

  /** Moving the element at `to` into the hole at `hole` leaves the same elements, with the hole at `to`. */
  lemma MoveHole<T>(v: seq<T>, hole: nat, to: nat, x: T)
    requires hole < |v| && to < |v| && hole != to
    ensures var w := v[hole := x];
            && w[hole := w[to]][to := x] == v[hole := v[to]][to := x]
            && multiset(w[hole := w[to]][to := x]) == multiset(w)
  {
  }
}
