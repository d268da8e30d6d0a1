/** Looking up and walking in a red-black tree (libmy/tree.h, RB_NFIND and RB_NEXT), on the links. */
module RbWalk {
  import opened RbTree
  import opened RbLinks

  /** The first element whose key is not below the given one. */
  method NFind(head: Head, cmp: Cmp, key: Key) returns (res: Elem?)
    requires IsComparison(cmp) && head.Valid(cmp)
    ensures res == null ==> forall x <- InOrder(head.tree) :: cmp(key, x.key) > 0
    ensures res != null ==> exists k :: IsFirstFrom(cmp, InOrder(head.tree), key, k) && InOrder(head.tree)[k] == res
  {
    hide InOrder, KeysRise, At, IsComparison;
    ghost var all, t, path: seq<Step> := InOrder(head.tree), head.tree, [];
    ghost var below: seq<Elem>, above: seq<Elem> := [], [];
    var tmp: Elem? := head.root;
    res := null;
    Around1(head.root, t, path);
    while tmp != null
      invariant At(head.root, t, path) && tmp == Top(t) && all == below + InOrder(t) + above
      invariant forall x <- below :: cmp(key, x.key) > 0
      invariant if |above| > 0 then res == above[0] && cmp(key, above[0].key) <= 0 else res == null
      decreases t
    {
      SplitNode(cmp, all, below, t, above);
      DownLinks(head.root, t, path);
      var comp := cmp(key, tmp.key);
      if comp >= 0 { AllAbove(cmp, key, t.elem, below + InOrder(t.left)); }
      if comp < 0 {
        res := tmp;
        above := [t.elem] + (InOrder(t.right) + above);
        t, path := t.left, path + [Step(Left, t.elem, t.color, t.right)];
        tmp := tmp.left;
      } else if comp > 0 {
        below := below + InOrder(t.left) + [t.elem];
        t, path := t.right, path + [Step(Right, t.elem, t.color, t.left)];
        tmp := tmp.right;
      } else {
        FoundAt(cmp, all, below + InOrder(t.left), [t.elem] + (InOrder(t.right) + above), key);
        return tmp;
      }
    }
    EmptyOrder();
    if |above| > 0 { FoundAt(cmp, all, below, above, key); }
  }

  lemma AllAbove(cmp: Cmp, key: Key, e: Elem, es: seq<Elem>)
    requires IsComparison(cmp) && cmp(key, e.key) >= 0 && forall x <- es :: cmp(x.key, e.key) < 0
    ensures forall x <- es :: cmp(key, x.key) > 0
  {
    assert cmp(e.key, key) <= 0;
    forall i | 0 <= i < |es| ensures cmp(key, es[i].key) > 0 { BelowTransitive(cmp, es[i].key, e.key, key); }
  }

  /** e is at k, and next is the element after it, if there is one. */
  predicate Follows(es: seq<Elem>, k: int, e: Elem, next: Elem?) {
    0 <= k < |es| && es[k] == e && next == if k + 1 < |es| then es[k + 1] else null
  }

  /** The in-order successor, through right and parent links. */
  method Next(head: Head, start: Elem) returns (elm: Elem?)
    requires At(head.root, head.tree, []) && start in Nodes(head.tree)
    ensures exists k :: Follows(InOrder(head.tree), k, start, elm)
  {
    ghost var t, path := FindPosition(head.tree, [], start);
    ghost var all := InOrder(head.tree);
    hide Before, InOrder, Up, At, Nodes, After, Whole;
    WholeRootIs(head.tree);
    Move(head.root, head.tree, [], t, path);
    WholeLength(t, path);
    RankIsIndex(t, path);
    ghost var k := Rank(t, path);
    elm := start;
    DownLinks(head.root, t, path);
    if elm.right != null {
      DownRight(t, path);
      path := path + [Step(Right, t.elem, t.color, t.left)];
      t := t.right;
      elm := elm.right;
      DownLinks(head.root, t, path);
      while elm.left != null
        invariant At(head.root, t, path) && t.Node? && t.elem == elm && elm.left == Top(t.left)
        invariant Whole(t, path) == head.tree && |Before(path)| == k + 1
        decreases t
      {
        DownLinks(head.root, t, path);
        DownLeft(t, path);
        path := path + [Step(Left, t.elem, t.color, t.right)];
        t := t.left;
        elm := elm.left;
        DownLinks(head.root, t, path);
      }
      RankWithin(t, path);
      RankIsIndex(t, path);
      assert Follows(all, k, start, elm);
      return;
    }
    Around1(head.root, t, path);
    while elm.parent != null && elm == elm.parent.right
      invariant At(head.root, t, path) && t.Node? && t.elem == elm && elm.parent == ParentOf(path)
      invariant |path| > 0 ==> (elm.parent.right == elm <==> path[|path| - 1].below == Right)
      invariant Whole(t, path) == head.tree && |Before(path)| + |InOrder(t)| == k + 1
      decreases |path|
    {
      UpFrom(t, path);
      Upward(head.root, t, path);
      elm := elm.parent;
      t, path := Up(t, path[|path| - 1]), path[..|path| - 1];
      Around1(head.root, t, path);
    }
    if elm.parent != null {
      UpFrom(t, path);
      Upward(head.root, t, path);
      t, path := Up(t, path[|path| - 1]), path[..|path| - 1];
      RankWithin(t, path);
      RankIsIndex(t, path);
    } else {
      AtTop(t, path);
    }
    elm := elm.parent;
    assert Follows(all, k, start, elm);
  }

  lemma WholeRootIs(t: Tree)
    ensures Whole(t, []) == t
  {
  }

  lemma Upward(root: Elem?, t: Tree, path: seq<Step>)
    requires At(root, t, path) && |path| > 0
    ensures At(root, Up(t, path[|path| - 1]), path[..|path| - 1]) && Up(t, path[|path| - 1]).elem == path[|path| - 1].elem
  {
    AtUp(root, t, path);
  }
}
