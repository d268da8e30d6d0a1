/** Inserting into a red-black tree (libmy/tree.h, RB_INSERT and RB_INSERT_COLOR), on the links. */
module RbInsert {
  import opened RbTree
  import opened RbLinks

  /** A red uncle: the violation moves two levels up. */
  method Recolor(head: Head, uncle: Elem, parent: Elem, gparent: Elem, ghost t: Tree, ghost p: Step, ghost g: Step, ghost rest: seq<Step>)
    requires At(head.root, Up(Up(t, p), g), rest) && g.other.Node?
    requires parent == p.elem && gparent == g.elem && uncle == g.other.elem
    modifies uncle`color, parent`color, gparent`color
    ensures At(head.root, Recolored(t, p, g), rest)
  {
    hide At, Whole, Up, Swap, AllNodes;
    ghost var g2 := g.(other := g.other.(color := Black));
    ghost var p2 := p.(color := Black);
    MoveDown(head.root, Up(t, p), g, rest);
    ToSibling(head.root, Up(t, p), g, rest);
    Paint(head, uncle, Black, g.other, rest + [Swap(g, Up(t, p))]);
    MoveUp(head.root, g2.other, Swap(g, Up(t, p)), rest);
    SwapUp(Up(t, p), g2);
    SwapSame(g, g2, Up(t, p));
    MoveDown(head.root, Up(t, p), g2, rest);
    PaintUp(t, p, Black);
    Paint(head, parent, Black, Up(t, p), rest + [g2]);
    MoveUp(head.root, Up(t, p2), g2, rest);
    PaintUp(Up(t, p2), g2, Red);
    Paint(head, gparent, Red, Up(Up(t, p2), g2), rest);
  }

  /** An inner child is rotated to the outside. */
  method TurnOut(head: Head, parent: Elem, d: Side, ghost t: Tree, ghost p: Step, ghost g: Step, ghost rest: seq<Step>)
    requires At(head.root, t, rest + [g] + [p]) && t.Node? && p.below != g.below && parent == p.elem && d == p.below
    modifies head`root, AllNodes(t, rest + [g] + [p])
    ensures var (x, q) := RotatedOut(t, p, g); At(head.root, x, rest + [g] + [q])
  {
    hide At, Whole, Up, AllNodes, RotatedOut;
    ghost var (x, q) := RotatedOut(t, p, g);
    MoveUp(head.root, t, p, rest + [g]);
    UpKids(t, p);
    NodesUp(t, rest + [g], p);
    var _ := Rotate(head, parent, d, Up(t, p), rest + [g]);
    OutIsTurn(t, p, g);
    MoveDown(head.root, x, q, rest + [g]);
  }

  /** The parent turns black, the grandparent red, and is rotated below it. */
  method TurnUp(head: Head, parent: Elem, gparent: Elem, d: Side, ghost t: Tree, ghost p: Step, ghost g: Step, ghost rest: seq<Step>)
    requires At(head.root, t, rest + [g] + [p]) && p.below == g.below == d && parent == p.elem && gparent == g.elem
    modifies head`root, AllNodes(t, rest + [g] + [p])
    ensures At(head.root, t, rest + [RotatedUp(p, g)])
  {
    hide At, Whole, Up, AllNodes, RotatedUp;
    ghost var p2, g2 := p.(color := Black), g.(color := Red);
    MoveUp(head.root, t, p, rest + [g]);
    NodesUp(t, rest + [g], p);
    NodesUp(Up(t, p), rest, g);
    PaintUp(t, p, Black);
    InNodes(Up(t, p), rest + [g]);
    Paint(head, parent, Black, Up(t, p), rest + [g]);
    MoveUp(head.root, Up(t, p2), g, rest);
    PaintUp(Up(t, p2), g, Red);
    PaintUp(Up(t, p), g, Red);
    InNodes(Up(Up(t, p), g), rest);
    Paint(head, gparent, Red, Up(Up(t, p2), g), rest);
    PaintedNodes(t, p, g, rest);
    UpKids(Up(t, p2), g2);
    UpKids(t, p2);
    var _ := Rotate(head, gparent, d, Up(Up(t, p2), g2), rest);
    UpIsTurn(t, p, g);
    MoveDown(head.root, t, RotatedUp(p, g), rest);
  }

  lemma PaintedNodes(t: Tree, p: Step, g: Step, rest: seq<Step>)
    ensures AllNodes(Up(Up(t, p.(color := Black)), g.(color := Red)), rest) == AllNodes(Up(Up(t, p), g), rest)
  {
    assert InOrder(Up(Up(t, p.(color := Black)), g.(color := Red))) == InOrder(Up(Up(t, p), g));
  }

  /** Ends the violation, if any, between a red element and its parent. */
  method InsertColor(head: Head, start: Elem, ghost t0: Tree, ghost way: seq<Step>, ghost n: nat) returns (ghost now: Tree)
    requires At(head.root, t0, way) && IsRed(t0) && t0.elem == start && Balanced(t0, n) && Around(way, n)
    modifies head`root, AllNodes(t0, way)
    ensures At(head.root, now, []) && Rb(now) && InOrder(now) == Before(way) + InOrder(t0) + After(way)
  {
    hide Before, After, InOrder, Balanced, Around, Recolored, RotatedOut, RotatedUp, Up, Rb, At, Whole, AllNodes;
    var elm := start;
    ghost var t, path, h := t0, way, n;
    Around1(head.root, t, path);
    while elm.parent != null && elm.parent.color == Red
      invariant At(head.root, t, path) && IsRed(t) && t.elem == elm && Balanced(t, h) && Around(path, h)
      invariant Before(path) + InOrder(t) + After(path) == Before(way) + InOrder(t0) + After(way)
      invariant AllNodes(t, path) == AllNodes(t0, way)
      invariant elm.parent == ParentOf(path) && (|path| > 0 ==> elm.parent.color == path[|path| - 1].color)
      decreases |path|
    {
      ghost var p, g, rest := LastSteps(head.root, t, path, h);
      var parent := elm.parent;
      var gparent := parent.parent;
      var d := if parent == gparent.left then Left else Right;
      var tmp := gparent.Child(Other(d));
      if tmp != null && tmp.color == Red {
        RecolorKeeps(t, p, g, h);
        RecoloredTop(t, p, g);
        Recolor(head, tmp, parent, gparent, t, p, g, rest);
        t, path, h := Recolored(t, p, g), rest, h + 1;
        elm := gparent;
      } else {
        ghost var (x, q) := RotatedOut(t, p, g);
        Rotated(t, rest, p, g, h);
        RotatedTop(t, p, g);
        if parent.Child(Other(d)) == elm {
          TurnOut(head, parent, Other(d), t, p, g, rest);
          tmp := parent;
          parent := elm;
          elm := tmp;
        }
        TurnedOutOrder(t, p, g, rest, h);
        TurnUp(head, parent, gparent, d, x, q, g, rest);
        t, path := x, rest + [RotatedUp(q, g)];
      }
      SameNodes(t, path, t0, way);
      Around1(head.root, t, path);
    }
    Finish(t, path, h);
    AtWhole(head.root, t, path);
    WholeNode(t, path);
    now := Blackened(Whole(t, path));
    Around1(head.root, Whole(t, path), []);
    InNodes(Whole(t, path), []);
    WholeInOrder(t, path);
    NowhereYet(Whole(t, path));
    SameNodes(Whole(t, path), [], t, path);
    Paint(head, head.root, Black, Whole(t, path), []);
  }

  /** The two steps above a red element with a red parent. */
  lemma LastSteps(root: Elem?, t: Tree, path: seq<Step>, n: nat) returns (p: Step, g: Step, rest: seq<Step>)
    requires At(root, t, path) && IsRed(t) && Balanced(t, n) && Around(path, n) && |path| > 0 && path[|path| - 1].color == Red
    ensures path == rest + [g] + [p] && p.color == Red && g.color == Black
    ensures Balanced(p.other, n) && !IsRed(p.other) && Balanced(g.other, n) && Around(rest, n + 1)
    ensures TwoSteps(root, t, p, g, rest)
    ensures Before(path) + InOrder(t) + After(path) == Before(rest) + InOrder(Up(Up(t, p), g)) + After(rest)
    ensures {p.elem, g.elem} <= AllNodes(t, path) && (g.other.Node? ==> g.other.elem in AllNodes(t, path))
  {
    RedParent(path, n);
    LastTwo(path);
    p, g, rest := path[|path| - 1], path[|path| - 2], path[..|path| - 2];
    hide Before, After, InOrder, Balanced, Around, At, Whole, AllNodes, Up, TwoSteps;
    UpInOrder(t, rest + [g], p);
    UpInOrder(Up(t, p), rest, g);
    StepLinks(root, t, p, g, rest);
    StepNodes(t, rest + [g], p);
    NodesUp(t, rest + [g], p);
    StepNodes(Up(t, p), rest, g);
  }

  /** What the links say about parent, grandparent and uncle. */
  ghost predicate TwoSteps(root: Elem?, t: Tree, p: Step, g: Step, rest: seq<Step>)
    requires t.Node?
    reads AllNodes(Up(Up(t, p), g), rest), p.elem, g.elem, if g.other.Node? then {g.other.elem} else {}
  {
    && At(root, Up(Up(t, p), g), rest)
    && p.elem.parent == g.elem && (g.elem.left == p.elem <==> g.below == Left)
    && g.elem.Child(Other(g.below)) == Top(g.other) && (g.other.Node? ==> g.other.elem.color == g.other.color)
    && p.elem.Child(p.below) == t.elem && p.elem.Child(Other(p.below)) != t.elem
  }

  lemma StepLinks(root: Elem?, t: Tree, p: Step, g: Step, rest: seq<Step>)
    requires At(root, t, rest + [g] + [p]) && t.Node?
    ensures TwoSteps(root, t, p, g, rest)
  {
    hide Before, After, InOrder, At, Whole, Up;
    Around1(root, t, rest + [g] + [p]);
    MoveUp(root, t, p, rest + [g]);
    MoveUp(root, Up(t, p), g, rest);
    Around1(root, Up(t, p), rest + [g]);
    UpKids(t, p);
  }

  lemma RecoloredTop(t: Tree, p: Step, g: Step)
    requires g.other.Node?
    ensures Recolored(t, p, g).Node? && Recolored(t, p, g).elem == g.elem
  {
  }

  lemma RotatedTop(t: Tree, p: Step, g: Step)
    requires t.Node?
    ensures var (x, q) := RotatedOut(t, p, g);
            && x.Node? && q.below == g.below
            && (if p.below != g.below then q.elem == t.elem && x.elem == p.elem else x == t && q == p)
  {
  }

  lemma TurnedOutOrder(t: Tree, p: Step, g: Step, rest: seq<Step>, n: nat)
    requires IsRed(t) && Balanced(t, n) && Balanced(p.other, n) && !IsRed(p.other) && p.color == Red
    ensures var (x, q) := RotatedOut(t, p, g); AllNodes(x, rest + [g] + [q]) == AllNodes(t, rest + [g] + [p])
  {
    hide Before, After, InOrder, Balanced, RotatedOut, Up, AllNodes;
    var (x, q) := RotatedOut(t, p, g);
    RotateOutKeeps(t, p, g, n);
    UpInOrder(x, rest + [g], q);
    UpInOrder(t, rest + [g], p);
    SameNodes(x, rest + [g] + [q], t, rest + [g] + [p]);
  }

  // ---------- RB_INSERT ----------

  /** RB_SET and the link from the parent. */
  method LinkLeaf(head: Head, elm: Elem, parent: Elem?, comp: int, ghost path: seq<Step>)
    requires At(head.root, Leaf, path) && parent == ParentOf(path) && elm !in PathNodes(path)
    requires |path| > 0 ==> (comp < 0 <==> path[|path| - 1].below == Left)
    modifies head`root, PathNodes(path), elm
    ensures At(head.root, Node(Leaf, elm, Leaf, Red), path)
  {
    LeafOrder(path, elm);
    AroundApart(Leaf, path);
    assert allocated(PathNodes(path));
    hide InOrder, Before, After, NoDups, Nodes, PathNodes, PathLinked;
    elm.parent := parent;
    elm.left, elm.right := null, null;
    elm.color := Red;
    Attach(head, parent, elm, comp, path);
    AtLeaf(head.root, elm, path);
  }

  /** The link to a new element from its parent, or from the head. */
  method Attach(head: Head, parent: Elem?, elm: Elem, comp: int, ghost path: seq<Step>)
    requires PathLinked(path, null, head.root) && parent == ParentOf(path) && NoDups(Before(path) + After(path))
    requires elm !in PathNodes(path) && (|path| > 0 ==> (comp < 0 <==> path[|path| - 1].below == Left))
    modifies head`root, if parent == null then {} else {parent}
    ensures PathLinked(path, elm, head.root)
  {
    if parent != null {
      ApartStep(path);
      if comp < 0 { parent.left := elm; } else { parent.right := elm; }
    } else {
      head.root := elm;
    }
  }

  lemma AtLeaf(root: Elem?, elm: Elem, path: seq<Step>)
    requires elm.parent == ParentOf(path) && elm.left == null && elm.right == null && elm.color == Red
    requires PathLinked(path, elm, root) && NoDups(Before(path) + InOrder(Node(Leaf, elm, Leaf, Red)) + After(path))
    ensures At(root, Node(Leaf, elm, Leaf, Red), path)
  {
    hide InOrder, Before, After, NoDups, PathLinked;
    assert Linked(Leaf, elm.left, elm) && Linked(Leaf, elm.right, elm);
  }

  lemma LeafNodes(elm: Elem)
    ensures Nodes(Leaf) == {} && Nodes(Node(Leaf, elm, Leaf, Red)) == {elm}
  {
  }

  lemma LeafOrder(path: seq<Step>, elm: Elem)
    requires NoDups(Before(path) + InOrder(Leaf) + After(path)) && elm !in PathNodes(path)
    ensures NoDups(Before(path) + InOrder(Node(Leaf, elm, Leaf, Red)) + After(path))
  {
    hide InOrder, Before, After, NoDups;
    var a, c := Before(path), After(path);
    NewLeaf(elm, 0);
    assert a + [] + c == a + c;
    OneMore(a, c, elm);
  }

  /** Adds elm, unless an element with an equal key is there, which is then returned. */
  method Insert(head: Head, cmp: Cmp, elm: Elem) returns (found: Elem?)
    requires IsComparison(cmp) && head.Valid(cmp) && elm !in Nodes(head.tree)
    modifies head, Nodes(head.tree), elm
    ensures head.Valid(cmp)
    ensures found != null ==> head.tree == old(head.tree) && found in InOrder(head.tree) && cmp(elm.key, found.key) == 0
    ensures found == null ==> (forall x <- old(InOrder(head.tree)) :: cmp(elm.key, x.key) != 0)
                              && exists k: nat :: InsertedAt(old(InOrder(head.tree)), InOrder(head.tree), elm, k)
  {
    hide Before, After, InOrder, Balanced, Around, KeysRise, Rb, IsComparison, At, Whole, Nodes, PathNodes;
    ghost var all := InOrder(head.tree);
    ghost var t, path: seq<Step> := head.tree, [];
    ghost var h := RootHeight(head.tree);
    var tmp: Elem? := head.root;
    var parent: Elem? := null;
    var comp := 0;
    Around1(head.root, t, path);
    while tmp != null
      invariant At(head.root, t, path) && tmp == Top(t) && parent == ParentOf(path) && head.Valid(cmp)
      invariant head.tree == old(head.tree) && InOrder(head.tree) == all
      invariant |path| > 0 ==> (comp < 0 <==> path[|path| - 1].below == Left)
      invariant Balanced(t, h) && Around(path, h) && (IsRed(t) ==> |path| > 0 && path[|path| - 1].color == Black)
      invariant Before(path) + InOrder(t) + After(path) == all
      invariant (forall x <- Before(path) :: cmp(x.key, elm.key) < 0) && (forall x <- After(path) :: cmp(elm.key, x.key) < 0)
      decreases t
    {
      parent := tmp;
      comp := cmp(elm.key, parent.key);
      Descend(t, path, h);
      DownLinks(head.root, t, path);
      SplitAround(cmp, t, path, all);
      h := if t.color == Black then h - 1 else h;
      if comp < 0 {
        tmp := tmp.left;
        AllBeyond(cmp, elm.key, t.elem, After(path + [Step(Left, t.elem, t.color, t.right)]));
        LastOf(path, Step(Left, t.elem, t.color, t.right));
        t, path := t.left, path + [Step(Left, t.elem, t.color, t.right)];
      } else if comp > 0 {
        tmp := tmp.right;
        AllBefore(cmp, elm.key, t.elem, Before(path + [Step(Right, t.elem, t.color, t.left)]));
        LastOf(path, Step(Right, t.elem, t.color, t.left));
        t, path := t.right, path + [Step(Right, t.elem, t.color, t.left)];
      } else {
        return tmp;
      }
    }
    NewLeaf(elm, h);
    InsertedOrder(cmp, all, Before(path), After(path), elm);
    NowhereYet(head.tree);
    SameNodes(Leaf, path, head.tree, []);
    RootNodes(head.tree);
    LeafNodes(elm);
    LinkLeaf(head, elm, parent, comp, path);
    ghost var now := InsertColor(head, elm, Node(Leaf, elm, Leaf, Red), path, h);
    assert InOrder(now) == Before(path) + [elm] + After(path);
    assert At(head.root, now, []);
    assert allocated(Nodes(now));
    head.tree := now;
    assert At(head.root, now, []);
    assert KeysRise(cmp, InOrder(now));
    found := null;
  }

  lemma AllBeyond(cmp: Cmp, key: Key, e: Elem, es: seq<Elem>)
    requires IsComparison(cmp) && cmp(key, e.key) < 0 && forall x <- es :: cmp(e.key, x.key) <= 0
    ensures forall x <- es :: cmp(key, x.key) < 0
  {
    hide IsComparison;
    forall i | 0 <= i < |es| ensures cmp(key, es[i].key) < 0 { BelowTransitive(cmp, key, e.key, es[i].key); }
  }

  lemma AllBefore(cmp: Cmp, key: Key, e: Elem, es: seq<Elem>)
    requires IsComparison(cmp) && cmp(key, e.key) > 0 && forall x <- es :: cmp(x.key, e.key) <= 0
    ensures forall x <- es :: cmp(x.key, key) < 0
  {
    assert cmp(e.key, key) < 0;
    hide IsComparison;
    forall i | 0 <= i < |es| ensures cmp(es[i].key, key) < 0 { BelowTransitive(cmp, es[i].key, e.key, key); }
  }
}
