/** Removing from a red-black tree (libmy/tree.h, RB_REMOVE and RB_REMOVE_COLOR), on the links. */
module RbRemove {
  import opened RbTree
  import opened RbLinks

  // ---------- the three turns ----------

  /** A red sibling is rotated above the parent. */
  method Lift(head: Head, tmp: Elem, parent: Elem, d: Side, ghost t: Tree, ghost s: Step, ghost init: seq<Step>)
    requires At(head.root, t, init + [s]) && s.other.Node? && tmp == s.other.elem && parent == s.elem && d == s.below
    modifies head`root, AllNodes(t, init + [s])
    ensures var (a, b) := Lifted(s); At(head.root, t, init + [a] + [b])
  {
    hide At, Whole, Up, AllNodes, Lifted, Swap, Turned;
    ghost var s1, s2 := s.(other := s.other.(color := Black)), s.(color := Red, other := s.other.(color := Black));
    ghost var (a, b) := Lifted(s);
    StepNodes(t, init, s);
    NodesUp(t, init, s);
    PaintSibling(head, tmp, Black, t, s, init);
    PaintUp(t, s1, Red);
    MoveUp(head.root, t, s1, init);
    Paint(head, parent, Red, Up(t, s1), init);
    RepaintNodes(t, s, s2, init);
    UpKids(t, s2);
    var _ := Rotate(head, parent, Other(d), Up(t, s2), init);
    LiftIsTurn(t, s);
    MoveDown(head.root, Up(t, b), a, init);
    MoveDown(head.root, t, b, init + [a]);
  }

  method PaintSibling(head: Head, tmp: Elem, c: Color, ghost t: Tree, ghost s: Step, ghost init: seq<Step>)
    requires At(head.root, t, init + [s]) && s.other.Node? && tmp == s.other.elem
    modifies tmp`color
    ensures At(head.root, t, init + [s.(other := s.other.(color := c))])
  {
    hide At, Whole, Up, AllNodes, Swap;
    ghost var s2 := s.(other := s.other.(color := c));
    ToSibling(head.root, t, s, init);
    Paint(head, tmp, c, s.other, init + [Swap(s, t)]);
    BackAgain(head.root, t, s, s2, init);
  }

  /** From the sibling back to the position. */
  lemma BackAgain(root: Elem?, t: Tree, s: Step, s2: Step, init: seq<Step>)
    requires s2 == s.(other := s2.other) && At(root, s2.other, init + [Swap(s, t)])
    ensures At(root, t, init + [s2])
  {
    hide At, Whole, Up, AllNodes;
    ToSibling(root, s2.other, Swap(s, t), init);
  }

  lemma RepaintNodes(t: Tree, s: Step, s2: Step, init: seq<Step>)
    requires s2.below == s.below && s2.elem == s.elem && InOrder(s2.other) == InOrder(s.other)
    ensures AllNodes(Up(t, s2), init) == AllNodes(Up(t, s), init)
  {
    assert InOrder(Up(t, s2)) == InOrder(Up(t, s));
    hide InOrder, Up;
  }

  /** A red near child of the sibling is rotated to the far side. */
  method Straighten(head: Head, tmp: Elem, d: Side, ghost t: Tree, ghost path: seq<Step>)
    requires At(head.root, t, path) && t.Node? && tmp == t.elem && IsRed(Kid(t, d)) && !IsRed(Kid(t, Other(d)))
    modifies head`root, AllNodes(t, path)
    ensures At(head.root, Straightened(t, d), path)
  {
    hide At, Whole, Up, AllNodes, Straightened, Turned, Kid;
    ghost var s, k := Step(d, t.elem, t.color, Kid(t, Other(d))), Kid(t, d);
    ghost var k2 := k.(color := Black);
    KidUp(t, d);
    StepNodes(k, path, s);
    NodesUp(k, path, s);
    InNodes(k, path + [s]);
    MoveDown(head.root, k, s, path);
    Around1(head.root, k, path + [s]);
    LastOf(path, s);
    var near := tmp.Child(d);
    if near != null { Paint(head, near, Black, k, path + [s]); }
    MoveUp(head.root, k2, s, path);
    PaintUp(k2, s, Red);
    Paint(head, tmp, Red, Up(k2, s), path);
    StraightenedNodes(t, d, path);
    UpKids(k2, s.(color := Red));
    var _ := Rotate(head, tmp, d, Up(k2, s.(color := Red)), path);
    StraightenIsTurn(t, d);
  }

  lemma StraightenedNodes(t: Tree, d: Side, path: seq<Step>)
    requires t.Node? && Kid(t, d).Node?
    ensures AllNodes(Up(Kid(t, d).(color := Black), Step(d, t.elem, Red, Kid(t, Other(d)))), path) == AllNodes(t, path)
  {
    assert InOrder(Up(Kid(t, d).(color := Black), Step(d, t.elem, Red, Kid(t, Other(d))))) == InOrder(t);
    hide InOrder;
  }

  /** The last rotation: the sibling takes the parent's place and colour. */
  method Settle(head: Head, tmp: Elem, parent: Elem, d: Side, ghost t: Tree, ghost s: Step, ghost init: seq<Step>)
    requires At(head.root, t, init + [s]) && s.other.Node? && tmp == s.other.elem && parent == s.elem && d == s.below
    modifies head`root, AllNodes(t, init + [s])
    ensures At(head.root, Settled(t, s, s.other), init)
  {
    hide At, Whole, Up, AllNodes, Settled, Swap, Turned, Kid;
    ghost var u := s.other;
    ghost var s2 := s.(color := Black, other := u.(color := s.color));
    StepNodes(t, init, s);
    NodesUp(t, init, s);
    Around1(head.root, t, init + [s]);
    LastOf(init, s);
    PaintParentAndSibling(head, tmp, parent, t, s, init);
    FarNode(t, s, init);
    PaintKid(u, s.color, Other(d));
    BlackenFar(head, tmp, Other(d), t, s2, init);
    ghost var s3 := s2.(other := Up(Blackened(Kid(u, Other(d))), Step(Other(d), u.elem, s.color, Kid(u, d))));
    MoveUp(head.root, t, s3, init);
    SettledNodes(t, s, s3, init);
    UpKids(t, s3);
    UpKids(Blackened(Kid(u, Other(d))), Step(Other(d), u.elem, s.color, Kid(u, d)));
    var _ := Rotate(head, parent, Other(d), Up(t, s3), init);
    SettleIsTurn(t, s, u);
  }

  /** The sibling takes the parent's colour, and the parent turns black. */
  method PaintParentAndSibling(head: Head, tmp: Elem, parent: Elem, ghost t: Tree, ghost s: Step, ghost init: seq<Step>)
    requires At(head.root, t, init + [s]) && s.other.Node? && tmp == s.other.elem && parent == s.elem && parent.color == s.color
    modifies tmp`color, parent`color
    ensures At(head.root, t, init + [s.(color := Black, other := s.other.(color := s.color))])
  {
    hide At, Whole, Up, AllNodes;
    ghost var s1 := s.(other := s.other.(color := s.color));
    PaintSibling(head, tmp, parent.color, t, s, init);
    MoveUp(head.root, t, s1, init);
    PaintUp(t, s1, Black);
    Paint(head, parent, Black, Up(t, s1), init);
    MoveDown(head.root, t, s1.(color := Black), init);
  }

  /** The sibling's far child, if any, turns black. */
  method BlackenFar(head: Head, tmp: Elem, far: Side, ghost t: Tree, ghost s: Step, ghost init: seq<Step>)
    requires At(head.root, t, init + [s]) && s.other.Node? && tmp == s.other.elem && far == Other(s.below)
    modifies if Kid(s.other, far).Node? then {Kid(s.other, far).elem} else {}
    ensures At(head.root, t, init + [s.(other := Up(Blackened(Kid(s.other, far)), Step(far, tmp, s.other.color, Kid(s.other, Other(far)))))])
  {
    hide At, Whole, Up, AllNodes, Swap;
    ghost var u, path := s.other, init + [Swap(s, t)];
    ghost var k, f := Kid(u, far), Step(far, u.elem, u.color, Kid(u, Other(far)));
    ToSibling(head.root, t, s, init);
    KidUp(u, far);
    MoveDown(head.root, k, f, path);
    Around1(head.root, k, path + [f]);
    LastOf(path, f);
    var child := tmp.Child(far);
    if child != null { Paint(head, child, Black, k, path + [f]); }
    MoveUp(head.root, Blackened(k), f, path);
    BackAgain(head.root, t, s, s.(other := Up(Blackened(k), f)), init);
  }

  lemma FarNode(t: Tree, s: Step, init: seq<Step>)
    requires s.other.Node?
    ensures var k := Kid(s.other, Other(s.below)); k.Node? ==> k.elem in AllNodes(t, init + [s])
  {
    var k := Kid(s.other, Other(s.below));
    PathGrows(init, s);
    if k.Node? {
      KidNodes(s.other, Other(s.below));
      KidNodes(k, Left);
    }
    hide InOrder;
  }

  lemma PaintKid(u: Tree, c: Color, far: Side)
    requires u.Node?
    ensures Kid(u.(color := c), far) == Kid(u, far) && Kid(u.(color := c), Other(far)) == Kid(u, Other(far))
  {
  }

  lemma SettledNodes(t: Tree, s: Step, s3: Step, init: seq<Step>)
    requires s.other.Node?
    requires s3 == Step(s.below, s.elem, Black, Up(Blackened(Kid(s.other, Other(s.below))), Step(Other(s.below), s.other.elem, s.color, Kid(s.other, s.below))))
    ensures AllNodes(Up(t, s3), init) == AllNodes(Up(t, s), init)
  {
    assert InOrder(s3.other) == InOrder(s.other);
    hide InOrder;
    RepaintNodes(t, s, s3, init);
  }

  // ---------- RB_REMOVE_COLOR ----------

  predicate IsRedElem(e: Elem?)
    reads e
  {
    e != null && e.color == Red
  }

  /** What the links say about the parent, the sibling and its children. */
  lemma SiblingLinks(root: Elem?, t: Tree, s: Step, init: seq<Step>)
    requires At(root, t, init + [s]) && s.other.Node?
    ensures s.elem.Child(Other(s.below)) == s.other.elem && (s.elem.left == Top(t) <==> s.below == Left)
    ensures s.elem.color == s.color && s.other.elem.color == s.other.color
    ensures forall d :: IsRedElem(s.other.elem.Child(d)) <==> IsRed(Kid(s.other, d))
    ensures s.elem.parent == ParentOf(init)
  {
    hide At, AllNodes, Swap;
    Around1(root, t, init + [s]);
    LastOf(init, s);
    ToSibling(root, t, s, init);
    var u, path := s.other, init + [Swap(s, t)];
    DownLinks(root, u, path);
    Around1(root, u.left, path + [Step(Left, u.elem, u.color, u.right)]);
    Around1(root, u.right, path + [Step(Right, u.elem, u.color, u.left)]);
  }

  lemma TopRed(root: Elem?, t: Tree, path: seq<Step>)
    requires At(root, t, path)
    ensures IsRedElem(Top(t)) <==> IsRed(t)
    ensures Top(t) == root <==> |path| == 0
  {
    Around1(root, t, path);
  }

  lemma LiftedSteps(t: Tree, s: Step, init: seq<Step>)
    requires s.other.Node?
    ensures var (a, b) := Lifted(s); b.below == s.below && b.elem == s.elem && a.elem == s.other.elem
  {
  }

  /** A red far child is there or is rotated there, and the last rotation ends the shortage. */
  method StraightenAndSettle(head: Head, sibling: Elem, parent: Elem, d: Side, ghost t: Tree, ghost s: Step, ghost init: seq<Step>)
    requires At(head.root, t, init + [s]) && s.other.Node? && sibling == s.other.elem && parent == s.elem && d == s.below
    requires IsRed(s.other.left) || IsRed(s.other.right)
    modifies head`root, AllNodes(t, init + [s])
    ensures At(head.root, Settled(t, s, Straightened(s.other, d)), init)
  {
    hide At, AllNodes, Swap, Straightened, Settled, Kid, Up;
    KidSides(s.other, d);
    var tmp := sibling;
    ghost var u := Straightened(s.other, d);
    ghost var s2 := s.(other := u);
    SiblingLinks(head.root, t, s, init);
    StraightenedTop(s.other, d);
    StraightenedStep(t, s, u, init);
    if !IsRedElem(tmp.Child(Other(d))) {
      ToSibling(head.root, t, s, init);
      Straighten(head, tmp, d, s.other, init + [Swap(s, t)]);
      SwapSame(s, s2, t);
      BackAgain(head.root, t, s, s2, init);
      SiblingLinks(head.root, t, s2, init);
      tmp := parent.Child(Other(d));
    }
    Settle(head, tmp, parent, d, t, s2, init);
  }

  lemma KidSides(t: Tree, d: Side)
    requires t.Node? && (IsRed(t.left) || IsRed(t.right))
    ensures IsRed(Kid(t, d)) || IsRed(Kid(t, Other(d)))
  {
  }

  lemma StraightenedTop(t: Tree, d: Side)
    requires t.Node? && (IsRed(Kid(t, d)) || IsRed(Kid(t, Other(d))))
    ensures Straightened(t, d).Node? && (IsRed(Kid(t, Other(d))) ==> Straightened(t, d) == t)
    ensures InOrder(Straightened(t, d)) == InOrder(t)
  {
    if !IsRed(Kid(t, Other(d))) {
      StraightenIsTurn(t, d);
      var k := Up(Kid(t, d).(color := Black), Step(d, t.elem, Red, Kid(t, Other(d))));
      TurnedOrder(k, d);
      assert InOrder(k) == InOrder(t);
    }
  }

  lemma StraightenedStep(t: Tree, s: Step, u: Tree, init: seq<Step>)
    requires InOrder(u) == InOrder(s.other) && u.Node?
    ensures AllNodes(t, init + [s.(other := u)]) == AllNodes(t, init + [s])
    ensures Settled(t, s.(other := u), u) == Settled(t, s, u)
  {
    hide InOrder, AllNodes;
    NodesUp(t, init, s);
    NodesUp(t, init, s.(other := u));
    RepaintNodes(t, s, s.(other := u), init);
  }

  lemma Sideward(root: Elem?, t: Tree, path: seq<Step>, n: nat)
    requires At(root, t, path) && |path| > 0 && Around(path, n + 1)
    ensures var s := path[|path| - 1]; s.elem == ParentOf(path) && (s.elem.left == Top(t) <==> s.below == Left)
  {
    hide At, Balanced;
    Sibling(path, n);
    SiblingLinks(root, t, path[|path| - 1], path[..|path| - 1]);
  }

  /** The sibling, which is black once a red one has been rotated out of the way. */
  method BlackSibling(head: Head, parent: Elem, d: Side, ghost t: Tree, ghost path: seq<Step>, ghost n: nat)
    returns (tmp: Elem, ghost s: Step, ghost init: seq<Step>)
    requires At(head.root, t, path) && |path| > 0 && !IsRed(t) && Short(t, n) && Around(path, n + 1)
    requires parent == ParentOf(path) && d == path[|path| - 1].below
    modifies head`root, AllNodes(t, path)
    ensures At(head.root, t, init + [s]) && s.elem == parent && s.below == d && s.other.Node? && tmp == s.other.elem
    ensures Balanced(t, n) && !IsRed(s.other) && Balanced(s.other, n + 1)
    ensures Around(init, if s.color == Black then n + 2 else n + 1) && (s.color == Red ==> |init| > 0 && init[|init| - 1].color == Black)
    ensures Before(init) + InOrder(Up(t, s)) + After(init) == Before(path) + InOrder(t) + After(path)
    ensures s.color == Red || |init| < |path|
  {
    hide Before, After, InOrder, Balanced, Around, Short, Up, Lifted, At, AllNodes, Kid;
    s, init := path[|path| - 1], path[..|path| - 1];
    Sibling(path, n);
    UpInOrder(t, init, s);
    NotRed(t, n);
    SiblingLinks(head.root, t, s, init);
    tmp := parent.Child(Other(d));
    if tmp.color == Red {
      ghost var (a, b) := Lifted(s);
      LiftKeeps(t, init, s, n);
      UpInOrder(Up(t, b), init, a);
      UpInOrder(t, init + [a], b);
      Lift(head, tmp, parent, d, t, s, init);
      LiftedSteps(t, s, init);
      s, init := b, init + [a];
      SiblingLinks(head.root, t, s, init);
      tmp := parent.Child(Other(d));
    }
  }

  /** The last rotation, and the whole tree after it: its root has only to be black. */
  method EndShortage(head: Head, tmp: Elem, parent: Elem, d: Side, ghost t: Tree, ghost s: Step, ghost init: seq<Step>, ghost n: nat)
    returns (ghost u: Tree)
    requires At(head.root, t, init + [s]) && s.other.Node? && tmp == s.other.elem && parent == s.elem && d == s.below
    requires Balanced(t, n) && !IsRed(s.other) && Balanced(s.other, n + 1) && (IsRed(s.other.left) || IsRed(s.other.right))
    requires Around(init, if s.color == Black then n + 2 else n + 1) && (s.color == Red ==> |init| > 0 && init[|init| - 1].color == Black)
    modifies head`root, AllNodes(t, init + [s])
    ensures At(head.root, u, []) && Rb(Blackened(u)) && InOrder(Blackened(u)) == Before(init) + InOrder(Up(t, s)) + After(init)
  {
    hide Before, After, InOrder, Balanced, Around, Up, Rb, Straightened, Settled, At, Whole, AllNodes, Blackened, Kid;
    SettledEnds(t, s, init, n);
    StraightenAndSettle(head, tmp, parent, d, t, s, init);
    AtWhole(head.root, Settled(t, s, Straightened(s.other, s.below)), init);
    u := Whole(Settled(t, s, Straightened(s.other, s.below)), init);
  }

  /** Makes up for the black element missing below the position. */
  method RemoveColor(head: Head, start: Elem?, above: Elem?, ghost t0: Tree, ghost way: seq<Step>, ghost n: nat) returns (ghost now: Tree)
    requires At(head.root, t0, way) && start == Top(t0) && above == ParentOf(way) && Short(t0, n) && Around(way, n + 1)
    modifies head`root, AllNodes(t0, way)
    ensures At(head.root, now, []) && Rb(now) && InOrder(now) == Before(way) + InOrder(t0) + After(way)
  {
    hide Before, After, InOrder, Balanced, Around, Short, Up, Rb, Straightened, Settled, Lifted, At, Whole, AllNodes, Blackened, Kid;
    var elm, parent := start, above;
    ghost var t, path, h, settled := t0, way, n, false;
    TopRed(head.root, t, path);
    while !IsRedElem(elm) && elm != head.root
      invariant At(head.root, t, path) && elm == Top(t) && parent == ParentOf(path) && Short(t, h) && Around(path, h + 1) && !settled
      invariant Before(path) + InOrder(t) + After(path) == Before(way) + InOrder(t0) + After(way)
      invariant AllNodes(t, path) == AllNodes(t0, way)
      invariant (IsRedElem(elm) <==> IsRed(t)) && (elm == head.root <==> |path| == 0)
      decreases if IsRed(t) then 0 else |path| + 1
    {
      Sideward(head.root, t, path, h);
      var d := if parent.left == elm then Left else Right;
      ghost var s, init;
      var tmp;
      tmp, s, init := BlackSibling(head, parent, d, t, path, h);
      UpInOrder(t, init, s);
      SameNodes(t, init + [s], t0, way);
      SiblingLinks(head.root, t, s, init);
      SidesAre(s.other);
      if !IsRedElem(tmp.left) && !IsRedElem(tmp.right) {
        ghost var s2 := s.(other := s.other.(color := Red));
        StepNodes(t, init, s);
        PaintSibling(head, tmp, Red, t, s, init);
        PassUp(t, s, h);
        MoveUp(head.root, t, s2, init);
        UpKids(t, s2);
        h := if s.color == Black then h + 1 else h;
        t, path := Up(t, s2), init;
        elm := parent;
        parent := elm.parent;
        SameNodes(t, path, t0, way);
        TopRed(head.root, t, path);
      } else {
        t := EndShortage(head, tmp, parent, d, t, s, init, h);
        path, settled := [], true;
        elm := head.root;
        TopRed(head.root, t, path);
        NowhereYet(t);
        BlackenedOrder(t);
        SameNodes(t, path, t0, way);
        break;
      }
    }
    if !settled { ShortageOver(t, path, h); }
    WholeRoot(Blackened(t), path);
    TopPainted(t);
    InNodes1(t, path);
    if elm != null { Paint(head, elm, Black, t, path); }
    AtWhole(head.root, Blackened(t), path);
    now := Whole(Blackened(t), path);
  }

  lemma WholeRoot(t: Tree, path: seq<Step>)
    ensures path == [] ==> Whole(t, path) == t
  {
  }

  lemma TopPainted(t: Tree)
    ensures t.Node? ==> Blackened(t) == t.(color := Black)
    ensures t == Leaf ==> Blackened(t) == t
  {
  }

  lemma BlackenedOrder(t: Tree)
    ensures InOrder(Blackened(t)) == InOrder(t)
  {
  }

  lemma InNodes1(t: Tree, path: seq<Step>)
    ensures t.Node? ==> t.elem in AllNodes(t, path)
  {
  }

  /** After the last rotation the tree is red-black again, once its root is black. */
  lemma SettledEnds(t: Tree, s: Step, init: seq<Step>, n: nat)
    requires Balanced(t, n) && s.other.Node? && !IsRed(s.other) && Balanced(s.other, n + 1) && (IsRed(s.other.left) || IsRed(s.other.right))
    requires Around(init, if s.color == Black then n + 2 else n + 1) && (s.color == Red ==> |init| > 0 && init[|init| - 1].color == Black)
    ensures IsRed(Kid(s.other, s.below)) || IsRed(Kid(s.other, Other(s.below)))
    ensures Straightened(s.other, s.below).Node?
    ensures var u := Settled(t, s, Straightened(s.other, s.below));
            Rb(Blackened(Whole(u, init))) && InOrder(Blackened(Whole(u, init))) == Before(init) + InOrder(Up(t, s)) + After(init)
  {
    hide Before, After, InOrder, Balanced, Around, Rb, Blackened, Whole;
    KidSides(s.other, s.below);
    StraightenedTop(s.other, s.below);
    hide Straightened, Settled, Up, Kid;
    var tmp := Straightened(s.other, s.below);
    StraightenKeeps(s.other, s.below, n);
    SettleKeeps(t, s, tmp, n);
    SameAround(t, s, tmp);
    AllSettled(Settled(t, s, tmp), init, if s.color == Black then n + 2 else n + 1);
  }

  lemma SidesAre(t: Tree)
    requires t.Node?
    ensures Kid(t, Left) == t.left && Kid(t, Right) == t.right
  {
  }

  // ---------- RB_REMOVE ----------

  /** The node at a position has at most this child. */
  ghost predicate Only(t: Tree, c: Tree)
    requires t.Node?
  {
    (t.left == Leaf && c == t.right) || (t.right == Leaf && c == t.left)
  }

  /** Takes an element with at most one child out of the links around it; its own links stay. */
  method CutOut(head: Head, elm: Elem, child: Elem?, parent: Elem?, ghost t: Tree, ghost path: seq<Step>, ghost c: Tree)
    requires At(head.root, t, path) && t.Node? && t.elem == elm && Only(t, c) && child == Top(c) && parent == elm.parent
    modifies head`root, if child == null then {} else {child}, if parent == null then {} else {parent}
    ensures At(head.root, c, path) && elm.parent == old(elm.parent)
  {
    hide Before, After, InOrder, NoDups, Nodes, PathNodes, Linked, PathLinked;
    CutLinks(head.root, t, path, c);
    CutOrder(t, path, c);
    assert allocated(Nodes(c)) && allocated(PathNodes(path));
    Adopt(child, parent, c, elm);
    ReplaceChild(head, parent, elm, child, path);
  }

  lemma CutLinks(root: Elem?, t: Tree, path: seq<Step>, c: Tree)
    requires At(root, t, path) && t.Node? && Only(t, c)
    ensures Linked(c, Top(c), t.elem) && PathLinked(path, t.elem, root) && t.elem.parent == ParentOf(path)
    ensures NoDups(InOrder(c)) && NoDups(Before(path) + After(path))
    ensures Nodes(c) !! PathNodes(path) && t.elem !in Nodes(c) && t.elem !in PathNodes(path)
    ensures c.Node? ==> Top(c) in Nodes(c)
    ensures |path| > 0 ==> ParentOf(path) in PathNodes(path) && ParentOf(path).Child(Other(path[|path| - 1].below)) != t.elem
  {
    hide InOrder, Before, After, NoDups, Nodes, PathNodes, Linked, PathLinked, At;
    NodeLinks(root, t, path);
  }

  lemma CutOrder(t: Tree, path: seq<Step>, c: Tree)
    requires t.Node? && Only(t, c) && NoDups(Before(path) + InOrder(t) + After(path))
    ensures NoDups(Before(path) + InOrder(c) + After(path))
  {
    hide InOrder, Before, After, NoDups;
    OnlyOrder(t, c);
    var a, b, z := Before(path), InOrder(c), After(path);
    if InOrder(t) == [t.elem] + b {
      assert a + ([t.elem] + b) + z == a + [t.elem] + (b + z) && a + b + z == a + (b + z);
      OneLess(a, t.elem, b + z);
    } else {
      assert a + (b + [t.elem]) + z == (a + b) + [t.elem] + z;
      OneLess(a + b, t.elem, z);
    }
  }

  lemma OnlyOrder(t: Tree, c: Tree)
    requires t.Node? && Only(t, c)
    ensures InOrder(t) == [t.elem] + InOrder(c) || InOrder(t) == InOrder(c) + [t.elem]
  {
  }

  lemma OneLess(a: seq<Elem>, e: Elem, z: seq<Elem>)
    requires NoDups(a + [e] + z)
    ensures NoDups(a + z) && e !in a && e !in z
  {
    var es := a + [e] + z;
    assert es[|a|] == e;
    forall i, j | 0 <= i < j < |a + z| ensures (a + z)[i] != (a + z)[j] {
      assert (a + z)[i] == es[if i < |a| then i else i + 1] && (a + z)[j] == es[if j < |a| then j else j + 1];
    }
    forall i | 0 <= i < |a| ensures a[i] != e { assert es[i] == a[i]; }
    forall i | 0 <= i < |z| ensures z[i] != e { assert es[|a| + 1 + i] == z[i]; }
  }

  /** Puts elm in the place of old, with old's links and colour. */
  method Substitute(head: Head, gone: Elem, elm: Elem, ghost t: Tree, ghost path: seq<Step>)
    requires At(head.root, t, path) && t.Node? && t.elem == gone && elm !in AllNodes(t, path)
    modifies head`root, AllNodes(t, path), elm
    ensures At(head.root, t.(elem := elm), path)
  {
    hide Before, After, InOrder, NoDups, Nodes, PathNodes, Linked, PathLinked;
    NodeLinks(head.root, t, path);
    SubstituteOrder(t, path, elm);
    assert allocated(Nodes(t.left)) && allocated(Nodes(t.right)) && allocated(PathNodes(path));
    CopyField(elm, gone);
    ReplaceChild(head, gone.parent, gone, elm, path);
    Adopt(gone.left, elm, t.left, gone);
    Adopt(gone.right, elm, t.right, gone);
    SubstituteTree(t, elm, ParentOf(path));
  }

  /** The structure assignment of the links and the colour. */
  method CopyField(elm: Elem, from: Elem)
    modifies elm
    ensures elm.left == from.left && elm.right == from.right && elm.parent == from.parent && elm.color == from.color
    ensures elm != from ==> from.left == old(from.left) && from.right == old(from.right) && from.parent == old(from.parent)
  {
    elm.left := from.left;
    elm.right := from.right;
    elm.parent := from.parent;
    elm.color := from.color;
  }

  lemma SubstituteTree(t: Tree, elm: Elem, p: Elem?)
    requires t.Node? && elm.parent == p && elm.color == t.color && Linked(t.left, elm.left, elm) && Linked(t.right, elm.right, elm)
    ensures Linked(t.(elem := elm), elm, p)
  {
  }

  lemma SubstituteOrder(t: Tree, path: seq<Step>, elm: Elem)
    requires t.Node? && NoDups(Before(path) + InOrder(t) + After(path)) && elm !in AllNodes(t, path)
    ensures NoDups(Before(path) + InOrder(t.(elem := elm)) + After(path))
  {
    hide InOrder, Before, After, NoDups, Elems;
    var a, z := Before(path) + InOrder(t.left), InOrder(t.right) + After(path);
    InOrderIs(t);
    InOrderIs(t.(elem := elm));
    assert Before(path) + (InOrder(t.left) + [t.elem] + InOrder(t.right)) + After(path) == a + [t.elem] + z;
    assert Before(path) + (InOrder(t.left) + [elm] + InOrder(t.right)) + After(path) == a + [elm] + z;
    OneLess(a, t.elem, z);
    NotThere(t, path, elm);
    OneMore(a, z, elm);
  }

  lemma NotThere(t: Tree, path: seq<Step>, elm: Elem)
    requires t.Node? && elm !in AllNodes(t, path)
    ensures elm !in Before(path) + InOrder(t.left) && elm !in InOrder(t.right) + After(path)
  {
    hide Before, After;
  }

  lemma InOrderIs(t: Tree)
    requires t.Node?
    ensures InOrder(t) == InOrder(t.left) + [t.elem] + InOrder(t.right)
  {
  }

  /** From below a node to the node, and down again through another node in its place. */
  lemma ThroughNode(root: Elem?, c: Tree, path: seq<Step>, t: Tree, down: seq<Step>)
    requires t.Node?
    ensures var s := Step(Right, t.elem, t.color, t.left);
            At(root, c, path + [s] + down) <==> At(root, Node(t.left, t.elem, Whole(c, down), t.color), path)
  {
    hide At, Whole;
    var s := Step(Right, t.elem, t.color, t.left);
    WholeJoin(c, path + [s], down);
    WholeStep(Whole(c, down), path, s);
    AtWhole(root, c, path + [s] + down);
    AtWhole(root, Node(t.left, t.elem, Whole(c, down), t.color), path);
  }

  /** The leftmost element of the right side: its position, and what surrounds it. */
  method Leftmost(head: Head, gone: Elem, ghost t: Tree, ghost path: seq<Step>, ghost n: nat)
    returns (elm: Elem, ghost e: Tree, ghost down: seq<Step>, ghost h: nat)
    requires At(head.root, t, path) && t.Node? && t.elem == gone && t.right.Node?
    requires Balanced(t, n) && Around(path, n) && (IsRed(t) ==> |path| > 0 && path[|path| - 1].color == Black)
    ensures var s := Step(Right, gone, t.color, t.left);
            && At(head.root, e, path + [s] + down) && e.Node? && e.elem == elm && e.left == Leaf
            && Leftward(down) && Whole(e, down) == t.right
            && Balanced(e, h) && Around(path + [s] + down, h)
  {
    hide Before, After, InOrder, Balanced, Around, At, Whole;
    ghost var s := Step(Right, gone, t.color, t.left);
    Descend(t, path, n);
    DownLinks(head.root, t, path);
    elm := gone.right;
    e, down := t.right, [];
    h := if t.color == Black then n - 1 else n;
    assert path + [s] + down == path + [s];
    WholeRoot(e, down);
    DownLinks(head.root, e, path + [s] + down);
    while elm.left != null
      invariant At(head.root, e, path + [s] + down) && e.Node? && e.elem == elm && elm.left == Top(e.left)
      invariant Balanced(e, h) && Around(path + [s] + down, h) && Leftward(down)
      invariant IsRed(e) ==> (path + [s] + down)[|path + down|].color == Black
      invariant Whole(e, down) == t.right
      decreases e
    {
      ghost var step := Step(Left, e.elem, e.color, e.right);
      Descend(e, path + [s] + down, h);
      DownLinks(head.root, e, path + [s] + down);
      WholeStep(e.left, down, step);
      assert path + [s] + down + [step] == path + [s] + (down + [step]);
      h := if e.color == Black then h - 1 else h;
      down := down + [step];
      e := e.left;
      elm := elm.left;
      DownLinks(head.root, e, path + [s] + down);
    }
  }

  /** Which elements the splice touches. */
  lemma SpliceNodes(root: Elem?, t: Tree, path: seq<Step>, e: Tree, down: seq<Step>)
    requires t.Node? && e.Node? && e.left == Leaf && Whole(e, down) == t.right
    requires At(root, e, path + [Step(Right, t.elem, t.color, t.left)] + down)
    ensures var way, all, rest := path + [Step(Right, t.elem, t.color, t.left)] + down, AllNodes(t, path),
                                  AllNodes(Node(t.left, t.elem, Whole(e.right, down), t.color), path);
            && AllNodes(e, way) == all && e.elem in all && ParentOf(way) in all && (e.right.Node? ==> e.right.elem in all)
            && e.elem !in rest && rest <= all
  {
    var s := Step(Right, t.elem, t.color, t.left);
    var way := path + [s] + down;
    var t1 := Node(t.left, t.elem, Whole(e.right, down), t.color);
    assert Only(e, e.right);
    hide At, AllNodes, Whole;
    WholeJoin(e, path + [s], down);
    WholeStep(t.right, path, s);
    NodesOfWhole(e, way, t, path);
    WholeJoin(e.right, path + [s], down);
    WholeStep(Whole(e.right, down), path, s);
    NodesOfWhole(e.right, way, t1, path);
    CutLinks(root, e, way, e.right);
    CutNodes(e, way);
  }

  /** Only the right child itself has the removed element for its parent. */
  lemma NotOld(t: Tree, path: seq<Step>, e: Tree, down: seq<Step>)
    requires t.Node? && t.elem !in Nodes(t.right) && Whole(e, down) == t.right
    ensures |down| > 0 ==> ParentOf(down) != t.elem
    ensures var s := Step(Right, t.elem, t.color, t.left); ParentOf(path + [s] + down) == if |down| > 0 then ParentOf(down) else t.elem
    ensures forall x: Elem :: ParentOf(path + [Step(Right, x, t.color, t.left)] + down) == if |down| > 0 then ParentOf(down) else x
  {
    hide Whole;
    WholeRoot(t.right, []);
    NodesOfWhole(e, down, t.right, []);
    RootNodes(t.right);
    LastNode(down);
    hide InOrder, Before, After;
  }

  lemma NodesOfWhole(t: Tree, path: seq<Step>, u: Tree, way: seq<Step>)
    requires Whole(t, path) == Whole(u, way)
    ensures AllNodes(t, path) == AllNodes(u, way)
  {
    hide AllNodes, Whole;
    WholeInOrder(t, path);
    WholeInOrder(u, way);
    SameNodes(t, path, u, way);
  }

  lemma CutNodes(e: Tree, way: seq<Step>)
    requires e.Node? && |way| > 0 && e.elem !in Nodes(e.right) && e.elem !in PathNodes(way)
    ensures AllNodes(e.right, way) <= AllNodes(e, way) && e.elem !in AllNodes(e.right, way)
    ensures e.elem in AllNodes(e, way) && ParentOf(way) in AllNodes(e, way) && (e.right.Node? ==> e.right.elem in AllNodes(e, way))
  {
    LastNode(way);
    KidNodes(e, Right);
    if e.right.Node? { KidNodes(e.right, Left); }
    hide InOrder, Before, After;
  }

  /** An element with two children gives its place to its successor, whose place is closed. */
  method Splice(head: Head, gone: Elem, ghost t: Tree, ghost path: seq<Step>, ghost n: nat)
    returns (child: Elem?, parent: Elem, color: Color, ghost c: Tree, ghost way: seq<Step>, ghost h: nat)
    requires At(head.root, t, path) && t.Node? && t.elem == gone && t.left.Node? && t.right.Node?
    requires Balanced(t, n) && Around(path, n) && (IsRed(t) ==> |path| > 0 && path[|path| - 1].color == Black)
    modifies head`root, AllNodes(t, path)
    ensures At(head.root, c, way) && child == Top(c) && parent == ParentOf(way)
    ensures Around(way, h) && if color == Black then h > 0 && Short(c, h - 1) else Balanced(c, h) && !IsRed(c)
    ensures Before(way) + InOrder(c) + After(way) == Before(path) + InOrder(t.left) + InOrder(t.right) + After(path)
  {
    hide Before, After, InOrder, Balanced, Around, Short, At, AllNodes, Whole, Leftward;
    ghost var s := Step(Right, gone, t.color, t.left);
    var elm;
    ghost var e, down;
    NodeLinks(head.root, t, path);
    elm, e, down, h := Leftmost(head, gone, t, path, n);
    SpliceNodes(head.root, t, path, e, down);
    NotOld(t, path, e, down);
    WholeInOrder(e, down);
    Around1(head.root, e, path + [s] + down);
    DownLinks(head.root, e, path + [s] + down);
    OneChild(e, h);
    SuccessorOrder(t, path, down, e);
    AroundAnyElem(path, s, elm, down, h);
    c := e.right;
    child := elm.right;
    parent := elm.parent;
    color := elm.color;
    CutOut(head, elm, child, parent, e, path + [s] + down, c);
    ThroughNode(head.root, c, path, t, down);
    if elm.parent == gone { parent := elm; }
    ghost var t1 := Node(t.left, gone, Whole(c, down), t.color);
    Substitute(head, gone, elm, t1, path);
    ghost var t2 := t.(elem := elm);
    ThroughNode(head.root, c, path, t2, down);
    way := path + [Step(Right, elm, t.color, t.left)] + down;
  }

  /** The elements without the one at its place. */
  ghost predicate RemovedAt(was: seq<Elem>, now: seq<Elem>, e: Elem, k: nat) {
    k < |was| && was[k] == e && now == was[..k] + was[k + 1..]
  }

  lemma RemovedOrder(cmp: Cmp, was: seq<Elem>, a: seq<Elem>, l: seq<Elem>, e: Elem, r: seq<Elem>, z: seq<Elem>)
    requires was == a + (l + [e] + r) + z && KeysRise(cmp, was)
    ensures RemovedAt(was, a + l + r + z, e, |a + l|) && KeysRise(cmp, a + l + r + z)
  {
    hide KeysRise;
    assert was == (a + l) + [e] + (r + z) && a + l + r + z == (a + l) + (r + z);
    OneGone(was, a + l, e, r + z);
    StillRises(cmp, was, a + l + r + z, e, |a + l|);
  }

  lemma OneGone(was: seq<Elem>, a: seq<Elem>, e: Elem, z: seq<Elem>)
    requires was == a + [e] + z
    ensures RemovedAt(was, a + z, e, |a|)
  {
    assert was[..|a|] == a && was[|a| + 1..] == z;
  }

  lemma StillRises(cmp: Cmp, was: seq<Elem>, now: seq<Elem>, e: Elem, k: nat)
    requires RemovedAt(was, now, e, k) && KeysRise(cmp, was)
    ensures KeysRise(cmp, now)
  {
    forall i, j | 0 <= i < j < |now| ensures cmp(now[i].key, now[j].key) < 0 {
      assert now[i] == was[if i < k then i else i + 1] && now[j] == was[if j < k then j else j + 1];
    }
  }

  /** Takes elm out of the tree: exactly that element goes. */
  method Remove(head: Head, cmp: Cmp, elm: Elem)
    requires head.Valid(cmp) && elm in Nodes(head.tree)
    modifies head, Nodes(head.tree)
    ensures head.Valid(cmp)
    ensures exists k: nat :: RemovedAt(old(InOrder(head.tree)), InOrder(head.tree), elm, k)
  {
    ghost var t, path := FindPosition(head.tree, [], elm);
    hide Before, After, InOrder, Balanced, KeysRise, Rb, At, AllNodes, Whole, PathNodes, Nodes;
    WholeRoot(head.tree, []);
    WholeInOrder(t, path);
    InOrderIs(t);
    RemovedOrder(cmp, InOrder(head.tree), Before(path), InOrder(t.left), elm, InOrder(t.right), After(path));
    NodesOfWhole(t, path, head.tree, []);
    RootNodes(head.tree);
    Move(head.root, head.tree, [], t, path);
    ghost var now := RemoveAt(head, elm, t, path);
    assert At(head.root, now, []) && allocated(Nodes(now));
    head.tree := now;
  }

  method RemoveAt(head: Head, elm: Elem, ghost t: Tree, ghost path: seq<Step>) returns (ghost now: Tree)
    requires At(head.root, t, path) && t.Node? && t.elem == elm && Rb(Whole(t, path))
    modifies head`root, AllNodes(t, path)
    ensures At(head.root, now, []) && Rb(now) && InOrder(now) == Before(path) + InOrder(t.left) + InOrder(t.right) + After(path)
  {
    hide Before, After, InOrder, Balanced, Around, Short, Rb, At, AllNodes, Whole;
    ghost var n := PositionHeight(t, path);
    DownLinks(head.root, t, path);
    var child, parent, color;
    ghost var c, way, h;
    if elm.left == null || elm.right == null {
      child := if elm.left == null then elm.right else elm.left;
      parent := elm.parent;
      color := elm.color;
      c, way, h := if t.left == Leaf then t.right else t.left, path, n;
      Around1(head.root, t, path);
      OneChild(t, n);
      OnlyNodes(t, path, c);
      CutOut(head, elm, child, parent, t, path, c);
    } else {
      child, parent, color, c, way, h := Splice(head, elm, t, path, n);
    }
    if color == Black {
      RestNodes(t, path, c, way);
      now := RemoveColor(head, child, parent, c, way, h - 1);
    } else {
      FillHole(c, way, h);
      WholeInOrder(c, way);
      AtWhole(head.root, c, way);
      now := Whole(c, way);
    }
  }

  lemma OnlyNodes(t: Tree, path: seq<Step>, c: Tree)
    requires t.Node? && Only(t, c)
    ensures c.Node? ==> c.elem in AllNodes(t, path)
    ensures |path| > 0 ==> ParentOf(path) in AllNodes(t, path)
  {
    KidNodes(t, Left);
    if c.Node? { KidNodes(c, Left); }
    LastNode(path);
    hide InOrder, Before, After;
  }

  lemma RestNodes(t: Tree, path: seq<Step>, c: Tree, way: seq<Step>)
    requires t.Node? && Before(way) + InOrder(c) + After(way) == Before(path) + InOrder(t.left) + InOrder(t.right) + After(path)
    ensures AllNodes(c, way) <= AllNodes(t, path)
  {
    NodesAre(c, way);
    NodesAre(t, path);
    InOrderIs(t);
    hide Before, After, InOrder, AllNodes;
  }
}
