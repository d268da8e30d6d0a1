/** The links of a red-black tree (libmy/tree.h): left, right and parent pointers and
    colours tied to the tree they spell out, and the rewriting steps of the macros. */
module RbLinks {
  import opened RbTree

  class Head {
    var root: Elem?
    /** The tree the links spell out. */
    ghost var tree: Tree

    constructor ()
      ensures root == null && tree == Leaf
    {
      root, tree := null, Leaf;
    }

    /** The links spell out a red-black tree with rising keys. */
    ghost predicate Valid(cmp: Cmp)
      reads this, Nodes(tree)
    {
      At(root, tree, []) && Rb(tree) && KeysRise(cmp, InOrder(tree))
    }
  }

  function Elems(es: seq<Elem>): set<Elem> { set x | x in es }

  function Nodes(t: Tree): set<Elem> { Elems(InOrder(t)) }

  function PathNodes(path: seq<Step>): set<Elem> { Elems(Before(path)) + Elems(After(path)) }

  function Top(t: Tree): Elem? { if t.Node? then t.elem else null }

  function ParentOf(path: seq<Step>): Elem? { if |path| == 0 then null else path[|path| - 1].elem }

  /** `n` is the root of t, its parent link is p, and inside every child's parent link is its parent. */
  ghost predicate Linked(t: Tree, n: Elem?, p: Elem?)
    reads Nodes(t)
  {
    match t
    case Leaf => n == null
    case Node(l, x, r, c) => n == x && x.parent == p && x.color == c && Linked(l, x.left, x) && Linked(r, x.right, x)
  }

  /** The same for everything around a hole that holds n. */
  ghost predicate PathLinked(path: seq<Step>, n: Elem?, root: Elem?)
    reads PathNodes(path)
  {
    if |path| == 0 then root == n
    else
      var s, init := path[|path| - 1], path[..|path| - 1];
      && s.elem.color == s.color && s.elem.parent == ParentOf(init)
      && s.elem.Child(s.below) == n && Linked(s.other, s.elem.Child(Other(s.below)), s.elem)
      && PathLinked(init, s.elem, root)
  }

  ghost predicate NoDups(es: seq<Elem>) { forall i, j :: 0 <= i < j < |es| ==> es[i] != es[j] }

  /** The links spell out t at this path, and no element occurs twice. */
  ghost predicate At(root: Elem?, t: Tree, path: seq<Step>)
    reads Nodes(t), PathNodes(path)
  {
    Linked(t, Top(t), ParentOf(path)) && PathLinked(path, Top(t), root) && NoDups(Before(path) + InOrder(t) + After(path))
  }

  /** What a position and its surroundings are made of. */
  ghost function AllNodes(t: Tree, path: seq<Step>): set<Elem> { Nodes(t) + PathNodes(path) }

  // ---------- which elements are where ----------

  lemma ElemsConcat(a: seq<Elem>, b: seq<Elem>)
    ensures Elems(a + b) == Elems(a) + Elems(b)
  {
  }

  lemma NodesAre(t: Tree, path: seq<Step>)
    ensures AllNodes(t, path) == Elems(Before(path) + InOrder(t) + After(path))
  {
    hide Before, After, InOrder;
    ElemsConcat(Before(path) + InOrder(t), After(path));
    ElemsConcat(Before(path), InOrder(t));
  }

  /** Positions with the same elements in order have the same nodes. */
  lemma SameNodes(t: Tree, path: seq<Step>, u: Tree, way: seq<Step>)
    requires Before(path) + InOrder(t) + After(path) == Before(way) + InOrder(u) + After(way)
    ensures AllNodes(t, path) == AllNodes(u, way)
  {
    hide AllNodes, Before, After, InOrder;
    NodesAre(t, path);
    NodesAre(u, way);
  }

  lemma DisjointParts(a: seq<Elem>, b: seq<Elem>)
    requires NoDups(a + b)
    ensures NoDups(a) && NoDups(b) && Elems(a) !! Elems(b)
  {
    forall i, j | 0 <= i < j < |a| ensures a[i] != a[j] { assert a[i] == (a + b)[i] && a[j] == (a + b)[j]; }
    forall i, j | 0 <= i < j < |b| ensures b[i] != b[j] { assert b[i] == (a + b)[|a| + i] && b[j] == (a + b)[|a| + j]; }
    forall i, j | 0 <= i < |a| && 0 <= j < |b| ensures a[i] != b[j] { assert a[i] == (a + b)[i] && b[j] == (a + b)[|a| + j]; }
  }

  lemma ThreeApart(a: seq<Elem>, b: seq<Elem>, c: seq<Elem>)
    requires NoDups(a + b + c)
    ensures NoDups(a) && NoDups(b) && NoDups(c) && Elems(a) !! Elems(b) && Elems(a) !! Elems(c) && Elems(b) !! Elems(c)
  {
    hide NoDups, Elems;
    DisjointParts(a + b, c);
    DisjointParts(a, b);
    ElemsConcat(a, b);
  }

  /** A subtree apart from its surroundings, and a node apart from its two sides. */
  lemma Apart(t: Tree, path: seq<Step>)
    requires NoDups(Before(path) + InOrder(t) + After(path))
    ensures Nodes(t) !! PathNodes(path) && NoDups(InOrder(t))
  {
    hide Before, After, InOrder, NoDups, Elems;
    ThreeApart(Before(path), InOrder(t), After(path));
  }

  lemma ApartTree(t: Tree)
    requires t.Node? && NoDups(InOrder(t))
    ensures t.elem !in Nodes(t.left) && t.elem !in Nodes(t.right) && Nodes(t.left) !! Nodes(t.right)
    ensures NoDups(InOrder(t.left)) && NoDups(InOrder(t.right))
  {
    assert InOrder(t) == InOrder(t.left) + [t.elem] + InOrder(t.right);
    assert t.elem in Elems([t.elem]);
    hide InOrder, NoDups, Elems;
    ThreeApart(InOrder(t.left), [t.elem], InOrder(t.right));
  }

  lemma OneMore(a: seq<Elem>, c: seq<Elem>, elm: Elem)
    requires NoDups(a + c) && elm !in a && elm !in c
    ensures NoDups(a + [elm] + c)
  {
    var es := a + [elm] + c;
    forall i, j | 0 <= i < j < |es| ensures es[i] != es[j] {
      if i != |a| && j != |a| {
        assert es[i] == (a + c)[if i < |a| then i else i - 1] && es[j] == (a + c)[if j < |a| then j else j - 1];
      }
    }
  }

  // ---------- moving the position ----------

  lemma AtUp(root: Elem?, t: Tree, path: seq<Step>)
    requires |path| > 0
    ensures var s, init := path[|path| - 1], path[..|path| - 1];
            At(root, t, path) <==> Linked(t, s.elem.Child(s.below), s.elem) && At(root, Up(t, s), init)
  {
    var s, init := path[|path| - 1], path[..|path| - 1];
    assert path == init + [s];
    UpInOrder(t, init, s);
  }

  /** The last step of a path apart from the rest of it. */
  lemma ApartStep(path: seq<Step>)
    requires |path| > 0 && NoDups(Before(path) + After(path))
    ensures var s, init := path[|path| - 1], path[..|path| - 1];
            && s.elem !in PathNodes(init) && s.elem !in Nodes(s.other) && Nodes(s.other) !! PathNodes(init)
            && NoDups(Before(init) + After(init)) && NoDups(InOrder(s.other))
  {
    var s, init := path[|path| - 1], path[..|path| - 1];
    assert path == init + [s];
    UpInOrder(Leaf, init, s);
    assert Before(path) + InOrder(Leaf) + After(path) == Before(path) + After(path);
    Apart(Up(Leaf, s), init);
    ApartTree(Up(Leaf, s));
    AroundApart(Up(Leaf, s), init);
    hide InOrder, Before, After, NoDups;
    ApartSide(s);
  }

  lemma ApartSide(s: Step)
    ensures s.elem in Nodes(Up(Leaf, s)) && Nodes(s.other) <= Nodes(Up(Leaf, s))
    ensures Up(Leaf, s).Node? && Up(Leaf, s).elem == s.elem && (Up(Leaf, s).left == s.other || Up(Leaf, s).right == s.other)
  {
  }

  lemma AroundApart(t: Tree, path: seq<Step>)
    requires NoDups(Before(path) + InOrder(t) + After(path))
    ensures NoDups(Before(path) + After(path))
  {
    hide Before, After, InOrder;
    var a, b, c := Before(path), InOrder(t), After(path);
    forall i, j | 0 <= i < j < |a + c| ensures (a + c)[i] != (a + c)[j] {
      var i2, j2 := if i < |a| then i else i + |b|, if j < |a| then j else j + |b|;
      assert (a + b + c)[i2] == (a + c)[i] && (a + b + c)[j2] == (a + c)[j];
    }
  }

  // ---------- what it means for the pointers ----------

  /** Every child's parent link leads back, and every element but the root is a child of its parent. */
  lemma {:induction false} ParentLinks(t: Tree, n: Elem?, p: Elem?, x: Elem)
    requires Linked(t, n, p) && x in Nodes(t) && NoDups(InOrder(t))
    ensures forall d :: x.Child(d) != null ==> x.Child(d) in Nodes(t) && x.Child(d).parent == x
    ensures if x == n then x.parent == p else x.parent != null && x.parent in Nodes(t) && IsChild(x, x.parent)
  {
    KidNodes(t, Left);
    ApartTree(t);
    if t.left.Node? { KidNodes(t.left, Left); }
    if t.right.Node? { KidNodes(t.right, Left); }
    if x in Nodes(t.left) {
      ParentLinks(t.left, t.elem.left, t.elem, x);
      assert x == t.elem.left ==> t.elem.Child(Left) == x;
    } else if x in Nodes(t.right) {
      ParentLinks(t.right, t.elem.right, t.elem, x);
      assert x == t.elem.right ==> t.elem.Child(Right) == x;
    }
  }

  ghost predicate IsChild(x: Elem, p: Elem)
    reads p
  {
    p.left == x || p.right == x
  }

  /** The same for a whole tree: the root's parent link is null, and nobody else's is. */
  lemma {:induction false} TreeLinks(head: Head, cmp: Cmp, x: Elem)
    requires head.Valid(cmp) && x in Nodes(head.tree)
    ensures forall d :: x.Child(d) != null ==> x.Child(d) in Nodes(head.tree) && x.Child(d).parent == x
    ensures x.parent == null <==> x == head.root
    ensures x.parent != null ==> x.parent in Nodes(head.tree) && IsChild(x, x.parent)
  {
    Apart(head.tree, []);
    hide Rb, KeysRise, InOrder, Nodes;
    ParentLinks(head.tree, head.root, null, x);
  }

  // ---------- rewriting ----------

  /** Sets the parent link of a subtree's root, if there is one. */
  method Adopt(child: Elem?, parent: Elem?, ghost t: Tree, ghost was: Elem?)
    requires Linked(t, child, was) && NoDups(InOrder(t))
    modifies if child == null then {} else {child}
    ensures Linked(t, child, parent)
    ensures child != null ==> child.left == old(child.left) && child.right == old(child.right) && child.color == old(child.color)
  {
    if child != null {
      ApartTree(t);
      child.parent := parent;
    }
  }

  /** Puts `child` in the place of `elm` below the parent, or at the root. */
  method ReplaceChild(head: Head, parent: Elem?, elm: Elem, child: Elem?, ghost path: seq<Step>)
    requires PathLinked(path, elm, head.root) && parent == ParentOf(path) && NoDups(Before(path) + After(path))
    requires parent != null ==> parent.Child(Other(path[|path| - 1].below)) != elm
    modifies head`root, if parent == null then {} else {parent}
    ensures PathLinked(path, child, head.root)
    ensures parent != null ==> head.root == old(head.root) && parent.parent == old(parent.parent) && parent.color == old(parent.color)
  {
    if parent != null {
      ApartStep(path);
      if parent.left == elm { parent.left := child; } else { parent.right := child; }
    } else {
      head.root := child;
    }
  }

  /** RB_ROTATE_LEFT for d == Right, RB_ROTATE_RIGHT for d == Left. */
  method Rotate(head: Head, elm: Elem, d: Side, ghost t: Tree, ghost path: seq<Step>) returns (tmp: Elem)
    requires At(head.root, t, path) && t.Node? && t.elem == elm && Kid(t, d).Node?
    modifies head`root, AllNodes(t, path)
    ensures At(head.root, Turned(t, d), path) && tmp == Turned(t, d).elem
  {
    hide InOrder, Before, After, Turned, NoDups, Nodes, PathNodes, Linked, PathLinked, Kid, Up, At;
    ghost var inner, outer, far := Kid(Kid(t, d), Other(d)), Kid(Kid(t, d), d), Kid(t, Other(d));
    BeforeTurn(head.root, t, path, d);
    assert allocated(Nodes(inner)) && allocated(Nodes(outer)) && allocated(Nodes(far)) && allocated(PathNodes(path));
    tmp := elm.Child(d);
    TakeInner(elm, tmp, d, inner, outer, far);
    tmp.parent := elm.parent;
    ReplaceChild(head, elm.parent, elm, tmp, path);
    tmp.SetChild(Other(d), elm);
    elm.parent := tmp;
    TurnedLinked(t, d, ParentOf(path));
    AtTurned(head.root, t, path, d);
  }

  /** The first half of a rotation: the inner grandchild becomes a child of `elm`. */
  method TakeInner(elm: Elem, tmp: Elem, d: Side, ghost inner: Tree, ghost outer: Tree, ghost far: Tree)
    requires elm != tmp && Linked(inner, tmp.Child(Other(d)), tmp) && Linked(outer, tmp.Child(d), tmp) && Linked(far, elm.Child(Other(d)), elm)
    requires NoDups(InOrder(inner)) && (tmp.Child(Other(d)) != null ==> tmp.Child(Other(d)) in Nodes(inner))
    requires {elm, tmp} !! Nodes(inner) && {elm, tmp} !! Nodes(outer) && {elm, tmp} !! Nodes(far)
    requires Nodes(inner) !! Nodes(outer) && Nodes(inner) !! Nodes(far)
    modifies elm`left, elm`right, Nodes(inner)
    ensures elm.Child(d) == tmp.Child(Other(d)) && elm.Child(Other(d)) == old(elm.Child(Other(d)))
    ensures Linked(inner, elm.Child(d), elm) && Linked(outer, tmp.Child(d), tmp) && Linked(far, elm.Child(Other(d)), elm)
  {
    hide InOrder, NoDups, Nodes, Linked;
    assert allocated(Nodes(inner)) && allocated(Nodes(outer)) && allocated(Nodes(far));
    elm.SetChild(d, tmp.Child(Other(d)));
    Adopt(tmp.Child(Other(d)), elm, inner, tmp);
  }

  /** What the links around an edge about to be turned are, and which nodes are apart. */
  lemma BeforeTurn(root: Elem?, t: Tree, path: seq<Step>, d: Side)
    requires At(root, t, path) && t.Node? && Kid(t, d).Node?
    ensures NoDups(Before(path) + InOrder(t) + After(path)) && NoDups(Before(path) + After(path))
    ensures PathLinked(path, t.elem, root)
    ensures var x, y, o, p := t.elem, Kid(t, d).elem, Other(d), ParentOf(path);
            var inner, outer, far := Kid(Kid(t, d), o), Kid(Kid(t, d), d), Kid(t, o);
            && x.parent == p && x.color == t.color && x.Child(d) == y && Linked(far, x.Child(o), x)
            && y.parent == x && y.color == Kid(t, d).color && Linked(inner, y.Child(o), y) && Linked(outer, y.Child(d), y)
            && NoDups(InOrder(inner)) && (inner.Node? ==> y.Child(o) == inner.elem && inner.elem in Nodes(inner))
            && x != y && {x, y} !! Nodes(inner) && {x, y} !! Nodes(outer) && {x, y} !! Nodes(far) && {x, y} !! PathNodes(path)
            && Nodes(inner) !! Nodes(outer) && Nodes(inner) !! Nodes(far) && Nodes(inner) !! PathNodes(path)
            && Nodes(outer) !! PathNodes(path) && Nodes(far) !! PathNodes(path)
            && Nodes(t) == {x, y} + Nodes(inner) + Nodes(outer) + Nodes(far)
            && (p != null ==> p in PathNodes(path) && p.Child(Other(path[|path| - 1].below)) != x)
            && (inner == Leaf ==> y.Child(o) == null)
  {
    hide InOrder, Before, After, NoDups, Nodes, PathNodes, PathLinked, Kid, Up;
    var y := Kid(t, d);
    Apart(t, path);
    AroundApart(t, path);
    ApartKids(t, d);
    ApartKids(y, Other(d));
    OtherSide(root, t, path);
    LastNode(path);
    LinkedKids(t, t.elem, ParentOf(path), d);
    LinkedKids(y, t.elem.Child(d), t.elem, Other(d));
  }

  lemma AtTurned(root: Elem?, t: Tree, path: seq<Step>, d: Side)
    requires t.Node? && Kid(t, d).Node? && NoDups(Before(path) + InOrder(t) + After(path))
    requires Linked(Turned(t, d), Kid(t, d).elem, ParentOf(path)) && PathLinked(path, Kid(t, d).elem, root)
    ensures At(root, Turned(t, d), path)
  {
    TurnedOrder(t, d);
  }

  lemma LinkedKids(t: Tree, n: Elem?, p: Elem?, d: Side)
    requires t.Node? && Linked(t, n, p)
    ensures n == t.elem && t.elem.parent == p && t.elem.color == t.color
    ensures Linked(Kid(t, d), t.elem.Child(d), t.elem) && Linked(Kid(t, Other(d)), t.elem.Child(Other(d)), t.elem)
    ensures Kid(t, d).Node? ==> t.elem.Child(d) == Kid(t, d).elem
  {
  }

  lemma TurnedLinked(t: Tree, d: Side, p: Elem?)
    requires t.Node? && Kid(t, d).Node?
    requires var x, y, o := t.elem, Kid(t, d).elem, Other(d);
             && y.parent == p && y.color == Kid(t, d).color && x.parent == y && x.color == t.color
             && y.Child(o) == x && Linked(Kid(Kid(t, d), d), y.Child(d), y)
             && Linked(Kid(Kid(t, d), o), x.Child(d), x) && Linked(Kid(t, o), x.Child(o), x)
    ensures Linked(Turned(t, d), Kid(t, d).elem, p)
  {
    hide InOrder;
  }

  /** What separates the nodes on the two sides of d. */
  lemma ApartKids(t: Tree, d: Side)
    requires t.Node? && NoDups(InOrder(t))
    ensures t.elem !in Nodes(Kid(t, d)) && t.elem !in Nodes(Kid(t, Other(d))) && Nodes(Kid(t, d)) !! Nodes(Kid(t, Other(d)))
    ensures NoDups(InOrder(Kid(t, d))) && NoDups(InOrder(Kid(t, Other(d))))
    ensures Nodes(t) == Nodes(Kid(t, d)) + {t.elem} + Nodes(Kid(t, Other(d)))
    ensures Kid(t, d).Node? ==> Kid(t, d).elem in Nodes(Kid(t, d))
  {
    ApartTree(t);
    KidNodes(t, d);
    if Kid(t, d).Node? { KidNodes(Kid(t, d), d); }
  }

  lemma LastNode(path: seq<Step>)
    ensures |path| > 0 ==> path[|path| - 1].elem in PathNodes(path)
  {
  }

  lemma KidNodes(t: Tree, d: Side)
    requires t.Node?
    ensures Nodes(t) == Nodes(Kid(t, d)) + {t.elem} + Nodes(Kid(t, Other(d)))
  {
  }

  /** The other child of the parent is not the element at the position. */
  lemma OtherSide(root: Elem?, t: Tree, path: seq<Step>)
    requires At(root, t, path) && t.Node?
    ensures |path| > 0 ==> var s := path[|path| - 1]; s.elem.Child(s.below) == t.elem && s.elem.Child(Other(s.below)) != t.elem
  {
    if |path| > 0 {
      var s := path[|path| - 1];
      Apart(t, path);
      KidNodes(t, Left);
      if s.other.Node? { KidNodes(s.other, Left); }
      SiblingNodes(path);
      hide InOrder, Before, After;
    }
  }

  lemma SiblingNodes(path: seq<Step>)
    requires |path| > 0
    ensures Nodes(path[|path| - 1].other) <= PathNodes(path) && path[|path| - 1].elem in PathNodes(path)
  {
  }

  /** The links at a position do not depend on where in the same tree one looks from. */
  lemma {:induction false} AtWhole(root: Elem?, t: Tree, path: seq<Step>)
    ensures At(root, t, path) <==> At(root, Whole(t, path), [])
    decreases |path|
  {
    if |path| > 0 {
      var s, init := path[|path| - 1], path[..|path| - 1];
      AtUp(root, t, path);
      hide At;
      AtWhole(root, Up(t, s), init);
    }
  }

  lemma Move(root: Elem?, t: Tree, path: seq<Step>, u: Tree, way: seq<Step>)
    requires At(root, t, path) && Whole(t, path) == Whole(u, way)
    ensures At(root, u, way)
  {
    hide At, Whole;
    AtWhole(root, t, path);
    AtWhole(root, u, way);
  }

  /** What the links say around a position. */
  lemma Around1(root: Elem?, t: Tree, path: seq<Step>)
    requires At(root, t, path)
    ensures t.Node? ==> t.elem.parent == ParentOf(path) && t.elem.color == t.color
    ensures |path| == 0 <==> root == Top(t)
    ensures |path| > 0 ==>
              var s, init := path[|path| - 1], path[..|path| - 1];
              && s.elem.color == s.color && s.elem.parent == ParentOf(init)
              && s.elem.Child(s.below) == Top(t) && s.elem.Child(Other(s.below)) == Top(s.other)
              && (s.other.Node? ==> s.other.elem.color == s.other.color && Top(t) != s.other.elem)
  {
    Apart(t, path);
    if |path| > 0 {
      SiblingNodes(path);
      RootOfPath(root, t, path);
    }
    if t.Node? { KidNodes(t, Left); }
    if |path| > 0 && path[|path| - 1].other.Node? { KidNodes(path[|path| - 1].other, Left); }
  }

  /** Below the root the root is an element of the path. */
  lemma {:induction false} RootOfPath(root: Elem?, t: Tree, path: seq<Step>)
    requires PathLinked(path, Top(t), root) && |path| > 0
    ensures root in PathNodes(path) && root != null
    decreases |path|
  {
    var s, init := path[|path| - 1], path[..|path| - 1];
    if |init| > 0 { RootOfPath(root, Up(t, s), init); }
  }

  /** The links of the node at a position, and what is apart from what. */
  lemma NodeLinks(root: Elem?, t: Tree, path: seq<Step>)
    requires At(root, t, path) && t.Node?
    ensures var x := t.elem;
            && x.parent == ParentOf(path) && x.color == t.color && Linked(t.left, x.left, x) && Linked(t.right, x.right, x)
            && x.left == Top(t.left) && x.right == Top(t.right) && PathLinked(path, x, root)
            && x !in Nodes(t.left) && x !in Nodes(t.right) && x !in PathNodes(path)
    ensures NoDups(InOrder(t.left)) && NoDups(InOrder(t.right)) && NoDups(Before(path) + After(path))
    ensures NoDups(Before(path) + InOrder(t) + After(path))
    ensures Nodes(t.left) !! Nodes(t.right) && Nodes(t.left) !! PathNodes(path) && Nodes(t.right) !! PathNodes(path)
    ensures Nodes(t) == Nodes(t.left) + {t.elem} + Nodes(t.right)
    ensures (t.left.Node? ==> t.left.elem in Nodes(t.left)) && (t.right.Node? ==> t.right.elem in Nodes(t.right))
    ensures |path| > 0 ==> ParentOf(path) in PathNodes(path) && ParentOf(path).Child(Other(path[|path| - 1].below)) != t.elem
  {
    Apart(t, path);
    AroundApart(t, path);
    ApartTree(t);
    KidNodes(t, Left);
    OtherSide(root, t, path);
    LastNode(path);
    if t.left.Node? { KidNodes(t.left, Left); }
    if t.right.Node? { KidNodes(t.right, Left); }
    hide InOrder, Before, After, NoDups;
  }

  /** Sets the colour of the element at a position. */
  method Paint(head: Head, elm: Elem, c: Color, ghost t: Tree, ghost path: seq<Step>)
    requires At(head.root, t, path) && t.Node? && t.elem == elm
    modifies elm`color
    ensures At(head.root, t.(color := c), path)
  {
    hide InOrder, Before, After, NoDups, PathLinked, Linked, Nodes, PathNodes, At;
    NodeLinks(head.root, t, path);
    assert allocated(Nodes(t.left)) && allocated(Nodes(t.right)) && allocated(PathNodes(path));
    elm.color := c;
    PaintOrder(t, c);
    PaintLinks(head.root, t, path, c);
  }

  lemma PaintLinks(root: Elem?, t: Tree, path: seq<Step>, c: Color)
    requires t.Node? && t.elem.parent == ParentOf(path) && t.elem.color == c && PathLinked(path, t.elem, root)
    requires Linked(t.left, t.elem.left, t.elem) && Linked(t.right, t.elem.right, t.elem)
    requires NoDups(Before(path) + InOrder(t.(color := c)) + After(path))
    ensures At(root, t.(color := c), path)
  {
    hide InOrder, Before, After, NoDups, PathLinked;
  }

  lemma PaintOrder(t: Tree, c: Color)
    requires t.Node?
    ensures InOrder(t.(color := c)) == InOrder(t)
  {
  }

  // ---------- positions one step away ----------

  lemma PaintUp(t: Tree, s: Step, c: Color)
    ensures Up(t, s).Node? && Up(t, s).elem == s.elem && Up(t, s).(color := c) == Up(t, s.(color := c))
  {
  }

  lemma MoveDown(root: Elem?, t: Tree, s: Step, path: seq<Step>)
    requires At(root, Up(t, s), path)
    ensures At(root, t, path + [s])
  {
    hide At, Whole, Up;
    WholeStep(t, path, s);
    Move(root, Up(t, s), path, t, path + [s]);
  }

  lemma MoveUp(root: Elem?, t: Tree, s: Step, path: seq<Step>)
    requires At(root, t, path + [s])
    ensures At(root, Up(t, s), path)
  {
    hide At, Whole, Up;
    WholeStep(t, path, s);
    Move(root, t, path + [s], Up(t, s), path);
  }

  lemma UpKids(t: Tree, s: Step)
    ensures Up(t, s).Node? && Up(t, s).elem == s.elem && Kid(Up(t, s), s.below) == t && Kid(Up(t, s), Other(s.below)) == s.other
  {
  }

  lemma NodesUp(t: Tree, path: seq<Step>, s: Step)
    ensures AllNodes(Up(t, s), path) == AllNodes(t, path + [s])
  {
    UpInOrder(t, path, s);
    SameNodes(Up(t, s), path, t, path + [s]);
  }

  lemma InNodes(t: Tree, path: seq<Step>)
    requires t.Node?
    ensures t.elem in AllNodes(t, path)
  {
  }

  lemma StepNodes(t: Tree, path: seq<Step>, s: Step)
    ensures s.elem in AllNodes(t, path + [s]) && (s.other.Node? ==> s.other.elem in AllNodes(t, path + [s]))
  {
    PathGrows(path, s);
    if s.other.Node? { KidNodes(s.other, Left); }
  }

  lemma DownLinks(root: Elem?, t: Tree, path: seq<Step>)
    requires At(root, t, path) && t.Node?
    ensures At(root, t.left, path + [Step(Left, t.elem, t.color, t.right)]) && t.elem.left == Top(t.left)
    ensures At(root, t.right, path + [Step(Right, t.elem, t.color, t.left)]) && t.elem.right == Top(t.right)
  {
    hide Whole;
    MoveDown(root, t.left, Step(Left, t.elem, t.color, t.right), path);
    MoveDown(root, t.right, Step(Right, t.elem, t.color, t.left), path);
  }

  lemma LastOf(path: seq<Step>, s: Step)
    ensures (path + [s])[|path + [s]| - 1] == s && ParentOf(path + [s]) == s.elem
  {
  }

  lemma RootNodes(t: Tree)
    ensures AllNodes(t, []) == Nodes(t)
  {
  }

  lemma {:induction false} WholeNode(t: Tree, path: seq<Step>)
    requires t.Node?
    ensures Whole(t, path).Node?
    decreases |path|
  {
    if |path| > 0 { WholeNode(Up(t, path[|path| - 1]), path[..|path| - 1]); }
  }

  lemma KidUp(t: Tree, d: Side)
    requires t.Node?
    ensures Up(Kid(t, d), Step(d, t.elem, t.color, Kid(t, Other(d)))) == t
  {
  }

  /** The step that leads from a parent to the sibling. */
  function Swap(s: Step, t: Tree): Step { Step(Other(s.below), s.elem, s.color, t) }

  lemma SwapUp(t: Tree, s: Step)
    ensures Up(s.other, Swap(s, t)) == Up(t, s)
  {
  }

  lemma SwapSame(s: Step, s2: Step, t: Tree)
    requires s2 == s.(other := s2.other)
    ensures Swap(s, t) == Swap(s2, t)
  {
  }

  /** The position of the sibling. */
  lemma ToSibling(root: Elem?, t: Tree, s: Step, path: seq<Step>)
    requires At(root, t, path + [s])
    ensures At(root, s.other, path + [Swap(s, t)]) && AllNodes(s.other, path + [Swap(s, t)]) == AllNodes(t, path + [s])
  {
    hide At, Whole, Up, Swap, AllNodes;
    MoveUp(root, t, s, path);
    SwapUp(t, s);
    MoveDown(root, s.other, Swap(s, t), path);
    NodesUp(t, path, s);
    NodesUp(s.other, path, Swap(s, t));
  }
}
