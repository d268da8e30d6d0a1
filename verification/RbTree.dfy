/** Red-black trees (libmy/tree.h): the tree that the links of the elements spell out.

    A position in the tree is a subtree and the path up to the root, nearest
    ancestor last; following a parent link is dropping the last step of the path.
    RbLinks ties positions to the links, and RbInsert and RbRemove rewrite them. */
module RbTree {
  /** What the comparison macro argument looks at. */
  type Key(!new)

  datatype Color = Red | Black
  datatype Side = Left | Right

  function Other(d: Side): Side { if d == Left then Right else Left }

  /** An element with its RB_ENTRY.  The links of the two sides are addressed by side, so that
      the mirrored halves of each macro are one text. */
  class Elem {
    const key: Key
    var left: Elem?
    var right: Elem?
    var parent: Elem?
    var color: Color

    constructor (key: Key)
      ensures this.key == key
    {
      this.key := key;
      left, right, parent, color := null, null, null, Black;
    }

    function Child(d: Side): Elem?
      reads this
    {
      if d == Left then left else right
    }

    method SetChild(d: Side, child: Elem?)
      modifies this`left, this`right
      ensures Child(d) == child && Child(Other(d)) == old(Child(Other(d)))
    {
      if d == Left { left := child; } else { right := child; }
    }
  }

  datatype Tree = Leaf | Node(left: Tree, elem: Elem, right: Tree, color: Color)

  /** One ancestor, with the child that is not on the path; `below` is Left when the path goes to its left child. */
  datatype Step = Step(below: Side, elem: Elem, color: Color, other: Tree)

  predicate IsRed(t: Tree) { t.Node? && t.color == Red }

  function Up(t: Tree, s: Step): Tree {
    if s.below == Left then Node(t, s.elem, s.other, s.color) else Node(s.other, s.elem, t, s.color)
  }

  function Kid(t: Tree, d: Side): Tree
    requires t.Node?
  {
    if d == Left then t.left else t.right
  }

  /** The child on side d takes its parent's place, which keeps the inner grandchild. */
  function Turned(t: Tree, d: Side): (r: Tree)
    requires t.Node? && Kid(t, d).Node?
    ensures r.Node? && r.elem == Kid(t, d).elem
  {
    var y := Kid(t, d);
    Up(Kid(y, d), Step(d, y.elem, y.color, Up(Kid(y, Other(d)), Step(d, t.elem, t.color, Kid(t, Other(d))))))
  }

  /** The whole tree around a position. */
  function Whole(t: Tree, path: seq<Step>): Tree
    decreases |path|
  {
    if |path| == 0 then t else Whole(Up(t, path[|path| - 1]), path[..|path| - 1])
  }

  lemma WholeStep(t: Tree, path: seq<Step>, s: Step)
    ensures Whole(t, path + [s]) == Whole(Up(t, s), path)
  {
    assert (path + [s])[..|path|] == path;
  }

  lemma {:induction false} WholeJoin(t: Tree, p: seq<Step>, q: seq<Step>)
    ensures Whole(t, p + q) == Whole(Whole(t, q), p)
    decreases |q|
  {
    if |q| == 0 {
      assert p + q == p;
    } else {
      var k := |q| - 1;
      assert (p + q)[..|p + q| - 1] == p + q[..k];
      WholeJoin(Up(t, q[k]), p, q[..k]);
    }
  }

  // ---------- order ----------

  function InOrder(t: Tree): seq<Elem> {
    match t
    case Leaf => []
    case Node(l, e, r, _) => InOrder(l) + [e] + InOrder(r)
  }

  function Before(path: seq<Step>): seq<Elem> {
    if |path| == 0 then []
    else
      var s := path[|path| - 1];
      Before(path[..|path| - 1]) + if s.below == Right then InOrder(s.other) + [s.elem] else []
  }

  function After(path: seq<Step>): seq<Elem> {
    if |path| == 0 then []
    else
      var s := path[|path| - 1];
      (if s.below == Left then [s.elem] + InOrder(s.other) else []) + After(path[..|path| - 1])
  }

  lemma {:induction false} WholeInOrder(t: Tree, path: seq<Step>)
    ensures InOrder(Whole(t, path)) == Before(path) + InOrder(t) + After(path)
    decreases |path|
  {
    if |path| > 0 {
      var s := path[|path| - 1];
      WholeInOrder(Up(t, s), path[..|path| - 1]);
    }
  }

  lemma PathGrows(path: seq<Step>, s: Step)
    ensures Before(path + [s]) == Before(path) + (if s.below == Right then InOrder(s.other) + [s.elem] else [])
    ensures After(path + [s]) == (if s.below == Left then [s.elem] + InOrder(s.other) else []) + After(path)
  {
    assert (path + [s])[..|path|] == path;
  }

  // ---------- the comparison ----------

  type Cmp = (Key, Key) -> int

  /** What the macros need of the comparison: a total preorder with matching signs. */
  ghost predicate IsComparison(cmp: Cmp) {
    && (forall a, b :: cmp(a, b) < 0 <==> cmp(b, a) > 0)
    && (forall a, b, c :: cmp(a, b) <= 0 && cmp(b, c) <= 0 ==> cmp(a, c) <= 0)
  }

  lemma BelowTransitive(cmp: Cmp, a: Key, b: Key, c: Key)
    requires IsComparison(cmp) && cmp(a, b) <= 0 && cmp(b, c) <= 0 && (cmp(a, b) < 0 || cmp(b, c) < 0)
    ensures cmp(a, c) < 0
  {
    assert cmp(a, c) <= 0;
    assert cmp(c, a) <= 0 ==> cmp(c, b) <= 0 && cmp(b, a) <= 0;
  }

  predicate KeysRise(cmp: Cmp, es: seq<Elem>) { forall i, j :: 0 <= i < j < |es| ==> cmp(es[i].key, es[j].key) < 0 }

  // ---------- balance ----------

  /** No red node has a red child, and every way down passes n black nodes. */
  predicate Balanced(t: Tree, n: nat) {
    match t
    case Leaf => n == 0
    case Node(l, _, r, c) =>
      if c == Black then n > 0 && Balanced(l, n - 1) && Balanced(r, n - 1)
      else !IsRed(l) && !IsRed(r) && Balanced(l, n) && Balanced(r, n)
  }

  ghost predicate Rb(t: Tree) { !IsRed(t) && exists n: nat :: Balanced(t, n) }

  /** The rest of a red-black tree around a hole for a subtree of black height n. */
  predicate Around(path: seq<Step>, n: nat)
    decreases |path|
  {
    |path| == 0 ||
    var s, init := path[|path| - 1], path[..|path| - 1];
    && Balanced(s.other, n)
    && (s.color == Red ==> !IsRed(s.other) && |init| > 0 && init[|init| - 1].color == Black)
    && Around(init, if s.color == Black then n + 1 else n)
  }

  lemma {:induction false} FillHole(t: Tree, path: seq<Step>, n: nat)
    requires Balanced(t, n) && Around(path, n) && (IsRed(t) ==> |path| > 0 && path[|path| - 1].color == Black)
    ensures Rb(Whole(t, path))
    decreases |path|
  {
    if |path| > 0 {
      var s := path[|path| - 1];
      FillHole(Up(t, s), path[..|path| - 1], if s.color == Black then n + 1 else n);
    }
  }

  function Blackened(t: Tree): Tree { if t.Node? then t.(color := Black) else t }

  lemma BlackenedOk(t: Tree, n: nat)
    requires Balanced(t, n)
    ensures Rb(Blackened(t)) && InOrder(Blackened(t)) == InOrder(t)
  {
    if IsRed(t) { assert Balanced(Blackened(t), n + 1); } else { assert Balanced(Blackened(t), n); }
  }

  /** A black node may get a black child in place of a red one: the tree stays as it was elsewhere. */
  lemma AroundGrows(path: seq<Step>, s: Step, n: nat)
    requires Balanced(s.other, n) && Around(path, if s.color == Black then n + 1 else n)
    requires s.color == Red ==> !IsRed(s.other) && |path| > 0 && path[|path| - 1].color == Black
    ensures Around(path + [s], n)
  {
    assert (path + [s])[..|path|] == path;
  }

  lemma LastTwo(path: seq<Step>)
    requires |path| >= 2
    ensures path == path[..|path| - 2] + [path[|path| - 2]] + [path[|path| - 1]]
    ensures path[..|path| - 1] == path[..|path| - 2] + [path[|path| - 2]]
  {
  }

  /** What surrounds a position below a red parent. */
  lemma RedParent(path: seq<Step>, n: nat)
    requires Around(path, n) && |path| > 0 && path[|path| - 1].color == Red
    ensures |path| >= 2
    ensures var p, g, rest := path[|path| - 1], path[|path| - 2], path[..|path| - 2];
            && Balanced(p.other, n) && !IsRed(p.other) && g.color == Black && Balanced(g.other, n) && Around(rest, n + 1)
  {
    var init := path[..|path| - 1];
    assert init[|init| - 1] == path[|path| - 2] && init[..|init| - 1] == path[..|path| - 2];
  }

  lemma TurnedOrder(t: Tree, d: Side)
    requires t.Node? && Kid(t, d).Node?
    ensures InOrder(Turned(t, d)) == InOrder(t)
  {
    var y := Kid(t, d);
    if d == Left {
      assert InOrder(t) == (InOrder(y.left) + [y.elem] + InOrder(y.right)) + [t.elem] + InOrder(t.right);
      assert InOrder(Turned(t, d)) == InOrder(y.left) + [y.elem] + (InOrder(y.right) + [t.elem] + InOrder(t.right));
    } else {
      assert InOrder(t) == InOrder(t.left) + [t.elem] + (InOrder(y.left) + [y.elem] + InOrder(y.right));
      assert InOrder(Turned(t, d)) == (InOrder(t.left) + [t.elem] + InOrder(y.left)) + [y.elem] + InOrder(y.right);
    }
  }

  // ---------- insertion ----------

  /** The red uncle and the parent turn black, the grandparent red. */
  function Recolored(elm: Tree, p: Step, g: Step): Tree
    requires g.other.Node?
  {
    Up(Up(elm, p.(color := Black)), g.(color := Red, other := g.other.(color := Black)))
  }

  /** An inner child is rotated to the outside: the new position and its parent's step. */
  function RotatedOut(elm: Tree, p: Step, g: Step): (Tree, Step)
    requires elm.Node?
  {
    if g.below == Left && p.below == Right then (Node(p.other, p.elem, elm.left, p.color), Step(Left, elm.elem, elm.color, elm.right))
    else if g.below == Right && p.below == Left then (Node(elm.right, p.elem, p.other, p.color), Step(Right, elm.elem, elm.color, elm.left))
    else (elm, p)
  }

  /** The parent, now black, takes the grandparent's place, which becomes its red child. */
  function RotatedUp(p: Step, g: Step): Step {
    Step(g.below, p.elem, Black,
         if g.below == Left then Node(p.other, g.elem, g.other, Red) else Node(g.other, g.elem, p.other, Red))
  }

  lemma RecolorKeeps(elm: Tree, p: Step, g: Step, n: nat)
    requires Balanced(elm, n) && Balanced(p.other, n) && !IsRed(p.other) && IsRed(g.other) && Balanced(g.other, n)
    ensures Balanced(Recolored(elm, p, g), n + 1) && IsRed(Recolored(elm, p, g))
    ensures InOrder(Recolored(elm, p, g)) == InOrder(Up(Up(elm, p), g))
  {
  }

  lemma RotateOutKeeps(elm: Tree, p: Step, g: Step, n: nat)
    requires IsRed(elm) && Balanced(elm, n) && Balanced(p.other, n) && !IsRed(p.other) && p.color == Red
    ensures var (x, q) := RotatedOut(elm, p, g);
            && IsRed(x) && Balanced(x, n) && Balanced(q.other, n) && !IsRed(q.other) && q.color == Red && q.below == g.below
            && InOrder(Up(x, q)) == InOrder(Up(elm, p))
  {
    var (x, q) := RotatedOut(elm, p, g);
    if g.below == Left && p.below == Right {
      assert InOrder(Up(x, q)) == InOrder(p.other) + [p.elem] + InOrder(elm.left) + [elm.elem] + InOrder(elm.right);
      assert InOrder(Up(elm, p)) == InOrder(p.other) + [p.elem] + (InOrder(elm.left) + [elm.elem] + InOrder(elm.right));
    } else if g.below == Right && p.below == Left {
      assert InOrder(Up(x, q)) == InOrder(elm.left) + [elm.elem] + (InOrder(elm.right) + [p.elem] + InOrder(p.other));
      assert InOrder(Up(elm, p)) == InOrder(elm.left) + [elm.elem] + InOrder(elm.right) + [p.elem] + InOrder(p.other);
    }
  }

  lemma RotateUpKeeps(elm: Tree, p: Step, g: Step, n: nat)
    requires Balanced(p.other, n) && !IsRed(p.other) && Balanced(g.other, n) && !IsRed(g.other) && p.below == g.below
    ensures Balanced(RotatedUp(p, g).other, n)
    ensures InOrder(Up(elm, RotatedUp(p, g))) == InOrder(Up(Up(elm, p), g))
  {
    if g.below == Left {
      assert InOrder(Up(Up(elm, p), g)) == (InOrder(elm) + [p.elem] + InOrder(p.other)) + [g.elem] + InOrder(g.other);
      assert InOrder(Up(elm, RotatedUp(p, g))) == InOrder(elm) + [p.elem] + (InOrder(p.other) + [g.elem] + InOrder(g.other));
    } else {
      assert InOrder(Up(Up(elm, p), g)) == InOrder(g.other) + [g.elem] + (InOrder(p.other) + [p.elem] + InOrder(elm));
      assert InOrder(Up(elm, RotatedUp(p, g))) == (InOrder(g.other) + [g.elem] + InOrder(p.other)) + [p.elem] + InOrder(elm);
    }
  }

  /** The two turns of an insertion. */
  lemma OutIsTurn(elm: Tree, p: Step, g: Step)
    requires elm.Node? && p.below != g.below
    ensures var (x, q) := RotatedOut(elm, p, g); Up(x, q) == Turned(Up(elm, p), p.below)
  {
  }

  lemma UpIsTurn(elm: Tree, p: Step, g: Step)
    requires p.below == g.below
    ensures Up(elm, RotatedUp(p, g)) == Turned(Up(Up(elm, p.(color := Black)), g.(color := Red)), g.below)
  {
  }

  lemma UpInOrder(t: Tree, path: seq<Step>, s: Step)
    ensures Before(path + [s]) + InOrder(t) + After(path + [s]) == Before(path) + InOrder(Up(t, s)) + After(path)
  {
    PathGrows(path, s);
  }

  /** Both rotations together: the violation is gone and the order is as it was. */
  lemma Rotated(elm: Tree, rest: seq<Step>, p: Step, g: Step, n: nat)
    requires IsRed(elm) && Balanced(elm, n) && Balanced(p.other, n) && !IsRed(p.other) && p.color == Red
    requires Balanced(g.other, n) && !IsRed(g.other) && Around(rest, n + 1)
    ensures var (x, q) := RotatedOut(elm, p, g);
            && IsRed(x) && Balanced(x, n) && RotatedUp(q, g).color == Black && Around(rest + [RotatedUp(q, g)], n)
            && Before(rest + [RotatedUp(q, g)]) + InOrder(x) + After(rest + [RotatedUp(q, g)])
               == Before(rest) + InOrder(Up(Up(elm, p), g)) + After(rest)
  {
    hide Before, After, InOrder, Balanced, Around, RotatedOut, RotatedUp, Up;
    var (x, q) := RotatedOut(elm, p, g);
    RotateOutKeeps(elm, p, g, n);
    RotateUpKeeps(x, q, g, n);
    RotateTwice(elm, x, p, q, g);
    UpInOrder(x, rest, RotatedUp(q, g));
    StepBlack(q, g);
    AroundGrows(rest, RotatedUp(q, g), n);
  }

  lemma StepBlack(p: Step, g: Step)
    ensures RotatedUp(p, g).color == Black
  {
  }

  lemma RotateTwice(elm: Tree, x: Tree, p: Step, q: Step, g: Step)
    requires InOrder(Up(x, q)) == InOrder(Up(elm, p))
    ensures InOrder(Up(Up(x, q), g)) == InOrder(Up(Up(elm, p), g))
  {
  }

  lemma {:induction false} Finish(elm: Tree, path: seq<Step>, n: nat)
    requires IsRed(elm) && Balanced(elm, n) && Around(path, n) && (|path| > 0 ==> path[|path| - 1].color == Black)
    ensures Rb(Blackened(Whole(elm, path))) && InOrder(Blackened(Whole(elm, path))) == Before(path) + InOrder(elm) + After(path)
  {
    WholeInOrder(elm, path);
    if |path| == 0 {
      BlackenedOk(elm, n);
    } else {
      FillHole(elm, path, n);
      var m: nat :| Balanced(Whole(elm, path), m);
      BlackenedOk(Whole(elm, path), m);
    }
  }

  /** The elements with e put in its place. */
  ghost predicate InsertedAt(was: seq<Elem>, now: seq<Elem>, e: Elem, k: nat) {
    k <= |was| && now == was[..k] + [e] + was[k..]
  }

  lemma RootHeight(root: Tree) returns (n: nat)
    requires Rb(root)
    ensures Balanced(root, n) && !IsRed(root) && Around([], n) && Before([]) == [] && After([]) == []
  {
    n :| Balanced(root, n);
  }

  /** Going down to either child keeps what surrounds the position. */
  lemma Descend(t: Tree, path: seq<Step>, n: nat)
    requires t.Node? && Balanced(t, n) && Around(path, n) && (IsRed(t) ==> |path| > 0 && path[|path| - 1].color == Black)
    ensures t.color == Black ==> n > 0
    ensures var m := if t.color == Black then n - 1 else n;
            && Balanced(t.left, m) && Around(path + [Step(Left, t.elem, t.color, t.right)], m) && (IsRed(t.left) ==> t.color == Black)
            && Balanced(t.right, m) && Around(path + [Step(Right, t.elem, t.color, t.left)], m) && (IsRed(t.right) ==> t.color == Black)
  {
    hide Around;
    var m := if t.color == Black then n - 1 else n;
    AroundGrows(path, Step(Left, t.elem, t.color, t.right), m);
    AroundGrows(path, Step(Right, t.elem, t.color, t.left), m);
  }

  /** Everything on the left path is below the node, everything on the right path above it. */
  lemma SplitAround(cmp: Cmp, t: Tree, path: seq<Step>, all: seq<Elem>)
    requires IsComparison(cmp) && t.Node? && KeysRise(cmp, all) && Before(path) + InOrder(t) + After(path) == all
    ensures t.elem in all
    ensures var p2 := path + [Step(Left, t.elem, t.color, t.right)];
            && Before(p2) == Before(path) && Before(p2) + InOrder(t.left) + After(p2) == all
            && forall x <- After(p2) :: cmp(t.elem.key, x.key) <= 0
    ensures var p2 := path + [Step(Right, t.elem, t.color, t.left)];
            && After(p2) == After(path) && Before(p2) + InOrder(t.right) + After(p2) == all
            && forall x <- Before(p2) :: cmp(x.key, t.elem.key) <= 0
  {
    hide Before, After, KeysRise, IsComparison;
    PathGrows(path, Step(Left, t.elem, t.color, t.right));
    PathGrows(path, Step(Right, t.elem, t.color, t.left));
    var below, above := Before(path) + InOrder(t.left), InOrder(t.right) + After(path);
    assert all == below + [t.elem] + above;
    SplitAt(cmp, all, below, t.elem, above);
    assert Before(path) + (InOrder(t.left) + [t.elem]) == below + [t.elem];
    assert ([t.elem] + InOrder(t.right)) + After(path) == [t.elem] + above;
  }

  lemma SplitAt(cmp: Cmp, all: seq<Elem>, below: seq<Elem>, e: Elem, above: seq<Elem>)
    requires IsComparison(cmp) && KeysRise(cmp, all) && all == below + [e] + above
    ensures e in all && (forall x <- below + [e] :: cmp(x.key, e.key) <= 0) && (forall x <- [e] + above :: cmp(e.key, x.key) <= 0)
  {
    assert all[|below|] == e;
    assert cmp(e.key, e.key) == 0;
    forall x | x in below ensures cmp(x.key, e.key) < 0 { var i :| 0 <= i < |below| && below[i] == x; assert all[i] == x; }
    forall x | x in above ensures cmp(e.key, x.key) < 0 { var i :| 0 <= i < |above| && above[i] == x; assert all[|below| + 1 + i] == x; }
  }

  lemma NewLeaf(e: Elem, n: nat)
    ensures Balanced(Leaf, n) ==> Balanced(Node(Leaf, e, Leaf, Red), n) && InOrder(Leaf) == []
    ensures InOrder(Node(Leaf, e, Leaf, Red)) == [e] && InOrder(Leaf) == []
  {
  }

  lemma InsertedOrder(cmp: Cmp, was: seq<Elem>, below: seq<Elem>, above: seq<Elem>, e: Elem)
    requires IsComparison(cmp) && was == below + above && KeysRise(cmp, was)
    requires (forall x <- below :: cmp(x.key, e.key) < 0) && (forall x <- above :: cmp(e.key, x.key) < 0)
    ensures InsertedAt(was, below + [e] + above, e, |below|) && KeysRise(cmp, below + [e] + above)
    ensures forall x <- was :: cmp(e.key, x.key) != 0
  {
    assert was[..|below|] == below && was[|below|..] == above;
    var now := below + [e] + above;
    forall i, j | 0 <= i < j < |now| ensures cmp(now[i].key, now[j].key) < 0 {
      if i < |below| && j == |below| { assert now[i] in below; }
      else if i == |below| { assert now[j] in above; }
      else if i < |below| && j > |below| { assert was[i] == now[i] && was[j - 1] == now[j]; }
      else if i > |below| { assert was[i - 1] == now[i] && was[j - 1] == now[j]; }
      else { assert was[i] == now[i] && was[j] == now[j]; }
    }
  }

  // ---------- removal ----------

  /** A red sibling is rotated above the parent: the two steps that replace the parent's. */
  function Lifted(s: Step): (Step, Step)
    requires s.other.Node?
  {
    (Step(s.below, s.other.elem, Black, Kid(s.other, Other(s.below))), Step(s.below, s.elem, Red, Kid(s.other, s.below)))
  }

  /** The sibling with its red child on the far side. */
  function Straightened(t: Tree, below: Side): Tree
    requires t.Node? && (IsRed(Kid(t, Other(below))) || IsRed(Kid(t, below)))
  {
    if IsRed(Kid(t, Other(below))) then t
    else if below == Left then Node(t.left.left, t.left.elem, Node(t.left.right, t.elem, t.right, Red), Black)
    else Node(Node(t.left, t.elem, t.right.left, Red), t.right.elem, t.right.right, Black)
  }

  /** The last rotation: the sibling takes the parent's place and colour. */
  function Settled(elm: Tree, s: Step, tmp: Tree): Tree
    requires tmp.Node?
  {
    if s.below == Left then Node(Node(elm, s.elem, tmp.left, Black), tmp.elem, Blackened(tmp.right), s.color)
    else Node(Blackened(tmp.left), tmp.elem, Node(tmp.right, s.elem, elm, Black), s.color)
  }

  /** The three turns of a removal. */
  lemma LiftIsTurn(elm: Tree, s: Step)
    requires s.other.Node?
    ensures var (a, b) := Lifted(s);
            Up(Up(elm, b), a) == Turned(Up(elm, s.(color := Red, other := s.other.(color := Black))), Other(s.below))
  {
  }

  lemma StraightenIsTurn(t: Tree, below: Side)
    requires t.Node? && IsRed(Kid(t, below)) && !IsRed(Kid(t, Other(below)))
    ensures Straightened(t, below)
            == Turned(Up(Kid(t, below).(color := Black), Step(below, t.elem, Red, Kid(t, Other(below)))), below)
  {
  }

  lemma SettleIsTurn(elm: Tree, s: Step, tmp: Tree)
    requires tmp.Node?
    ensures var far := Other(s.below);
            Settled(elm, s, tmp)
            == Turned(Up(elm, s.(color := Black, other := Up(Blackened(Kid(tmp, far)), Step(far, tmp.elem, s.color, Kid(tmp, s.below))))), far)
  {
  }

  /** A subtree one black node short, unless it is red and can be blackened. */
  predicate Short(t: Tree, n: nat) { if IsRed(t) then Balanced(Blackened(t), n + 1) else Balanced(t, n) }

  lemma {:induction false} Sibling(path: seq<Step>, n: nat)
    requires Around(path, n + 1) && |path| > 0
    ensures var s, init := path[|path| - 1], path[..|path| - 1];
            && s.other.Node? && Balanced(s.other, n + 1) && Around(init, if s.color == Black then n + 2 else n + 1)
            && (s.color == Red ==> !IsRed(s.other) && |init| > 0 && init[|init| - 1].color == Black)
            && path == init + [s]
  {
  }

  lemma LiftKeeps(elm: Tree, init: seq<Step>, s: Step, n: nat)
    requires IsRed(s.other) && Balanced(s.other, n + 1) && s.color == Black && Around(init, n + 2)
    ensures var (a, b) := Lifted(s);
            && Around(init + [a] + [b], n + 1) && b.other.Node? && !IsRed(b.other) && Balanced(b.other, n + 1) && b.color == Red
            && Around(init + [a], n + 1) && a.color == Black && b.below == s.below
            && InOrder(Up(Up(elm, b), a)) == InOrder(Up(elm, s))
  {
    hide Around;
    var (a, b) := Lifted(s);
    AroundGrows(init, a, n + 1);
    AroundGrows(init + [a], b, n + 1);
    var t := s.other;
    if s.below == Left {
      assert InOrder(Up(elm, s)) == InOrder(elm) + [s.elem] + (InOrder(t.left) + [t.elem] + InOrder(t.right));
      assert InOrder(Up(Up(elm, b), a)) == (InOrder(elm) + [s.elem] + InOrder(t.left)) + [t.elem] + InOrder(t.right);
    } else {
      assert InOrder(Up(elm, s)) == (InOrder(t.left) + [t.elem] + InOrder(t.right)) + [s.elem] + InOrder(elm);
      assert InOrder(Up(Up(elm, b), a)) == InOrder(t.left) + [t.elem] + (InOrder(t.right) + [s.elem] + InOrder(elm));
    }
  }

  /** With two black nephews the sibling turns red and the parent takes over the shortage. */
  lemma PassUp(elm: Tree, s: Step, n: nat)
    requires !IsRed(elm) && Balanced(elm, n) && s.other.Node? && !IsRed(s.other) && Balanced(s.other, n + 1)
    requires !IsRed(s.other.left) && !IsRed(s.other.right)
    ensures var t := Up(elm, s.(other := s.other.(color := Red)));
            && Short(t, if s.color == Black then n + 1 else n) && InOrder(t) == InOrder(Up(elm, s)) && (IsRed(t) <==> s.color == Red)
  {
  }

  lemma StraightenKeeps(t: Tree, below: Side, n: nat)
    requires t.Node? && !IsRed(t) && Balanced(t, n + 1) && (IsRed(t.left) || IsRed(t.right))
    ensures var u := Straightened(t, below);
            && u.Node? && IsRed(Kid(u, Other(below))) && Balanced(Blackened(Kid(u, Other(below))), n + 1) && Balanced(Kid(u, below), n)
            && InOrder(u) == InOrder(t)
  {
    var u := Straightened(t, below);
    if !IsRed(Kid(t, Other(below))) {
      if below == Left {
        var o := t.left;
        assert InOrder(t) == (InOrder(o.left) + [o.elem] + InOrder(o.right)) + [t.elem] + InOrder(t.right);
        assert InOrder(u) == InOrder(o.left) + [o.elem] + (InOrder(o.right) + [t.elem] + InOrder(t.right));
      } else {
        var o := t.right;
        assert InOrder(t) == InOrder(t.left) + [t.elem] + (InOrder(o.left) + [o.elem] + InOrder(o.right));
        assert InOrder(u) == (InOrder(t.left) + [t.elem] + InOrder(o.left)) + [o.elem] + InOrder(o.right);
      }
    }
  }

  lemma SettleKeeps(elm: Tree, s: Step, tmp: Tree, n: nat)
    requires Balanced(elm, n) && tmp.Node? && IsRed(Kid(tmp, Other(s.below))) && Balanced(Blackened(Kid(tmp, Other(s.below))), n + 1) && Balanced(Kid(tmp, s.below), n)
    ensures Balanced(Settled(elm, s, tmp), if s.color == Black then n + 2 else n + 1)
    ensures InOrder(Settled(elm, s, tmp)) == InOrder(Up(elm, s.(other := tmp)))
    ensures IsRed(Settled(elm, s, tmp)) ==> s.color == Red
  {
    if s.below == Left {
      assert InOrder(Up(elm, s.(other := tmp))) == InOrder(elm) + [s.elem] + (InOrder(tmp.left) + [tmp.elem] + InOrder(tmp.right));
      assert InOrder(Settled(elm, s, tmp)) == (InOrder(elm) + [s.elem] + InOrder(tmp.left)) + [tmp.elem] + InOrder(tmp.right);
    } else {
      assert InOrder(Up(elm, s.(other := tmp))) == (InOrder(tmp.left) + [tmp.elem] + InOrder(tmp.right)) + [s.elem] + InOrder(elm);
      assert InOrder(Settled(elm, s, tmp)) == InOrder(tmp.left) + [tmp.elem] + (InOrder(tmp.right) + [s.elem] + InOrder(elm));
    }
  }

  lemma NotRed(t: Tree, n: nat)
    requires Short(t, n) && !IsRed(t)
    ensures Balanced(t, n)
  {
  }

  lemma SameAround(elm: Tree, s: Step, tmp: Tree)
    requires InOrder(tmp) == InOrder(s.other)
    ensures InOrder(Up(elm, s.(other := tmp))) == InOrder(Up(elm, s))
  {
  }

  lemma {:induction false} AllSettled(t: Tree, path: seq<Step>, n: nat)
    requires Balanced(t, n) && Around(path, n) && (IsRed(t) ==> |path| > 0 && path[|path| - 1].color == Black)
    ensures Rb(Blackened(Whole(t, path))) && InOrder(Blackened(Whole(t, path))) == Before(path) + InOrder(t) + After(path)
  {
    FillHole(t, path, n);
    WholeInOrder(t, path);
    var m: nat :| Balanced(Whole(t, path), m);
    BlackenedOk(Whole(t, path), m);
  }

  lemma {:induction false} ShortageOver(t: Tree, path: seq<Step>, n: nat)
    requires Short(t, n) && Around(path, n + 1) && (IsRed(t) || |path| == 0)
    ensures Rb(Whole(Blackened(t), path)) && InOrder(Whole(Blackened(t), path)) == Before(path) + InOrder(t) + After(path)
  {
    WholeInOrder(Blackened(t), path);
    if IsRed(t) {
      FillHole(Blackened(t), path, n + 1);
    } else {
      BlackenedOk(t, n);
    }
  }

  // ---------- taking a node out ----------

  /** A position in a red-black tree, as its surroundings see it. */
  lemma {:induction false} AroundPosition(t: Tree, path: seq<Step>, m: nat) returns (n: nat)
    requires Balanced(Whole(t, path), m) && !IsRed(Whole(t, path))
    ensures Balanced(t, n) && Around(path, n) && (IsRed(t) ==> |path| > 0 && path[|path| - 1].color == Black)
    decreases |path|
  {
    if |path| == 0 {
      n := m;
    } else {
      var s := path[|path| - 1];
      var u := AroundPosition(Up(t, s), path[..|path| - 1], m);
      n := if s.color == Black then u - 1 else u;
    }
  }

  lemma {:induction false} PathJoin(p: seq<Step>, q: seq<Step>)
    ensures Before(p + q) == Before(p) + Before(q) && After(p + q) == After(q) + After(p)
    decreases |q|
  {
    if |q| == 0 {
      assert p + q == p;
    } else {
      hide Before, After, InOrder;
      var k := |q| - 1;
      PathJoin(p, q[..k]);
      assert q == q[..k] + [q[k]] && p + q == (p + q[..k]) + [q[k]];
      PathGrows(q[..k], q[k]);
      PathGrows(p + q[..k], q[k]);
      var s := q[k];
      ThreeParts(Before(p), Before(q[..k]), if s.below == Right then InOrder(s.other) + [s.elem] else []);
      ThreeParts(if s.below == Left then [s.elem] + InOrder(s.other) else [], After(q[..k]), After(p));
    }
  }

  lemma ThreeParts(a: seq<Elem>, b: seq<Elem>, c: seq<Elem>)
    ensures (a + b) + c == a + (b + c)
  {
  }

  lemma AroundLast(path: seq<Step>, s: Step, n: nat)
    requires Around(path + [s], n)
    ensures Balanced(s.other, n) && Around(path, if s.color == Black then n + 1 else n)
    ensures s.color == Red ==> !IsRed(s.other) && |path| > 0 && path[|path| - 1].color == Black
  {
    assert (path + [s])[..|path|] == path;
  }

  /** The surroundings do not depend on which element an ancestor holds. */
  lemma {:induction false} AroundAnyElem(p: seq<Step>, s: Step, e: Elem, q: seq<Step>, n: nat)
    requires Around(p + [s] + q, n)
    ensures Around(p + [s.(elem := e)] + q, n)
    decreases |q|
  {
    hide Around, Balanced;
    var s2 := s.(elem := e);
    if |q| == 0 {
      assert p + [s] + q == p + [s] && p + [s2] + q == p + [s2];
      AroundLast(p, s, n);
      AroundGrows(p, s2, n);
    } else {
      var k := |q| - 1;
      var m := if q[k].color == Black then n + 1 else n;
      assert p + [s] + q == (p + [s] + q[..k]) + [q[k]] && p + [s2] + q == (p + [s2] + q[..k]) + [q[k]];
      AroundLast(p + [s] + q[..k], q[k], n);
      AroundAnyElem(p, s, e, q[..k], m);
      AroundGrows(p + [s2] + q[..k], q[k], n);
    }
  }

  /** All steps go left. */
  predicate Leftward(q: seq<Step>) { forall i :: 0 <= i < |q| ==> q[i].below == Left }

  lemma {:induction false} NothingLeftOf(q: seq<Step>)
    requires Leftward(q)
    ensures Before(q) == []
  {
    if |q| > 0 { NothingLeftOf(q[..|q| - 1]); }
  }

  /** With the successor in the removed node's place, the order is that of the rest. */
  lemma {:induction false} SuccessorOrder(t: Tree, path: seq<Step>, down: seq<Step>, elm: Tree)
    requires t.Node? && elm.Node? && elm.left == Leaf && Leftward(down)
    requires InOrder(t.right) == Before(down) + InOrder(elm) + After(down)
    ensures var way := path + [Step(Right, elm.elem, t.color, t.left)] + down;
            Before(way) + InOrder(elm.right) + After(way) == Before(path) + InOrder(t.left) + InOrder(t.right) + After(path)
  {
    var s := Step(Right, elm.elem, t.color, t.left);
    NothingLeftOf(down);
    PathGrows(path, s);
    PathJoin(path + [s], down);
    LeftmostOrder(elm);
    hide Before, After, InOrder;
    Reassociate(Before(path), InOrder(t.left), [elm.elem], InOrder(elm.right), After(down), After(path));
  }

  lemma LeftmostOrder(elm: Tree)
    requires elm.Node? && elm.left == Leaf
    ensures InOrder(elm) == [elm.elem] + InOrder(elm.right)
  {
  }

  lemma Reassociate(b: seq<Elem>, l: seq<Elem>, e: seq<Elem>, r: seq<Elem>, d: seq<Elem>, a: seq<Elem>)
    ensures (b + (l + e) + []) + r + (d + ([] + a)) == b + l + ([] + (e + r) + d) + a
  {
  }

  lemma PositionHeight(t: Tree, path: seq<Step>) returns (n: nat)
    requires Rb(Whole(t, path))
    ensures Balanced(t, n) && Around(path, n) && (IsRed(t) ==> |path| > 0 && path[|path| - 1].color == Black)
  {
    var m: nat :| Balanced(Whole(t, path), m);
    n := AroundPosition(t, path, m);
  }

  lemma NowhereYet(t: Tree)
    ensures InOrder(t) == Before([]) + InOrder(t) + After([])
  {
  }

  /** A node with an empty side: what is left when it goes. */
  lemma OneChild(t: Tree, n: nat)
    requires t.Node? && Balanced(t, n) && (t.left == Leaf || t.right == Leaf)
    ensures var child := if t.left == Leaf then t.right else t.left;
            && (t.color == Black ==> n > 0 && Short(child, n - 1))
            && (t.color == Red ==> Balanced(child, n) && !IsRed(child))
            && InOrder(t.left) + InOrder(t.right) == InOrder(child)
  {
  }

  // ---------- looking up and walking ----------

  lemma EmptyOrder()
    ensures InOrder(Leaf) == []
  {
  }

  lemma SplitNode(cmp: Cmp, all: seq<Elem>, below: seq<Elem>, t: Tree, above: seq<Elem>)
    requires t.Node? && KeysRise(cmp, all) && all == below + InOrder(t) + above
    ensures all == (below + InOrder(t.left) + [t.elem]) + InOrder(t.right) + above
    ensures all == below + InOrder(t.left) + ([t.elem] + (InOrder(t.right) + above))
    ensures forall x <- below + InOrder(t.left) :: cmp(x.key, t.elem.key) < 0
  {
    assert all == (below + InOrder(t.left)) + [t.elem] + (InOrder(t.right) + above);
    var l := below + InOrder(t.left);
    forall x | x in l ensures cmp(x.key, t.elem.key) < 0 {
      var i :| 0 <= i < |l| && l[i] == x;
      assert all[i] == x && all[|l|] == t.elem;
    }
  }

  lemma FoundAt(cmp: Cmp, all: seq<Elem>, below: seq<Elem>, above: seq<Elem>, key: Key)
    requires all == below + above && |above| > 0 && cmp(key, above[0].key) <= 0 && forall x <- below :: cmp(key, x.key) > 0
    ensures exists k :: IsFirstFrom(cmp, all, key, k) && all[k] == above[0]
  {
    var k := |below|;
    forall i | 0 <= i < k ensures cmp(key, all[i].key) > 0 { assert all[i] == below[i]; }
    assert all[k] == above[0];
  }

  /** The k-th element is the first one whose key is not below the given one. */
  predicate IsFirstFrom(cmp: Cmp, es: seq<Elem>, key: Key, k: int) {
    0 <= k < |es| && cmp(key, es[k].key) <= 0 && forall i :: 0 <= i < k ==> cmp(key, es[i].key) > 0
  }

  /** How many elements come before the node at a position. */
  function Rank(t: Tree, path: seq<Step>): nat
    requires t.Node?
  {
    |Before(path)| + |InOrder(t.left)|
  }

  lemma {:induction false} RankIsIndex(t: Tree, path: seq<Step>)
    requires t.Node?
    ensures Rank(t, path) < |InOrder(Whole(t, path))| && InOrder(Whole(t, path))[Rank(t, path)] == t.elem
  {
    WholeInOrder(t, path);
    assert InOrder(Whole(t, path)) == (Before(path) + InOrder(t.left)) + [t.elem] + (InOrder(t.right) + After(path));
  }

  lemma WholeLength(t: Tree, path: seq<Step>)
    requires t.Node?
    ensures t.right == Leaf ==> |Before(path)| + |InOrder(t)| == Rank(t, path) + 1
  {
  }

  lemma {:induction false} RankWithin(t: Tree, path: seq<Step>)
    requires t.Node?
    ensures Rank(t, path) < |InOrder(Whole(t, path))| && (t.left == Leaf ==> Rank(t, path) == |Before(path)|)
  {
    RankIsIndex(t, path);
  }

  lemma DownRight(t: Tree, path: seq<Step>)
    requires t.Node?
    ensures var s := Step(Right, t.elem, t.color, t.left);
            Whole(t.right, path + [s]) == Whole(t, path) && |Before(path + [s])| == Rank(t, path) + 1
  {
    var s := Step(Right, t.elem, t.color, t.left);
    PathGrows(path, s);
    assert (path + [s])[..|path|] == path;
  }

  lemma DownLeft(t: Tree, path: seq<Step>)
    requires t.Node?
    ensures var s := Step(Left, t.elem, t.color, t.right);
            Whole(t.left, path + [s]) == Whole(t, path) && |Before(path + [s])| == |Before(path)|
  {
    var s := Step(Left, t.elem, t.color, t.right);
    PathGrows(path, s);
    assert (path + [s])[..|path|] == path;
  }

  lemma UpFrom(t: Tree, path: seq<Step>)
    requires |path| > 0
    ensures var s, init := path[|path| - 1], path[..|path| - 1];
            && Up(t, s).Node? && Whole(Up(t, s), init) == Whole(t, path)
            && (s.below == Right ==> |Before(init)| + |InOrder(Up(t, s))| == |Before(path)| + |InOrder(t)|)
            && (s.below == Left ==> Rank(Up(t, s), init) == |Before(path)| + |InOrder(t)|)
  {
  }

  lemma {:induction false} AtTop(t: Tree, path: seq<Step>)
    requires path == []
    ensures Whole(t, path) == t && |Before(path)| == 0
  {
  }

  // ---------- finding a position ----------

  lemma {:induction false} FindPosition(t: Tree, path: seq<Step>, e: Elem) returns (u: Tree, way: seq<Step>)
    requires e in InOrder(t)
    ensures u.Node? && u.elem == e && Whole(u, way) == Whole(t, path)
    decreases t
  {
    if t.elem == e {
      u, way := t, path;
    } else if e in InOrder(t.left) {
      var s := Step(Left, t.elem, t.color, t.right);
      WholeStep(t.left, path, s);
      u, way := FindPosition(t.left, path + [s], e);
    } else {
      var s := Step(Right, t.elem, t.color, t.left);
      WholeStep(t.right, path, s);
      u, way := FindPosition(t.right, path + [s], e);
    }
  }
}
