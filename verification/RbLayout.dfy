/** How the node fields lay out a tree, and what rotations, painting, linking and
    unlinking do to that layout (lib/rbtree.c). Memory is a map from nodes to cells. */
module RbLayout {
  import opened RbShape

  ghost function RotatedLeft(t: Tree): Tree
    requires t.Br? && t.right.Br?
  {
    Br(t.right.color, Br(t.color, t.left, t.node, t.right.left), t.right.node, t.right.right)
  }

  ghost function RotatedRight(t: Tree): Tree
    requires t.Br? && t.left.Br?
  {
    Br(t.left.color, t.left.left, t.left.node, Br(t.color, t.left.right, t.node, t.right))
  }

  /** A rotation keeps the nodes and the order, in either direction. */
  lemma {:induction false} RotationSame(cx: Color, a: Tree, x: Node, b: Tree, cy: Color, y: Node, d: Tree)
    ensures var (t, t') := (Br(cx, a, x, Br(cy, b, y, d)), Br(cy, Br(cx, a, x, b), y, d));
      InOrder(t') == InOrder(t) && Nodes(t') == Nodes(t) && (Distinct(t) <==> Distinct(t'))
  {
    var (yt, xt) := (Br(cy, b, y, d), Br(cx, a, x, b));
    assert InOrder(yt) == InOrder(b) + [y] + InOrder(d);
    assert InOrder(xt) == InOrder(a) + [x] + InOrder(b);
    Regroup(InOrder(a), [x], InOrder(b), [y], InOrder(d));
    assert Nodes(yt) == Nodes(b) + {y} + Nodes(d);
    assert Nodes(xt) == Nodes(a) + {x} + Nodes(b);
  }

  /** From `m` to `m'` only the cells in `touched` change. */
  ghost predicate SameOutside(m: Mem, m': Mem, touched: set<Node>)
  {
    m'.Keys == m.Keys && forall n :: n in m && n !in touched ==> m'[n] == m[n]
  }

  lemma {:induction false} LaidOutside(m: Mem, m': Mem, t: Tree, p: Node?, touched: set<Node>)
    requires Distinct(t) && Laid(m, t, p) && SameOutside(m, m', touched) && Nodes(t) !! touched
    ensures Laid(m', t, p)
  {
    LaidKeep(m, m', t, p);
  }

  /** A subtree outside the touched cells, except that its root gets a new parent. */
  lemma {:induction false} LaidReparented(m: Mem, m': Mem, t: Tree, p: Node?, p': Node, touched: set<Node>)
    requires Distinct(t) && Laid(m, t, p) && SameOutside(m, m', touched)
    requires Nodes(t) * touched <= (if t.Br? then {t.node} else {})
    requires t.Br? ==> t.node in m && m'[t.node] == m[t.node].(parent := p')
    ensures Laid(m', t, p')
  {
    NodesLaid(m, t, p);
    forall n | n in Nodes(t) && n != RootOf(t) ensures n in m && m'[n] == m[n] {
      assert n !in Nodes(t) * touched;
    }
    LaidMove(m, m', t, p, p');
  }

  /** A context outside the touched cells, except that its hole gets a new root. */
  ghost predicate Refocused(m: Mem, m': Mem, c: Ctx, f: Node?)
  {
    && (c.InLeft? ==> c.node in m && c.node in m' && m'[c.node] == m[c.node].(left := f))
    && (c.InRight? ==> c.node in m && c.node in m' && m'[c.node] == m[c.node].(right := f))
  }

  lemma {:induction false} CtxLaidRefocused(m: Mem, m': Mem, c: Ctx, f: Node?, f': Node?, touched: set<Node>)
    requires CtxDistinct(c) && CtxLaid(m, c, f) && SameOutside(m, m', touched) && Refocused(m, m', c, f')
    requires CtxNodes(c) * touched <= (if c.Top? then {} else {c.node})
    ensures CtxLaid(m', c, f')
  {
    CtxNodesLaid(m, c, f);
    forall n | n in CtxNodes(c) && n != HoleParent(c) ensures n in m && m'[n] == m[n] {
      assert n !in CtxNodes(c) * touched;
    }
    CtxLaidMove(m, m', c, f, f');
  }

  /** The cells a rotation of `x` and `y`, with `b` between them, may touch. */
  ghost function Touched(c: Ctx, x: Node, b: Tree, y: Node): set<Node>
  {
    {x, y} + (if b.Br? then {b.node} else {}) + (if c.Top? then {} else {c.node})
  }

  ghost function Low(cx: Color, a: Tree, x: Node, b: Tree, cy: Color, y: Node, d: Tree): Tree
  {
    Br(cx, a, x, Br(cy, b, y, d))
  }

  ghost function High(cx: Color, a: Tree, x: Node, b: Tree, cy: Color, y: Node, d: Tree): Tree
  {
    Br(cy, Br(cx, a, x, b), y, d)
  }

  lemma {:induction false} RotationSamePlugged(c: Ctx, t: Tree, t': Tree)
    requires InOrder(t') == InOrder(t) && Nodes(t') == Nodes(t) && (Distinct(t) <==> Distinct(t'))
    ensures InOrder(Plug(c, t')) == InOrder(Plug(c, t)) && Nodes(Plug(c, t')) == Nodes(Plug(c, t))
    ensures Distinct(Plug(c, t)) <==> Distinct(Plug(c, t'))
  {
    NodesPlug(c, t);
    NodesPlug(c, t');
    InOrderPlug(c, t);
    InOrderPlug(c, t');
  }

  lemma {:induction false} LowToHigh(m: Mem, m': Mem, c: Ctx, cx: Color, a: Tree, x: Node, b: Tree, cy: Color, y: Node, d: Tree)
    requires var t := Low(cx, a, x, b, cy, y, d);
      CtxDistinct(c) && Distinct(t) && CtxNodes(c) !! Nodes(t) && CtxLaid(m, c, x) && Laid(m, t, HoleParent(c))
    requires SameOutside(m, m', Touched(c, x, b, y)) && Refocused(m, m', c, y)
    requires x in m' && m'[x] == Cell(y, cx, RootOf(b), RootOf(a))
    requires y in m' && m'[y] == Cell(HoleParent(c), cy, RootOf(d), x)
    requires b.Br? ==> b.node in m && m'[b.node] == m[b.node].(parent := x)
    ensures CtxLaid(m', c, y) && Laid(m', High(cx, a, x, b, cy, y, d), HoleParent(c))
  {
    var yt := Br(cy, b, y, d);
    assert Nodes(yt) == Nodes(b) + {y} + Nodes(d);
    assert Laid(m, yt, x);
    var touched := Touched(c, x, b, y);
    LaidOutside(m, m', a, x, touched);
    LaidReparented(m, m', b, y, x, touched);
    LaidOutside(m, m', d, y, touched);
    CtxLaidRefocused(m, m', c, x, y, touched);
    assert Laid(m', Br(cx, a, x, b), y);
  }

  lemma {:induction false} HighToLow(m: Mem, m': Mem, c: Ctx, cx: Color, a: Tree, x: Node, b: Tree, cy: Color, y: Node, d: Tree)
    requires var t := High(cx, a, x, b, cy, y, d);
      CtxDistinct(c) && Distinct(t) && CtxNodes(c) !! Nodes(t) && CtxLaid(m, c, y) && Laid(m, t, HoleParent(c))
    requires SameOutside(m, m', Touched(c, x, b, y)) && Refocused(m, m', c, x)
    requires y in m' && m'[y] == Cell(x, cy, RootOf(d), RootOf(b))
    requires x in m' && m'[x] == Cell(HoleParent(c), cx, y, RootOf(a))
    requires b.Br? ==> b.node in m && m'[b.node] == m[b.node].(parent := y)
    ensures CtxLaid(m', c, x) && Laid(m', Low(cx, a, x, b, cy, y, d), HoleParent(c))
  {
    var xt := Br(cx, a, x, b);
    assert Nodes(xt) == Nodes(a) + {x} + Nodes(b);
    assert Laid(m, xt, y);
    var touched := Touched(c, x, b, y);
    LaidOutside(m, m', a, x, touched);
    LaidReparented(m, m', b, x, y, touched);
    LaidOutside(m, m', d, y, touched);
    CtxLaidRefocused(m, m', c, y, x, touched);
    assert Laid(m', Br(cy, b, y, d), x);
  }

  /** Memory after the assignments of rb_rotate_left at `x`. */
  ghost predicate LeftCells(m: Mem, m': Mem, x: Node)
    requires x in m && m[x].right != null && m[x].right in m
  {
    var (y, p) := (m[x].right, m[x].parent);
    var b := m[y].left;
    && m'.Keys == m.Keys
    && m'[x] == Cell(y, m[x].color, b, m[x].left)
    && m'[y] == Cell(p, m[y].color, m[y].right, x)
    && (b != null && b in m ==> m'[b] == m[b].(parent := x))
    && (p != null && p in m ==> m'[p] == if m[p].left == x then m[p].(left := y) else m[p].(right := y))
    && forall n :: n in m && n != x && n != y && n != b && n != p ==> m'[n] == m[n]
  }

  /** Memory after the assignments of rb_rotate_right at `y`. */
  ghost predicate RightCells(m: Mem, m': Mem, y: Node)
    requires y in m && m[y].left != null && m[y].left in m
  {
    var (x, p) := (m[y].left, m[y].parent);
    var b := m[x].right;
    && m'.Keys == m.Keys
    && m'[y] == Cell(x, m[y].color, m[y].right, b)
    && m'[x] == Cell(p, m[x].color, y, m[x].left)
    && (b != null && b in m ==> m'[b] == m[b].(parent := y))
    && (p != null && p in m ==> m'[p] == if m[p].right == y then m[p].(right := x) else m[p].(left := x))
    && forall n :: n in m && n != x && n != y && n != b && n != p ==> m'[n] == m[n]
  }

  /** The pointers that a rotation follows are in `s` and distinct where it matters. */
  ghost predicate CanRotate(s: set<Node>, x: Node, y: Node, b: Node?, p: Node?)
  {
    && x in s && y in s && x != y
    && (b != null ==> b in s && b != x && b != y)
    && (p != null ==> p in s && p != x && p != y && p != b)
  }

  lemma {:induction false} RotatedLeftLaid(m: Mem, m': Mem, c: Ctx, t: Tree)
    requires t.Br? && t.right.Br? && Distinct(Plug(c, t)) && Laid(m, Plug(c, t), null) && m.Keys == Nodes(Plug(c, t))
    requires t.node in m && m[t.node].right == t.right.node && t.right.node in m && LeftCells(m, m', t.node)
    ensures Laid(m', Plug(c, RotatedLeft(t)), null)
  {
    NodesPlug(c, t);
    LaidPlug(m, c, t);
    var (x, b, y) := (t.node, t.right.left, t.right.node);
    assert Laid(m, t.right, x);
    LowToHigh(m, m', c, t.color, t.left, x, b, t.right.color, y, t.right.right);
    LaidPlug(m', c, RotatedLeft(t));
  }

  lemma {:induction false} RotatedRightLaid(m: Mem, m': Mem, c: Ctx, t: Tree)
    requires t.Br? && t.left.Br? && Distinct(Plug(c, t)) && Laid(m, Plug(c, t), null) && m.Keys == Nodes(Plug(c, t))
    requires t.node in m && m[t.node].left == t.left.node && t.left.node in m && RightCells(m, m', t.node)
    ensures Laid(m', Plug(c, RotatedRight(t)), null)
  {
    NodesPlug(c, t);
    LaidPlug(m, c, t);
    var (y, b, x) := (t.node, t.left.right, t.left.node);
    assert Laid(m, t.left, y);
    HighToLow(m, m', c, t.left.color, t.left.left, x, b, t.color, y, t.right);
    LaidPlug(m', c, RotatedRight(t));
  }

  /** A rotation anywhere in a tree keeps its nodes and its order. */
  lemma {:induction false} RotatedSame(c: Ctx, t: Tree)
    requires t.Br?
    ensures t.right.Br? ==> SameNodesAndOrder(Plug(c, t), Plug(c, RotatedLeft(t)))
    ensures t.left.Br? ==> SameNodesAndOrder(Plug(c, t), Plug(c, RotatedRight(t)))
  {
    if t.right.Br? {
      RotationSame(t.color, t.left, t.node, t.right.left, t.right.color, t.right.node, t.right.right);
      RotationSamePlugged(c, t, RotatedLeft(t));
    }
    if t.left.Br? {
      RotationSame(t.left.color, t.left.left, t.left.node, t.left.right, t.color, t.node, t.right);
      RotationSamePlugged(c, t, RotatedRight(t));
    }
  }

  ghost predicate SameNodesAndOrder(t: Tree, t': Tree)
  {
    InOrder(t') == InOrder(t) && Nodes(t') == Nodes(t) && (Distinct(t) <==> Distinct(t'))
  }

  /** Painting the subtree root changes one cell. */
  lemma {:induction false} PaintedLaid(m: Mem, c: Ctx, t: Tree, col: Color)
    requires t.Br? && Distinct(Plug(c, t)) && Laid(m, Plug(c, t), null)
    ensures t.node in m && Laid(m[t.node := m[t.node].(color := col)], Plug(c, t.(color := col)), null)
    ensures Nodes(Plug(c, t.(color := col))) == Nodes(Plug(c, t)) && Distinct(Plug(c, t.(color := col)))
    ensures InOrder(Plug(c, t.(color := col))) == InOrder(Plug(c, t))
  {
    NodesPlug(c, t);
    NodesPlug(c, t.(color := col));
    InOrderPlug(c, t);
    InOrderPlug(c, t.(color := col));
    LaidPlug(m, c, t);
    var m' := m[t.node := m[t.node].(color := col)];
    LaidKeep(m, m', t.left, t.node);
    LaidKeep(m, m', t.right, t.node);
    CtxLaidKeep(m, m', c, t.node);
    LaidPlug(m', c, t.(color := col));
  }

  lemma {:induction false} LaidKeep(m: Mem, m': Mem, t: Tree, p: Node?)
    requires Distinct(t) && Laid(m, t, p)
    requires forall n :: n in Nodes(t) && n in m ==> n in m' && m'[n] == m[n]
    ensures Laid(m', t, p)
  {
    NodesLaid(m, t, p);
    LaidMove(m, m', t, p, p);
  }

  lemma {:induction false} CtxLaidKeep(m: Mem, m': Mem, c: Ctx, f: Node?)
    requires CtxDistinct(c) && CtxLaid(m, c, f)
    requires forall n :: n in CtxNodes(c) && n in m ==> n in m' && m'[n] == m[n]
    ensures CtxLaid(m', c, f)
  {
    CtxNodesLaid(m, c, f);
    CtxLaidMove(m, m', c, f, f);
  }

  lemma {:induction false} NodesLaid(m: Mem, t: Tree, p: Node?)
    requires Laid(m, t, p)
    ensures Nodes(t) <= m.Keys
  {
    if t.Br? {
      NodesLaid(m, t.left, t.node);
      NodesLaid(m, t.right, t.node);
    }
  }

  lemma {:induction false} CtxNodesLaid(m: Mem, c: Ctx, f: Node?)
    requires CtxLaid(m, c, f)
    ensures CtxNodes(c) <= m.Keys
  {
    if !c.Top? {
      NodesLaid(m, if c.InLeft? then c.right else c.left, c.node);
      CtxNodesLaid(m, c.up, c.node);
    }
  }

  lemma {:induction false} RootOfPlug(c: Ctx, t: Tree)
    ensures c.Top? ==> RootOf(Plug(c, t)) == RootOf(t)
    ensures !c.Top? ==> Plug(c, t).Br? && Plug(c, t).node in CtxNodes(c)
    ensures !c.Top? ==> forall t' :: RootOf(Plug(c, t')) == RootOf(Plug(c, t))
    decreases c
  {
    match c
    case Top =>
    case InLeft(col, n, r, up) =>
      RootOfPlug(up, Br(col, t, n, r));
      forall t' ensures RootOf(Plug(c, t')) == RootOf(Plug(c, t)) {
        assert Plug(c, t') == Plug(up, Br(col, t', n, r));
      }
    case InRight(col, l, n, up) =>
      RootOfPlug(up, Br(col, l, n, t));
      forall t' ensures RootOf(Plug(c, t')) == RootOf(Plug(c, t)) {
        assert Plug(c, t') == Plug(up, Br(col, l, n, t'));
      }
  }

  lemma {:induction false} LinkedLaid(m: Mem, m': Mem, c: Ctx, node: Node)
    requires Distinct(Plug(c, Leaf)) && Laid(m, Plug(c, Leaf), null) && m.Keys == Nodes(Plug(c, Leaf)) && node !in m
    requires m'.Keys == m.Keys + {node} && m'[node] == Cell(HoleParent(c), Red, null, null)
    requires Refocused(m, m', c, node) && forall n :: n in m && n != HoleParent(c) ==> m'[n] == m[n]
    ensures var t := Plug(c, Br(Red, Leaf, node, Leaf));
      && Distinct(t) && Laid(m', t, null) && m'.Keys == Nodes(t)
      && RootOf(t) == if c.Top? then node else RootOf(Plug(c, Leaf))
  {
    var t := Br(Red, Leaf, node, Leaf);
    NodesPlug(c, Leaf);
    NodesPlug(c, t);
    LaidPlug(m, c, Leaf);
    CtxNodesLaid(m, c, null);
    CtxLaidMove(m, m', c, null, node);
    LaidPlug(m', c, t);
    RootOfPlug(c, t);
  }

  // ----- erasure: layout arguments -----

  ghost function Redirected(x: Cell, from: Node, to: Node?): Cell
  {
    if x.left == from then x.(left := to) else x.(right := to)
  }

  /** Memory once `child` stands in for `n` below the parent of `n`. */
  ghost function Spliced(m: Mem, n: Node, child: Node?): Mem
    requires n in m && (child != null ==> child in m) && (m[n].parent != null ==> m[n].parent in m)
  {
    var p := m[n].parent;
    var m0 := if child == null then m else m[child := m[child].(parent := p)];
    if p == null then m0 else m0[p := Redirected(m0[p], n, child)]
  }

  /** Memory once `x` stands in for `n`, with the neighbours of `n`. */
  ghost predicate Replaced(m: Mem, m': Mem, n: Node, x: Node)
    requires n in m && x in m
  {
    var (l, r, p) := (m[n].left, m[n].right, m[n].parent);
    && m'.Keys == m.Keys && m'[x] == m[n]
    && (l != null && l in m ==> m'[l] == m[l].(parent := x))
    && (r != null && r in m ==> m'[r] == m[r].(parent := x))
    && (p != null && p in m ==> m'[p] == Redirected(m[p], n, x))
    && forall q :: q in m && q != n && q != x && q != l && q != r && q != p ==> m'[q] == m[q]
  }

  /** `n` has two children and `x`, with no left child, is the leftmost node on its right. */
  ghost predicate CanSucceed(m: Mem, n: Node, x: Node)
    requires n in m && x in m && m[x].parent != null && m[x].parent in m
  {
    var (l, r, p) := (m[n].left, m[n].right, m[n].parent);
    var (ch, q) := (m[x].right, m[x].parent);
    && n != x && l != null && l in m && r != null && r in m && l != r && l != n && r != n && l != x
    && m[x].left == null && (if x == r then q == n else q != n && q != l && q != x && m[q].left == x)
    && (ch != null ==> ch in m && ch != n && ch != x && ch != l && ch != r && ch != q)
    && (p != null ==> p in m && p != n && p != x && p != l && p != r && p != ch && p != q)
  }

  /** Memory once the successor `x` of `n` has left its place. */
  ghost predicate Detached(m: Mem, m': Mem, n: Node, x: Node)
    requires n in m && x in m && m[x].parent != null && m[x].parent in m && CanSucceed(m, n, x)
  {
    var (r, ch, q) := (m[n].right, m[x].right, m[x].parent);
    && m'.Keys == m.Keys
    && m'[x] == m[x].(right := if x == r then ch else r)
    && (x != r ==> m'[r] == if q == r then m[r].(left := ch, parent := x) else m[r].(parent := x))
    && (x != r && q != r ==> m'[q] == m[q].(left := ch))
    && (ch != null ==> m'[ch] == m[ch].(parent := if x == r then x else q))
    && forall y :: y in m && y != x && (x != r ==> y != r && y != q) && y != ch ==> m'[y] == m[y]
  }

  /** Memory once `x` has taken over the outer links and the colour of `n`. */
  ghost predicate Taken(m: Mem, m': Mem, n: Node, x: Node)
    requires n in m && x in m && m[n].left != null && m[n].left in m
  {
    var (l, p) := (m[n].left, m[n].parent);
    && m'.Keys == m.Keys
    && m'[x] == Cell(p, m[n].color, m[x].right, l)
    && m'[l] == m[l].(parent := x)
    && (p != null && p in m ==> m'[p] == Redirected(m[p], n, x))
    && forall y :: y in m && y != n && y != x && y != l && y != p ==> m'[y] == m[y]
  }

  /** Splicing `x` out and then putting it in place of `n`. */
  ghost predicate Moved(m: Mem, m': Mem, n: Node, x: Node)
  {
    && n in m && x in m && (m[x].right != null ==> m[x].right in m) && (m[x].parent != null ==> m[x].parent in m)
    && Replaced(Spliced(m, x, m[x].right), m', n, x)
  }

  lemma {:induction false} SucceededIsReplaced(m: Mem, m1: Mem, m': Mem, n: Node, x: Node)
    requires n in m && x in m && m[x].parent != null && m[x].parent in m && CanSucceed(m, n, x)
    requires Detached(m, m1, n, x) && m1[n].left == m[n].left && m[n].left in m1 && Taken(m1, m', n, x)
    ensures Moved(m, m', n, x)
  {
  }

  /** `t` has at most one child, and `child` is it. */
  ghost predicate OnlyChild(t: Tree, child: Tree)
  {
    t.Br? && ((t.left.Leaf? && child == t.right) || (t.right.Leaf? && child == t.left))
  }

  lemma {:induction false} SplicedSame(c: Ctx, t: Tree, child: Tree)
    requires OnlyChild(t, child) && Distinct(Plug(c, t))
    ensures Distinct(Plug(c, child)) && Nodes(Plug(c, child)) == Nodes(Plug(c, t)) - {t.node}
  {
    NodesPlug(c, t);
    NodesPlug(c, child);
  }

  lemma {:induction false} SplicedLaid(m: Mem, c: Ctx, t: Tree, child: Tree)
    requires OnlyChild(t, child) && Distinct(Plug(c, t)) && Laid(m, Plug(c, t), null)
    requires t.node in m && (child.Br? ==> child.node in m)
    requires m[t.node].parent == HoleParent(c) && (!c.Top? ==> c.node in m)
    ensures Laid(Spliced(m, t.node, RootOf(child)), Plug(c, child), null)
  {
    NodesPlug(c, t);
    LaidPlug(m, c, t);
    var m' := Spliced(m, t.node, RootOf(child));
    assert Laid(m, child, t.node);
    NodesLaid(m, child, t.node);
    LaidMove(m, m', child, t.node, HoleParent(c));
    CtxNodesLaid(m, c, t.node);
    CtxLaidMove(m, m', c, t.node, RootOf(child));
    LaidPlug(m', c, child);
  }

  lemma {:induction false} ReplacedPieces(m: Mem, m': Mem, c: Ctx, t: Tree, x: Node)
    requires t.Br? && Distinct(t) && CtxDistinct(c) && CtxNodes(c) !! Nodes(t) && x !in Nodes(t) && x !in CtxNodes(c)
    requires Laid(m, t, HoleParent(c)) && CtxLaid(m, c, t.node) && x in m && Replaced(m, m', t.node, x)
    ensures Laid(m', t.(node := x), HoleParent(c)) && CtxLaid(m', c, x)
  {
    var n := t.node;
    NodesLaid(m, t.left, n);
    NodesLaid(m, t.right, n);
    CtxNodesLaid(m, c, n);
    LaidMove(m, m', t.left, n, x);
    LaidMove(m, m', t.right, n, x);
    CtxLaidMove(m, m', c, n, x);
  }

  lemma {:induction false} ReplacedLaid(m: Mem, m': Mem, c: Ctx, t: Tree, x: Node)
    requires t.Br? && Distinct(Plug(c, t)) && Laid(m, Plug(c, t), null) && x !in Nodes(Plug(c, t))
    requires t.node in m && x in m && Replaced(m, m', t.node, x)
    ensures Laid(m', Plug(c, t.(node := x)), null)
    ensures Distinct(Plug(c, t.(node := x))) && Nodes(Plug(c, t.(node := x))) == Nodes(Plug(c, t)) - {t.node} + {x}
  {
    NodesPlug(c, t);
    NodesPlug(c, t.(node := x));
    LaidPlug(m, c, t);
    ReplacedPieces(m, m', c, t, x);
    LaidPlug(m', c, t.(node := x));
  }

  /** One context inside another. */
  ghost function Append(d: Ctx, c: Ctx): Ctx
  {
    match d
    case Top => c
    case InLeft(col, n, r, up) => InLeft(col, n, r, Append(up, c))
    case InRight(col, l, n, up) => InRight(col, l, n, Append(up, c))
  }

  lemma {:induction false} PlugAppend(d: Ctx, c: Ctx, t: Tree)
    ensures Plug(Append(d, c), t) == Plug(c, Plug(d, t))
    decreases d
  {
    match d
    case Top =>
    case InLeft(col, n, r, up) => PlugAppend(up, c, Br(col, t, n, r));
    case InRight(col, l, n, up) => PlugAppend(up, c, Br(col, l, n, t));
  }

  ghost predicate LeftSpine(d: Ctx) { d.Top? || (d.InLeft? && LeftSpine(d.up)) }

  lemma {:induction false} LeftSpineChild(d: Ctx, t: Tree)
    requires LeftSpine(d) && t.Br?
    ensures Plug(d, t).Br? && (!d.Top? ==> Plug(d, t).left.Br?)
    decreases d
  {
    if !d.Top? { LeftSpineChild(d.up, Br(d.color, t, d.node, d.right)); }
  }

  /** The tree once the successor `st` has left its place and taken that of `t.node`. */
  ghost function Succession(t: Tree, d: Ctx, st: Tree): Tree
    requires t.Br? && st.Br?
  {
    Br(t.color, t.left, st.node, Plug(d, st.right))
  }

  lemma {:induction false} SuccessionLaid(m: Mem, m': Mem, c: Ctx, t: Tree, d: Ctx, st: Tree)
    requires t.Br? && t.right == Plug(d, st) && st.Br? && st.left.Leaf?
    requires Distinct(Plug(c, t)) && Laid(m, Plug(c, t), null) && m.Keys == Nodes(Plug(c, t))
    requires Moved(m, m', t.node, st.node)
    ensures var t' := Plug(c, Succession(t, d, st));
      && Distinct(t') && Laid(m', t', null) && Nodes(t') == Nodes(Plug(c, t)) - {t.node}
      && RootOf(t') == if c.Top? then st.node else RootOf(Plug(c, t))
  {
    RootOfPlug(c, t);
    RootOfPlug(c, Succession(t, d, st));
    var up := InRight(t.color, t.left, t.node, c);
    var hole := Append(d, up);
    PlugAppend(d, up, st);
    PlugAppend(d, up, st.right);
    LaidPlug(m, hole, st);
    SplicedLaid(m, hole, st, st.right);
    SplicedSame(hole, st, st.right);
    var t1 := Br(t.color, t.left, t.node, Plug(d, st.right));
    assert Plug(hole, st.right) == Plug(c, t1);
    ReplacedLaid(Spliced(m, st.node, RootOf(st.right)), m', c, t1, st.node);
    RootInNodes(c, t);
  }

  lemma {:induction false} RootInNodes(c: Ctx, t: Tree)
    requires t.Br?
    ensures t.node in Nodes(Plug(c, t))
  {
    NodesPlug(c, t);
  }

  lemma {:induction false} LaidSnapshot(s: set<Node>, t: Tree)
    requires Distinct(t) && Laid(Snapshot(s), t, null)
    ensures Laid(Snapshot(Nodes(t)), t, null)
  {
    NodesLaid(Snapshot(s), t, null);
    LaidKeep(Snapshot(s), Snapshot(Nodes(t)), t, null);
  }

  /** The layout once the successor took its place, as the fields hold it. */
  lemma {:induction false} SuccessionShown(m: Mem, s: set<Node>, c: Ctx, t: Tree, d: Ctx, st: Tree)
    requires t.Br? && t.right == Plug(d, st) && st.Br? && st.left.Leaf?
    requires Distinct(Plug(c, t)) && Laid(m, Plug(c, t), null) && m.Keys == Nodes(Plug(c, t))
    requires Moved(m, Snapshot(s), t.node, st.node)
    ensures var t' := Plug(c, Succession(t, d, st));
      && Distinct(t') && Laid(Snapshot(Nodes(t')), t', null) && Nodes(t') == Nodes(Plug(c, t)) - {t.node}
      && RootOf(t') == if c.Top? then st.node else RootOf(Plug(c, t))
  {
    SuccessionLaid(m, Snapshot(s), c, t, d, st);
    LaidSnapshot(s, Plug(c, Succession(t, d, st)));
  }
}
