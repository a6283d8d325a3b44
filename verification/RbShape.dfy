// Shapes of red-black trees: trees of nodes, one-hole contexts, the colour
// rules, and how a shape is laid out in node memory through child and parent
// pointers (lib/rbtree.c, include/lib/rbtree.h).
module RbShape {

  datatype Color = Red | Black

  /** `struct rb_node`. `rb_parent_color` packs the parent pointer and the
      colour bit; they are two fields here. */
  class Node {
    var parent: Node?
    var color: Color
    var right: Node?
    var left: Node?

    constructor ()
    {
      parent, color, right, left := null, Red, null, null;
    }
  }

  /** The abstract shape that the pointers lay out. */
  datatype Tree = Leaf | Br(color: Color, left: Tree, node: Node, right: Tree)

  /** A tree with one subtree missing, read from the hole towards the root. */
  datatype Ctx =
    | Top
    | InLeft(color: Color, node: Node, right: Tree, up: Ctx)
    | InRight(color: Color, left: Tree, node: Node, up: Ctx)

  ghost function Plug(c: Ctx, t: Tree): Tree
    decreases c
  {
    match c
    case Top => t
    case InLeft(col, n, r, up) => Plug(up, Br(col, t, n, r))
    case InRight(col, l, n, up) => Plug(up, Br(col, l, n, t))
  }

  ghost function Depth(c: Ctx): nat
  {
    if c.Top? then 0 else 1 + Depth(c.up)
  }

  // ----- in-order sequence -----

  ghost function InOrder(t: Tree): seq<Node>
  {
    match t
    case Leaf => []
    case Br(_, l, n, r) => InOrder(l) + [n] + InOrder(r)
  }

  ghost function Before(c: Ctx): seq<Node>
  {
    match c
    case Top => []
    case InLeft(_, _, _, up) => Before(up)
    case InRight(_, l, n, up) => Before(up) + (InOrder(l) + [n])
  }

  ghost function After(c: Ctx): seq<Node>
  {
    match c
    case Top => []
    case InLeft(_, n, r, up) => [n] + InOrder(r) + After(up)
    case InRight(_, _, _, up) => After(up)
  }

  lemma {:induction false} Regroup(a: seq<Node>, b: seq<Node>, c: seq<Node>, d: seq<Node>, e: seq<Node>)
    ensures a + (b + c + d) + e == a + b + (c + d + e)
    ensures a + (b + c + d) + e == a + (b + c) + d + e
    ensures a + (b + c + d) + e == a + b + c + (d + e)
    ensures a + b + (c + d + e) == (a + b + c) + d + e
  {
  }

  lemma {:induction false} InOrderPlug(c: Ctx, t: Tree)
    ensures InOrder(Plug(c, t)) == Before(c) + InOrder(t) + After(c)
    decreases c
  {
    match c
    case Top =>
    case InLeft(col, n, r, up) =>
      InOrderPlug(up, Br(col, t, n, r));
      Regroup(Before(up), InOrder(t), [n], InOrder(r), After(up));
    case InRight(col, l, n, up) =>
      InOrderPlug(up, Br(col, l, n, t));
      Regroup(Before(up), InOrder(l), [n], InOrder(t), After(up));
  }

  // ----- node sets -----

  ghost function Nodes(t: Tree): set<Node>
  {
    match t
    case Leaf => {}
    case Br(_, l, n, r) => Nodes(l) + {n} + Nodes(r)
  }

  ghost function CtxNodes(c: Ctx): set<Node>
  {
    match c
    case Top => {}
    case InLeft(_, n, r, up) => {n} + Nodes(r) + CtxNodes(up)
    case InRight(_, l, n, up) => {n} + Nodes(l) + CtxNodes(up)
  }

  /** No node occurs twice. */
  ghost predicate Distinct(t: Tree)
  {
    match t
    case Leaf => true
    case Br(_, l, n, r) =>
      n !in Nodes(l) && n !in Nodes(r) && Nodes(l) !! Nodes(r) && Distinct(l) && Distinct(r)
  }

  ghost predicate CtxDistinct(c: Ctx)
  {
    match c
    case Top => true
    case InLeft(_, n, r, up) =>
      n !in Nodes(r) && n !in CtxNodes(up) && Nodes(r) !! CtxNodes(up) && Distinct(r) && CtxDistinct(up)
    case InRight(_, l, n, up) =>
      n !in Nodes(l) && n !in CtxNodes(up) && Nodes(l) !! CtxNodes(up) && Distinct(l) && CtxDistinct(up)
  }

  lemma {:induction false} NodesPlug(c: Ctx, t: Tree)
    ensures Nodes(Plug(c, t)) == CtxNodes(c) + Nodes(t)
    ensures Distinct(Plug(c, t)) <==> CtxDistinct(c) && Distinct(t) && CtxNodes(c) !! Nodes(t)
    decreases c
  {
    match c
    case Top =>
    case InLeft(col, n, r, up) => NodesPlug(up, Br(col, t, n, r));
    case InRight(col, l, n, up) => NodesPlug(up, Br(col, l, n, t));
  }

  lemma {:induction false} NodesInOrder(t: Tree)
    ensures forall n :: n in Nodes(t) <==> n in InOrder(t)
  {
    if t.Br? {
      NodesInOrder(t.left);
      NodesInOrder(t.right);
    }
  }

  /** Every node of a tree has a place in it. */
  lemma {:induction false} Locate(c: Ctx, t: Tree, n: Node) returns (c': Ctx, t': Tree)
    requires n in Nodes(t)
    ensures Plug(c', t') == Plug(c, t) && t'.Br? && t'.node == n
    decreases t
  {
    if n == t.node {
      c', t' := c, t;
    } else if n in Nodes(t.left) {
      c', t' := Locate(InLeft(t.color, t.node, t.right, c), t.left, n);
    } else {
      c', t' := Locate(InRight(t.color, t.left, t.node, c), t.right, n);
    }
  }

  // ----- colour rules -----

  ghost predicate IsBlack(t: Tree) { t.Leaf? || t.color.Black? }

  ghost function Weight(col: Color): nat { if col.Black? then 1 else 0 }

  /** Black nodes on the left spine; on a balanced tree, on every path. */
  ghost function BlackHeight(t: Tree): nat
  {
    if t.Leaf? then 0 else BlackHeight(t.left) + Weight(t.color)
  }

  ghost predicate Balanced(t: Tree)
  {
    t.Br? ==> BlackHeight(t.left) == BlackHeight(t.right) && Balanced(t.left) && Balanced(t.right)
  }

  ghost predicate NoRedRed(t: Tree)
  {
    t.Br? ==>
      && (t.color.Red? ==> IsBlack(t.left) && IsBlack(t.right))
      && NoRedRed(t.left) && NoRedRed(t.right)
  }

  ghost predicate Sound(t: Tree) { Balanced(t) && NoRedRed(t) }

  /** What `validate_rbtree` checks. */
  ghost predicate RedBlack(t: Tree) { IsBlack(t) && Sound(t) }

  /** The hole accepts only a black subtree: it is the root or hangs off a red node. */
  ghost predicate NeedsBlack(c: Ctx) { c.Top? || c.color.Red? }

  /** Plugging a sound subtree of black height `h`, black if the hole needs it,
      gives a red-black tree. */
  ghost predicate Accepts(c: Ctx, h: nat)
  {
    match c
    case Top => true
    case InLeft(col, _, r, up) =>
      Sound(r) && BlackHeight(r) == h && (col.Red? ==> IsBlack(r) && !NeedsBlack(up)) && Accepts(up, h + Weight(col))
    case InRight(col, l, _, up) =>
      Sound(l) && BlackHeight(l) == h && (col.Red? ==> IsBlack(l) && !NeedsBlack(up)) && Accepts(up, h + Weight(col))
  }

  lemma {:induction false} RedBlackPlug(c: Ctx, t: Tree)
    ensures RedBlack(Plug(c, t)) <==>
      Accepts(c, BlackHeight(t)) && Sound(t) && (NeedsBlack(c) ==> IsBlack(t))
    decreases c
  {
    match c
    case Top =>
    case InLeft(col, n, r, up) => RedBlackPlug(up, Br(col, t, n, r));
    case InRight(col, l, n, up) => RedBlackPlug(up, Br(col, l, n, t));
  }

  // ----- layout in memory -----

  datatype Cell = Cell(parent: Node?, color: Color, right: Node?, left: Node?)

  type Mem = map<Node, Cell>

  ghost function Snapshot(s: set<Node>): Mem
    reads s
  {
    map n | n in s :: Cell(n.parent, n.color, n.right, n.left)
  }

  ghost function RootOf(t: Tree): Node? { if t.Leaf? then null else t.node }

  ghost function HoleParent(c: Ctx): Node? { if c.Top? then null else c.node }

  /** The cells of `t` in `m` are exactly its shape, hanging below `p`. */
  ghost predicate Laid(m: Mem, t: Tree, p: Node?)
  {
    match t
    case Leaf => true
    case Br(col, l, n, r) =>
      n in m && m[n] == Cell(p, col, RootOf(r), RootOf(l)) && Laid(m, l, n) && Laid(m, r, n)
  }

  ghost predicate CtxLaid(m: Mem, c: Ctx, f: Node?)
  {
    match c
    case Top => true
    case InLeft(col, n, r, up) =>
      n in m && m[n] == Cell(HoleParent(up), col, RootOf(r), f) && Laid(m, r, n) && CtxLaid(m, up, n)
    case InRight(col, l, n, up) =>
      n in m && m[n] == Cell(HoleParent(up), col, f, RootOf(l)) && Laid(m, l, n) && CtxLaid(m, up, n)
  }

  lemma {:induction false} LaidPlug(m: Mem, c: Ctx, t: Tree)
    ensures Laid(m, Plug(c, t), null) <==> Laid(m, t, HoleParent(c)) && CtxLaid(m, c, RootOf(t))
    decreases c
  {
    match c
    case Top =>
    case InLeft(col, n, r, up) => LaidPlug(m, up, Br(col, t, n, r));
    case InRight(col, l, n, up) => LaidPlug(m, up, Br(col, l, n, t));
  }

  /** A subtree keeps its layout when only its root's parent pointer changes. */
  lemma {:induction false} LaidMove(m: Mem, m': Mem, t: Tree, p: Node?, p': Node?)
    requires Distinct(t) && Laid(m, t, p)
    requires Nodes(t) <= m'.Keys
    requires forall n :: n in Nodes(t) && n != RootOf(t) ==> n in m && m'[n] == m[n]
    requires t.Br? ==> m'[t.node] == m[t.node].(parent := p')
    ensures Laid(m', t, p')
  {
    if t.Br? {
      LaidMove(m, m', t.left, t.node, t.node);
      LaidMove(m, m', t.right, t.node, t.node);
    }
  }

  /** A context keeps its layout when only the pointer into the hole changes. */
  lemma {:induction false} CtxLaidMove(m: Mem, m': Mem, c: Ctx, f: Node?, f': Node?)
    requires CtxDistinct(c) && CtxLaid(m, c, f)
    requires CtxNodes(c) <= m'.Keys
    requires forall n :: n in CtxNodes(c) && n != HoleParent(c) ==> n in m && m'[n] == m[n]
    requires c.InLeft? ==> m'[c.node] == m[c.node].(left := f')
    requires c.InRight? ==> m'[c.node] == m[c.node].(right := f')
    ensures CtxLaid(m', c, f')
  {
    match c
    case Top =>
    case InLeft(col, n, r, up) =>
      LaidMove(m, m', r, n, n);
      CtxLaidMove(m, m', up, n, n);
    case InRight(col, l, n, up) =>
      LaidMove(m, m', l, n, n);
      CtxLaidMove(m, m', up, n, n);
  }
}
