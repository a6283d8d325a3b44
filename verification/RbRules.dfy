/** The colour rules, the order of elements and the search, as statements about
    trees and contexts (lib/rbtree.c). */
module RbRules {
  import opened RbShape
  import opened RbLayout

  // ----- insertion: colour arguments -----

  /** All colour rules hold except that the red root of `t` may sit under a red
      node or be the root. */
  ghost predicate Pending(c: Ctx, t: Tree)
  {
    t.Br? && t.color.Red? && Sound(t) && Accepts(c, BlackHeight(t))
  }

  lemma {:induction false} RecolorPending(c: Ctx, t: Tree)
    requires Pending(c, t) && !c.Top? && c.color.Red? && !c.up.Top?
    requires var u := if c.up.InLeft? then c.up.right else c.up.left; u.Br? && u.color.Red?
    ensures var pt := if c.InLeft? then Br(Black, t, c.node, c.right) else Br(Black, c.left, c.node, t);
      Pending(c.up.up,
        if c.up.InLeft? then Br(Red, pt, c.up.node, c.up.right.(color := Black))
        else Br(Red, c.up.left.(color := Black), c.up.node, pt))
  {
    var (h, g) := (BlackHeight(t), c.up);
    assert Accepts(g, h) && Accepts(g.up, h + 1);
    var pt := if c.InLeft? then Br(Black, t, c.node, c.right) else Br(Black, c.left, c.node, t);
    assert Sound(pt) && BlackHeight(pt) == h + 1;
    var u := if g.InLeft? then g.right else g.left;
    assert Sound(u.(color := Black)) && BlackHeight(u.(color := Black)) == h + 1;
  }

  lemma {:induction false} RotatePendingLeft(c: Ctx, t: Tree)
    requires Pending(c, t) && !c.Top? && c.color.Red? && c.up.InLeft? && IsBlack(c.up.right)
    ensures var pt := if c.InLeft? then Br(Red, t, c.node, c.right) else Br(Red, c.left, c.node, t);
      var x := if c.InLeft? then pt else RotatedLeft(pt);
      Pending(InLeft(Black, x.node, Br(Red, x.right, c.up.node, c.up.right), c.up.up), x.left)
  {
    var (h, g) := (BlackHeight(t), c.up);
    assert Accepts(g, h) && g.color.Black? && Accepts(g.up, h + 1);
    var pt := if c.InLeft? then Br(Red, t, c.node, c.right) else Br(Red, c.left, c.node, t);
    var x := if c.InLeft? then pt else RotatedLeft(pt);
    assert Sound(x.left) && Sound(x.right) && BlackHeight(x.left) == BlackHeight(x.right) == h;
    var low := Br(Red, x.right, g.node, g.right);
    assert IsBlack(x.right) && Sound(low) && BlackHeight(low) == h;
  }

  lemma {:induction false} RotatePendingRight(c: Ctx, t: Tree)
    requires Pending(c, t) && !c.Top? && c.color.Red? && c.up.InRight? && IsBlack(c.up.left)
    ensures var pt := if c.InLeft? then Br(Red, t, c.node, c.right) else Br(Red, c.left, c.node, t);
      var x := if c.InRight? then pt else RotatedRight(pt);
      Pending(InRight(Black, Br(Red, c.up.left, c.up.node, x.left), x.node, c.up.up), x.right)
  {
    var (h, g) := (BlackHeight(t), c.up);
    assert Accepts(g, h) && g.color.Black? && Accepts(g.up, h + 1);
    var pt := if c.InLeft? then Br(Red, t, c.node, c.right) else Br(Red, c.left, c.node, t);
    var x := if c.InRight? then pt else RotatedRight(pt);
    assert Sound(x.right) && Sound(x.left) && BlackHeight(x.right) == BlackHeight(x.left) == h;
    var low := Br(Red, g.left, g.node, x.left);
    assert IsBlack(x.left) && Sound(low) && BlackHeight(low) == h;
  }

  /** Where the insertion loop stops, blackening the root finishes the job. */
  lemma {:induction false} PendingDone(c: Ctx, t: Tree)
    requires Pending(c, t) && (c.Top? || c.color.Black?)
    ensures Plug(c, t).Br? && RedBlack(Plug(c, t).(color := Black))
  {
    RootOfPlug(c, t);
    RedBlackPlug(c, t);
  }

  // ----- insertion: order arguments -----

  /** Along the sequence, `node` compares not-less first and less afterwards. */
  ghost predicate SearchOrdered(cmp: (Node, Node) -> int, node: Node, s: seq<Node>)
  {
    forall i, j :: 0 <= i < j < |s| && cmp(node, s[i]) < 0 ==> cmp(node, s[j]) < 0
  }

  /** Position `k` is after every element that is less than or equal to `node`. */
  ghost predicate InsertsAt(cmp: (Node, Node) -> int, node: Node, s: seq<Node>, k: nat)
  {
    k <= |s| && (forall i :: 0 <= i < k ==> cmp(node, s[i]) >= 0) && (forall i :: k <= i < |s| ==> cmp(node, s[i]) < 0)
  }

  /** The hole of `c` separates the elements that `node` goes after from the rest. */
  ghost predicate Between(cmp: (Node, Node) -> int, node: Node, c: Ctx)
  {
    (forall x :: x in Before(c) ==> cmp(node, x) >= 0) && (forall x :: x in After(c) ==> cmp(node, x) < 0)
  }

  /** Before an element that `node` goes after, `node` goes after everything; behind one it precedes, nothing. */
  lemma {:induction false} SearchAround(cmp: (Node, Node) -> int, node: Node, p: seq<Node>, n: Node, q: seq<Node>)
    requires SearchOrdered(cmp, node, p + [n] + q)
    ensures cmp(node, n) < 0 ==> forall x :: x in q ==> cmp(node, x) < 0
    ensures cmp(node, n) >= 0 ==> forall x :: x in p ==> cmp(node, x) >= 0
  {
    var s := p + [n] + q;
    assert s[|p|] == n;
    forall x | x in q && cmp(node, n) < 0 ensures cmp(node, x) < 0 {
      var i :| 0 <= i < |q| && q[i] == x;
      assert s[|p| + 1 + i] == x;
    }
    forall x | x in p && cmp(node, n) >= 0 ensures cmp(node, x) >= 0 {
      var i :| 0 <= i < |p| && p[i] == x;
      assert s[i] == x;
    }
  }

  lemma {:induction false} DescendBetween(cmp: (Node, Node) -> int, node: Node, c: Ctx, t: Tree)
    requires t.Br? && SearchOrdered(cmp, node, InOrder(Plug(c, t))) && Between(cmp, node, c)
    ensures cmp(node, t.node) < 0 ==> Between(cmp, node, InLeft(t.color, t.node, t.right, c))
    ensures cmp(node, t.node) >= 0 ==> Between(cmp, node, InRight(t.color, t.left, t.node, c))
  {
    InOrderPlug(c, t);
    var (a, l, r, z) := (Before(c), InOrder(t.left), InOrder(t.right), After(c));
    Regroup(a, l, [t.node], r, z);
    SearchAround(cmp, node, a + l, t.node, r + z);
  }

  lemma {:induction false} BetweenInserts(cmp: (Node, Node) -> int, node: Node, c: Ctx)
    requires Between(cmp, node, c)
    ensures InsertsAt(cmp, node, InOrder(Plug(c, Leaf)), |Before(c)|)
  {
    InOrderPlug(c, Leaf);
    assert InOrder(Plug(c, Leaf)) == Before(c) + After(c);
  }

  lemma {:induction false} InsertedOrder(c: Ctx, node: Node)
    ensures var s := InOrder(Plug(c, Leaf));
      && s == Before(c) + After(c)
      && InOrder(Plug(c, Br(Red, Leaf, node, Leaf))) == s[..|Before(c)|] + [node] + s[|Before(c)|..]
  {
    InOrderPlug(c, Leaf);
    InOrderPlug(c, Br(Red, Leaf, node, Leaf));
    assert InOrder(Leaf) == [];
  }

  /** Hanging a red leaf in the hole: layout, order and colours. */
  lemma {:induction false} InsertedTree(m: Mem, m': Mem, c: Ctx, node: Node)
    requires Distinct(Plug(c, Leaf)) && Laid(m, Plug(c, Leaf), null) && m.Keys == Nodes(Plug(c, Leaf)) && node !in m
    requires m'.Keys == m.Keys + {node} && m'[node] == Cell(HoleParent(c), Red, null, null)
    requires Refocused(m, m', c, node) && forall n :: n in m && n != HoleParent(c) ==> m'[n] == m[n]
    ensures var (s, t) := (InOrder(Plug(c, Leaf)), Plug(c, Br(Red, Leaf, node, Leaf)));
      && Distinct(t) && Laid(m', t, null) && m'.Keys == Nodes(t)
      && RootOf(t) == (if c.Top? then node else RootOf(Plug(c, Leaf)))
      && s == Before(c) + After(c)
      && InOrder(t) == s[..|Before(c)|] + [node] + s[|Before(c)|..]
      && (RedBlack(Plug(c, Leaf)) ==> Pending(c, Br(Red, Leaf, node, Leaf)))
  {
    LinkedLaid(m, m', c, node);
    InsertedOrder(c, node);
    RedBlackPlug(c, Leaf);
  }

  // ----- erasure: colour arguments -----

  ghost function Blacken(t: Tree): Tree { if t.Leaf? then t else t.(color := Black) }

  /** Every path through `t` lacks one black node; otherwise all rules hold,
      except that the root of `t` may be red above or below red. */
  ghost predicate Short(c: Ctx, t: Tree)
  {
    Sound(Blacken(t)) && Accepts(c, BlackHeight(t) + 1)
  }

  lemma {:induction false} ShortDone(c: Ctx, t: Tree)
    requires Short(c, t) && (c.Top? || !IsBlack(t))
    ensures RedBlack(Plug(c, Blacken(t)))
  {
    RedBlackPlug(c, Blacken(t));
  }

  lemma {:induction false} RedSiblingLeft(c: Ctx, t: Tree)
    requires Short(c, t) && IsBlack(t) && c.InLeft? && c.right.Br? && c.right.color.Red?
    ensures Short(InLeft(Red, c.node, c.right.left, InLeft(Black, c.right.node, c.right.right, c.up)), t)
    ensures c.right.left.Br? && c.right.left.color.Black?
  {
    var (h, w) := (BlackHeight(t), c.right);
    assert c.color.Black? && Accepts(c.up, h + 2);
    assert IsBlack(w.left) && Sound(w.left) && Sound(w.right) && BlackHeight(w.left) == BlackHeight(w.right) == h + 1;
    assert Accepts(InLeft(Black, w.node, w.right, c.up), h + 1);
  }

  lemma {:induction false} BlackNephewsLeft(c: Ctx, t: Tree)
    requires Short(c, t) && IsBlack(t) && c.InLeft? && c.right.Br? && c.right.color.Black?
    requires IsBlack(c.right.left) && IsBlack(c.right.right)
    ensures Short(c.up, Br(c.color, t, c.node, c.right.(color := Red)))
  {
    var w := c.right.(color := Red);
    assert Sound(c.right.left) && Sound(c.right.right);
    assert Sound(w) && BlackHeight(w) == BlackHeight(t);
  }

  /** The sibling subtree once its far child is the red one. */
  ghost function FarRedLeft(w: Tree): Tree
    requires w.Br? && (IsBlack(w.right) ==> w.left.Br?)
  {
    if IsBlack(w.right) then RotatedRight(Br(Red, w.left.(color := Black), w.node, w.right)) else w
  }

  /** What the terminal case makes of the parent, the short side and the sibling. */
  ghost function RebuiltLeft(col: Color, t: Tree, n: Node, w: Tree): Tree
    requires w.Br? && w.right.Br?
  {
    Br(col, Br(Black, t, n, w.left), w.node, w.right.(color := Black))
  }

  lemma {:induction false} RedNephewLeft(c: Ctx, t: Tree)
    requires Short(c, t) && IsBlack(t) && c.InLeft? && c.right.Br? && c.right.color.Black?
    requires !(IsBlack(c.right.left) && IsBlack(c.right.right))
    ensures RedBlack(Plug(c.up, RebuiltLeft(c.color, t, c.node, FarRedLeft(c.right))))
  {
    var (h, w) := (BlackHeight(t), c.right);
    assert Sound(w.left) && Sound(w.right) && BlackHeight(w.left) == BlackHeight(w.right) == h;
    var f := FarRedLeft(w);
    assert Sound(f.left) && BlackHeight(f.left) == h;
    assert Sound(f.right.(color := Black)) && BlackHeight(f.right.(color := Black)) == h + 1;
    var near := Br(Black, t, c.node, f.left);
    assert Sound(near) && BlackHeight(near) == h + 1;
    RedBlackPlug(c.up, RebuiltLeft(c.color, t, c.node, f));
  }

  lemma {:induction false} RedSiblingRight(c: Ctx, t: Tree)
    requires Short(c, t) && IsBlack(t) && c.InRight? && c.left.Br? && c.left.color.Red?
    ensures Short(InRight(Red, c.left.right, c.node, InRight(Black, c.left.left, c.left.node, c.up)), t)
    ensures c.left.right.Br? && c.left.right.color.Black?
  {
    var (h, w) := (BlackHeight(t), c.left);
    assert c.color.Black? && Accepts(c.up, h + 2);
    assert IsBlack(w.right) && Sound(w.right) && Sound(w.left) && BlackHeight(w.right) == BlackHeight(w.left) == h + 1;
    assert Accepts(InRight(Black, w.left, w.node, c.up), h + 1);
  }

  lemma {:induction false} BlackNephewsRight(c: Ctx, t: Tree)
    requires Short(c, t) && IsBlack(t) && c.InRight? && c.left.Br? && c.left.color.Black?
    requires IsBlack(c.left.left) && IsBlack(c.left.right)
    ensures Short(c.up, Br(c.color, c.left.(color := Red), c.node, t))
  {
    var w := c.left.(color := Red);
    assert Sound(c.left.left) && Sound(c.left.right);
    assert Sound(w) && BlackHeight(w) == BlackHeight(t);
  }

  /** The sibling subtree once its far child is the red one. */
  ghost function FarRedRight(w: Tree): Tree
    requires w.Br? && (IsBlack(w.left) ==> w.right.Br?)
  {
    if IsBlack(w.left) then RotatedLeft(Br(Red, w.left, w.node, w.right.(color := Black))) else w
  }

  /** What the terminal case makes of the parent, the short side and the sibling. */
  ghost function RebuiltRight(col: Color, t: Tree, n: Node, w: Tree): Tree
    requires w.Br? && w.left.Br?
  {
    Br(col, w.left.(color := Black), w.node, Br(Black, w.right, n, t))
  }

  lemma {:induction false} RedNephewRight(c: Ctx, t: Tree)
    requires Short(c, t) && IsBlack(t) && c.InRight? && c.left.Br? && c.left.color.Black?
    requires !(IsBlack(c.left.left) && IsBlack(c.left.right))
    ensures RedBlack(Plug(c.up, RebuiltRight(c.color, t, c.node, FarRedRight(c.left))))
  {
    var (h, w) := (BlackHeight(t), c.left);
    assert Sound(w.left) && Sound(w.right) && BlackHeight(w.left) == BlackHeight(w.right) == h;
    var f := FarRedRight(w);
    assert Sound(f.right) && BlackHeight(f.right) == h;
    assert Sound(f.left.(color := Black)) && BlackHeight(f.left.(color := Black)) == h + 1;
    var near := Br(Black, f.right, c.node, t);
    assert Sound(near) && BlackHeight(near) == h + 1;
    RedBlackPlug(c.up, RebuiltRight(c.color, t, c.node, f));
  }

  /** Removing one element. */
  ghost predicate Removed(s: seq<Node>, s': seq<Node>, n: Node)
  {
    exists k :: 0 <= k < |s| && s[k] == n && s' == s[..k] + s[k + 1..]
  }

  lemma {:induction false} RemovedAt(a: seq<Node>, n: Node, b: seq<Node>)
    ensures Removed(a + [n] + b, a + b, n)
  {
    var s := a + [n] + b;
    assert s[|a|] == n && s[..|a|] == a && s[|a| + 1..] == b;
    assert a + b == s[..|a|] + s[|a| + 1..];
  }

  lemma {:induction false} RemovedInside(a: seq<Node>, n: Node, x: seq<Node>, z: seq<Node>)
    ensures Removed(a + ([] + [n] + x) + z, a + x + z, n)
    ensures Removed(a + (x + [n] + []) + z, a + x + z, n)
  {
    RemovedAt(a, n, x + z);
    assert a + ([] + [n] + x) + z == a + [n] + (x + z);
    assert a + (x + z) == a + x + z;
    RemovedAt(a + x, n, z);
    assert a + (x + [n] + []) + z == a + x + [n] + z;
  }

  lemma {:induction false} RemovedMiddle(a: seq<Node>, l: seq<Node>, n: Node, x: Node, r: seq<Node>, z: seq<Node>)
    ensures Removed(a + (l + [n] + ([x] + r)) + z, a + (l + [x] + r) + z, n)
  {
    RemovedAt(a + l, n, [x] + r + z);
    assert a + (l + [n] + ([x] + r)) + z == (a + l) + [n] + ([x] + r + z);
    assert a + (l + [x] + r) + z == (a + l) + ([x] + r + z);
  }

  lemma {:induction false} RemovedInOrder(c: Ctx, t: Tree, child: Tree)
    requires OnlyChild(t, child)
    ensures Removed(InOrder(Plug(c, t)), InOrder(Plug(c, child)), t.node)
  {
    InOrderPlug(c, t);
    InOrderPlug(c, child);
    assert InOrder(Leaf) == [];
    RemovedInside(Before(c), t.node, InOrder(child), After(c));
  }

  /** Contexts accept by colour alone, so renaming a node changes nothing. */
  lemma {:induction false} AcceptsRenamed(d: Ctx, col: Color, l: Tree, n: Node, x: Node, up: Ctx, h: nat)
    ensures Accepts(Append(d, InRight(col, l, n, up)), h) <==> Accepts(Append(d, InRight(col, l, x, up)), h)
    decreases d
  {
    if !d.Top? { AcceptsRenamed(d.up, col, l, n, x, up, h + Weight(d.color)); }
  }

  lemma {:induction false} LeftSpineBefore(d: Ctx)
    requires LeftSpine(d)
    ensures Before(d) == []
  {
    if !d.Top? { LeftSpineBefore(d.up); }
  }

  /** What erasing leaves to repair when the erased place had at most one child. */
  lemma {:induction false} SplicedColors(c: Ctx, t: Tree, child: Tree)
    requires OnlyChild(t, child) && RedBlack(Plug(c, t))
    ensures t.color.Black? ==> Short(c, child)
    ensures t.color.Red? ==> RedBlack(Plug(c, child))
  {
    RedBlackPlug(c, t);
    RedBlackPlug(c, child);
    BlackenSound(child);
  }

  lemma {:induction false} BlackenSound(t: Tree)
    requires Sound(t)
    ensures Sound(Blacken(t))
  {
  }

  /** Unlinking the successor `st` and putting its node in place of `t.node`. */
  lemma {:induction false} SucceededColors(c: Ctx, t: Tree, d: Ctx, st: Tree)
    requires t.Br? && t.right == Plug(d, st) && st.Br? && st.left.Leaf? && RedBlack(Plug(c, t))
    ensures var hole := Append(d, InRight(t.color, t.left, st.node, c));
      && (st.color.Black? ==> Short(hole, st.right) && (st.right.Br? ==> st.right.color.Red?))
      && (st.color.Red? ==> RedBlack(Plug(hole, st.right)))
  {
    var was := Append(d, InRight(t.color, t.left, t.node, c));
    var hole := Append(d, InRight(t.color, t.left, st.node, c));
    PlugAppend(d, InRight(t.color, t.left, t.node, c), st);
    RedBlackPlug(was, st);
    BlackenSound(st.right);
    AcceptsRenamed(d, t.color, t.left, t.node, st.node, c, BlackHeight(st));
    RedBlackPlug(hole, st.right);
    assert NeedsBlack(hole) == NeedsBlack(was);
  }

  /** With the stale parent the repair does nothing but blacken a red child. */
  lemma {:induction false} StaleColors(c: Ctx, child: Tree)
    requires c.InRight? && Short(c, child)
    ensures RedBlack(Plug(c, Blacken(child))) <==> child.Br? && child.color.Red?
  {
    if child.Br? && child.color.Red? {
      ShortDone(c, child);
    } else {
      RedBlackPlug(c, child);
      assert Blacken(child) == child;
    }
  }

  /** The order after the successor took the place of `t.node`. */
  lemma {:induction false} SucceededOrder(c: Ctx, t: Tree, d: Ctx, st: Tree)
    requires t.Br? && t.right == Plug(d, st) && LeftSpine(d) && st.Br? && st.left.Leaf?
    ensures Removed(InOrder(Plug(c, t)), InOrder(Plug(c, Succession(t, d, st))), t.node)
  {
    SpineOrder(d, st);
    var t' := Succession(t, d, st);
    InOrderPlug(c, t);
    InOrderPlug(c, t');
    RemovedMiddle(Before(c), InOrder(t.left), t.node, st.node, InOrder(t'.right), After(c));
  }

  lemma {:induction false} SpineOrder(d: Ctx, st: Tree)
    requires LeftSpine(d) && st.Br? && st.left.Leaf?
    ensures InOrder(Plug(d, st)) == [st.node] + InOrder(Plug(d, st.right))
  {
    InOrderPlug(d, st);
    InOrderPlug(d, st.right);
    LeftSpineBefore(d);
    assert InOrder(st.left) == [];
    assert [] + ([] + [st.node] + InOrder(st.right)) + After(d) == [st.node] + ([] + InOrder(st.right) + After(d));
  }

  // ----- lookup and iteration -----

  /** Along the sequence the key lies to the right first, then here, then to the left. */
  ghost predicate KeyOrdered(cmp: Node -> int, s: seq<Node>)
  {
    forall i, j :: 0 <= i < j < |s| ==> (cmp(s[i]) < 0 ==> cmp(s[j]) < 0) && (cmp(s[j]) > 0 ==> cmp(s[i]) > 0)
  }

  /** A matching node can only be in the hole. */
  ghost predicate KeyInside(cmp: Node -> int, c: Ctx)
  {
    (forall n :: n in Before(c) ==> cmp(n) != 0) && (forall n :: n in After(c) ==> cmp(n) != 0)
  }

  /** Past an element to the left of the key, everything before it is too; and the mirror image. */
  lemma {:induction false} KeyAround(cmp: Node -> int, p: seq<Node>, n: Node, q: seq<Node>)
    requires KeyOrdered(cmp, p + [n] + q)
    ensures cmp(n) < 0 ==> forall x :: x in q ==> cmp(x) < 0
    ensures cmp(n) > 0 ==> forall x :: x in p ==> cmp(x) > 0
  {
    var s := p + [n] + q;
    assert s[|p|] == n;
    forall x | x in q && cmp(n) < 0 ensures cmp(x) < 0 {
      var i :| 0 <= i < |q| && q[i] == x;
      assert s[|p| + 1 + i] == x;
    }
    forall x | x in p && cmp(n) > 0 ensures cmp(x) > 0 {
      var i :| 0 <= i < |p| && p[i] == x;
      assert s[i] == x;
    }
  }

  lemma {:induction false} DescendKey(cmp: Node -> int, c: Ctx, t: Tree)
    requires t.Br? && KeyOrdered(cmp, InOrder(Plug(c, t))) && KeyInside(cmp, c)
    ensures cmp(t.node) > 0 ==> KeyInside(cmp, InRight(t.color, t.left, t.node, c))
    ensures cmp(t.node) < 0 ==> KeyInside(cmp, InLeft(t.color, t.node, t.right, c))
  {
    InOrderPlug(c, t);
    var (a, l, r, z) := (Before(c), InOrder(t.left), InOrder(t.right), After(c));
    Regroup(a, l, [t.node], r, z);
    KeyAround(cmp, a + l, t.node, r + z);
  }

  /** `r` is the element after `n`, or null after the last one. */
  ghost predicate Follows(s: seq<Node>, n: Node, r: Node?)
  {
    exists k :: FollowsFrom(s, k, n, r)
  }

  ghost predicate FollowsFrom(s: seq<Node>, k: int, n: Node, r: Node?)
  {
    0 <= k < |s| && s[k] == n && r == if k + 1 < |s| then s[k + 1] else null
  }

  ghost function HeadOrNull(s: seq<Node>): Node? { if s == [] then null else s[0] }

  lemma {:induction false} PlaceInOrder(c: Ctx, t: Tree)
    requires t.Br?
    ensures Follows(InOrder(Plug(c, t)), t.node, HeadOrNull(InOrder(t.right) + After(c)))
  {
    InOrderPlug(c, t);
    var (a, rest) := (Before(c) + InOrder(t.left), InOrder(t.right) + After(c));
    Regroup(Before(c), InOrder(t.left), [t.node], InOrder(t.right), After(c));
    assert InOrder(Plug(c, t)) == a + [t.node] + rest;
    FollowsAt(a, t.node, rest);
  }

  lemma {:induction false} FollowsAt(a: seq<Node>, n: Node, rest: seq<Node>)
    ensures Follows(a + [n] + rest, n, HeadOrNull(rest))
  {
    var s := a + [n] + rest;
    assert s[|a|] == n && (rest != [] ==> s[|a| + 1] == rest[0]);
    assert FollowsFrom(s, |a|, n, HeadOrNull(rest));
  }

  /** No node occurs twice in the order. */
  lemma {:induction false} InOrderDistinct(t: Tree)
    requires Distinct(t)
    ensures forall i, j :: 0 <= i < j < |InOrder(t)| ==> InOrder(t)[i] != InOrder(t)[j]
  {
    if t.Br? {
      InOrderDistinct(t.left);
      InOrderDistinct(t.right);
      NodesInOrder(t.left);
      NodesInOrder(t.right);
      var (l, r, s) := (InOrder(t.left), InOrder(t.right), InOrder(t));
      forall i, j | 0 <= i < j < |s| ensures s[i] != s[j] {
        assert i < |l| ==> s[i] == l[i] && l[i] in l;
        assert j > |l| ==> s[j] == r[j - |l| - 1] && r[j - |l| - 1] in r;
      }
    }
  }

  /** So what follows a node is determined by the one place where it stands. */
  lemma {:induction false} FollowsAlone(t: Tree, n: Node, r: Node?, k: int)
    requires Distinct(t) && Follows(InOrder(t), n, r) && 0 <= k < |InOrder(t)| && InOrder(t)[k] == n
    ensures FollowsFrom(InOrder(t), k, n, r)
  {
    InOrderDistinct(t);
    var k' :| FollowsFrom(InOrder(t), k', n, r);
    assert k == k';
  }

  // ----- sorted sequences -----

  /** A comparator that is a total preorder on `all`. */
  ghost predicate Consistent(cmp: (Node, Node) -> int, all: set<Node>)
  {
    && (forall a, b :: a in all && b in all ==> (cmp(a, b) < 0 <==> cmp(b, a) > 0))
    && (forall a, b, c :: a in all && b in all && c in all && cmp(a, b) <= 0 && cmp(b, c) <= 0 ==> cmp(a, c) <= 0)
  }

  ghost predicate Sorted(cmp: (Node, Node) -> int, s: seq<Node>)
  {
    forall i, j :: 0 <= i < j < |s| ==> cmp(s[i], s[j]) <= 0
  }

  /** In a sorted tree the insertion search is well guided. */
  lemma {:induction false} SortedSearch(cmp: (Node, Node) -> int, node: Node, s: seq<Node>, all: set<Node>)
    requires Consistent(cmp, all) && node in all && (forall n :: n in s ==> n in all) && Sorted(cmp, s)
    ensures SearchOrdered(cmp, node, s)
  {
    forall i, j | 0 <= i < j < |s| && cmp(node, s[i]) < 0 ensures cmp(node, s[j]) < 0 {
      var (x, y) := (s[i], s[j]);
      assert x in all && y in all && cmp(x, y) <= 0;
      assert cmp(y, node) <= 0 ==> cmp(x, node) <= 0;
    }
  }

  /** Inserting there keeps the tree sorted, equal keys in arrival order. */
  lemma {:induction false} InsertKeepsSorted(cmp: (Node, Node) -> int, node: Node, s: seq<Node>, k: nat, all: set<Node>)
    requires Consistent(cmp, all) && node in all && (forall n :: n in s ==> n in all) && Sorted(cmp, s)
    requires InsertsAt(cmp, node, s, k)
    ensures Sorted(cmp, s[..k] + [node] + s[k..])
    ensures forall i :: 0 <= i < |s| && cmp(node, s[i]) == 0 ==> i < k
  {
    var s' := s[..k] + [node] + s[k..];
    forall i, j | 0 <= i < j < |s'| ensures cmp(s'[i], s'[j]) <= 0 {
      var (a, b) := (if i < k then i else i - 1, if j < k then j else j - 1);
      if j == k {
        assert s'[i] == s[i] && cmp(node, s[i]) >= 0 && s[i] in all;
      } else if i == k {
        assert s'[j] == s[b] && s[b] in all;
      } else {
        assert s'[i] == s[a] && s'[j] == s[b];
      }
    }
  }

  /** The erase repair really is lost: three black nodes, erasing the root. */
  lemma {:induction false} LopsidedExample(a: Node, n: Node, x: Node)
    ensures var t := Br(Black, Br(Black, Leaf, a, Leaf), n, Br(Black, Leaf, x, Leaf));
      RedBlack(t) && !RedBlack(Succession(t, Top, t.right))
  {
    var l := Br(Black, Leaf, a, Leaf);
    assert BlackHeight(l) == 1 && Sound(l) && Sound(Br(Black, Leaf, x, Leaf));
    assert Plug(Top, Leaf) == Leaf;
  }
}
