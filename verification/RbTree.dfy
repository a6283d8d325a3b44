// Red-black trees over linked nodes with parent pointers (lib/rbtree.c).
// Each method works on the node fields in place; `tree` is the ghost shape
// that the fields lay out, and every contract speaks about that shape.
module RbTree {
  import opened RbShape
  import opened RbLayout
  import opened RbRules

  class RbRoot {
    var root: Node?
    ghost var tree: Tree

    /** The node fields and the root pointer lay out `tree`. */
    ghost predicate Valid()
      reads this, Nodes(tree)
    {
      Distinct(tree) && Laid(Snapshot(Nodes(tree)), tree, null) && root == RootOf(tree)
    }

    constructor ()
      ensures Valid() && tree == Leaf
    {
      root, tree := null, Leaf;
    }

    /** The fields lay out `t`, which becomes the shape. */
    ghost method Adopt(t: Tree)
      requires Distinct(t) && Laid(Snapshot(Nodes(t)), t, null) && root == RootOf(t)
      modifies this`tree
      ensures Valid() && tree == t
    {
      tree := t;
    }

    /** What the fields around a place in the tree hold. */
    lemma {:induction false} Look(c: Ctx, t: Tree)
      requires Valid() && tree == Plug(c, t)
      ensures t.Br? ==>
        && t.node in Nodes(tree) && t.node.parent == HoleParent(c) && t.node.color == t.color
        && t.node.left == RootOf(t.left) && t.node.right == RootOf(t.right)
      ensures !c.Top? ==>
        && c.node in Nodes(tree) && c.node.parent == HoleParent(c.up) && c.node.color == c.color
      ensures c.InLeft? ==> c.node.left == RootOf(t) && c.node.right == RootOf(c.right)
      ensures c.InRight? ==> c.node.left == RootOf(c.left) && c.node.right == RootOf(t)
      ensures root == RootOf(t) <==> c.Top?
      ensures CtxDistinct(c) && Distinct(t) && CtxNodes(c) !! Nodes(t)
    {
      LaidPlug(Snapshot(Nodes(tree)), c, t);
      NodesPlug(c, t);
      RootOfPlug(c, t);
    }

    method SetColor(n: Node, col: Color, ghost c: Ctx, ghost t: Tree)
      requires Valid() && tree == Plug(c, t) && t.Br? && t.node == n
      modifies this`tree, n`color
      ensures Valid() && tree == Plug(c, t.(color := col))
      ensures Nodes(tree) == old(Nodes(tree)) && InOrder(tree) == old(InOrder(tree))
    {
      Look(c, t);
      ghost var m := Snapshot(Nodes(tree));
      PaintedLaid(m, c, t, col);
      RootOfPlug(c, t);
      n.color := col;
      assert Snapshot(Nodes(tree)) == m[n := m[n].(color := col)];
      Adopt(Plug(c, t.(color := col)));
    }

    /** The assignments of rb_rotate_left. */
    method RotateLeftLinks(node: Node, ghost s: set<Node>)
      requires node.right != null && CanRotate(s, node, node.right, node.right.left, node.parent)
      modifies this`root, s
      ensures LeftCells(old(Snapshot(s)), Snapshot(s), node)
      ensures root == if old(node.parent) == null then old(node.right) else old(root)
    {
      var right := node.right;
      var parent := node.parent;
      node.right := right.left;
      if right.left != null {
        right.left.parent := node;
      }
      right.left := node;
      right.parent := parent;
      if parent != null {
        if node == parent.left {
          parent.left := right;
        } else {
          parent.right := right;
        }
      } else {
        root := right;
      }
      node.parent := right;
    }

    /** rb_rotate_left */
    method RotateLeft(node: Node, ghost c: Ctx, ghost t: Tree)
      requires Valid() && tree == Plug(c, t) && t.Br? && t.node == node && t.right.Br?
      modifies this, Nodes(tree)
      ensures Valid() && tree == Plug(c, RotatedLeft(t)) && SameNodesAndOrder(old(tree), tree)
    {
      ghost var s := Nodes(tree);
      ghost var m := Snapshot(s);
      AroundLeft(c, t);
      RotateLeftLinks(node, s);
      RotatedLeftLaid(m, Snapshot(s), c, t);
      RotatedSame(c, t);
      RootOfPlug(c, t);
      RootOfPlug(c, RotatedLeft(t));
      Adopt(Plug(c, RotatedLeft(t)));
    }

    lemma {:induction false} AroundLeft(c: Ctx, t: Tree)
      requires Valid() && tree == Plug(c, t) && t.Br? && t.right.Br?
      ensures t.node.right == t.right.node && t.node.parent == HoleParent(c) && t.right.node.left == RootOf(t.right.left)
      ensures CanRotate(Nodes(tree), t.node, t.right.node, t.right.node.left, t.node.parent)
    {
      Look(c, t);
      Look(InRight(t.color, t.left, t.node, c), t.right);
      NodesPlug(c, t);
      assert Nodes(t.right) == Nodes(t.right.left) + {t.right.node} + Nodes(t.right.right);
    }

    /** The assignments of rb_rotate_right. */
    method RotateRightLinks(node: Node, ghost s: set<Node>)
      requires node.left != null && CanRotate(s, node, node.left, node.left.right, node.parent)
      modifies this`root, s
      ensures RightCells(old(Snapshot(s)), Snapshot(s), node)
      ensures root == if old(node.parent) == null then old(node.left) else old(root)
    {
      var left := node.left;
      var parent := node.parent;
      node.left := left.right;
      if node.left != null {
        left.right.parent := node;
      }
      left.right := node;
      left.parent := parent;
      node.parent := left;
      if parent != null {
        if node == parent.right {
          parent.right := left;
        } else {
          parent.left := left;
        }
      } else {
        root := left;
      }
    }

    /** rb_rotate_right */
    method RotateRight(node: Node, ghost c: Ctx, ghost t: Tree)
      requires Valid() && tree == Plug(c, t) && t.Br? && t.node == node && t.left.Br?
      modifies this, Nodes(tree)
      ensures Valid() && tree == Plug(c, RotatedRight(t)) && SameNodesAndOrder(old(tree), tree)
    {
      ghost var s := Nodes(tree);
      ghost var m := Snapshot(s);
      AroundRight(c, t);
      RotateRightLinks(node, s);
      RotatedRightLaid(m, Snapshot(s), c, t);
      RotatedSame(c, t);
      RootOfPlug(c, t);
      RootOfPlug(c, RotatedRight(t));
      Adopt(Plug(c, RotatedRight(t)));
    }

    lemma {:induction false} AroundRight(c: Ctx, t: Tree)
      requires Valid() && tree == Plug(c, t) && t.Br? && t.left.Br?
      ensures t.node.left == t.left.node && t.node.parent == HoleParent(c) && t.left.node.right == RootOf(t.left.right)
      ensures CanRotate(Nodes(tree), t.node, t.left.node, t.left.node.right, t.node.parent)
    {
      Look(c, t);
      Look(InLeft(t.color, t.node, t.right, c), t.left);
      NodesPlug(c, t);
      assert Nodes(t.left) == Nodes(t.left.left) + {t.left.node} + Nodes(t.left.right);
    }

    /** One round of rb_insert_fixup with the parent a left child and red. */
    method InsertStepLeft(n: Node, parent: Node, gparent: Node, ghost c: Ctx, ghost t: Tree)
      returns (node: Node, ghost c': Ctx, ghost t': Tree)
      requires Valid() && tree == Plug(c, t) && t.Br? && t.node == n && t.color.Red?
      requires !c.Top? && c.node == parent && c.color.Red? && c.up.InLeft? && c.up.node == gparent
      modifies this, Nodes(tree)
      ensures Valid() && SameNodesAndOrder(old(tree), tree)
      ensures tree == Plug(c', t') && t'.Br? && t'.node == node && t'.color.Red? && Depth(c') < Depth(c)
      ensures Pending(c, t) ==> Pending(c', t')
    {
      ghost var up := c.up.up;
      ghost var g := c.up;
      ghost var pt := if c.InLeft? then Br(Red, t, parent, c.right) else Br(Red, c.left, parent, t);
      Look(g, pt);
      node := n;
      var uncle := gparent.right;
      if uncle != null { Look(InRight(g.color, pt, gparent, up), g.right); }
      if uncle != null && uncle.color.Red? {
        SetColor(parent, Black, g, pt);
        ghost var pt' := pt.(color := Black);
        SetColor(uncle, Black, InRight(g.color, pt', gparent, up), g.right);
        ghost var ut := g.right.(color := Black);
        SetColor(gparent, Red, up, Br(g.color, pt', gparent, ut));
        node := gparent;
        c', t' := up, Br(Red, pt', gparent, ut);
        if Pending(c, t) { RecolorPending(c, t); }
        return;
      }
      Look(c, t);
      ghost var x := pt;
      var p: Node?, gp: Node? := parent, gparent;
      if node == parent.right {
        node := parent;
        RotateLeft(node, g, pt);
        x := RotatedLeft(pt);
        Look(InLeft(x.color, x.node, x.right, g), x.left);
        Look(g, x);
        p := node.parent;
        gp := if p != null then p.parent else null;
      }
      if p != null && gp != null {
        SetColor(p, Black, g, x);
        SetColor(gp, Red, up, Br(g.color, x.(color := Black), gparent, g.right));
        RotateRight(gp, up, Br(Red, x.(color := Black), gparent, g.right));
      }
      c', t' := InLeft(Black, x.node, Br(Red, x.right, gparent, g.right), up), x.left;
      if Pending(c, t) { RotatePendingLeft(c, t); }
    }

    /** One round of rb_insert_fixup with the parent a right child and red. */
    method InsertStepRight(n: Node, parent: Node, gparent: Node, ghost c: Ctx, ghost t: Tree)
      returns (node: Node, ghost c': Ctx, ghost t': Tree)
      requires Valid() && tree == Plug(c, t) && t.Br? && t.node == n && t.color.Red?
      requires !c.Top? && c.node == parent && c.color.Red? && c.up.InRight? && c.up.node == gparent
      modifies this, Nodes(tree)
      ensures Valid() && SameNodesAndOrder(old(tree), tree)
      ensures tree == Plug(c', t') && t'.Br? && t'.node == node && t'.color.Red? && Depth(c') < Depth(c)
      ensures Pending(c, t) ==> Pending(c', t')
    {
      ghost var up := c.up.up;
      ghost var g := c.up;
      ghost var pt := if c.InLeft? then Br(Red, t, parent, c.right) else Br(Red, c.left, parent, t);
      Look(g, pt);
      node := n;
      var uncle := gparent.left;
      if uncle != null { Look(InLeft(g.color, gparent, pt, up), g.left); }
      if uncle != null && uncle.color.Red? {
        SetColor(parent, Black, g, pt);
        ghost var pt' := pt.(color := Black);
        SetColor(uncle, Black, InLeft(g.color, gparent, pt', up), g.left);
        ghost var ut := g.left.(color := Black);
        SetColor(gparent, Red, up, Br(g.color, ut, gparent, pt'));
        node := gparent;
        c', t' := up, Br(Red, ut, gparent, pt');
        if Pending(c, t) { RecolorPending(c, t); }
        return;
      }
      Look(c, t);
      ghost var x := pt;
      var p: Node?, gp: Node? := parent, gparent;
      if node == parent.left {
        node := parent;
        RotateRight(node, g, pt);
        x := RotatedRight(pt);
        Look(InRight(x.color, x.left, x.node, g), x.right);
        Look(g, x);
        p := node.parent;
        gp := if p != null then p.parent else null;
      }
      if p != null && gp != null {
        SetColor(p, Black, g, x);
        SetColor(gp, Red, up, Br(g.color, g.left, gparent, x.(color := Black)));
        RotateLeft(gp, up, Br(Red, g.left, gparent, x.(color := Black)));
      }
      c', t' := InRight(Black, Br(Red, g.left, gparent, x.left), x.node, up), x.right;
      if Pending(c, t) { RotatePendingRight(c, t); }
    }

    /** rb_insert_fixup */
    method InsertFixup(n: Node, ghost c0: Ctx, ghost t0: Tree)
      requires Valid() && tree == Plug(c0, t0) && t0.Br? && t0.node == n && t0.color.Red?
      modifies this, Nodes(tree)
      ensures Valid() && SameNodesAndOrder(old(tree), tree)
      ensures Pending(c0, t0) ==> RedBlack(tree)
    {
      var node := n;
      ghost var c, t := c0, t0;
      while true
        invariant Valid() && SameNodesAndOrder(old(tree), tree)
        invariant tree == Plug(c, t) && t.Br? && t.node == node && t.color.Red?
        invariant Pending(c0, t0) ==> Pending(c, t)
        decreases Depth(c)
      {
        Look(c, t);
        var parent := node.parent;
        if parent == null || parent.color.Black? {
          break;
        }
        if !c.up.Top? { Look(c.up, if c.InLeft? then Br(Red, t, parent, c.right) else Br(Red, c.left, parent, t)); }
        var gparent := parent.parent;
        if gparent == null {
          break;
        }
        if parent == gparent.left {
          node, c, t := InsertStepLeft(node, parent, gparent, c, t);
        } else {
          node, c, t := InsertStepRight(node, parent, gparent, c, t);
        }
      }
      if Pending(c, t) { PendingDone(c, t); }
      RootOfPlug(c, t);
      SetColor(root, Black, Top, tree);
    }

    /** The search of rb_insert for the link to hang `node` on. */
    method FindLink(node: Node, cmp: (Node, Node) -> int) returns (parent: Node?, goLeft: bool, ghost c: Ctx)
      requires Valid()
      ensures Valid() && tree == Plug(c, Leaf)
      ensures parent == HoleParent(c) && (parent != null ==> parent in Nodes(tree) && goLeft == c.InLeft?)
      ensures SearchOrdered(cmp, node, InOrder(tree)) ==> InsertsAt(cmp, node, InOrder(tree), |Before(c)|)
    {
      var link := root;
      parent, goLeft := null, false;
      ghost var t;
      c, t := Top, tree;
      while link != null
        invariant Valid() && tree == Plug(c, t) && link == RootOf(t) && parent == HoleParent(c)
        invariant parent != null ==> goLeft == c.InLeft?
        invariant SearchOrdered(cmp, node, InOrder(tree)) ==> Between(cmp, node, c)
        decreases t
      {
        Look(c, t);
        if SearchOrdered(cmp, node, InOrder(tree)) { DescendBetween(cmp, node, c, t); }
        parent := link;
        if cmp(node, parent) < 0 {
          link, goLeft := parent.left, true;
          c, t := InLeft(t.color, t.node, t.right, c), t.left;
        } else {
          link, goLeft := parent.right, false;
          c, t := InRight(t.color, t.left, t.node, c), t.right;
        }
      }
      Look(c, Leaf);
      if Between(cmp, node, c) { BetweenInserts(cmp, node, c); }
    }

    /** The assignments of rb_insert that hang `node` below `parent`. */
    method LinkLeaf(node: Node, parent: Node?, goLeft: bool, ghost s: set<Node>)
      requires node !in s && (parent != null ==> parent in s)
      modifies this`root, parent, node
      ensures var (m, m') := (old(Snapshot(s)), Snapshot(s + {node}));
        && m'[node] == Cell(parent, Red, null, null)
        && (parent != null ==> m'[parent] == if goLeft then m[parent].(left := node) else m[parent].(right := node))
        && forall n :: n in m && n != parent ==> m'[n] == m[n]
      ensures root == if parent == null then node else old(root)
    {
      node.parent := parent;
      node.left, node.right := null, null;
      node.color := Red;
      if parent == null {
        root := node;
      } else if goLeft {
        parent.left := node;
      } else {
        parent.right := node;
      }
    }

    method AddLeaf(node: Node, parent: Node?, goLeft: bool, ghost c: Ctx)
      requires Valid() && tree == Plug(c, Leaf) && node !in Nodes(tree)
      requires parent == HoleParent(c) && (parent != null ==> goLeft == c.InLeft?)
      modifies this, parent, node
      ensures Valid() && tree == Plug(c, Br(Red, Leaf, node, Leaf)) && Nodes(tree) == old(Nodes(tree)) + {node}
      ensures |Before(c)| <= |old(InOrder(tree))|
      ensures InOrder(tree) == old(InOrder(tree))[..|Before(c)|] + [node] + old(InOrder(tree))[|Before(c)|..]
      ensures old(RedBlack(tree)) ==> Pending(c, Br(Red, Leaf, node, Leaf))
    {
      ghost var s := Nodes(tree);
      ghost var m := Snapshot(s);
      Look(c, Leaf);
      LinkLeaf(node, parent, goLeft, s);
      InsertedTree(m, Snapshot(s + {node}), c, node);
      Adopt(Plug(c, Br(Red, Leaf, node, Leaf)));
    }

    /** rb_insert */
    method Insert(node: Node, cmp: (Node, Node) -> int) returns (ghost k: nat)
      requires Valid() && node !in Nodes(tree)
      modifies this, Nodes(tree), node
      ensures Valid() && Nodes(tree) == old(Nodes(tree)) + {node}
      ensures k <= |old(InOrder(tree))|
      ensures InOrder(tree) == old(InOrder(tree))[..k] + [node] + old(InOrder(tree))[k..]
      ensures SearchOrdered(cmp, node, old(InOrder(tree))) ==> InsertsAt(cmp, node, old(InOrder(tree)), k)
      ensures old(RedBlack(tree)) ==> RedBlack(tree)
    {
      ghost var c;
      var parent, goLeft;
      parent, goLeft, c := FindLink(node, cmp);
      k := |Before(c)|;
      AddLeaf(node, parent, goLeft, c);
      InsertFixup(node, c, Br(Red, Leaf, node, Leaf));
    }

    /** rb_erase_fixup: fetch the sibling of a short left side, making it black. */
    method SiblingLeft(parent: Node, ghost c: Ctx, ghost t: Tree) returns (other: Node?, ghost c': Ctx)
      requires Valid() && tree == Plug(c, t) && c.InLeft? && c.node == parent
      modifies this, Nodes(tree)
      ensures Valid() && SameNodesAndOrder(old(tree), tree)
      ensures tree == Plug(c', t) && c'.InLeft? && c'.node == parent && other == RootOf(c'.right)
      ensures Depth(c'.up) < Depth(c) || (Depth(c'.up) == Depth(c) && c'.color.Red?)
      ensures Short(c, t) && IsBlack(t) ==> Short(c', t) && c'.right.Br? && c'.right.color.Black?
    {
      Look(c, t);
      c' := c;
      other := parent.right;
      if other != null {
        ghost var (w, up) := (c.right, c.up);
        Look(InRight(c.color, t, parent, up), w);
        if other.color.Red? {
          SetColor(other, Black, InRight(c.color, t, parent, up), w);
          SetColor(parent, Red, up, Br(c.color, t, parent, w.(color := Black)));
          RotateLeft(parent, up, Br(Red, t, parent, w.(color := Black)));
          c' := InLeft(Red, parent, w.left, InLeft(Black, w.node, w.right, up));
          Look(c', t);
          other := parent.right;
          if Short(c, t) && IsBlack(t) { RedSiblingLeft(c, t); }
        }
      }
    }

    /** rb_erase_fixup: the terminal case of a short left side. */
    method FinishLeft(parent: Node, sibling: Node, ghost c: Ctx, ghost t: Tree)
      requires Valid() && tree == Plug(c, t) && c.InLeft? && c.node == parent && c.right.Br? && c.right.node == sibling
      requires !(IsBlack(c.right.left) && IsBlack(c.right.right))
      modifies this, Nodes(tree)
      ensures Valid() && SameNodesAndOrder(old(tree), tree)
      ensures tree == Plug(c.up, RebuiltLeft(c.color, t, parent, FarRedLeft(c.right)))
    {
      ghost var (w, up) := (c.right, c.up);
      ghost var d := InRight(c.color, t, parent, up);
      var other := sibling;
      LookAroundLeft(c, t);
      if other.right == null || other.right.color.Black? {
        if other.left != null {
          SetColor(other.left, Black, InLeft(w.color, w.node, w.right, d), w.left);
        }
        SetColor(other, Red, d, Br(w.color, w.left.(color := Black), w.node, w.right));
        RotateRight(other, d, Br(Red, w.left.(color := Black), w.node, w.right));
      }
      ghost var f := FarRedLeft(w);
      FinishTopLeft(parent, c.color, t, f, up);
    }

    lemma {:induction false} LookAroundLeft(c: Ctx, t: Tree)
      requires Valid() && tree == Plug(c, t) && c.InLeft? && c.right.Br?
      ensures c.right.node in Nodes(tree) && c.right.node.color == c.right.color
      ensures c.right.node.left == RootOf(c.right.left) && c.right.node.right == RootOf(c.right.right)
      ensures c.right.left.Br? ==> c.right.left.node in Nodes(tree) && c.right.left.node.color == c.right.left.color
      ensures c.right.right.Br? ==> c.right.right.node in Nodes(tree) && c.right.right.node.color == c.right.right.color
    {
      ghost var d := InRight(c.color, t, c.node, c.up);
      Look(d, c.right);
      Look(InLeft(c.right.color, c.right.node, c.right.right, d), c.right.left);
      Look(InRight(c.right.color, c.right.left, c.right.node, d), c.right.right);
    }

    method FinishTopLeft(parent: Node, ghost col: Color, ghost t: Tree, ghost f: Tree, ghost up: Ctx)
      requires f.Br? && f.right.Br? && Valid() && tree == Plug(up, Br(col, t, parent, f))
      modifies this, Nodes(tree)
      ensures Valid() && SameNodesAndOrder(old(tree), tree) && tree == Plug(up, RebuiltLeft(col, t, parent, f))
    {
      ghost var d := InRight(col, t, parent, up);
      Look(up, Br(col, t, parent, f));
      LookAroundLeft(InLeft(col, parent, f, up), t);
      var other := parent.right;
      SetColor(other, parent.color, d, f);
      ghost var f1 := f.(color := col);
      SetColor(parent, Black, up, Br(col, t, parent, f1));
      LookAroundLeft(InLeft(Black, parent, f1, up), t);
      if other.right != null {
        SetColor(other.right, Black, InRight(col, f.left, f.node, InRight(Black, t, parent, up)), f.right);
      }
      ghost var f2 := Br(col, f.left, f.node, f.right.(color := Black));
      RotateLeft(parent, up, Br(Black, t, parent, f2));
    }

    /** rb_erase_fixup: fetch the sibling of a short right side, making it black. */
    method SiblingRight(parent: Node, ghost c: Ctx, ghost t: Tree) returns (other: Node?, ghost c': Ctx)
      requires Valid() && tree == Plug(c, t) && c.InRight? && c.node == parent
      modifies this, Nodes(tree)
      ensures Valid() && SameNodesAndOrder(old(tree), tree)
      ensures tree == Plug(c', t) && c'.InRight? && c'.node == parent && other == RootOf(c'.left)
      ensures Depth(c'.up) < Depth(c) || (Depth(c'.up) == Depth(c) && c'.color.Red?)
      ensures Short(c, t) && IsBlack(t) ==> Short(c', t) && c'.left.Br? && c'.left.color.Black?
    {
      Look(c, t);
      c' := c;
      other := parent.left;
      if other != null {
        ghost var (w, up) := (c.left, c.up);
        Look(InLeft(c.color, parent, t, up), w);
        if other.color.Red? {
          SetColor(other, Black, InLeft(c.color, parent, t, up), w);
          SetColor(parent, Red, up, Br(c.color, w.(color := Black), parent, t));
          RotateRight(parent, up, Br(Red, w.(color := Black), parent, t));
          c' := InRight(Red, w.right, parent, InRight(Black, w.left, w.node, up));
          Look(c', t);
          other := parent.left;
          if Short(c, t) && IsBlack(t) { RedSiblingRight(c, t); }
        }
      }
    }

    /** rb_erase_fixup: the terminal case of a short right side. */
    method FinishRight(parent: Node, sibling: Node, ghost c: Ctx, ghost t: Tree)
      requires Valid() && tree == Plug(c, t) && c.InRight? && c.node == parent && c.left.Br? && c.left.node == sibling
      requires !(IsBlack(c.left.left) && IsBlack(c.left.right))
      modifies this, Nodes(tree)
      ensures Valid() && SameNodesAndOrder(old(tree), tree)
      ensures tree == Plug(c.up, RebuiltRight(c.color, t, parent, FarRedRight(c.left)))
    {
      ghost var (w, up) := (c.left, c.up);
      ghost var d := InLeft(c.color, parent, t, up);
      var other := sibling;
      LookAroundRight(c, t);
      if other.left == null || other.left.color.Black? {
        if other.right != null {
          SetColor(other.right, Black, InRight(w.color, w.left, w.node, d), w.right);
        }
        SetColor(other, Red, d, Br(w.color, w.left, w.node, w.right.(color := Black)));
        RotateLeft(other, d, Br(Red, w.left, w.node, w.right.(color := Black)));
      }
      ghost var f := FarRedRight(w);
      FinishTopRight(parent, c.color, t, f, up);
    }

    lemma {:induction false} LookAroundRight(c: Ctx, t: Tree)
      requires Valid() && tree == Plug(c, t) && c.InRight? && c.left.Br?
      ensures c.left.node in Nodes(tree) && c.left.node.color == c.left.color
      ensures c.left.node.left == RootOf(c.left.left) && c.left.node.right == RootOf(c.left.right)
      ensures c.left.left.Br? ==> c.left.left.node in Nodes(tree) && c.left.left.node.color == c.left.left.color
      ensures c.left.right.Br? ==> c.left.right.node in Nodes(tree) && c.left.right.node.color == c.left.right.color
    {
      ghost var d := InLeft(c.color, c.node, t, c.up);
      Look(d, c.left);
      Look(InLeft(c.left.color, c.left.node, c.left.right, d), c.left.left);
      Look(InRight(c.left.color, c.left.left, c.left.node, d), c.left.right);
    }

    method FinishTopRight(parent: Node, ghost col: Color, ghost t: Tree, ghost f: Tree, ghost up: Ctx)
      requires f.Br? && f.left.Br? && Valid() && tree == Plug(up, Br(col, f, parent, t))
      modifies this, Nodes(tree)
      ensures Valid() && SameNodesAndOrder(old(tree), tree) && tree == Plug(up, RebuiltRight(col, t, parent, f))
    {
      ghost var d := InLeft(col, parent, t, up);
      Look(up, Br(col, f, parent, t));
      LookAroundRight(InRight(col, f, parent, up), t);
      var other := parent.left;
      SetColor(other, parent.color, d, f);
      ghost var f1 := f.(color := col);
      SetColor(parent, Black, up, Br(col, f1, parent, t));
      LookAroundRight(InRight(Black, f1, parent, up), t);
      if other.left != null {
        SetColor(other.left, Black, InLeft(col, f.node, f.right, InLeft(Black, parent, t, up)), f.left);
      }
      ghost var f2 := Br(col, f.left.(color := Black), f.node, f.right);
      RotateRight(parent, up, Br(Black, f2, parent, t));
    }

    /** One round of rb_erase_fixup for a short left side; `more` says the loop goes on. */
    method EraseStepLeft(n: Node?, par: Node, ghost c: Ctx, ghost t: Tree)
      returns (node: Node?, parent: Node?, more: bool, ghost c': Ctx, ghost t': Tree)
      requires Valid() && tree == Plug(c, t) && c.InLeft? && c.node == par && n == RootOf(t) && IsBlack(t)
      modifies this, Nodes(tree)
      ensures Valid() && SameNodesAndOrder(old(tree), tree) && tree == Plug(c', t') && node == RootOf(t')
      ensures more ==> parent == HoleParent(c') && (Depth(c') < Depth(c) || (Depth(c') == Depth(c) && !IsBlack(t')))
      ensures more && Short(c, t) ==> Short(c', t')
      ensures !more && Short(c, t) ==> RedBlack(Plug(c', Blacken(t')))
    {
      var other;
      other, c' := SiblingLeft(par, c, t);
      node, parent, more, t' := n, par, false, t;
      if other != null {
        LookAroundLeft(c', t);
        ghost var (d, w) := (c', c'.right);
        if (other.left == null || other.left.color.Black?) && (other.right == null || other.right.color.Black?) {
          SetColor(other, Red, InRight(d.color, t, par, d.up), w);
          c', t' := d.up, Br(d.color, t, par, w.(color := Red));
          Look(c', t');
          node := par;
          parent := node.parent;
          more := true;
          if Short(c, t) { BlackNephewsLeft(d, t); }
        } else {
          if Short(c, t) { RedNephewLeft(d, t); }
          FinishLeft(par, other, d, t);
          node := root;
          c', t' := Top, tree;
        }
      }
    }

    /** One round of rb_erase_fixup for a short right side; `more` says the loop goes on. */
    method EraseStepRight(n: Node?, par: Node, ghost c: Ctx, ghost t: Tree)
      returns (node: Node?, parent: Node?, more: bool, ghost c': Ctx, ghost t': Tree)
      requires Valid() && tree == Plug(c, t) && c.InRight? && c.node == par && n == RootOf(t) && IsBlack(t)
      modifies this, Nodes(tree)
      ensures Valid() && SameNodesAndOrder(old(tree), tree) && tree == Plug(c', t') && node == RootOf(t')
      ensures more ==> parent == HoleParent(c') && (Depth(c') < Depth(c) || (Depth(c') == Depth(c) && !IsBlack(t')))
      ensures more && Short(c, t) ==> Short(c', t')
      ensures !more && Short(c, t) ==> RedBlack(Plug(c', Blacken(t')))
    {
      var other;
      other, c' := SiblingRight(par, c, t);
      node, parent, more, t' := n, par, false, t;
      if other != null {
        LookAroundRight(c', t);
        ghost var (d, w) := (c', c'.left);
        if (other.left == null || other.left.color.Black?) && (other.right == null || other.right.color.Black?) {
          SetColor(other, Red, InLeft(d.color, par, t, d.up), w);
          c', t' := d.up, Br(d.color, w.(color := Red), par, t);
          Look(c', t');
          node := par;
          parent := node.parent;
          more := true;
          if Short(c, t) { BlackNephewsRight(d, t); }
        } else {
          if Short(c, t) { RedNephewRight(d, t); }
          FinishRight(par, other, d, t);
          node := root;
          c', t' := Top, tree;
        }
      }
    }

    /** One round of rb_erase_fixup. `stale` marks a call whose `par` is the node
        just detached instead of the parent of the hole. */
    method EraseRound(n: Node?, par: Node, ghost c: Ctx, ghost t: Tree, ghost stale: bool)
      returns (node: Node?, parent: Node?, more: bool, ghost c': Ctx, ghost t': Tree)
      requires Valid() && tree == Plug(c, t) && !c.Top? && n == RootOf(t) && IsBlack(t)
      requires if stale then par.left == null && par.right == null else par == c.node
      modifies this, Nodes(tree)
      ensures Valid() && SameNodesAndOrder(old(tree), tree) && tree == Plug(c', t') && node == RootOf(t')
      ensures more ==> parent == HoleParent(c') && (Depth(c') < Depth(c) || (Depth(c') == Depth(c) && !IsBlack(t')))
      ensures stale ==> !more && c' == c && t' == t
      ensures !stale && Short(c, t) ==> if more then Short(c', t') else RedBlack(Plug(c', Blacken(t')))
    {
      Look(c, t);
      node, parent, more, c', t' := n, par, false, c, t;
      if par.left == n {
        if par.right != null {
          node, parent, more, c', t' := EraseStepLeft(n, par, c, t);
        }
      } else {
        if par.left != null {
          node, parent, more, c', t' := EraseStepRight(n, par, c, t);
        }
      }
    }

    /** rb_erase_fixup */
    method EraseFixup(n: Node?, par: Node?, ghost c0: Ctx, ghost t0: Tree, ghost stale: bool)
      requires Valid() && tree == Plug(c0, t0) && n == RootOf(t0)
      requires !stale ==> par == HoleParent(c0)
      requires stale ==> !c0.Top? && par != null && par.left == null && par.right == null
      modifies this, Nodes(tree)
      ensures Valid() && SameNodesAndOrder(old(tree), tree)
      ensures !stale && Short(c0, t0) ==> RedBlack(tree)
      ensures stale ==> tree == Plug(c0, Blacken(t0))
    {
      var node, parent, more := n, par, true;
      ghost var c, t := c0, t0;
      Look(c, t);
      while more && node != root && (node == null || node.color.Black?)
        invariant Valid() && SameNodesAndOrder(old(tree), tree) && tree == Plug(c, t) && node == RootOf(t)
        invariant !stale && more ==> parent == HoleParent(c)
        invariant !stale && Short(c0, t0) ==> if more then Short(c, t) else RedBlack(Plug(c, Blacken(t)))
        invariant stale ==> c == c0 && t == t0 && (more ==> parent == par && par.left == null && par.right == null)
        decreases more, Depth(c), IsBlack(t)
      {
        Look(c, t);
        node, parent, more, c, t := EraseRound(node, parent, c, t, stale);
      }
      Look(c, t);
      if more && Short(c, t) { ShortDone(c, t); }
      if node != null {
        SetColor(node, Black, c, t);
      }
    }

    /** rb_erase, lines 319-330: `child` takes the place of `node`. */
    method SpliceLinks(node: Node, child: Node?, ghost s: set<Node>)
      requires node in s && (child != null ==> child in s && child != node)
      requires node.parent != null ==> node.parent in s && node.parent != node && node.parent != child
      modifies this`root, s
      ensures Snapshot(s) == Spliced(old(Snapshot(s)), node, child)
      ensures root == if old(node.parent) == null then child else old(root)
    {
      var parent := node.parent;
      if child != null {
        child.parent := parent;
      }
      if parent != null {
        if parent.left == node {
          parent.left := child;
        } else {
          parent.right := child;
        }
      } else {
        root := child;
      }
    }

    method Splice(node: Node, child: Node?, ghost c: Ctx, ghost t: Tree, ghost ct: Tree)
      requires Valid() && tree == Plug(c, t) && OnlyChild(t, ct) && t.node == node && child == RootOf(ct)
      modifies this, Nodes(tree)
      ensures Valid() && tree == Plug(c, ct) && Nodes(tree) == old(Nodes(tree)) - {node}
      ensures Removed(old(InOrder(tree)), InOrder(tree), node)
    {
      ghost var s := Nodes(tree);
      ghost var m := Snapshot(s);
      Look(c, t);
      NodesPlug(c, t);
      SplicedLaid(m, c, t, ct);
      SplicedSame(c, t, ct);
      RootOfPlug(c, t);
      RootOfPlug(c, ct);
      SpliceLinks(node, child, s);
      LaidSnapshot(s, Plug(c, ct));
      Adopt(Plug(c, ct));
      RemovedInOrder(c, t, ct);
    }

    /** rb_erase, lines 265-267: the leftmost node of the right subtree. */
    method FindSuccessor(old': Node, ghost c: Ctx, ghost t: Tree) returns (node: Node, ghost d: Ctx, ghost st: Tree)
      requires Valid() && tree == Plug(c, t) && t.Br? && t.node == old' && t.right.Br?
      ensures Valid() && t.right == Plug(d, st) && LeftSpine(d) && st.Br? && st.node == node && st.left.Leaf?
    {
      ghost var up := InRight(t.color, t.left, old', c);
      Look(c, t);
      node := old'.right;
      d, st := Top, t.right;
      Look(up, st);
      while node.left != null
        invariant Valid() && t.right == Plug(d, st) && LeftSpine(d) && st.Br? && st.node == node
        invariant node.left == RootOf(st.left)
        decreases st
      {
        d, st := InLeft(st.color, st.node, st.right, d), st.left;
        node := node.left;
        PlugAppend(d, up, st);
        Look(Append(d, up), st);
      }
    }

    /** rb_erase, lines 269-293: the successor `node` leaves its place to its right child. */
    method DetachSuccessor(old': Node, node: Node, ghost s: set<Node>) returns (child: Node?, parent: Node)
      requires old' in s && node in s && node.parent != null && node.parent in s
      requires CanSucceed(Snapshot(s), old', node)
      modifies s
      ensures child == old(node.right) && parent == old(node.parent)
      ensures Detached(old(Snapshot(s)), Snapshot(s), old', node)
    {
      child := node.right;
      parent := node.parent;
      if child != null {
        child.parent := parent;
      }
      if node != old'.right {
        parent.left := child;
        node.right := old'.right;
        old'.right.parent := node;
      }
      if node != old'.right {
        parent.left := child;
        if child != null {
          child.parent := parent;
        }
        node.right := old'.right;
        old'.right.parent := node;
      } else {
        if child != null {
          child.parent := node;
        }
        parent := node.parent;
      }
    }

    /** rb_erase, lines 295-310: `node` takes the place of `old'`. */
    method TakePlace(old': Node, node: Node, ghost s: set<Node>)
      requires old' in s && node in s && node != old' && old'.left != null && old'.left in s - {old', node}
      requires old'.parent != null ==> old'.parent in s - {old', node, old'.left}
      modifies this`root, s
      ensures Taken(old(Snapshot(s)), Snapshot(s), old', node)
      ensures old'.left == null && old'.right == null
      ensures root == if old(old'.parent) == null then node else old(root)
    {
      node.parent, node.color := old'.parent, old'.color;
      node.left := old'.left;
      old'.left.parent := node;
      if old'.parent != null {
        if old'.parent.left == old' {
          old'.parent.left := node;
        } else {
          old'.parent.right := node;
        }
      } else {
        root := node;
      }
      old'.left := null;
      old'.right := null;
    }

    /** rb_erase, lines 269-310. */
    method SucceedLinks(old': Node, node: Node, ghost s: set<Node>) returns (child: Node?, parent: Node)
      requires old' in s && node in s && node.parent != null && node.parent in s
      requires CanSucceed(Snapshot(s), old', node)
      modifies this`root, s
      ensures child == old(node.right) && parent == old(node.parent)
      ensures old'.left == null && old'.right == null
      ensures root == if old(old'.parent) == null then node else old(root)
      ensures Moved(old(Snapshot(s)), Snapshot(s), old', node)
    {
      ghost var m := Snapshot(s);
      child, parent := DetachSuccessor(old', node, s);
      ghost var m1 := Snapshot(s);
      assert m1[old'] == m[old'];
      TakePlace(old', node, s);
      SucceededIsReplaced(m, m1, Snapshot(s), old', node);
    }

    lemma {:induction false} SuccessorLinks(c: Ctx, t: Tree, d: Ctx, st: Tree)
      requires Valid() && tree == Plug(c, t) && t.Br? && t.left.Br? && t.right == Plug(d, st)
      requires LeftSpine(d) && st.Br? && st.left.Leaf?
      ensures t.node in Nodes(tree) && st.node in Nodes(tree)
      ensures st.node.parent == (if d.Top? then t.node else d.node) && st.node.parent in Nodes(tree)
      ensures st.node.right == RootOf(st.right)
      ensures t.node.parent == HoleParent(c)
      ensures CanSucceed(Snapshot(Nodes(tree)), t.node, st.node)
    {
      var up := InRight(t.color, t.left, t.node, c);
      Look(c, t);
      Look(up, t.right);
      Look(InLeft(t.color, t.node, t.right, c), t.left);
      PlugAppend(d, up, st);
      Look(Append(d, up), st);
      NodesPlug(d, st);
      NodesPlug(c, t);
      RootOfPlug(d, st);
    }

    /** rb_erase with two children, up to the colour repair. */
    method Succeed(old': Node, node: Node, ghost c: Ctx, ghost t: Tree, ghost d: Ctx, ghost st: Tree)
      returns (child: Node?, parent: Node)
      requires Valid() && tree == Plug(c, t) && t.Br? && t.node == old' && t.left.Br? && t.right == Plug(d, st)
      requires LeftSpine(d) && st.Br? && st.left.Leaf? && st.node == node
      modifies this, Nodes(tree)
      ensures Valid() && tree == Plug(c, Succession(t, d, st)) && Nodes(tree) == old(Nodes(tree)) - {old'}
      ensures child == RootOf(st.right) && parent == (if d.Top? then old' else d.node)
      ensures old'.left == null && old'.right == null
    {
      ghost var s := Nodes(tree);
      ghost var m := Snapshot(s);
      SuccessorLinks(c, t, d, st);
      child, parent := SucceedLinks(old', node, s);
      SuccessionShown(m, s, c, t, d, st);
      Adopt(Plug(c, Succession(t, d, st)));
    }

    /** Two children, and the right one black with no child of its own. */
    ghost predicate Lopsided(node: Node)
      reads node, node.right
    {
      && node.left != null && node.right != null
      && node.right.color.Black? && node.right.left == null && node.right.right == null
    }

    lemma {:induction false} LookSuccessor(c: Ctx, t: Tree, d: Ctx, st: Tree)
      requires Valid() && tree == Plug(c, t) && t.Br? && t.left.Br? && t.right == Plug(d, st)
      requires LeftSpine(d) && st.Br? && st.left.Leaf?
      ensures st.node.color == st.color
      ensures Lopsided(t.node) <==> d.Top? && st.color.Black? && st.right.Leaf?
    {
      var up := InRight(t.color, t.left, t.node, c);
      Look(c, t);
      Look(up, t.right);
      PlugAppend(d, up, st);
      Look(Append(d, up), st);
      LeftSpineChild(d, st);
    }

    method EraseInner(node: Node, ghost c: Ctx, ghost t: Tree)
      returns (color: Color, child: Node?, parent: Node, ghost d: Ctx, ghost st: Tree)
      requires Valid() && tree == Plug(c, t) && t.Br? && t.node == node && t.left.Br? && t.right.Br?
      modifies this, Nodes(tree)
      ensures Valid() && Nodes(tree) == old(Nodes(tree)) - {node}
      ensures Removed(old(InOrder(tree)), InOrder(tree), node)
      ensures st.Br? && color == st.color && child == RootOf(st.right) && parent == (if d.Top? then node else d.node)
      ensures node.left == null && node.right == null
      ensures var hole := Append(d, InRight(t.color, t.left, st.node, c));
        && tree == Plug(hole, st.right)
        && (old(RedBlack(tree)) ==>
             if st.color.Black? then Short(hole, st.right) && (st.right.Br? ==> st.right.color.Red?)
             else RedBlack(tree))
      ensures old(Lopsided(node)) <==> d.Top? && st.color.Black? && st.right.Leaf?
    {
      var succ;
      succ, d, st := FindSuccessor(node, c, t);
      LookSuccessor(c, t, d, st);
      color := succ.color;
      if RedBlack(tree) { SucceededColors(c, t, d, st); }
      SucceededOrder(c, t, d, st);
      PlugAppend(d, InRight(t.color, t.left, st.node, c), st.right);
      child, parent := Succeed(node, succ, c, t, d, st);
    }

    /** rb_erase of a node with at most one child. */
    method EraseOuter(node: Node, ghost c: Ctx, ghost t: Tree)
      requires Valid() && tree == Plug(c, t) && t.Br? && t.node == node && (t.left.Leaf? || t.right.Leaf?)
      modifies this, Nodes(tree)
      ensures Valid() && Nodes(tree) == old(Nodes(tree)) - {node}
      ensures Removed(old(InOrder(tree)), InOrder(tree), node)
      ensures old(RedBlack(tree)) ==> RedBlack(tree)
    {
      Look(c, t);
      var child := if node.left == null then node.right else node.left;
      ghost var ct := if t.left.Leaf? then t.right else t.left;
      if RedBlack(tree) { SplicedColors(c, t, ct); }
      var parent, color := node.parent, node.color;
      Splice(node, child, c, t, ct);
      if color.Black? {
        EraseFixup(child, parent, c, ct, false);
      }
    }

    /** rb_erase */
    method Erase(node: Node)
      requires Valid() && node in Nodes(tree)
      modifies this, Nodes(tree)
      ensures Valid() && Nodes(tree) == old(Nodes(tree)) - {node}
      ensures Removed(old(InOrder(tree)), InOrder(tree), node)
      ensures old(RedBlack(tree)) ==> (RedBlack(tree) <==> !old(Lopsided(node)))
    {
      ghost var c, t := Locate(Top, tree, node);
      Look(c, t);
      if node.left == null || node.right == null {
        EraseOuter(node, c, t);
      } else {
        var color, child, parent;
        ghost var d, st;
        color, child, parent, d, st := EraseInner(node, c, t);
        if color.Black? {
          ghost var hole := Append(d, InRight(t.color, t.left, st.node, c));
          if d.Top? && Short(hole, st.right) { StaleColors(hole, st.right); }
          EraseFixup(child, parent, hole, st.right, d.Top?);
        }
      }
    }

    /** rb_search */
    method Search(cmp: Node -> int) returns (r: Node?)
      requires Valid()
      ensures r != null ==> r in InOrder(tree) && cmp(r) == 0
      ensures KeyOrdered(cmp, InOrder(tree)) && r == null ==> forall n :: n in InOrder(tree) ==> cmp(n) != 0
    {
      r := root;
      ghost var c, t := Top, tree;
      while r != null
        invariant Valid() && tree == Plug(c, t) && r == RootOf(t)
        invariant KeyOrdered(cmp, InOrder(tree)) ==> KeyInside(cmp, c)
        decreases t
      {
        Look(c, t);
        NodesInOrder(tree);
        if KeyOrdered(cmp, InOrder(tree)) { DescendKey(cmp, c, t); }
        var ret := cmp(r);
        if ret > 0 {
          r := r.right;
          c, t := InRight(t.color, t.left, t.node, c), t.right;
        } else if ret < 0 {
          r := r.left;
          c, t := InLeft(t.color, t.node, t.right, c), t.left;
        } else {
          return;
        }
      }
      InOrderPlug(c, Leaf);
    }

    /** Follow left links to the first node of a subtree. */
    method Leftmost(start: Node, ghost c0: Ctx, ghost t0: Tree) returns (n: Node)
      requires Valid() && tree == Plug(c0, t0) && t0.Br? && t0.node == start
      ensures Valid() && InOrder(t0) != [] && n == InOrder(t0)[0]
    {
      n := start;
      ghost var c, t := c0, t0;
      Look(c, t);
      while n.left != null
        invariant Valid() && tree == Plug(c, t) && t.Br? && t.node == n && n.left == RootOf(t.left)
        invariant InOrder(t0) != [] && InOrder(t) != [] && InOrder(t)[0] == InOrder(t0)[0]
        decreases t
      {
        assert InOrder(t.left) != [] by { assert t.left.Br?; }
        n := n.left;
        c, t := InLeft(t.color, t.node, t.right, c), t.left;
        Look(c, t);
      }
    }

    /** rb_first */
    method First() returns (n: Node?)
      requires Valid()
      ensures n == if InOrder(tree) == [] then null else InOrder(tree)[0]
    {
      n := root;
      if n != null {
        n := Leftmost(n, Top, tree);
      }
    }

    /** rb_next: wherever the node stands in the order, the element after it. */
    method Next(node: Node) returns (r: Node?)
      requires Valid() && node in Nodes(tree)
      ensures node in InOrder(tree)
      ensures forall k :: 0 <= k < |InOrder(tree)| && InOrder(tree)[k] == node ==>
                r == if k + 1 < |InOrder(tree)| then InOrder(tree)[k + 1] else null
    {
      r := FindNext(node);
      NodesInOrder(tree);
      forall k | 0 <= k < |InOrder(tree)| && InOrder(tree)[k] == node ensures FollowsFrom(InOrder(tree), k, node, r) {
        FollowsAlone(tree, node, r, k);
      }
    }

    method FindNext(node: Node) returns (r: Node?)
      requires Valid() && node in Nodes(tree)
      ensures Follows(InOrder(tree), node, r)
    {
      ghost var c, t := Locate(Top, tree, node);
      Look(c, t);
      PlaceInOrder(c, t);
      if node.right != null {
        r := Leftmost(node.right, InRight(t.color, t.left, node, c), t.right);
        return;
      }
      ghost var c0 := c;
      var n := node;
      while n.parent != null
        invariant Valid() && tree == Plug(c, t) && t.Br? && t.node == n && n.parent == HoleParent(c)
        invariant After(c) == After(c0)
        decreases c
      {
        Look(c, t);
        var parent := n.parent;
        if n == parent.left {
          r := parent;
          return;
        }
        n := parent;
        t := Br(c.color, c.left, c.node, t);
        c := c.up;
      }
      r := null;
    }
  }
}
