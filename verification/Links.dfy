/** Circular doubly linked lists (include/lib/list.h): list heads and the nodes
    embedded in other structures are all `list_head`s, told apart by their names.
    A node that was never linked is linked to itself, as INIT_LIST_HEAD leaves it. */
module Links {
  import opened Queues

  /** The `next` and `prev` fields of all nodes. */
  datatype Links<!P> = Links(next: map<P, P>, prev: map<P, P>)

  function Next<P>(l: Links<P>, n: P): P { if n in l.next then l.next[n] else n }

  function Prev<P>(l: Links<P>, n: P): P { if n in l.prev then l.prev[n] else n }

  // ----- Operations ----------------------------------------------------------

  /** INIT_LIST_HEAD */
  function InitNode<P>(l: Links<P>, n: P): Links<P> { Links(l.next[n := n], l.prev[n := n]) }

  /** __list_add */
  function Add<P>(l: Links<P>, n: P, prev: P, next: P): Links<P>
  {
    Links(l.next[prev := n][n := next], l.prev[next := n][n := prev])
  }

  function AddHead<P>(l: Links<P>, n: P, h: P): Links<P> { Add(l, n, h, Next(l, h)) }

  function AddTail<P>(l: Links<P>, n: P, h: P): Links<P> { Add(l, n, Prev(l, h), h) }

  /** list_del: the neighbours forget `n`, but `n` keeps pointing at them. */
  function Del<P>(l: Links<P>, n: P): Links<P>
  {
    Links(l.next[Prev(l, n) := Next(l, n)], l.prev[Next(l, n) := Prev(l, n)])
  }

  /** list_del_init: as list_del, and `n` is linked to itself. */
  function DelInit<P>(l: Links<P>, n: P): Links<P>
  {
    Links(Del(l, n).next[n := n], Del(l, n).prev[n := n])
  }

  /** list_empty */
  predicate Empty<P(==)>(l: Links<P>, h: P) { Next(l, h) == h }

  // ----- Rings ---------------------------------------------------------------

  /** `n` is on no list. */
  ghost predicate Self<P>(l: Links<P>, n: P) { Next(l, n) == n && Prev(l, n) == n }

  /** Stop `i` of a walk along the list: its head, its elements, its head again. */
  ghost function Stop<P>(h: P, q: seq<P>, i: int): P { if 0 < i <= |q| then q[i - 1] else h }

  ghost predicate ArcAt<P>(l: Links<P>, h: P, q: seq<P>, i: int)
  {
    Next(l, Stop(h, q, i)) == Stop(h, q, i + 1) && Prev(l, Stop(h, q, i + 1)) == Stop(h, q, i)
  }

  /** The list of head `h` has the elements `q`, in both directions. */
  ghost predicate Ring<P>(l: Links<P>, h: P, q: seq<P>)
  {
    h !in q && NoDup(q) && forall i {:trigger ArcAt(l, h, q, i)} :: 0 <= i <= |q| ==> ArcAt(l, h, q, i)
  }

  /** Links agree at a node. */
  ghost predicate SameAt<P>(l: Links<P>, l': Links<P>, n: P) { Next(l', n) == Next(l, n) && Prev(l', n) == Prev(l, n) }

  lemma {:induction false} EmptyRing<P>(l: Links<P>, h: P)
    requires Self(l, h)
    ensures Ring(l, h, [])
  {
    forall i | 0 <= i <= 0 ensures ArcAt(l, h, [], i) { }
  }

  /** A list whose nodes are left alone is left alone. */
  lemma {:induction false} RingFrame<P>(l: Links<P>, l': Links<P>, h: P, q: seq<P>)
    requires Ring(l, h, q) && SameAt(l, l', h) && forall i :: 0 <= i < |q| ==> SameAt(l, l', q[i])
    ensures Ring(l', h, q)
  {
    forall i | 0 <= i <= |q| ensures ArcAt(l', h, q, i) {
      assert ArcAt(l, h, q, i);
    }
  }

  /** The two ends of a list, as the head gives them. */
  lemma {:induction false} RingEnds<P>(l: Links<P>, h: P, q: seq<P>)
    requires Ring(l, h, q)
    ensures Empty(l, h) <==> q == []
    ensures q != [] ==> Next(l, h) == q[0] && Prev(l, h) == q[|q| - 1]
    ensures q == [] ==> Prev(l, h) == h
  {
    assert ArcAt(l, h, q, 0) && ArcAt(l, h, q, |q|);
  }

  lemma {:induction false} AddTailRing<P>(l: Links<P>, h: P, q: seq<P>, n: P)
    requires Ring(l, h, q) && n != h && n !in q
    ensures Ring(AddTail(l, n, h), h, q + [n])
  {
    RingEnds(l, h, q);
    var l', q' := AddTail(l, n, h), q + [n];
    forall i | 0 <= i <= |q'| ensures ArcAt(l', h, q', i) {
      if i < |q| { assert ArcAt(l, h, q, i); }
    }
  }

  lemma {:induction false} AddHeadRing<P>(l: Links<P>, h: P, q: seq<P>, n: P)
    requires Ring(l, h, q) && n != h && n !in q
    ensures Ring(AddHead(l, n, h), h, [n] + q)
  {
    RingEnds(l, h, q);
    var l', q' := AddHead(l, n, h), [n] + q;
    forall i | 0 <= i <= |q'| ensures ArcAt(l', h, q', i) {
      if i > 1 { assert ArcAt(l, h, q, i - 1); }
    }
  }

  /** Adding touches the new node, the head and elements of this list only. */
  lemma {:induction false} AddTailTouches<P>(l: Links<P>, h: P, q: seq<P>, n: P, m: P)
    requires Ring(l, h, q) && m != n && m != h && m !in q
    ensures SameAt(l, AddTail(l, n, h), m)
  {
    RingEnds(l, h, q);
  }

  lemma {:induction false} AddHeadTouches<P>(l: Links<P>, h: P, q: seq<P>, n: P, m: P)
    requires Ring(l, h, q) && m != n && m != h && m !in q
    ensures SameAt(l, AddHead(l, n, h), m)
  {
    RingEnds(l, h, q);
  }

  lemma {:induction false} NeighboursIn<P>(l: Links<P>, h: P, q: seq<P>, k: int)
    requires Ring(l, h, q) && 0 <= k < |q|
    ensures Prev(l, q[k]) == Stop(h, q, k) && Next(l, q[k]) == Stop(h, q, k + 2)
  {
    assert ArcAt(l, h, q, k) && ArcAt(l, h, q, k + 1);
  }

  /** A node on a list is not linked to itself. */
  lemma {:induction false} NotLoose<P>(l: Links<P>, h: P, q: seq<P>, k: int)
    requires Ring(l, h, q) && 0 <= k < |q|
    ensures !Empty(l, q[k])
  {
    NeighboursIn(l, h, q, k);
  }

  /** What list_del leaves: the list without the node, which still points into it. */
  lemma {:induction false} DelRing<P>(l: Links<P>, h: P, q: seq<P>, k: int)
    requires Ring(l, h, q) && 0 <= k < |q|
    ensures Ring(Del(l, q[k]), h, q[..k] + q[k + 1..])
    ensures Next(Del(l, q[k]), q[k]) != q[k]
  {
    NeighboursIn(l, h, q, k);
    var l', q' := Del(l, q[k]), q[..k] + q[k + 1..];
    forall i | 0 <= i <= |q'| ensures ArcAt(l', h, q', i) {
      assert ArcAt(l, h, q, if i <= k then i else i + 1);
      assert Stop(h, q', i) == Stop(h, q, if i <= k then i else i + 1);
      assert Stop(h, q', i + 1) == Stop(h, q, if i < k then i + 1 else i + 2);
    }
  }

  /** list_del_init leaves the list without the node, which is on no list. */
  lemma {:induction false} DelInitRing<P>(l: Links<P>, h: P, q: seq<P>, k: int)
    requires Ring(l, h, q) && 0 <= k < |q|
    ensures Ring(DelInit(l, q[k]), h, q[..k] + q[k + 1..]) && Self(DelInit(l, q[k]), q[k])
  {
    DelRing(l, h, q, k);
    var q' := q[..k] + q[k + 1..];
    assert forall i :: 0 <= i < |q'| ==> q'[i] != q[k];
    RingFrame(Del(l, q[k]), DelInit(l, q[k]), h, q');
  }

  /** Unlinking touches nodes of this list only. */
  lemma {:induction false} DelInitTouches<P>(l: Links<P>, h: P, q: seq<P>, k: int, m: P)
    requires Ring(l, h, q) && 0 <= k < |q| && m != h && m !in q
    ensures SameAt(l, DelInit(l, q[k]), m)
  {
    NeighboursIn(l, h, q, k);
  }

  lemma {:induction false} DelTouches<P>(l: Links<P>, h: P, q: seq<P>, k: int, m: P)
    requires Ring(l, h, q) && 0 <= k < |q| && m != h && m !in q
    ensures SameAt(l, Del(l, q[k]), m)
  {
    NeighboursIn(l, h, q, k);
  }

  /** Two lists without a common node. */
  ghost predicate Apart<P>(g: P, p: seq<P>, h: P, q: seq<P>)
  {
    g != h && g !in q && h !in p && forall i :: 0 <= i < |q| ==> q[i] !in p
  }

  /** list_del and list_add_head: the node moves to the front of another list. */
  lemma {:induction false} MoveRing<P>(l: Links<P>, g: P, p: seq<P>, k: int, h: P, q: seq<P>)
    requires Ring(l, g, p) && Ring(l, h, q) && Apart(g, p, h, q) && 0 <= k < |p|
    ensures var l' := AddHead(Del(l, p[k]), p[k], h); Ring(l', g, p[..k] + p[k + 1..]) && Ring(l', h, [p[k]] + q)
  {
    var n, l1, p' := p[k], Del(l, p[k]), p[..k] + p[k + 1..];
    DelRing(l, g, p, k);
    DelTouches(l, g, p, k, h);
    forall i | 0 <= i < |q| ensures SameAt(l, l1, q[i]) { DelTouches(l, g, p, k, q[i]); }
    RingFrame(l, l1, h, q);
    AddHeadRing(l1, h, q, n);
    AddHeadTouches(l1, h, q, n, g);
    forall i | 0 <= i < |p'| ensures SameAt(l1, AddHead(l1, n, h), p'[i]) {
      assert p'[i] in p && p'[i] !in q;
      AddHeadTouches(l1, h, q, n, p'[i]);
    }
    RingFrame(l1, AddHead(l1, n, h), g, p');
  }

  /** Such a move touches no node of a third list. */
  lemma {:induction false} MoveTouches<P>(l: Links<P>, g: P, p: seq<P>, k: int, h: P, q: seq<P>, m: P)
    requires Ring(l, g, p) && Ring(l, h, q) && Apart(g, p, h, q) && 0 <= k < |p|
    requires m != g && m !in p && m != h && m !in q
    ensures SameAt(l, AddHead(Del(l, p[k]), p[k], h), m)
  {
    DelTouches(l, g, p, k, m);
    DelTouches(l, g, p, k, h);
    forall i | 0 <= i < |q| ensures SameAt(l, Del(l, p[k]), q[i]) { DelTouches(l, g, p, k, q[i]); }
    RingFrame(l, Del(l, p[k]), h, q);
    AddHeadTouches(Del(l, p[k]), h, q, p[k], m);
  }

  /** Unlinking the first element. */
  lemma {:induction false} PopRing<P>(l: Links<P>, h: P, q: seq<P>)
    requires Ring(l, h, q) && q != []
    ensures Ring(DelInit(l, q[0]), h, q[1..]) && Self(DelInit(l, q[0]), q[0])
  {
    assert q[..0] + q[0 + 1..] == q[1..];
    DelInitRing(l, h, q, 0);
  }

  /** On a node linked to itself both forms of unlinking do nothing. */
  lemma {:induction false} DelSelf<P>(l: Links<P>, n: P, m: P)
    requires Self(l, n)
    ensures SameAt(l, Del(l, n), m) && SameAt(l, DelInit(l, n), m)
  {
  }

  // ----- The same lists backwards --------------------------------------------

  function Flip<P>(l: Links<P>): Links<P> { Links(l.prev, l.next) }

  /** Adding at the head is adding at the tail of the list read backwards. */
  lemma {:induction false} FlipAdd<P>(l: Links<P>, n: P, h: P)
    ensures Flip(AddHead(l, n, h)) == AddTail(Flip(l), n, h)
  {
  }

  lemma {:induction false} FlipDelInit<P>(l: Links<P>, n: P)
    ensures Flip(DelInit(l, n)) == DelInit(Flip(l), n)
  {
  }

  // ----- Lists of things by their embedded nodes -----------------------------

  /** The head of list `h`, or the node embedded in `t`. */
  datatype Node<H, T> = Head(h: H) | Item(t: T)

  ghost function Items<H, T>(q: seq<T>): (r: seq<Node<H, T>>)
    ensures |r| == |q| && forall i {:trigger r[i]} {:trigger q[i]} :: 0 <= i < |q| ==> r[i] == Item(q[i])
    decreases |q|
  {
    if q == [] then [] else Items(q[..|q| - 1]) + [Item(q[|q| - 1])]
  }

  lemma {:induction false} ItemsIn<H, T>(q: seq<T>, t: T)
    ensures Item(t) in Items<H, T>(q) <==> t in q
  {
    if t in q {
      var i :| 0 <= i < |q| && q[i] == t;
      assert Items<H, T>(q)[i] == Item(t);
    }
  }

  lemma {:induction false} ItemsPush<H, T>(q: seq<T>, t: T)
    ensures Items<H, T>(q + [t]) == Items<H, T>(q) + [Item(t)]
  {
    assert (q + [t])[..|q|] == q;
  }

  lemma {:induction false} ItemsFront<H, T>(t: T, q: seq<T>)
    ensures Items<H, T>([t] + q) == [Item(t)] + Items<H, T>(q)
  {
  }

  lemma {:induction false} ItemsCut<H, T>(q: seq<T>, k: int)
    requires 0 <= k < |q|
    ensures Items<H, T>(q[..k] + q[k + 1..]) == Items<H, T>(q)[..k] + Items<H, T>(q)[k + 1..]
  {
  }

  lemma {:induction false} ItemsTail<H, T>(q: seq<T>)
    requires q != []
    ensures Items<H, T>(q)[0] == Item(q[0]) && Items<H, T>(q[1..]) == Items<H, T>(q)[1..]
  {
  }
}
