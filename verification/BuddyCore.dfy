// The buddy system as a tiling of the boot-time chunks by aligned power-of-two
// blocks (mm/mm.c). `lists[l]` is the free list of level `l`; `live` maps the
// head of every other block to its level.
module BuddyCore {
  import opened Bits
  import opened Queues

  type Lists = seq<seq<nat>>

  /** Levels 0..top; the boot chunks are the level-`top` blocks numbered lo..hi-1. */
  datatype Zone = Zone(top: nat, lo: nat, hi: nat)

  ghost predicate InZone(z: Zone, x: nat) { z.lo <= Idx(x, z.top) < z.hi }

  ghost predicate IsFree(lists: Lists, p: nat, l: nat) { l < |lists| && p in lists[l] }

  ghost predicate IsLive(live: map<nat, nat>, p: nat, l: nat) { p in live && live[p] == l }

  ghost predicate Block(lists: Lists, live: map<nat, nat>, p: nat, l: nat)
  {
    IsFree(lists, p, l) || IsLive(live, p, l)
  }

  /** Blocks are aligned and lie in the boot chunks; a head is on one list at most. */
  ghost predicate Placed(z: Zone, lists: Lists, live: map<nat, nat>)
  {
    && |lists| == z.top + 1
    && (forall l: nat :: 0 <= l < |lists| ==> NoDup(lists[l]))
    && (forall p: nat, l: nat :: Block(lists, live, p, l) ==> l <= z.top && Aligned(p, l) && InZone(z, p))
    && (forall p: nat, l: nat :: IsFree(lists, p, l) ==> p !in live)
  }

  /** No page is in two blocks. */
  ghost predicate Apart(lists: Lists, live: map<nat, nat>)
  {
    forall x: nat, l: nat, j: nat :: Block(lists, live, Head(x, l), l) && Block(lists, live, Head(x, j), j) ==> l == j
  }

  /** Page `x` is in a block. */
  ghost predicate Covered(z: Zone, lists: Lists, live: map<nat, nat>, x: nat)
  {
    exists l: nat :: l <= z.top && Block(lists, live, Head(x, l), l)
  }

  ghost predicate AllCovered(z: Zone, lists: Lists, live: map<nat, nat>)
  {
    forall x: nat {:trigger Covered(z, lists, live, x)} :: InZone(z, x) ==> Covered(z, lists, live, x)
  }

  ghost predicate SiblingsFree(lists: Lists, p: nat, l: nat) { IsFree(lists, p, l) && IsFree(lists, Flip(p, l), l) }

  /** Below the top level no two sibling blocks are both free. */
  ghost predicate Merged(z: Zone, lists: Lists)
  {
    forall p: nat, l: nat :: l < z.top ==> !SiblingsFree(lists, p, l)
  }

  /** Free and live blocks tile the boot chunks exactly, and free blocks are merged. */
  ghost predicate Tiling(z: Zone, lists: Lists, live: map<nat, nat>)
  {
    Placed(z, lists, live) && Apart(lists, live) && AllCovered(z, lists, live) && Merged(z, lists)
  }

  /** Two blocks that share a page are the same block. */
  lemma {:induction false} SharedPage(z: Zone, lists: Lists, live: map<nat, nat>, p: nat, l: nat, q: nat, j: nat)
    requires Tiling(z, lists, live) && Block(lists, live, p, l) && Block(lists, live, q, j) && l <= j && Idx(p, j) == Idx(q, j)
    ensures p == q && l == j
  {
    HeadProps(p, l);
    HeadProps(p, j);
    HeadUnique(Head(p, j), q, j);
    assert Block(lists, live, Head(p, l), l) && Block(lists, live, Head(p, j), j);
  }

  /** Blocks by page: `Block` at `Head(x, l)` means the block holds `x`. */
  lemma {:induction false} HoldsPage(z: Zone, lists: Lists, live: map<nat, nat>, p: nat, l: nat, x: nat)
    requires Placed(z, lists, live) && Block(lists, live, p, l)
    ensures Head(x, l) == p <==> Idx(x, l) == Idx(p, l)
  {
    HeadProps(x, l);
    if Idx(x, l) == Idx(p, l) { HeadUnique(Head(x, l), p, l); }
  }

  /** A change of representation that keeps the set of blocks keeps the tiling. */
  lemma {:induction false} SameBlocks(z: Zone, lists: Lists, live: map<nat, nat>, lists': Lists, live': map<nat, nat>)
    requires Apart(lists, live) && AllCovered(z, lists, live)
    requires forall p: nat, l: nat :: Block(lists', live', p, l) <==> Block(lists, live, p, l)
    ensures Apart(lists', live') && AllCovered(z, lists', live')
  {
    forall x: nat | InZone(z, x) ensures Covered(z, lists', live', x) {
      assert Covered(z, lists, live, x);
      var l: nat :| l <= z.top && Block(lists, live, Head(x, l), l);
      assert Block(lists', live', Head(x, l), l);
    }
  }

  // ----- buddy_alloc: take a block off its list -----

  lemma {:induction false} TakeKeeps(z: Zone, lists: Lists, live: map<nat, nat>, i: nat)
    requires Tiling(z, lists, live) && i <= z.top && lists[i] != []
    ensures var p := lists[i][0];
      p !in live && Tiling(z, lists[i := lists[i][1..]], live[p := i])
  {
    var p := lists[i][0];
    var (lists', live') := (lists[i := lists[i][1..]], live[p := i]);
    assert IsFree(lists, p, i);
    forall q: nat, l: nat ensures IsFree(lists', q, l) <==> IsFree(lists, q, l) && !(q == p && l == i) {
      assert lists[i] == [p] + lists[i][1..];
    }
    forall q: nat, l: nat | IsFree(lists, q, l) && q == p ensures l == i {
      SharedAt(z, lists, live, p, l, i);
    }
    forall q: nat, l: nat ensures Block(lists', live', q, l) <==> Block(lists, live, q, l) {
      if q == p { assert IsLive(live', p, i); }
    }
    SameBlocks(z, lists, live, lists', live');
    forall q: nat, l: nat | l < z.top ensures !SiblingsFree(lists', q, l) { assert !SiblingsFree(lists, q, l); }
  }

  /** A head carries one block. */
  lemma {:induction false} SharedAt(z: Zone, lists: Lists, live: map<nat, nat>, p: nat, l: nat, j: nat)
    requires Tiling(z, lists, live) && Block(lists, live, p, l) && Block(lists, live, p, j)
    ensures l == j
  {
    if l <= j { SharedPage(z, lists, live, p, l, p, j); } else { SharedPage(z, lists, live, p, j, p, l); }
  }

  // ----- buddy_free: put a block on its list -----

  lemma {:induction false} PutKeeps(z: Zone, lists: Lists, live: map<nat, nat>, p: nat, l: nat)
    requires Tiling(z, lists, live) && IsLive(live, p, l) && l <= z.top
    requires l < z.top ==> !IsFree(lists, Flip(p, l), l)
    ensures Tiling(z, lists[l := [p] + lists[l]], live - {p})
  {
    assert Block(lists, live, p, l);
    var (lists', live') := (lists[l := [p] + lists[l]], live - {p});
    forall q: nat, j: nat ensures IsFree(lists', q, j) <==> IsFree(lists, q, j) || (q == p && j == l) {
    }
    forall q: nat, j: nat ensures Block(lists', live', q, j) <==> Block(lists, live, q, j) {
    }
    SameBlocks(z, lists, live, lists', live');
    assert NoDup(lists'[l]) by {
      assert !IsFree(lists, p, l);
      PushNoDup<nat>(p, lists[l]);
    }
    assert Placed(z, lists', live');
    assert Merged(z, lists') by { PutMerged(z, lists, p, l); }
  }

  lemma {:induction false} PutMerged(z: Zone, lists: Lists, p: nat, l: nat)
    requires l < |lists| && Merged(z, lists) && (l < z.top ==> !IsFree(lists, Flip(p, l), l))
    ensures Merged(z, lists[l := [p] + lists[l]])
  {
    var lists' := lists[l := [p] + lists[l]];
    forall q: nat, j: nat | j < z.top ensures !SiblingsFree(lists', q, j) {
      FlipTwice(q, j);
      FlipTwice(p, l);
      assert !SiblingsFree(lists, q, j);
    }
  }

  // ----- buddy_alloc: split a block in two -----

  /** The only block inside or around block (p, l) is itself. */
  lemma {:induction false} AloneAt(z: Zone, lists: Lists, live: map<nat, nat>, p: nat, l: nat, q: nat, m: nat)
    requires Tiling(z, lists, live) && Block(lists, live, p, l) && Block(lists, live, q, m) && Idx(p, l) == Idx(q, l)
    ensures q == p && m == l
  {
    if m <= l {
      SharedPage(z, lists, live, q, m, p, l);
    } else {
      IdxUp(p, q, l, m);
      SharedPage(z, lists, live, p, l, q, m);
    }
  }

  /** The halves of an aligned block. */
  lemma {:induction false} Halves(z: Zone, p: nat, k: nat)
    requires Aligned(p, k + 1) && InZone(z, p) && k < z.top
    ensures var b := Flip(p, k);
      && b == p + Pow2(k) && Aligned(p, k) && Aligned(b, k) && InZone(z, b) && Flip(b, k) == p
      && Idx(b, k + 1) == Idx(p, k + 1)
  {
    var b := Flip(p, k);
    AlignedStep(p, k);
    FlipProps(p, k);
    FlipTwice(p, k);
    IdxUp(b, p, k + 1, z.top);
  }

  lemma {:induction false} HalvesPage(p: nat, k: nat, x: nat)
    requires Aligned(p, k + 1)
    ensures Head(x, k + 1) == p <==> Head(x, k) == p || Head(x, k) == Flip(p, k)
  {
    var b := Flip(p, k);
    AlignedStep(p, k);
    FlipProps(p, k);
    FlipTwice(p, k);
    HeadProps(x, k);
    HeadProps(x, k + 1);
    if Head(x, k + 1) == p {
      SameOrFlip(x, p, k);
      HeadUnique(Head(x, k), if Idx(x, k) == Idx(p, k) then p else b, k);
    } else if Head(x, k) == p {
      IdxUp(x, p, k, k + 1);
      HeadUnique(Head(x, k + 1), p, k + 1);
    } else if Head(x, k) == b {
      IdxUp(x, b, k, k + 1);
      HeadUnique(Head(x, k + 1), p, k + 1);
    }
  }

  /** One state has block (p, k+1) where the other has its two halves. */
  ghost predicate Halved(lists: Lists, live: map<nat, nat>, lists': Lists, live': map<nat, nat>, p: nat, k: nat)
  {
    forall q: nat, l: nat ::
      Block(lists', live', q, l) <==>
      (Block(lists, live, q, l) && !(q == p && l == k + 1)) || (l == k && (q == p || q == Flip(p, k)))
  }

  /** In the halved state, page `x` is in a new half or still in its old block. */
  lemma {:induction false} HalvedPage(lists: Lists, live: map<nat, nat>, lists': Lists, live': map<nat, nat>, p: nat, k: nat, x: nat, l: nat)
    requires Apart(lists, live) && Aligned(p, k + 1)
    requires Block(lists, live, p, k + 1) && Halved(lists, live, lists', live', p, k)
    ensures Block(lists', live', Head(x, l), l) <==>
      if Head(x, k + 1) == p then l == k else Block(lists, live, Head(x, l), l)
  {
    HalvesPage(p, k, x);
    if Head(x, k + 1) == p {
      assert Block(lists, live, Head(x, k + 1), k + 1);
      assert Block(lists, live, Head(x, l), l) ==> l == k + 1;
    }
  }

  lemma {:induction false} HalvedTiles(z: Zone, lists: Lists, live: map<nat, nat>, lists': Lists, live': map<nat, nat>, p: nat, k: nat)
    requires Apart(lists, live) && AllCovered(z, lists, live) && Aligned(p, k + 1)
    requires Block(lists, live, p, k + 1) && Halved(lists, live, lists', live', p, k)
    ensures Apart(lists', live') && AllCovered(z, lists', live')
  {
    forall x: nat, l: nat, j: nat | Block(lists', live', Head(x, l), l) && Block(lists', live', Head(x, j), j)
      ensures l == j
    {
      HalvedPage(lists, live, lists', live', p, k, x, l);
      HalvedPage(lists, live, lists', live', p, k, x, j);
    }
    forall x: nat | InZone(z, x) ensures Covered(z, lists', live', x) {
      assert Covered(z, lists, live, x);
      var l: nat :| l <= z.top && Block(lists, live, Head(x, l), l);
      HalvedPage(lists, live, lists', live', p, k, x, l);
      HalvedPage(lists, live, lists', live', p, k, x, k);
    }
  }

  lemma {:induction false} SplitKeeps(z: Zone, lists: Lists, live: map<nat, nat>, p: nat, k: nat)
    requires Tiling(z, lists, live) && IsLive(live, p, k + 1) && k < z.top
    ensures var b := Flip(p, k);
      b != p && b !in live && Tiling(z, lists[k := [b] + lists[k]], live[p := k])
  {
    assert Block(lists, live, p, k + 1);
    var b := Flip(p, k);
    var (lists', live') := (lists[k := [b] + lists[k]], live[p := k]);
    Halves(z, p, k);
    forall m: nat ensures !Block(lists, live, b, m) {
      if Block(lists, live, b, m) { AloneAt(z, lists, live, p, k + 1, b, m); }
    }
    forall q: nat, l: nat ensures IsFree(lists', q, l) <==> IsFree(lists, q, l) || (q == b && l == k) {
    }
    assert b in live ==> Block(lists, live, b, live[b]);
    assert Halved(lists, live, lists', live', p, k) by { SplitHalved(lists, live, p, k); }
    HalvedTiles(z, lists, live, lists', live', p, k);
    assert IsFree(lists, b, k) ==> Block(lists, live, b, k);
    PushNoDup<nat>(b, lists[k]);
    PutMerged(z, lists, b, k);
  }

  lemma {:induction false} SplitHalved(lists: Lists, live: map<nat, nat>, p: nat, k: nat)
    requires k < |lists| && IsLive(live, p, k + 1) && (forall l: nat :: !IsFree(lists, p, l))
    ensures Halved(lists, live, lists[k := [Flip(p, k)] + lists[k]], live[p := k], p, k)
  {
    var (b, lists', live') := (Flip(p, k), lists[k := [Flip(p, k)] + lists[k]], live[p := k]);
    forall q: nat, l: nat ensures IsFree(lists', q, l) <==> IsFree(lists, q, l) || (q == b && l == k) {
      if l == k { assert lists'[k] == [b] + lists[k]; }
    }
  }

  // ----- buddy_free: join a block and its free sibling -----

  /** In the joined state, page `x` is in the new block or still in its old block. */
  lemma {:induction false} JoinedPage(lists: Lists, live: map<nat, nat>, lists': Lists, live': map<nat, nat>, q: nat, k: nat, x: nat, l: nat)
    requires Apart(lists, live) && Aligned(q, k + 1)
    requires Block(lists, live, q, k) && Block(lists, live, Flip(q, k), k)
    requires Halved(lists', live', lists, live, q, k) && Block(lists', live', q, k + 1)
    requires !Block(lists', live', q, k) && !Block(lists', live', Flip(q, k), k)
    ensures Block(lists', live', Head(x, l), l) <==>
      if Head(x, k + 1) == q then l == k + 1 else Block(lists, live, Head(x, l), l)
  {
    HalvesPage(q, k, x);
    if Head(x, k + 1) == q {
      assert Block(lists, live, Head(x, k), k);
      assert Block(lists, live, Head(x, l), l) ==> l == k;
    }
  }

  lemma {:induction false} JoinedTiles(z: Zone, lists: Lists, live: map<nat, nat>, lists': Lists, live': map<nat, nat>, q: nat, k: nat)
    requires Apart(lists, live) && AllCovered(z, lists, live) && Aligned(q, k + 1) && k < z.top
    requires Block(lists, live, q, k) && Block(lists, live, Flip(q, k), k)
    requires Halved(lists', live', lists, live, q, k) && Block(lists', live', q, k + 1)
    requires !Block(lists', live', q, k) && !Block(lists', live', Flip(q, k), k)
    ensures Apart(lists', live') && AllCovered(z, lists', live')
  {
    forall x: nat, l: nat, j: nat | Block(lists', live', Head(x, l), l) && Block(lists', live', Head(x, j), j)
      ensures l == j
    {
      JoinedPage(lists, live, lists', live', q, k, x, l);
      JoinedPage(lists, live, lists', live', q, k, x, j);
    }
    forall x: nat | InZone(z, x) ensures Covered(z, lists', live', x) {
      assert Covered(z, lists, live, x);
      var l: nat :| l <= z.top && Block(lists, live, Head(x, l), l);
      JoinedPage(lists, live, lists', live', q, k, x, l);
      JoinedPage(lists, live, lists', live', q, k, x, k + 1);
    }
  }

  /** The lower of two siblings is aligned one level up. */
  lemma {:induction false} LowerSibling(p: nat, k: nat)
    requires Aligned(p, k)
    ensures var (b, q) := (Flip(p, k), if p < Flip(p, k) then p else Flip(p, k));
      && Aligned(q, k + 1) && Flip(q, k) == (if q == p then b else p) && Aligned(b, k) && b != p
      && Idx(q, k + 1) == Idx(p, k + 1)
  {
    FlipProps(p, k);
    FlipTwice(p, k);
    AlignedStep(p, k);
    AlignedStep(Flip(p, k), k);
  }

  lemma {:induction false} JoinKeeps(z: Zone, lists: Lists, live: map<nat, nat>, p: nat, k: nat)
    requires Tiling(z, lists, live) && IsLive(live, p, k) && k < z.top && IsFree(lists, Flip(p, k), k)
    ensures var (b, q) := (Flip(p, k), if p < Flip(p, k) then p else Flip(p, k));
      Tiling(z, lists[k := Without<nat>(lists[k], b)], (live - {p})[q := k + 1])
  {
    var (b, q) := (Flip(p, k), if p < Flip(p, k) then p else Flip(p, k));
    var (lists', live') := (lists[k := Without<nat>(lists[k], b)], (live - {p})[q := k + 1]);
    assert Aligned(p, k) by { assert Block(lists, live, p, k); }
    JoinAlone(z, lists, live, p, k);
    assert Apart(lists', live') && AllCovered(z, lists', live') by { JoinTiles(z, lists, live, p, k); }
    assert Placed(z, lists', live') by { JoinPlaced(z, lists, live, p, k); }
    assert Merged(z, lists') by { JoinMerged(z, lists, b, k); }
  }

  lemma {:induction false} JoinTiles(z: Zone, lists: Lists, live: map<nat, nat>, p: nat, k: nat)
    requires Apart(lists, live) && AllCovered(z, lists, live) && Aligned(p, k) && k < z.top && k < |lists| && NoDup(lists[k])
    requires IsLive(live, p, k) && IsFree(lists, Flip(p, k), k) && Flip(p, k) !in live
    requires forall l: nat :: Block(lists, live, p, l) || Block(lists, live, Flip(p, k), l) ==> l == k
    requires forall l: nat :: !IsFree(lists, p, l)
    ensures var (b, q) := (Flip(p, k), if p < Flip(p, k) then p else Flip(p, k));
      var (lists', live') := (lists[k := Without<nat>(lists[k], b)], (live - {p})[q := k + 1]);
      Apart(lists', live') && AllCovered(z, lists', live')
  {
    var (b, q) := (Flip(p, k), if p < Flip(p, k) then p else Flip(p, k));
    LowerSibling(p, k);
    FlipTwice(p, k);
    JoinBlocks(lists, live, p, k);
    assert Block(lists, live, p, k) && Block(lists, live, b, k);
    JoinedTiles(z, lists, live, lists[k := Without<nat>(lists[k], b)], (live - {p})[q := k + 1], q, k);
  }

  lemma {:induction false} JoinAlone(z: Zone, lists: Lists, live: map<nat, nat>, p: nat, k: nat)
    requires Tiling(z, lists, live) && IsLive(live, p, k) && k < z.top && IsFree(lists, Flip(p, k), k)
    ensures forall l: nat :: Block(lists, live, p, l) || Block(lists, live, Flip(p, k), l) ==> l == k
    ensures Flip(p, k) !in live && forall l: nat :: !IsFree(lists, p, l)
  {
    assert Block(lists, live, p, k) && Block(lists, live, Flip(p, k), k);
    forall l: nat ensures Block(lists, live, p, l) || Block(lists, live, Flip(p, k), l) ==> l == k {
      if Block(lists, live, p, l) { SharedAt(z, lists, live, p, l, k); }
      if Block(lists, live, Flip(p, k), l) { SharedAt(z, lists, live, Flip(p, k), l, k); }
    }
  }

  lemma {:induction false} JoinMerged(z: Zone, lists: Lists, b: nat, k: nat)
    requires k < |lists| && NoDup(lists[k]) && Merged(z, lists)
    ensures Merged(z, lists[k := Without<nat>(lists[k], b)])
  {
    Unlinked<nat>(lists[k], b);
    var lists' := lists[k := Without<nat>(lists[k], b)];
    forall r: nat, l: nat | l < z.top ensures !SiblingsFree(lists', r, l) {
      assert !SiblingsFree(lists, r, l);
    }
  }

  lemma {:induction false} JoinBlocks(lists: Lists, live: map<nat, nat>, p: nat, k: nat)
    requires k < |lists| && NoDup(lists[k]) && IsLive(live, p, k) && IsFree(lists, Flip(p, k), k) && Flip(p, k) !in live
    requires forall l: nat :: Block(lists, live, p, l) || Block(lists, live, Flip(p, k), l) ==> l == k
    requires forall l: nat :: !IsFree(lists, p, l)
    requires Flip(Flip(p, k), k) == p && Flip(p, k) != p
    ensures var (b, q) := (Flip(p, k), if p < Flip(p, k) then p else Flip(p, k));
      var (lists', live') := (lists[k := Without<nat>(lists[k], b)], (live - {p})[q := k + 1]);
      && Halved(lists', live', lists, live, q, k) && Block(lists', live', q, k + 1)
      && !Block(lists', live', q, k) && !Block(lists', live', Flip(q, k), k)
  {
    var (b, q) := (Flip(p, k), if p < Flip(p, k) then p else Flip(p, k));
    var (lists', live') := (lists[k := Without<nat>(lists[k], b)], (live - {p})[q := k + 1]);
    Unlinked<nat>(lists[k], b);
    forall r: nat, l: nat ensures IsFree(lists', r, l) <==> IsFree(lists, r, l) && !(r == b && l == k) {
    }
    assert IsLive(live', q, k + 1);
    forall r: nat, l: nat
      ensures Block(lists, live, r, l) <==> (Block(lists', live', r, l) && !(r == q && l == k + 1)) || (l == k && (r == p || r == b))
    {
      assert Block(lists, live, p, k) && Block(lists, live, b, k);
    }
  }

  lemma {:induction false} JoinPlaced(z: Zone, lists: Lists, live: map<nat, nat>, p: nat, k: nat)
    requires Placed(z, lists, live) && IsLive(live, p, k) && k < z.top && IsFree(lists, Flip(p, k), k)
    requires forall l: nat :: Block(lists, live, Flip(p, k), l) ==> l == k
    ensures var q := if p < Flip(p, k) then p else Flip(p, k);
      Placed(z, lists[k := Without<nat>(lists[k], Flip(p, k))], (live - {p})[q := k + 1])
  {
    var (b, q) := (Flip(p, k), if p < Flip(p, k) then p else Flip(p, k));
    var (lists', live') := (lists[k := Without<nat>(lists[k], b)], (live - {p})[q := k + 1]);
    assert Block(lists, live, p, k) && Block(lists, live, b, k);
    LowerSibling(p, k);
    Unlinked<nat>(lists[k], b);
    forall r: nat, l: nat ensures IsFree(lists', r, l) <==> IsFree(lists, r, l) && !(r == b && l == k) {
    }
    forall r: nat, l: nat | Block(lists', live', r, l) ensures l <= z.top && Aligned(r, l) && InZone(z, r) {
      if r != q { assert Block(lists, live, r, l); }
    }
    forall r: nat, l: nat | IsFree(lists', r, l) ensures r !in live' {
      assert Block(lists, live, r, l);
    }
  }

  // ----- page descriptors -----

  /** The fields of `struct page` that the buddy system uses. */
  datatype Page = Page(order: nat, refcnt: nat)

  /** Reference counts mark exactly the live heads outside `hand`, and block
      heads carry their level. Nothing is said of `order` on other pages. */
  ghost predicate Described(z: Zone, pages: seq<Page>, lists: Lists, live: map<nat, nat>, hand: set<nat>)
  {
    && (forall x: nat :: InZone(z, x) ==> x < |pages| && (pages[x].refcnt > 0 <==> x in live && x !in hand))
    && (forall p: nat, l: nat :: IsFree(lists, p, l) ==> p < |pages| && pages[p].order == l)
    && (forall p: nat :: p in live && p !in hand ==> p < |pages| && pages[p].order == live[p])
  }

  /** The alignment argument: the sibling page of a block is itself the head of a block. */
  lemma {:induction false} SiblingHeads(z: Zone, lists: Lists, live: map<nat, nat>, p: nat, l: nat) returns (m: nat)
    requires Tiling(z, lists, live) && IsLive(live, p, l) && l < z.top
    ensures InZone(z, Flip(p, l)) && Flip(p, l) != p && Block(lists, live, Flip(p, l), m)
  {
    var b := Flip(p, l);
    assert Block(lists, live, p, l);
    LowerSibling(p, l);
    FlipTwice(p, l);
    IdxUp(b, p, l + 1, z.top);
    assert Covered(z, lists, live, b);
    m :| m <= z.top && Block(lists, live, Head(b, m), m);
    HeadProps(b, m);
    if m <= l {
      AlignedDown(b, l, m);
    } else {
      IdxUp(b, p, l + 1, m);
      AloneAt(z, lists, live, Head(b, m), m, p, l);
    }
  }

  /** Soundness and completeness of the merge test in buddy_free: for a block
      (p, l) in hand, the sibling page looks free at level `l` exactly when the
      sibling block is on the free list of level `l`, stale `order` fields or not. */
  lemma {:induction false} MergeTest(z: Zone, pages: seq<Page>, lists: Lists, live: map<nat, nat>, p: nat, l: nat)
    requires Tiling(z, lists, live) && IsLive(live, p, l) && l < z.top && Described(z, pages, lists, live, {p})
    ensures var b := Flip(p, l);
      && b < |pages|
      && (pages[b].refcnt == 0 && pages[b].order == l <==> IsFree(lists, b, l))
  {
    var b := Flip(p, l);
    var m := SiblingHeads(z, lists, live, p, l);
    if IsFree(lists, b, l) {
      assert Block(lists, live, b, l);
    }
  }

  // ----- free count -----

  /** Pages on the free lists of the levels below `n`. */
  ghost function Total(lists: Lists, n: nat): nat
    requires n <= |lists|
  {
    if n == 0 then 0 else Total(lists, n - 1) + |lists[n - 1]| * Pow2(n - 1)
  }

  lemma {:induction false} TotalUpdate(lists: Lists, i: nat, s: seq<nat>, n: nat)
    requires i < |lists| && n <= |lists|
    ensures Total(lists[i := s], n) == Total(lists, n) + if i < n then (|s| - |lists[i]|) * Pow2(i) else 0
  {
    if n > 0 {
      TotalUpdate(lists, i, s, n - 1);
      if i == n - 1 { Spread(|s|, |lists[i]|, Pow2(i)); }
    }
  }

  lemma {:induction false} Spread(a: nat, b: nat, p: nat)
    ensures a * p == b * p + (a - b) * p
  {
  }

  /** One block more or one block less on level `i`. */
  lemma {:induction false} TotalOne(lists: Lists, i: nat, s: seq<nat>, n: nat)
    requires i < n <= |lists|
    ensures |s| == |lists[i]| + 1 ==> Total(lists[i := s], n) == Total(lists, n) + Pow2(i)
    ensures |s| == |lists[i]| - 1 ==> Total(lists[i := s], n) == Total(lists, n) - Pow2(i)
  {
    TotalUpdate(lists, i, s, n);
    TimesUnit(|s| - |lists[i]|, Pow2(i));
  }

  lemma {:induction false} TimesUnit(d: int, p: int)
    ensures d == 1 ==> d * p == p
    ensures d == -1 ==> d * p == -p
  {
  }

  // ----- canonical form -----

  /** Page `x` is in a listed block of a level below `n`. */
  ghost predicate FreeBelow(lists: Lists, n: nat, x: nat)
  {
    exists l: nat :: l < n && IsFree(lists, Head(x, l), l)
  }

  ghost predicate FreePage(z: Zone, lists: Lists, x: nat) { FreeBelow(lists, z.top + 1, x) }

  /** Every page of the block (p, l) is free. */
  ghost predicate AllFree(z: Zone, lists: Lists, p: nat, l: nat)
  {
    forall x: nat {:trigger FreePage(z, lists, x)} :: Idx(x, l) == Idx(p, l) ==> FreePage(z, lists, x)
  }

  ghost predicate SameFree(z: Zone, lists: Lists, lists': Lists)
  {
    forall x: nat :: FreePage(z, lists, x) <==> FreePage(z, lists', x)
  }

  lemma {:induction false} AllFreeToo(z: Zone, lists: Lists, lists': Lists, p: nat, l: nat)
    requires AllFree(z, lists, p, l) && SameFree(z, lists, lists')
    ensures AllFree(z, lists', p, l)
  {
    forall x: nat | Idx(x, l) == Idx(p, l) ensures FreePage(z, lists', x) {
      assert FreePage(z, lists, x);
    }
  }

  /** A wholly free aligned range lies inside one listed block. */
  lemma {:induction false} FreeRangeInBlock(z: Zone, lists: Lists, live: map<nat, nat>, p: nat, l: nat) returns (m: nat)
    requires Tiling(z, lists, live) && Aligned(p, l) && l <= z.top && AllFree(z, lists, p, l)
    ensures l <= m <= z.top && IsFree(lists, Head(p, m), m)
    decreases l
  {
    if l == 0 {
      assert FreePage(z, lists, p);
      m :| m <= z.top && IsFree(lists, Head(p, m), m);
    } else {
      var k := l - 1;
      var b := Flip(p, k);
      AlignedStep(p, k);
      FlipProps(p, k);
      FlipTwice(p, k);
      forall x: nat | Idx(x, k) == Idx(p, k) ensures FreePage(z, lists, x) { IdxUp(x, p, k, l); }
      forall x: nat | Idx(x, k) == Idx(b, k) ensures FreePage(z, lists, x) { IdxUp(x, b, k, l); }
      m := FreeRangeInBlock(z, lists, live, p, k);
      var m' := FreeRangeInBlock(z, lists, live, b, k);
      HeadProps(p, k);
      HeadProps(b, k);
      if m == k && m' != k { m := InSameBlock(z, lists, live, b, p, l, m'); }
      assert !SiblingsFree(lists, p, k);
    }
  }

  lemma {:induction false} InSameBlock(z: Zone, lists: Lists, live: map<nat, nat>, b: nat, p: nat, l: nat, m: nat) returns (r: nat)
    requires Idx(b, l) == Idx(p, l) && l <= m <= z.top && IsFree(lists, Head(b, m), m)
    ensures r == m && IsFree(lists, Head(p, r), r)
  {
    r := m;
    IdxUp(b, p, l, m);
    HeadProps(b, m);
    HeadProps(p, m);
    HeadUnique(Head(b, m), Head(p, m), m);
  }

  /** Two states with the same free pages list the same blocks at every level. */
  lemma {:induction false} Canonical(z: Zone, lists: Lists, live: map<nat, nat>, lists': Lists, live': map<nat, nat>, p: nat, l: nat)
    requires Tiling(z, lists, live) && Tiling(z, lists', live')
    requires SameFree(z, lists, lists')
    ensures IsFree(lists, p, l) <==> IsFree(lists', p, l)
  {
    if IsFree(lists, p, l) { CanonicalHalf(z, lists, live, lists', live', p, l); }
    assert SameFree(z, lists', lists);
    if IsFree(lists', p, l) { CanonicalHalf(z, lists', live', lists, live, p, l); }
  }

  lemma {:induction false} CanonicalHalf(z: Zone, lists: Lists, live: map<nat, nat>, lists': Lists, live': map<nat, nat>, p: nat, l: nat)
    requires Tiling(z, lists, live) && Tiling(z, lists', live')
    requires SameFree(z, lists, lists')
    requires IsFree(lists, p, l)
    ensures IsFree(lists', p, l)
  {
    var m := Enclosing(z, lists, live, lists', live', p, l);
    var q := Head(p, m);
    assert SameFree(z, lists', lists);
    var m' := Enclosing(z, lists', live', lists, live, q, m);
    HeadProps(p, m);
    HeadProps(q, m');
    IdxUp(p, q, m, m');
    assert Block(lists, live, p, l) && Block(lists, live, Head(q, m'), m');
    AloneAt(z, lists, live, Head(q, m'), m', p, l);
  }

  lemma {:induction false} Enclosing(z: Zone, lists: Lists, live: map<nat, nat>, lists': Lists, live': map<nat, nat>, p: nat, l: nat)
    returns (m: nat)
    requires Tiling(z, lists, live) && Tiling(z, lists', live')
    requires SameFree(z, lists, lists')
    requires IsFree(lists, p, l)
    ensures l <= m <= z.top && IsFree(lists', Head(p, m), m)
  {
    assert Block(lists, live, p, l);
    BlockAllFree(z, lists, live, p, l);
    AllFreeToo(z, lists, lists', p, l);
    m := FreeRangeInBlock(z, lists', live', p, l);
  }

  lemma {:induction false} BlockAllFree(z: Zone, lists: Lists, live: map<nat, nat>, p: nat, l: nat)
    requires Placed(z, lists, live) && IsFree(lists, p, l)
    ensures AllFree(z, lists, p, l)
  {
    assert Block(lists, live, p, l);
    forall x: nat | Idx(x, l) == Idx(p, l) ensures FreePage(z, lists, x) {
      HoldsPage(z, lists, live, p, l, x);
      assert IsFree(lists, Head(x, l), l);
    }
  }

  /** With nothing live, every page of the zone and no other is free. */
  lemma {:induction false} AllPagesFree(z: Zone, lists: Lists, x: nat)
    requires Tiling(z, lists, map[])
    ensures FreePage(z, lists, x) <==> InZone(z, x)
  {
    if InZone(z, x) {
      assert Covered(z, lists, map[], x);
      var l: nat :| l <= z.top && Block(lists, map[], Head(x, l), l);
      assert IsFree(lists, Head(x, l), l);
    }
    if FreePage(z, lists, x) {
      var l: nat :| l <= z.top && IsFree(lists, Head(x, l), l);
      assert Block(lists, map[], Head(x, l), l);
      HeadProps(x, l);
      IdxUp(x, Head(x, l), l, z.top);
    }
  }

  /** Once everything is freed, in whatever order, the lists hold the same
      blocks: two such states agree, hence agree with the boot state. */
  lemma {:induction false} AllFreedCanonical(z: Zone, lists: Lists, lists': Lists, p: nat, l: nat)
    requires Tiling(z, lists, map[]) && Tiling(z, lists', map[])
    ensures IsFree(lists, p, l) <==> IsFree(lists', p, l)
  {
    forall x: nat ensures FreePage(z, lists, x) <==> FreePage(z, lists', x) {
      AllPagesFree(z, lists, x);
      AllPagesFree(z, lists', x);
    }
    Canonical(z, lists, map[], lists', map[], p, l);
  }

  // ----- the free counter counts pages -----

  ghost function Range(a: nat, n: nat): set<nat>
  {
    if n == 0 then {} else Range(a, n - 1) + {a + n - 1}
  }

  lemma {:induction false} RangeSize(a: nat, n: nat)
    ensures (forall x: nat :: x in Range(a, n) <==> a <= x < a + n) && |Range(a, n)| == n
  {
    if n > 0 { RangeSize(a, n - 1); }
  }

  ghost function PagesOf(p: nat, l: nat): set<nat> { Range(p, Pow2(l)) }

  ghost function ListPages(s: seq<nat>, l: nat): set<nat>
  {
    if s == [] then {} else PagesOf(s[0], l) + ListPages(s[1..], l)
  }

  lemma {:induction false} InListPages(s: seq<nat>, l: nat, x: nat)
    requires forall p :: p in s ==> Aligned(p, l)
    ensures x in ListPages(s, l) <==> Head(x, l) in s
  {
    if s != [] {
      assert s == [s[0]] + s[1..];
      InListPages(s[1..], l, x);
      RangeSize(s[0], Pow2(l));
      BlockRange(s[0], x, l);
      HeadProps(x, l);
      if Idx(x, l) == Idx(s[0], l) { HeadUnique(Head(x, l), s[0], l); }
    }
  }

  lemma {:induction false} ListSize(s: seq<nat>, l: nat)
    requires NoDup(s) && forall p :: p in s ==> Aligned(p, l)
    ensures |ListPages(s, l)| == |s| * Pow2(l)
  {
    if s != [] {
      assert s == [s[0]] + s[1..];
      ListSize(s[1..], l);
      RangeSize(s[0], Pow2(l));
      forall x | x in PagesOf(s[0], l) ensures x !in ListPages(s[1..], l) {
        InListPages(s[1..], l, x);
        BlockRange(s[0], x, l);
        HeadProps(x, l);
        HeadUnique(Head(x, l), s[0], l);
      }
      Spread(|s|, |s[1..]|, Pow2(l));
      TimesUnit(|s| - |s[1..]|, Pow2(l));
    }
  }

  ghost function LevelPages(lists: Lists, n: nat): set<nat>
    requires n <= |lists|
  {
    if n == 0 then {} else LevelPages(lists, n - 1) + ListPages(lists[n - 1], n - 1)
  }

  lemma {:induction false} InLevelPages(z: Zone, lists: Lists, live: map<nat, nat>, n: nat, x: nat)
    requires Placed(z, lists, live) && n <= |lists|
    ensures x in LevelPages(lists, n) <==> FreeBelow(lists, n, x)
  {
    if n > 0 {
      InLevelPages(z, lists, live, n - 1, x);
      LevelAligned(z, lists, live, n - 1);
      InListPages(lists[n - 1], n - 1, x);
      assert x in ListPages(lists[n - 1], n - 1) <==> IsFree(lists, Head(x, n - 1), n - 1);
    }
  }

  lemma {:induction false} LevelAligned(z: Zone, lists: Lists, live: map<nat, nat>, l: nat)
    requires Placed(z, lists, live) && l < |lists|
    ensures forall p :: p in lists[l] ==> Aligned(p, l)
  {
    forall p | p in lists[l] ensures Aligned(p, l) { assert IsFree(lists, p, l) && Block(lists, live, p, l); }
  }

  lemma {:induction false} LevelsApart(z: Zone, lists: Lists, live: map<nat, nat>, n: nat, x: nat)
    requires Placed(z, lists, live) && Apart(lists, live) && 0 < n <= |lists| && x in ListPages(lists[n - 1], n - 1)
    ensures x !in LevelPages(lists, n - 1)
  {
    LevelAligned(z, lists, live, n - 1);
    InListPages(lists[n - 1], n - 1, x);
    InLevelPages(z, lists, live, n - 1, x);
    assert IsFree(lists, Head(x, n - 1), n - 1) && Block(lists, live, Head(x, n - 1), n - 1);
    forall l: nat | l < n - 1 ensures !IsFree(lists, Head(x, l), l) {
      assert IsFree(lists, Head(x, l), l) ==> Block(lists, live, Head(x, l), l);
    }
  }

  lemma {:induction false} LevelSize(z: Zone, lists: Lists, live: map<nat, nat>, n: nat)
    requires Placed(z, lists, live) && Apart(lists, live) && n <= |lists|
    ensures |LevelPages(lists, n)| == Total(lists, n)
  {
    if n > 0 {
      LevelSize(z, lists, live, n - 1);
      LevelAligned(z, lists, live, n - 1);
      ListSize(lists[n - 1], n - 1);
      var (a, b) := (LevelPages(lists, n - 1), ListPages(lists[n - 1], n - 1));
      forall x | x in b ensures x !in a { LevelsApart(z, lists, live, n, x); }
      assert |a + b| == |a| + |b|;
    }
  }

  /** The sum of 2^level over listed blocks is the number of free pages. */
  lemma {:induction false} TotalCountsFreePages(z: Zone, lists: Lists, live: map<nat, nat>, pages: set<nat>)
    requires Tiling(z, lists, live) && forall x: nat :: x in pages <==> FreePage(z, lists, x)
    ensures Total(lists, |lists|) == |pages|
  {
    LevelSize(z, lists, live, |lists|);
    forall x: nat ensures x in pages <==> x in LevelPages(lists, |lists|) {
      InLevelPages(z, lists, live, |lists|, x);
      assert x in pages <==> FreePage(z, lists, x);
    }
    assert pages == LevelPages(lists, |lists|);
  }

  // ----- buddy_init -----

  /** Heads of the chunks lo..c-1, last one first. */
  ghost function Chunks(z: Zone, c: nat): seq<nat>
  {
    if c <= z.lo then [] else [(c - 1) * Pow2(z.top)] + Chunks(z, c - 1)
  }

  ghost function BootLists(z: Zone): Lists
  {
    seq(z.top + 1, l => if l == z.top then Chunks(z, z.hi) else [])
  }

  lemma {:induction false} ChunkHeads(z: Zone, c: nat)
    ensures forall p: nat :: p in Chunks(z, c) <==> Aligned(p, z.top) && z.lo <= Idx(p, z.top) < c
    ensures NoDup(Chunks(z, c))
  {
    if c > z.lo {
      ChunkHeads(z, c - 1);
      var h := (c - 1) * Pow2(z.top);
      AlignedMultiple(c - 1, z.top);
      forall p: nat ensures p in Chunks(z, c) <==> Aligned(p, z.top) && z.lo <= Idx(p, z.top) < c {
        if Aligned(p, z.top) && Idx(p, z.top) == c - 1 { HeadUnique(p, h, z.top); }
      }
      PushNoDup<nat>(h, Chunks(z, c - 1));
    }
  }

  lemma {:induction false} BootTiling(z: Zone)
    ensures Tiling(z, BootLists(z), map[])
  {
    var lists := BootLists(z);
    ChunkHeads(z, z.hi);
    forall p: nat, l: nat ensures Block(lists, map[], p, l) <==> l == z.top && Aligned(p, l) && InZone(z, p) {
      assert IsFree(lists, p, l) <==> l == z.top && p in Chunks(z, z.hi);
    }
    forall x: nat | InZone(z, x) ensures Covered(z, lists, map[], x) {
      HeadProps(x, z.top);
      assert Block(lists, map[], Head(x, z.top), z.top);
    }
    forall l | 0 <= l < |lists| ensures NoDup(lists[l]) {
      if l != z.top { assert lists[l] == []; }
    }
  }

  /** Freeing everything, in any order, restores the blocks of boot time. */
  lemma {:induction false} Restored(z: Zone, lists: Lists, p: nat, l: nat)
    requires Tiling(z, lists, map[])
    ensures IsFree(lists, p, l) <==> IsFree(BootLists(z), p, l)
  {
    BootTiling(z);
    AllFreedCanonical(z, lists, BootLists(z), p, l);
  }
}
