// The buddy page allocator (mm/mm.c, mm/page.c). Page count, number of levels
// and the end of the kernel image are parameters. An allocation, a reference
// and a release are single steps.
module Buddy {
  import opened Bits
  import opened BuddyCore
  import opened Queues
  import opened Wrappers

  class Allocator {
    const top: nat             // MAX_LEVEL_INDEX
    const pages: array<Page>   // mem_map.pages
    var free: nat              // Buddy.free
    var lists: Lists           // Buddy.free_lists, heads first
    ghost const zone: Zone
    ghost var live: map<nat, nat>

    /** Everything but the free counter, with the blocks of `hand` taken off
        the lists and not yet referenced. */
    ghost predicate Holding(hand: set<nat>)
      reads this, pages
    {
      zone.top == top && Consistent(zone, pages[..], lists, live, hand)
    }

    ghost predicate Valid()
      reads this, pages
    {
      Holding({}) && free == Total(lists, top + 1)
    }

    /** first_all_page_init and buddy_init */
    constructor (allPfn: nat, kernelPfnEnd: nat, maxLevelIndex: nat)
      ensures Valid() && fresh(pages) && pages.Length == allPfn && top == maxLevelIndex
      ensures zone == BootZone(allPfn, kernelPfnEnd, maxLevelIndex)
      ensures live == map[] && lists == BootLists(zone)
    {
      top := maxLevelIndex;
      pages := new Page[allPfn](i => Page(maxLevelIndex + 1, if 0 <= i < kernelPfnEnd then 1 else 0));
      zone := BootZone(allPfn, kernelPfnEnd, maxLevelIndex);
      free := 0;
      lists := seq(maxLevelIndex + 1, _ => []);
      live := map[];
      new;
      InitChunks(kernelPfnEnd);
      BootTiling(zone);
      BootDescribed(allPfn, kernelPfnEnd, maxLevelIndex, pages[..]);
      BootTotal(zone);
    }

    /** buddy_init, lines 167-180 */
    method InitChunks(kernelPfnEnd: nat)
      requires lists == seq(top + 1, _ => []) && free == 0 && zone == BootZone(pages.Length, kernelPfnEnd, top)
      modifies this, pages
      ensures lists == BootLists(zone) && free == |lists[top]| * Pow2(top) && live == old(live)
      ensures forall x: nat :: x < pages.Length ==>
        pages[x] == if x in lists[top] then old(pages[x]).(order := top) else old(pages[x])
    {
      var chunk := Pow2(top);
      var start := (kernelPfnEnd + chunk) / chunk * chunk;
      var i := start;
      ghost var c := zone.lo;
      while i + chunk <= pages.Length
        invariant zone.lo <= c <= zone.hi && i == c * chunk && live == old(live)
        invariant lists == seq(top + 1, l => if l == top then Chunks(zone, c) else [])
        invariant free == |lists[top]| * chunk
        invariant forall x: nat :: x < pages.Length ==>
          pages[x] == if x in lists[top] then old(pages[x]).(order := top) else old(pages[x])
      {
        NextChunk(c, chunk, pages.Length);
        OneMore(|lists[top]|, chunk);
        lists := lists[top := [i] + lists[top]];
        pages[i] := pages[i].(order := top);
        free := free + chunk;
        i := i + chunk;
        c := c + 1;
      }
      NextChunk(c, chunk, pages.Length);
    }

    /** find_buddy */
    function FindBuddy(p: nat, order: nat): (r: Option<nat>)
      ensures r == if Flip(p, order) < pages.Length then Some(Flip(p, order)) else None
    {
      XorIsFlip(p, order);
      var b := Xor(p, Pow2(order));
      if b >= pages.Length then None else Some(b)
    }

    ghost predicate Available(order: int)
      reads this
    {
      order >= 0 && exists i :: order <= i < |lists| && lists[i] != []
    }

    /** The first block of the least level from `order` up that has one. */
    ghost predicate FirstFit(p: nat, order: int)
      reads this
    {
      exists i: nat :: order <= i < |lists| && lists[i] != [] && lists[i][0] == p && forall j: nat :: order <= j < i ==> lists[j] == []
    }

    /** buddy_alloc. None is the failure return, and for a legal order the panic. */
    method BuddyAlloc(order: int) returns (r: Option<nat>)
      requires Valid()
      modifies this, pages
      ensures r.Some? <==> old(Available(order))
      ensures r.None? ==> Valid() && live == old(live) && lists == old(lists) && free == old(free) && pages[..] == old(pages[..])
      ensures r.Some? ==>
        && Holding({r.value}) && r.value !in old(live) && live == old(live)[r.value := order]
        && r.value < pages.Length && pages[r.value] == Page(order, 0) && SameRefs(old(pages[..]), pages[..])
        && free == old(free) - Pow2(order) == Total(lists, top + 1)
      ensures r.Some? ==> Taken(old(lists), lists, order) && old(FirstFit(r.value, order))
    {
      if order < 0 || order > top {
        return None;
      }
      var i := FirstLevel(order);
      if i > top {
        return None;
      }
      var page := Pop(i);
      SplitTo(page, i, order);
      TakenAt(old(lists), lists, order, i);
      GrantStep(zone, pages[..], lists, live, page, order);
      free := free - Pow2(order);
      ghost var before := pages[..];
      pages[page] := pages[page].(order := order);
      assert pages[..] == before[page := before[page].(order := order)];
      r := Some(page);
    }

    /** Lines 84-86: the least level from `order` up with a free block. */
    method FirstLevel(order: nat) returns (i: nat)
      requires order <= top && |lists| == top + 1
      ensures order <= i <= top + 1 && (i <= top <==> Available(order)) && (i <= top ==> lists[i] != [])
      ensures forall j :: order <= j < i ==> lists[j] == []
    {
      i := order;
      while i <= top && lists[i] == []
        invariant order <= i <= top + 1
        invariant forall j :: order <= j < i ==> lists[j] == []
      {
        i := i + 1;
      }
    }

    /** Lines 86-88: take the first block of level `i`. */
    method Pop(i: nat) returns (page: nat)
      requires Valid() && i <= top && lists[i] != []
      modifies this`lists, this`live
      ensures Holding({page}) && page !in old(live) && live == old(live)[page := i] && page == old(lists)[i][0]
      ensures lists == old(lists)[i := old(lists)[i][1..]]
      ensures free == Total(lists, top + 1) + Pow2(i)
    {
      TakeStep(zone, pages[..], lists, live, i);
      TotalOne(lists, i, lists[i][1..], top + 1);
      page := lists[i][0];
      lists := lists[i := lists[i][1..]];
      live := live[page := i];
    }

    /** Lines 91-104: halve the block in hand down to level `order`. */
    method SplitTo(page: nat, i: nat, order: nat)
      requires Holding({page}) && IsLive(live, page, i) && order <= i <= top
      modifies this`lists, this`live, pages
      ensures Holding({page}) && live == old(live)[page := order] && SameRefs(old(pages[..]), pages[..])
      ensures Raised(old(lists), lists, order, i)
      ensures Total(lists, top + 1) + Pow2(order) == old(Total(lists, top + 1)) + Pow2(i)
    {
      var j := i;
      while j > order
        invariant order <= j <= i && Holding({page}) && live == old(live)[page := j] && SameRefs(old(pages[..]), pages[..])
        invariant Raised(old(lists), lists, j, i)
        invariant Total(lists, top + 1) + Pow2(j) == old(Total(lists, top + 1)) + Pow2(i)
      {
        Split(page, j);
        j := j - 1;
      }
    }

    /** Lines 93-103: give the upper half of the block in hand back to level `j - 1`. */
    method Split(page: nat, j: nat)
      requires Holding({page}) && IsLive(live, page, j) && 0 < j <= top
      modifies this`lists, this`live, pages
      ensures Holding({page}) && live == old(live)[page := j - 1] && SameRefs(old(pages[..]), pages[..])
      ensures Raised(old(lists), lists, j - 1, j)
      ensures Total(lists, top + 1) + Pow2(j - 1) == old(Total(lists, top + 1)) + Pow2(j)
    {
      ghost var b := Flip(page, j - 1);
      SplitStep(zone, pages[..], lists, live, page, j - 1);
      TotalOne(lists, j - 1, [b] + lists[j - 1], top + 1);
      var buddyPage := FindBuddy(page, j - 1);
      assert buddyPage.Some? && pages[buddyPage.value].refcnt == 0;  // neither `goto bad` is taken
      pages[buddyPage.value] := pages[buddyPage.value].(order := j - 1);
      lists := lists[j - 1 := [buddyPage.value] + lists[j - 1]];
      live := live[page := j - 1];
      assert pages[..] == old(pages[..])[b := old(pages[..])[b].(order := j - 1)];
    }

    /** alloc_pages */
    method AllocPages(order: int) returns (r: Option<nat>)
      requires Valid()
      modifies this, pages
      ensures Valid() && (r.Some? <==> old(Available(order)))
      ensures r.Some? <==> order >= 0 && Granted(Lens(old(lists)), order).Some?
      ensures r.None? ==> live == old(live) && lists == old(lists) && free == old(free) && pages[..] == old(pages[..])
      ensures r.Some? ==>
        && r.value !in old(live) && live == old(live)[r.value := order] && free == old(free) - Pow2(order)
        && r.value < pages.Length && pages[r.value].refcnt == 1
      ensures r.Some? ==> SameRefsBut(old(pages[..]), pages[..], r.value) && Taken(old(lists), lists, order) && old(FirstFit(r.value, order))
    {
      if order >= 0 { GrantedWhen(Lens(lists), order); }
      r := BuddyAlloc(order);
      if r.Some? {
        ghost var before := pages[..];
        GetStep(zone, before, lists, live, r.value, {r.value});
        pages[r.value] := pages[r.value].(refcnt := pages[r.value].refcnt + 1);
        assert pages[..] == before[r.value := before[r.value].(refcnt := before[r.value].refcnt + 1)];
      }
    }

    /** get_page */
    method GetPage(p: nat)
      requires Valid() && p in live
      modifies pages
      ensures Valid() && p < pages.Length
      ensures pages[..] == old(pages[..])[p := old(pages[..])[p].(refcnt := old(pages[..])[p].refcnt + 1)]
    {
      assert Block(lists, live, p, live[p]);
      GetStep(zone, pages[..], lists, live, p, {});
      pages[p] := pages[p].(refcnt := pages[p].refcnt + 1);
      assert pages[..] == old(pages[..])[p := old(pages[..])[p].(refcnt := old(pages[..])[p].refcnt + 1)];
    }

    /** free_pages */
    method FreePages(p: nat)
      requires Valid() && p in live
      modifies this, pages
      ensures Valid() && p < pages.Length && old(pages[p].refcnt) > 0
      ensures old(pages[p].refcnt) > 1 ==>
        && live == old(live) && lists == old(lists) && free == old(free)
        && pages[p] == old(pages[p]).(refcnt := old(pages[p].refcnt) - 1)
      ensures old(pages[p].refcnt) == 1 ==> live == old(live) - {p} && free == old(free) + Pow2(old(live)[p])
      ensures SameRefsBut(old(pages[..]), pages[..], p)
    {
      assert Block(lists, live, p, live[p]);
      PutStep(zone, pages[..], lists, live, p);
      pages[p] := pages[p].(refcnt := pages[p].refcnt - 1);
      assert pages[..] == old(pages[..])[p := old(pages[..])[p].(refcnt := old(pages[..])[p].refcnt - 1)];
      if pages[p].refcnt == 0 {
        BuddyFree(p);
      }
    }

    /** buddy_free */
    method BuddyFree(pg: nat)
      requires Holding({pg}) && pg in live && free == Total(lists, top + 1)
      requires pg < pages.Length && pages[pg] == Page(live[pg], 0)
      modifies this, pages
      ensures Valid() && live == old(live) - {pg} && free == old(free) + Pow2(old(live)[pg])
      ensures SameRefs(old(pages[..]), pages[..])
    {
      var order := pages[pg].order;
      assert Block(lists, live, pg, order);
      var page, level := MergeUp(pg, order);
      Enlist(page, level);
      free := free + Pow2(order);
    }

    /** Lines 147-151: put the merged block on its list. */
    method Enlist(page: nat, level: nat)
      requires Holding({page}) && IsLive(live, page, level) && level <= top
      requires level < top ==> !IsFree(lists, Flip(page, level), level)
      modifies this`lists, this`live, pages
      ensures Holding({}) && live == old(live) - {page} && SameRefs(old(pages[..]), pages[..])
      ensures Total(lists, top + 1) == old(Total(lists, top + 1)) + Pow2(level)
    {
      EndStep(zone, pages[..], lists, live, page, level);
      TotalOne(lists, level, [page] + lists[level], top + 1);
      pages[page] := pages[page].(order := level);
      lists := lists[level := [page] + lists[level]];
      live := live - {page};
      assert pages[..] == old(pages[..])[page := old(pages[..])[page].(order := level)];
    }

    /** Lines 133-145: merge upwards as long as the sibling is free. */
    method MergeUp(pg: nat, order: nat) returns (page: nat, level: nat)
      requires Holding({pg}) && IsLive(live, pg, order) && order <= top
      modifies this`lists, this`live, pages
      ensures order <= level <= top && Holding({page}) && IsLive(live, page, level)
      ensures live - {page} == old(live) - {pg} && SameRefs(old(pages[..]), pages[..])
      ensures Total(lists, top + 1) + Pow2(level) == old(Total(lists, top + 1)) + Pow2(order)
      ensures level < top ==> !IsFree(lists, Flip(page, level), level)
    {
      page, level := pg, order;
      var more := true;
      while level < top && more
        invariant order <= level <= top && Holding({page}) && IsLive(live, page, level)
        invariant live - {page} == old(live) - {pg} && SameRefs(old(pages[..]), pages[..])
        invariant Total(lists, top + 1) + Pow2(level) == old(Total(lists, top + 1)) + Pow2(order)
        invariant !more ==> level < top && !IsFree(lists, Flip(page, level), level)
        decreases top - level, more
      {
        page, more := Merge(page, level);
        if more {
          level := level + 1;
        }
      }
    }

    /** Lines 134-143: join the block in hand with its sibling if that is free. */
    method Merge(page: nat, level: nat) returns (q: nat, more: bool)
      requires Holding({page}) && IsLive(live, page, level) && level < top
      modifies this`lists, this`live, pages
      ensures more == old(IsFree(lists, Flip(page, level), level)) && SameRefs(old(pages[..]), pages[..])
      ensures !more ==> q == page && Holding({page}) && live == old(live) && lists == old(lists)
      ensures more ==> Holding({q}) && live == (old(live) - {page})[q := level + 1] && live - {q} == old(live) - {page}
      ensures more ==> Total(lists, top + 1) + Pow2(level + 1) == old(Total(lists, top + 1)) + Pow2(level)
    {
      ghost var b := Flip(page, level);
      MergeTest(zone, pages[..], lists, live, page, level);
      q, more := page, false;
      var buddyPage := FindBuddy(page, level);
      if buddyPage.Some? && pages[buddyPage.value].refcnt == 0 && pages[buddyPage.value].order == level {
        JoinStep(zone, pages[..], lists, live, page, level);
        TotalOne(lists, level, Without<nat>(lists[level], b), top + 1);
        pages[page] := pages[page].(order := top + 1);
        pages[buddyPage.value] := pages[buddyPage.value].(order := top + 1);
        assert pages[..] == Joined(old(pages[..]), page, b, top);
        lists := lists[level := Without<nat>(lists[level], buddyPage.value)];
        q, more := if page < buddyPage.value then page else buddyPage.value, true;
        live := (live - {page})[q := level + 1];
      }
    }
  }

  // ----- how many blocks each list has -----

  /** Each list from level `lo` to below `hi` has one block more. */
  ghost predicate Raised(lists: Lists, lists': Lists, lo: int, hi: int)
  {
    |lists'| == |lists| &&
    forall l {:trigger lists'[l]} :: 0 <= l < |lists| ==> |lists'[l]| == |lists[l]| + if lo <= l < hi then 1 else 0
  }

  /** The number of blocks on each list. */
  ghost function Lens(lists: Lists): (lens: seq<nat>)
    ensures |lens| == |lists| && forall l {:trigger lens[l]} :: 0 <= l < |lists| ==> lens[l] == |lists[l]|
    decreases |lists|
  {
    if lists == [] then [] else Lens(lists[..|lists| - 1]) + [|lists[|lists| - 1]|]
  }

  /** What granting a block of `order` leaves on the lists: a block of the least level
      that has one is taken, and each level it is split through gets the other half. */
  function Granted(lens: seq<nat>, order: nat): (r: Option<seq<nat>>)
    ensures r.Some? ==> |r.value| == |lens|
    decreases |lens| - order
  {
    if order >= |lens| then None
    else if lens[order] > 0 then Some(lens[order := lens[order] - 1])
    else match Granted(lens, order + 1)
         case None => None
         case Some(rest) => Some(rest[order := 1])
  }

  /** Level `i` serves the request: it loses a block, and the levels below it down to
      `order`, empty before, get one each. */
  ghost predicate ServedBy(lens: seq<nat>, lens': seq<nat>, order: nat, i: nat)
  {
    && order <= i < |lens| && lens[i] > 0 && |lens'| == |lens|
    && (forall l :: order <= l < i ==> lens[l] == 0)
    && (forall l {:trigger lens'[l]} :: 0 <= l < |lens| ==>
          lens'[l] == if l == i then lens[l] - 1 else if order <= l < i then 1 else lens[l])
  }

  lemma {:induction false} GrantedBy(lens: seq<nat>, order: nat) returns (i: nat)
    requires Granted(lens, order).Some?
    ensures ServedBy(lens, Granted(lens, order).value, order, i)
    decreases |lens| - order
  {
    if lens[order] > 0 { i := order; } else { i := GrantedBy(lens, order + 1); }
  }

  /** An allocation succeeds exactly when some list from `order` on has a block. */
  lemma {:induction false} GrantedWhen(lens: seq<nat>, order: nat)
    ensures Granted(lens, order).Some? <==> exists l :: order <= l < |lens| && lens[l] > 0
    decreases |lens| - order
  {
    if order < |lens| { GrantedWhen(lens, order + 1); }
  }

  /** The lists after an allocation are those that Granted predicts. */
  ghost predicate Taken(lists: Lists, lists': Lists, order: int)
  {
    order >= 0 && Granted(Lens(lists), order) == Some(Lens(lists'))
  }

  lemma {:induction false} TakenAt(lists: Lists, lists': Lists, order: nat, i: nat)
    requires order <= i < |lists| && lists[i] != [] && (forall l :: order <= l < i ==> lists[l] == [])
    requires Raised(lists[i := lists[i][1..]], lists', order, i)
    ensures Taken(lists, lists', order)
  {
    var lens, lens' := Lens(lists), Lens(lists');
    assert lens[i] == |lists[i]| && forall l :: order <= l < i ==> lens[l] == |lists[l]|;
    GrantedWhen(lens, order);
    var k := GrantedBy(lens, order);
    var g := Granted(lens, order).value;
    SameLevel(lens, g, order, k, i);
    forall l | 0 <= l < |lens| ensures g[l] == lens'[l] { }
    assert g == lens';
  }

  lemma {:induction false} SameLevel(lens: seq<nat>, lens': seq<nat>, order: nat, k: nat, i: nat)
    requires ServedBy(lens, lens', order, k) && order <= i < |lens| && lens[i] > 0 && forall l :: order <= l < i ==> lens[l] == 0
    ensures k == i
  {
  }

  /** Reference counts stand. */
  ghost predicate SameRefs(pages: seq<Page>, pages': seq<Page>)
  {
    |pages'| == |pages| && forall x: nat {:trigger pages'[x]} :: x < |pages| ==> pages'[x].refcnt == pages[x].refcnt
  }

  /** Reference counts stand, except that of page `p`. */
  ghost predicate SameRefsBut(pages: seq<Page>, pages': seq<Page>, p: nat)
  {
    |pages'| == |pages| && forall x: nat {:trigger pages'[x]} :: x < |pages| && x != p ==> pages'[x].refcnt == pages[x].refcnt
  }

  // ----- the steps on values -----

  ghost predicate Consistent(z: Zone, pages: seq<Page>, lists: Lists, live: map<nat, nat>, hand: set<nat>)
  {
    Tiling(z, lists, live) && Described(z, pages, lists, live, hand)
  }

  lemma {:induction false} TakeStep(z: Zone, pages: seq<Page>, lists: Lists, live: map<nat, nat>, i: nat)
    requires Consistent(z, pages, lists, live, {}) && i <= z.top && |lists| == z.top + 1 && lists[i] != []
    ensures var p := lists[i][0]; p !in live && Consistent(z, pages, lists[i := lists[i][1..]], live[p := i], {p})
  {
    TakeKeeps(z, lists, live, i);
    TakeDescribed(z, pages, lists, live, i);
  }

  lemma {:induction false} SplitStep(z: Zone, pages: seq<Page>, lists: Lists, live: map<nat, nat>, p: nat, k: nat)
    requires Consistent(z, pages, lists, live, {p}) && IsLive(live, p, k + 1) && k < z.top
    ensures var b := Flip(p, k);
      && b < |pages| && pages[b].refcnt == 0 && |lists| == z.top + 1
      && Consistent(z, pages[b := pages[b].(order := k)], lists[k := [b] + lists[k]], live[p := k], {p})
  {
    SplitKeeps(z, lists, live, p, k);
    SplitDescribed(z, pages, lists, live, p, k);
  }

  /** The level of a block in hand is written into its head. */
  lemma {:induction false} GrantStep(z: Zone, pages: seq<Page>, lists: Lists, live: map<nat, nat>, p: nat, l: nat)
    requires Consistent(z, pages, lists, live, {p}) && IsLive(live, p, l)
    ensures p < |pages| && pages[p].refcnt == 0 && Consistent(z, pages[p := pages[p].(order := l)], lists, live, {p})
  {
    assert Block(lists, live, p, l);
  }

  /** get_page on a live head, in hand or not. */
  lemma {:induction false} GetStep(z: Zone, pages: seq<Page>, lists: Lists, live: map<nat, nat>, p: nat, hand: set<nat>)
    requires Consistent(z, pages, lists, live, hand) && hand <= {p} && p in live && p < |pages| && pages[p].order == live[p]
    ensures Consistent(z, pages[p := pages[p].(refcnt := pages[p].refcnt + 1)], lists, live, {})
  {
    assert Block(lists, live, p, live[p]);
  }

  /** free_pages drops one reference; the last one puts the block in hand. */
  lemma {:induction false} PutStep(z: Zone, pages: seq<Page>, lists: Lists, live: map<nat, nat>, p: nat)
    requires Consistent(z, pages, lists, live, {}) && p in live
    ensures p < |pages| && pages[p].refcnt > 0 && pages[p].order == live[p]
    ensures Consistent(z, pages[p := pages[p].(refcnt := pages[p].refcnt - 1)], lists, live,
                       if pages[p].refcnt == 1 then {p} else {})
  {
    assert Block(lists, live, p, live[p]);
  }

  /** Both joined heads get the invalid order MAX_LEVEL. */
  ghost function Joined(pages: seq<Page>, p: nat, b: nat, top: nat): seq<Page>
    requires p < |pages| && b < |pages|
  {
    var pages1 := pages[p := pages[p].(order := top + 1)];
    pages1[b := pages1[b].(order := top + 1)]
  }

  lemma {:induction false} JoinStep(z: Zone, pages: seq<Page>, lists: Lists, live: map<nat, nat>, p: nat, k: nat)
    requires Consistent(z, pages, lists, live, {p}) && IsLive(live, p, k) && k < z.top && IsFree(lists, Flip(p, k), k)
    ensures var (b, q) := (Flip(p, k), if p < Flip(p, k) then p else Flip(p, k));
      && p < |pages| && b < |pages| && b != p && b !in live && k < |lists| && |Without<nat>(lists[k], b)| == |lists[k]| - 1
      && Consistent(z, Joined(pages, p, b, z.top), lists[k := Without<nat>(lists[k], b)], (live - {p})[q := k + 1], {q})
  {
    JoinKeeps(z, lists, live, p, k);
    JoinDescribed(z, pages, lists, live, p, k);
  }

  lemma {:induction false} JoinDescribed(z: Zone, pages: seq<Page>, lists: Lists, live: map<nat, nat>, p: nat, k: nat)
    requires Consistent(z, pages, lists, live, {p}) && IsLive(live, p, k) && k < z.top && IsFree(lists, Flip(p, k), k)
    ensures var (b, q) := (Flip(p, k), if p < Flip(p, k) then p else Flip(p, k));
      && p < |pages| && b < |pages| && b != p && b !in live && k < |lists| && |Without<nat>(lists[k], b)| == |lists[k]| - 1
      && Described(z, Joined(pages, p, b, z.top), lists[k := Without<nat>(lists[k], b)], (live - {p})[q := k + 1], {q})
  {
    var (b, q) := (Flip(p, k), if p < Flip(p, k) then p else Flip(p, k));
    assert Block(lists, live, p, k) && Block(lists, live, b, k);
    JoinAlone(z, lists, live, p, k);
    Unlinked<nat>(lists[k], b);
    FlipTwice(p, k);
    var (pages', lists', live') := (Joined(pages, p, b, z.top), lists[k := Without<nat>(lists[k], b)], (live - {p})[q := k + 1]);
    forall x: nat | InZone(z, x) ensures x < |pages'| && (pages'[x].refcnt > 0 <==> x in live' && x !in {q}) {
      assert pages[x].refcnt > 0 <==> x in live && x !in {p};
    }
    forall r: nat, l: nat | IsFree(lists', r, l) ensures r < |pages'| && pages'[r].order == l {
      assert IsFree(lists, r, l) && r != p;
      assert r == b ==> Block(lists, live, b, l);
    }
    forall r: nat | r in live' && r !in {q} ensures r < |pages'| && pages'[r].order == live'[r] {
      assert r in live && r != p && r != b;
    }
  }

  lemma {:induction false} EndStep(z: Zone, pages: seq<Page>, lists: Lists, live: map<nat, nat>, p: nat, l: nat)
    requires Consistent(z, pages, lists, live, {p}) && IsLive(live, p, l) && (l < z.top ==> !IsFree(lists, Flip(p, l), l))
    ensures p < |pages| && l < |lists|
    ensures Consistent(z, pages[p := pages[p].(order := l)], lists[l := [p] + lists[l]], live - {p}, {})
  {
    assert Block(lists, live, p, l);
    PutKeeps(z, lists, live, p, l);
    var (pages', lists', live') := (pages[p := pages[p].(order := l)], lists[l := [p] + lists[l]], live - {p});
    forall x: nat | InZone(z, x) ensures x < |pages'| && (pages'[x].refcnt > 0 <==> x in live') {
      assert pages[x].refcnt > 0 <==> x in live && x !in {p};
    }
    forall r: nat, j: nat | IsFree(lists', r, j) ensures r < |pages'| && pages'[r].order == j {
      assert IsFree(lists, r, j) || (r == p && j == l);
    }
  }

  lemma {:induction false} TakeDescribed(z: Zone, pages: seq<Page>, lists: Lists, live: map<nat, nat>, i: nat)
    requires Tiling(z, lists, live) && Described(z, pages, lists, live, {}) && i <= z.top && lists[i] != []
    ensures var p := lists[i][0]; Described(z, pages, lists[i := lists[i][1..]], live[p := i], {p})
  {
    var p := lists[i][0];
    var (lists', live') := (lists[i := lists[i][1..]], live[p := i]);
    assert IsFree(lists, p, i) && Block(lists, live, p, i);
    forall x: nat | InZone(z, x) ensures x < |pages| && (pages[x].refcnt > 0 <==> x in live' && x !in {p}) {
      assert pages[x].refcnt > 0 <==> x in live;
    }
    forall q: nat, l: nat | IsFree(lists', q, l) ensures q < |pages| && pages[q].order == l {
      assert IsFree(lists, q, l);
    }
    forall q: nat | q in live' && q !in {p} ensures q < |pages| && pages[q].order == live'[q] {
      assert q in live;
    }
  }

  lemma {:induction false} SplitDescribed(z: Zone, pages: seq<Page>, lists: Lists, live: map<nat, nat>, p: nat, k: nat)
    requires Tiling(z, lists, live) && Described(z, pages, lists, live, {p}) && IsLive(live, p, k + 1) && k < z.top
    ensures var b := Flip(p, k);
      && b < |pages| && pages[b].refcnt == 0 && b != p
      && Described(z, pages[b := pages[b].(order := k)], lists[k := [b] + lists[k]], live[p := k], {p})
  {
    var b := Flip(p, k);
    assert Block(lists, live, p, k + 1);
    Halves(z, p, k);
    SplitKeeps(z, lists, live, p, k);
    forall m: nat ensures !IsFree(lists, b, m) {
      if IsFree(lists, b, m) {
        assert Block(lists, live, b, m);
        AloneAt(z, lists, live, p, k + 1, b, m);
      }
    }
    var (pages', lists', live') := (pages[b := pages[b].(order := k)], lists[k := [b] + lists[k]], live[p := k]);
    forall x: nat | InZone(z, x) ensures x < |pages'| && (pages'[x].refcnt > 0 <==> x in live' && x !in {p}) {
      assert pages[x].refcnt > 0 <==> x in live && x !in {p};
    }
    forall q: nat, l: nat | IsFree(lists', q, l) ensures q < |pages'| && pages'[q].order == l {
      assert IsFree(lists, q, l) || (q == b && l == k);
    }
    forall q: nat | q in live' && q !in {p} ensures q < |pages'| && pages'[q].order == live'[q] {
      assert q in live && q != b;
    }
  }

  /** The chunks above the kernel image, all inside memory. The first one starts
      strictly above `kernelPfnEnd`, even when that is a chunk boundary. */
  ghost function BootZone(allPfn: nat, kernelPfnEnd: nat, top: nat): Zone
  {
    var chunk := Pow2(top);
    var lo := (kernelPfnEnd + chunk) / chunk;
    Zone(top, lo, if allPfn / chunk >= lo then allPfn / chunk else lo)
  }

  lemma {:induction false} OneMore(n: nat, chunk: nat)
    ensures (n + 1) * chunk == n * chunk + chunk
  {
  }

  lemma {:induction false} HeadMultiple(x: nat, l: nat)
    ensures Head(x, l) == Idx(x, l) * Pow2(l)
  {
    HeadProps(x, l);
    AlignedMultiple(Idx(x, l), l);
    HeadUnique(Head(x, l), Idx(x, l) * Pow2(l), l);
  }

  /** Boot pages lie above the kernel image and inside memory. */
  lemma {:induction false} ZoneInMemory(n: nat, k: nat, top: nat, x: nat)
    requires InZone(BootZone(n, k, top), x)
    ensures k < x < n
  {
    var (z, chunk) := (BootZone(n, k, top), Pow2(top));
    var i := Idx(x, top);
    HeadProps(x, top);
    HeadMultiple(x, top);
    StartChunk(k, chunk);
    assert z.lo * chunk <= i * chunk by { MulLe(z.lo, i, chunk); }
    assert x < i * chunk + chunk;
    NextChunk(i, chunk, n);
  }

  /** Of the whole chunks above the kernel image and inside memory, the buddy system
      gets all but one that starts exactly at the end of the image. */
  lemma {:induction false} BootSkips(n: nat, k: nat, top: nat, i: nat)
    requires k <= i * Pow2(top) && i * Pow2(top) + Pow2(top) <= n
    ensures var z := BootZone(n, k, top); z.lo <= i < z.hi <==> i * Pow2(top) != k
  {
    var (z, chunk) := (BootZone(n, k, top), Pow2(top));
    StartChunk(k, chunk);
    NextChunk(i, chunk, n);
    if i < z.lo { MulLe(i, z.lo - 1, chunk); } else { MulLe(z.lo, i, chunk); }
  }

  /** The first chunk is one past the rounded-up end of the image exactly when that
      end is a chunk boundary. */
  lemma {:induction false} BootStart(n: nat, k: nat, top: nat)
    ensures var chunk := Pow2(top);
      BootZone(n, k, top).lo == (k + chunk - 1) / chunk + (if k % chunk == 0 then 1 else 0)
  {
    var chunk := Pow2(top);
    var q, r := k / chunk, k % chunk;
    assert k == q * chunk + r;
    DivIs(k + chunk, chunk, q + 1, r);
    if r == 0 { DivIs(k + chunk - 1, chunk, q, chunk - 1); } else { DivIs(k + chunk - 1, chunk, q + 1, r - 1); }
  }

  lemma {:induction false} DivIs(x: int, m: int, q: int, r: int)
    requires 0 < m && x == q * m + r && 0 <= r < m
    ensures x / m == q
  {
    var d := x / m;
    assert x == d * m + x % m;
    if d < q { assert (d + 1) * m <= q * m by { MulLe(d + 1, q, m); } }
    if q < d { assert (q + 1) * m <= d * m by { MulLe(q + 1, d, m); } }
  }

  lemma {:induction false} BootDescribed(n: nat, k: nat, top: nat, pages: seq<Page>)
    requires |pages| == n
    requires var z := BootZone(n, k, top); forall x: nat :: x < n ==>
      pages[x] == Page(if x in Chunks(z, z.hi) then top else top + 1, if x < k then 1 else 0)
    ensures var z := BootZone(n, k, top); Described(z, pages, BootLists(z), map[], {})
  {
    var z := BootZone(n, k, top);
    forall x: nat | InZone(z, x) ensures x < n && pages[x].refcnt == 0 { ZoneInMemory(n, k, top, x); }
    ChunkHeads(z, z.hi);
    forall p: nat, l: nat | IsFree(BootLists(z), p, l) ensures p < n && pages[p].order == l {
      assert l == top && p in Chunks(z, z.hi);
      ZoneInMemory(n, k, top, p);
    }
  }

  lemma {:induction false} BootTotal(z: Zone)
    ensures Total(BootLists(z), z.top + 1) == |BootLists(z)[z.top]| * Pow2(z.top)
  {
    EmptyTotal(BootLists(z), z.top);
  }

  lemma {:induction false} EmptyTotal(lists: Lists, n: nat)
    requires n <= |lists| && forall l :: 0 <= l < n ==> lists[l] == []
    ensures Total(lists, n) == 0
  {
    if n > 0 { EmptyTotal(lists, n - 1); }
  }

  lemma {:induction false} StartChunk(k: nat, chunk: nat)
    requires chunk > 0
    ensures var lo := (k + chunk) / chunk; lo >= 1 && lo * chunk > k && (lo - 1) * chunk <= k
  {
    var lo := (k + chunk) / chunk;
    assert k + chunk == lo * chunk + (k + chunk) % chunk;
    assert (lo - 1) * chunk == lo * chunk - chunk;
  }

  lemma {:induction false} NextChunk(c: nat, chunk: nat, n: nat)
    requires chunk > 0
    ensures c * chunk + chunk == (c + 1) * chunk
    ensures c * chunk + chunk <= n <==> c + 1 <= n / chunk
  {
    assert n == (n / chunk) * chunk + n % chunk;
    if c + 1 <= n / chunk {
      assert (c + 1) * chunk <= (n / chunk) * chunk;
    } else {
      assert (n / chunk + 1) * chunk <= (c + 1) * chunk;
    }
  }
}
