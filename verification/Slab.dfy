/** The slab and kmalloc layers (mm/slab.c, mm/kmalloc.c) on top of the buddy
    system. None stands for the failures on which the code panics. */
module Slab {
  import opened Bits
  import opened Wrappers
  import opened Pow2Math
  import opened Queues
  import opened SlabCore
  import opened SlabLists
  import Links
  import BuddyCore
  import Buddy

  // ----- Cache parameters ----------------------------------------------------

  lemma {:induction false} Pow2Values()
    ensures Pow2(4) == 16 && Pow2(8) == 256 && Pow2(12) == PGSIZE && Pow2(13) == 8192 && Pow2(15) == 32768
  {
    assert Pow2(2) == 4 && Pow2(3) == 8;
    Pow2Sum(2, 2);
    Pow2Sum(4, 4);
    Pow2Sum(8, 4);
    Pow2Sum(12, 3);
  }

  /** calc_slab_order for an object of 2^j bytes: the least order that holds four. */
  method CalcSlabOrder(size: nat, ghost j: nat) returns (order: nat)
    requires size == Pow2(j)
    ensures order == if j <= 10 then 0 else j - 10
  {
    Pow2Values();
    Pow2Sum(2, j);
    var require_ := size * 4;
    var slabSize := PGSIZE;
    order := 0;
    while require_ > slabSize
      invariant slabSize == Pow2(12 + order) && require_ == Pow2(j + 2)
      invariant order <= if j <= 10 then 0 else j - 10
      decreases require_ - slabSize
    {
      if j <= 10 + order { Pow2Mono(j + 2, 12 + order); }
      order := order + 1;
      slabSize := slabSize * 2;
    }
    if 10 + order < j { Pow2Mono(13 + order, j + 2); }
  }

  lemma {:induction false} MulLess(a: nat, b: nat, m: nat)
    ensures a < b ==> a * m + m <= b * m
  {
    if a < b {
      MulLe(a + 1, b, m);
      assert (a + 1) * m == a * m + m;
    }
  }

  lemma {:induction false} DivExact(a: nat, b: nat)
    requires 0 < b
    ensures (a * b) / b == a && (a * b) % b == 0
  {
    var q: nat, r: nat := (a * b) / b, (a * b) % b;
    assert q * b + r == a * b && 0 <= r < b;
    MulLess(q, a, b);
    MulLess(a, q, b);
  }

  /** The number of objects of 2^j bytes in a slab. */
  lemma {:induction false} SlabCount(j: nat, order: nat)
    requires order == if j <= 10 then 0 else j - 10
    ensures Pow2(order) * PGSIZE / Pow2(j) == Pow2(12 + order - j)
    ensures Pow2(12 + order - j) * Pow2(j) == Pow2(order) * PGSIZE
    ensures 4 <= Pow2(12 + order - j) && (Pow2(12 + order - j) <= STACK_MAX <==> 4 <= j)
  {
    Pow2Values();
    Pow2Sum(order, 12);
    var e := 12 + order - j;
    Pow2Sum(e, j);
    DivExact(Pow2(e), Pow2(j));
    assert Pow2(2) == 4;
    Pow2Mono(2, e);
    if j < 4 { Pow2Mono(9, e); } else { Pow2Mono(e, 8); }
  }

  /** Which sizes round to which powers, in 16 bits. */
  lemma {:induction false} SizeClass(size: nat)
    requires size < 65536
    ensures 4 <= CeilLog(size) <==> 8 < size
    ensures Pow2(CeilLog(size)) % 65536 == if size <= 32768 then Pow2(CeilLog(size)) else 0
  {
    Pow2Values();
    Pow2Sum(15, 1);
    CeilLogLeast(size, 3);
    CeilLogLeast(size, 15);
    CeilLogLeast(size, 16);
    if CeilLog(size) <= 15 { Pow2Mono(CeilLog(size), 15); }
  }

  /** The order and the object count for objects of 2^j bytes; None when the count
      exceeds the free stack. */
  method SlabShape(size: nat, ghost j: nat) returns (r: Option<Cache>)
    requires size == Pow2(j)
    ensures r.Some? <==> 4 <= j
    ensures r.Some? ==> ShapeOk(r.value) && r.value.size == size && r.value.order == OrderFor(j)
  {
    var order := CalcSlabOrder(size, j);
    SlabCount(j, order);
    var count := Pow2(order) * PGSIZE / size;
    if count > STACK_MAX {
      return None;
    }
    r := Some(Cache(size, order, count));
  }

  /** The parameters kmem_cache_create computes for objects of `size` bytes; None
      when its assertion fails or the 16-bit size wraps to 0. */
  method CacheShape(size: nat) returns (r: Option<Cache>)
    requires size < 65536
    ensures r.Some? <==> 8 < size <= 32768
    ensures r.Some? ==> ShapeOk(r.value) && r.value.size == Pow2(CeilLog(size)) && size <= r.value.size
    ensures r.Some? ==> r.value.order == OrderFor(CeilLog(size))
  {
    SizeClass(size);
    var rounded := NextPowerOf2(size);
    var size16 := rounded % 65536;
    if size16 == 0 {
      return None;
    }
    r := SlabShape(size16, CeilLog(size));
  }

  /** The order of the block for a page-sized allocation. */
  method BlockOrder(size: nat) returns (order: nat)
    requires 8192 < size <= 1024 * PGSIZE
    ensures order == CeilLog((size + PGSIZE - 1) / PGSIZE) && size <= Pow2(order) * PGSIZE
  {
    var pages := (size + PGSIZE - 1) / PGSIZE;
    order := MathOrder2(pages);
    MulLe(pages, Pow2(order), PGSIZE);
  }

  lemma {:induction false} ClassSize(o: nat)
    requires 4 <= o <= 13
    ensures CeilLog(Pow2(o)) == o && 8 < Pow2(o) <= 8192
  {
    Pow2Values();
    Pow2Mono(4, o);
    Pow2Mono(o, 13);
    CeilLogLeast(Pow2(o), o);
    CeilLogLeast(Pow2(o), o - 1);
  }

  ghost predicate StandsAt(m: map<Cid, seq<Pfn>>, m': map<Cid, seq<Pfn>>, l: Cid)
  {
    (l in m' <==> l in m) && (l in m && l in m' ==> m'[l] == m[l])
  }

  /** The lists of all caches but `k` stand. */
  ghost predicate OthersStand(m: map<Cid, seq<Pfn>>, m': map<Cid, seq<Pfn>>, k: Cid)
  {
    forall l: Cid {:trigger StandsAt(m, m', l)} :: l != k ==> StandsAt(m, m', l)
  }

  lemma {:induction false} StandTwice(m: map<Cid, seq<Pfn>>, m1: map<Cid, seq<Pfn>>, m2: map<Cid, seq<Pfn>>, k: Cid)
    requires OthersStand(m, m1, k) && OthersStand(m1, m2, k)
    ensures OthersStand(m, m2, k)
  {
    forall l: Cid | l != k ensures StandsAt(m, m2, l) { assert StandsAt(m, m1, l) && StandsAt(m1, m2, l); }
  }

  /** The cache of class `o` has objects of 2^o bytes and a slab for every CPU. */
  ghost predicate ClassOk(caches: map<Cid, Cache>, cpu: map<Cid, seq<Pfn>>, o: nat, ncpu: nat)
  {
    o in caches && caches[o].size == Pow2(o) && caches[o].order == OrderFor(o) && o in cpu && |cpu[o]| == ncpu
  }

  ghost predicate ReadyTo(caches: map<Cid, Cache>, cpu: map<Cid, seq<Pfn>>, hi: nat, ncpu: nat)
  {
    forall o: nat {:trigger ClassOk(caches, cpu, o, ncpu)} :: 4 <= o < hi ==> ClassOk(caches, cpu, o, ncpu)
  }

  ghost predicate Absent(caches: map<Cid, Cache>, lo: nat)
  {
    forall o: nat :: lo <= o <= 13 ==> o !in caches
  }

  lemma {:induction false} ReadyStep(caches: map<Cid, Cache>, cpu: map<Cid, seq<Pfn>>, caches': map<Cid, Cache>, cpu': map<Cid, seq<Pfn>>,
                                     o: nat, ncpu: nat)
    requires ReadyTo(caches, cpu, o, ncpu) && Absent(caches, o) && ClassOk(caches', cpu', o, ncpu)
    requires caches' == caches[o := caches'[o]] && OthersStand(cpu, cpu', o)
    ensures ReadyTo(caches', cpu', o + 1, ncpu) && Absent(caches', o + 1)
  {
    forall x: nat | 4 <= x < o + 1 ensures ClassOk(caches', cpu', x, ncpu) {
      if x < o { assert ClassOk(caches, cpu, x, ncpu) && StandsAt(cpu, cpu', x); }
    }
  }

  // ----- When allocations succeed --------------------------------------------

  /** What two allocations for a slab, its header page and its objects, leave on the
      buddy lists; None if one of them fails. */
  function GrantedSlab(lens: seq<nat>, order: nat): Option<seq<nat>>
  {
    match Buddy.Granted(lens, 0)
    case None => None
    case Some(rest) => Buddy.Granted(rest, order)
  }

  function GrantedSlabs(lens: seq<nat>, order: nat, n: nat): Option<seq<nat>>
    decreases n
  {
    if n == 0 then Some(lens)
    else match GrantedSlab(lens, order)
         case None => None
         case Some(rest) => GrantedSlabs(rest, order, n - 1)
  }

  /** The slab order for objects of 2^o bytes. */
  function OrderFor(o: nat): nat { if o <= 10 then 0 else o - 10 }

  /** The caches of kmalloc_init from class `o` on. */
  function GrantedClasses(lens: seq<nat>, o: nat, ncpu: nat): Option<seq<nat>>
    decreases 14 - o
  {
    if o > 13 then Some(lens)
    else match GrantedSlabs(lens, OrderFor(o), ncpu)
         case None => None
         case Some(rest) => GrantedClasses(rest, o + 1, ncpu)
  }

  /** A free block larger than the slab's is enough for it and its header. */
  lemma {:induction false} RoomForSlab(lens: seq<nat>, order: nat, l: nat)
    requires order < l < |lens| && lens[l] > 0
    ensures GrantedSlab(lens, order).Some?
  {
    Buddy.GrantedWhen(lens, 0);
    var i := Buddy.GrantedBy(lens, 0);
    var rest := Buddy.Granted(lens, 0).value;
    assert if order < i then rest[order] == 1 else rest[l] == lens[l];
    Buddy.GrantedWhen(rest, order);
  }

  /** The size class of kmalloc. */
  function ClassOf(size: nat): nat { if CeilLog(size) < 4 then 4 else CeilLog(size) }

  /** It is the least of the classes 4 to 13 whose objects hold the size. */
  lemma {:induction false} ClassLeast(size: nat, o: nat)
    requires 1 <= size <= 8192
    ensures 4 <= ClassOf(size) <= 13 && size <= Pow2(ClassOf(size))
    ensures 4 <= o && size <= Pow2(o) ==> ClassOf(size) <= o
  {
    Pow2Values();
    CeilLogLeast(size, 13);
    CeilLogLeast(size, o);
    Pow2Mono(CeilLog(size), ClassOf(size));
  }

  /** Slab `i` of the CPUs is full and no other slab of the cache has room. */
  ghost predicate Exhausted(st: State, k: Cid, i: nat)
  {
    && k in st.caches && k in st.cpu && i < |st.cpu[k]| && st.cpu[k][i] in st.slabs
    && st.slabs[st.cpu[k][i]].inuse == st.caches[k].count && k in st.part && st.part[k] == []
  }

  // ----- The blocks underneath -----------------------------------------------

  /** Live blocks of the buddy system do not overlap. */
  lemma {:induction false} BuddyApart(z: BuddyCore.Zone, lists: BuddyCore.Lists, live: map<nat, nat>)
    requires BuddyCore.Tiling(z, lists, live)
    ensures LiveApart(live)
  {
    forall p: Pfn, q: Pfn, x: Pfn | InBlock(live, p, x) && InBlock(live, q, x) ensures p == q {
      BlockHead(z, lists, live, p, x);
      BlockHead(z, lists, live, q, x);
      assert BuddyCore.Block(lists, live, Head(x, live[p]), live[p]) && BuddyCore.Block(lists, live, Head(x, live[q]), live[q]);
    }
  }

  lemma {:induction false} BlockHead(z: BuddyCore.Zone, lists: BuddyCore.Lists, live: map<nat, nat>, p: Pfn, x: Pfn)
    requires BuddyCore.Tiling(z, lists, live) && InBlock(live, p, x)
    ensures Head(x, live[p]) == p
  {
    assert BuddyCore.Block(lists, live, p, live[p]);
    BlockRange(p, x, live[p]);
    HeadProps(x, live[p]);
    HeadUnique(Head(x, live[p]), p, live[p]);
  }

  lemma {:induction false} MulAssoc(a: nat, b: nat, c: nat)
    ensures a * (b * c) == (a * b) * c
  {
  }

  /** Slots are aligned to the object size, since the buddy system aligns blocks. */
  lemma {:induction false} SlotAligned(c: Cache, objs: Pfn, i: nat)
    requires ShapeOk(c) && Aligned(objs, c.order)
    ensures SlotAddr(c, objs, i) == (Idx(objs, c.order) * c.count + i) * c.size
  {
    var d := Idx(objs, c.order);
    HeadProps(objs, c.order);
    Buddy.HeadMultiple(objs, c.order);
    MulAssoc(d, Pow2(c.order), PGSIZE);
    MulAssoc(d, c.count, c.size);
    assert (d * c.count + i) * c.size == d * c.count * c.size + i * c.size;
  }

  /** Every block in use is referenced once. */
  ghost predicate Unshared(pages: seq<BuddyCore.Page>, role: map<Pfn, Role>)
  {
    forall p: Pfn :: p in role ==> p < |pages| && pages[p].refcnt == 1
  }

  /** No block of the buddy system is lost: every live one serves something. */
  ghost predicate AllUsed(live: map<Pfn, nat>, role: map<Pfn, Role>)
  {
    forall p: Pfn {:trigger p in live} :: p in live ==> p in role
  }

  /** A block just granted changes nothing above the buddy system. */
  lemma {:induction false} GrantShown(st: State, l: Links.Links<SlabNode>, pages: seq<BuddyCore.Page>, pages': seq<BuddyCore.Page>,
                                      p: Pfn, order: nat)
    requires Linked(st, l) && p !in st.live && LiveApart(st.live[p := order])
    requires Unshared(pages, st.role) && |pages'| == |pages| && Buddy.SameRefsBut(pages, pages', p)
    ensures Linked(GrantStep(st, p, order), l) && Evolves(st, GrantStep(st, p, order), {}, {})
    ensures p !in st.role && Unshared(pages', st.role)
  {
    GrantKeeps(st, p, order);
    GrantEvolves(st, p, order);
  }

  lemma {:induction false} UsedMore(live: map<Pfn, nat>, role: map<Pfn, Role>, p: Pfn, n: nat, x: Role)
    requires AllUsed(live, role)
    ensures AllUsed(live[p := n], role[p := x])
  {
  }

  /** What slab_create leaves, seen from before its blocks were granted. */
  lemma {:induction false} PopulateShown(st: State, st1: State, l: Links.Links<SlabNode>, pages: seq<BuddyCore.Page>,
                                         hdr: Pfn, s: Slab, pageSlab: map<Pfn, Pfn>, onCpu: bool)
    requires Linked(st1, l) && CanCreate(st1, hdr, s, pageSlab) && Evolves(st, st1, {}, {}) && Unshared(pages, st1.role)
    requires hdr < |pages| && pages[hdr].refcnt == 1 && s.objs < |pages| && pages[s.objs].refcnt == 1
    ensures var st' := NewStep(st1, hdr, s, pageSlab, onCpu);
      Linked(st', NewLinks(l, hdr, s.kc, onCpu)) && Evolves(st, st', {}, {}) && Unshared(pages, st'.role)
  {
    NewShown(st, st1, hdr, s, pageSlab, onCpu);
    NewLists(l, st1, hdr, s, pageSlab, onCpu);
  }

  // ----- The heap ------------------------------------------------------------

  class Heap {
    const buddy: Buddy.Allocator
    var caches: map<Cid, Cache>
    var cpu: map<Cid, seq<Pfn>>     // cache_cpu
    var links: Links.Links<SlabNode>     // part_slabs, full_slabs and the slabs' `list` nodes
    var slabs: map<Pfn, Slab>
    var pageSlab: map<Pfn, Pfn>     // page->slab
    var flagged: set<Pfn>           // pages with PG_KMALLOC_PAGE
    ghost var part: map<Cid, seq<Pfn>>
    ghost var full: map<Cid, seq<Pfn>>
    ghost var role: map<Pfn, Role>
    ghost var home: map<Pfn, Home>

    ghost function Abs(): State
      reads this, buddy
    {
      State(caches, part, full, cpu, slabs, pageSlab, flagged, buddy.live, role, home)
    }

    /** The invariant, between operations: no block is lost. */
    ghost predicate Valid()
      reads this, buddy, buddy.pages
    {
      Laid() && AllUsed(buddy.live, role)
    }

    /** The invariant while a block just granted has no use yet. */
    ghost predicate Laid()
      reads this, buddy, buddy.pages
    {
      buddy.Valid() && Linked(Abs(), links) && Unshared(buddy.pages[..], role)
    }

    constructor (b: Buddy.Allocator)
      requires b.Valid() && b.live == map[]
      ensures Valid() && buddy == b && (forall a: Addr :: !Allocated(Abs(), a)) && caches == map[]
    {
      buddy := b;
      caches, part, full, cpu, links := map[], map[], map[], map[], Links.Links(map[], map[]);
      slabs, pageSlab, flagged, role, home := map[], map[], {}, map[], map[];
      new;
      assert LiveApart(b.live);
      ghost var st := Abs();
      forall d: Pfn ensures SlabOk(st, d) { }
      forall d: Pfn, x: Pfn ensures PageOk(st, d, x) { }
      forall l: Cid ensures CacheOk(st, l) { }
      forall q: Pfn ensures FlagOk(st, q) { }
      forall h: ListId ensures RingAt(links, part, full, h) { }
      forall d: Pfn ensures CpuLoose(links, home, d) { }
    }

    /** The size of the objects of the cache that `a` belongs to. */
    ghost function ObjectSize(a: Addr): (size: nat)
      reads this, buddy, buddy.pages
      requires Valid() && IsObject(Abs(), a)
      ensures 0 < size
    {
      SlabHas(Abs(), pageSlab[a / PGSIZE]);
      caches[slabs[pageSlab[a / PGSIZE]].kc].size
    }

    /** Every live object is aligned to its size. */
    lemma {:induction false} ObjectAligned(a: Addr)
      requires Valid() && IsObject(Abs(), a)
      ensures a % ObjectSize(a) == 0
    {
      var id := pageSlab[a / PGSIZE];
      SlabHas(Abs(), id);
      var s := slabs[id];
      var c := caches[s.kc];
      var i: nat :| i < c.count && a == SlotAddr(c, s.objs, i);
      assert BuddyCore.Block(buddy.lists, buddy.live, s.objs, c.order);
      SlotAligned(c, s.objs, i);
      DivExact(Idx(s.objs, c.order) * c.count + i, c.size);
    }

    /** __alloc_pages: a block of 2^order pages not used for anything yet. */
    method AllocBlock(order: nat) returns (r: Option<Pfn>)
      requires Laid()
      modifies buddy, buddy.pages
      ensures Laid() && Evolves(old(Abs()), Abs(), {}, {})
      ensures r.None? ==> Abs() == old(Abs()) && buddy.pages[..] == old(buddy.pages[..])
      ensures r.Some? ==> Buddy.SameRefsBut(old(buddy.pages[..]), buddy.pages[..], r.value)
      ensures r.Some? ==> Abs() == GrantStep(old(Abs()), r.value, order) && r.value !in old(buddy.live) && r.value !in role
      ensures r.Some? ==> old(buddy.FirstFit(r.value, order))
      ensures r.Some? ==> r.value < buddy.pages.Length && buddy.pages[r.value].refcnt == 1
      ensures r.Some? <==> Buddy.Granted(Buddy.Lens(old(buddy.lists)), order).Some?
      ensures r.Some? ==> Some(Buddy.Lens(buddy.lists)) == Buddy.Granted(Buddy.Lens(old(buddy.lists)), order)
    {
      ghost var st := Abs();
      r := buddy.AllocPages(order);
      if r.Some? {
        BuddyApart(buddy.zone, buddy.lists, buddy.live);
        GrantShown(st, links, old(buddy.pages[..]), buddy.pages[..], r.value, order);
        assert Abs() == GrantStep(st, r.value, order);
      } else {
        assert Abs() == st;
        EvolvesSame(st);
      }
    }

    /** __free_page of a block granted but not used, on the failure path of slab_create. */
    method GiveBack(p: Pfn, ghost st: State, order: nat)
      requires Laid() && Inv(st) && Abs() == GrantStep(st, p, order) && p !in st.live && p !in role
      requires p < buddy.pages.Length && buddy.pages[p].refcnt == 1
      modifies buddy, buddy.pages
      ensures Laid() && Abs() == st
    {
      buddy.FreePages(p);
      assert buddy.live == st.live;
      assert Abs() == st;
    }

    /** set_page_slab on each page of the block. */
    method SetPages(objs: Pfn, len: nat, id: Pfn)
      modifies this`pageSlab
      ensures PagesSet(old(pageSlab), pageSlab, objs, len, id)
    {
      var i := 0;
      while i < len
        invariant 0 <= i <= len && PagesSet(old(pageSlab), pageSlab, objs, i, id)
      {
        pageSlab := pageSlab[objs + i := id];
        i := i + 1;
      }
    }

    /** The free stack of a new slab: every slot once. */
    method FillStack(c: Cache, objs: Pfn) returns (free: seq<Addr>)
      requires ShapeOk(c)
      ensures |free| == c.count && NoDup(free) && forall i :: 0 <= i < |free| ==> IsSlot(c, objs, free[i])
      ensures forall i: nat :: i < |free| ==> free[i] == objs * PGSIZE + i * c.size
    {
      free := [];
      var i := 0;
      while i < c.count
        invariant 0 <= i <= c.count && |free| == i
        invariant forall j: nat :: j < i ==> free[j] == SlotAddr(c, objs, j)
      {
        free := free + [SlotAddr(c, objs, i)];
        i := i + 1;
      }
      forall j: nat, m: nat | j < m < c.count ensures free[j] != free[m] {
        if free[j] == free[m] { SlotsApart(c, objs, j, m, free[j]); }
      }
    }

    /** slab_create, and the list it is put on; on failure nothing stays allocated. */
    method SlabCreate(k: Cid, onCpu: bool) returns (r: Option<Pfn>)
      requires Valid() && k in caches
      modifies this, buddy, buddy.pages
      ensures Valid() && caches == old(caches) && Evolves(old(Abs()), Abs(), {}, {})
      ensures r.None? ==> Abs() == old(Abs())
      ensures r.Some? ==> r.value in slabs && slabs[r.value].kc == k && slabs[r.value].inuse == 0
      ensures r.Some? ==> r.value !in old(slabs) && slabs == old(slabs)[r.value := slabs[r.value]]
      ensures r.Some? ==> old(buddy.FirstFit(r.value, 0))
      ensures r.Some? ==> buddy.live == old(buddy.live)[r.value := 0][slabs[r.value].objs := caches[k].order]
      ensures r.Some? ==> k in old(part) && part == if onCpu then old(part) else old(part)[k := [r.value] + old(part)[k]]
      ensures r.Some? ==> k in old(cpu) && cpu == if onCpu then old(cpu)[k := old(cpu)[k] + [r.value]] else old(cpu)
      ensures r.Some? <==> GrantedSlab(Buddy.Lens(old(buddy.lists)), old(caches)[k].order).Some?
      ensures r.Some? ==> Some(Buddy.Lens(buddy.lists)) == GrantedSlab(Buddy.Lens(old(buddy.lists)), old(caches)[k].order)
    {
      ghost var live0, role0 := buddy.live, role;
      CacheHas(Abs(), k);
      var ok, hdr, objs := GrantTwo(caches[k].order);
      if !ok {
        return None;
      }
      SlabHas(old(Abs()), hdr);
      UsedMore(live0, role0, hdr, 0, Header);
      UsedMore(live0[hdr := 0], role0[hdr := Header], objs, caches[k].order, Objects(hdr));
      Populate(k, onCpu, hdr, objs, old(Abs()));
      r := Some(hdr);
    }

    /** The two allocations of slab_create; if the second fails the first is undone. */
    method GrantTwo(order: nat) returns (ok: bool, hdr: Pfn, objs: Pfn)
      requires Laid()
      modifies buddy, buddy.pages
      ensures Laid() && Evolves(old(Abs()), Abs(), {}, {})
      ensures !ok ==> Abs() == old(Abs())
      ensures ok ==> hdr != objs && hdr !in old(buddy.live) && hdr !in role && objs !in role
      ensures ok ==> Abs() == GrantStep(GrantStep(old(Abs()), hdr, 0), objs, order)
      ensures ok ==> old(buddy.FirstFit(hdr, 0))
      ensures ok ==> hdr < buddy.pages.Length && buddy.pages[hdr].refcnt == 1 && objs < buddy.pages.Length && buddy.pages[objs].refcnt == 1
      ensures ok <==> GrantedSlab(Buddy.Lens(old(buddy.lists)), order).Some?
      ensures ok ==> Some(Buddy.Lens(buddy.lists)) == GrantedSlab(Buddy.Lens(old(buddy.lists)), order)
    {
      ghost var st := Abs();
      EvolvesSame(st);
      hdr, objs := 0, 0;
      var first := AllocBlock(0);
      if first.None? {
        return false, hdr, objs;
      }
      hdr := first.value;
      ok, objs := GrantSecond(hdr, order, st);
    }

    method GrantSecond(hdr: Pfn, order: nat, ghost st: State) returns (ok: bool, objs: Pfn)
      requires Laid() && Inv(st) && Abs() == GrantStep(st, hdr, 0) && hdr !in st.live && hdr !in role && Evolves(st, Abs(), {}, {})
      requires hdr < buddy.pages.Length && buddy.pages[hdr].refcnt == 1
      modifies buddy, buddy.pages
      ensures Laid() && Evolves(st, Abs(), {}, {})
      ensures !ok ==> Abs() == st
      ensures ok ==> hdr != objs && objs !in role && Abs() == GrantStep(GrantStep(st, hdr, 0), objs, order)
      ensures ok ==> hdr < buddy.pages.Length && buddy.pages[hdr].refcnt == 1 && objs < buddy.pages.Length && buddy.pages[objs].refcnt == 1
      ensures ok <==> Buddy.Granted(Buddy.Lens(old(buddy.lists)), order).Some?
      ensures ok ==> Some(Buddy.Lens(buddy.lists)) == Buddy.Granted(Buddy.Lens(old(buddy.lists)), order)
    {
      ghost var st1 := Abs();
      objs := 0;
      var second := AllocBlock(order);
      if second.None? {
        EvolvesSame(st);
        GiveBack(hdr, st, 0);
        return false, objs;
      }
      EvolvesAfter(st, st1, Abs(), {}, {});
      ok, objs := true, second.value;
    }

    /** slab_create after its two allocations. */
    method Populate(k: Cid, onCpu: bool, hdr: Pfn, objs: Pfn, ghost st: State)
      requires Laid() && k in caches && hdr != objs && hdr in buddy.live && hdr !in role
      requires objs in buddy.live && objs !in role && buddy.live[objs] == caches[k].order
      requires hdr < buddy.pages.Length && buddy.pages[hdr].refcnt == 1 && objs < buddy.pages.Length && buddy.pages[objs].refcnt == 1
      requires Evolves(st, Abs(), {}, {})
      modifies this
      ensures Laid() && caches == old(caches) && Evolves(st, Abs(), {}, {})
      ensures hdr in slabs && slabs[hdr].kc == k && slabs[hdr].inuse == 0 && slabs[hdr].objs == objs
      ensures role == old(role)[hdr := Header][objs := Objects(hdr)] && slabs == old(slabs)[hdr := slabs[hdr]]
      ensures k in old(part) && part == if onCpu then old(part) else old(part)[k := [hdr] + old(part)[k]]
      ensures k in old(cpu) && cpu == if onCpu then old(cpu)[k := old(cpu)[k] + [hdr]] else old(cpu)
    {
      ghost var st1, l := Abs(), links;
      CacheHas(st1, k);
      var free := FillStack(caches[k], objs);
      var s := Slab(k, objs, 0, free);
      Insert(hdr, s, onCpu);
      PopulateShown(st, st1, l, buddy.pages[..], hdr, s, pageSlab, onCpu);
    }

    /** The writes of slab_create and of its callers. */
    method Insert(hdr: Pfn, s: Slab, onCpu: bool)
      requires s.kc in caches && s.kc in part && s.kc in cpu
      modifies this`pageSlab, this`slabs, this`role, this`home, this`part, this`cpu, this`links
      ensures PagesSet(old(pageSlab), pageSlab, s.objs, Pow2(caches[s.kc].order), hdr)
      ensures Abs() == NewStep(old(Abs()), hdr, s, pageSlab, onCpu) && links == NewLinks(old(links), hdr, s.kc, onCpu)
    {
      SetPages(s.objs, Pow2(caches[s.kc].order), hdr);
      ghost var st' := NewStep(Abs(), hdr, s, pageSlab, onCpu);
      LinkIn(hdr, s, onCpu);
      part, home, role := st'.part, st'.home, st'.role;
    }

    /** The new slab becomes a CPU slab (cache_cpu_init) or goes on its cache's partial
        list (kmem_cache_add_slab). */
    method LinkIn(hdr: Pfn, s: Slab, onCpu: bool)
      requires s.kc in cpu
      modifies this`slabs, this`cpu, this`links
      ensures slabs == old(slabs)[hdr := s] && links == NewLinks(old(links), hdr, s.kc, onCpu)
      ensures cpu == if onCpu then old(cpu)[s.kc := old(cpu)[s.kc] + [hdr]] else old(cpu)
    {
      slabs := slabs[hdr := s];
      links := Links.InitNode(links, NodeOf(hdr));
      if onCpu {
        cpu := cpu[s.kc := cpu[s.kc] + [hdr]];
      } else {
        links := Links.AddHead(links, NodeOf(hdr), PartHead(s.kc));
      }
    }

    /** obj_pop; its panic on an empty stack cannot happen. With `listed`, the slab was
        taken from the partial list and moves to the full list when it becomes full. */
    method ObjPop(id: Pfn, listed: bool) returns (a: Addr)
      requires Valid() && CanPop(Abs(), id)
      requires if ServesCpu(home, id) then !listed else listed || slabs[id].inuse + 1 < caches[slabs[id].kc].count
      modifies this
      ensures Valid() && caches == old(caches) && cpu == old(cpu)
      ensures Evolves(old(Abs()), Abs(), {a}, {}) && !Allocated(old(Abs()), a)
      ensures Served(old(Abs()), Abs(), id, a) && old(slabs)[id].free == slabs[id].free + [a]
      ensures var kc := old(slabs)[id].kc;
        if listed && old(slabs)[id].inuse + 1 == caches[kc].count
        then kc in old(part) && kc in old(full) && part == old(part)[kc := Without(old(part)[kc], id)] && full == old(full)[kc := [id] + old(full)[kc]]
        else part == old(part) && full == old(full)
      ensures Allocated(Abs(), a) && Span(Abs(), a) == caches[old(slabs)[id].kc].size
    {
      ghost var st := Abs();
      CanPopHas(st, id);
      PopEvolves(st, id);
      PopServed(st, id);
      PopLists(links, st, id);
      a := PopFrom(id, listed);
    }

    method PopFrom(id: Pfn, listed: bool) returns (a: Addr)
      requires id in slabs && slabs[id].free != [] && slabs[id].kc in caches && slabs[id].kc in part && slabs[id].kc in full
      requires if ServesCpu(home, id) then !listed else listed || slabs[id].inuse + 1 < caches[slabs[id].kc].count
      modifies this`slabs, this`links, this`home, this`part, this`full
      ensures Abs() == PopStep(old(Abs()), id) && a == old(slabs)[id].free[|old(slabs)[id].free| - 1]
      ensures links == PopLinks(old(links), id, old(slabs)[id], caches[old(slabs)[id].kc], ServesCpu(old(home), id))
    {
      ghost var st' := PopStep(Abs(), id);
      a := TakeObject(id, listed, ServesCpu(home, id));
      part, full, home := st'.part, st'.full, st'.home;
    }

    /** The writes of obj_pop and of the move to the full list. */
    method TakeObject(id: Pfn, listed: bool, ghost onCpu: bool) returns (a: Addr)
      requires id in slabs && slabs[id].free != [] && slabs[id].kc in caches
      requires if onCpu then !listed else listed || slabs[id].inuse + 1 < caches[slabs[id].kc].count
      modifies this`slabs, this`links
      ensures links == PopLinks(old(links), id, old(slabs)[id], caches[old(slabs)[id].kc], onCpu)
      ensures a == old(slabs)[id].free[|old(slabs)[id].free| - 1] && slabs == old(slabs)[id := Popped(old(slabs)[id])]
    {
      var s := slabs[id];
      a := s.free[|s.free| - 1];
      s := s.(free := s.free[..|s.free| - 1], inuse := s.inuse + 1);
      slabs := slabs[id := s];
      if listed && s.inuse == caches[s.kc].count {
        links := Links.Del(links, NodeOf(id));
        links := Links.AddHead(links, NodeOf(id), FullHead(s.kc));
      }
    }

    /** kmem_cache_alloc on CPU slab number `i`: an object of this cache that was not
        allocated before, from the CPU slab if it has room, else from the first partial
        slab, else from a new one. None only when a new slab is needed and no pages are
        left. */
    method CacheAlloc(k: Cid, i: nat) returns (r: Option<Addr>)
      requires Valid() && k in caches && k in cpu && i < |cpu[k]|
      modifies this, buddy, buddy.pages
      ensures Valid() && caches == old(caches) && cpu == old(cpu)
      ensures r.None? ==> Abs() == old(Abs())
      ensures r.None? <==> Exhausted(old(Abs()), k, i) && GrantedSlab(Buddy.Lens(old(buddy.lists)), old(caches)[k].order).None?
      ensures r.Some? ==>
        && Evolves(old(Abs()), Abs(), {r.value}, {}) && !Allocated(old(Abs()), r.value)
        && Allocated(Abs(), r.value) && Span(Abs(), r.value) == caches[k].size
      ensures !Exhausted(old(Abs()), k, i) ==> buddy.live == old(buddy.live) && slabs.Keys == old(slabs).Keys
      ensures old(cpu)[k][i] in old(slabs) && k in old(part)
      ensures old(slabs)[old(cpu)[k][i]].inuse < old(caches)[k].count ==>
        r.Some? && Served(old(Abs()), Abs(), old(cpu)[k][i], r.value) && part == old(part) && full == old(full)
      ensures old(slabs)[old(cpu)[k][i]].inuse == old(caches)[k].count && old(part)[k] != [] ==>
        && r.Some? && Served(old(Abs()), Abs(), old(part)[k][0], r.value) && old(part)[k][0] in old(slabs) && k in old(full)
        && if old(slabs)[old(part)[k][0]].inuse + 1 == caches[k].count
           then part == old(part)[k := old(part)[k][1..]] && full == old(full)[k := [old(part)[k][0]] + old(full)[k]]
           else part == old(part) && full == old(full)
      ensures old(slabs)[old(cpu)[k][i]].inuse == old(caches)[k].count && old(part)[k] == [] && r.Some? ==>
        && r.value / PGSIZE in pageSlab && pageSlab[r.value / PGSIZE] !in old(slabs)
        && slabs.Keys == old(slabs).Keys + {pageSlab[r.value / PGSIZE]} && k in part && part[k] == [pageSlab[r.value / PGSIZE]]
    {
      ghost var st := Abs();
      CacheHas(st, k);
      var id := cpu[k][i];
      assert Member(cpu[k], home, OnCpu(k), id);
      SlabHas(st, id);
      if slabs[id].inuse != caches[k].count {
        var a := ObjPop(id, false);
        return Some(a);
      }
      PartFirst(links, st, k);
      if Links.Empty(links, PartHead(k)) {
        r := AddAndPop(k);
        return;
      }
      var first := Links.Next(links, PartHead(k)).t;
      assert Member(part[k], home, InPart(k), first);
      SlabHas(st, first);
      var c := ObjPop(first, true);
      r := Some(c);
    }

    /** kmem_cache_add_slab and obj_pop: a new slab always has a second object left, so
        it stays on the partial list. */
    method AddAndPop(k: Cid) returns (r: Option<Addr>)
      requires Valid() && k in caches && k in cpu && k in part && part[k] == []
      modifies this, buddy, buddy.pages
      ensures Valid() && caches == old(caches) && cpu == old(cpu)
      ensures r.None? ==> Abs() == old(Abs())
      ensures r.None? <==> GrantedSlab(Buddy.Lens(old(buddy.lists)), old(caches)[k].order).None?
      ensures r.Some? ==>
        && Evolves(old(Abs()), Abs(), {r.value}, {}) && !Allocated(old(Abs()), r.value)
        && Allocated(Abs(), r.value) && Span(Abs(), r.value) == caches[k].size
      ensures r.Some? ==>
        && r.value / PGSIZE in pageSlab && pageSlab[r.value / PGSIZE] !in old(slabs)
        && slabs.Keys == old(slabs).Keys + {pageSlab[r.value / PGSIZE]} && k in part && part[k] == [pageSlab[r.value / PGSIZE]]
    {
      ghost var st := Abs();
      var fresh_ := SlabCreate(k, false);
      if fresh_.None? {
        return None;
      }
      ghost var st1 := Abs();
      CacheHas(st1, k);
      SlabHas(st1, fresh_.value);
      assert slabs.Keys == old(slabs).Keys + {fresh_.value};
      assert Member(part[k], home, InPart(k), fresh_.value);
      var b := ObjPop(fresh_.value, false);
      EvolvesAfter(st, st1, Abs(), {b}, {});
      assert EvolvesAt(st, st1, {}, {}, b);
      r := Some(b);
    }

    /** kmem_cache_free: the object's page leads to its slab. The stack has room, so
        the panic of obj_push cannot happen. */
    method CacheFree(a: Addr)
      requires Valid() && IsObject(Abs(), a)
      modifies this
      ensures Valid() && caches == old(caches) && cpu == old(cpu) && Evolves(old(Abs()), Abs(), {}, {a})
      ensures slabs.Keys == old(slabs).Keys
      ensures a / PGSIZE in old(pageSlab) && old(pageSlab)[a / PGSIZE] in old(slabs)
      ensures var (id, kc) := (old(pageSlab)[a / PGSIZE], old(slabs)[old(pageSlab)[a / PGSIZE]].kc);
        && id in slabs && slabs[id].free == old(slabs)[id].free + [a] && kc in caches && kc in old(part) && kc in old(full)
        && if old(slabs)[id].inuse == caches[kc].count && !ServesCpu(old(home), id)
           then part == old(part)[kc := [id] + old(part)[kc]] && full == old(full)[kc := Without(old(full)[kc], id)]
           else part == old(part) && full == old(full)
    {
      ghost var st := Abs();
      CanPushHas(st, a);
      PushEvolves(st, a);
      PushLists(links, st, pageSlab[a / PGSIZE], a);
      CpuTest(links, st, pageSlab[a / PGSIZE]);
      PushTo(pageSlab[a / PGSIZE], a);
    }

    method PushTo(id: Pfn, a: Addr)
      requires id in slabs && 0 < slabs[id].inuse && |slabs[id].free| < STACK_MAX
      requires slabs[id].kc in caches && slabs[id].kc in part && slabs[id].kc in full
      requires Links.Empty(links, NodeOf(id)) <==> ServesCpu(home, id)
      modifies this`slabs, this`links, this`home, this`part, this`full
      ensures Abs() == PushStep(old(Abs()), id, a)
      ensures links == PushLinks(old(links), id, old(slabs)[id], caches[old(slabs)[id].kc], ServesCpu(old(home), id))
    {
      ghost var st' := PushStep(Abs(), id, a);
      PutObject(id, a, ServesCpu(home, id));
      part, full, home := st'.part, st'.full, st'.home;
    }

    /** The writes of the move to the partial list and of obj_push, whose panic on a full
        stack is not reached. A slab whose node is linked to itself is not moved. */
    method PutObject(id: Pfn, a: Addr, ghost onCpu: bool)
      requires id in slabs && 0 < slabs[id].inuse && |slabs[id].free| < STACK_MAX && slabs[id].kc in caches
      requires Links.Empty(links, NodeOf(id)) <==> onCpu
      modifies this`slabs, this`links
      ensures links == PushLinks(old(links), id, old(slabs)[id], caches[old(slabs)[id].kc], onCpu)
      ensures slabs == old(slabs)[id := Pushed(old(slabs)[id], a)]
    {
      var s := slabs[id];
      if !Links.Empty(links, NodeOf(id)) && s.inuse == caches[s.kc].count {
        links := Links.Del(links, NodeOf(id));
        links := Links.AddHead(links, NodeOf(id), PartHead(s.kc));
      }
      slabs := slabs[id := s.(free := s.free + [a], inuse := s.inuse - 1)];
    }

    /** kmem_cache_create with one slab for each of `ncpu` CPUs. */
    method CacheCreate(k: Cid, size: nat, ncpu: nat) returns (ok: bool)
      requires Valid() && k !in caches && size < 65536
      modifies this, buddy, buddy.pages
      ensures Valid() && Evolves(old(Abs()), Abs(), {}, {})
      ensures ok <==> 8 < size <= 32768 && GrantedSlabs(Buddy.Lens(old(buddy.lists)), OrderFor(CeilLog(size)), ncpu).Some?
      ensures ok ==> Some(Buddy.Lens(buddy.lists)) == GrantedSlabs(Buddy.Lens(old(buddy.lists)), OrderFor(CeilLog(size)), ncpu)
      ensures ok ==> k in caches && caches == old(caches)[k := caches[k]] && caches[k].size == Pow2(CeilLog(size)) && size <= caches[k].size
      ensures ok ==> caches[k].order == OrderFor(CeilLog(size))
      ensures ok ==> k in cpu && |cpu[k]| == ncpu && OthersStand(old(cpu), cpu, k)
    {
      ghost var st := Abs();
      EvolvesSame(st);
      var shape := CacheShape(size);
      if shape.None? {
        return false;
      }
      Register(k, shape.value);
      ghost var st1, cpu1 := Abs(), cpu;
      ok := CpuInit(k, ncpu);
      EvolvesAfter(st, st1, Abs(), {}, {});
      if ok { StandTwice(old(cpu), cpu1, cpu, k); }
    }

    /** A cache with empty lists. */
    method Register(k: Cid, c: Cache)
      requires Valid() && k !in caches && ShapeOk(c)
      modifies this`caches, this`part, this`full, this`cpu, this`links
      ensures Valid() && Evolves(old(Abs()), Abs(), {}, {})
      ensures caches == old(caches)[k := c] && k in cpu && cpu[k] == [] && OthersStand(old(cpu), cpu, k)
    {
      ghost var st := Abs();
      AddCacheEvolves(st, k, c);
      CacheLists(links, st, k, c);
      Enter(k, c);
    }

    method Enter(k: Cid, c: Cache)
      modifies this`caches, this`part, this`full, this`cpu, this`links
      ensures Abs() == AddCache(old(Abs()), k, c) && links == Registered(old(links), k)
    {
      links := Registered(links, k);
      caches, part, full, cpu := caches[k := c], part[k := []], full[k := []], cpu[k := []];
    }

    /** cache_cpu_init */
    method CpuInit(k: Cid, ncpu: nat) returns (ok: bool)
      requires Valid() && k in caches && k in cpu && cpu[k] == []
      modifies this, buddy, buddy.pages
      ensures Valid() && caches == old(caches) && Evolves(old(Abs()), Abs(), {}, {})
      ensures ok ==> k in cpu && |cpu[k]| == ncpu && OthersStand(old(cpu), cpu, k)
      ensures ok <==> GrantedSlabs(Buddy.Lens(old(buddy.lists)), old(caches)[k].order, ncpu).Some?
      ensures ok ==> Some(Buddy.Lens(buddy.lists)) == GrantedSlabs(Buddy.Lens(old(buddy.lists)), old(caches)[k].order, ncpu)
    {
      ghost var st := Abs();
      EvolvesSame(st);
      ghost var order, left := caches[k].order, ncpu;
      ghost var goal := GrantedSlabs(Buddy.Lens(buddy.lists), order, left);
      var i := 0;
      while i < ncpu
        invariant 0 <= i <= ncpu && Valid() && caches == old(caches) && Evolves(st, Abs(), {}, {})
        invariant k in cpu && |cpu[k]| == i && OthersStand(st.cpu, cpu, k)
        invariant order == caches[k].order && left == ncpu - i && goal == GrantedSlabs(Buddy.Lens(buddy.lists), order, left)
      {
        ok := CpuRound(k, left, st);
        if !ok {
          return;
        }
        i, left := i + 1, left - 1;
      }
      ok := true;
    }

    /** One round of cache_cpu_init, with `left` slabs still to make. */
    method CpuRound(k: Cid, ghost left: nat, ghost st: State) returns (ok: bool)
      requires Valid() && k in caches && k in cpu && 0 < left && Evolves(st, Abs(), {}, {}) && OthersStand(st.cpu, cpu, k)
      modifies this, buddy, buddy.pages
      ensures Valid() && caches == old(caches) && Evolves(st, Abs(), {}, {})
      ensures ok ==> k in cpu && |cpu[k]| == |old(cpu)[k]| + 1 && OthersStand(st.cpu, cpu, k)
      ensures var goal := GrantedSlabs(Buddy.Lens(old(buddy.lists)), old(caches)[k].order, left);
        if ok then goal == GrantedSlabs(Buddy.Lens(buddy.lists), old(caches)[k].order, left - 1) else goal.None?
    {
      ghost var st1 := Abs();
      var slab := SlabCreate(k, true);
      EvolvesAfter(st, st1, Abs(), {}, {});
      ok := slab.Some?;
      if ok { StandTwice(st.cpu, st1.cpu, cpu, k); }
    }

    // ----- kmalloc -----------------------------------------------------------

    /** The caches kmalloc16 to kmalloc8192. */
    ghost predicate Ready(ncpu: nat)
      reads this
    {
      ReadyTo(caches, cpu, 14, ncpu)
    }

    /** kmalloc_init; false is the panic when pages run out. */
    method KmallocInit(ncpu: nat) returns (ok: bool)
      requires Valid() && Absent(caches, 4)
      modifies this, buddy, buddy.pages
      ensures Valid() && Evolves(old(Abs()), Abs(), {}, {}) && (ok ==> Ready(ncpu))
      ensures ok <==> GrantedClasses(Buddy.Lens(old(buddy.lists)), 4, ncpu).Some?
    {
      ghost var st := Abs();
      EvolvesSame(st);
      ghost var goal := GrantedClasses(Buddy.Lens(buddy.lists), 4, ncpu);
      var o := 4;
      while o <= 13
        invariant 4 <= o <= 14 && Valid() && Evolves(st, Abs(), {}, {})
        invariant ReadyTo(caches, cpu, o, ncpu) && Absent(caches, o)
        invariant goal == GrantedClasses(Buddy.Lens(buddy.lists), o, ncpu)
      {
        ok := ClassRound(o, ncpu, st);
        if !ok {
          return;
        }
        o := o + 1;
      }
      ok := true;
    }

    /** One round of it: the class, and what the lists still have to serve. */
    method ClassRound(o: nat, ncpu: nat, ghost st: State) returns (ok: bool)
      requires Valid() && 4 <= o <= 13 && ReadyTo(caches, cpu, o, ncpu) && Absent(caches, o) && Evolves(st, Abs(), {}, {})
      modifies this, buddy, buddy.pages
      ensures Valid() && Evolves(st, Abs(), {}, {})
      ensures ok ==> ReadyTo(caches, cpu, o + 1, ncpu) && Absent(caches, o + 1)
      ensures var goal := GrantedClasses(Buddy.Lens(old(buddy.lists)), o, ncpu);
        if ok then goal == GrantedClasses(Buddy.Lens(buddy.lists), o + 1, ncpu) else goal.None?
    {
      ghost var st1 := Abs();
      ok := AddClass(o, ncpu);
      EvolvesAfter(st, st1, Abs(), {}, {});
    }

    /** One line of kmalloc_init. */
    method AddClass(o: nat, ncpu: nat) returns (ok: bool)
      requires Valid() && 4 <= o <= 13 && ReadyTo(caches, cpu, o, ncpu) && Absent(caches, o)
      modifies this, buddy, buddy.pages
      ensures Valid() && Evolves(old(Abs()), Abs(), {}, {})
      ensures ok ==> ReadyTo(caches, cpu, o + 1, ncpu) && Absent(caches, o + 1)
      ensures ok <==> GrantedSlabs(Buddy.Lens(old(buddy.lists)), OrderFor(o), ncpu).Some?
      ensures ok ==> Some(Buddy.Lens(buddy.lists)) == GrantedSlabs(Buddy.Lens(old(buddy.lists)), OrderFor(o), ncpu)
    {
      ClassSize(o);
      ok := CacheCreate(o, Pow2(o), ncpu);
      if ok {
        ReadyStep(old(caches), old(cpu), caches, cpu, o, ncpu);
      }
    }

    /** kmalloc: a block of at least `size` bytes that was not allocated before and
        shares no byte with any other (AllocationsApart). The callers' sizes are
        1 to MAX_KMALLOC_PAGE; others panic. */
    method Kmalloc(size: nat, i: nat, ncpu: nat) returns (r: Option<Addr>)
      requires Valid() && Ready(ncpu) && i < ncpu && 1 <= size <= 1024 * PGSIZE
      modifies this, buddy, buddy.pages
      ensures Valid() && Ready(ncpu)
      ensures r.None? ==> Abs() == old(Abs())
      ensures r.Some? ==>
        && Evolves(old(Abs()), Abs(), {r.value}, {}) && !Allocated(old(Abs()), r.value)
        && Allocated(Abs(), r.value) && size <= Span(Abs(), r.value)
      ensures size <= 8192 && r.Some? ==> Span(Abs(), r.value) == Pow2(ClassOf(size))
      ensures size <= 8192 && !Exhausted(old(Abs()), ClassOf(size), i) ==> buddy.live == old(buddy.live) && slabs.Keys == old(slabs).Keys
      ensures size > 8192 && r.Some? ==>
        && buddy.live == old(buddy.live)[r.value / PGSIZE := CeilLog((size + PGSIZE - 1) / PGSIZE)] && slabs == old(slabs)
        && r.value % PGSIZE == 0 && r.value / PGSIZE !in old(buddy.live)
      ensures size <= 8192 ==>
        (r.None? <==> Exhausted(old(Abs()), ClassOf(size), i)
                      && GrantedSlab(Buddy.Lens(old(buddy.lists)), OrderFor(ClassOf(size))).None?)
      ensures size > 8192 ==>
        (r.None? <==> Buddy.Granted(Buddy.Lens(old(buddy.lists)), CeilLog((size + PGSIZE - 1) / PGSIZE)).None?)
    {
      if size <= 8192 {
        r := SmallAlloc(size, i, ncpu);
      } else {
        r := BigAlloc(size);
      }
    }

    /** kmalloc from the cache of the least sufficient class. */
    method SmallAlloc(size: nat, i: nat, ncpu: nat) returns (r: Option<Addr>)
      requires Valid() && Ready(ncpu) && i < ncpu && 1 <= size <= 8192
      modifies this, buddy, buddy.pages
      ensures Valid() && Ready(ncpu)
      ensures r.None? ==> Abs() == old(Abs())
      ensures r.Some? ==>
        && Evolves(old(Abs()), Abs(), {r.value}, {}) && !Allocated(old(Abs()), r.value)
        && Allocated(Abs(), r.value) && size <= Span(Abs(), r.value)
      ensures r.Some? ==> Span(Abs(), r.value) == Pow2(ClassOf(size))
      ensures !Exhausted(old(Abs()), ClassOf(size), i) ==> buddy.live == old(buddy.live) && slabs.Keys == old(slabs).Keys
      ensures r.None? <==> Exhausted(old(Abs()), ClassOf(size), i)
                           && GrantedSlab(Buddy.Lens(old(buddy.lists)), OrderFor(ClassOf(size))).None?
    {
      var order := MathOrder2(size);
      Pow2Values();
      CeilLogLeast(size, 13);
      var o := if order < 4 then 4 else order;
      Pow2Mono(order, o);
      assert ClassOk(caches, cpu, o, ncpu);
      r := CacheAlloc(o, i);
    }

    /** kmalloc from the buddy system, the head page flagged. */
    method BigAlloc(size: nat) returns (r: Option<Addr>)
      requires Valid() && 8192 < size <= 1024 * PGSIZE
      modifies this`flagged, this`role, buddy, buddy.pages
      ensures Valid()
      ensures r.None? ==> Abs() == old(Abs())
      ensures r.Some? ==>
        && Evolves(old(Abs()), Abs(), {r.value}, {}) && !Allocated(old(Abs()), r.value)
        && Allocated(Abs(), r.value) && size <= Span(Abs(), r.value)
      ensures r.Some? ==> buddy.live == old(buddy.live)[r.value / PGSIZE := CeilLog((size + PGSIZE - 1) / PGSIZE)]
      ensures r.Some? ==> r.value % PGSIZE == 0 && r.value / PGSIZE !in old(buddy.live)
      ensures r.Some? <==> Buddy.Granted(Buddy.Lens(old(buddy.lists)), CeilLog((size + PGSIZE - 1) / PGSIZE)).Some?
    {
      var order := BlockOrder(size);
      var p := GrantFlagged(order);
      if p.None? {
        return None;
      }
      DivExact(p.value, PGSIZE);
      r := Some(p.value * PGSIZE);
    }

    /** __alloc_pages and set_page_kmalloc_page */
    method GrantFlagged(order: nat) returns (p: Option<Pfn>)
      requires Valid()
      modifies this`flagged, this`role, buddy, buddy.pages
      ensures Valid()
      ensures p.None? ==> Abs() == old(Abs())
      ensures p.Some? ==> p.value !in old(buddy.live) && buddy.live == old(buddy.live)[p.value := order]
      ensures p.Some? ==> Evolves(old(Abs()), Abs(), {p.value * PGSIZE}, {}) && !Allocated(old(Abs()), p.value * PGSIZE)
      ensures p.Some? ==> Allocated(Abs(), p.value * PGSIZE) && Span(Abs(), p.value * PGSIZE) == Pow2(order) * PGSIZE
      ensures p.Some? <==> Buddy.Granted(Buddy.Lens(old(buddy.lists)), order).Some?
    {
      ghost var st := Abs();
      p := AllocBlock(order);
      if p.Some? {
        UsedMore(st.live, st.role, p.value, order, Big);
        FlagBlock(p.value, st);
      }
    }

    /** set_page_kmalloc_page on a block just granted. */
    method FlagBlock(p: Pfn, ghost st: State)
      requires Laid() && p in buddy.live && p !in role && p < buddy.pages.Length && buddy.pages[p].refcnt == 1
      requires Evolves(st, Abs(), {}, {})
      modifies this`flagged, this`role
      ensures Laid() && Evolves(st, Abs(), {p * PGSIZE}, {}) && !Allocated(st, p * PGSIZE)
      ensures role == old(role)[p := Big]
      ensures Allocated(Abs(), p * PGSIZE) && Span(Abs(), p * PGSIZE) == Pow2(buddy.live[p]) * PGSIZE
    {
      ghost var st1 := Abs();
      FlagKeeps(st1, p);
      FlagEvolves(st1, p);
      EvolvesAfter(st, st1, FlagStep(st1, p), {p * PGSIZE}, {});
      assert EvolvesAt(st, st1, {}, {}, p * PGSIZE);
      flagged := flagged + {p};
      role := role[p := Big];
      assert Abs() == FlagStep(st1, p);
    }

    /** kfree: exactly this allocation goes, whichever way it was made. */
    method Kfree(a: Addr)
      requires Valid() && Allocated(Abs(), a)
      modifies this, buddy, buddy.pages
      ensures Valid() && caches == old(caches) && cpu == old(cpu) && Evolves(old(Abs()), Abs(), {}, {a})
      ensures slabs.Keys == old(slabs).Keys
      ensures if IsBig(old(Abs()), a)
        then a / PGSIZE in old(buddy.live) && buddy.live == old(buddy.live) - {a / PGSIZE}
          && buddy.free == old(buddy.free) + Pow2(old(buddy.live)[a / PGSIZE])
        else buddy.live == old(buddy.live) && buddy.free == old(buddy.free)
    {
      RouteMatches(Abs(), a);
      if a / PGSIZE !in flagged {
        CacheFree(a);
      } else {
        BigFree(a / PGSIZE);
      }
    }

    /** kfree of a page-sized block. */
    method BigFree(p: Pfn)
      requires Valid() && p in role && role[p] == Big
      modifies this`flagged, this`role, buddy, buddy.pages
      ensures Valid() && Evolves(old(Abs()), Abs(), {}, {p * PGSIZE})
      ensures p in old(buddy.live) && buddy.live == old(buddy.live) - {p} && buddy.free == old(buddy.free) + Pow2(old(buddy.live)[p])
    {
      ghost var st := Abs();
      FlagHas(st, p);
      ReleaseKeeps(st, p);
      ReleaseEvolves(st, p);
      flagged := flagged - {p};
      role := role - {p};
      buddy.FreePages(p);
      assert Abs() == ReleaseStep(st, p);
    }
  }
}
