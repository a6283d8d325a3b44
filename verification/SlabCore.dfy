/** Slab caches and page-sized allocations as values (mm/slab.c, mm/kmalloc.c):
    the invariant that ties free stacks, lists, page descriptors and the blocks of
    the buddy system together. Addresses are byte offsets from the first page. */
module SlabCore {
  import opened Bits
  import opened Queues

  const PGSIZE: nat := 4096
  const STACK_MAX: nat := 256   // FREE_LIST_MAX_LEN

  type Pfn = nat
  type Addr = nat
  type Cid = nat

  /** What kmem_cache_create computes. */
  datatype Cache = Cache(size: nat, order: nat, count: nat)

  /** A slab, named by the page of its header. */
  datatype Slab = Slab(kc: Cid, objs: Pfn, inuse: nat, free: seq<Addr>)

  /** What a block of the buddy system is used for. */
  datatype Role = Header | Objects(id: Pfn) | Big

  /** Whether a slab serves a CPU, or which list it is on. */
  datatype Home = OnCpu(k: Cid) | InPart(k: Cid) | InFull(k: Cid)

  datatype State = State(
    caches: map<Cid, Cache>, part: map<Cid, seq<Pfn>>, full: map<Cid, seq<Pfn>>, cpu: map<Cid, seq<Pfn>>,
    slabs: map<Pfn, Slab>, pageSlab: map<Pfn, Pfn>, flagged: set<Pfn>,
    live: map<Pfn, nat>, role: map<Pfn, Role>, home: map<Pfn, Home>)

  // ----- Blocks and slots ----------------------------------------------------

  ghost predicate InBlock(live: map<Pfn, nat>, p: Pfn, x: Pfn) { p in live && p <= x < p + Pow2(live[p]) }

  /** The blocks of the buddy system do not overlap. */
  ghost predicate LiveApart(live: map<Pfn, nat>)
  {
    forall p: Pfn, q: Pfn, x: Pfn {:trigger InBlock(live, p, x), InBlock(live, q, x)} ::
      InBlock(live, p, x) && InBlock(live, q, x) ==> p == q
  }

  function SlotAddr(c: Cache, objs: Pfn, i: nat): Addr { objs * PGSIZE + i * c.size }

  ghost predicate IsSlot(c: Cache, objs: Pfn, a: Addr) { exists i: nat :: i < c.count && a == SlotAddr(c, objs, i) }

  /** At least two objects, no more than the stack holds, filling the block exactly. */
  ghost predicate ShapeOk(c: Cache)
  {
    0 < c.size && 2 <= c.count <= STACK_MAX && c.count * c.size == Pow2(c.order) * PGSIZE
  }

  /** Every byte of a slot lies in its slab's block. */
  lemma {:induction false} SlotInBlock(c: Cache, objs: Pfn, i: nat, x: Addr)
    requires ShapeOk(c) && i < c.count && SlotAddr(c, objs, i) <= x < SlotAddr(c, objs, i) + c.size
    ensures objs <= x / PGSIZE < objs + Pow2(c.order)
  {
    MulLe(i + 1, c.count, c.size);
    assert (i + 1) * c.size == i * c.size + c.size;
    assert x < objs * PGSIZE + Pow2(c.order) * PGSIZE;
  }

  /** Slots of one slab that share a byte are the same slot. */
  lemma {:induction false} SlotsApart(c: Cache, objs: Pfn, i: nat, j: nat, x: Addr)
    requires SlotAddr(c, objs, i) <= x < SlotAddr(c, objs, i) + c.size
    requires SlotAddr(c, objs, j) <= x < SlotAddr(c, objs, j) + c.size
    ensures i == j
  {
    assert (i + 1) * c.size == i * c.size + c.size && (j + 1) * c.size == j * c.size + c.size;
    if i < j { MulLe(i + 1, j, c.size); }
    if j < i { MulLe(j + 1, i, c.size); }
  }

  // ----- Live objects --------------------------------------------------------

  /** An object handed out by some slab, found the way kmem_cache_free finds it. */
  ghost predicate IsObject(st: State, a: Addr)
  {
    var p := a / PGSIZE;
    && p in st.pageSlab && st.pageSlab[p] in st.slabs
    && var s := st.slabs[st.pageSlab[p]];
       s.kc in st.caches && IsSlot(st.caches[s.kc], s.objs, a) && a !in s.free
  }

  /** The address of a block handed out by kmalloc directly. */
  ghost predicate IsBig(st: State, a: Addr)
  {
    a % PGSIZE == 0 && a / PGSIZE in st.role && st.role[a / PGSIZE] == Big
  }

  ghost predicate Allocated(st: State, a: Addr) { IsObject(st, a) || IsBig(st, a) }

  /** The bytes an allocation has. */
  ghost function Span(st: State, a: Addr): nat
    requires Allocated(st, a)
  {
    if IsObject(st, a) then st.caches[st.slabs[st.pageSlab[a / PGSIZE]].kc].size
    else if a / PGSIZE in st.live then Pow2(st.live[a / PGSIZE]) * PGSIZE else 0
  }

  // ----- Invariant -----------------------------------------------------------

  /** Where a slab belongs, given whether it serves a CPU. */
  function HomeOf(c: Cache, s: Slab, onCpu: bool): Home
  {
    if onCpu then OnCpu(s.kc) else if s.inuse < c.count then InPart(s.kc) else InFull(s.kc)
  }

  predicate ServesCpu(home: map<Pfn, Home>, id: Pfn) { id in home && home[id].OnCpu? }

  ghost predicate StackOk(c: Cache, s: Slab)
  {
    && s.inuse + |s.free| == c.count && NoDup(s.free)
    && forall i :: 0 <= i < |s.free| ==> IsSlot(c, s.objs, s.free[i])
  }

  ghost predicate SlabOk(st: State, id: Pfn)
  {
    && (id in st.slabs <==> id in st.home)
    && (id in st.slabs ==>
          var s := st.slabs[id];
          && s.kc in st.caches
          && var c := st.caches[s.kc];
             && ShapeOk(c) && StackOk(c, s) && id in st.home && st.home[id] == HomeOf(c, s, ServesCpu(st.home, id))
             && id in st.live && id in st.role && st.role[id] == Header
             && s.objs in st.live && st.live[s.objs] == c.order && s.objs in st.role && st.role[s.objs] == Objects(id))
  }

  /** page->slab is set exactly on the pages of slabs, and leads to the right one. */
  ghost predicate PageOk(st: State, id: Pfn, x: Pfn)
  {
    && (id in st.slabs && InBlock(st.live, st.slabs[id].objs, x) ==> x in st.pageSlab && st.pageSlab[x] == id)
    && (x in st.pageSlab && st.pageSlab[x] == id ==> id in st.slabs && InBlock(st.live, st.slabs[id].objs, x))
  }

  ghost predicate CacheOk(st: State, k: Cid)
  {
    && (k in st.caches <==> k in st.part) && (k in st.caches <==> k in st.full) && (k in st.caches <==> k in st.cpu)
    && (k in st.part ==> Queued(st.part[k], st.home, InPart(k)))
    && (k in st.full ==> Queued(st.full[k], st.home, InFull(k)))
    && (k in st.cpu ==> Queued(st.cpu[k], st.home, OnCpu(k)))
    && (k in st.caches ==> ShapeOk(st.caches[k]))
  }

  /** PG_KMALLOC_PAGE is set exactly on the heads of live page-sized allocations. */
  ghost predicate FlagOk(st: State, p: Pfn)
  {
    && (p in st.flagged <==> p in st.role && st.role[p] == Big)
    && (p in st.role ==> p in st.live)
    && (p in st.role && st.role[p].Objects? ==> st.role[p].id in st.slabs && st.slabs[st.role[p].id].objs == p)
    && (p in st.role && st.role[p].Header? ==> p in st.slabs)
  }

  ghost predicate Inv(st: State)
  {
    && LiveApart(st.live)
    && (forall id: Pfn {:trigger SlabOk(st, id)} :: SlabOk(st, id))
    && (forall id: Pfn, x: Pfn {:trigger PageOk(st, id, x)} :: PageOk(st, id, x))
    && (forall k: Cid {:trigger CacheOk(st, k)} :: CacheOk(st, k))
    && (forall p: Pfn {:trigger FlagOk(st, p)} :: FlagOk(st, p))
  }

  // ----- One instance of the invariant ---------------------------------------

  lemma {:induction false} SlabHas(st: State, id: Pfn)
    requires Inv(st)
    ensures SlabOk(st, id)
  {
  }

  lemma {:induction false} PageHas(st: State, id: Pfn, x: Pfn)
    requires Inv(st)
    ensures PageOk(st, id, x)
  {
  }

  lemma {:induction false} CacheHas(st: State, k: Cid)
    requires Inv(st)
    ensures CacheOk(st, k)
  {
  }

  lemma {:induction false} FlagHas(st: State, p: Pfn)
    requires Inv(st)
    ensures FlagOk(st, p)
  {
  }

  // ----- What the invariant says ---------------------------------------------

  /** The page of any slot leads back to its slab. */
  lemma {:induction false} SlotPage(st: State, id: Pfn, a: Addr)
    requires Inv(st) && id in st.slabs && st.slabs[id].kc in st.caches && IsSlot(st.caches[st.slabs[id].kc], st.slabs[id].objs, a)
    ensures a / PGSIZE in st.pageSlab && st.pageSlab[a / PGSIZE] == id && InBlock(st.live, st.slabs[id].objs, a / PGSIZE)
  {
    SlabHas(st, id);
    var s := st.slabs[id];
    var c := st.caches[s.kc];
    var i: nat :| i < c.count && a == SlotAddr(c, s.objs, i);
    SlotInBlock(c, s.objs, i, a);
    PageHas(st, id, a / PGSIZE);
  }

  ghost predicate Within(st: State, a: Addr, x: Addr) { Allocated(st, a) && a <= x < a + Span(st, a) }

  /** A byte of an allocation lies in the block that carries the allocation. */
  lemma {:induction false} WithinBlock(st: State, a: Addr, x: Addr) returns (p: Pfn)
    requires Inv(st) && Within(st, a, x)
    ensures InBlock(st.live, p, x / PGSIZE) && p in st.role
    ensures IsObject(st, a) ==> st.role[p] == Objects(st.pageSlab[a / PGSIZE])
    ensures !IsObject(st, a) ==> st.role[p] == Big && a == p * PGSIZE
  {
    if IsObject(st, a) {
      var id := st.pageSlab[a / PGSIZE];
      SlabHas(st, id);
      var s := st.slabs[id];
      var c := st.caches[s.kc];
      var i: nat :| i < c.count && a == SlotAddr(c, s.objs, i);
      SlotInBlock(c, s.objs, i, x);
      p := s.objs;
    } else {
      p := a / PGSIZE;
      FlagHas(st, p);
    }
  }

  /** Live allocations are disjoint: no byte belongs to two of them, whether they
      are objects of any caches or page-sized blocks. */
  lemma {:induction false} AllocationsApart(st: State, a: Addr, b: Addr, x: Addr)
    requires Inv(st) && Within(st, a, x) && Within(st, b, x)
    ensures a == b
  {
    var p := WithinBlock(st, a, x);
    var q := WithinBlock(st, b, x);
    assert p == q;
    if IsObject(st, a) {
      var id := st.pageSlab[a / PGSIZE];
      SlabHas(st, id);
      var s := st.slabs[id];
      var c := st.caches[s.kc];
      var i: nat :| i < c.count && a == SlotAddr(c, s.objs, i);
      var j: nat :| j < c.count && b == SlotAddr(c, s.objs, j);
      SlotsApart(c, s.objs, i, j, x);
    }
  }

  /** kfree takes the matching route: the page of an object is never flagged, that of
      a page-sized block always is. */
  lemma {:induction false} RouteMatches(st: State, a: Addr)
    requires Inv(st) && Allocated(st, a)
    ensures a / PGSIZE in st.flagged <==> IsBig(st, a)
    ensures a / PGSIZE in st.flagged <==> !IsObject(st, a)
  {
    FlagHas(st, a / PGSIZE);
    if IsObject(st, a) {
      var id := st.pageSlab[a / PGSIZE];
      SlabHas(st, id);
      SlotPage(st, id, a);
      FlagHas(st, st.slabs[id].objs);
      assert a / PGSIZE in st.live ==> InBlock(st.live, a / PGSIZE, a / PGSIZE);
    }
  }

  // ----- Steps ---------------------------------------------------------------

  /** obj_pop on the slab itself */
  function Popped(s: Slab): Slab
    requires s.free != []
  {
    s.(free := s.free[..|s.free| - 1], inuse := s.inuse + 1)
  }

  /** obj_push on the slab itself */
  function Pushed(s: Slab, a: Addr): Slab
    requires 0 < s.inuse
  {
    s.(free := s.free + [a], inuse := s.inuse - 1)
  }

  /** obj_pop, and the move to the full list when that was the last object. */
  function PopStep(st: State, id: Pfn): State
    requires id in st.slabs && st.slabs[id].kc in st.caches && st.slabs[id].free != []
    requires st.slabs[id].kc in st.part && st.slabs[id].kc in st.full
  {
    var s, k := st.slabs[id], st.slabs[id].kc;
    var s' := Popped(s);
    var onCpu := ServesCpu(st.home, id);
    var moves := !onCpu && s'.inuse == st.caches[k].count;
    st.(slabs := st.slabs[id := s'], home := st.home[id := HomeOf(st.caches[k], s', onCpu)],
        part := if moves then st.part[k := Without(st.part[k], id)] else st.part,
        full := if moves then st.full[k := [id] + st.full[k]] else st.full)
  }

  /** obj_push of `a`, after the move to the partial list when the slab was full. */
  function PushStep(st: State, id: Pfn, a: Addr): State
    requires id in st.slabs && st.slabs[id].kc in st.caches && 0 < st.slabs[id].inuse
    requires st.slabs[id].kc in st.part && st.slabs[id].kc in st.full
  {
    var s, k := st.slabs[id], st.slabs[id].kc;
    var s' := Pushed(s, a);
    var onCpu := ServesCpu(st.home, id);
    var moves := !onCpu && s.inuse == st.caches[k].count;
    st.(slabs := st.slabs[id := s'], home := st.home[id := HomeOf(st.caches[k], s', onCpu)],
        part := if moves then st.part[k := [id] + st.part[k]] else st.part,
        full := if moves then st.full[k := Without(st.full[k], id)] else st.full)
  }

  /** set_page_slab on the `len` pages from `objs` */
  ghost predicate PagesSet(m: map<Pfn, Pfn>, m': map<Pfn, Pfn>, objs: Pfn, len: nat, id: Pfn)
  {
    forall x: Pfn :: (x in m' <==> x in m || objs <= x < objs + len)
      && (x in m' ==> m'[x] == if objs <= x < objs + len then id else m[x])
  }

  /** slab_create on two fresh blocks, for a CPU or for the partial list. */
  function NewStep(st: State, id: Pfn, s: Slab, pageSlab: map<Pfn, Pfn>, onCpu: bool): State
    requires s.kc in st.part && s.kc in st.cpu
  {
    st.(slabs := st.slabs[id := s], pageSlab := pageSlab, role := st.role[id := Header][s.objs := Objects(id)],
        home := st.home[id := if onCpu then OnCpu(s.kc) else InPart(s.kc)],
        part := if onCpu then st.part else st.part[s.kc := [id] + st.part[s.kc]],
        cpu := if onCpu then st.cpu[s.kc := st.cpu[s.kc] + [id]] else st.cpu)
  }

  function GrantStep(st: State, p: Pfn, order: nat): State { st.(live := st.live[p := order]) }

  function FlagStep(st: State, p: Pfn): State { st.(role := st.role[p := Big], flagged := st.flagged + {p}) }

  function ReleaseStep(st: State, p: Pfn): State
  {
    st.(live := st.live - {p}, role := st.role - {p}, flagged := st.flagged - {p})
  }

  // ----- A new cache ---------------------------------------------------------

  function AddCache(st: State, k: Cid, c: Cache): State
  {
    st.(caches := st.caches[k := c], part := st.part[k := []], full := st.full[k := []], cpu := st.cpu[k := []])
  }

  lemma {:induction false} AddCacheKeeps(st: State, k: Cid, c: Cache)
    requires Inv(st) && k !in st.caches && ShapeOk(c)
    ensures Inv(AddCache(st, k, c))
    ensures forall b: Addr :: (IsObject(AddCache(st, k, c), b) <==> IsObject(st, b)) && (IsBig(AddCache(st, k, c), b) <==> IsBig(st, b))
  {
    var st' := AddCache(st, k, c);
    forall d: Pfn ensures SlabOk(st', d) { SlabHas(st, d); }
    forall d: Pfn, x: Pfn ensures PageOk(st', d, x) { PageHas(st, d, x); }
    forall l: Cid ensures CacheOk(st', l) {
      CacheHas(st, l);
      if l == k {
        forall d: Pfn ensures Member([], st.home, InPart(k), d) && Member([], st.home, InFull(k), d) && Member([], st.home, OnCpu(k), d) {
          SlabHas(st, d);
        }
      }
    }
    forall q: Pfn ensures FlagOk(st', q) { FlagHas(st, q); }
    forall b: Addr ensures IsObject(st', b) <==> IsObject(st, b) {
      if b / PGSIZE in st.pageSlab {
        PageHas(st, st.pageSlab[b / PGSIZE], b / PGSIZE);
        SlabHas(st, st.pageSlab[b / PGSIZE]);
      }
    }
  }

  // ----- Popping -------------------------------------------------------------

  ghost predicate CanPop(st: State, id: Pfn)
  {
    id in st.slabs && st.slabs[id].kc in st.caches && st.slabs[id].inuse < st.caches[st.slabs[id].kc].count
  }

  lemma {:induction false} CanPopHas(st: State, id: Pfn)
    requires Inv(st) && CanPop(st, id)
    ensures st.slabs[id].free != [] && st.slabs[id].kc in st.part && st.slabs[id].kc in st.full
  {
    SlabHas(st, id);
    CacheHas(st, st.slabs[id].kc);
  }

  lemma {:induction false} StackPop(c: Cache, s: Slab)
    requires StackOk(c, s) && s.free != []
    ensures var a := s.free[|s.free| - 1];
            var s' := Popped(s);
            StackOk(c, s') && IsSlot(c, s.objs, a) && a !in s'.free && forall b :: b in s.free <==> b in s'.free || b == a
  {
    var f, n := s.free, |s.free|;
    assert f == f[..n - 1] + [f[n - 1]];
  }

  /** A list when slab `id` moves from one home to another. */
  lemma {:induction false} PopCaches(st: State, id: Pfn, l: Cid)
    requires Inv(st) && CanPop(st, id) && st.slabs[id].free != [] && st.slabs[id].kc in st.part && st.slabs[id].kc in st.full
    ensures CacheOk(PopStep(st, id), l)
  {
    SlabHas(st, id);
    CacheHas(st, l);
    var s, k := st.slabs[id], st.slabs[id].kc;
    var c := st.caches[k];
    var st' := PopStep(st, id);
    if !ServesCpu(st.home, id) && s.inuse + 1 == c.count {
      if l in st.cpu { QueuedElse(st.cpu[l], st.home, OnCpu(l), id, InFull(k)); }
      if l == k {
        assert Member(st.part[k], st.home, InPart(k), id);
        QueuedRemove(st.part[k], st.home, InPart(k), id, InFull(k));
        QueuedFront(st.full[k], st.home, InFull(k), id);
      } else if l in st.part {
        QueuedElse(st.part[l], st.home, InPart(l), id, InFull(k));
        QueuedElse(st.full[l], st.home, InFull(l), id, InFull(k));
      }
    } else {
      assert st'.home == st.home;
    }
  }

  lemma {:induction false} PopKeeps(st: State, id: Pfn)
    requires Inv(st) && CanPop(st, id) && st.slabs[id].free != [] && st.slabs[id].kc in st.part && st.slabs[id].kc in st.full
    ensures Inv(PopStep(st, id))
  {
    var st' := PopStep(st, id);
    SlabHas(st, id);
    StackPop(st.caches[st.slabs[id].kc], st.slabs[id]);
    forall d: Pfn ensures SlabOk(st', d) { SlabHas(st, d); }
    forall d: Pfn, x: Pfn ensures PageOk(st', d, x) { PageHas(st, d, x); }
    forall l: Cid ensures CacheOk(st', l) { PopCaches(st, id, l); }
    forall p: Pfn ensures FlagOk(st', p) { FlagHas(st, p); }
  }

  /** The popped address was free and is now the one new object. */
  lemma {:induction false} PopObjects(st: State, id: Pfn, b: Addr)
    requires Inv(st) && CanPop(st, id) && st.slabs[id].free != [] && st.slabs[id].kc in st.part && st.slabs[id].kc in st.full
    ensures var a := st.slabs[id].free[|st.slabs[id].free| - 1];
            && (IsObject(PopStep(st, id), b) <==> IsObject(st, b) || b == a)
            && (b == a ==> !IsObject(st, b) && a / PGSIZE in st.pageSlab && st.pageSlab[a / PGSIZE] == id)
  {
    SlabHas(st, id);
    var s := st.slabs[id];
    var a := s.free[|s.free| - 1];
    StackPop(st.caches[s.kc], s);
    SlotPage(st, id, a);
  }

  /** Object `a` came from slab `id`, and no block or slab came or went. */
  ghost predicate Served(st: State, st': State, id: Pfn, a: Addr)
  {
    && st'.live == st.live && st'.role == st.role && st'.slabs.Keys == st.slabs.Keys && st'.pageSlab == st.pageSlab
    && a / PGSIZE in st.pageSlab && st.pageSlab[a / PGSIZE] == id
  }

  lemma {:induction false} PopServed(st: State, id: Pfn)
    requires Inv(st) && CanPop(st, id) && st.slabs[id].free != [] && st.slabs[id].kc in st.part && st.slabs[id].kc in st.full
    ensures Served(st, PopStep(st, id), id, st.slabs[id].free[|st.slabs[id].free| - 1])
  {
    PopObjects(st, id, st.slabs[id].free[|st.slabs[id].free| - 1]);
  }

  // ----- Pushing -------------------------------------------------------------

  ghost function SlotSet(c: Cache, objs: Pfn, n: nat): set<Addr>
  {
    if n == 0 then {} else SlotSet(c, objs, n - 1) + {SlotAddr(c, objs, n - 1)}
  }

  lemma {:induction false} SlotSetHas(c: Cache, objs: Pfn, n: nat, i: nat)
    requires i < n
    ensures SlotAddr(c, objs, i) in SlotSet(c, objs, n)
  {
    if i < n - 1 { SlotSetHas(c, objs, n - 1, i); }
  }

  lemma {:induction false} SlotSetSize(c: Cache, objs: Pfn, n: nat)
    ensures |SlotSet(c, objs, n)| <= n
  {
    if n > 0 { SlotSetSize(c, objs, n - 1); }
  }

  ghost function Elements(q: seq<Addr>): set<Addr> { set a | a in q }

  lemma {:induction false} ElementsSize(q: seq<Addr>)
    requires NoDup(q)
    ensures |Elements(q)| == |q|
  {
    if q != [] {
      var r := q[..|q| - 1];
      ElementsSize(r);
      assert q == r + [q[|q| - 1]];
      assert Elements(q) == Elements(r) + {q[|q| - 1]};
    }
  }

  /** Distinct slots are at most `count`: the free stack never overflows. */
  lemma {:induction false} StackBound(c: Cache, objs: Pfn, q: seq<Addr>)
    requires NoDup(q) && forall i :: 0 <= i < |q| ==> IsSlot(c, objs, q[i])
    ensures |q| <= c.count
  {
    forall a | a in Elements(q) ensures a in SlotSet(c, objs, c.count) {
      var i: nat :| i < c.count && a == SlotAddr(c, objs, i);
      SlotSetHas(c, objs, c.count, i);
    }
    ElementsSize(q);
    SlotSetSize(c, objs, c.count);
    SubsetSize(Elements(q), SlotSet(c, objs, c.count));
  }

  lemma {:induction false} StackPush(c: Cache, s: Slab, a: Addr)
    requires StackOk(c, s) && IsSlot(c, s.objs, a) && a !in s.free
    ensures 0 < s.inuse && StackOk(c, Pushed(s, a))
  {
    StackBound(c, s.objs, s.free + [a]);
  }

  lemma {:induction false} CanPushHas(st: State, a: Addr)
    requires Inv(st) && IsObject(st, a)
    ensures var s := st.slabs[st.pageSlab[a / PGSIZE]];
            0 < s.inuse && |s.free| < STACK_MAX && s.kc in st.part && s.kc in st.full
  {
    var id := st.pageSlab[a / PGSIZE];
    SlabHas(st, id);
    CacheHas(st, st.slabs[id].kc);
    StackPush(st.caches[st.slabs[id].kc], st.slabs[id], a);
  }

  lemma {:induction false} PushCaches(st: State, id: Pfn, a: Addr, l: Cid)
    requires Inv(st) && id in st.slabs && st.slabs[id].kc in st.caches && 0 < st.slabs[id].inuse
    requires st.slabs[id].kc in st.part && st.slabs[id].kc in st.full
    ensures CacheOk(PushStep(st, id, a), l)
  {
    SlabHas(st, id);
    CacheHas(st, l);
    var s, k := st.slabs[id], st.slabs[id].kc;
    var c := st.caches[k];
    var st' := PushStep(st, id, a);
    if !ServesCpu(st.home, id) && s.inuse == c.count {
      if l in st.cpu { QueuedElse(st.cpu[l], st.home, OnCpu(l), id, InPart(k)); }
      if l == k {
        assert Member(st.full[k], st.home, InFull(k), id);
        QueuedRemove(st.full[k], st.home, InFull(k), id, InPart(k));
        QueuedFront(st.part[k], st.home, InPart(k), id);
      } else if l in st.part {
        QueuedElse(st.part[l], st.home, InPart(l), id, InPart(k));
        QueuedElse(st.full[l], st.home, InFull(l), id, InPart(k));
      }
    } else {
      assert st'.home == st.home;
    }
  }

  lemma {:induction false} PushKeeps(st: State, a: Addr)
    requires Inv(st) && IsObject(st, a) && 0 < st.slabs[st.pageSlab[a / PGSIZE]].inuse
    requires st.slabs[st.pageSlab[a / PGSIZE]].kc in st.part && st.slabs[st.pageSlab[a / PGSIZE]].kc in st.full
    ensures Inv(PushStep(st, st.pageSlab[a / PGSIZE], a))
  {
    var id := st.pageSlab[a / PGSIZE];
    var st' := PushStep(st, id, a);
    SlabHas(st, id);
    StackPush(st.caches[st.slabs[id].kc], st.slabs[id], a);
    forall d: Pfn ensures SlabOk(st', d) { SlabHas(st, d); }
    forall d: Pfn, x: Pfn ensures PageOk(st', d, x) { PageHas(st, d, x); }
    forall l: Cid ensures CacheOk(st', l) { PushCaches(st, id, a, l); }
    forall p: Pfn ensures FlagOk(st', p) { FlagHas(st, p); }
  }

  lemma {:induction false} PushObjects(st: State, a: Addr, b: Addr)
    requires Inv(st) && IsObject(st, a) && 0 < st.slabs[st.pageSlab[a / PGSIZE]].inuse
    requires st.slabs[st.pageSlab[a / PGSIZE]].kc in st.part && st.slabs[st.pageSlab[a / PGSIZE]].kc in st.full
    ensures IsObject(PushStep(st, st.pageSlab[a / PGSIZE], a), b) <==> IsObject(st, b) && b != a
  {
  }

  // ----- Blocks from and to the buddy system ---------------------------------

  /** A block granted by the buddy system and not used yet changes nothing here. */
  lemma {:induction false} GrantKeeps(st: State, p: Pfn, order: nat)
    requires Inv(st) && p !in st.live && LiveApart(st.live[p := order])
    ensures Inv(GrantStep(st, p, order)) && p !in st.role
    ensures forall b: Addr :: (IsObject(GrantStep(st, p, order), b) <==> IsObject(st, b)) && (IsBig(GrantStep(st, p, order), b) <==> IsBig(st, b))
  {
    var st' := GrantStep(st, p, order);
    FlagHas(st, p);
    forall d: Pfn ensures SlabOk(st', d) { SlabHas(st, d); }
    forall d: Pfn, x: Pfn ensures PageOk(st', d, x) {
      PageHas(st, d, x);
      SlabHas(st, d);
    }
    forall l: Cid ensures CacheOk(st', l) { CacheHas(st, l); }
    forall q: Pfn ensures FlagOk(st', q) { FlagHas(st, q); }
  }

  lemma {:induction false} FlagKeeps(st: State, p: Pfn)
    requires Inv(st) && p in st.live && p !in st.role
    ensures Inv(FlagStep(st, p))
    ensures forall b: Addr :: (IsObject(FlagStep(st, p), b) <==> IsObject(st, b))
                           && (IsBig(FlagStep(st, p), b) <==> IsBig(st, b) || b == p * PGSIZE)
    ensures !Allocated(st, p * PGSIZE)
  {
    var st' := FlagStep(st, p);
    forall d: Pfn ensures SlabOk(st', d) { SlabHas(st, d); }
    forall d: Pfn, x: Pfn ensures PageOk(st', d, x) { PageHas(st, d, x); }
    forall l: Cid ensures CacheOk(st', l) { CacheHas(st, l); }
    forall q: Pfn ensures FlagOk(st', q) { FlagHas(st, q); }
    if IsObject(st, p * PGSIZE) {
      var id := st.pageSlab[p];
      SlabHas(st, id);
      SlotPage(st, id, p * PGSIZE);
      assert InBlock(st.live, p, p);
    }
  }

  lemma {:induction false} ReleaseKeeps(st: State, p: Pfn)
    requires Inv(st) && p in st.role && st.role[p] == Big
    ensures Inv(ReleaseStep(st, p))
    ensures forall b: Addr :: (IsObject(ReleaseStep(st, p), b) <==> IsObject(st, b))
                           && (IsBig(ReleaseStep(st, p), b) <==> IsBig(st, b) && b != p * PGSIZE)
  {
    var st' := ReleaseStep(st, p);
    forall q: Pfn, x: Pfn | InBlock(st'.live, q, x) ensures InBlock(st.live, q, x) { }
    forall d: Pfn ensures SlabOk(st', d) { SlabHas(st, d); }
    forall d: Pfn, x: Pfn ensures PageOk(st', d, x) {
      PageHas(st, d, x);
      SlabHas(st, d);
    }
    forall l: Cid ensures CacheOk(st', l) { CacheHas(st, l); }
    forall q: Pfn ensures FlagOk(st', q) { FlagHas(st, q); }
  }

  // ----- A new slab ----------------------------------------------------------

  ghost predicate CanCreate(st: State, id: Pfn, s: Slab, pageSlab: map<Pfn, Pfn>)
  {
    && s.kc in st.caches && s.kc in st.part && s.kc in st.cpu && id != s.objs
    && id in st.live && id !in st.role && s.objs in st.live && s.objs !in st.role
    && st.live[s.objs] == st.caches[s.kc].order && s.inuse == 0 && StackOk(st.caches[s.kc], s)
    && PagesSet(st.pageSlab, pageSlab, s.objs, Pow2(st.caches[s.kc].order), id)
  }

  /** Its header names no slab yet, and no page of its block belongs to one. */
  lemma {:induction false} NewIsFresh(st: State, id: Pfn, s: Slab, pageSlab: map<Pfn, Pfn>, x: Pfn)
    requires Inv(st) && CanCreate(st, id, s, pageSlab)
    ensures id !in st.slabs && id !in st.home && (InBlock(st.live, s.objs, x) ==> x !in st.pageSlab)
  {
    SlabHas(st, id);
    if x in st.pageSlab && InBlock(st.live, s.objs, x) {
      PageHas(st, st.pageSlab[x], x);
      SlabHas(st, st.pageSlab[x]);
    }
  }

  lemma {:induction false} NewPages(st: State, id: Pfn, s: Slab, pageSlab: map<Pfn, Pfn>, onCpu: bool, d: Pfn, x: Pfn)
    requires Inv(st) && CanCreate(st, id, s, pageSlab)
    ensures PageOk(NewStep(st, id, s, pageSlab, onCpu), d, x)
  {
    NewIsFresh(st, id, s, pageSlab, x);
    PageHas(st, d, x);
    SlabHas(st, d);
  }

  lemma {:induction false} NewCaches(st: State, id: Pfn, s: Slab, pageSlab: map<Pfn, Pfn>, onCpu: bool, l: Cid)
    requires Inv(st) && CanCreate(st, id, s, pageSlab)
    ensures CacheOk(NewStep(st, id, s, pageSlab, onCpu), l)
  {
    NewIsFresh(st, id, s, pageSlab, 0);
    CacheHas(st, l);
    var k := s.kc;
    var h := if onCpu then OnCpu(k) else InPart(k);
    if l in st.caches {
      QueuedElse(st.full[l], st.home, InFull(l), id, h);
      if l == k && !onCpu { QueuedFront(st.part[l], st.home, InPart(l), id); } else { QueuedElse(st.part[l], st.home, InPart(l), id, h); }
      if l == k && onCpu { QueuedPush(st.cpu[l], st.home, OnCpu(l), id); } else { QueuedElse(st.cpu[l], st.home, OnCpu(l), id, h); }
    }
  }

  lemma {:induction false} NewKeeps(st: State, id: Pfn, s: Slab, pageSlab: map<Pfn, Pfn>, onCpu: bool)
    requires Inv(st) && CanCreate(st, id, s, pageSlab)
    ensures Inv(NewStep(st, id, s, pageSlab, onCpu))
  {
    var st' := NewStep(st, id, s, pageSlab, onCpu);
    NewIsFresh(st, id, s, pageSlab, 0);
    CacheHas(st, s.kc);
    forall d: Pfn ensures SlabOk(st', d) { SlabHas(st, d); }
    forall d: Pfn, x: Pfn ensures PageOk(st', d, x) { NewPages(st, id, s, pageSlab, onCpu, d, x); }
    forall l: Cid ensures CacheOk(st', l) { NewCaches(st, id, s, pageSlab, onCpu, l); }
    forall q: Pfn ensures FlagOk(st', q) { FlagHas(st, q); }
  }

  /** A new slab has handed nothing out: the objects are those there were. */
  lemma {:induction false} NewObjects(st: State, id: Pfn, s: Slab, pageSlab: map<Pfn, Pfn>, onCpu: bool, b: Addr)
    requires Inv(st) && CanCreate(st, id, s, pageSlab)
    ensures IsObject(NewStep(st, id, s, pageSlab, onCpu), b) <==> IsObject(st, b)
    ensures IsBig(NewStep(st, id, s, pageSlab, onCpu), b) <==> IsBig(st, b)
  {
    var st' := NewStep(st, id, s, pageSlab, onCpu);
    var x := b / PGSIZE;
    NewIsFresh(st, id, s, pageSlab, x);
    if s.objs <= x < s.objs + Pow2(st.caches[s.kc].order) {
      assert InBlock(st.live, s.objs, x);
      if IsSlot(st.caches[s.kc], s.objs, b) { AllFree(st.caches[s.kc], s, b); }
    }
    if x in st.pageSlab { PageHas(st, st.pageSlab[x], x); }
  }

  /** With nothing in use, every slot is on the stack. */
  lemma {:induction false} AllFree(c: Cache, s: Slab, b: Addr)
    requires StackOk(c, s) && s.inuse == 0 && IsSlot(c, s.objs, b)
    ensures b in s.free
  {
    if b !in s.free { StackBound(c, s.objs, s.free + [b]); }
  }

  // ----- How the set of allocations evolves ----------------------------------

  ghost predicate EvolvesAt(st: State, st': State, plus: set<Addr>, minus: set<Addr>, b: Addr)
  {
    && (Allocated(st', b) <==> (Allocated(st, b) && b !in minus) || b in plus)
    && (Allocated(st, b) && Allocated(st', b) ==> Span(st', b) == Span(st, b))
  }

  /** Exactly `plus` is newly allocated and `minus` released; the rest keeps its size. */
  ghost predicate Evolves(st: State, st': State, plus: set<Addr>, minus: set<Addr>)
  {
    forall b: Addr {:trigger EvolvesAt(st, st', plus, minus, b)} :: EvolvesAt(st, st', plus, minus, b)
  }

  lemma {:induction false} EvolvesSame(st: State)
    ensures Evolves(st, st, {}, {})
  {
    forall b: Addr ensures EvolvesAt(st, st, {}, {}, b) { }
  }

  lemma {:induction false} EvolvesAfter(st: State, st1: State, st2: State, plus: set<Addr>, minus: set<Addr>)
    requires Evolves(st, st1, {}, {}) && Evolves(st1, st2, plus, minus)
    ensures Evolves(st, st2, plus, minus)
  {
    forall b: Addr ensures EvolvesAt(st, st2, plus, minus, b) {
      assert EvolvesAt(st, st1, {}, {}, b) && EvolvesAt(st1, st2, plus, minus, b);
    }
  }

  lemma {:induction false} PopEvolves(st: State, id: Pfn)
    requires Inv(st) && CanPop(st, id) && st.slabs[id].free != [] && st.slabs[id].kc in st.part && st.slabs[id].kc in st.full
    ensures var a := st.slabs[id].free[|st.slabs[id].free| - 1];
            && Evolves(st, PopStep(st, id), {a}, {}) && !Allocated(st, a)
            && Allocated(PopStep(st, id), a) && Span(PopStep(st, id), a) == st.caches[st.slabs[id].kc].size
  {
    var a := st.slabs[id].free[|st.slabs[id].free| - 1];
    var st' := PopStep(st, id);
    PopObjects(st, id, a);
    PopKeeps(st, id);
    RouteMatches(st', a);
    assert !Allocated(st, a);
    forall b: Addr ensures EvolvesAt(st, st', {a}, {}, b) { PopObjects(st, id, b); }
  }

  lemma {:induction false} PushEvolves(st: State, a: Addr)
    requires Inv(st) && IsObject(st, a) && 0 < st.slabs[st.pageSlab[a / PGSIZE]].inuse
    requires st.slabs[st.pageSlab[a / PGSIZE]].kc in st.part && st.slabs[st.pageSlab[a / PGSIZE]].kc in st.full
    ensures Evolves(st, PushStep(st, st.pageSlab[a / PGSIZE], a), {}, {a})
  {
    var st' := PushStep(st, st.pageSlab[a / PGSIZE], a);
    RouteMatches(st, a);
    forall b: Addr ensures EvolvesAt(st, st', {}, {a}, b) { PushObjects(st, a, b); }
  }

  lemma {:induction false} GrantEvolves(st: State, p: Pfn, order: nat)
    requires Inv(st) && p !in st.live && LiveApart(st.live[p := order])
    ensures Evolves(st, GrantStep(st, p, order), {}, {})
  {
    var st' := GrantStep(st, p, order);
    GrantKeeps(st, p, order);
    forall b: Addr ensures EvolvesAt(st, st', {}, {}, b) { FlagHas(st, b / PGSIZE); }
  }

  lemma {:induction false} FlagEvolves(st: State, p: Pfn)
    requires Inv(st) && p in st.live && p !in st.role
    ensures var st' := FlagStep(st, p);
            && Evolves(st, st', {p * PGSIZE}, {}) && !Allocated(st, p * PGSIZE)
            && Allocated(st', p * PGSIZE) && Span(st', p * PGSIZE) == Pow2(st.live[p]) * PGSIZE
  {
    var st' := FlagStep(st, p);
    FlagKeeps(st, p);
    forall b: Addr ensures EvolvesAt(st, st', {p * PGSIZE}, {}, b) { }
  }

  lemma {:induction false} ReleaseEvolves(st: State, p: Pfn)
    requires Inv(st) && p in st.role && st.role[p] == Big
    ensures Evolves(st, ReleaseStep(st, p), {}, {p * PGSIZE})
  {
    var st' := ReleaseStep(st, p);
    ReleaseKeeps(st, p);
    assert IsBig(st, p * PGSIZE);
    RouteMatches(st, p * PGSIZE);
    forall b: Addr ensures EvolvesAt(st, st', {}, {p * PGSIZE}, b) { }
  }

  lemma {:induction false} NewEvolves(st: State, id: Pfn, s: Slab, pageSlab: map<Pfn, Pfn>, onCpu: bool)
    requires Inv(st) && CanCreate(st, id, s, pageSlab)
    ensures Evolves(st, NewStep(st, id, s, pageSlab, onCpu), {}, {})
  {
    var st' := NewStep(st, id, s, pageSlab, onCpu);
    forall b: Addr ensures EvolvesAt(st, st', {}, {}, b) {
      NewObjects(st, id, s, pageSlab, onCpu, b);
      NewIsFresh(st, id, s, pageSlab, b / PGSIZE);
    }
  }

  /** A new slab, seen from before its blocks were granted. */
  lemma {:induction false} NewShown(st: State, st1: State, id: Pfn, s: Slab, pageSlab: map<Pfn, Pfn>, onCpu: bool)
    requires Inv(st1) && CanCreate(st1, id, s, pageSlab) && Evolves(st, st1, {}, {})
    ensures Evolves(st, NewStep(st1, id, s, pageSlab, onCpu), {}, {})
  {
    NewEvolves(st1, id, s, pageSlab, onCpu);
    EvolvesAfter(st, st1, NewStep(st1, id, s, pageSlab, onCpu), {}, {});
  }

  lemma {:induction false} AddCacheEvolves(st: State, k: Cid, c: Cache)
    requires Inv(st) && k !in st.caches && ShapeOk(c)
    ensures Evolves(st, AddCache(st, k, c), {}, {})
  {
    var st' := AddCache(st, k, c);
    AddCacheKeeps(st, k, c);
    forall b: Addr ensures EvolvesAt(st, st', {}, {}, b) { }
  }
}
