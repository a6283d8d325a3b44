/** The `list` nodes of slabs, linked into the partial and full lists of caches
    (mm/slab.c). A slab that serves a CPU has its node linked to itself, and that is
    how kmem_cache_free tells it from the others. */
module SlabLists {
  import opened Queues
  import opened Links
  import opened SlabCore

  datatype ListId = PartOf(k: Cid) | FullOf(k: Cid)

  type SlabNode = Node<ListId, Pfn>

  function PartHead(k: Cid): SlabNode { Head(PartOf(k)) }

  function FullHead(k: Cid): SlabNode { Head(FullOf(k)) }

  function NodeOf(id: Pfn): SlabNode { Item(id) }

  ghost function Nodes(q: seq<Pfn>): seq<SlabNode> { Items(q) }

  // ----- Lists by name -------------------------------------------------------

  type Lists = map<Cid, seq<Pfn>>

  ghost predicate Has(part: Lists, full: Lists, h: ListId)
  {
    match h case PartOf(k) => k in part case FullOf(k) => k in full
  }

  ghost function On(part: Lists, full: Lists, h: ListId): seq<Pfn>
    requires Has(part, full, h)
  {
    match h case PartOf(k) => part[k] case FullOf(k) => full[k]
  }

  function HomeIn(h: ListId): Home { match h case PartOf(k) => InPart(k) case FullOf(k) => InFull(k) }

  ghost predicate RingAt(l: Links<SlabNode>, part: Lists, full: Lists, h: ListId)
  {
    Has(part, full, h) ==> Ring(l, Head(h), Nodes(On(part, full, h)))
  }

  ghost predicate CpuLoose(l: Links<SlabNode>, home: map<Pfn, Home>, id: Pfn)
  {
    ServesCpu(home, id) ==> Self(l, NodeOf(id))
  }

  /** The lists are linked as they should be, and CPU slabs are on none. */
  ghost predicate ListsOk(l: Links<SlabNode>, part: Lists, full: Lists, home: map<Pfn, Home>)
  {
    && (forall h: ListId {:trigger RingAt(l, part, full, h)} :: RingAt(l, part, full, h))
    && (forall id: Pfn {:trigger CpuLoose(l, home, id)} :: CpuLoose(l, home, id))
  }

  /** Slabs are listed where they belong. */
  ghost predicate ListedAt(part: Lists, full: Lists, home: map<Pfn, Home>, h: ListId)
  {
    Has(part, full, h) ==> Queued(On(part, full, h), home, HomeIn(h))
  }

  ghost predicate Listed(part: Lists, full: Lists, home: map<Pfn, Home>)
  {
    forall h: ListId {:trigger ListedAt(part, full, home, h)} :: ListedAt(part, full, home, h)
  }

  lemma {:induction false} InvListed(st: State)
    requires Inv(st)
    ensures Listed(st.part, st.full, st.home)
  {
    forall h: ListId ensures ListedAt(st.part, st.full, st.home, h) { CacheHas(st, h.k); }
  }

  // ----- What the nodes show -------------------------------------------------

  /** list_empty(&slab->list) holds exactly of CPU slabs. */
  lemma {:induction false} CpuTest(l: Links<SlabNode>, st: State, id: Pfn)
    requires Linked(st, l) && id in st.slabs
    ensures Empty(l, NodeOf(id)) <==> ServesCpu(st.home, id)
  {
    SlabHas(st, id);
    assert CpuLoose(l, st.home, id);
    if !ServesCpu(st.home, id) {
      var k := st.slabs[id].kc;
      var h := if st.home[id].InPart? then PartOf(k) else FullOf(k);
      CacheHas(st, k);
      assert RingAt(l, st.part, st.full, h);
      var q := On(st.part, st.full, h);
      assert Member(q, st.home, HomeIn(h), id);
      var i :| 0 <= i < |q| && q[i] == id;
      NotLoose(l, Head(h), Nodes(q), i);
    }
  }

  /** list_empty and list_first on the partial list */
  lemma {:induction false} PartFirst(l: Links<SlabNode>, st: State, k: Cid)
    requires Linked(st, l) && k in st.part
    ensures Empty(l, PartHead(k)) <==> st.part[k] == []
    ensures st.part[k] != [] ==> Next(l, PartHead(k)) == NodeOf(st.part[k][0])
  {
    assert RingAt(l, st.part, st.full, PartOf(k));
    RingEnds(l, PartHead(k), Nodes(st.part[k]));
  }

  // ----- Changes -------------------------------------------------------------

  /** A list all of whose nodes are left alone. */
  lemma {:induction false} OtherRing(l: Links<SlabNode>, l': Links<SlabNode>, part: Lists, full: Lists, h: ListId)
    requires RingAt(l, part, full, h) && Has(part, full, h) && SameAt(l, l', Head(h))
    requires forall id: Pfn {:trigger SameAt(l, l', NodeOf(id))} :: id in On(part, full, h) ==> SameAt(l, l', NodeOf(id))
    ensures Ring(l', Head(h), Nodes(On(part, full, h)))
  {
    var q := On(part, full, h);
    forall i | 0 <= i < |q| ensures SameAt(l, l', Nodes(q)[i]) { assert SameAt(l, l', NodeOf(q[i])); }
    RingFrame(l, l', Head(h), Nodes(q));
  }

  /** kmem_cache_create: both lists are empty. */
  function Registered(l: Links<SlabNode>, k: Cid): Links<SlabNode> { InitNode(InitNode(l, PartHead(k)), FullHead(k)) }

  lemma {:induction false} RegisterLists(l: Links<SlabNode>, part: Lists, full: Lists, home: map<Pfn, Home>, k: Cid)
    requires ListsOk(l, part, full, home)
    ensures ListsOk(Registered(l, k), part[k := []], full[k := []], home)
  {
    var l', part', full' := Registered(l, k), part[k := []], full[k := []];
    forall h: ListId ensures RingAt(l', part', full', h) {
      if h.k == k {
        EmptyRing(l', Head(h));
      } else if Has(part, full, h) {
        assert RingAt(l, part, full, h);
        OtherRing(l, l', part, full, h);
      }
    }
    forall d: Pfn ensures CpuLoose(l', home, d) { assert CpuLoose(l, home, d); }
  }

  /** slab_create for a CPU: the new node is linked to itself. */
  lemma {:induction false} CpuLists(l: Links<SlabNode>, part: Lists, full: Lists, home: map<Pfn, Home>, id: Pfn, k: Cid)
    requires ListsOk(l, part, full, home) && Listed(part, full, home) && id !in home
    ensures ListsOk(InitNode(l, NodeOf(id)), part, full, home[id := OnCpu(k)])
  {
    var l', home' := InitNode(l, NodeOf(id)), home[id := OnCpu(k)];
    forall h: ListId ensures RingAt(l', part, full, h) {
      assert RingAt(l, part, full, h) && ListedAt(part, full, home, h);
      if Has(part, full, h) {
        assert Member(On(part, full, h), home, HomeIn(h), id);
        OtherRing(l, l', part, full, h);
      }
    }
    forall d: Pfn ensures CpuLoose(l', home', d) { assert CpuLoose(l, home, d); }
  }

  /** kmem_cache_add_slab: the new node goes to the front of the partial list. */
  lemma {:induction false} AddLists(l: Links<SlabNode>, part: Lists, full: Lists, home: map<Pfn, Home>, id: Pfn, k: Cid)
    requires ListsOk(l, part, full, home) && Listed(part, full, home) && id !in home && k in part
    ensures ListsOk(AddHead(InitNode(l, NodeOf(id)), NodeOf(id), PartHead(k)), part[k := [id] + part[k]], full, home[id := InPart(k)])
  {
    var l1 := InitNode(l, NodeOf(id));
    CpuLists(l, part, full, home, id, k);
    var l', part', home', q := AddHead(l1, NodeOf(id), PartHead(k)), part[k := [id] + part[k]], home[id := InPart(k)], part[k];
    assert RingAt(l1, part, full, PartOf(k)) && ListedAt(part, full, home, PartOf(k));
    assert Member(q, home, InPart(k), id);
    ItemsIn<ListId, Pfn>(q, id);
    ItemsFront<ListId, Pfn>(id, q);
    AddHeadRing(l1, PartHead(k), Nodes(q), NodeOf(id));
    forall h: ListId | h != PartOf(k) ensures RingAt(l', part', full, h) {
      assert RingAt(l1, part, full, h) && ListedAt(part, full, home, h);
      if Has(part, full, h) {
        AddHeadTouches(l1, PartHead(k), Nodes(q), NodeOf(id), Head(h));
        forall d: Pfn | d in On(part, full, h) ensures SameAt(l1, l', NodeOf(d)) {
          assert Member(On(part, full, h), home, HomeIn(h), d) && Member(q, home, InPart(k), d);
          ItemsIn<ListId, Pfn>(q, d);
          AddHeadTouches(l1, PartHead(k), Nodes(q), NodeOf(id), NodeOf(d));
        }
        OtherRing(l1, l', part, full, h);
      }
    }
    forall d: Pfn ensures CpuLoose(l', home', d) {
      assert CpuLoose(l1, home[id := OnCpu(k)], d) && Member(q, home, InPart(k), d);
      if d != id && ServesCpu(home, d) {
        ItemsIn<ListId, Pfn>(q, d);
        AddHeadTouches(l1, PartHead(k), Nodes(q), NodeOf(id), NodeOf(d));
      }
    }
  }

  /** list_del of the slab's node and list_add_head to another list */
  function Moved(l: Links<SlabNode>, id: Pfn, h: ListId): Links<SlabNode> { AddHead(Del(l, NodeOf(id)), NodeOf(id), Head(h)) }

  /** Slab `id` moved from list `g` to the front of list `h`. */
  ghost predicate MovedAt(part: Lists, full: Lists, part': Lists, full': Lists, id: Pfn, g: ListId, h: ListId, x: ListId)
  {
    && (Has(part', full', x) <==> Has(part, full, x))
    && (Has(part, full, x) && Has(part', full', x) ==>
          var q := On(part, full, x);
          On(part', full', x) == if x == g then Without(q, id) else if x == h then [id] + q else q)
  }

  ghost predicate Moves(part: Lists, full: Lists, part': Lists, full': Lists, id: Pfn, g: ListId, h: ListId)
  {
    forall x: ListId {:trigger MovedAt(part, full, part', full', id, g, h, x)} :: MovedAt(part, full, part', full', id, g, h, x)
  }

  /** The nodes of two lists are distinct. */
  lemma {:induction false} ListsApart(part: Lists, full: Lists, home: map<Pfn, Home>, g: ListId, h: ListId)
    requires Listed(part, full, home) && Has(part, full, g) && Has(part, full, h) && g != h
    ensures Apart(Head(g), Nodes(On(part, full, g)), Head(h), Nodes(On(part, full, h)))
  {
    var p, q := On(part, full, g), On(part, full, h);
    assert ListedAt(part, full, home, g) && ListedAt(part, full, home, h);
    forall i | 0 <= i < |q| ensures Nodes(q)[i] !in Nodes(p) {
      assert Member(p, home, HomeIn(g), q[i]) && Member(q, home, HomeIn(h), q[i]);
      ItemsIn<ListId, Pfn>(p, q[i]);
    }
  }

  /** The node of a slab that is on neither list. */
  lemma {:induction false} MoveElsewhere(l: Links<SlabNode>, part: Lists, full: Lists, home: map<Pfn, Home>, id: Pfn, g: ListId, h: ListId, d: Pfn)
    requires ListsOk(l, part, full, home) && Listed(part, full, home) && Has(part, full, g) && Has(part, full, h) && g != h
    requires id in home && home[id] == HomeIn(g) && d in home && home[d] != HomeIn(g) && home[d] != HomeIn(h)
    ensures SameAt(l, Moved(l, id, h), NodeOf(d))
  {
    var p, q := On(part, full, g), On(part, full, h);
    ListsApart(part, full, home, g, h);
    assert RingAt(l, part, full, g) && RingAt(l, part, full, h) && ListedAt(part, full, home, g) && ListedAt(part, full, home, h);
    assert Member(p, home, HomeIn(g), id) && Member(p, home, HomeIn(g), d) && Member(q, home, HomeIn(h), d);
    ItemsIn<ListId, Pfn>(p, d);
    ItemsIn<ListId, Pfn>(q, d);
    var k :| 0 <= k < |p| && p[k] == id;
    MoveTouches(l, Head(g), Nodes(p), k, Head(h), Nodes(q), NodeOf(d));
  }

  /** The two lists of a move. */
  lemma {:induction false} MoveTwo(l: Links<SlabNode>, part: Lists, full: Lists, home: map<Pfn, Home>, id: Pfn, g: ListId, h: ListId)
    requires ListsOk(l, part, full, home) && Listed(part, full, home) && Has(part, full, g) && Has(part, full, h) && g != h
    requires id in home && home[id] == HomeIn(g)
    ensures Ring(Moved(l, id, h), Head(g), Nodes(Without(On(part, full, g), id)))
    ensures Ring(Moved(l, id, h), Head(h), Nodes([id] + On(part, full, h)))
  {
    var p, q := On(part, full, g), On(part, full, h);
    ListsApart(part, full, home, g, h);
    assert RingAt(l, part, full, g) && RingAt(l, part, full, h) && ListedAt(part, full, home, g);
    assert Member(p, home, HomeIn(g), id);
    var k :| 0 <= k < |p| && p[k] == id;
    MoveRing(l, Head(g), Nodes(p), k, Head(h), Nodes(q));
    WithoutAt(p, k);
    ItemsCut<ListId, Pfn>(p, k);
    ItemsFront<ListId, Pfn>(id, q);
  }

  /** The move keeps every list linked. */
  lemma {:induction false} MoveLists(l: Links<SlabNode>, part: Lists, full: Lists, part': Lists, full': Lists, home: map<Pfn, Home>,
                                     id: Pfn, g: ListId, h: ListId)
    requires ListsOk(l, part, full, home) && Listed(part, full, home) && Has(part, full, g) && Has(part, full, h) && g != h
    requires id in home && home[id] == HomeIn(g) && Moves(part, full, part', full', id, g, h)
    ensures ListsOk(Moved(l, id, h), part', full', home[id := HomeIn(h)])
  {
    var l', home' := Moved(l, id, h), home[id := HomeIn(h)];
    MoveTwo(l, part, full, home, id, g, h);
    forall x: ListId ensures RingAt(l', part', full', x) {
      assert MovedAt(part, full, part', full', id, g, h, x) && RingAt(l, part, full, x);
      if x != g && x != h && Has(part, full, x) { OtherList(l, part, full, home, id, g, h, x); }
    }
    forall d: Pfn ensures CpuLoose(l', home', d) {
      assert CpuLoose(l, home, d);
      if d != id && ServesCpu(home, d) { MoveElsewhere(l, part, full, home, id, g, h, d); }
    }
  }

  lemma {:induction false} OtherList(l: Links<SlabNode>, part: Lists, full: Lists, home: map<Pfn, Home>, id: Pfn, g: ListId, h: ListId, x: ListId)
    requires ListsOk(l, part, full, home) && Listed(part, full, home) && Has(part, full, g) && Has(part, full, h) && g != h
    requires id in home && home[id] == HomeIn(g) && Has(part, full, x) && x != g && x != h
    ensures Ring(Moved(l, id, h), Head(x), Nodes(On(part, full, x)))
  {
    var l' := Moved(l, id, h);
    var p, q := On(part, full, g), On(part, full, h);
    ListsApart(part, full, home, g, h);
    assert RingAt(l, part, full, g) && RingAt(l, part, full, h) && RingAt(l, part, full, x);
    assert ListedAt(part, full, home, g) && ListedAt(part, full, home, x);
    assert Member(p, home, HomeIn(g), id);
    var k :| 0 <= k < |p| && p[k] == id;
    MoveTouches(l, Head(g), Nodes(p), k, Head(h), Nodes(q), Head(x));
    forall d: Pfn | d in On(part, full, x) ensures SameAt(l, l', NodeOf(d)) {
      assert Member(On(part, full, x), home, HomeIn(x), d);
      MoveElsewhere(l, part, full, home, id, g, h, d);
    }
    OtherRing(l, l', part, full, x);
  }

  // ----- The steps of the slab layer -----------------------------------------

  /** The slab invariant, on linked lists. */
  ghost predicate Linked(st: State, l: Links<SlabNode>) { Inv(st) && ListsOk(l, st.part, st.full, st.home) }

  /** The list code of kmem_cache_alloc after obj_pop. */
  function PopLinks(l: Links<SlabNode>, id: Pfn, s: Slab, c: Cache, onCpu: bool): Links<SlabNode>
  {
    if !onCpu && s.inuse + 1 == c.count then Moved(l, id, FullOf(s.kc)) else l
  }

  lemma {:induction false} PopLists(l: Links<SlabNode>, st: State, id: Pfn)
    requires Linked(st, l) && CanPop(st, id)
    requires st.slabs[id].free != [] && st.slabs[id].kc in st.part && st.slabs[id].kc in st.full
    ensures Linked(PopStep(st, id), PopLinks(l, id, st.slabs[id], st.caches[st.slabs[id].kc], ServesCpu(st.home, id)))
  {
    SlabHas(st, id);
    PopKeeps(st, id);
    var s, k, st' := st.slabs[id], st.slabs[id].kc, PopStep(st, id);
    if !ServesCpu(st.home, id) && s.inuse + 1 == st.caches[k].count {
      InvListed(st);
      forall x: ListId ensures MovedAt(st.part, st.full, st'.part, st'.full, id, PartOf(k), FullOf(k), x) { }
      MoveLists(l, st.part, st.full, st'.part, st'.full, st.home, id, PartOf(k), FullOf(k));
    } else {
      assert st'.home == st.home;
    }
  }

  /** The list code of kmem_cache_free before obj_push. */
  function PushLinks(l: Links<SlabNode>, id: Pfn, s: Slab, c: Cache, onCpu: bool): Links<SlabNode>
  {
    if !onCpu && s.inuse == c.count then Moved(l, id, PartOf(s.kc)) else l
  }

  lemma {:induction false} PushLists(l: Links<SlabNode>, st: State, id: Pfn, a: Addr)
    requires Linked(st, l) && IsObject(st, a) && id == st.pageSlab[a / PGSIZE] && 0 < st.slabs[id].inuse
    requires st.slabs[id].kc in st.part && st.slabs[id].kc in st.full
    ensures Linked(PushStep(st, id, a), PushLinks(l, id, st.slabs[id], st.caches[st.slabs[id].kc], ServesCpu(st.home, id)))
  {
    SlabHas(st, id);
    PushKeeps(st, a);
    var s, k, st' := st.slabs[id], st.slabs[id].kc, PushStep(st, id, a);
    if !ServesCpu(st.home, id) && s.inuse == st.caches[k].count {
      InvListed(st);
      forall x: ListId ensures MovedAt(st.part, st.full, st'.part, st'.full, id, FullOf(k), PartOf(k), x) { }
      MoveLists(l, st.part, st.full, st'.part, st'.full, st.home, id, FullOf(k), PartOf(k));
    } else {
      assert st'.home == st.home;
    }
  }

  /** INIT_LIST_HEAD of slab_create, and list_add_head of kmem_cache_add_slab. */
  function NewLinks(l: Links<SlabNode>, id: Pfn, k: Cid, onCpu: bool): Links<SlabNode>
  {
    var l1 := InitNode(l, NodeOf(id));
    if onCpu then l1 else AddHead(l1, NodeOf(id), PartHead(k))
  }

  lemma {:induction false} NewLists(l: Links<SlabNode>, st: State, id: Pfn, s: Slab, pageSlab: map<Pfn, Pfn>, onCpu: bool)
    requires Linked(st, l) && CanCreate(st, id, s, pageSlab)
    ensures Linked(NewStep(st, id, s, pageSlab, onCpu), NewLinks(l, id, s.kc, onCpu))
  {
    NewKeeps(st, id, s, pageSlab, onCpu);
    NewIsFresh(st, id, s, pageSlab, 0);
    InvListed(st);
    if onCpu { CpuLists(l, st.part, st.full, st.home, id, s.kc); } else { AddLists(l, st.part, st.full, st.home, id, s.kc); }
  }

  lemma {:induction false} CacheLists(l: Links<SlabNode>, st: State, k: Cid, c: Cache)
    requires Linked(st, l) && k !in st.caches && ShapeOk(c)
    ensures Linked(AddCache(st, k, c), Registered(l, k))
  {
    AddCacheKeeps(st, k, c);
    RegisterLists(l, st.part, st.full, st.home, k);
  }
}
