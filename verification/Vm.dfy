// The virtual-memory code on real table pages (kernel/vm/vm.c, kernel/vm/vma.c):
// walking and mapping, fork copying, release, zero fill and the COW handler.
// Address spaces are named by their root table. Running out of pages, where
// the kernel panics, is the result `false` or None.
module Vm {
  import opened Cow
  import opened Sv39
  import opened Wrappers

  datatype Vma = Vma(start: nat, end: nat, prot: Prot)

  /** Pages that `for (va = start; va < end; va += PGSIZE)` visits. */
  function PageCount(v: Vma): nat { if v.start < v.end then (v.end - v.start + PGSIZE - 1) / PGSIZE else 0 }

  /** The virtual pages at the addresses start, start + PGSIZE, ... below end. */
  ghost predicate Visits(v: Vma, vpn: nat)
  {
    v.start / PGSIZE <= vpn && v.start + (vpn - v.start / PGSIZE) * PGSIZE < v.end
  }

  lemma {:induction false} VisitsCounted(v: Vma, vpn: nat)
    ensures Visits(v, vpn) <==> v.start / PGSIZE <= vpn < v.start / PGSIZE + PageCount(v)
  {
  }

  /** Of a VMA that starts on a page boundary, these are the pages that contain a byte
      of it; a page is visited if and only if its address lies in the VMA. */
  lemma {:induction false} VisitsAll(v: Vma, vpn: nat)
    requires v.start % PGSIZE == 0
    ensures Visits(v, vpn) <==> v.start <= vpn * PGSIZE < v.end
    ensures Visits(v, vpn) <==> exists va: nat :: va / PGSIZE == vpn && v.start <= va < v.end
  {
    if v.start <= vpn * PGSIZE < v.end { assert vpn * PGSIZE / PGSIZE == vpn; }
  }

  /** Existing tables stay where they are; new ones belong to `root`. */
  ghost predicate Grown(at: Layout, at': Layout, root: Ppn)
  {
    && (forall pl :: pl in at ==> pl in at' && at'[pl] == at[pl])
    && (forall pl :: pl in at' && pl !in at ==> pl.root == root)
  }

  lemma {:induction false} GrownTwice(at: Layout, at1: Layout, at2: Layout, root: Ppn)
    requires Grown(at, at1, root) && Grown(at1, at2, root)
    ensures Grown(at, at2, root)
  {
  }

  /** A page of the machine is free, a table or a user frame, and only one of these. */
  ghost predicate UsedOnce(pool: set<Ppn>, free: set<Ppn>, tables: set<Ppn>, frames: set<Ppn>, p: Ppn)
  {
    && (p in pool <==> p in free || p in tables || p in frames)
    && !(p in free && p in tables) && !(p in free && p in frames) && !(p in tables && p in frames)
  }

  ghost predicate Parted(pool: set<Ppn>, free: set<Ppn>, tables: set<Ppn>, frames: set<Ppn>)
  {
    forall p {:trigger UsedOnce(pool, free, tables, frames, p)} :: UsedOnce(pool, free, tables, frames, p)
  }

  /** A free page becomes a table or a frame, or a frame becomes free. */
  lemma {:induction false} PartedMove(pool: set<Ppn>, free: set<Ppn>, tables: set<Ppn>, frames: set<Ppn>, p: Ppn)
    requires Parted(pool, free, tables, frames)
    ensures p in free ==> p !in tables && p !in frames
    ensures p in free ==> Parted(pool, free - {p}, tables + {p}, frames) && Parted(pool, free - {p}, tables, frames + {p})
    ensures p in frames ==> Parted(pool, free + {p}, tables, frames - {p})
  {
    assert UsedOnce(pool, free, tables, frames, p);
    if p in free {
      forall q ensures UsedOnce(pool, free - {p}, tables + {p}, frames, q) { assert UsedOnce(pool, free, tables, frames, q); }
      forall q ensures UsedOnce(pool, free - {p}, tables, frames + {p}, q) { assert UsedOnce(pool, free, tables, frames, q); }
    }
    if p in frames {
      forall q ensures UsedOnce(pool, free + {p}, tables, frames - {p}, q) { assert UsedOnce(pool, free, tables, frames, q); }
    }
  }

  /** How many tables the entry of a page still lacks: if the middle one is missing, so
      is the last. */
  ghost function Lacks(at: Layout, root: Ppn, vpn: nat): nat
  {
    if PlaceOf(root, 1, vpn) !in at then 2 else if PlaceOf(root, 0, vpn) !in at then 1 else 0
  }

  class Memory {
    ghost const pool: set<Ppn>     // all pages there are
    var freePages: set<Ppn>
    var tables: Tables
    var refs: map<Ppn, nat>        // page_count of the user frames
    var mem: map<Ppn, Content>
    ghost var at: Layout
    ghost var pt: map<Key, Pte>

    ghost function Abs(): State
      reads this
    {
      State(pt, refs, mem)
    }

    /** The tables are trees standing for `pt`, and every page has one use. */
    ghost predicate Mapped()
      reads this
    {
      Standing(tables, at, pt) && Parted(pool, freePages, tables.Keys, refs.Keys)
    }

    ghost predicate Valid()
      reads this
    {
      Mapped() && Inv(Abs())
    }

    ghost predicate IsSpace(root: Ppn)
      reads this
    {
      Place(root, 2, 0) in at && at[Place(root, 2, 0)] == root
    }

    /** Memory with all of `pages` free and no address space. */
    constructor (pages: set<Ppn>)
      ensures Valid() && pool == freePages == pages && pt == map[]
    {
      pool := pages;
      freePages, tables, refs, mem, at, pt := pages, map[], map[], map[], map[], map[];
      new;
      forall k ensures PageOk(Abs(), k) { }
      forall f ensures FrameOk(Abs(), f) { assert Mappers(pt, f) == {}; }
      forall p ensures UsedOnce(pool, freePages, tables.Keys, refs.Keys, p) { }
      forall pl ensures Rooted(tables, at, pl) { }
      forall pl, pl' ensures Unshared(at, pl, pl') { }
      forall pl, i: nat ensures Linked(tables, at, pl, i) { }
    }

    /** No page is ever lost or gained. */
    lemma {:induction false} NoPageLost()
      requires Mapped()
      ensures freePages + tables.Keys + refs.Keys == pool
      ensures |freePages| + |tables.Keys| + |refs.Keys| == |pool|
    {
      forall p ensures p in freePages + tables.Keys + refs.Keys <==> p in pool { assert UsedOnce(pool, freePages, tables.Keys, refs.Keys, p); }
      assert freePages !! tables.Keys && (freePages + tables.Keys) !! refs.Keys by {
        forall p ensures !(p in freePages && p in tables.Keys) && !(p in freePages + tables.Keys && p in refs.Keys) {
          assert UsedOnce(pool, freePages, tables.Keys, refs.Keys, p);
        }
      }
    }

    /** The user part of alloc_user_pgd: a new address space with nothing mapped. */
    method NewSpace() returns (root: Option<Ppn>)
      requires Valid()
      modifies this`freePages, this`tables, this`at
      ensures Valid() && (root.None? <==> old(freePages) == {})
      ensures root.Some? ==> IsSpace(root.value) && forall k :: k in pt ==> k.space != root.value
      ensures forall r :: old(IsSpace(r)) ==> IsSpace(r)
    {
      if freePages == {} {
        return None;
      }
      var page :| page in freePages;
      PartedMove(pool, freePages, tables.Keys, refs.Keys, page);
      AddRoot(tables, at, pt, page);
      freePages := freePages - {page};
      tables := tables[page := EmptyTable()];
      assert tables.Keys == old(tables).Keys + {page};
      at := at[Place(page, 2, 0) := page];
      root := Some(page);
    }

    /** One round of walk: the next table down, allocated if need be. */
    method Descend(root: Ppn, level: nat, vpn: nat, pagetable: Ppn, alloc: bool) returns (next: Option<Ppn>)
      requires Mapped() && 0 < level <= 2
      requires PlaceOf(root, level, vpn) in at && pagetable == at[PlaceOf(root, level, vpn)]
      modifies this`freePages, this`tables, this`at
      ensures Mapped() && Grown(old(at), at, root)
      ensures |freePages| == |old(freePages)| - if next.Some? && PlaceOf(root, level - 1, vpn) !in old(at) then 1 else 0
      ensures !alloc ==> tables == old(tables) && at == old(at) && freePages == old(freePages)
      ensures forall l :: 0 <= l < level - 1 ==> (PlaceOf(root, l, vpn) in at <==> PlaceOf(root, l, vpn) in old(at))
      ensures next.Some? ==> PlaceOf(root, level - 1, vpn) in at && next.value == at[PlaceOf(root, level - 1, vpn)]
      ensures next.None? ==> PlaceOf(root, level - 1, vpn) !in at && at == old(at) && (alloc ==> freePages == {})
    {
      ghost var pl := PlaceOf(root, level, vpn);
      InnerRead(tables, at, pt, root, level, vpn);
      var pte := tables[pagetable][Px(level, vpn)];
      if pte.v {
        return Some(pte.pte.ppn);
      }
      if !alloc || freePages == {} {
        return None;
      }
      var page := Hang(Slot(pagetable, Px(level, vpn)), pl);
      next := Some(page);
    }

    /** walk, lines 74-80: hang an empty table under an invalid entry. */
    method Hang(entry: Slot, ghost pl: Place) returns (page: Ppn)
      requires Mapped() && freePages != {} && pl in at && 0 < pl.level && entry.table == at[pl] && entry.index < ENTRIES
      requires entry.table in tables && |tables[entry.table]| == ENTRIES && !tables[entry.table][entry.index].v
      modifies this`freePages, this`tables, this`at
      ensures Mapped() && |freePages| == |old(freePages)| - 1
      ensures Child(pl, entry.index) !in old(at) && at == old(at)[Child(pl, entry.index) := page]
    {
      page :| page in freePages;
      PartedMove(pool, freePages, tables.Keys, refs.Keys, page);
      AddTable(tables, at, pt, pl, entry.index, page);
      freePages := freePages - {page};
      tables := Hung(tables, entry, page);
      assert tables.Keys == old(tables).Keys + {page};
      at := at[Child(pl, entry.index) := page];
    }

    /** walk: the entry to which the three nine-bit fields of the page number lead, with
        the missing tables added on the way if `alloc`. That fails exactly past MAXVA or
        when they outnumber the free pages. */
    method Walk(root: Ppn, vpn: nat, alloc: bool) returns (slot: Option<Slot>)
      requires Mapped() && IsSpace(root)
      modifies this`freePages, this`tables, this`at
      ensures Mapped() && Grown(old(at), at, root)
      ensures !alloc ==> tables == old(tables) && at == old(at) && freePages == old(freePages)
      ensures slot.Some? || !alloc ==> slot == Found(at, Key(root, vpn))
      ensures slot.Some? || !alloc ==> forall v2: nat, v1: nat, v0: nat {:trigger WalkSlot(tables, root, v2, v1, v0)} ::
        v2 < 512 && v1 < 512 && v0 < 512 && v2 * 262144 + v1 * 512 + v0 == vpn < MAXVPN ==> slot == WalkSlot(tables, root, v2, v1, v0)
      ensures alloc ==> (slot.Some? <==> vpn < MAXVPN && Lacks(old(at), root, vpn) <= |old(freePages)|)
      ensures alloc && slot.Some? ==> |freePages| == |old(freePages)| - Lacks(old(at), root, vpn)
    {
      slot := WalkDown(root, vpn, alloc);
      if slot.Some? || !alloc {
        forall v2: nat, v1: nat, v0: nat | v2 < 512 && v1 < 512 && v0 < 512 && v2 * 262144 + v1 * 512 + v0 == vpn < MAXVPN
          ensures WalkSlot(tables, root, v2, v1, v0) == Found(at, Key(root, vpn))
        {
          Translates(tables, at, pt, root, v2, v1, v0);
        }
      }
    }

    method WalkDown(root: Ppn, vpn: nat, alloc: bool) returns (slot: Option<Slot>)
      requires Mapped() && IsSpace(root)
      modifies this`freePages, this`tables, this`at
      ensures Mapped() && IsSpace(root) && Grown(old(at), at, root)
      ensures !alloc ==> tables == old(tables) && at == old(at) && freePages == old(freePages)
      ensures slot.Some? || !alloc ==> slot == Found(at, Key(root, vpn))
      ensures alloc ==> (slot.Some? <==> vpn < MAXVPN && Lacks(old(at), root, vpn) <= |old(freePages)|)
      ensures alloc && slot.Some? ==> |freePages| == |old(freePages)| - Lacks(old(at), root, vpn)
    {
      if vpn >= MAXVPN {
        return None;
      }
      MissingTable(root, 2, vpn);
      var level, pagetable := 2, root;
      while level > 0
        invariant level <= 2 && Mapped() && IsSpace(root) && Grown(old(at), at, root)
        invariant PlaceOf(root, level, vpn) in at && pagetable == at[PlaceOf(root, level, vpn)]
        invariant PlaceOf(root, 1, vpn) in old(at) ==> PlaceOf(root, 1, vpn) in at
        invariant level > 0 ==> (PlaceOf(root, 0, vpn) in at <==> PlaceOf(root, 0, vpn) in old(at))
        invariant level == 2 ==> (PlaceOf(root, 1, vpn) in at <==> PlaceOf(root, 1, vpn) in old(at))
        invariant level <= 1 ==> PlaceOf(root, 1, vpn) in at
        invariant |freePages| == |old(freePages)|
          - (if level < 2 && PlaceOf(root, 1, vpn) !in old(at) then 1 else 0) - (if level < 1 && PlaceOf(root, 0, vpn) !in old(at) then 1 else 0)
        invariant !alloc ==> tables == old(tables) && at == old(at) && freePages == old(freePages)
      {
        ghost var at0 := at;
        var next := Descend(root, level, vpn, pagetable, alloc);
        GrownTwice(old(at), at0, at, root);
        if next.None? {
          MissingTable(root, level, vpn);
          return None;
        }
        pagetable := next.value;
        level := level - 1;
      }
      slot := Some(Slot(pagetable, Px(0, vpn)));
    }

    /** If an inner table is missing, so is the leaf table. */
    lemma {:induction false} MissingTable(root: Ppn, level: nat, vpn: nat)
      requires Trees(tables, at) && 0 < level <= 2
      ensures PlaceOf(root, level - 1, vpn) !in at ==> PlaceOf(root, 0, vpn) !in at
    {
      assert Rooted(tables, at, PlaceOf(root, 0, vpn));
      assert Parent(PlaceOf(root, 0, vpn)) == PlaceOf(root, 1, vpn);
    }

    /** Write a leaf entry found by a walk. */
    method SetLeaf(slot: Slot, w: Word, ghost k: Key)
      requires Mapped() && Found(at, k) == Some(slot)
      modifies this`tables, this`pt
      ensures Mapped() && tables.Keys == old(tables.Keys)
      ensures pt == if w.v then old(pt)[k := w.pte] else old(pt) - {k}
    {
      LeafWrite(tables, at, pt, k, w);
      tables := Store1(tables, slot, w);
      assert tables.Keys == old(tables).Keys;
      pt := if w.v then pt[k := w.pte] else pt - {k};
    }

    /** What a found entry holds. */
    lemma {:induction false} Entry(k: Key)
      requires Mapped() && Found(at, k).Some?
      ensures var s := Found(at, k).value;
        && s.table in tables && s.index < |tables[s.table]|
        && tables[s.table][s.index].v == (k in pt)
        && (k in pt ==> tables[s.table][s.index].pte == pt[k])
    {
      assert Leaf(tables, at, k) == if k in pt then Some(pt[k]) else None;
      assert Rooted(tables, at, PlaceOf(k.space, 0, k.vpn));
    }

    lemma {:induction false} MappedFound(k: Key)
      requires Mapped() && k in pt
      ensures Found(at, k).Some? && k.vpn < MAXVPN
    {
      assert Leaf(tables, at, k) == Some(pt[k]);
    }

    /** mappages: `n` pages from `vpn` onto consecutive frames from `ppn`. The
        remap panic is the last requires; false is the ERR return. */
    method MapPages(root: Ppn, vpn: nat, ppn: Ppn, n: nat, prot: Prot) returns (ok: bool, ghost done: nat)
      requires Mapped() && IsSpace(root) && n > 0
      requires forall v :: vpn <= v < vpn + n ==> Key(root, v) !in pt
      modifies this`freePages, this`tables, this`at, this`pt
      ensures Mapped() && Grown(old(at), at, root)
      ensures done <= n && pt == MapRange(old(pt), root, vpn, ppn, done, prot)
      ensures ok ==> done == n && vpn + n <= MAXVPN
      ensures !ok ==> done < n && (vpn + done >= MAXVPN || |old(freePages)| < 2 * (done + 1))
      ensures n == 1 ==> (ok <==> vpn < MAXVPN && Lacks(old(at), root, vpn) <= |old(freePages)|)
    {
      var i := 0;
      done := 0;
      while i < n
        invariant i <= n && done == i && Mapped() && Grown(old(at), at, root) && (i > 0 ==> vpn + i <= MAXVPN)
        invariant |freePages| >= |old(freePages)| - 2 * i && (i == 0 ==> at == old(at) && freePages == old(freePages))
        invariant i == 1 ==> Lacks(old(at), root, vpn) <= |old(freePages)|
        invariant pt == MapRange(old(pt), root, vpn, ppn, i, prot)
      {
        ghost var at0 := at;
        var pte := Walk(root, vpn + i, true);
        GrownTwice(old(at), at0, at, root);
        if pte.None? {
          return false, i;
        }
        SetLeaf(pte.value, Word(true, Pte(ppn + i, prot, false)), Key(root, vpn + i));
        i := i + 1;
        done := i;
      }
      ok := true;
    }

    /** vma_gen_fault: zero fill */
    method GenFault(root: Ppn, vpn: nat, prot: Prot) returns (ok: bool)
      requires Valid() && IsSpace(root) && Key(root, vpn) !in pt && vpn < MAXVPN
      modifies this
      ensures Mapped() && Grown(old(at), at, root)
      ensures ok ==> Valid() && exists f :: f in old(freePages) && f !in old(refs) && Abs() == Fault(old(Abs()), Key(root, vpn), f, prot)
      ensures ok <==> 1 + Lacks(old(at), root, vpn) <= |old(freePages)|
    {
      if freePages == {} {
        return false;
      }
      var page :| page in freePages;
      PartedMove(pool, freePages, tables.Keys, refs.Keys, page);
      FaultRefines(Abs(), Key(root, vpn), page, prot);
      freePages := freePages - {page};
      refs := refs[page := 1];
      mem := mem[page := Zeros()];
      assert refs.Keys == old(refs).Keys + {page};
      ghost var n;
      ok, n := MapPages(root, vpn, page, 1, prot);
      MapOne(old(pt), root, vpn, page, prot);
      assert ok ==> Abs() == Fault(old(Abs()), Key(root, vpn), page, prot);
    }

    /** handle_cow_page_fault on the entry `pte` of page `k` */
    method CowPageFault(pte: Slot, ghost k: Key) returns (ok: bool)
      requires Valid() && k in pt && pt[k].cow && Found(at, k) == Some(pte)
      modifies this
      ensures Mapped() && at == old(at)
      ensures ok ==> Valid() && exists f :: CowFrame(old(Abs()), k, f) && Abs() == CowFault(old(Abs()), k, f)
      ensures ok ==> k in pt && pt[k].prot.w && old(pt)[k].ppn in old(refs)
      ensures ok ==> (pt[k].ppn == old(pt)[k].ppn <==> old(refs)[old(pt)[k].ppn] == 1)
      ensures ok ==> if pt[k].ppn == old(pt)[k].ppn then freePages == old(freePages) else freePages == old(freePages) - {pt[k].ppn}
      ensures ok <==> old(pt)[k].ppn in old(refs) && (old(refs)[old(pt)[k].ppn] == 1 || old(freePages) != {})
      ensures !ok ==> Abs() == old(Abs())
    {
      Entry(k);
      var word := tables[pte.table][pte.index].pte;
      var owned := Writable(word);
      var frame := word.ppn;
      assert PageOk(Abs(), k) && FrameOk(Abs(), frame);
      if freePages == {} && refs[frame] > 1 {
        return false;
      }
      ok := true;
      if refs[frame] > 1 {
        var page :| page in freePages;
        PartedMove(pool, freePages, tables.Keys, refs.Keys, page);
        CowFaultRefines(Abs(), k, page);
        freePages := freePages - {page};
        refs := refs[frame := refs[frame] - 1][page := 1];
        mem := mem[page := mem[frame]];
        assert refs.Keys == old(refs).Keys + {page};
        SetLeaf(pte, Word(true, owned.(ppn := page)), k);
        assert Abs() == CowFault(old(Abs()), k, page);
      } else {
        CowFaultRefines(Abs(), k, 0);
        SetLeaf(pte, Word(true, owned), k);
        assert Abs() == CowFault(old(Abs()), k, 0);
      }
    }

    /** A store by the user program to a page it may write: with a COW entry it
        traps first (page_fault_handler, lines 320-326). */
    method UserStore(space: Ppn, vpn: nat, off: nat, b: int) returns (ok: bool)
      requires Valid() && IsSpace(space) && off < PGSIZE
      requires Key(space, vpn) in pt && (pt[Key(space, vpn)].prot.w || pt[Key(space, vpn)].cow)
      modifies this
      ensures Mapped() && at == old(at)
      ensures ok ==> Valid() && exists f ::
        Enabled(old(Abs()), Write(Key(space, vpn), off, b, f)) && Abs() == Step(old(Abs()), Write(Key(space, vpn), off, b, f))
      ensures var p := old(pt)[Key(space, vpn)];
        ok <==> p.prot.w || (p.ppn in old(refs) && (old(refs)[p.ppn] == 1 || old(freePages) != {}))
      ensures !ok ==> Abs() == old(Abs())
    {
      ghost var k := Key(space, vpn);
      MappedFound(k);
      var pte := Walk(space, vpn, false);
      Entry(k);
      ghost var f: Ppn := 0;
      if !tables[pte.value.table][pte.value.index].pte.prot.w {
        ok := CowPageFault(pte.value, k);
        if !ok {
          return;
        }
        f :| CowFrame(old(Abs()), k, f) && Abs() == CowFault(old(Abs()), k, f);
        CowFaultRefines(old(Abs()), k, f);
        Entry(k);
      }
      var frame := tables[pte.value.table][pte.value.index].pte.ppn;
      StoreRefines(Abs(), k, off, b);
      assert PageOk(Abs(), k) && FrameOk(Abs(), frame);
      mem := mem[frame := mem[frame][off := b]];
      ok := true;
      assert Enabled(old(Abs()), Write(k, off, b, f)) && Abs() == Step(old(Abs()), Write(k, off, b, f));
    }

    /** `pte += 1`, walking again at a table boundary or when there was no table:
        the stepped pointer is what a fresh walk of the next page returns. */
    method NextSlot(space: Ppn, vpn: nat, pte: Option<Slot>) returns (next: Option<Slot>)
      requires Mapped() && IsSpace(space) && pte == Found(at, Key(space, vpn))
      modifies this`freePages, this`tables, this`at
      ensures Mapped() && tables == old(tables) && at == old(at) && freePages == old(freePages)
      ensures next == Found(at, Key(space, vpn + 1))
    {
      if pte.None? || pte.value.index + 1 == ENTRIES {
        next := Walk(space, vpn + 1, false);
      } else {
        next := Some(pte.value.(index := pte.value.index + 1));
      }
    }

    /** vma_gen_dup, lines 170-172: set_cow_pte if writable, and one more reference */
    method ShareEntry(pte: Slot, ghost k: Key)
      requires Mapped() && k in pt && Found(at, k) == Some(pte) && pt[k].ppn in refs
      modifies this`tables, this`pt, this`refs
      ensures Mapped() && pt == old(pt)[k := Shared(old(pt)[k])]
      ensures refs == old(refs)[old(pt)[k].ppn := old(refs)[old(pt)[k].ppn] + 1]
    {
      Entry(k);
      var word := tables[pte.table][pte.index].pte;
      if word.prot.w {
        SetLeaf(pte, Word(true, word.(prot := word.prot.(w := false), cow := true)), k);
      }
      assert pt == old(pt)[k := Shared(old(pt)[k])];
      refs := refs[word.ppn := refs[word.ppn] + 1];
      assert refs.Keys == old(refs).Keys;
    }

    /** vma_gen_dup, lines 169-176, on a valid entry; it fails exactly when the child's
        missing tables outnumber the free pages. */
    method DupEntry(pte: Slot, child: Ppn, vpn: nat, ghost k: Key) returns (ok: bool)
      requires Valid() && k in pt && k.vpn == vpn && Found(at, k) == Some(pte)
      requires IsSpace(child) && child != k.space && Key(child, vpn) !in pt
      modifies this
      ensures Mapped() && Grown(old(at), at, child)
      ensures ok ==> Valid() && Abs() == DupPage(old(Abs()), k, child)
      ensures ok ==> |freePages| == |old(freePages)| - Lacks(old(at), child, vpn)
      ensures ok <==> Lacks(old(at), child, vpn) <= |old(freePages)|
    {
      DupRefines(Abs(), k, child);
      MappedFound(k);
      assert PageOk(Abs(), k);
      ShareEntry(pte, k);
      var pte2 := Walk(child, vpn, true);
      if pte2.None? {
        return false;
      }
      Entry(k);
      SetLeaf(pte2.value, tables[pte.table][pte.index], Key(child, vpn));
      ok := true;
    }

    /** vma_gen_dup, one page */
    method DupAt(pte: Option<Slot>, parent: Ppn, vpn: nat, child: Ppn) returns (ok: bool)
      requires Valid() && pte == Found(at, Key(parent, vpn))
      requires IsSpace(child) && child != parent && Key(child, vpn) !in pt
      modifies this
      ensures Mapped() && Grown(old(at), at, child)
      ensures ok ==> Valid() && Abs() == DupIfMapped(old(Abs()), Key(parent, vpn), child)
      ensures ok ==> |freePages| == |old(freePages)| - if Key(parent, vpn) in old(pt) then Lacks(old(at), child, vpn) else 0
      ensures !ok <==> Key(parent, vpn) in old(pt) && Lacks(old(at), child, vpn) > |old(freePages)|
    {
      ghost var k := Key(parent, vpn);
      assert k in pt ==> pte.Some? by { if k in pt { MappedFound(k); } }
      ok := true;
      if pte.Some? {
        Entry(k);
        if tables[pte.value.table][pte.value.index].v {
          ok := DupEntry(pte.value, child, vpn, k);
        }
      }
    }

    /** vma_gen_dup: at every address that the loop visits the child sees what the parent
        saw, and nothing else that any address space sees changes. Two free pages for each
        page visited are always enough. */
    method Dup(parent: Ppn, v: Vma, child: Ppn) returns (ok: bool)
      requires Valid() && IsSpace(parent) && IsSpace(child) && parent != child
      requires forall vpn :: Visits(v, vpn) ==> Key(child, vpn) !in pt
      modifies this
      ensures Mapped() && Grown(old(at), at, child)
      ensures ok ==> Valid() && Abs() == DupRange(old(Abs()), parent, v.start / PGSIZE, PageCount(v), child)
      ensures ok ==> forall j {:trigger SeenAt(Abs(), j)} ::
        SeenAt(Abs(), j) == if j.space == child && v.start / PGSIZE <= j.vpn && v.start + (j.vpn - v.start / PGSIZE) * PGSIZE < v.end
        then SeenAt(old(Abs()), Key(parent, j.vpn)) else SeenAt(old(Abs()), j)
      ensures !ok ==> |old(freePages)| < 2 * PageCount(v) && v.start < v.end
    {
      forall vpn: nat ensures Visits(v, vpn) <==> v.start / PGSIZE <= vpn < v.start / PGSIZE + PageCount(v) { VisitsCounted(v, vpn); }
      ok := DupLoop(parent, v, child);
      if ok {
        DupRangeRefines(old(Abs()), parent, v.start / PGSIZE, PageCount(v), child);
        forall j ensures SeenAt(Abs(), j) == if j.space == child && Visits(v, j.vpn) then SeenAt(old(Abs()), Key(parent, j.vpn)) else SeenAt(old(Abs()), j) {
          assert SeenAt(Abs(), j) == EagerDup(old(Abs()), parent, v.start / PGSIZE, PageCount(v), child, j);
        }
      }
    }

    method DupLoop(parent: Ppn, v: Vma, child: Ppn) returns (ok: bool)
      requires Valid() && IsSpace(parent) && IsSpace(child) && parent != child
      requires Unmapped(Abs(), child, v.start / PGSIZE, PageCount(v))
      modifies this
      ensures Mapped() && Grown(old(at), at, child)
      ensures ok ==> Valid() && Abs() == DupRange(old(Abs()), parent, v.start / PGSIZE, PageCount(v), child)
      ensures !ok ==> |old(freePages)| < 2 * PageCount(v) && v.start < v.end
    {
      ghost var lo := v.start / PGSIZE;
      var pte := Walk(parent, v.start / PGSIZE, false);
      var va := v.start;
      ghost var i := 0;
      while va < v.end
        invariant va == v.start + i * PGSIZE && i <= PageCount(v) && |freePages| >= |old(freePages)| - 2 * i
        invariant Valid() && Grown(old(at), at, child) && IsSpace(parent) && IsSpace(child)
        invariant pte == Found(at, Key(parent, va / PGSIZE))
        invariant Abs() == DupRange(old(Abs()), parent, lo, i, child)
        decreases PageCount(v) - i
      {
        assert va / PGSIZE == lo + i;
        DupRangeAhead(old(Abs()), parent, lo, i, PageCount(v), child);
        ok, pte := DupRound(pte, parent, va / PGSIZE, child, old(at));
        if !ok {
          return;
        }
        va := va + PGSIZE;
        i := i + 1;
      }
      ok := true;
    }

    /** One round of it: the page, and the entry of the next one. */
    method DupRound(pte: Option<Slot>, parent: Ppn, vpn: nat, child: Ppn, ghost at0: Layout) returns (ok: bool, next: Option<Slot>)
      requires Valid() && pte == Found(at, Key(parent, vpn)) && IsSpace(parent) && Grown(at0, at, child)
      requires IsSpace(child) && child != parent && Key(child, vpn) !in pt
      modifies this
      ensures Mapped() && Grown(at0, at, child) && IsSpace(parent) && IsSpace(child)
      ensures ok ==> Valid() && Abs() == DupIfMapped(old(Abs()), Key(parent, vpn), child) && next == Found(at, Key(parent, vpn + 1))
      ensures if ok then |freePages| >= |old(freePages)| - 2 else |old(freePages)| < 2
    {
      ok := DupAt(pte, parent, vpn, child);
      GrownTwice(at0, old(at), at, child);
      next := None;
      if ok {
        next := NextSlot(parent, vpn, pte);
      }
    }

    /** vma_gen_close, lines 144-148, on a valid entry */
    method CloseEntry(pte: Slot, ghost k: Key)
      requires Valid() && k in pt && Found(at, k) == Some(pte)
      modifies this
      ensures Valid() && at == old(at) && Abs() == ClosePage(old(Abs()), k)
    {
      CloseRefines(Abs(), k);
      Entry(k);
      var frame := tables[pte.table][pte.index].pte.ppn;
      assert PageOk(Abs(), k) && FrameOk(Abs(), frame);
      PartedMove(pool, freePages, tables.Keys, refs.Keys, frame);
      if refs[frame] == 1 {
        freePages := freePages + {frame};
        refs := refs - {frame};
        mem := mem - {frame};
        assert refs.Keys == old(refs).Keys - {frame};
      } else {
        refs := refs[frame := refs[frame] - 1];
        assert refs.Keys == old(refs).Keys;
      }
      SetLeaf(pte, ZERO, k);
    }

    /** vma_gen_close: at every address that the loop visits nothing is mapped afterwards,
        everything else stands, and no page is lost. */
    method Close(space: Ppn, v: Vma)
      requires Valid() && IsSpace(space)
      modifies this
      ensures Valid() && at == old(at)
      ensures Abs() == CloseRange(old(Abs()), space, v.start / PGSIZE, PageCount(v))
      ensures forall j {:trigger SeenAt(Abs(), j)} ::
        SeenAt(Abs(), j) == if j.space == space && v.start / PGSIZE <= j.vpn && v.start + (j.vpn - v.start / PGSIZE) * PGSIZE < v.end
        then None else SeenAt(old(Abs()), j)
    {
      CloseLoop(space, v);
      CloseRangeRefines(old(Abs()), space, v.start / PGSIZE, PageCount(v));
      forall j ensures SeenAt(Abs(), j) == if j.space == space && Visits(v, j.vpn) then None else SeenAt(old(Abs()), j) {
        VisitsCounted(v, j.vpn);
      }
    }

    method CloseLoop(space: Ppn, v: Vma)
      requires Valid() && IsSpace(space)
      modifies this
      ensures Valid() && at == old(at)
      ensures Abs() == CloseRange(old(Abs()), space, v.start / PGSIZE, PageCount(v))
    {
      ghost var lo := v.start / PGSIZE;
      var pte := Walk(space, v.start / PGSIZE, false);
      var va := v.start;
      ghost var i := 0;
      while va < v.end
        invariant va == v.start + i * PGSIZE && i <= PageCount(v)
        invariant Valid() && at == old(at) && pte == Found(at, Key(space, va / PGSIZE))
        invariant Abs() == CloseRange(old(Abs()), space, lo, i)
        decreases PageCount(v) - i
      {
        ghost var k := Key(space, va / PGSIZE);
        assert va / PGSIZE == lo + i;
        assert k in pt ==> pte.Some? by { if k in pt { MappedFound(k); } }
        if pte.Some? {
          Entry(k);
          if tables[pte.value.table][pte.value.index].v {
            CloseEntry(pte.value, k);
          }
        }
        pte := NextSlot(space, va / PGSIZE, pte);
        va := va + PGSIZE;
        i := i + 1;
      }
    }
  }

  /** The map after `n` pages were mapped. */
  ghost function MapRange(pt: map<Key, Pte>, root: Ppn, vpn: nat, ppn: Ppn, n: nat, prot: Prot): map<Key, Pte>
  {
    if n == 0 then pt
    else MapRange(pt, root, vpn, ppn, n - 1, prot)[Key(root, vpn + n - 1) := Pte(ppn + n - 1, prot, false)]
  }

  lemma {:induction false} MapOne(pt: map<Key, Pte>, root: Ppn, vpn: nat, ppn: Ppn, prot: Prot)
    ensures MapRange(pt, root, vpn, ppn, 1, prot) == pt[Key(root, vpn) := Pte(ppn, prot, false)]
  {
    assert MapRange(pt, root, vpn, ppn, 0, prot) == pt;
  }

  /** mappages changes exactly its range. */
  lemma {:induction false} MapRangeAt(pt: map<Key, Pte>, root: Ppn, vpn: nat, ppn: Ppn, n: nat, prot: Prot, k: Key)
    ensures var pt' := MapRange(pt, root, vpn, ppn, n, prot);
      if k.space == root && vpn <= k.vpn < vpn + n then k in pt' && pt'[k] == Pte(ppn + (k.vpn - vpn), prot, false)
      else (k in pt' <==> k in pt) && (k in pt ==> pt'[k] == pt[k])
  {
    if n > 0 { MapRangeAt(pt, root, vpn, ppn, n - 1, prot, k); }
  }
}
