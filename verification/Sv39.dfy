// Three-level Sv39 page tables (section 4.4 of the RISC-V Privileged
// Architecture, version 20211203; include/riscv.h, kernel/vm/vm.c) as linked
// 512-entry table pages, and the partial map from page numbers to PTEs that
// they stand for.
module Sv39 {
  import opened Cow
  import opened Wrappers

  const ENTRIES: nat := 512
  const MAXVPN: nat := 0x400_0000   // MAXVA / PGSIZE: 26 bits

  /** A `pte_t`: valid bit and, for a leaf, frame and permissions; an inner
      entry only uses the frame number. */
  datatype Word = Word(v: bool, pte: Pte)

  const ZERO: Word := Word(false, Pte(0, Prot(false, false, false), false))

  type Tables = map<Ppn, seq<Word>>

  /** PX(level, va) */
  function Px(level: nat, vpn: nat): (i: nat)
    requires level <= 2
    ensures i < ENTRIES
  {
    if level == 0 then vpn % 512 else if level == 1 then vpn / 512 % 512 else vpn / 262144 % 512
  }

  /** The part of the page-number space of `root` that a table covers. */
  datatype Place = Place(root: Ppn, level: nat, prefix: nat)

  ghost function PlaceOf(root: Ppn, level: nat, vpn: nat): Place
    requires level <= 2
  {
    Place(root, level, if level == 0 then vpn / 512 else if level == 1 then vpn / 262144 else vpn / 134217728)
  }

  ghost function Child(pl: Place, i: nat): Place
    requires pl.level > 0
  {
    Place(pl.root, pl.level - 1, pl.prefix * 512 + i)
  }

  ghost function Parent(pl: Place): Place { Place(pl.root, pl.level + 1, pl.prefix / 512) }

  lemma {:induction false} ChildPlace(root: Ppn, level: nat, vpn: nat)
    requires 0 < level <= 2
    ensures Child(PlaceOf(root, level, vpn), Px(level, vpn)) == PlaceOf(root, level - 1, vpn)
  {
  }

  type Layout = map<Place, Ppn>

  /** The table of a place has 512 entries, is nobody else's, and hangs in a tree. */
  ghost predicate Rooted(tables: Tables, at: Layout, pl: Place)
  {
    pl in at ==>
      && pl.level <= 2 && pl.root in tables && at[pl] in tables && |tables[at[pl]]| == ENTRIES
      && (pl.level < 2 ==> Parent(pl) in at)
  }

  ghost predicate Unshared(at: Layout, pl: Place, pl': Place)
  {
    pl in at && pl' in at && pl != pl' ==> at[pl] != at[pl']
  }

  /** An entry of an inner table is valid exactly when the table of the part it
      covers exists, and then points to it. */
  ghost predicate Linked(tables: Tables, at: Layout, pl: Place, i: nat)
  {
    pl in at && pl.level > 0 && at[pl] in tables && i < |tables[at[pl]]| ==>
      var w := tables[at[pl]][i];
      (w.v <==> Child(pl, i) in at) && (w.v ==> w.pte.ppn == at[Child(pl, i)])
  }

  /** The tables form trees: no table page serves two places. */
  ghost predicate Trees(tables: Tables, at: Layout)
  {
    && (forall pl {:trigger Rooted(tables, at, pl)} :: Rooted(tables, at, pl))
    && (forall pl, pl' {:trigger Unshared(at, pl, pl')} :: Unshared(at, pl, pl'))
    && (forall pl, i: nat {:trigger Linked(tables, at, pl, i)} :: Linked(tables, at, pl, i))
  }

  /** The leaf PTE of a page, if the walk finds a valid one. */
  ghost function Leaf(tables: Tables, at: Layout, k: Key): Option<Pte>
  {
    var pl := PlaceOf(k.space, 0, k.vpn);
    if k.vpn < MAXVPN && pl in at && at[pl] in tables && |tables[at[pl]]| == ENTRIES && tables[at[pl]][k.vpn % 512].v
    then Some(tables[at[pl]][k.vpn % 512].pte) else None
  }

  /** The tables stand for the partial map `pt`. */
  ghost predicate Stands(tables: Tables, at: Layout, pt: map<Key, Pte>)
  {
    forall k {:trigger Leaf(tables, at, k)} :: Leaf(tables, at, k) == if k in pt then Some(pt[k]) else None
  }

  ghost predicate Standing(tables: Tables, at: Layout, pt: map<Key, Pte>)
  {
    Trees(tables, at) && Stands(tables, at, pt)
  }

  /** A `pte_t *`. */
  datatype Slot = Slot(table: Ppn, index: nat)

  /** What a walk without allocation returns. */
  ghost function Found(at: Layout, k: Key): Option<Slot>
  {
    var pl := PlaceOf(k.space, 0, k.vpn);
    if k.vpn < MAXVPN && pl in at then Some(Slot(at[pl], k.vpn % 512)) else None
  }

  // ----- Translation as the hardware does it ---------------------------------

  /** Where the three nine-bit fields of a page number lead, from the tables alone:
      entry `v0` of the table under entry `v1` of the table under entry `v2`. */
  ghost function WalkSlot(tables: Tables, root: Ppn, v2: nat, v1: nat, v0: nat): Option<Slot>
  {
    if root in tables && v2 < |tables[root]| && tables[root][v2].v then
      var t := tables[root][v2].pte.ppn;
      if t in tables && v1 < |tables[t]| && tables[t][v1].v then Some(Slot(tables[t][v1].pte.ppn, v0)) else None
    else None
  }

  /** The indices of a page number are its base-512 digits. */
  lemma {:induction false} PxDigits(v2: nat, v1: nat, v0: nat)
    requires v2 < 512 && v1 < 512 && v0 < 512
    ensures var vpn := v2 * 262144 + v1 * 512 + v0; Px(2, vpn) == v2 && Px(1, vpn) == v1 && Px(0, vpn) == v0
  {
    var vpn := v2 * 262144 + v1 * 512 + v0;
    assert vpn / 512 == v2 * 512 + v1 && vpn / 262144 == v2;
  }

  /** The tables translate every page number as the map does: the three fields of the
      number lead to its entry, and that entry is what the map holds. */
  lemma {:induction false} Translates(tables: Tables, at: Layout, pt: map<Key, Pte>, root: Ppn, v2: nat, v1: nat, v0: nat)
    requires Standing(tables, at, pt) && Place(root, 2, 0) in at && at[Place(root, 2, 0)] == root
    requires v2 < 512 && v1 < 512 && v0 < 512 && v2 * 262144 + v1 * 512 + v0 < MAXVPN
    ensures var (k, s) := (Key(root, v2 * 262144 + v1 * 512 + v0), WalkSlot(tables, root, v2, v1, v0));
      && s == Found(at, k)
      && (k in pt <==> s.Some? && s.value.table in tables && v0 < |tables[s.value.table]| && tables[s.value.table][v0].v)
      && (k in pt ==> pt[k] == tables[s.value.table][v0].pte)
  {
    var vpn := v2 * 262144 + v1 * 512 + v0;
    PxDigits(v2, v1, v0);
    assert vpn / 134217728 == 0;
    InnerRead(tables, at, pt, root, 2, vpn);
    if PlaceOf(root, 1, vpn) in at {
      InnerRead(tables, at, pt, root, 1, vpn);
    } else {
      assert Rooted(tables, at, PlaceOf(root, 0, vpn)) && Parent(PlaceOf(root, 0, vpn)) == PlaceOf(root, 1, vpn);
    }
    assert Rooted(tables, at, PlaceOf(root, 0, vpn));
    assert Leaf(tables, at, Key(root, vpn)) == if Key(root, vpn) in pt then Some(pt[Key(root, vpn)]) else None;
  }

  function Store1(tables: Tables, s: Slot, w: Word): Tables
    requires s.table in tables && s.index < |tables[s.table]|
  {
    tables[s.table := tables[s.table][s.index := w]]
  }

  /** Writing a leaf entry changes the map at that page and nowhere else. */
  lemma {:induction false} LeafWrite(tables: Tables, at: Layout, pt: map<Key, Pte>, k: Key, w: Word)
    requires Standing(tables, at, pt) && Found(at, k).Some?
    ensures var s := Found(at, k).value;
      && s.table in tables && s.index < |tables[s.table]|
      && Standing(Store1(tables, s, w), at, if w.v then pt[k := w.pte] else pt - {k})
  {
    var s := Found(at, k).value;
    var pl := PlaceOf(k.space, 0, k.vpn);
    assert Rooted(tables, at, pl);
    var tables' := Store1(tables, s, w);
    forall q ensures Rooted(tables', at, q) { assert Rooted(tables, at, q); }
    forall q, i: nat ensures Linked(tables', at, q, i) {
      assert Linked(tables, at, q, i) && Unshared(at, q, pl);
    }
    var pt' := if w.v then pt[k := w.pte] else pt - {k};
    forall k' ensures Leaf(tables', at, k') == if k' in pt' then Some(pt'[k']) else None {
      assert Leaf(tables, at, k') == if k' in pt then Some(pt[k']) else None;
      var q := PlaceOf(k'.space, 0, k'.vpn);
      assert Unshared(at, q, pl) && Rooted(tables, at, q);
      if q == pl && k' != k { SamePlace(k, k'); }
    }
  }

  lemma {:induction false} SamePlace(k: Key, k': Key)
    requires PlaceOf(k.space, 0, k.vpn) == PlaceOf(k'.space, 0, k'.vpn) && k != k'
    ensures k.vpn % 512 != k'.vpn % 512
  {
  }

  function EmptyEntries(n: nat): (t: seq<Word>)
    ensures |t| == n && forall i :: 0 <= i < n ==> t[i] == ZERO
  {
    if n == 0 then [] else EmptyEntries(n - 1) + [ZERO]
  }

  /** A zeroed table page. */
  function EmptyTable(): seq<Word> { EmptyEntries(ENTRIES) }

  function InnerEntry(p: Ppn): Word { Word(true, Pte(p, Prot(false, false, false), false)) }

  /** An empty table page `p` hung under entry `s`. */
  function Hung(tables: Tables, s: Slot, p: Ppn): Tables
    requires s.table in tables && s.index < |tables[s.table]|
  {
    Store1(tables, s, InnerEntry(p))[p := EmptyTable()]
  }

  /** What a walk reads in an inner table. */
  lemma {:induction false} InnerRead(tables: Tables, at: Layout, pt: map<Key, Pte>, root: Ppn, level: nat, vpn: nat)
    requires Standing(tables, at, pt) && 0 < level <= 2 && PlaceOf(root, level, vpn) in at
    ensures var (t, i, next) := (at[PlaceOf(root, level, vpn)], Px(level, vpn), PlaceOf(root, level - 1, vpn));
      && t in tables && |tables[t]| == ENTRIES && Child(PlaceOf(root, level, vpn), i) == next
      && (tables[t][i].v <==> next in at) && (tables[t][i].v ==> tables[t][i].pte.ppn == at[next])
  {
    ChildPlace(root, level, vpn);
    assert Rooted(tables, at, PlaceOf(root, level, vpn));
    assert Linked(tables, at, PlaceOf(root, level, vpn), Px(level, vpn));
  }

  /** Hanging an empty table page under an invalid entry changes no mapping. */
  lemma {:induction false} AddTable(tables: Tables, at: Layout, pt: map<Key, Pte>, pl: Place, i: nat, p: Ppn)
    requires Standing(tables, at, pt) && pl in at && 0 < pl.level && i < ENTRIES && p !in tables
    requires at[pl] in tables && i < |tables[at[pl]]| && !tables[at[pl]][i].v
    ensures Child(pl, i) !in at && Standing(Hung(tables, Slot(at[pl], i), p), at[Child(pl, i) := p], pt)
  {
    var c := Child(pl, i);
    var tables', at' := Hung(tables, Slot(at[pl], i), p), at[c := p];
    assert Linked(tables, at, pl, i);
    AddTableLinks(tables, at, pl, i, p);
    forall k ensures Leaf(tables', at', k) == if k in pt then Some(pt[k]) else None {
      assert Leaf(tables, at, k) == if k in pt then Some(pt[k]) else None;
      var q := PlaceOf(k.space, 0, k.vpn);
      assert Unshared(at, q, pl) && Rooted(tables, at, q);
    }
  }

  lemma {:induction false} AddTableLinks(tables: Tables, at: Layout, pl: Place, i: nat, p: Ppn)
    requires Trees(tables, at) && pl in at && pl.level > 0 && i < ENTRIES && p !in tables && Child(pl, i) !in at
    requires at[pl] in tables && i < |tables[at[pl]]|
    ensures Trees(Hung(tables, Slot(at[pl], i), p), at[Child(pl, i) := p])
  {
    var c := Child(pl, i);
    var tables', at' := Hung(tables, Slot(at[pl], i), p), at[c := p];
    assert Rooted(tables, at, pl) && Parent(c) == pl;
    forall q ensures Rooted(tables', at', q) { assert Rooted(tables, at, q); }
    forall q, q' ensures Unshared(at', q, q') {
      assert Unshared(at, q, q') && Rooted(tables, at, q) && Rooted(tables, at, q');
    }
    forall q, j: nat ensures Linked(tables', at', q, j) {
      assert Linked(tables, at, q, j) && Unshared(at, q, pl) && Rooted(tables, at, q);
      if q in at' && q.level > 0 && j < ENTRIES {
        assert Parent(Child(q, j)) == q;
        assert Rooted(tables, at, Child(q, j));
      }
    }
  }

  /** A fresh empty root table is a new address space with nothing mapped. */
  lemma {:induction false} AddRoot(tables: Tables, at: Layout, pt: map<Key, Pte>, p: Ppn)
    requires Standing(tables, at, pt) && p !in tables
    ensures Standing(tables[p := EmptyTable()], at[Place(p, 2, 0) := p], pt)
    ensures forall k :: k in pt ==> k.space != p
  {
    var (root, tables', at') := (Place(p, 2, 0), tables[p := EmptyTable()], at[Place(p, 2, 0) := p]);
    forall q ensures Rooted(tables', at', q) { assert Rooted(tables, at, q); }
    forall q, q' ensures Unshared(at', q, q') {
      assert Unshared(at, q, q') && Rooted(tables, at, q) && Rooted(tables, at, q');
    }
    forall q, j: nat ensures Linked(tables', at', q, j) {
      assert Linked(tables, at, q, j) && Rooted(tables, at, q) && Rooted(tables, at, Child(root, j));
    }
    forall k ensures Leaf(tables', at', k) == if k in pt then Some(pt[k]) else None {
      var q := PlaceOf(k.space, 0, k.vpn);
      assert Leaf(tables, at, k) == if k in pt then Some(pt[k]) else None;
      assert Rooted(tables, at, q);
    }
    forall k | k in pt ensures k.space != p {
      assert Leaf(tables, at, k) == Some(pt[k]);
      assert Rooted(tables, at, PlaceOf(k.space, 0, k.vpn));
    }
  }
}
