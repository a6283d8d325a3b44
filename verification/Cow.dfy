// Copy-on-write address spaces, seen as one partial map from (address space,
// virtual page) to PTE with reference-counted frames (kernel/vm/vm.c,
// kernel/vm/vma.c). Fault, fork copy and release of a page are single steps;
// the reference semantics gives every address space private copies.
module Cow {
  import opened Wrappers

  type Ppn = nat
  type Content = seq<int>   // the bytes of a page

  const PGSIZE: nat := 4096

  function ZeroBytes(n: nat): (z: Content)
    ensures |z| == n && forall i :: 0 <= i < n ==> z[i] == 0
  {
    if n == 0 then [] else ZeroBytes(n - 1) + [0]
  }

  /** A zeroed page. */
  function Zeros(): Content { ZeroBytes(PGSIZE) }

  /** R/W/X of a VMA. */
  datatype Prot = Prot(r: bool, w: bool, x: bool)

  /** A user leaf PTE: frame, permissions and the COW software bit. */
  datatype Pte = Pte(ppn: Ppn, prot: Prot, cow: bool)

  /** A page of an address space. */
  datatype Key = Key(space: nat, vpn: nat)

  datatype State = State(pt: map<Key, Pte>, refs: map<Ppn, nat>, mem: map<Ppn, Content>)

  // ----- invariant -----

  ghost function Mappers(pt: map<Key, Pte>, f: Ppn): set<Key> { set k | k in pt && pt[k].ppn == f }

  /** A mapped page has a frame; if it is writable it is the frame's only user. */
  ghost predicate PageOk(s: State, k: Key)
  {
    k in s.pt ==>
      && s.pt[k].ppn in s.refs
      && (s.pt[k].prot.w ==> s.refs[s.pt[k].ppn] == 1 && !s.pt[k].cow)
  }

  /** A frame in use has as many references as PTEs that map it, at least one. */
  ghost predicate FrameOk(s: State, f: Ppn)
  {
    && (f in s.refs <==> f in s.mem)
    && (f in s.refs ==> s.refs[f] > 0 && s.refs[f] == |Mappers(s.pt, f)| && |s.mem[f]| == PGSIZE)
  }

  ghost predicate Inv(s: State)
  {
    && (forall k {:trigger PageOk(s, k)} :: PageOk(s, k))
    && (forall f {:trigger FrameOk(s, f)} :: FrameOk(s, f))
  }

  // ----- reference semantics: private copies -----

  /** A private page: bytes and what the process may do with them. */
  datatype Private = Private(content: Content, prot: Prot)

  ghost function Bytes(s: State, f: Ppn): Content { if f in s.mem then s.mem[f] else [] }

  /** What address space `k.space` sees at page `k.vpn`, if anything: a COW page
      counts as writable. */
  ghost function SeenAt(s: State, k: Key): Option<Private>
  {
    if k !in s.pt then None
    else Some(Private(Bytes(s, s.pt[k].ppn), s.pt[k].prot.(w := s.pt[k].prot.w || s.pt[k].cow)))
  }

  // ----- steps -----

  /** vma_gen_fault: map a fresh zeroed frame `f`. */
  function Fault(s: State, k: Key, f: Ppn, prot: Prot): State
  {
    State(s.pt[k := Pte(f, prot, false)], s.refs[f := 1], s.mem[f := Zeros()])
  }

  /** A store by the user program. */
  function Store(s: State, k: Key, off: nat, b: int): State
    requires k in s.pt
  {
    var f := s.pt[k].ppn;
    if f in s.mem && off < |s.mem[f]| then s.(mem := s.mem[f := s.mem[f][off := b]]) else s
  }

  /** set_cow_pte if writable: the PTE that parent and child then share. */
  function Shared(p: Pte): Pte
  {
    if p.prot.w then p.(prot := p.prot.(w := false), cow := true) else p
  }

  function Refs(s: State, f: Ppn): nat { if f in s.refs then s.refs[f] else 0 }

  /** vma_gen_dup on one mapped page. */
  function DupPage(s: State, k: Key, child: nat): State
    requires k in s.pt
  {
    var p := Shared(s.pt[k]);
    State(s.pt[k := p][Key(child, k.vpn) := p], s.refs[p.ppn := Refs(s, p.ppn) + 1], s.mem)
  }

  /** vma_gen_close on one mapped page. */
  function ClosePage(s: State, k: Key): State
    requires k in s.pt
  {
    var f := s.pt[k].ppn;
    if Refs(s, f) <= 1 then State(s.pt - {k}, s.refs - {f}, s.mem - {f})
    else State(s.pt - {k}, s.refs[f := Refs(s, f) - 1], s.mem)
  }

  function Writable(p: Pte): Pte { p.(prot := p.prot.(w := true), cow := false) }

  /** handle_cow_page_fault; `f` is the frame a copy uses. */
  function CowFault(s: State, k: Key, f: Ppn): State
    requires k in s.pt
  {
    var p := s.pt[k];
    if Refs(s, p.ppn) > 1 then
      State(s.pt[k := Writable(p).(ppn := f)], s.refs[p.ppn := Refs(s, p.ppn) - 1][f := 1],
            s.mem[f := if p.ppn in s.mem then s.mem[p.ppn] else []])
    else
      s.(pt := s.pt[k := Writable(p)])
  }

  /** The frame is fresh, if the handler copies at all. */
  ghost predicate CowFrame(s: State, k: Key, f: Ppn)
  {
    k in s.pt && s.pt[k].cow && (Refs(s, s.pt[k].ppn) > 1 ==> f !in s.refs)
  }

  // ----- counting mappings -----

  lemma {:induction false} SizeWith(a: set<Key>, k: Key)
    ensures |a| == |a - {k}| + (if k in a then 1 else 0)
  {
    if k in a { assert a == (a - {k}) + {k}; } else { assert a - {k} == a; }
  }

  lemma {:induction false} MappersSet(pt: map<Key, Pte>, k: Key, p: Pte, f: Ppn)
    ensures |Mappers(pt[k := p], f)| == |Mappers(pt, f)|
      - (if k in pt && pt[k].ppn == f then 1 else 0) + (if p.ppn == f then 1 else 0)
  {
    var (a, b) := (Mappers(pt, f), Mappers(pt[k := p], f));
    assert a - {k} == b - {k};
    SizeWith(a, k);
    SizeWith(b, k);
  }

  lemma {:induction false} MappersDrop(pt: map<Key, Pte>, k: Key, f: Ppn)
    ensures |Mappers(pt - {k}, f)| == |Mappers(pt, f)| - (if k in pt && pt[k].ppn == f then 1 else 0)
  {
    var (a, b) := (Mappers(pt, f), Mappers(pt - {k}, f));
    assert b == a - {k};
    SizeWith(a, k);
  }

  /** A frame with one reference has one mapping. */
  lemma {:induction false} SoleMapper(s: State, k: Key, k': Key)
    requires Inv(s) && k in s.pt && k' in s.pt && s.pt[k].ppn == s.pt[k'].ppn && Refs(s, s.pt[k].ppn) == 1
    ensures k == k'
  {
    assert FrameOk(s, s.pt[k].ppn);
    var m := Mappers(s.pt, s.pt[k].ppn);
    SizeWith(m, k);
    assert k in m && k' in m && |m - {k}| == 0;
    assert k' !in m - {k};
  }

  lemma {:induction false} NoMappers(s: State, f: Ppn)
    requires Inv(s) && f !in s.refs
    ensures Mappers(s.pt, f) == {}
  {
    forall k | k in s.pt ensures s.pt[k].ppn != f { assert PageOk(s, k); }
  }

  // ----- every step keeps the invariant and has its eager effect at every page -----

  lemma {:induction false} FaultRefines(s: State, k: Key, f: Ppn, prot: Prot)
    requires Inv(s) && k !in s.pt && f !in s.refs
    ensures Inv(Fault(s, k, f, prot))
    ensures forall j :: SeenAt(Fault(s, k, f, prot), j) == if j == k then Some(Private(Zeros(), prot)) else SeenAt(s, j)
  {
    var s' := Fault(s, k, f, prot);
    NoMappers(s, f);
    forall g ensures FrameOk(s', g) {
      assert FrameOk(s, g);
      MappersSet(s.pt, k, Pte(f, prot, false), g);
    }
    forall j ensures PageOk(s', j) { assert PageOk(s, j); }
    forall j ensures SeenAt(s', j) == if j == k then Some(Private(Zeros(), prot)) else SeenAt(s, j) { assert PageOk(s, j); }
  }

  lemma {:induction false} StoreRefines(s: State, k: Key, off: nat, b: int)
    requires Inv(s) && k in s.pt && s.pt[k].prot.w && off < PGSIZE
    ensures Inv(Store(s, k, off, b))
    ensures var was := SeenAt(s, k).value;
      forall j :: off < |was.content| &&
        SeenAt(Store(s, k, off, b), j) ==
        if j == k then Some(was.(content := was.content[off := b])) else SeenAt(s, j)
  {
    var (s', f) := (Store(s, k, off, b), s.pt[k].ppn);
    assert PageOk(s, k) && FrameOk(s, f);
    forall g ensures FrameOk(s', g) { assert FrameOk(s, g); }
    forall j ensures PageOk(s', j) { assert PageOk(s, j); }
    forall j | j in s.pt && j != k ensures s.pt[j].ppn != f {
      if s.pt[j].ppn == f { SoleMapper(s, k, j); }
    }
  }

  lemma {:induction false} DupRefines(s: State, k: Key, child: nat)
    requires Inv(s) && k in s.pt && Key(child, k.vpn) !in s.pt
    ensures Inv(DupPage(s, k, child))
    ensures forall j :: SeenAt(DupPage(s, k, child), j) == if j == Key(child, k.vpn) then SeenAt(s, k) else SeenAt(s, j)
  {
    var (s', c, p) := (DupPage(s, k, child), Key(child, k.vpn), Shared(s.pt[k]));
    assert PageOk(s, k);
    forall g ensures FrameOk(s', g) {
      assert FrameOk(s, g);
      MappersSet(s.pt, k, p, g);
      MappersSet(s.pt[k := p], c, p, g);
    }
    forall j ensures PageOk(s', j) {
      assert PageOk(s, j);
      if j in s.pt && j != k && s.pt[j].ppn == p.ppn && s.refs[p.ppn] == 1 { SoleMapper(s, j, k); }
    }
  }

  lemma {:induction false} CloseRefines(s: State, k: Key)
    requires Inv(s) && k in s.pt
    ensures Inv(ClosePage(s, k))
    ensures forall j :: SeenAt(ClosePage(s, k), j) == if j == k then None else SeenAt(s, j)
  {
    var (s', f) := (ClosePage(s, k), s.pt[k].ppn);
    assert PageOk(s, k) && FrameOk(s, f);
    forall g ensures FrameOk(s', g) {
      assert FrameOk(s, g);
      MappersDrop(s.pt, k, g);
    }
    forall j | j in s.pt && j != k && s.pt[j].ppn == f ensures s.refs[f] > 1 && !s.pt[j].prot.w {
      assert PageOk(s, j);
      if s.refs[f] == 1 { SoleMapper(s, j, k); }
    }
    forall j ensures PageOk(s', j) { assert PageOk(s, j); }
  }

  lemma {:induction false} CowFaultRefines(s: State, k: Key, f: Ppn)
    requires Inv(s) && CowFrame(s, k, f)
    ensures var s' := CowFault(s, k, f);
      && Inv(s') && s'.pt.Keys == s.pt.Keys && s'.pt[k].prot.w && s.pt[k].ppn in s.refs
      && (if s.refs[s.pt[k].ppn] == 1 then s'.pt[k].ppn == s.pt[k].ppn && s'.refs == s.refs && s'.mem == s.mem
          else s'.pt[k].ppn == f && s'.refs.Keys == s.refs.Keys + {f})
      && forall j :: SeenAt(s', j) == SeenAt(s, j)
  {
    var (s', g0) := (CowFault(s, k, f), s.pt[k].ppn);
    assert PageOk(s, k) && FrameOk(s, g0) && FrameOk(s, f);
    if s.refs[g0] > 1 { NoMappers(s, f); }
    forall g ensures FrameOk(s', g) {
      assert FrameOk(s, g);
      MappersSet(s.pt, k, s'.pt[k], g);
    }
    forall j ensures PageOk(s', j) && SeenAt(s', j) == SeenAt(s, j) {
      assert PageOk(s, j);
      if j in s.pt && j != k && s.pt[j].ppn == g0 && s.refs[g0] == 1 { SoleMapper(s, j, k); }
    }
  }

  // ----- ranges: a whole VMA -----

  ghost function DupIfMapped(s: State, k: Key, child: nat): State
  {
    if k in s.pt then DupPage(s, k, child) else s
  }

  /** vma_gen_dup over `n` pages from `lo`; unmapped pages are skipped. */
  ghost function DupRange(s: State, parent: nat, lo: nat, n: nat, child: nat): State
  {
    if n == 0 then s else DupIfMapped(DupRange(s, parent, lo, n - 1, child), Key(parent, lo + n - 1), child)
  }

  /** Private copies of the parent's pages in the range, at page `j`. */
  ghost function EagerDup(s: State, parent: nat, lo: nat, n: nat, child: nat, j: Key): Option<Private>
  {
    if j.space == child && lo <= j.vpn < lo + n then SeenAt(s, Key(parent, j.vpn)) else SeenAt(s, j)
  }

  ghost predicate Unmapped(s: State, space: nat, lo: nat, n: nat)
  {
    forall v :: lo <= v < lo + n ==> Key(space, v) !in s.pt
  }

  /** Forking a range gives the child a private copy of each mapped page of the
      range and changes nothing else, for the parent or anyone. */
  lemma {:induction false} DupRangeRefines(s: State, parent: nat, lo: nat, n: nat, child: nat)
    requires Inv(s) && parent != child && Unmapped(s, child, lo, n)
    ensures Inv(DupRange(s, parent, lo, n, child))
    ensures forall j {:trigger SeenAt(DupRange(s, parent, lo, n, child), j)} ::
      SeenAt(DupRange(s, parent, lo, n, child), j) == EagerDup(s, parent, lo, n, child, j)
  {
    if n > 0 {
      DupRangeRefines(s, parent, lo, n - 1, child);
      var s1 := DupRange(s, parent, lo, n - 1, child);
      var k := Key(parent, lo + n - 1);
      assert SeenAt(s1, Key(child, k.vpn)) == None;
      DupIfMappedRefines(s1, k, child);
      forall j ensures SeenAt(DupIfMapped(s1, k, child), j) == EagerDup(s, parent, lo, n, child, j) {
        EagerDupNext(s, parent, lo, n, child, j);
        assert SeenAt(s1, if j == Key(child, k.vpn) then k else j)
            == EagerDup(s, parent, lo, n - 1, child, if j == Key(child, k.vpn) then k else j);
      }
    }
  }

  lemma {:induction false} DupRangeAhead(s: State, parent: nat, lo: nat, i: nat, n: nat, child: nat)
    requires Inv(s) && parent != child && Unmapped(s, child, lo, n) && i < n
    ensures Key(child, lo + i) !in DupRange(s, parent, lo, i, child).pt
  {
    DupRangeRefines(s, parent, lo, i, child);
    assert SeenAt(DupRange(s, parent, lo, i, child), Key(child, lo + i)) == None;
  }

  lemma {:induction false} DupIfMappedRefines(s: State, k: Key, child: nat)
    requires Inv(s) && Key(child, k.vpn) !in s.pt
    ensures Inv(DupIfMapped(s, k, child))
    ensures forall j :: SeenAt(DupIfMapped(s, k, child), j) == if j == Key(child, k.vpn) then SeenAt(s, k) else SeenAt(s, j)
  {
    if k in s.pt { DupRefines(s, k, child); }
  }

  lemma {:induction false} EagerDupNext(s: State, parent: nat, lo: nat, n: nat, child: nat, j: Key)
    requires parent != child && n > 0
    ensures var k := Key(parent, lo + n - 1);
      EagerDup(s, parent, lo, n, child, j) ==
      EagerDup(s, parent, lo, n - 1, child, if j == Key(child, k.vpn) then k else j)
  {
  }

  ghost function CloseIfMapped(s: State, k: Key): State
  {
    if k in s.pt then ClosePage(s, k) else s
  }

  /** vma_gen_close over `n` pages from `lo`. */
  ghost function CloseRange(s: State, space: nat, lo: nat, n: nat): State
  {
    if n == 0 then s else CloseIfMapped(CloseRange(s, space, lo, n - 1), Key(space, lo + n - 1))
  }

  /** Releasing a range removes exactly its pages and changes no other page. */
  lemma {:induction false} CloseRangeRefines(s: State, space: nat, lo: nat, n: nat)
    requires Inv(s)
    ensures Inv(CloseRange(s, space, lo, n))
    ensures forall j {:trigger SeenAt(CloseRange(s, space, lo, n), j)} ::
      SeenAt(CloseRange(s, space, lo, n), j) ==
      if j.space == space && lo <= j.vpn < lo + n then None else SeenAt(s, j)
  {
    if n > 0 {
      CloseRangeRefines(s, space, lo, n - 1);
      var s1 := CloseRange(s, space, lo, n - 1);
      var k := Key(space, lo + n - 1);
      if k in s1.pt { CloseRefines(s1, k); }
      forall j ensures SeenAt(CloseIfMapped(s1, k), j) ==
        if j.space == space && lo <= j.vpn < lo + n then None else SeenAt(s, j)
      {
        assert SeenAt(s1, j) == if j.space == space && lo <= j.vpn < lo + n - 1 then None else SeenAt(s, j);
      }
    }
  }

  // ----- whole runs -----

  /** A write by the user program traps into the COW handler when it has to;
      `f` is the frame the allocator then hands out. */
  datatype Op =
    | Touch(k: Key, prot: Prot, f: Ppn)
    | Write(k: Key, off: nat, b: int, f: Ppn)
    | Fork(parent: nat, lo: nat, n: nat, child: nat)
    | Release(space: nat, lo: nat, n: nat)

  ghost predicate Enabled(s: State, op: Op)
  {
    match op
    case Touch(k, _, f) => k !in s.pt && f !in s.refs
    case Write(k, off, _, f) => k in s.pt && (s.pt[k].prot.w || CowFrame(s, k, f)) && off < PGSIZE
    case Fork(parent, lo, n, child) => parent != child && Unmapped(s, child, lo, n)
    case Release(_, _, _) => true
  }

  ghost function Step(s: State, op: Op): State
    requires Enabled(s, op)
  {
    match op
    case Touch(k, prot, f) => Fault(s, k, f, prot)
    case Write(k, off, b, f) => Store(if s.pt[k].prot.w then s else CowFault(s, k, f), k, off, b)
    case Fork(parent, lo, n, child) => DupRange(s, parent, lo, n, child)
    case Release(space, lo, n) => CloseRange(s, space, lo, n)
  }

  /** Address spaces with private pages. */
  type Eager = Key -> Option<Private>

  ghost function EagerStep(e: Eager, op: Op): Eager
  {
    match op
    case Touch(k, prot, _) => (j: Key) => if j == k then Some(Private(Zeros(), prot)) else e(j)
    case Write(k, off, b, _) =>
      (j: Key) => if j == k && e(k).Some? && off < |e(k).value.content|
        then Some(e(k).value.(content := e(k).value.content[off := b])) else e(j)
    case Fork(parent, lo, n, child) =>
      (j: Key) => if j.space == child && lo <= j.vpn < lo + n then e(Key(parent, j.vpn)) else e(j)
    case Release(space, lo, n) => (j: Key) => if j.space == space && lo <= j.vpn < lo + n then None else e(j)
  }

  /** Every process sees in `s` what it has in `e`. */
  ghost predicate Agree(s: State, e: Eager)
  {
    forall j {:trigger SeenAt(s, j)} :: SeenAt(s, j) == e(j)
  }

  lemma {:induction false} StepRefines(s: State, e: Eager, op: Op)
    requires Inv(s) && Agree(s, e) && Enabled(s, op)
    ensures Inv(Step(s, op)) && Agree(Step(s, op), EagerStep(e, op))
  {
    match op
    case Touch(k, prot, f) => FaultRefines(s, k, f, prot);
    case Write(k, off, b, f) => WriteRefines(s, e, k, off, b, f);
    case Fork(parent, lo, n, child) => ForkRefines(s, e, parent, lo, n, child);
    case Release(space, lo, n) => CloseRangeRefines(s, space, lo, n);
  }

  lemma {:induction false} ForkRefines(s: State, e: Eager, parent: nat, lo: nat, n: nat, child: nat)
    requires Inv(s) && Agree(s, e) && parent != child && Unmapped(s, child, lo, n)
    ensures Inv(DupRange(s, parent, lo, n, child))
    ensures Agree(DupRange(s, parent, lo, n, child), EagerStep(e, Fork(parent, lo, n, child)))
  {
    DupRangeRefines(s, parent, lo, n, child);
    var e' := EagerStep(e, Fork(parent, lo, n, child));
    forall j ensures SeenAt(DupRange(s, parent, lo, n, child), j) == e'(j) {
      assert SeenAt(s, Key(parent, j.vpn)) == e(Key(parent, j.vpn)) && SeenAt(s, j) == e(j);
    }
  }

  lemma {:induction false} WriteRefines(s: State, e: Eager, k: Key, off: nat, b: int, f: Ppn)
    requires Inv(s) && Agree(s, e) && Enabled(s, Write(k, off, b, f))
    ensures var s' := Step(s, Write(k, off, b, f));
      Inv(s') && Agree(s', EagerStep(e, Write(k, off, b, f)))
  {
    var m := if s.pt[k].prot.w then s else CowFault(s, k, f);
    if !s.pt[k].prot.w { CowFaultRefines(s, k, f); }
    assert Agree(m, e);
    StoreRefines(m, k, off, b);
    assert SeenAt(m, k) == e(k);
  }

  ghost predicate Reaches(s: State, ops: seq<Op>, s': State)
    decreases |ops|
  {
    if ops == [] then s' == s else Enabled(s, ops[0]) && Reaches(Step(s, ops[0]), ops[1..], s')
  }

  ghost function EagerRun(e: Eager, ops: seq<Op>): Eager
    decreases |ops|
  {
    if ops == [] then e else EagerRun(EagerStep(e, ops[0]), ops[1..])
  }

  /** Copy-on-write refines eager copying over every run: each address space
      reads what it would with private copies. */
  lemma {:induction false} RunRefines(s: State, e: Eager, ops: seq<Op>, s': State)
    requires Inv(s) && Agree(s, e) && Reaches(s, ops, s')
    ensures Inv(s') && Agree(s', EagerRun(e, ops))
    decreases |ops|
  {
    if ops != [] {
      StepRefines(s, e, ops[0]);
      RunRefines(Step(s, ops[0]), EagerStep(e, ops[0]), ops[1..], s');
    }
  }

  /** From the empty machine on, frames are neither leaked nor freed early: the
      frames in use are exactly the mapped ones. */
  lemma {:induction false} NoLeak(ops: seq<Op>, s: State, f: Ppn)
    requires Reaches(State(map[], map[], map[]), ops, s)
    ensures f in s.refs <==> exists k :: k in s.pt && s.pt[k].ppn == f
  {
    RunRefines(State(map[], map[], map[]), j => None, ops, s);
    assert FrameOk(s, f);
    if f in s.refs {
      var k :| k in Mappers(s.pt, f);
      assert k in s.pt && s.pt[k].ppn == f;
    } else {
      forall k | k in s.pt ensures s.pt[k].ppn != f { assert PageOk(s, k); }
    }
  }
}
