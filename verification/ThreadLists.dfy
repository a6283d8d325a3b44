/** The `sched` nodes of threads, linked into run lists and wait queues
    (kernel/proc/sched.c, include/lib/fifo.h). One node serves all lists, so that each
    thread is on one list at most is what keeps the lists apart. */
module ThreadLists {
  import opened Wrappers
  import opened Queues
  import opened Links
  import opened Semaphore
  import opened Sched

  datatype ListId = RunList(k: Cpu) | WaitList(s: Sid)

  type SchedNode = Node<ListId, Tid>

  function RunHead(k: Cpu): SchedNode { Head(RunList(k)) }

  function WaitHead(s: Sid): SchedNode { Head(WaitList(s)) }

  function Th(t: Tid): SchedNode { Item(t) }

  ghost function Ths(q: seq<Tid>): seq<SchedNode> { Items(q) }

  /** Run lists are added to at the head and read from the tail: read backwards, they
      are oldest first. */
  ghost predicate RunRing(l: Links<SchedNode>, run: map<Cpu, seq<Tid>>, k: Cpu)
  {
    k in run ==> Ring(Flip(l), RunHead(k), Ths(run[k]))
  }

  ghost predicate WaitRing(l: Links<SchedNode>, sems: map<Sid, Sem>, s: Sid)
  {
    s in sems ==> Ring(l, WaitHead(s), Ths(sems[s].waiters))
  }

  /** The node of a thread that is on no list is linked to itself. */
  ghost predicate Loose(l: Links<SchedNode>, loc: map<Tid, Loc>, t: Tid)
  {
    t in loc && !loc[t].InRun? && !loc[t].InWait? ==> Self(l, Th(t))
  }

  ghost predicate ListsOk(l: Links<SchedNode>, run: map<Cpu, seq<Tid>>, sems: map<Sid, Sem>, loc: map<Tid, Loc>)
  {
    && (forall k: Cpu {:trigger RunRing(l, run, k)} :: RunRing(l, run, k))
    && (forall s: Sid {:trigger WaitRing(l, sems, s)} :: WaitRing(l, sems, s))
    && (forall t: Tid {:trigger Loose(l, loc, t)} :: Loose(l, loc, t))
  }

  /** Threads are listed where they are located. */
  ghost predicate Located(run: map<Cpu, seq<Tid>>, sems: map<Sid, Sem>, loc: map<Tid, Loc>)
  {
    && (forall k: Cpu {:trigger k in run} :: k in run ==> Queued(run[k], loc, InRun(k)))
    && (forall s: Sid {:trigger s in sems} :: s in sems ==> Queued(sems[s].waiters, loc, InWait(s)))
  }

  lemma {:induction false} InvLocated(st: State)
    requires Inv(st)
    ensures Located(st.run, st.sems, st.loc)
  {
    forall k: Cpu | k in st.run ensures Queued(st.run[k], st.loc, InRun(k)) { ListHas(st, k); }
    forall s: Sid | s in st.sems ensures Queued(st.sems[s].waiters, st.loc, InWait(s)) { SemaphoreHas(st, s); }
  }

  /** A node outside the list being changed, other than that of `t`, is left alone. */
  ghost predicate OnlyAround(l: Links<SchedNode>, l': Links<SchedNode>, h: SchedNode, q: seq<Tid>, t: Tid)
  {
    forall m: SchedNode {:trigger SameAt(l, l', m)} :: m != h && m != Th(t) && m !in Ths(q) ==> SameAt(l, l', m)
  }

  /** The other run lists, when thread `t` moves between list (h, q) and elsewhere. */
  lemma {:induction false} OtherRun(l: Links<SchedNode>, l': Links<SchedNode>, run: map<Cpu, seq<Tid>>, sems: map<Sid, Sem>, loc: map<Tid, Loc>,
                                    h: SchedNode, q: seq<Tid>, at: Loc, t: Tid, k: Cpu)
    requires ListsOk(l, run, sems, loc) && Located(run, sems, loc) && Queued(q, loc, at) && OnlyAround(l, l', h, q, t)
    requires k in run && !h.Item? && h != RunHead(k) && at != InRun(k) && t in loc && loc[t] != InRun(k)
    ensures RunRing(l', run, k)
  {
    assert RunRing(l, run, k);
    var r := run[k];
    forall i | 0 <= i < |r| ensures SameAt(Flip(l), Flip(l'), Ths(r)[i]) {
      assert Member(r, loc, InRun(k), r[i]) && Member(q, loc, at, r[i]) && Member(r, loc, InRun(k), t);
      ItemsIn<ListId, Tid>(q, r[i]);
      assert SameAt(l, l', Th(r[i]));
    }
    assert SameAt(l, l', RunHead(k));
    RingFrame(Flip(l), Flip(l'), RunHead(k), Ths(r));
  }

  lemma {:induction false} OtherWait(l: Links<SchedNode>, l': Links<SchedNode>, run: map<Cpu, seq<Tid>>, sems: map<Sid, Sem>, loc: map<Tid, Loc>,
                                     h: SchedNode, q: seq<Tid>, at: Loc, t: Tid, s: Sid)
    requires ListsOk(l, run, sems, loc) && Located(run, sems, loc) && Queued(q, loc, at) && OnlyAround(l, l', h, q, t)
    requires s in sems && !h.Item? && h != WaitHead(s) && at != InWait(s) && t in loc && loc[t] != InWait(s)
    ensures WaitRing(l', sems, s)
  {
    assert WaitRing(l, sems, s);
    var r := sems[s].waiters;
    forall i | 0 <= i < |r| ensures SameAt(l, l', Ths(r)[i]) {
      assert Member(r, loc, InWait(s), r[i]) && Member(q, loc, at, r[i]) && Member(r, loc, InWait(s), t);
      ItemsIn<ListId, Tid>(q, r[i]);
      assert SameAt(l, l', Th(r[i]));
    }
    assert SameAt(l, l', WaitHead(s));
    RingFrame(l, l', WaitHead(s), Ths(r));
  }

  lemma {:induction false} OtherLoose(l: Links<SchedNode>, l': Links<SchedNode>, loc: map<Tid, Loc>, h: SchedNode, q: seq<Tid>, at: Loc, t: Tid, u: Tid)
    requires Loose(l, loc, u) && Queued(q, loc, at) && OnlyAround(l, l', h, q, t) && u != t && !h.Item? && (at.InRun? || at.InWait?)
    ensures Loose(l', loc, u)
  {
    assert Member(q, loc, at, u);
    ItemsIn<ListId, Tid>(q, u);
    assert u in loc && !loc[u].InRun? && !loc[u].InWait? ==> SameAt(l, l', Th(u));
  }

  // ----- The four list operations --------------------------------------------

  /** list_add_head to run list `k` */
  lemma {:induction false} RunPush(l: Links<SchedNode>, run: map<Cpu, seq<Tid>>, sems: map<Sid, Sem>, loc: map<Tid, Loc>, t: Tid, k: Cpu)
    requires ListsOk(l, run, sems, loc) && Located(run, sems, loc) && k in run
    requires t in loc && !loc[t].InRun? && !loc[t].InWait?
    ensures ListsOk(AddHead(l, Th(t), RunHead(k)), run[k := run[k] + [t]], sems, loc[t := InRun(k)])
  {
    var l', run', loc', q := AddHead(l, Th(t), RunHead(k)), run[k := run[k] + [t]], loc[t := InRun(k)], run[k];
    assert RunRing(l, run, k) && Member(q, loc, InRun(k), t);
    ItemsIn<ListId, Tid>(q, t);
    ItemsPush<ListId, Tid>(q, t);
    FlipAdd(l, Th(t), RunHead(k));
    AddTailRing(Flip(l), RunHead(k), Ths(q), Th(t));
    forall m: SchedNode | m != RunHead(k) && m != Th(t) && m !in Ths(q) ensures SameAt(l, l', m) {
      AddTailTouches(Flip(l), RunHead(k), Ths(q), Th(t), m);
    }
    forall k2: Cpu ensures RunRing(l', run', k2) {
      if k2 in run && k2 != k { OtherRun(l, l', run, sems, loc, RunHead(k), q, InRun(k), t, k2); assert RunRing(l', run, k2); }
    }
    forall s: Sid ensures WaitRing(l', sems, s) {
      if s in sems { OtherWait(l, l', run, sems, loc, RunHead(k), q, InRun(k), t, s); }
    }
    forall u: Tid ensures Loose(l', loc', u) {
      if u != t { assert Loose(l, loc, u); OtherLoose(l, l', loc, RunHead(k), q, InRun(k), t, u); }
    }
  }

  /** list_del_init of the oldest thread of run list `k` */
  lemma {:induction false} RunPop(l: Links<SchedNode>, run: map<Cpu, seq<Tid>>, sems: map<Sid, Sem>, loc: map<Tid, Loc>, k: Cpu, to: Loc)
    requires ListsOk(l, run, sems, loc) && Located(run, sems, loc) && k in run && run[k] != [] && !to.InRun? && !to.InWait?
    ensures ListsOk(DelInit(l, Th(run[k][0])), run[k := run[k][1..]], sems, loc[run[k][0] := to])
  {
    var q, t := run[k], run[k][0];
    var l', run', loc' := DelInit(l, Th(t)), run[k := q[1..]], loc[t := to];
    assert RunRing(l, run, k) && Member(q, loc, InRun(k), t);
    ItemsTail<ListId, Tid>(q);
    FlipDelInit(l, Th(t));
    PopRing(Flip(l), RunHead(k), Ths(q));
    forall m: SchedNode | m != RunHead(k) && m != Th(t) && m !in Ths(q) ensures SameAt(l, l', m) {
      DelInitTouches(Flip(l), RunHead(k), Ths(q), 0, m);
    }
    forall k2: Cpu ensures RunRing(l', run', k2) {
      if k2 in run && k2 != k { OtherRun(l, l', run, sems, loc, RunHead(k), q, InRun(k), t, k2); assert RunRing(l', run, k2); }
    }
    forall s: Sid ensures WaitRing(l', sems, s) {
      if s in sems { OtherWait(l, l', run, sems, loc, RunHead(k), q, InRun(k), t, s); }
    }
    forall u: Tid ensures Loose(l', loc', u) {
      if u != t { assert Loose(l, loc, u); OtherLoose(l, l', loc, RunHead(k), q, InRun(k), t, u); }
    }
  }

  /** fifo_push on the queue of semaphore `s` */
  lemma {:induction false} WaitPush(l: Links<SchedNode>, run: map<Cpu, seq<Tid>>, sems: map<Sid, Sem>, loc: map<Tid, Loc>, t: Tid, s: Sid, m': Sem)
    requires ListsOk(l, run, sems, loc) && Located(run, sems, loc) && s in sems && m'.waiters == sems[s].waiters + [t]
    requires t in loc && !loc[t].InRun? && !loc[t].InWait?
    ensures ListsOk(AddTail(l, Th(t), WaitHead(s)), run, sems[s := m'], loc[t := InWait(s)])
  {
    var l', sems', loc', q := AddTail(l, Th(t), WaitHead(s)), sems[s := m'], loc[t := InWait(s)], sems[s].waiters;
    assert WaitRing(l, sems, s) && Member(q, loc, InWait(s), t);
    ItemsIn<ListId, Tid>(q, t);
    ItemsPush<ListId, Tid>(q, t);
    AddTailRing(l, WaitHead(s), Ths(q), Th(t));
    forall m: SchedNode | m != WaitHead(s) && m != Th(t) && m !in Ths(q) ensures SameAt(l, l', m) {
      AddTailTouches(l, WaitHead(s), Ths(q), Th(t), m);
    }
    forall k: Cpu ensures RunRing(l', run, k) {
      if k in run { OtherRun(l, l', run, sems, loc, WaitHead(s), q, InWait(s), t, k); }
    }
    forall s2: Sid ensures WaitRing(l', sems', s2) {
      if s2 in sems && s2 != s { OtherWait(l, l', run, sems, loc, WaitHead(s), q, InWait(s), t, s2); assert WaitRing(l', sems, s2); }
    }
    forall u: Tid ensures Loose(l', loc', u) {
      if u != t { assert Loose(l, loc, u); OtherLoose(l, l', loc, WaitHead(s), q, InWait(s), t, u); }
    }
  }

  /** fifo_pop of the queue of semaphore `s` */
  lemma {:induction false} WaitPop(l: Links<SchedNode>, run: map<Cpu, seq<Tid>>, sems: map<Sid, Sem>, loc: map<Tid, Loc>, s: Sid, m': Sem, to: Loc)
    requires ListsOk(l, run, sems, loc) && Located(run, sems, loc) && s in sems && sems[s].waiters != []
    requires m'.waiters == sems[s].waiters[1..] && !to.InRun? && !to.InWait?
    ensures ListsOk(DelInit(l, Th(sems[s].waiters[0])), run, sems[s := m'], loc[sems[s].waiters[0] := to])
  {
    var q, t := sems[s].waiters, sems[s].waiters[0];
    var l', sems', loc' := DelInit(l, Th(t)), sems[s := m'], loc[t := to];
    assert WaitRing(l, sems, s) && Member(q, loc, InWait(s), t);
    ItemsTail<ListId, Tid>(q);
    PopRing(l, WaitHead(s), Ths(q));
    forall m: SchedNode | m != WaitHead(s) && m != Th(t) && m !in Ths(q) ensures SameAt(l, l', m) {
      DelInitTouches(l, WaitHead(s), Ths(q), 0, m);
    }
    forall k: Cpu ensures RunRing(l', run, k) {
      if k in run { OtherRun(l, l', run, sems, loc, WaitHead(s), q, InWait(s), t, k); }
    }
    forall s2: Sid ensures WaitRing(l', sems', s2) {
      if s2 in sems && s2 != s { OtherWait(l, l', run, sems, loc, WaitHead(s), q, InWait(s), t, s2); assert WaitRing(l', sems, s2); }
    }
    forall u: Tid ensures Loose(l', loc', u) {
      if u != t { assert Loose(l, loc, u); OtherLoose(l, l', loc, WaitHead(s), q, InWait(s), t, u); }
    }
  }

  /** What a queue's head shows: whether anyone waits, and who waits longest. */
  lemma {:induction false} WaitFirst(l: Links<SchedNode>, run: map<Cpu, seq<Tid>>, sems: map<Sid, Sem>, loc: map<Tid, Loc>, s: Sid)
    requires ListsOk(l, run, sems, loc) && s in sems
    ensures Empty(l, WaitHead(s)) <==> sems[s].waiters == []
    ensures sems[s].waiters != [] ==> Next(l, WaitHead(s)) == Th(sems[s].waiters[0])
  {
    assert WaitRing(l, sems, s);
    RingEnds(l, WaitHead(s), Ths(sems[s].waiters));
  }

  /** A thread moving between places that are no lists. */
  lemma {:induction false} MoveElsewhere(l: Links<SchedNode>, run: map<Cpu, seq<Tid>>, sems: map<Sid, Sem>, loc: map<Tid, Loc>, t: Tid, to: Loc)
    requires ListsOk(l, run, sems, loc) && t in loc && !loc[t].InRun? && !loc[t].InWait?
    ensures ListsOk(l, run, sems, loc[t := to]) <== !to.InRun? && !to.InWait?
  {
    var loc' := loc[t := to];
    assert Loose(l, loc, t);
    forall u: Tid | !to.InRun? && !to.InWait? ensures Loose(l, loc', u) { assert Loose(l, loc, u); }
  }

  /** Lists do not change when only values and spinlocks of semaphores do. */
  lemma {:induction false} SameWaiters(l: Links<SchedNode>, run: map<Cpu, seq<Tid>>, sems: map<Sid, Sem>, sems': map<Sid, Sem>, loc: map<Tid, Loc>)
    requires ListsOk(l, run, sems, loc) && sems'.Keys == sems.Keys && forall s :: s in sems ==> sems'[s].waiters == sems[s].waiters
    ensures ListsOk(l, run, sems', loc)
  {
    forall s: Sid ensures WaitRing(l, sems', s) { assert WaitRing(l, sems, s); }
  }
}
