/** The code of the readers-writer lock on linked wait queues (kernel/locks/rwlock.c,
    include/lib/fifo.h), section by section, proved against the steps of module RwLock. */
module RwLockCode {
  import opened Queues
  import opened Links
  import opened RwLock

  /** The heads of readers_fifo (false) and writers_fifo (true), and the `sched` nodes. */
  type RwNode = Node<bool, Tid>

  function Queue(s: State, w: bool): seq<Tid> { if w then s.writers else s.readers }

  function Asleep(w: bool): Pc { if w then AsleepWriter else AsleepReader }

  /** The node of a thread that does not sleep here is linked to itself. */
  ghost predicate LooseAt(l: Links<RwNode>, pc: map<Tid, Pc>, t: Tid)
  {
    t in pc && !pc[t].AsleepReader? && !pc[t].AsleepWriter? ==> Self(l, Item(t))
  }

  /** Links and f_size fields show the two wait queues. */
  ghost predicate Shown(l: Links<RwNode>, rSize: int, wSize: int, s: State)
  {
    && Ring(l, Head(false), Items(s.readers)) && Ring(l, Head(true), Items(s.writers)) && rSize == |s.readers| && wSize == |s.writers|
    && (forall t: Tid {:trigger LooseAt(l, s.pc, t)} :: LooseAt(l, s.pc, t))
    && Queued(s.readers, s.pc, AsleepReader) && Queued(s.writers, s.pc, AsleepWriter)
  }

  /** The queue of the other kind when thread `t` moves in or out of queue `w`. */
  lemma {:induction false} OtherRing(l: Links<RwNode>, l': Links<RwNode>, s: State, w: bool, t: Tid)
    requires Ring(l, Head(!w), Items(Queue(s, !w))) && Queued(Queue(s, w), s.pc, Asleep(w)) && Queued(Queue(s, !w), s.pc, Asleep(!w))
    requires t in s.pc && s.pc[t] != Asleep(!w)
    requires forall m: RwNode {:trigger SameAt(l, l', m)} :: m != Head(w) && m != Item(t) && m !in Items(Queue(s, w)) ==> SameAt(l, l', m)
    ensures Ring(l', Head(!w), Items(Queue(s, !w)))
  {
    var r := Queue(s, !w);
    forall i | 0 <= i < |r| ensures SameAt(l, l', Items<bool, Tid>(r)[i]) {
      assert Member(r, s.pc, Asleep(!w), r[i]) && Member(Queue(s, w), s.pc, Asleep(w), r[i]) && Member(r, s.pc, Asleep(!w), t);
      ItemsIn<bool, Tid>(Queue(s, w), r[i]);
      assert SameAt(l, l', Item(r[i]));
    }
    assert SameAt(l, l', Head(!w));
    RingFrame(l, l', Head(!w), Items(r));
  }

  function Pushed(s: State, t: Tid, w: bool): State
  {
    if w then s.(writers := s.writers + [t], pc := s.pc[t := AsleepWriter])
    else s.(readers := s.readers + [t], pc := s.pc[t := AsleepReader])
  }

  /** fifo_push by __sleep_fifo, whose assertion that the thread is on no list holds. */
  lemma {:induction false} PushShows(l: Links<RwNode>, rSize: int, wSize: int, s: State, t: Tid, w: bool)
    requires Shown(l, rSize, wSize, s) && t in s.pc && !s.pc[t].AsleepReader? && !s.pc[t].AsleepWriter?
    ensures Empty(l, Item(t))
    ensures Shown(AddTail(l, Item(t), Head(w)), if w then rSize else rSize + 1, if w then wSize + 1 else wSize, Pushed(s, t, w))
  {
    var l', s', q := AddTail(l, Item(t), Head(w)), Pushed(s, t, w), Queue(s, w);
    assert LooseAt(l, s.pc, t) && Ring(l, Head(w), Items(Queue(s, w))) && Ring(l, Head(!w), Items(Queue(s, !w)));
    assert Queued(q, s.pc, Asleep(w)) && Queued(Queue(s, !w), s.pc, Asleep(!w));
    assert Member(q, s.pc, Asleep(w), t);
    ItemsIn<bool, Tid>(q, t);
    ItemsPush<bool, Tid>(q, t);
    AddTailRing(l, Head(w), Items(q), Item(t));
    forall m: RwNode | m != Head(w) && m != Item(t) && m !in Items(q) ensures SameAt(l, l', m) {
      AddTailTouches(l, Head(w), Items(q), Item(t), m);
    }
    OtherRing(l, l', s, w, t);
    QueuedPush(q, s.pc, Asleep(w), t);
    QueuedElse(Queue(s, !w), s.pc, Asleep(!w), t, Asleep(w));
    assert Ring(l', Head(w), Items(Queue(s', w))) && Ring(l', Head(!w), Items(Queue(s', !w)));
    forall u: Tid ensures LooseAt(l', s'.pc, u) {
      if u != t { assert LooseAt(l, s.pc, u); StillLoose(l, l', s, w, t, u); }
    }
  }

  lemma {:induction false} StillLoose(l: Links<RwNode>, l': Links<RwNode>, s: State, w: bool, t: Tid, u: Tid)
    requires LooseAt(l, s.pc, u) && u != t && Queued(Queue(s, w), s.pc, Asleep(w))
    requires forall m: RwNode {:trigger SameAt(l, l', m)} :: m != Head(w) && m != Item(t) && m !in Items(Queue(s, w)) ==> SameAt(l, l', m)
    ensures LooseAt(l', s.pc, u)
  {
    assert Member(Queue(s, w), s.pc, Asleep(w), u);
    ItemsIn<bool, Tid>(Queue(s, w), u);
    assert u in s.pc && !s.pc[u].AsleepReader? && !s.pc[u].AsleepWriter? ==> SameAt(l, l', Item(u));
  }

  function Popped(s: State, w: bool): State
  {
    if w then WakeWriter(s) else WakeReader(s)
  }

  /** fifo_pop by __wakeup_fifo: a queue whose length field is not 0 is not empty, so
      its panic is not reached, and the thread popped has waited longest. */
  lemma {:induction false} PopShows(l: Links<RwNode>, rSize: int, wSize: int, s: State, w: bool)
    requires Shown(l, rSize, wSize, s) && (if w then wSize != 0 else rSize != 0)
    ensures Queue(s, w) != [] && !Empty(l, Head(w)) && Next(l, Head(w)) == Item(Queue(s, w)[0])
    ensures Shown(DelInit(l, Item(Queue(s, w)[0])), if w then rSize else rSize - 1, if w then wSize - 1 else wSize, Popped(s, w))
  {
    var q, s' := Queue(s, w), Popped(s, w);
    var t := q[0];
    var l' := DelInit(l, Item(t));
    assert Ring(l, Head(w), Items(Queue(s, w))) && Ring(l, Head(!w), Items(Queue(s, !w)));
    assert Queued(q, s.pc, Asleep(w)) && Queued(Queue(s, !w), s.pc, Asleep(!w));
    assert Member(q, s.pc, Asleep(w), t);
    RingEnds(l, Head(w), Items(q));
    ItemsTail<bool, Tid>(q);
    PopRing(l, Head(w), Items(q));
    forall m: RwNode | m != Head(w) && m != Item(t) && m !in Items(q) ensures SameAt(l, l', m) {
      DelInitTouches(l, Head(w), Items(q), 0, m);
    }
    OtherRing(l, l', s, w, t);
    var p := if w then Granted else Retrying;
    QueuedPop(q, s.pc, Asleep(w), p);
    QueuedElse(Queue(s, !w), s.pc, Asleep(!w), t, p);
    assert Ring(l', Head(w), Items(Queue(s', w))) && Ring(l', Head(!w), Items(Queue(s', !w)));
    forall u: Tid ensures LooseAt(l', s'.pc, u) {
      if u != t { assert LooseAt(l, s.pc, u); StillLoose(l, l', s, w, t, u); }
    }
  }

  /** A thread that moves without sleeping or waking here. */
  lemma {:induction false} StayShows(l: Links<RwNode>, rSize: int, wSize: int, s: State, s': State, t: Tid)
    requires Shown(l, rSize, wSize, s) && t in s.pc && t in s'.pc && s'.pc == s.pc[t := s'.pc[t]]
    requires s'.readers == s.readers && s'.writers == s.writers
    requires !s.pc[t].AsleepReader? && !s.pc[t].AsleepWriter? && !s'.pc[t].AsleepReader? && !s'.pc[t].AsleepWriter?
    ensures Shown(l, rSize, wSize, s')
  {
    assert Ring(l, Head(false), Items(s.readers)) && Ring(l, Head(true), Items(s.writers)) && LooseAt(l, s.pc, t);
    QueuedElse(s.readers, s.pc, AsleepReader, t, s'.pc[t]);
    QueuedElse(s.writers, s.pc, AsleepWriter, t, s'.pc[t]);
    forall u: Tid ensures LooseAt(l, s'.pc, u) { assert LooseAt(l, s.pc, u); }
  }

  /** `rwlock_t`; `st` is the state of the step machine that it stands for. */
  class Lock {
    const prior: bool            // RW_PRIOR in flags
    var writing: bool            // WRITING in flags
    var rCnt: int
    var links: Links<RwNode>
    var rSize: int               // readers_fifo.f_size
    var wSize: int               // writers_fifo.f_size
    ghost var st: State

    /** The fields stand for `st`. */
    ghost predicate Stands()
      reads this
    {
      prior == st.prior && writing == st.writing && rCnt == st.rCnt && Shown(links, rSize, wSize, st)
    }

    ghost predicate Valid()
      reads this
    {
      Inv(st) && Stands()
    }

    /** rwlock_init on zeroed memory */
    constructor (prior: bool, ghost threads: set<Tid>)
      ensures Valid() && st == Init(prior, threads)
    {
      this.prior := prior;
      writing, rCnt, links, rSize, wSize := false, 0, Links(map[], map[]), 0, 0;
      st := Init(prior, threads);
      new;
      InitInv(prior, threads);
      EmptyRing(links, Head(false));
      EmptyRing(links, Head(true));
      assert Ring(links, Head(false), Items(st.readers)) && Ring(links, Head(true), Items(st.writers));
      forall t: Tid ensures LooseAt(links, st.pc, t) { }
    }

    /** sleep_reader up to the switch. */
    method SleepReader(t: Tid)
      requires Stands() && t in st.pc && !st.pc[t].AsleepReader? && !st.pc[t].AsleepWriter?
      modifies this`links, this`rSize, this`st
      ensures Stands() && st == Pushed(old(st), t, false)
    {
      PushShows(links, rSize, wSize, st, t, false);
      assert Empty(links, Item(t));
      links := AddTail(links, Item(t), Head(false));
      rSize := rSize + 1;
      st := Pushed(st, t, false);
    }

    /** sleep_writer up to the switch. */
    method SleepWriter(t: Tid)
      requires Stands() && t in st.pc && !st.pc[t].AsleepReader? && !st.pc[t].AsleepWriter?
      modifies this`links, this`wSize, this`st
      ensures Stands() && st == Pushed(old(st), t, true)
    {
      PushShows(links, rSize, wSize, st, t, true);
      assert Empty(links, Item(t));
      links := AddTail(links, Item(t), Head(true));
      wSize := wSize + 1;
      st := Pushed(st, t, true);
    }

    /** wakeup_reader */
    method WakeupReader()
      requires Stands()
      modifies this`links, this`rSize, this`st
      ensures Stands() && st == WakeReader(old(st))
    {
      if rSize == 0 {
        return;
      }
      PopShows(links, rSize, wSize, st, false);
      assert !Empty(links, Head(false));
      rSize := rSize - 1;
      links := DelInit(links, Next(links, Head(false)));
      st := WakeReader(st);
    }

    /** wakeup_writer: the flag first, so that nobody gets in between. */
    method WakeupWriter()
      requires Stands()
      modifies this`writing, this`links, this`wSize, this`st
      ensures Stands() && st == WakeWriter(old(st))
    {
      if wSize == 0 {
        return;
      }
      PopShows(links, rSize, wSize, st, true);
      writing := true;
      assert !Empty(links, Head(true));
      wSize := wSize - 1;
      links := DelInit(links, Next(links, Head(true)));
      st := WakeWriter(st);
    }

    /** read_lock from `retry:` to sleeping or holding the lock */
    method ReadSection(t: Tid) returns (acquired: bool)
      requires Valid() && Enabled(st, ReadLock(t))
      modifies this
      ensures Valid() && st == Step(old(st), ReadLock(t))
      ensures acquired <==> t in st.pc && st.pc[t] == Reading
    {
      StepKeeps(st, ReadLock(t));
      if writing {
        SleepReader(t);
        return false;
      }
      if prior && wSize != 0 {
        SleepReader(t);
        return false;
      }
      AwakeStays(st, t);
      WakeupReader();
      Become(t, Reading);
      rCnt := rCnt + 1;
      st := st.(rCnt := st.rCnt + 1);
      acquired := true;
    }

    /** The thread that runs the code passes to another stage of its own. */
    ghost method Become(t: Tid, p: Pc)
      requires Stands() && t in st.pc && !st.pc[t].AsleepReader? && !st.pc[t].AsleepWriter? && !p.AsleepReader? && !p.AsleepWriter?
      modifies this`st
      ensures Stands() && st == old(st).(pc := old(st).pc[t := p])
    {
      StayShows(links, rSize, wSize, st, st.(pc := st.pc[t := p]), t);
      st := st.(pc := st.pc[t := p]);
    }

    /** read_unlock */
    method ReadUnlockSection(t: Tid)
      requires Valid() && Enabled(st, ReadUnlock(t))
      modifies this
      ensures Valid() && st == Step(old(st), ReadUnlock(t))
    {
      StepKeeps(st, ReadUnlock(t));
      Become(t, Idle);
      rCnt := rCnt - 1;
      st := st.(rCnt := st.rCnt - 1);
      if rCnt == 0 && wSize != 0 {
        WakeupWriter();
      }
    }

    /** write_lock up to sleeping or holding the lock */
    method WriteSection(t: Tid) returns (acquired: bool)
      requires Valid() && Enabled(st, WriteLock(t))
      modifies this
      ensures Valid() && st == Step(old(st), WriteLock(t))
      ensures acquired <==> t in st.pc && st.pc[t] == Writing
    {
      StepKeeps(st, WriteLock(t));
      if rCnt != 0 || writing {
        SleepWriter(t);
        return false;
      }
      Become(t, Writing);
      writing := true;
      st := st.(writing := true);
      acquired := true;
    }

    /** write_lock after the sleep */
    method WriteResumeSection(t: Tid)
      requires Valid() && Enabled(st, WriteResume(t))
      modifies this
      ensures Valid() && st == Step(old(st), WriteResume(t))
    {
      StepKeeps(st, WriteResume(t));
      Become(t, Writing);
      writing := true;
      st := st.(writing := true);
    }

    /** write_unlock */
    method WriteUnlockSection(t: Tid)
      requires Valid() && Enabled(st, WriteUnlock(t))
      modifies this
      ensures Valid() && st == Step(old(st), WriteUnlock(t))
    {
      StepKeeps(st, WriteUnlock(t));
      Become(t, Idle);
      writing := false;
      st := st.(writing := false);
      if (!prior && rSize != 0) || (prior && wSize == 0) {
        WakeupReader();
      } else {
        WakeupWriter();
      }
    }
  }

  /** Waking someone does not touch a thread that is awake. */
  lemma {:induction false} AwakeStays(s: State, t: Tid)
    requires Inv(s) && t in s.pc && !s.pc[t].AsleepReader?
    ensures t in WakeReader(s).pc && WakeReader(s).pc[t] == s.pc[t]
  {
    if s.readers != [] { assert Member(s.readers, s.pc, AsleepReader, s.readers[0]); }
  }
}
