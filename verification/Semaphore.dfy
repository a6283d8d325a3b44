/** Counting semaphores and the mutex built on them (kernel/locks/semaphore.c,
    kernel/locks/mutex.c), one critical section at a time. */
module Semaphore {
  import opened Wrappers

  type Tid = int
  type Cpu = int

  /** `holder` is the CPU inside the semaphore's spinlock between steps. */
  datatype Sem = Sem(value: int, holder: Option<Cpu>, waiters: seq<Tid>)

  /** The history of a semaphore: `granted` counts completed waits, `slept` and
      `woken` list the threads queued and dequeued so far. For a mutex, `claimed` are
      the threads that have called sem_wait and not sem_signal since, and `holding` are
      those whose lock is granted and not yet given back. */
  datatype History = History(
    init: nat, mutex: bool, signals: nat, granted: nat, slept: seq<Tid>, woken: seq<Tid>, claimed: set<Tid>, holding: set<Tid>)

  /** The remaining fields of `mutex_t`. */
  datatype Owner = Owner(locked: bool, thread: Option<Tid>)

  // ----- sem_wait ------------------------------------------------------------

  predicate MustSleep(m: Sem) { m.value - 1 < 0 }

  function WaitSem(m: Sem, t: Tid): Sem
  {
    if MustSleep(m) then m.(value := m.value - 1, waiters := m.waiters + [t]) else m.(value := m.value - 1)
  }

  ghost function WaitHistory(m: Sem, h: History, t: Tid): History
  {
    var h' := h.(claimed := h.claimed + {t});
    if MustSleep(m) then h'.(slept := h.slept + [t]) else h'.(granted := h.granted + 1, holding := h.holding + {t})
  }

  // ----- sem_signal ----------------------------------------------------------

  predicate MustWake(m: Sem) { m.value + 1 <= 0 }

  /** sem_signal up to wakeup_process; CPU `c` keeps the spinlock if it has a thread to wake. */
  function SignalSem(m: Sem, c: Cpu): Sem
  {
    if MustWake(m) && m.waiters != [] then m.(value := m.value + 1, waiters := m.waiters[1..], holder := Some(c))
    else m.(value := m.value + 1)
  }

  ghost function SignalHistory(m: Sem, h: History, t: Tid): History
  {
    var h' := h.(signals := h.signals + 1, claimed := h.claimed - {t}, holding := h.holding - {t});
    if MustWake(m) && m.waiters != []
    then h'.(granted := h.granted + 1, woken := h.woken + [m.waiters[0]], holding := h'.holding + {m.waiters[0]})
    else h'
  }

  // ----- Invariant -----------------------------------------------------------

  /** Waiters are max(0, -value); what was granted is what was given, less what is
      left; wakes follow sleeps in order; a mutex is free, or held by one thread, and
      those that claim it hold it or wait for it. */
  ghost predicate SemOk(m: Sem, h: History)
  {
    && |m.waiters| == (if m.value < 0 then -m.value else 0)
    && m.value + |m.waiters| + h.granted == h.init + h.signals
    && h.slept == h.woken + m.waiters
    && (h.mutex ==> h.init == 1 && m.value + |m.waiters| + |h.holding| == 1)
    && (h.mutex ==> forall t: Tid {:trigger ClaimOk(m.waiters, h, t)} :: ClaimOk(m.waiters, h, t))
  }

  ghost predicate ClaimOk(q: seq<Tid>, h: History, t: Tid) { t in h.claimed <==> t in h.holding || t in q }

  /** A thread unlocks a mutex only after locking it. */
  ghost predicate MayRelease(h: History, t: Tid) { h.mutex ==> t in h.claimed }

  lemma {:induction false} InitOk(value: nat, mutex: bool)
    requires mutex ==> value == 1
    ensures SemOk(Sem(value, None, []), History(value, mutex, 0, 0, [], [], {}, {}))
  {
  }

  lemma {:induction false} WaitKeeps(m: Sem, h: History, t: Tid)
    requires SemOk(m, h)
    ensures SemOk(WaitSem(m, t), WaitHistory(m, h, t))
  {
    if MustSleep(m) {
      assert h.slept + [t] == h.woken + (m.waiters + [t]);
    } else if h.mutex {
      assert h.holding == {};
    }
    forall u: Tid | h.mutex ensures ClaimOk(WaitSem(m, t).waiters, WaitHistory(m, h, t), u) { assert ClaimOk(m.waiters, h, u); }
  }

  /** A thread that locked a mutex and does not wait for it any more holds it. */
  lemma {:induction false} ClaimHolds(m: Sem, h: History, t: Tid)
    requires SemOk(m, h) && h.mutex && t !in m.waiters
    ensures t in h.claimed <==> t in h.holding
  {
    assert ClaimOk(m.waiters, h, t);
  }

  /** The panic branch of sem_signal is unreachable: if anyone must be woken, the
      queue has someone. */
  lemma {:induction false} SignalHasWaiter(m: Sem, h: History)
    requires SemOk(m, h) && MustWake(m)
    ensures m.waiters != []
  {
  }

  lemma {:induction false} SignalKeeps(m: Sem, h: History, c: Cpu, t: Tid)
    requires SemOk(m, h) && MayRelease(h, t) && t !in m.waiters
    ensures SemOk(SignalSem(m, c), SignalHistory(m, h, t))
  {
    if MustWake(m) {
      SignalHasWaiter(m, h);
      assert m.waiters == [m.waiters[0]] + m.waiters[1..];
    }
    if h.mutex {
      ClaimHolds(m, h, t);
      assert |h.holding - {t}| == |h.holding| - 1;
      assert h.holding - {t} == {};
      SignalClaims(m, h, c, t);
    }
  }

  lemma {:induction false} SignalClaims(m: Sem, h: History, c: Cpu, t: Tid)
    requires SemOk(m, h) && h.mutex && t !in m.waiters
    ensures forall u: Tid {:trigger ClaimOk(SignalSem(m, c).waiters, SignalHistory(m, h, t), u)} :: ClaimOk(SignalSem(m, c).waiters, SignalHistory(m, h, t), u)
  {
    forall u: Tid ensures ClaimOk(SignalSem(m, c).waiters, SignalHistory(m, h, t), u) {
      assert ClaimOk(m.waiters, h, u);
      if m.waiters != [] { assert m.waiters == [m.waiters[0]] + m.waiters[1..]; }
    }
  }

  /** Completed waits never exceed the initial value plus the signals. */
  lemma {:induction false} GrantsBounded(m: Sem, h: History)
    requires SemOk(m, h)
    ensures h.granted <= h.init + h.signals && (m.value < 0 ==> h.granted == h.init + h.signals)
  {
  }

  /** At most one thread holds a mutex, and a free mutex has no waiters. */
  lemma {:induction false} MutexExclusive(m: Sem, h: History, t: Tid, u: Tid)
    requires SemOk(m, h) && h.mutex && t in h.holding
    ensures u in h.holding ==> u == t
    ensures m.value <= 0
  {
    assert |h.holding - {t}| == |h.holding| - 1;
    assert h.holding - {t} == {};
    assert u in h.holding ==> u in h.holding - {t} || u == t;
  }

  /** Threads wake in the order in which they went to sleep: the n-th wake is of
      the n-th sleeper. */
  lemma {:induction false} WakesInOrder(m: Sem, h: History, n: nat)
    requires SemOk(m, h) && n < |h.woken|
    ensures n < |h.slept| && h.woken[n] == h.slept[n]
  {
  }

  // ----- The owner fields ----------------------------------------------------

  /** `thread` names only a thread that holds the mutex. */
  ghost predicate OwnerOk(o: Owner, h: History)
  {
    o.thread.Some? ==> o.locked && o.thread.value in h.holding
  }

  /** mutex_lock after sem_wait */
  function Own(t: Tid): Owner { Owner(true, Some(t)) }

  /** mutex_unlock before sem_signal */
  function Disown(): Owner { Owner(false, None) }

  /** mutex_is_hold */
  predicate IsHold(o: Owner, t: Tid) { o.locked && o.thread == Some(t) }
}
