/** Hand-off between threads and per-CPU schedulers (kernel/proc/sched.c), with
    semaphores as the sleeping primitive. A step runs from one point where a CPU
    may wait for a lock to the next; the lock of a thread is carried across the
    switch from the thread to its CPU's scheduler. */
module Sched {
  import opened Wrappers
  import opened Semaphore
  import opened Queues

  type Sid = int

  datatype ThreadState = New | Sleeping | Runnable | Running

  /** Where a CPU is. `t` is the thread whose context it runs. */
  datatype Pc =
    | Scheduling                                        // in the loop of scheduler, nothing held
    | Picked(t: Tid)                                    // holds its run-list lock, wants the lock of t
    | Fresh(t: Tid)                                     // switched to t, whose lock is held
    | Run(t: Tid)                                       // t runs, nothing held
    | Adding(t: Tid, k: Cpu)                            // yield: t is RUNNABLE, bound for list k
    | AddLocked(t: Tid, k: Cpu)                         // the same, holding the lock of list k
    | Leaving(t: Tid)                                   // holds the lock of t until the scheduler drops it
    | Waking(t: Tid, via: Option<Sid>, w: Tid)           // wakeup_process(w), wants the lock of w
    | WakeTo(t: Tid, via: Option<Sid>, w: Tid, k: Cpu)   // w is RUNNABLE, bound for list k
    | WakeLocked(t: Tid, via: Option<Sid>, w: Tid, k: Cpu)

  /** Where a thread is, for the proof. */
  datatype Loc = Unborn | OnCpu(c: Cpu) | InRun(c: Cpu) | InWait(s: Sid) | InHand(c: Cpu)

  /** Locks are maps to the CPU holding them. Run lists are oldest first. */
  datatype State = State(
    n: nat, affinity: map<Tid, Cpu>, load: int,
    pc: map<Cpu, Pc>, locks: map<Tid, Cpu>, runLocks: map<Cpu, Cpu>,
    run: map<Cpu, seq<Tid>>, sems: map<Sid, Sem>, state: map<Tid, ThreadState>,
    owners: map<Sid, Owner>, loc: map<Tid, Loc>, history: map<Sid, History>,
    added: map<Cpu, seq<Tid>>, taken: map<Cpu, seq<Tid>>)

  datatype Op =
    | Pick(c: Cpu) | Dispatch(c: Cpu) | Enter(c: Cpu) | Yield(c: Cpu) | LockList(c: Cpu) | Add(c: Cpu) | Leave(c: Cpu)
    | Wait(c: Cpu, s: Sid) | Signal(c: Cpu, s: Sid) | Create(c: Cpu, w: Tid) | Mark(c: Cpu) | Deliver(c: Cpu)
    | TakeOwner(c: Cpu, s: Sid) | DropOwner(c: Cpu, s: Sid)

  // ----- Steps ---------------------------------------------------------------

  /** pick_next_task: the oldest RUNNABLE entry. */
  function PickNext(q: seq<Tid>, state: map<Tid, ThreadState>): Option<Tid>
  {
    if q == [] then None
    else if q[0] in state && state[q[0]] == Runnable then Some(q[0])
    else PickNext(q[1..], state)
  }

  /** The load balancer: the affinity of a thread, or the CPUs in turn. */
  function Target(st: State, t: Tid): Cpu
    requires 0 < st.n && -1 <= st.load
  {
    if t in st.affinity then st.affinity[t] else (st.load + 1) % st.n
  }

  /** Choice number `i` of a CPU for threads that are not pinned. */
  function Choice(load: int, n: nat, i: nat): int
    requires 0 < n
    decreases i
  {
    if i == 0 then (load + 1) % n else Choice((load + 1) % n, n, i - 1)
  }

  function NextLoad(st: State, t: Tid): int
    requires 0 < st.n && -1 <= st.load
  {
    if t in st.affinity then st.load else (st.load + 1) % st.n
  }

  ghost predicate Enabled(st: State, op: Op)
  {
    && op.c in st.pc && op.c in st.run && op.c in st.taken && 0 < st.n && -1 <= st.load &&
    var p := st.pc[op.c];
    match op
    case Pick(c) => p.Scheduling? && c !in st.runLocks
    case Dispatch(c) => p.Picked? && p.t !in st.locks
    case Enter(c) => p.Fresh?
    case Yield(c) => p.Run? && p.t !in st.locks
    case LockList(c) => (p.Adding? || p.WakeTo?) && p.k !in st.runLocks
    case Add(c) => p.AddLocked? && p.t !in st.locks && p.k in st.run && p.k in st.added
    case Leave(c) => p.Leaving?
    case Wait(c, s) => p.Run? && p.t !in st.locks && s in st.sems && s in st.history && st.sems[s].holder.None?
    case Signal(c, s) =>
      && p.Run? && s in st.sems && s in st.history && s in st.owners && st.sems[s].holder.None?
      && MayRelease(st.history[s], p.t) && st.owners[s].thread != Some(p.t)
    case Create(c, w) => p.Run? && w in st.loc && st.loc[w].Unborn?
    case Mark(c) => p.Waking? && p.w !in st.locks
    case Deliver(c) => p.WakeLocked? && p.w !in st.locks && p.k in st.run && p.k in st.added
    case TakeOwner(c, s) => p.Run? && s in st.history && st.history[s].mutex && p.t in st.history[s].claimed
    case DropOwner(c, s) => p.Run? && s in st.history && st.history[s].mutex && p.t in st.history[s].claimed
  }

  function Unlock(m: map<int, Cpu>, k: int): map<int, Cpu> { m - {k} }

  /** scheduler takes its list's lock and picks `t`. */
  function PickStep(st: State, c: Cpu, t: Tid): State
  {
    st.(pc := st.pc[c := Picked(t)], runLocks := st.runLocks[c := c])
  }

  /** scheduler takes the lock of `t`, unlinks it and switches to it. */
  function DispatchStep(st: State, c: Cpu, t: Tid): State
    requires c in st.run && c in st.taken
  {
    st.(pc := st.pc[c := Fresh(t)], locks := st.locks[t := c], runLocks := Unlock(st.runLocks, c),
        run := st.run[c := Without(st.run[c], t)], state := st.state[t := Running],
        loc := st.loc[t := OnCpu(c)], taken := st.taken[c := st.taken[c] + [t]])
  }

  /** `t` drops its own lock after the switch. */
  function EnterStep(st: State, c: Cpu, t: Tid): State
  {
    st.(pc := st.pc[c := Run(t)], locks := Unlock(st.locks, t))
  }

  /** yield up to the choice of a CPU in add_runnable_task. */
  function YieldStep(st: State, c: Cpu, t: Tid): State
    requires 0 < st.n && -1 <= st.load
  {
    st.(pc := st.pc[c := Adding(t, Target(st, t))], state := st.state[t := Runnable], load := NextLoad(st, t))
  }

  /** add_runnable_task takes the lock of list `k`. */
  function LockStep(st: State, c: Cpu, p: Pc, k: Cpu): State
  {
    st.(pc := st.pc[c := p], runLocks := st.runLocks[k := c])
  }

  /** add_runnable_task in yield: `t` is listed and its lock kept. */
  function AddStep(st: State, c: Cpu, t: Tid, k: Cpu): State
    requires k in st.run && k in st.added
  {
    st.(pc := st.pc[c := Leaving(t)], locks := st.locks[t := c], runLocks := Unlock(st.runLocks, k),
        run := st.run[k := st.run[k] + [t]], loc := st.loc[t := InRun(k)], added := st.added[k := st.added[k] + [t]])
  }

  /** The scheduler, switched back to, drops the lock of `t`. */
  function LeaveStep(st: State, c: Cpu, t: Tid): State
  {
    st.(pc := st.pc[c := Scheduling], locks := Unlock(st.locks, t))
  }

  /** sem_wait without sleeping. */
  ghost function PassStep(st: State, t: Tid, s: Sid): State
    requires s in st.sems && s in st.history
  {
    st.(sems := st.sems[s := WaitSem(st.sems[s], t)], history := st.history[s := WaitHistory(st.sems[s], st.history[s], t)])
  }

  /** sem_wait that goes to sleep, up to the switch. */
  ghost function SleepStep(st: State, c: Cpu, t: Tid, s: Sid): State
    requires s in st.sems && s in st.history
  {
    st.(pc := st.pc[c := Leaving(t)], locks := st.locks[t := c], state := st.state[t := Sleeping], loc := st.loc[t := InWait(s)],
        sems := st.sems[s := WaitSem(st.sems[s], t)], history := st.history[s := WaitHistory(st.sems[s], st.history[s], t)])
  }

  /** sem_signal with nobody to wake. */
  ghost function PostStep(st: State, c: Cpu, t: Tid, s: Sid): State
    requires s in st.sems && s in st.history
  {
    st.(sems := st.sems[s := SignalSem(st.sems[s], c)], history := st.history[s := SignalHistory(st.sems[s], st.history[s], t)])
  }

  /** sem_signal up to wakeup_process of the popped thread `w`. */
  ghost function PopStep(st: State, c: Cpu, t: Tid, s: Sid, w: Tid): State
    requires s in st.sems && s in st.history
  {
    st.(pc := st.pc[c := Waking(t, Some(s), w)], loc := st.loc[w := InHand(c)],
        sems := st.sems[s := SignalSem(st.sems[s], c)], history := st.history[s := SignalHistory(st.sems[s], st.history[s], t)])
  }

  /** kthread_create up to wakeup_process. */
  function CreateStep(st: State, c: Cpu, t: Tid, w: Tid): State
  {
    st.(pc := st.pc[c := Waking(t, None, w)], loc := st.loc[w := InHand(c)])
  }

  /** wakeup_process up to the choice of a CPU in add_runnable_task. */
  function MarkStep(st: State, c: Cpu, t: Tid, via: Option<Sid>, w: Tid): State
    requires 0 < st.n && -1 <= st.load
  {
    st.(pc := st.pc[c := WakeTo(t, via, w, Target(st, w))], state := st.state[w := Runnable], load := NextLoad(st, w))
  }

  function Released(sems: map<Sid, Sem>, via: Option<Sid>): map<Sid, Sem>
  {
    if via.Some? && via.value in sems then sems[via.value := sems[via.value].(holder := None)] else sems
  }

  /** wakeup_process lists `w`; a signaller leaves the semaphore's lock. */
  function DeliverStep(st: State, c: Cpu, t: Tid, via: Option<Sid>, w: Tid, k: Cpu): State
    requires k in st.run && k in st.added
  {
    st.(pc := st.pc[c := Run(t)], runLocks := Unlock(st.runLocks, k), run := st.run[k := st.run[k] + [w]],
        loc := st.loc[w := InRun(k)], added := st.added[k := st.added[k] + [w]], sems := Released(st.sems, via))
  }

  ghost function Step(st: State, op: Op): State
    requires Enabled(st, op)
  {
    var c, p := op.c, st.pc[op.c];
    match op
    case Pick(_) =>
      var next := PickNext(st.run[c], st.state);
      if next.Some? then PickStep(st, c, next.value) else st
    case Dispatch(_) => DispatchStep(st, c, p.t)
    case Enter(_) => EnterStep(st, c, p.t)
    case Yield(_) => YieldStep(st, c, p.t)
    case LockList(_) => LockStep(st, c, if p.Adding? then AddLocked(p.t, p.k) else WakeLocked(p.t, p.via, p.w, p.k), p.k)
    case Add(_) => AddStep(st, c, p.t, p.k)
    case Leave(_) => LeaveStep(st, c, p.t)
    case Wait(_, s) => if MustSleep(st.sems[s]) then SleepStep(st, c, p.t, s) else PassStep(st, p.t, s)
    case Signal(_, s) =>
      if MustWake(st.sems[s]) && st.sems[s].waiters != [] then PopStep(st, c, p.t, s, st.sems[s].waiters[0])
      else PostStep(st, c, p.t, s)
    case Create(_, w) => CreateStep(st, c, p.t, w)
    case Mark(_) => MarkStep(st, c, p.t, p.via, p.w)
    case Deliver(_) => DeliverStep(st, c, p.t, p.via, p.w, p.k)
    case TakeOwner(_, s) => st.(owners := st.owners[s := Own(p.t)])
    case DropOwner(_, s) => st.(owners := st.owners[s := Disown()])
  }

  // ----- Invariant, one thread, CPU, list and semaphore at a time ------------

  predicate Wakes(p: Pc) { p.Waking? || p.WakeTo? || p.WakeLocked? }

  /** The CPU executes the code of `t` (it may still be switching away from it). */
  predicate Executes(p: Pc, t: Tid) { !p.Scheduling? && !p.Picked? && p.t == t }

  ghost predicate ThreadOk(st: State, t: Tid)
  {
    && (t in st.affinity ==> 0 <= st.affinity[t] < st.n)
    && (t in st.loc ==>
      t in st.state &&
      match st.loc[t]
      case Unborn => true
      case OnCpu(c) => c in st.pc && Executes(st.pc[c], t) && !st.pc[c].Leaving? && (t in st.affinity ==> c == st.affinity[t])
      case InRun(k) => 0 <= k < st.n && st.state[t] == Runnable && (t in st.affinity ==> k == st.affinity[t])
      case InWait(s) => s in st.sems && st.state[t] == Sleeping
      case InHand(c) => c in st.pc && Wakes(st.pc[c]) && st.pc[c].w == t)
    && (t in st.locks ==> st.locks[t] in st.pc && (st.pc[st.locks[t]] == Fresh(t) || st.pc[st.locks[t]] == Leaving(t)))
  }

  /** CPU `c` runs `t`, in the given state. */
  ghost predicate Here(st: State, c: Cpu, t: Tid, x: ThreadState)
  {
    t in st.loc && st.loc[t] == OnCpu(c) && t in st.state && st.state[t] == x
  }

  /** CPU `c` is about to list `w` and holds the lock of the semaphore it came from. */
  ghost predicate InHands(st: State, c: Cpu, via: Option<Sid>, w: Tid)
  {
    && w in st.loc && st.loc[w] == InHand(c) && w in st.state
    && (via.Some? ==> via.value in st.sems && st.sems[via.value].holder == Some(c))
  }

  ghost predicate MayTarget(st: State, t: Tid, k: Cpu) { 0 <= k < st.n && (t in st.affinity ==> k == st.affinity[t]) }

  ghost predicate Holds(locks: map<int, Cpu>, k: int, c: Cpu) { k in locks && locks[k] == c }

  ghost predicate CpuOk(st: State, c: Cpu)
  {
    c in st.pc ==>
      match st.pc[c]
      case Scheduling => true
      case Picked(t) =>
        t in st.loc && st.loc[t] == InRun(c) && c in st.run && st.run[c] != [] && st.run[c][0] == t && Holds(st.runLocks, c, c)
      case Fresh(t) => Here(st, c, t, Running) && Holds(st.locks, t, c)
      case Run(t) => Here(st, c, t, Running)
      case Adding(t, k) => Here(st, c, t, Runnable) && MayTarget(st, t, k)
      case AddLocked(t, k) => Here(st, c, t, Runnable) && MayTarget(st, t, k) && Holds(st.runLocks, k, c)
      case Leaving(t) => t in st.loc && (st.loc[t].InRun? || st.loc[t].InWait? || st.loc[t].InHand?) && Holds(st.locks, t, c)
      case Waking(t, via, w) => Here(st, c, t, Running) && InHands(st, c, via, w)
      case WakeTo(t, via, w, k) =>
        Here(st, c, t, Running) && InHands(st, c, via, w) && st.state[w] == Runnable && MayTarget(st, w, k)
      case WakeLocked(t, via, w, k) =>
        Here(st, c, t, Running) && InHands(st, c, via, w) && st.state[w] == Runnable && MayTarget(st, w, k) && Holds(st.runLocks, k, c)
  }

  ghost predicate ListOk(st: State, k: Cpu)
  {
    && (0 <= k < st.n <==> k in st.pc) && (0 <= k < st.n <==> k in st.run) && (0 <= k < st.n <==> k in st.added) && (0 <= k < st.n <==> k in st.taken)
    && (k in st.run && k in st.added && k in st.taken ==>
          Queued(st.run[k], st.loc, InRun(k)) && st.added[k] == st.taken[k] + st.run[k])
    && (k in st.runLocks ==>
          && st.runLocks[k] in st.pc
          && var p := st.pc[st.runLocks[k]];
             (p.Picked? && st.runLocks[k] == k) || (p.AddLocked? && p.k == k) || (p.WakeLocked? && p.k == k))
  }

  ghost predicate SemaphoreOk(st: State, s: Sid)
  {
    && (s in st.sems <==> s in st.history) && (s in st.sems <==> s in st.owners)
    && (s in st.sems && s in st.history && s in st.owners ==>
          && SemOk(st.sems[s], st.history[s]) && (st.history[s].mutex ==> OwnerOk(st.owners[s], st.history[s]))
          && Queued(st.sems[s].waiters, st.loc, InWait(s))
          && (st.sems[s].holder.Some? ==>
                st.sems[s].holder.value in st.pc && Wakes(st.pc[st.sems[s].holder.value])
                && st.pc[st.sems[s].holder.value].via == Some(s)))
  }

  ghost predicate PlacesOk(st: State)
  {
    && (forall t: Tid {:trigger ThreadOk(st, t)} :: ThreadOk(st, t))
    && (forall c: Cpu {:trigger CpuOk(st, c)} :: CpuOk(st, c))
  }

  ghost predicate QueuesOk(st: State)
  {
    && (forall k: Cpu {:trigger ListOk(st, k)} :: ListOk(st, k))
    && (forall s: Sid {:trigger SemaphoreOk(st, s)} :: SemaphoreOk(st, s))
  }

  ghost predicate Inv(st: State)
  {
    0 < st.n && -1 <= st.load < st.n && PlacesOk(st) && QueuesOk(st)
  }

  predicate At(st: State, c: Cpu, p: Pc) { c in st.pc && st.pc[c] == p }

  // ----- What the invariant says ---------------------------------------------

  /** No thread runs on two CPUs. */
  lemma {:induction false} OneCpu(st: State, c: Cpu, c': Cpu, t: Tid)
    requires Inv(st) && c in st.pc && c' in st.pc && Executes(st.pc[c], t) && Executes(st.pc[c'], t)
    ensures c == c'
  {
    assert CpuOk(st, c) && CpuOk(st, c') && ThreadOk(st, t);
  }

  // ----- One instance of the invariant ---------------------------------------

  lemma {:induction false} ThreadHas(st: State, t: Tid)
    requires Inv(st)
    ensures ThreadOk(st, t)
  {
  }

  lemma {:induction false} CpuHas(st: State, c: Cpu)
    requires Inv(st)
    ensures CpuOk(st, c)
  {
  }

  lemma {:induction false} ListHas(st: State, k: Cpu)
    requires Inv(st)
    ensures ListOk(st, k)
  {
  }

  lemma {:induction false} SemaphoreHas(st: State, s: Sid)
    requires Inv(st)
    ensures SemaphoreOk(st, s)
  {
  }

  lemma {:induction false} Wrap(x: int, n: nat)
    requires 0 < n && 0 <= x <= n
    ensures x % n == if x < n then x else 0
  {
  }

  /** The chosen CPU exists and suits the thread. */
  lemma {:induction false} TargetOk(st: State, t: Tid)
    requires Inv(st)
    ensures MayTarget(st, t, Target(st, t)) && -1 <= NextLoad(st, t) < st.n
    ensures t !in st.affinity ==> Target(st, t) == NextLoad(st, t) == Choice(st.load, st.n, 0)
  {
    ThreadHas(st, t);
    Wrap(st.load + 1, st.n);
  }

  /** A running thread waits for no semaphore. */
  lemma {:induction false} RunsUnqueued(st: State, c: Cpu, t: Tid, s: Sid)
    requires Inv(st) && At(st, c, Run(t)) && s in st.sems
    ensures t !in st.sems[s].waiters
  {
    CpuHas(st, c);
    SemaphoreHas(st, s);
    assert Member(st.sems[s].waiters, st.loc, InWait(s), t);
  }

  /** A thread that called sem_wait on a mutex and runs again, having slept or not,
      holds it until it calls sem_signal; no other running thread does. */
  lemma {:induction false} ClaimHeld(st: State, c: Cpu, t: Tid, s: Sid)
    requires Inv(st) && At(st, c, Run(t)) && s in st.history && st.history[s].mutex
    ensures t in st.history[s].claimed <==> t in st.history[s].holding
  {
    SemaphoreHas(st, s);
    RunsUnqueued(st, c, t, s);
    ClaimHolds(st.sems[s], st.history[s], t);
  }

  // ----- Each step keeps the invariant ---------------------------------------

  lemma {:induction false} EnterKeeps(st: State, c: Cpu, t: Tid)
    requires Inv(st) && At(st, c, Fresh(t))
    ensures Inv(EnterStep(st, c, t))
  {
    var st' := EnterStep(st, c, t);
    CpuHas(st, c);
    ListHas(st, c);
    ThreadHas(st, t);
    forall u: Tid ensures ThreadOk(st', u) { ThreadHas(st, u); }
    forall d: Cpu ensures CpuOk(st', d) { CpuHas(st, d); }
    forall l: Cpu ensures ListOk(st', l) { ListHas(st, l); }
    forall m: Sid ensures SemaphoreOk(st', m) { SemaphoreHas(st, m); }
  }

  lemma {:induction false} LeaveKeeps(st: State, c: Cpu, t: Tid)
    requires Inv(st) && At(st, c, Leaving(t))
    ensures Inv(LeaveStep(st, c, t))
  {
    var st' := LeaveStep(st, c, t);
    CpuHas(st, c);
    ListHas(st, c);
    ThreadHas(st, t);
    forall u: Tid ensures ThreadOk(st', u) { ThreadHas(st, u); }
    forall d: Cpu ensures CpuOk(st', d) { CpuHas(st, d); }
    forall l: Cpu ensures ListOk(st', l) { ListHas(st, l); }
    forall m: Sid ensures SemaphoreOk(st', m) { SemaphoreHas(st, m); }
  }

  lemma {:induction false} YieldKeeps(st: State, c: Cpu, t: Tid)
    requires Inv(st) && At(st, c, Run(t)) && t !in st.locks
    ensures Inv(YieldStep(st, c, t))
  {
    var st' := YieldStep(st, c, t);
    CpuHas(st, c);
    ListHas(st, c);
    ThreadHas(st, t);
    TargetOk(st, t);
    forall u: Tid ensures ThreadOk(st', u) { ThreadHas(st, u); }
    forall d: Cpu ensures CpuOk(st', d) { CpuHas(st, d); }
    forall l: Cpu ensures ListOk(st', l) { ListHas(st, l); }
    forall m: Sid ensures SemaphoreOk(st', m) { SemaphoreHas(st, m); }
  }

  lemma {:induction false} AddLockKeeps(st: State, c: Cpu, t: Tid, k: Cpu)
    requires Inv(st) && At(st, c, Adding(t, k)) && k !in st.runLocks
    ensures Inv(LockStep(st, c, AddLocked(t, k), k))
  {
    var st' := LockStep(st, c, AddLocked(t, k), k);
    CpuHas(st, c);
    ListHas(st, c);
    ThreadHas(st, t);
    forall u: Tid ensures ThreadOk(st', u) { ThreadHas(st, u); }
    forall d: Cpu ensures CpuOk(st', d) { CpuHas(st, d); }
    forall l: Cpu ensures ListOk(st', l) { ListHas(st, l); }
    forall m: Sid ensures SemaphoreOk(st', m) { SemaphoreHas(st, m); }
  }

  lemma {:induction false} WakeLockPlaces(st: State, c: Cpu, t: Tid, via: Option<Sid>, w: Tid, k: Cpu)
    requires Inv(st) && At(st, c, WakeTo(t, via, w, k)) && k !in st.runLocks
    ensures PlacesOk(LockStep(st, c, WakeLocked(t, via, w, k), k))
  {
    var st' := LockStep(st, c, WakeLocked(t, via, w, k), k);
    CpuHas(st, c);
    forall u: Tid ensures ThreadOk(st', u) { ThreadHas(st, u); }
    forall d: Cpu ensures CpuOk(st', d) { CpuHas(st, d); }
  }

  lemma {:induction false} WakeLockQueues(st: State, c: Cpu, t: Tid, via: Option<Sid>, w: Tid, k: Cpu)
    requires Inv(st) && At(st, c, WakeTo(t, via, w, k)) && k !in st.runLocks
    ensures QueuesOk(LockStep(st, c, WakeLocked(t, via, w, k), k))
  {
    var st' := LockStep(st, c, WakeLocked(t, via, w, k), k);
    CpuHas(st, c);
    ListHas(st, c);
    forall l: Cpu ensures ListOk(st', l) { ListHas(st, l); }
    forall m: Sid ensures SemaphoreOk(st', m) { SemaphoreHas(st, m); }
  }

  lemma {:induction false} WakeLockKeeps(st: State, c: Cpu, t: Tid, via: Option<Sid>, w: Tid, k: Cpu)
    requires Inv(st) && At(st, c, WakeTo(t, via, w, k)) && k !in st.runLocks
    ensures Inv(LockStep(st, c, WakeLocked(t, via, w, k), k))
  {
    WakeLockPlaces(st, c, t, via, w, k);
    WakeLockQueues(st, c, t, via, w, k);
  }

  lemma {:induction false} PickKeeps(st: State, c: Cpu)
    requires Inv(st) && At(st, c, Scheduling) && c !in st.runLocks && c in st.run && st.run[c] != []
    ensures Inv(PickStep(st, c, st.run[c][0]))
  {
    var st' := PickStep(st, c, st.run[c][0]);
    CpuHas(st, c);
    ListHas(st, c);
    assert Member(st.run[c], st.loc, InRun(c), st.run[c][0]) && ThreadOk(st, st.run[c][0]);
    forall u: Tid ensures ThreadOk(st', u) { ThreadHas(st, u); }
    forall d: Cpu ensures CpuOk(st', d) { CpuHas(st, d); }
    forall l: Cpu ensures ListOk(st', l) { ListHas(st, l); }
    forall m: Sid ensures SemaphoreOk(st', m) { SemaphoreHas(st, m); }
  }

  lemma {:induction false} MarkPlaces(st: State, c: Cpu, t: Tid, via: Option<Sid>, w: Tid)
    requires Inv(st) && At(st, c, Waking(t, via, w)) && w !in st.locks
    ensures PlacesOk(MarkStep(st, c, t, via, w))
  {
    var st' := MarkStep(st, c, t, via, w);
    CpuHas(st, c);
    ThreadHas(st, t);
    ThreadHas(st, w);
    TargetOk(st, w);
    forall u: Tid ensures ThreadOk(st', u) { ThreadHas(st, u); }
    forall d: Cpu ensures CpuOk(st', d) { CpuHas(st, d); }
  }

  lemma {:induction false} MarkQueues(st: State, c: Cpu, t: Tid, via: Option<Sid>, w: Tid)
    requires Inv(st) && At(st, c, Waking(t, via, w)) && w !in st.locks
    ensures QueuesOk(MarkStep(st, c, t, via, w))
  {
    var st' := MarkStep(st, c, t, via, w);
    CpuHas(st, c);
    ListHas(st, c);
    forall l: Cpu ensures ListOk(st', l) { ListHas(st, l); }
    forall m: Sid ensures SemaphoreOk(st', m) { SemaphoreHas(st, m); }
  }

  lemma {:induction false} MarkKeeps(st: State, c: Cpu, t: Tid, via: Option<Sid>, w: Tid)
    requires Inv(st) && At(st, c, Waking(t, via, w)) && w !in st.locks
    ensures Inv(MarkStep(st, c, t, via, w))
  {
    TargetOk(st, w);
    MarkPlaces(st, c, t, via, w);
    MarkQueues(st, c, t, via, w);
  }

  lemma {:induction false} PassKeeps(st: State, c: Cpu, t: Tid, s: Sid)
    requires Inv(st) && At(st, c, Run(t)) && s in st.sems && s in st.history && !MustSleep(st.sems[s])
    ensures Inv(PassStep(st, t, s))
  {
    var st' := PassStep(st, t, s);
    SemaphoreHas(st, s);
    WaitKeeps(st.sems[s], st.history[s], t);
    forall u: Tid ensures ThreadOk(st', u) { ThreadHas(st, u); }
    forall d: Cpu ensures CpuOk(st', d) { CpuHas(st, d); }
    forall l: Cpu ensures ListOk(st', l) { ListHas(st, l); }
    forall m: Sid ensures SemaphoreOk(st', m) { SemaphoreHas(st, m); }
  }

  lemma {:induction false} PostKeeps(st: State, c: Cpu, t: Tid, s: Sid)
    requires Inv(st) && At(st, c, Run(t)) && s in st.sems && s in st.history && s in st.owners && st.sems[s].holder.None?
    requires MayRelease(st.history[s], t) && st.owners[s].thread != Some(t) && !MustWake(st.sems[s])
    ensures Inv(PostStep(st, c, t, s))
  {
    var st' := PostStep(st, c, t, s);
    SemaphoreHas(st, s);
    RunsUnqueued(st, c, t, s);
    SignalKeeps(st.sems[s], st.history[s], c, t);
    forall u: Tid ensures ThreadOk(st', u) { ThreadHas(st, u); }
    forall d: Cpu ensures CpuOk(st', d) { CpuHas(st, d); }
    forall l: Cpu ensures ListOk(st', l) { ListHas(st, l); }
    forall m: Sid ensures SemaphoreOk(st', m) { SemaphoreHas(st, m); }
  }

  lemma {:induction false} AddPlaces(st: State, c: Cpu, t: Tid, k: Cpu)
    requires Inv(st) && At(st, c, AddLocked(t, k)) && t !in st.locks && k in st.run && k in st.added
    ensures PlacesOk(AddStep(st, c, t, k))
  {
    var st' := AddStep(st, c, t, k);
    CpuHas(st, c);
    ListHas(st, c);
    ThreadHas(st, t);
    ListHas(st, k);
    forall u: Tid ensures ThreadOk(st', u) { ThreadHas(st, u); }
    forall d: Cpu ensures CpuOk(st', d) { CpuHas(st, d); }
  }

  lemma {:induction false} AddQueues(st: State, c: Cpu, t: Tid, k: Cpu)
    requires Inv(st) && At(st, c, AddLocked(t, k)) && t !in st.locks && k in st.run && k in st.added
    ensures QueuesOk(AddStep(st, c, t, k))
  {
    var st' := AddStep(st, c, t, k);
    CpuHas(st, c);
    ListHas(st, c);
    ThreadHas(st, t);
    ListHas(st, k);
    forall l: Cpu ensures ListOk(st', l) { ListHas(st, l);
      if l == k {
        QueuedPush(st.run[k], st.loc, InRun(k), t);
        assert st.added[k] + [t] == st.taken[k] + (st.run[k] + [t]);
      } else if l in st.run {
        QueuedElse(st.run[l], st.loc, InRun(l), t, InRun(k));
      }
    }
    forall m: Sid ensures SemaphoreOk(st', m) { SemaphoreHas(st, m);
      if m in st.sems { QueuedElse(st.sems[m].waiters, st.loc, InWait(m), t, InRun(k)); }
    }
  }

  lemma {:induction false} AddKeeps(st: State, c: Cpu, t: Tid, k: Cpu)
    requires Inv(st) && At(st, c, AddLocked(t, k)) && t !in st.locks && k in st.run && k in st.added
    ensures Inv(AddStep(st, c, t, k))
  {
    AddPlaces(st, c, t, k);
    AddQueues(st, c, t, k);
  }

  lemma {:induction false} DispatchPlaces(st: State, c: Cpu, t: Tid)
    requires Inv(st) && At(st, c, Picked(t)) && t !in st.locks && c in st.run && c in st.taken
    ensures PlacesOk(DispatchStep(st, c, t))
  {
    var st' := DispatchStep(st, c, t);
    CpuHas(st, c);
    ListHas(st, c);
    ThreadHas(st, t);
    forall u: Tid ensures ThreadOk(st', u) { ThreadHas(st, u); }
    forall d: Cpu ensures CpuOk(st', d) { CpuHas(st, d); }
  }

  lemma {:induction false} DispatchQueues(st: State, c: Cpu, t: Tid)
    requires Inv(st) && At(st, c, Picked(t)) && t !in st.locks && c in st.run && c in st.taken
    ensures QueuesOk(DispatchStep(st, c, t))
  {
    var st' := DispatchStep(st, c, t);
    CpuHas(st, c);
    ListHas(st, c);
    ThreadHas(st, t);
    forall l: Cpu ensures ListOk(st', l) { ListHas(st, l);
      if l == c {
        QueuedPop(st.run[c], st.loc, InRun(c), OnCpu(c));
        assert st.taken[c] + st.run[c] == (st.taken[c] + [t]) + st.run[c][1..];
      } else if l in st.run {
        QueuedElse(st.run[l], st.loc, InRun(l), t, OnCpu(c));
      }
    }
    forall m: Sid ensures SemaphoreOk(st', m) { SemaphoreHas(st, m);
      if m in st.sems { QueuedElse(st.sems[m].waiters, st.loc, InWait(m), t, OnCpu(c)); }
    }
  }

  lemma {:induction false} DispatchKeeps(st: State, c: Cpu, t: Tid)
    requires Inv(st) && At(st, c, Picked(t)) && t !in st.locks && c in st.run && c in st.taken
    ensures Inv(DispatchStep(st, c, t))
  {
    DispatchPlaces(st, c, t);
    DispatchQueues(st, c, t);
  }

  lemma {:induction false} DeliverPlaces(st: State, c: Cpu, t: Tid, via: Option<Sid>, w: Tid, k: Cpu)
    requires Inv(st) && At(st, c, WakeLocked(t, via, w, k)) && w !in st.locks && k in st.run && k in st.added
    ensures PlacesOk(DeliverStep(st, c, t, via, w, k))
  {
    var st' := DeliverStep(st, c, t, via, w, k);
    CpuHas(st, c);
    ListHas(st, c);
    ThreadHas(st, t);
    ThreadHas(st, w);
    ListHas(st, k);
    forall u: Tid ensures ThreadOk(st', u) { ThreadHas(st, u); }
    forall d: Cpu ensures CpuOk(st', d) { DeliverCpu(st, c, t, via, w, k, d); }
  }

  lemma {:induction false} DeliverCpu(st: State, c: Cpu, t: Tid, via: Option<Sid>, w: Tid, k: Cpu, d: Cpu)
    requires Inv(st) && At(st, c, WakeLocked(t, via, w, k)) && w !in st.locks && k in st.run && k in st.added
    ensures CpuOk(DeliverStep(st, c, t, via, w, k), d)
  {
    CpuHas(st, c);
    ListHas(st, c);
    ThreadHas(st, t);
    ThreadHas(st, w);
    CpuHas(st, d);
  }

  lemma {:induction false} DeliverQueues(st: State, c: Cpu, t: Tid, via: Option<Sid>, w: Tid, k: Cpu)
    requires Inv(st) && At(st, c, WakeLocked(t, via, w, k)) && w !in st.locks && k in st.run && k in st.added
    ensures QueuesOk(DeliverStep(st, c, t, via, w, k))
  {
    var st' := DeliverStep(st, c, t, via, w, k);
    CpuHas(st, c);
    ListHas(st, c);
    ThreadHas(st, t);
    ThreadHas(st, w);
    ListHas(st, k);
    forall l: Cpu ensures ListOk(st', l) { ListHas(st, l);
      if l == k {
        QueuedPush(st.run[k], st.loc, InRun(k), w);
        assert st.added[k] + [w] == st.taken[k] + (st.run[k] + [w]);
      } else if l in st.run {
        QueuedElse(st.run[l], st.loc, InRun(l), w, InRun(k));
      }
    }
    forall m: Sid ensures SemaphoreOk(st', m) { SemaphoreHas(st, m);
      if m in st.sems { QueuedElse(st.sems[m].waiters, st.loc, InWait(m), w, InRun(k)); }
    }
  }

  lemma {:induction false} DeliverKeeps(st: State, c: Cpu, t: Tid, via: Option<Sid>, w: Tid, k: Cpu)
    requires Inv(st) && At(st, c, WakeLocked(t, via, w, k)) && w !in st.locks && k in st.run && k in st.added
    ensures Inv(DeliverStep(st, c, t, via, w, k))
  {
    DeliverPlaces(st, c, t, via, w, k);
    DeliverQueues(st, c, t, via, w, k);
  }

  lemma {:induction false} CreatePlaces(st: State, c: Cpu, t: Tid, w: Tid)
    requires Inv(st) && At(st, c, Run(t)) && w in st.loc && st.loc[w] == Unborn
    ensures PlacesOk(CreateStep(st, c, t, w))
  {
    var st' := CreateStep(st, c, t, w);
    CpuHas(st, c);
    ListHas(st, c);
    ThreadHas(st, t);
    ThreadHas(st, w);
    forall u: Tid ensures ThreadOk(st', u) { ThreadHas(st, u); }
    forall d: Cpu ensures CpuOk(st', d) { CpuHas(st, d); }
  }

  lemma {:induction false} CreateQueues(st: State, c: Cpu, t: Tid, w: Tid)
    requires Inv(st) && At(st, c, Run(t)) && w in st.loc && st.loc[w] == Unborn
    ensures QueuesOk(CreateStep(st, c, t, w))
  {
    var st' := CreateStep(st, c, t, w);
    CpuHas(st, c);
    ListHas(st, c);
    forall l: Cpu ensures ListOk(st', l) { ListHas(st, l);
      if l in st.run { QueuedElse(st.run[l], st.loc, InRun(l), w, InHand(c)); }
    }
    forall m: Sid ensures SemaphoreOk(st', m) { SemaphoreHas(st, m);
      if m in st.sems { QueuedElse(st.sems[m].waiters, st.loc, InWait(m), w, InHand(c)); }
    }
  }

  lemma {:induction false} CreateKeeps(st: State, c: Cpu, t: Tid, w: Tid)
    requires Inv(st) && At(st, c, Run(t)) && w in st.loc && st.loc[w] == Unborn
    ensures Inv(CreateStep(st, c, t, w))
  {
    CreatePlaces(st, c, t, w);
    CreateQueues(st, c, t, w);
  }

  lemma {:induction false} SleepPlaces(st: State, c: Cpu, t: Tid, s: Sid)
    requires Inv(st) && At(st, c, Run(t)) && t !in st.locks && s in st.sems && s in st.history && MustSleep(st.sems[s])
    ensures PlacesOk(SleepStep(st, c, t, s))
  {
    var st' := SleepStep(st, c, t, s);
    CpuHas(st, c);
    ListHas(st, c);
    ThreadHas(st, t);
    forall u: Tid ensures ThreadOk(st', u) { ThreadHas(st, u); }
    forall d: Cpu ensures CpuOk(st', d) { CpuHas(st, d); }
  }

  lemma {:induction false} SleepQueues(st: State, c: Cpu, t: Tid, s: Sid)
    requires Inv(st) && At(st, c, Run(t)) && t !in st.locks && s in st.sems && s in st.history && MustSleep(st.sems[s])
    ensures QueuesOk(SleepStep(st, c, t, s))
  {
    var st' := SleepStep(st, c, t, s);
    CpuHas(st, c);
    ListHas(st, c);
    ThreadHas(st, t);
    SemaphoreHas(st, s);
    WaitKeeps(st.sems[s], st.history[s], t);
    forall l: Cpu ensures ListOk(st', l) { ListHas(st, l);
      if l in st.run { QueuedElse(st.run[l], st.loc, InRun(l), t, InWait(s)); }
    }
    forall m: Sid ensures SemaphoreOk(st', m) { SemaphoreHas(st, m);
      if m == s {
        QueuedPush(st.sems[s].waiters, st.loc, InWait(s), t);
      } else if m in st.sems {
        QueuedElse(st.sems[m].waiters, st.loc, InWait(m), t, InWait(s));
      }
    }
  }

  lemma {:induction false} SleepKeeps(st: State, c: Cpu, t: Tid, s: Sid)
    requires Inv(st) && At(st, c, Run(t)) && t !in st.locks && s in st.sems && s in st.history && MustSleep(st.sems[s])
    ensures Inv(SleepStep(st, c, t, s))
  {
    SleepPlaces(st, c, t, s);
    SleepQueues(st, c, t, s);
  }

  lemma {:induction false} PopPlaces(st: State, c: Cpu, t: Tid, s: Sid, w: Tid)
    requires Inv(st) && At(st, c, Run(t)) && s in st.sems && s in st.history && s in st.owners && st.sems[s].holder.None?
    requires MayRelease(st.history[s], t) && st.owners[s].thread != Some(t)
    requires MustWake(st.sems[s]) && st.sems[s].waiters != [] && w == st.sems[s].waiters[0]
    ensures PlacesOk(PopStep(st, c, t, s, w))
  {
    var st' := PopStep(st, c, t, s, w);
    CpuHas(st, c);
    ListHas(st, c);
    ThreadHas(st, t);
    SemaphoreHas(st, s);
    QueuedPop(st.sems[s].waiters, st.loc, InWait(s), InHand(c));
    ThreadHas(st, w);
    forall u: Tid ensures ThreadOk(st', u) { ThreadHas(st, u); }
    forall d: Cpu ensures CpuOk(st', d) { CpuHas(st, d); }
  }

  lemma {:induction false} PopQueues(st: State, c: Cpu, t: Tid, s: Sid, w: Tid)
    requires Inv(st) && At(st, c, Run(t)) && s in st.sems && s in st.history && s in st.owners && st.sems[s].holder.None?
    requires MayRelease(st.history[s], t) && st.owners[s].thread != Some(t)
    requires MustWake(st.sems[s]) && st.sems[s].waiters != [] && w == st.sems[s].waiters[0]
    ensures QueuesOk(PopStep(st, c, t, s, w))
  {
    var st' := PopStep(st, c, t, s, w);
    CpuHas(st, c);
    ListHas(st, c);
    ThreadHas(st, t);
    SemaphoreHas(st, s);
    QueuedPop(st.sems[s].waiters, st.loc, InWait(s), InHand(c));
    ThreadHas(st, w);
    RunsUnqueued(st, c, t, s);
    SignalKeeps(st.sems[s], st.history[s], c, t);
    forall l: Cpu ensures ListOk(st', l) { ListHas(st, l);
      if l in st.run { QueuedElse(st.run[l], st.loc, InRun(l), w, InHand(c)); }
    }
    forall m: Sid ensures SemaphoreOk(st', m) { SemaphoreHas(st, m);
      if m != s && m in st.sems { QueuedElse(st.sems[m].waiters, st.loc, InWait(m), w, InHand(c)); }
    }
  }

  lemma {:induction false} PopKeeps(st: State, c: Cpu, t: Tid, s: Sid, w: Tid)
    requires Inv(st) && At(st, c, Run(t)) && s in st.sems && s in st.history && s in st.owners && st.sems[s].holder.None?
    requires MayRelease(st.history[s], t) && st.owners[s].thread != Some(t)
    requires MustWake(st.sems[s]) && st.sems[s].waiters != [] && w == st.sems[s].waiters[0]
    ensures Inv(PopStep(st, c, t, s, w))
  {
    PopPlaces(st, c, t, s, w);
    PopQueues(st, c, t, s, w);
  }

  lemma {:induction false} OwnerKeeps(st: State, c: Cpu, t: Tid, s: Sid, o: Owner)
    requires Inv(st) && At(st, c, Run(t)) && s in st.history && st.history[s].mutex && t in st.history[s].claimed
    requires o == Own(t) || o == Disown()
    ensures Inv(st.(owners := st.owners[s := o]))
  {
    ClaimHeld(st, c, t, s);
    var st' := st.(owners := st.owners[s := o]);
    forall u: Tid ensures ThreadOk(st', u) { ThreadHas(st, u); }
    forall d: Cpu ensures CpuOk(st', d) { CpuHas(st, d); }
    forall l: Cpu ensures ListOk(st', l) { ListHas(st, l); }
    forall m: Sid ensures SemaphoreOk(st', m) { SemaphoreHas(st, m); }
  }

  /** A listed thread is RUNNABLE, so the oldest entry is picked. */
  lemma {:induction false} PickIsOldest(st: State, k: Cpu)
    requires Inv(st) && k in st.run
    ensures PickNext(st.run[k], st.state) == if st.run[k] == [] then None else Some(st.run[k][0])
  {
    ListHas(st, k);
    if st.run[k] != [] {
      assert Member(st.run[k], st.loc, InRun(k), st.run[k][0]);
      ThreadHas(st, st.run[k][0]);
    }
  }

  /** Scheduler and yield steps keep the invariant. */
  lemma {:induction false} SchedulerKeeps(st: State, op: Op)
    requires Inv(st) && Enabled(st, op)
    requires op.Pick? || op.Dispatch? || op.Enter? || op.Yield? || op.Add? || op.Leave?
    ensures Inv(Step(st, op))
  {
    var c, p := op.c, st.pc[op.c];
    match op
    case Pick(_) =>
      PickIsOldest(st, c);
      if st.run[c] != [] { PickKeeps(st, c); }
    case Dispatch(_) => DispatchKeeps(st, c, p.t);
    case Enter(_) => EnterKeeps(st, c, p.t);
    case Yield(_) => YieldKeeps(st, c, p.t);
    case Add(_) => AddKeeps(st, c, p.t, p.k);
    case Leave(_) => LeaveKeeps(st, c, p.t);
  }

  lemma {:induction false} SemaphoreKeeps(st: State, op: Op)
    requires Inv(st) && Enabled(st, op) && (op.Wait? || op.Signal?)
    ensures Inv(Step(st, op))
  {
    var c, p := op.c, st.pc[op.c];
    match op
    case Wait(_, s) =>
      if MustSleep(st.sems[s]) {
        SleepKeeps(st, c, p.t, s);
      } else {
        PassKeeps(st, c, p.t, s);
      }
    case Signal(_, s) =>
      SemaphoreHas(st, s);
      if MustWake(st.sems[s]) {
        SignalHasWaiter(st.sems[s], st.history[s]);
        PopKeeps(st, c, p.t, s, st.sems[s].waiters[0]);
      } else {
        PostKeeps(st, c, p.t, s);
      }
  }

  lemma {:induction false} WakeupKeeps(st: State, op: Op)
    requires Inv(st) && Enabled(st, op) && (op.LockList? || op.Create? || op.Mark? || op.Deliver?)
    ensures Inv(Step(st, op))
  {
    var c, p := op.c, st.pc[op.c];
    match op
    case LockList(_) =>
      if p.Adding? {
        AddLockKeeps(st, c, p.t, p.k);
      } else {
        WakeLockKeeps(st, c, p.t, p.via, p.w, p.k);
      }
    case Create(_, w) => CreateKeeps(st, c, p.t, w);
    case Mark(_) => MarkKeeps(st, c, p.t, p.via, p.w);
    case Deliver(_) => DeliverKeeps(st, c, p.t, p.via, p.w, p.k);
  }

  lemma {:induction false} StepKeeps(st: State, op: Op)
    requires Inv(st) && Enabled(st, op)
    ensures Inv(Step(st, op))
  {
    match op
    case TakeOwner(c, s) => OwnerKeeps(st, c, st.pc[c].t, s, Own(st.pc[c].t));
    case DropOwner(c, s) => OwnerKeeps(st, c, st.pc[c].t, s, Disown());
    case Wait(_, _) => SemaphoreKeeps(st, op);
    case Signal(_, _) => SemaphoreKeeps(st, op);
    case LockList(_) => WakeupKeeps(st, op);
    case Create(_, _) => WakeupKeeps(st, op);
    case Mark(_) => WakeupKeeps(st, op);
    case Deliver(_) => WakeupKeeps(st, op);
    case _ => SchedulerKeeps(st, op);
  }

  // ----- Whole runs ----------------------------------------------------------

  /** CPU 0 runs the boot thread 0, the other CPUs schedule; every other thread is
      yet to be created. `kinds` gives each semaphore's value, and whether it is a mutex. */
  ghost function Init(cpus: set<Cpu>, affinity: map<Tid, Cpu>, threads: set<Tid>, kinds: map<Sid, (nat, bool)>): State
  {
    State(|cpus|, affinity, -1,
      map c | c in cpus :: if c == 0 then Run(0) else Scheduling, map[], map[],
      map c | c in cpus :: [],
      map s | s in kinds :: Sem(kinds[s].0, None, []),
      map t | t in threads :: if t == 0 then Running else New,
      map s | s in kinds :: Owner(true, None),
      map t | t in threads :: if t == 0 then OnCpu(0) else Unborn,
      map s | s in kinds :: History(kinds[s].0, kinds[s].1, 0, 0, [], [], {}, {}),
      map c | c in cpus :: [], map c | c in cpus :: [])
  }

  ghost predicate Sound(cpus: set<Cpu>, affinity: map<Tid, Cpu>, threads: set<Tid>, kinds: map<Sid, (nat, bool)>)
  {
    && 0 in cpus && (forall c: Cpu :: c in cpus <==> 0 <= c < |cpus|)
    && 0 in threads && 0 !in affinity && (forall t :: t in affinity ==> affinity[t] in cpus)
    && (forall s :: s in kinds && kinds[s].1 ==> kinds[s].0 == 1)
  }

  lemma {:induction false} InitInv(cpus: set<Cpu>, affinity: map<Tid, Cpu>, threads: set<Tid>, kinds: map<Sid, (nat, bool)>)
    requires Sound(cpus, affinity, threads, kinds)
    ensures Inv(Init(cpus, affinity, threads, kinds))
  {
    var st := Init(cpus, affinity, threads, kinds);
    forall t: Tid ensures ThreadOk(st, t) { }
    forall c: Cpu ensures CpuOk(st, c) { }
    forall k: Cpu ensures ListOk(st, k) {
      forall t: Tid ensures Member([], st.loc, InRun(k), t) { }
    }
    forall s: Sid ensures SemaphoreOk(st, s) {
      forall t: Tid ensures Member([], st.loc, InWait(s), t) { }
      if s in kinds { InitOk(kinds[s].0, kinds[s].1); }
    }
  }

  /** The state after `ops`, each enabled when taken. */
  ghost predicate Reaches(st: State, ops: seq<Op>, st': State)
    decreases |ops|
  {
    if ops == [] then st' == st else Enabled(st, ops[0]) && Reaches(Step(st, ops[0]), ops[1..], st')
  }

  lemma {:induction false} RunKeeps(st: State, ops: seq<Op>, st': State)
    requires Inv(st) && Reaches(st, ops, st')
    ensures Inv(st')
    decreases |ops|
  {
    if ops != [] {
      StepKeeps(st, ops[0]);
      RunKeeps(Step(st, ops[0]), ops[1..], st');
    }
  }

  // ----- What every reachable state satisfies --------------------------------

  /** A thread is on one list at most, once, and a listed thread is RUNNABLE
      and not running, except on the CPU that is still switching away from it. */
  lemma {:induction false} OneList(st: State, k: Cpu, i: nat, k': Cpu, i': nat)
    requires Inv(st) && k in st.run && i < |st.run[k]| && k' in st.run && i' < |st.run[k']| && st.run[k][i] == st.run[k'][i']
    ensures k == k' && i == i' && st.run[k][i] in st.state && st.state[st.run[k][i]] == Runnable
    ensures forall s :: s in st.sems ==> st.run[k][i] !in st.sems[s].waiters
    ensures forall c :: c in st.pc && Executes(st.pc[c], st.run[k][i]) ==> st.pc[c].Leaving?
  {
    var t := st.run[k][i];
    ListHas(st, k);
    ListHas(st, k');
    ThreadHas(st, t);
    assert Member(st.run[k], st.loc, InRun(k), t) && Member(st.run[k'], st.loc, InRun(k'), t);
    forall s | s in st.sems ensures t !in st.sems[s].waiters {
      SemaphoreHas(st, s);
      assert Member(st.sems[s].waiters, st.loc, InWait(s), t);
    }
    forall c | c in st.pc && Executes(st.pc[c], t) ensures st.pc[c].Leaving? { CpuHas(st, c); }
  }

  /** No thread is lost: one that was created is on a CPU, on a run list, on a
      wait queue, or in the hands of a CPU waking it. */
  lemma {:induction false} NoneLost(st: State, t: Tid)
    requires Inv(st) && t in st.loc && !st.loc[t].Unborn?
    ensures (exists c :: c in st.pc && (Executes(st.pc[c], t) || (Wakes(st.pc[c]) && st.pc[c].w == t)))
         || (exists k :: k in st.run && t in st.run[k])
         || (exists s :: s in st.sems && t in st.sems[s].waiters)
  {
    ThreadHas(st, t);
    match st.loc[t]
    case OnCpu(c) => assert c in st.pc && Executes(st.pc[c], t);
    case InHand(c) => assert c in st.pc && Wakes(st.pc[c]) && st.pc[c].w == t;
    case InRun(k) =>
      ListHas(st, k);
      assert Member(st.run[k], st.loc, InRun(k), t);
    case InWait(s) =>
      SemaphoreHas(st, s);
      assert Member(st.sems[s].waiters, st.loc, InWait(s), t);
  }

  /** Each CPU dispatches in FIFO order: its n-th dispatch is of the n-th thread listed. */
  lemma {:induction false} DispatchesInOrder(st: State, k: Cpu, n: nat)
    requires Inv(st) && k in st.pc && k in st.added && k in st.taken && n < |st.taken[k]|
    ensures n < |st.added[k]| && st.taken[k][n] == st.added[k][n]
  {
    ListHas(st, k);
  }

  /** A pinned thread only ever runs on its CPU. */
  lemma {:induction false} AffinityKept(st: State, c: Cpu, t: Tid)
    requires Inv(st) && c in st.pc && st.pc[c] == Run(t) && t in st.affinity
    ensures c == st.affinity[t]
  {
    ThreadHas(st, t);
    CpuHas(st, c);
  }

  // ----- Critical sections can be left ---------------------------------------

  /** The CPU is inside the code of scheduler, yield or wakeup_process, between two
      points where it may wait for a lock. */
  predicate InSection(p: Pc) { !p.Scheduling? && !p.Run? }

  /** The step that such a CPU takes next. */
  function NextStep(p: Pc, c: Cpu): Op
    requires InSection(p)
  {
    match p
    case Picked(_) => Dispatch(c)
    case Fresh(_) => Enter(c)
    case Adding(_, _) => LockList(c)
    case AddLocked(_, _) => Add(c)
    case Leaving(_) => Leave(c)
    case Waking(_, _, _) => Mark(c)
    case WakeTo(_, _, _, _) => LockList(c)
    case WakeLocked(_, _, _, _) => Deliver(c)
  }

  ghost predicate CanMove(st: State, c: Cpu) { c in st.pc && InSection(st.pc[c]) && Enabled(st, NextStep(st.pc[c], c)) }

  /** It waits for one lock at most: that of a thread or that of a list. */
  ghost predicate LockFree(st: State, p: Pc)
  {
    match p
    case Picked(t) => t !in st.locks
    case AddLocked(t, _) => t !in st.locks
    case Waking(_, _, w) => w !in st.locks
    case WakeLocked(_, _, w, _) => w !in st.locks
    case Adding(_, k) => k !in st.runLocks
    case WakeTo(_, _, _, k) => k !in st.runLocks
    case _ => true
  }

  lemma {:induction false} FreeMoves(st: State, c: Cpu)
    requires Inv(st) && c in st.pc && InSection(st.pc[c]) && LockFree(st, st.pc[c])
    ensures CanMove(st, c)
  {
    CpuHas(st, c);
    ListHas(st, c);
    match st.pc[c]
    case AddLocked(_, k) => ListHas(st, k);
    case WakeLocked(_, _, _, k) => ListHas(st, k);
    case _ =>
  }

  /** The lock of a thread is held by a CPU that waits for nothing. */
  lemma {:induction false} ThreadLockMoves(st: State, t: Tid)
    requires Inv(st) && t in st.locks
    ensures CanMove(st, st.locks[t])
  {
    ThreadHas(st, t);
    FreeMoves(st, st.locks[t]);
  }

  lemma {:induction false} ListLockMoves(st: State, k: Cpu)
    requires Inv(st) && k in st.runLocks
    ensures exists d :: CanMove(st, d)
  {
    ListHas(st, k);
    var c := st.runLocks[k];
    var x := match st.pc[c] case Picked(t) => t case AddLocked(t, _) => t case WakeLocked(_, _, w, _) => w case _ => 0;
    if x in st.locks { ThreadLockMoves(st, x); } else { FreeMoves(st, c); }
  }

  /** No deadlock over the locks of threads, lists and semaphores: while a CPU is
      inside such code, some CPU inside such code has its next step enabled. */
  lemma {:induction false} NoLockDeadlock(st: State, c: Cpu)
    requires Inv(st) && c in st.pc && InSection(st.pc[c])
    ensures exists d :: CanMove(st, d)
  {
    if LockFree(st, st.pc[c]) {
      FreeMoves(st, c);
    } else {
      match st.pc[c]
      case Picked(t) => ThreadLockMoves(st, t);
      case AddLocked(t, _) => ThreadLockMoves(st, t);
      case Waking(_, _, w) => ThreadLockMoves(st, w);
      case WakeLocked(_, _, w, _) => ThreadLockMoves(st, w);
      case Adding(_, k) => ListLockMoves(st, k);
      case WakeTo(_, _, _, k) => ListLockMoves(st, k);
    }
  }

  lemma {:induction false} SemaphoreLockMoves(st: State, s: Sid)
    requires Inv(st) && s in st.sems && st.sems[s].holder.Some?
    ensures exists d :: CanMove(st, d)
  {
    SemaphoreHas(st, s);
    NoLockDeadlock(st, st.sems[s].holder.value);
  }

  /** Steps a CPU has left in its section. */
  function Rank(p: Pc): nat
  {
    match p
    case Scheduling => 0
    case Run(_) => 0
    case Fresh(_) => 1
    case Leaving(_) => 1
    case WakeLocked(_, _, _, _) => 1
    case Picked(_) => 2
    case AddLocked(_, _) => 2
    case WakeTo(_, _, _, _) => 2
    case Adding(_, _) => 3
    case Waking(_, _, _) => 3
  }

  /** Steps that CPUs 0 to n-1 have left in their sections. */
  ghost function Work(pc: map<Cpu, Pc>, n: nat): nat
  {
    if n == 0 then 0 else Work(pc, n - 1) + if n - 1 in pc then Rank(pc[n - 1]) else 0
  }

  lemma {:induction false} WorkMoved(pc: map<Cpu, Pc>, c: Cpu, p: Pc, n: nat)
    requires c in pc && 0 <= c
    ensures Work(pc[c := p], n) == Work(pc, n) + if c < n then Rank(p) - Rank(pc[c]) else 0
  {
    if n > 0 { WorkMoved(pc, c, p, n - 1); }
  }

  lemma {:induction false} NoWork(pc: map<Cpu, Pc>, n: nat, c: Cpu)
    requires Work(pc, n) == 0 && 0 <= c < n && c in pc
    ensures !InSection(pc[c])
  {
    if c < n - 1 { NoWork(pc, n - 1, c); }
  }

  /** CPU `c` moved one step closer to the end of its section, and no other CPU moved. */
  ghost predicate Closer(st: State, c: Cpu, st': State)
  {
    st'.n == st.n && c in st.pc && c in st'.pc && st'.pc == st.pc[c := st'.pc[c]] && Rank(st'.pc[c]) == Rank(st.pc[c]) - 1
  }

  lemma {:induction false} ListStepCloser(st: State, c: Cpu)
    requires CanMove(st, c) && (st.pc[c].Adding? || st.pc[c].AddLocked? || st.pc[c].Leaving? || st.pc[c].Fresh?)
    ensures Closer(st, c, Step(st, NextStep(st.pc[c], c)))
  {
    var op := NextStep(st.pc[c], c);
    match st.pc[c]
    case Adding(t, k) => assert Step(st, op) == LockStep(st, c, AddLocked(t, k), k);
    case AddLocked(t, k) => assert Step(st, op) == AddStep(st, c, t, k);
    case Leaving(t) => assert Step(st, op) == LeaveStep(st, c, t);
    case Fresh(t) => assert Step(st, op) == EnterStep(st, c, t);
  }

  lemma {:induction false} WakeStepCloser(st: State, c: Cpu)
    requires CanMove(st, c) && (st.pc[c].Waking? || st.pc[c].WakeTo?)
    ensures Closer(st, c, Step(st, NextStep(st.pc[c], c)))
  {
    var op := NextStep(st.pc[c], c);
    match st.pc[c]
    case Waking(t, via, w) => assert Step(st, op) == MarkStep(st, c, t, via, w);
    case WakeTo(t, via, w, k) => assert Step(st, op) == LockStep(st, c, WakeLocked(t, via, w, k), k);
  }

  lemma {:induction false} EndStepCloser(st: State, c: Cpu)
    requires CanMove(st, c) && (st.pc[c].Picked? || st.pc[c].WakeLocked?)
    ensures Closer(st, c, Step(st, NextStep(st.pc[c], c)))
  {
    var op := NextStep(st.pc[c], c);
    match st.pc[c]
    case Picked(t) => assert Step(st, op) == DispatchStep(st, c, t);
    case WakeLocked(t, via, w, k) => assert Step(st, op) == DeliverStep(st, c, t, via, w, k);
  }

  lemma {:induction false} SectionStep(st: State, c: Cpu)
    requires CanMove(st, c)
    ensures Closer(st, c, Step(st, NextStep(st.pc[c], c)))
  {
    match st.pc[c]
    case Waking(_, _, _) => WakeStepCloser(st, c);
    case WakeTo(_, _, _, _) => WakeStepCloser(st, c);
    case Picked(_) => EndStepCloser(st, c);
    case WakeLocked(_, _, _, _) => EndStepCloser(st, c);
    case _ => ListStepCloser(st, c);
  }

  lemma {:induction false} SectionWork(st: State, c: Cpu)
    requires Inv(st) && CanMove(st, c)
    ensures var st' := Step(st, NextStep(st.pc[c], c)); Inv(st') && Work(st'.pc, st'.n) == Work(st.pc, st.n) - 1
  {
    StepKeeps(st, NextStep(st.pc[c], c));
    SectionStep(st, c);
    ListHas(st, c);
    WorkMoved(st.pc, c, Step(st, NextStep(st.pc[c], c)).pc[c], st.n);
  }

  /** A run in which the CPUs `cs` take their section steps, one after the other. */
  ghost predicate SectionRun(st: State, cs: seq<Cpu>, st': State)
    decreases |cs|
  {
    if cs == [] then st' == st else CanMove(st, cs[0]) && SectionRun(Step(st, NextStep(st.pc[cs[0]], cs[0])), cs[1..], st')
  }

  /** Every run of section steps is exactly as long as the work it does. */
  lemma {:induction false} SectionsEnd(st: State, cs: seq<Cpu>, st': State)
    requires Inv(st) && SectionRun(st, cs, st')
    ensures Inv(st') && |cs| + Work(st'.pc, st'.n) == Work(st.pc, st.n)
    decreases |cs|
  {
    if cs != [] {
      SectionWork(st, cs[0]);
      SectionsEnd(Step(st, NextStep(st.pc[cs[0]], cs[0])), cs[1..], st');
    }
  }

  /** Outside all sections no lock is held. */
  lemma {:induction false} NoneHeld(st: State)
    requires Inv(st) && Work(st.pc, st.n) == 0
    ensures st.locks == map[] && st.runLocks == map[] && forall s :: s in st.sems ==> st.sems[s].holder.None?
  {
    forall t: Tid ensures t !in st.locks {
      ThreadHas(st, t);
      if t in st.locks { ListHas(st, st.locks[t]); NoWork(st.pc, st.n, st.locks[t]); }
    }
    forall k: Cpu ensures k !in st.runLocks {
      ListHas(st, k);
      if k in st.runLocks { ListHas(st, st.runLocks[k]); NoWork(st.pc, st.n, st.runLocks[k]); }
    }
    forall s | s in st.sems ensures st.sems[s].holder.None? {
      SemaphoreHas(st, s);
      if st.sems[s].holder.Some? { ListHas(st, st.sems[s].holder.value); NoWork(st.pc, st.n, st.sems[s].holder.value); }
    }
  }

  lemma {:induction false} WorkSomewhere(pc: map<Cpu, Pc>, n: nat) returns (c: Cpu)
    requires Work(pc, n) > 0
    ensures 0 <= c < n && c in pc && InSection(pc[c])
  {
    if n - 1 in pc && Rank(pc[n - 1]) > 0 { c := n - 1; } else { c := WorkSomewhere(pc, n - 1); }
  }

  /** From every reachable state the sections can be run to their ends, in as many
      steps as there is work, and then every modelled lock is free. */
  lemma {:induction false} SectionsDrain(st: State) returns (cs: seq<Cpu>, st': State)
    requires Inv(st)
    ensures SectionRun(st, cs, st') && |cs| == Work(st.pc, st.n) && Inv(st')
    ensures st'.locks == map[] && st'.runLocks == map[] && forall s :: s in st'.sems ==> st'.sems[s].holder.None?
    decreases Work(st.pc, st.n)
  {
    if Work(st.pc, st.n) == 0 {
      NoneHeld(st);
      cs, st' := [], st;
    } else {
      var c := WorkSomewhere(st.pc, st.n);
      NoLockDeadlock(st, c);
      var d :| CanMove(st, d);
      SectionWork(st, d);
      var rest;
      rest, st' := SectionsDrain(Step(st, NextStep(st.pc[d], d)));
      cs := [d] + rest;
      assert cs[1..] == rest;
    }
  }

  // ----- What is changed under which lock ------------------------------------

  /** Run list `l` stands, or CPU `c` holds its lock. */
  ghost predicate ListGuarded(st: State, st': State, c: Cpu, l: Cpu)
  {
    l in st.run ==> l in st'.run && (st'.run[l] == st.run[l] || Holds(st.runLocks, l, c))
  }

  /** Semaphore `s` stands, or its spinlock is free for CPU `c` to take, or `c` holds it. */
  ghost predicate SemGuarded(st: State, st': State, c: Cpu, s: Sid)
  {
    s in st.sems ==> s in st'.sems && (st'.sems[s] == st.sems[s] || st.sems[s].holder == None || st.sems[s].holder == Some(c))
  }

  /** The state of thread `t` stands, or its lock is free to take. */
  ghost predicate ThreadGuarded(st: State, st': State, t: Tid)
  {
    t in st.state ==> t in st'.state && (st'.state[t] == st.state[t] || t !in st.locks)
  }

  ghost predicate GuardedAt(st: State, st': State, c: Cpu, l: Cpu, s: Sid, t: Tid)
  {
    ListGuarded(st, st', c, l) && SemGuarded(st, st', c, s) && ThreadGuarded(st, st', t)
  }

  lemma {:induction false} SchedulerGuards(st: State, op: Op, l: Cpu, s: Sid, t: Tid)
    requires Enabled(st, op) && (op.Pick? || op.Enter? || op.Yield? || op.Leave?)
    ensures GuardedAt(st, Step(st, op), op.c, l, s, t)
  {
    var c, p := op.c, st.pc[op.c];
    match op
    case Pick(_) => assert GuardedAt(st, st, c, l, s, t);
    case Enter(_) => assert GuardedAt(st, EnterStep(st, c, p.t), c, l, s, t);
    case Yield(_) => assert GuardedAt(st, YieldStep(st, c, p.t), c, l, s, t);
    case Leave(_) => assert GuardedAt(st, LeaveStep(st, c, p.t), c, l, s, t);
  }

  lemma {:induction false} WakerGuards(st: State, op: Op, l: Cpu, s: Sid, t: Tid)
    requires Enabled(st, op) && (op.LockList? || op.Create? || op.Mark? || op.TakeOwner? || op.DropOwner?)
    ensures GuardedAt(st, Step(st, op), op.c, l, s, t)
  {
  }

  lemma {:induction false} SemaphoreGuards(st: State, op: Op, l: Cpu, s: Sid, t: Tid)
    requires Enabled(st, op) && (op.Wait? || op.Signal?)
    ensures GuardedAt(st, Step(st, op), op.c, l, s, t)
  {
    var (c, u, x) := (op.c, st.pc[op.c].t, op.s);
    if op.Wait? {
      assert GuardedAt(st, SleepStep(st, c, u, x), c, l, s, t) && GuardedAt(st, PassStep(st, u, x), c, l, s, t);
    } else {
      assert GuardedAt(st, PostStep(st, c, u, x), c, l, s, t);
      if st.sems[x].waiters != [] { assert GuardedAt(st, PopStep(st, c, u, x, st.sems[x].waiters[0]), c, l, s, t); }
    }
  }

  lemma {:induction false} ListGuards(st: State, op: Op, l: Cpu, s: Sid, t: Tid)
    requires Inv(st) && Enabled(st, op) && (op.Dispatch? || op.Add? || op.Deliver?)
    ensures GuardedAt(st, Step(st, op), op.c, l, s, t)
  {
    CpuHas(st, op.c);
    var c, p := op.c, st.pc[op.c];
    match op
    case Dispatch(_) => assert GuardedAt(st, DispatchStep(st, c, p.t), c, l, s, t);
    case Add(_) => assert GuardedAt(st, AddStep(st, c, p.t, p.k), c, l, s, t);
    case Deliver(_) => assert GuardedAt(st, DeliverStep(st, c, p.t, p.via, p.w, p.k), c, l, s, t);
  }

  /** No data race: in every step a run list changes only in the hands of the CPU that
      holds its lock, a semaphore only under its spinlock, and a thread's state only when
      no other CPU holds the thread's lock. */
  lemma {:induction false} Guarded(st: State, op: Op, l: Cpu, s: Sid, t: Tid)
    requires Inv(st) && Enabled(st, op)
    ensures l in st.run ==> l in Step(st, op).run && (Step(st, op).run[l] != st.run[l] ==> l in st.runLocks && st.runLocks[l] == op.c)
    ensures s in st.sems ==> s in Step(st, op).sems
    ensures s in st.sems && Step(st, op).sems[s] != st.sems[s] ==> st.sems[s].holder == None || st.sems[s].holder == Some(op.c)
    ensures t in st.state ==> t in Step(st, op).state && (Step(st, op).state[t] != st.state[t] ==> t !in st.locks)
  {
    if op.Wait? || op.Signal? {
      SemaphoreGuards(st, op, l, s, t);
    } else if op.Dispatch? || op.Add? || op.Deliver? {
      ListGuards(st, op, l, s, t);
    } else if op.LockList? || op.Create? || op.Mark? || op.TakeOwner? || op.DropOwner? {
      WakerGuards(st, op, l, s, t);
    } else {
      SchedulerGuards(st, op, l, s, t);
    }
  }

  // ----- The balancer --------------------------------------------------------

  lemma {:induction false} ChoiceIs(load: int, n: nat, i: nat)
    requires 0 < n && -1 <= load < n
    ensures i < n ==> Choice(load, n, i) == if load + 1 + i < n then load + 1 + i else load + 1 + i - n
    decreases i
  {
    Wrap(load + 1, n);
    if i > 0 { ChoiceIs(if load + 1 < n then load + 1 else 0, n, i - 1); }
  }

  /** n successive choices visit every CPU exactly once. */
  lemma {:induction false} RoundRobin(load: int, n: nat, c: Cpu)
    requires 0 < n && -1 <= load < n && 0 <= c < n
    ensures exists i: nat :: i < n && Choice(load, n, i) == c
    ensures forall i: nat, j: nat :: i < n && j < n && Choice(load, n, i) == c && Choice(load, n, j) == c ==> i == j
  {
    var i: nat := if load + 1 <= c then c - load - 1 else c - load - 1 + n;
    ChoiceIs(load, n, i);
    forall a: nat, b: nat | a < n && b < n && Choice(load, n, a) == c && Choice(load, n, b) == c ensures a == b {
      ChoiceIs(load, n, a);
      ChoiceIs(load, n, b);
    }
  }

  // ----- Mutexes -------------------------------------------------------------

  /** A step keeps owner fields and which semaphores are mutexes. */
  ghost predicate Bystander(st: State, st': State)
  {
    && st'.owners == st.owners
    && forall s :: s in st.history ==> s in st'.history && st'.history[s].mutex == st.history[s].mutex
  }

  lemma {:induction false} StandScheduling(st: State, op: Op)
    requires Enabled(st, op)
    requires op.Pick? || op.Dispatch? || op.Enter? || op.Yield? || op.Add? || op.Leave?
    ensures Step(st, op).owners == st.owners && Step(st, op).history == st.history
  {
  }

  lemma {:induction false} StandWaking(st: State, op: Op)
    requires Enabled(st, op)
    requires op.LockList? || op.Create? || op.Mark? || op.Deliver?
    ensures Step(st, op).owners == st.owners && Step(st, op).history == st.history
  {
  }

  lemma {:induction false} PassStands(st: State, t: Tid, s: Sid)
    requires s in st.sems && s in st.history
    ensures Bystander(st, PassStep(st, t, s))
  {
  }

  lemma {:induction false} SleepStands(st: State, c: Cpu, t: Tid, s: Sid)
    requires s in st.sems && s in st.history
    ensures Bystander(st, SleepStep(st, c, t, s))
  {
  }

  lemma {:induction false} PostStands(st: State, c: Cpu, t: Tid, s: Sid)
    requires s in st.sems && s in st.history
    ensures Bystander(st, PostStep(st, c, t, s))
  {
  }

  lemma {:induction false} PopStands(st: State, c: Cpu, t: Tid, s: Sid, w: Tid)
    requires s in st.sems && s in st.history
    ensures Bystander(st, PopStep(st, c, t, s, w))
  {
  }

  lemma {:induction false} StandSemaphore(st: State, op: Op)
    requires Enabled(st, op) && (op.Wait? || op.Signal?)
    ensures Bystander(st, Step(st, op))
  {
    var (c, t, s) := (op.c, st.pc[op.c].t, op.s);
    if op.Wait? {
      SleepStands(st, c, t, s);
      PassStands(st, t, s);
    } else {
      PostStands(st, c, t, s);
      if st.sems[s].waiters != [] { PopStands(st, c, t, s, st.sems[s].waiters[0]); }
    }
  }

  lemma {:induction false} StandBy(st: State, op: Op)
    requires Enabled(st, op) && !op.TakeOwner? && !op.DropOwner?
    ensures Bystander(st, Step(st, op))
  {
    if op.Wait? || op.Signal? {
      StandSemaphore(st, op);
    } else if op.LockList? || op.Create? || op.Mark? || op.Deliver? {
      StandWaking(st, op);
    } else {
      StandScheduling(st, op);
    }
  }

  lemma {:induction false} OwnerWrite(st: State, op: Op)
    requires Enabled(st, op) && (op.TakeOwner? || op.DropOwner?)
    ensures Step(st, op).owners == st.owners[op.s := if op.TakeOwner? then Owner(true, Some(st.pc[op.c].t)) else Owner(false, None)]
    ensures Step(st, op).history == st.history
  {
  }

  /** Thread `t` sets the owner of mutex `s`, or clears it. */
  predicate Takes(st: State, op: Op, s: Sid, t: Tid) { op.TakeOwner? && op.s == s && op.c in st.pc && st.pc[op.c] == Run(t) }

  predicate Drops(st: State, op: Op, s: Sid, t: Tid) { op.DropOwner? && op.s == s && op.c in st.pc && st.pc[op.c] == Run(t) }

  /** The owner fields name a thread exactly from when it sets them until it clears them
      itself. */
  lemma {:induction false} OwnerStable(st: State, op: Op, s: Sid, t: Tid)
    requires Inv(st) && Enabled(st, op) && s in st.history && st.history[s].mutex && s in st.owners
    ensures s in Step(st, op).owners
    ensures IsHold(Step(st, op).owners[s], t) <==> Takes(st, op, s, t) || (IsHold(st.owners[s], t) && !Drops(st, op, s, t))
  {
    if !op.TakeOwner? && !op.DropOwner? {
      StandBy(st, op);
    } else {
      OwnerWrite(st, op);
      if op.s == s && IsHold(st.owners[s], t) {
        SemaphoreHas(st, s);
        ClaimHeld(st, op.c, st.pc[op.c].t, s);
        MutexExclusive(st.sems[s], st.history[s], t, st.pc[op.c].t);
      }
    }
  }

  /** Whether, after `ops`, thread `t` has set the owner of `s` and not cleared it since. */
  ghost predicate Owning(st: State, ops: seq<Op>, s: Sid, t: Tid, now: bool)
    decreases |ops|
  {
    if ops == [] then now
    else Enabled(st, ops[0]) && Owning(Step(st, ops[0]), ops[1..], s, t, Takes(st, ops[0], s, t) || (now && !Drops(st, ops[0], s, t)))
  }

  /** In every run mutex_is_hold is true of a thread exactly between its setting of the
      owner in mutex_lock and its clearing of it in mutex_unlock. */
  lemma {:induction false} HoldExactly(st: State, ops: seq<Op>, st': State, s: Sid, t: Tid)
    requires Inv(st) && Reaches(st, ops, st') && s in st.history && st.history[s].mutex && s in st.owners
    ensures s in st'.owners
    ensures st'.owners[s].locked && st'.owners[s].thread == Some(t) <==>
      Owning(st, ops, s, t, st.owners[s].locked && st.owners[s].thread == Some(t))
    decreases |ops|
  {
    if ops != [] {
      StepKeeps(st, ops[0]);
      OwnerStable(st, ops[0], s, t);
      if ops[0].TakeOwner? || ops[0].DropOwner? { OwnerWrite(st, ops[0]); } else { StandBy(st, ops[0]); }
      HoldExactly(Step(st, ops[0]), ops[1..], st', s, t);
    }
  }

  // ----- The theorem over runs -----------------------------------------------

  /** In every state reachable by any steps of any number of threads and CPUs: no
      thread runs on two CPUs; the panic of sem_signal cannot happen; completed
      waits are bounded by the initial value and the signals; a mutex has at
      most one holder, and only a holder sees itself as owner. */
  lemma {:induction false} SafeRun(cpus: set<Cpu>, affinity: map<Tid, Cpu>, threads: set<Tid>, kinds: map<Sid, (nat, bool)>,
                                   ops: seq<Op>, st: State)
    requires Sound(cpus, affinity, threads, kinds) && Reaches(Init(cpus, affinity, threads, kinds), ops, st)
    ensures Inv(st)
    ensures forall c, c', t :: c in st.pc && c' in st.pc && Executes(st.pc[c], t) && Executes(st.pc[c'], t) ==> c == c'
    ensures forall s :: s in st.sems ==> s in st.history && s in st.owners
    ensures forall s :: s in st.sems ==> |st.sems[s].waiters| == if st.sems[s].value < 0 then -st.sems[s].value else 0
    ensures forall s :: s in st.sems && MustWake(st.sems[s]) ==> st.sems[s].waiters != []
    ensures forall s :: s in st.sems ==> st.history[s].granted <= st.history[s].init + st.history[s].signals
    ensures forall s, t, u :: s in st.sems && st.history[s].mutex && t in st.history[s].holding && u in st.history[s].holding ==> t == u
    ensures forall s, t :: s in st.sems && st.history[s].mutex && IsHold(st.owners[s], t) ==> t in st.history[s].holding
  {
    InitInv(cpus, affinity, threads, kinds);
    RunKeeps(Init(cpus, affinity, threads, kinds), ops, st);
    forall c, c', t | c in st.pc && c' in st.pc && Executes(st.pc[c], t) && Executes(st.pc[c'], t) ensures c == c' {
      OneCpu(st, c, c', t);
    }
    forall s | s in st.sems ensures s in st.history && s in st.owners && SemaphoreOk(st, s) { SemaphoreHas(st, s); }
    forall s, t, u | s in st.sems && st.history[s].mutex && t in st.history[s].holding && u in st.history[s].holding
      ensures t == u
    {
      MutexExclusive(st.sems[s], st.history[s], t, u);
    }
  }
}
