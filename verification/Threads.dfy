/** The scheduler, wakeup, semaphore and mutex code on linked lists (kernel/proc/sched.c,
    kernel/locks/semaphore.c, kernel/locks/mutex.c). The code's own state is `cpu->thread`,
    the lock words, the thread states, the `sched` nodes of threads linked into lists and
    each semaphore's value and queue length; `st` is the state of the step machine of
    module Sched that it stands for. A method runs from one point where its CPU may
    wait for a lock to the next, with the code's local variables as parameters. */
module Threads {
  import opened Wrappers
  import opened Queues
  import opened Links
  import opened Semaphore
  import opened Sched
  import opened ThreadLists

  /** `semaphore_t` without its list: value, the CPU in its spinlock, and f_size. */
  datatype Cell = Cell(value: int, holder: Option<Cpu>, size: int)

  /** Whose code a CPU runs. */
  function Occupant(p: Pc): Option<Tid> { if p.Scheduling? || p.Picked? then None else Some(p.t) }

  ghost predicate CurAt(cur: map<Cpu, Option<Tid>>, pc: map<Cpu, Pc>, c: Cpu)
  {
    (c in cur <==> c in pc) && (c in cur && c in pc ==> cur[c] == Occupant(pc[c]))
  }

  ghost predicate CellAt(cells: map<Sid, Cell>, sems: map<Sid, Sem>, s: Sid)
  {
    && (s in cells <==> s in sems)
    && (s in cells && s in sems ==> cells[s] == Cell(sems[s].value, sems[s].holder, |sems[s].waiters|))
  }

  ghost predicate Shown(cur: map<Cpu, Option<Tid>>, cells: map<Sid, Cell>, st: State)
  {
    && (forall c: Cpu {:trigger CurAt(cur, st.pc, c)} :: CurAt(cur, st.pc, c))
    && (forall s: Sid {:trigger CellAt(cells, st.sems, s)} :: CellAt(cells, st.sems, s))
  }

  /** One CPU moves. */
  lemma {:induction false} ShownMove(cur: map<Cpu, Option<Tid>>, cells: map<Sid, Cell>, st: State, st': State, c: Cpu)
    requires Shown(cur, cells, st) && c in st.pc && c in st'.pc && st'.pc == st.pc[c := st'.pc[c]] && st'.sems == st.sems
    ensures Shown(cur[c := Occupant(st'.pc[c])], cells, st')
    ensures Occupant(st'.pc[c]) == Occupant(st.pc[c]) ==> Shown(cur, cells, st')
  {
    var cur' := cur[c := Occupant(st'.pc[c])];
    forall d: Cpu ensures CurAt(cur', st'.pc, d) { assert CurAt(cur, st.pc, d); }
    forall d: Cpu | Occupant(st'.pc[c]) == Occupant(st.pc[c]) ensures CurAt(cur, st'.pc, d) { assert CurAt(cur, st.pc, d); }
    forall s: Sid ensures CellAt(cells, st'.sems, s) { assert CellAt(cells, st.sems, s); }
  }

  /** One semaphore changes, and the CPU that runs the code may move. */
  lemma {:induction false} ShownSem(cur: map<Cpu, Option<Tid>>, cells: map<Sid, Cell>, st: State, st': State, c: Cpu, s: Sid)
    requires Shown(cur, cells, st) && c in st.pc && c in st'.pc && st'.pc == st.pc[c := st'.pc[c]]
    requires Occupant(st'.pc[c]) == Occupant(st.pc[c]) && s in st.sems && s in st'.sems && st'.sems == st.sems[s := st'.sems[s]]
    ensures Shown(cur, cells[s := Cell(st'.sems[s].value, st'.sems[s].holder, |st'.sems[s].waiters|)], st')
  {
    var cells' := cells[s := Cell(st'.sems[s].value, st'.sems[s].holder, |st'.sems[s].waiters|)];
    forall d: Cpu ensures CurAt(cur, st'.pc, d) { assert CurAt(cur, st.pc, d); }
    forall x: Sid ensures CellAt(cells', st'.sems, x) { assert CellAt(cells, st.sems, x); }
  }

  /** The state that the code reads and writes. */
  datatype Code = Code(
    n: nat, affinity: map<Tid, Cpu>,
    load: int,                     // load_cpu_id
    cur: map<Cpu, Option<Tid>>,    // cpu->thread
    locks: map<Tid, Cpu>,          // thread->lock, while held
    runLocks: map<Cpu, Cpu>,       // sched_list.lock, while held
    state: map<Tid, ThreadState>,
    links: Links<SchedNode>,            // the `sched` nodes and the list heads
    cells: map<Sid, Cell>,
    owners: map<Sid, Owner>)

  /** The code's state stands for `st`. */
  ghost predicate Rep(x: Code, st: State)
  {
    && x.n == st.n && x.affinity == st.affinity && x.load == st.load
    && x.locks == st.locks && x.runLocks == st.runLocks && x.state == st.state && x.owners == st.owners
    && Shown(x.cur, x.cells, st) && ListsOk(x.links, st.run, st.sems, st.loc)
  }

  /** It stands for a state that the machine can be in. */
  ghost predicate Stands(x: Code, st: State) { Inv(st) && Rep(x, st) }

  // ----- Each section of code does its step ----------------------------------

  lemma {:induction false} PickRep(x: Code, st: State, c: Cpu, t: Tid)
    requires Stands(x, st) && Enabled(st, Pick(c)) && PickNext(st.run[c], st.state) == Some(t)
    ensures Stands(x.(runLocks := x.runLocks[c := c]), Step(st, Pick(c))) && At(Step(st, Pick(c)), c, Picked(t))
  {
    StepKeeps(st, Pick(c));
    var st' := PickStep(st, c, t);
    assert Step(st, Pick(c)) == st';
    ShownMove(x.cur, x.cells, st, st', c);
  }

  lemma {:induction false} DispatchRep(x: Code, st: State, c: Cpu, t: Tid)
    requires Stands(x, st) && Enabled(st, Dispatch(c)) && st.pc[c] == Picked(t)
    ensures Stands(x.(locks := x.locks[t := c], links := DelInit(x.links, Th(t)), cur := x.cur[c := Some(t)],
                      state := x.state[t := Running], runLocks := Unlock(x.runLocks, c)),
                   Step(st, Dispatch(c)))
  {
    StepKeeps(st, Dispatch(c));
    var st' := DispatchStep(st, c, t);
    assert Step(st, Dispatch(c)) == st';
    CpuHas(st, c);
    InvLocated(st);
    RunPop(x.links, st.run, st.sems, st.loc, c, OnCpu(c));
    assert st'.run == st.run[c := st.run[c][1..]];
    ShownMove(x.cur, x.cells, st, st', c);
  }

  lemma {:induction false} LeaveRep(x: Code, st: State, c: Cpu, t: Tid)
    requires Stands(x, st) && Enabled(st, Leave(c)) && st.pc[c] == Leaving(t)
    ensures Stands(x.(cur := x.cur[c := None], locks := Unlock(x.locks, t)), Step(st, Leave(c)))
  {
    StepKeeps(st, Leave(c));
    var st' := LeaveStep(st, c, t);
    assert Step(st, Leave(c)) == st';
    ShownMove(x.cur, x.cells, st, st', c);
  }

  lemma {:induction false} EnterRep(x: Code, st: State, c: Cpu, t: Tid)
    requires Stands(x, st) && Enabled(st, Enter(c)) && st.pc[c] == Fresh(t)
    ensures Stands(x.(locks := Unlock(x.locks, t)), Step(st, Enter(c)))
  {
    StepKeeps(st, Enter(c));
    var st' := EnterStep(st, c, t);
    assert Step(st, Enter(c)) == st';
    ShownMove(x.cur, x.cells, st, st', c);
  }

  lemma {:induction false} YieldRep(x: Code, st: State, c: Cpu, t: Tid)
    requires Stands(x, st) && Enabled(st, Yield(c)) && st.pc[c] == Run(t)
    ensures Stands(x.(state := x.state[t := Runnable], load := NextLoad(st, t)), Step(st, Yield(c)))
    ensures At(Step(st, Yield(c)), c, Adding(t, Target(st, t)))
  {
    StepKeeps(st, Yield(c));
    var st' := YieldStep(st, c, t);
    assert Step(st, Yield(c)) == st';
    ShownMove(x.cur, x.cells, st, st', c);
  }

  lemma {:induction false} LockMove(x: Code, st: State, c: Cpu, p: Pc, k: Cpu)
    requires Rep(x, st) && c in st.pc && Occupant(p) == Occupant(st.pc[c])
    ensures Rep(x.(runLocks := x.runLocks[k := c]), LockStep(st, c, p, k))
  {
    ShownMove(x.cur, x.cells, st, LockStep(st, c, p, k), c);
  }

  lemma {:induction false} LockRep(x: Code, st: State, c: Cpu, k: Cpu)
    requires Stands(x, st) && Enabled(st, LockList(c)) && st.pc[c].k == k
    ensures Stands(x.(runLocks := x.runLocks[k := c]), Step(st, LockList(c)))
  {
    StepKeeps(st, LockList(c));
    var p := st.pc[c];
    LockMove(x, st, c, if p.Adding? then AddLocked(p.t, k) else WakeLocked(p.t, p.via, p.w, k), k);
  }

  lemma {:induction false} AddRep(x: Code, st: State, c: Cpu, t: Tid, k: Cpu)
    requires Stands(x, st) && Enabled(st, Add(c)) && st.pc[c] == AddLocked(t, k)
    ensures Stands(x.(locks := x.locks[t := c], links := AddHead(x.links, Th(t), RunHead(k)), runLocks := Unlock(x.runLocks, k)),
                   Step(st, Add(c)))
  {
    StepKeeps(st, Add(c));
    var st' := AddStep(st, c, t, k);
    assert Step(st, Add(c)) == st';
    CpuHas(st, c);
    InvLocated(st);
    RunPush(x.links, st.run, st.sems, st.loc, t, k);
    ShownMove(x.cur, x.cells, st, st', c);
  }

  lemma {:induction false} PassRep(x: Code, st: State, c: Cpu, s: Sid)
    requires Stands(x, st) && Enabled(st, Wait(c, s)) && !MustSleep(st.sems[s])
    ensures s in x.cells
    ensures Stands(x.(cells := x.cells[s := x.cells[s].(value := x.cells[s].value - 1)]), Step(st, Wait(c, s)))
  {
    StepKeeps(st, Wait(c, s));
    var st' := PassStep(st, st.pc[c].t, s);
    assert Step(st, Wait(c, s)) == st';
    assert CellAt(x.cells, st.sems, s);
    ShownSem(x.cur, x.cells, st, st', c, s);
    SameWaiters(x.links, st.run, st.sems, st'.sems, st.loc);
  }

  /** The writes of sem_wait when it goes to sleep. */
  ghost function Asleep(x: Code, c: Cpu, t: Tid, s: Sid): Code
    requires s in x.cells
  {
    x.(locks := x.locks[t := c], state := x.state[t := Sleeping], links := AddTail(x.links, Th(t), WaitHead(s)),
       cells := x.cells[s := x.cells[s].(value := x.cells[s].value - 1, size := x.cells[s].size + 1)])
  }

  lemma {:induction false} SleepRep(x: Code, st: State, c: Cpu, t: Tid, s: Sid)
    requires Stands(x, st) && Enabled(st, Wait(c, s)) && MustSleep(st.sems[s]) && st.pc[c] == Run(t)
    ensures s in x.cells && Stands(Asleep(x, c, t, s), Step(st, Wait(c, s)))
  {
    StepKeeps(st, Wait(c, s));
    var st' := SleepStep(st, c, t, s);
    assert Step(st, Wait(c, s)) == st';
    CpuHas(st, c);
    InvLocated(st);
    assert CellAt(x.cells, st.sems, s);
    WaitPush(x.links, st.run, st.sems, st.loc, t, s, st'.sems[s]);
    ShownSem(x.cur, x.cells, st, st', c, s);
  }

  lemma {:induction false} PostRep(x: Code, st: State, c: Cpu, s: Sid)
    requires Stands(x, st) && Enabled(st, Signal(c, s)) && !MustWake(st.sems[s])
    ensures s in x.cells
    ensures Stands(x.(cells := x.cells[s := x.cells[s].(value := x.cells[s].value + 1)]), Step(st, Signal(c, s)))
  {
    StepKeeps(st, Signal(c, s));
    var st' := PostStep(st, c, st.pc[c].t, s);
    assert Step(st, Signal(c, s)) == st';
    assert CellAt(x.cells, st.sems, s);
    ShownSem(x.cur, x.cells, st, st', c, s);
    SameWaiters(x.links, st.run, st.sems, st'.sems, st.loc);
  }

  /** The writes of sem_signal when it takes `w` off the queue. */
  ghost function Popped(x: Code, c: Cpu, s: Sid, w: Tid): Code
    requires s in x.cells
  {
    x.(links := DelInit(x.links, Th(w)), cells := x.cells[s := Cell(x.cells[s].value + 1, Some(c), x.cells[s].size - 1)])
  }

  lemma {:induction false} PopMove(x: Code, st: State, c: Cpu, t: Tid, s: Sid)
    requires Rep(x, st) && Located(st.run, st.sems, st.loc) && At(st, c, Run(t))
    requires s in st.sems && s in st.history && MustWake(st.sems[s]) && st.sems[s].waiters != []
    ensures s in x.cells && Rep(Popped(x, c, s, st.sems[s].waiters[0]), PopStep(st, c, t, s, st.sems[s].waiters[0]))
  {
    var st' := PopStep(st, c, t, s, st.sems[s].waiters[0]);
    assert CellAt(x.cells, st.sems, s);
    WaitPop(x.links, st.run, st.sems, st.loc, s, st'.sems[s], InHand(c));
    ShownSem(x.cur, x.cells, st, st', c, s);
  }

  /** The popped node is that of the longest waiting thread; the queue is not empty,
      so the panic of sem_signal is not reached, and its length field stays right. */
  lemma {:induction false} PopRep(x: Code, st: State, c: Cpu, s: Sid)
    requires Stands(x, st) && Enabled(st, Signal(c, s)) && MustWake(st.sems[s])
    ensures s in x.cells && !Empty(x.links, WaitHead(s)) && st.sems[s].waiters != []
    ensures Next(x.links, WaitHead(s)) == Th(st.sems[s].waiters[0])
    ensures Stands(Popped(x, c, s, st.sems[s].waiters[0]), Step(st, Signal(c, s)))
  {
    StepKeeps(st, Signal(c, s));
    SemaphoreHas(st, s);
    SignalHasWaiter(st.sems[s], st.history[s]);
    InvLocated(st);
    WaitFirst(x.links, st.run, st.sems, st.loc, s);
    PopMove(x, st, c, st.pc[c].t, s);
  }

  lemma {:induction false} CreateRep(x: Code, st: State, c: Cpu, w: Tid)
    requires Stands(x, st) && Enabled(st, Create(c, w))
    ensures Stands(x, Step(st, Create(c, w))) && Self(x.links, Th(w))
  {
    StepKeeps(st, Create(c, w));
    var st' := CreateStep(st, c, st.pc[c].t, w);
    assert Step(st, Create(c, w)) == st';
    assert Loose(x.links, st.loc, w);
    MoveElsewhere(x.links, st.run, st.sems, st.loc, w, InHand(c));
    ShownMove(x.cur, x.cells, st, st', c);
  }

  lemma {:induction false} MarkRep(x: Code, st: State, c: Cpu, w: Tid)
    requires Stands(x, st) && Enabled(st, Mark(c)) && st.pc[c].w == w
    ensures Stands(x.(state := x.state[w := Runnable], load := NextLoad(st, w)), Step(st, Mark(c)))
    ensures At(Step(st, Mark(c)), c, WakeTo(st.pc[c].t, st.pc[c].via, w, Target(st, w)))
  {
    StepKeeps(st, Mark(c));
    var st' := MarkStep(st, c, st.pc[c].t, st.pc[c].via, w);
    assert Step(st, Mark(c)) == st';
    ShownMove(x.cur, x.cells, st, st', c);
  }

  function ReleasedCells(cells: map<Sid, Cell>, via: Option<Sid>): map<Sid, Cell>
  {
    if via.Some? && via.value in cells then cells[via.value := cells[via.value].(holder := None)] else cells
  }

  lemma {:induction false} DeliverMove(x: Code, st: State, c: Cpu, t: Tid, via: Option<Sid>, w: Tid, k: Cpu)
    requires Rep(x, st) && Located(st.run, st.sems, st.loc) && At(st, c, WakeLocked(t, via, w, k)) && k in st.run && k in st.added
    requires InHands(st, c, via, w)
    ensures Rep(x.(links := AddHead(x.links, Th(w), RunHead(k)), runLocks := Unlock(x.runLocks, k), cells := ReleasedCells(x.cells, via)),
                DeliverStep(st, c, t, via, w, k))
    ensures via.Some? ==> via.value in x.cells
  {
    var st' := DeliverStep(st, c, t, via, w, k);
    RunPush(x.links, st.run, st.sems, st.loc, w, k);
    SameWaiters(AddHead(x.links, Th(w), RunHead(k)), st'.run, st.sems, st'.sems, st'.loc);
    if via.Some? {
      assert CellAt(x.cells, st.sems, via.value);
      ShownSem(x.cur, x.cells, st, st', c, via.value);
    } else {
      ShownMove(x.cur, x.cells, st, st', c);
    }
  }

  lemma {:induction false} DeliverRep(x: Code, st: State, c: Cpu, t: Tid, via: Option<Sid>, w: Tid, k: Cpu)
    requires Stands(x, st) && Enabled(st, Deliver(c)) && st.pc[c] == WakeLocked(t, via, w, k)
    ensures Stands(x.(links := AddHead(x.links, Th(w), RunHead(k)), runLocks := Unlock(x.runLocks, k), cells := ReleasedCells(x.cells, via)),
                   Step(st, Deliver(c)))
    ensures via.Some? ==> via.value in x.cells
  {
    StepKeeps(st, Deliver(c));
    CpuHas(st, c);
    InvLocated(st);
    DeliverMove(x, st, c, t, via, w, k);
  }

  lemma {:induction false} TakeOwnerRep(x: Code, st: State, c: Cpu, t: Tid, s: Sid)
    requires Stands(x, st) && Enabled(st, TakeOwner(c, s)) && st.pc[c] == Run(t)
    ensures Stands(x.(owners := x.owners[s := Own(t)]), Step(st, TakeOwner(c, s)))
  {
    StepKeeps(st, TakeOwner(c, s));
    var st' := st.(owners := st.owners[s := Own(t)]);
    assert Step(st, TakeOwner(c, s)) == st';
    ShownMove(x.cur, x.cells, st, st', c);
  }

  lemma {:induction false} DropOwnerRep(x: Code, st: State, c: Cpu, s: Sid)
    requires Stands(x, st) && Enabled(st, DropOwner(c, s))
    ensures Stands(x.(owners := x.owners[s := Disown()]), Step(st, DropOwner(c, s)))
  {
    StepKeeps(st, DropOwner(c, s));
    var st' := st.(owners := st.owners[s := Disown()]);
    assert Step(st, DropOwner(c, s)) == st';
    ShownMove(x.cur, x.cells, st, st', c);
  }

  lemma {:induction false} InitRep(x: Code, cpus: set<Cpu>, affinity: map<Tid, Cpu>, threads: set<Tid>, kinds: map<Sid, (nat, bool)>)
    requires Sound(cpus, affinity, threads, kinds)
    requires x == Code(|cpus|, affinity, -1, map c | c in cpus :: if c == 0 then Some(0) else None, map[], map[],
                       map t | t in threads :: if t == 0 then Running else New, Links(map[], map[]),
                       map s | s in kinds :: Cell(kinds[s].0, None, 0), map s | s in kinds :: Owner(true, None))
    ensures Stands(x, Init(cpus, affinity, threads, kinds))
  {
    InitInv(cpus, affinity, threads, kinds);
    var st := Init(cpus, affinity, threads, kinds);
    forall c: Cpu ensures CurAt(x.cur, st.pc, c) { }
    forall s: Sid ensures CellAt(x.cells, st.sems, s) { }
    forall k: Cpu ensures RunRing(x.links, st.run, k) {
      if k in st.run { EmptyRing(Flip(x.links), RunHead(k)); }
    }
    forall s: Sid ensures WaitRing(x.links, st.sems, s) {
      if s in st.sems { EmptyRing(x.links, WaitHead(s)); }
    }
    forall t: Tid ensures Loose(x.links, st.loc, t) { }
  }

  // ----- What the listing steps do to the lists ------------------------------

  lemma {:induction false} DispatchShows(st: State, c: Cpu, t: Tid)
    requires Inv(st) && Enabled(st, Dispatch(c)) && st.pc[c] == Picked(t)
    ensures st.run[c] != [] && t == st.run[c][0] && Step(st, Dispatch(c)).run == st.run[c := st.run[c][1..]]
    ensures Step(st, Dispatch(c)).pc == st.pc[c := Fresh(t)] && Step(st, Dispatch(c)).state == st.state[t := Running]
  {
    CpuHas(st, c);
    assert Step(st, Dispatch(c)) == DispatchStep(st, c, t);
  }

  /** sem_wait takes one off the value, and a thread that has to sleep goes to the end of
      the queue. */
  lemma {:induction false} WaitShows(st: State, c: Cpu, s: Sid)
    requires Enabled(st, Wait(c, s))
    ensures var m := st.sems[s];
      Step(st, Wait(c, s)).sems == st.sems[s := Sem(m.value - 1, m.holder, if m.value <= 0 then m.waiters + [st.pc[c].t] else m.waiters)]
  {
    if MustSleep(st.sems[s]) {
      assert Step(st, Wait(c, s)) == SleepStep(st, c, st.pc[c].t, s);
    } else {
      assert Step(st, Wait(c, s)) == PassStep(st, st.pc[c].t, s);
    }
  }

  /** sem_signal adds one to the value, and takes the first thread off the queue if any
      waits. */
  lemma {:induction false} SignalShows(st: State, c: Cpu, s: Sid)
    requires Inv(st) && Enabled(st, Signal(c, s))
    ensures var m := st.sems[s];
      Step(st, Signal(c, s)).sems ==
      st.sems[s := if m.waiters != [] then Sem(m.value + 1, Some(c), m.waiters[1..]) else Sem(m.value + 1, m.holder, m.waiters)]
  {
    SemaphoreHas(st, s);
    if MustWake(st.sems[s]) {
      SignalHasWaiter(st.sems[s], st.history[s]);
      assert Step(st, Signal(c, s)) == PopStep(st, c, st.pc[c].t, s, st.sems[s].waiters[0]);
    } else {
      assert Step(st, Signal(c, s)) == PostStep(st, c, st.pc[c].t, s);
    }
  }

  lemma {:induction false} AddShows(st: State, c: Cpu, t: Tid, k: Cpu)
    requires Enabled(st, Add(c)) && st.pc[c] == AddLocked(t, k)
    ensures Step(st, Add(c)).run == st.run[k := st.run[k] + [t]] && Step(st, Add(c)).pc == st.pc[c := Leaving(t)]
  {
    assert Step(st, Add(c)) == AddStep(st, c, t, k);
  }

  lemma {:induction false} DeliverShows(st: State, c: Cpu, t: Tid, via: Option<Sid>, w: Tid, k: Cpu)
    requires Enabled(st, Deliver(c)) && st.pc[c] == WakeLocked(t, via, w, k)
    ensures Step(st, Deliver(c)).run == st.run[k := st.run[k] + [w]]
  {
    assert Step(st, Deliver(c)) == DeliverStep(st, c, t, via, w, k);
  }

  class Kernel {
    const n: nat
    const affinity: map<Tid, Cpu>
    var load: int
    var cur: map<Cpu, Option<Tid>>
    var locks: map<Tid, Cpu>
    var runLocks: map<Cpu, Cpu>
    var state: map<Tid, ThreadState>
    var links: Links<SchedNode>
    var cells: map<Sid, Cell>
    var owners: map<Sid, Owner>
    ghost var st: State

    ghost function View(): Code
      reads this
    {
      Code(n, affinity, load, cur, locks, runLocks, state, links, cells, owners)
    }

    ghost predicate Valid()
      reads this
    {
      Stands(View(), st)
    }

    /** The step that the code has done. */
    ghost method Reach(next: State)
      requires Stands(View(), next)
      modifies this`st
      ensures Valid() && st == next
    {
      st := next;
    }

    /** sched_init, sem_init and mutex_init: every list empty, every node linked to itself. */
    constructor (cpus: set<Cpu>, affinity: map<Tid, Cpu>, threads: set<Tid>, kinds: map<Sid, (nat, bool)>)
      requires Sound(cpus, affinity, threads, kinds)
      ensures Valid() && st == Init(cpus, affinity, threads, kinds)
    {
      n, this.affinity, load := |cpus|, affinity, -1;
      cur := map c | c in cpus :: if c == 0 then Some(0) else None;
      locks, runLocks, links := map[], map[], Links(map[], map[]);
      state := map t | t in threads :: if t == 0 then Running else New;
      cells := map s | s in kinds :: Cell(kinds[s].0, None, 0);
      owners := map s | s in kinds :: Owner(true, None);
      st := Init(cpus, affinity, threads, kinds);
      new;
      InitRep(View(), cpus, affinity, threads, kinds);
    }

    /** A thread that runs is on no list: its `sched` node is linked to itself, as
        `__sleep_fifo` and `add_runnable_task` need when they link it. */
    lemma {:induction false} RunningLoose(c: Cpu)
      requires Valid() && c in st.pc && st.pc[c].Run?
      ensures Self(links, Th(st.pc[c].t))
    {
      CpuHas(st, c);
      assert Loose(links, st.loc, st.pc[c].t);
    }

    // ----- scheduler ---------------------------------------------------------

    /** pick_next_task: from the tail of the list towards its head, the first RUNNABLE
        thread. */
    method PickNextTask(c: Cpu) returns (next: Option<Tid>)
      requires Valid() && c in st.run
      ensures next == PickNext(st.run[c], st.state)
    {
      assert RunRing(links, st.run, c);
      ghost var q := st.run[c];
      RingEnds(Flip(links), RunHead(c), Ths(q));
      if Empty(links, RunHead(c)) {
        return None;
      }
      var pos := Prev(links, RunHead(c));
      ghost var i := 0;
      while pos != RunHead(c)
        invariant 0 <= i <= |q| && pos == Stop(RunHead(c), Ths(q), i + 1)
        invariant PickNext(q, st.state) == PickNext(q[i..], st.state)
        decreases |q| - i
      {
        if pos.t in state && state[pos.t] == Runnable {
          return Some(pos.t);
        }
        assert ArcAt(Flip(links), RunHead(c), Ths(q), i + 1);
        assert q[i..][1..] == q[i + 1..];
        pos := Prev(links, pos);
        i := i + 1;
      }
      next := None;
    }

    /** scheduler: lock the run list and pick; unlock it again if nothing is runnable. */
    method SchedulerPick(c: Cpu) returns (next: Option<Tid>)
      requires Valid() && Enabled(st, Pick(c))
      modifies this`runLocks, this`st
      ensures Valid() && st == Step(old(st), Pick(c))
      ensures next.Some? ==> c in st.pc && st.pc[c] == Picked(next.value)
    {
      next := PickNextTask(c);
      if next.Some? {
        PickRep(View(), st, c, next.value);
        runLocks := runLocks[c := c];
        Reach(Step(st, Pick(c)));
      }
    }

    /** scheduler: lock the picked thread, unlink it, make it the CPU's thread and
        RUNNING, unlock the list and switch. */
    method SchedulerDispatch(c: Cpu, next: Tid)
      requires Valid() && Enabled(st, Dispatch(c)) && st.pc[c] == Picked(next)
      modifies this`locks, this`links, this`cur, this`state, this`runLocks, this`st
      ensures Valid() && st == Step(old(st), Dispatch(c))
      ensures c in old(st).run && old(st).run[c] != [] && next == old(st).run[c][0] && st.run == old(st).run[c := old(st).run[c][1..]]
      ensures st.pc == old(st).pc[c := Fresh(next)] && st.state == old(st).state[next := Running]
    {
      DispatchRep(View(), st, c, next);
      DispatchShows(st, c, next);
      TakeOver(c, next);
      Reach(Step(st, Dispatch(c)));
    }

    method TakeOver(c: Cpu, next: Tid)
      modifies this`locks, this`links, this`cur, this`state, this`runLocks
      ensures View() == old(View()).(locks := old(locks)[next := c], links := DelInit(old(links), Th(next)),
                                     cur := old(cur)[c := Some(next)], state := old(state)[next := Running],
                                     runLocks := Unlock(old(runLocks), c))
    {
      locks := locks[next := c];
      links := DelInit(links, Th(next));
      cur := cur[c := Some(next)];
      state := state[next := Running];
      runLocks := runLocks - {c};
    }

    /** scheduler after the switch back: no thread any more, and the lock of the thread
        that left is dropped. */
    method SchedulerResume(c: Cpu, next: Tid)
      requires Valid() && Enabled(st, Leave(c)) && st.pc[c] == Leaving(next)
      modifies this`cur, this`locks, this`st
      ensures Valid() && st == Step(old(st), Leave(c))
    {
      LeaveRep(View(), st, c, next);
      cur := cur[c := None];
      locks := locks - {next};
      Reach(Step(st, Leave(c)));
    }

    /** myproc */
    method MyProc(c: Cpu) returns (t: Tid)
      requires Valid() && c in st.pc && !st.pc[c].Scheduling? && !st.pc[c].Picked?
      ensures t == st.pc[c].t
    {
      assert CurAt(cur, st.pc, c);
      t := cur[c].value;
    }

    /** sched after the switch (or the entry of a new thread): drop one's own lock. */
    method SchedReturn(c: Cpu)
      requires Valid() && Enabled(st, Enter(c))
      modifies this`locks, this`st
      ensures Valid() && st == Step(old(st), Enter(c))
    {
      var thread := MyProc(c);
      EnterRep(View(), st, c, thread);
      locks := locks - {thread};
      Reach(Step(st, Enter(c)));
    }

    // ----- add_runnable_task -------------------------------------------------

    /** The balancer: a pinned thread goes to its CPU; the others go to the CPUs in turn,
        so that n of them in a row reach every CPU once (RoundRobin). */
    method ChooseCpu(t: Tid) returns (k: Cpu)
      requires Valid()
      modifies this`load
      ensures 0 <= k < n && load == NextLoad(st, t) && k == Target(st, t)
      ensures t !in affinity ==> k == load == if old(load) + 1 < n then old(load) + 1 else 0
      ensures t in affinity ==> k == affinity[t] && load == old(load)
      ensures t !in affinity ==> k == Choice(old(load), n, 0) && forall i: nat :: Choice(load, n, i) == Choice(old(load), n, i + 1)
    {
      TargetOk(st, t);
      Wrap(load + 1, n);
      if t !in affinity {
        load := (load + 1) % n;
        k := load;
      } else {
        k := affinity[t];
      }
    }

    /** RUNNABLE, and the choice of a CPU. */
    method MakeRunnable(t: Tid) returns (k: Cpu)
      requires Valid()
      modifies this`state, this`load
      ensures k == Target(st, t) && View() == old(View()).(state := old(state)[t := Runnable], load := NextLoad(st, t))
      ensures k == if t in affinity then affinity[t] else if old(load) + 1 < n then old(load) + 1 else 0
    {
      k := ChooseCpu(t);
      state := state[t := Runnable];
    }

    /** yield, up to the choice of a CPU. */
    method YieldStart(c: Cpu) returns (thread: Tid, k: Cpu)
      requires Valid() && Enabled(st, Yield(c))
      modifies this`state, this`load, this`st
      ensures Valid() && st == Step(old(st), Yield(c)) && c in st.pc && st.pc[c] == Adding(thread, k) && thread == old(st).pc[c].t
      ensures k == if thread in affinity then affinity[thread] else if old(load) + 1 < n then old(load) + 1 else 0
    {
      thread := MyProc(c);
      YieldRep(View(), st, c, thread);
      k := MakeRunnable(thread);
      Reach(Step(st, Yield(c)));
    }

    /** add_runnable_task locks the chosen list. */
    method LockChosenList(c: Cpu, k: Cpu)
      requires Valid() && Enabled(st, LockList(c)) && st.pc[c].k == k
      modifies this`runLocks, this`st
      ensures Valid() && st == Step(old(st), LockList(c))
    {
      LockRep(View(), st, c, k);
      runLocks := runLocks[k := c];
      Reach(Step(st, LockList(c)));
    }

    /** yield: list the thread at the head of the chosen list, keep its lock and switch. */
    method YieldFinish(c: Cpu, thread: Tid, k: Cpu)
      requires Valid() && Enabled(st, Add(c)) && st.pc[c] == AddLocked(thread, k)
      modifies this`locks, this`links, this`runLocks, this`st
      ensures Valid() && st == Step(old(st), Add(c))
      ensures k in old(st).run && st.run == old(st).run[k := old(st).run[k] + [thread]] && st.pc == old(st).pc[c := Leaving(thread)]
    {
      AddRep(View(), st, c, thread, k);
      AddShows(st, c, thread, k);
      ListSelf(c, thread, k);
      Reach(Step(st, Add(c)));
    }

    method ListSelf(c: Cpu, thread: Tid, k: Cpu)
      modifies this`locks, this`links, this`runLocks
      ensures View() == old(View()).(locks := old(locks)[thread := c], links := AddHead(old(links), Th(thread), RunHead(k)),
                                     runLocks := Unlock(old(runLocks), k))
    {
      locks := locks[thread := c];
      links := AddHead(links, Th(thread), RunHead(k));
      runLocks := runLocks - {k};
    }

    // ----- semaphores --------------------------------------------------------

    /** sem_wait, up to its return or the switch; `slept` says which. */
    method SemWait(c: Cpu, s: Sid) returns (slept: bool)
      requires Valid() && Enabled(st, Wait(c, s))
      modifies this`cells, this`locks, this`state, this`links, this`st
      ensures Valid() && st == Step(old(st), Wait(c, s)) && (slept <==> old(st.sems)[s].value <= 0)
      ensures var m := old(st.sems)[s];
        st.sems == old(st.sems)[s := Sem(m.value - 1, m.holder, if slept then m.waiters + [old(st).pc[c].t] else m.waiters)]
    {
      WaitShows(st, c, s);
      assert CellAt(cells, st.sems, s);
      slept := cells[s].value - 1 < 0;
      if slept {
        var thread := MyProc(c);
        WaitSleeping(c, thread, s);
      } else {
        WaitPassing(c, s);
      }
    }

    method WaitPassing(c: Cpu, s: Sid)
      requires Valid() && Enabled(st, Wait(c, s)) && !MustSleep(st.sems[s])
      modifies this`cells, this`st
      ensures Valid() && st == Step(old(st), Wait(c, s))
    {
      PassRep(View(), st, c, s);
      cells := cells[s := cells[s].(value := cells[s].value - 1)];
      Reach(Step(st, Wait(c, s)));
    }

    method WaitSleeping(c: Cpu, thread: Tid, s: Sid)
      requires Valid() && Enabled(st, Wait(c, s)) && MustSleep(st.sems[s]) && st.pc[c] == Run(thread)
      modifies this`cells, this`locks, this`state, this`links, this`st
      ensures Valid() && st == Step(old(st), Wait(c, s))
    {
      SleepRep(View(), st, c, thread, s);
      GoToSleep(c, thread, s);
      Reach(Step(st, Wait(c, s)));
    }

    method GoToSleep(c: Cpu, thread: Tid, s: Sid)
      requires s in cells
      modifies this`cells, this`locks, this`state, this`links
      ensures View() == Asleep(old(View()), c, thread, s)
    {
      locks := locks[thread := c];
      state := state[thread := Sleeping];
      links := AddTail(links, Th(thread), WaitHead(s));
      cells := cells[s := cells[s].(value := cells[s].value - 1, size := cells[s].size + 1)];
    }

    /** sem_signal, up to its return or to wakeup_process of the popped thread; the
        branch that panics on an empty queue cannot be taken. */
    method SemSignal(c: Cpu, s: Sid) returns (waiter: Option<Tid>)
      requires Valid() && Enabled(st, Signal(c, s))
      modifies this`cells, this`links, this`st
      ensures Valid() && st == Step(old(st), Signal(c, s))
      ensures waiter.Some? <==> old(st.sems)[s].waiters != []
      ensures waiter.Some? ==> waiter.value == old(st.sems)[s].waiters[0]
      ensures var m := old(st.sems)[s];
        st.sems == old(st.sems)[s := if m.waiters != [] then Sem(m.value + 1, Some(c), m.waiters[1..]) else Sem(m.value + 1, m.holder, [])]
    {
      SignalShows(st, c, s);
      SemaphoreHas(st, s);
      assert CellAt(cells, st.sems, s);
      if cells[s].value + 1 <= 0 {
        var w := SignalWaking(c, s);
        waiter := Some(w);
      } else {
        SignalPassing(c, s);
        waiter := None;
      }
    }

    method SignalWaking(c: Cpu, s: Sid) returns (w: Tid)
      requires Valid() && Enabled(st, Signal(c, s)) && MustWake(st.sems[s])
      modifies this`cells, this`links, this`st
      ensures Valid() && st == Step(old(st), Signal(c, s))
      ensures old(st.sems)[s].waiters != [] && w == old(st.sems)[s].waiters[0]
    {
      PopRep(View(), st, c, s);
      w := PopWaiter(c, s);
      Reach(Step(st, Signal(c, s)));
    }

    method SignalPassing(c: Cpu, s: Sid)
      requires Valid() && Enabled(st, Signal(c, s)) && !MustWake(st.sems[s])
      modifies this`cells, this`st
      ensures Valid() && st == Step(old(st), Signal(c, s))
    {
      PostRep(View(), st, c, s);
      cells := cells[s := cells[s].(value := cells[s].value + 1)];
      Reach(Step(st, Signal(c, s)));
    }

    /** fifo_pop under the semaphore's lock. */
    method PopWaiter(c: Cpu, s: Sid) returns (w: Tid)
      requires s in cells && !Empty(links, WaitHead(s)) && Next(links, WaitHead(s)).Item?
      modifies this`cells, this`links
      ensures Th(w) == Next(old(links), WaitHead(s))
      ensures View() == Popped(old(View()), c, s, w)
    {
      var node := Next(links, WaitHead(s));
      links := DelInit(links, node);
      cells := cells[s := Cell(cells[s].value + 1, Some(c), cells[s].size - 1)];
      w := node.t;
    }

    // ----- wakeup_process ----------------------------------------------------

    /** kthread_create, up to wakeup_process. */
    method KthreadCreate(c: Cpu, w: Tid)
      requires Valid() && Enabled(st, Create(c, w))
      modifies this`st
      ensures Valid() && st == Step(old(st), Create(c, w)) && Self(links, Th(w))
      ensures st.pc == old(st).pc[c := Waking(old(st).pc[c].t, None, w)] && st.loc == old(st).loc[w := InHand(c)]
    {
      CreateRep(View(), st, c, w);
      assert Step(st, Create(c, w)) == CreateStep(st, c, st.pc[c].t, w);
      Reach(Step(st, Create(c, w)));
    }

    /** wakeup_process: RUNNABLE under the thread's lock, then the choice of a CPU. */
    method WakeupMark(c: Cpu, w: Tid) returns (k: Cpu)
      requires Valid() && Enabled(st, Mark(c)) && st.pc[c].w == w
      modifies this`state, this`load, this`st
      ensures Valid() && st == Step(old(st), Mark(c)) && c in st.pc && st.pc[c].WakeTo? && st.pc[c].k == k && st.pc[c].w == w
      ensures k == if w in affinity then affinity[w] else if old(load) + 1 < n then old(load) + 1 else 0
    {
      MarkRep(View(), st, c, w);
      k := MakeRunnable(w);
      Reach(Step(st, Mark(c)));
    }

    /** wakeup_process: list the thread and release everything, the semaphore last. */
    method WakeupDeliver(c: Cpu, w: Tid, k: Cpu, via: Option<Sid>)
      requires Valid() && Enabled(st, Deliver(c)) && st.pc[c] == WakeLocked(st.pc[c].t, via, w, k)
      modifies this`links, this`runLocks, this`cells, this`st
      ensures Valid() && st == Step(old(st), Deliver(c))
      ensures k in old(st).run && st.run == old(st).run[k := old(st).run[k] + [w]]
    {
      DeliverRep(View(), st, c, st.pc[c].t, via, w, k);
      DeliverShows(st, c, st.pc[c].t, via, w, k);
      ListWoken(w, k, via);
      Reach(Step(st, Deliver(c)));
    }

    method ListWoken(w: Tid, k: Cpu, via: Option<Sid>)
      requires via.Some? ==> via.value in cells
      modifies this`links, this`runLocks, this`cells
      ensures View() == old(View()).(links := AddHead(old(links), Th(w), RunHead(k)), runLocks := Unlock(old(runLocks), k),
                                     cells := ReleasedCells(old(cells), via))
    {
      links := AddHead(links, Th(w), RunHead(k));
      runLocks := runLocks - {k};
      if via.Some? {
        cells := cells[via.value := cells[via.value].(holder := None)];
      }
    }

    // ----- mutex -------------------------------------------------------------

    /** mutex_lock after sem_wait has returned, having slept or not: the thread holds the
        mutex. */
    method MutexLocked(c: Cpu, s: Sid)
      requires Valid() && Enabled(st, TakeOwner(c, s))
      modifies this`owners, this`st
      ensures Valid() && st == Step(old(st), TakeOwner(c, s)) && owners == old(owners)[s := Owner(true, Some(old(st.pc[c].t)))]
      ensures old(st.pc[c].t) in old(st.history[s].holding)
    {
      var thread := MyProc(c);
      ClaimHeld(st, c, thread, s);
      TakeOwnerRep(View(), st, c, thread, s);
      owners := owners[s := Owner(true, Some(thread))];
      Reach(Step(st, TakeOwner(c, s)));
    }

    /** mutex_unlock before sem_signal, by a thread that locked the mutex and so holds it. */
    method MutexUnlocking(c: Cpu, s: Sid)
      requires Valid() && Enabled(st, DropOwner(c, s))
      modifies this`owners, this`st
      ensures Valid() && st == Step(old(st), DropOwner(c, s)) && owners == old(owners)[s := Owner(false, None)]
      ensures old(st.pc[c].t) in old(st.history[s].holding)
    {
      ClaimHeld(st, c, st.pc[c].t, s);
      DropOwnerRep(View(), st, c, s);
      owners := owners[s := Owner(false, None)];
      Reach(Step(st, DropOwner(c, s)));
    }

    /** mutex_is_hold: true only for a thread that holds the mutex, and exactly from
        MutexLocked to MutexUnlocking of that thread (HoldExactly). */
    method MutexIsHold(c: Cpu, s: Sid) returns (r: bool)
      requires Valid() && c in st.pc && st.pc[c].Run? && s in owners && s in st.history && st.history[s].mutex
      ensures s in st.owners && (r <==> st.owners[s].locked && st.owners[s].thread == Some(st.pc[c].t))
      ensures r ==> st.pc[c].t in st.history[s].holding
    {
      SemaphoreHas(st, s);
      var thread := MyProc(c);
      r := owners[s].locked && owners[s].thread == Some(thread);
    }
  }
}
