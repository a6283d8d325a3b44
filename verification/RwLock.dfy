// The blocking readers-writer lock (kernel/locks/rwlock.c) as a step protocol
// over any number of threads. Each step is one section under `rw->lock`; the
// priority is fixed at init.
module RwLock {
  import opened Queues

  type Tid = nat

  /** Where a thread stands with respect to the lock. */
  datatype Pc =
    | Idle
    | AsleepReader   // on readers_fifo
    | Retrying       // woken reader that has not re-checked yet
    | Reading
    | AsleepWriter   // on writers_fifo
    | Granted        // woken writer that has not run yet
    | Writing

  /** `rwlock_t` and the threads that use it. `prior` is RW_PRIOR: writers first. */
  datatype State = State(
    prior: bool, writing: bool, rCnt: int, readers: seq<Tid>, writers: seq<Tid>, pc: map<Tid, Pc>)

  datatype Op = ReadLock(t: Tid) | ReadUnlock(t: Tid) | WriteLock(t: Tid) | WriteResume(t: Tid) | WriteUnlock(t: Tid)

  predicate Enabled(s: State, op: Op)
  {
    op.t in s.pc &&
    match op
    case ReadLock(t) => s.pc[t].Idle? || s.pc[t].Retrying?
    case ReadUnlock(t) => s.pc[t].Reading?
    case WriteLock(t) => s.pc[t].Idle?
    case WriteResume(t) => s.pc[t].Granted?
    case WriteUnlock(t) => s.pc[t].Writing?
  }

  function WakeReader(s: State): State
  {
    if s.readers == [] then s
    else s.(readers := s.readers[1..], pc := s.pc[s.readers[0] := Retrying])
  }

  function WakeWriter(s: State): State
  {
    if s.writers == [] then s
    else s.(writing := true, writers := s.writers[1..], pc := s.pc[s.writers[0] := Granted])
  }

  function Step(s: State, op: Op): State
    requires Enabled(s, op)
  {
    match op
    case ReadLock(t) =>
      if s.writing || (s.prior && s.writers != []) then
        s.(readers := s.readers + [t], pc := s.pc[t := AsleepReader])
      else
        var s' := WakeReader(s);
        s'.(rCnt := s'.rCnt + 1, pc := s'.pc[t := Reading])
    case ReadUnlock(t) =>
      var s' := s.(rCnt := s.rCnt - 1, pc := s.pc[t := Idle]);
      if s'.rCnt == 0 then WakeWriter(s') else s'
    case WriteLock(t) =>
      if s.rCnt != 0 || s.writing then s.(writers := s.writers + [t], pc := s.pc[t := AsleepWriter])
      else s.(writing := true, pc := s.pc[t := Writing])
    case WriteResume(t) => s.(writing := true, pc := s.pc[t := Writing])
    case WriteUnlock(t) =>
      var s' := s.(writing := false, pc := s.pc[t := Idle]);
      if (!s.prior && s.readers != []) || (s.prior && s.writers == []) then WakeReader(s') else WakeWriter(s')
  }

  function Init(prior: bool, threads: set<Tid>): State
  {
    State(prior, false, 0, [], [], map t | t in threads :: Idle)
  }

  // ----- invariant -----

  ghost function At(pc: map<Tid, Pc>, p: Pc): set<Tid> { set t | t in pc && pc[t] == p }

  /** How many threads stand at `p`. */
  ghost function Count(pc: map<Tid, Pc>, p: Pc): nat { |At(pc, p)| }

  /** Exclusion: the flag marks exactly one active or granted writer, and then
      nobody reads; r_cnt counts the readers. */
  ghost predicate Exclusive(s: State)
  {
    && s.rCnt == Count(s.pc, Reading)
    && (s.writing ==> s.rCnt == 0)
    && Count(s.pc, Granted) + Count(s.pc, Writing) == if s.writing then 1 else 0
  }

  /** No wakeup is lost: a sleeper has someone who will wake it. */
  ghost predicate Attended(s: State)
  {
    && (s.readers != [] && !s.writing ==> Count(s.pc, Retrying) > 0 || (s.prior && s.writers != [] && s.rCnt > 0))
    && (s.writers != [] && !s.writing && s.rCnt == 0 ==> Count(s.pc, Retrying) > 0 && !s.prior)
  }

  ghost predicate Inv(s: State)
  {
    Queued(s.readers, s.pc, AsleepReader) && Queued(s.writers, s.pc, AsleepWriter) && Exclusive(s) && Attended(s)
  }

  // ----- moving one thread -----

  lemma {:induction false} AtTo(pc: map<Tid, Pc>, t: Tid, to: Pc)
    requires t in pc && pc[t] != to
    ensures Count(pc[t := to], to) == Count(pc, to) + 1
  {
    assert At(pc[t := to], to) == At(pc, to) + {t};
  }

  lemma {:induction false} AtFrom(pc: map<Tid, Pc>, t: Tid, to: Pc)
    requires t in pc && pc[t] != to
    ensures Count(pc[t := to], pc[t]) == Count(pc, pc[t]) - 1
  {
    assert At(pc, pc[t]) == At(pc[t := to], pc[t]) + {t};
  }

  lemma {:induction false} CountMoved(pc: map<Tid, Pc>, t: Tid, to: Pc, p: Pc)
    requires t in pc && pc[t] != to
    ensures Count(pc[t := to], p) == Count(pc, p) + (if p == to then 1 else if p == pc[t] then -1 else 0)
  {
    if p == to {
      AtTo(pc, t, to);
    } else if p == pc[t] {
      AtFrom(pc, t, to);
    } else {
      assert At(pc[t := to], p) == At(pc, p);
    }
  }

  /** The counts that exclusion and attendance speak of. */
  lemma {:induction false} Moved(pc: map<Tid, Pc>, t: Tid, to: Pc)
    requires t in pc && pc[t] != to
    ensures forall p :: p == Retrying || p == Reading || p == Granted || p == Writing ==>
      Count(pc[t := to], p) == Count(pc, p) + (if p == to then 1 else if p == pc[t] then -1 else 0)
  {
    CountMoved(pc, t, to, Retrying);
    CountMoved(pc, t, to, Reading);
    CountMoved(pc, t, to, Granted);
    CountMoved(pc, t, to, Writing);
  }

  // ----- each step keeps the invariant -----

  lemma {:induction false} ReadLockKeeps(s: State, t: Tid)
    requires Inv(s) && Enabled(s, ReadLock(t))
    ensures Inv(Step(s, ReadLock(t)))
  {
    if s.writing || (s.prior && s.writers != []) {
      Moved(s.pc, t, AsleepReader);
      QueuedPush(s.readers, s.pc, AsleepReader, t);
      QueuedElse(s.writers, s.pc, AsleepWriter, t, AsleepReader);
    } else {
      var m := WakeReader(s);
      if s.readers != [] {
        var r := s.readers[0];
        QueuedPop(s.readers, s.pc, AsleepReader, Retrying);
        Moved(s.pc, r, Retrying);
        QueuedElse(s.writers, s.pc, AsleepWriter, r, Retrying);
      }
      Moved(m.pc, t, Reading);
      QueuedElse(m.readers, m.pc, AsleepReader, t, Reading);
      QueuedElse(m.writers, m.pc, AsleepWriter, t, Reading);
    }
  }

  lemma {:induction false} WakeWriterKeeps(m: State)
    requires Queued(m.readers, m.pc, AsleepReader) && Queued(m.writers, m.pc, AsleepWriter)
    requires m.writers != [] && !m.writing && Exclusive(m) && m.rCnt == 0
    ensures Inv(WakeWriter(m))
  {
    var w := m.writers[0];
    QueuedPop(m.writers, m.pc, AsleepWriter, Granted);
    Moved(m.pc, w, Granted);
    QueuedElse(m.readers, m.pc, AsleepReader, w, Granted);
  }

  lemma {:induction false} ReadUnlockKeeps(s: State, t: Tid)
    requires Inv(s) && Enabled(s, ReadUnlock(t))
    ensures Inv(Step(s, ReadUnlock(t)))
  {
    var m := s.(rCnt := s.rCnt - 1, pc := s.pc[t := Idle]);
    Moved(s.pc, t, Idle);
    QueuedElse(s.readers, s.pc, AsleepReader, t, Idle);
    QueuedElse(s.writers, s.pc, AsleepWriter, t, Idle);
    assert t in At(s.pc, Reading);
    if m.rCnt == 0 && m.writers != [] { WakeWriterKeeps(m); }
  }

  lemma {:induction false} WriteLockKeeps(s: State, t: Tid)
    requires Inv(s) && Enabled(s, WriteLock(t))
    ensures Inv(Step(s, WriteLock(t)))
  {
    var to := if s.rCnt != 0 || s.writing then AsleepWriter else Writing;
    Moved(s.pc, t, to);
    QueuedElse(s.readers, s.pc, AsleepReader, t, to);
    if to == AsleepWriter {
      QueuedPush(s.writers, s.pc, AsleepWriter, t);
    } else {
      QueuedElse(s.writers, s.pc, AsleepWriter, t, to);
    }
  }

  lemma {:induction false} WriteResumeKeeps(s: State, t: Tid)
    requires Inv(s) && Enabled(s, WriteResume(t))
    ensures Inv(Step(s, WriteResume(t)))
  {
    assert t in At(s.pc, Granted);
    Moved(s.pc, t, Writing);
    QueuedElse(s.readers, s.pc, AsleepReader, t, Writing);
    QueuedElse(s.writers, s.pc, AsleepWriter, t, Writing);
  }

  lemma {:induction false} WriteUnlockKeeps(s: State, t: Tid)
    requires Inv(s) && Enabled(s, WriteUnlock(t))
    ensures Inv(Step(s, WriteUnlock(t)))
  {
    var m := s.(writing := false, pc := s.pc[t := Idle]);
    assert t in At(s.pc, Writing);
    Moved(s.pc, t, Idle);
    QueuedElse(s.readers, s.pc, AsleepReader, t, Idle);
    QueuedElse(s.writers, s.pc, AsleepWriter, t, Idle);
    if (!s.prior && s.readers != []) || (s.prior && s.writers == []) {
      if s.readers != [] {
        var r := m.readers[0];
        QueuedPop(m.readers, m.pc, AsleepReader, Retrying);
        Moved(m.pc, r, Retrying);
        QueuedElse(m.writers, m.pc, AsleepWriter, r, Retrying);
        assert Count(m.pc[r := Retrying], Retrying) == Count(m.pc, Retrying) + 1;
      }
    } else if s.writers != [] {
      WakeWriterKeeps(m);
    }
  }

  lemma {:induction false} StepKeeps(s: State, op: Op)
    requires Inv(s) && Enabled(s, op)
    ensures Inv(Step(s, op)) && Step(s, op).prior == s.prior && Step(s, op).pc.Keys == s.pc.Keys
  {
    assert s.readers != [] ==> Member(s.readers, s.pc, AsleepReader, s.readers[0]);
    assert s.writers != [] ==> Member(s.writers, s.pc, AsleepWriter, s.writers[0]);
    match op
    case ReadLock(t) => ReadLockKeeps(s, t);
    case ReadUnlock(t) => ReadUnlockKeeps(s, t);
    case WriteLock(t) => WriteLockKeeps(s, t);
    case WriteResume(t) => WriteResumeKeeps(s, t);
    case WriteUnlock(t) => WriteUnlockKeeps(s, t);
  }

  // ----- who gets the lock -----

  ghost predicate AnyAt(s: State, p: Pc) { exists u :: u in s.pc && s.pc[u] == p }

  lemma {:induction false} AnyCounted(s: State, p: Pc)
    ensures AnyAt(s, p) <==> Count(s.pc, p) > 0
  {
    if u :| u in s.pc && s.pc[u] == p { CountedIn(s.pc, u, p); }
    if Count(s.pc, p) > 0 {
      var u :| u in At(s.pc, p);
      assert u in s.pc && s.pc[u] == p;
    }
  }

  lemma {:induction false} AnyQueued(s: State, q: seq<Tid>, p: Pc)
    requires Queued(q, s.pc, p)
    ensures AnyAt(s, p) <==> q != []
  {
    if q != [] { assert Member(q, s.pc, p, q[0]); }
    if u :| u in s.pc && s.pc[u] == p { assert Member(q, s.pc, p, u); }
  }

  /** The fields of the lock say who uses it and who waits. */
  lemma {:induction false} FieldsTell(s: State)
    requires Inv(s)
    ensures s.writing <==> AnyAt(s, Writing) || AnyAt(s, Granted)
    ensures s.rCnt != 0 <==> AnyAt(s, Reading)
    ensures s.readers != [] <==> AnyAt(s, AsleepReader)
    ensures s.writers != [] <==> AnyAt(s, AsleepWriter)
  {
    AnyCounted(s, Writing);
    AnyCounted(s, Granted);
    AnyCounted(s, Reading);
    AnyQueued(s, s.readers, AsleepReader);
    AnyQueued(s, s.writers, AsleepWriter);
  }

  /** read_lock: a reader sleeps if and only if a writer has the lock, or writers come
      first and one waits; it queues behind those that wait. Otherwise it reads, and the
      longest waiting reader is woken. */
  lemma {:induction false} ReadPolicy(s: State, t: Tid)
    requires Inv(s) && Enabled(s, ReadLock(t))
    ensures var s' := Step(s, ReadLock(t));
      && s'.writers == s.writers && s'.writing == s.writing
      && if AnyAt(s, Writing) || AnyAt(s, Granted) || (s.prior && AnyAt(s, AsleepWriter))
         then s'.pc == s.pc[t := AsleepReader] && s'.readers == s.readers + [t] && s'.rCnt == s.rCnt
         else if s.readers == [] then s'.pc == s.pc[t := Reading] && s'.readers == [] && s'.rCnt == s.rCnt + 1
         else s'.pc == s.pc[s.readers[0] := Retrying][t := Reading] && s'.readers == s.readers[1..] && s'.rCnt == s.rCnt + 1
  {
    FieldsTell(s);
  }

  /** read_unlock: the last reader grants the lock to the longest waiting writer; nobody
      else is woken. */
  lemma {:induction false} ReadUnlockPolicy(s: State, t: Tid)
    requires Inv(s) && Enabled(s, ReadUnlock(t))
    ensures var s' := Step(s, ReadUnlock(t));
      && s'.readers == s.readers && s'.rCnt == s.rCnt - 1
      && if (forall u :: u in s.pc && u != t ==> s.pc[u] != Reading) && s.writers != []
         then s'.pc == s.pc[t := Idle][s.writers[0] := Granted] && s'.writers == s.writers[1..] && s'.writing
         else s'.pc == s.pc[t := Idle] && s'.writers == s.writers && s'.writing == s.writing
  {
    var m := s.(rCnt := s.rCnt - 1, pc := s.pc[t := Idle]);
    Moved(s.pc, t, Idle);
    AnyCounted(m, Reading);
    if u :| u in s.pc && u != t && s.pc[u] == Reading { assert m.pc[u] == Reading; }
    if u :| u in m.pc && m.pc[u] == Reading { assert u != t && s.pc[u] == Reading; }
  }

  /** write_lock: a writer sleeps, behind those that wait, if and only if anyone has the
      lock. */
  lemma {:induction false} WritePolicy(s: State, t: Tid)
    requires Inv(s) && Enabled(s, WriteLock(t))
    ensures var s' := Step(s, WriteLock(t));
      && s'.readers == s.readers && s'.rCnt == s.rCnt
      && if AnyAt(s, Reading) || AnyAt(s, Writing) || AnyAt(s, Granted)
         then s'.pc == s.pc[t := AsleepWriter] && s'.writers == s.writers + [t] && s'.writing == s.writing
         else s'.pc == s.pc[t := Writing] && s'.writers == s.writers && s'.writing
  {
    FieldsTell(s);
  }

  /** write_unlock: with readers first the longest waiting reader is woken if there is
      one, with writers first the longest waiting writer is granted the lock if there is
      one; else the other side's longest waiting thread; and nobody else. */
  lemma {:induction false} WriteUnlockPolicy(s: State, t: Tid)
    requires Inv(s) && Enabled(s, WriteUnlock(t))
    ensures var s' := Step(s, WriteUnlock(t));
      && s'.rCnt == s.rCnt
      && if AnyAt(s, AsleepReader) && (!s.prior || !AnyAt(s, AsleepWriter))
         then s.readers != [] && s'.pc == s.pc[t := Idle][s.readers[0] := Retrying] && s'.readers == s.readers[1..] && s'.writers == s.writers && !s'.writing
         else if AnyAt(s, AsleepWriter)
         then s.writers != [] && s'.pc == s.pc[t := Idle][s.writers[0] := Granted]
           && s'.readers == s.readers && s'.writers == s.writers[1..] && s'.writing
         else s'.pc == s.pc[t := Idle] && s'.readers == [] && s'.writers == [] && !s'.writing
  {
    FieldsTell(s);
  }

  /** With writers first, no reader gets in while a writer waits. */
  lemma {:induction false} WritersFirst(s: State, op: Op, t: Tid)
    requires Inv(s) && Enabled(s, op) && s.prior && s.writers != [] && t in s.pc && s.pc[t] != Reading
    ensures t in Step(s, op).pc && Step(s, op).pc[t] != Reading
  {
    assert Member(s.writers, s.pc, AsleepWriter, s.writers[0]);
    if s.readers != [] { assert Member(s.readers, s.pc, AsleepReader, s.readers[0]); }
  }

  // ----- whole runs -----

  /** The state after `ops`, or nothing if some step is not enabled. */
  ghost predicate Reaches(s: State, ops: seq<Op>, s': State)
    decreases |ops|
  {
    if ops == [] then s' == s else Enabled(s, ops[0]) && Reaches(Step(s, ops[0]), ops[1..], s')
  }

  lemma {:induction false} RunKeeps(s: State, ops: seq<Op>, s': State)
    requires Inv(s) && Reaches(s, ops, s')
    ensures Inv(s') && s'.prior == s.prior && s'.pc.Keys == s.pc.Keys
    decreases |ops|
  {
    if ops != [] {
      StepKeeps(s, ops[0]);
      RunKeeps(Step(s, ops[0]), ops[1..], s');
    }
  }

  lemma {:induction false} InitInv(prior: bool, threads: set<Tid>)
    ensures Inv(Init(prior, threads))
  {
    var s := Init(prior, threads);
    forall p: Pc | p != Idle ensures At(s.pc, p) == {} {
    }
  }

  /** In every reachable state: a thread that writes or was granted the lock is the
      only one, nobody reads beside it, and the flag and the count say so. */
  lemma {:induction false} MutualExclusion(prior: bool, threads: set<Tid>, ops: seq<Op>, s: State, t: Tid, u: Tid)
    requires Reaches(Init(prior, threads), ops, s) && t in s.pc && u in s.pc && t != u
    ensures Exclusive(s)
    ensures s.pc[t].Writing? || s.pc[t].Granted? ==>
              !s.pc[u].Writing? && !s.pc[u].Granted? && !s.pc[u].Reading? && s.writing && s.rCnt == 0
  {
    InitInv(prior, threads);
    RunKeeps(Init(prior, threads), ops, s);
    CountedIn(s.pc, t, s.pc[t]);
    CountedIn(s.pc, u, s.pc[u]);
    if s.pc[u] == s.pc[t] { SubsetSize({t, u}, At(s.pc, s.pc[t])); }
  }

  lemma {:induction false} CountedIn(pc: map<Tid, Pc>, t: Tid, p: Pc)
    requires t in pc && pc[t] == p
    ensures Count(pc, p) > 0
  {
    assert t in At(pc, p);
  }

  /** In every reachable state with nobody holding the lock, either both queues
      are empty or a woken reader has yet to retry. */
  lemma {:induction false} NoLostWakeup(prior: bool, threads: set<Tid>, ops: seq<Op>, s: State)
    requires Reaches(Init(prior, threads), ops, s) && !s.writing && s.rCnt == 0
    ensures (s.readers == [] && s.writers == []) || exists t :: t in s.pc && s.pc[t].Retrying?
  {
    InitInv(prior, threads);
    RunKeeps(Init(prior, threads), ops, s);
    if s.readers != [] || s.writers != [] {
      var t :| t in At(s.pc, Retrying);
    }
  }

  /** No deadlock: if every thread is idle or asleep, every thread is idle. */
  lemma {:induction false} NoDeadlock(prior: bool, threads: set<Tid>, ops: seq<Op>, s: State)
    requires Reaches(Init(prior, threads), ops, s)
    requires forall t :: t in s.pc ==> s.pc[t].Idle? || s.pc[t].AsleepReader? || s.pc[t].AsleepWriter?
    ensures forall t :: t in s.pc ==> s.pc[t].Idle?
  {
    InitInv(prior, threads);
    RunKeeps(Init(prior, threads), ops, s);
    assert At(s.pc, Reading) == {} && At(s.pc, Granted) == {} && At(s.pc, Writing) == {};
    NoLostWakeup(prior, threads, ops, s);
    forall t | t in s.pc ensures s.pc[t].Idle? {
      assert Member(s.readers, s.pc, AsleepReader, t) && Member(s.writers, s.pc, AsleepWriter, t);
    }
  }
}
