/**
 Semaphores and scheduler together: in every run the queues and the process table agree.
 A kill may be interrupted by a wait of the killer, so its first and its last part are calls
 of their own. Steps left out: waking a semaphore waiter by its number, removing one from the
 process table while it is queued, and a wait of init that cannot pass.
 */
module Agreement {
  import opened KernelModel
  import opened SchedulerTheorems
  import opened Fairness
  import opened Kinship
  import opened WaitQueue
  import opened SemaphoreModel

  const MAX_SEMAPHORES := 256

  /** The semaphore table by name; no two entries share a name. */
  datatype Kernel = Kernel(sched: Sched, sems: map<string, Sem>)

  datatype Call =
    | Sys(event: Event)
    | Open(name: string, initial: int, memory: bool)
    | Close(name: string)
    | WaitOn(name: string)
    | PostTo(name: string)
    | Clean(pid: int)
    | Remove(pid: int)

  predicate QueuedIn(k: Kernel, name: string, pid: int) {
    name in k.sems && pid in k.sems[name].queue
  }

  ghost predicate QueuedAnywhere(k: Kernel, pid: int) {
    exists name :: QueuedIn(k, name, pid)
  }

  function DropFromAll(sems: map<string, Sem>, pid: int): map<string, Sem> {
    map name | name in sems :: Drop(sems[name], pid)
  }

  function Perform(k: Kernel, c: Call): (t: Kernel)
    requires Sized(k.sched)
    ensures Sized(t.sched)
  {
    match c
    case Sys(e) =>
      Kernel(Step(k.sched, e),
             if e.KillCall? && Exists(k.sched, k.sched.current) && Killable(k.sched, e.pid)
             then DropFromAll(k.sems, e.pid) else k.sems)
    case Open(name, initial, memory) =>
      if |k.sems| >= MAX_SEMAPHORES then k
      else if name in k.sems then k.(sems := k.sems[name := k.sems[name].(users := k.sems[name].users + 1)])
      else if memory then k.(sems := k.sems[name := Sem(initial, 1, [])])
      else k
    case Close(name) =>
      if name !in k.sems then k
      else if k.sems[name].users > 1 then k.(sems := k.sems[name := k.sems[name].(users := k.sems[name].users - 1)])
      else k.(sems := k.sems - {name})
    case WaitOn(name) =>
      if name !in k.sems then k
      else var (s, sem) := SemWait(k.sched, k.sems[name]); Kernel(s, k.sems[name := sem])
    case PostTo(name) =>
      if name !in k.sems then k
      else var (s, sem) := SemPost(k.sched, k.sems[name]); Kernel(s, k.sems[name := sem])
    case Clean(pid) =>
      if Killable(k.sched, pid) then Kernel(CleanedUp(k.sched, pid), DropFromAll(k.sems, pid)) else k
    case Remove(pid) => k.(sched := FinishKill(k.sched, pid))
  }

  /** The whole of killProcess, with nothing between its parts, is the two of them. */
  lemma KillIsCleanRemove(k: Kernel, pid: int)
    requires Inv(k.sched) && Killable(k.sched, pid)
    ensures Perform(k, Sys(KillCall(pid))) == Perform(Perform(k, Clean(pid)), Remove(pid))
  {
    assert SlotOk(k.sched, pid);
  }

  /** A wait of init that cannot pass queues it without blocking it. */
  predicate InitQueues(k: Kernel, name: string) {
    k.sched.current == INIT_PID && name in k.sems && k.sems[name].value <= 0
  }

  /** A process that resumes inside waitPid removes the child before it waits again. */
  ghost predicate Legal(k: Kernel, c: Call) {
    match c
    case Sys(e) =>
      && Enabled(k.sched, e)
      && (e.UnblockCall? || e.ReapCall? ==> !QueuedAnywhere(k, e.pid))
    case WaitOn(name) => !Resuming(k.sched) && !InitQueues(k, name)
    case Remove(pid) => pid != INIT_PID && !QueuedAnywhere(k, pid)
    case _ => true
  }

  /** A live BLOCKED process that nothing but a post or a kill can touch: no sleep entry, no child waited for. */
  predicate Parked(s: Sched, p: int) {
    && 1 <= p < MAX_PROCESSES && p < |s.sleepers| && HasStatus(s, p, Blocked)
    && s.procs[p].value.waitingFor <= 0 && !Active(s.sleepers[p])
  }

  predicate QueueOk(s: Sched, sem: Sem) {
    && (sem.value > 0 ==> sem.queue == [])
    && NoRepeats(sem.queue)
    && (forall p :: p in sem.queue ==> Parked(s, p))
  }

  /** Queues hold distinct parked processes, and no process is in two queues. */
  ghost predicate Agrees(k: Kernel) {
    && Inv(k.sched)
    && (forall name :: name in k.sems ==> QueueOk(k.sched, k.sems[name]))
    && (forall m, n, p :: m != n && QueuedIn(k, m, p) ==> !QueuedIn(k, n, p))
  }

  // ----- queues never fill -----

  /** No queue is ever full, because init is in none. */
  lemma QueuesNeverFill(k: Kernel, name: string)
    requires Agrees(k) && name in k.sems
    ensures |k.sems[name].queue| < CAPACITY
  {
    var q := k.sems[name].queue;
    assert QueueOk(k.sched, k.sems[name]);
    Pigeonhole(q, 1, MAX_PROCESSES - 1);
  }

  // ----- parked processes stay parked -----

  lemma {:induction false} WakeFromParked(s: Sched, i: nat, p: int)
    requires i <= MAX_PROCESSES && MidBelow(s, i) && Parked(s, p)
    ensures Parked(WakeFrom(s, i), p)
    decreases MAX_PROCESSES - i
  {
    if i < MAX_PROCESSES {
      WakeSlotMid(s, i);
      WakeFromParked(WakeSlot(s, i), i + 1, p);
    }
  }

  lemma HandlerParked(s: Sched, p: int)
    requires Mid(s) && Parked(s, p)
    ensures Parked(TimerHandler(s), p)
  {
    HandlerShape(s);
    var u := s.(ticks := Later(s.ticks, 1));
    ClockMid(s, Later(s.ticks, 1), s.force);
    if u.ticks >= u.nextCheck {
      ScanMid(u);
      WakeFromParked(u.(nextCheck := UINT64_MAX), 0, p);
    }
    ScheduleChooses(AfterWakes(s));
    PreemptReady(AfterWakes(s));
  }

  lemma YieldParked(s: Sched, p: int)
    requires Mid(s) && Parked(s, p)
    ensures Parked(Yield(s), p)
  {
    ClockMid(s, s.ticks, true);
    HandlerParked(s.(force := true), p);
  }

  lemma BlockParked(s: Sched, p: int, pid: int, sleep: bool)
    requires Mid(s) && HasStatus(s, s.current, Running) && Parked(s, p)
    ensures Parked(SleepBlock(s, pid, sleep), p)
  {
    if pid != INIT_PID && Exists(s, pid) && !HasStatus(s, pid, Terminated) {
      MarkedBlockedMid(s, pid, sleep);
      if pid == s.current {
        YieldParked(MarkedBlocked(s, pid, sleep), p);
      }
    }
  }

  lemma RemovedParked(s: Sched, p: int, pid: int)
    requires Mid(s) && Parked(s, p) && Exists(s, pid) && pid != p && pid != INIT_PID
    ensures Parked(KernelModel.Removed(s, pid), p)
  {
    var t := AdoptChildren(s, pid);
    assert t.procs[p] == Adopted(s.procs[p], pid);
  }

  lemma LeavingParked(s: Sched, p: int)
    requires Inv(s) && Parked(s, p) && s.current != INIT_PID
    ensures var t := RemoveSleeping(SetStatus(s, s.current, Terminated), s.current);
            Parked(RemoveProcess(WakeParent(t, s.current), s.current), p)
  {
    assert SlotOk(s, s.current);
  }

  /** No step other than waking, killing or reaping p itself ends its wait. */
  lemma StepParked(s: Sched, e: Event, p: int)
    requires Inv(s) && Enabled(s, e) && Parked(s, p)
    requires !(e.UnblockCall? && e.pid == p) && !(e.KillCall? && e.pid == p) && !(e.ReapCall? && e.pid == p)
    ensures Parked(Step(s, e), p)
  {
    match e
    case Tick => HandlerParked(s, p);
    case YieldCall => YieldParked(s, p);
    case SleepCall(n) =>
      AsleepMid(s, n);
      BlockParked(Asleep(s, n), p, s.current, true);
    case BlockCall(pid) => BlockParked(s, p, pid, false);
    case UnblockCall(pid) =>
    case KillCall(pid) =>
      if Killable(s, pid) {
        assert SlotOk(s, pid);
        RemovedMid(s, pid);
        RemovedParked(s, p, pid);
        if HasStatus(s, pid, Running) { YieldParked(KernelModel.Removed(s, pid), p); }
      }
    case ExitCall =>
      ExitMid(s);
      LeavingParked(s, p);
      var t := RemoveSleeping(SetStatus(s, s.current, Terminated), s.current);
      YieldParked(RemoveProcess(WakeParent(t, s.current), s.current), p);
    case CreateCall(unkillable, memory) =>
    case PriorityCall(pid, priority) =>
    case WaitCall(pid) =>
      if Exists(s, pid) && s.procs[pid].value.parent == s.current {
        assert SlotOk(s, pid) && SlotOk(s, s.current);
        PutMid(s, s.current, s.procs[s.current].value.(waitingFor := pid));
        BlockParked(Put(s, s.current, s.procs[s.current].value.(waitingFor := pid)), p, s.current, false);
      }
    case ReapCall(pid) =>
  }

  // ----- each kind of call -----

  /** A scheduler step that leaves every queued process parked. */
  lemma SchedStepAgrees(k: Kernel, s: Sched)
    requires Agrees(k) && Inv(s)
    requires forall name, p :: QueuedIn(k, name, p) ==> Parked(s, p)
    ensures Agrees(k.(sched := s))
  {
    var t := k.(sched := s);
    forall name | name in t.sems ensures QueueOk(s, t.sems[name]) {
      assert QueueOk(k.sched, k.sems[name]);
      forall p | p in t.sems[name].queue ensures Parked(s, p) {
        assert QueuedIn(k, name, p);
      }
    }
    forall m, n, p | m != n && QueuedIn(t, m, p) ensures !QueuedIn(t, n, p) {
      assert QueuedIn(k, m, p);
      assert QueuedIn(t, n, p) ==> QueuedIn(k, n, p);
    }
  }

  lemma QueuedParked(k: Kernel, name: string, p: int)
    requires Agrees(k) && QueuedIn(k, name, p)
    ensures Parked(k.sched, p)
  {
    assert QueueOk(k.sched, k.sems[name]);
  }

  lemma KillAgrees(k: Kernel, pid: int)
    requires Agrees(k) && Killable(k.sched, pid)
    ensures Agrees(Perform(k, Sys(KillCall(pid))))
  {
    var t := Perform(k, Sys(KillCall(pid)));
    StepKeepsInv(k.sched, KillCall(pid));
    forall name | name in k.sems
      ensures NoRepeats(t.sems[name].queue) && (k.sems[name].value > 0 ==> t.sems[name].queue == [])
      ensures forall p :: p in t.sems[name].queue <==> QueuedIn(k, name, p) && p != pid
    {
      assert QueueOk(k.sched, k.sems[name]);
      QueuesNeverFill(k, name);
      DropEffect(k.sems[name], pid);
    }
    forall name | name in t.sems ensures QueueOk(t.sched, t.sems[name]) {
      forall p | p in t.sems[name].queue ensures Parked(t.sched, p) {
        QueuedParked(k, name, p);
        StepParked(k.sched, KillCall(pid), p);
      }
    }
    forall m, n, p | m != n && QueuedIn(t, m, p) ensures !QueuedIn(t, n, p) {
      assert QueuedIn(k, m, p);
      assert QueuedIn(t, n, p) ==> QueuedIn(k, n, p);
    }
  }

  /** After a kill the process is in no queue. */
  lemma KillLeavesNoTrace(k: Kernel, pid: int, name: string)
    requires Agrees(k) && Killable(k.sched, pid)
    ensures !QueuedIn(Perform(k, Sys(KillCall(pid))), name, pid)
  {
    if name in k.sems {
      assert QueueOk(k.sched, k.sems[name]);
      QueuesNeverFill(k, name);
      DropEffect(k.sems[name], pid);
    }
  }

  lemma CleanedParked(s: Sched, p: int, pid: int)
    requires Mid(s) && Parked(s, p) && Exists(s, pid) && pid != p && pid != INIT_PID
    ensures Parked(CleanedUp(s, pid), p)
  {
    var t := AdoptChildren(s, pid);
    assert t.procs[p] == Adopted(s.procs[p], pid);
  }

  lemma CleanAgrees(k: Kernel, pid: int)
    requires Agrees(k) && Killable(k.sched, pid)
    ensures Agrees(Perform(k, Clean(pid))) && !QueuedAnywhere(Perform(k, Clean(pid)), pid)
  {
    var t := Perform(k, Clean(pid));
    CleanedInv(k.sched, pid);
    forall name | name in k.sems
      ensures NoRepeats(t.sems[name].queue) && (k.sems[name].value > 0 ==> t.sems[name].queue == [])
      ensures forall p :: p in t.sems[name].queue <==> QueuedIn(k, name, p) && p != pid
    {
      assert QueueOk(k.sched, k.sems[name]);
      QueuesNeverFill(k, name);
      DropEffect(k.sems[name], pid);
    }
    forall name | name in t.sems ensures QueueOk(t.sched, t.sems[name]) {
      forall p | p in t.sems[name].queue ensures Parked(t.sched, p) {
        QueuedParked(k, name, p);
        CleanedParked(k.sched, p, pid);
      }
    }
    forall m, n, p | m != n && QueuedIn(t, m, p) ensures !QueuedIn(t, n, p) {
      assert QueuedIn(k, m, p);
      assert QueuedIn(t, n, p) ==> QueuedIn(k, n, p);
    }
  }

  /** Cleaning up after a process, even the running one, leaves it where it was. */
  lemma CleanedInv(s: Sched, pid: int)
    requires Inv(s) && Killable(s, pid)
    ensures pid != INIT_PID && Inv(CleanedUp(s, pid)) && CleanedUp(s, pid).current == s.current && Exists(CleanedUp(s, pid), pid)
  {
    assert SlotOk(s, pid);
    AdoptMid(s, pid);
    var t := AdoptChildren(s, pid);
    assert t.procs[s.current] == Adopted(s.procs[s.current], pid);
    assert t.procs[pid] == Adopted(s.procs[pid], pid);
    WakeParentMid(t, pid);
    RemoveSleepingMid(WakeParent(t, pid), pid);
  }

  lemma FinishedInv(s: Sched, pid: int)
    requires Inv(s) && pid != INIT_PID
    ensures Inv(FinishKill(s, pid))
  {
    RemoveMid(s, pid);
    if pid == s.current { YieldRestoresInv(RemoveProcess(s, pid)); }
  }

  lemma FinishedParked(s: Sched, p: int, pid: int)
    requires Inv(s) && Parked(s, p) && p != pid && pid != INIT_PID
    ensures Parked(FinishKill(s, pid), p)
  {
    RemoveMid(s, pid);
    if pid == s.current { YieldParked(RemoveProcess(s, pid), p); }
  }

  /** The last part of a kill keeps the agreement exactly when nobody with that number is queued by then. */
  lemma FinishAgreesIff(k: Kernel, pid: int)
    requires Agrees(k) && pid != INIT_PID
    ensures Agrees(Perform(k, Remove(pid))) <==> !QueuedAnywhere(k, pid)
    ensures pid == k.sched.current ==> !QueuedAnywhere(k, pid)
  {
    var s := FinishKill(k.sched, pid);
    if name :| QueuedIn(k, name, pid) {
      QueuedParked(k, name, pid);
      StillQueued(k, s, name, pid);
    } else {
      FinishedInv(k.sched, pid);
      forall name, p | QueuedIn(k, name, p) ensures Parked(s, p) {
        QueuedParked(k, name, p);
        FinishedParked(k.sched, p, pid);
      }
      SchedStepAgrees(k, s);
    }
  }

  /** A queued process that is not parked breaks the agreement. */
  lemma StillQueued(k: Kernel, s: Sched, name: string, p: int)
    requires QueuedIn(k, name, p) && !Parked(s, p)
    ensures !Agrees(k.(sched := s))
  {
    assert Agrees(k.(sched := s)) ==> QueueOk(s, k.sems[name]);
  }

  lemma SysAgrees(k: Kernel, e: Event)
    requires Agrees(k) && Legal(k, Sys(e))
    ensures Agrees(Perform(k, Sys(e)))
  {
    if e.KillCall? && Killable(k.sched, e.pid) {
      KillAgrees(k, e.pid);
    } else {
      StepKeepsInv(k.sched, e);
      forall name, p | QueuedIn(k, name, p) ensures Parked(Step(k.sched, e), p) {
        QueuedParked(k, name, p);
        if !(e.KillCall? && e.pid == p) {
          StepParked(k.sched, e, p);
        }
      }
      SchedStepAgrees(k, Step(k.sched, e));
    }
  }

  lemma RunningNotQueued(k: Kernel, name: string)
    requires Agrees(k)
    ensures !QueuedIn(k, name, k.sched.current)
  {
    if QueuedIn(k, name, k.sched.current) {
      QueuedParked(k, name, k.sched.current);
    }
  }

  /** Replacing one semaphore. */
  lemma ReplaceAgrees(k: Kernel, name: string, sem: Sem, s: Sched)
    requires Agrees(k) && Inv(s) && QueueOk(s, sem)
    requires forall n, p :: n != name && QueuedIn(k, n, p) ==> Parked(s, p) && p !in sem.queue
    ensures Agrees(Kernel(s, k.sems[name := sem]))
  {
    var t := Kernel(s, k.sems[name := sem]);
    forall n | n in t.sems ensures QueueOk(s, t.sems[n]) {
      if n != name {
        assert QueueOk(k.sched, k.sems[n]);
        forall p | p in t.sems[n].queue ensures Parked(s, p) {
          assert QueuedIn(k, n, p);
        }
      }
    }
    forall m, n, p | m != n && QueuedIn(t, m, p) ensures !QueuedIn(t, n, p) {
      if m != name { assert QueuedIn(k, m, p); }
      if n != name && QueuedIn(t, n, p) { assert QueuedIn(k, n, p); }
    }
  }

  lemma PassAgrees(k: Kernel, name: string)
    requires Agrees(k) && name in k.sems && k.sems[name].value > 0
    ensures Agrees(Perform(k, WaitOn(name)))
  {
    assert QueueOk(k.sched, k.sems[name]);
    forall n, p | n != name && QueuedIn(k, n, p) ensures Parked(k.sched, p) { QueuedParked(k, n, p); }
    ReplaceAgrees(k, name, Wait(k.sems[name], k.sched.current).0, k.sched);
  }

  lemma JoinQueue(s: Sched, sem: Sem, c: int)
    requires NoRepeats(sem.queue) && sem.value <= 0 && c !in sem.queue && Parked(s, c)
    requires forall p :: p in sem.queue ==> Parked(s, p)
    ensures QueueOk(s, sem.(queue := sem.queue + [c]))
  {
  }

  lemma EnqueueAgrees(k: Kernel, name: string)
    requires Agrees(k) && name in k.sems && Legal(k, WaitOn(name)) && k.sems[name].value <= 0
    ensures Agrees(Perform(k, WaitOn(name)))
  {
    var sem, c := k.sems[name], k.sched.current;
    assert QueueOk(k.sched, sem);
    QueuesNeverFill(k, name);
    var s := SleepBlock(k.sched, c, false);
    SleepBlockInv(k.sched, c, false);
    CallerParked(k.sched);
    forall n, p | QueuedIn(k, n, p) ensures Parked(s, p) && p != c {
      QueuedParked(k, n, p);
      BlockParked(k.sched, p, c, false);
    }
    assert forall p :: p in sem.queue ==> QueuedIn(k, name, p);
    JoinQueue(s, sem, c);
    var joined := sem.(queue := sem.queue + [c]);
    forall n, p | n != name && QueuedIn(k, n, p) ensures p !in joined.queue {
      assert !QueuedIn(k, name, p);
    }
    ReplaceAgrees(k, name, joined, s);
  }

  lemma WaitAgrees(k: Kernel, name: string)
    requires Agrees(k) && name in k.sems && Legal(k, WaitOn(name))
    ensures Agrees(Perform(k, WaitOn(name)))
  {
    if k.sems[name].value > 0 {
      PassAgrees(k, name);
    } else {
      EnqueueAgrees(k, name);
    }
  }

  lemma CallerParked(s: Sched)
    requires Inv(s) && s.current != INIT_PID && s.procs[s.current].value.waitingFor <= 0
    ensures Parked(SleepBlock(s, s.current, false), s.current)
  {
    MarkedBlockedMid(s, s.current, false);
    YieldParked(MarkedBlocked(s, s.current, false), s.current);
  }

  lemma PostAgrees(k: Kernel, name: string)
    requires Agrees(k) && name in k.sems
    ensures Agrees(Perform(k, PostTo(name)))
  {
    var sem := k.sems[name];
    assert QueueOk(k.sched, sem);
    if sem.queue != [] {
      var pid := sem.queue[0];
      assert QueuedIn(k, name, pid);
      var s := UnblockProcess(k.sched, pid);
      UnblockMid(k.sched, pid);
      forall n, p | QueuedIn(k, n, p) && p != pid ensures Parked(s, p) {
        QueuedParked(k, n, p);
      }
      forall p | p in sem.queue[1..] ensures QueuedIn(k, name, p) && p != pid {
        var i :| 0 <= i < |sem.queue[1..]| && sem.queue[1..][i] == p;
        assert sem.queue[i + 1] == p;
      }
      ReplaceAgrees(k, name, Post(sem).0, s);
    } else {
      forall n, p | QueuedIn(k, n, p) ensures Parked(k.sched, p) { QueuedParked(k, n, p); }
      ReplaceAgrees(k, name, Post(sem).0, k.sched);
    }
  }

  lemma TableAgrees(k: Kernel, c: Call)
    requires Agrees(k) && Legal(k, c) && (c.Open? || c.Close?)
    ensures Agrees(Perform(k, c))
  {
    forall n, p | QueuedIn(k, n, p) ensures Parked(k.sched, p) { QueuedParked(k, n, p); }
    if c.name in k.sems {
      assert QueueOk(k.sched, k.sems[c.name]);
      forall p | p in k.sems[c.name].queue ensures QueuedIn(k, c.name, p) { }
      ReplaceAgrees(k, c.name, k.sems[c.name].(users := k.sems[c.name].users + 1), k.sched);
      ReplaceAgrees(k, c.name, k.sems[c.name].(users := k.sems[c.name].users - 1), k.sched);
      RemoveAgrees(k, c.name);
    } else if c.Open? {
      ReplaceAgrees(k, c.name, Sem(c.initial, 1, []), k.sched);
    }
  }

  lemma RemoveAgrees(k: Kernel, name: string)
    requires Agrees(k)
    ensures Agrees(k.(sems := k.sems - {name}))
  {
    var t := k.(sems := k.sems - {name});
    forall n | n in t.sems ensures QueueOk(t.sched, t.sems[n]) {
      assert QueueOk(k.sched, k.sems[n]);
    }
    forall m, n, p | m != n && QueuedIn(t, m, p) ensures !QueuedIn(t, n, p) {
      assert QueuedIn(k, m, p);
      assert QueuedIn(t, n, p) ==> QueuedIn(k, n, p);
    }
  }

  /** A wait keeps the agreement except for init's when it cannot pass. */
  lemma WaitAgreesIff(k: Kernel, name: string)
    requires Agrees(k) && !Resuming(k.sched)
    ensures Agrees(Perform(k, WaitOn(name))) <==> !InitQueues(k, name)
  {
    if name in k.sems {
      if InitQueues(k, name) {
        QueuesNeverFill(k, name);
        var t := Perform(k, WaitOn(name));
        assert t.sems[name].queue == k.sems[name].queue + [INIT_PID];
        assert t.sems[name].queue[|k.sems[name].queue|] == INIT_PID;
        StillQueued(t, t.sched, name, INIT_PID);
      } else {
        WaitAgrees(k, name);
      }
    }
  }

  lemma PerformKeepsAgrees(k: Kernel, c: Call)
    requires Agrees(k) && Legal(k, c)
    ensures Agrees(Perform(k, c))
  {
    match c
    case Clean(pid) => if Killable(k.sched, pid) { CleanAgrees(k, pid); }
    case Remove(pid) => FinishAgreesIff(k, pid);
    case Sys(e) => SysAgrees(k, e);
    case WaitOn(name) => if name in k.sems { WaitAgrees(k, name); }
    case PostTo(name) => if name in k.sems { PostAgrees(k, name); }
    case _ => TableAgrees(k, c);
  }

  // ----- runs -----

  ghost predicate Reaches(k: Kernel, cs: seq<Call>, t: Kernel)
    requires Sized(k.sched)
    decreases |cs|
  {
    if cs == [] then t == k
    else Legal(k, cs[0]) && Reaches(Perform(k, cs[0]), cs[1..], t)
  }

  lemma {:induction false} ReachesAgrees(k: Kernel, cs: seq<Call>, t: Kernel)
    requires Agrees(k) && Reaches(k, cs, t)
    ensures Agrees(t) && (Kin(k.sched) ==> Kin(t.sched))
    decreases |cs|
  {
    if cs != [] {
      PerformKeepsAgrees(k, cs[0]);
      PerformKeepsKin(k, cs[0]);
      ReachesAgrees(Perform(k, cs[0]), cs[1..], t);
    }
  }

  lemma PerformKeepsKin(k: Kernel, c: Call)
    requires Agrees(k) && Legal(k, c)
    ensures Kin(k.sched) ==> Kin(Perform(k, c).sched)
  {
    if Kin(k.sched) {
      match c
      case Sys(e) => StepKeepsKin(k.sched, e);
      case WaitOn(name) => BlockKept(k.sched, k.sched, k.sched.current, false); KeptKin(k.sched, SleepBlock(k.sched, k.sched.current, false));
      case PostTo(name) => if name in k.sems { KeptKin(k.sched, UnblockProcess(k.sched, Post(k.sems[name]).1)); }
      case Clean(pid) => if Killable(k.sched, pid) { CleanKin(k.sched, pid); }
      case Remove(pid) => FinishKin(k.sched, pid);
      case _ =>
    }
  }

  /** In every run from boot, a resumed waitPid can go on exactly when no semaphore waiter has taken over the slot. */
  lemma ResumedReapLegalIff(cs: seq<Call>, t: Kernel)
    requires Reaches(Kernel(TimerHandler(Booted()), map[]), cs, t) && Resuming(t.sched)
    ensures Legal(t, Sys(ReapCall(Child(t.sched)))) <==> !QueuedAnywhere(t, Child(t.sched))
  {
    BootInv();
    BootKin();
    ReachesAgrees(Kernel(TimerHandler(Booted()), map[]), cs, t);
    ResumedReapEnabled(t.sched);
  }

  /** From boot on, after any calls: queued processes are live, BLOCKED, in one queue only, and no queue is full. */
  lemma AgreementFromBoot(cs: seq<Call>, t: Kernel, name: string)
    requires Reaches(Kernel(TimerHandler(Booted()), map[]), cs, t) && name in t.sems
    ensures |t.sems[name].queue| < CAPACITY && NoRepeats(t.sems[name].queue)
    ensures forall p :: p in t.sems[name].queue ==> HasStatus(t.sched, p, Blocked) && p != INIT_PID
    ensures forall p, other :: p in t.sems[name].queue && other != name ==> !QueuedIn(t, other, p)
    ensures t.sems[name].value > 0 ==> t.sems[name].queue == []
  {
    BootInv();
    ReachesAgrees(Kernel(TimerHandler(Booted()), map[]), cs, t);
    QueuesNeverFill(t, name);
    assert QueueOk(t.sched, t.sems[name]);
    forall p, other | p in t.sems[name].queue && other != name ensures !QueuedIn(t, other, p) {
      assert QueuedIn(t, name, p);
    }
  }

  // ----- closing a semaphore that has waiters -----

  /** The call wakes, kills or removes p by its number. */
  predicate Touches(c: Call, p: int) {
    match c
    case Sys(e) => (e.UnblockCall? || e.KillCall? || e.ReapCall?) && e.pid == p
    case Clean(pid) => pid == p
    case Remove(pid) => pid == p
    case _ => false
  }

  /** A process that is parked and in no queue stays so: nothing but its number can end its wait. */
  lemma PerformKeepsStranded(k: Kernel, c: Call, p: int)
    requires Agrees(k) && Legal(k, c) && Parked(k.sched, p) && !QueuedAnywhere(k, p) && !Touches(c, p)
    ensures Parked(Perform(k, c).sched, p) && !QueuedAnywhere(Perform(k, c), p)
  {
    var t := Perform(k, c);
    forall name ensures !QueuedIn(t, name, p) {
      assert !QueuedIn(k, name, p);
      if name in k.sems { QueuedAfter(k, c, name, p); }
    }
    match c
    case Sys(e) => StepParked(k.sched, e, p);
    case WaitOn(name) => BlockParked(k.sched, p, k.sched.current, false);
    case PostTo(name) => PostStranded(k, name, p);
    case Clean(pid) => if Killable(k.sched, pid) { assert SlotOk(k.sched, pid); CleanedParked(k.sched, p, pid); }
    case Remove(pid) => FinishedParked(k.sched, p, pid);
    case _ =>
  }

  lemma PostStranded(k: Kernel, name: string, p: int)
    requires Agrees(k) && Parked(k.sched, p) && !QueuedAnywhere(k, p)
    ensures Parked(Perform(k, PostTo(name)).sched, p)
  {
    if name in k.sems && k.sems[name].queue != [] {
      assert QueuedIn(k, name, k.sems[name].queue[0]);
    }
  }

  /** Only its own wait puts a process into a queue. */
  lemma QueuedAfter(k: Kernel, c: Call, name: string, p: int)
    requires Agrees(k) && name in k.sems && p != k.sched.current && !QueuedIn(k, name, p)
    ensures !QueuedIn(Perform(k, c), name, p)
  {
    assert QueueOk(k.sched, k.sems[name]);
    QueuesNeverFill(k, name);
    match c
    case Sys(e) => if e.KillCall? { DropEffect(k.sems[name], e.pid); }
    case Clean(pid) => DropEffect(k.sems[name], pid);
    case _ =>
  }

  lemma {:induction false} StrandedStays(k: Kernel, cs: seq<Call>, t: Kernel, p: int)
    requires Agrees(k) && Reaches(k, cs, t) && Parked(k.sched, p) && !QueuedAnywhere(k, p)
    requires forall i :: 0 <= i < |cs| ==> !Touches(cs[i], p)
    ensures Parked(t.sched, p) && !QueuedAnywhere(t, p)
    decreases |cs|
  {
    if cs != [] {
      PerformKeepsAgrees(k, cs[0]);
      PerformKeepsStranded(k, cs[0], p);
      StrandedStays(Perform(k, cs[0]), cs[1..], t, p);
    }
  }

  /** The last close of a semaphore leaves its waiters BLOCKED, and no later post ever grants them. */
  lemma CloseStrandsWaiters(k: Kernel, name: string, p: int, cs: seq<Call>, t: Kernel)
    requires Agrees(k) && QueuedIn(k, name, p) && k.sems[name].users <= 1
    requires Reaches(Perform(k, Close(name)), cs, t) && forall i :: 0 <= i < |cs| ==> !Touches(cs[i], p)
    ensures HasStatus(t.sched, p, Blocked) && !QueuedAnywhere(t, p)
  {
    QueuedParked(k, name, p);
    var c := Perform(k, Close(name));
    PerformKeepsAgrees(k, Close(name));
    forall n ensures !QueuedIn(c, n, p) {
      assert QueuedIn(c, n, p) ==> QueuedIn(k, n, p);
    }
    StrandedStays(c, cs, t, p);
  }

  // ----- why the excluded steps are excluded -----

  /** A waitPid that resumes when its slot holds a new process keeps the agreement only if that process is not queued. */
  lemma LateReapAgreesIff(k: Kernel, pid: int)
    requires Agrees(k) && pid != k.sched.current && pid != INIT_PID
    ensures Agrees(k.(sched := WaitReturn(k.sched, pid))) <==> !QueuedAnywhere(k, pid)
  {
    var s := WaitReturn(k.sched, pid);
    if name :| QueuedIn(k, name, pid) {
      QueuedParked(k, name, pid);
      if Agrees(k.(sched := s)) {
        QueuedParked(k.(sched := s), name, pid);
        assert false;
      }
    } else {
      ReapInv(k.sched, pid);
      forall name, p | QueuedIn(k, name, p) ensures Parked(s, p) {
        QueuedParked(k, name, p);
        RunningNotQueued(k, name);
      }
      SchedStepAgrees(k, s);
    }
  }

  /** Waking a process by its number keeps the agreement only if it is not queued. */
  lemma DirectUnblockAgreesIff(k: Kernel, pid: int)
    requires Agrees(k)
    ensures Agrees(k.(sched := UnblockProcess(k.sched, pid))) <==> !QueuedAnywhere(k, pid)
  {
    var s := UnblockProcess(k.sched, pid);
    if name :| QueuedIn(k, name, pid) {
      QueuedParked(k, name, pid);
      if Agrees(k.(sched := s)) {
        QueuedParked(k.(sched := s), name, pid);
        assert false;
      }
    } else {
      UnblockMid(k.sched, pid);
      forall name, p | QueuedIn(k, name, p) ensures Parked(s, p) {
        QueuedParked(k, name, p);
      }
      SchedStepAgrees(k, s);
    }
  }
}
