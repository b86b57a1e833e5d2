/** Nobody is its own parent or waits for itself, so what a resumed waitPid removes is another process. */
module Kinship {
  import opened Common
  import opened KernelModel
  import opened SchedulerTheorems
  import opened Fairness

  predicate KinAt(s: Sched, i: nat)
    requires i < |s.procs|
  {
    s.procs[i].Some? ==> s.procs[i].value.parent != i && (s.procs[i].value.waitingFor > 0 ==> s.procs[i].value.waitingFor != i)
  }

  predicate Kin(s: Sched) {
    forall i: nat :: i < |s.procs| ==> KinAt(s, i)
  }

  /** The running process is resuming from a waitPid; the first thing it does is to remove the child. */
  predicate Resuming(s: Sched) {
    Exists(s, s.current) && s.procs[s.current].value.waitingFor > 0
  }

  function Child(s: Sched): int
    requires Resuming(s)
  {
    s.procs[s.current].value.waitingFor
  }

  /** t has no other processes than s, with the same parents and waiting for the same. */
  predicate Kept(s: Sched, t: Sched) {
    |t.procs| == |s.procs| && forall i :: 0 <= i < |s.procs| && t.procs[i].Some? ==> KeptAt(s.procs[i], t.procs[i])
  }

  predicate KeptAt(p: Option<Proc>, q: Option<Proc>) {
    p.Some? && q.Some? && q.value.parent == p.value.parent && q.value.waitingFor == p.value.waitingFor
  }

  lemma KeptKin(s: Sched, t: Sched)
    requires Kin(s) && Kept(s, t)
    ensures Kin(t)
  {
    forall i: nat | i < |t.procs| ensures KinAt(t, i) {
      assert KinAt(s, i);
      assert t.procs[i].Some? ==> KeptAt(s.procs[i], t.procs[i]);
    }
  }

  lemma KeptTrans(s: Sched, t: Sched, u: Sched)
    requires Kept(s, t) && Kept(t, u)
    ensures Kept(s, u)
  {
    forall i | 0 <= i < |s.procs| && u.procs[i].Some? ensures KeptAt(s.procs[i], u.procs[i]) {
      assert KeptAt(t.procs[i], u.procs[i]);
    }
  }

  lemma {:induction false} WakeFromKept(s: Sched, i: nat)
    requires Sized(s) && i <= MAX_PROCESSES
    ensures Kept(s, WakeFrom(s, i))
    decreases MAX_PROCESSES - i
  {
    if i < MAX_PROCESSES {
      WakeFromKept(WakeSlot(s, i), i + 1);
      KeptTrans(s, WakeSlot(s, i), WakeFrom(s, i));
    }
  }

  lemma ScheduleKept(s: Sched)
    requires Mid(s)
    ensures Kept(s, Schedule(s))
  {
    ScheduleChooses(s);
    assert Kept(s, Preempt(s));
    KeptTrans(s, Preempt(s), Schedule(s));
  }

  lemma WakesKept(s: Sched)
    requires Sized(s)
    ensures Kept(s, AfterWakes(s))
  {
    var u := s.(ticks := Later(s.ticks, 1));
    WakeFromKept(u.(nextCheck := UINT64_MAX), 0);
  }

  lemma HandlerKept(s: Sched)
    requires Mid(s)
    ensures Kept(s, TimerHandler(s))
  {
    HandlerShape(s);
    WakesKept(s);
    ScheduleKept(AfterWakes(s));
    KeptTrans(s, AfterWakes(s), TimerHandler(s));
  }

  /** A step that ends with a context switch. */
  lemma YieldKept(s: Sched, m: Sched)
    requires Mid(m) && Kept(s, m)
    ensures Kept(s, Yield(m))
  {
    ClockMid(m, m.ticks, true);
    HandlerKept(m.(force := true));
    KeptTrans(s, m, Yield(m));
  }

  lemma BlockKept(s: Sched, m: Sched, pid: int, sleep: bool)
    requires Mid(m) && Kept(s, m)
    ensures Kept(s, SleepBlock(m, pid, sleep))
  {
    if pid != INIT_PID && Exists(m, pid) && !HasStatus(m, pid, Terminated) {
      MarkedBlockedMid(m, pid, sleep);
      var b := MarkedBlocked(m, pid, sleep);
      assert Kept(m, b);
      KeptTrans(s, m, b);
      if pid == m.current { YieldKept(s, b); }
    }
  }

  lemma AdoptKin(s: Sched, pid: nat)
    requires Mid(s) && Kin(s)
    ensures Kin(AdoptChildren(s, pid))
  {
    var t := AdoptChildren(s, pid);
    forall i: nat | i < |t.procs| ensures KinAt(t, i) {
      assert KinAt(s, i);
    }
  }

  lemma RemovedKin(s: Sched, pid: nat)
    requires Mid(s) && Kin(s) && Exists(s, pid)
    ensures Kin(Removed(s, pid))
  {
    AdoptKin(s, pid);
    KeptKin(AdoptChildren(s, pid), Removed(s, pid));
  }

  lemma CleanKin(s: Sched, pid: nat)
    requires Mid(s) && Kin(s) && Exists(s, pid)
    ensures Kin(CleanedUp(s, pid))
  {
    AdoptKin(s, pid);
    KeptKin(AdoptChildren(s, pid), CleanedUp(s, pid));
  }

  lemma FinishKin(s: Sched, pid: int)
    requires Inv(s) && Kin(s) && pid != INIT_PID
    ensures Kin(FinishKill(s, pid))
  {
    RemoveMid(s, pid);
    if pid == s.current { YieldKept(s, RemoveProcess(s, pid)); }
    KeptKin(s, FinishKill(s, pid));
  }

  lemma KillKin(s: Sched, pid: int)
    requires Inv(s) && Kin(s)
    ensures Kin(KillProcess(s, pid))
  {
    if Killable(s, pid) {
      assert SlotOk(s, pid);
      RemovedMid(s, pid);
      RemovedKin(s, pid);
      if HasStatus(s, pid, Running) {
        YieldKept(Removed(s, pid), Removed(s, pid));
        KeptKin(Removed(s, pid), KillProcess(s, pid));
      }
    }
  }

  lemma ExitKin(s: Sched)
    requires Inv(s) && Kin(s) && s.current != INIT_PID
    ensures Kin(MyExit(s))
  {
    ExitMid(s);
    var t := RemoveSleeping(SetStatus(s, s.current, Terminated), s.current);
    var m := RemoveProcess(WakeParent(t, s.current), s.current);
    assert Kept(s, m);
    YieldKept(s, m);
    KeptKin(s, MyExit(s));
  }

  lemma WaitKin(s: Sched, pid: int)
    requires Inv(s) && Kin(s) && s.current != INIT_PID
    ensures Kin(WaitPid(s, pid))
  {
    if Exists(s, pid) && s.procs[pid].value.parent == s.current {
      assert SlotOk(s, pid) && SlotOk(s, s.current) && KinAt(s, pid);
      PutMid(s, s.current, s.procs[s.current].value.(waitingFor := pid));
      var t := Put(s, s.current, s.procs[s.current].value.(waitingFor := pid));
      forall i: nat | i < |t.procs| ensures KinAt(t, i) {
        assert KinAt(s, i);
      }
      BlockKept(t, t, s.current, false);
      KeptKin(t, WaitPid(s, pid));
    }
  }

  lemma ReturnKin(s: Sched, pid: int)
    requires Inv(s) && Kin(s)
    ensures Kin(WaitReturn(s, pid))
  {
    var t := WaitReturn(s, pid);
    forall i: nat | i < |t.procs| ensures KinAt(t, i) {
      assert KinAt(s, i);
    }
  }

  lemma CreateKin(s: Sched, unkillable: bool, memory: bool)
    requires Inv(s) && Kin(s)
    ensures Kin(AddProcess(s, unkillable, memory))
  {
    var t := AddProcess(s, unkillable, memory);
    forall i: nat | i < |t.procs| ensures KinAt(t, i) {
      assert KinAt(s, i);
    }
  }

  lemma StepKeepsKin(s: Sched, e: Event)
    requires Inv(s) && Kin(s) && Enabled(s, e)
    ensures Kin(Step(s, e))
  {
    match e
    case Tick => HandlerKept(s); KeptKin(s, TimerHandler(s));
    case YieldCall => YieldKept(s, s); KeptKin(s, Yield(s));
    case SleepCall(n) =>
      AsleepMid(s, n);
      BlockKept(s, Asleep(s, n), s.current, true);
      KeptKin(s, Sleep(s, n));
    case BlockCall(pid) => BlockKept(s, s, pid, false); KeptKin(s, SleepBlock(s, pid, false));
    case UnblockCall(pid) => KeptKin(s, UnblockProcess(s, pid));
    case KillCall(pid) => KillKin(s, pid);
    case ExitCall => ExitKin(s);
    case CreateCall(unkillable, memory) => CreateKin(s, unkillable, memory);
    case PriorityCall(pid, priority) => KeptKin(s, SetPriority(s, pid, priority));
    case WaitCall(pid) => WaitKin(s, pid);
    case ReapCall(pid) => ReturnKin(s, pid);
  }

  lemma BootKin()
    ensures Kin(TimerHandler(Booted()))
  {
    var s := Booted();
    BootMid();
    HandlerKept(s);
    KeptKin(s, TimerHandler(s));
  }

  /** What a resumed waitPid removes is neither its caller nor init. */
  lemma ResumedReapEnabled(s: Sched)
    requires Inv(s) && Kin(s) && Resuming(s)
    ensures Enabled(s, ReapCall(Child(s)))
  {
    assert KinAt(s, s.current);
  }
}
