/** Invariants of every run of the scheduler. */
module SchedulerTheorems {
  import opened Common
  import opened KernelModel

  function Count(procs: seq<Option<Proc>>): nat {
    if procs == [] then 0 else (if procs[0].Some? then 1 else 0) + Count(procs[1..])
  }

  /** Slot i holds process i, with a legal priority; only the current process can be RUNNING. */
  predicate SlotOk(s: Sched, i: nat)
    requires i < |s.procs|
  {
    s.procs[i].Some? ==>
      var p := s.procs[i].value;
      && p.pid == i && MIN_PRIORITY <= p.priority <= MAX_PRIORITY && p.quantum <= p.priority
      && p.status != Terminated && (p.status == Running ==> i == s.current)
  }

  /** Init exists, cannot be killed, has no parent and is never blocked. */
  predicate InitOk(s: Sched) {
    && Exists(s, INIT_PID)
    && var p := s.procs[INIT_PID].value;
       p.unkillable && p.parent == NO_PID && p.status != Blocked
  }

  /** Entry i of the sleep table is for process i, and the cached tick is no later than any entry. */
  predicate SleeperOk(s: Sched, i: nat)
    requires i < |s.sleepers|
  {
    s.sleepers[i].pid == NO_PID || (s.sleepers[i].pid == i && s.nextCheck <= s.sleepers[i].endTick)
  }

  predicate SleepOk(s: Sched) {
    forall i :: 0 <= i < |s.sleepers| ==> SleeperOk(s, i)
  }

  /** What holds inside the kernel, between the parts of one step. */
  predicate Mid(s: Sched) {
    && Sized(s)
    && (forall i :: 0 <= i < |s.procs| ==> SlotOk(s, i))
    && InitOk(s) && s.size == Count(s.procs) && SleepOk(s)
  }

  /** What holds between steps: exactly one process is RUNNING and it is the current one. */
  predicate Inv(s: Sched) {
    Mid(s) && HasStatus(s, s.current, Running) && !s.force
  }

  // ----- counting occupied slots -----

  lemma {:induction false} CountUpdate(procs: seq<Option<Proc>>, i: nat, p: Option<Proc>)
    requires i < |procs|
    ensures Count(procs[i := p]) == Count(procs) + (if p.Some? then 1 else 0) - (if procs[i].Some? then 1 else 0)
  {
    if i > 0 {
      CountUpdate(procs[1..], i - 1, p);
      assert procs[i := p][1..] == procs[1..][i - 1 := p];
    } else {
      assert procs[i := p][1..] == procs[1..];
    }
  }

  lemma {:induction false} CountSame(a: seq<Option<Proc>>, b: seq<Option<Proc>>)
    requires |a| == |b| && forall i :: 0 <= i < |a| ==> a[i].Some? == b[i].Some?
    ensures Count(a) == Count(b)
    decreases |a|
  {
    if a != [] {
      CountSame(a[1..], b[1..]);
    }
  }

  lemma {:induction false} CountPositive(a: seq<Option<Proc>>, i: nat)
    requires i < |a| && a[i].Some?
    ensures Count(a) > 0
    decreases |a|
  {
    if i > 0 {
      CountPositive(a[1..], i - 1);
    }
  }

  lemma {:induction false} FreeSlotIs(procs: seq<Option<Proc>>, from: nat, i: nat)
    requires from <= i < |procs| && procs[i].None? && forall j :: from <= j < i ==> procs[j].Some?
    ensures FreeSlot(procs, from) == i
    decreases i - from
  {
    if from < i { FreeSlotIs(procs, from + 1, i); }
  }

  /** With an empty slot fewer than all are counted. */
  lemma {:induction false} CountBelow(procs: seq<Option<Proc>>, i: nat)
    requires i < |procs| && procs[i].None?
    ensures Count(procs) < |procs|
  {
    if i > 0 { CountBelow(procs[1..], i - 1); } else { CountAtMost(procs[1..]); }
  }

  lemma {:induction false} CountAtMost(procs: seq<Option<Proc>>)
    ensures Count(procs) <= |procs|
  {
    if procs != [] { CountAtMost(procs[1..]); }
  }

  // ----- parts of a step -----

  /** Updating one occupied slot. */
  lemma PutMid(s: Sched, pid: nat, p: Proc)
    requires Mid(s) && Exists(s, pid) && SlotOk(Put(s, pid, p), pid)
    requires pid == INIT_PID ==> p.unkillable && p.parent == NO_PID && p.status != Blocked
    ensures Mid(Put(s, pid, p))
  {
    CountUpdate(s.procs, pid, Some(p));
    var t := Put(s, pid, p);
    forall i | 0 <= i < |t.procs| ensures SlotOk(t, i) {
      assert SlotOk(s, i);
    }
    forall i | 0 <= i < |t.sleepers| ensures SleeperOk(t, i) {
      assert SleeperOk(s, i);
    }
  }

  lemma RemoveSleepingMid(s: Sched, pid: nat)
    requires Mid(s) && pid < MAX_PROCESSES
    ensures Mid(RemoveSleeping(s, pid))
  {
    var t := RemoveSleeping(s, pid);
    forall i | 0 <= i < |t.procs| ensures SlotOk(t, i) && SleeperOk(t, i) {
      assert SlotOk(s, i) && SleeperOk(s, i);
    }
  }

  lemma UnblockMid(s: Sched, pid: int)
    requires Mid(s)
    ensures Mid(UnblockProcess(s, pid)) && UnblockProcess(s, pid).current == s.current
  {
    if HasStatus(s, pid, Blocked) {
      RemoveSleepingMid(s, pid);
      assert SlotOk(s, pid);
      PutMid(RemoveSleeping(s, pid), pid, s.procs[pid].value.(status := Ready));
    }
  }

  lemma RemoveMid(s: Sched, pid: int)
    requires Mid(s) && pid != INIT_PID
    ensures Mid(RemoveProcess(s, pid))
  {
    if Exists(s, pid) {
      CountUpdate(s.procs, pid, None);
      var t := RemoveProcess(s, pid);
      forall i | 0 <= i < |t.procs| ensures SlotOk(t, i) && SleeperOk(t, i) {
        assert SlotOk(s, i) && SleeperOk(s, i);
      }
    }
  }

  lemma AdoptMid(s: Sched, pid: nat)
    requires Mid(s)
    ensures Mid(AdoptChildren(s, pid))
  {
    var t := AdoptChildren(s, pid);
    CountSame(s.procs, t.procs);
    forall i | 0 <= i < |t.procs| ensures SlotOk(t, i) && SleeperOk(t, i) {
      assert SlotOk(s, i) && SleeperOk(s, i);
    }
  }

  lemma WakeParentMid(s: Sched, pid: nat)
    requires Mid(s) && Exists(s, pid)
    ensures Mid(WakeParent(s, pid)) && WakeParent(s, pid).current == s.current
  {
    UnblockMid(s, s.procs[pid].value.parent);
  }

  lemma AddMid(s: Sched, unkillable: bool, memory: bool)
    requires Mid(s)
    ensures Mid(AddProcess(s, unkillable, memory))
  {
    var i := FreeSlot(s.procs, 0);
    var t := AddProcess(s, unkillable, memory);
    if t != s {
      CountUpdate(s.procs, i, t.procs[i]);
      forall j | 0 <= j < |t.procs| ensures SlotOk(t, j) && SleeperOk(t, j) {
        assert SlotOk(s, j) && SleeperOk(s, j);
      }
    }
  }

  // ----- choosing -----

  lemma {:induction false} NextReadyFinds(procs: seq<Option<Proc>>, idx: nat, n: nat, i: nat)
    requires |procs| == MAX_PROCESSES && idx < MAX_PROCESSES && i < n
    requires var k := (idx + i) % MAX_PROCESSES; procs[k].Some? && procs[k].value.status == Ready
    ensures NextReady(procs, idx, n) != NO_PID
    decreases n
  {
    if !(procs[idx].Some? && procs[idx].value.status == Ready) {
      NextReadyFinds(procs, (idx + 1) % MAX_PROCESSES, n - 1, i - 1);
    }
  }

  lemma PreemptReady(s: Sched)
    requires Mid(s)
    ensures var u := Preempt(s);
            && Mid(u) && u.current == s.current && u.force == s.force && HasStatus(u, INIT_PID, Ready)
            && forall i :: 0 <= i < |u.procs| ==> !HasStatus(u, i, Running)
  {
    var u := Preempt(s);
    if HasStatus(s, s.current, Running) {
      assert SlotOk(s, s.current);
      PutMid(s, s.current, s.procs[s.current].value.(status := Ready));
    }
    assert SlotOk(s, INIT_PID);
    forall i | 0 <= i < |u.procs| ensures !HasStatus(u, i, Running) {
      assert SlotOk(s, i);
    }
  }

  /** Process i becomes current and RUNNING with the given quantum. */
  function Dispatch(u: Sched, i: int, quantum: nat): Sched
    requires Exists(u, i)
  {
    Put(u.(current := i, force := false), i, u.procs[i].value.(quantum := quantum, status := Running))
  }

  lemma DispatchInv(u: Sched, i: nat, quantum: nat)
    requires Mid(u) && HasStatus(u, i, Ready) && quantum <= u.procs[i].value.priority
    requires forall j :: 0 <= j < |u.procs| ==> !HasStatus(u, j, Running)
    ensures Inv(Dispatch(u, i, quantum))
  {
    var p := u.procs[i].value.(quantum := quantum, status := Running);
    var t := Dispatch(u, i, quantum);
    CountUpdate(u.procs, i, Some(p));
    assert SlotOk(u, i);
    forall j | 0 <= j < |t.procs| ensures SlotOk(t, j) && SleeperOk(t, j) {
      assert SlotOk(u, j) && SleeperOk(u, j) && !HasStatus(u, j, Running);
    }
  }

  /** Init is runnable, so there is always a process to choose: the current one, or the next READY one. */
  lemma ScheduleChooses(s: Sched)
    requires Mid(s)
    ensures var u := Preempt(s);
            if KeepsCpu(u) then Schedule(s) == Dispatch(u, u.current, u.procs[u.current].value.quantum - 1)
            else
              var i := NextReady(u.procs, ScanStart(u.current), |u.procs|);
              i != NO_PID && Schedule(s) == Dispatch(u, i, u.procs[i].value.priority)
  {
    CountPositive(s.procs, INIT_PID);
    PreemptReady(s);
    var u := Preempt(s);
    CountPositive(u.procs, INIT_PID);
    if KeepsCpu(u) {
      var p := u.procs[u.current].value;
      assert Schedule(s).procs == u.procs[u.current := Some(p.(quantum := p.quantum - 1, status := Running))];
    } else {
      var start := ScanStart(u.current);
      NextReadyFinds(u.procs, start, |u.procs|, (MAX_PROCESSES - start) % MAX_PROCESSES);
      var i := NextReady(u.procs, start, |u.procs|);
      var p := u.procs[i].value;
      assert Schedule(s).procs == u.procs[i := Some(p.(quantum := p.priority, status := Running))];
    }
  }

  lemma ScheduleRestoresInv(s: Sched)
    requires Mid(s)
    ensures Inv(Schedule(s))
  {
    ScheduleChooses(s);
    PreemptReady(s);
    var u := Preempt(s);
    if KeepsCpu(u) {
      assert SlotOk(u, u.current);
      DispatchInv(u, u.current, u.procs[u.current].value.quantum - 1);
    } else {
      var i := NextReady(u.procs, ScanStart(u.current), |u.procs|);
      DispatchInv(u, i, u.procs[i].value.priority);
    }
  }

  // ----- the timer -----

  /** Entries from i on still have to be looked at: the cached tick need not bound them yet. */
  predicate MidBelow(s: Sched, i: nat) {
    && Sized(s)
    && (forall j :: 0 <= j < |s.procs| ==> SlotOk(s, j))
    && InitOk(s) && s.size == Count(s.procs)
    && (forall j :: 0 <= j < |s.sleepers| ==> s.sleepers[j].pid == NO_PID || s.sleepers[j].pid == j)
    && (forall j :: 0 <= j < i && j < |s.sleepers| ==> SleeperOk(s, j))
  }

  lemma WakeSlotMid(s: Sched, i: nat)
    requires i < MAX_PROCESSES && MidBelow(s, i)
    ensures MidBelow(WakeSlot(s, i), i + 1)
    ensures WakeSlot(s, i).current == s.current && WakeSlot(s, i).ticks == s.ticks && WakeSlot(s, i).force == s.force
  {
    var t := WakeSlot(s, i);
    if HasStatus(s, i, Blocked) {
      CountUpdate(s.procs, i, Some(s.procs[i].value.(status := Ready)));
    }
    forall j | 0 <= j < |t.procs| ensures SlotOk(t, j) {
      assert SlotOk(s, j);
    }
    forall j | 0 <= j < i + 1 && j < |t.sleepers| ensures SleeperOk(t, j) {
      assert j < i ==> SleeperOk(s, j);
    }
  }

  lemma {:induction false} WakeFromMid(s: Sched, i: nat)
    requires i <= MAX_PROCESSES && MidBelow(s, i)
    ensures Mid(WakeFrom(s, i))
    ensures WakeFrom(s, i).current == s.current && WakeFrom(s, i).ticks == s.ticks && WakeFrom(s, i).force == s.force
    decreases MAX_PROCESSES - i
  {
    if i < MAX_PROCESSES {
      WakeSlotMid(s, i);
      WakeFromMid(WakeSlot(s, i), i + 1);
    }
  }

  /** The tick counter and the reschedule flag play no part in the invariant. */
  lemma ClockMid(s: Sched, ticks: nat, force: bool)
    requires Mid(s)
    ensures Mid(s.(ticks := ticks, force := force))
  {
    var t := s.(ticks := ticks, force := force);
    forall i | 0 <= i < |t.procs| ensures SlotOk(t, i) && SleeperOk(t, i) {
      assert SlotOk(s, i) && SleeperOk(s, i);
    }
  }

  lemma ScanMid(s: Sched)
    requires Mid(s)
    ensures MidBelow(s.(nextCheck := UINT64_MAX), 0)
  {
    var u := s.(nextCheck := UINT64_MAX);
    forall i | 0 <= i < |u.procs| ensures SlotOk(u, i) && (u.sleepers[i].pid == NO_PID || u.sleepers[i].pid == i) {
      assert SlotOk(s, i) && SleeperOk(s, i);
    }
  }

  lemma UnblockSleepingMid(s: Sched)
    requires Mid(s)
    ensures var t := UnblockSleeping(s); Mid(t) && t.current == s.current && t.force == s.force && t.ticks == s.ticks
  {
    if s.ticks >= s.nextCheck {
      ScanMid(s);
      WakeFromMid(s.(nextCheck := UINT64_MAX), 0);
    }
  }

  lemma TimerRestoresInv(s: Sched)
    requires Mid(s)
    ensures Inv(TimerHandler(s))
  {
    var t := s.(ticks := Later(s.ticks, 1));
    ClockMid(s, Later(s.ticks, 1), s.force);
    UnblockSleepingMid(t);
    ScheduleRestoresInv(UnblockSleeping(t));
  }

  lemma YieldRestoresInv(s: Sched)
    requires Mid(s)
    ensures Inv(Yield(s))
  {
    ClockMid(s, s.ticks, true);
    TimerRestoresInv(s.(force := true));
  }

  // ----- steps -----

  datatype Event =
    | Tick
    | YieldCall
    | SleepCall(n: nat)
    | BlockCall(pid: int)
    | UnblockCall(pid: int)
    | KillCall(pid: int)
    | ExitCall
    | CreateCall(unkillable: bool, memory: bool)
    | PriorityCall(pid: int, priority: nat)
    | WaitCall(pid: int)
    | ReapCall(pid: int)

  /** Init neither exits nor waits; what waitPid removes when it resumes is neither its caller nor init. */
  predicate Enabled(s: Sched, e: Event) {
    match e
    case ExitCall => s.current != INIT_PID
    case WaitCall(pid) => s.current != INIT_PID
    case ReapCall(pid) => pid != s.current && pid != INIT_PID
    case _ => true
  }

  function Step(s: Sched, e: Event): (t: Sched)
    requires Sized(s)
    ensures Sized(t)
  {
    if !Exists(s, s.current) then s
    else
      match e
      case Tick => TimerHandler(s)
      case YieldCall => Yield(s)
      case SleepCall(n) => Sleep(s, n)
      case BlockCall(pid) => SleepBlock(s, pid, false)
      case UnblockCall(pid) => UnblockProcess(s, pid)
      case KillCall(pid) => KillProcess(s, pid)
      case ExitCall => MyExit(s)
      case CreateCall(unkillable, memory) => AddProcess(s, unkillable, memory)
      case PriorityCall(pid, priority) => SetPriority(s, pid, priority)
      case WaitCall(pid) => WaitPid(s, pid)
      case ReapCall(pid) => WaitReturn(s, pid)
  }

  /** The table when a process has been marked BLOCKED and nothing else has happened yet. */
  function MarkedBlocked(s: Sched, pid: int, sleep: bool): (t: Sched)
    requires Sized(s) && Exists(s, pid)
    ensures Sized(t)
  {
    SetStatus(if sleep then s else RemoveSleeping(s, pid), pid, Blocked)
  }

  lemma MarkedBlockedMid(s: Sched, pid: int, sleep: bool)
    requires Mid(s) && Exists(s, pid) && pid != INIT_PID
    ensures Mid(MarkedBlocked(s, pid, sleep))
  {
    var t := if sleep then s else RemoveSleeping(s, pid);
    if !sleep { RemoveSleepingMid(s, pid); }
    assert SlotOk(t, pid);
    PutMid(t, pid, t.procs[pid].value.(status := Blocked));
  }

  lemma SleepBlockInv(s: Sched, pid: int, sleep: bool)
    requires Mid(s) && HasStatus(s, s.current, Running) && !s.force
    ensures Inv(SleepBlock(s, pid, sleep))
  {
    if pid != INIT_PID && Exists(s, pid) && !HasStatus(s, pid, Terminated) {
      MarkedBlockedMid(s, pid, sleep);
      if pid == s.current {
        YieldRestoresInv(MarkedBlocked(s, pid, sleep));
      }
    }
  }

  function Asleep(s: Sched, n: nat): Sched
    requires Sized(s) && s.current != NO_PID
  {
    var end := Later(s.ticks, n);
    s.(sleepers := s.sleepers[s.current := Sleeper(s.current, end)],
       nextCheck := if end < s.nextCheck then end else s.nextCheck)
  }

  lemma AsleepMid(s: Sched, n: nat)
    requires Mid(s) && s.current != NO_PID
    ensures Mid(Asleep(s, n))
  {
    var t := Asleep(s, n);
    forall i | 0 <= i < |t.procs| ensures SlotOk(t, i) {
      assert SlotOk(s, i);
    }
    forall i | 0 <= i < |t.sleepers| ensures SleeperOk(t, i) {
      assert SleeperOk(s, i);
    }
  }

  lemma SleepInv(s: Sched, n: nat)
    requires Inv(s)
    ensures Inv(Sleep(s, n))
  {
    AsleepMid(s, n);
    SleepBlockInv(Asleep(s, n), s.current, true);
    assert Sleep(s, n) == SleepBlock(Asleep(s, n), s.current, true);
  }

  lemma RemovedMid(s: Sched, pid: nat)
    requires Mid(s) && Exists(s, pid) && pid != INIT_PID
    ensures Mid(Removed(s, pid)) && Removed(s, pid).current == s.current
  {
    AdoptMid(s, pid);
    var t := AdoptChildren(s, pid);
    WakeParentMid(t, pid);
    RemoveSleepingMid(WakeParent(t, pid), pid);
    RemoveMid(RemoveSleeping(WakeParent(t, pid), pid), pid);
  }

  /** Killing another process leaves the running one running. */
  lemma RemovedKeepsRunning(s: Sched, pid: nat)
    requires Inv(s) && Exists(s, pid) && pid != s.current
    ensures HasStatus(Removed(s, pid), s.current, Running) && !Removed(s, pid).force
  {
    var t := AdoptChildren(s, pid);
    assert t.procs[s.current] == Adopted(s.procs[s.current], pid);
  }

  lemma KillInv(s: Sched, pid: int)
    requires Inv(s)
    ensures Inv(KillProcess(s, pid))
  {
    if Killable(s, pid) {
      assert SlotOk(s, pid);
      RemovedMid(s, pid);
      if HasStatus(s, pid, Running) {
        YieldRestoresInv(Removed(s, pid));
      } else {
        RemovedKeepsRunning(s, pid);
      }
    }
  }

  /** The TERMINATED mark is gone again before the step ends. */
  lemma ExitMid(s: Sched)
    requires Inv(s) && s.current != INIT_PID
    ensures var t := RemoveSleeping(SetStatus(s, s.current, Terminated), s.current);
            Mid(RemoveProcess(WakeParent(t, s.current), s.current))
  {
    var c := s.current;
    var t := RemoveSleeping(SetStatus(s, c, Terminated), c);
    var u := RemoveSleeping(s, c);
    RemoveSleepingMid(s, c);
    WakeParentMid(u, c);
    RemoveMid(WakeParent(u, c), c);
    assert RemoveProcess(WakeParent(t, c), c).procs == RemoveProcess(WakeParent(u, c), c).procs;
  }

  lemma ExitInv(s: Sched)
    requires Inv(s) && s.current != INIT_PID
    ensures Inv(MyExit(s))
  {
    var t := RemoveSleeping(SetStatus(s, s.current, Terminated), s.current);
    ExitMid(s);
    YieldRestoresInv(RemoveProcess(WakeParent(t, s.current), s.current));
  }

  lemma WaitInv(s: Sched, pid: int)
    requires Inv(s) && s.current != INIT_PID
    ensures Inv(WaitPid(s, pid))
  {
    if Exists(s, pid) && s.procs[pid].value.parent == s.current {
      assert SlotOk(s, pid);
      assert SlotOk(s, s.current);
      var t := Put(s, s.current, s.procs[s.current].value.(waitingFor := pid));
      PutMid(s, s.current, s.procs[s.current].value.(waitingFor := pid));
      SleepBlockInv(t, s.current, false);
    }
  }

  lemma ReapInv(s: Sched, pid: int)
    requires Inv(s) && pid != s.current && pid != INIT_PID
    ensures Inv(WaitReturn(s, pid))
  {
    assert SlotOk(s, s.current);
    var t := Put(s, s.current, s.procs[s.current].value.(waitingFor := NO_PID));
    PutMid(s, s.current, s.procs[s.current].value.(waitingFor := NO_PID));
    RemoveMid(t, pid);
  }

  lemma PriorityInv(s: Sched, pid: int, priority: nat)
    requires Inv(s)
    ensures Inv(SetPriority(s, pid, priority))
  {
    if Exists(s, pid) && MIN_PRIORITY <= priority <= MAX_PRIORITY {
      assert SlotOk(s, pid);
      PutMid(s, pid, s.procs[pid].value.(priority := priority, quantum := priority));
    }
  }

  /** Every step keeps the invariant. */
  lemma StepKeepsInv(s: Sched, e: Event)
    requires Inv(s) && Enabled(s, e)
    ensures Inv(Step(s, e))
  {
    match e
    case Tick => TimerRestoresInv(s);
    case YieldCall => YieldRestoresInv(s);
    case SleepCall(n) => SleepInv(s, n);
    case BlockCall(pid) => SleepBlockInv(s, pid, false);
    case UnblockCall(pid) => UnblockMid(s, pid);
    case KillCall(pid) => KillInv(s, pid);
    case ExitCall => ExitInv(s);
    case CreateCall(unkillable, memory) => AddMid(s, unkillable, memory);
    case PriorityCall(pid, priority) => PriorityInv(s, pid, priority);
    case WaitCall(pid) => WaitInv(s, pid);
    case ReapCall(pid) => ReapInv(s, pid);
  }

  lemma BootMid()
    ensures Mid(Booted())
  {
    var s := Booted();
    var empty: seq<Option<Proc>> := seq(MAX_PROCESSES, _ => None);
    NoneCount(empty);
    CountUpdate(empty, INIT_PID, s.procs[INIT_PID]);
  }

  /** The first tick dispatches init. */
  lemma BootInv()
    ensures Inv(TimerHandler(Booted()))
  {
    BootMid();
    TimerRestoresInv(Booted());
  }

  lemma {:induction false} NoneCount(a: seq<Option<Proc>>)
    requires forall i :: 0 <= i < |a| ==> a[i].None?
    ensures Count(a) == 0
    decreases |a|
  {
    if a != [] {
      NoneCount(a[1..]);
    }
  }

  // ----- runs -----

  /** trace[i + 1] follows from trace[i] by the i-th event. */
  predicate IsRun(trace: seq<Sched>, events: seq<Event>) {
    && |trace| == |events| + 1
    && (forall i :: 0 <= i < |trace| ==> Sized(trace[i]))
    && (forall i :: 0 <= i < |events| ==> Enabled(trace[i], events[i]) && trace[i + 1] == Step(trace[i], events[i]))
  }

  /** Any sequence of enabled events, of any length, stays within the invariant. */
  lemma {:induction false} RunKeepsInv(trace: seq<Sched>, events: seq<Event>, n: nat)
    requires IsRun(trace, events) && Inv(trace[0]) && n < |trace|
    ensures Inv(trace[n])
  {
    if n > 0 {
      RunKeepsInv(trace, events, n - 1);
      StepKeepsInv(trace[n - 1], events[n - 1]);
    }
  }
}
