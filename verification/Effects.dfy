/** What every event does to every slot of the process table and of the sleep table, told by the tables before it alone. */
module Effects {
  import opened Common
  import opened KernelModel
  import opened SchedulerTheorems
  import opened Fairness
  import opened Sleeping
  import opened Rotation

  /** A process apart from its turn: it is blocked, or READY or RUNNING. */
  datatype Face = Face(blocked: bool, parent: int, waitingFor: int, priority: nat, unkillable: bool)

  /** One slot with its entry in the sleep table. */
  datatype Slot = Slot(face: Option<Face>, alarm: Option<nat>)

  const Empty := Slot(None, None)

  function FaceOf(p: Option<Proc>): Option<Face> {
    if p.None? then None
    else Some(Face(p.value.status == Blocked, p.value.parent, p.value.waitingFor, p.value.priority, p.value.unkillable))
  }

  function SlotOf(s: Sched, i: nat): Slot
    requires Sized(s) && i < MAX_PROCESSES
  {
    Slot(FaceOf(s.procs[i]), if s.sleepers[i].pid == NO_PID then None else Some(s.sleepers[i].endTick))
  }

  function Awake(x: Slot): Slot {
    Slot(if x.face.None? then None else Some(x.face.value.(blocked := false)), None)
  }

  /** When the clock reaches tick now, whoever is due is woken. */
  function Rung(x: Slot, now: nat): Slot {
    if x.alarm.Some? && x.alarm.value <= now then Awake(x) else x
  }

  function RungIf(switch: bool, x: Slot, now: nat): Slot {
    if switch then Rung(x, now) else x
  }

  function Adopt(x: Slot, pid: int): Slot {
    if x.face.Some? && x.face.value.parent == pid then x.(face := Some(x.face.value.(parent := INIT_PID))) else x
  }

  /** i is the parent of pid, and blocked waiting for it. */
  predicate Awaits(s: Sched, i: int, pid: int) {
    HasStatus(s, i, Blocked) && s.procs[i].value.waitingFor == pid && Exists(s, pid) && s.procs[pid].value.parent == i
  }

  predicate FirstEmpty(s: Sched, i: nat) {
    i < |s.procs| && s.procs[i].None? && forall j :: 0 <= j < i ==> s.procs[j].Some?
  }

  predicate Mortal(s: Sched, pid: int) {
    Exists(s, pid) && !s.procs[pid].value.unkillable
  }

  /** The running process has a child in slot pid. */
  predicate HasChild(s: Sched, pid: int) {
    Exists(s, pid) && s.procs[pid].value.parent == s.current
  }

  /** The event ends in a context switch. */
  predicate Switches(s: Sched, e: Event) {
    match e
    case Tick => true
    case YieldCall => true
    case SleepCall(_) => s.current != INIT_PID
    case BlockCall(pid) => pid == s.current != INIT_PID
    case KillCall(pid) => pid == s.current && Mortal(s, pid)
    case ExitCall => true
    case WaitCall(pid) => HasChild(s, pid)
    case _ => false
  }

  /** Slot i when the event has happened and the clock has not yet moved. */
  function Midway(s: Sched, e: Event, i: nat): Slot
    requires Sized(s) && i < MAX_PROCESSES && Exists(s, s.current)
  {
    var x, c := SlotOf(s, i), s.current;
    match e
    case Tick => x
    case YieldCall => x
    case SleepCall(n) =>
      if i == c then Slot(Some(FaceOf(s.procs[c]).value.(blocked := c != INIT_PID)), Some((s.ticks + n) % UINT64)) else x
    case BlockCall(pid) =>
      if i == pid != INIT_PID && x.face.Some? then Slot(Some(x.face.value.(blocked := true)), None) else x
    case UnblockCall(pid) => if i == pid && x.face.Some? && x.face.value.blocked then Awake(x) else x
    case KillCall(pid) =>
      if !Mortal(s, pid) then x
      else if i == pid then Empty
      else Adopt(if Awaits(s, i, pid) then Awake(x) else x, pid)
    case ExitCall => if i == c then Empty else if Awaits(s, i, c) then Awake(x) else x
    case CreateCall(unkillable, memory) =>
      if memory && FirstEmpty(s, i) then x.(face := Some(Face(false, c, 0, MIN_PRIORITY, unkillable))) else x
    case PriorityCall(pid, priority) =>
      if i == pid && x.face.Some? && MIN_PRIORITY <= priority <= MAX_PRIORITY
      then x.(face := Some(x.face.value.(priority := priority))) else x
    case WaitCall(pid) =>
      if i == c && HasChild(s, pid) then Slot(Some(FaceOf(s.procs[c]).value.(blocked := true, waitingFor := pid)), None) else x
    case ReapCall(pid) =>
      if i == pid then x.(face := None)
      else if i == c then x.(face := Some(FaceOf(s.procs[c]).value.(waitingFor := NO_PID)))
      else x
  }

  function Expected(s: Sched, e: Event, i: nat): Slot
    requires Sized(s) && i < MAX_PROCESSES && Exists(s, s.current)
  {
    RungIf(Switches(s, e), Midway(s, e, i), (s.ticks + 1) % UINT64)
  }

  // ----- the context switch -----

  /** Whose turn it is shows in no slot. */
  lemma ScheduleSlot(v: Sched, i: nat)
    requires Mid(v) && i < MAX_PROCESSES
    ensures SlotOf(Schedule(v), i) == SlotOf(v, i)
  {
    ScheduleChooses(v);
    PreemptReady(v);
    assert SlotOf(Preempt(v), i) == SlotOf(v, i);
  }

  lemma Wakes(m: Sched) returns (v: Sched)
    requires Mid(m)
    ensures Mid(v) && TimerHandler(m) == Schedule(v)
    ensures forall i: nat :: i < MAX_PROCESSES ==> SlotOf(v, i) == Rung(SlotOf(m, i), (m.ticks + 1) % UINT64)
  {
    HandlerShape(m);
    v := AfterWakes(m);
    forall i: nat | i < MAX_PROCESSES ensures SlotOf(v, i) == Rung(SlotOf(m, i), (m.ticks + 1) % UINT64) {
      var u := MovesClock(m, i);
      ScannedSlot(u, v, i);
    }
  }

  lemma MovesClock(m: Sched, i: nat) returns (u: Sched)
    requires Mid(m) && i < MAX_PROCESSES
    ensures Sized(u) && u.ticks == (m.ticks + 1) % UINT64 && SlotOf(u, i) == SlotOf(m, i)
    ensures AfterWakes(m).procs[i] == ScannedProc(u, i) && AfterWakes(m).sleepers[i] == ScannedSleeper(u, i)
  {
    u := m.(ticks := Later(m.ticks, 1));
    ClockMid(m, Later(m.ticks, 1), m.force);
    CacheRefinesFullScan(u, i);
  }

  lemma ScannedSlot(u: Sched, v: Sched, i: nat)
    requires Sized(u) && Sized(v) && i < MAX_PROCESSES
    requires v.procs[i] == ScannedProc(u, i) && v.sleepers[i] == ScannedSleeper(u, i)
    ensures SlotOf(v, i) == Rung(SlotOf(u, i), u.ticks)
  {
  }

  lemma HandlerSlot(m: Sched, i: nat)
    requires Mid(m) && i < MAX_PROCESSES
    ensures SlotOf(TimerHandler(m), i) == Rung(SlotOf(m, i), (m.ticks + 1) % UINT64)
  {
    var v := Wakes(m);
    ScheduleSlot(v, i);
    assert SlotOf(TimerHandler(m), i) == SlotOf(Schedule(v), i);
  }

  lemma Forces(m: Sched) returns (f: Sched)
    requires Mid(m)
    ensures Mid(f) && f.ticks == m.ticks && Yield(m) == TimerHandler(f)
    ensures forall i: nat :: i < MAX_PROCESSES ==> SlotOf(f, i) == SlotOf(m, i)
  {
    ClockMid(m, m.ticks, true);
    f := m.(force := true);
  }

  lemma ThroughSwitch(m: Sched, f: Sched, t: Sched, i: nat)
    requires Sized(m) && Sized(f) && Sized(t) && i < MAX_PROCESSES && f.ticks == m.ticks
    requires SlotOf(f, i) == SlotOf(m, i) && SlotOf(t, i) == Rung(SlotOf(f, i), (f.ticks + 1) % UINT64)
    ensures SlotOf(t, i) == Rung(SlotOf(m, i), (m.ticks + 1) % UINT64)
  {
  }

  lemma YieldSlot(m: Sched, i: nat)
    requires Mid(m) && i < MAX_PROCESSES
    ensures SlotOf(Yield(m), i) == Rung(SlotOf(m, i), (m.ticks + 1) % UINT64)
  {
    var f := Forces(m);
    HandlerSlot(f, i);
    ThroughSwitch(m, f, Yield(m), i);
  }

  // ----- turns -----

  /** The same process is current, and nobody's quantum has changed. */
  predicate SameTurn(s: Sched, t: Sched) {
    t.current == s.current && |t.procs| == |s.procs| && forall i :: 0 <= i < |s.procs| ==> SameQuantum(s.procs[i], t.procs[i])
  }

  predicate SameQuantum(p: Option<Proc>, q: Option<Proc>) {
    q.Some? ==> p.Some? && q.value.quantum == p.value.quantum
  }

  /** After c the processor passes to the first runnable slot going round, c itself being the last, for a whole turn. */
  predicate PassedOn(c: int, s: Sched, t: Sched) {
    && Sized(s) && Sized(t) && 0 <= c < MAX_PROCESSES && 0 <= t.current && Runnable(t, t.current)
    && (forall k: nat :: 0 < k < Gap(c, t.current) ==> !Runnable(t, SlotAfter(c, k)))
    && t.procs[t.current].value.quantum == t.procs[t.current].value.priority
    && forall i :: 0 <= i < MAX_PROCESSES && i != t.current ==> SameQuantum(s.procs[i], t.procs[i])
  }

  lemma NextPasses(v: Sched)
    requires Mid(v) && 0 <= v.current && !KeepsCpu(Preempt(v))
    ensures PassedOn(v.current, v, Schedule(v)) && Schedule(v).ticks == v.ticks
  {
    ScheduleChooses(v);
    PreemptReady(v);
    var u := Preempt(v);
    var m := NextReadySkips(u.procs, ScanStart(v.current), |u.procs|);
    DispatchPasses(v, u, m);
  }

  lemma DispatchPasses(v: Sched, u: Sched, m: nat)
    requires Sized(v) && 0 <= v.current && u == Preempt(v) && m < MAX_PROCESSES
    requires forall i :: 0 <= i < |u.procs| ==> !HasStatus(u, i, Running)
    requires ReadyAt(u.procs, SlotAfter(ScanStart(v.current), m))
    requires forall k: nat :: k < m ==> !ReadyAt(u.procs, SlotAfter(ScanStart(v.current), k))
    ensures var j := SlotAfter(ScanStart(v.current), m);
            PassedOn(v.current, v, Dispatch(u, j, u.procs[j].value.priority))
  {
    var c, j := v.current, SlotAfter(ScanStart(v.current), m);
    var t := Dispatch(u, j, u.procs[j].value.priority);
    assert Gap(c, j) == m + 1;
    forall k: nat | 0 < k < m + 1 ensures !Runnable(t, SlotAfter(c, k)) {
      var l: nat := k - 1;
      assert SlotAfter(c, k) == SlotAfter(ScanStart(c), l);
      assert !ReadyAt(u.procs, SlotAfter(ScanStart(c), l)) && !HasStatus(u, SlotAfter(c, k), Running);
    }
  }

  lemma {:induction false} WakeFromQuanta(s: Sched, i: nat)
    requires Sized(s) && i <= MAX_PROCESSES
    ensures SameTurn(s, WakeFrom(s, i)) && WakeFrom(s, i).force == s.force
    decreases MAX_PROCESSES - i
  {
    if i < MAX_PROCESSES { WakeFromQuanta(WakeSlot(s, i), i + 1); }
  }

  lemma WakesTurn(m: Sched) returns (v: Sched)
    requires Mid(m)
    ensures Mid(v) && TimerHandler(m) == Schedule(v) && SameTurn(m, v) && v.force == m.force && v.ticks == (m.ticks + 1) % UINT64
    ensures HasStatus(m, m.current, Running) ==> HasStatus(v, m.current, Running)
  {
    HandlerShape(m);
    WakesQuanta(m, m.(ticks := Later(m.ticks, 1)));
    v := AfterWakes(m);
  }

  lemma WakesQuanta(m: Sched, u: Sched)
    requires Sized(m) && u == m.(ticks := Later(m.ticks, 1))
    ensures SameTurn(m, UnblockSleeping(u)) && UnblockSleeping(u).force == m.force
  {
    WakeFromQuanta(u.(nextCheck := UINT64_MAX), 0);
  }

  lemma Through(s: Sched, v: Sched, t: Sched)
    requires SameTurn(s, v) && PassedOn(v.current, v, t) && Sized(s)
    ensures PassedOn(s.current, s, t)
  {
    forall i | 0 <= i < MAX_PROCESSES && i != t.current ensures SameQuantum(s.procs[i], t.procs[i]) {
      assert SameQuantum(s.procs[i], v.procs[i]) && SameQuantum(v.procs[i], t.procs[i]);
    }
  }

  lemma HandlerPasses(m: Sched)
    requires Mid(m) && 0 <= m.current && (m.force || QuantumLeft(m) == 0)
    ensures PassedOn(m.current, m, TimerHandler(m)) && TimerHandler(m).ticks == (m.ticks + 1) % UINT64
  {
    var v := WakesTurn(m);
    assert SameQuantum(m.procs[m.current], v.procs[m.current]);
    NextPasses(v);
    Through(m, v, Schedule(v));
  }

  /** After every forced switch. */
  lemma YieldPasses(s: Sched, m: Sched)
    requires Mid(m) && 0 <= m.current && SameTurn(s, m) && Sized(s)
    ensures PassedOn(s.current, s, Yield(m)) && Yield(m).ticks == (m.ticks + 1) % UINT64
  {
    ClockMid(m, m.ticks, true);
    HandlerPasses(m.(force := true));
    Through(s, m, Yield(m));
  }

  // ----- events -----

  function Stopped(x: Slot, sleep: bool): Slot {
    Slot(if x.face.None? then None else Some(x.face.value.(blocked := true)), if sleep then x.alarm else None)
  }

  /** The table once pid is marked BLOCKED. */
  lemma Marks(m: Sched, pid: int, sleep: bool) returns (b: Sched)
    requires Mid(m) && Exists(m, pid) && pid != INIT_PID
    ensures Mid(b) && b.ticks == m.ticks && SleepBlock(m, pid, sleep) == if pid == m.current then Yield(b) else b
    ensures SameTurn(m, b)
    ensures forall i: nat :: i < MAX_PROCESSES ==> SlotOf(b, i) == if i == pid then Stopped(SlotOf(m, i), sleep) else SlotOf(m, i)
  {
    assert SlotOk(m, pid);
    MarkedBlockedMid(m, pid, sleep);
    b := MarkedBlocked(m, pid, sleep);
  }

  lemma SetsAlarm(s: Sched, n: nat) returns (a: Sched)
    requires Inv(s)
    ensures Mid(a) && a.ticks == s.ticks && a.current == s.current && Exists(a, s.current)
    ensures Sleep(s, n) == SleepBlock(a, s.current, true) && SameTurn(s, a)
    ensures forall i: nat :: i < MAX_PROCESSES ==>
              SlotOf(a, i) == if i == s.current then SlotOf(s, i).(alarm := Some((s.ticks + n) % UINT64)) else SlotOf(s, i)
  {
    AsleepMid(s, n);
    a := Asleep(s, n);
  }

  lemma SleepsSlot(s: Sched, a: Sched, b: Sched, n: nat, i: nat)
    requires Sized(s) && Sized(a) && Sized(b) && Exists(s, s.current) && s.current != INIT_PID && i < MAX_PROCESSES
    requires SlotOf(a, i) == if i == s.current then SlotOf(s, i).(alarm := Some((s.ticks + n) % UINT64)) else SlotOf(s, i)
    requires SlotOf(b, i) == if i == s.current then Stopped(SlotOf(a, i), true) else SlotOf(a, i)
    ensures SlotOf(b, i) == Midway(s, SleepCall(n), i)
  {
  }

  lemma Sleeps(s: Sched, n: nat) returns (b: Sched)
    requires Inv(s) && s.current != INIT_PID
    ensures Mid(b) && b.ticks == s.ticks && Sleep(s, n) == Yield(b) && SameTurn(s, b)
    ensures forall i: nat :: i < MAX_PROCESSES ==> SlotOf(b, i) == Midway(s, SleepCall(n), i)
  {
    var a := SetsAlarm(s, n);
    b := Marks(a, s.current, true);
    forall i: nat | i < MAX_PROCESSES ensures SlotOf(b, i) == Midway(s, SleepCall(n), i) {
      SleepsSlot(s, a, b, n, i);
    }
  }

  lemma SetsChild(s: Sched, pid: int) returns (a: Sched)
    requires Inv(s) && HasChild(s, pid)
    ensures Sized(a) && a.ticks == s.ticks && a.current == s.current && Exists(a, s.current)
    ensures s.current != INIT_PID ==> Mid(a)
    ensures WaitPid(s, pid) == SleepBlock(a, s.current, false) && SameTurn(s, a)
    ensures forall i: nat :: i < MAX_PROCESSES ==>
              SlotOf(a, i) == if i == s.current then SlotOf(s, i).(face := Some(FaceOf(s.procs[i]).value.(waitingFor := pid))) else SlotOf(s, i)
  {
    assert SlotOk(s, s.current) && SlotOk(s, pid);
    var me := s.procs[s.current].value.(waitingFor := pid);
    if s.current != INIT_PID { PutMid(s, s.current, me); }
    a := Put(s, s.current, me);
  }

  lemma WaitsSlot(s: Sched, a: Sched, b: Sched, pid: int, i: nat)
    requires Sized(s) && Sized(a) && Sized(b) && Exists(s, s.current) && HasChild(s, pid) && i < MAX_PROCESSES
    requires SlotOf(a, i) == if i == s.current then SlotOf(s, i).(face := Some(FaceOf(s.procs[i]).value.(waitingFor := pid))) else SlotOf(s, i)
    requires SlotOf(b, i) == if i == s.current then Stopped(SlotOf(a, i), false) else SlotOf(a, i)
    ensures SlotOf(b, i) == Midway(s, WaitCall(pid), i)
  {
  }

  lemma Waits(s: Sched, pid: int) returns (b: Sched)
    requires Inv(s) && s.current != INIT_PID && HasChild(s, pid)
    ensures Mid(b) && b.ticks == s.ticks && WaitPid(s, pid) == Yield(b) && SameTurn(s, b)
    ensures forall i: nat :: i < MAX_PROCESSES ==> SlotOf(b, i) == Midway(s, WaitCall(pid), i)
  {
    var a := SetsChild(s, pid);
    b := Marks(a, s.current, false);
    forall i: nat | i < MAX_PROCESSES ensures SlotOf(b, i) == Midway(s, WaitCall(pid), i) {
      WaitsSlot(s, a, b, pid, i);
    }
  }

  /** Slot i when the first part of a kill has cleaned up after pid, which is still there. */
  function CleanSlot(s: Sched, pid: int, i: nat): Slot
    requires Sized(s) && i < MAX_PROCESSES
  {
    var x := SlotOf(s, i);
    if !Mortal(s, pid) then x
    else if i == pid then Adopt(x.(alarm := None), pid)
    else Adopt(if Awaits(s, i, pid) then Awake(x) else x, pid)
  }

  lemma CleanedSlot(s: Sched, pid: int, i: nat)
    requires Inv(s) && i < MAX_PROCESSES && Mortal(s, pid)
    ensures SlotOf(CleanedUp(s, pid), i) == CleanSlot(s, pid, i)
  {
    var a := AdoptChildren(s, pid);
    assert a.procs[pid] == Adopted(s.procs[pid], pid) && a.procs[i] == Adopted(s.procs[i], pid);
    var q := a.procs[pid].value.parent;
    if 0 <= q < MAX_PROCESSES { assert a.procs[q] == Adopted(s.procs[q], pid); }
    WokenSlot(s, a, pid, q, i);
  }

  /** The parent of pid in the table with the children adopted is woken if it waits for pid. */
  lemma WokenSlot(s: Sched, a: Sched, pid: int, q: int, i: nat)
    requires Sized(s) && Sized(a) && i < MAX_PROCESSES && Mortal(s, pid) && !HasStatus(s, INIT_PID, Blocked) && a.sleepers == s.sleepers
    requires a.procs[pid] == Adopted(s.procs[pid], pid) && a.procs[i] == Adopted(s.procs[i], pid) && q == a.procs[pid].value.parent
    requires 0 <= q < MAX_PROCESSES ==> a.procs[q] == Adopted(s.procs[q], pid)
    ensures SlotOf(RemoveSleeping(WakeParent(a, pid), pid), i) == CleanSlot(s, pid, i)
  {
    assert HasStatus(a, q, Blocked) <==> HasStatus(s, q, Blocked);
    assert HasStatus(a, q, Blocked) && a.procs[q].value.waitingFor == pid <==> Awaits(s, q, pid);
  }

  lemma RemovedSlot(s: Sched, pid: nat, i: nat)
    requires Inv(s) && i < MAX_PROCESSES && Mortal(s, pid)
    ensures SlotOf(Removed(s, pid), i) == Midway(s, KillCall(pid), i)
  {
    CleanedSlot(s, pid, i);
    CutSlot(s, CleanedUp(s, pid), pid, i);
  }

  lemma CutSlot(s: Sched, u: Sched, pid: nat, i: nat)
    requires Sized(s) && Sized(u) && Exists(s, s.current) && i < MAX_PROCESSES && Mortal(s, pid) && SlotOf(u, i) == CleanSlot(s, pid, i)
    ensures SlotOf(RemoveProcess(u, pid), i) == Midway(s, KillCall(pid), i)
  {
  }

  lemma Removes(s: Sched, pid: int) returns (m: Sched)
    requires Inv(s) && Mortal(s, pid)
    ensures Mid(m) && m.ticks == s.ticks && KillProcess(s, pid) == if pid == s.current then Yield(m) else m
    ensures SameTurn(s, m)
    ensures forall i: nat :: i < MAX_PROCESSES ==> SlotOf(m, i) == Midway(s, KillCall(pid), i)
  {
    assert SlotOk(s, pid);
    RemovedMid(s, pid);
    m := Removed(s, pid);
    forall i: nat | i < MAX_PROCESSES ensures SlotOf(m, i) == Midway(s, KillCall(pid), i) { RemovedSlot(s, pid, i); }
  }

  /** The table of an exit before its context switch. */
  function Left(s: Sched): (m: Sched)
    requires Sized(s) && Exists(s, s.current)
    ensures Sized(m)
  {
    var t := RemoveSleeping(SetStatus(s, s.current, Terminated), s.current);
    RemoveProcess(WakeParent(t, t.current), t.current)
  }

  lemma LeftSlot(s: Sched, i: nat)
    requires Inv(s) && i < MAX_PROCESSES && s.current != INIT_PID
    ensures SlotOf(Left(s), i) == Midway(s, ExitCall, i)
  {
    assert SlotOk(s, s.current) && SleeperOk(s, i);
  }

  lemma Leaves(s: Sched) returns (m: Sched)
    requires Inv(s) && s.current != INIT_PID
    ensures Mid(m) && m.ticks == s.ticks && MyExit(s) == Yield(m) && SameTurn(s, m)
    ensures forall i: nat :: i < MAX_PROCESSES ==> SlotOf(m, i) == Midway(s, ExitCall, i)
  {
    ExitMid(s);
    m := Left(s);
    forall i: nat | i < MAX_PROCESSES ensures SlotOf(m, i) == Midway(s, ExitCall, i) { LeftSlot(s, i); }
  }

  lemma Switched(s: Sched, e: Event, m: Sched, i: nat)
    requires Sized(s) && Exists(s, s.current) && Mid(m) && m.ticks == s.ticks && i < MAX_PROCESSES && SlotOf(m, i) == Midway(s, e, i) && Switches(s, e)
    ensures SlotOf(Yield(m), i) == Expected(s, e, i)
  {
    YieldSlot(m, i);
    SwitchedSlot(s, e, m, Yield(m), i);
  }

  lemma SwitchedSlot(s: Sched, e: Event, m: Sched, t: Sched, i: nat)
    requires Sized(s) && Sized(m) && Sized(t) && Exists(s, s.current) && m.ticks == s.ticks && i < MAX_PROCESSES
    requires SlotOf(m, i) == Midway(s, e, i) && Switches(s, e) && SlotOf(t, i) == Rung(SlotOf(m, i), (m.ticks + 1) % UINT64)
    ensures SlotOf(t, i) == Expected(s, e, i)
  {
  }

  lemma SleepSlot(s: Sched, n: nat, i: nat)
    requires Inv(s) && i < MAX_PROCESSES
    ensures SlotOf(Sleep(s, n), i) == Expected(s, SleepCall(n), i)
  {
    if s.current != INIT_PID {
      var b := Sleeps(s, n);
      Switched(s, SleepCall(n), b, i);
      assert SlotOf(Sleep(s, n), i) == SlotOf(Yield(b), i);
    }
  }

  lemma BlockSlot(s: Sched, pid: int, i: nat)
    requires Inv(s) && i < MAX_PROCESSES
    ensures SlotOf(SleepBlock(s, pid, false), i) == Expected(s, BlockCall(pid), i)
  {
    if pid != INIT_PID && Exists(s, pid) {
      var b := Marks(s, pid, false);
      if pid == s.current { Switched(s, BlockCall(pid), b, i); }
      assert SlotOf(SleepBlock(s, pid, false), i) == SlotOf(if pid == s.current then Yield(b) else b, i);
    }
  }

  lemma KillSlot(s: Sched, pid: int, i: nat)
    requires Inv(s) && i < MAX_PROCESSES
    ensures SlotOf(KillProcess(s, pid), i) == Expected(s, KillCall(pid), i)
  {
    if Mortal(s, pid) {
      var m := Removes(s, pid);
      if pid == s.current { Switched(s, KillCall(pid), m, i); }
      assert SlotOf(KillProcess(s, pid), i) == SlotOf(if pid == s.current then Yield(m) else m, i);
    }
  }

  lemma ExitSlot(s: Sched, i: nat)
    requires Inv(s) && i < MAX_PROCESSES && s.current != INIT_PID
    ensures SlotOf(MyExit(s), i) == Expected(s, ExitCall, i)
  {
    var m := Leaves(s);
    Switched(s, ExitCall, m, i);
    assert SlotOf(MyExit(s), i) == SlotOf(Yield(m), i);
  }

  lemma WaitSlot(s: Sched, pid: int, i: nat)
    requires Inv(s) && i < MAX_PROCESSES && s.current != INIT_PID
    ensures SlotOf(WaitPid(s, pid), i) == Expected(s, WaitCall(pid), i)
  {
    if HasChild(s, pid) {
      var b := Waits(s, pid);
      Switched(s, WaitCall(pid), b, i);
      assert SlotOf(WaitPid(s, pid), i) == SlotOf(Yield(b), i);
    }
  }

  lemma CreateSlot(s: Sched, unkillable: bool, memory: bool, i: nat)
    requires Inv(s) && i < MAX_PROCESSES
    ensures SlotOf(AddProcess(s, unkillable, memory), i) == Expected(s, CreateCall(unkillable, memory), i)
  {
    var j := FreeSlot(s.procs, 0);
    if FirstEmpty(s, i) {
      CountBelow(s.procs, i);
      FreeSlotIs(s.procs, 0, i);
    } else if j == i {
      FreeSlotFirst(s.procs, 0);
    }
  }

  lemma {:induction false} FreeSlotFirst(procs: seq<Option<Proc>>, i: nat)
    requires i <= |procs|
    ensures var r := FreeSlot(procs, i); r != NO_PID ==> forall j :: i <= j < r ==> procs[j].Some?
    decreases |procs| - i
  {
    if i < |procs| && procs[i].Some? { FreeSlotFirst(procs, i + 1); }
  }

  lemma OtherSlot(s: Sched, e: Event, i: nat)
    requires Inv(s) && i < MAX_PROCESSES && (e.UnblockCall? || e.PriorityCall? || e.ReapCall?)
    ensures SlotOf(Step(s, e), i) == Expected(s, e, i)
  {
  }

  lemma ClockSlot(s: Sched, e: Event, i: nat)
    requires Inv(s) && i < MAX_PROCESSES && (e.Tick? || e.YieldCall?)
    ensures SlotOf(Step(s, e), i) == Expected(s, e, i)
  {
    if e.Tick? { HandlerSlot(s, i); } else { YieldSlot(s, i); }
    assert Step(s, e) == if e.Tick? then TimerHandler(s) else Yield(s);
    SwitchedSlot(s, e, s, Step(s, e), i);
  }

  /** Every event does to every slot what is expected of it, and nothing else. */
  lemma StepOnSlot(s: Sched, e: Event, i: nat)
    requires Inv(s) && Enabled(s, e) && i < MAX_PROCESSES
    ensures SlotOf(Step(s, e), i) == Expected(s, e, i)
  {
    match e
    case SleepCall(n) => SleepSlot(s, n, i);
    case BlockCall(pid) => BlockSlot(s, pid, i);
    case KillCall(pid) => KillSlot(s, pid, i);
    case ExitCall => ExitSlot(s, i);
    case CreateCall(unkillable, memory) => CreateSlot(s, unkillable, memory, i);
    case WaitCall(pid) => WaitSlot(s, pid, i);
    case _ => if e.Tick? || e.YieldCall? { ClockSlot(s, e, i); } else { OtherSlot(s, e, i); }
  }

  /** After boot: init alone, running, with the lowest priority and a whole turn; nobody sleeps. */
  lemma BootSlot(i: nat)
    requires i < MAX_PROCESSES
    ensures SlotOf(TimerHandler(Booted()), i) == if i == INIT_PID then Slot(Some(Face(false, NO_PID, 0, MIN_PRIORITY, true)), None) else Empty
  {
    BootMid();
    HandlerSlot(Booted(), i);
  }

  // ----- whose turn it is -----

  function QuantumAfter(s: Sched, e: Event, i: nat): nat
    requires i < |s.procs|
  {
    if e.PriorityCall? && e.pid == i && MIN_PRIORITY <= e.priority <= MAX_PRIORITY then e.priority
    else if s.procs[i].None? then MIN_PRIORITY
    else s.procs[i].value.quantum
  }

  /** The turn goes on for one tick less. */
  predicate TurnGoes(s: Sched, t: Sched) {
    && t.current == s.current && QuantumLeft(t) == QuantumLeft(s) - 1 && |t.procs| == |s.procs|
    && forall i :: 0 <= i < |s.procs| && i != s.current ==> SameQuantum(s.procs[i], t.procs[i])
  }

  predicate TurnAfter(s: Sched, e: Event, t: Sched) {
    && Sized(s) && Sized(t)
    && if !Switches(s, e) then
         t.current == s.current && t.ticks == s.ticks
         && forall i :: 0 <= i < MAX_PROCESSES && t.procs[i].Some? ==> t.procs[i].value.quantum == QuantumAfter(s, e, i)
       else
         t.ticks == (s.ticks + 1) % UINT64
         && if e.Tick? && QuantumLeft(s) > 0 then TurnGoes(s, t) else PassedOn(s.current, s, t)
  }

  lemma TickTurn(s: Sched)
    requires Inv(s)
    ensures TurnAfter(s, Tick, Step(s, Tick))
  {
    if QuantumLeft(s) > 0 { TickGoes(s); } else { HandlerPasses(s); }
  }

  lemma TickGoes(s: Sched)
    requires Inv(s) && QuantumLeft(s) > 0
    ensures TurnGoes(s, TimerHandler(s)) && TimerHandler(s).ticks == (s.ticks + 1) % UINT64
  {
    var v := WakesTurn(s);
    assert SameQuantum(s.procs[s.current], v.procs[s.current]);
    ScheduleChooses(v);
    forall i | 0 <= i < MAX_PROCESSES && i != s.current ensures SameQuantum(s.procs[i], Schedule(v).procs[i]) {
      assert SameQuantum(s.procs[i], v.procs[i]);
    }
  }

  lemma ForcedTurn(s: Sched, e: Event, m: Sched, t: Sched)
    requires Inv(s) && Mid(m) && SameTurn(s, m) && m.ticks == s.ticks && Switches(s, e) && !e.Tick? && t == Yield(m)
    ensures TurnAfter(s, e, t)
  {
    YieldPasses(s, m);
  }

  lemma KeptTurn(s: Sched, e: Event, t: Sched)
    requires Sized(s) && Sized(t) && SameTurn(s, t) && t.ticks == s.ticks && !Switches(s, e) && !e.PriorityCall?
    ensures TurnAfter(s, e, t)
  {
    forall i | 0 <= i < MAX_PROCESSES && t.procs[i].Some? ensures t.procs[i].value.quantum == QuantumAfter(s, e, i) {
      assert SameQuantum(s.procs[i], t.procs[i]);
    }
  }

  lemma SleepTurn(s: Sched, n: nat)
    requires Inv(s)
    ensures TurnAfter(s, SleepCall(n), Sleep(s, n))
  {
    if s.current != INIT_PID {
      var b := Sleeps(s, n);
      ForcedTurn(s, SleepCall(n), b, Sleep(s, n));
    }
  }

  lemma BlockTurn(s: Sched, pid: int)
    requires Inv(s)
    ensures TurnAfter(s, BlockCall(pid), SleepBlock(s, pid, false))
  {
    if pid != INIT_PID && Exists(s, pid) {
      var b := Marks(s, pid, false);
      if pid == s.current { ForcedTurn(s, BlockCall(pid), b, Yield(b)); } else { KeptTurn(s, BlockCall(pid), b); }
    }
  }

  lemma KillTurn(s: Sched, pid: int)
    requires Inv(s)
    ensures TurnAfter(s, KillCall(pid), KillProcess(s, pid))
  {
    if Mortal(s, pid) {
      var m := Removes(s, pid);
      if pid == s.current { ForcedTurn(s, KillCall(pid), m, Yield(m)); } else { KeptTurn(s, KillCall(pid), m); }
    }
  }

  lemma ExitTurn(s: Sched)
    requires Inv(s) && s.current != INIT_PID
    ensures TurnAfter(s, ExitCall, MyExit(s))
  {
    var m := Leaves(s);
    ForcedTurn(s, ExitCall, m, Yield(m));
  }

  lemma WaitTurn(s: Sched, pid: int)
    requires Inv(s) && s.current != INIT_PID
    ensures TurnAfter(s, WaitCall(pid), WaitPid(s, pid))
  {
    if HasChild(s, pid) {
      var b := Waits(s, pid);
      ForcedTurn(s, WaitCall(pid), b, Yield(b));
    }
  }

  lemma OtherTurn(s: Sched, e: Event)
    requires Inv(s) && (e.UnblockCall? || e.PriorityCall? || e.ReapCall? || e.CreateCall?)
    ensures TurnAfter(s, e, Step(s, e))
  {
  }

  lemma YieldTurn(s: Sched)
    requires Inv(s)
    ensures TurnAfter(s, YieldCall, Yield(s))
  {
    ForcedTurn(s, YieldCall, s, Yield(s));
  }

  /** And every event passes the processor on, or not, as told by the tables before it. */
  lemma StepOnTurn(s: Sched, e: Event)
    requires Inv(s) && Enabled(s, e)
    ensures TurnAfter(s, e, Step(s, e))
  {
    match e
    case Tick => TickTurn(s);
    case YieldCall => YieldTurn(s);
    case SleepCall(n) => SleepTurn(s, n);
    case BlockCall(pid) => BlockTurn(s, pid);
    case KillCall(pid) => KillTurn(s, pid);
    case ExitCall => ExitTurn(s);
    case WaitCall(pid) => WaitTurn(s, pid);
    case _ => OtherTurn(s, e);
  }

  // ----- parents and children -----

  /** The event takes the process in slot c out of the table at once. */
  predicate Takes(s: Sched, e: Event, c: nat) {
    (e.ExitCall? && s.current == c) || (e == KillCall(c) && Mortal(s, c))
  }

  /** At the context switch the sleep of i is over. */
  predicate RungOut(s: Sched, e: Event, i: nat) {
    i < |s.sleepers| && Switches(s, e) && Active(s.sleepers[i]) && s.sleepers[i].endTick <= (s.ticks + 1) % UINT64
  }

  /**
   Whoever leaves leaves its slot empty and wakes its parent exactly if that waits for it. Of the others that are
   blocked, only those whose sleep ends at a context switch change.
   */
  lemma LeavingWakesParent(s: Sched, e: Event, c: nat, i: nat)
    requires Inv(s) && Enabled(s, e) && c < MAX_PROCESSES && Takes(s, e, c) && HasStatus(s, i, Blocked) && i != c
    ensures var t := Step(s, e);
            && t.procs[c].None? && !Active(t.sleepers[c])
            && Exists(t, i) && t.procs[i].value.waitingFor == s.procs[i].value.waitingFor
            && (Awaits(s, i, c) ==> Runnable(t, i) && !Active(t.sleepers[i]))
            && (!Awaits(s, i, c) ==> (HasStatus(t, i, Blocked) <==> !RungOut(s, e, i)))
  {
    var t := Step(s, e);
    StepOnSlot(s, e, c);
    StepOnSlot(s, e, i);
    StepKeepsInv(s, e);
    assert SlotOk(t, i);
    LeftBehind(s, e, c, i, t);
  }

  lemma LeftBehind(s: Sched, e: Event, c: nat, i: nat, t: Sched)
    requires Sized(s) && Sized(t) && Exists(s, s.current) && c < MAX_PROCESSES && Takes(s, e, c) && HasStatus(s, i, Blocked) && i != c
    requires SlotOf(t, c) == Expected(s, e, c) && SlotOf(t, i) == Expected(s, e, i) && !HasStatus(t, i, Terminated)
    ensures t.procs[c].None? && !Active(t.sleepers[c])
    ensures Exists(t, i) && t.procs[i].value.waitingFor == s.procs[i].value.waitingFor
    ensures Awaits(s, i, c) ==> Runnable(t, i) && !Active(t.sleepers[i])
    ensures !Awaits(s, i, c) ==> (HasStatus(t, i, Blocked) <==> !RungOut(s, e, i))
  {
  }

  /** A killed process leaves its children to init; one that exits leaves them as they are. */
  lemma ChildrenAfter(s: Sched, e: Event, c: nat, i: nat)
    requires Inv(s) && Enabled(s, e) && c < MAX_PROCESSES && Takes(s, e, c) && Exists(s, i) && i != c
    ensures var t := Step(s, e);
            Exists(t, i)
            && t.procs[i].value.parent == if e.KillCall? && s.procs[i].value.parent == c then INIT_PID else s.procs[i].value.parent
  {
    StepOnSlot(s, e, i);
  }

  // ----- processes that cannot be killed -----

  /** The event is an exit of process i or the reaping of it. */
  predicate Ends(s: Sched, e: Event, i: nat) {
    (e.ExitCall? && s.current == i) || e == ReapCall(i)
  }

  /** Killing an unkillable process changes nothing at all; any other existing process is gone. */
  lemma KillIffMortal(s: Sched, pid: int)
    requires Inv(s) && Exists(s, pid)
    ensures s.procs[pid].value.unkillable ==> Step(s, KillCall(pid)) == s
    ensures !s.procs[pid].value.unkillable ==> Step(s, KillCall(pid)).procs[pid].None?
  {
    StepOnSlot(s, KillCall(pid), pid);
  }

  /** A process has the flag it was created with, and leaves only by its own exit, by being reaped, or, without the flag, by a kill. */
  lemma FlagStays(s: Sched, e: Event, i: nat)
    requires Inv(s) && Enabled(s, e) && i < MAX_PROCESSES
    ensures var p, q := s.procs[i], Step(s, e).procs[i];
            && (p.Some? ==> (q.None? <==> Ends(s, e, i) || (e == KillCall(i) && !p.value.unkillable)))
            && (p.Some? && q.Some? ==> q.value.unkillable == p.value.unkillable)
            && (p.None? && q.Some? ==> e.CreateCall? && q.value.unkillable == e.unkillable && q.value.parent == s.current)
  {
    StepOnSlot(s, e, i);
  }

  /** In any run an unkillable process stays, whoever is killed, until it exits or is reaped. */
  lemma {:induction false} UnkillableStays(trace: seq<Sched>, events: seq<Event>, i: nat, n: nat)
    requires IsRun(trace, events) && Inv(trace[0]) && n < |trace| && Exists(trace[0], i) && trace[0].procs[i].value.unkillable
    requires forall j :: 0 <= j < n ==> !Ends(trace[j], events[j], i)
    ensures Exists(trace[n], i) && trace[n].procs[i].value.unkillable
  {
    if n > 0 {
      UnkillableStays(trace, events, i, n - 1);
      RunKeepsInv(trace, events, n - 1);
      FlagStays(trace[n - 1], events[n - 1], i);
    }
  }
}
