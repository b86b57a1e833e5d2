/** What every kernel call does to every slot and every semaphore, a kill in two parts included. */
module KernelEffects {
  import opened Common
  import opened KernelModel
  import opened SchedulerTheorems
  import opened Fairness
  import opened Kinship
  import opened WaitQueue
  import opened Agreement
  import opened Effects
  import SemaphoreModel

  type Sem = SemaphoreModel.Sem

  /** The running process cannot pass. */
  predicate Stopped(k: Kernel, name: string) {
    name in k.sems && k.sems[name].value <= 0
  }

  predicate HasWaiters(k: Kernel, name: string) {
    name in k.sems && k.sems[name].queue != []
  }

  function ExpectedSlot(k: Kernel, c: Call, i: nat): Slot
    requires Sized(k.sched) && i < MAX_PROCESSES && Exists(k.sched, k.sched.current)
  {
    var s := k.sched;
    match c
    case Sys(e) => Expected(s, e, i)
    case WaitOn(name) => if Stopped(k, name) then Expected(s, BlockCall(s.current), i) else SlotOf(s, i)
    case PostTo(name) => if HasWaiters(k, name) then Expected(s, UnblockCall(k.sems[name].queue[0]), i) else SlotOf(s, i)
    case Clean(pid) => CleanSlot(s, pid, i)
    case Remove(pid) =>
      RungIf(pid == s.current, if i == pid then SlotOf(s, i).(face := None) else SlotOf(s, i), (s.ticks + 1) % UINT64)
    case _ => SlotOf(s, i)
  }

  // ----- slots -----

  lemma Removes(s: Sched, pid: int) returns (m: Sched)
    requires Inv(s) && pid != INIT_PID
    ensures Mid(m) && m.ticks == s.ticks && FinishKill(s, pid) == if pid == s.current then Yield(m) else m
    ensures forall i: nat :: i < MAX_PROCESSES ==> SlotOf(m, i) == if i == pid then SlotOf(s, i).(face := None) else SlotOf(s, i)
  {
    RemoveMid(s, pid);
    m := RemoveProcess(s, pid);
  }

  lemma FinishedSlot(s: Sched, pid: int, i: nat)
    requires Inv(s) && pid != INIT_PID && i < MAX_PROCESSES
    ensures SlotOf(FinishKill(s, pid), i)
            == RungIf(pid == s.current, if i == pid then SlotOf(s, i).(face := None) else SlotOf(s, i), (s.ticks + 1) % UINT64)
  {
    var m := Removes(s, pid);
    if pid == s.current { YieldSlot(m, i); }
    FinishedFrom(s, pid, m, FinishKill(s, pid), i);
  }

  lemma FinishedFrom(s: Sched, pid: int, m: Sched, t: Sched, i: nat)
    requires Sized(s) && Sized(m) && Sized(t) && i < MAX_PROCESSES && m.ticks == s.ticks
    requires SlotOf(m, i) == if i == pid then SlotOf(s, i).(face := None) else SlotOf(s, i)
    requires SlotOf(t, i) == RungIf(pid == s.current, SlotOf(m, i), (m.ticks + 1) % UINT64)
    ensures SlotOf(t, i)
            == RungIf(pid == s.current, if i == pid then SlotOf(s, i).(face := None) else SlotOf(s, i), (s.ticks + 1) % UINT64)
  {
  }

  lemma WaitOnSlot(k: Kernel, name: string, i: nat)
    requires Agrees(k) && i < MAX_PROCESSES
    ensures SlotOf(Perform(k, WaitOn(name)).sched, i) == ExpectedSlot(k, WaitOn(name), i)
  {
    if Stopped(k, name) {
      QueuesNeverFill(k, name);
      BlockSlot(k.sched, k.sched.current, i);
    }
  }

  lemma PostToSlot(k: Kernel, name: string, i: nat)
    requires Agrees(k) && i < MAX_PROCESSES
    ensures SlotOf(Perform(k, PostTo(name)).sched, i) == ExpectedSlot(k, PostTo(name), i)
  {
    if HasWaiters(k, name) {
      assert QueuedIn(k, name, k.sems[name].queue[0]);
      QueuedParked(k, name, k.sems[name].queue[0]);
      OtherSlot(k.sched, UnblockCall(k.sems[name].queue[0]), i);
    }
  }

  lemma SysSlot(k: Kernel, e: Event, i: nat)
    requires Agrees(k) && Legal(k, Sys(e)) && i < MAX_PROCESSES
    ensures SlotOf(Perform(k, Sys(e)).sched, i) == ExpectedSlot(k, Sys(e), i)
  {
    StepOnSlot(k.sched, e, i);
    assert Perform(k, Sys(e)).sched == Step(k.sched, e);
  }

  lemma KillPartSlot(k: Kernel, c: Call, i: nat)
    requires Agrees(k) && Legal(k, c) && i < MAX_PROCESSES && (c.Clean? || c.Remove?)
    ensures SlotOf(Perform(k, c).sched, i) == ExpectedSlot(k, c, i)
  {
    if c.Remove? {
      FinishedSlot(k.sched, c.pid, i);
    } else if Mortal(k.sched, c.pid) {
      CleanedSlot(k.sched, c.pid, i);
    }
  }

  /** Every call does to every slot what is expected of it, and nothing else. */
  lemma PerformOnSlot(k: Kernel, c: Call, i: nat)
    requires Agrees(k) && Legal(k, c) && i < MAX_PROCESSES
    ensures SlotOf(Perform(k, c).sched, i) == ExpectedSlot(k, c, i)
  {
    match c
    case Sys(e) => SysSlot(k, e, i);
    case WaitOn(name) => WaitOnSlot(k, name, i);
    case PostTo(name) => PostToSlot(k, name, i);
    case Clean(_) => KillPartSlot(k, c, i);
    case Remove(_) => KillPartSlot(k, c, i);
    case _ =>
  }

  // ----- semaphores -----

  /** The queue without pid, the others in their order. */
  function Others(q: seq<int>, pid: int): seq<int> {
    if q == [] then [] else (if q[0] == pid then [] else [q[0]]) + Others(q[1..], pid)
  }

  /** What every call leaves of the semaphore of that name. */
  function ExpectedSem(k: Kernel, c: Call, name: string): Option<Sem> {
    var was := if name in k.sems then Some(k.sems[name]) else None;
    match c
    case Open(n, initial, memory) =>
      if n != name || |k.sems| >= MAX_SEMAPHORES then was
      else if was.Some? then Some(was.value.(users := was.value.users + 1))
      else if memory then Some(SemaphoreModel.Sem(initial, 1, []))
      else None
    case Close(n) =>
      if n != name || was.None? then was
      else if was.value.users > 1 then Some(was.value.(users := was.value.users - 1))
      else None
    case WaitOn(n) =>
      if n != name || was.None? then was
      else if was.value.value > 0 then Some(was.value.(value := was.value.value - 1))
      else Some(was.value.(queue := was.value.queue + [k.sched.current]))
    case PostTo(n) =>
      if n != name || was.None? then was
      else if was.value.queue == [] then Some(was.value.(value := was.value.value + 1))
      else Some(was.value.(queue := was.value.queue[1..]))
    case Clean(pid) =>
      if was.Some? && Mortal(k.sched, pid) then Some(was.value.(queue := Others(was.value.queue, pid))) else was
    case Sys(e) =>
      if was.Some? && e.KillCall? && Mortal(k.sched, e.pid) then Some(was.value.(queue := Others(was.value.queue, e.pid))) else was
    case Remove(_) => was
  }

  lemma {:induction false} OthersAbsent(q: seq<int>, pid: int)
    requires pid !in q
    ensures Others(q, pid) == q
  {
    if q != [] { OthersAbsent(q[1..], pid); }
  }

  lemma {:induction false} FirstIsOnly(q: seq<int>, pid: int)
    requires SemaphoreModel.NoRepeats(q)
    ensures RemoveFirst(q, pid) == Others(q, pid)
  {
    if q != [] {
      if q[0] == pid { OthersAbsent(q[1..], pid); } else { FirstIsOnly(q[1..], pid); }
    }
  }

  lemma DropIsOthers(k: Kernel, name: string, pid: int)
    requires Agrees(k) && name in k.sems
    ensures SemaphoreModel.Drop(k.sems[name], pid) == k.sems[name].(queue := Others(k.sems[name].queue, pid))
  {
    QueuesNeverFill(k, name);
    assert QueueOk(k.sched, k.sems[name]);
    FirstIsOnly(k.sems[name].queue, pid);
  }

  /** Every call does to every semaphore what is expected of it, and nothing else. */
  lemma PerformOnSem(k: Kernel, c: Call, name: string)
    requires Agrees(k) && Legal(k, c)
    ensures var t := Perform(k, c); (if name in t.sems then Some(t.sems[name]) else None) == ExpectedSem(k, c, name)
  {
    if name in k.sems {
      QueuesNeverFill(k, name);
      match c
      case Clean(pid) => DropIsOthers(k, name, pid);
      case Sys(e) => if e.KillCall? { DropIsOthers(k, name, e.pid); }
      case _ =>
    }
  }

  // ----- processes that cannot be killed -----

  /** Neither a whole kill nor its first part does anything to an unkillable process. */
  lemma UnkillableUntouched(k: Kernel, pid: int)
    requires Exists(k.sched, pid) && k.sched.procs[pid].value.unkillable && Sized(k.sched)
    ensures Perform(k, Sys(KillCall(pid))) == k && Perform(k, Clean(pid)) == k
  {
  }

  /** The call takes the process in slot i out of the table. */
  predicate Gone(s: Sched, c: Call, i: nat) {
    match c
    case Sys(e) => Ends(s, e, i) || (e == KillCall(i) && Mortal(s, i))
    case Remove(pid) => pid == i
    case _ => false
  }

  /** Who is in the table after a call, with which flag. */
  lemma WhoIsThere(k: Kernel, c: Call, i: nat)
    requires Agrees(k) && Legal(k, c) && i < MAX_PROCESSES
    ensures var p, q := k.sched.procs[i], Perform(k, c).sched.procs[i];
            && (p.Some? ==> (q.None? <==> Gone(k.sched, c, i)))
            && (p.Some? && q.Some? ==> q.value.unkillable == p.value.unkillable)
            && (p.None? && q.Some? ==> c.Sys? && c.event.CreateCall? && q.value.unkillable == c.event.unkillable)
  {
    PerformOnSlot(k, c, i);
    ThereAfter(k, c, i, Perform(k, c).sched);
  }

  lemma ThereAfter(k: Kernel, c: Call, i: nat, t: Sched)
    requires Sized(k.sched) && Sized(t) && i < MAX_PROCESSES && Exists(k.sched, k.sched.current)
    requires SlotOf(t, i) == ExpectedSlot(k, c, i)
    ensures var p, q := k.sched.procs[i], t.procs[i];
            && (p.Some? ==> (q.None? <==> Gone(k.sched, c, i)))
            && (p.Some? && q.Some? ==> q.value.unkillable == p.value.unkillable)
            && (p.None? && q.Some? ==> c.Sys? && c.event.CreateCall? && q.value.unkillable == c.event.unkillable)
  {
  }
}
