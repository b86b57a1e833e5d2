/**
 The scheduler and the sleep table as the kernel keeps them: two arrays and a few
 counters, changed in place. Every method is proved against the function of the same
 name in KernelModel.
 */
module Scheduler {
  import opened Common
  import opened KernelModel

  lemma StepOn(start: nat, idx: nat, n: nat)
    requires start < MAX_PROCESSES && n < MAX_PROCESSES && idx == SlotAfter(start, n)
    ensures (idx + 1) % MAX_PROCESSES == SlotAfter(start, n + 1)
    ensures SlotAfter(start, n + 1) == start <==> n + 1 == MAX_PROCESSES
  {
  }

  class Tables {
    const procs: array<Option<Proc>>
    const sleepers: array<Sleeper>
    var current: int
    var size: int
    var force: bool
    var ticks: nat
    var nextCheck: nat

    ghost function State(): Sched
      reads this, procs, sleepers
    {
      Sched(procs[..], current, size, force, ticks, nextCheck, sleepers[..])
    }

    ghost predicate Valid()
      reads this, procs, sleepers
    {
      Sized(State())
    }

    /** initScheduler and init_sleeping_processes; init itself is the first process added. */
    constructor ()
      ensures Valid() && State() == Booted() && fresh(procs) && fresh(sleepers)
    {
      procs := new Option<Proc>[MAX_PROCESSES](_ => None);
      sleepers := new Sleeper[MAX_PROCESSES](_ => Sleeper(NO_PID, 0));
      current, size, force, ticks, nextCheck := NO_PID, 0, false, 0, UINT64_MAX;
      new;
      procs[INIT_PID] := Some(Proc(INIT_PID, NO_PID, Ready, MIN_PRIORITY, MIN_PRIORITY, true, 0));
      size := size + 1;
    }

    method GetNextProcess() returns (r: int)
      requires Valid()
      modifies this`current, this`force, procs
      ensures Valid() && (State(), r) == KernelModel.GetNextProcess(old(State()))
    {
      if size == 0 {
        force := false;
        return NO_PID;
      }
      if current != NO_PID && procs[current].Some? {
        var p := procs[current].value;
        if (p.status == Ready || p.status == Running) && p.quantum > 0 && !force {
          procs[current] := Some(p.(quantum := p.quantum - 1));
          return current;
        }
      }
      var start := if current == NO_PID then 0 else (current + 1) % MAX_PROCESSES;
      r := FindReady(start);
      force := false;
      if r == NO_PID { return; }
      var candidate := procs[r].value;
      current := r;
      procs[r] := Some(candidate.(quantum := candidate.priority));
    }

    /** The do-while loop of getNextProcess. */
    method FindReady(start: nat) returns (r: int)
      requires Valid() && start < MAX_PROCESSES
      ensures r == NextReady(procs[..], start, procs.Length)
    {
      var idx := start;
      var again := true;
      ghost var n, left: nat := 0, MAX_PROCESSES;
      while again
        invariant n + left == MAX_PROCESSES && 0 <= idx < MAX_PROCESSES && again == (left > 0)
        invariant idx == SlotAfter(start, n)
        invariant NextReady(procs[..], start, procs.Length) == NextReady(procs[..], idx, left)
        decreases left
      {
        if procs[idx].Some? && procs[idx].value.status == Ready {
          return idx;
        }
        StepOn(start, idx, n);
        idx := (idx + 1) % MAX_PROCESSES;
        n, left := n + 1, left - 1;
        again := idx != start;
      }
      r := NO_PID;
    }

    method Schedule()
      requires Valid()
      modifies this`current, this`force, procs
      ensures Valid() && State() == KernelModel.Schedule(old(State()))
    {
      if size == 0 { return; }
      if current != NO_PID && procs[current].Some? && procs[current].value.status == Running {
        procs[current] := Some(procs[current].value.(status := Ready));
      }
      assert State() == Preempt(old(State()));
      var next := GetNextProcess();
      if next == NO_PID { return; }
      procs[next] := Some(procs[next].value.(status := Running));
    }

    method RemoveSleeping(pid: nat)
      requires Valid() && pid < MAX_PROCESSES
      modifies sleepers
      ensures Valid() && State() == KernelModel.RemoveSleeping(old(State()), pid)
    {
      sleepers[pid] := sleepers[pid].(pid := NO_PID);
    }

    method UnblockProcess(pid: int)
      requires Valid()
      modifies procs, sleepers
      ensures Valid() && State() == KernelModel.UnblockProcess(old(State()), pid)
    {
      if pid < 0 || pid >= MAX_PROCESSES || procs[pid].None? || procs[pid].value.status != Blocked { return; }
      RemoveSleeping(pid);
      procs[pid] := Some(procs[pid].value.(status := Ready));
    }

    method UnblockSleeping()
      requires Valid()
      modifies this`nextCheck, procs, sleepers
      ensures Valid() && State() == KernelModel.UnblockSleeping(old(State()))
    {
      if ticks < nextCheck { return; }
      nextCheck := UINT64_MAX;
      ghost var s := State();
      for i := 0 to MAX_PROCESSES
        invariant Valid() && current == old(current) && WakeFrom(s, 0) == WakeFrom(State(), i)
      {
        ghost var before := State();
        if sleepers[i].pid != NO_PID && sleepers[i].endTick <= ticks {
          UnblockProcess(sleepers[i].pid);
          sleepers[i] := sleepers[i].(pid := NO_PID);
        } else if sleepers[i].pid != NO_PID && sleepers[i].endTick < nextCheck {
          nextCheck := sleepers[i].endTick;
        }
        assert State() == WakeSlot(before, i);
      }
    }

    method TimerHandler()
      requires Valid()
      modifies this, procs, sleepers
      ensures Valid() && State() == KernelModel.TimerHandler(old(State()))
    {
      ticks := (ticks + 1) % UINT64;
      UnblockSleeping();
      Schedule();
    }

    method Yield()
      requires Valid()
      modifies this, procs, sleepers
      ensures Valid() && State() == KernelModel.Yield(old(State()))
    {
      force := true;
      TimerHandler();
    }

    method SleepBlock(pid: int, sleep: bool)
      requires Valid()
      modifies this, procs, sleepers
      ensures Valid() && State() == KernelModel.SleepBlock(old(State()), pid, sleep)
    {
      if pid == INIT_PID || pid < 0 || pid >= MAX_PROCESSES || procs[pid].None? || procs[pid].value.status == Terminated {
        return;
      }
      if !sleep {
        RemoveSleeping(pid);
      }
      procs[pid] := Some(procs[pid].value.(status := Blocked));
      if pid == current {
        Yield();
      }
    }

    method Sleep(n: nat)
      requires Valid() && current != NO_PID
      modifies this, procs, sleepers
      ensures Valid() && State() == KernelModel.Sleep(old(State()), n)
    {
      var pid := current;
      sleepers[pid] := Sleeper(pid, (ticks + n) % UINT64);
      if sleepers[pid].endTick < nextCheck {
        nextCheck := sleepers[pid].endTick;
      }
      SleepBlock(pid, true);
    }

    /** memory says whether createProcess finds the memory it needs. */
    method AddProcess(unkillable: bool, memory: bool) returns (pid: int)
      requires Valid()
      modifies this`size, procs
      ensures Valid() && State() == KernelModel.AddProcess(old(State()), unkillable, memory)
      ensures pid != NO_PID <==> State() != old(State())
      ensures pid != NO_PID ==> 0 <= pid < MAX_PROCESSES && old(procs[pid]).None? && procs[pid].Some?
    {
      pid := NO_PID;
      if size >= MAX_PROCESSES { return; }
      var i := 0;
      while i < MAX_PROCESSES && procs[i].Some?
        invariant 0 <= i <= MAX_PROCESSES
        invariant FreeSlot(procs[..], 0) == FreeSlot(procs[..], i)
      {
        i := i + 1;
      }
      if i == MAX_PROCESSES || !memory { return; }
      pid := i;
      procs[pid] := Some(Proc(pid, current, Ready, MIN_PRIORITY, MIN_PRIORITY, unkillable, 0));
      size := size + 1;
    }

    method RemoveProcess(pid: nat)
      requires Valid() && pid < MAX_PROCESSES
      modifies this`size, procs
      ensures Valid() && State() == KernelModel.RemoveProcess(old(State()), pid)
    {
      if procs[pid].None? { return; }
      procs[pid] := None;
      size := size - 1;
    }

    method AdoptChildren(pid: int)
      requires Valid()
      modifies procs
      ensures Valid() && State() == KernelModel.AdoptChildren(old(State()), pid)
    {
      for i := 0 to MAX_PROCESSES
        invariant forall j :: 0 <= j < MAX_PROCESSES ==> procs[j] == (if j < i then Adopted(old(procs[j]), pid) else old(procs[j]))
      {
        if procs[i].Some? && procs[i].value.parent == pid {
          procs[i] := Some(procs[i].value.(parent := INIT_PID));
        }
      }
    }

    method WakeParent(pid: nat)
      requires Valid() && pid < MAX_PROCESSES && procs[pid].Some?
      modifies procs, sleepers
      ensures Valid() && State() == KernelModel.WakeParent(old(State()), pid)
    {
      var parent := procs[pid].value.parent;
      if 0 <= parent < MAX_PROCESSES && procs[parent].Some? && procs[parent].value.status == Blocked
         && procs[parent].value.waitingFor == pid {
        UnblockProcess(parent);
      }
    }

    /** The semaphore queues are cleaned by the caller, see Agreement. */
    method KillProcess(pid: int)
      requires Valid()
      modifies this, procs, sleepers
      ensures Valid() && State() == KernelModel.KillProcess(old(State()), pid)
    {
      if pid < 0 || pid >= MAX_PROCESSES || procs[pid].None? || procs[pid].value.unkillable { return; }
      var contextSwitch := procs[pid].value.status == Running;
      CleanUp(pid);
      RemoveProcess(pid);
      if contextSwitch {
        Yield();
      }
    }

    /** killProcess before the end-of-file byte. */
    method CleanUp(pid: nat)
      requires Valid() && Exists(State(), pid)
      modifies procs, sleepers
      ensures Valid() && State() == CleanedUp(old(State()), pid)
    {
      AdoptChildren(pid);
      WakeParent(pid);
      RemoveSleeping(pid);
    }

    /** killProcess after the end-of-file byte. */
    method FinishKill(pid: nat)
      requires Valid() && pid < MAX_PROCESSES
      modifies this, procs, sleepers
      ensures Valid() && State() == KernelModel.FinishKill(old(State()), pid)
    {
      var contextSwitch := pid == current;
      RemoveProcess(pid);
      if contextSwitch {
        Yield();
      }
    }

    method MyExit()
      requires Valid() && current != NO_PID && procs[current].Some?
      modifies this, procs, sleepers
      ensures Valid() && State() == KernelModel.MyExit(old(State()))
    {
      var pid := current;
      procs[pid] := Some(procs[pid].value.(status := Terminated));
      RemoveSleeping(pid);
      WakeParent(pid);
      RemoveProcess(pid);
      Yield();
    }

    method SetPriority(pid: int, priority: nat)
      requires Valid()
      modifies procs
      ensures Valid() && State() == KernelModel.SetPriority(old(State()), pid, priority)
    {
      if pid < 0 || pid >= MAX_PROCESSES || procs[pid].None? || priority < MIN_PRIORITY || priority > MAX_PRIORITY { return; }
      procs[pid] := Some(procs[pid].value.(priority := priority, quantum := priority));
    }

    /** waitPid up to the point where the caller blocks. */
    method WaitPid(pid: int)
      requires Valid() && current != NO_PID && procs[current].Some?
      modifies this, procs, sleepers
      ensures Valid() && State() == KernelModel.WaitPid(old(State()), pid)
    {
      if pid < 0 || pid >= MAX_PROCESSES || procs[pid].None? || procs[pid].value.parent != current { return; }
      if procs[pid].value.status != Terminated {
        procs[current] := Some(procs[current].value.(waitingFor := pid));
        SleepBlock(current, false);
      } else {
        WaitReturn(pid);
      }
    }

    /** waitPid from the point where the caller runs again. */
    method WaitReturn(pid: nat)
      requires Valid() && current != NO_PID && procs[current].Some? && pid < MAX_PROCESSES
      modifies this`size, procs
      ensures Valid() && State() == KernelModel.WaitReturn(old(State()), pid)
    {
      procs[current] := Some(procs[current].value.(waitingFor := NO_PID));
      RemoveProcess(pid);
    }
  }
}
