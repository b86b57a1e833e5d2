/** How long a READY process can be kept from the processor. */
module Fairness {
  import opened Common
  import opened KernelModel
  import opened SchedulerTheorems

  /** How many slots after c, going round, slot p comes. */
  function Dist(c: int, p: int): (d: nat)
    requires 0 <= c < MAX_PROCESSES && 0 <= p < MAX_PROCESSES
    ensures d < MAX_PROCESSES && (d == 0 <==> c == p)
  {
    if c <= p then p - c else p - c + MAX_PROCESSES
  }

  function QuantumLeft(s: Sched): nat {
    if Exists(s, s.current) then s.procs[s.current].value.quantum else 0
  }

  predicate Waiting(s: Sched, p: int) {
    HasStatus(s, p, Ready) && p != s.current && s.current != NO_PID
  }

  /** An upper bound on the scheduler calls before p is dispatched. */
  function Budget(s: Sched, p: int): (b: nat)
    requires Sized(s) && Waiting(s, p)
    ensures b >= 1
  {
    (MAX_PRIORITY + 1) * (Dist(s.current, p) - 1) + QuantumLeft(s) + 1
  }

  // ----- one call of schedule -----

  /** The scan from slot k, which lies after c and not after p, stops at p at the latest. */
  lemma {:induction false} ScanReaches(procs: seq<Option<Proc>>, c: int, k: nat, n: nat, p: int)
    requires |procs| == MAX_PROCESSES && 0 <= c < MAX_PROCESSES && 0 <= p < MAX_PROCESSES && k < MAX_PROCESSES
    requires procs[p].Some? && procs[p].value.status == Ready
    requires Dist(k, p) < Dist(c, p) && Dist(k, p) < n
    ensures var r := NextReady(procs, k, n);
            r != NO_PID && Dist(r, p) < Dist(c, p)
    decreases n
  {
    if !(procs[k].Some? && procs[k].value.status == Ready) {
      ScanReaches(procs, c, (k + 1) % MAX_PROCESSES, n - 1, p);
    }
  }

  lemma NextSlotDist(c: int, p: int)
    requires 0 <= c < MAX_PROCESSES && 0 <= p < MAX_PROCESSES && c != p
    ensures Dist(ScanStart(c), p) + 1 == Dist(c, p)
  {
  }

  lemma ScanProgress(u: Sched, p: int)
    requires Mid(u) && Waiting(u, p)
    ensures var i := NextReady(u.procs, ScanStart(u.current), |u.procs|);
            i != NO_PID && Dist(i, p) < Dist(u.current, p) && u.procs[i].value.priority <= MAX_PRIORITY
  {
    NextSlotDist(u.current, p);
    ScanReaches(u.procs, u.current, ScanStart(u.current), |u.procs|, p);
    assert SlotOk(u, NextReady(u.procs, ScanStart(u.current), |u.procs|));
  }

  /** schedule dispatches p, or uses up part of the budget. */
  lemma ScheduleProgress(s: Sched, p: int)
    requires Mid(s) && Waiting(s, p)
    ensures var t := Schedule(s);
            t.current == p || (Waiting(t, p) && Budget(t, p) + 1 <= Budget(s, p))
  {
    ScheduleChooses(s);
    PreemptReady(s);
    var u := Preempt(s);
    if !KeepsCpu(u) {
      ScanProgress(u, p);
    }
  }

  // ----- waking sleepers in between -----

  /** Same current process, quanta and READY processes; more processes may have become READY. */
  predicate Undisturbed(s: Sched, t: Sched) {
    && Sized(s) && Sized(t) && t.current == s.current
    && (forall i :: 0 <= i < MAX_PROCESSES ==>
          && (t.procs[i].Some? <==> s.procs[i].Some?)
          && (t.procs[i].Some? ==> t.procs[i].value.quantum == s.procs[i].value.quantum)
          && (HasStatus(s, i, Ready) ==> HasStatus(t, i, Ready)))
  }

  lemma {:induction false} WakeFromUndisturbed(s: Sched, i: nat)
    requires Sized(s) && i <= MAX_PROCESSES
    ensures Undisturbed(s, WakeFrom(s, i))
    decreases MAX_PROCESSES - i
  {
    if i < MAX_PROCESSES {
      WakeFromUndisturbed(WakeSlot(s, i), i + 1);
    }
  }

  lemma UndisturbedBudget(s: Sched, t: Sched, p: int)
    requires Undisturbed(s, t) && Waiting(s, p)
    ensures Waiting(t, p) && Budget(t, p) == Budget(s, p)
  {
  }

  /** One timer interrupt. */
  lemma TimerProgress(s: Sched, p: int)
    requires Mid(s) && Waiting(s, p)
    ensures var t := TimerHandler(s);
            t.current == p || (Waiting(t, p) && Budget(t, p) + 1 <= Budget(s, p))
  {
    var u := s.(ticks := Later(s.ticks, 1));
    ClockMid(s, Later(s.ticks, 1), s.force);
    UnblockSleepingMid(u);
    var v := UnblockSleeping(u);
    if u.ticks >= u.nextCheck {
      WakeFromUndisturbed(u.(nextCheck := UINT64_MAX), 0);
    }
    assert Undisturbed(s, v);
    UndisturbedBudget(s, v, p);
    ScheduleProgress(v, p);
  }

  lemma YieldProgress(s: Sched, p: int)
    requires Mid(s) && Waiting(s, p)
    ensures var t := Yield(s);
            t.current == p || (Waiting(t, p) && Budget(t, p) + 1 <= Budget(s, p))
  {
    ClockMid(s, s.ticks, true);
    TimerProgress(s.(force := true), p);
  }

  // ----- one step of any kind -----

  /** Every call of schedule comes from the timer handler, which counts it in ticks. */
  function HandlerRuns(s: Sched, t: Sched): nat {
    if t.ticks == s.ticks then 0 else 1
  }

  /** The step gives the running process a fresh quantum. */
  predicate RefillsCurrent(s: Sched, e: Event) {
    e.PriorityCall? && e.pid == s.current
  }

  /** p is still waiting, and each handler run has used up part of the budget; or p is running. */
  predicate Progress(s: Sched, t: Sched, p: int)
    requires Sized(s) && Sized(t) && Waiting(s, p)
  {
    t.current == p || (Waiting(t, p) && Budget(t, p) + HandlerRuns(s, t) <= Budget(s, p))
  }

  /** The state in which a step calls the handler. */
  predicate Before(s: Sched, m: Sched, p: int)
    requires Sized(s) && Waiting(s, p)
  {
    Mid(m) && Waiting(m, p) && Budget(m, p) <= Budget(s, p) && m.ticks == s.ticks
  }

  lemma HandlerProgress(s: Sched, m: Sched, p: int)
    requires Sized(s) && Waiting(s, p) && Before(s, m, p)
    ensures Progress(s, Yield(m), p)
  {
    YieldProgress(m, p);
  }

  lemma BlockProgress(s: Sched, m: Sched, p: int, sleep: bool)
    requires Inv(s) && Waiting(s, p) && Before(s, m, p) && HasStatus(m, m.current, Running) && m.current == s.current
    ensures Progress(s, SleepBlock(m, m.current, sleep), p)
  {
    var c := m.current;
    if c != INIT_PID {
      MarkedBlockedMid(m, c, sleep);
      HandlerProgress(s, MarkedBlocked(m, c, sleep), p);
    }
  }

  lemma KillProgress(s: Sched, pid: int, p: int)
    requires Inv(s) && Waiting(s, p) && HasStatus(KillProcess(s, pid), p, Ready)
    ensures Progress(s, KillProcess(s, pid), p)
  {
    if Killable(s, pid) {
      assert SlotOk(s, pid);
      RemovedMid(s, pid);
      RemovedOthers(s, pid, p);
      if HasStatus(s, pid, Running) {
        HandlerProgress(s, Removed(s, pid), p);
      }
    }
  }

  lemma RemovedOthers(s: Sched, pid: int, p: int)
    requires Inv(s) && Exists(s, pid)
    ensures var t := Removed(s, pid);
            && t.ticks == s.ticks && QuantumLeft(t) <= QuantumLeft(s)
            && (p != pid && HasStatus(s, p, Ready) ==> HasStatus(t, p, Ready)) && (p == pid ==> !Exists(t, p))
  {
    var t := AdoptChildren(s, pid);
    assert t.procs[s.current] == Adopted(s.procs[s.current], pid);
    if Exists(s, p) { assert t.procs[p] == Adopted(s.procs[p], pid); }
  }

  lemma ExitProgress(s: Sched, p: int)
    requires Inv(s) && s.current != INIT_PID && Waiting(s, p)
    ensures Progress(s, MyExit(s), p)
  {
    var c := s.current;
    ExitMid(s);
    var t := RemoveSleeping(SetStatus(s, c, Terminated), c);
    HandlerProgress(s, RemoveProcess(WakeParent(t, c), c), p);
  }

  lemma StepProgress(s: Sched, e: Event, p: int)
    requires Inv(s) && Enabled(s, e) && Waiting(s, p) && !RefillsCurrent(s, e)
    requires HasStatus(Step(s, e), p, Ready)
    ensures Progress(s, Step(s, e), p)
  {
    match e
    case Tick => TimerProgress(s, p);
    case YieldCall => HandlerProgress(s, s, p);
    case SleepCall(n) =>
      AsleepMid(s, n);
      BlockProgress(s, Asleep(s, n), p, true);
    case BlockCall(pid) => if pid == s.current { BlockProgress(s, s, p, false); }
    case UnblockCall(pid) =>
    case KillCall(pid) => KillProgress(s, pid, p);
    case ExitCall => ExitProgress(s, p);
    case CreateCall(unkillable, memory) =>
    case PriorityCall(pid, priority) =>
    case WaitCall(pid) =>
      if Exists(s, pid) && s.procs[pid].value.parent == s.current {
        assert SlotOk(s, pid) && SlotOk(s, s.current);
        PutMid(s, s.current, s.procs[s.current].value.(waitingFor := pid));
        BlockProgress(s, Put(s, s.current, s.procs[s.current].value.(waitingFor := pid)), p, false);
      }
    case ReapCall(pid) =>
  }

  // ----- runs -----

  /** Timer handler runs along a trace. */
  function Handled(trace: seq<Sched>): nat {
    if |trace| < 2 then 0
    else Handled(trace[..|trace| - 1]) + HandlerRuns(trace[|trace| - 2], trace[|trace| - 1])
  }

  lemma {:induction false} BudgetAlongRun(trace: seq<Sched>, events: seq<Event>, p: int, n: nat)
    requires IsRun(trace, events) && Inv(trace[0]) && Waiting(trace[0], p) && n < |trace|
    requires forall i :: 0 <= i <= n ==> HasStatus(trace[i], p, Ready)
    requires forall i :: 0 <= i < n ==> !RefillsCurrent(trace[i], events[i])
    ensures Waiting(trace[n], p) && Budget(trace[n], p) + Handled(trace[..n + 1]) <= Budget(trace[0], p)
    decreases n
  {
    if n > 0 {
      BudgetAlongRun(trace, events, p, n - 1);
      RunKeepsInv(trace, events, n - 1);
      RunKeepsInv(trace, events, n);
      StepProgress(trace[n - 1], events[n - 1], p);
      assert trace[..n + 1][..n] == trace[..n];
      assert Sized(trace[n]);
    } else {
      assert |trace[..1]| == 1;
    }
  }

  /**
   A process that stays READY is dispatched before the timer handler has run 5 * d times, where d is
   how many slots it comes after the running one, whatever others yield, sleep, block, wake, die or are
   created, as long as no process gives itself a new priority meanwhile.
   */
  lemma NoStarvation(trace: seq<Sched>, events: seq<Event>, p: int)
    requires IsRun(trace, events) && Inv(trace[0]) && Waiting(trace[0], p)
    requires forall i :: 0 <= i < |trace| ==> HasStatus(trace[i], p, Ready)
    requires forall i :: 0 <= i < |events| ==> !RefillsCurrent(trace[i], events[i])
    ensures Handled(trace) < (MAX_PRIORITY + 1) * Dist(trace[0].current, p)
  {
    var n := |events|;
    BudgetAlongRun(trace, events, p, n);
    assert trace[..n + 1] == trace;
    assert SlotOk(trace[0], trace[0].current);
  }

  // ----- why setPriority is excluded -----

  lemma RefillThenTick(s: Sched, p: int)
    requires Inv(s) && Waiting(s, p)
    ensures var t := SetPriority(s, s.current, MAX_PRIORITY); var u := TimerHandler(t);
            && Inv(t) && Inv(u) && u.current == s.current && Waiting(t, p) && Waiting(u, p)
            && HandlerRuns(s, t) == 0 && HandlerRuns(t, u) == 1
  {
    PriorityInv(s, s.current, MAX_PRIORITY);
    var t := SetPriority(s, s.current, MAX_PRIORITY);
    TurnGoesOn(t);
    TimerRestoresInv(t);
    ReadyStays(t, p);
  }

  lemma ReadyStays(s: Sched, p: int)
    requires Inv(s) && HasStatus(s, p, Ready) && TimerHandler(s).current == s.current
    ensures HasStatus(TimerHandler(s), p, Ready) && HandlerRuns(s, TimerHandler(s)) == 1
  {
    HandlerShape(s);
    PreemptReady(AfterWakes(s));
  }

  /** A process that renews its own priority before every tick keeps the processor forever. */
  lemma {:induction false} SelfPriorityStarves(s: Sched, p: int, n: nat) returns (trace: seq<Sched>, events: seq<Event>)
    requires Inv(s) && Waiting(s, p)
    ensures IsRun(trace, events) && trace[0] == s && Handled(trace) == n
    ensures forall i :: 0 <= i < |trace| ==> HasStatus(trace[i], p, Ready)
    ensures Inv(trace[|events|]) && Waiting(trace[|events|], p)
  {
    if n == 0 {
      trace, events := [s], [];
    } else {
      trace, events := SelfPriorityStarves(s, p, n - 1);
      var last := trace[|events|];
      var e := PriorityCall(last.current, MAX_PRIORITY);
      RefillThenTick(last, p);
      var t := SetPriority(last, last.current, MAX_PRIORITY);
      var u := TimerHandler(t);
      ExtendRun(trace, events, e, t, p);
      ExtendRun(trace + [t], events + [e], Tick, u, p);
      trace, events := trace + [t] + [u], events + [e] + [Tick];
    }
  }

  lemma ExtendRun(trace: seq<Sched>, events: seq<Event>, e: Event, t: Sched, p: int)
    requires IsRun(trace, events) && Inv(trace[|events|]) && Enabled(trace[|events|], e)
    requires t == Step(trace[|events|], e) && HasStatus(t, p, Ready)
    requires forall i :: 0 <= i < |trace| ==> HasStatus(trace[i], p, Ready)
    ensures IsRun(trace + [t], events + [e])
    ensures Handled(trace + [t]) == Handled(trace) + HandlerRuns(trace[|events|], t)
    ensures forall i :: 0 <= i < |trace + [t]| ==> HasStatus((trace + [t])[i], p, Ready)
  {
    assert (trace + [t])[..|trace|] == trace;
  }

  // ----- the length of a turn -----

  function AfterWakes(s: Sched): (t: Sched)
    requires Sized(s)
    ensures Sized(t)
  {
    UnblockSleeping(s.(ticks := Later(s.ticks, 1)))
  }

  lemma HandlerShape(s: Sched)
    requires Mid(s)
    ensures var v := AfterWakes(s);
            && Mid(v) && Undisturbed(s, v) && v.force == s.force && v.ticks == Later(s.ticks, 1) != s.ticks
            && TimerHandler(s) == Schedule(v)
            && (HasStatus(s, s.current, Running) ==> HasStatus(v, s.current, Running))
  {
    var u := s.(ticks := Later(s.ticks, 1));
    ClockMid(s, Later(s.ticks, 1), s.force);
    UnblockSleepingMid(u);
    TickMoves(s.ticks);
    if u.ticks >= u.nextCheck {
      WakeFromUndisturbed(u.(nextCheck := UINT64_MAX), 0);
      if HasStatus(s, s.current, Running) {
        WakeFromRunning(u.(nextCheck := UINT64_MAX), 0, s.current);
      }
    }
  }

  lemma TickMoves(tick: nat)
    ensures Later(tick, 1) != tick
  {
  }

  lemma {:induction false} WakeFromRunning(s: Sched, i: nat, c: int)
    requires Sized(s) && i <= MAX_PROCESSES && HasStatus(s, c, Running)
    ensures HasStatus(WakeFrom(s, i), c, Running)
    decreases MAX_PROCESSES - i
  {
    if i < MAX_PROCESSES {
      WakeFromRunning(WakeSlot(s, i), i + 1, c);
    }
  }

  /** While quantum is left, a tick takes one unit of it and nothing else happens to the turn. */
  lemma TurnGoesOn(s: Sched)
    requires Inv(s) && QuantumLeft(s) > 0
    ensures TimerHandler(s).current == s.current && QuantumLeft(TimerHandler(s)) == QuantumLeft(s) - 1
  {
    HandlerShape(s);
    ScheduleChooses(AfterWakes(s));
  }

  /**
   With no quantum left, a tick ends the turn as soon as another process is READY: a READY process that comes
   before every waiting p is dispatched with its full priority, so none is passed over.
   */
  lemma TurnEnds(s: Sched, p: int)
    requires Inv(s) && QuantumLeft(s) == 0 && Waiting(s, p)
    ensures var t := TimerHandler(s);
            && t.current != s.current && 0 <= t.current && Dist(t.current, p) < Dist(s.current, p)
            && HasStatus(AfterWakes(s), t.current, Ready)
            && Exists(t, t.current) && QuantumLeft(t) == t.procs[t.current].value.priority
  {
    HandlerShape(s);
    var v := AfterWakes(s);
    ScheduleChooses(v);
    PreemptReady(v);
    ScanProgress(Preempt(v), p);
  }

  function Ticks(s: Sched, n: nat): (t: Sched)
    requires Sized(s)
    ensures Sized(t)
  {
    if n == 0 then s else TimerHandler(Ticks(s, n - 1))
  }

  /** A process dispatched with priority q, while another is READY, runs for exactly q + 1 ticks. */
  lemma {:induction false} TurnLength(s: Sched, p: int, n: nat)
    requires Inv(s) && Waiting(s, p) && n <= QuantumLeft(s) + 1
    ensures Inv(Ticks(s, n))
    ensures Ticks(s, n).current == s.current <==> n <= QuantumLeft(s)
    ensures n <= QuantumLeft(s) ==> Waiting(Ticks(s, n), p) && QuantumLeft(Ticks(s, n)) == QuantumLeft(s) - n
  {
    if n > 0 {
      TurnLength(s, p, n - 1);
      var t := Ticks(s, n - 1);
      TimerRestoresInv(t);
      if n <= QuantumLeft(s) {
        TurnGoesOn(t);
        ReadyStays(t, p);
      } else {
        TurnEnds(t, p);
      }
    }
  }
}
