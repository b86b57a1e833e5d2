/** The cached tick of the sleep table, and when a sleeper wakes. */
module Sleeping {
  import opened Common
  import opened KernelModel
  import opened SchedulerTheorems
  import opened Fairness

  // ----- the cache -----

  predicate Due(s: Sched, i: nat)
    requires i < |s.sleepers|
  {
    Active(s.sleepers[i]) && s.sleepers[i].endTick <= s.ticks
  }

  /** Slot i after looking at every entry on this tick, without any cache. */
  function ScannedProc(s: Sched, i: nat): Option<Proc>
    requires Sized(s) && i < MAX_PROCESSES
  {
    if Due(s, i) && HasStatus(s, i, Blocked) then Some(s.procs[i].value.(status := Ready)) else s.procs[i]
  }

  function ScannedSleeper(s: Sched, i: nat): Sleeper
    requires Sized(s) && i < MAX_PROCESSES
  {
    if Due(s, i) then s.sleepers[i].(pid := NO_PID) else s.sleepers[i]
  }

  lemma WakeSlotScans(s: Sched, i: nat, j: nat)
    requires i < MAX_PROCESSES && MidBelow(s, i) && j < MAX_PROCESSES
    ensures var t := WakeSlot(s, i);
            && t.procs[j] == (if j == i then ScannedProc(s, j) else s.procs[j])
            && t.sleepers[j] == (if j == i then ScannedSleeper(s, j) else s.sleepers[j])
  {
  }

  /** The loop from i on: slots below i are left alone, the others are as scanned. */
  lemma {:induction false} WakeFromScans(s: Sched, i: nat, j: nat)
    requires i <= MAX_PROCESSES && MidBelow(s, i) && j < MAX_PROCESSES
    ensures var t := WakeFrom(s, i);
            && t.procs[j] == (if j < i then s.procs[j] else ScannedProc(s, j))
            && t.sleepers[j] == (if j < i then s.sleepers[j] else ScannedSleeper(s, j))
    decreases MAX_PROCESSES - i
  {
    if i < MAX_PROCESSES {
      WakeSlotMid(s, i);
      WakeSlotScans(s, i, j);
      WakeFromScans(WakeSlot(s, i), i + 1, j);
    }
  }

  /** The scan leaves the cache at the earliest remaining end tick, or at the maximum. */
  lemma {:induction false} WakeFromEarliest(s: Sched, i: nat)
    requires i <= MAX_PROCESSES && MidBelow(s, i) && s.nextCheck <= UINT64_MAX
    requires s.nextCheck == UINT64_MAX || exists j :: 0 <= j < i && Active(s.sleepers[j]) && s.sleepers[j].endTick == s.nextCheck
    ensures var t := WakeFrom(s, i);
            t.nextCheck == UINT64_MAX
            || exists j :: 0 <= j < MAX_PROCESSES && Active(t.sleepers[j]) && t.sleepers[j].endTick == t.nextCheck
    decreases MAX_PROCESSES - i
  {
    if i < MAX_PROCESSES {
      WakeSlotMid(s, i);
      var t := WakeSlot(s, i);
      if t.nextCheck == s.nextCheck {
        if j :| 0 <= j < i && Active(s.sleepers[j]) && s.sleepers[j].endTick == s.nextCheck {
          assert t.sleepers[j] == s.sleepers[j];
        }
      } else {
        assert Active(t.sleepers[i]) && t.sleepers[i].endTick == t.nextCheck;
      }
      WakeFromEarliest(t, i + 1);
    }
  }

  /** Skipping the scan before the cached tick changes nothing: the outcome is that of a full scan on every tick. */
  lemma CacheRefinesFullScan(s: Sched, i: nat)
    requires Mid(s) && i < MAX_PROCESSES
    ensures UnblockSleeping(s).procs[i] == ScannedProc(s, i)
    ensures UnblockSleeping(s).sleepers[i] == ScannedSleeper(s, i)
  {
    assert SleeperOk(s, i);
    if s.ticks >= s.nextCheck {
      ScanMid(s);
      WakeFromScans(s.(nextCheck := UINT64_MAX), 0, i);
    }
  }

  // ----- how long a sleep lasts -----

  /** p sleeps until tick end; it does not wait for a child as well. */
  predicate SleepsTo(s: Sched, p: int, end: nat) {
    HasStatus(s, p, Blocked) && s.procs[p].value.waitingFor <= 0
    && p < |s.sleepers| && s.sleepers[p] == Sleeper(p, end)
  }

  /** The event is aimed at p by number. */
  predicate Names(e: Event, p: int) {
    match e
    case BlockCall(pid) => pid == p
    case UnblockCall(pid) => pid == p
    case KillCall(pid) => pid == p
    case ReapCall(pid) => pid == p
    case _ => false
  }

  /** What the handler does to a sleeper. */
  lemma HandlerOnSleeper(s: Sched, p: int, end: nat)
    requires Mid(s) && SleepsTo(s, p, end)
    ensures var t := TimerHandler(s);
            && t.ticks == Later(s.ticks, 1)
            && if end <= t.ticks then !HasStatus(t, p, Blocked) else SleepsTo(t, p, end)
  {
    HandlerShape(s);
    var u := s.(ticks := Later(s.ticks, 1));
    ClockMid(s, Later(s.ticks, 1), s.force);
    CacheRefinesFullScan(u, p);
    ScheduleChooses(AfterWakes(s));
    PreemptReady(AfterWakes(s));
  }

  lemma YieldOnSleeper(s: Sched, p: int, end: nat)
    requires Mid(s) && SleepsTo(s, p, end)
    ensures var t := Yield(s);
            && t.ticks == Later(s.ticks, 1)
            && if end <= t.ticks then !HasStatus(t, p, Blocked) else SleepsTo(t, p, end)
  {
    ClockMid(s, s.ticks, true);
    HandlerOnSleeper(s.(force := true), p, end);
  }

  /** After a step: still asleep, unless the handler ran and the end tick has been reached. */
  predicate SleptThrough(s: Sched, t: Sched, p: int, end: nat) {
    if t.ticks == s.ticks then SleepsTo(t, p, end)
    else
      && t.ticks == Later(s.ticks, 1)
      && if end <= t.ticks then !HasStatus(t, p, Blocked) else SleepsTo(t, p, end)
  }

  lemma BlockOnSleeper(s: Sched, m: Sched, p: int, end: nat, pid: int, sleep: bool)
    requires Mid(m) && HasStatus(m, m.current, Running) && SleepsTo(m, p, end) && m.ticks == s.ticks && pid != p
    ensures SleptThrough(s, SleepBlock(m, pid, sleep), p, end)
  {
    TickMoves(m.ticks);
    if pid != INIT_PID && Exists(m, pid) && !HasStatus(m, pid, Terminated) {
      MarkedBlockedMid(m, pid, sleep);
      if pid == m.current {
        YieldOnSleeper(MarkedBlocked(m, pid, sleep), p, end);
      }
    }
  }

  lemma RemovedOnSleeper(s: Sched, p: int, end: nat, pid: int)
    requires Mid(s) && SleepsTo(s, p, end) && Exists(s, pid) && pid != p && pid != INIT_PID
    ensures SleepsTo(Removed(s, pid), p, end) && Removed(s, pid).ticks == s.ticks
  {
    var t := AdoptChildren(s, pid);
    assert t.procs[p] == Adopted(s.procs[p], pid);
  }

  lemma LeavingOnSleeper(s: Sched, p: int, end: nat)
    requires Inv(s) && SleepsTo(s, p, end)
    ensures var t := RemoveSleeping(SetStatus(s, s.current, Terminated), s.current);
            var u := RemoveProcess(WakeParent(t, s.current), s.current);
            SleepsTo(u, p, end) && u.ticks == s.ticks
  {
    assert SlotOk(s, s.current);
  }

  lemma ExitOnSleeper(s: Sched, p: int, end: nat)
    requires Inv(s) && s.current != INIT_PID && SleepsTo(s, p, end)
    ensures SleptThrough(s, MyExit(s), p, end)
  {
    var c := s.current;
    ExitMid(s);
    LeavingOnSleeper(s, p, end);
    TickMoves(s.ticks);
    var t := RemoveSleeping(SetStatus(s, c, Terminated), c);
    YieldOnSleeper(RemoveProcess(WakeParent(t, c), c), p, end);
  }

  lemma StepOnSleeper(s: Sched, e: Event, p: int, end: nat)
    requires Inv(s) && Enabled(s, e) && SleepsTo(s, p, end) && !Names(e, p)
    ensures SleptThrough(s, Step(s, e), p, end)
  {
    TickMoves(s.ticks);
    match e
    case Tick => HandlerOnSleeper(s, p, end);
    case YieldCall => YieldOnSleeper(s, p, end);
    case SleepCall(n) =>
      AsleepMid(s, n);
      BlockOnSleeper(s, Asleep(s, n), p, end, s.current, true);
    case BlockCall(pid) => BlockOnSleeper(s, s, p, end, pid, false);
    case UnblockCall(pid) =>
    case KillCall(pid) =>
      if Killable(s, pid) {
        assert SlotOk(s, pid);
        RemovedMid(s, pid);
        RemovedOnSleeper(s, p, end, pid);
        if HasStatus(s, pid, Running) { YieldOnSleeper(Removed(s, pid), p, end); }
      }
    case ExitCall => ExitOnSleeper(s, p, end);
    case CreateCall(unkillable, memory) =>
    case PriorityCall(pid, priority) =>
    case WaitCall(pid) =>
      if Exists(s, pid) && s.procs[pid].value.parent == s.current {
        assert SlotOk(s, pid) && SlotOk(s, s.current);
        PutMid(s, s.current, s.procs[s.current].value.(waitingFor := pid));
        var m := Put(s, s.current, s.procs[s.current].value.(waitingFor := pid));
        BlockOnSleeper(s, m, p, end, s.current, false);
      }
    case ReapCall(pid) =>
  }

  /** The call itself: the caller is blocked, and its own context switch is the first handler run. */
  lemma SleepStarts(s: Sched, n: nat)
    requires Inv(s) && s.current != INIT_PID && s.procs[s.current].value.waitingFor <= 0
    ensures var t, end := Sleep(s, n), Later(s.ticks, n);
            t.ticks == Later(s.ticks, 1)
            && if end <= t.ticks then !HasStatus(t, s.current, Blocked) else SleepsTo(t, s.current, end)
  {
    AsleepMid(s, n);
    MarkedBlockedMid(Asleep(s, n), s.current, true);
    YieldOnSleeper(MarkedBlocked(Asleep(s, n), s.current, true), s.current, Later(s.ticks, n));
  }

  /** Handler runs from a sleep call up to state k of the run that follows it, counting the call's own. */
  function Elapsed(trace: seq<Sched>, k: nat): nat
    requires k < |trace|
  {
    1 + Handled(trace[..k + 1])
  }

  lemma ElapsedStep(trace: seq<Sched>, k: nat)
    requires 0 < k < |trace|
    ensures Elapsed(trace, k) == Elapsed(trace, k - 1) + HandlerRuns(trace[k - 1], trace[k])
  {
    assert trace[..k + 1][..k] == trace[..k];
  }

  /**
   A sleep of n ticks, if nobody interferes with the sleeper, lasts exactly n handler runs (one, when n is 0):
   the process is blocked while fewer have happened, and is not blocked right after the n-th.
   */
  lemma {:induction false} SleepLastsExactly(s: Sched, n: nat, trace: seq<Sched>, events: seq<Event>, k: nat)
    requires Inv(s) && s.current != INIT_PID && s.procs[s.current].value.waitingFor <= 0 && s.ticks + n + 1 < UINT64
    requires IsRun(trace, events) && trace[0] == Sleep(s, n) && k < |trace|
    requires forall i :: 0 <= i < k ==> !Names(events[i], s.current)
    requires Elapsed(trace, k) <= n || k == 0
    ensures trace[k].ticks == s.ticks + Elapsed(trace, k)
    ensures Elapsed(trace, k) < n ==> SleepsTo(trace[k], s.current, s.ticks + n)
    ensures Elapsed(trace, k) >= n && (k == 0 || Elapsed(trace, k - 1) < n) ==> !HasStatus(trace[k], s.current, Blocked)
    decreases k
  {
    SmallLater(s.ticks, n);
    SmallLater(s.ticks, 1);
    if k == 0 {
      SleepStarts(s, n);
      assert |trace[..1]| == 1;
    } else {
      ElapsedStep(trace, k);
      SleepInv(s, n);
      RunKeepsInv(trace, events, k - 1);
      SleepLastsExactly(s, n, trace, events, k - 1);
      var t := trace[k - 1];
      if Elapsed(trace, k - 1) < n {
        SmallLater(t.ticks, 1);
        StepOnSleeper(t, events[k - 1], s.current, s.ticks + n);
      }
    }
  }

  lemma SmallLater(tick: nat, n: nat)
    requires tick + n < UINT64
    ensures Later(tick, n) == tick + n
  {
  }
}
