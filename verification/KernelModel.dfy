/**
 The process table, the scheduler and the sleep table (scheduler.c and time.c) on
 values. Interrupts are off inside the kernel, so every function here is one atomic
 step, up to and including the context switch it may end with.
 */
module KernelModel {
  import opened Common

  const MAX_PROCESSES := 64
  const NO_PID := -1
  const INIT_PID := 0
  const MIN_PRIORITY := 1
  const MAX_PRIORITY := 4
  const UINT64: nat := 0x1_0000_0000_0000_0000
  const UINT64_MAX: nat := UINT64 - 1

  datatype Status = Ready | Blocked | Running | Terminated

  datatype Proc = Proc(pid: int, parent: int, status: Status, priority: nat, quantum: nat, unkillable: bool, waitingFor: int)

  /** An entry of the sleep table; pid is NO_PID when the entry is not in use. */
  datatype Sleeper = Sleeper(pid: int, endTick: nat)

  datatype Sched = Sched(
    procs: seq<Option<Proc>>, current: int, size: int, force: bool,
    ticks: nat, nextCheck: nat, sleepers: seq<Sleeper>)

  /** The tables have their fixed sizes and current is a slot or NO_PID. */
  predicate Sized(s: Sched) {
    |s.procs| == MAX_PROCESSES == |s.sleepers| && NO_PID <= s.current < MAX_PROCESSES
  }

  predicate Exists(s: Sched, pid: int) {
    0 <= pid < |s.procs| && s.procs[pid].Some?
  }

  predicate HasStatus(s: Sched, pid: int, st: Status) {
    Exists(s, pid) && s.procs[pid].value.status == st
  }

  function Put(s: Sched, pid: int, p: Proc): (t: Sched)
    requires 0 <= pid < |s.procs|
    ensures Sized(s) ==> Sized(t)
  {
    s.(procs := s.procs[pid := Some(p)])
  }

  function SetStatus(s: Sched, pid: int, st: Status): (t: Sched)
    requires Exists(s, pid)
    ensures Sized(s) ==> Sized(t)
  {
    Put(s, pid, s.procs[pid].value.(status := st))
  }

  // ----- choosing the next process -----

  /** The slot n places after start, going round. */
  function SlotAfter(start: int, n: nat): int {
    if start + n < MAX_PROCESSES then start + n else start + n - MAX_PROCESSES
  }

  /** The first READY slot among n slots from idx on, cyclically, or NO_PID. */
  function NextReady(procs: seq<Option<Proc>>, idx: nat, n: nat): (r: int)
    requires |procs| == MAX_PROCESSES && idx < MAX_PROCESSES
    ensures r == NO_PID || 0 <= r < MAX_PROCESSES
    ensures r != NO_PID ==> procs[r].Some? && procs[r].value.status == Ready
    decreases n
  {
    if n == 0 then NO_PID
    else if procs[idx].Some? && procs[idx].value.status == Ready then idx
    else NextReady(procs, (idx + 1) % MAX_PROCESSES, n - 1)
  }

  function ScanStart(current: int): (r: nat)
    requires NO_PID <= current < MAX_PROCESSES
    ensures r < MAX_PROCESSES
  {
    if current == NO_PID then 0 else (current + 1) % MAX_PROCESSES
  }

  /** The current process may go on: it is runnable, has quantum left and no reschedule is forced. */
  predicate KeepsCpu(s: Sched) {
    Exists(s, s.current) && s.procs[s.current].value.status in {Ready, Running}
    && s.procs[s.current].value.quantum > 0 && !s.force
  }

  /** getNextProcess: the chosen slot, or NO_PID. */
  function GetNextProcess(s: Sched): (r: (Sched, int))
    requires Sized(s)
    ensures Sized(r.0) && (r.1 != NO_PID ==> Exists(r.0, r.1) && r.1 == r.0.current)
  {
    if s.size == 0 then (s.(force := false), NO_PID)
    else if KeepsCpu(s) then
      var p := s.procs[s.current].value;
      (Put(s, s.current, p.(quantum := p.quantum - 1)), s.current)
    else
      var i := NextReady(s.procs, ScanStart(s.current), |s.procs|);
      if i == NO_PID then (s.(force := false), NO_PID)
      else
        var p := s.procs[i].value;
        (Put(s.(current := i, force := false), i, p.(quantum := p.priority)), i)
  }

  function Preempt(s: Sched): (t: Sched)
    ensures Sized(s) ==> Sized(t)
  {
    if HasStatus(s, s.current, Running) then SetStatus(s, s.current, Ready) else s
  }

  /** A slot emptied under the running process is skipped. */
  function Schedule(s: Sched): (t: Sched)
    requires Sized(s)
    ensures Sized(t)
  {
    if s.size == 0 then s
    else
      var (t, i) := GetNextProcess(Preempt(s));
      if i == NO_PID then t else SetStatus(t, i, Running)
  }

  // ----- sleeping -----

  function RemoveSleeping(s: Sched, pid: int): (t: Sched)
    requires 0 <= pid < |s.sleepers|
    ensures Sized(s) ==> Sized(t)
  {
    s.(sleepers := s.sleepers[pid := s.sleepers[pid].(pid := NO_PID)])
  }

  function UnblockProcess(s: Sched, pid: int): (t: Sched)
    requires Sized(s)
    ensures Sized(t)
  {
    if HasStatus(s, pid, Blocked) then SetStatus(RemoveSleeping(s, pid), pid, Ready) else s
  }

  function Active(e: Sleeper): bool {
    e.pid != NO_PID
  }

  /** One turn of the loop over the sleep table. */
  function WakeSlot(s: Sched, i: nat): (t: Sched)
    requires Sized(s) && i < MAX_PROCESSES
    ensures Sized(t)
  {
    var e := s.sleepers[i];
    if Active(e) && e.endTick <= s.ticks then
      var t := UnblockProcess(s, e.pid);
      t.(sleepers := t.sleepers[i := t.sleepers[i].(pid := NO_PID)])
    else if Active(e) && e.endTick < s.nextCheck then s.(nextCheck := e.endTick)
    else s
  }

  function WakeFrom(s: Sched, i: nat): (t: Sched)
    requires Sized(s) && i <= MAX_PROCESSES
    ensures Sized(t)
    decreases MAX_PROCESSES - i
  {
    if i == MAX_PROCESSES then s else WakeFrom(WakeSlot(s, i), i + 1)
  }

  function UnblockSleeping(s: Sched): (t: Sched)
    requires Sized(s)
    ensures Sized(t)
  {
    if s.ticks < s.nextCheck then s else WakeFrom(s.(nextCheck := UINT64_MAX), 0)
  }

  /** The 64-bit tick counter. */
  function Later(tick: nat, n: nat): nat {
    (tick + n) % UINT64
  }

  function TimerHandler(s: Sched): (t: Sched)
    requires Sized(s)
    ensures Sized(t)
  {
    Schedule(UnblockSleeping(s.(ticks := Later(s.ticks, 1))))
  }

  function Yield(s: Sched): (t: Sched)
    requires Sized(s)
    ensures Sized(t)
  {
    TimerHandler(s.(force := true))
  }

  /** Processes are blocked with their sleep entry kept (sleep) or dropped (block). */
  function SleepBlock(s: Sched, pid: int, sleep: bool): (t: Sched)
    requires Sized(s)
    ensures Sized(t)
  {
    if pid == INIT_PID || !Exists(s, pid) || HasStatus(s, pid, Terminated) then s
    else
      var t := SetStatus(if sleep then s else RemoveSleeping(s, pid), pid, Blocked);
      if pid == t.current then Yield(t) else t
  }

  /** The running process sleeps for n ticks. */
  function Sleep(s: Sched, n: nat): (t: Sched)
    requires Sized(s) && s.current != NO_PID
    ensures Sized(t)
  {
    var pid, end := s.current, Later(s.ticks, n);
    var t := s.(sleepers := s.sleepers[pid := Sleeper(pid, end)],
                nextCheck := if end < s.nextCheck then end else s.nextCheck);
    SleepBlock(t, pid, true)
  }

  // ----- creating and removing processes -----

  /** The first empty slot from i on, or NO_PID. */
  function FreeSlot(procs: seq<Option<Proc>>, i: nat): (r: int)
    requires i <= |procs|
    ensures r == NO_PID || (i <= r < |procs| && procs[r].None?)
    ensures r == NO_PID ==> forall j :: i <= j < |procs| ==> procs[j].Some?
    decreases |procs| - i
  {
    if i == |procs| then NO_PID
    else if procs[i].None? then i
    else FreeSlot(procs, i + 1)
  }

  /** memory says whether createProcess finds the memory it needs. */
  function AddProcess(s: Sched, unkillable: bool, memory: bool): (t: Sched)
    requires Sized(s)
    ensures Sized(t)
  {
    var i := FreeSlot(s.procs, 0);
    if s.size >= MAX_PROCESSES || i == NO_PID || !memory then s
    else
      Put(s, i, Proc(i, s.current, Ready, MIN_PRIORITY, MIN_PRIORITY, unkillable, 0)).(size := s.size + 1)
  }

  function RemoveProcess(s: Sched, pid: int): (t: Sched)
    ensures Sized(s) ==> Sized(t)
  {
    if Exists(s, pid) then s.(procs := s.procs[pid := None], size := s.size - 1) else s
  }

  function Adopted(p: Option<Proc>, pid: int): Option<Proc> {
    if p.Some? && p.value.parent == pid then Some(p.value.(parent := INIT_PID)) else p
  }

  function AdoptChildren(s: Sched, pid: int): (t: Sched)
    requires Sized(s)
    ensures Sized(t)
  {
    s.(procs := seq(MAX_PROCESSES, i requires 0 <= i < |s.procs| => Adopted(s.procs[i], pid)))
  }

  /** The parent of pid is woken if it waits for pid. */
  function WakeParent(s: Sched, pid: int): (t: Sched)
    requires Sized(s) && Exists(s, pid)
    ensures Sized(t)
  {
    var parent := s.procs[pid].value.parent;
    if HasStatus(s, parent, Blocked) && s.procs[parent].value.waitingFor == pid
    then UnblockProcess(s, parent) else s
  }

  predicate Killable(s: Sched, pid: int) {
    Exists(s, pid) && !s.procs[pid].value.unkillable
  }

  /** The first part of killProcess: children adopted, the parent woken, the sleep entry cleared. */
  function CleanedUp(s: Sched, pid: int): (t: Sched)
    requires Sized(s) && Exists(s, pid)
    ensures Sized(t)
  {
    RemoveSleeping(WakeParent(AdoptChildren(s, pid), pid), pid)
  }

  /** killProcess up to the removal, without the final context switch. */
  function Removed(s: Sched, pid: int): (t: Sched)
    requires Sized(s) && Exists(s, pid)
    ensures Sized(t)
  {
    RemoveProcess(CleanedUp(s, pid), pid)
  }

  /** The last part of killProcess: whatever is in the slot by then is removed, with a context switch for the running process. */
  function FinishKill(s: Sched, pid: int): (t: Sched)
    requires Sized(s)
    ensures Sized(t)
  {
    if pid == s.current then Yield(RemoveProcess(s, pid)) else RemoveProcess(s, pid)
  }

  /** killProcess when nothing comes between its parts. */
  function KillProcess(s: Sched, pid: int): (t: Sched)
    requires Sized(s)
    ensures Sized(t)
  {
    if !Killable(s, pid) then s
    else if HasStatus(s, pid, Running) then Yield(Removed(s, pid))
    else Removed(s, pid)
  }

  /** The running process ends; its children keep their parent number. */
  function MyExit(s: Sched): (t: Sched)
    requires Sized(s) && Exists(s, s.current)
    ensures Sized(t)
  {
    var t := RemoveSleeping(SetStatus(s, s.current, Terminated), s.current);
    Yield(RemoveProcess(WakeParent(t, t.current), t.current))
  }

  function SetPriority(s: Sched, pid: int, priority: nat): (t: Sched)
    requires Sized(s)
    ensures Sized(t)
  {
    if Exists(s, pid) && MIN_PRIORITY <= priority <= MAX_PRIORITY
    then Put(s, pid, s.procs[pid].value.(priority := priority, quantum := priority)) else s
  }

  /** waitPid up to the point where the caller blocks. */
  function WaitPid(s: Sched, pid: int): (t: Sched)
    requires Sized(s) && Exists(s, s.current)
    ensures Sized(t)
  {
    if !Exists(s, pid) || s.procs[pid].value.parent != s.current then s
    else
      var me := s.procs[s.current].value;
      if s.procs[pid].value.status == Terminated
      then RemoveProcess(Put(s, s.current, me.(waitingFor := NO_PID)), pid)
      else SleepBlock(Put(s, s.current, me.(waitingFor := pid)), s.current, false)
  }

  /** waitPid after the caller runs again: it removes whatever now occupies the slot. */
  function WaitReturn(s: Sched, pid: int): (t: Sched)
    requires Sized(s) && Exists(s, s.current)
    ensures Sized(t)
  {
    RemoveProcess(Put(s, s.current, s.procs[s.current].value.(waitingFor := NO_PID)), pid)
  }

  /** The table before the first dispatch: only init, READY. */
  function Booted(): (s: Sched)
    ensures Sized(s)
  {
    var empty: seq<Option<Proc>> := seq(MAX_PROCESSES, _ => None);
    Sched(empty[INIT_PID := Some(Proc(INIT_PID, NO_PID, Ready, MIN_PRIORITY, MIN_PRIORITY, true, 0))],
          NO_PID, 1, false, 0, UINT64_MAX, seq(MAX_PROCESSES, _ => Sleeper(NO_PID, 0)))
  }
}
