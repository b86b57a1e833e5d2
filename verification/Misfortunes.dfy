/** Runs of the kernel from boot that end in the situations its callers have to avoid. */
module Misfortunes {
  import opened Common
  import opened KernelModel
  import opened SchedulerTheorems
  import opened Fairness
  import opened Rotation
  import opened Kinship
  import opened WaitQueue
  import opened Agreement
  import SemaphoreModel

  function Boot(): (k: Kernel)
    ensures Sized(k.sched)
  {
    Kernel(TimerHandler(Booted()), map[])
  }

  lemma {:induction false} ReachesCall(k: Kernel, cs: seq<Call>, t: Kernel, c: Call)
    requires Sized(k.sched) && Reaches(k, cs, t) && Sized(t.sched) && Legal(t, c)
    ensures Reaches(k, cs + [c], Perform(t, c))
    decreases |cs|
  {
    if cs == [] {
      assert [c][1..] == [];
      assert Reaches(Perform(t, c), [], Perform(t, c));
    } else {
      assert (cs + [c])[1..] == cs[1..] + [c];
      ReachesCall(Perform(k, cs[0]), cs[1..], t, c);
    }
  }

  // ----- the first four slots of the process table -----

  datatype Cell = Nobody | Somebody(status: Status, parent: int, waitingFor: int)

  predicate CellIs(p: Option<Proc>, c: Cell) {
    match c
    case Nobody => p.None?
    case Somebody(status, parent, waitingFor) =>
      p.Some? && p.value.status == status && p.value.parent == parent && p.value.waitingFor == waitingFor
  }

  /** The first four slots are as in cells and the others empty; nobody sleeps, and no tick is near the cached one. */
  predicate Shows(s: Sched, cells: seq<Cell>, n: nat) {
    && Sized(s) && |cells| == 4 && s.nextCheck == UINT64_MAX && s.ticks <= n < 100
    && (forall i :: 0 <= i < 4 ==> CellIs(s.procs[i], cells[i]))
    && (forall i :: 4 <= i < MAX_PROCESSES ==> s.procs[i].None?)
    && (forall i :: 0 < i < 4 && s.procs[i].Some? ==> !s.procs[i].value.unkillable)
  }

  function Marked(cells: seq<Cell>, i: int, st: Status): seq<Cell>
    requires 0 <= i < |cells| && cells[i].Somebody?
  {
    cells[i := cells[i].(status := st)]
  }

  predicate IsReady(cells: seq<Cell>, i: int) {
    0 <= i < |cells| && cells[i].Somebody? && cells[i].status == Ready
  }

  /** The first READY slot after c, going round. */
  predicate IsNext(cells: seq<Cell>, c: int, j: int)
    requires 0 <= c < 4
  {
    IsReady(cells, j) && j < 4 && forall k: nat :: 0 < k < Gap(c, j) ==> !IsReady(cells, SlotAfter(c, k))
  }

  lemma ScanFinds(u: Sched, cells: seq<Cell>, n: nat, c: int, j: int)
    requires Shows(u, cells, n) && 0 <= c < 4 && IsNext(cells, c, j)
    ensures NextReady(u.procs, ScanStart(c), |u.procs|) != NO_PID ==> NextReady(u.procs, ScanStart(c), |u.procs|) == j
  {
    if NextReady(u.procs, ScanStart(c), |u.procs|) != NO_PID {
      var m := NextReadySkips(u.procs, ScanStart(c), |u.procs|);
      FirstReady(u, cells, n, c, j, m);
    }
  }

  /** Only one slot is READY with none READY between it and c. */
  lemma FirstReady(u: Sched, cells: seq<Cell>, n: nat, c: int, j: int, m: nat)
    requires Shows(u, cells, n) && 0 <= c < 4 && IsNext(cells, c, j) && m < MAX_PROCESSES
    requires ReadyAt(u.procs, SlotAfter(ScanStart(c), m)) && forall k: nat :: k < m ==> !ReadyAt(u.procs, SlotAfter(ScanStart(c), k))
    ensures SlotAfter(ScanStart(c), m) == j
  {
    var g := Gap(c, j);
    assert SlotAfter(ScanStart(c), g - 1) == j && ReadyAt(u.procs, j);
    assert m <= g - 1;
    assert SlotAfter(c, m + 1) == SlotAfter(ScanStart(c), m);
    assert IsReady(cells, SlotAfter(c, m + 1));
  }

  /** The cells once the running process, if it still is one, is READY again. */
  function Ended(cells: seq<Cell>, c: int): seq<Cell>
    requires 0 <= c < |cells| && cells[c].Somebody?
  {
    if cells[c].status == Running then Marked(cells, c, Ready) else cells
  }

  /** Before the cached tick nobody is woken. */
  lemma EarlyClock(m: Sched, tick: nat)
    requires Sized(m) && tick == Later(m.ticks, 1) < m.nextCheck
    ensures AfterWakes(m) == m.(ticks := tick)
  {
  }

  lemma ClockShows(m: Sched, cells: seq<Cell>, n: nat)
    requires Mid(m) && Shows(m, cells, n) && n < 99
    ensures AfterWakes(m).procs == m.procs && Shows(AfterWakes(m), cells, n + 1)
  {
    EarlyClock(m, m.ticks + 1);
  }

  lemma SwitchShows(v: Sched, cells: seq<Cell>, n: nat, j: int)
    requires Mid(v) && v.force && Shows(v, cells, n) && 0 <= v.current < 4 && cells[v.current].Somebody?
    requires IsNext(Ended(cells, v.current), v.current, j)
    ensures var t := Schedule(v); Shows(t, Marked(Ended(cells, v.current), j, Running), n) && t.current == j
  {
    ScheduleChooses(v);
    PreemptReady(v);
    var u := Preempt(v);
    assert Shows(u, Ended(cells, v.current), n);
    ScanFinds(u, Ended(cells, v.current), n, v.current, j);
  }

  lemma YieldShows(m: Sched, cells: seq<Cell>, n: nat, j: int)
    requires Mid(m) && Shows(m, cells, n) && n < 99 && 0 <= m.current < 4 && cells[m.current].Somebody?
    requires IsNext(Ended(cells, m.current), m.current, j)
    ensures var t := Yield(m); Shows(t, Marked(Ended(cells, m.current), j, Running), n + 1) && t.current == j
  {
    var f := m.(force := true);
    ClockMid(m, m.ticks, true);
    HandlerShape(f);
    ClockShows(f, cells, n);
    SwitchShows(AfterWakes(f), cells, n + 1, j);
  }

  /** The running process blocks, and j is next. */
  lemma BlockShows(s: Sched, cells: seq<Cell>, n: nat, j: int)
    requires Mid(s) && Shows(s, cells, n) && n < 99 && 0 < s.current < 4 && cells[s.current].Somebody?
    requires cells[s.current].status == Running && IsNext(Marked(cells, s.current, Blocked), s.current, j)
    ensures var t := SleepBlock(s, s.current, false);
            Shows(t, Marked(Marked(cells, s.current, Blocked), j, Running), n + 1) && t.current == j
  {
    MarkedBlockedMid(s, s.current, false);
    var b := MarkedBlocked(s, s.current, false);
    assert Shows(b, Marked(cells, s.current, Blocked), n);
    YieldShows(b, Marked(cells, s.current, Blocked), n, j);
  }

  lemma CreateShows(s: Sched, cells: seq<Cell>, n: nat, i: nat)
    requires Inv(s) && Shows(s, cells, n) && i < 4 && cells[i].Nobody? && forall j :: 0 <= j < i ==> cells[j].Somebody?
    ensures var t := AddProcess(s, false, true); Shows(t, cells[i := Somebody(Ready, s.current, 0)], n) && t.current == s.current
  {
    CountBelow(s.procs, i);
    FreeSlotIs(s.procs, 0, i);
  }

  // ----- a wait that is broken from outside -----

  lemma BootShows()
    ensures Shows(Boot().sched, [Somebody(Running, NO_PID, 0), Nobody, Nobody, Nobody], 1) && Boot().sched.current == 0
  {
    var s := Booted();
    BootMid();
    HandlerShape(s);
    FirstDispatch(AfterWakes(s));
  }

  lemma FirstDispatch(v: Sched)
    requires Mid(v) && v.current == NO_PID && Shows(v, [Somebody(Ready, NO_PID, 0), Nobody, Nobody, Nobody], 1)
    ensures Shows(Schedule(v), [Somebody(Running, NO_PID, 0), Nobody, Nobody, Nobody], 1) && Schedule(v).current == 0
  {
    ScheduleChooses(v);
    PreemptReady(v);
    assert Preempt(v) == v;
    assert forall i :: 0 <= i < MAX_PROCESSES && HasStatus(v, i, Ready) ==> i == 0;
  }

  /** Init alone, running, and no semaphores. */
  ghost predicate Started(b: Kernel) {
    && Agrees(b) && b.sems == map[] && b.sched.current == 0
    && Shows(b.sched, [Somebody(Running, NO_PID, 0), Nobody, Nobody, Nobody], 1)
  }

  lemma BootStarted()
    ensures Started(Boot())
  {
    BootInv();
    BootShows();
  }

  /** Init with a semaphore s of value 0, a parent in slot 1 and a bystander in slot 2. */
  lemma Prologue(b: Kernel) returns (cs: seq<Call>, k: Kernel)
    requires Started(b)
    ensures Reaches(b, cs, k) && Agrees(k) && k.sched.current == 0 && k.sems == map["s" := SemaphoreModel.Sem(0, 1, [])]
    ensures Shows(k.sched, [Somebody(Running, NO_PID, 0), Somebody(Ready, 0, 0), Somebody(Ready, 0, 0), Nobody], 1)
  {
    var k1 := Perform(b, Open("s", 0, true));
    assert k1.sems == map["s" := SemaphoreModel.Sem(0, 1, [])];
    assert Reaches(b, [], b);
    ReachesCall(b, [], b, Open("s", 0, true));
    PerformKeepsAgrees(b, Open("s", 0, true));
    cs, k := CreateNext(b, [] + [Open("s", 0, true)], k1, [Somebody(Running, NO_PID, 0), Nobody, Nobody, Nobody], 1, 1);
    cs, k := CreateNext(b, cs, k, [Somebody(Running, NO_PID, 0), Somebody(Ready, 0, 0), Nobody, Nobody], 1, 2);
  }

  lemma CreateNext(b: Kernel, cs: seq<Call>, k: Kernel, cells: seq<Cell>, n: nat, i: nat) returns (more: seq<Call>, t: Kernel)
    requires Sized(b.sched) && Reaches(b, cs, k) && Agrees(k) && Shows(k.sched, cells, n) && 0 <= k.sched.current < 4
    requires cells[k.sched.current].Somebody? && cells[k.sched.current].waitingFor <= 0
    requires i < 4 && cells[i].Nobody? && forall j :: 0 <= j < i ==> cells[j].Somebody?
    ensures Reaches(b, more, t) && Agrees(t) && Shows(t.sched, cells[i := Somebody(Ready, k.sched.current, 0)], n)
    ensures t.sched.current == k.sched.current && t.sems == k.sems
  {
    var c := Sys(CreateCall(false, true));
    ReachesCall(b, cs, k, c);
    PerformKeepsAgrees(k, c);
    CreateShows(k.sched, cells, n, i);
    more, t := cs + [c], Perform(k, c);
  }

  lemma YieldNext(b: Kernel, cs: seq<Call>, k: Kernel, cells: seq<Cell>, n: nat, j: int) returns (more: seq<Call>, t: Kernel)
    requires Sized(b.sched) && Reaches(b, cs, k) && Agrees(k) && Shows(k.sched, cells, n) && n < 99 && 0 <= k.sched.current < 4
    requires cells[k.sched.current].Somebody? && cells[k.sched.current].waitingFor <= 0
    requires IsNext(Ended(cells, k.sched.current), k.sched.current, j)
    ensures Reaches(b, more, t) && Agrees(t) && t.sched.current == j && t.sems == k.sems
    ensures Shows(t.sched, Marked(Ended(cells, k.sched.current), j, Running), n + 1)
  {
    var c := Sys(YieldCall);
    ReachesCall(b, cs, k, c);
    PerformKeepsAgrees(k, c);
    YieldShows(k.sched, cells, n, j);
    more, t := cs + [c], Perform(k, c);
  }

  /** The parent starts a child in slot 3 and waits for it; the bystander runs. */
  lemma ParentWaits(b: Kernel) returns (cs: seq<Call>, k: Kernel)
    requires Started(b)
    ensures Reaches(b, cs, k) && Agrees(k) && k.sched.current == 2 && k.sems == map["s" := SemaphoreModel.Sem(0, 1, [])]
    ensures Shows(k.sched, [Somebody(Ready, NO_PID, 0), Somebody(Blocked, 0, 3), Somebody(Running, 0, 0), Somebody(Ready, 1, 0)], 3)
  {
    cs, k := Prologue(b);
    cs, k := YieldNext(b, cs, k, [Somebody(Running, NO_PID, 0), Somebody(Ready, 0, 0), Somebody(Ready, 0, 0), Nobody], 1, 1);
    var cells := [Somebody(Ready, NO_PID, 0), Somebody(Running, 0, 0), Somebody(Ready, 0, 0), Nobody];
    assert Shows(k.sched, cells, 2);
    cs, k := CreateNext(b, cs, k, cells, 2, 3);
    cells := [Somebody(Ready, NO_PID, 0), Somebody(Running, 0, 0), Somebody(Ready, 0, 0), Somebody(Ready, 1, 0)];
    assert Shows(k.sched, cells, 2);
    var c := Sys(WaitCall(3));
    ReachesCall(b, cs, k, c);
    PerformKeepsAgrees(k, c);
    WaitShows(k.sched, cells, 2);
    cs, k := cs + [c], Perform(k, c);
  }

  lemma WaitShows(s: Sched, cells: seq<Cell>, n: nat)
    requires Inv(s) && Shows(s, cells, n) && n < 99 && s.current == 1
    requires cells == [Somebody(Ready, NO_PID, 0), Somebody(Running, 0, 0), Somebody(Ready, 0, 0), Somebody(Ready, 1, 0)]
    ensures var t := WaitPid(s, 3);
            && Shows(t, [Somebody(Ready, NO_PID, 0), Somebody(Blocked, 0, 3), Somebody(Running, 0, 0), Somebody(Ready, 1, 0)], n + 1)
            && t.current == 2
  {
    assert SlotOk(s, 1);
    var w := Put(s, 1, s.procs[1].value.(waitingFor := 3));
    PutMid(s, 1, s.procs[1].value.(waitingFor := 3));
    var waits := cells[1 := Somebody(Running, 0, 3)];
    assert Shows(w, waits, n);
    BlockShows(w, waits, n, 2);
    assert Marked(Marked(waits, 1, Blocked), 2, Running)
        == [Somebody(Ready, NO_PID, 0), Somebody(Blocked, 0, 3), Somebody(Running, 0, 0), Somebody(Ready, 1, 0)];
  }

  /** The bystander kills the child, which wakes the parent, and starts another process in the same slot. */
  lemma SlotReused(b: Kernel) returns (cs: seq<Call>, k: Kernel)
    requires Started(b)
    ensures Reaches(b, cs, k) && Agrees(k) && k.sched.current == 3 && k.sems == map["s" := SemaphoreModel.Sem(0, 1, [])]
    ensures Shows(k.sched, [Somebody(Ready, NO_PID, 0), Somebody(Ready, 0, 3), Somebody(Ready, 0, 0), Somebody(Running, 2, 0)], 4)
  {
    cs, k := ChildKilled(b);
    cs, k := CreateNext(b, cs, k, [Somebody(Ready, NO_PID, 0), Somebody(Ready, 0, 3), Somebody(Running, 0, 0), Nobody], 3, 3);
    var cells := [Somebody(Ready, NO_PID, 0), Somebody(Ready, 0, 3), Somebody(Running, 0, 0), Somebody(Ready, 2, 0)];
    assert Shows(k.sched, cells, 3);
    cs, k := YieldNext(b, cs, k, cells, 3, 3);
    assert Marked(Ended(cells, 2), 3, Running)
        == [Somebody(Ready, NO_PID, 0), Somebody(Ready, 0, 3), Somebody(Ready, 0, 0), Somebody(Running, 2, 0)];
  }

  lemma ChildKilled(b: Kernel) returns (cs: seq<Call>, k: Kernel)
    requires Started(b)
    ensures Reaches(b, cs, k) && Agrees(k) && k.sched.current == 2 && k.sems == map["s" := SemaphoreModel.Sem(0, 1, [])]
    ensures Shows(k.sched, [Somebody(Ready, NO_PID, 0), Somebody(Ready, 0, 3), Somebody(Running, 0, 0), Nobody], 3)
  {
    cs, k := ParentWaits(b);
    var c := Sys(KillCall(3));
    ReachesCall(b, cs, k, c);
    PerformKeepsAgrees(k, c);
    KillShows(k.sched, 3);
    NothingDropped(k, 3);
    cs, k := cs + [c], Perform(k, c);
  }

  lemma KillShows(s: Sched, n: nat)
    requires Inv(s) && s.current == 2
    requires Shows(s, [Somebody(Ready, NO_PID, 0), Somebody(Blocked, 0, 3), Somebody(Running, 0, 0), Somebody(Ready, 1, 0)], n)
    ensures var t := KillProcess(s, 3);
            && Shows(t, [Somebody(Ready, NO_PID, 0), Somebody(Ready, 0, 3), Somebody(Running, 0, 0), Nobody], n) && t.current == 2
  {
    var a := AdoptChildren(s, 3);
    assert forall i :: 0 <= i < MAX_PROCESSES ==> a.procs[i] == s.procs[i];
    assert a.procs == s.procs;
  }

  lemma NothingDropped(k: Kernel, pid: int)
    requires k.sems == map["s" := SemaphoreModel.Sem(0, 1, [])]
    ensures DropFromAll(k.sems, pid) == k.sems
  {
    assert Dequeued([], pid) == [];
  }

  /** The new process queues at the semaphore; init runs. */
  lemma WaiterQueued(b: Kernel) returns (cs: seq<Call>, k: Kernel)
    requires Started(b)
    ensures Reaches(b, cs, k) && Agrees(k) && k.sched.current == 0 && QueuedIn(k, "s", 3) && k.sems["s"].users == 1
    ensures Shows(k.sched, [Somebody(Running, NO_PID, 0), Somebody(Ready, 0, 3), Somebody(Ready, 0, 0), Somebody(Blocked, 2, 0)], 5)
  {
    cs, k := SlotReused(b);
    var cells := [Somebody(Ready, NO_PID, 0), Somebody(Ready, 0, 3), Somebody(Ready, 0, 0), Somebody(Running, 2, 0)];
    assert Marked(Marked(cells, 3, Blocked), 0, Running)
        == [Somebody(Running, NO_PID, 0), Somebody(Ready, 0, 3), Somebody(Ready, 0, 0), Somebody(Blocked, 2, 0)];
    cs, k := WaitNext(b, cs, k, cells, 4, 0);
  }

  /** The running process queues at the semaphore, and j is next. */
  lemma WaitNext(b: Kernel, cs: seq<Call>, k: Kernel, cells: seq<Cell>, n: nat, j: int) returns (more: seq<Call>, t: Kernel)
    requires Sized(b.sched) && Reaches(b, cs, k) && Agrees(k) && Shows(k.sched, cells, n) && n < 99 && 0 < k.sched.current < 4
    requires k.sems == map["s" := SemaphoreModel.Sem(0, 1, [])]
    requires cells[k.sched.current].Somebody? && cells[k.sched.current].waitingFor <= 0 && cells[k.sched.current].status == Running
    requires IsNext(Marked(cells, k.sched.current, Blocked), k.sched.current, j)
    ensures Reaches(b, more, t) && Agrees(t) && t.sched.current == j && QueuedIn(t, "s", k.sched.current) && t.sems["s"].users == 1
    ensures Shows(t.sched, Marked(Marked(cells, k.sched.current, Blocked), j, Running), n + 1)
  {
    var c := WaitOn("s");
    ReachesCall(b, cs, k, c);
    PerformKeepsAgrees(k, c);
    BlockShows(k.sched, cells, n, j);
    assert ([] + [k.sched.current])[0] == k.sched.current;
    more, t := cs + [c], Perform(k, c);
  }

  /** Waking that waiter by number, as any process may, leaves it READY and queued. */
  lemma DirectUnblockHappens() returns (cs: seq<Call>, k: Kernel)
    ensures Reaches(Boot(), cs, k) && Agrees(k) && Enabled(k.sched, UnblockCall(3))
    ensures QueuedIn(Perform(k, Sys(UnblockCall(3))), "s", 3) && HasStatus(Perform(k, Sys(UnblockCall(3))).sched, 3, Ready)
    ensures !Agrees(Perform(k, Sys(UnblockCall(3))))
  {
    BootStarted();
    cs, k := WaiterQueued(Boot());
    DirectUnblockAgreesIff(k, 3);
  }

  /** The last user of the semaphore closes it: whatever happens then, short of a kill or a wake by number, the waiter never runs again. */
  lemma StrandedHappens() returns (cs: seq<Call>, k: Kernel)
    ensures Reaches(Boot(), cs, k) && Agrees(k) && Legal(k, Close("s")) && QueuedIn(k, "s", 3) && "s" !in Perform(k, Close("s")).sems
    ensures forall later, t :: Reaches(Perform(k, Close("s")), later, t) && (forall i :: 0 <= i < |later| ==> !Touches(later[i], 3)) ==>
              HasStatus(t.sched, 3, Blocked) && !QueuedAnywhere(t, 3)
  {
    BootStarted();
    cs, k := WaiterQueued(Boot());
    forall later, t | Reaches(Perform(k, Close("s")), later, t) && (forall i :: 0 <= i < |later| ==> !Touches(later[i], 3))
      ensures HasStatus(t.sched, 3, Blocked) && !QueuedAnywhere(t, 3)
    {
      CloseStrandsWaiters(k, "s", 3, later, t);
    }
  }

  /** The parent resumes inside its waitPid for slot 3 and removes the waiter, which stays queued. */
  lemma LateReapHappens() returns (cs: seq<Call>, k: Kernel)
    ensures Reaches(Boot(), cs, k) && Agrees(k) && Resuming(k.sched) && Child(k.sched) == 3 && Enabled(k.sched, ReapCall(3))
    ensures QueuedIn(Perform(k, Sys(ReapCall(3))), "s", 3) && !Exists(Perform(k, Sys(ReapCall(3))).sched, 3)
    ensures !Agrees(Perform(k, Sys(ReapCall(3))))
  {
    BootStarted();
    cs, k := ParentResumes(Boot());
    LateReapAgreesIff(k, 3);
  }

  lemma ParentResumes(b: Kernel) returns (cs: seq<Call>, k: Kernel)
    requires Started(b)
    ensures Reaches(b, cs, k) && Agrees(k) && k.sched.current == 1 && Resuming(k.sched) && Child(k.sched) == 3
    ensures QueuedIn(k, "s", 3)
  {
    cs, k := WaiterQueued(b);
    cs, k := YieldNext(b, cs, k, [Somebody(Running, NO_PID, 0), Somebody(Ready, 0, 3), Somebody(Ready, 0, 0), Somebody(Blocked, 2, 0)], 5, 1);
    assert QueuedIn(k, "s", 3);
  }

  // ----- a full semaphore table -----

  /** Distinct names of two letters. */
  function Name(i: nat): (s: string)
    requires i < MAX_SEMAPHORES
    ensures |s| == 2 && Number(s) == i
  {
    ['a' + (i / 16) as char, 'a' + (i % 16) as char]
  }

  function Number(s: string): int {
    if |s| == 2 then (s[0] as int - 'a' as int) * 16 + (s[1] as int - 'a' as int) else -1
  }

  /** n semaphores, one user each, with the first n names. */
  predicate Holds(sems: map<string, SemaphoreModel.Sem>, n: nat) {
    |sems| == n && forall name :: name in sems ==> Number(name) < n && sems[name].users == 1
  }

  lemma HoldsMore(sems: map<string, SemaphoreModel.Sem>, n: nat)
    requires n < MAX_SEMAPHORES && Holds(sems, n)
    ensures Name(n) !in sems && Holds(sems[Name(n) := SemaphoreModel.Sem(1, 1, [])], n + 1)
  {
    var more := sems[Name(n) := SemaphoreModel.Sem(1, 1, [])];
    assert more.Keys == sems.Keys + {Name(n)};
  }

  lemma {:induction false} ManyOpens(b: Kernel, n: nat) returns (cs: seq<Call>, k: Kernel)
    requires Started(b) && n <= MAX_SEMAPHORES
    ensures Reaches(b, cs, k) && k.sched == b.sched && Holds(k.sems, n) && (n > 0 ==> Name(0) in k.sems)
  {
    if n == 0 {
      cs, k := [], b;
    } else {
      cs, k := ManyOpens(b, n - 1);
      HoldsMore(k.sems, n - 1);
      var c := Open(Name(n - 1), 1, true);
      ReachesCall(b, cs, k, c);
      cs, k := cs + [c], Perform(k, c);
    }
  }

  /** After 256 openings another user of an open name is refused, and its close takes away the only real one. */
  lemma FullTableHappens() returns (cs: seq<Call>, k: Kernel)
    ensures Reaches(Boot(), cs, k) && Sized(k.sched) && Name(0) in k.sems
    ensures Perform(k, Open(Name(0), 1, true)) == k && Name(0) !in Perform(k, Close(Name(0))).sems
  {
    BootStarted();
    cs, k := FullTable(Boot());
  }

  lemma FullTable(b: Kernel) returns (cs: seq<Call>, k: Kernel)
    requires Started(b)
    ensures Reaches(b, cs, k) && Sized(k.sched) && Name(0) in k.sems
    ensures Perform(k, Open(Name(0), 1, true)) == k && Name(0) !in Perform(k, Close(Name(0))).sems
  {
    cs, k := ManyOpens(b, MAX_SEMAPHORES);
  }
}
