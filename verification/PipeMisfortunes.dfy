/** Runs from boot in which a kill breaks a pipe or a queue. */
module PipeMisfortunes {
  import opened KernelModel
  import opened SchedulerTheorems
  import opened Kinship
  import opened WaitQueue
  import opened Agreement
  import opened Rotation
  import opened Misfortunes
  import opened PipeKernel
  import opened PipeTheorems
  import SemaphoreModel
  import Pipes

  const FD := 20

  lemma {:induction false} RunsAct(b: System, acts: seq<Act>, s: System, a: Act)
    requires Runs(b, acts, s) && Allowed(s, a)
    ensures Runs(b, acts + [a], Do(s, a))
    decreases |acts|
  {
    if acts == [] {
      assert [a][1..] == [];
      assert Runs(Do(s, a), [], Do(s, a));
    } else {
      assert (acts + [a])[1..] == acts[1..] + [a];
      RunsAct(Do(b, acts[0]), acts[1..], s, a);
    }
  }

  /** The states that runs from b reach. */
  ghost function Reached(b: System): System -> bool {
    s => exists acts :: Runs(b, acts, s)
  }

  ghost predicate Sound(reached: System -> bool, s: System) {
    reached(s) ==> Shaped(s) && Inv(s.k.sched)
  }

  ghost predicate Follows(reached: System -> bool, s: System, a: Act) {
    reached(s) && Allowed(s, a) ==> reached(Do(s, a))
  }

  /** Acts do not lead out of these states, and the invariant holds in them. */
  ghost predicate Closed(reached: System -> bool) {
    (forall s :: Sound(reached, s)) && (forall s, a :: Follows(reached, s, a))
  }

  lemma ReachedClosed(b: System)
    requires SysInv(b)
    ensures Closed(Reached(b)) && Reached(b)(b)
  {
    assert Runs(b, [], b);
    forall s ensures Sound(Reached(b), s) {
      if acts :| Runs(b, acts, s) {
        RunsKeep(b, acts, s);
        SysShaped(s);
      }
    }
    forall s, a ensures Follows(Reached(b), s, a) {
      if acts :| Runs(b, acts, s) && Allowed(s, a) {
        RunsAct(b, acts, s, a);
      }
    }
  }

  /** The running process is in the middle of nothing. */
  predicate Calm(s: System, cells: seq<Cell>, n: nat) {
    && Shows(s.k.sched, cells, n) && s.k.sched.current !in s.tasks
    && 0 <= s.k.sched.current < 4 && cells[s.k.sched.current].Somebody?
    && cells[s.k.sched.current].waitingFor <= 0 && cells[s.k.sched.current].status == Running
  }

  /** Only the process table has changed. */
  predicate SameBut(s: System, t: System) {
    t == s.(k := s.k.(sched := t.k.sched))
  }

  lemma DoYield(s: System)
    requires Shaped(s) && Exists(s.k.sched, s.k.sched.current) && s.k.sched.current !in s.tasks
    ensures Allowed(s, User(Sys(YieldCall))) && Do(s, User(Sys(YieldCall))) == s.(k := s.k.(sched := Yield(s.k.sched)))
  {
  }

  lemma YieldScene(reached: System -> bool, s: System, cells: seq<Cell>, n: nat, j: int) returns (t: System)
    requires Closed(reached) && reached(s) && Calm(s, cells, n) && n < 99
    requires IsNext(Marked(cells, s.k.sched.current, Ready), s.k.sched.current, j)
    ensures reached(t) && Shows(t.k.sched, Marked(Marked(cells, s.k.sched.current, Ready), j, Running), n + 1)
    ensures t.k.sched.current == j && SameBut(s, t)
  {
    assert Sound(reached, s);
    DoYield(s);
    assert Follows(reached, s, User(Sys(YieldCall)));
    YieldShows(s.k.sched, cells, n, j);
    t := s.(k := s.k.(sched := Yield(s.k.sched)));
  }

  lemma DoSpawn(s: System, i: nat, out: int)
    requires Shaped(s) && Inv(s.k.sched) && s.k.sched.current !in s.tasks
    requires i < MAX_PROCESSES && s.k.sched.procs[i].None? && forall j :: 0 <= j < i ==> s.k.sched.procs[j].Some?
    ensures Allowed(s, Spawn(false, true, out))
    ensures Do(s, Spawn(false, true, out))
            == s.(k := s.k.(sched := AddProcess(s.k.sched, false, true)), outputs := s.outputs[i := out])
  {
    CountBelow(s.k.sched.procs, i);
    FreeSlotIs(s.k.sched.procs, 0, i);
  }

  lemma SpawnScene(reached: System -> bool, s: System, cells: seq<Cell>, n: nat, i: nat, out: int) returns (t: System)
    requires Closed(reached) && reached(s) && Calm(s, cells, n)
    requires i < 4 && cells[i].Nobody? && forall j :: 0 <= j < i ==> cells[j].Somebody?
    ensures reached(t) && Shows(t.k.sched, cells[i := Somebody(Ready, s.k.sched.current, 0)], n)
    ensures t.k.sched.current == s.k.sched.current
    ensures t == s.(k := s.k.(sched := t.k.sched), outputs := s.outputs[i := out])
  {
    assert Sound(reached, s);
    assert forall j :: 0 <= j < i ==> CellIs(s.k.sched.procs[j], cells[j]);
    DoSpawn(s, i, out);
    assert Follows(reached, s, Spawn(false, true, out));
    CreateShows(s.k.sched, cells, n, i);
    t := s.(k := s.k.(sched := AddProcess(s.k.sched, false, true)), outputs := s.outputs[i := out]);
  }

  /** m bytes of the pipe are in use, and nobody waits. */
  predicate Filled(s: System, m: nat) {
    && FD in s.pipes && s.pipes[FD].size == m <= Pipes.PIPE_SIZE && s.pipes[FD].wSem == "w" && s.pipes[FD].rSem == "r"
    && s.k.sems == map["w" := SemaphoreModel.Sem(Pipes.PIPE_SIZE - m, 1, []), "r" := SemaphoreModel.Sem(m, 1, [])]
  }

  lemma DoWrite(s: System, m: nat)
    requires Shaped(s) && Filled(s, m) && m < Pipes.PIPE_SIZE && s.k.sched.current !in s.tasks && !Resuming(s.k.sched)
    ensures Allowed(s, WriteByte(FD, 0))
    ensures var t := Do(s, WriteByte(FD, 0));
            && Filled(t, m + 1) && t.k.sched == s.k.sched && t.tasks == s.tasks && t.outputs == s.outputs && t.cut == s.cut
            && t.pipes.Keys == s.pipes.Keys
  {
    PassAndPost(s.k, m);
  }

  lemma PassAndPost(k: Kernel, m: nat)
    requires Sized(k.sched) && m < Pipes.PIPE_SIZE
    requires k.sems == map["w" := SemaphoreModel.Sem(Pipes.PIPE_SIZE - m, 1, []), "r" := SemaphoreModel.Sem(m, 1, [])]
    ensures Perform(Perform(k, WaitOn("w")), PostTo("r"))
            == k.(sems := map["w" := SemaphoreModel.Sem(Pipes.PIPE_SIZE - m - 1, 1, []), "r" := SemaphoreModel.Sem(m + 1, 1, [])])
  {
    var k1 := Perform(k, WaitOn("w"));
    assert k1 == k.(sems := map["w" := SemaphoreModel.Sem(Pipes.PIPE_SIZE - m - 1, 1, []), "r" := SemaphoreModel.Sem(m, 1, [])]);
  }

  lemma WriteScene(reached: System -> bool, s: System, m: nat) returns (t: System)
    requires Closed(reached) && reached(s) && Filled(s, m) && m < Pipes.PIPE_SIZE
    requires s.k.sched.current !in s.tasks && !Resuming(s.k.sched)
    ensures reached(t) && Filled(t, m + 1) && t.k.sched == s.k.sched
    ensures t.tasks == s.tasks && t.outputs == s.outputs && t.cut == s.cut
  {
    assert Sound(reached, s);
    DoWrite(s, m);
    assert Follows(reached, s, WriteByte(FD, 0));
    t := Do(s, WriteByte(FD, 0));
  }

  lemma {:induction false} FillScene(reached: System -> bool, s: System, m: nat) returns (t: System)
    requires Closed(reached) && reached(s) && Filled(s, 0) && s.k.sched.current !in s.tasks && !Resuming(s.k.sched)
    requires m <= Pipes.PIPE_SIZE
    ensures reached(t) && Filled(t, m) && t.k.sched == s.k.sched
    ensures t.tasks == s.tasks && t.outputs == s.outputs && t.cut == s.cut
  {
    if m == 0 {
      t := s;
    } else {
      t := FillScene(reached, s, m - 1);
      t := WriteScene(reached, t, m - 1);
    }
  }

  /** When c stops, init is next if nobody in a later slot is READY. */
  lemma InitNext(cells: seq<Cell>, c: int, st: Status)
    requires |cells| == 4 && 0 < c < 4 && cells[c].Somebody? && IsReady(cells, 0) && forall i :: c < i < 4 ==> !IsReady(cells, i)
    ensures IsNext(Marked(cells, c, st), c, 0)
  {
    var stopped := Marked(cells, c, st);
    forall k: nat | 0 < k < Gap(c, 0) ensures !IsReady(stopped, SlotAfter(c, k)) {
      assert SlotAfter(c, k) == c + k;
      assert !IsReady(cells, c + k);
    }
  }

  lemma LaterNext(cells: seq<Cell>, c: int, st: Status, j: int)
    requires |cells| == 4 && 0 <= c < j < 4 && cells[c].Somebody? && IsReady(cells, j) && forall i :: c < i < j ==> !IsReady(cells, i)
    ensures IsNext(Marked(cells, c, st), c, j)
  {
    var stopped := Marked(cells, c, st);
    forall k: nat | 0 < k < Gap(c, j) ensures !IsReady(stopped, SlotAfter(c, k)) {
      assert SlotAfter(c, k) == c + k;
      assert !IsReady(cells, c + k);
    }
  }

  /** The process in slot c yields, and init runs. */
  lemma BackToInit(reached: System -> bool, s: System, c: int, cells: seq<Cell>, n: nat, after: seq<Cell>)
    returns (t: System)
    requires Closed(reached) && reached(s) && Calm(s, cells, n) && n < 99 && 0 < s.k.sched.current == c
    requires IsReady(cells, 0) && forall i :: c < i < 4 ==> !IsReady(cells, i)
    requires after == Marked(Marked(cells, c, Ready), 0, Running)
    ensures reached(t) && Shows(t.k.sched, after, n + 1) && t.k.sched.current == 0 && SameBut(s, t)
  {
    InitNext(cells, c, Ready);
    t := YieldScene(reached, s, cells, n, 0);
  }

  /** The process in slot c yields, and the one in a later slot j runs. */
  lemma OnTo(reached: System -> bool, s: System, c: int, cells: seq<Cell>, n: nat, j: int, after: seq<Cell>)
    returns (t: System)
    requires Closed(reached) && reached(s) && Calm(s, cells, n) && n < 99 && s.k.sched.current == c
    requires c < j < 4 && IsReady(cells, j) && forall i :: c < i < j ==> !IsReady(cells, i)
    requires after == Marked(Marked(cells, c, Ready), j, Running)
    ensures reached(t) && Shows(t.k.sched, after, n + 1) && t.k.sched.current == j && SameBut(s, t)
  {
    LaterNext(cells, c, Ready, j);
    t := YieldScene(reached, s, cells, n, j);
  }

  // ----- the beginning -----

  ghost predicate Begun(b: System) {
    && SysInv(b) && b.k.sems == map[] && b.pipes == map[] && b.tasks == map[] && b.outputs == map[] && b.cut == {}
    && b.k.sched.current == 0 && Shows(b.k.sched, [Somebody(Running, NO_PID, 0), Nobody, Nobody, Nobody], 1)
  }

  lemma BootBegun()
    ensures Begun(AtBoot())
  {
    BootStarted();
  }

  lemma PipeMade(b: System, buffer: seq<Byte>) returns (s: System)
    requires Begun(b) && |buffer| == Pipes.PIPE_SIZE
    ensures Closed(Reached(b)) && Reached(b)(s) && s.k.sched == b.k.sched && Filled(s, 0)
    ensures s.tasks == map[] && s.outputs == map[] && s.cut == {}
  {
    var a := NewPipe(FD, buffer, "w", "r");
    ReachedClosed(b);
    SysShaped(b);
    assert Follows(Reached(b), b, a);
    s := Do(b, a);
  }

  // ----- init kills the writer of a full pipe -----

  /** The states reached, and one just after the pipe was made. */
  ghost predicate Made(reached: System -> bool, s: System) {
    && Closed(reached) && reached(s) && Shows(s.k.sched, [Somebody(Running, NO_PID, 0), Nobody, Nobody, Nobody], 1)
    && s.k.sched.current == 0 && Filled(s, 0) && s.tasks == map[] && s.outputs == map[] && s.cut == {}
  }

  /** Init, and a process in slot 1 whose output is the pipe. */
  lemma WriterRuns(reached: System -> bool, s: System) returns (t: System)
    requires Made(reached, s)
    ensures reached(t) && Shows(t.k.sched, [Somebody(Ready, NO_PID, 0), Somebody(Running, 0, 0), Nobody, Nobody], 2)
    ensures t.k.sched.current == 1 && Filled(t, 0) && t.tasks == map[] && t.outputs == map[1 := FD]
  {
    t := SpawnScene(reached, s, [Somebody(Running, NO_PID, 0), Nobody, Nobody, Nobody], 1, 1, FD);
    t := OnTo(reached, t, 0, [Somebody(Running, NO_PID, 0), Somebody(Ready, 0, 0), Nobody, Nobody], 1, 1,
                    [Somebody(Ready, NO_PID, 0), Somebody(Running, 0, 0), Nobody, Nobody]);
  }

  /** Init and a writer that has filled its pipe. */
  lemma FullPipe(reached: System -> bool, s: System) returns (t: System)
    requires Made(reached, s)
    ensures reached(t) && Shows(t.k.sched, [Somebody(Running, NO_PID, 0), Somebody(Ready, 0, 0), Nobody, Nobody], 3)
    ensures t.k.sched.current == 0 && Filled(t, Pipes.PIPE_SIZE) && t.tasks == map[] && t.outputs == map[1 := FD]
  {
    t := WriterRuns(reached, s);
    t := FillScene(reached, t, Pipes.PIPE_SIZE);
    t := BackToInit(reached, t, 1, [Somebody(Ready, NO_PID, 0), Somebody(Running, 0, 0), Nobody, Nobody], 2,
                          [Somebody(Running, NO_PID, 0), Somebody(Ready, 0, 0), Nobody, Nobody]);
  }

  /** What such a kill does to a full pipe. */
  lemma InitKill(s: System)
    requires SysInv(s) && Shows(s.k.sched, [Somebody(Running, NO_PID, 0), Somebody(Ready, 0, 0), Nobody, Nobody], 3)
    requires s.k.sched.current == 0 && Filled(s, Pipes.PIPE_SIZE) && s.tasks == map[] && s.outputs == map[1 := FD]
    ensures Shaped(s) && InitOverruns(s, 1) && s.pipes[FD].writePos == s.pipes[FD].readPos
    ensures var t := KillStep(s, 1);
            && FD in t.pipes && t.pipes[FD].size == Pipes.PIPE_SIZE + 1
            && t.pipes[FD].buffer == s.pipes[FD].buffer[s.pipes[FD].readPos := EOF]
            && QueuedIn(t.k, "w", INIT_PID) && !SysInv(t)
  {
    SysShaped(s);
    assert CellIs(s.k.sched.procs[1], Somebody(Ready, 0, 0)) && CellIs(s.k.sched.procs[0], Somebody(Running, NO_PID, 0));
    InitOverwrites(s, 1);
    KillBreaks(s, 1);
    KillUnfolds(s, 1);
    CleanedKeeps(s, 1);
    CleanedSem(s, 1, "w");
    InitQueuedBreaks(Cleaned(s, 1), FD, 1);
  }

  lemma AfterBoot(buffer: seq<Byte>) returns (s: System)
    requires |buffer| == Pipes.PIPE_SIZE
    ensures Made(Reached(AtBoot()), s)
  {
    BootBegun();
    s := PipeMade(AtBoot(), buffer);
  }

  lemma RunFromBoot(s: System) returns (acts: seq<Act>)
    requires Reached(AtBoot())(s)
    ensures Runs(AtBoot(), acts, s) && SysInv(s) && Shaped(s)
  {
    acts :| Runs(AtBoot(), acts, s);
    BootBegun();
    RunsKeep(AtBoot(), acts, s);
    SysShaped(s);
  }

  /** The kill by init puts its byte over the oldest unread one, into a pipe that is full, and leaves init queued. */
  lemma InitKillHappens(buffer: seq<Byte>) returns (acts: seq<Act>, s: System)
    requires |buffer| == Pipes.PIPE_SIZE
    ensures Runs(AtBoot(), acts, s) && SysInv(s) && Shaped(s) && InitOverruns(s, 1)
    ensures FD in s.pipes && s.pipes[FD].size == Pipes.PIPE_SIZE && s.pipes[FD].writePos == s.pipes[FD].readPos
    ensures var t := KillStep(s, 1);
            && FD in t.pipes && t.pipes[FD].size == Pipes.PIPE_SIZE + 1
            && t.pipes[FD].buffer == s.pipes[FD].buffer[s.pipes[FD].readPos := EOF]
            && QueuedIn(t.k, "w", INIT_PID) && !SysInv(t)
  {
    s := AfterBoot(buffer);
    s := FullPipe(Reached(AtBoot()), s);
    acts := RunFromBoot(s);
    InitKill(s);
  }

  // ----- a victim that queues while its killer waits -----

  /** The writer's semaphore has value 0 and this queue, and m bytes can be read; nothing else is open. */
  predicate Stands(s: System, queue: seq<int>, m: nat) {
    && FD in s.pipes && s.pipes[FD].wSem == "w" && s.pipes[FD].rSem == "r"
    && s.k.sems == map["w" := SemaphoreModel.Sem(0, 1, queue), "r" := SemaphoreModel.Sem(m, 1, [])]
  }

  /** Init, the writer in slot 1, its killer in slot 2 and a reader in slot 3. */
  function Four(init: Status, writer: Status, killer: Status, reader: Status): seq<Cell> {
    [Somebody(init, NO_PID, 0), Somebody(writer, 0, 0), Somebody(killer, 0, 0), Somebody(reader, 0, 0)]
  }

  lemma FourStarted(reached: System -> bool, s: System) returns (t: System)
    requires Made(reached, s)
    ensures reached(t) && Shows(t.k.sched, Four(Running, Ready, Ready, Ready), 1)
    ensures t.k.sched.current == 0 && Filled(t, 0) && t.tasks == map[] && HasPipe(t, 1) && t.outputs[1] == FD
  {
    t := SpawnScene(reached, s, [Somebody(Running, NO_PID, 0), Nobody, Nobody, Nobody], 1, 1, FD);
    t := SpawnScene(reached, t, [Somebody(Running, NO_PID, 0), Somebody(Ready, 0, 0), Nobody, Nobody], 1, 2, -1);
    t := SpawnScene(reached, t, [Somebody(Running, NO_PID, 0), Somebody(Ready, 0, 0), Somebody(Ready, 0, 0), Nobody], 1, 3, -1);
  }

  /** The writer has filled its pipe, and its killer runs. */
  lemma KillerRuns(reached: System -> bool, s: System) returns (t: System)
    requires Made(reached, s)
    ensures reached(t) && Shows(t.k.sched, Four(Ready, Ready, Running, Ready), 3)
    ensures t.k.sched.current == 2 && Stands(t, [], Pipes.PIPE_SIZE) && t.tasks == map[] && HasPipe(t, 1) && t.outputs[1] == FD
  {
    t := FourStarted(reached, s);
    t := OnTo(reached, t, 0, Four(Running, Ready, Ready, Ready), 1, 1, Four(Ready, Running, Ready, Ready));
    t := FillScene(reached, t, Pipes.PIPE_SIZE);
    t := OnTo(reached, t, 1, Four(Ready, Running, Ready, Ready), 2, 2, Four(Ready, Ready, Running, Ready));
  }

  lemma CleanShows(s: Sched, n: nat)
    requires Inv(s) && Shows(s, Four(Ready, Ready, Running, Ready), n) && s.current == 2
    ensures var t := CleanedUp(s, 1); Inv(t) && Shows(t, Four(Ready, Ready, Running, Ready), n) && t.current == 2
  {
    CleanedInv(s, 1);
    var a := AdoptChildren(s, 1);
    assert forall i :: 0 <= i < MAX_PROCESSES ==> a.procs[i] == s.procs[i];
    assert a.procs == s.procs;
  }

  lemma NobodyDropped(sems: map<string, Sem>, m: nat)
    requires sems == map["w" := SemaphoreModel.Sem(0, 1, []), "r" := SemaphoreModel.Sem(m, 1, [])]
    ensures DropFromAll(sems, 1) == sems
  {
    assert Dequeued([], 1) == [];
  }

  /** The running process queues for room and leaves its task. */
  lemma BlockedAtPipe(s: System, cells: seq<Cell>, n: nat, j: int, queue: seq<int>, m: nat, b: Byte, task: Task)
    requires Shaped(s) && Mid(s.k.sched) && Calm(s, cells, n) && n < 99 && s.k.sched.current > 0 && Stands(s, queue, m) && |queue| < CAPACITY
    requires IsNext(Marked(cells, s.k.sched.current, Blocked), s.k.sched.current, j)
    ensures var t := StartPut(s, FD, b, task);
            && Shows(t.k.sched, Marked(Marked(cells, s.k.sched.current, Blocked), j, Running), n + 1) && t.k.sched.current == j
            && Stands(t, queue + [s.k.sched.current], m) && t.tasks == s.tasks[s.k.sched.current := task] && t.outputs == s.outputs
  {
    BlockShows(s.k.sched, cells, n, j);
  }

  lemma CleanedShows(s: System)
    requires Shaped(s) && Inv(s.k.sched) && Shows(s.k.sched, Four(Ready, Ready, Running, Ready), 3) && s.k.sched.current == 2
    requires Stands(s, [], Pipes.PIPE_SIZE) && s.tasks == map[]
    ensures Killable(s.k.sched, 1)
    ensures var t := Cleaned(s, 1);
            && Inv(t.k.sched) && Shows(t.k.sched, Four(Ready, Ready, Running, Ready), 3) && t.k.sched.current == 2
            && Stands(t, [], Pipes.PIPE_SIZE) && t.tasks == map[] && t.outputs == s.outputs && t.pipes == s.pipes
  {
    assert CellIs(s.k.sched.procs[1], Somebody(Ready, 0, 0));
    CleanShows(s.k.sched, 3);
    NobodyDropped(s.k.sems, Pipes.PIPE_SIZE);
  }

  /** The running process in slot c cannot put its byte; the reader in slot 3 runs. */
  lemma PutBlocks(s: System, c: int, cells: seq<Cell>, after: seq<Cell>, n: nat, queue: seq<int>, b: Byte, task: Task)
    requires Shaped(s) && Inv(s.k.sched) && Calm(s, cells, n) && n < 99 && 0 < s.k.sched.current == c < 3
    requires Stands(s, queue, Pipes.PIPE_SIZE) && |queue| < CAPACITY
    requires IsReady(cells, 3) && forall i :: c < i < 3 ==> !IsReady(cells, i)
    requires after == Marked(Marked(cells, c, Blocked), 3, Running)
    ensures var t := StartPut(s, FD, b, task);
            && Shows(t.k.sched, after, n + 1) && t.k.sched.current == 3
            && Stands(t, queue + [c], Pipes.PIPE_SIZE) && t.tasks == s.tasks[c := task]
  {
    LaterNext(cells, c, Blocked, 3);
    BlockedAtPipe(s, cells, n, 3, queue, Pipes.PIPE_SIZE, b, task);
  }

  lemma KillBlocks(s: System)
    requires Shaped(s) && Inv(s.k.sched) && Shows(s.k.sched, Four(Ready, Ready, Running, Ready), 3) && s.k.sched.current == 2
    requires Stands(s, [], Pipes.PIPE_SIZE) && s.tasks == map[] && HasPipe(s, 1) && s.outputs[1] == FD
    ensures Allowed(s, Kill(1))
    ensures var t := KillStep(s, 1);
            && Shows(t.k.sched, Four(Ready, Ready, Blocked, Running), 4) && t.k.sched.current == 3
            && Stands(t, [2], Pipes.PIPE_SIZE) && t.tasks == map[2 := Killing(FD, 1)]
  {
    CleanedShows(s);
    var c := Cleaned(s, 1);
    PutBlocks(c, 2, Four(Ready, Ready, Running, Ready), Four(Ready, Ready, Blocked, Running), 3, [], EOF, Killing(FD, 1));
    KillQueues(s, c);
    assert [] + [2] == [2];
  }

  lemma KillQueues(s: System, c: System)
    requires Shaped(s) && Killable(s.k.sched, 1) && c == Cleaned(s, 1) && HasPipe(s, 1) && s.outputs[1] == FD
    requires s.tasks == map[] && s.k.sched.current == 2 == c.k.sched.current && Stands(c, [], Pipes.PIPE_SIZE)
    requires Exists(s.k.sched, 2) && s.k.sched.procs[2].value.waitingFor <= 0
    ensures Allowed(s, Kill(1)) && KillStep(s, 1) == StartPut(c, FD, EOF, Killing(FD, 1))
  {
    KillUnfolds(s, 1);
  }

  lemma KillerQueued(reached: System -> bool, s: System) returns (t: System)
    requires Made(reached, s)
    ensures reached(t) && Shows(t.k.sched, Four(Ready, Ready, Blocked, Running), 4)
    ensures t.k.sched.current == 3 && Stands(t, [2], Pipes.PIPE_SIZE) && t.tasks == map[2 := Killing(FD, 1)]
  {
    t := KillerRuns(reached, s);
    assert Sound(reached, t);
    KillBlocks(t);
    assert Follows(reached, t, Kill(1));
    t := KillStep(t, 1);
  }

  /** The killer waits for room, and the writer runs again. */
  lemma KillerWaits(reached: System -> bool, s: System) returns (t: System)
    requires Made(reached, s)
    ensures reached(t) && Shows(t.k.sched, Four(Ready, Running, Blocked, Ready), 6)
    ensures t.k.sched.current == 1 && Stands(t, [2], Pipes.PIPE_SIZE) && t.tasks == map[2 := Killing(FD, 1)]
  {
    t := KillerQueued(reached, s);
    t := BackToInit(reached, t, 3, Four(Ready, Ready, Blocked, Running), 4, Four(Running, Ready, Blocked, Ready));
    t := OnTo(reached, t, 0, Four(Running, Ready, Blocked, Ready), 5, 1, Four(Ready, Running, Blocked, Ready));
  }

  /** The writer queues behind its killer, and the reader runs. */
  lemma WriterWaits(reached: System -> bool, s: System) returns (t: System)
    requires Made(reached, s)
    ensures reached(t) && Shows(t.k.sched, Four(Ready, Blocked, Blocked, Running), 7)
    ensures t.k.sched.current == 3 && Stands(t, [2, 1], Pipes.PIPE_SIZE) && t.tasks == map[2 := Killing(FD, 1), 1 := Putting(FD, 0)]
  {
    t := KillerWaits(reached, s);
    assert Sound(reached, t);
    PutBlocks(t, 1, Four(Ready, Running, Blocked, Ready), Four(Ready, Blocked, Blocked, Running), 6, [2], 0, Putting(FD, 0));
    WriteAllowed(t);
    assert Follows(reached, t, WriteByte(FD, 0));
    t := StartPut(t, FD, 0, Putting(FD, 0));
    assert [2] + [1] == [2, 1];
  }

  lemma WriteAllowed(s: System)
    requires Shaped(s) && FD in s.pipes && s.k.sched.current == 1 && 1 !in s.tasks
    requires Exists(s.k.sched, 1) && s.k.sched.procs[1].value.waitingFor <= 0
    ensures Allowed(s, WriteByte(FD, 0)) && Do(s, WriteByte(FD, 0)) == StartPut(s, FD, 0, Putting(FD, 0))
  {
  }

  lemma ReadGrants(s: System)
    requires Shaped(s) && Inv(s.k.sched) && Shows(s.k.sched, Four(Ready, Blocked, Blocked, Running), 7) && s.k.sched.current == 3
    requires Stands(s, [2, 1], Pipes.PIPE_SIZE) && 3 !in s.tasks
    ensures Allowed(s, ReadByte(FD))
    ensures var t := StartTake(s, FD);
            && Shows(t.k.sched, Four(Ready, Blocked, Ready, Running), 7) && t.k.sched.current == 3
            && Stands(t, [1], Pipes.PIPE_SIZE - 1) && t.tasks == s.tasks
  {
    var k1 := Perform(s.k, WaitOn("r"));
    assert k1 == s.k.(sems := map["w" := SemaphoreModel.Sem(0, 1, [2, 1]), "r" := SemaphoreModel.Sem(Pipes.PIPE_SIZE - 1, 1, [])]);
    assert [2, 1][1..] == [1];
    assert CellIs(s.k.sched.procs[2], Somebody(Blocked, 0, 0));
  }

  lemma KillerGranted(reached: System -> bool, s: System) returns (t: System)
    requires Made(reached, s)
    ensures reached(t) && Shows(t.k.sched, Four(Ready, Blocked, Ready, Running), 7)
    ensures t.k.sched.current == 3 && Stands(t, [1], Pipes.PIPE_SIZE - 1) && t.tasks == map[2 := Killing(FD, 1), 1 := Putting(FD, 0)]
  {
    t := WriterWaits(reached, s);
    assert Sound(reached, t);
    ReadGrants(t);
    assert Follows(reached, t, ReadByte(FD));
    t := StartTake(t, FD);
  }

  /** The reader's byte grants the killer, which runs again while its victim is queued. */
  lemma KillerResumes(reached: System -> bool, s: System) returns (t: System)
    requires Made(reached, s)
    ensures reached(t) && Shows(t.k.sched, Four(Ready, Blocked, Running, Ready), 9)
    ensures t.k.sched.current == 2 && Stands(t, [1], Pipes.PIPE_SIZE - 1) && t.tasks == map[2 := Killing(FD, 1), 1 := Putting(FD, 0)]
  {
    t := KillerGranted(reached, s);
    t := BackToInit(reached, t, 3, Four(Ready, Blocked, Ready, Running), 7, Four(Running, Blocked, Ready, Ready));
    t := OnTo(reached, t, 0, Four(Running, Blocked, Ready, Ready), 8, 2, Four(Ready, Blocked, Running, Ready));
  }

  /** A post for a process that is no longer there is lost. */
  lemma PostLost(k: Kernel, name: string, p: int)
    requires Sized(k.sched) && name in k.sems && k.sems[name].queue == [p] && p != NO_PID && !Exists(k.sched, p)
    ensures Perform(k, PostTo(name)) == k.(sems := k.sems[name := k.sems[name].(queue := [])])
  {
    assert [p][1..] == [];
  }

  /** The state after the byte was put differs only at the reader's semaphore. */
  lemma FinishShape(s: System)
    requires Shaped(s) && Sized(s.k.sched) && s.k.sched.current == 2 && 2 in s.tasks && s.tasks[2] == Killing(FD, 1)
    requires Stands(s, [1], Pipes.PIPE_SIZE - 1)
    ensures ResumeStep(s) == Gone(BeforeRemoval(s), 1)
    ensures BeforeRemoval(s).k.sched == s.k.sched && "w" in BeforeRemoval(s).k.sems && BeforeRemoval(s).k.sems["w"] == s.k.sems["w"]
  {
  }

  lemma GoneShape(s: System, pid: int)
    requires Shaped(s) && 0 <= pid < MAX_PROCESSES && pid != s.k.sched.current
    ensures !Exists(Gone(s, pid).k.sched, pid) && Gone(s, pid).k.sems == s.k.sems
  {
  }

  /** The removed process stays at the head of its queue, where it takes the next post with it. */
  lemma RemovedStaysQueued(s: System)
    requires SysInv(s) && Shaped(s) && s.k.sched.current == 2
    requires Stands(s, [1], Pipes.PIPE_SIZE - 1) && 2 in s.tasks && s.tasks[2] == Killing(FD, 1)
    ensures var t := ResumeStep(s);
            && !SysInv(t) && !Exists(t.k.sched, 1) && QueuedIn(t.k, "w", 1)
            && Perform(t.k, PostTo("w")) == t.k.(sems := t.k.sems["w" := SemaphoreModel.Sem(0, 1, [])])
  {
    assert QueuedIn(s.k, "w", 1);
    VictimQueuedIff(s, 1);
    FinishKeepsIff(s);
    FinishShape(s);
    GoneShape(BeforeRemoval(s), 1);
    PostLost(ResumeStep(s).k, "w", 1);
  }

  /** The killer, which had to wait for room, removes its victim although that is queued by then. */
  lemma LateRemovalHappens(buffer: seq<Byte>) returns (acts: seq<Act>, s: System)
    requires |buffer| == Pipes.PIPE_SIZE
    ensures Runs(AtBoot(), acts, s) && SysInv(s) && Shaped(s)
    ensures s.k.sched.current in s.tasks && s.tasks[s.k.sched.current] == Killing(FD, 1) && FD in s.pipes
    ensures var t := ResumeStep(s);
            && !SysInv(t) && !Exists(t.k.sched, 1) && QueuedIn(t.k, "w", 1)
            && Perform(t.k, PostTo("w")) == t.k.(sems := t.k.sems["w" := SemaphoreModel.Sem(0, 1, [])])
  {
    s := AfterBoot(buffer);
    s := KillerResumes(Reached(AtBoot()), s);
    acts := RunFromBoot(s);
    RemovedStaysQueued(s);
  }
}
