/** What every act keeps: queues, process table and all pipes agree; and exactly which kills break it. */
module PipeTheorems {
  import opened KernelModel
  import opened SchedulerTheorems
  import opened Kinship
  import opened WaitQueue
  import opened Agreement
  import opened PipeKernel
  import opened PipeViews
  import SemaphoreModel
  import Pipes

  // ----- the invariant -----

  /** Every pipe has two open semaphores of its own. */
  predicate Named(pipes: map<int, Store>, sems: map<string, Sem>) {
    && (forall f :: f in pipes ==> pipes[f].wSem in sems && pipes[f].rSem in sems && pipes[f].wSem != pipes[f].rSem)
    && (forall f, g :: f in pipes && g in pipes && f != g ==> NamesApart(pipes[f], pipes[g]))
  }

  predicate NamesApart(a: Store, b: Store) {
    a.wSem != b.wSem && a.wSem != b.rSem && a.rSem != b.wSem && a.rSem != b.rSem
  }

  predicate FineAt(pipes: map<int, Store>, sems: map<string, Sem>, tasks: map<int, Task>, f: int)
    requires f in pipes && pipes[f].wSem in sems && pipes[f].rSem in sems
  {
    Fine(pipes[f], f, sems[pipes[f].wSem], sems[pipes[f].rSem], tasks)
  }

  ghost predicate AllFine(pipes: map<int, Store>, sems: map<string, Sem>, tasks: map<int, Task>) {
    && Named(pipes, sems)
    && (forall f :: f in pipes ==> FineAt(pipes, sems, tasks, f))
    && (forall x :: x in tasks ==> tasks[x].f in pipes)
  }

  /** Processes cut off by a kill not yet finished are BLOCKED, and nothing will grant them. */
  ghost predicate CutOk(s: System) {
    forall x :: x in s.cut ==> Parked(s.k.sched, x) && !QueuedAnywhere(s.k, x)
  }

  /** Nobody is killing init. */
  ghost predicate VictimsOk(tasks: map<int, Task>) {
    forall x :: x in tasks && tasks[x].Killing? ==> tasks[x].victim != INIT_PID
  }

  ghost predicate SysInv(s: System) {
    Agrees(s.k) && AllFine(s.pipes, s.k.sems, s.tasks) && CutOk(s) && VictimsOk(s.tasks)
  }

  lemma SysShaped(s: System)
    requires SysInv(s)
    ensures Shaped(s)
  {
    forall f | f in s.pipes ensures StoreOk(s.pipes[f]) {
      assert FineAt(s.pipes, s.k.sems, s.tasks, f);
    }
  }

  // ----- the pipes through parts of an act -----

  predicate PipeSem(pipes: map<int, Store>, name: string) {
    exists f :: f in pipes && (name == pipes[f].wSem || name == pipes[f].rSem)
  }

  /** Other semaphores do not matter. */
  lemma SameSemsFine(pipes: map<int, Store>, sems: map<string, Sem>, tasks: map<int, Task>, sems': map<string, Sem>)
    requires AllFine(pipes, sems, tasks)
    requires forall name :: name in sems && PipeSem(pipes, name) ==> name in sems' && sems'[name] == sems[name]
    ensures AllFine(pipes, sems', tasks)
  {
    forall f | f in pipes
      ensures pipes[f].wSem in sems' && pipes[f].rSem in sems' && FineAt(pipes, sems', tasks, f)
    {
      assert PipeSem(pipes, pipes[f].wSem) && PipeSem(pipes, pipes[f].rSem);
      assert FineAt(pipes, sems, tasks, f);
    }
  }

  /** One pipe with its semaphores changes as described; the tasks change so that all others stay fine. */
  lemma OneFine(pipes: map<int, Store>, sems: map<string, Sem>, tasks: map<int, Task>,
                f: int, st: Store, sems': map<string, Sem>, tasks': map<int, Task>)
    requires AllFine(pipes, sems, tasks) && f in pipes && st.wSem == pipes[f].wSem && st.rSem == pipes[f].rSem
    requires sems'.Keys == sems.Keys && forall name :: name in sems && name != st.wSem && name != st.rSem ==> sems'[name] == sems[name]
    requires Fine(st, f, sems'[st.wSem], sems'[st.rSem], tasks')
    requires forall x :: x in tasks' ==> tasks'[x].f in pipes
    requires forall g :: g in pipes && g != f ==> FineAt(pipes, sems, tasks', g)
    ensures AllFine(pipes[f := st], sems', tasks')
  {
    var now := pipes[f := st];
    forall g | g in now ensures FineAt(now, sems', tasks', g) {
      if g != f {
        assert NamesApart(pipes[f], pipes[g]);
        assert FineAt(pipes, sems, tasks', g);
      }
    }
    forall g, h | g in now && h in now && g != h ensures NamesApart(now[g], now[h]) {
      assert NamesApart(pipes[g], pipes[h]);
    }
  }

  lemma CutAllFine(pipes: map<int, Store>, sems: map<string, Sem>, tasks: map<int, Task>, pid: int, gone: bool)
    requires AllFine(pipes, sems, tasks)
    requires gone ==> pid in tasks && var st := pipes[tasks[pid].f];
                                      pid in (if tasks[pid].Taking? then sems[st.rSem] else sems[st.wSem]).queue
    requires !gone ==> forall f :: f in pipes ==> pid !in sems[pipes[f].wSem].queue && pid !in sems[pipes[f].rSem].queue
    ensures AllFine(pipes, DropFromAll(sems, pid), if gone then tasks - {pid} else tasks)
  {
    var left := if gone then tasks - {pid} else tasks;
    forall f | f in pipes ensures FineAt(pipes, DropFromAll(sems, pid), left, f) {
      assert FineAt(pipes, sems, tasks, f);
      CutFine(pipes[f], f, sems[pipes[f].wSem], sems[pipes[f].rSem], tasks, pid, gone);
    }
  }

  lemma VanishAllFine(pipes: map<int, Store>, sems: map<string, Sem>, tasks: map<int, Task>, pid: int)
    requires AllFine(pipes, sems, tasks)
    requires forall f :: f in pipes ==> pid !in sems[pipes[f].wSem].queue && pid !in sems[pipes[f].rSem].queue
    ensures var now := if pid in tasks then pipes[tasks[pid].f := Lost(pipes[tasks[pid].f], tasks[pid])] else pipes;
            AllFine(now, sems, tasks - {pid})
  {
    var now := if pid in tasks then pipes[tasks[pid].f := Lost(pipes[tasks[pid].f], tasks[pid])] else pipes;
    forall f | f in pipes
      ensures now[f].wSem == pipes[f].wSem && now[f].rSem == pipes[f].rSem && FineAt(now, sems, tasks - {pid}, f)
    {
      assert FineAt(pipes, sems, tasks, f);
      VanishFine(pipes[f], f, sems[pipes[f].wSem], sems[pipes[f].rSem], tasks, pid);
    }
    forall g, h | g in now && h in now && g != h ensures NamesApart(now[g], now[h]) {
      assert NamesApart(pipes[g], pipes[h]);
    }
  }

  /** The other pipes when c gets a task at f, or has done it. */
  lemma OthersFine(pipes: map<int, Store>, sems: map<string, Sem>, tasks: map<int, Task>, f: int, c: int, t: Task)
    requires AllFine(pipes, sems, tasks) && f in pipes && t.f == f && c !in tasks
    ensures forall g :: g in pipes && g != f ==> FineAt(pipes, sems, tasks[c := t], g)
  {
    forall g | g in pipes && g != f ensures FineAt(pipes, sems, tasks[c := t], g) {
      assert FineAt(pipes, sems, tasks, g);
      ElsewhereFine(pipes[g], g, sems[pipes[g].wSem], sems[pipes[g].rSem], tasks, c, t);
    }
  }

  lemma OthersDone(pipes: map<int, Store>, sems: map<string, Sem>, tasks: map<int, Task>, f: int, c: int)
    requires AllFine(pipes, sems, tasks) && c in tasks && tasks[c].f == f
    requires forall g :: g in pipes ==> c !in sems[pipes[g].wSem].queue && c !in sems[pipes[g].rSem].queue
    ensures forall g :: g in pipes && g != f ==> FineAt(pipes, sems, tasks - {c}, g)
  {
    forall g | g in pipes && g != f ensures FineAt(pipes, sems, tasks - {c}, g) {
      assert FineAt(pipes, sems, tasks, g);
      VanishFine(pipes[g], g, sems[pipes[g].wSem], sems[pipes[g].rSem], tasks, c);
    }
  }

  /** The running process is queued at f to put a byte. */
  lemma QueuePutAll(pipes: map<int, Store>, sems: map<string, Sem>, tasks: map<int, Task>, f: int, c: int, t: Task)
    requires AllFine(pipes, sems, tasks) && f in pipes && Puts(t, f) && c !in tasks && 1 <= c < MAX_PROCESSES
    requires sems[pipes[f].wSem].value <= 0
    ensures var w := pipes[f].wSem;
            AllFine(pipes, sems[w := sems[w].(queue := sems[w].queue + [c])], tasks[c := t])
  {
    var st := pipes[f];
    assert FineAt(pipes, sems, tasks, f);
    QueuePutFine(st, f, sems[st.wSem], sems[st.rSem], tasks, c, t, 0);
    OthersFine(pipes, sems, tasks, f, c, t);
    OneFine(pipes, sems, tasks, f, st, sems[st.wSem := sems[st.wSem].(queue := sems[st.wSem].queue + [c])], tasks[c := t]);
    assert pipes[f := st] == pipes;
  }

  lemma QueueTakeAll(pipes: map<int, Store>, sems: map<string, Sem>, tasks: map<int, Task>, f: int, c: int)
    requires AllFine(pipes, sems, tasks) && f in pipes && c !in tasks && 1 <= c < MAX_PROCESSES
    requires sems[pipes[f].rSem].value <= 0
    ensures var r := pipes[f].rSem;
            AllFine(pipes, sems[r := sems[r].(queue := sems[r].queue + [c])], tasks[c := Taking(f)])
  {
    var st := pipes[f];
    assert FineAt(pipes, sems, tasks, f);
    QueueTakeFine(st, f, sems[st.wSem], sems[st.rSem], tasks, c);
    OthersFine(pipes, sems, tasks, f, c, Taking(f));
    OneFine(pipes, sems, tasks, f, st, sems[st.rSem := sems[st.rSem].(queue := sems[st.rSem].queue + [c])], tasks[c := Taking(f)]);
    assert pipes[f := st] == pipes;
  }

  function Passed(sem: Sem): Sem {
    sem.(value := sem.value - 1)
  }

  function Posted(sem: Sem): Sem {
    SemaphoreModel.Post(sem).0
  }

  lemma PassPutAll(pipes: map<int, Store>, sems: map<string, Sem>, tasks: map<int, Task>, f: int, c: int, b: Byte)
    requires AllFine(pipes, sems, tasks) && f in pipes && sems[pipes[f].wSem].value > 0
    ensures var st := pipes[f];
            StoreOk(st) && AllFine(pipes[f := StorePut(st, b)], sems[st.wSem := Passed(sems[st.wSem])][st.rSem := Posted(sems[st.rSem])], tasks)
  {
    var st := pipes[f];
    assert FineAt(pipes, sems, tasks, f);
    PassPutFine(st, f, sems[st.wSem], sems[st.rSem], tasks, c, b);
    OneFine(pipes, sems, tasks, f, StorePut(st, b), sems[st.wSem := Passed(sems[st.wSem])][st.rSem := Posted(sems[st.rSem])], tasks);
  }

  lemma PassTakeAll(pipes: map<int, Store>, sems: map<string, Sem>, tasks: map<int, Task>, f: int, c: int)
    requires AllFine(pipes, sems, tasks) && f in pipes && sems[pipes[f].rSem].value > 0
    ensures var st := pipes[f];
            StoreOk(st) && AllFine(pipes[f := StoreTake(st)], sems[st.rSem := Passed(sems[st.rSem])][st.wSem := Posted(sems[st.wSem])], tasks)
  {
    var st := pipes[f];
    assert FineAt(pipes, sems, tasks, f);
    PassTakeFine(st, f, sems[st.wSem], sems[st.rSem], tasks, c);
    OneFine(pipes, sems, tasks, f, StoreTake(st), sems[st.rSem := Passed(sems[st.rSem])][st.wSem := Posted(sems[st.wSem])], tasks);
  }

  lemma ResumePutAll(pipes: map<int, Store>, sems: map<string, Sem>, tasks: map<int, Task>, f: int, c: int, b: Byte)
    requires AllFine(pipes, sems, tasks) && c in tasks && Puts(tasks[c], f)
    requires forall g :: g in pipes ==> c !in sems[pipes[g].wSem].queue && c !in sems[pipes[g].rSem].queue
    ensures var st := pipes[f];
            StoreOk(st) && AllFine(pipes[f := StorePut(st, b)], sems[st.rSem := Posted(sems[st.rSem])], tasks - {c})
  {
    var st := pipes[f];
    assert FineAt(pipes, sems, tasks, f);
    ResumePutFine(st, f, sems[st.wSem], sems[st.rSem], tasks, c, b);
    OthersDone(pipes, sems, tasks, f, c);
    OneFine(pipes, sems, tasks, f, StorePut(st, b), sems[st.rSem := Posted(sems[st.rSem])], tasks - {c});
  }

  lemma ResumeTakeAll(pipes: map<int, Store>, sems: map<string, Sem>, tasks: map<int, Task>, f: int, c: int)
    requires AllFine(pipes, sems, tasks) && c in tasks && Takes(tasks[c], f)
    requires forall g :: g in pipes ==> c !in sems[pipes[g].wSem].queue && c !in sems[pipes[g].rSem].queue
    ensures var st := pipes[f];
            StoreOk(st) && AllFine(pipes[f := StoreTake(st)], sems[st.wSem := Posted(sems[st.wSem])], tasks - {c})
  {
    var st := pipes[f];
    assert FineAt(pipes, sems, tasks, f);
    ResumeTakeFine(st, f, sems[st.wSem], sems[st.rSem], tasks, c);
    OthersDone(pipes, sems, tasks, f, c);
    OneFine(pipes, sems, tasks, f, StoreTake(st), sems[st.wSem := Posted(sems[st.wSem])], tasks - {c});
  }

  // ----- the processes cut off -----

  lemma CutStays(s: System, c: Call, t: System)
    requires Agrees(s.k) && Legal(s.k, c) && CutOk(s) && t.k == Perform(s.k, c) && t.cut <= s.cut
    requires forall x :: x in t.cut ==> !Touches(c, x)
    ensures CutOk(t)
  {
    forall x | x in t.cut ensures Parked(t.k.sched, x) && !QueuedAnywhere(t.k, x) {
      assert x in s.cut;
      PerformKeepsStranded(s.k, c, x);
    }
  }

  lemma SelfCleanParked(s: Sched, p: int)
    requires Mid(s) && Parked(s, p)
    ensures Parked(CleanedUp(s, p), p)
  {
    var a := AdoptChildren(s, p);
    assert a.procs[p] == Adopted(s.procs[p], p);
  }

  lemma NotQueuedHere(s: System, pid: int)
    requires SysInv(s) && !QueuedAnywhere(s.k, pid)
    ensures !Waits(s, pid)
    ensures forall f :: f in s.pipes ==> pid !in s.k.sems[s.pipes[f].wSem].queue && pid !in s.k.sems[s.pipes[f].rSem].queue
  {
    forall name ensures !QueuedIn(s.k, name, pid) { }
    forall f | f in s.pipes ensures pid !in s.k.sems[s.pipes[f].wSem].queue && pid !in s.k.sems[s.pipes[f].rSem].queue {
      assert !QueuedIn(s.k, s.pipes[f].wSem, pid) && !QueuedIn(s.k, s.pipes[f].rSem, pid);
    }
    if pid in s.tasks { assert s.tasks[pid].f in s.pipes; }
  }

  lemma RunningFree(s: System)
    requires SysInv(s)
    ensures !QueuedAnywhere(s.k, s.k.sched.current) && s.k.sched.current !in s.cut
  {
    forall name ensures !QueuedIn(s.k, name, s.k.sched.current) { RunningNotQueued(s.k, name); }
  }

  // ----- the parts of an act -----

  predicate Harmless(s: System, c: Call) {
    match c
    case Sys(e) => !e.KillCall?
    case Open(name, _, _) => !PipeSem(s.pipes, name)
    case Close(name) => !PipeSem(s.pipes, name)
    case WaitOn(name) => !PipeSem(s.pipes, name)
    case PostTo(name) => !PipeSem(s.pipes, name)
    case Clean(_) => false
    case Remove(_) => true
  }

  lemma KernKeeps(s: System, c: Call)
    requires SysInv(s) && Legal(s.k, c) && Harmless(s, c) && forall x :: x in s.cut ==> !Touches(c, x)
    ensures Shaped(s) && SysInv(Kern(s, c))
  {
    SysShaped(s);
    PerformKeepsAgrees(s.k, c);
    var t := Kern(s, c);
    forall name | name in s.k.sems && PipeSem(s.pipes, name) ensures name in t.k.sems && t.k.sems[name] == s.k.sems[name] {
      OtherSem(s.k, c, name);
    }
    SameSemsFine(s.pipes, s.k.sems, s.tasks, t.k.sems);
    CutStays(s, c, t);
  }

  /** Calls that are not about a semaphore leave it alone. */
  lemma OtherSem(k: Kernel, c: Call, name: string)
    requires Sized(k.sched) && name in k.sems
    requires match c
             case Sys(e) => !e.KillCall?
             case Open(n, _, _) => n != name
             case Close(n) => n != name
             case WaitOn(n) => n != name
             case PostTo(n) => n != name
             case Clean(_) => false
             case Remove(_) => true
    ensures name in Perform(k, c).sems && Perform(k, c).sems[name] == k.sems[name]
  {
  }

  lemma VanishKeeps(s: System, pid: int)
    requires SysInv(s) && !QueuedAnywhere(s.k, pid)
    ensures Shaped(s) && SysInv(Vanish(s, pid)) && pid !in Vanish(s, pid).cut
  {
    SysShaped(s);
    NotQueuedHere(s, pid);
    VanishAllFine(s.pipes, s.k.sems, s.tasks, pid);
  }

  lemma GoneKeeps(s: System, pid: int)
    requires SysInv(s) && !QueuedAnywhere(s.k, pid) && pid != INIT_PID
    ensures Shaped(s) && SysInv(Gone(s, pid))
  {
    VanishKeeps(s, pid);
    KernKeeps(Vanish(s, pid), Remove(pid));
  }

  lemma CleanedKeeps(s: System, pid: int)
    requires SysInv(s) && Killable(s.k.sched, pid)
    ensures Shaped(s) && SysInv(Cleaned(s, pid)) && !QueuedAnywhere(Cleaned(s, pid).k, pid) && pid != INIT_PID
    ensures Cleaned(s, pid).k == Perform(s.k, Clean(pid)) && Cleaned(s, pid).k.sched.current == s.k.sched.current
    ensures Cleaned(s, pid).pipes == s.pipes && Cleaned(s, pid).outputs == s.outputs && Cleaned(s, pid).tasks.Keys <= s.tasks.Keys
  {
    SysShaped(s);
    CleanAgrees(s.k, pid);
    CleanedInv(s.k.sched, pid);
    var t := Cleaned(s, pid);
    if !Waits(s, pid) { OnlyTaskWaits(s, pid); }
    CutAllFine(s.pipes, s.k.sems, s.tasks, pid, Waits(s, pid));
    forall x | x in t.cut ensures Parked(t.k.sched, x) && !QueuedAnywhere(t.k, x) {
      if x == pid {
        if Waits(s, pid) { QueuedParked(s.k, TaskSem(s, s.tasks[pid]), pid); }
        SelfCleanParked(s.k.sched, pid);
      } else {
        PerformKeepsStranded(s.k, Clean(pid), x);
      }
    }
  }

  /** A process is queued at pipes only as its task says. */
  lemma OnlyTaskWaits(s: System, pid: int)
    requires SysInv(s) && !Waits(s, pid)
    ensures forall f :: f in s.pipes ==> pid !in s.k.sems[s.pipes[f].wSem].queue && pid !in s.k.sems[s.pipes[f].rSem].queue
  {
    forall f | f in s.pipes ensures pid !in s.k.sems[s.pipes[f].wSem].queue && pid !in s.k.sems[s.pipes[f].rSem].queue {
      assert FineAt(s.pipes, s.k.sems, s.tasks, f);
    }
  }

  // ----- puts and takes -----

  /** The running process is neither in the middle of a transfer nor of a waitPid. */
  predicate Free(s: System) {
    s.k.sched.current !in s.tasks && !Resuming(s.k.sched)
  }

  lemma WaitSems(k: Kernel, name: string)
    requires Agrees(k) && name in k.sems
    ensures k.sems[name].value > 0 ==>
              Perform(k, WaitOn(name)) == k.(sems := k.sems[name := Passed(k.sems[name])]) && !Queues(k, name)
    ensures k.sems[name].value <= 0 ==>
              && Queues(k, name)
              && Perform(k, WaitOn(name)).sems == k.sems[name := k.sems[name].(queue := k.sems[name].queue + [k.sched.current])]
  {
    QueuesNeverFill(k, name);
  }

  lemma PostSems(k: Kernel, name: string)
    requires Sized(k.sched) && name in k.sems
    ensures Perform(k, PostTo(name)).sems == k.sems[name := Posted(k.sems[name])]
    ensures Perform(k, PostTo(name)).sched.current == k.sched.current
  {
  }

  /** The wait blocks, or it passes and the byte is put. */
  lemma StartPutKeeps(s: System, f: int, b: Byte, t: Task)
    requires SysInv(s) && Free(s) && f in s.pipes && Puts(t, f) && !InitQueues(s.k, s.pipes[f].wSem)
    requires t.Killing? ==> t.victim != INIT_PID
    ensures Shaped(s) && SysInv(StartPut(s, f, b, t))
  {
    SysShaped(s);
    if s.k.sems[s.pipes[f].wSem].value > 0 {
      PassPutKeeps(s, f, b, t);
    } else {
      BlockPutKeeps(s, f, b, t);
    }
  }

  lemma PassPutKeeps(s: System, f: int, b: Byte, t: Task)
    requires SysInv(s) && Shaped(s) && Free(s) && f in s.pipes && s.k.sems[s.pipes[f].wSem].value > 0
    ensures SysInv(StartPut(s, f, b, t))
  {
    var st := s.pipes[f];
    var k1 := Perform(s.k, WaitOn(st.wSem));
    WaitSems(s.k, st.wSem);
    PerformKeepsAgrees(s.k, WaitOn(st.wSem));
    CutStays(s, WaitOn(st.wSem), s.(k := k1));
    PassPutAll(s.pipes, s.k.sems, s.tasks, f, s.k.sched.current, b);
    PostSems(k1, st.rSem);
    PerformKeepsAgrees(k1, PostTo(st.rSem));
    CutStays(s.(k := k1), PostTo(st.rSem), StartPut(s, f, b, t));
  }

  lemma BlockPutKeeps(s: System, f: int, b: Byte, t: Task)
    requires SysInv(s) && Shaped(s) && Free(s) && f in s.pipes && Puts(t, f) && s.k.sems[s.pipes[f].wSem].value <= 0
    requires s.k.sched.current != INIT_PID && (t.Killing? ==> t.victim != INIT_PID)
    ensures SysInv(StartPut(s, f, b, t))
  {
    var w := s.pipes[f].wSem;
    WaitSems(s.k, w);
    RunningRange(s);
    QueuePutAll(s.pipes, s.k.sems, s.tasks, f, s.k.sched.current, t);
    BlockKeeps(s, w, t);
  }

  /** The running process is queued and blocked, with its task left behind. */
  lemma BlockKeeps(s: System, name: string, t: Task)
    requires SysInv(s) && Shaped(s) && Free(s) && !InitQueues(s.k, name) && (t.Killing? ==> t.victim != INIT_PID)
    requires AllFine(s.pipes, Perform(s.k, WaitOn(name)).sems, s.tasks[s.k.sched.current := t])
    ensures SysInv(Kern(s, WaitOn(name)).(tasks := s.tasks[s.k.sched.current := t]))
  {
    PerformKeepsAgrees(s.k, WaitOn(name));
    CutStays(s, WaitOn(name), Kern(s, WaitOn(name)));
  }

  lemma RunningRange(s: System)
    requires SysInv(s)
    ensures 0 <= s.k.sched.current < MAX_PROCESSES
  {
  }

  lemma StartTakeKeeps(s: System, f: int)
    requires SysInv(s) && Free(s) && f in s.pipes && !InitQueues(s.k, s.pipes[f].rSem)
    ensures Shaped(s) && SysInv(StartTake(s, f))
  {
    SysShaped(s);
    if s.k.sems[s.pipes[f].rSem].value > 0 {
      PassTakeKeeps(s, f);
    } else {
      BlockTakeKeeps(s, f);
    }
  }

  lemma PassTakeKeeps(s: System, f: int)
    requires SysInv(s) && Shaped(s) && Free(s) && f in s.pipes && s.k.sems[s.pipes[f].rSem].value > 0
    ensures SysInv(StartTake(s, f))
  {
    var st := s.pipes[f];
    var k1 := Perform(s.k, WaitOn(st.rSem));
    WaitSems(s.k, st.rSem);
    PerformKeepsAgrees(s.k, WaitOn(st.rSem));
    CutStays(s, WaitOn(st.rSem), s.(k := k1));
    PassTakeAll(s.pipes, s.k.sems, s.tasks, f, s.k.sched.current);
    PostSems(k1, st.wSem);
    PerformKeepsAgrees(k1, PostTo(st.wSem));
    CutStays(s.(k := k1), PostTo(st.wSem), StartTake(s, f));
  }

  lemma BlockTakeKeeps(s: System, f: int)
    requires SysInv(s) && Shaped(s) && Free(s) && f in s.pipes && s.k.sems[s.pipes[f].rSem].value <= 0
    requires s.k.sched.current != INIT_PID
    ensures SysInv(StartTake(s, f))
  {
    var r := s.pipes[f].rSem;
    WaitSems(s.k, r);
    RunningRange(s);
    QueueTakeAll(s.pipes, s.k.sems, s.tasks, f, s.k.sched.current);
    BlockKeeps(s, r, Taking(f));
  }

  /** A granted process, running again, puts its byte. */
  lemma ResumePutKeeps(s: System, f: int, b: Byte)
    requires SysInv(s) && s.k.sched.current in s.tasks && Puts(s.tasks[s.k.sched.current], f)
    ensures Shaped(s) && f in s.pipes && SysInv(PutAndPost(s.(tasks := s.tasks - {s.k.sched.current}), f, b))
  {
    SysShaped(s);
    var c := s.k.sched.current;
    RunningFree(s);
    NotQueuedHere(s, c);
    var st := s.pipes[f];
    ResumePutAll(s.pipes, s.k.sems, s.tasks, f, c, b);
    PostSems(s.k, st.rSem);
    PerformKeepsAgrees(s.k, PostTo(st.rSem));
    CutStays(s, PostTo(st.rSem), PutAndPost(s.(tasks := s.tasks - {c}), f, b));
  }

  lemma ResumeTakeKeeps(s: System, f: int)
    requires SysInv(s) && s.k.sched.current in s.tasks && Takes(s.tasks[s.k.sched.current], f)
    ensures Shaped(s) && f in s.pipes && SysInv(TakeAndPost(s.(tasks := s.tasks - {s.k.sched.current}), f))
  {
    SysShaped(s);
    var c := s.k.sched.current;
    RunningFree(s);
    NotQueuedHere(s, c);
    var st := s.pipes[f];
    ResumeTakeAll(s.pipes, s.k.sems, s.tasks, f, c);
    PostSems(s.k, st.wSem);
    PerformKeepsAgrees(s.k, PostTo(st.wSem));
    CutStays(s, PostTo(st.wSem), TakeAndPost(s.(tasks := s.tasks - {c}), f));
  }

  // ----- killProcess -----

  /** Init kills a process whose output is a full pipe: it is queued for room, but not blocked. */
  predicate InitOverruns(s: System, pid: int) {
    Killable(s.k.sched, pid) && HasPipe(s, pid) && InitQueues(s.k, s.pipes[s.outputs[pid]].wSem)
  }

  /** The put of the end-of-file byte leaves a process that is in no queue in none. */
  lemma PutLeavesOut(s: System, f: int, b: Byte, t: Task, pid: int)
    requires SysInv(s) && Shaped(s) && f in s.pipes && !QueuedAnywhere(s.k, pid) && s.k.sems[s.pipes[f].wSem].value > 0
    ensures !QueuedAnywhere(StartPut(s, f, b, t).k, pid) && StartPut(s, f, b, t).k.sched.current == s.k.sched.current
  {
    var st := s.pipes[f];
    WaitSems(s.k, st.wSem);
    var k1 := Perform(s.k, WaitOn(st.wSem));
    PostSems(k1, st.rSem);
    var r := s.k.sems[st.rSem];
    forall name ensures !QueuedIn(StartPut(s, f, b, t).k, name, pid) {
      assert !QueuedIn(s.k, name, pid);
      assert r.queue != [] ==> forall x :: x in r.queue[1..] ==> x in r.queue;
    }
  }

  lemma KillUnfolds(s: System, pid: int)
    requires Shaped(s) && Killable(s.k.sched, pid)
    ensures var c := Cleaned(s, pid);
            KillStep(s, pid)
            == if !HasPipe(c, pid) then Gone(c, pid)
               else
                 var f := c.outputs[pid];
                 var u := StartPut(c, f, EOF, Killing(f, pid));
                 if Queues(c.k, c.pipes[f].wSem) && c.k.sched.current != INIT_PID then u else Gone(u, pid)
  {
  }

  lemma CleanedFree(s: System, pid: int)
    requires SysInv(s) && Free(s) && Killable(s.k.sched, pid)
    ensures Shaped(s) && Free(Cleaned(s, pid))
  {
    CleanedKeeps(s, pid);
    assert AdoptChildren(s.k.sched, pid).procs[s.k.sched.current] == Adopted(s.k.sched.procs[s.k.sched.current], pid);
  }

  lemma CleanedSem(s: System, pid: int, name: string)
    requires Shaped(s) && Killable(s.k.sched, pid)
    ensures name in Cleaned(s, pid).k.sems <==> name in s.k.sems
    ensures name in s.k.sems ==> Cleaned(s, pid).k.sems[name] == SemaphoreModel.Drop(s.k.sems[name], pid)
  {
  }

  lemma KillKeeps(s: System, pid: int)
    requires SysInv(s) && Free(s) && !InitOverruns(s, pid)
    ensures Shaped(s) && SysInv(KillStep(s, pid))
  {
    SysShaped(s);
    if Killable(s.k.sched, pid) {
      CleanedKeeps(s, pid);
      CleanedFree(s, pid);
      KillUnfolds(s, pid);
      var c := Cleaned(s, pid);
      if !HasPipe(c, pid) {
        GoneKeeps(c, pid);
      } else {
        KillWithPipe(s, c, pid, c.outputs[pid]);
      }
    }
  }

  lemma KillWithPipe(s: System, c: System, pid: int, f: int)
    requires SysInv(s) && Shaped(s) && Killable(s.k.sched, pid) && HasPipe(s, pid) && !InitOverruns(s, pid) && c == Cleaned(s, pid)
    requires SysInv(c) && Free(c) && !QueuedAnywhere(c.k, pid) && pid != INIT_PID && c.k.sched.current == s.k.sched.current
    requires c.pipes == s.pipes && f in s.pipes && s.outputs[pid] == f
    ensures Shaped(c)
    ensures var u := StartPut(c, f, EOF, Killing(f, pid));
            && SysInv(u)
            && (!(Queues(c.k, c.pipes[f].wSem) && c.k.sched.current != INIT_PID) ==> SysInv(Gone(u, pid)))
  {
    SysShaped(c);
    CleanedSem(s, pid, s.pipes[f].wSem);
    StartPutKeeps(c, f, EOF, Killing(f, pid));
    WaitSems(c.k, c.pipes[f].wSem);
    if c.k.sems[c.pipes[f].wSem].value > 0 {
      PutLeavesOut(c, f, EOF, Killing(f, pid), pid);
      GoneKeeps(StartPut(c, f, EOF, Killing(f, pid)), pid);
    }
  }

  /** Init stays in the queue it was put in. */
  lemma InitQueuedBreaks(s: System, f: int, pid: int)
    requires SysInv(s) && Shaped(s) && f in s.pipes && InitQueues(s.k, s.pipes[f].wSem) && pid != INIT_PID
    ensures var t := StartPut(s, f, EOF, Killing(f, pid));
            QueuedIn(t.k, s.pipes[f].wSem, INIT_PID) && QueuedIn(Gone(t, pid).k, s.pipes[f].wSem, INIT_PID)
  {
    var st := s.pipes[f];
    WaitSems(s.k, st.wSem);
    var k1 := Perform(s.k, WaitOn(st.wSem));
    assert k1.sems[st.wSem].queue[|s.k.sems[st.wSem].queue|] == INIT_PID;
    PostSems(k1, st.rSem);
  }

  lemma InitNeverQueued(k: Kernel, name: string)
    requires Agrees(k)
    ensures !QueuedIn(k, name, INIT_PID)
  {
    if name in k.sems { assert QueueOk(k.sched, k.sems[name]); }
  }

  lemma KillBreaks(s: System, pid: int)
    requires SysInv(s) && Free(s) && InitOverruns(s, pid)
    ensures Shaped(s) && !SysInv(KillStep(s, pid))
  {
    SysShaped(s);
    CleanedKeeps(s, pid);
    KillUnfolds(s, pid);
    var c, f := Cleaned(s, pid), s.outputs[pid];
    CleanedSem(s, pid, s.pipes[f].wSem);
    InitQueuedBreaks(c, f, pid);
    assert !Agrees(KillStep(s, pid).k) by {
      if Agrees(KillStep(s, pid).k) { InitNeverQueued(KillStep(s, pid).k, s.pipes[f].wSem); }
    }
  }

  /** At the call, a kill keeps everything exactly if it is not init's of a process whose output is a full pipe. */
  lemma KillKeepsIff(s: System, pid: int)
    requires SysInv(s) && Free(s)
    ensures Shaped(s) && (SysInv(KillStep(s, pid)) <==> !InitOverruns(s, pid))
  {
    SysShaped(s);
    if InitOverruns(s, pid) { KillBreaks(s, pid); } else { KillKeeps(s, pid); }
  }

  /** The state in which a killer that had to wait for room removes its victim. */
  function BeforeRemoval(s: System): (t: System)
    requires Shaped(s) && s.k.sched.current in s.tasks && s.tasks[s.k.sched.current].f in s.pipes
    ensures Shaped(t)
  {
    PutAndPost(s.(tasks := s.tasks - {s.k.sched.current}), s.tasks[s.k.sched.current].f, EOF)
  }

  /**
   Where the killer had to wait: it keeps everything exactly if nobody with the victim's number is queued when it
   resumes and has put its byte; if it killed itself that is always so.
   */
  lemma FinishKeepsIff(s: System)
    requires SysInv(s) && s.k.sched.current in s.tasks && s.tasks[s.k.sched.current].Killing?
    ensures Shaped(s) && s.tasks[s.k.sched.current].f in s.pipes
    ensures var victim := s.tasks[s.k.sched.current].victim;
            && (SysInv(ResumeStep(s)) <==> !QueuedAnywhere(BeforeRemoval(s).k, victim))
            && (victim == s.k.sched.current ==> SysInv(ResumeStep(s)))
  {
    SysShaped(s);
    var t := s.tasks[s.k.sched.current];
    ResumePutKeeps(s, t.f, EOF);
    var u := BeforeRemoval(s);
    SysShaped(u);
    FinishAgreesIff(Vanish(u, t.victim).k, t.victim);
    if !QueuedAnywhere(u.k, t.victim) { GoneKeeps(u, t.victim); }
  }

  /** The victim is still queued then if it is queued anywhere but at the head of those waiting for bytes of that pipe. */
  lemma VictimQueuedIff(s: System, v: int)
    requires SysInv(s) && Shaped(s) && s.k.sched.current in s.tasks && s.tasks[s.k.sched.current].f in s.pipes
    ensures var r := s.pipes[s.tasks[s.k.sched.current].f].rSem;
            QueuedAnywhere(BeforeRemoval(s).k, v)
            <==> exists name :: QueuedIn(s.k, name, v) && (name == r ==> s.k.sems[r].queue[0] != v)
  {
    var r := s.pipes[s.tasks[s.k.sched.current].f].rSem;
    var q := s.k.sems[r].queue;
    PostSems(s.k, r);
    assert QueueOk(s.k.sched, s.k.sems[r]);
    if q != [] { Pipes.HeadLeaves(q); }
    forall name ensures QueuedIn(BeforeRemoval(s).k, name, v) <==> QueuedIn(s.k, name, v) && (name == r ==> q[0] != v) { }
  }

  /** In a full pipe the end-of-file byte of such a kill goes over the oldest unread byte. */
  lemma InitOverwrites(s: System, pid: int)
    requires SysInv(s) && Free(s) && InitOverruns(s, pid)
    ensures Shaped(s) && pid in s.outputs && s.outputs[pid] in s.pipes
    ensures var before, after := s.pipes[s.outputs[pid]], StartPut(Cleaned(s, pid), s.outputs[pid], EOF, Killing(s.outputs[pid], pid));
            && s.outputs[pid] in after.pipes
            && var st := after.pipes[s.outputs[pid]];
               && st.size == before.size + 1 && st.buffer == before.buffer[before.writePos := EOF]
               && (before.size == Pipes.PIPE_SIZE <==> st.size > Pipes.PIPE_SIZE)
               && (before.size == Pipes.PIPE_SIZE ==> before.writePos == before.readPos)
  {
    SysShaped(s);
    CleanedKeeps(s, pid);
    CleanedSem(s, pid, s.pipes[s.outputs[pid]].wSem);
    assert FineAt(s.pipes, s.k.sems, s.tasks, s.outputs[pid]);
  }

  // ----- acts -----

  /**
   What programs and the kernel do between context switches. A process with a task takes it up first. Left out are
   init's waits that cannot pass, waking a waiter by number, removing one while it is queued, and user calls on the
   semaphores of a pipe.
   */
  ghost predicate Allowed(s: System, a: Act) {
    && Shaped(s) && (s.k.sched.current in s.tasks ==> a.Resume?)
    && match a
       case User(c) =>
         && Legal(s.k, c) && Harmless(s, c) && !c.Remove?
         && (c.Sys? ==> !c.event.CreateCall? && (c.event.UnblockCall? ==> c.event.pid !in s.cut))
       case Spawn(_, _, _) => true
       case NewPipe(f, buffer, wSem, rSem) =>
         && f !in s.pipes && |buffer| == Pipes.PIPE_SIZE && wSem != rSem && wSem !in s.k.sems && rSem !in s.k.sems
         && |s.k.sems| + 2 <= MAX_SEMAPHORES
       case WriteByte(f, _) => f in s.pipes && !Resuming(s.k.sched) && !InitQueues(s.k, s.pipes[f].wSem)
       case ReadByte(f) => f in s.pipes && !Resuming(s.k.sched) && !InitQueues(s.k, s.pipes[f].rSem)
       case Kill(pid) => !Resuming(s.k.sched) && !InitOverruns(s, pid)
       case Resume =>
         && s.k.sched.current in s.tasks && s.tasks[s.k.sched.current].f in s.pipes
         && (s.tasks[s.k.sched.current].Killing? ==> !QueuedAnywhere(BeforeRemoval(s).k, s.tasks[s.k.sched.current].victim))
  }

  lemma UserKeeps(s: System, c: Call)
    requires SysInv(s) && Allowed(s, User(c))
    ensures SysInv(UserStep(s, c))
  {
    if c.Sys? && c.event.ReapCall? {
      VanishKeeps(s, c.event.pid);
      KernKeeps(Vanish(s, c.event.pid), c);
    } else if c.Sys? && c.event.ExitCall? {
      RunningFree(s);
      VanishKeeps(s, s.k.sched.current);
      KernKeeps(Vanish(s, s.k.sched.current), c);
    } else {
      KernKeeps(s, c);
    }
  }

  lemma NewPipeKeeps(s: System, f: int, buffer: seq<Byte>, wSem: string, rSem: string)
    requires SysInv(s) && Allowed(s, NewPipe(f, buffer, wSem, rSem))
    ensures SysInv(Do(s, NewPipe(f, buffer, wSem, rSem)))
  {
    var t := Kern(s, Open(wSem, Pipes.PIPE_SIZE, true));
    assert !PipeSem(s.pipes, wSem) && !PipeSem(s.pipes, rSem);
    KernKeeps(s, Open(wSem, Pipes.PIPE_SIZE, true));
    assert t.k.sems.Keys == s.k.sems.Keys + {wSem};
    var u := Kern(t, Open(rSem, 0, true));
    KernKeeps(t, Open(rSem, 0, true));
    NewAllFine(u.pipes, u.k.sems, u.tasks, f, Store(buffer, 0, 0, 0, wSem, rSem, [], [], 0, 0));
  }

  lemma NewAllFine(pipes: map<int, Store>, sems: map<string, Sem>, tasks: map<int, Task>, f: int, st: Store)
    requires AllFine(pipes, sems, tasks) && f !in pipes && !PipeSem(pipes, st.wSem) && !PipeSem(pipes, st.rSem)
    requires st.wSem != st.rSem && st.wSem in sems && st.rSem in sems
    requires sems[st.wSem] == SemaphoreModel.Sem(Pipes.PIPE_SIZE, 1, []) && sems[st.rSem] == SemaphoreModel.Sem(0, 1, [])
    requires |st.buffer| == Pipes.PIPE_SIZE && st == Store(st.buffer, 0, 0, 0, st.wSem, st.rSem, [], [], 0, 0)
    ensures AllFine(pipes[f := st], sems, tasks)
  {
    var now := pipes[f := st];
    Pipes.CreatedInv(st.buffer);
    forall x ensures x !in PuttersOf(tasks, f, []) && x !in TakersOf(tasks, f, []) {
      assert x in tasks ==> tasks[x].f in pipes;
    }
    assert PuttersOf(tasks, f, []) == {} && TakersOf(tasks, f, []) == {};
    assert Seen(st, f, sems[st.wSem], sems[st.rSem], tasks) == Pipes.Created(st.buffer);
    forall g | g in now ensures FineAt(now, sems, tasks, g) {
      if g != f { assert FineAt(pipes, sems, tasks, g); }
    }
    forall g, h | g in now && h in now && g != h ensures NamesApart(now[g], now[h]) {
      if g != f { assert PipeSem(pipes, pipes[g].wSem) && PipeSem(pipes, pipes[g].rSem); }
      if h != f { assert PipeSem(pipes, pipes[h].wSem) && PipeSem(pipes, pipes[h].rSem); }
    }
  }

  lemma ResumeKeeps(s: System)
    requires SysInv(s) && Allowed(s, Resume)
    ensures SysInv(ResumeStep(s))
  {
    match s.tasks[s.k.sched.current]
    case Putting(f, b) => ResumePutKeeps(s, f, b);
    case Taking(f) => ResumeTakeKeeps(s, f);
    case Killing(f, victim) => FinishKeepsIff(s);
  }

  /** Every act keeps queues, process table and all pipes in order. */
  lemma DoKeeps(s: System, a: Act)
    requires SysInv(s) && Allowed(s, a)
    ensures SysInv(Do(s, a))
  {
    match a
    case User(c) => UserKeeps(s, c);
    case Spawn(unkillable, memory, out) => KernKeeps(s, Sys(CreateCall(unkillable, memory)));
    case NewPipe(f, buffer, wSem, rSem) => NewPipeKeeps(s, f, buffer, wSem, rSem);
    case WriteByte(f, b) => StartPutKeeps(s, f, b, Putting(f, b));
    case ReadByte(f) => StartTakeKeeps(s, f);
    case Kill(pid) => KillKeeps(s, pid);
    case Resume => ResumeKeeps(s);
  }

  // ----- runs -----

  ghost predicate Runs(s: System, acts: seq<Act>, t: System)
    decreases |acts|
  {
    if acts == [] then t == s else Allowed(s, acts[0]) && Runs(Do(s, acts[0]), acts[1..], t)
  }

  lemma {:induction false} RunsKeep(s: System, acts: seq<Act>, t: System)
    requires SysInv(s) && Runs(s, acts, t)
    ensures SysInv(t)
    decreases |acts|
  {
    if acts != [] {
      DoKeeps(s, acts[0]);
      RunsKeep(Do(s, acts[0]), acts[1..], t);
    }
  }

  /** Free places and bytes of a pipe are promised to those granted, or lost; only its writers and readers queue at it. */
  predicate Promised(s: System, f: int, st: Store) {
    && st.wSem in s.k.sems && st.rSem in s.k.sems
    && var w, r := s.k.sems[st.wSem], s.k.sems[st.rSem];
       && w.value + |PuttersOf(s.tasks, f, w.queue)| + st.lostW == Pipes.PIPE_SIZE - st.size
       && r.value + |TakersOf(s.tasks, f, r.queue)| + st.lostR == st.size
       && Tended(f, w, r, s.tasks)
  }

  /** What the invariant says of one queue and of one pipe. */
  lemma RunsMean(b: System, acts: seq<Act>, s: System, name: string, f: int)
    requires SysInv(b) && Runs(b, acts, s)
    ensures Agrees(s.k) && !QueuedIn(s.k, name, INIT_PID)
    ensures name in s.k.sems ==>
              |s.k.sems[name].queue| < CAPACITY
              && forall p, other :: QueuedIn(s.k, name, p) ==> HasStatus(s.k.sched, p, Blocked) && (other != name ==> !QueuedIn(s.k, other, p))
    ensures f in s.pipes ==>
              var st := s.pipes[f];
              && StoreOk(st) && 0 <= st.size <= Pipes.PIPE_SIZE && Promised(s, f, st)
              && st.put == st.taken + Pipes.Turned(st.buffer, st.readPos)[..st.size]
  {
    RunsKeep(b, acts, s);
    InitNeverQueued(s.k, name);
    if name in s.k.sems {
      QueuesNeverFill(s.k, name);
      forall p, other | QueuedIn(s.k, name, p) ensures HasStatus(s.k.sched, p, Blocked) && (other != name ==> !QueuedIn(s.k, other, p)) {
        QueuedParked(s.k, name, p);
      }
    }
    if f in s.pipes { assert FineAt(s.pipes, s.k.sems, s.tasks, f); }
  }

  /** After boot: no pipes, no tasks. */
  function AtBoot(): (s: System)
    ensures Sized(s.k.sched)
  {
    System(Kernel(TimerHandler(Booted()), map[]), map[], map[], map[], {})
  }

  lemma BootSound()
    ensures SysInv(AtBoot())
  {
    BootInv();
  }

  /**
   In every run from boot, whatever is written, read, killed, created and closed in between: queued processes are
   live, BLOCKED and in one queue only, init is in none, and no queue is full; and every pipe holds exactly the bytes
   put and not yet taken, in order, within its size, with every place and byte promised to somebody.
   */
  lemma SystemCorrect(acts: seq<Act>, s: System, name: string, f: int)
    requires Runs(AtBoot(), acts, s)
    ensures Agrees(s.k) && !QueuedIn(s.k, name, INIT_PID)
    ensures name in s.k.sems ==>
              |s.k.sems[name].queue| < CAPACITY
              && forall p, other :: QueuedIn(s.k, name, p) ==> HasStatus(s.k.sched, p, Blocked) && (other != name ==> !QueuedIn(s.k, other, p))
    ensures f in s.pipes ==>
              var st := s.pipes[f];
              && StoreOk(st) && 0 <= st.size <= Pipes.PIPE_SIZE && Promised(s, f, st)
              && st.put == st.taken + Pipes.Turned(st.buffer, st.readPos)[..st.size]
  {
    BootSound();
    RunsMean(AtBoot(), acts, s, name, f);
  }
}
