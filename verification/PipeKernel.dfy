/**
 Processes, semaphores and pipes together. What a system call does between two context
 switches is one act; a call that blocks leaves a task, which its process takes up when it
 runs again. killProcess sends an end-of-file byte for its victim, as an act of the killer,
 and so may block between its clean-up and the removal.
 */
module PipeKernel {
  import opened KernelModel
  import opened SchedulerTheorems
  import opened Kinship
  import opened WaitQueue
  import opened Agreement
  import SemaphoreModel
  import Pipes

  type Byte = Pipes.Byte
  type Sem = SemaphoreModel.Sem

  const EOF: Byte := -1

  /** pipe_t with the bytes moved and the grants lost so far. */
  datatype Store = Store(
    buffer: seq<Byte>, readPos: nat, writePos: nat, size: int, wSem: string, rSem: string,
    put: seq<Byte>, taken: seq<Byte>, lostW: nat, lostR: nat)

  /** What a blocked process does when it runs again: put or take its byte, or put the end-of-file byte and remove the victim. */
  datatype Task = Putting(f: int, b: Byte) | Taking(f: int) | Killing(f: int, victim: int)

  /**
   outputs are the pipes processes write to by default; cut are the processes whose wait at a pipe was cut off by
   a kill not yet finished.
   */
  datatype System = System(k: Kernel, pipes: map<int, Store>, outputs: map<int, int>, tasks: map<int, Task>, cut: set<int>)

  datatype Act =
    | User(c: Call)
    | Spawn(unkillable: bool, memory: bool, out: int)
    | NewPipe(f: int, buffer: seq<Byte>, wSem: string, rSem: string)
    | WriteByte(f: int, b: Byte)
    | ReadByte(f: int)
    | Kill(pid: int)
    | Resume

  predicate Puts(t: Task, f: int) {
    (t.Putting? || t.Killing?) && t.f == f
  }

  predicate Takes(t: Task, f: int) {
    t.Taking? && t.f == f
  }

  predicate StoreOk(st: Store) {
    |st.buffer| == Pipes.PIPE_SIZE && st.readPos < Pipes.PIPE_SIZE && st.writePos < Pipes.PIPE_SIZE
  }

  predicate Shaped(s: System) {
    Sized(s.k.sched) && forall f :: f in s.pipes ==> StoreOk(s.pipes[f])
  }

  function StorePut(st: Store, b: Byte): Store
    requires StoreOk(st)
  {
    st.(buffer := st.buffer[st.writePos := b], writePos := (st.writePos + 1) % Pipes.PIPE_SIZE, size := st.size + 1,
        put := st.put + [b])
  }

  function StoreTake(st: Store): Store
    requires StoreOk(st)
  {
    st.(readPos := (st.readPos + 1) % Pipes.PIPE_SIZE, size := st.size - 1, taken := st.taken + [st.buffer[st.readPos]])
  }

  // ----- parts of an act -----

  function Kern(s: System, c: Call): (t: System)
    requires Shaped(s)
    ensures Shaped(t)
  {
    s.(k := Perform(s.k, c))
  }

  /** The byte goes in, and a reader is granted. */
  function PutAndPost(s: System, f: int, b: Byte): (t: System)
    requires Shaped(s) && f in s.pipes
    ensures Shaped(t)
  {
    Kern(s.(pipes := s.pipes[f := StorePut(s.pipes[f], b)]), PostTo(s.pipes[f].rSem))
  }

  function TakeAndPost(s: System, f: int): (t: System)
    requires Shaped(s) && f in s.pipes
    ensures Shaped(t)
  {
    Kern(s.(pipes := s.pipes[f := StoreTake(s.pipes[f])]), PostTo(s.pipes[f].wSem))
  }

  /** The running process would be queued; init would be, too, but would go on. */
  predicate Queues(k: Kernel, name: string) {
    name in k.sems && k.sems[name].value <= 0 && |k.sems[name].queue| < CAPACITY
  }

  /** semWait of the running process, then either its task is left or the rest happens at once. */
  function StartPut(s: System, f: int, b: Byte, task: Task): (t: System)
    requires Shaped(s) && f in s.pipes
    ensures Shaped(t)
  {
    var w := s.pipes[f].wSem;
    if Queues(s.k, w) && s.k.sched.current != INIT_PID
    then Kern(s, WaitOn(w)).(tasks := s.tasks[s.k.sched.current := task])
    else PutAndPost(Kern(s, WaitOn(w)), f, b)
  }

  function StartTake(s: System, f: int): (t: System)
    requires Shaped(s) && f in s.pipes
    ensures Shaped(t)
  {
    var r := s.pipes[f].rSem;
    if Queues(s.k, r) && s.k.sched.current != INIT_PID
    then Kern(s, WaitOn(r)).(tasks := s.tasks[s.k.sched.current := Taking(f)])
    else TakeAndPost(Kern(s, WaitOn(r)), f)
  }

  /** The semaphore a task has waited for. */
  function TaskSem(s: System, t: Task): string
    requires t.f in s.pipes
  {
    if t.Taking? then s.pipes[t.f].rSem else s.pipes[t.f].wSem
  }

  /** pid has a task and is still queued for it. */
  predicate Waits(s: System, pid: int) {
    pid in s.tasks && s.tasks[pid].f in s.pipes
    && TaskSem(s, s.tasks[pid]) in s.k.sems && pid in s.k.sems[TaskSem(s, s.tasks[pid])].queue
  }

  function Lost(st: Store, t: Task): Store {
    if t.Taking? then st.(lostR := st.lostR + 1) else st.(lostW := st.lostW + 1)
  }

  /** What is left of a process when it is removed: a grant it had not used is lost. */
  function Vanish(s: System, pid: int): (t: System)
    requires Shaped(s)
    ensures Shaped(t) && t.k == s.k
  {
    var pipes := if pid in s.tasks && s.tasks[pid].f in s.pipes && !Waits(s, pid)
                 then s.pipes[s.tasks[pid].f := Lost(s.pipes[s.tasks[pid].f], s.tasks[pid])] else s.pipes;
    s.(pipes := pipes, tasks := s.tasks - {pid}, outputs := s.outputs - {pid}, cut := s.cut - {pid})
  }

  /** The end of killProcess. */
  function Gone(s: System, pid: int): (t: System)
    requires Shaped(s)
    ensures Shaped(t)
  {
    Kern(Vanish(s, pid), Remove(pid))
  }

  /** The beginning of killProcess. */
  function Cleaned(s: System, pid: int): (t: System)
    requires Shaped(s)
    ensures Shaped(t)
  {
    if Waits(s, pid) then Kern(s, Clean(pid)).(tasks := s.tasks - {pid}, cut := s.cut + {pid}) else Kern(s, Clean(pid))
  }

  predicate HasPipe(s: System, pid: int) {
    pid in s.outputs && s.outputs[pid] in s.pipes
  }

  function KillStep(s: System, pid: int): (t: System)
    requires Shaped(s)
    ensures Shaped(t)
  {
    if !Killable(s.k.sched, pid) then s
    else
      var c := Cleaned(s, pid);
      if !HasPipe(c, pid) then Gone(c, pid)
      else
        var f := c.outputs[pid];
        var w := c.pipes[f].wSem;
        if Queues(c.k, w) && c.k.sched.current != INIT_PID
        then Kern(c, WaitOn(w)).(tasks := c.tasks[c.k.sched.current := Killing(f, pid)])
        else Gone(PutAndPost(Kern(c, WaitOn(w)), f, EOF), pid)
  }

  function ResumeStep(s: System): (t: System)
    requires Shaped(s) && s.k.sched.current in s.tasks && s.tasks[s.k.sched.current].f in s.pipes
    ensures Shaped(t)
  {
    var c := s.k.sched.current;
    var u := s.(tasks := s.tasks - {c});
    match s.tasks[c]
    case Putting(f, b) => PutAndPost(u, f, b)
    case Taking(f) => TakeAndPost(u, f)
    case Killing(f, victim) => Gone(PutAndPost(u, f, EOF), victim)
  }

  function SpawnStep(s: System, unkillable: bool, memory: bool, out: int): (t: System)
    requires Shaped(s)
    ensures Shaped(t)
  {
    var i := FreeSlot(s.k.sched.procs, 0);
    var made := s.k.sched.size < MAX_PROCESSES && i != NO_PID && memory;
    Kern(s, Sys(CreateCall(unkillable, memory))).(outputs := if made then s.outputs[i := out] else s.outputs)
  }

  function UserStep(s: System, c: Call): (t: System)
    requires Shaped(s)
    ensures Shaped(t)
  {
    match c
    case Sys(e) =>
      if e.ReapCall? then Kern(Vanish(s, e.pid), c)
      else if e.ExitCall? then Kern(Vanish(s, s.k.sched.current), c)
      else Kern(s, c)
    case _ => Kern(s, c)
  }

  function Do(s: System, a: Act): (t: System)
    requires Shaped(s) && (a.NewPipe? ==> |a.buffer| == Pipes.PIPE_SIZE)
    ensures Shaped(t)
  {
    match a
    case User(c) => UserStep(s, c)
    case Spawn(unkillable, memory, out) => SpawnStep(s, unkillable, memory, out)
    case NewPipe(f, buffer, wSem, rSem) =>
      Kern(Kern(s, Open(wSem, Pipes.PIPE_SIZE, true)), Open(rSem, 0, true)).(
        pipes := s.pipes[f := Store(buffer, 0, 0, 0, wSem, rSem, [], [], 0, 0)])
    case WriteByte(f, b) => if f in s.pipes then StartPut(s, f, b, Putting(f, b)) else s
    case ReadByte(f) => if f in s.pipes then StartTake(s, f) else s
    case Kill(pid) => KillStep(s, pid)
    case Resume => if s.k.sched.current in s.tasks && s.tasks[s.k.sched.current].f in s.pipes then ResumeStep(s) else s
  }
}
