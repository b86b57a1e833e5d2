/** One pipe as the tasks and the semaphores show it, and how each part of an act changes that view. */
module PipeViews {
  import opened KernelModel
  import opened SchedulerTheorems
  import opened Kinship
  import opened WaitQueue
  import opened Agreement
  import opened PipeKernel
  import SemaphoreModel
  import Pipes

  // ----- a pipe as the tasks and the semaphores show it -----

  /** Those with a byte to put at f who are no longer queued: they were granted. */
  function PuttersOf(tasks: map<int, Task>, f: int, queue: seq<int>): set<int> {
    set x | x in tasks && Puts(tasks[x], f) && x !in queue
  }

  function TakersOf(tasks: map<int, Task>, f: int, queue: seq<int>): set<int> {
    set x | x in tasks && Takes(tasks[x], f) && x !in queue
  }

  function Seen(st: Store, f: int, w: Sem, r: Sem, tasks: map<int, Task>): Pipes.Pipe {
    Pipes.Pipe(st.buffer, st.readPos, st.writePos, st.size, w, r, PuttersOf(tasks, f, w.queue), TakersOf(tasks, f, r.queue),
               st.put, st.taken, st.lostW, st.lostR)
  }

  /** Whoever is queued at one of the semaphores of f has the matching task. */
  predicate Tended(f: int, w: Sem, r: Sem, tasks: map<int, Task>) {
    && (forall x :: x in w.queue ==> x in tasks && Puts(tasks[x], f))
    && (forall x :: x in r.queue ==> x in tasks && Takes(tasks[x], f))
  }

  predicate Fine(st: Store, f: int, w: Sem, r: Sem, tasks: map<int, Task>) {
    Tended(f, w, r, tasks) && Pipes.Inv(Seen(st, f, w, r, tasks))
  }

  // ----- how one pipe changes -----

  lemma QueueStays(q: seq<int>, pid: int)
    requires pid !in q && |q| < CAPACITY
    ensures Dequeued(q, pid) == q
  {
    RemoveFirstAbsent(q, pid);
  }

  /** The clean-up of a kill; the task of pid goes when it was waiting for it, here or elsewhere. */
  lemma CutFine(st: Store, f: int, w: Sem, r: Sem, tasks: map<int, Task>, pid: int, gone: bool)
    requires Fine(st, f, w, r, tasks)
    requires gone ==> pid in tasks && (tasks[pid].f != f || pid in (if tasks[pid].Taking? then r else w).queue)
    requires !gone ==> pid !in w.queue && pid !in r.queue
    ensures var left := if gone then tasks - {pid} else tasks;
            Fine(st, f, SemaphoreModel.Drop(w, pid), SemaphoreModel.Drop(r, pid), left)
  {
    var p := Seen(st, f, w, r, tasks);
    Pipes.ShortQueues(p);
    SemaphoreModel.DropEffect(w, pid);
    SemaphoreModel.DropEffect(r, pid);
    Pipes.CutKeeps(p, pid);
    SeenCut(st, f, w, r, tasks, pid, gone, SemaphoreModel.Drop(w, pid), SemaphoreModel.Drop(r, pid));
  }

  lemma SeenCut(st: Store, f: int, w: Sem, r: Sem, tasks: map<int, Task>, pid: int, gone: bool, w': Sem, r': Sem)
    requires Tended(f, w, r, tasks)
    requires gone ==> pid in tasks && (tasks[pid].f != f || pid in (if tasks[pid].Taking? then r else w).queue)
    requires !gone ==> pid !in w.queue && pid !in r.queue
    requires forall x :: x in w'.queue <==> x in w.queue && x != pid
    requires forall x :: x in r'.queue <==> x in r.queue && x != pid
    ensures var left := if gone then tasks - {pid} else tasks;
            Tended(f, w', r', left) && Seen(st, f, w', r', left) == Seen(st, f, w, r, tasks).(w := w', r := r')
  {
    var left := if gone then tasks - {pid} else tasks;
    forall x ensures x in PuttersOf(left, f, w'.queue) <==> x in PuttersOf(tasks, f, w.queue) { }
    forall x ensures x in TakersOf(left, f, r'.queue) <==> x in TakersOf(tasks, f, r.queue) { }
    assert PuttersOf(left, f, w'.queue) == PuttersOf(tasks, f, w.queue);
    assert TakersOf(left, f, r'.queue) == TakersOf(tasks, f, r.queue);
  }

  /** The running process queues to put a byte. */
  lemma QueuePutFine(st: Store, f: int, w: Sem, r: Sem, tasks: map<int, Task>, c: int, t: Task, b: Byte)
    requires Fine(st, f, w, r, tasks) && c !in tasks && 1 <= c < MAX_PROCESSES && Puts(t, f) && w.value <= 0
    ensures |w.queue| < CAPACITY && Fine(st, f, w.(queue := w.queue + [c]), r, tasks[c := t])
  {
    var p := Seen(st, f, w, r, tasks);
    var w' := w.(queue := w.queue + [c]);
    Pipes.ShortQueues(p);
    assert Pipes.Idle(p, c);
    Pipes.WriteKeeps(p, c, b);
    assert PuttersOf(tasks[c := t], f, w'.queue) == PuttersOf(tasks, f, w.queue);
    assert TakersOf(tasks[c := t], f, r.queue) == TakersOf(tasks, f, r.queue);
    assert Seen(st, f, w', r, tasks[c := t]) == Pipes.Apply(p, Pipes.Write(c, b));
  }

  lemma QueueTakeFine(st: Store, f: int, w: Sem, r: Sem, tasks: map<int, Task>, c: int)
    requires Fine(st, f, w, r, tasks) && c !in tasks && 1 <= c < MAX_PROCESSES && r.value <= 0
    ensures |r.queue| < CAPACITY && Fine(st, f, w, r.(queue := r.queue + [c]), tasks[c := Taking(f)])
  {
    var p := Seen(st, f, w, r, tasks);
    var r' := r.(queue := r.queue + [c]);
    Pipes.ShortQueues(p);
    assert Pipes.Idle(p, c);
    Pipes.ReadKeeps(p, c);
    assert PuttersOf(tasks[c := Taking(f)], f, w.queue) == PuttersOf(tasks, f, w.queue);
    assert TakersOf(tasks[c := Taking(f)], f, r'.queue) == TakersOf(tasks, f, r.queue);
    assert Seen(st, f, w, r', tasks[c := Taking(f)]) == Pipes.Apply(p, Pipes.Read(c));
  }

  /** A task at another pipe. */
  lemma ElsewhereFine(st: Store, f: int, w: Sem, r: Sem, tasks: map<int, Task>, c: int, t: Task)
    requires Fine(st, f, w, r, tasks) && c !in tasks && t.f != f
    ensures Fine(st, f, w, r, tasks[c := t])
  {
    assert PuttersOf(tasks[c := t], f, w.queue) == PuttersOf(tasks, f, w.queue);
    assert TakersOf(tasks[c := t], f, r.queue) == TakersOf(tasks, f, r.queue);
  }

  /** A post grants the first queued. */
  lemma SeenPostReader(st: Store, f: int, w: Sem, r: Sem, tasks: map<int, Task>)
    requires Tended(f, w, r, tasks) && SemaphoreModel.NoRepeats(r.queue)
    ensures var r' := SemaphoreModel.Post(r).0;
            Seen(st, f, w, r', tasks) == Pipes.PostReader(Seen(st, f, w, r, tasks)) && Tended(f, w, r', tasks)
  {
    if r.queue != [] {
      Pipes.HeadLeaves(r.queue);
      var head, rest := r.queue[0], r.queue[1..];
      forall x ensures x in TakersOf(tasks, f, rest) <==> x in TakersOf(tasks, f, r.queue) || x == head {
        assert x in rest <==> x in r.queue && x != head;
      }
      assert TakersOf(tasks, f, rest) == TakersOf(tasks, f, r.queue) + {head};
    }
  }

  lemma SeenPostWriter(st: Store, f: int, w: Sem, r: Sem, tasks: map<int, Task>)
    requires Tended(f, w, r, tasks) && SemaphoreModel.NoRepeats(w.queue)
    ensures var w' := SemaphoreModel.Post(w).0;
            Seen(st, f, w', r, tasks) == Pipes.PostWriter(Seen(st, f, w, r, tasks)) && Tended(f, w', r, tasks)
  {
    if w.queue != [] {
      Pipes.HeadLeaves(w.queue);
      var head, rest := w.queue[0], w.queue[1..];
      forall x ensures x in PuttersOf(tasks, f, rest) <==> x in PuttersOf(tasks, f, w.queue) || x == head {
        assert x in rest <==> x in w.queue && x != head;
      }
      assert PuttersOf(tasks, f, rest) == PuttersOf(tasks, f, w.queue) + {head};
    }
  }

  /** A put that passes at once. */
  lemma PassPutFine(st: Store, f: int, w: Sem, r: Sem, tasks: map<int, Task>, c: int, b: Byte)
    requires Fine(st, f, w, r, tasks) && w.value > 0
    ensures StoreOk(st) && Fine(StorePut(st, b), f, w.(value := w.value - 1), SemaphoreModel.Post(r).0, tasks)
  {
    Pipes.WriteKeeps(Seen(st, f, w, r, tasks), c, b);
    SeenPassPut(st, f, w, r, tasks, c, b);
  }

  lemma SeenPassPut(st: Store, f: int, w: Sem, r: Sem, tasks: map<int, Task>, c: int, b: Byte)
    requires StoreOk(st) && Tended(f, w, r, tasks) && SemaphoreModel.NoRepeats(r.queue) && w.value > 0 && w.queue == []
    ensures var w', r' := w.(value := w.value - 1), SemaphoreModel.Post(r).0;
            && Seen(StorePut(st, b), f, w', r', tasks) == Pipes.Apply(Seen(st, f, w, r, tasks), Pipes.Write(c, b))
            && Tended(f, w', r', tasks)
  {
    SeenPostReader(StorePut(st, b), f, w.(value := w.value - 1), r, tasks);
  }

  lemma PassTakeFine(st: Store, f: int, w: Sem, r: Sem, tasks: map<int, Task>, c: int)
    requires Fine(st, f, w, r, tasks) && r.value > 0
    ensures StoreOk(st) && Fine(StoreTake(st), f, SemaphoreModel.Post(w).0, r.(value := r.value - 1), tasks)
  {
    Pipes.ReadKeeps(Seen(st, f, w, r, tasks), c);
    SeenPassTake(st, f, w, r, tasks, c);
  }

  lemma SeenPassTake(st: Store, f: int, w: Sem, r: Sem, tasks: map<int, Task>, c: int)
    requires StoreOk(st) && Tended(f, w, r, tasks) && SemaphoreModel.NoRepeats(w.queue) && r.value > 0 && r.queue == []
    ensures var w', r' := SemaphoreModel.Post(w).0, r.(value := r.value - 1);
            && Seen(StoreTake(st), f, w', r', tasks) == Pipes.Apply(Seen(st, f, w, r, tasks), Pipes.Read(c))
            && Tended(f, w', r', tasks)
  {
    SeenPostWriter(StoreTake(st), f, w, r.(value := r.value - 1), tasks);
  }

  /** Dropping the task of a process that is not queued. */
  lemma SeenDone(st: Store, f: int, w: Sem, r: Sem, tasks: map<int, Task>, c: int)
    requires Tended(f, w, r, tasks) && c !in w.queue && c !in r.queue
    ensures var p := Seen(st, f, w, r, tasks);
            Seen(st, f, w, r, tasks - {c}) == p.(writers := p.writers - {c}, readers := p.readers - {c})
    ensures Tended(f, w, r, tasks - {c})
  {
    assert PuttersOf(tasks - {c}, f, w.queue) == PuttersOf(tasks, f, w.queue) - {c};
    assert TakersOf(tasks - {c}, f, r.queue) == TakersOf(tasks, f, r.queue) - {c};
  }

  /** A granted process puts its byte. */
  lemma ResumePutFine(st: Store, f: int, w: Sem, r: Sem, tasks: map<int, Task>, c: int, b: Byte)
    requires Fine(st, f, w, r, tasks) && c in tasks && Puts(tasks[c], f) && c !in w.queue && c !in r.queue
    ensures StoreOk(st) && Fine(StorePut(st, b), f, w, SemaphoreModel.Post(r).0, tasks - {c})
  {
    var p := Seen(st, f, w, r, tasks);
    assert c in p.writers;
    Pipes.ResumeWriteKeeps(p, c, b);
    SeenResumePut(st, f, w, r, tasks, c, b);
  }

  lemma SeenResumePut(st: Store, f: int, w: Sem, r: Sem, tasks: map<int, Task>, c: int, b: Byte)
    requires StoreOk(st) && Tended(f, w, r, tasks) && SemaphoreModel.NoRepeats(r.queue)
    requires c in tasks && Puts(tasks[c], f) && c !in w.queue && c !in r.queue
    ensures var r' := SemaphoreModel.Post(r).0;
            && Seen(StorePut(st, b), f, w, r', tasks - {c}) == Pipes.Apply(Seen(st, f, w, r, tasks), Pipes.ResumeWrite(c, b))
            && Tended(f, w, r', tasks - {c})
  {
    var p := Seen(st, f, w, r, tasks);
    SeenDone(st, f, w, r, tasks, c);
    assert p.readers - {c} == p.readers;
    SeenPostReader(StorePut(st, b), f, w, r, tasks - {c});
  }

  lemma ResumeTakeFine(st: Store, f: int, w: Sem, r: Sem, tasks: map<int, Task>, c: int)
    requires Fine(st, f, w, r, tasks) && c in tasks && Takes(tasks[c], f) && c !in w.queue && c !in r.queue
    ensures StoreOk(st) && Fine(StoreTake(st), f, SemaphoreModel.Post(w).0, r, tasks - {c})
  {
    var p := Seen(st, f, w, r, tasks);
    assert c in p.readers;
    Pipes.ResumeReadKeeps(p, c);
    SeenResumeTake(st, f, w, r, tasks, c);
  }

  lemma SeenResumeTake(st: Store, f: int, w: Sem, r: Sem, tasks: map<int, Task>, c: int)
    requires StoreOk(st) && Tended(f, w, r, tasks) && SemaphoreModel.NoRepeats(w.queue)
    requires c in tasks && Takes(tasks[c], f) && c !in w.queue && c !in r.queue
    ensures var w' := SemaphoreModel.Post(w).0;
            && Seen(StoreTake(st), f, w', r, tasks - {c}) == Pipes.Apply(Seen(st, f, w, r, tasks), Pipes.ResumeRead(c))
            && Tended(f, w', r, tasks - {c})
  {
    var p := Seen(st, f, w, r, tasks);
    SeenDone(st, f, w, r, tasks, c);
    assert p.writers - {c} == p.writers;
    SeenPostWriter(StoreTake(st), f, w, r, tasks - {c});
  }

  /** A process that is not queued here is removed, or has its task elsewhere done. */
  lemma VanishFine(st: Store, f: int, w: Sem, r: Sem, tasks: map<int, Task>, pid: int)
    requires Fine(st, f, w, r, tasks) && pid !in w.queue && pid !in r.queue
    ensures Fine(if pid in tasks && tasks[pid].f == f then Lost(st, tasks[pid]) else st, f, w, r, tasks - {pid})
  {
    var p := Seen(st, f, w, r, tasks);
    Pipes.ShortQueues(p);
    QueueStays(w.queue, pid);
    QueueStays(r.queue, pid);
    Pipes.KillKeeps(p, pid);
    SeenVanish(st, f, w, r, tasks, pid);
  }

  lemma SeenVanish(st: Store, f: int, w: Sem, r: Sem, tasks: map<int, Task>, pid: int)
    requires StoreOk(st) && Tended(f, w, r, tasks) && pid !in w.queue && pid !in r.queue
    requires Dequeued(w.queue, pid) == w.queue && Dequeued(r.queue, pid) == r.queue
    ensures var left := if pid in tasks && tasks[pid].f == f then Lost(st, tasks[pid]) else st;
            && Seen(left, f, w, r, tasks - {pid}) == Pipes.Apply(Seen(st, f, w, r, tasks), Pipes.Kill(pid))
            && Tended(f, w, r, tasks - {pid})
  {
    SeenDone(st, f, w, r, tasks, pid);
    var p := Seen(st, f, w, r, tasks);
    assert pid in p.writers <==> pid in tasks && Puts(tasks[pid], f);
    assert pid in p.readers <==> pid in tasks && Takes(tasks[pid], f);
  }
}
