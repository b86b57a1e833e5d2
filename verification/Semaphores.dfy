/**
 semWait and semPost of synchro.c on a semaphore object with its circular queue, and on
 the scheduler's tables, proved against SemaphoreModel.
 */
module Semaphores {
  import opened KernelModel
  import opened WaitQueue
  import opened SemaphoreModel
  import opened Scheduler

  class Semaphore {
    var value: int
    var users: int
    const name: string
    const queue: Ring

    ghost predicate Valid()
      reads this, queue
    {
      queue.Valid()
    }

    ghost function Value(): Sem
      reads this, queue, queue.v
      requires Valid()
    {
      Sem(value, users, queue.Contents())
    }

    constructor (initial: int, semName: string)
      ensures Valid() && Value() == Sem(initial, 1, []) && name == semName && fresh(queue) && fresh(queue.v)
    {
      value, users, name := initial, 1, semName;
      queue := new Ring();
    }

    /** Returns false when the queue is full. */
    method SemWait(tables: Tables) returns (ok: bool)
      requires Valid() && tables.Valid()
      modifies this`value, queue, queue.v, tables, tables.procs, tables.sleepers
      ensures Valid() && tables.Valid()
      ensures (tables.State(), Value()) == SemaphoreModel.SemWait(old(tables.State()), old(Value()))
      ensures ok == (old(value) > 0 || |old(queue.Contents())| < CAPACITY)
    {
      if value > 0 {
        value := value - 1;
        return true;
      }
      var pid := tables.current;
      var added := queue.Add(pid);
      if !added { return false; }
      tables.SleepBlock(pid, false);
      ok := true;
    }

    method SemPost(tables: Tables)
      requires Valid() && tables.Valid()
      modifies this`value, queue, queue.v, tables.procs, tables.sleepers
      ensures Valid() && tables.Valid()
      ensures (tables.State(), Value()) == SemaphoreModel.SemPost(old(tables.State()), old(Value()))
    {
      if queue.size > 0 {
        var pid := queue.Pop();
        tables.UnblockProcess(pid);
      } else {
        value := value + 1;
      }
    }

    method RemoveProcess(pid: int)
      requires Valid()
      modifies queue, queue.v
      ensures Valid() && Value() == Drop(old(Value()), pid)
    {
      var found := queue.RemoveProcess(pid);
    }
  }
}
