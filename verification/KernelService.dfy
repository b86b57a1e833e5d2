/** Every semaphore of the kernel, along any run from boot, follows a history of waits, posts and removals in order. */
module KernelService {
  import opened Common
  import opened KernelModel
  import opened SchedulerTheorems
  import opened WaitQueue
  import opened Agreement
  import SemaphoreModel

  type History = SemaphoreModel.History

  /** What a call does to the open semaphore of that name, if anything. */
  function OpOf(k: Kernel, c: Call, name: string): Option<SemaphoreModel.Op> {
    match c
    case WaitOn(n) => if n == name then Some(SemaphoreModel.WaitOp(k.sched.current)) else None
    case PostTo(n) => if n == name then Some(SemaphoreModel.PostOp) else None
    case Sys(e) =>
      if e.KillCall? && Exists(k.sched, k.sched.current) && Killable(k.sched, e.pid) then Some(SemaphoreModel.DropOp(e.pid)) else None
    case Clean(pid) => if Killable(k.sched, pid) then Some(SemaphoreModel.DropOp(pid)) else None
    case _ => None
  }

  /** The history of the semaphore of that name after one more call; it begins anew when the name is opened. */
  function Follow(k: Kernel, h: Option<History>, c: Call, name: string): Option<History>
    requires Sized(k.sched)
  {
    if name !in Perform(k, c).sems then None
    else if name !in k.sems then (if c.Open? then Some(SemaphoreModel.Opened(c.initial)) else None)
    else
      match h
      case None => None
      case Some(g) => (match OpOf(k, c, name) case None => Some(g) case Some(op) => Some(SemaphoreModel.Apply(g, op)))
  }

  /** The history of the semaphore of that name over a run. */
  function Past(k: Kernel, h: Option<History>, cs: seq<Call>, name: string): Option<History>
    requires Sized(k.sched)
    decreases |cs|
  {
    if cs == [] then h else Past(Perform(k, cs[0]), Follow(k, h, cs[0], name), cs[1..], name)
  }

  /** The history ends in the semaphore the kernel has, and is in order. */
  ghost predicate Matches(k: Kernel, name: string, h: Option<History>) {
    && (name in k.sems <==> h.Some?)
    && (h.Some? ==>
          && SemaphoreModel.Ordered(h.value) && SemaphoreModel.Accounted(h.value)
          && SameState(h.value.sem, k.sems[name]))
  }

  predicate SameState(a: SemaphoreModel.Sem, b: SemaphoreModel.Sem) {
    a.value == b.value && a.queue == b.queue
  }

  /** One call does to the kernel's semaphore what its operation does to the history's. */
  lemma OpMatches(k: Kernel, c: Call, name: string, g: History)
    requires Sized(k.sched) && name in k.sems && name in Perform(k, c).sems && SameState(g.sem, k.sems[name])
    requires |g.queued| == |g.sem.queue|
    ensures match OpOf(k, c, name)
            case None => SameState(g.sem, Perform(k, c).sems[name])
            case Some(op) => SameState(SemaphoreModel.Apply(g, op).sem, Perform(k, c).sems[name])
  {
  }

  lemma FollowMatches(k: Kernel, h: Option<History>, c: Call, name: string)
    requires Agrees(k) && Legal(k, c) && Matches(k, name, h)
    ensures Matches(Perform(k, c), name, Follow(k, h, c, name))
  {
    if name in k.sems && name in Perform(k, c).sems {
      QueuesNeverFill(k, name);
      OpMatches(k, c, name, h.value);
      var op := OpOf(k, c, name);
      if op.Some? {
        SemaphoreModel.ApplyKeepsOrdered(h.value, op.value);
        SemaphoreModel.ApplyKeepsAccounted(h.value, op.value);
      }
    }
  }

  lemma {:induction false} PastMatches(k: Kernel, h: Option<History>, cs: seq<Call>, t: Kernel, name: string)
    requires Agrees(k) && Reaches(k, cs, t) && Matches(k, name, h)
    ensures Matches(t, name, Past(k, h, cs, name))
    decreases |cs|
  {
    if cs != [] {
      PerformKeepsAgrees(k, cs[0]);
      FollowMatches(k, h, cs[0], name);
      PastMatches(Perform(k, cs[0]), Follow(k, h, cs[0], name), cs[1..], t, name);
    }
  }

  /**
   For every semaphore in every run from boot, since it was opened: its queue is the waits not yet granted or
   removed, in arrival order; grants went in arrival order past removed waits only; its value is what the counts say.
   */
  lemma KernelServiceOrder(cs: seq<Call>, t: Kernel, name: string)
    requires Reaches(Kernel(TimerHandler(Booted()), map[]), cs, t) && name in t.sems
    ensures var past := Past(Kernel(TimerHandler(Booted()), map[]), None, cs, name);
            && past.Some?
            && var h := past.value;
               && |h.queued| == |t.sems[name].queue|
               && (forall i :: 0 <= i < |h.queued| ==> h.queued[i] < |h.arrivals| && h.arrivals[h.queued[i]] == t.sems[name].queue[i])
               && (forall i, j :: 0 <= i < j < |h.queued| ==> h.queued[i] < h.queued[j])
               && (forall i, j :: 0 <= i < j < |h.granted| ==> h.granted[i] < h.granted[j])
               && (forall a: nat, b: nat :: a < b && b in h.granted ==> a in h.granted || a in h.dropped)
               && t.sems[name].value == h.initial + h.posts - h.passes - |h.granted|
  {
    var boot := Kernel(TimerHandler(Booted()), map[]);
    BootInv();
    PastMatches(boot, None, cs, t, name);
    SemaphoreModel.GrantsInOrder(Past(boot, None, cs, name).value);
  }
}
