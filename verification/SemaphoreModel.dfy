/** Semaphores with direct hand-off (synchro.c) on values, alone and together with the scheduler. */
module SemaphoreModel {
  import opened KernelModel
  import opened WaitQueue

  datatype Sem = Sem(value: int, users: int, queue: seq<int>)

  /** What semWait does to its caller: it goes on, it is queued and blocked, or the queue is full. */
  datatype Outcome = Passed | Queued | Refused

  function Wait(sem: Sem, pid: int): (Sem, Outcome) {
    if sem.value > 0 then (sem.(value := sem.value - 1), Passed)
    else if |sem.queue| >= CAPACITY then (sem, Refused)
    else (sem.(queue := sem.queue + [pid]), Queued)
  }

  /** The process granted, or NO_PID when the value was raised instead. */
  function Post(sem: Sem): (Sem, int) {
    if sem.queue != [] then (sem.(queue := sem.queue[1..]), sem.queue[0])
    else (sem.(value := sem.value + 1), NO_PID)
  }

  function Drop(sem: Sem, pid: int): Sem {
    sem.(queue := Dequeued(sem.queue, pid))
  }

  /** semWait by the running process. */
  function SemWait(s: Sched, sem: Sem): (Sched, Sem)
    requires Sized(s)
  {
    var (t, o) := Wait(sem, s.current);
    (if o == Queued then SleepBlock(s, s.current, false) else s, t)
  }

  function SemPost(s: Sched, sem: Sem): (Sched, Sem)
    requires Sized(s)
  {
    var (t, pid) := Post(sem);
    (if pid != NO_PID then UnblockProcess(s, pid) else s, t)
  }

  // ----- queues without repetition -----

  predicate NoRepeats(q: seq<int>) {
    forall i, j :: 0 <= i < j < |q| ==> q[i] != q[j]
  }

  function Position(q: seq<int>, pid: int): (i: nat)
    ensures i <= |q| && pid !in q[..i] && (i < |q| ==> q[i] == pid)
  {
    if q == [] || q[0] == pid then 0
    else
      var i := Position(q[1..], pid);
      assert q[..i + 1] == [q[0]] + q[1..][..i];
      i + 1
  }

  function Without<T>(q: seq<T>, i: nat): (r: seq<T>)
    requires i < |q|
    ensures |r| == |q| - 1
    ensures forall j :: 0 <= j < |r| ==> r[j] == q[if j < i then j else j + 1]
  {
    q[..i] + q[i + 1..]
  }

  lemma WithoutMembers(q: seq<int>, i: nat)
    requires NoRepeats(q) && i < |q|
    ensures var r := Without(q, i);
            NoRepeats(r) && forall p :: p in r <==> p in q && p != q[i]
  {
    var r := Without(q, i);
    forall p | p in r ensures p in q && p != q[i] {
      var j :| 0 <= j < |r| && r[j] == p;
      assert p == q[if j < i then j else j + 1];
    }
    forall p | p in q && p != q[i] ensures p in r {
      var j :| 0 <= j < |q| && q[j] == p;
      assert r[if j < i then j else j - 1] == p;
    }
  }

  lemma SomeElement(q: seq<int>) returns (p: int)
    ensures q == [] || p in q
  {
    p := if q == [] then 0 else q[0];
  }

  /** Distinct numbers out of n consecutive ones. */
  lemma {:induction false} Pigeonhole(q: seq<int>, low: int, n: nat)
    requires NoRepeats(q) && forall p :: p in q ==> low <= p < low + n
    ensures |q| <= n
    decreases n
  {
    var p := SomeElement(q);
    if n > 0 {
      var top := low + n - 1;
      if top in q {
        var i :| 0 <= i < |q| && q[i] == top;
        WithoutMembers(q, i);
        Pigeonhole(Without(q, i), low, n - 1);
      } else {
        Pigeonhole(q, low, n - 1);
      }
    }
  }

  lemma DropEffect(sem: Sem, pid: int)
    requires NoRepeats(sem.queue) && |sem.queue| < CAPACITY
    ensures NoRepeats(Drop(sem, pid).queue)
    ensures forall p :: p in Drop(sem, pid).queue <==> p in sem.queue && p != pid
  {
    var q := sem.queue;
    var i := Position(q, pid);
    if i < |q| {
      RemoveFirstAt(q, i);
      assert Drop(sem, pid).queue == Without(q, i);
      WithoutMembers(q, i);
    } else {
      assert q[..i] == q;
      RemoveFirstAbsent(q, pid);
    }
  }

  // ----- service order -----

  /**
   A semaphore with its past: arrivals holds the pid of each queued wait, by ticket; every ticket is
   queued, granted or dropped.
   */
  datatype History = History(
    sem: Sem, initial: int, arrivals: seq<int>,
    queued: seq<nat>, granted: seq<nat>, dropped: set<nat>, posts: nat, passes: nat)

  datatype Op = WaitOp(pid: int) | PostOp | DropOp(pid: int)

  function Apply(h: History, op: Op): History {
    match op
    case WaitOp(pid) =>
      (var (sem, o) := Wait(h.sem, pid);
       match o
       case Passed => h.(sem := sem, passes := h.passes + 1)
       case Queued => h.(sem := sem, arrivals := h.arrivals + [pid], queued := h.queued + [|h.arrivals|])
       case Refused => h.(sem := sem))
    case PostOp =>
      var (sem, pid) := Post(h.sem);
      if h.sem.queue != [] && h.queued != []
      then h.(sem := sem, posts := h.posts + 1, granted := h.granted + [h.queued[0]], queued := h.queued[1..])
      else h.(sem := sem, posts := h.posts + 1)
    case DropOp(pid) =>
      var i := Position(h.sem.queue, pid);
      if i < |h.queued|
      then h.(sem := Drop(h.sem, pid), dropped := h.dropped + {h.queued[i]}, queued := Without(h.queued, i))
      else h.(sem := Drop(h.sem, pid))
  }

  predicate Increasing(s: seq<nat>) {
    forall i, j :: 0 <= i < j < |s| ==> s[i] < s[j]
  }

  /** The queue holds the queued tickets in order; what was granted came before all of them. */
  predicate Ordered(h: History) {
    && |h.queued| == |h.sem.queue|
    && (forall i :: 0 <= i < |h.queued| ==> h.queued[i] < |h.arrivals| && h.arrivals[h.queued[i]] == h.sem.queue[i])
    && Increasing(h.queued) && Increasing(h.granted)
    && (forall i :: 0 <= i < |h.granted| ==> h.granted[i] < |h.arrivals|)
    && (forall i, j :: 0 <= i < |h.granted| && 0 <= j < |h.queued| ==> h.granted[i] < h.queued[j])
  }

  predicate Accounted(h: History) {
    && (forall t: nat :: t < |h.arrivals| ==> t in h.queued || t in h.granted || t in h.dropped)
    && h.sem.value == h.initial + h.posts - h.passes - |h.granted|
    && (h.sem.value > 0 ==> h.sem.queue == [])
  }

  function Opened(initial: int): History {
    History(Sem(initial, 1, []), initial, [], [], [], {}, 0, 0)
  }

  /** A removal never meets a full queue, see Agreement. */
  predicate Allowed(h: History, op: Op) {
    op.DropOp? ==> |h.sem.queue| < CAPACITY
  }

  lemma DropShape(h: History, pid: int)
    requires Ordered(h) && |h.sem.queue| < CAPACITY
    ensures var i, q := Position(h.sem.queue, pid), h.sem.queue;
            Drop(h.sem, pid).queue == if i < |q| then Without(q, i) else q
  {
    var i, q := Position(h.sem.queue, pid), h.sem.queue;
    if i < |q| {
      RemoveFirstAt(q, i);
    } else {
      assert q[..i] == q;
      RemoveFirstAbsent(q, pid);
    }
  }

  lemma PostKeepsOrdered(h: History)
    requires Ordered(h)
    ensures Ordered(Apply(h, PostOp))
  {
    if h.queued != [] {
      var g := Apply(h, PostOp);
      assert forall i :: 0 <= i < |g.queued| ==> g.queued[i] == h.queued[i + 1];
    }
  }

  lemma WaitKeepsOrdered(h: History, pid: int)
    requires Ordered(h)
    ensures Ordered(Apply(h, WaitOp(pid)))
  {
    var g := Apply(h, WaitOp(pid));
    forall i | 0 <= i < |g.queued|
      ensures g.queued[i] < |g.arrivals| && g.arrivals[g.queued[i]] == g.sem.queue[i]
    {
      if i < |h.queued| { assert g.queued[i] == h.queued[i]; }
    }
  }

  lemma WithoutOrdered(h: History, i: nat, g: History)
    requires Ordered(h) && i < |h.queued|
    requires g.queued == Without(h.queued, i) && g.sem.queue == Without(h.sem.queue, i)
    requires g.granted == h.granted && g.arrivals == h.arrivals
    ensures Ordered(g)
  {
  }

  lemma DropKeepsOrdered(h: History, pid: int)
    requires Ordered(h) && |h.sem.queue| < CAPACITY
    ensures Ordered(Apply(h, DropOp(pid)))
  {
    DropShape(h, pid);
    var i := Position(h.sem.queue, pid);
    if i < |h.queued| {
      WithoutOrdered(h, i, Apply(h, DropOp(pid)));
    }
  }

  lemma ApplyKeepsOrdered(h: History, op: Op)
    requires Ordered(h) && Allowed(h, op)
    ensures Ordered(Apply(h, op))
  {
    match op
    case WaitOp(pid) => WaitKeepsOrdered(h, pid);
    case PostOp => PostKeepsOrdered(h);
    case DropOp(pid) => DropKeepsOrdered(h, pid);
  }

  lemma ApplyKeepsAccounted(h: History, op: Op)
    requires Ordered(h) && Accounted(h) && Allowed(h, op)
    ensures Accounted(Apply(h, op))
  {
    var g := Apply(h, op);
    if op.DropOp? { DropShape(h, op.pid); }
    forall t: nat | t < |g.arrivals| ensures t in g.queued || t in g.granted || t in g.dropped {
      if t == |h.arrivals| {
        assert g.queued[|g.queued| - 1] == t;
      } else {
        TicketKept(h, op, t);
      }
    }
  }

  lemma TicketKept(h: History, op: Op, t: nat)
    requires Ordered(h) && Accounted(h) && Allowed(h, op) && t < |h.arrivals|
    ensures var g := Apply(h, op); t in g.queued || t in g.granted || t in g.dropped
  {
    var g := Apply(h, op);
    if t in h.queued {
      var j :| 0 <= j < |h.queued| && h.queued[j] == t;
      match op
      case WaitOp(pid) => assert g.queued[j] == t;
      case PostOp =>
        if j > 0 { assert g.queued[j - 1] == t; } else { assert g.granted[|h.granted|] == t; }
      case DropOp(pid) =>
        var i := Position(h.sem.queue, pid);
        if j < i { assert g.queued[j] == t; } else if j > i { assert g.queued[j - 1] == t; }
    } else if t in h.granted {
      var j :| 0 <= j < |h.granted| && h.granted[j] == t;
      assert g.granted[j] == t;
    }
  }

  ghost predicate Reaches(h: History, ops: seq<Op>, g: History)
    decreases |ops|
  {
    if ops == [] then g == h
    else Allowed(h, ops[0]) && Reaches(Apply(h, ops[0]), ops[1..], g)
  }

  lemma {:induction false} ReachesOrdered(h: History, ops: seq<Op>, g: History)
    requires Ordered(h) && Accounted(h) && Reaches(h, ops, g)
    ensures Ordered(g) && Accounted(g) && g.initial == h.initial
    decreases |ops|
  {
    if ops != [] {
      ApplyKeepsOrdered(h, ops[0]);
      ApplyKeepsAccounted(h, ops[0]);
      ReachesOrdered(Apply(h, ops[0]), ops[1..], g);
    }
  }

  /**
   Over every run of waits, posts and removals: grants go in arrival order and skip only waits that were
   removed, nobody passes while others are queued, and the value is what the counts say.
   */
  lemma ServiceOrder(initial: int, ops: seq<Op>, h: History)
    requires Reaches(Opened(initial), ops, h)
    ensures forall i, j :: 0 <= i < j < |h.granted| ==> h.granted[i] < h.granted[j]
    ensures forall a: nat, b: nat :: a < b && b in h.granted ==> a in h.granted || a in h.dropped
    ensures h.sem.value == initial + h.posts - h.passes - |h.granted|
    ensures forall pid :: h.sem.queue != [] ==> Wait(h.sem, pid).1 != Passed
  {
    ReachesOrdered(Opened(initial), ops, h);
    GrantsInOrder(h);
  }

  lemma GrantsInOrder(h: History)
    requires Ordered(h) && Accounted(h)
    ensures forall a: nat, b: nat :: a < b && b in h.granted ==> a in h.granted || a in h.dropped
  {
    forall a: nat, b: nat | a < b && b in h.granted ensures a in h.granted || a in h.dropped {
      var i :| 0 <= i < |h.granted| && h.granted[i] == b;
      assert forall j :: 0 <= j < |h.queued| ==> h.granted[i] < h.queued[j];
    }
  }
}
