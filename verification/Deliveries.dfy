/**
 Whose bytes a pipe holds. A ledger is kept of the acts alone: who issues which byte, and when a byte goes through.
 The pipes hold exactly the bytes that went through, and those of each process are the first it issued.
 */
module Deliveries {
  import opened Common
  import opened KernelModel
  import opened SchedulerTheorems
  import opened Kinship
  import opened Agreement
  import opened PipeKernel
  import opened PipeTheorems
  import Effects
  import KernelEffects
  import PipeViews
  import SemaphoreModel
  import Pipes

  // ----- the ledger -----

  /** Process pid in its life-th life issues b to pipe f; victim is whom it kills thereby, or NO_PID. */
  datatype Issue = Issue(pid: int, life: nat, f: int, b: Byte, victim: int)

  /** lives counts how often each slot was filled again. */
  datatype Ledger = Ledger(issued: seq<Issue>, moved: seq<Issue>, lives: seq<nat>)

  function Blank(): Ledger {
    Ledger([], [], seq(MAX_PROCESSES, _ => 0))
  }

  function Life(l: Ledger, p: int): nat {
    if 0 <= p < |l.lives| then l.lives[p] else 0
  }

  /** What process p issued or moved in one of its lives. */
  function Of(log: seq<Issue>, p: int, life: nat): seq<Issue> {
    if log == [] then []
    else
      var x := log[|log| - 1];
      Of(log[..|log| - 1], p, life) + if x.pid == p && x.life == life then [x] else []
  }

  /** The bytes for one pipe. */
  function To(log: seq<Issue>, f: int): seq<Byte> {
    if log == [] then []
    else
      var x := log[|log| - 1];
      To(log[..|log| - 1], f) + if x.f == f then [x.b] else []
  }

  /** p has issued a byte that has not gone through. */
  predicate Owes(l: Ledger, p: int) {
    |Of(l.issued, p, Life(l, p))| > |Of(l.moved, p, Life(l, p))|
  }

  function Debt(l: Ledger, p: int): Issue
    requires Owes(l, p)
  {
    var log := Of(l.issued, p, Life(l, p));
    log[|log| - 1]
  }

  function Issues(l: Ledger, x: Issue, now: bool): Ledger {
    l.(issued := l.issued + [x], moved := if now then l.moved + [x] else l.moved)
  }

  function Pays(l: Ledger, p: int): Ledger {
    if Owes(l, p) then l.(moved := l.moved + [Debt(l, p)]) else l
  }

  predicate Room(s: System, f: int) {
    f in s.pipes && s.pipes[f].wSem in s.k.sems && s.k.sems[s.pipes[f].wSem].value > 0
  }

  /** The entries for one act: a byte goes through at once when there is room, and otherwise when its process runs again. */
  function Entered(l: Ledger, s: System, a: Act): Ledger {
    var c := s.k.sched.current;
    match a
    case WriteByte(f, b) =>
      if f in s.pipes then Issues(l, Issue(c, Life(l, c), f, b, NO_PID), Room(s, f)) else l
    case Kill(pid) =>
      if Effects.Mortal(s.k.sched, pid) && HasPipe(s, pid)
      then Issues(l, Issue(c, Life(l, c), s.outputs[pid], EOF, pid), Room(s, s.outputs[pid])) else l
    case Resume => Pays(l, c)
    case _ => l
  }

  /** Whoever appears in an empty slot begins a new life. */
  function Aged(l: Ledger, s: Sched, t: Sched): Ledger
    requires Sized(s) && Sized(t) && |l.lives| == MAX_PROCESSES
  {
    l.(lives := seq(MAX_PROCESSES, p requires 0 <= p < MAX_PROCESSES =>
                      if s.procs[p].None? && t.procs[p].Some? then l.lives[p] + 1 else l.lives[p]))
  }

  ghost function LedgerOf(l: Ledger, s: System, acts: seq<Act>): Ledger
    requires |l.lives| == MAX_PROCESSES
    decreases |acts|
  {
    if acts == [] || !Allowed(s, acts[0]) then l
    else
      var t := Do(s, acts[0]);
      LedgerOf(Aged(Entered(l, s, acts[0]), s.k.sched, t.k.sched), t, acts[1..])
  }

  // ----- the ledger and the system -----

  /** The task left behind is about that issue. */
  predicate About(t: Task, x: Issue) {
    match t
    case Putting(f, b) => x.f == f && x.b == b && x.victim == NO_PID
    case Taking(_) => false
    case Killing(f, victim) => x.f == f && x.b == EOF && x.victim == victim
  }

  predicate FirstOnes(issued: seq<Issue>, moved: seq<Issue>) {
    moved <= issued && |issued| <= |moved| + 1
  }

  /** What a process owes it is still at, unless it was cut off or is gone. */
  predicate Standing(s: Sched, tasks: map<int, Task>, cut: set<int>, l: Ledger, p: int) {
    && (Owes(l, p) && Exists(s, p) && p !in cut ==> p in tasks && About(tasks[p], Debt(l, p)))
    && (p in tasks ==> Exists(s, p) && p !in cut && (tasks[p].Taking? || Owes(l, p)))
  }

  ghost predicate AllStanding(s: Sched, tasks: map<int, Task>, cut: set<int>, l: Ledger) {
    forall p :: Standing(s, tasks, cut, l, p)
  }

  /** Each process moves its issues in order, and nobody has issued anything in a life to come. */
  ghost predicate InOrder(l: Ledger) {
    && |l.lives| == MAX_PROCESSES
    && (forall p, life :: FirstOnes(Of(l.issued, p, life), Of(l.moved, p, life)))
    && (forall p, life :: life > Life(l, p) ==> Of(l.issued, p, life) == [])
  }

  ghost predicate PutsMatch(pipes: map<int, Store>, moved: seq<Issue>) {
    forall f :: To(moved, f) == if f in pipes then pipes[f].put else []
  }

  ghost predicate Booked(s: System, l: Ledger) {
    InOrder(l) && PutsMatch(s.pipes, l.moved) && AllStanding(s.k.sched, s.tasks, s.cut, l)
  }

  // ----- entries -----

  lemma OfMore(log: seq<Issue>, x: Issue, p: int, life: nat)
    ensures Of(log + [x], p, life) == Of(log, p, life) + if x.pid == p && x.life == life then [x] else []
  {
    assert (log + [x])[..|log|] == log;
  }

  lemma ToMore(log: seq<Issue>, x: Issue, f: int)
    ensures To(log + [x], f) == To(log, f) + if x.f == f then [x.b] else []
  {
    assert (log + [x])[..|log|] == log;
  }

  lemma IssuesOf(l: Ledger, x: Issue, now: bool, p: int, life: nat)
    requires InOrder(l) && !Owes(l, x.pid) && x.life == Life(l, x.pid)
    ensures var m := Issues(l, x, now); var s, g := Of(m.issued, p, life), Of(m.moved, p, life);
            && FirstOnes(s, g)
            && (p == x.pid && life == x.life ==> s == Of(l.issued, p, life) + [x] && |g| == if now then |s| else |s| - 1)
            && (p != x.pid || life != x.life ==> s == Of(l.issued, p, life) && g == Of(l.moved, p, life))
  {
    OfMore(l.issued, x, p, life);
    OfMore(l.moved, x, p, life);
    assert FirstOnes(Of(l.issued, p, life), Of(l.moved, p, life));
  }

  lemma IssuesOrder(l: Ledger, x: Issue, now: bool)
    requires InOrder(l) && !Owes(l, x.pid) && x.life == Life(l, x.pid)
    ensures InOrder(Issues(l, x, now))
  {
    var m := Issues(l, x, now);
    forall p, life ensures FirstOnes(Of(m.issued, p, life), Of(m.moved, p, life)) { IssuesOf(l, x, now, p, life); }
    forall p, life | life > Life(m, p) ensures Of(m.issued, p, life) == [] { IssuesOf(l, x, now, p, life); }
  }

  lemma IssuesOwed(l: Ledger, x: Issue, now: bool, p: int)
    requires InOrder(l) && !Owes(l, x.pid) && x.life == Life(l, x.pid)
    ensures var m := Issues(l, x, now);
            && (Owes(m, p) <==> if p == x.pid then !now else Owes(l, p))
            && (Owes(m, p) ==> Debt(m, p) == if p == x.pid then x else Debt(l, p))
  {
    IssuesOf(l, x, now, p, Life(l, p));
  }

  /** What is owed comes next. */
  lemma DebtIsNext(l: Ledger, p: int)
    requires InOrder(l) && Owes(l, p)
    ensures var d := Debt(l, p);
            && d.pid == p && d.life == Life(l, p)
            && Of(l.issued, p, Life(l, p)) == Of(l.moved, p, Life(l, p)) + [d]
  {
    var s, g := Of(l.issued, p, Life(l, p)), Of(l.moved, p, Life(l, p));
    assert FirstOnes(s, g);
    assert s == s[..|g|] + [s[|g|]];
    OfMembers(l.issued, p, Life(l, p));
    assert s[|s| - 1] in s;
  }

  lemma {:induction false} OfMembers(log: seq<Issue>, p: int, life: nat)
    ensures forall x :: x in Of(log, p, life) ==> x.pid == p && x.life == life
  {
    if log != [] { OfMembers(log[..|log| - 1], p, life); }
  }

  lemma PaysOf(l: Ledger, c: int, p: int, life: nat)
    requires InOrder(l) && Owes(l, c)
    ensures var s, g := Of(l.issued, p, life), Of(Pays(l, c).moved, p, life);
            && FirstOnes(s, g)
            && (p == c && life == Life(l, c) ==> g == s)
            && (p != c || life != Life(l, c) ==> g == Of(l.moved, p, life))
  {
    DebtIsNext(l, c);
    OfMore(l.moved, Debt(l, c), p, life);
    assert FirstOnes(Of(l.issued, p, life), Of(l.moved, p, life));
  }

  lemma PaysOrder(l: Ledger, c: int)
    requires InOrder(l)
    ensures InOrder(Pays(l, c))
  {
    if Owes(l, c) {
      var m := Pays(l, c);
      forall p, life ensures FirstOnes(Of(m.issued, p, life), Of(m.moved, p, life)) { PaysOf(l, c, p, life); }
    }
  }

  lemma PaysOwed(l: Ledger, c: int, p: int)
    requires InOrder(l)
    ensures Owes(Pays(l, c), p) <==> p != c && Owes(l, p)
    ensures p != c && Owes(l, p) ==> Debt(Pays(l, c), p) == Debt(l, p)
  {
    if Owes(l, c) { PaysOf(l, c, p, Life(l, p)); }
  }

  // ----- whose task it is -----

  /** The table has the same processes, apart from gone, with the same flags. */
  ghost predicate SamePeople(s: Sched, t: Sched, gone: int) {
    && (forall p :: Exists(t, p) <==> Exists(s, p) && p != gone)
    && (forall p :: Exists(t, p) && Exists(s, p) ==> t.procs[p].value.unkillable == s.procs[p].value.unkillable)
  }

  lemma PeopleStand(s: Sched, t: Sched, tasks: map<int, Task>, cut: set<int>, l: Ledger)
    requires AllStanding(s, tasks, cut, l) && SamePeople(s, t, NO_PID)
    ensures AllStanding(t, tasks, cut, l)
  {
    forall p ensures Standing(t, tasks, cut, l, p) {
      assert Standing(s, tasks, cut, l, p);
      assert Exists(t, p) <==> Exists(s, p);
    }
  }

  lemma GoneStand(s: Sched, t: Sched, tasks: map<int, Task>, cut: set<int>, l: Ledger, pid: int)
    requires AllStanding(s, tasks, cut, l) && SamePeople(s, t, pid)
    ensures AllStanding(t, tasks - {pid}, cut - {pid}, l)
  {
    forall p ensures Standing(t, tasks - {pid}, cut - {pid}, l, p) {
      assert Standing(s, tasks, cut, l, p);
      assert Exists(t, p) <==> Exists(s, p) && p != pid;
    }
  }

  lemma CutStand(s: Sched, t: Sched, tasks: map<int, Task>, cut: set<int>, l: Ledger, pid: int)
    requires AllStanding(s, tasks, cut, l) && SamePeople(s, t, NO_PID)
    ensures AllStanding(t, tasks - {pid}, cut + {pid}, l)
  {
    forall p ensures Standing(t, tasks - {pid}, cut + {pid}, l, p) {
      assert Standing(s, tasks, cut, l, p);
      assert Exists(t, p) <==> Exists(s, p);
    }
  }

  /** The running process issues a byte; it leaves its task unless the byte went through. */
  lemma IssueStand(s: Sched, tasks: map<int, Task>, cut: set<int>, l: Ledger, c: int, x: Issue, t: Task, now: bool)
    requires AllStanding(s, tasks, cut, l) && InOrder(l) && Exists(s, c) && c !in tasks && c !in cut
    requires x.pid == c && x.life == Life(l, c) && About(t, x)
    ensures !Owes(l, c) && InOrder(Issues(l, x, now))
    ensures AllStanding(s, if now then tasks else tasks[c := t], cut, Issues(l, x, now))
  {
    assert Standing(s, tasks, cut, l, c);
    IssuesOrder(l, x, now);
    var left, m := if now then tasks else tasks[c := t], Issues(l, x, now);
    forall p ensures Standing(s, left, cut, m, p) {
      assert Standing(s, tasks, cut, l, p);
      IssuesOwed(l, x, now, p);
    }
  }

  lemma PayStand(s: Sched, tasks: map<int, Task>, cut: set<int>, l: Ledger, c: int)
    requires AllStanding(s, tasks, cut, l) && InOrder(l)
    ensures InOrder(Pays(l, c)) && AllStanding(s, tasks - {c}, cut, Pays(l, c))
  {
    PaysOrder(l, c);
    forall p ensures Standing(s, tasks - {c}, cut, Pays(l, c), p) {
      assert Standing(s, tasks, cut, l, p);
      PaysOwed(l, c, p);
    }
  }

  lemma TakingStand(s: Sched, tasks: map<int, Task>, cut: set<int>, l: Ledger, c: int, f: int)
    requires AllStanding(s, tasks, cut, l) && Exists(s, c) && c !in tasks && c !in cut
    ensures AllStanding(s, tasks[c := Taking(f)], cut, l)
  {
    var left := tasks[c := Taking(f)];
    forall p ensures Standing(s, left, cut, l, p) {
      assert Standing(s, tasks, cut, l, p);
    }
  }

  // ----- parts of an act -----

  /** Who leaves the table in a call. */
  function Leaver(s: Sched, c: Call): int {
    match c
    case Sys(e) => if e.ExitCall? then s.current else if e.ReapCall? then e.pid else NO_PID
    case Remove(pid) => pid
    case _ => NO_PID
  }

  lemma CallPeople(k: Kernel, c: Call)
    requires Agrees(k) && Legal(k, c) && !(c.Sys? && (c.event.CreateCall? || c.event.KillCall?))
    ensures SamePeople(k.sched, Perform(k, c).sched, Leaver(k.sched, c))
  {
    var t := Perform(k, c).sched;
    forall p ensures Exists(t, p) <==> Exists(k.sched, p) && p != Leaver(k.sched, c) {
      if 0 <= p < MAX_PROCESSES { KernelEffects.WhoIsThere(k, c, p); }
    }
    forall p | Exists(t, p) && Exists(k.sched, p) ensures t.procs[p].value.unkillable == k.sched.procs[p].value.unkillable {
      KernelEffects.WhoIsThere(k, c, p);
    }
  }

  lemma PutMore(pipes: map<int, Store>, moved: seq<Issue>, f: int, st: Store, x: Issue)
    requires PutsMatch(pipes, moved) && f in pipes && x.f == f && st.put == pipes[f].put + [x.b]
    ensures PutsMatch(pipes[f := st], moved + [x])
  {
    forall g ensures To(moved + [x], g) == if g in pipes[f := st] then pipes[f := st][g].put else [] {
      ToMore(moved, x, g);
    }
  }

  lemma PutsSame(pipes: map<int, Store>, moved: seq<Issue>, f: int, st: Store)
    requires PutsMatch(pipes, moved) && (if f in pipes then st.put == pipes[f].put else st.put == [])
    ensures PutsMatch(pipes[f := st], moved)
  {
    forall g ensures To(moved, g) == if g in pipes[f := st] then pipes[f := st][g].put else [] { }
  }

  /** A pass and the put, with what the kernel does about it. */
  lemma PassPeople(s: System, f: int)
    requires SysInv(s) && Shaped(s) && Free(s) && f in s.pipes && s.k.sems[s.pipes[f].wSem].value > 0
    ensures var k1 := Perform(s.k, WaitOn(s.pipes[f].wSem));
            SamePeople(s.k.sched, Perform(k1, PostTo(s.pipes[f].rSem)).sched, NO_PID)
  {
    var w, r := s.pipes[f].wSem, s.pipes[f].rSem;
    WaitSems(s.k, w);
    CallPeople(s.k, WaitOn(w));
    PerformKeepsAgrees(s.k, WaitOn(w));
    var k1 := Perform(s.k, WaitOn(w));
    CallPeople(k1, PostTo(r));
    BothPeople(s.k.sched, k1.sched, Perform(k1, PostTo(r)).sched, NO_PID);
  }

  lemma BothPeople(s: Sched, t: Sched, u: Sched, gone: int)
    requires SamePeople(s, t, NO_PID) && SamePeople(t, u, gone)
    ensures SamePeople(s, u, gone)
  {
    forall p ensures Exists(u, p) <==> Exists(s, p) && p != gone {
      assert Exists(t, p) <==> Exists(s, p);
    }
    forall p | Exists(u, p) && Exists(s, p) ensures u.procs[p].value.unkillable == s.procs[p].value.unkillable {
      assert Exists(t, p);
    }
  }

  lemma RunningAround(s: System)
    requires SysInv(s)
    ensures Exists(s.k.sched, s.k.sched.current) && s.k.sched.current !in s.cut
  {
    RunningFree(s);
  }

  /** The issue of a running process is entered as its put goes. */
  lemma BookPut(s: System, l: Ledger, f: int, b: Byte, t: Task, x: Issue)
    requires SysInv(s) && Shaped(s) && Free(s) && f in s.pipes && !InitQueues(s.k, s.pipes[f].wSem) && Booked(s, l)
    requires About(t, x) && x.pid == s.k.sched.current && x.life == Life(l, x.pid) && x.f == f && x.b == b
    ensures Booked(StartPut(s, f, b, t), Issues(l, x, Room(s, f)))
    ensures SamePeople(s.k.sched, StartPut(s, f, b, t).k.sched, NO_PID)
  {
    RunningAround(s);
    WaitSems(s.k, s.pipes[f].wSem);
    if Room(s, f) { BookPass(s, l, f, b, t, x); } else { BookBlock(s, l, f, b, t, x); }
  }

  lemma BookPass(s: System, l: Ledger, f: int, b: Byte, t: Task, x: Issue)
    requires SysInv(s) && Shaped(s) && Free(s) && f in s.pipes && Room(s, f) && Booked(s, l)
    requires Exists(s.k.sched, s.k.sched.current) && s.k.sched.current !in s.cut
    requires About(t, x) && x.pid == s.k.sched.current && x.life == Life(l, x.pid) && x.f == f && x.b == b
    ensures Booked(StartPut(s, f, b, t), Issues(l, x, true))
    ensures SamePeople(s.k.sched, StartPut(s, f, b, t).k.sched, NO_PID)
  {
    var u := StartPut(s, f, b, t);
    PassPeople(s, f);
    IssueStand(s.k.sched, s.tasks, s.cut, l, s.k.sched.current, x, t, true);
    PeopleStand(s.k.sched, u.k.sched, s.tasks, s.cut, Issues(l, x, true));
    PutMore(s.pipes, l.moved, f, StorePut(s.pipes[f], b), x);
  }

  lemma BookBlock(s: System, l: Ledger, f: int, b: Byte, t: Task, x: Issue)
    requires SysInv(s) && Shaped(s) && Free(s) && f in s.pipes && !Room(s, f) && !InitQueues(s.k, s.pipes[f].wSem) && Booked(s, l)
    requires Exists(s.k.sched, s.k.sched.current) && s.k.sched.current !in s.cut && Queues(s.k, s.pipes[f].wSem)
    requires About(t, x) && x.pid == s.k.sched.current && x.life == Life(l, x.pid) && x.f == f && x.b == b
    ensures Booked(StartPut(s, f, b, t), Issues(l, x, false))
    ensures SamePeople(s.k.sched, StartPut(s, f, b, t).k.sched, NO_PID)
  {
    var u := StartPut(s, f, b, t);
    CallPeople(s.k, WaitOn(s.pipes[f].wSem));
    IssueStand(s.k.sched, s.tasks, s.cut, l, s.k.sched.current, x, t, false);
    PeopleStand(s.k.sched, u.k.sched, u.tasks, s.cut, Issues(l, x, false));
  }

  /** Takes change nothing in the ledger. */
  lemma BookTake(s: System, l: Ledger, f: int)
    requires SysInv(s) && Shaped(s) && Free(s) && f in s.pipes && !InitQueues(s.k, s.pipes[f].rSem) && Booked(s, l)
    ensures Booked(StartTake(s, f), l) && SamePeople(s.k.sched, StartTake(s, f).k.sched, NO_PID)
  {
    var u, r := StartTake(s, f), s.pipes[f].rSem;
    RunningAround(s);
    WaitSems(s.k, r);
    CallPeople(s.k, WaitOn(r));
    var k1 := Perform(s.k, WaitOn(r));
    if s.k.sems[r].value > 0 {
      PerformKeepsAgrees(s.k, WaitOn(r));
      CallPeople(k1, PostTo(s.pipes[f].wSem));
      BothPeople(s.k.sched, k1.sched, u.k.sched, NO_PID);
      PeopleStand(s.k.sched, u.k.sched, s.tasks, s.cut, l);
      PutsSame(s.pipes, l.moved, f, StoreTake(s.pipes[f]));
    } else {
      TakingStand(s.k.sched, s.tasks, s.cut, l, s.k.sched.current, f);
      PeopleStand(s.k.sched, u.k.sched, u.tasks, s.cut, l);
    }
  }

  /** A process that runs again after its wait pays what it owes. */
  lemma BookPaid(s: System, l: Ledger, f: int, b: Byte)
    requires SysInv(s) && Shaped(s) && Booked(s, l) && s.k.sched.current in s.tasks && Puts(s.tasks[s.k.sched.current], f) && f in s.pipes
    requires match s.tasks[s.k.sched.current] case Putting(_, c) => b == c case _ => b == EOF
    ensures var u := PutAndPost(s.(tasks := s.tasks - {s.k.sched.current}), f, b);
            Booked(u, Pays(l, s.k.sched.current)) && SamePeople(s.k.sched, u.k.sched, NO_PID)
  {
    var c := s.k.sched.current;
    var u := PutAndPost(s.(tasks := s.tasks - {c}), f, b);
    assert Standing(s.k.sched, s.tasks, s.cut, l, c);
    PayStand(s.k.sched, s.tasks, s.cut, l, c);
    CallPeople(s.k, PostTo(s.pipes[f].rSem));
    PeopleStand(s.k.sched, u.k.sched, s.tasks - {c}, s.cut, Pays(l, c));
    PutMore(s.pipes, l.moved, f, StorePut(s.pipes[f], b), Debt(l, c));
  }

  lemma BookTaken(s: System, l: Ledger, f: int)
    requires SysInv(s) && Shaped(s) && Booked(s, l) && s.k.sched.current in s.tasks && s.tasks[s.k.sched.current] == Taking(f) && f in s.pipes
    ensures var u := TakeAndPost(s.(tasks := s.tasks - {s.k.sched.current}), f);
            Booked(u, Pays(l, s.k.sched.current)) && SamePeople(s.k.sched, u.k.sched, NO_PID)
  {
    var c := s.k.sched.current;
    var u := TakeAndPost(s.(tasks := s.tasks - {c}), f);
    assert Standing(s.k.sched, s.tasks, s.cut, l, c);
    PayStand(s.k.sched, s.tasks, s.cut, l, c);
    CallPeople(s.k, PostTo(s.pipes[f].wSem));
    PeopleStand(s.k.sched, u.k.sched, s.tasks - {c}, s.cut, l);
    PutsSame(s.pipes, l.moved, f, StoreTake(s.pipes[f]));
  }

  lemma BookVanished(s: System, l: Ledger, t: System, pid: int)
    requires Shaped(s) && Booked(s, l) && SamePeople(s.k.sched, t.k.sched, pid)
    requires t.pipes == Vanish(s, pid).pipes && t.tasks == s.tasks - {pid} && t.cut == s.cut - {pid}
    ensures Booked(t, l)
  {
    GoneStand(s.k.sched, t.k.sched, s.tasks, s.cut, l, pid);
    if pid in s.tasks && s.tasks[pid].f in s.pipes && !Waits(s, pid) {
      PutsSame(s.pipes, l.moved, s.tasks[pid].f, Lost(s.pipes[s.tasks[pid].f], s.tasks[pid]));
    }
  }

  lemma BookGone(s: System, l: Ledger, pid: int)
    requires SysInv(s) && Shaped(s) && Booked(s, l) && !QueuedAnywhere(s.k, pid) && pid != INIT_PID
    ensures Booked(Gone(s, pid), l) && SamePeople(s.k.sched, Gone(s, pid).k.sched, pid)
  {
    CallPeople(s.k, Remove(pid));
    BookVanished(s, l, Gone(s, pid), pid);
  }

  lemma BookCleaned(s: System, l: Ledger, pid: int)
    requires SysInv(s) && Shaped(s) && Booked(s, l)
    ensures Booked(Cleaned(s, pid), l) && SamePeople(s.k.sched, Cleaned(s, pid).k.sched, NO_PID)
  {
    var t := Cleaned(s, pid);
    CallPeople(s.k, Clean(pid));
    if Waits(s, pid) {
      CutStand(s.k.sched, t.k.sched, s.tasks, s.cut, l, pid);
    } else {
      PeopleStand(s.k.sched, t.k.sched, s.tasks, s.cut, l);
    }
  }

  // ----- acts -----

  /** Who leaves the table in an act: a victim as soon as its killer need not wait any more. */
  function Goner(s: System, a: Act): int {
    match a
    case User(c) => Leaver(s.k.sched, c)
    case Kill(pid) => if Effects.Mortal(s.k.sched, pid) && (!HasPipe(s, pid) || Room(s, s.outputs[pid])) then pid else NO_PID
    case Resume =>
      var c := s.k.sched.current;
      if c in s.tasks && s.tasks[c].Killing? then s.tasks[c].victim else NO_PID
    case _ => NO_PID
  }

  lemma BookKill(s: System, l: Ledger, pid: int)
    requires SysInv(s) && Allowed(s, Kill(pid)) && Booked(s, l)
    ensures Booked(KillStep(s, pid), Entered(l, s, Kill(pid))) && SamePeople(s.k.sched, KillStep(s, pid).k.sched, Goner(s, Kill(pid)))
  {
    if Killable(s.k.sched, pid) {
      CleanedKeeps(s, pid);
      CleanedFree(s, pid);
      BookCleaned(s, l, pid);
      KillUnfolds(s, pid);
      var c := Cleaned(s, pid);
      if HasPipe(s, pid) {
        BookKillAtPipe(s, l, pid, c, s.outputs[pid]);
      } else {
        BookGone(c, l, pid);
        BothPeople(s.k.sched, c.k.sched, Gone(c, pid).k.sched, pid);
      }
    }
  }

  lemma BookKillAtPipe(s: System, l: Ledger, pid: int, c: System, f: int)
    requires SysInv(s) && Allowed(s, Kill(pid)) && Killable(s.k.sched, pid) && HasPipe(s, pid) && f == s.outputs[pid] && c == Cleaned(s, pid)
    requires SysInv(c) && Free(c) && !QueuedAnywhere(c.k, pid) && pid != INIT_PID && c.k.sched.current == s.k.sched.current
    requires c.pipes == s.pipes && Booked(c, l) && SamePeople(s.k.sched, c.k.sched, NO_PID)
    ensures Shaped(c)
    ensures var t := AfterEof(c, pid, f); Booked(t, Entered(l, s, Kill(pid))) && SamePeople(s.k.sched, t.k.sched, Goner(s, Kill(pid)))
  {
    SysShaped(c);
    CleanedSem(s, pid, s.pipes[f].wSem);
    var x := Issue(s.k.sched.current, Life(l, s.k.sched.current), f, EOF, pid);
    EnteredKill(s, l, pid, c, f, x);
    BookEof(c, l, pid, f, x);
    BothPeople(s.k.sched, c.k.sched, AfterEof(c, pid, f).k.sched, Goner(s, Kill(pid)));
  }

  /** What a kill does once it has cleaned up after a process whose output is pipe f. */
  function AfterEof(c: System, pid: int, f: int): (t: System)
    requires Shaped(c) && f in c.pipes
    ensures Shaped(t)
  {
    var u := StartPut(c, f, EOF, Killing(f, pid));
    if Queues(c.k, c.pipes[f].wSem) && c.k.sched.current != INIT_PID then u else Gone(u, pid)
  }

  lemma EnteredKill(s: System, l: Ledger, pid: int, c: System, f: int, x: Issue)
    requires Killable(s.k.sched, pid) && HasPipe(s, pid) && f == s.outputs[pid] && c.pipes == s.pipes
    requires x == Issue(s.k.sched.current, Life(l, s.k.sched.current), f, EOF, pid)
    requires var w := s.pipes[f].wSem;
             (w in c.k.sems <==> w in s.k.sems) && (w in s.k.sems ==> c.k.sems[w].value == s.k.sems[w].value)
    ensures Entered(l, s, Kill(pid)) == Issues(l, x, Room(c, f)) && Goner(s, Kill(pid)) == if Room(c, f) then pid else NO_PID
  {
  }

  lemma BookEof(c: System, l: Ledger, pid: int, f: int, x: Issue)
    requires SysInv(c) && Shaped(c) && Free(c) && !QueuedAnywhere(c.k, pid) && pid != INIT_PID && Booked(c, l)
    requires f in c.pipes && !InitQueues(c.k, c.pipes[f].wSem) && x == Issue(c.k.sched.current, Life(l, c.k.sched.current), f, EOF, pid)
    ensures Booked(AfterEof(c, pid, f), Issues(l, x, Room(c, f)))
    ensures SamePeople(c.k.sched, AfterEof(c, pid, f).k.sched, if Room(c, f) then pid else NO_PID)
  {
    BookPut(c, l, f, EOF, Killing(f, pid), x);
    WaitSems(c.k, c.pipes[f].wSem);
    if Room(c, f) {
      BookEofPassed(c, Issues(l, x, true), pid, f, StartPut(c, f, EOF, Killing(f, pid)));
    }
  }

  lemma BookEofPassed(c: System, m: Ledger, pid: int, f: int, u: System)
    requires SysInv(c) && Shaped(c) && Free(c) && !QueuedAnywhere(c.k, pid) && pid != INIT_PID
    requires Room(c, f) && u == StartPut(c, f, EOF, Killing(f, pid))
    requires Shaped(u) && Booked(u, m) && SamePeople(c.k.sched, u.k.sched, NO_PID)
    ensures Booked(Gone(u, pid), m) && SamePeople(c.k.sched, Gone(u, pid).k.sched, pid)
  {
    StartPutKeeps(c, f, EOF, Killing(f, pid));
    PutLeavesOut(c, f, EOF, Killing(f, pid), pid);
    BookGone(u, m, pid);
    BothPeople(c.k.sched, u.k.sched, Gone(u, pid).k.sched, pid);
  }

  lemma BookResume(s: System, l: Ledger)
    requires SysInv(s) && Allowed(s, Resume) && Booked(s, l)
    ensures Booked(ResumeStep(s), Pays(l, s.k.sched.current)) && SamePeople(s.k.sched, ResumeStep(s).k.sched, Goner(s, Resume))
  {
    match s.tasks[s.k.sched.current]
    case Putting(f, b) => BookPaid(s, l, f, b);
    case Taking(f) => BookTaken(s, l, f);
    case Killing(f, victim) =>
      BookPaid(s, l, f, EOF);
      ResumePutKeeps(s, f, EOF);
      var u := BeforeRemoval(s);
      BookGone(u, Pays(l, s.k.sched.current), victim);
      BothPeople(s.k.sched, u.k.sched, ResumeStep(s).k.sched, victim);
  }

  lemma BookUser(s: System, l: Ledger, c: Call)
    requires SysInv(s) && Allowed(s, User(c)) && Booked(s, l)
    ensures Booked(UserStep(s, c), l) && SamePeople(s.k.sched, UserStep(s, c).k.sched, Goner(s, User(c)))
  {
    var t := UserStep(s, c);
    CallPeople(s.k, c);
    if c.Sys? && c.event.ReapCall? {
      BookVanished(s, l, t, c.event.pid);
    } else if c.Sys? && c.event.ExitCall? {
      BookVanished(s, l, t, s.k.sched.current);
    } else {
      PeopleStand(s.k.sched, t.k.sched, s.tasks, s.cut, l);
    }
  }

  lemma BookSpawn(s: System, l: Ledger, unkillable: bool, memory: bool, out: int)
    requires SysInv(s) && Allowed(s, Spawn(unkillable, memory, out)) && Booked(s, l)
    ensures var t := SpawnStep(s, unkillable, memory, out); Booked(t, Aged(l, s.k.sched, t.k.sched))
  {
    var t := SpawnStep(s, unkillable, memory, out);
    var c := Sys(CreateCall(unkillable, memory));
    forall p | Exists(s.k.sched, p) ensures Exists(t.k.sched, p) { KernelEffects.WhoIsThere(s.k, c, p); }
    NewStand(s.k.sched, t.k.sched, s.tasks, s.cut, l);
  }

  /** Those in a new life owe nothing. */
  lemma NewStand(s: Sched, t: Sched, tasks: map<int, Task>, cut: set<int>, l: Ledger)
    requires Sized(s) && Sized(t) && AllStanding(s, tasks, cut, l) && InOrder(l)
    requires forall p :: Exists(s, p) ==> Exists(t, p)
    ensures InOrder(Aged(l, s, t)) && AllStanding(t, tasks, cut, Aged(l, s, t))
  {
    var m := Aged(l, s, t);
    forall p ensures Life(m, p) == Life(l, p) + if !Exists(s, p) && Exists(t, p) then 1 else 0 { }
    forall p ensures Standing(t, tasks, cut, m, p) {
      assert Standing(s, tasks, cut, l, p);
      assert FirstOnes(Of(l.issued, p, Life(m, p)), Of(l.moved, p, Life(m, p)));
    }
  }

  lemma BookNewPipe(s: System, l: Ledger, f: int, buffer: seq<Byte>, wSem: string, rSem: string)
    requires SysInv(s) && Allowed(s, NewPipe(f, buffer, wSem, rSem)) && Booked(s, l)
    ensures var t := Do(s, NewPipe(f, buffer, wSem, rSem)); Booked(t, l) && t.k.sched == s.k.sched
  {
    PutsSame(s.pipes, l.moved, f, Store(buffer, 0, 0, 0, wSem, rSem, [], [], 0, 0));
  }

  lemma BookWrite(s: System, l: Ledger, f: int, b: Byte)
    requires SysInv(s) && Allowed(s, WriteByte(f, b)) && Booked(s, l)
    ensures Booked(Do(s, WriteByte(f, b)), Entered(l, s, WriteByte(f, b))) && SamePeople(s.k.sched, Do(s, WriteByte(f, b)).k.sched, NO_PID)
  {
    BookPut(s, l, f, b, Putting(f, b), Issue(s.k.sched.current, Life(l, s.k.sched.current), f, b, NO_PID));
  }

  lemma SameAge(l: Ledger, s: Sched, t: Sched)
    requires Sized(s) && Sized(t) && |l.lives| == MAX_PROCESSES && forall p :: Exists(t, p) ==> Exists(s, p)
    ensures Aged(l, s, t) == l
  {
    var m := Aged(l, s, t);
    forall p | 0 <= p < MAX_PROCESSES ensures m.lives[p] == l.lives[p] {
      assert Exists(t, p) ==> Exists(s, p);
    }
    assert m.lives == l.lives;
  }

  /** The ledger keeps matching the system. */
  lemma EntryKeepsBooked(s: System, l: Ledger, a: Act)
    requires SysInv(s) && Allowed(s, a) && Booked(s, l)
    ensures Booked(Do(s, a), Aged(Entered(l, s, a), s.k.sched, Do(s, a).k.sched))
  {
    match a
    case Spawn(unkillable, memory, out) => BookSpawn(s, l, unkillable, memory, out);
    case _ => OtherKeepsBooked(s, l, a);
  }

  lemma OtherKeepsBooked(s: System, l: Ledger, a: Act)
    requires SysInv(s) && Allowed(s, a) && Booked(s, l) && !a.Spawn?
    ensures Booked(Do(s, a), Aged(Entered(l, s, a), s.k.sched, Do(s, a).k.sched))
  {
    OtherBooked(s, l, a);
    SameAge(Entered(l, s, a), s.k.sched, Do(s, a).k.sched);
  }

  lemma OtherBooked(s: System, l: Ledger, a: Act)
    requires SysInv(s) && Allowed(s, a) && Booked(s, l) && !a.Spawn?
    ensures Booked(Do(s, a), Entered(l, s, a)) && SamePeople(s.k.sched, Do(s, a).k.sched, Goner(s, a))
  {
    match a
    case User(c) => BookUser(s, l, c);
    case NewPipe(f, buffer, wSem, rSem) => BookNewPipe(s, l, f, buffer, wSem, rSem);
    case WriteByte(f, b) => BookWrite(s, l, f, b);
    case ReadByte(f) => BookTake(s, l, f);
    case Kill(pid) => BookKill(s, l, pid);
    case Resume => BookResume(s, l);
  }

  // ----- runs -----

  lemma {:induction false} RunKeepsBooked(s: System, l: Ledger, acts: seq<Act>, t: System)
    requires SysInv(s) && Booked(s, l) && Runs(s, acts, t)
    ensures |l.lives| == MAX_PROCESSES && Booked(t, LedgerOf(l, s, acts)) && SysInv(t)
    decreases |acts|
  {
    if acts != [] {
      var u := Do(s, acts[0]);
      EntryKeepsBooked(s, l, acts[0]);
      DoKeeps(s, acts[0]);
      RunKeepsBooked(u, Aged(Entered(l, s, acts[0]), s.k.sched, u.k.sched), acts[1..], t);
    }
  }

  lemma BlankBooked(s: System)
    requires s.pipes == map[] && s.tasks == map[]
    ensures Booked(s, Blank())
  {
  }

  /**
   In every run from boot each pipe was given exactly the bytes that went through, in order; those of a process, in
   one life, are the first it issued, with at most one left over; and that one belongs to a process that is still at
   it, was cut off by a kill, or is gone.
   */
  lemma BytesDelivered(acts: seq<Act>, s: System, f: int, p: int, life: nat)
    requires Runs(AtBoot(), acts, s)
    ensures var l := LedgerOf(Blank(), AtBoot(), acts);
            && (f in s.pipes ==> s.pipes[f].put == To(l.moved, f) && s.pipes[f].taken <= To(l.moved, f))
            && Of(l.moved, p, life) <= Of(l.issued, p, life) && |Of(l.issued, p, life)| <= |Of(l.moved, p, life)| + 1
            && (Owes(l, p) && Exists(s.k.sched, p) && p !in s.cut ==> p in s.tasks && About(s.tasks[p], Debt(l, p)))
  {
    BootSound();
    BlankBooked(AtBoot());
    RunMeans(AtBoot(), Blank(), acts, s, f, p, life);
  }

  lemma RunMeans(b: System, l: Ledger, acts: seq<Act>, s: System, f: int, p: int, life: nat)
    requires SysInv(b) && Booked(b, l) && Runs(b, acts, s)
    ensures |l.lives| == MAX_PROCESSES
    ensures var m := LedgerOf(l, b, acts);
            && (f in s.pipes ==> s.pipes[f].put == To(m.moved, f) && s.pipes[f].taken <= To(m.moved, f))
            && Of(m.moved, p, life) <= Of(m.issued, p, life) && |Of(m.issued, p, life)| <= |Of(m.moved, p, life)| + 1
            && (Owes(m, p) && Exists(s.k.sched, p) && p !in s.cut ==> p in s.tasks && About(s.tasks[p], Debt(m, p)))
  {
    RunKeepsBooked(b, l, acts, s);
    var m := LedgerOf(l, b, acts);
    assert FirstOnes(Of(m.issued, p, life), Of(m.moved, p, life));
    assert Standing(s.k.sched, s.tasks, s.cut, m, p);
    if f in s.pipes { assert FineAt(s.pipes, s.k.sems, s.tasks, f); }
  }

  // ----- who is there -----

  /** In every run from boot: who is in the process table after an act, and that no process ever changes its unkillable flag. */
  lemma ActPeople(acts: seq<Act>, s: System, a: Act)
    requires Runs(AtBoot(), acts, s) && Allowed(s, a) && !a.Spawn?
    ensures SamePeople(s.k.sched, Do(s, a).k.sched, Goner(s, a))
  {
    BootSound();
    BlankBooked(AtBoot());
    PeopleInRun(AtBoot(), Blank(), acts, s, a);
  }

  lemma PeopleInRun(b: System, l: Ledger, acts: seq<Act>, s: System, a: Act)
    requires SysInv(b) && Booked(b, l) && Runs(b, acts, s) && Allowed(s, a) && !a.Spawn?
    ensures SamePeople(s.k.sched, Do(s, a).k.sched, Goner(s, a))
  {
    RunKeepsBooked(b, l, acts, s);
    OtherBooked(s, LedgerOf(l, b, acts), a);
  }

  /** A kill of an unkillable process does nothing at all, whatever its output. */
  lemma UnkillableStands(s: System, pid: int)
    requires Shaped(s) && Exists(s.k.sched, pid) && s.k.sched.procs[pid].value.unkillable
    ensures Do(s, Kill(pid)) == s
  {
  }

  predicate SameOutput(s: System, t: System, p: int) {
    (p in t.outputs <==> p in s.outputs) && (p in s.outputs ==> t.outputs[p] == s.outputs[p])
  }

  /**
   The output of a process is the pipe named when it was created, and no act changes it as long as the process is
   there.
   */
  lemma OutputsStay(acts: seq<Act>, s: System, a: Act, p: int)
    requires Runs(AtBoot(), acts, s) && Allowed(s, a) && Exists(Do(s, a).k.sched, p)
    ensures var t := Do(s, a);
            if Exists(s.k.sched, p) then SameOutput(s, t, p) else a.Spawn? && p in t.outputs && t.outputs[p] == a.out
  {
    BootSound();
    RunsKeep(AtBoot(), acts, s);
    match a
    case Spawn(unkillable, memory, out) => SpawnOutputs(s, unkillable, memory, out, p);
    case _ =>
      ActPeople(acts, s, a);
      assert Exists(s.k.sched, p) && p != Goner(s, a);
      OtherOutputs(s, a, p);
  }

  lemma SpawnOutputs(s: System, unkillable: bool, memory: bool, out: int, p: int)
    requires SysInv(s) && Allowed(s, Spawn(unkillable, memory, out)) && Exists(SpawnStep(s, unkillable, memory, out).k.sched, p)
    ensures var t := SpawnStep(s, unkillable, memory, out);
            if Exists(s.k.sched, p) then SameOutput(s, t, p) else p in t.outputs && t.outputs[p] == out
  {
  }

  lemma OtherOutputs(s: System, a: Act, p: int)
    requires SysInv(s) && Allowed(s, a) && !a.Spawn? && p != Goner(s, a)
    ensures SameOutput(s, Do(s, a), p)
  {
    match a
    case Kill(pid) => KillOutputs(s, pid, p);
    case Resume => ResumeOutputs(s, p);
    case User(c) => UserOutputs(s, c, p);
    case _ =>
  }

  lemma UserOutputs(s: System, c: Call, p: int)
    requires Shaped(s) && p != Leaver(s.k.sched, c)
    ensures SameOutput(s, UserStep(s, c), p)
  {
    if c.Sys? && (c.event.ReapCall? || c.event.ExitCall?) {
      VanishedOutput(s, Leaver(s.k.sched, c), p, UserStep(s, c));
    }
  }

  lemma VanishedOutput(s: System, pid: int, p: int, t: System)
    requires Shaped(s) && p != pid && t.outputs == Vanish(s, pid).outputs
    ensures SameOutput(s, t, p)
  {
  }

  lemma ResumeOutputs(s: System, p: int)
    requires Shaped(s) && s.k.sched.current in s.tasks && s.tasks[s.k.sched.current].f in s.pipes && p != Goner(s, Resume)
    ensures SameOutput(s, ResumeStep(s), p)
  {
  }

  lemma KillOutputs(s: System, pid: int, p: int)
    requires SysInv(s) && Allowed(s, Kill(pid)) && p != Goner(s, Kill(pid))
    ensures SameOutput(s, KillStep(s, pid), p)
  {
    if Killable(s.k.sched, pid) {
      KillUnfolds(s, pid);
      CleanedKeeps(s, pid);
      var c := Cleaned(s, pid);
      if HasPipe(s, pid) {
        var f := s.outputs[pid];
        CleanedSem(s, pid, s.pipes[f].wSem);
        EofOutputs(s, c, pid, f, p);
      }
    }
  }

  lemma EofOutputs(s: System, c: System, pid: int, f: int, p: int)
    requires Agrees(c.k) && Shaped(c) && f in c.pipes && c.outputs == s.outputs && c.pipes == s.pipes && c.k.sched.current == s.k.sched.current
    requires c.pipes[f].wSem in c.k.sems && !InitQueues(c.k, c.pipes[f].wSem)
    requires p == pid ==> !Room(c, f)
    ensures SameOutput(s, AfterEof(c, pid, f), p)
  {
    WaitSems(c.k, c.pipes[f].wSem);
  }

  /** A killer that had to wait removes, when it runs again, the process it set out to kill. */
  lemma KillCompletes(acts: seq<Act>, s: System)
    requires Runs(AtBoot(), acts, s) && Allowed(s, Resume)
    ensures var l, c := LedgerOf(Blank(), AtBoot(), acts), s.k.sched.current;
            Owes(l, c) && Debt(l, c).victim != NO_PID ==> !Exists(Do(s, Resume).k.sched, Debt(l, c).victim)
  {
    BootSound();
    BlankBooked(AtBoot());
    KillEndsRun(AtBoot(), Blank(), acts, s);
  }

  lemma KillEndsRun(b: System, l: Ledger, acts: seq<Act>, s: System)
    requires SysInv(b) && Booked(b, l) && Runs(b, acts, s) && Allowed(s, Resume)
    ensures |l.lives| == MAX_PROCESSES
    ensures var m, c := LedgerOf(l, b, acts), s.k.sched.current;
            Owes(m, c) && Debt(m, c).victim != NO_PID ==> !Exists(Do(s, Resume).k.sched, Debt(m, c).victim)
  {
    RunKeepsBooked(b, l, acts, s);
    var m, c := LedgerOf(l, b, acts), s.k.sched.current;
    RunningAround(s);
    assert Standing(s.k.sched, s.tasks, s.cut, m, c);
    OtherBooked(s, m, Resume);
  }

  // ----- what the other acts do -----

  /** The pipe after a take: the oldest byte not yet taken is taken, and nothing else happens to what was put. */
  predicate TookNext(before: Store, after: Store) {
    |before.taken| < |before.put| && after.taken == before.taken + [before.put[|before.taken|]] && after.put == before.put
  }

  /** A read takes the next byte at once if there is one to spare; otherwise the reader is last in the queue, and blocked. */
  lemma ReadTakes(s: System, f: int)
    requires SysInv(s) && Allowed(s, ReadByte(f))
    ensures s.pipes[f].rSem in s.k.sems
    ensures var t, st, c := Do(s, ReadByte(f)), s.pipes[f], s.k.sched.current;
            && st.rSem in t.k.sems
            && if s.k.sems[st.rSem].value > 0 then
                 f in t.pipes && TookNext(st, t.pipes[f]) && t.tasks == s.tasks && t.k.sems[st.rSem].value == s.k.sems[st.rSem].value - 1
               else
                 && t.pipes == s.pipes && c in t.tasks && Takes(t.tasks[c], f) && HasStatus(t.k.sched, c, Blocked)
                 && t.k.sems[st.rSem].queue == s.k.sems[st.rSem].queue + [c]
  {
    var st, c := s.pipes[f], s.k.sched.current;
    WaitSems(s.k, st.rSem);
    if s.k.sems[st.rSem].value > 0 {
      NextByte(s, f);
      TakePasses(s, f);
    } else {
      PerformKeepsAgrees(s.k, WaitOn(st.rSem));
      var k1 := Perform(s.k, WaitOn(st.rSem));
      assert k1.sems[st.rSem].queue[|s.k.sems[st.rSem].queue|] == c;
      QueuedParked(k1, st.rSem, c);
    }
  }

  /** With a byte promised to the taker, the byte at the read position is the oldest one put and not taken. */
  lemma NextByte(s: System, f: int)
    requires SysInv(s) && f in s.pipes && StoreOk(s.pipes[f]) && s.pipes[f].rSem in s.k.sems
    requires s.k.sems[s.pipes[f].rSem].value > 0
             || exists c :: c in s.tasks && Takes(s.tasks[c], f) && c !in s.k.sems[s.pipes[f].rSem].queue
    ensures TookNext(s.pipes[f], StoreTake(s.pipes[f]))
  {
    var st := s.pipes[f];
    assert FineAt(s.pipes, s.k.sems, s.tasks, f);
    var p := PipeViews.Seen(st, f, s.k.sems[st.wSem], s.k.sems[st.rSem], s.tasks);
    if c :| c in s.tasks && Takes(s.tasks[c], f) && c !in s.k.sems[st.rSem].queue {
      assert c in p.readers;
    }
    OldestIsNext(p);
  }

  lemma OldestIsNext(p: Pipes.Pipe)
    requires Pipes.Inv(p) && (p.r.value > 0 || p.readers != {})
    ensures |p.taken| < |p.put| && p.put[|p.taken|] == p.buffer[p.readPos]
  {
    assert p.size > 0;
    assert p.put[|p.taken|] == Pipes.Contents(p)[0];
  }

  lemma TakePasses(s: System, f: int)
    requires Shaped(s) && f in s.pipes && s.pipes[f].rSem in s.k.sems && s.k.sems[s.pipes[f].rSem].value > 0
    requires s.pipes[f].wSem != s.pipes[f].rSem && TookNext(s.pipes[f], StoreTake(s.pipes[f]))
    ensures var t, st := StartTake(s, f), s.pipes[f];
            && f in t.pipes && TookNext(st, t.pipes[f]) && t.tasks == s.tasks
            && st.rSem in t.k.sems && t.k.sems[st.rSem].value == s.k.sems[st.rSem].value - 1
  {
  }

  /** A reader that had to wait takes the next byte when it runs again. */
  lemma ResumedTakes(s: System, f: int)
    requires SysInv(s) && Allowed(s, Resume) && s.tasks[s.k.sched.current] == Taking(f)
    ensures var t := Do(s, Resume); f in t.pipes && TookNext(s.pipes[f], t.pipes[f]) && t.tasks == s.tasks - {s.k.sched.current}
  {
    SysShaped(s);
    RunningFree(s);
    assert FineAt(s.pipes, s.k.sems, s.tasks, f);
    assert !QueuedIn(s.k, s.pipes[f].rSem, s.k.sched.current);
    NextByte(s, f);
  }

  lemma TwoOpened(k: Kernel, wSem: string, rSem: string)
    requires Sized(k.sched) && wSem != rSem && wSem !in k.sems && rSem !in k.sems && |k.sems| + 2 <= MAX_SEMAPHORES
    ensures Perform(Perform(k, Open(wSem, Pipes.PIPE_SIZE, true)), Open(rSem, 0, true))
            == k.(sems := k.sems[wSem := SemaphoreModel.Sem(1024, 1, [])][rSem := SemaphoreModel.Sem(0, 1, [])])
  {
    var k1 := Perform(k, Open(wSem, Pipes.PIPE_SIZE, true));
    assert k1.sems.Keys == k.sems.Keys + {wSem};
  }

  /** A new pipe is empty, with room for 1024 bytes and two new semaphores of its own; no other pipe changes. */
  lemma PipeIsNew(s: System, f: int, buffer: seq<Byte>, wSem: string, rSem: string)
    requires Allowed(s, NewPipe(f, buffer, wSem, rSem))
    ensures var t := Do(s, NewPipe(f, buffer, wSem, rSem));
            && t.pipes.Keys == s.pipes.Keys + {f} && (forall g :: g in s.pipes ==> t.pipes[g] == s.pipes[g])
            && t.pipes[f].size == 0 && t.pipes[f].put == [] == t.pipes[f].taken && t.pipes[f].wSem == wSem && t.pipes[f].rSem == rSem
            && t.k == s.k.(sems := s.k.sems[wSem := SemaphoreModel.Sem(1024, 1, [])][rSem := SemaphoreModel.Sem(0, 1, [])])
            && t.tasks == s.tasks
  {
    TwoOpened(s.k, wSem, rSem);
    MadePipe(s, f, Store(buffer, 0, 0, 0, wSem, rSem, [], [], 0, 0));
  }

  lemma MadePipe(s: System, f: int, st: Store)
    requires f !in s.pipes
    ensures var now := s.pipes[f := st]; now.Keys == s.pipes.Keys + {f} && now[f] == st && forall g :: g in s.pipes ==> now[g] == s.pipes[g]
  {
  }

  /** Creations and all other calls leave in every slot what is expected of them. */
  lemma CallsOnSlot(s: System, a: Act, i: nat)
    requires SysInv(s) && Allowed(s, a) && (a.User? || a.Spawn?) && i < MAX_PROCESSES
    ensures Effects.SlotOf(Do(s, a).k.sched, i)
            == KernelEffects.ExpectedSlot(s.k, if a.User? then a.c else Sys(CreateCall(a.unkillable, a.memory)), i)
  {
    var c := if a.User? then a.c else Sys(CreateCall(a.unkillable, a.memory));
    assert Do(s, a).k == Perform(s.k, c);
    KernelEffects.PerformOnSlot(s.k, c, i);
  }
}
