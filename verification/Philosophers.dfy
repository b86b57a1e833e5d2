/**
 The dining philosophers program (phylo.c): a mutex and one private semaphore each,
 every shared access or system call one step, in any interleaving, with new
 philosophers joining at any time.
 */
module Philosophers {
  import opened Common
  import opened WaitQueue
  import opened SemaphoreModel

  const MAX_PHILOSOPHERS := 10

  datatype Mood = Thinking | Hungry | Eating

  /** Where a philosopher is in its loop; the number in a post is the neighbour just allowed to eat. */
  datatype Point =
    | Think | AskFirst | QueuedFirst | InFirst | Hungered | PostOwn | Leaving | AskOwn | QueuedOwn
    | Eat | AskSecond | QueuedSecond | InSecond | TestLeft | PostLeft(k: nat) | TestRight | PostRight(k: nat) | LeavingSecond

  datatype Table = Table(mood: seq<Mood>, at: seq<Point>, mutex: Sem, own: seq<Sem>)

  function Left(n: nat, i: nat): (r: nat)
    requires i < n
    ensures r < n && r == (i + n - 1) % n
  {
    ModOnce(if i == 0 then n - 1 else i - 1, n);
    if i == 0 then n - 1 else i - 1
  }

  function Right(n: nat, i: nat): (r: nat)
    requires i < n
    ensures r < n && r == (i + 1) % n
  {
    ModOnce(if i + 1 == n then 0 else i + 1, n);
    if i + 1 == n then 0 else i + 1
  }

  lemma ModOnce(r: nat, n: nat)
    requires r < n
    ensures r % n == r && (r + n) % n == r
  {
    var d, e := (r + n) / n, (r + n) % n;
    assert r + n == d * n + e;
    assert (d - 1) * n == r - e;
    ProductBounds(d - 1, n);
    var d', e' := r / n, r % n;
    assert r == d' * n + e';
    ProductBounds(d', n);
  }

  predicate Shape(t: Table) {
    |t.mood| == |t.at| == |t.own| <= MAX_PHILOSOPHERS
    && forall i :: 0 <= i < |t.at| ==> (t.at[i].PostLeft? || t.at[i].PostRight?) ==> t.at[i].k < |t.at|
  }

  // ----- steps -----

  predicate MayEat(t: Table, k: nat)
    requires Shape(t) && k < |t.at|
  {
    var n := |t.at|;
    t.mood[k] == Hungry && t.mood[Left(n, k)] != Eating && t.mood[Right(n, k)] != Eating
  }

  function GoTo(t: Table, i: nat, p: Point): Table
    requires i < |t.at|
  {
    t.(at := t.at[i := p])
  }

  function SetMood(t: Table, i: nat, m: Mood): Table
    requires i < |t.mood|
  {
    t.(mood := t.mood[i := m])
  }

  /** A post on the private semaphore of k lets k go on to eat if it is queued there. */
  function PostTo(t: Table, k: nat): Table
    requires k < |t.own|
  {
    var (sem, q) := Post(t.own[k]);
    var u := t.(own := t.own[k := sem]);
    if t.own[k].queue != [] && 0 <= q < |t.at| then GoTo(u, q, Eat) else u
  }

  /** A post on the mutex hands it to the first philosopher queued. */
  function PostMutex(t: Table): Table {
    var (sem, q) := Post(t.mutex);
    var u := t.(mutex := sem);
    if t.mutex.queue != [] && 0 <= q < |t.at|
    then GoTo(u, q, if t.at[q] == QueuedFirst then InFirst else InSecond) else u
  }

  /** A wait; a refusal by a full queue is not noticed by the program. */
  function WaitMutex(t: Table, i: nat, queued: Point, inside: Point): Table
    requires i < |t.at|
  {
    var (sem, o) := Wait(t.mutex, i);
    GoTo(t.(mutex := sem), i, if o == Queued then queued else inside)
  }

  function WaitOwn(t: Table, i: nat): Table
    requires i < |t.at| && i < |t.own|
  {
    var (sem, o) := Wait(t.own[i], i);
    GoTo(t.(own := t.own[i := sem]), i, if o == Queued then QueuedOwn else Eat)
  }

  predicate Blocked(p: Point) {
    p == QueuedFirst || p == QueuedSecond || p == QueuedOwn
  }

  /** The next action of philosopher i. */
  function Move(t: Table, i: nat): Table
    requires Shape(t) && i < |t.at| && !Blocked(t.at[i])
  {
    var n := |t.at|;
    match t.at[i]
    case Think => GoTo(SetMood(t, i, Thinking), i, AskFirst)
    case AskFirst => WaitMutex(t, i, QueuedFirst, InFirst)
    case InFirst => GoTo(SetMood(t, i, Hungry), i, Hungered)
    case Hungered => if MayEat(t, i) then GoTo(SetMood(t, i, Eating), i, PostOwn) else GoTo(t, i, Leaving)
    case PostOwn => GoTo(PostTo(t, i), i, Leaving)
    case Leaving => GoTo(PostMutex(t), i, AskOwn)
    case AskOwn => WaitOwn(t, i)
    case Eat => GoTo(SetMood(t, i, Eating), i, AskSecond)
    case AskSecond => WaitMutex(t, i, QueuedSecond, InSecond)
    case InSecond => GoTo(SetMood(t, i, Thinking), i, TestLeft)
    case TestLeft =>
      var k := Left(n, i);
      if MayEat(t, k) then GoTo(SetMood(t, k, Eating), i, PostLeft(k)) else GoTo(t, i, TestRight)
    case PostLeft(k) => GoTo(PostTo(t, k), i, TestRight)
    case TestRight =>
      var k := Right(n, i);
      if MayEat(t, k) then GoTo(SetMood(t, k, Eating), i, PostRight(k)) else GoTo(t, i, LeavingSecond)
    case PostRight(k) => GoTo(PostTo(t, k), i, LeavingSecond)
    case LeavingSecond => GoTo(PostMutex(t), i, Think)
  }

  /** addPhilosopher as one step. */
  function Add(t: Table): Table {
    if |t.at| >= MAX_PHILOSOPHERS then t
    else Table(t.mood + [Thinking], t.at + [Think], t.mutex, t.own + [Sem(0, 1, [])])
  }

  function Empty(): Table {
    Table([], [], Sem(1, 1, []), [])
  }

  // ----- the invariant -----

  /** Between the wait on the mutex and the post on it. */
  predicate Holding(p: Point) {
    match p
    case InFirst | Hungered | PostOwn | Leaving | InSecond | TestLeft | TestRight | LeavingSecond => true
    case PostLeft(_) => true
    case PostRight(_) => true
    case _ => false
  }

  predicate Queueing(p: Point) {
    p == QueuedFirst || p == QueuedSecond
  }

  ghost predicate SomeoneHolds(t: Table) {
    exists i :: 0 <= i < |t.at| && Holding(t.at[i])
  }

  /** The mutex is free, or held by exactly one; its queue is the set of those queued for it. */
  ghost predicate HoldersOk(t: Table) {
    && (t.mutex.value == 0 || t.mutex.value == 1)
    && (t.mutex.value == 0 <==> SomeoneHolds(t))
    && (forall i, j :: 0 <= i < |t.at| && 0 <= j < |t.at| && Holding(t.at[i]) && Holding(t.at[j]) ==> i == j)
  }

  ghost predicate QueueOk(t: Table) {
    && NoRepeats(t.mutex.queue) && (t.mutex.value > 0 ==> t.mutex.queue == [])
    && (forall q :: q in t.mutex.queue ==> 0 <= q < |t.at| && Queueing(t.at[q]))
    && (forall i :: 0 <= i < |t.at| && Queueing(t.at[i]) ==> i in t.mutex.queue)
  }

  ghost predicate MutexOk(t: Table) {
    HoldersOk(t) && QueueOk(t)
  }

  /** Which moods are possible where. */
  predicate MoodFits(p: Point, m: Mood) {
    match p
    case Think | AskFirst | QueuedFirst | InFirst | TestLeft | TestRight | LeavingSecond => m == Thinking
    case PostLeft(_) => m == Thinking
    case PostRight(_) => m == Thinking
    case Hungered => m == Hungry
    case PostOwn | Eat | AskSecond | QueuedSecond | InSecond => m == Eating
    case Leaving | AskOwn | QueuedOwn => m != Thinking
  }

  /** Philosopher j, at p, is about to post the private semaphore of i. */
  predicate Owes(p: Point, j: int, i: int) {
    (p == PostOwn && j == i) || (p.PostLeft? && p.k == i) || (p.PostRight? && p.k == i)
  }

  ghost predicate Owed(t: Table, i: int) {
    exists j :: 0 <= j < |t.at| && Owes(t.at[j], j, i)
  }

  /** The private semaphore of i holds a token exactly when i may eat, was posted and has not passed its wait. */
  ghost predicate TokenOk(t: Table, i: nat)
    requires Shape(t) && i < |t.at|
  {
    && t.own[i].value == (if t.mood[i] == Eating && (t.at[i] == Leaving || t.at[i] == AskOwn) && !Owed(t, i) then 1 else 0)
    && t.own[i].queue == (if t.at[i] == QueuedOwn then [i] else [])
    && (t.at[i] == QueuedOwn && t.mood[i] == Eating ==> Owed(t, i))
    && (Owed(t, i) ==> t.mood[i] == Eating && t.at[i] in {PostOwn, Leaving, AskOwn, QueuedOwn})
  }

  /** No two distinct neighbours eat. */
  predicate ApartWhenEating(t: Table)
    requires Shape(t)
  {
    forall i: nat :: i < |t.at| && t.mood[i] == Eating && Right(|t.at|, i) != i ==> t.mood[Right(|t.at|, i)] != Eating
  }

  ghost predicate Fits(t: Table)
    requires Shape(t)
  {
    forall i :: 0 <= i < |t.at| ==> MoodFits(t.at[i], t.mood[i]) && TokenOk(t, i)
  }

  ghost predicate Inv(t: Table) {
    Shape(t) && MutexOk(t) && Fits(t) && ApartWhenEating(t)
  }

  // ----- who owes a post -----

  lemma OwedByHolder(t: Table, h: nat, i: int)
    requires MutexOk(t) && h < |t.at| && Holding(t.at[h])
    ensures Owed(t, i) <==> Owes(t.at[h], h, i)
  {
  }

  lemma OwedFrame(t: Table, u: Table, i: int)
    requires |t.at| == |u.at|
    requires forall j :: 0 <= j < |t.at| && (Holding(t.at[j]) || Holding(u.at[j])) ==> Owes(t.at[j], j, i) == Owes(u.at[j], j, i)
    ensures Owed(t, i) <==> Owed(u, i)
  {
    if j :| 0 <= j < |t.at| && Owes(t.at[j], j, i) { assert Owes(u.at[j], j, i); }
    if j :| 0 <= j < |u.at| && Owes(u.at[j], j, i) { assert Owes(t.at[j], j, i); }
  }

  /** A step of i that changes neither the mutex nor who holds it. */
  lemma SameMutex(t: Table, u: Table, i: nat)
    requires MutexOk(t) && i < |t.at| && |u.at| == |t.at| && u.mutex == t.mutex
    requires forall j :: 0 <= j < |t.at| ==> Holding(u.at[j]) == Holding(t.at[j]) && Queueing(u.at[j]) == Queueing(t.at[j])
    ensures MutexOk(u)
  {
    if h :| 0 <= h < |t.at| && Holding(t.at[h]) { assert Holding(u.at[h]); }
  }

  /** A step of i that only moves i, between points that neither hold, owe nor queue. */
  lemma QuietStep(t: Table, i: nat, p: Point)
    requires Inv(t) && i < |t.at| && !Blocked(p) && !Blocked(t.at[i])
    requires !Holding(t.at[i]) && !Holding(p) && MoodFits(p, t.mood[i])
    requires t.at[i] != AskOwn && p != AskOwn
    ensures Inv(GoTo(t, i, p))
  {
    var u := GoTo(t, i, p);
    SameMutex(t, u, i);
    forall x: nat | x < |t.at| ensures TokenOk(u, x) {
      assert MoodFits(t.at[x], t.mood[x]) && TokenOk(t, x);
      OwedFrame(t, u, x);
    }
    assert u.mood == t.mood;
  }

  /** The holder goes from one point inside to another without owing a post before or after. */
  lemma InsideStep(t: Table, i: nat, m: Mood, p: Point)
    requires Inv(t) && i < |t.at| && Holding(t.at[i]) && Holding(p)
    requires !t.at[i].PostOwn? && !t.at[i].PostLeft? && !t.at[i].PostRight?
    requires !p.PostOwn? && !p.PostLeft? && !p.PostRight? && t.at[i] != Leaving && m != Eating && MoodFits(p, m)
    ensures Inv(GoTo(SetMood(t, i, m), i, p))
  {
    var u := GoTo(SetMood(t, i, m), i, p);
    SameMutex(t, u, i);
    forall x: nat | x < |t.at| ensures TokenOk(u, x) && MoodFits(u.at[x], u.mood[x]) {
      assert MoodFits(t.at[x], t.mood[x]) && TokenOk(t, x);
      OwedFrame(t, u, x);
    }
  }

  lemma RightOfLeft(n: nat, x: nat, k: nat)
    requires x < n && k < n
    ensures Right(n, x) == k <==> x == Left(n, k)
  {
  }

  lemma GrantApart(t: Table, k: nat)
    requires Shape(t) && ApartWhenEating(t) && k < |t.at| && MayEat(t, k)
    ensures ApartWhenEating(SetMood(t, k, Eating))
  {
    var n, u := |t.at|, SetMood(t, k, Eating);
    forall x: nat | x < n && u.mood[x] == Eating && Right(n, x) != x ensures u.mood[Right(n, x)] != Eating {
      RightOfLeft(n, x, k);
    }
  }

  /** i, at Hungered or testing a neighbour, turns to the post it now owes to k. */
  predicate Turns(i: nat, k: nat, from: Point, to: Point) {
    (from == Hungered && k == i && to == PostOwn) || (from == TestLeft && to == PostLeft(k)) || (from == TestRight && to == PostRight(k))
  }

  lemma GrantToken(t: Table, u: Table, i: nat, k: nat, p: Point, x: nat)
    requires Inv(t) && i < |t.at| && k < |t.at| && MayEat(t, k) && Turns(i, k, t.at[i], p) && x < |t.at|
    requires u == GoTo(SetMood(t, k, Eating), i, p) && MutexOk(u)
    ensures TokenOk(u, x) && MoodFits(u.at[x], u.mood[x])
  {
    assert MoodFits(t.at[x], t.mood[x]) && TokenOk(t, x);
    assert MoodFits(t.at[i], t.mood[i]);
    OwedByHolder(t, i, x);
    OwedByHolder(u, i, x);
  }

  /** The holder lets k eat and will post k's semaphore. */
  lemma GrantStep(t: Table, i: nat, k: nat, p: Point)
    requires Inv(t) && i < |t.at| && k < |t.at| && MayEat(t, k) && Turns(i, k, t.at[i], p)
    ensures Inv(GoTo(SetMood(t, k, Eating), i, p))
  {
    var u := GoTo(SetMood(t, k, Eating), i, p);
    SameMutex(t, u, i);
    GrantApart(t, k);
    forall x: nat | x < |t.at| ensures TokenOk(u, x) && MoodFits(u.at[x], u.mood[x]) {
      GrantToken(t, u, i, k, p, x);
    }
  }

  /** i makes the post it owes to k and goes on. */
  predicate Pays(i: nat, k: nat, from: Point, to: Point) {
    (from == PostOwn && k == i && to == Leaving) || (from == PostLeft(k) && to == TestRight) || (from == PostRight(k) && to == LeavingSecond)
  }

  /** k has reached its private wait, or is the one posting; a queue there holds only k. */
  lemma PaidPlace(t: Table, i: nat, k: nat, p: Point)
    requires Inv(t) && i < |t.at| && k < |t.at| && Pays(i, k, t.at[i], p)
    ensures t.mood[k] == Eating && t.own[k].value == 0
    ensures k == i || t.at[k] == AskOwn || t.at[k] == QueuedOwn
    ensures t.own[k].queue == (if t.at[k] == QueuedOwn then [k] else [])
  {
    OwedByHolder(t, i, k);
    assert MoodFits(t.at[k], t.mood[k]) && TokenOk(t, k) && MoodFits(t.at[i], t.mood[i]);
  }

  lemma PaidTable(t: Table, i: nat, k: nat, p: Point)
    requires Inv(t) && i < |t.at| && k < |t.at| && Pays(i, k, t.at[i], p)
    ensures GoTo(PostTo(t, k), i, p)
            == if t.at[k] == QueuedOwn then t.(own := t.own[k := t.own[k].(queue := [])], at := t.at[k := Eat][i := p])
               else t.(own := t.own[k := t.own[k].(value := 1)], at := t.at[i := p])
  {
    PaidPlace(t, i, k, p);
    assert [k][1..] == [];
  }

  lemma PostToken(t: Table, u: Table, i: nat, k: nat, p: Point, x: nat)
    requires Inv(t) && i < |t.at| && k < |t.at| && Pays(i, k, t.at[i], p) && x < |t.at|
    requires u == GoTo(PostTo(t, k), i, p) && Shape(u) && MutexOk(u)
    ensures TokenOk(u, x) && MoodFits(u.at[x], u.mood[x])
  {
    PaidPlace(t, i, k, p);
    PaidTable(t, i, k, p);
    assert MoodFits(t.at[x], t.mood[x]) && TokenOk(t, x);
    assert MoodFits(t.at[i], t.mood[i]);
    OwedByHolder(t, i, x);
    OwedByHolder(u, i, x);
    PaidToken(t, u, i, k, p, x);
  }

  lemma PaidToken(t: Table, u: Table, i: nat, k: nat, p: Point, x: nat)
    requires Shape(t) && Shape(u) && i < |t.at| && k < |t.at| && x < |t.at| && Pays(i, k, t.at[i], p)
    requires t.mood[k] == Eating && t.own[k].value == 0 && (k == i || t.at[k] == AskOwn || t.at[k] == QueuedOwn)
    requires t.own[k].queue == (if t.at[k] == QueuedOwn then [k] else [])
    requires MoodFits(t.at[x], t.mood[x]) && MoodFits(t.at[i], t.mood[i]) && TokenOk(t, x)
    requires Owed(t, x) <==> Owes(t.at[i], i, x)
    requires Owed(u, x) <==> Owes(p, i, x)
    requires u == if t.at[k] == QueuedOwn then t.(own := t.own[k := t.own[k].(queue := [])], at := t.at[k := Eat][i := p])
                  else t.(own := t.own[k := t.own[k].(value := 1)], at := t.at[i := p])
    ensures TokenOk(u, x) && MoodFits(u.at[x], u.mood[x])
  {
  }

  lemma PaidMutex(t: Table, u: Table, i: nat, k: nat, p: Point)
    requires Shape(t) && MutexOk(t) && i < |t.at| && k < |t.at| && Pays(i, k, t.at[i], p) && u.mutex == t.mutex
    requires u.at == t.at[i := p] || (t.at[k] == QueuedOwn && u.at == t.at[k := Eat][i := p])
    ensures MutexOk(u)
  {
    SameMutex(t, u, i);
  }

  lemma PostMutexSame(t: Table, i: nat, k: nat, p: Point)
    requires Inv(t) && i < |t.at| && k < |t.at| && Pays(i, k, t.at[i], p)
    ensures Shape(GoTo(PostTo(t, k), i, p)) && MutexOk(GoTo(PostTo(t, k), i, p))
  {
    PaidTable(t, i, k, p);
    PaidMutex(t, GoTo(PostTo(t, k), i, p), i, k, p);
  }

  /** The post owed is made: the token is left, or k goes on to eat. */
  lemma PostStep(t: Table, i: nat, k: nat, p: Point)
    requires Inv(t) && i < |t.at| && k < |t.at| && Pays(i, k, t.at[i], p)
    ensures Inv(GoTo(PostTo(t, k), i, p))
  {
    var u := GoTo(PostTo(t, k), i, p);
    PostMutexSame(t, i, k, p);
    assert Fits(u) by {
      forall x: nat | x < |t.at| ensures TokenOk(u, x) && MoodFits(u.at[x], u.mood[x]) {
        PostToken(t, u, i, k, p, x);
      }
    }
    assert u.mood == t.mood;
  }

  lemma WaitOwnStep(t: Table, i: nat)
    requires Inv(t) && i < |t.at| && t.at[i] == AskOwn
    ensures Inv(WaitOwn(t, i))
  {
    var u := WaitOwn(t, i);
    assert MoodFits(t.at[i], t.mood[i]) && TokenOk(t, i);
    SameMutex(t, u, i);
    forall x: nat | x < |t.at| ensures TokenOk(u, x) && MoodFits(u.at[x], u.mood[x]) {
      assert MoodFits(t.at[x], t.mood[x]) && TokenOk(t, x);
      OwedFrame(t, u, x);
    }
    assert u.mood == t.mood;
  }

  lemma MutexQueueShort(t: Table)
    requires Shape(t) && MutexOk(t)
    ensures |t.mutex.queue| < CAPACITY
  {
    Pigeonhole(t.mutex.queue, 0, |t.at|);
  }

  predicate Asks(from: Point, queued: Point, inside: Point) {
    (from == AskFirst && queued == QueuedFirst && inside == InFirst)
    || (from == AskSecond && queued == QueuedSecond && inside == InSecond)
  }

  lemma WaitMutexMutex(t: Table, i: nat, queued: Point, inside: Point)
    requires Shape(t) && MutexOk(t) && i < |t.at| && Asks(t.at[i], queued, inside)
    ensures MutexOk(WaitMutex(t, i, queued, inside))
  {
    var u := WaitMutex(t, i, queued, inside);
    MutexQueueShort(t);
    if t.mutex.value > 0 {
      assert Holding(u.at[i]);
    } else {
      var h :| 0 <= h < |t.at| && Holding(t.at[h]);
      assert Holding(u.at[h]);
      assert u.mutex.queue[|t.mutex.queue|] == i;
      forall x | 0 <= x < |u.at| && Queueing(u.at[x]) ensures x in u.mutex.queue {
        assert x != i ==> x in t.mutex.queue;
      }
    }
  }

  /** The private semaphores and moods are untouched, and nobody's debts change. */
  lemma SameTokens(t: Table, u: Table)
    requires Inv(t) && Shape(u) && |u.at| == |t.at| && u.mood == t.mood && u.own == t.own
    requires forall x :: 0 <= x < |t.at| ==>
               u.at[x] == t.at[x] || (Plain(t.at[x]) && Plain(u.at[x]) && MoodFits(u.at[x], t.mood[x]))
    ensures Fits(u)
  {
    forall x: nat | x < |t.at| ensures TokenOk(u, x) && MoodFits(u.at[x], u.mood[x]) {
      assert MoodFits(t.at[x], t.mood[x]) && TokenOk(t, x);
      OwedFrame(t, u, x);
    }
  }

  /** Points that say nothing about private semaphores. */
  predicate Plain(p: Point) {
    match p
    case Think | AskFirst | QueuedFirst | InFirst | AskSecond | QueuedSecond | InSecond | LeavingSecond => true
    case _ => false
  }

  lemma WaitMutexStep(t: Table, i: nat, queued: Point, inside: Point)
    requires Inv(t) && i < |t.at| && Asks(t.at[i], queued, inside)
    ensures Inv(WaitMutex(t, i, queued, inside))
  {
    assert MoodFits(t.at[i], t.mood[i]);
    WaitMutexMutex(t, i, queued, inside);
    SameTokens(t, WaitMutex(t, i, queued, inside));
  }

  /** The first in the queue of a held mutex waits for it and is not the holder. */
  lemma HeadQueued(t: Table, i: nat)
    requires MutexOk(t) && i < |t.at| && Holding(t.at[i])
    ensures t.mutex.value == 0
    ensures var q := t.mutex.queue; q != [] ==> 0 <= q[0] < |t.at| && q[0] != i && Queueing(t.at[q[0]])
  {
    assert SomeoneHolds(t);
    assert t.mutex.queue != [] ==> t.mutex.queue[0] in t.mutex.queue;
  }

  function Handed(p: Point): Point {
    if p == QueuedFirst then InFirst else InSecond
  }

  /** What a post on the mutex makes of the first in its queue. */
  lemma HandedTable(t: Table, i: nat, p: Point)
    requires MutexOk(t) && i < |t.at| && Holding(t.at[i])
    requires var q := t.mutex.queue; q != [] ==> 0 <= q[0] < |t.at|
    ensures var q := t.mutex.queue;
            GoTo(PostMutex(t), i, p)
            == if q == [] then t.(mutex := t.mutex.(value := 1), at := t.at[i := p])
               else t.(mutex := t.mutex.(queue := q[1..]), at := t.at[q[0] := Handed(t.at[q[0]])][i := p])
  {
    HeadQueued(t, i);
  }

  lemma FreedMutex(t: Table, i: nat, p: Point)
    requires MutexOk(t) && i < |t.at| && Holding(t.at[i]) && !Holding(p) && !Queueing(p) && t.mutex.queue == []
    ensures MutexOk(t.(mutex := t.mutex.(value := 1), at := t.at[i := p]))
  {
    var u := t.(mutex := t.mutex.(value := 1), at := t.at[i := p]);
    forall x | 0 <= x < |u.at| ensures !Holding(u.at[x]) {
      assert x != i ==> !Holding(t.at[x]);
    }
  }

  function Passed(t: Table, i: nat, h: nat, p: Point): Table
    requires i < |t.at| && h < |t.at| && t.mutex.queue != []
  {
    t.(mutex := t.mutex.(queue := t.mutex.queue[1..]), at := t.at[h := Handed(t.at[h])][i := p])
  }

  lemma PassedHolders(t: Table, i: nat, h: nat, p: Point)
    requires HoldersOk(t) && i < |t.at| && Holding(t.at[i]) && !Holding(p)
    requires t.mutex.queue != [] && h < |t.at| && h != i
    ensures HoldersOk(Passed(t, i, h, p))
  {
    var u := Passed(t, i, h, p);
    assert Holding(u.at[h]);
    assert SomeoneHolds(t);
    forall x | 0 <= x < |u.at| ensures Holding(u.at[x]) ==> x == h {
      assert x != h && x != i ==> u.at[x] == t.at[x];
    }
  }

  lemma PassedQueue(t: Table, i: nat, h: nat, p: Point)
    requires QueueOk(t) && t.mutex.value == 0 && i < |t.at| && !Queueing(t.at[i]) && !Queueing(p)
    requires t.mutex.queue != [] && t.mutex.queue[0] == h < |t.at| && h != i
    ensures QueueOk(Passed(t, i, h, p))
  {
    var q := t.mutex.queue;
    WithoutMembers(q, 0);
    assert Without(q, 0) == q[1..];
  }

  lemma PostMutexMutex(t: Table, i: nat, p: Point)
    requires MutexOk(t) && i < |t.at| && Holding(t.at[i]) && !Holding(p) && !Queueing(p)
    ensures MutexOk(GoTo(PostMutex(t), i, p))
  {
    HeadQueued(t, i);
    HandedTable(t, i, p);
    if t.mutex.queue == [] {
      FreedMutex(t, i, p);
    } else {
      PassedHolders(t, i, t.mutex.queue[0], p);
      PassedQueue(t, i, t.mutex.queue[0], p);
    }
  }

  lemma SameMoods(t: Table, u: Table)
    requires Shape(t) && Shape(u) && ApartWhenEating(t) && u.mood == t.mood
    ensures ApartWhenEating(u)
  {
  }

  lemma PostMutexShape(t: Table, i: nat, p: Point)
    requires Shape(t) && MutexOk(t) && i < |t.at| && Holding(t.at[i]) && !p.PostLeft? && !p.PostRight?
    ensures Shape(GoTo(PostMutex(t), i, p)) && GoTo(PostMutex(t), i, p).mood == t.mood
  {
    HeadQueued(t, i);
    HandedTable(t, i, p);
  }

  /** The holder leaves; the first philosopher queued, if any, gets the mutex. */
  lemma PostMutexStep(t: Table, i: nat, p: Point)
    requires Inv(t) && i < |t.at|
    requires (t.at[i] == Leaving && p == AskOwn) || (t.at[i] == LeavingSecond && p == Think)
    ensures Inv(GoTo(PostMutex(t), i, p))
  {
    var u := GoTo(PostMutex(t), i, p);
    PostMutexShape(t, i, p);
    PostMutexMutex(t, i, p);
    SameMoods(t, u);
    if t.at[i] == Leaving {
      LeavingToken(t, u, i);
    } else {
      LeavingSecondToken(t, u, i);
    }
  }

  lemma LeavingToken(t: Table, u: Table, i: nat)
    requires Inv(t) && i < |t.at| && t.at[i] == Leaving && u == GoTo(PostMutex(t), i, AskOwn) && Shape(u)
    ensures Fits(u) && u.mood == t.mood
  {
    HeadQueued(t, i);
    HandedTable(t, i, AskOwn);
    forall x: nat | x < |t.at| ensures TokenOk(u, x) && MoodFits(u.at[x], u.mood[x]) {
      assert MoodFits(t.at[x], t.mood[x]) && TokenOk(t, x);
      OwedFrame(t, u, x);
    }
  }

  lemma LeavingSecondToken(t: Table, u: Table, i: nat)
    requires Inv(t) && i < |t.at| && t.at[i] == LeavingSecond && u == GoTo(PostMutex(t), i, Think) && Shape(u)
    ensures Fits(u) && u.mood == t.mood
  {
    HeadQueued(t, i);
    HandedTable(t, i, Think);
    assert forall x :: 0 <= x < |t.at| ==> MoodFits(t.at[x], t.mood[x]);
    SameTokens(t, u);
  }

  /** Every step of every philosopher keeps the invariant. */
  lemma MoveKeepsInv(t: Table, i: nat)
    requires Inv(t) && i < |t.at| && !Blocked(t.at[i])
    ensures Inv(Move(t, i))
  {
    var n := |t.at|;
    assert MoodFits(t.at[i], t.mood[i]);
    match t.at[i]
    case Think =>
      assert SetMood(t, i, Thinking) == t;
      QuietStep(t, i, AskFirst);
    case AskFirst => WaitMutexStep(t, i, QueuedFirst, InFirst);
    case InFirst => InsideStep(t, i, Hungry, Hungered);
    case Hungered =>
      if MayEat(t, i) { GrantStep(t, i, i, PostOwn); }
      else {
        assert SetMood(t, i, Hungry) == t;
        InsideStep(t, i, Hungry, Leaving);
      }
    case PostOwn => PostStep(t, i, i, Leaving);
    case Leaving => PostMutexStep(t, i, AskOwn);
    case AskOwn => WaitOwnStep(t, i);
    case Eat =>
      assert SetMood(t, i, Eating) == t;
      QuietStep(t, i, AskSecond);
    case AskSecond => WaitMutexStep(t, i, QueuedSecond, InSecond);
    case InSecond => InsideStep(t, i, Thinking, TestLeft);
    case TestLeft =>
      assert SetMood(t, i, Thinking) == t;
      if MayEat(t, Left(n, i)) { GrantStep(t, i, Left(n, i), PostLeft(Left(n, i))); } else { InsideStep(t, i, Thinking, TestRight); }
    case PostLeft(k) => PostStep(t, i, k, TestRight);
    case TestRight =>
      assert SetMood(t, i, Thinking) == t;
      if MayEat(t, Right(n, i)) { GrantStep(t, i, Right(n, i), PostRight(Right(n, i))); } else { InsideStep(t, i, Thinking, LeavingSecond); }
    case PostRight(k) => PostStep(t, i, k, LeavingSecond);
    case LeavingSecond => PostMutexStep(t, i, Think);
  }

  // ----- joining -----

  lemma AddOwed(t: Table, x: int)
    requires |t.at| < MAX_PHILOSOPHERS && |t.mood| == |t.own| == |t.at|
    ensures Owed(Add(t), x) <==> Owed(t, x)
  {
    var u := Add(t);
    if j :| 0 <= j < |t.at| && Owes(t.at[j], j, x) { assert Owes(u.at[j], j, x); }
    if j :| 0 <= j < |u.at| && Owes(u.at[j], j, x) { assert j < |t.at|; }
  }

  lemma AddMutex(t: Table)
    requires Shape(t) && MutexOk(t)
    ensures Shape(Add(t)) && MutexOk(Add(t))
  {
    var u := Add(t);
    if h :| 0 <= h < |t.at| && Holding(t.at[h]) { assert Holding(u.at[h]); }
  }

  lemma AddToken(t: Table, x: nat)
    requires Inv(t) && |t.at| < MAX_PHILOSOPHERS && x <= |t.at| && Shape(Add(t))
    ensures MoodFits(Add(t).at[x], Add(t).mood[x]) && TokenOk(Add(t), x)
  {
    AddOwed(t, x);
    if x < |t.at| {
      assert MoodFits(t.at[x], t.mood[x]) && TokenOk(t, x);
    } else {
      NothingOwedOutside(t, x);
    }
  }

  lemma AddApart(t: Table)
    requires Shape(t) && Shape(Add(t)) && ApartWhenEating(t) && |t.at| < MAX_PHILOSOPHERS
    ensures ApartWhenEating(Add(t))
  {
    var n, u := |t.at|, Add(t);
    forall x: nat | x <= n ensures u.mood[x] == Eating ==> u.mood[Right(n + 1, x)] != Eating {
      assert x + 1 < n ==> Right(n + 1, x) == Right(n, x);
    }
  }

  /** A philosopher who joins keeps the invariant, although two old neighbours stop being neighbours. */
  lemma AddKeepsInv(t: Table)
    requires Inv(t)
    ensures Inv(Add(t))
  {
    if |t.at| < MAX_PHILOSOPHERS {
      AddMutex(t);
      AddApart(t);
      forall x: nat | x <= |t.at| ensures MoodFits(Add(t).at[x], Add(t).mood[x]) && TokenOk(Add(t), x) {
        AddToken(t, x);
      }
    }
  }

  lemma NothingOwedOutside(t: Table, x: nat)
    requires Shape(t) && x == |t.at|
    ensures !Owed(t, x)
  {
  }

  // ----- runs -----

  datatype Act = Go(i: nat) | Join

  predicate CanAct(t: Table, a: Act) {
    match a
    case Go(i) => i < |t.at| && !Blocked(t.at[i])
    case Join => true
  }

  function Do(t: Table, a: Act): Table
    requires Shape(t) && CanAct(t, a)
  {
    match a
    case Go(i) => Move(t, i)
    case Join => Add(t)
  }

  ghost predicate Reaches(t: Table, acts: seq<Act>, u: Table)
    decreases |acts|
  {
    if acts == [] then u == t
    else Shape(t) && CanAct(t, acts[0]) && Reaches(Do(t, acts[0]), acts[1..], u)
  }

  lemma {:induction false} ReachesInv(t: Table, acts: seq<Act>, u: Table)
    requires Inv(t) && Reaches(t, acts, u)
    ensures Inv(u)
    decreases |acts|
  {
    if acts != [] {
      match acts[0]
      case Go(i) => MoveKeepsInv(t, i); ReachesInv(Move(t, i), acts[1..], u);
      case Join => AddKeepsInv(t); ReachesInv(Add(t), acts[1..], u);
    }
  }

  /** Neighbours never eat together, however philosophers act and join. */
  lemma NeighboursNeverEatTogether(acts: seq<Act>, t: Table, i: nat)
    requires Reaches(Empty(), acts, t) && Shape(t) && i < |t.at| && t.mood[i] == Eating
    ensures Right(|t.at|, i) != i ==> t.mood[Right(|t.at|, i)] != Eating
    ensures Left(|t.at|, i) != i ==> t.mood[Left(|t.at|, i)] != Eating
  {
    ReachesInv(Empty(), acts, t);
    RightOfLeft(|t.at|, Left(|t.at|, i), i);
  }

  // ----- progress -----

  ghost predicate HasEatingNeighbour(t: Table, i: nat)
    requires Shape(t) && i < |t.at|
  {
    t.mood[Left(|t.at|, i)] == Eating || t.mood[Right(|t.at|, i)] == Eating
  }

  /** Philosopher j, at p, will still test i before it leaves the mutex. */
  predicate WillTest(n: nat, p: Point, j: nat, i: nat)
    requires j < n
  {
    (p == Hungered && i == j)
    || (p == TestLeft && (i == Left(n, j) || i == Right(n, j)))
    || ((p.PostLeft? || p == TestRight) && i == Right(n, j))
  }

  ghost predicate ToBeTested(t: Table, i: nat) {
    exists j: nat :: j < |t.at| && WillTest(|t.at|, t.at[j], j, i)
  }

  /** Whoever is hungry has an eating neighbour or is about to be tested. */
  ghost predicate Served(t: Table)
    requires Shape(t)
  {
    forall i: nat :: i < |t.at| && t.mood[i] == Hungry ==> HasEatingNeighbour(t, i) || ToBeTested(t, i)
  }

  lemma TestedByHolder(t: Table, h: nat, i: nat)
    requires MutexOk(t) && h < |t.at| && Holding(t.at[h])
    ensures ToBeTested(t, i) <==> WillTest(|t.at|, t.at[h], h, i)
  {
  }

  lemma TestedFrame(t: Table, u: Table, i: nat)
    requires |t.at| == |u.at|
    requires forall j: nat :: j < |t.at| && WillTest(|t.at|, t.at[j], j, i) ==> WillTest(|t.at|, u.at[j], j, i)
    ensures ToBeTested(t, i) ==> ToBeTested(u, i)
  {
    if j: nat :| j < |t.at| && WillTest(|t.at|, t.at[j], j, i) { assert WillTest(|t.at|, u.at[j], j, i); }
  }

  /** Points from which nobody will be tested before the mutex is left. */
  predicate TestsNobody(p: Point) {
    p != Hungered && p != TestLeft && !p.PostLeft? && p != TestRight
  }

  /** Steps that change no mood and end no test. */
  lemma UnchangedServed(t: Table, u: Table)
    requires Shape(t) && Shape(u) && Served(t) && |u.at| == |t.at| && u.mood == t.mood
    requires forall j: nat :: j < |t.at| ==> u.at[j] == t.at[j] || TestsNobody(t.at[j]) || (t.at[j].PostLeft? && u.at[j] == TestRight)
    ensures Served(u)
  {
    forall i: nat | i < |u.at| && u.mood[i] == Hungry ensures HasEatingNeighbour(u, i) || ToBeTested(u, i) {
      assert HasEatingNeighbour(t, i) || ToBeTested(t, i);
      TestedFrame(t, u, i);
    }
  }

  /** One test of k by i: k eats, or needs no test any more. */
  lemma TestServed(t: Table, u: Table, i: nat, k: nat)
    requires Shape(t) && MutexOk(t) && Served(t) && Shape(u) && i < |t.at| && k < |t.at|
    requires (t.at[i] == Hungered && k == i) || (t.at[i] == TestLeft && k == Left(|t.at|, i)) || (t.at[i] == TestRight && k == Right(|t.at|, i))
    requires u == Move(t, i)
    ensures Served(u)
  {
    TestMoods(t, u, i, k);
    forall x: nat | x < |t.at| && u.mood[x] == Hungry ensures HasEatingNeighbour(u, x) || ToBeTested(u, x) {
      assert t.mood[x] == Hungry;
      assert HasEatingNeighbour(t, x) || ToBeTested(t, x);
      TestLeavesRest(t, u.at[i], i, k, x);
      TestServedAt(t, u, i, k, x);
    }
  }

  lemma TestMoods(t: Table, u: Table, i: nat, k: nat)
    requires Shape(t) && i < |t.at| && k < |t.at|
    requires (t.at[i] == Hungered && k == i) || (t.at[i] == TestLeft && k == Left(|t.at|, i)) || (t.at[i] == TestRight && k == Right(|t.at|, i))
    requires u == Move(t, i)
    ensures |u.at| == |t.at| && u.mood == (if MayEat(t, k) then t.mood[k := Eating] else t.mood)
    ensures forall x: nat :: x < |t.at| && u.mood[x] == Hungry ==> t.mood[x] == Hungry
  {
  }

  lemma TestServedAt(t: Table, u: Table, i: nat, k: nat, x: nat)
    requires Shape(t) && Shape(u) && |u.at| == |t.at| && MutexOk(t) && i < |t.at| && k < |t.at| && x < |t.at| && Holding(t.at[i])
    requires u.mood == if MayEat(t, k) then t.mood[k := Eating] else t.mood
    requires (HasEatingNeighbour(t, x) || ToBeTested(t, x)) && u.mood[x] == Hungry
    requires x != k && WillTest(|t.at|, t.at[i], i, x) ==> WillTest(|t.at|, u.at[i], i, x)
    ensures HasEatingNeighbour(u, x) || ToBeTested(u, x)
  {
    if !HasEatingNeighbour(t, x) {
      TestedByHolder(t, i, x);
    }
  }

  /** A test of k leaves the tests of the others to come. */
  lemma TestLeavesRest(t: Table, p: Point, i: nat, k: nat, x: nat)
    requires Shape(t) && i < |t.at| && k < |t.at| && !Blocked(t.at[i])
    requires (t.at[i] == Hungered && k == i) || (t.at[i] == TestLeft && k == Left(|t.at|, i)) || (t.at[i] == TestRight && k == Right(|t.at|, i))
    requires p == Move(t, i).at[i]
    ensures x != k && WillTest(|t.at|, t.at[i], i, x) ==> WillTest(|t.at|, p, i, x)
  {
  }

  /** When i stops eating, its neighbours become the ones to be tested. */
  lemma StopServed(t: Table, i: nat)
    requires Inv(t) && Served(t) && i < |t.at| && t.at[i] == InSecond
    ensures Served(Move(t, i))
  {
    var n, u := |t.at|, Move(t, i);
    forall x: nat | x < n && u.mood[x] == Hungry ensures HasEatingNeighbour(u, x) || ToBeTested(u, x) {
      assert HasEatingNeighbour(t, x) || ToBeTested(t, x);
      TestedByHolder(t, i, x);
      RightOfLeft(n, x, i);
      RightOfLeft(n, i, x);
      if x == Left(n, i) || x == Right(n, i) { assert WillTest(n, u.at[i], i, x); }
    }
  }

  lemma StartServed(t: Table, i: nat)
    requires Inv(t) && Served(t) && i < |t.at| && t.at[i] == InFirst
    ensures Served(Move(t, i))
  {
    var n, u := |t.at|, Move(t, i);
    assert MoodFits(t.at[i], t.mood[i]);
    forall x: nat | x < n && u.mood[x] == Hungry ensures HasEatingNeighbour(u, x) || ToBeTested(u, x) {
      if x == i {
        assert WillTest(n, u.at[i], i, i);
      } else {
        assert HasEatingNeighbour(t, x) || ToBeTested(t, x);
        TestedByHolder(t, i, x);
      }
    }
  }

  lemma MoveKeepsServed(t: Table, i: nat)
    requires Inv(t) && Served(t) && i < |t.at| && !Blocked(t.at[i])
    ensures Inv(Move(t, i)) && Served(Move(t, i))
  {
    MoveKeepsInv(t, i);
    match t.at[i]
    case InFirst => StartServed(t, i);
    case InSecond => StopServed(t, i);
    case Hungered => TestServed(t, Move(t, i), i, i);
    case TestLeft => TestServed(t, Move(t, i), i, Left(|t.at|, i));
    case TestRight => TestServed(t, Move(t, i), i, Right(|t.at|, i));
    case PostOwn => PostServed(t, i, i, Leaving);
    case PostLeft(k) => PostServed(t, i, k, TestRight);
    case PostRight(k) => PostServed(t, i, k, LeavingSecond);
    case Leaving => ReleaseServed(t, i, AskOwn);
    case LeavingSecond => ReleaseServed(t, i, Think);
    case Think | AskFirst | AskOwn | Eat | AskSecond => PlainMoveServed(t, i);
  }

  lemma PlainMoveServed(t: Table, i: nat)
    requires Inv(t) && Served(t) && i < |t.at| && t.at[i] in {Think, AskFirst, AskOwn, Eat, AskSecond} && Shape(Move(t, i))
    ensures Served(Move(t, i))
  {
    assert MoodFits(t.at[i], t.mood[i]);
    UnchangedServed(t, Move(t, i));
  }

  lemma PostServed(t: Table, i: nat, k: nat, p: Point)
    requires Inv(t) && Served(t) && i < |t.at| && k < |t.at| && Pays(i, k, t.at[i], p)
    requires Shape(GoTo(PostTo(t, k), i, p))
    ensures Served(GoTo(PostTo(t, k), i, p))
  {
    PaidTable(t, i, k, p);
    UnchangedServed(t, GoTo(PostTo(t, k), i, p));
  }

  lemma ReleaseServed(t: Table, i: nat, p: Point)
    requires Inv(t) && Served(t) && i < |t.at| && (t.at[i] == Leaving || t.at[i] == LeavingSecond) && Shape(GoTo(PostMutex(t), i, p))
    ensures Served(GoTo(PostMutex(t), i, p))
  {
    HeadQueued(t, i);
    HandedTable(t, i, p);
    UnchangedServed(t, GoTo(PostMutex(t), i, p));
  }

  lemma {:induction false} FixedRunServed(t: Table, acts: seq<Act>, u: Table)
    requires Inv(t) && Served(t) && Reaches(t, acts, u)
    requires forall i :: 0 <= i < |acts| ==> acts[i].Go?
    ensures Inv(u) && Served(u)
    decreases |acts|
  {
    if acts != [] {
      assert acts[0].Go?;
      MoveKeepsServed(t, acts[0].i);
      FixedRunServed(Move(t, acts[0].i), acts[1..], u);
    }
  }

  /** n philosophers who have all just joined. */
  function Seated(n: nat): (t: Table)
    requires n <= MAX_PHILOSOPHERS
    ensures |t.at| == n && |t.mood| == n && |t.own| == n
  {
    if n == 0 then Empty() else Add(Seated(n - 1))
  }

  lemma {:induction false} SeatedInv(n: nat)
    requires n <= MAX_PHILOSOPHERS
    ensures Inv(Seated(n)) && forall i :: 0 <= i < n ==> Seated(n).mood[i] == Thinking
  {
    if n > 0 {
      SeatedInv(n - 1);
      AddKeepsInv(Seated(n - 1));
    }
  }

  /** With a fixed number of philosophers: whenever the mutex is free, whoever is hungry has an eating neighbour. */
  lemma HungryWaitsForEater(n: nat, acts: seq<Act>, t: Table, i: nat)
    requires n <= MAX_PHILOSOPHERS && Reaches(Seated(n), acts, t) && forall j :: 0 <= j < |acts| ==> acts[j].Go?
    requires Shape(t) && i < |t.at| && t.mutex.value > 0 && t.mood[i] == Hungry
    ensures HasEatingNeighbour(t, i)
  {
    SeatedInv(n);
    FixedRunServed(Seated(n), acts, t);
    NoTestsWhenFree(t, i);
  }

  /** With the mutex free nobody queues for it, and nobody who was allowed to eat is blocked. */
  lemma NobodyQueuedWhenFree(t: Table, i: nat)
    requires Inv(t) && t.mutex.value > 0 && i < |t.at|
    ensures !Queueing(t.at[i]) && (t.mood[i] == Eating ==> !Blocked(t.at[i])) && !Owed(t, i)
  {
    assert MoodFits(t.at[i], t.mood[i]) && TokenOk(t, i);
    NobodyHoldsWhenFree(t);
  }

  /** The private semaphore of i holds a token exactly while i, allowed to eat and posted, has not passed its wait. */
  lemma TokenMeansMayEat(acts: seq<Act>, t: Table, i: nat)
    requires Reaches(Empty(), acts, t) && Shape(t) && i < |t.at|
    ensures t.own[i].value == 0 || t.own[i].value == 1
    ensures t.own[i].value == 1 <==> t.mood[i] == Eating && (t.at[i] == Leaving || t.at[i] == AskOwn) && !Owed(t, i)
    ensures t.at[i] == Eat ==> t.mood[i] == Eating
  {
    ReachesInv(Empty(), acts, t);
    assert MoodFits(t.at[i], t.mood[i]) && TokenOk(t, i);
  }

  lemma NoTestsWhenFree(t: Table, i: nat)
    requires MutexOk(t) && t.mutex.value > 0
    ensures !ToBeTested(t, i)
  {
    NobodyHoldsWhenFree(t);
  }

  lemma NobodyHoldsWhenFree(t: Table)
    requires MutexOk(t) && t.mutex.value > 0
    ensures forall j :: 0 <= j < |t.at| ==> !Holding(t.at[j])
  {
    assert !SomeoneHolds(t);
  }
}
