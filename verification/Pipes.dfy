/**
 Pipes (pipes.c): a circular buffer of bytes between two semaphores. A wait that blocks
 is three steps: the process is queued, a post grants it, and later it resumes and moves
 its byte. Readers, writers and kills interleave freely; a kill that is held up first only
 cuts the process out of the queues.
 */
module Pipes {
  import opened KernelModel
  import opened WaitQueue
  import opened SemaphoreModel

  const PIPE_SIZE := 1024

  type Byte = b: int | -128 <= b < 128 witness 0

  /**
   buffer to size are the fields of the pipe; w and r are its semaphores. Writers and readers hold the
   processes granted but not yet resumed; put and taken are the bytes moved so far; lostW and lostR count
   grants whose process was killed before it resumed.
   */
  datatype Pipe = Pipe(
    buffer: seq<Byte>, readPos: nat, writePos: nat, size: int, w: Sem, r: Sem,
    writers: set<int>, readers: set<int>, put: seq<Byte>, taken: seq<Byte>, lostW: nat, lostR: nat)

  datatype Step =
    | Write(pid: int, b: Byte)
    | ResumeWrite(pid: int, b: Byte)
    | Read(pid: int)
    | ResumeRead(pid: int)
    | Kill(pid: int)
    | Cut(pid: int)

  function Created(buffer: seq<Byte>): Pipe {
    Pipe(buffer, 0, 0, 0, Sem(PIPE_SIZE, 1, []), Sem(0, 1, []), {}, {}, [], [], 0, 0)
  }

  predicate Positions(p: Pipe) {
    |p.buffer| == PIPE_SIZE && p.readPos < PIPE_SIZE && p.writePos < PIPE_SIZE
  }

  /** The byte goes to the write position; nothing in the code checks for room. */
  function PutByte(p: Pipe, b: Byte): Pipe
    requires Positions(p)
  {
    p.(buffer := p.buffer[p.writePos := b], writePos := (p.writePos + 1) % PIPE_SIZE, size := p.size + 1,
       put := p.put + [b])
  }

  function TakeByte(p: Pipe): Pipe
    requires Positions(p)
  {
    p.(readPos := (p.readPos + 1) % PIPE_SIZE, size := p.size - 1, taken := p.taken + [p.buffer[p.readPos]])
  }

  function PostReader(p: Pipe): Pipe {
    var (sem, pid) := Post(p.r);
    if p.r.queue != [] then p.(r := sem, readers := p.readers + {pid}) else p.(r := sem)
  }

  function PostWriter(p: Pipe): Pipe {
    var (sem, pid) := Post(p.w);
    if p.w.queue != [] then p.(w := sem, writers := p.writers + {pid}) else p.(w := sem)
  }

  function Apply(p: Pipe, s: Step): (q: Pipe)
    requires Positions(p)
    ensures Positions(q)
  {
    match s
    case Write(pid, b) =>
      (var (sem, o) := Wait(p.w, pid);
       if o == Passed then PostReader(PutByte(p.(w := sem), b)) else p.(w := sem))
    case ResumeWrite(pid, b) => PostReader(PutByte(p.(writers := p.writers - {pid}), b))
    case Read(pid) =>
      (var (sem, o) := Wait(p.r, pid);
       if o == Passed then PostWriter(TakeByte(p.(r := sem))) else p.(r := sem))
    case ResumeRead(pid) => PostWriter(TakeByte(p.(readers := p.readers - {pid})))
    case Kill(pid) =>
      p.(w := Drop(p.w, pid), r := Drop(p.r, pid), writers := p.writers - {pid}, readers := p.readers - {pid},
         lostW := p.lostW + (if pid in p.writers then 1 else 0), lostR := p.lostR + (if pid in p.readers then 1 else 0))
    case Cut(pid) => p.(w := Drop(p.w, pid), r := Drop(p.r, pid))
  }

  /** Neither queued nor granted: free to start a transfer. */
  predicate Idle(p: Pipe, pid: int) {
    pid !in p.w.queue && pid !in p.r.queue && pid !in p.writers && pid !in p.readers
  }

  /** Init never has to wait at a pipe; a process resumes only after it was granted. */
  predicate Enabled(p: Pipe, s: Step) {
    match s
    case Write(pid, _) => p.w.value > 0 || (1 <= pid < MAX_PROCESSES && Idle(p, pid))
    case Read(pid) => p.r.value > 0 || (1 <= pid < MAX_PROCESSES && Idle(p, pid))
    case ResumeWrite(pid, _) => pid in p.writers
    case ResumeRead(pid) => pid in p.readers
    case Kill(_) => true
    case Cut(_) => true
  }

  // ----- the invariant -----

  function Turned(a: seq<Byte>, r: nat): seq<Byte>
    requires r <= |a|
  {
    a[r..] + a[..r]
  }

  /** The bytes in the pipe, oldest first. */
  function Contents(p: Pipe): seq<Byte>
    requires Positions(p) && 0 <= p.size <= PIPE_SIZE
  {
    Turned(p.buffer, p.readPos)[..p.size]
  }

  function Around(n: nat): (r: nat)
    requires n < 2 * PIPE_SIZE
    ensures r < PIPE_SIZE
  {
    if n < PIPE_SIZE then n else n - PIPE_SIZE
  }

  /** What was put is what was taken followed by what is in the pipe. */
  predicate Stream(p: Pipe) {
    && Positions(p) && 0 <= p.size <= PIPE_SIZE && p.writePos == Around(p.readPos + p.size)
    && p.put == p.taken + Contents(p)
  }

  predicate Pids(q: seq<int>) {
    NoRepeats(q) && forall x :: x in q ==> 1 <= x < MAX_PROCESSES
  }

  /** Each process is in at most one of the two queues and the two granted sets. */
  predicate Apart(p: Pipe) {
    && Pids(p.w.queue) && Pids(p.r.queue)
    && (forall x :: x in p.w.queue ==> x !in p.r.queue && x !in p.writers && x !in p.readers)
    && (forall x :: x in p.r.queue ==> x !in p.writers && x !in p.readers)
    && (forall x :: x in p.writers ==> 1 <= x < MAX_PROCESSES && x !in p.readers)
    && (forall x :: x in p.readers ==> 1 <= x < MAX_PROCESSES)
  }

  /** Every free place is promised to one unit of w, one granted writer or one lost grant; owed more are due. */
  predicate Places(p: Pipe, owed: nat) {
    && p.w.value >= 0 && p.w.value + |p.writers| + p.lostW + owed == PIPE_SIZE - p.size
    && (p.w.value > 0 ==> p.w.queue == [])
  }

  /** Every byte in the pipe is promised likewise. */
  predicate Bytes(p: Pipe, owed: nat) {
    && p.r.value >= 0 && p.r.value + |p.readers| + p.lostR + owed == p.size
    && (p.r.value > 0 ==> p.r.queue == [])
  }

  predicate Inv(p: Pipe) {
    Stream(p) && Apart(p) && Places(p, 0) && Bytes(p, 0)
  }

  // ----- bytes -----

  lemma PutStream(p: Pipe, b: Byte)
    requires Stream(p) && p.size < PIPE_SIZE
    ensures Stream(PutByte(p, b))
  {
    var q := PutByte(p, b);
    assert Turned(q.buffer, q.readPos) == Turned(p.buffer, p.readPos)[p.size := b];
    assert Contents(q) == Contents(p) + [b];
    assert q.put == q.taken + Contents(q);
  }

  lemma TurnedOn(a: seq<Byte>, r: nat)
    requires |a| == PIPE_SIZE && r < PIPE_SIZE
    ensures (r + 1) % PIPE_SIZE == Around(r + 1)
    ensures var t := Turned(a, r); t[0] == a[r] && Turned(a, Around(r + 1)) == t[1..] + [t[0]]
  {
  }

  lemma FrontOff(t: seq<Byte>, n: nat)
    requires 0 < n <= |t|
    ensures t[..n] == [t[0]] + (t[1..] + [t[0]])[..n - 1]
  {
  }

  lemma TakeStream(p: Pipe)
    requires Stream(p) && p.size > 0
    ensures Stream(TakeByte(p)) && TakeByte(p).taken == p.taken + [Contents(p)[0]]
  {
    var q := TakeByte(p);
    TurnedOn(p.buffer, p.readPos);
    FrontOff(Turned(p.buffer, p.readPos), p.size);
    assert p.taken + Contents(p) == p.taken + [Contents(p)[0]] + Contents(q);
    assert q.put == q.taken + Contents(q);
  }

  // ----- queues and grants -----

  lemma ShortQueues(p: Pipe)
    requires Apart(p)
    ensures |p.w.queue| < CAPACITY && |p.r.queue| < CAPACITY
  {
    Pigeonhole(p.w.queue, 1, MAX_PROCESSES - 1);
    Pigeonhole(p.r.queue, 1, MAX_PROCESSES - 1);
  }

  lemma SomeMember<T>(s: set<T>) returns (x: T)
    requires |s| != 0
    ensures x in s
  {
    x :| x in s;
  }

  lemma {:induction false} FewInSet(s: set<int>, n: nat)
    requires forall x :: x in s ==> 1 <= x <= n
    ensures |s| <= n
    decreases n
  {
    if |s| != 0 {
      var x := SomeMember(s);
      FewInSet(s - {n}, n - 1);
    }
  }

  lemma HeadLeaves(q: seq<int>)
    requires NoRepeats(q) && q != []
    ensures q[0] in q && NoRepeats(q[1..]) && forall x :: x in q[1..] <==> x in q && x != q[0]
  {
    WithoutMembers(q, 0);
    assert Without(q, 0) == q[1..];
  }

  lemma PostReaderKeeps(p: Pipe)
    requires Stream(p) && Apart(p) && Places(p, 0) && Bytes(p, 1)
    ensures Inv(PostReader(p))
  {
    if p.r.queue != [] {
      HeadLeaves(p.r.queue);
    }
  }

  lemma PostWriterKeeps(p: Pipe)
    requires Stream(p) && Apart(p) && Places(p, 1) && Bytes(p, 0)
    ensures Inv(PostWriter(p))
  {
    if p.w.queue != [] {
      HeadLeaves(p.w.queue);
    }
  }

  lemma KillKeeps(p: Pipe, pid: int)
    requires Inv(p)
    ensures Inv(Apply(p, Kill(pid)))
  {
    ShortQueues(p);
    DropEffect(p.w, pid);
    DropEffect(p.r, pid);
  }

  lemma CutKeeps(p: Pipe, pid: int)
    requires Inv(p)
    ensures Inv(Apply(p, Cut(pid)))
  {
    ShortQueues(p);
    DropEffect(p.w, pid);
    DropEffect(p.r, pid);
  }

  /** Whoever moves a byte finds room or a byte, so no put overruns and no take underruns. */
  predicate MovesSafely(p: Pipe, s: Step) {
    match s
    case Write(_, _) => p.w.value > 0 ==> p.size < PIPE_SIZE
    case ResumeWrite(_, _) => p.size < PIPE_SIZE
    case Read(_) => p.r.value > 0 ==> p.size > 0
    case ResumeRead(_) => p.size > 0
    case Kill(_) => true
    case Cut(_) => true
  }

  lemma StepSafe(p: Pipe, s: Step)
    requires Inv(p) && Enabled(p, s)
    ensures MovesSafely(p, s)
  {
    match s
    case ResumeWrite(pid, _) => assert p.writers == (p.writers - {pid}) + {pid};
    case ResumeRead(pid) => assert p.readers == (p.readers - {pid}) + {pid};
    case _ =>
  }

  lemma WriteKeeps(p: Pipe, pid: int, b: Byte)
    requires Inv(p) && Enabled(p, Write(pid, b))
    ensures Inv(Apply(p, Write(pid, b)))
  {
    if p.w.value > 0 {
      var q := p.(w := p.w.(value := p.w.value - 1));
      PutStream(q, b);
      PostReaderKeeps(PutByte(q, b));
    } else {
      ShortQueues(p);
      JoinWriters(p, pid);
    }
  }

  lemma JoinWriters(p: Pipe, pid: int)
    requires Inv(p) && p.w.value == 0 && 1 <= pid < MAX_PROCESSES && Idle(p, pid)
    ensures Inv(p.(w := p.w.(queue := p.w.queue + [pid])))
  {
  }

  lemma JoinReaders(p: Pipe, pid: int)
    requires Inv(p) && p.r.value == 0 && 1 <= pid < MAX_PROCESSES && Idle(p, pid)
    ensures Inv(p.(r := p.r.(queue := p.r.queue + [pid])))
  {
  }

  lemma ResumeWriteKeeps(p: Pipe, pid: int, b: Byte)
    requires Inv(p) && pid in p.writers
    ensures Inv(Apply(p, ResumeWrite(pid, b)))
  {
    var q := p.(writers := p.writers - {pid});
    PutStream(q, b);
    PostReaderKeeps(PutByte(q, b));
  }

  lemma ReadKeeps(p: Pipe, pid: int)
    requires Inv(p) && Enabled(p, Read(pid))
    ensures Inv(Apply(p, Read(pid)))
  {
    if p.r.value > 0 {
      var q := p.(r := p.r.(value := p.r.value - 1));
      TakeStream(q);
      PostWriterKeeps(TakeByte(q));
    } else {
      ShortQueues(p);
      JoinReaders(p, pid);
    }
  }

  lemma ResumeReadKeeps(p: Pipe, pid: int)
    requires Inv(p) && pid in p.readers
    ensures Inv(Apply(p, ResumeRead(pid)))
  {
    var q := p.(readers := p.readers - {pid});
    TakeStream(q);
    PostWriterKeeps(TakeByte(q));
  }

  lemma ApplyKeepsInv(p: Pipe, s: Step)
    requires Inv(p) && Enabled(p, s)
    ensures Inv(Apply(p, s))
  {
    match s
    case Write(pid, b) => WriteKeeps(p, pid, b);
    case ResumeWrite(pid, b) => ResumeWriteKeeps(p, pid, b);
    case Read(pid) => ReadKeeps(p, pid);
    case ResumeRead(pid) => ResumeReadKeeps(p, pid);
    case Kill(pid) => KillKeeps(p, pid);
    case Cut(pid) => CutKeeps(p, pid);
  }

  // ----- runs -----

  ghost predicate Reaches(p: Pipe, steps: seq<Step>, q: Pipe)
    requires Positions(p)
    decreases |steps|
  {
    if steps == [] then q == p
    else Enabled(p, steps[0]) && Reaches(Apply(p, steps[0]), steps[1..], q)
  }

  lemma {:induction false} ReachesInv(p: Pipe, steps: seq<Step>, q: Pipe)
    requires Inv(p) && Reaches(p, steps, q)
    ensures Inv(q)
    decreases |steps|
  {
    if steps != [] {
      ApplyKeepsInv(p, steps[0]);
      ReachesInv(Apply(p, steps[0]), steps[1..], q);
    }
  }

  /** Kills of processes that were granted but had not resumed. */
  function Losses(p: Pipe): nat {
    p.lostW + p.lostR
  }

  /**
   For any interleaving of readers, writers and kills: the bytes read are a prefix of the bytes written, what
   is missing is in the pipe, no transfer overruns or underruns, and value units and grants account for
   every place and every byte, up to grants lost to kills.
   */
  lemma PipeCorrect(buffer: seq<Byte>, steps: seq<Step>, p: Pipe, s: Step)
    requires |buffer| == PIPE_SIZE && Reaches(Created(buffer), steps, p)
    ensures Positions(p) && 0 <= p.size <= PIPE_SIZE && p.put == p.taken + Contents(p)
    ensures p.w.value + |p.writers| + p.lostW == PIPE_SIZE - p.size
    ensures p.r.value + |p.readers| + p.lostR == p.size
    ensures Enabled(p, s) ==> MovesSafely(p, s)
  {
    CreatedInv(buffer);
    ReachesInv(Created(buffer), steps, p);
    if Enabled(p, s) { StepSafe(p, s); }
  }

  lemma CreatedInv(buffer: seq<Byte>)
    requires |buffer| == PIPE_SIZE
    ensures Inv(Created(buffer))
  {
  }

  // ----- when a pipe stops -----

  /** No step anyone can still make moves a byte, now or later. */
  ghost predicate Stopped(p: Pipe)
    requires Positions(p)
  {
    forall steps, q :: Reaches(p, steps, q) ==> q.put == p.put && q.taken == p.taken
  }

  /** With as many grants lost as the pipe has places, nothing moves and nothing more can be lost. */
  lemma LostStays(p: Pipe, s: Step)
    requires Inv(p) && Losses(p) == PIPE_SIZE && Enabled(p, s)
    ensures var q := Apply(p, s); Losses(q) == PIPE_SIZE && q.put == p.put && q.taken == p.taken
  {
    ApplyKeepsInv(p, s);
    assert |p.writers| == 0 && |p.readers| == 0;
  }

  lemma {:induction false} LostForever(p: Pipe, steps: seq<Step>, q: Pipe)
    requires Inv(p) && Losses(p) == PIPE_SIZE && Reaches(p, steps, q)
    ensures q.put == p.put && q.taken == p.taken
    decreases |steps|
  {
    if steps != [] {
      LostStays(p, steps[0]);
      ApplyKeepsInv(p, steps[0]);
      LostForever(Apply(p, steps[0]), steps[1..], q);
    }
  }

  lemma ReachesOne(p: Pipe, s: Step)
    requires Positions(p) && Enabled(p, s)
    ensures Reaches(p, [s], Apply(p, s))
  {
    assert [s][1..] == [];
  }

  lemma {:induction false} ReachesAppend(p: Pipe, steps: seq<Step>, q: Pipe, s: Step)
    requires Positions(p) && Reaches(p, steps, q) && Positions(q) && Enabled(q, s)
    ensures Reaches(p, steps + [s], Apply(q, s))
    decreases |steps|
  {
    if steps == [] {
      ReachesOne(p, s);
    } else {
      assert (steps + [s])[1..] == steps[1..] + [s];
      ReachesAppend(Apply(p, steps[0]), steps[1..], q, s);
    }
  }

  /** While a place or a byte is not accounted for by a lost grant, somebody can move a byte, if need be in a process started anew. */
  lemma CanMove(p: Pipe) returns (steps: seq<Step>, q: Pipe)
    requires Inv(p) && Losses(p) < PIPE_SIZE
    ensures Reaches(p, steps, q) && (|q.put| > |p.put| || |q.taken| > |p.taken|)
  {
    if |p.writers| != 0 {
      var x := SomeMember(p.writers);
      ReachesOne(p, ResumeWrite(x, 0));
      steps, q := [ResumeWrite(x, 0)], Apply(p, ResumeWrite(x, 0));
    } else if |p.readers| != 0 {
      var x := SomeMember(p.readers);
      ReachesOne(p, ResumeRead(x));
      steps, q := [ResumeRead(x)], Apply(p, ResumeRead(x));
    } else {
      KillKeeps(p, 1);
      ReachesOne(p, Kill(1));
      var k := Apply(p, Kill(1));
      KilledIdle(p, 1);
      var s := if p.w.value > 0 then Write(1, 0) else Read(1);
      ReachesAppend(p, [Kill(1)], k, s);
      steps, q := [Kill(1)] + [s], Apply(k, s);
    }
  }

  lemma KilledIdle(p: Pipe, pid: int)
    requires Inv(p)
    ensures Idle(Apply(p, Kill(pid)), pid)
  {
    ShortQueues(p);
    DropEffect(p.w, pid);
    DropEffect(p.r, pid);
  }

  /** A pipe has stopped for good exactly when every one of its places is accounted for by a grant lost to a kill. */
  lemma StoppedIff(buffer: seq<Byte>, steps: seq<Step>, p: Pipe)
    requires |buffer| == PIPE_SIZE && Reaches(Created(buffer), steps, p)
    ensures Positions(p) && (Stopped(p) <==> Losses(p) == PIPE_SIZE)
    ensures p.writers == {} && p.readers == {} ==> (p.w.value == 0 && p.r.value == 0 <==> Losses(p) == PIPE_SIZE)
  {
    CreatedInv(buffer);
    ReachesInv(Created(buffer), steps, p);
    if Losses(p) == PIPE_SIZE {
      forall more, q | Reaches(p, more, q) ensures q.put == p.put && q.taken == p.taken {
        LostForever(p, more, q);
      }
    } else {
      var more, q := CanMove(p);
    }
  }

  /** The pids, of which two are at the heads of the queues, leave room for so many pending grants. */
  lemma BothQueuedNeedsLosses(buffer: seq<Byte>, steps: seq<Step>, p: Pipe)
    requires |buffer| == PIPE_SIZE && Reaches(Created(buffer), steps, p)
    requires p.w.queue != [] && p.r.queue != []
    ensures Losses(p) + |p.writers| + |p.readers| == PIPE_SIZE
    ensures Losses(p) >= PIPE_SIZE - (MAX_PROCESSES - 3)
  {
    CreatedInv(buffer);
    ReachesInv(Created(buffer), steps, p);
    var x, y := p.w.queue[0], p.r.queue[0];
    assert x in p.w.queue && y in p.r.queue;
    var granted := p.writers + p.readers;
    FewInSet(granted + {x, y}, MAX_PROCESSES - 1);
    assert p.writers !! p.readers && x !in granted && y !in granted && x != y;
    assert |granted + {x, y}| == |granted| + 2;
  }

  // ----- runs in which it does stop -----

  /** Nobody queued or granted, no reader lost, w.value and r.value as given. */
  predicate Calm(p: Pipe, free: nat, full: nat) {
    p.w.queue == [] && p.r.queue == [] && p.writers == {} && p.readers == {} && p.w.value == free && p.r.value == full && p.lostR == 0
  }

  lemma {:induction false} Filled(buffer: seq<Byte>, n: nat) returns (steps: seq<Step>, p: Pipe)
    requires |buffer| == PIPE_SIZE && n <= PIPE_SIZE
    ensures Reaches(Created(buffer), steps, p) && Positions(p) && Calm(p, PIPE_SIZE - n, n) && Losses(p) == 0
  {
    if n == 0 {
      steps, p := [], Created(buffer);
    } else {
      steps, p := Filled(buffer, n - 1);
      ReachesAppend(Created(buffer), steps, p, Write(1, 0));
      steps, p := steps + [Write(1, 0)], Apply(p, Write(1, 0));
    }
  }

  /** One writer queued, granted by a read, and killed before it resumes. */
  lemma LoseOne(start: Pipe, steps: seq<Step>, p: Pipe, full: nat) returns (more: seq<Step>, q: Pipe)
    requires Positions(start) && Reaches(start, steps, p) && Positions(p) && Calm(p, 0, full) && full > 0
    ensures Reaches(start, more, q) && Positions(q) && Calm(q, 0, full - 1) && Losses(q) == Losses(p) + 1
  {
    var a := Apply(p, Write(1, 0));
    assert a == p.(w := p.w.(queue := [1]));
    var b := Apply(a, Read(2));
    assert b.writers == {1} && Calm(b.(writers := {}), 0, full - 1);
    var c := Apply(b, Kill(1));
    assert Dequeued([], 1) == [];
    ReachesAppend(start, steps, p, Write(1, 0));
    ReachesAppend(start, steps + [Write(1, 0)], a, Read(2));
    ReachesAppend(start, steps + [Write(1, 0)] + [Read(2)], b, Kill(1));
    more, q := steps + [Write(1, 0)] + [Read(2)] + [Kill(1)], c;
  }

  lemma {:induction false} Drained(buffer: seq<Byte>, n: nat) returns (steps: seq<Step>, p: Pipe)
    requires |buffer| == PIPE_SIZE && n <= PIPE_SIZE
    ensures Reaches(Created(buffer), steps, p) && Positions(p) && Calm(p, 0, PIPE_SIZE - n) && Losses(p) == n
  {
    if n == 0 {
      steps, p := Filled(buffer, PIPE_SIZE);
    } else {
      steps, p := Drained(buffer, n - 1);
      steps, p := LoseOne(Created(buffer), steps, p, PIPE_SIZE - n + 1);
    }
  }

  lemma BothQueue(start: Pipe, steps: seq<Step>, p: Pipe) returns (more: seq<Step>, q: Pipe)
    requires Positions(start) && Reaches(start, steps, p) && Positions(p) && Calm(p, 0, 0)
    ensures Reaches(start, more, q) && q == p.(w := p.w.(queue := [1]), r := p.r.(queue := [2]))
  {
    var a := Apply(p, Write(1, 0));
    assert a == p.(w := p.w.(queue := [1]));
    ReachesAppend(start, steps, p, Write(1, 0));
    ReachesAppend(start, steps + [Write(1, 0)], a, Read(2));
    more, q := steps + [Write(1, 0)] + [Read(2)], Apply(a, Read(2));
  }

  /**
   After 1024 such kills the pipe is empty and stopped: a writer and a reader queue, and neither is ever granted. The
   writers killed write by descriptor; were the pipe their output, each kill would itself have to put a byte.
   */
  lemma PipeStops(buffer: seq<Byte>) returns (steps: seq<Step>, p: Pipe)
    requires |buffer| == PIPE_SIZE
    ensures Reaches(Created(buffer), steps, p) && Positions(p) && Stopped(p)
    ensures p.size == 0 && p.w.queue == [1] && p.r.queue == [2]
  {
    var some, q := Drained(buffer, PIPE_SIZE);
    CreatedInv(buffer);
    ReachesInv(Created(buffer), some, q);
    steps, p := BothQueue(Created(buffer), some, q);
    StoppedIff(buffer, steps, p);
  }

  // ----- the bound on losses is attained -----

  function From(low: int, n: nat): (q: seq<int>)
    ensures |q| == n && forall i :: 0 <= i < n ==> q[i] == low + i
  {
    seq(n, i => low + i)
  }

  /** The state after losses, n queued writers and m of them granted: n - m are still queued. */
  ghost predicate Crowded(p: Pipe, n: nat, m: nat, full: nat) {
    && m <= n && p.w.queue == From(m + 1, n - m) && p.r.queue == [] && p.readers == {}
    && (forall x :: x in p.writers <==> 1 <= x <= m) && p.w.value == 0 && p.r.value == full
  }

  lemma {:induction false} WritersQueue(buffer: seq<Byte>, lost: nat, n: nat) returns (steps: seq<Step>, p: Pipe)
    requires |buffer| == PIPE_SIZE && lost <= PIPE_SIZE && n < MAX_PROCESSES - 1
    ensures Reaches(Created(buffer), steps, p) && Positions(p) && Crowded(p, n, 0, PIPE_SIZE - lost) && Losses(p) == lost
  {
    if n == 0 {
      steps, p := Drained(buffer, lost);
    } else {
      steps, p := WritersQueue(buffer, lost, n - 1);
      ReachesAppend(Created(buffer), steps, p, Write(n, 0));
      assert From(1, n - 1) + [n] == From(1, n);
      steps, p := steps + [Write(n, 0)], Apply(p, Write(n, 0));
    }
  }

  lemma {:induction false} WritersGranted(buffer: seq<Byte>, lost: nat, n: nat, m: nat) returns (steps: seq<Step>, p: Pipe)
    requires |buffer| == PIPE_SIZE && m <= n < MAX_PROCESSES - 1 && lost + m <= PIPE_SIZE
    ensures Reaches(Created(buffer), steps, p) && Positions(p) && Crowded(p, n, m, PIPE_SIZE - lost - m) && Losses(p) == lost
  {
    if m == 0 {
      steps, p := WritersQueue(buffer, lost, n);
    } else {
      steps, p := WritersGranted(buffer, lost, n, m - 1);
      ReachesAppend(Created(buffer), steps, p, Read(MAX_PROCESSES - 1));
      GrantNext(p, n, m, PIPE_SIZE - lost - m);
      steps, p := steps + [Read(MAX_PROCESSES - 1)], Apply(p, Read(MAX_PROCESSES - 1));
    }
  }

  lemma GrantNext(p: Pipe, n: nat, m: nat, full: nat)
    requires Positions(p) && 0 < m <= n < MAX_PROCESSES - 1 && Crowded(p, n, m - 1, full + 1)
    ensures var q := Apply(p, Read(MAX_PROCESSES - 1)); Crowded(q, n, m, full) && Losses(q) == Losses(p)
  {
    assert p.w.queue[1..] == From(m + 1, n - m);
  }

  /** 963 losses can be enough for both queues to be in use: 61 writers are granted, another waits, and so does a reader. */
  lemma BothQueuedAtBound(buffer: seq<Byte>) returns (steps: seq<Step>, p: Pipe)
    requires |buffer| == PIPE_SIZE
    ensures Reaches(Created(buffer), steps, p) && p.w.queue != [] && p.r.queue != []
    ensures Losses(p) == PIPE_SIZE - (MAX_PROCESSES - 3)
  {
    var n, last := MAX_PROCESSES - 3, MAX_PROCESSES - 1;
    var some, q := WritersGranted(buffer, PIPE_SIZE - n, n + 1, n);
    ReachesAppend(Created(buffer), some, q, Read(last));
    steps, p := some + [Read(last)], Apply(q, Read(last));
  }

  /** Writers wait only for room, and readers only for bytes: with no grant lost and none pending, a queue means full or empty. */
  lemma QueuedMeansFullOrEmpty(buffer: seq<Byte>, steps: seq<Step>, p: Pipe)
    requires |buffer| == PIPE_SIZE && Reaches(Created(buffer), steps, p) && Losses(p) == 0
    ensures p.w.queue != [] && p.writers == {} ==> p.size == PIPE_SIZE
    ensures p.r.queue != [] && p.readers == {} ==> p.size == 0
  {
    CreatedInv(buffer);
    ReachesInv(Created(buffer), steps, p);
  }

  // ----- the fields of pipe_t -----

  /** The part of writePipe and readPipe between the two semaphore calls. */
  class PipeBuffer {
    const buffer: array<Byte>
    var readPos: nat
    var writePos: nat
    var size: int

    ghost predicate Valid()
      reads this, buffer
    {
      buffer.Length == PIPE_SIZE && readPos < PIPE_SIZE && writePos < PIPE_SIZE
    }

    /** The fields agree with the model. */
    ghost predicate Shows(p: Pipe)
      reads this, buffer
    {
      Valid() && p.buffer == buffer[..] && p.readPos == readPos && p.writePos == writePos && p.size == size
    }

    constructor ()
      ensures Valid() && Shows(Created(buffer[..])) && fresh(buffer)
    {
      buffer := new Byte[PIPE_SIZE];
      readPos, writePos, size := 0, 0, 0;
    }

    method Put(b: Byte, ghost p: Pipe)
      requires Shows(p)
      modifies this`writePos, this`size, buffer
      ensures Shows(PutByte(p, b))
    {
      buffer[writePos] := b;
      writePos := (writePos + 1) % PIPE_SIZE;
      size := size + 1;
    }

    method Take(ghost p: Pipe) returns (b: Byte)
      requires Shows(p)
      modifies this`readPos, this`size
      ensures Shows(TakeByte(p)) && TakeByte(p).taken == p.taken + [b]
    {
      b := buffer[readPos];
      readPos := (readPos + 1) % PIPE_SIZE;
      size := size - 1;
    }
  }
}
