/**
 The circular queue of waiting processes inside a semaphore (synchro.c), with removal
 from the middle, proved against sequences.
 */
module WaitQueue {
  const CAPACITY := 64

  /** The array read from position r on, going round. */
  function Rotated(a: seq<int>, r: nat): seq<int>
    requires r <= |a|
  {
    a[r..] + a[..r]
  }

  function RemoveFirst(s: seq<int>, x: int): seq<int> {
    if s == [] then []
    else if s[0] == x then s[1..]
    else [s[0]] + RemoveFirst(s[1..], x)
  }

  /** The shifting loop does not run when the element found is at the write position, which is the head of a full queue. */
  predicate LoopSkipped(s: seq<int>, x: int) {
    |s| == CAPACITY && s[0] == x
  }

  /** What remove_process_from_queue leaves. */
  function Dequeued(s: seq<int>, x: int): seq<int> {
    if LoopSkipped(s, x) then s[..|s| - 1] else RemoveFirst(s, x)
  }

  lemma {:induction false} RemoveFirstAt(s: seq<int>, i: nat)
    requires i < |s| && s[i] !in s[..i]
    ensures RemoveFirst(s, s[i]) == s[..i] + s[i + 1..]
  {
    if i > 0 {
      assert s[..i][0] == s[0];
      forall j | 0 <= j < i - 1 ensures s[1..][j] != s[i] {
        assert s[..i][j + 1] == s[j + 1];
      }
      RemoveFirstAt(s[1..], i - 1);
    }
  }

  lemma {:induction false} RemoveFirstAbsent(s: seq<int>, x: int)
    requires x !in s
    ensures RemoveFirst(s, x) == s
  {
    if s != [] {
      RemoveFirstAbsent(s[1..], x);
    }
  }

  lemma DequeuedAt(s: seq<int>, j: nat)
    requires j < |s| <= CAPACITY && s[j] !in s[..j]
    ensures Dequeued(s, s[j]) == if |s| == CAPACITY && j == 0 then s[..|s| - 1] else s[..j] + s[j + 1..]
  {
    RemoveFirstAt(s, j);
    assert j > 0 ==> s[0] == s[..j][0];
  }

  /** The removal is right exactly when the queue is not full with the wanted element in front, or holds nothing else. */
  lemma DequeuedRightIff(s: seq<int>, x: int)
    requires |s| <= CAPACITY
    ensures Dequeued(s, x) == RemoveFirst(s, x) <==> (!LoopSkipped(s, x) || forall i :: 0 <= i < |s| ==> s[i] == x)
  {
    if LoopSkipped(s, x) && s[..|s| - 1] == s[1..] {
      AllEqual(s, x, |s| - 1);
    }
  }

  lemma {:induction false} AllEqual(s: seq<int>, x: int, n: nat)
    requires s != [] && s[0] == x && s[..|s| - 1] == s[1..] && n < |s|
    ensures forall i :: 0 <= i <= n ==> s[i] == x
    decreases n
  {
    if n > 0 {
      AllEqual(s, x, n - 1);
      assert s[..|s| - 1][n - 1] == s[1..][n - 1];
    }
  }

  function Wrap(n: nat): (r: nat)
    requires n < 2 * CAPACITY
    ensures r < CAPACITY && r == n % CAPACITY
  {
    if n < CAPACITY then n else n - CAPACITY
  }

  lemma RotatedAt(a: seq<int>, r: nat, i: nat)
    requires |a| == CAPACITY && r < CAPACITY && i < CAPACITY
    ensures Rotated(a, r)[i] == a[Wrap(r + i)]
  {
  }

  lemma RotatedUpdate(a: seq<int>, r: nat, i: nat, x: int)
    requires |a| == CAPACITY && r < CAPACITY && i < CAPACITY
    ensures Rotated(a[Wrap(r + i) := x], r) == Rotated(a, r)[i := x]
  {
  }

  /** What the shifting loop does to n queued elements, from position j on. */
  predicate ShiftedFrom(a: seq<int>, b: seq<int>, n: nat, j: nat)
    requires |a| == |b| == CAPACITY && j < n <= CAPACITY
  {
    if n == CAPACITY && j == 0 then b == a
    else forall i {:trigger b[i]} :: 0 <= i < n - 1 ==> b[i] == (if i < j then a[i] else a[i + 1])
  }

  /** The loop has shifted positions j to o - 1. */
  predicate ShiftedUpTo(a: seq<int>, b: seq<int>, j: nat, o: nat)
    requires |a| == |b| == CAPACITY
  {
    && (forall i :: 0 <= i < CAPACITY && (i < j || i >= o) ==> b[i] == a[i])
    && (forall i :: j <= i < o && i + 1 < CAPACITY ==> b[i] == a[i + 1])
  }

  lemma ShiftStep(a: seq<int>, b: seq<int>, c: seq<int>, j: nat, o: nat)
    requires |a| == |b| == |c| == CAPACITY && j <= o < CAPACITY && ShiftedUpTo(a, b, j, o)
    requires c == b[o := c[o]] && (o + 1 < CAPACITY ==> c[o] == b[o + 1])
    ensures ShiftedUpTo(a, c, j, o + 1)
  {
  }

  lemma ShiftResult(a: seq<int>, b: seq<int>, n: nat, j: nat)
    requires |a| == |b| == CAPACITY && j < n <= CAPACITY && a[j] !in a[..n][..j] && ShiftedFrom(a, b, n, j)
    ensures b[..n - 1] == Dequeued(a[..n], a[j])
  {
    var s := a[..n];
    assert s[j] == a[j];
    DequeuedAt(s, j);
    if !(n == CAPACITY && j == 0) {
      var r := s[..j] + s[j + 1..];
      forall i | 0 <= i < n - 1 ensures b[i] == r[i] {
        assert b[i] == if i < j then a[i] else a[i + 1];
      }
      assert b[..n - 1] == r;
    }
  }

  lemma StepBack(r: nat, n: nat)
    requires r < CAPACITY && 1 <= n <= CAPACITY
    ensures (Wrap(r + n) + CAPACITY - 1) % CAPACITY == Wrap(r + n - 1)
  {
  }

  lemma DequeuedAbsent(s: seq<int>, x: int)
    requires x !in s
    ensures Dequeued(s, x) == s
  {
    RemoveFirstAbsent(s, x);
  }

  lemma RotateOne(a: seq<int>, r: nat)
    requires |a| == CAPACITY && r < CAPACITY
    ensures Rotated(a, Wrap(r + 1)) == Rotated(a, r)[1..] + [a[r]]
  {
  }

  class Ring {
    const v: array<int>
    var readIndex: nat
    var writeIndex: nat
    var size: nat

    ghost predicate Valid()
      reads this
    {
      && v.Length == CAPACITY && readIndex < CAPACITY && size <= CAPACITY
      && writeIndex == Wrap(readIndex + size)
    }

    ghost function Contents(): (s: seq<int>)
      reads this, v
      requires Valid()
      ensures |s| == size
    {
      Rotated(v[..], readIndex)[..size]
    }

    constructor ()
      ensures Valid() && Contents() == [] && fresh(v)
    {
      v := new int[CAPACITY];
      readIndex, writeIndex, size := 0, 0, 0;
    }

    method Pop() returns (pid: int)
      requires Valid()
      modifies this`readIndex, this`size
      ensures Valid()
      ensures if old(Contents()) == [] then pid == -1 && Contents() == []
              else pid == old(Contents())[0] && Contents() == old(Contents())[1..]
    {
      if size == 0 { return -1; }
      RotatedAt(v[..], readIndex, 0);
      RotateOne(v[..], readIndex);
      pid := v[readIndex];
      readIndex := (readIndex + 1) % CAPACITY;
      size := size - 1;
    }

    method Add(pid: int) returns (ok: bool)
      requires Valid()
      modifies this`writeIndex, this`size, v
      ensures Valid() && ok == (|old(Contents())| < CAPACITY)
      ensures Contents() == if ok then old(Contents()) + [pid] else old(Contents())
    {
      if size >= CAPACITY { return false; }
      RotatedUpdate(v[..], readIndex, size, pid);
      v[writeIndex] := pid;
      writeIndex := (writeIndex + 1) % CAPACITY;
      size := size + 1;
      ok := true;
      assert v[..] == old(v[..])[old(writeIndex) := pid];
    }

    /** The search loop: the distance from the read position, or size when absent. */
    method Find(pid: int) returns (j: nat)
      requires Valid()
      ensures j <= size && pid !in Contents()[..j] && (j < size ==> Contents()[j] == pid)
    {
      var i := readIndex;
      j := 0;
      while j < size
        invariant 0 <= j <= size && i == Wrap(readIndex + j)
        invariant pid !in Contents()[..j]
      {
        RotatedAt(v[..], readIndex, j);
        if v[i] == pid { return; }
        i := (i + 1) % CAPACITY;
        j := j + 1;
        assert Contents()[..j] == Contents()[..j - 1] + [Contents()[j - 1]];
      }
    }

    method RemoveProcess(pid: int) returns (ok: bool)
      requires Valid()
      modifies this`writeIndex, this`size, v
      ensures Valid() && ok == (pid in old(Contents()))
      ensures Contents() == Dequeued(old(Contents()), pid)
    {
      ghost var s := Contents();
      var j := Find(pid);
      if j == size {
        assert s[..j] == s;
        DequeuedAbsent(s, pid);
        return false;
      }
      ghost var a := Rotated(v[..], readIndex);
      var found := (readIndex + j) % CAPACITY;
      ghost var b := Shift(found, j);
      ShiftResult(a, b, size, j);
      StepBack(readIndex, size);
      writeIndex := (writeIndex + CAPACITY - 1) % CAPACITY;
      size := size - 1;
      ok := true;
    }

    /** v[k] = v[next] */
    method CopyNext(k: nat, ghost o: nat, ghost b: seq<int>) returns (next: nat, ghost b': seq<int>)
      requires Valid() && o < CAPACITY && k == Wrap(readIndex + o) && b == Rotated(v[..], readIndex)
      modifies v
      ensures next == Wrap(readIndex + o + 1)
      ensures b' == Rotated(v[..], readIndex) && |b'| == CAPACITY
      ensures b' == b[o := b'[o]] && (o + 1 < CAPACITY ==> b'[o] == b[o + 1])
    {
      next := (k + 1) % CAPACITY;
      if o + 1 < CAPACITY { RotatedAt(v[..], readIndex, o + 1); }
      RotatedUpdate(v[..], readIndex, o, v[next]);
      b' := b[o := v[next]];
      ghost var before := v[..];
      v[k] := v[next];
      assert v[..] == before[k := before[next]];
    }

    /** The shifting loop, from the element found up to the write position. */
    method Shift(found: nat, ghost j: nat) returns (ghost b: seq<int>)
      requires Valid() && j < size && found == Wrap(readIndex + j)
      modifies v
      ensures b == Rotated(v[..], readIndex) && |b| == CAPACITY
      ensures ShiftedFrom(Rotated(old(v[..]), readIndex), b, size, j)
    {
      ghost var a := Rotated(v[..], readIndex);
      b := a;
      var k := found;
      ghost var o := j;
      while k != writeIndex
        invariant j <= o <= size && k == Wrap(readIndex + o)
        invariant size == CAPACITY && j == 0 ==> o == 0 && b == a
        invariant b == Rotated(v[..], readIndex) && |b| == CAPACITY
        invariant ShiftedUpTo(a, b, j, o)
        decreases size - o
      {
        ghost var c;
        k, c := CopyNext(k, o, b);
        ShiftStep(a, b, c, j, o);
        b := c;
        o := o + 1;
      }
    }
  }
}
