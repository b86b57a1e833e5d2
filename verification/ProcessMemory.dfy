/**
 The memory side of process.c: the blocks createProcess takes from the first-fit heap,
 the pointers it stores in them, and the walk by which destroyProcess gives them back.
 */
module ProcessMemory {
  import opened FirstFitModel
  import opened FirstFitTheorems
  import opened FirstFitHeap

  const PROCESS_SIZE: nat := 136
  const STACK_SIZE: nat := 0x1000
  const POINTER_SIZE: nat := 8
  const STACK_BASE_FIELD := 16
  const ARGV_FIELD := 40

  /** The pointers a process owns: its record, its stack, the argument vector and the argument strings. */
  datatype Image = Image(record: int, stack: int, vector: int, strings: seq<int>)

  datatype Created = Failed | Made(image: Image)

  predicate SizesFit(argv: seq<string>) {
    && VectorSize(argv) < UINT32
    && forall i :: 0 <= i < |argv| ==> |argv[i]| + 1 < UINT32
  }

  // ----- the functions of process.c on layouts -----

  /** Copies of the strings, up to the first that cannot be allocated. */
  function CopyStrings(l: seq<Block>, argv: seq<string>): (r: (seq<Block>, seq<int>))
    requires forall i :: 0 <= i < |argv| ==> |argv[i]| + 1 < UINT32
    ensures |r.1| <= |argv|
    decreases |argv|
  {
    if argv == [] then (l, [])
    else
      var (m, p) := Malloc(l, |argv[0]| + 1);
      if p == NULL then (m, [])
      else
        var (r, ps) := CopyStrings(m, argv[1..]);
        (r, [p] + ps)
  }

  function FreeAll(l: seq<Block>, ps: seq<int>): seq<Block>
    decreases |ps|
  {
    if ps == [] then l else FreeAll(Free(l, ps[0]), ps[1..])
  }

  function VectorSize(argv: seq<string>): nat {
    (|argv| + 1) * POINTER_SIZE
  }

  /** The vector and the copies; the vector is NULL when something could not be allocated. */
  function Duplicate(l: seq<Block>, argv: seq<string>): (r: (seq<Block>, int, seq<int>))
    requires SizesFit(argv)
    ensures r.1 != NULL ==> |r.2| == |argv|
  {
    var (m, v) := Malloc(l, VectorSize(argv));
    if v == NULL then (m, NULL, [])
    else
      var (r, ps) := CopyStrings(m, argv);
      (r, if |ps| < |argv| then NULL else v, ps)
  }

  function WithStack(l: seq<Block>, record: int, stack: int, argv: seq<string>): (seq<Block>, Created)
    requires SizesFit(argv)
  {
    var (m, vector, strings) := Duplicate(l, argv);
    if vector == NULL then (FreeAll(m, [stack, record]), Failed)
    else (m, Made(Image(record, stack, vector, strings)))
  }

  function WithRecord(l: seq<Block>, record: int, argv: seq<string>): (seq<Block>, Created)
    requires SizesFit(argv)
  {
    var (m, stack) := Malloc(l, STACK_SIZE);
    if stack == NULL then (Free(m, record), Failed) else WithStack(m, record, stack, argv)
  }

  function AfterCreate(l: seq<Block>, argv: seq<string>): (seq<Block>, Created)
    requires SizesFit(argv)
  {
    var (m, record) := Malloc(l, PROCESS_SIZE);
    if record == NULL then (m, Failed) else WithRecord(m, record, argv)
  }

  function Owned(im: Image): seq<int> {
    im.strings + [im.vector, im.stack, im.record]
  }

  function AfterDestroy(l: seq<Block>, im: Image): seq<Block> {
    FreeAll(l, Owned(im))
  }

  // ----- pointers held -----

  /** The pointers are distinct and each is live. */
  predicate Holds(l: seq<Block>, ps: seq<int>) {
    && (forall i :: 0 <= i < |ps| ==> IsLivePointer(l, ps[i]))
    && (forall i, j :: 0 <= i < j < |ps| ==> ps[i] != ps[j])
  }

  function Without(live: map<nat, nat>, ps: seq<int>): map<nat, nat> {
    map o | o in live && o + HEADER !in ps :: live[o]
  }

  lemma WithoutFirst(live: map<nat, nat>, ps: seq<int>)
    requires ps != []
    ensures Without(Without(live, [ps[0]]), ps[1..]) == Without(live, ps)
  {
    assert ps == [ps[0]] + ps[1..];
  }

  lemma WithoutAdded(before: map<nat, nat>, after: map<nat, nat>, ps: seq<int>, p: nat)
    requires p >= HEADER && p - HEADER !in before && p - HEADER in after
    requires after == before[p - HEADER := after[p - HEADER]]
    ensures Without(after, ps + [p]) == Without(before, ps)
  {
  }

  lemma FreeOneHeld(l: seq<Block>, ps: seq<int>)
    requires Normal(l) && Holds(l, ps) && ps != []
    ensures var m := Free(l, ps[0]);
            Normal(m) && Total(m) == Total(l) && Holds(m, ps[1..]) && Live(m, 0) == Without(Live(l, 0), [ps[0]])
  {
    FreeEffect(l, ps[0]);
    var m := Free(l, ps[0]);
    forall i | 0 <= i < |ps[1..]| ensures IsLivePointer(m, ps[1..][i]) {
      assert IsLivePointer(l, ps[i + 1]) && ps[0] != ps[i + 1];
    }
  }

  lemma {:induction false} FreeAllEffect(l: seq<Block>, ps: seq<int>)
    requires Normal(l) && Holds(l, ps)
    ensures var t := FreeAll(l, ps);
            Normal(t) && Total(t) == Total(l) && Live(t, 0) == Without(Live(l, 0), ps)
    decreases |ps|
  {
    if ps == [] {
      assert Without(Live(l, 0), ps) == Live(l, 0);
    } else {
      FreeOneHeld(l, ps);
      FreeAllEffect(Free(l, ps[0]), ps[1..]);
      WithoutFirst(Live(l, 0), ps);
    }
  }

  /** l was extended to t by allocating exactly ps. */
  ghost predicate Extended(l: seq<Block>, t: seq<Block>, ps: seq<int>) {
    && Normal(t) && Total(t) == Total(l) && Holds(t, ps)
    && Without(Live(t, 0), ps) == Live(l, 0)
  }

  lemma ExtendByMalloc(l: seq<Block>, t: seq<Block>, ps: seq<int>, size: nat)
    requires Extended(l, t, ps) && size < UINT32
    ensures var (u, p) := Malloc(t, size); if p == NULL then u == t else Extended(l, u, ps + [p])
  {
    var (u, p) := Malloc(t, size);
    MallocEffect(t, size);
    if p != NULL {
      HoldsAdded(t, u, ps, p);
      WithoutAdded(Live(t, 0), Live(u, 0), ps, p);
    }
  }

  lemma HoldsAdded(t: seq<Block>, u: seq<Block>, ps: seq<int>, p: int)
    requires Holds(t, ps) && !IsLivePointer(t, p) && IsLivePointer(u, p)
    requires forall o :: o in Live(t, 0) ==> o in Live(u, 0)
    ensures Holds(u, ps + [p])
  {
    var qs := ps + [p];
    forall i | 0 <= i < |qs| ensures IsLivePointer(u, qs[i]) {
      assert i < |ps| ==> IsLivePointer(t, ps[i]);
    }
    forall i | 0 <= i < |ps| ensures ps[i] != p {
      assert IsLivePointer(t, ps[i]);
    }
  }

  lemma {:induction false} ExtendByStrings(l: seq<Block>, t: seq<Block>, ps: seq<int>, argv: seq<string>)
    requires Extended(l, t, ps) && forall i :: 0 <= i < |argv| ==> |argv[i]| + 1 < UINT32
    ensures var (u, qs) := CopyStrings(t, argv); Extended(l, u, ps + qs) && |qs| <= |argv|
    decreases |argv|
  {
    if argv == [] {
      assert ps + [] == ps;
    } else {
      ExtendByMalloc(l, t, ps, |argv[0]| + 1);
      var (m, p) := Malloc(t, |argv[0]| + 1);
      if p == NULL {
        assert ps + [] == ps;
      } else {
        ExtendByStrings(l, m, ps + [p], argv[1..]);
        var qs := CopyStrings(m, argv[1..]).1;
        assert ps + ([p] + qs) == (ps + [p]) + qs;
      }
    }
  }

  /** Giving back what was allocated, in any order, restores the list of headers. */
  lemma FreeAllRestores(l: seq<Block>, t: seq<Block>, ps: seq<int>, qs: seq<int>)
    requires Normal(l) && Extended(l, t, ps)
    requires forall p :: p in qs <==> p in ps
    requires forall i, j :: 0 <= i < j < |qs| ==> qs[i] != qs[j]
    ensures FreeAll(t, qs) == l
  {
    forall i | 0 <= i < |qs| ensures IsLivePointer(t, qs[i]) {
      assert qs[i] in qs;
    }
    FreeAllEffect(t, qs);
    assert Without(Live(t, 0), qs) == Without(Live(t, 0), ps);
    LayoutCanonical(FreeAll(t, qs), l, 0);
  }

  /** Duplicating the arguments adds the vector and the copies made, even when it fails half-way. */
  lemma DuplicateExtends(l: seq<Block>, t: seq<Block>, record: int, stack: int, argv: seq<string>)
    requires Extended(l, t, [record, stack]) && SizesFit(argv)
    ensures var (u, v, ss) := Duplicate(t, argv);
            var w := Malloc(t, VectorSize(argv)).1;
            if w == NULL then u == t && v == NULL
            else Extended(l, u, [record, stack, w] + ss) && v == (if |ss| == |argv| then w else NULL)
  {
    var (m, w) := Malloc(t, VectorSize(argv));
    ExtendByMalloc(l, t, [record, stack], VectorSize(argv));
    if w != NULL {
      assert [record, stack] + [w] == [record, stack, w];
      ExtendByStrings(l, m, [record, stack, w], argv);
    }
  }

  lemma ExtendByRecord(l: seq<Block>)
    requires Normal(l)
    ensures var (m, p) := Malloc(l, PROCESS_SIZE); if p == NULL then m == l else Extended(l, m, [p])
  {
    assert Without(Live(l, 0), []) == Live(l, 0);
    assert Extended(l, l, []);
    ExtendByMalloc(l, l, [], PROCESS_SIZE);
    assert forall p: int :: [] + [p] == [p];
  }

  lemma ExtendByStack(l: seq<Block>, t: seq<Block>, record: int)
    requires Extended(l, t, [record])
    ensures var (m, p) := Malloc(t, STACK_SIZE); if p == NULL then m == t else Extended(l, m, [record, p])
  {
    ExtendByMalloc(l, t, [record], STACK_SIZE);
    assert forall p: int :: [record] + [p] == [record, p];
  }

  lemma CreateExtends(l: seq<Block>, argv: seq<string>)
    requires Normal(l) && SizesFit(argv) && AfterCreate(l, argv).1.Made?
    ensures var (t, made) := AfterCreate(l, argv); var im := made.image;
            Extended(l, t, [im.record, im.stack, im.vector] + im.strings) && |im.strings| == |argv|
  {
    ExtendByRecord(l);
    var (l1, record) := Malloc(l, PROCESS_SIZE);
    ExtendByStack(l, l1, record);
    var (l2, stack) := Malloc(l1, STACK_SIZE);
    DuplicateExtends(l, l2, record, stack, argv);
  }

  /** p is a live block with n bytes at least. */
  predicate HasBytes(l: seq<Block>, p: int, n: nat) {
    IsLivePointer(l, p) && Live(l, 0)[p - HEADER] >= n
  }

  /** An allocation leaves all blocks as they are, and a new one holds what was asked, up to the largest size ALIGN4 can round. */
  lemma MallocHolds(l: seq<Block>, size: nat, p: int, n: nat)
    requires Normal(l) && size < UINT32
    ensures var (t, q) := Malloc(l, size);
            && Normal(t)
            && (HasBytes(l, p, n) ==> HasBytes(t, p, n))
            && (q != NULL && size <= UINT32 - 4 ==> HasBytes(t, q, size))
  {
    MallocEffect(l, size);
    AlignRoundsUpIff(size);
  }

  lemma {:induction false} StringsHold(l: seq<Block>, argv: seq<string>, p: int, n: nat)
    requires Normal(l) && forall i :: 0 <= i < |argv| ==> |argv[i]| + 1 <= UINT32 - 4
    ensures var (u, qs) := CopyStrings(l, argv);
            Normal(u) && (HasBytes(l, p, n) ==> HasBytes(u, p, n)) && AllHave(u, qs, argv)
    decreases |argv|
  {
    if argv != [] {
      var (m, q) := Malloc(l, |argv[0]| + 1);
      MallocHolds(l, |argv[0]| + 1, p, n);
      if q != NULL {
        StringsHold(m, argv[1..], p, n);
        StringsHold(m, argv[1..], q, |argv[0]| + 1);
        var (u, qs) := CopyStrings(m, argv[1..]);
        OneMoreHas(u, qs, argv, q);
      }
    }
  }

  /** Each of these blocks has room for its string and the terminator. */
  predicate AllHave(l: seq<Block>, ps: seq<int>, argv: seq<string>) {
    |ps| <= |argv| && forall i :: 0 <= i < |ps| ==> HasBytes(l, ps[i], |argv[i]| + 1)
  }

  lemma OneMoreHas(l: seq<Block>, ps: seq<int>, argv: seq<string>, p: int)
    requires argv != [] && AllHave(l, ps, argv[1..]) && HasBytes(l, p, |argv[0]| + 1)
    ensures AllHave(l, [p] + ps, argv)
  {
    var qs := [p] + ps;
    forall i | 0 <= i < |qs| ensures HasBytes(l, qs[i], |argv[i]| + 1) {
      if i > 0 {
        assert qs[i] == ps[i - 1] && argv[i] == argv[1..][i - 1];
      }
    }
  }

  /** Record, stack and every string have room for what they hold, and the vector for a pointer to each string and the NULL. */
  lemma CreatedHolds(l: seq<Block>, argv: seq<string>)
    requires Normal(l) && SizesFit(argv) && AfterCreate(l, argv).1.Made?
    requires (|argv| + 1) * POINTER_SIZE <= UINT32 - 4 && forall i :: 0 <= i < |argv| ==> |argv[i]| + 1 <= UINT32 - 4
    ensures var (t, made) := AfterCreate(l, argv); var im := made.image;
            && HasBytes(t, im.record, PROCESS_SIZE) && HasBytes(t, im.stack, STACK_SIZE)
            && HasBytes(t, im.vector, (|argv| + 1) * POINTER_SIZE)
            && |im.strings| == |argv| && AllHave(t, im.strings, argv)
  {
    var (l1, record) := Malloc(l, PROCESS_SIZE);
    MallocHolds(l, PROCESS_SIZE, record, PROCESS_SIZE);
    var (l2, stack) := Malloc(l1, STACK_SIZE);
    MallocHolds(l1, STACK_SIZE, record, PROCESS_SIZE);
    DuplicateHolds(l2, argv, record, PROCESS_SIZE);
    DuplicateHolds(l2, argv, stack, STACK_SIZE);
  }

  lemma DuplicateHolds(l: seq<Block>, argv: seq<string>, p: int, n: nat)
    requires Normal(l) && SizesFit(argv) && Duplicate(l, argv).1 != NULL
    requires (|argv| + 1) * POINTER_SIZE <= UINT32 - 4 && forall i :: 0 <= i < |argv| ==> |argv[i]| + 1 <= UINT32 - 4
    ensures var (t, v, ps) := Duplicate(l, argv);
            && (HasBytes(l, p, n) ==> HasBytes(t, p, n)) && HasBytes(t, v, (|argv| + 1) * POINTER_SIZE)
            && |ps| == |argv| && AllHave(t, ps, argv)
  {
    var (m, v) := Malloc(l, VectorSize(argv));
    MallocHolds(l, VectorSize(argv), p, n);
    StringsHold(m, argv, p, n);
    StringsHold(m, argv, v, (|argv| + 1) * POINTER_SIZE);
  }

  lemma OwnedDistinct(im: Image)
    requires var ps := [im.record, im.stack, im.vector] + im.strings;
             forall i, j :: 0 <= i < j < |ps| ==> ps[i] != ps[j]
    ensures forall i, j :: 0 <= i < j < |Owned(im)| ==> Owned(im)[i] != Owned(im)[j]
    ensures forall p :: p in Owned(im) <==> p in [im.record, im.stack, im.vector] + im.strings
  {
    var ps, n := [im.record, im.stack, im.vector] + im.strings, |im.strings|;
    forall i | 0 <= i < n ensures im.strings[i] == ps[i + 3] == Owned(im)[i] {
    }
    assert Owned(im)[n] == ps[2] && Owned(im)[n + 1] == ps[1] && Owned(im)[n + 2] == ps[0];
    forall p ensures p in Owned(im) <==> p in im.strings || p in [im.record, im.stack, im.vector] {
    }
  }

  /** Destroying a process just created restores the heap exactly, whatever its arguments. */
  lemma DestroyUndoesCreate(l: seq<Block>, argv: seq<string>)
    requires Normal(l) && SizesFit(argv) && AfterCreate(l, argv).1.Made?
    ensures AfterDestroy(AfterCreate(l, argv).0, AfterCreate(l, argv).1.image) == l
  {
    var (t, made) := AfterCreate(l, argv);
    var im := made.image;
    CreateExtends(l, argv);
    OwnedDistinct(im);
    FreeAllRestores(l, t, [im.record, im.stack, im.vector] + im.strings, Owned(im));
  }

  /** However the heap changed meanwhile, destroying a process removes its own blocks and no other. */
  lemma DestroyTakesOnlyItsOwn(l: seq<Block>, im: Image)
    requires Normal(l) && Holds(l, Owned(im))
    ensures Live(AfterDestroy(l, im), 0) == Without(Live(l, 0), Owned(im)) && Normal(AfterDestroy(l, im))
  {
    FreeAllEffect(l, Owned(im));
  }

  // ----- failure -----

  predicate VectorAllocated(l: seq<Block>, argv: seq<string>)
    requires SizesFit(argv)
  {
    var (l1, record) := Malloc(l, PROCESS_SIZE);
    record != NULL &&
    var (l2, stack) := Malloc(l1, STACK_SIZE);
    stack != NULL && Malloc(l2, VectorSize(argv)).1 != NULL
  }

  /** A failed creation gives everything back, except when it fails on one of the argument strings. */
  lemma FailureRestoresIff(l: seq<Block>, argv: seq<string>)
    requires Normal(l) && SizesFit(argv) && AfterCreate(l, argv).1.Failed?
    ensures AfterCreate(l, argv).0 == l <==> !VectorAllocated(l, argv)
  {
    ExtendByRecord(l);
    var (l1, record) := Malloc(l, PROCESS_SIZE);
    if record != NULL {
      ExtendByStack(l, l1, record);
      var (l2, stack) := Malloc(l1, STACK_SIZE);
      if stack == NULL {
        FreeUndoesMalloc(l, PROCESS_SIZE);
      } else {
        DuplicateFailure(l, l2, record, stack, argv);
      }
    }
  }

  /** A heap in which everything but a one-letter argument fits: the failed creation leaves the vector allocated. */
  lemma LeakHappens() returns (l: seq<Block>, argv: seq<string>)
    ensures Normal(l) && SizesFit(argv) && AfterCreate(l, argv).1 == Failed
    ensures AfterCreate(l, argv).0 != l && VectorAllocated(l, argv)
  {
    argv := ["x"];
    l := [Block(PROCESS_SIZE + HEADER + STACK_SIZE + HEADER + VectorSize(argv), true)];
    var l1, l2, l3 := TightHeap();
    NoneFree(l3, 2);
    StringFails(l2, l3);
    FailureRestoresIff(l, argv);
  }

  /** Record, stack and vector fill the heap. */
  lemma TightHeap() returns (l1: seq<Block>, l2: seq<Block>, l3: seq<Block>)
    ensures var r, k, v := PROCESS_SIZE, STACK_SIZE, VectorSize(["x"]);
            && Malloc([Block(r + HEADER + k + HEADER + v, true)], r) == (l1, HEADER)
            && Malloc(l1, k).0 == l2 && Malloc(l1, k).1 > 0
            && Malloc(l2, v).0 == l3 && Malloc(l2, v).1 > 0
            && forall i :: 0 <= i < |l3| ==> !l3[i].free
  {
    var r, k, v := PROCESS_SIZE, STACK_SIZE, VectorSize(["x"]);
    var rest1, rest2 := k + HEADER + v, v;
    OnlyFree([], r + HEADER + rest1, r);
    assert [] + Carve(Block(r + HEADER + rest1, true), r) == [Block(r, false)] + [Block(rest1, true)];
    assert [] + [Block(r + HEADER + rest1, true)] == [Block(r + HEADER + rest1, true)];
    OnlyFree([Block(r, false)], rest1, k);
    assert [Block(r, false)] + Carve(Block(rest1, true), k) == [Block(r, false), Block(k, false)] + [Block(v, true)];
    OnlyFree([Block(r, false), Block(k, false)], v, v);
    l1 := [Block(r, false)] + [Block(rest1, true)];
    l2 := [Block(r, false), Block(k, false)] + [Block(v, true)];
    l3 := [Block(r, false), Block(k, false)] + Carve(Block(v, true), v);
  }

  lemma StringFails(l2: seq<Block>, l3: seq<Block>)
    requires Malloc(l2, VectorSize(["x"])).0 == l3 && Malloc(l3, 2) == (l3, NULL)
    ensures Duplicate(l2, ["x"]).1 == NULL
  {
    assert CopyStrings(l3, ["x"]) == (l3, []);
  }

  /** Allocation in a heap whose only free block, the last, fits. */
  lemma {:induction false} OnlyFree(taken: seq<Block>, size: nat, n: nat)
    requires (forall i :: 0 <= i < |taken| ==> !taken[i].free) && 0 < n < UINT32 && n % 4 == 0 && size >= n
    ensures Malloc(taken + [Block(size, true)], n) == (taken + Carve(Block(size, true), n), Total(taken) + HEADER)
  {
    var s := taken + [Block(size, true)];
    assert Align4(n) == n;
    FitLast(taken, size, n);
    var c := Carve(Block(size, true), n);
    assert s[..|taken|] == taken && s[|taken| + 1..] == [];
    assert taken + c + [] == taken + c;
  }

  lemma {:induction false} FitLast(taken: seq<Block>, size: nat, n: nat)
    requires (forall i :: 0 <= i < |taken| ==> !taken[i].free) && size >= n
    ensures FindFit(taken + [Block(size, true)], n) == |taken|
    decreases |taken|
  {
    if taken != [] {
      assert (taken + [Block(size, true)])[1..] == taken[1..] + [Block(size, true)];
      FitLast(taken[1..], size, n);
    }
  }

  lemma NoneFree(taken: seq<Block>, n: nat)
    requires (forall i :: 0 <= i < |taken| ==> !taken[i].free) && n < UINT32
    ensures Malloc(taken, n) == (taken, NULL)
  {
  }

  lemma DuplicateFailure(l: seq<Block>, t: seq<Block>, record: int, stack: int, argv: seq<string>)
    requires Normal(l) && Extended(l, t, [record, stack]) && SizesFit(argv) && Duplicate(t, argv).1 == NULL
    ensures WithStack(t, record, stack, argv).0 == l <==> Malloc(t, VectorSize(argv)).1 == NULL
  {
    DuplicateExtends(l, t, record, stack, argv);
    var (u, v, ss) := Duplicate(t, argv);
    var w := Malloc(t, VectorSize(argv)).1;
    if w == NULL {
      FreeAllRestores(l, t, [record, stack], [stack, record]);
    } else {
      VectorLeaks(l, u, record, stack, w, ss);
    }
  }

  lemma VectorLeaks(l: seq<Block>, t: seq<Block>, record: int, stack: int, vector: int, strings: seq<int>)
    requires Extended(l, t, [record, stack, vector] + strings)
    ensures FreeAll(t, [stack, record]) != l
  {
    var ps := [record, stack, vector] + strings;
    assert ps[0] == record && ps[1] == stack && ps[2] == vector;
    assert IsLivePointer(t, ps[2]) && IsLivePointer(t, ps[0]) && IsLivePointer(t, ps[1]);
    FreeAllEffect(t, [stack, record]);
    assert vector - HEADER in Live(FreeAll(t, [stack, record]), 0);
    assert vector - HEADER !in Live(l, 0);
  }

  // ----- the pointers stored in the blocks -----

  predicate SlotsAt(words: map<int, int>, v: int, ps: seq<int>) {
    forall i :: 0 <= i < |ps| ==> v + i * POINTER_SIZE in words && words[v + i * POINTER_SIZE] == ps[i]
  }

  /** A NULL-terminated vector of pointers in memory. */
  predicate VectorAt(words: map<int, int>, v: int, ps: seq<int>) {
    SlotsAt(words, v, ps + [NULL])
  }

  /** Only n bytes from v on may differ. */
  predicate SameOutside(words: map<int, int>, words': map<int, int>, v: int, n: nat) {
    forall a :: a in words && (a < v || a >= v + n) ==> a in words' && words'[a] == words[a]
  }

  /** The record of a process and its argument vector hold the pointers of the image. */
  predicate Stored(words: map<int, int>, im: Image) {
    && im.record + STACK_BASE_FIELD in words && words[im.record + STACK_BASE_FIELD] == im.stack
    && im.record + ARGV_FIELD in words && words[im.record + ARGV_FIELD] == im.vector
    && VectorAt(words, im.vector, im.strings)
  }

  /** What malloc returns does not overlap a block that was live. */
  lemma MallocApart(t: seq<Block>, size: nat, o: nat)
    requires Normal(t) && size < UINT32 && size % 4 == 0 && o in Live(t, 0) && Malloc(t, size).1 != NULL
    ensures var p := Malloc(t, size).1;
            o + HEADER + Live(t, 0)[o] <= p - HEADER || p + size <= o
  {
    var n := Align4(size);
    var i := FindFit(t, n);
    FreeBlockIsVacant(t, i);
  }

  /** The record and the vector are disjoint blocks. */
  lemma RecordApartFromVector(l: seq<Block>, t: seq<Block>, record: int, argv: seq<string>)
    requires Normal(t) && SizesFit(argv) && record - HEADER in Live(t, 0) && Live(t, 0)[record - HEADER] >= PROCESS_SIZE
    ensures var v := Malloc(t, VectorSize(argv)).1;
            v != NULL ==> record + PROCESS_SIZE <= v || v + VectorSize(argv) <= record
  {
    if Malloc(t, VectorSize(argv)).1 != NULL {
      MallocApart(t, VectorSize(argv), record - HEADER);
    }
  }

  /** A block of at least n bytes stays one when something else is allocated. */
  lemma MallocKeepsSize(t: seq<Block>, size: nat, o: nat, n: nat)
    requires Normal(t) && size < UINT32 && o in Live(t, 0) && Live(t, 0)[o] >= n
    ensures var u := Malloc(t, size).0; Normal(u) && o in Live(u, 0) && Live(u, 0)[o] >= n
  {
    MallocEffect(t, size);
  }

  function Prepend(ps: seq<int>, r: (seq<Block>, seq<int>)): (seq<Block>, seq<int>) {
    (r.0, ps + r.1)
  }

  /** One turn of the copying loop. */
  lemma CopyStep(l: seq<Block>, argv: seq<string>, i: nat, ps: seq<int>)
    requires SizesFit(argv) && i < |argv|
    ensures var (m, p) := Malloc(l, |argv[i]| + 1);
            Prepend(ps, CopyStrings(l, argv[i..]))
            == if p == NULL then (m, ps) else Prepend(ps + [p], CopyStrings(m, argv[i + 1..]))
  {
    assert argv[i..][0] == argv[i] && argv[i..][1..] == argv[i + 1..];
    var (m, p) := Malloc(l, |argv[i]| + 1);
    var qs := CopyStrings(m, argv[i + 1..]).1;
    assert ps + ([p] + qs) == (ps + [p]) + qs;
    assert ps + [] == ps;
  }

  lemma FreeTwo(l: seq<Block>, p: int, q: int)
    ensures FreeAll(l, [p, q]) == Free(Free(l, p), q)
  {
    assert [p, q][1..] == [q];
    assert FreeAll(Free(l, p), [q]) == FreeAll(Free(Free(l, p), q), [q][1..]);
  }

  /** When the arguments cannot be copied, record and stack are still there to be freed. */
  lemma RecordAndStackHeld(l: seq<Block>, t: seq<Block>, record: int, stack: int, argv: seq<string>)
    requires Extended(l, t, [record, stack]) && SizesFit(argv)
    ensures var u := Duplicate(t, argv).0; Normal(u) && Holds(u, [stack, record])
  {
    DuplicateExtends(l, t, record, stack, argv);
    var (u, v, ss) := Duplicate(t, argv);
    var w := Malloc(t, VectorSize(argv)).1;
    if w == NULL {
      assert [record, stack] + [] == [record, stack];
      HeldFirst(t, record, stack, []);
    } else {
      assert [record, stack, w] + ss == [record, stack] + ([w] + ss);
      HeldFirst(u, record, stack, [w] + ss);
    }
  }

  lemma HeldFirst(t: seq<Block>, p: int, q: int, rest: seq<int>)
    requires Holds(t, [p, q] + rest)
    ensures Holds(t, [q, p])
  {
    var ps := [p, q] + rest;
    assert ps[0] == p && ps[1] == q;
  }
}
