/**
 createProcess and destroyProcess of process.c on the pointer-level heap. The pointer
 fields they read and write are words of memory.
 */
module Processes {
  import opened FirstFitModel
  import opened FirstFitTheorems
  import opened FirstFitHeap
  import opened ProcessMemory

  lemma StoreSlot(words: map<int, int>, v: int, ps: seq<int>, p: int)
    requires SlotsAt(words, v, ps)
    ensures SlotsAt(words[v + |ps| * POINTER_SIZE := p], v, ps + [p])
  {
  }

  lemma StoreInside(words: map<int, int>, words': map<int, int>, v: int, n: nat, i: nat, p: int)
    requires SameOutside(words, words', v, n) && i * POINTER_SIZE < n
    ensures SameOutside(words, words'[v + i * POINTER_SIZE := p], v, n)
  {
  }

  lemma StoreRecord(words: map<int, int>, words': map<int, int>, im: Image, n: nat)
    requires im.record + STACK_BASE_FIELD in words && words[im.record + STACK_BASE_FIELD] == im.stack
    requires n == (|im.strings| + 1) * POINTER_SIZE && VectorAt(words', im.vector, im.strings)
    requires SameOutside(words, words', im.vector, n)
    requires im.record + PROCESS_SIZE <= im.vector || im.vector + n <= im.record
    ensures Stored(words'[im.record + ARGV_FIELD := im.vector], im)
  {
  }

  class Processes {
    const heap: Heap
    var words: map<int, int>

    constructor (heap: Heap)
      ensures this.heap == heap && words == map[]
    {
      this.heap := heap;
      words := map[];
    }

    /** One turn of the copying loop: new_argv[i] = my_malloc(len). */
    method CopyOne(vector: int, argv: seq<string>, i: nat, ghost strings: seq<int>) returns (p: int)
      requires heap.Valid() && SizesFit(argv) && i == |strings| < |argv| && SlotsAt(words, vector, strings)
      modifies this`words, heap
      ensures heap.Valid() && words == old(words)[vector + i * POINTER_SIZE := p]
      ensures p == NULL ==> Prepend(strings, CopyStrings(old(heap.layout), argv[i..])) == (heap.layout, strings)
      ensures p != NULL ==> SlotsAt(words, vector, strings + [p])
      ensures p != NULL ==> Prepend(strings, CopyStrings(old(heap.layout), argv[i..]))
                            == Prepend(strings + [p], CopyStrings(heap.layout, argv[i + 1..]))
    {
      CopyStep(heap.layout, argv, i, strings);
      p := heap.MyMalloc(|argv[i]| + 1);
      StoreSlot(words, vector, strings, p);
      words := words[vector + i * POINTER_SIZE := p];
    }

    /** The copying loop of duplicateArgv. */
    method CopyInto(vector: int, argv: seq<string>) returns (ok: bool, ghost strings: seq<int>)
      requires heap.Valid() && SizesFit(argv)
      modifies this`words, heap
      ensures heap.Valid() && (heap.layout, strings) == CopyStrings(old(heap.layout), argv)
      ensures ok == (|strings| == |argv|) && (ok ==> SlotsAt(words, vector, strings))
      ensures SameOutside(old(words), words, vector, |argv| * POINTER_SIZE)
    {
      ok, strings := true, [];
      ghost var all := CopyStrings(heap.layout, argv);
      assert argv[0..] == argv && [] + all.1 == all.1;
      for i := 0 to |argv|
        invariant heap.Valid() && |strings| == i && SlotsAt(words, vector, strings)
        invariant all == Prepend(strings, CopyStrings(heap.layout, argv[i..]))
        invariant SameOutside(old(words), words, vector, |argv| * POINTER_SIZE)
      {
        ghost var before := words;
        var p := CopyOne(vector, argv, i, strings);
        StoreInside(old(words), before, vector, |argv| * POINTER_SIZE, i, p);
        if p == NULL {
          ok := false;
          return;
        }
        strings := strings + [p];
      }
      assert argv[|argv|..] == [] && strings + [] == strings;
    }

    /** A NULL argv and one without arguments take the same branch. */
    method DuplicateArgv(argv: seq<string>) returns (vector: int, ghost strings: seq<int>)
      requires heap.Valid() && SizesFit(argv)
      modifies this`words, heap
      ensures heap.Valid() && (heap.layout, vector, strings) == Duplicate(old(heap.layout), argv)
      ensures vector != NULL ==> VectorAt(words, vector, strings)
      ensures vector != NULL ==> SameOutside(old(words), words, vector, VectorSize(argv))
    {
      strings := [];
      if argv == [] {
        vector := heap.MyMalloc(POINTER_SIZE);
        if vector != NULL {
          words := words[vector := NULL];
        }
        return;
      }
      var argc := |argv|;
      vector := heap.MyMalloc((argc + 1) * POINTER_SIZE);
      if vector == NULL { return; }
      var ok;
      ok, strings := CopyInto(vector, argv);
      if !ok { return NULL, strings; }
      StoreSlot(words, vector, strings, NULL);
      words := words[vector + argc * POINTER_SIZE := NULL];
    }

    /** Returns the address of the new record, or NULL. */
    method CreateProcess(argv: seq<string>) returns (record: int, ghost image: Image)
      requires heap.Valid() && SizesFit(argv)
      modifies this`words, heap
      ensures heap.Valid()
      ensures (heap.layout, if record == NULL then Failed else Made(image)) == AfterCreate(old(heap.layout), argv)
      ensures record != NULL ==> image.record == record && Stored(words, image)
    {
      image := Image(NULL, NULL, NULL, []);
      ghost var l := heap.layout;
      ExtendByRecord(l);
      MallocEffect(l, PROCESS_SIZE);
      record := heap.MyMalloc(PROCESS_SIZE);
      if record == NULL { return; }
      record, image := FillRecord(record, argv, l);
    }

    /** The rest of createProcess, once the record is allocated. */
    method FillRecord(p: int, argv: seq<string>, ghost l: seq<Block>) returns (record: int, ghost image: Image)
      requires heap.Valid() && SizesFit(argv) && Extended(l, heap.layout, [p])
      requires p - HEADER in Live(heap.layout, 0) && Live(heap.layout, 0)[p - HEADER] >= PROCESS_SIZE
      modifies this`words, heap
      ensures heap.Valid()
      ensures (heap.layout, if record == NULL then Failed else Made(image)) == WithRecord(old(heap.layout), p, argv)
      ensures record != NULL ==> image.record == record == p && Stored(words, image)
    {
      record, image := p, Image(NULL, NULL, NULL, []);
      ExtendByStack(l, heap.layout, p);
      MallocKeepsSize(heap.layout, STACK_SIZE, p - HEADER, PROCESS_SIZE);
      var stack := heap.MyMalloc(STACK_SIZE);
      words := words[p + STACK_BASE_FIELD := stack];
      if stack == NULL {
        heap.MyFree(p);
        return NULL, image;
      }
      record, image := FillArgv(p, stack, argv, l);
    }

    /** The last part of createProcess: the arguments. */
    method FillArgv(p: int, stack: int, argv: seq<string>, ghost l: seq<Block>) returns (record: int, ghost image: Image)
      requires heap.Valid() && SizesFit(argv) && Extended(l, heap.layout, [p, stack])
      requires p - HEADER in Live(heap.layout, 0) && Live(heap.layout, 0)[p - HEADER] >= PROCESS_SIZE
      requires p + STACK_BASE_FIELD in words && words[p + STACK_BASE_FIELD] == stack
      modifies this`words, heap
      ensures heap.Valid()
      ensures (heap.layout, if record == NULL then Failed else Made(image)) == WithStack(old(heap.layout), p, stack, argv)
      ensures record != NULL ==> image.record == record == p && Stored(words, image)
    {
      record, image := p, Image(NULL, NULL, NULL, []);
      RecordApartFromVector(l, heap.layout, p, argv);
      RecordAndStackHeld(l, heap.layout, p, stack, argv);
      ghost var before, strings := words, [];
      var vector;
      vector, strings := DuplicateArgv(argv);
      ghost var after := words;
      words := words[p + ARGV_FIELD := vector];
      if vector == NULL {
        FreeBoth(stack, p);
        return NULL, image;
      }
      image := Image(p, stack, vector, strings);
      StoreRecord(before, after, image, VectorSize(argv));
    }

    method FreeBoth(p: int, q: int)
      requires heap.Valid() && Holds(heap.layout, [p, q])
      modifies heap
      ensures heap.Valid() && heap.layout == FreeAll(old(heap.layout), [p, q])
    {
      FreeTwo(heap.layout, p, q);
      FreeOneHeld(heap.layout, [p, q]);
      assert [p, q][1..] == [q];
      heap.MyFree(p);
      heap.MyFree(q);
    }

    /** Freeing the first of the pointers still held. */
    method FreeHead(p: int, ghost ps: seq<int>)
      requires heap.Valid() && Holds(heap.layout, ps) && ps != [] && p == ps[0]
      modifies heap
      ensures heap.Valid() && Holds(heap.layout, ps[1..])
      ensures FreeAll(heap.layout, ps[1..]) == FreeAll(old(heap.layout), ps)
    {
      FreeOneHeld(heap.layout, ps);
      heap.MyFree(p);
    }

    /** The loop of freeArgv and the vector itself. */
    method FreeArgv(vector: int, ghost strings: seq<int>)
      requires heap.Valid() && VectorAt(words, vector, strings) && Holds(heap.layout, strings + [vector])
      modifies heap
      ensures heap.Valid() && heap.layout == FreeAll(old(heap.layout), strings + [vector])
    {
      ghost var ps := strings + [vector];
      var i := 0;
      assert ps[0..] == ps;
      while words[vector + i * POINTER_SIZE] != NULL
        invariant 0 <= i <= |strings| && heap.Valid()
        invariant vector + i * POINTER_SIZE in words
        invariant Holds(heap.layout, ps[i..])
        invariant FreeAll(heap.layout, ps[i..]) == FreeAll(old(heap.layout), ps)
        decreases |strings| - i
      {
        assert i < |strings|;
        FreeHead(words[vector + i * POINTER_SIZE], ps[i..]);
        assert ps[i..][1..] == ps[i + 1..];
        i := i + 1;
      }
      assert ps[i..] == [vector];
      FreeHead(vector, [vector]);
    }

    method DestroyProcess(record: int, ghost im: Image)
      requires heap.Valid() && record == im.record && Stored(words, im) && Holds(heap.layout, Owned(im))
      modifies heap
      ensures heap.Valid() && heap.layout == AfterDestroy(old(heap.layout), im)
    {
      ghost var ps, l := im.strings + [im.vector], heap.layout;
      assert Owned(im) == ps + [im.stack, im.record];
      HeldParts(l, ps, [im.stack, im.record]);
      FreeAllAppend(l, ps, [im.stack, im.record]);
      FreeArgv(words[record + ARGV_FIELD], im.strings);
      FreeBoth(words[record + STACK_BASE_FIELD], record);
    }
  }

  lemma {:induction false} FreeAllAppend(l: seq<Block>, ps: seq<int>, qs: seq<int>)
    ensures FreeAll(l, ps + qs) == FreeAll(FreeAll(l, ps), qs)
    decreases |ps|
  {
    if ps == [] {
      assert ps + qs == qs;
    } else {
      assert (ps + qs)[1..] == ps[1..] + qs;
      FreeAllAppend(Free(l, ps[0]), ps[1..], qs);
    }
  }

  /** Pointers freed first leave the others live. */
  lemma HeldParts(l: seq<Block>, ps: seq<int>, qs: seq<int>)
    requires Normal(l) && Holds(l, ps + qs)
    ensures Holds(l, ps) && Holds(FreeAll(l, ps), qs)
  {
    var rs := ps + qs;
    forall i | 0 <= i < |ps| ensures ps[i] == rs[i] {
    }
    FreeAllEffect(l, ps);
    forall i | 0 <= i < |qs| ensures IsLivePointer(FreeAll(l, ps), qs[i]) {
      assert qs[i] == rs[|ps| + i] && qs[i] !in ps;
    }
    forall i, j | 0 <= i < j < |qs| ensures qs[i] != qs[j] {
      assert qs[i] == rs[|ps| + i] && qs[j] == rs[|ps| + j];
    }
  }
}
