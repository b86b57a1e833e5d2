/** What the first-fit heap promises, for every reachable layout. */
module FirstFitTheorems {
  import opened FirstFitModel

  /** m bytes from address a lie in the heap and touch no allocated block or header. */
  ghost predicate VacantRun(s: seq<Block>, base: nat, a: nat, m: nat) {
    && base <= a && a + m <= base + Total(s)
    && forall o :: o in Live(s, base) ==> a + m <= o || o + HEADER + Live(s, base)[o] <= a
  }

  /** A vacant run lies in one free block. */
  lemma {:induction false} VacantRunInBlock(s: seq<Block>, base: nat, a: nat, m: nat) returns (i: nat)
    requires Normal(s) && m > 0 && VacantRun(s, base, a, m)
    ensures i < |s| && s[i].free
    ensures base + Total(s[..i]) <= a && a + m <= base + Total(s[..i]) + Extent(s[i])
  {
    var next := base + Extent(s[0]);
    LiveKeys(s[1..], next);
    if a >= next {
      forall o | o in Live(s[1..], next) ensures o in Live(s, base) && Live(s, base)[o] == Live(s[1..], next)[o] {
      }
      i := VacantRunInBlock(s[1..], next, a, m);
      assert s[..i + 1] == [s[0]] + s[1..][..i];
      assert s[..i + 1][1..] == s[1..][..i];
      i := i + 1;
    } else {
      i := 0;
      assert !s[0].free ==> base in Live(s, base);
      if |s| > 1 {
        FirstOfRest(s, base);
      } else {
        OneBlock(s[0], base);
        assert s == [s[0]];
      }
    }
  }

  /** In a normal layout, the block after a free block is live. */
  lemma FirstOfRest(s: seq<Block>, base: nat)
    requires Normal(s) && |s| > 1
    ensures s[0].free ==> base + Extent(s[0]) in Live(s, base)
  {
    if s[0].free {
      FirstLiveAddress(s, base);
    }
  }

  lemma FreeBlockIsVacant(s: seq<Block>, i: nat)
    requires i < |s| && s[i].free
    ensures VacantRun(s, 0, Total(s[..i]), Extent(s[i]))
  {
    var a, b := s[..i], s[i + 1..];
    var o := Total(a);
    var e := o + Extent(s[i]);
    assert s == a + [s[i]] + b;
    OneBlock(s[i], o);
    ThreeParts(a, [s[i]], b, o, e);
    LiveKeys(a, 0);
    LiveKeys(b, e);
  }

  /** Bytes a request takes from the heap. */
  function Needed(size: nat): nat
    requires size < UINT32
  {
    Align4(size) + HEADER
  }

  /** Malloc returns NULL only when no vacant run holds the aligned request and a header. */
  lemma MallocFailsIff(s: seq<Block>, size: nat)
    requires Normal(s) && size < UINT32
    ensures Malloc(s, size).1 == NULL <==> !exists a: nat :: VacantRun(s, 0, a, Needed(size))
  {
    var n := Align4(size);
    var i := FindFit(s, n);
    if i < |s| {
      FreeBlockIsVacant(s, i);
      assert VacantRun(s, 0, Total(s[..i]), Needed(size));
    }
    if a: nat :| VacantRun(s, 0, a, Needed(size)) {
      var j := VacantRunInBlock(s, 0, a, Needed(size));
    }
  }

  /** The block malloc returns starts at the lowest vacant run that fits. */
  lemma MallocLowest(s: seq<Block>, size: nat, a: nat)
    requires Normal(s) && size < UINT32 && Malloc(s, size).1 != NULL
    requires VacantRun(s, 0, a, Needed(size))
    ensures Malloc(s, size).1 - HEADER <= a
  {
    var n := Align4(size);
    var j := VacantRunInBlock(s, 0, a, Needed(size));
    assert Fits(s[j], n);
    TotalPrefix(s, FindFit(s, n), j);
  }

  /** The whole run of m bytes from address a up to the next allocated block or the end of the heap. */
  ghost predicate WholeRun(s: seq<Block>, a: nat, m: nat) {
    VacantRun(s, 0, a, m) && !VacantRun(s, 0, a, m + 1)
  }

  /**
   The block is as long as asked when what is left of the vacant run has room for a header and four bytes, and takes
   all of the run otherwise.
   */
  lemma MallocSize(s: seq<Block>, size: nat, m: nat)
    requires Normal(s) && size < UINT32 && Malloc(s, size).1 >= HEADER && WholeRun(s, Malloc(s, size).1 - HEADER, m)
    ensures var (t, p) := Malloc(s, size);
            p - HEADER in Live(t, 0)
            && Live(t, 0)[p - HEADER] == if m >= Align4(size) + 2 * HEADER + 4 then Align4(size) else m - HEADER
  {
    var n := Align4(size);
    var i := FindFit(s, n);
    AllocatedEffect(s, i, n);
    RunIsBlock(s, i, m);
  }

  /** From the start of a free block the vacant run is that block. */
  lemma RunIsBlock(s: seq<Block>, i: nat, m: nat)
    requires Normal(s) && i < |s| && s[i].free && WholeRun(s, Total(s[..i]), m)
    ensures m == Extent(s[i])
  {
    var o := Total(s[..i]);
    FreeBlockIsVacant(s, i);
    assert m >= Extent(s[i]);
    var j := VacantRunInBlock(s, 0, o, m);
    if j < i { BlocksFollow(s, j, i); }
    if i < j { BlocksFollow(s, i, j); }
  }

  lemma BlocksFollow(s: seq<Block>, i: nat, j: nat)
    requires i < j <= |s|
    ensures Total(s[..i]) + Extent(s[i]) <= Total(s[..j])
  {
    assert s[..i + 1] == s[..i] + [s[i]];
    OneBlock(s[i], 0);
    TotalAppend(s[..i], [s[i]]);
    TotalPrefix(s, i + 1, j);
  }

  lemma ShorterRun(s: seq<Block>, a: nat, m: nat, k: nat)
    requires VacantRun(s, 0, a, m) && k <= m
    ensures VacantRun(s, 0, a, k)
  {
  }

  /** A successful request is determined by the allocated blocks: the lowest run that fits, and the size it gets. */
  lemma MallocDetermined(s: seq<Block>, size: nat, a: nat, m: nat)
    requires Normal(s) && size < UINT32 && VacantRun(s, 0, a, Needed(size)) && WholeRun(s, a, m)
    requires forall b: nat :: b < a ==> !VacantRun(s, 0, b, Needed(size))
    ensures var (t, p) := Malloc(s, size);
            && p == a + HEADER
            && Live(t, 0) == Live(s, 0)[a := if m >= Align4(size) + 2 * HEADER + 4 then Align4(size) else m - HEADER]
            && Used(t) == Used(s) + HEADER + Live(t, 0)[a]
  {
    MallocFailsIff(s, size);
    MallocLowest(s, size, a);
    MallocEffect(s, size);
    var i := FindFit(s, Align4(size));
    FreeBlockIsVacant(s, i);
    ShorterRun(s, Total(s[..i]), Extent(s[i]), Needed(size));
    MallocSize(s, size, m);
  }

  lemma TotalPrefix(s: seq<Block>, i: nat, j: nat)
    requires i <= j <= |s|
    ensures Total(s[..i]) <= Total(s[..j])
  {
    assert s[..j] == s[..i] + s[i..j];
    TotalAppend(s[..i], s[i..j]);
  }

  /** ALIGN4 rounds up to the next multiple of four, unless that leaves 32 bits. */
  lemma AlignRoundsUpIff(size: nat)
    requires size < UINT32
    ensures Align4(size) % 4 == 0 && Align4(size) < size + 4
    ensures Align4(size) >= size <==> size <= UINT32 - 4
  {
  }

  /** Freeing what malloc just returned restores the block list exactly. */
  lemma FreeUndoesMalloc(s: seq<Block>, size: nat)
    requires Normal(s) && size < UINT32 && Malloc(s, size).1 != NULL
    ensures Free(Malloc(s, size).0, Malloc(s, size).1) == s
  {
    var (t, p) := Malloc(s, size);
    MallocEffect(s, size);
    FreeEffect(t, p);
    assert Live(t, 0) - {p - HEADER} == Live(s, 0);
    LayoutCanonical(Free(t, p), s, 0);
  }

  // ----- runs -----

  datatype Request = Allocate(size: nat) | Deallocate(p: int)

  /** One request; sizes are 32-bit, and freeing anything but a live pointer is not a legal request. */
  predicate Legal(s: seq<Block>, r: Request) {
    match r
    case Allocate(size) => size < UINT32
    case Deallocate(p) => IsLivePointer(s, p)
  }

  function Serve(s: seq<Block>, r: Request): (t: seq<Block>)
    requires Normal(s) && Legal(s, r)
    ensures Normal(t) && Total(t) == Total(s)
  {
    match r
    case Allocate(size) => MallocEffect(s, size); Malloc(s, size).0
    case Deallocate(p) => FreeEffect(s, p); Free(s, p)
  }

  ghost predicate Reaches(s: seq<Block>, rs: seq<Request>, t: seq<Block>)
    requires Normal(s)
    decreases |rs|
  {
    if rs == [] then t == s
    else Legal(s, rs[0]) && Reaches(Serve(s, rs[0]), rs[1..], t)
  }

  lemma {:induction false} ReachesNormal(s: seq<Block>, rs: seq<Request>, t: seq<Block>)
    requires Normal(s) && Reaches(s, rs, t)
    ensures Normal(t) && Total(t) == Total(s)
    decreases |rs|
  {
    if rs != [] {
      ReachesNormal(Serve(s, rs[0]), rs[1..], t);
    }
  }

  /** Two histories that leave the same blocks allocated leave the same list, header for header. */
  lemma HistoriesAgree(s: seq<Block>, rs: seq<Request>, t: seq<Block>, rs': seq<Request>, t': seq<Block>)
    requires Normal(s) && Reaches(s, rs, t) && Reaches(s, rs', t') && Live(t, 0) == Live(t', 0)
    ensures t == t'
  {
    ReachesNormal(s, rs, t);
    ReachesNormal(s, rs', t');
    LayoutCanonical(t, t', 0);
  }

  /** Once everything is freed the heap is one free block again. */
  lemma AllFreedIsOneBlock(heapSize: nat, rs: seq<Request>, t: seq<Block>)
    requires heapSize >= HEADER && Reaches([Block(heapSize - HEADER, true)], rs, t) && Live(t, 0) == map[]
    ensures t == [Block(heapSize - HEADER, true)]
  {
    var s := [Block(heapSize - HEADER, true)];
    OneBlock(s[0], 0);
    assert Reaches(s, [], s);
    HistoriesAgree(s, rs, t, [], s);
  }
}
