/** What the buddy allocator promises, for every reachable state. */
module BuddyTheorems {
  import opened Powers
  import opened BuddyModel

  function NoBlocks(): (lists: seq<seq<nat>>)
    ensures |lists| == MAX_POSSIBLE_ORDER + 1 && forall k :: 0 <= k < |lists| ==> lists[k] == []
  {
    seq(MAX_POSSIBLE_ORDER + 1, _ => [])
  }

  /** The heap as my_mem_init leaves it: one free block of the top order. */
  function Initial(maxOrder: nat): (s: Buddy)
    requires MIN_ORDER <= maxOrder < MAX_POSSIBLE_ORDER
  {
    Buddy(maxOrder, NoBlocks()[maxOrder := [0]], map[])
  }

  lemma InitialInv(maxOrder: nat)
    requires MIN_ORDER <= maxOrder < MAX_POSSIBLE_ORDER
    ensures Inv(Initial(maxOrder)) && Balanced(Initial(maxOrder))
  {
    var s := Initial(maxOrder);
    ZeroAligned(maxOrder);
    assert WellPlaced(maxOrder, 0, maxOrder);
    assert InFree(s, 0, maxOrder);
    forall x: nat | x < Pow2(maxOrder) ensures Covered(s, x) {
      assert IsBlock(s, 0, maxOrder) && Within(x, 0, maxOrder);
    }
    forall o: nat, k: nat | InFree(s, o, k) ensures o == 0 && k == maxOrder {
    }
    NoFreeBytes(NoBlocks());
    FreeBytesUpdate(NoBlocks(), maxOrder, [0]);
  }

  lemma {:induction false} NoFreeBytes(free: seq<seq<nat>>)
    requires forall k :: 0 <= k < |free| ==> free[k] == []
    ensures FreeBytes(free) == 0
  {
    if free != [] {
      NoFreeBytes(free[..|free| - 1]);
    }
  }

  // ----- vacancy -----

  /** The region shares no address with a live block. */
  ghost predicate Vacant(s: Buddy, o: nat, k: nat) {
    forall p :: p in s.live ==> Apart(o, k, p, s.live[p])
  }

  lemma SubregionVacant(s: Buddy, o: nat, k: nat, p: nat, j: nat)
    requires k <= j && Vacant(s, p, j) && (Inside(o, k, p, j) || o == p)
    ensures Vacant(s, o, k)
  {
    Pow2Monotone(k, j);
  }

  lemma HalvesNotBothFree(s: Buddy, o: nat, k: nat)
    requires Coalesced(s) && k < s.maxOrder && Aligned(o, k + 1)
    ensures !(InFree(s, o, k) && InFree(s, o + Pow2(k), k))
  {
    AlignedHalves(o, k);
    AlignedParent(o, k);
    assert Mate(o, k) == o + Pow2(k);
  }

  /** A free block that holds an aligned region but not the region one order up ends where the region does. */
  lemma LargerBlockHoldsParent(s: Buddy, o: nat, k: nat, p: nat, j: nat)
    requires Inv(s) && InFree(s, p, j) && Aligned(o, k + 1) && k + 1 <= j
    requires Inside(o, k, p, j) || Inside(o + Pow2(k), k, p, j)
    ensures Inside(o, k + 1, p, j)
  {
    assert IsBlock(s, p, j) && WellPlaced(s.maxOrder, p, j);
    AlignedNested(o, k + 1, p, j);
  }

  /** An aligned vacant region lies in one free block. */
  lemma {:induction false} VacantInsideFree(s: Buddy, o: nat, k: nat) returns (p: nat, j: nat)
    requires Inv(s) && WellPlaced(s.maxOrder, o, k) && Vacant(s, o, k)
    ensures InFree(s, p, j) && k <= j && Inside(o, k, p, j)
    decreases k
  {
    if k == MIN_ORDER {
      p, j := VacantCellFree(s, o, k);
    } else {
      var h := o + Pow2(k - 1);
      AlignedHalves(o, k - 1);
      HalvesNotBothFree(s, o, k - 1);
      SubregionVacant(s, o, k - 1, o, k);
      p, j := VacantInsideFree(s, o, k - 1);
      if j == k - 1 {
        SubregionVacant(s, h, k - 1, o, k);
        p, j := VacantInsideFree(s, h, k - 1);
      }
      LargerBlockHoldsParent(s, o, k - 1, p, j);
    }
  }

  lemma VacantCellFree(s: Buddy, o: nat, k: nat) returns (p: nat, j: nat)
    requires Inv(s) && WellPlaced(s.maxOrder, o, k) && Vacant(s, o, k) && k == MIN_ORDER
    ensures InFree(s, p, j) && k <= j && Inside(o, k, p, j)
  {
    assert Covered(s, o);
    p, j :| IsBlock(s, p, j) && Within(o, p, j);
    assert WellPlaced(s.maxOrder, p, j);
    AlignedNested(o, k, p, j);
  }

  lemma FreeIsVacant(s: Buddy, o: nat, k: nat)
    requires Inv(s) && InFree(s, o, k)
    ensures WellPlaced(s.maxOrder, o, k) && Vacant(s, o, k)
  {
    assert IsBlock(s, o, k);
    forall p | p in s.live ensures Apart(o, k, p, s.live[p]) {
      assert InLive(s, p, s.live[p]);
    }
  }

  // ----- malloc -----

  lemma {:induction false} AlignedLower(o: nat, k: nat, j: nat)
    requires k <= j && Aligned(o, j)
    ensures Aligned(o, k)
    decreases j - k
  {
    if k < j {
      AlignedHalves(o, j - 1);
      AlignedLower(o, k, j - 1);
    }
  }

  lemma MallocFindsVacant(s: Buddy, size: nat)
    requires Inv(s) && Malloc(s, size).1 != NULL
    ensures var b := Malloc(s, size).1 - HEADER_SIZE;
            b >= 0 && WellPlaced(s.maxOrder, b, OrderFor(size)) && Vacant(s, b, OrderFor(size))
  {
    var order := OrderFor(size);
    var a := FirstNonEmpty(s.free, order, s.maxOrder);
    var b := s.free[a][0];
    assert InFree(s, b, a);
    FreeIsVacant(s, b, a);
    SubregionVacant(s, b, order, b, a);
    Pow2Monotone(order, a);
    AlignedLower(b, order, a);
  }

  lemma MallocKeepsInv(s: Buddy, size: nat)
    requires Inv(s) && Balanced(s)
    ensures Inv(Malloc(s, size).0) && Balanced(Malloc(s, size).0)
  {
    if Malloc(s, size).1 != NULL {
      var order := OrderFor(size);
      var a := FirstNonEmpty(s.free, order, s.maxOrder);
      var b := s.free[a][0];
      assert InFree(s, b, a);
      TakeKeepsInv(s, a);
      TakeBalanced(s, a);
      SplitDownKeepsInv(Take(s, a), b, order);
      SplitDownLive(Take(s, a), b, order);
    }
  }

  lemma MallocLive(s: Buddy, size: nat)
    requires Inv(s) && Balanced(s) && Malloc(s, size).1 != NULL
    ensures var (t, p) := Malloc(s, size);
            && p >= HEADER_SIZE && p - HEADER_SIZE !in s.live && t.maxOrder == s.maxOrder
            && t.live == s.live[p - HEADER_SIZE := OrderFor(size)]
  {
    var order := OrderFor(size);
    var a := FirstNonEmpty(s.free, order, s.maxOrder);
    var b := s.free[a][0];
    assert b !in s.live;
    TakeBalanced(s, a);
    SplitDownLive(Take(s, a), b, order);
  }

  /** A live block of the requested order, taken out of vacant space; nothing else moves. */
  lemma MallocAllocates(s: Buddy, size: nat)
    requires Inv(s) && Balanced(s)
    ensures var (t, p) := Malloc(s, size);
            && Inv(t) && Balanced(t) && t.maxOrder == s.maxOrder
            && (p == NULL ==> t == s)
            && (p != NULL ==>
                  && p >= HEADER_SIZE && p - HEADER_SIZE !in s.live
                  && WellPlaced(s.maxOrder, p - HEADER_SIZE, OrderFor(size))
                  && Vacant(s, p - HEADER_SIZE, OrderFor(size))
                  && t.live == s.live[p - HEADER_SIZE := OrderFor(size)])
  {
    MallocKeepsInv(s, size);
    if Malloc(s, size).1 != NULL {
      MallocLive(s, size);
      MallocFindsVacant(s, size);
    }
  }

  /** Natural alignment: the block starts at a multiple of its own size. */
  lemma MallocAligned(s: Buddy, size: nat)
    requires Inv(s) && Balanced(s) && Malloc(s, size).1 != NULL
    ensures exists q: nat :: Malloc(s, size).1 - HEADER_SIZE == q * Pow2(OrderFor(size))
  {
    MallocAllocates(s, size);
    AlignedIffMultiple(Malloc(s, size).1 - HEADER_SIZE, OrderFor(size));
  }

  /** Malloc refuses a request only when it is zero or no aligned region of its order is vacant. */
  lemma MallocFailsIff(s: Buddy, size: nat)
    requires Inv(s)
    ensures Malloc(s, size).1 == NULL
            <==> size == 0 || !exists o: nat :: WellPlaced(s.maxOrder, o, OrderFor(size)) && Vacant(s, o, OrderFor(size))
  {
    var order := OrderFor(size);
    if size == 0 {
      assert Malloc(s, size).1 == NULL;
    } else if o: nat :| WellPlaced(s.maxOrder, o, order) && Vacant(s, o, order) {
      var p, j := VacantInsideFree(s, o, order);
      assert IsBlock(s, p, j) && WellPlaced(s.maxOrder, p, j);
      assert FirstNonEmpty(s.free, order, s.maxOrder) <= j;
    } else if Malloc(s, size).1 != NULL {
      MallocFindsVacant(s, size);
    }
  }

  /** The block is cut from the lower end of a smallest free block that is large enough, the latest in its list. */
  lemma MallocBestFit(s: Buddy, size: nat) returns (a: nat)
    requires Inv(s) && Malloc(s, size).1 != NULL
    ensures OrderFor(size) <= a <= s.maxOrder && s.free[a] != [] && Malloc(s, size).1 == s.free[a][0] + HEADER_SIZE
    ensures forall o: nat, k: nat :: InFree(s, o, k) && OrderFor(size) <= k ==> a <= k
  {
    a := FirstNonEmpty(s.free, OrderFor(size), s.maxOrder);
    forall o: nat, k: nat | InFree(s, o, k) && OrderFor(size) <= k ensures a <= k {
      assert IsBlock(s, o, k) && WellPlaced(s.maxOrder, o, k);
    }
  }

  lemma TotalSizeWraps(size: nat)
    requires size < UINT32
    ensures TotalSize(size) == if size + HEADER_SIZE < UINT32 then size + HEADER_SIZE else size + HEADER_SIZE - UINT32
  {
  }

  lemma SmallOrder(n: nat)
    requires n < Pow2(3)
    ensures CeilLog2(n) <= 3
  {
    if CeilLog2(n) > 3 {
      Pow2Monotone(3, CeilLog2(n) - 1);
    }
  }

  /** The block holds header and request, and half of it would not, unless size + header wraps around 32 bits. */
  lemma BlockHoldsRequestIff(size: nat)
    requires size < UINT32
    ensures size + HEADER_SIZE <= Pow2(OrderFor(size)) <==> size + HEADER_SIZE < UINT32
    ensures OrderFor(size) > MIN_ORDER ==> Pow2(OrderFor(size) - 1) < size + HEADER_SIZE
  {
    TotalSizeWraps(size);
    var n := TotalSize(size);
    assert Pow2(3) == 8 && Pow2(5) == 32;
    if size + HEADER_SIZE < UINT32 {
      Pow2Monotone(CeilLog2(n), OrderFor(size));
    } else {
      SmallOrder(n);
    }
  }

  // ----- free -----

  lemma LiveOrdersBounded(s: Buddy)
    requires Inv(s)
    ensures Bounded(s)
  {
    forall o | o in s.live ensures s.live[o] <= s.maxOrder {
      assert InLive(s, o, s.live[o]) && IsBlock(s, o, s.live[o]);
    }
  }

  /** Freeing a live pointer gives back exactly its block and keeps the invariant. */
  lemma FreeGivesBack(s: Buddy, p: int)
    requires Inv(s) && Balanced(s)
    ensures Bounded(s)
    ensures var t := Free(s, p);
            && Inv(t) && Balanced(t) && t.maxOrder == s.maxOrder
            && t.live == (if IsLivePointer(s, p) then s.live - {p - HEADER_SIZE} else s.live)
  {
    LiveOrdersBounded(s);
    if IsLivePointer(s, p) {
      SettleKeepsInv(s, p - HEADER_SIZE);
    }
  }

  // ----- malloc then free -----

  /** Absorbing the buddy just split off undoes the split, list order included. */
  lemma FuseUndoesHalve(s: Buddy, b: nat)
    requires Inv(s) && b in s.live && s.live[b] > MIN_ORDER
    ensures s.live[b] <= s.maxOrder < |s.free| && MateIsFree(Halve(s, b), b)
    ensures Fuse(Halve(s, b), b) == s && Base(b, s.live[b] - 1) == b
  {
    LiveOrdersBounded(s);
    var k := s.live[b] - 1;
    assert InLive(s, b, k + 1) && IsBlock(s, b, k + 1);
    AlignedHalves(b, k);
    AlignedParent(b, k);
    var t := Halve(s, b);
    assert t.free[k][0] == Mate(b, k);
    assert Without(t.free[k], Mate(b, k)) == s.free[k];
    assert (t.live - {b})[b := k + 1] == s.live;
    assert t.free[k := s.free[k]] == s.free;
  }

  lemma {:induction false} SettleUndoesSplitDown(s: Buddy, b: nat, order: nat)
    requires Inv(s) && b in s.live && MIN_ORDER <= order <= s.live[b] <= s.maxOrder
    ensures b in SplitDown(s, b, order).live && SplitDown(s, b, order).live[b] <= s.maxOrder
    ensures SplitDown(s, b, order).maxOrder == s.maxOrder && |SplitDown(s, b, order).free| == |s.free|
    ensures Settle(SplitDown(s, b, order), b) == Settle(s, b)
    decreases s.live[b]
  {
    if s.live[b] > order {
      FuseUndoesHalve(s, b);
      HalveKeepsInv(s, b);
      SettleUndoesSplitDown(Halve(s, b), b, order);
    }
  }

  lemma SettleUndoesTake(s: Buddy, a: nat)
    requires Inv(s) && a <= s.maxOrder && s.free[a] != []
    ensures var u, b := Take(s, a), s.free[a][0];
            Inv(u) && b in u.live && u.live[b] == a && Settle(u, b) == s
  {
    var u, b := Take(s, a), s.free[a][0];
    assert InFree(s, b, a);
    TakeKeepsInv(s, a);
    assert [b] + s.free[a][1..] == s.free[a];
    assert s.live[b := a] - {b} == s.live;
    assert Release(u, b) == s by {
      assert u.free[a := s.free[a]] == s.free;
    }
    if a < s.maxOrder && MateIsFree(u, b) {
      assert InFree(s, Mate(b, a), a);
      assert false;
    }
  }

  /** Freeing what malloc just returned restores every free list, order included. */
  lemma FreeUndoesMalloc(s: Buddy, size: nat)
    requires Inv(s) && Balanced(s) && Malloc(s, size).1 != NULL
    ensures Bounded(Malloc(s, size).0)
    ensures Free(Malloc(s, size).0, Malloc(s, size).1) == s
  {
    var (t, p) := Malloc(s, size);
    MallocKeepsInv(s, size);
    LiveOrdersBounded(t);
    var order := OrderFor(size);
    var a := FirstNonEmpty(s.free, order, s.maxOrder);
    SettleUndoesTake(s, a);
    var u, b := Take(s, a), s.free[a][0];
    SettleUndoesSplitDown(u, b, order);
    assert t == SplitDown(u, b, order) && p - HEADER_SIZE == b;
  }

  // ----- the free lists are a function of the live blocks -----

  /** A block is free exactly when it is a maximal vacant aligned region. */
  lemma FreeIffMaximalVacant(s: Buddy, o: nat, k: nat)
    requires Inv(s)
    ensures InFree(s, o, k) <==>
            && WellPlaced(s.maxOrder, o, k) && Vacant(s, o, k)
            && (k < s.maxOrder ==> !Vacant(s, Base(o, k), k + 1))
  {
    if WellPlaced(s.maxOrder, o, k) && Vacant(s, o, k) {
      var p, j := VacantInsideFree(s, o, k);
      assert IsBlock(s, p, j) && WellPlaced(s.maxOrder, p, j);
      MateInvolution(o, k);
      var a := Base(o, k);
      if j > k {
        AlignedNested(a, k + 1, p, j);
        FreeIsVacant(s, p, j);
        SubregionVacant(s, a, k + 1, p, j);
        BlocksApart(s, o, k, p, j);
      } else {
        assert p == o;
        if k < s.maxOrder && Vacant(s, a, k + 1) {
          Pow2Monotone(k + 1, s.maxOrder);
          ZeroAligned(s.maxOrder);
          AlignedNested(a, k + 1, 0, s.maxOrder);
          assert WellPlaced(s.maxOrder, a, k + 1);
          var q, i := VacantInsideFree(s, a, k + 1);
          BlocksApart(s, o, k, q, i);
          assert false;
        }
      }
    }
    if InFree(s, o, k) {
      FreeIsVacant(s, o, k);
    }
  }

  /** Two states with the same live blocks have the same free blocks. */
  lemma FreeSetsCanonical(s: Buddy, t: Buddy)
    requires Inv(s) && Inv(t) && s.maxOrder == t.maxOrder && s.live == t.live
    ensures forall o: nat, k: nat :: InFree(s, o, k) <==> InFree(t, o, k)
  {
    forall o: nat, k: nat ensures InFree(s, o, k) <==> InFree(t, o, k) {
      FreeIffMaximalVacant(s, o, k);
      FreeIffMaximalVacant(t, o, k);
      assert Vacant(s, o, k) == Vacant(t, o, k);
      assert Vacant(s, Base(o, k), k + 1) == Vacant(t, Base(o, k), k + 1);
    }
  }

  // ----- runs -----

  datatype Request = Allocate(size: nat) | Deallocate(p: int)

  ghost predicate Good(s: Buddy) {
    Inv(s) && Balanced(s)
  }

  ghost function Serve(s: Buddy, r: Request): (t: Buddy)
    requires Good(s)
    ensures Good(t) && t.maxOrder == s.maxOrder
  {
    match r
    case Allocate(size) => MallocAllocates(s, size); Malloc(s, size).0
    case Deallocate(p) => FreeGivesBack(s, p); Free(s, p)
  }

  ghost function Run(s: Buddy, rs: seq<Request>): Buddy
    requires Good(s)
    decreases |rs|
  {
    if rs == [] then s else Run(Serve(s, rs[0]), rs[1..])
  }

  /** Tiling, coalescing and byte conservation hold after any sequence of requests. */
  lemma {:induction false} RunKeepsGood(s: Buddy, rs: seq<Request>)
    requires Good(s)
    ensures Good(Run(s, rs)) && Run(s, rs).maxOrder == s.maxOrder
    decreases |rs|
  {
    if rs != [] {
      RunKeepsGood(Serve(s, rs[0]), rs[1..]);
    }
  }

  /** Whatever was allocated and freed on the way, and in whatever order, the free blocks depend only on what is live. */
  lemma RunsWithSameLiveAgree(s: Buddy, rs: seq<Request>, rs': seq<Request>)
    requires Good(s) && Run(s, rs).live == Run(s, rs').live
    ensures forall o: nat, k: nat :: InFree(Run(s, rs), o, k) <==> InFree(Run(s, rs'), o, k)
  {
    RunKeepsGood(s, rs);
    RunKeepsGood(s, rs');
    FreeSetsCanonical(Run(s, rs), Run(s, rs'));
  }

  lemma FreesCommute(s: Buddy, p: int, q: int)
    requires Good(s)
    ensures var t, u := Run(s, [Deallocate(p), Deallocate(q)]), Run(s, [Deallocate(q), Deallocate(p)]);
            t.live == u.live && forall o: nat, k: nat :: InFree(t, o, k) <==> InFree(u, o, k)
  {
    var d, e := Deallocate(p), Deallocate(q);
    TwoFreesLive(s, p, q);
    TwoFreesLive(s, q, p);
    RunsWithSameLiveAgree(s, [d, e], [e, d]);
  }

  ghost function WithoutKey(live: map<nat, nat>, o: int): map<nat, nat> {
    map x | x in live && x != o :: live[x]
  }

  lemma FreeLive(s: Buddy, p: int)
    requires Good(s)
    ensures Serve(s, Deallocate(p)).live == WithoutKey(s.live, p - HEADER_SIZE)
  {
    FreeGivesBack(s, p);
  }

  lemma TwoFreesLive(s: Buddy, p: int, q: int)
    requires Good(s)
    ensures Run(s, [Deallocate(p), Deallocate(q)]).live
            == WithoutKey(WithoutKey(s.live, p - HEADER_SIZE), q - HEADER_SIZE)
  {
    FreeLive(s, p);
    FreeLive(Serve(s, Deallocate(p)), q);
    TwoStepRun(s, Deallocate(p), Deallocate(q));
  }

  lemma TwoStepRun(s: Buddy, d: Request, e: Request)
    requires Good(s)
    ensures Good(Serve(s, d)) && Run(s, [d, e]) == Serve(Serve(s, d), e)
  {
    assert [d, e][1..] == [e];
    assert Run(Serve(s, d), [e]) == Run(Serve(Serve(s, d), e), [e][1..]);
  }

  lemma FirstElements(l: seq<nat>)
    ensures l == [] || (l[0] in l && (|l| == 1 || l[1] in l))
  {
  }

  lemma SameElements(l: seq<nat>, m: seq<nat>)
    requires NoDup(l) && |m| <= 1 && forall o: nat :: o in l <==> o in m
    ensures l == m
  {
    FirstElements(l);
    FirstElements(m);
  }

  /** With nothing live the heap is one free block again. */
  lemma AllFreedIsInitial(s: Buddy)
    requires Inv(s) && s.live == map[]
    ensures s == Initial(s.maxOrder)
  {
    InitialInv(s.maxOrder);
    var t := Initial(s.maxOrder);
    FreeSetsCanonical(s, t);
    forall k | 0 <= k < |s.free| ensures s.free[k] == t.free[k] {
      forall o: nat ensures o in s.free[k] <==> o in t.free[k] {
        assert InFree(s, o, k) <==> InFree(t, o, k);
      }
      SameElements(s.free[k], t.free[k]);
    }
    assert s.free == t.free;
  }

  /** used_mem and the free lists account for every byte. */
  lemma RunConservesBytes(maxOrder: nat, rs: seq<Request>)
    requires MIN_ORDER <= maxOrder < MAX_POSSIBLE_ORDER
    ensures Good(Initial(maxOrder))
    ensures var s := Run(Initial(maxOrder), rs);
            LiveBytes(s.live) + FreeBytes(s.free) == Pow2(maxOrder)
  {
    InitialInv(maxOrder);
    RunKeepsGood(Initial(maxOrder), rs);
  }
}
