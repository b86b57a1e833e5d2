/**
 The allocator of buddyMemoryManager.c: an array of list heads, nodes linked through
 the free blocks themselves, and the loops that split and merge. Each operation is
 proved against the function of the same name on BuddyModel.Buddy values.
 */
module BuddyHeap {
  import opened Powers
  import opened BuddyModel
  import opened BuddyTheorems
  import opened BuddyLists

  const ALLOC_MAGIC := 0xDEADBEEF

  /** The word my_free checks: a list node holds the upper half of a low address there. */
  function MagicOf(c: Cell): nat {
    if c.Header? then c.magic else 0
  }

  /** Live blocks have intact headers, and no other cell carries the magic number. */
  predicate Marked(mem: Memory, live: map<nat, nat>) {
    && (forall o :: o in live ==> o in mem && mem[o] == Header(live[o], ALLOC_MAGIC))
    && (forall x :: x in mem && MagicOf(mem[x]) == ALLOC_MAGIC ==> x in live)
  }

  lemma PushKeepsMarked(mem: Memory, live: map<nat, nat>, l: seq<nat>, block: nat)
    requires Marked(mem, live) && block !in live
    ensures Marked(Pushed(mem, l, block), live)
  {
    var m := mem[block := Node(HeadOf(l), NULL)];
    assert Marked(m, live);
  }

  lemma UnlinkKeepsMarked(mem: Memory, live: map<nat, nat>, c: Cell)
    requires Marked(mem, live) && c.Node?
    ensures Marked(Unlinked(mem, c), live)
  {
    assert Marked(SetNext(mem, c.prev, c.next), live);
  }

  /** The size that log2_ceil compares after k turns of its loop, in 32 bits. */
  function Doubled(k: nat): nat {
    if k == 0 then 1 else Doubled(k - 1) * 2 % UINT32
  }

  lemma Pow31()
    ensures Pow2(31) == UINT32 / 2
  {
    assert Pow2(11) == 2048;
    assert Pow2(21) == 2097152;
  }

  lemma {:induction false} DoubledIs(k: nat)
    ensures k < 32 ==> Doubled(k) == Pow2(k) <= UINT32 / 2
    ensures k >= 32 ==> Doubled(k) == 0
  {
    if k > 0 {
      DoubledIs(k - 1);
      if k < 32 {
        Pow31();
        Pow2Monotone(k, 31);
        DoubledNext(k, Pow2(k - 1));
      } else if k == 32 {
        Pow31();
        DoubledNext(k, UINT32 / 2);
      } else {
        DoubledNext(k, 0);
      }
    }
  }

  lemma DoubledNext(k: nat, size: nat)
    requires k > 0 && Doubled(k - 1) == size <= UINT32 / 2
    ensures Doubled(k) == if size < UINT32 / 2 then 2 * size else 0
  {
  }

  /** The loop of log2_ceil ends exactly for numbers up to 2^31; above, the doubled size wraps around to 0 first. */
  lemma Log2CeilEndsIff(n: nat)
    ensures (exists k: nat :: Doubled(k) >= n) <==> n <= UINT32 / 2
  {
    DoubledIs(31);
    Pow31();
    assert Doubled(31) == UINT32 / 2;
    forall k: nat ensures Doubled(k) <= UINT32 / 2 { DoubledIs(k); }
  }

  method Log2Ceil(n: nat) returns (order: nat)
    requires n <= UINT32 / 2
    ensures order == CeilLog2(n)
  {
    order := 0;
    var size := 1;
    while size < n
      invariant size == Pow2(order) && (order > 0 ==> Pow2(order - 1) < n)
      decreases n - size
    {
      size := size * 2;
      order := order + 1;
    }
    LeastOrderUnique(n, order, CeilLog2(n));
  }

  lemma LeastOrderUnique(n: nat, j: nat, k: nat)
    requires n <= Pow2(j) && (j > 0 ==> Pow2(j - 1) < n)
    requires n <= Pow2(k) && (k > 0 ==> Pow2(k - 1) < n)
    ensures j == k
  {
    if j < k {
      Pow2Monotone(j, k - 1);
    } else if k < j {
      Pow2Monotone(k, j - 1);
    }
  }

  lemma OrderRange(size: nat, max: nat)
    requires MIN_BLOCK_SIZE <= size <= UINT32 / 2
    requires max == (if Pow2(CeilLog2(size)) > size then CeilLog2(size) - 1 else CeilLog2(size))
    ensures CeilLog2(size) > 0
    ensures Pow2(max) <= size < Pow2(max + 1) && MIN_ORDER <= max < MAX_POSSIBLE_ORDER
  {
    assert Pow2(5) == 32;
    assert Pow2(31) == UINT32 / 2 by {
      assert Pow2(11) == 2048;
      assert Pow2(21) == 2097152;
    }
    if max < 5 {
      Pow2Monotone(max + 1, 5);
    }
    if max > 31 {
      Pow2Monotone(32, max);
    }
  }

  class Heap {
    const freeLists: array<int>
    var maxOrder: nat
    var totalMem: nat
    var usedMem: int
    var mem: Memory
    ghost var state: Buddy

    ghost predicate Linked()
      reads this, freeLists
    {
      && freeLists.Length == MAX_POSSIBLE_ORDER + 1 == |state.free|
      && Represents(mem, freeLists[..], state.free)
      && Exclusive(state.free)
    }

    ghost predicate Valid()
      reads this, freeLists
    {
      && Linked() && Marked(mem, state.live) && Inv(state) && Balanced(state)
      && maxOrder == state.maxOrder && usedMem == LiveBytes(state.live)
    }

    method AddToFreeList(block: nat, order: nat)
      requires Linked() && order < freeLists.Length && Unlisted(state.free, block)
      modifies this`mem, this`state, freeLists
      ensures Linked()
      ensures state == old(state).(free := old(state).free[order := [block] + old(state).free[order]])
      ensures mem == Pushed(old(mem), old(state).free[order], block)
    {
      ghost var l := state.free[order];
      PushRepresents(mem, freeLists[..], state.free, order, block);
      assert l != [] ==> LinkedAt(mem, l, 0);
      var head := freeLists[order];
      mem := mem[block := Node(head, NULL)];
      if head != NULL {
        mem := mem[head := mem[head].(prev := block)];
      }
      freeLists[order] := block;
      state := state.(free := state.free[order := [block] + l]);
      assert freeLists[..] == old(freeLists[..])[order := block];
    }

    method RemoveFromFreeList(block: nat, order: nat)
      requires Linked() && order < freeLists.Length && block in state.free[order]
      modifies this`mem, this`state, freeLists
      ensures Linked()
      ensures state == old(state).(free := old(state).free[order := Without(old(state).free[order], block)])
      ensures exists c: Cell :: c.Node? && mem == Unlinked(old(mem), c)
    {
      ghost var l := state.free[order];
      ghost var i: nat :| i < |l| && l[i] == block;
      UnlinkRepresents(mem, freeLists[..], state.free, order, i);
      WithoutAt(l, i);
      assert i > 0 ==> LinkedAt(mem, l, i - 1);
      assert i + 1 < |l| ==> LinkedAt(mem, l, i + 1);
      var node := mem[block];
      if node.prev != NULL {
        mem := mem[node.prev := mem[node.prev].(next := node.next)];
      } else {
        freeLists[order] := node.next;
      }
      if node.next != NULL {
        mem := mem[node.next := mem[node.next].(prev := node.prev)];
      }
      state := state.(free := state.free[order := Without(l, block)]);
      assert mem == Unlinked(old(mem), node);
      assert freeLists[..] == old(freeLists[..])[order := HeadOf(Without(l, block))];
    }

    /** The buddy of the block, taken off its list, or NULL when it is not free at that order. */
    method FindAndRemoveBuddy(block: nat, order: nat) returns (r: int)
      requires Linked() && order < freeLists.Length && Marked(mem, state.live)
      modifies this`mem, this`state, freeLists
      ensures Linked() && Marked(mem, state.live)
      ensures var buddy, l := Mate(block, order), old(state).free[order];
              if buddy in l
              then r == buddy && state == old(state).(free := old(state).free[order := Without(l, buddy)])
              else r == NULL && state == old(state) && mem == old(mem)
    {
      var buddy := Xor(block, Pow2(order));
      ghost var l := state.free[order];
      ghost var i := 0;
      var curr := freeLists[order];
      while curr != NULL
        invariant 0 <= i <= |l| && buddy !in l[..i]
        invariant curr == (if i < |l| then l[i] else NULL)
        decreases |l| - i
      {
        if curr == buddy {
          ghost var before := mem;
          RemoveFromFreeList(buddy, order);
          ghost var c: Cell :| c.Node? && mem == Unlinked(before, c);
          UnlinkKeepsMarked(before, state.live, c);
          return buddy;
        }
        assert LinkedAt(mem, l, i);
        curr := mem[curr].next;
        i := i + 1;
      }
      assert l[..i] == l;
      r := NULL;
    }

    /** Both halves go to the front of the list one order down. */
    method SplitBlock(block: nat, order: nat)
      requires Linked() && order < freeLists.Length && Marked(mem, state.live)
      requires order > MIN_ORDER ==>
                 && Unlisted(state.free, block) && Unlisted(state.free, block + Pow2(order - 1))
                 && block !in state.live && block + Pow2(order - 1) !in state.live
      modifies this`mem, this`state, freeLists
      ensures Linked() && Marked(mem, state.live)
      ensures order <= MIN_ORDER ==> state == old(state)
      ensures order > MIN_ORDER ==>
                var k, l := order - 1, old(state).free[order - 1];
                state == old(state).(free := old(state).free[k := [block + Pow2(k), block] + l])
    {
      if order <= MIN_ORDER { return; }
      var newOrder := order - 1;
      var blockSize := Pow2(newOrder);
      var buddy := block + blockSize;
      PushKeepsMarked(mem, state.live, state.free[newOrder], block);
      AddToFreeList(block, newOrder);
      PushKeepsMarked(mem, state.live, state.free[newOrder], buddy);
      AddToFreeList(buddy, newOrder);
      assert [buddy] + ([block] + old(state).free[newOrder]) == [buddy, block] + old(state).free[newOrder];
    }

    constructor (size: nat)
      requires MIN_BLOCK_SIZE <= size <= UINT32 / 2
      ensures Valid() && state == Initial(maxOrder) && fresh(freeLists)
      ensures Pow2(maxOrder) <= size < Pow2(maxOrder + 1) && totalMem == size
    {
      freeLists := new int[MAX_POSSIBLE_ORDER + 1];
      new;
      MyMemInit(size);
    }

    method MyMemInit(size: nat)
      requires MIN_BLOCK_SIZE <= size <= UINT32 / 2 && freeLists.Length == MAX_POSSIBLE_ORDER + 1
      modifies this, freeLists
      ensures Valid() && state == Initial(maxOrder)
      ensures Pow2(maxOrder) <= size < Pow2(maxOrder + 1) && totalMem == size
    {
      totalMem, usedMem := size, 0;
      maxOrder := TopOrder(size);
      for i := 0 to MAX_POSSIBLE_ORDER + 1
        modifies freeLists
        invariant forall j :: 0 <= j < i ==> freeLists[j] == NULL
      {
        freeLists[i] := NULL;
      }
      AddWholeHeap();
    }

    /** What is reported as free differs from the bytes on the free lists by the part of the heap above 2^maxOrder. */
    method MemDump() returns (total: nat, used: int, freeMem: int)
      requires Valid()
      ensures total == totalMem && used == LiveBytes(state.live)
      ensures freeMem == FreeBytes(state.free) + (total - Pow2(maxOrder))
    {
      total, used := totalMem, usedMem;
      freeMem := totalMem - usedMem;
    }

    method AddWholeHeap()
      requires freeLists.Length == MAX_POSSIBLE_ORDER + 1 && forall j :: 0 <= j < freeLists.Length ==> freeLists[j] == NULL
      requires MIN_ORDER <= maxOrder < MAX_POSSIBLE_ORDER && usedMem == 0
      modifies this`mem, this`state, freeLists
      ensures Valid() && state == Initial(maxOrder)
    {
      mem, state := map[], Buddy(maxOrder, NoBlocks(), map[]);
      EmptyRepresents(mem, freeLists[..], state.free);
      PushKeepsMarked(mem, state.live, [], 0);
      AddToFreeList(0, maxOrder);
      assert [0] + [] == [0];
      InitialInv(maxOrder);
    }

    method MyMalloc(size: nat) returns (p: int)
      requires Valid() && size < UINT32 && TotalSize(size) <= UINT32 / 2
      modifies this`mem, this`state, this`usedMem, freeLists
      ensures Valid() && (state, p) == Malloc(old(state), size)
    {
      if size == 0 { return NULL; }
      var totalSize := (size + HEADER_SIZE) % UINT32;
      var order := Log2Ceil(totalSize);
      if order < MIN_ORDER {
        order := MIN_ORDER;
      }
      if order > maxOrder { return NULL; }
      var allocOrder := FirstList(order);
      if allocOrder > maxOrder { return NULL; }
      p := Claim(size, allocOrder, order);
    }

    /** Detach a block of order from, cut it down to the wanted order and write its header. */
    method Claim(ghost size: nat, from: nat, order: nat) returns (p: int)
      requires Valid() && size > 0 && order == OrderFor(size) <= maxOrder
      requires from == FirstNonEmpty(state.free, order, maxOrder) <= maxOrder
      modifies this`mem, this`state, this`usedMem, freeLists
      ensures Valid() && (state, p) == Malloc(old(state), size)
    {
      ClaimFacts(state, size, from);
      var block: nat := freeLists[from];
      ghost var u := Detach(block, from);
      ghost var t := SplitTo(block, from, order, u);
      WriteHeader(block, order, t);
      p := block + HEADER_SIZE;
    }

    method WriteHeader(block: nat, order: nat, ghost t: Buddy)
      requires Linked() && Marked(mem, state.live) && state.free == t.free && Unlisted(t.free, block)
      requires usedMem == LiveBytes(state.live) && block !in state.live && t.live == state.live[block := order]
      modifies this`mem, this`usedMem, this`state
      ensures Linked() && Marked(mem, t.live) && state == t && usedMem == LiveBytes(t.live)
    {
      ghost var before := mem;
      mem := mem[block := Header(order, ALLOC_MAGIC)];
      usedMem := usedMem + Pow2(order);
      LiveBytesRemove(t.live, block);
      assert t.live - {block} == state.live;
      forall k | 0 <= k < freeLists.Length ensures Chained(mem, t.free[k]) {
        ChainedFrame(before, mem, t.free[k]);
      }
      state := t;
    }

    /** The first loop of my_malloc: the least order with a non-empty list. */
    method FirstList(order: nat) returns (a: nat)
      requires Linked() && order <= maxOrder < freeLists.Length
      ensures a == FirstNonEmpty(state.free, order, maxOrder)
    {
      a := order;
      while a <= maxOrder && freeLists[a] == NULL
        invariant order <= a <= maxOrder + 1
        invariant FirstNonEmpty(state.free, order, maxOrder) == FirstNonEmpty(state.free, a, maxOrder)
        decreases maxOrder + 1 - a
      {
        a := a + 1;
      }
    }

    /** The chosen block leaves its list. */
    method Detach(block: nat, order: nat) returns (ghost t: Buddy)
      requires Linked() && Marked(mem, state.live) && Listed(state)
      requires order < freeLists.Length && state.free[order] != [] && block == state.free[order][0]
      modifies this`mem, this`state, freeLists
      ensures t == Take(old(state), order) && state == old(state).(free := t.free)
      ensures Linked() && Marked(mem, state.live)
    {
      t := Take(state, order);
      ghost var before := mem;
      RemoveFromFreeList(block, order);
      ghost var c: Cell :| c.Node? && mem == Unlinked(before, c);
      UnlinkKeepsMarked(before, state.live, c);
    }

    /** The block in hand counts as live in t; the lists in memory are those of t. */
    ghost predicate InHand(t: Buddy, block: nat, order: nat)
      reads this, freeLists
    {
      && Linked() && Marked(mem, state.live) && state.free == t.free && Inv(t)
      && order < freeLists.Length && block !in state.live && t.live == state.live[block := order]
    }

    /** The second loop of my_malloc: split until the block has the wanted order. */
    method SplitTo(block: nat, from: nat, order: nat, ghost t: Buddy) returns (ghost r: Buddy)
      requires InHand(t, block, from) && MIN_ORDER <= order <= from
      modifies this`mem, this`state, freeLists
      ensures r == SplitDown(t, block, order)
      ensures InHand(r, block, order) && state == old(state).(free := r.free)
    {
      r := t;
      var allocOrder := from;
      while allocOrder > order
        invariant order <= allocOrder && InHand(r, block, allocOrder)
        invariant state == old(state).(free := r.free)
        invariant SplitDown(r, block, order) == SplitDown(t, block, order)
      {
        allocOrder := allocOrder - 1;
        r := SplitOnce(block, allocOrder, r);
      }
    }

    /** The body of the splitting loop: split, then take the lower half back off the list. */
    method SplitOnce(block: nat, order: nat, ghost t: Buddy) returns (ghost r: Buddy)
      requires InHand(t, block, order + 1) && MIN_ORDER <= order
      modifies this`mem, this`state, freeLists
      ensures r == Halve(t, block)
      ensures InHand(r, block, order) && state == old(state).(free := r.free)
    {
      HalveKeepsInv(t, block);
      HalvesUnlisted(t, block);
      r := Halve(t, block);
      ghost var u, l := block + Pow2(order), t.free[order];
      SplitBlock(block, order + 1);
      ghost var before := mem;
      assert state.free[order][1] == block;
      RemoveFromFreeList(block, order);
      ghost var c: Cell :| c.Node? && mem == Unlinked(before, c);
      UnlinkKeepsMarked(before, state.live, c);
      WithoutSecond(u, block, l);
      assert state.free == r.free;
    }

    method MyFree(ptr: int)
      requires Valid() && (ptr == NULL || ptr - HEADER_SIZE in mem)
      modifies this`mem, this`state, this`usedMem, freeLists
      ensures Valid() && Bounded(old(state)) && state == Free(old(state), ptr)
    {
      LiveOrdersBounded(state);
      if ptr == NULL { return; }
      var header := mem[ptr - HEADER_SIZE];
      if MagicOf(header) != ALLOC_MAGIC {
        assert !IsLivePointer(state, ptr);
        return;
      }
      var block: nat := ptr - HEADER_SIZE;
      var order := header.order;
      FreeGivesBack(state, ptr);
      ghost var t := state;
      ClearHeader(block, order);
      MergeAndRelease(block, order, t);
      assert state == Settle(t, block);
    }

    method ClearHeader(block: nat, order: nat)
      requires Valid() && block in state.live && order == state.live[block]
      modifies this`mem, this`state, this`usedMem
      ensures InHand(old(state), block, order)
      ensures state == old(state).(live := old(state).live - {block}) && usedMem == LiveBytes(state.live)
    {
      ghost var before := mem;
      LiveOrdersBounded(state);
      LiveBytesRemove(state.live, block);
      usedMem := usedMem - Pow2(order);
      mem := mem[block := Header(order, 0)];
      forall k | 0 <= k < freeLists.Length ensures Chained(mem, state.free[k]) {
        assert block !in state.free[k];
        ChainedFrame(before, mem, state.free[k]);
      }
      ghost var live := state.live;
      state := state.(live := live - {block});
      assert state.live[block := order] == live;
    }

    /** The merging loop of my_free and the final insertion. */
    method MergeAndRelease(ptrBlock: nat, ptrOrder: nat, ghost s: Buddy)
      requires InHand(s, ptrBlock, ptrOrder) && Bounded(s) && maxOrder == s.maxOrder
      modifies this`mem, this`state, freeLists
      ensures Linked() && Marked(mem, state.live)
      ensures state == old(state).(free := Settle(s, ptrBlock).free)
    {
      var block: nat, order: nat := ptrBlock, ptrOrder;
      ghost var t := s;
      while order < maxOrder
        invariant InHand(t, block, order) && Bounded(t) && t.maxOrder == maxOrder
        invariant state == old(state).(free := t.free)
        invariant Settle(t, block) == Settle(s, ptrBlock)
      {
        LiveOrdersBounded(t);
        var buddy;
        ghost var u;
        buddy, u := MergeOnce(block, order, t);
        if buddy == NULL {
          break;
        }
        t := u;
        if buddy < block {
          block := buddy;
        }
        order := order + 1;
      }
      PushKeepsMarked(mem, state.live, state.free[order], block);
      assert Unlisted(t.free, block) by { assert block in t.live; }
      AddToFreeList(block, order);
    }

    /** One turn of the merging loop. */
    method MergeOnce(block: nat, order: nat, ghost t: Buddy) returns (buddy: int, ghost u: Buddy)
      requires InHand(t, block, order) && order < t.maxOrder
      modifies this`mem, this`state, freeLists
      ensures state == old(state).(free := u.free)
      ensures if MateIsFree(t, block)
              then buddy == Mate(block, order) && u == Fuse(t, block) && InHand(u, Base(block, order), order + 1) && Bounded(u)
              else buddy == NULL && u == t && InHand(t, block, order)
    {
      MergeFacts(t, block);
      u := if MateIsFree(t, block) then Fuse(t, block) else t;
      buddy := FindAndRemoveBuddy(block, order);
    }
  }

  lemma MergeFacts(t: Buddy, block: nat)
    requires Inv(t) && block in t.live && t.live[block] < t.maxOrder
    ensures MateIsFree(t, block) ==>
              var u, k := Fuse(t, block), t.live[block];
              Inv(u) && Bounded(u) && u.live == (t.live - {block})[Base(block, k) := k + 1]
              && Base(block, k) !in t.live - {block}
  {
    if MateIsFree(t, block) {
      FuseKeepsInv(t, block);
      LiveOrdersBounded(Fuse(t, block));
    }
  }

  /** The clamp to MAX_POSSIBLE_ORDER never applies to sizes up to 2^31. */
  method TopOrder(size: nat) returns (max: nat)
    requires MIN_BLOCK_SIZE <= size <= UINT32 / 2
    ensures Pow2(max) <= size < Pow2(max + 1) && MIN_ORDER <= max < MAX_POSSIBLE_ORDER
  {
    max := Log2Ceil(size);
    OrderRange(size, if Pow2(max) > size then max - 1 else max);
    if Pow2(max) > size {
      max := max - 1;
    }
  }

  lemma EmptyRepresents(mem: Memory, heads: seq<int>, lists: seq<seq<nat>>)
    requires |heads| == |lists| && forall k :: 0 <= k < |lists| ==> heads[k] == NULL && lists[k] == []
    ensures Represents(mem, heads, lists) && Exclusive(lists)
  {
  }

  /** The value-level facts that one successful my_malloc needs. */
  lemma ClaimFacts(s: Buddy, size: nat, a: nat)
    requires Inv(s) && Balanced(s) && size > 0 && OrderFor(size) <= s.maxOrder
    requires a == FirstNonEmpty(s.free, OrderFor(size), s.maxOrder) <= s.maxOrder
    ensures var b, u := s.free[a][0], Take(s, a);
            && Inv(u) && b !in s.live && u.live == s.live[b := a]
            && var t := SplitDown(u, b, OrderFor(size));
               Malloc(s, size) == (t, b + HEADER_SIZE) && Inv(t) && Balanced(t) && Unlisted(t.free, b)
               && t.live == s.live[b := OrderFor(size)] && t.maxOrder == s.maxOrder
  {
    var b := s.free[a][0];
    assert b !in s.live;
    TakeKeepsInv(s, a);
    MallocAllocates(s, size);
    var t := Malloc(s, size).0;
    assert b in t.live && Listed(t);
  }

  lemma HalvesUnlisted(s: Buddy, b: nat)
    requires Inv(s) && b in s.live && s.live[b] > MIN_ORDER
    ensures Unlisted(s.free, b) && Unlisted(s.free, b + Pow2(s.live[b] - 1)) && b + Pow2(s.live[b] - 1) !in s.live
  {
    var k := s.live[b] - 1;
    var u := b + Pow2(k);
    assert InLive(s, b, k + 1);
    NotABlock(s, b, k + 1, u, k);
    forall j | 0 <= j < |s.free| ensures u !in s.free[j] {
      BlocksApart(s, u, j, b, k + 1);
    }
  }

  lemma WithoutSecond(u: nat, block: nat, l: seq<nat>)
    requires u != block
    ensures Without([u, block] + l, block) == [u] + l
  {
    assert ([u, block] + l)[1..] == [block] + l;
  }
}