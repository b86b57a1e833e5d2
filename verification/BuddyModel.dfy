/**
 The buddy allocator on values: one sequence of free offsets per order and a map
 from live offsets to their order. Offsets are relative to the start of the heap.
 A block that malloc or free is working on counts as live, so that every
 intermediate state of the splitting and merging loops satisfies the invariant.
 */
module BuddyModel {
  import opened Powers

  const MIN_BLOCK_SIZE := 32
  const MIN_ORDER := 5
  const MAX_POSSIBLE_ORDER := 32
  const HEADER_SIZE := 8
  const NULL := -1
  const UINT32: nat := 0x1_0000_0000

  datatype Buddy = Buddy(maxOrder: nat, free: seq<seq<nat>>, live: map<nat, nat>)

  // ----- sequences without repetition -----

  predicate NoDup(s: seq<nat>) {
    forall i, j :: 0 <= i < j < |s| ==> s[i] != s[j]
  }

  /** The sequence without the first occurrence of x. */
  function Without(s: seq<nat>, x: nat): seq<nat> {
    if s == [] then []
    else if s[0] == x then s[1..]
    else [s[0]] + Without(s[1..], x)
  }

  lemma {:induction false} WithoutAt(s: seq<nat>, i: nat)
    requires NoDup(s) && i < |s|
    ensures Without(s, s[i]) == s[..i] + s[i + 1..]
  {
    if i > 0 {
      WithoutAt(s[1..], i - 1);
    }
  }

  lemma WithoutRemoves(s: seq<nat>, x: nat)
    requires NoDup(s) && x in s
    ensures NoDup(Without(s, x)) && |Without(s, x)| == |s| - 1
    ensures forall y :: y in Without(s, x) <==> y in s && y != x
  {
    var i :| 0 <= i < |s| && s[i] == x;
    WithoutAt(s, i);
    forall y | y in s && y != x ensures y in s[..i] + s[i + 1..] {
      var j :| 0 <= j < |s| && s[j] == y;
      if j < i { assert (s[..i] + s[i + 1..])[j] == y; } else { assert (s[..i] + s[i + 1..])[j - 1] == y; }
    }
  }

  // ----- the invariant -----

  predicate InFree(s: Buddy, o: nat, k: nat) {
    k < |s.free| && o in s.free[k]
  }

  predicate InLive(s: Buddy, o: nat, k: nat) {
    o in s.live && s.live[o] == k
  }

  predicate IsBlock(s: Buddy, o: nat, k: nat) {
    InFree(s, o, k) || InLive(s, o, k)
  }

  predicate Shape(s: Buddy) {
    MIN_ORDER <= s.maxOrder < MAX_POSSIBLE_ORDER && |s.free| == MAX_POSSIBLE_ORDER + 1
  }

  predicate WellPlaced(max: nat, o: nat, k: nat) {
    MIN_ORDER <= k <= max && Aligned(o, k) && o + Pow2(k) <= Pow2(max)
  }

  ghost predicate Placed(s: Buddy) {
    forall o: nat, k: nat :: IsBlock(s, o, k) ==> WellPlaced(s.maxOrder, o, k)
  }

  predicate Listed(s: Buddy) {
    && (forall k :: 0 <= k < |s.free| ==> NoDup(s.free[k]))
    && (forall k, o: nat :: 0 <= k < |s.free| && o in s.free[k] ==> o !in s.live)
  }

  ghost predicate Separate(s: Buddy) {
    forall o: nat, k: nat, p: nat, j: nat :: IsBlock(s, o, k) && IsBlock(s, p, j) && (o != p || k != j) ==> Apart(o, k, p, j)
  }

  predicate Within(x: nat, o: nat, k: nat) {
    o <= x < o + Pow2(k)
  }

  ghost predicate Covered(s: Buddy, x: nat) {
    exists o: nat, k: nat :: IsBlock(s, o, k) && Within(x, o, k)
  }

  ghost predicate Covering(s: Buddy) {
    forall x: nat :: x < Pow2(s.maxOrder) ==> Covered(s, x)
  }

  /** The other half of the region one order up. */
  function Mate(o: nat, k: nat): nat {
    Xor(o, Pow2(k))
  }

  /** No two buddies below the top order are both free. */
  ghost predicate Coalesced(s: Buddy) {
    forall o: nat, k: nat :: InFree(s, o, k) && k < s.maxOrder ==> !InFree(s, Mate(o, k), k)
  }

  /** Free and live blocks are aligned, pairwise disjoint and cover the heap, and no two buddies are both free. */
  ghost predicate Inv(s: Buddy) {
    Shape(s) && Placed(s) && Listed(s) && Separate(s) && Covering(s) && Coalesced(s)
  }

  // ----- bytes -----

  function FreeBytes(free: seq<seq<nat>>): nat {
    if free == [] then 0
    else FreeBytes(free[..|free| - 1]) + Pow2(|free| - 1) * |free[|free| - 1]|
  }

  ghost function LiveBytes(live: map<nat, nat>): nat {
    if live == map[] then 0
    else var o :| o in live; Pow2(live[o]) + LiveBytes(live - {o})
  }

  lemma {:induction false} FreeBytesUpdate(free: seq<seq<nat>>, k: nat, l: seq<nat>)
    requires k < |free|
    ensures FreeBytes(free[k := l]) == FreeBytes(free) + Pow2(k) * |l| - Pow2(k) * |free[k]|
  {
    var n := |free| - 1;
    if k == n {
      assert free[k := l][..n] == free[..n];
    } else {
      assert free[k := l][..n] == free[..n][k := l];
      FreeBytesUpdate(free[..n], k, l);
    }
  }

  lemma {:induction false} LiveBytesRemove(live: map<nat, nat>, o: nat)
    requires o in live
    ensures LiveBytes(live) == Pow2(live[o]) + LiveBytes(live - {o})
    decreases |live|
  {
    var p :| p in live && LiveBytes(live) == Pow2(live[p]) + LiveBytes(live - {p});
    if p != o {
      assert |live - {p}| < |live| by { assert live.Keys == (live - {p}).Keys + {p}; }
      LiveBytesRemove(live - {p}, o);
      LiveBytesRemove'(live, o, p);
      assert live - {p} - {o} == live - {o} - {p};
    }
  }

  lemma LiveBytesRemove'(live: map<nat, nat>, o: nat, p: nat)
    requires o in live && p in live && o != p
    ensures LiveBytes(live - {o}) == Pow2(live[p]) + LiveBytes(live - {o} - {p})
    decreases |live|, 0
  {
    assert |live - {o}| < |live| by { assert live.Keys == (live - {o}).Keys + {o}; }
    LiveBytesRemove(live - {o}, p);
  }

  ghost predicate Balanced(s: Buddy) {
    LiveBytes(s.live) + FreeBytes(s.free) == Pow2(s.maxOrder)
  }

  // ----- the four moves every malloc and free is made of -----

  /** The head of free list k becomes live. */
  function Take(s: Buddy, k: nat): Buddy
    requires k < |s.free| && s.free[k] != []
  {
    s.(free := s.free[k := s.free[k][1..]], live := s.live[s.free[k][0] := k])
  }

  /** A live block goes to the head of its free list. */
  function Release(s: Buddy, b: nat): Buddy
    requires b in s.live && s.live[b] < |s.free|
  {
    var k := s.live[b];
    s.(free := s.free[k := [b] + s.free[k]], live := s.live - {b})
  }

  /** A live block keeps its lower half; the upper half is freed. */
  function Halve(s: Buddy, b: nat): Buddy
    requires b in s.live && 0 < s.live[b] <= |s.free|
  {
    var k := s.live[b] - 1;
    s.(free := s.free[k := [b + Pow2(k)] + s.free[k]], live := s.live[b := k])
  }

  predicate MateIsFree(s: Buddy, b: nat)
    requires b in s.live
  {
    var k := s.live[b];
    k < |s.free| && Mate(b, k) in s.free[k]
  }

  function Base(b: nat, k: nat): nat {
    if Mate(b, k) < b then Mate(b, k) else b
  }

  /** A live block absorbs its free buddy; the lower one is the base of the result. */
  function Fuse(s: Buddy, b: nat): Buddy
    requires b in s.live && MateIsFree(s, b)
  {
    var k := s.live[b];
    s.(free := s.free[k := Without(s.free[k], Mate(b, k))], live := (s.live - {b})[Base(b, k) := k + 1])
  }

  // ----- malloc and free -----

  /** The least order whose blocks hold n bytes. */
  function CeilLog2(n: nat): (k: nat)
    ensures n <= Pow2(k) && (k > 0 ==> Pow2(k - 1) < n)
  {
    if n <= 1 then 0 else 1 + CeilLog2((n + 1) / 2)
  }

  /** The request plus the header, in 32-bit arithmetic. */
  function TotalSize(size: nat): nat {
    (size + HEADER_SIZE) % UINT32
  }

  function OrderFor(size: nat): nat {
    var k := CeilLog2(TotalSize(size));
    if k < MIN_ORDER then MIN_ORDER else k
  }

  /** The least order from k up to max with a free block, or max + 1. */
  function FirstNonEmpty(free: seq<seq<nat>>, k: nat, max: nat): (a: nat)
    requires max < |free| && k <= max + 1
    ensures k <= a <= max + 1
    ensures a <= max ==> free[a] != []
    ensures forall j :: k <= j < a ==> free[j] == []
    decreases max + 1 - k
  {
    if k > max then max + 1
    else if free[k] != [] then k
    else FirstNonEmpty(free, k + 1, max)
  }

  function SplitDown(s: Buddy, b: nat, order: nat): Buddy
    requires b in s.live && s.live[b] <= |s.free|
    decreases if b in s.live then s.live[b] else 0
  {
    if s.live[b] <= order then s else SplitDown(Halve(s, b), b, order)
  }

  function Malloc(s: Buddy, size: nat): (Buddy, int)
    requires s.maxOrder < |s.free|
  {
    var order := OrderFor(size);
    if size == 0 || order > s.maxOrder then (s, NULL)
    else
      var a := FirstNonEmpty(s.free, order, s.maxOrder);
      if a > s.maxOrder then (s, NULL)
      else
        var b := s.free[a][0];
        (SplitDown(Take(s, a), b, order), b + HEADER_SIZE)
  }

  function Settle(s: Buddy, b: nat): Buddy
    requires b in s.live && s.live[b] <= s.maxOrder < |s.free|
    decreases if b in s.live then s.maxOrder - s.live[b] else 0
  {
    if s.live[b] < s.maxOrder && MateIsFree(s, b)
    then Settle(Fuse(s, b), Base(b, s.live[b]))
    else Release(s, b)
  }

  predicate IsLivePointer(s: Buddy, p: int) {
    p >= HEADER_SIZE && p - HEADER_SIZE in s.live
  }

  predicate Bounded(s: Buddy) {
    s.maxOrder < |s.free| && forall o :: o in s.live ==> s.live[o] <= s.maxOrder
  }

  /** Freeing anything but a live pointer changes nothing. */
  function Free(s: Buddy, p: int): Buddy
    requires Bounded(s)
  {
    if IsLivePointer(s, p) then Settle(s, p - HEADER_SIZE) else s
  }

  // ----- the moves keep the invariant -----

  /** Moving blocks between free and live keeps the tiling. */
  lemma SameBlocks(s: Buddy, t: Buddy)
    requires Shape(s) && Placed(s) && Separate(s) && Covering(s)
    requires t.maxOrder == s.maxOrder
    requires forall o: nat, k: nat :: IsBlock(s, o, k) <==> IsBlock(t, o, k)
    ensures Placed(t) && Separate(t) && Covering(t)
  {
    forall x: nat | x < Pow2(t.maxOrder) ensures Covered(t, x) {
      assert Covered(s, x);
      var o: nat, k: nat :| IsBlock(s, o, k) && Within(x, o, k);
      assert IsBlock(t, o, k);
    }
  }

  lemma TakeKeepsInv(s: Buddy, k: nat)
    requires Inv(s) && k < |s.free| && s.free[k] != []
    ensures Inv(Take(s, k))
  {
    var t, b := Take(s, k), s.free[k][0];
    assert InFree(s, b, k);
    assert s.free[k] == [b] + s.free[k][1..];
    forall o: nat, j: nat | InFree(t, o, j) ensures InFree(s, o, j) && o != b {
      assert o == b ==> Apart(o, j, b, k);
    }
    forall o: nat, j: nat ensures IsBlock(s, o, j) <==> IsBlock(t, o, j) {
      if InFree(s, o, j) && j != k { assert InFree(t, o, j); }
    }
    SameBlocks(s, t);
    forall j, o: nat | 0 <= j < |t.free| && o in t.free[j] ensures o !in t.live {
      assert InFree(t, o, j);
    }
  }

  lemma ReleaseKeepsInv(s: Buddy, b: nat)
    requires Inv(s) && b in s.live
    requires s.live[b] < s.maxOrder ==> !MateIsFree(s, b)
    ensures InLive(s, b, s.live[b]) && s.live[b] <= s.maxOrder && Inv(Release(s, b))
  {
    var k := s.live[b];
    assert InLive(s, b, k);
    assert WellPlaced(s.maxOrder, b, k);
    var t := Release(s, b);
    forall o: nat, j: nat ensures InFree(t, o, j) <==> InFree(s, o, j) || (o == b && j == k) {
    }
    forall o: nat, j: nat ensures IsBlock(s, o, j) <==> IsBlock(t, o, j) {
    }
    SameBlocks(s, t);
    forall o: nat, j: nat | InFree(t, o, j) && j < t.maxOrder ensures !InFree(t, Mate(o, j), j) {
      assert InFree(s, o, j) || (o == b && j == k);
      AlignedParent(o, j) by { assert IsBlock(t, o, j); assert WellPlaced(t.maxOrder, o, j); }
      MateInvolution(o, j) by { assert IsBlock(t, o, j); assert WellPlaced(t.maxOrder, o, j); }
    }
  }

  lemma MateInvolution(o: nat, k: nat)
    requires Aligned(o, k)
    ensures Aligned(Mate(o, k), k) && Mate(Mate(o, k), k) == o && Mate(o, k) != o
    ensures Aligned(Base(o, k), k + 1) && Base(Mate(o, k), k) == Base(o, k)
    ensures (Base(o, k) == o && Mate(o, k) == o + Pow2(k)) || (Base(o, k) == Mate(o, k) && o == Base(o, k) + Pow2(k))
  {
    AlignedParent(o, k);
    var b := Base(o, k);
    AlignedHalves(b, k);
    AlignedParent(b, k);
    AlignedParent(b + Pow2(k), k);
  }

  /** The blocks of t are those of s with (b, k + 1) replaced by its two halves. */
  ghost predicate Halved(s: Buddy, t: Buddy, b: nat, k: nat) {
    && t.maxOrder == s.maxOrder
    && (forall o: nat, j: nat :: IsBlock(t, o, j) <==>
          ((IsBlock(s, o, j) && !(o == b && j == k + 1)) || (j == k && (o == b || o == b + Pow2(k)))))
  }

  /** A block that fits the tiling of s in place of others is apart from the rest. */
  lemma HalvedTiling(s: Buddy, t: Buddy, b: nat, k: nat)
    requires Shape(s) && Placed(s) && Separate(s) && Covering(s)
    requires IsBlock(s, b, k + 1) && k >= MIN_ORDER
    requires Halved(s, t, b, k)
    ensures Placed(t) && Separate(t) && Covering(t)
  {
    assert WellPlaced(s.maxOrder, b, k + 1);
    AlignedHalves(b, k);
    assert WellPlaced(s.maxOrder, b, k) && WellPlaced(s.maxOrder, b + Pow2(k), k);
    forall o: nat, j: nat, p: nat, i: nat | IsBlock(t, o, j) && IsBlock(t, p, i) && (o != p || j != i)
      ensures Apart(o, j, p, i)
    {
      if IsBlock(s, o, j) && !(o == b && j == k + 1) {
        assert Apart(o, j, b, k + 1);
      }
      if IsBlock(s, p, i) && !(p == b && i == k + 1) {
        assert Apart(p, i, b, k + 1);
      }
    }
    forall x: nat | x < Pow2(t.maxOrder) ensures Covered(t, x) {
      assert Covered(s, x);
      var o: nat, j: nat :| IsBlock(s, o, j) && Within(x, o, j);
      if o == b && j == k + 1 {
        assert Within(x, b, k) || Within(x, b + Pow2(k), k);
        assert IsBlock(t, b, k) && IsBlock(t, b + Pow2(k), k);
      } else {
        assert IsBlock(t, o, j);
      }
    }
  }

  /** The converse: two halves joined into one block. */
  lemma FusedTiling(s: Buddy, t: Buddy, b: nat, k: nat)
    requires Shape(t) && Placed(t) && Separate(t) && Covering(t)
    requires IsBlock(t, b, k) && IsBlock(t, b + Pow2(k), k) && Aligned(b, k + 1) && k < t.maxOrder
    requires s.maxOrder == t.maxOrder
    requires forall o: nat, j: nat :: IsBlock(s, o, j) <==>
               ((IsBlock(t, o, j) && !(j == k && (o == b || o == b + Pow2(k)))) || (o == b && j == k + 1))
    ensures Placed(s) && Separate(s) && Covering(s)
  {
    assert WellPlaced(t.maxOrder, b, k) && WellPlaced(t.maxOrder, b + Pow2(k), k);
    assert WellPlaced(s.maxOrder, b, k + 1);
    forall o: nat, j: nat, p: nat, i: nat | IsBlock(s, o, j) && IsBlock(s, p, i) && (o != p || j != i)
      ensures Apart(o, j, p, i)
    {
      if !(o == b && j == k + 1) {
        assert Apart(o, j, b, k) && Apart(o, j, b + Pow2(k), k);
      }
      if !(p == b && i == k + 1) {
        assert Apart(p, i, b, k) && Apart(p, i, b + Pow2(k), k);
      }
    }
    forall x: nat | x < Pow2(s.maxOrder) ensures Covered(s, x) {
      assert Covered(t, x);
      var o: nat, j: nat :| IsBlock(t, o, j) && Within(x, o, j);
      if j == k && (o == b || o == b + Pow2(k)) {
        assert Within(x, b, k + 1) && IsBlock(s, b, k + 1);
      } else {
        assert IsBlock(s, o, j);
      }
    }
  }

  lemma HalveKeepsInv(s: Buddy, b: nat)
    requires Inv(s) && b in s.live && s.live[b] > MIN_ORDER
    ensures s.live[b] <= |s.free| && Inv(Halve(s, b))
  {
    var k := s.live[b] - 1;
    assert InLive(s, b, k + 1);
    assert WellPlaced(s.maxOrder, b, k + 1);
    var t, u := Halve(s, b), b + Pow2(k);
    forall o: nat, j: nat ensures InFree(t, o, j) <==> InFree(s, o, j) || (o == u && j == k) {
    }
    NotABlock(s, b, k + 1, b, k);
    NotABlock(s, b, k + 1, u, k);
    forall o: nat, j: nat
      ensures IsBlock(t, o, j) <==> (IsBlock(s, o, j) && !(o == b && j == k + 1)) || (j == k && (o == b || o == u))
    {
      assert !InFree(s, b, k + 1);
    }
    HalvedTiling(s, t, b, k);
    HalveKeepsListed(s, b);
    forall o: nat, j: nat | InFree(t, o, j) && j < t.maxOrder ensures !InFree(t, Mate(o, j), j) {
      assert IsBlock(t, o, j) && WellPlaced(t.maxOrder, o, j);
      MateInvolution(o, j);
      MateInvolution(b, k) by { AlignedHalves(b, k); }
      AlignedParent(b, k) by { AlignedHalves(b, k); }
      assert Mate(b, k) == u;
      assert !InFree(s, b, k);
    }
  }

  lemma BlocksApart(s: Buddy, o: nat, k: nat, p: nat, j: nat)
    requires Separate(s)
    ensures IsBlock(s, o, k) && IsBlock(s, p, j) && (o != p || k != j) ==> Apart(o, k, p, j)
  {
  }

  /** Nothing strictly inside a block, or equal to it in place but not in order, is a block. */
  lemma NotABlock(s: Buddy, b: nat, k: nat, o: nat, j: nat)
    requires Inv(s) && IsBlock(s, b, k) && Inside(o, j, b, k) && (o != b || j != k)
    ensures !IsBlock(s, o, j) && (o != b ==> o !in s.live)
  {
    BlocksApart(s, o, j, b, k);
    if o in s.live {
      assert InLive(s, o, s.live[o]);
      BlocksApart(s, o, s.live[o], b, k);
    }
  }

  lemma HalveKeepsListed(s: Buddy, b: nat)
    requires Inv(s) && b in s.live && MIN_ORDER < s.live[b] <= |s.free|
    ensures Listed(Halve(s, b))
  {
    var k := s.live[b] - 1;
    var t, u := Halve(s, b), b + Pow2(k);
    assert InLive(s, b, k + 1);
    NotABlock(s, b, k + 1, u, k);
    assert u !in s.free[k] by { assert !InFree(s, u, k); }
  }

  lemma FuseKeepsInv(s: Buddy, b: nat)
    requires Inv(s) && b in s.live && MateIsFree(s, b) && s.live[b] < s.maxOrder
    ensures Inv(Fuse(s, b)) && Base(b, s.live[b]) in Fuse(s, b).live
  {
    var k := s.live[b];
    var m, a := Mate(b, k), Base(b, k);
    assert InLive(s, b, k) && InFree(s, m, k);
    assert WellPlaced(s.maxOrder, b, k) && WellPlaced(s.maxOrder, m, k);
    MateInvolution(b, k);
    WithoutRemoves(s.free[k], m);
    var t := Fuse(s, b);
    forall o: nat, j: nat ensures InFree(t, o, j) <==> InFree(s, o, j) && !(o == m && j == k) {
    }
    assert m !in s.live && !InFree(s, b, k);
    BlocksApart(s, a, k + 1, b, k);
    forall o: nat, j: nat
      ensures IsBlock(t, o, j) <==>
                (IsBlock(s, o, j) && !(j == k && (o == a || o == a + Pow2(k)))) || (o == a && j == k + 1)
    {
    }
    FusedTiling(t, s, a, k);
    forall j, o: nat | 0 <= j < |t.free| && o in t.free[j] ensures o !in t.live {
      assert InFree(t, o, j) && InFree(s, o, j);
      BlocksApart(s, o, j, m, k);
    }
  }

  // ----- bytes are conserved -----

  lemma FreeBytesResize(free: seq<seq<nat>>, k: nat, l: seq<nat>)
    requires k < |free|
    ensures |l| == |free[k]| + 1 ==> FreeBytes(free[k := l]) == FreeBytes(free) + Pow2(k)
    ensures |l| == |free[k]| - 1 ==> FreeBytes(free[k := l]) == FreeBytes(free) - Pow2(k)
  {
    FreeBytesUpdate(free, k, l);
    ProductStep(Pow2(k), |free[k]|, |l|);
  }

  lemma ProductStep(m: int, n: int, c: int)
    ensures c == n + 1 ==> m * c == m * n + m
    ensures c == n - 1 ==> m * c == m * n - m
  {
  }

  lemma TakeBalanced(s: Buddy, k: nat)
    requires Balanced(s) && k < |s.free| && s.free[k] != [] && s.free[k][0] !in s.live
    ensures Balanced(Take(s, k))
  {
    var b := s.free[k][0];
    FreeBytesResize(s.free, k, s.free[k][1..]);
    LiveBytesRemove(Take(s, k).live, b);
    assert Take(s, k).live - {b} == s.live;
  }

  lemma ReleaseBalanced(s: Buddy, b: nat)
    requires Balanced(s) && b in s.live && s.live[b] < |s.free|
    ensures Balanced(Release(s, b))
  {
    var k := s.live[b];
    FreeBytesResize(s.free, k, [b] + s.free[k]);
    LiveBytesRemove(s.live, b);
  }

  lemma HalveBalanced(s: Buddy, b: nat)
    requires Balanced(s) && b in s.live && 0 < s.live[b] <= |s.free|
    ensures Balanced(Halve(s, b))
  {
    var k := s.live[b] - 1;
    FreeBytesResize(s.free, k, [b + Pow2(k)] + s.free[k]);
    LiveBytesRemove(s.live, b);
    var live := s.live[b := k];
    LiveBytesRemove(live, b);
    assert live - {b} == s.live - {b};
  }

  lemma LiveBytesRekey(live: map<nat, nat>, b: nat, a: nat)
    requires b in live && (a == b || a !in live)
    ensures LiveBytes((live - {b})[a := live[b] + 1]) == LiveBytes(live) + Pow2(live[b])
  {
    LiveBytesRemove(live, b);
    var grown := (live - {b})[a := live[b] + 1];
    LiveBytesRemove(grown, a);
    assert grown - {a} == live - {b};
  }

  lemma FuseBalanced(s: Buddy, b: nat)
    requires Listed(s) && Balanced(s) && b in s.live && MateIsFree(s, b)
    requires Base(b, s.live[b]) == b || Base(b, s.live[b]) !in s.live
    ensures Balanced(Fuse(s, b))
  {
    var k := s.live[b];
    WithoutRemoves(s.free[k], Mate(b, k));
    FreeBytesResize(s.free, k, Without(s.free[k], Mate(b, k)));
    LiveBytesRekey(s.live, b, Base(b, k));
  }

  // ----- malloc and free over the moves -----

  lemma {:induction false} SplitDownKeepsInv(s: Buddy, b: nat, order: nat)
    requires Inv(s) && b in s.live && MIN_ORDER <= order <= s.live[b] <= |s.free|
    ensures Inv(SplitDown(s, b, order))
    decreases s.live[b]
  {
    if s.live[b] > order {
      HalveKeepsInv(s, b);
      SplitDownKeepsInv(Halve(s, b), b, order);
    }
  }

  lemma {:induction false} SplitDownLive(s: Buddy, b: nat, order: nat)
    requires Balanced(s) && b in s.live && order <= s.live[b] <= |s.free|
    ensures var t := SplitDown(s, b, order);
            Balanced(t) && t.live == s.live[b := order] && t.maxOrder == s.maxOrder && |t.free| == |s.free|
    decreases s.live[b]
  {
    if s.live[b] > order {
      HalveBalanced(s, b);
      SplitDownLive(Halve(s, b), b, order);
    } else {
      assert s.live == s.live[b := order];
    }
  }

  lemma {:induction false} SettleKeepsInv(s: Buddy, b: nat)
    requires Inv(s) && Balanced(s) && b in s.live
    ensures s.live[b] <= s.maxOrder
    ensures var t := Settle(s, b);
            Inv(t) && Balanced(t) && t.live == s.live - {b} && t.maxOrder == s.maxOrder
    decreases s.maxOrder - s.live[b]
  {
    var k := s.live[b];
    assert InLive(s, b, k) && WellPlaced(s.maxOrder, b, k);
    if k < s.maxOrder && MateIsFree(s, b) {
      var a := Base(b, k);
      assert InFree(s, Mate(b, k), k);
      FuseKeepsInv(s, b);
      FuseBalanced(s, b);
      SettleKeepsInv(Fuse(s, b), a);
      assert Fuse(s, b).live - {a} == s.live - {b};
    } else {
      ReleaseKeepsInv(s, b);
      ReleaseBalanced(s, b);
    }
  }
}
