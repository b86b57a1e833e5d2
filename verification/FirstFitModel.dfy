/**
 The first-fit heap on values: the sequence of blocks from the start of the heap to
 its end. Addresses are relative to the start of the heap; every block is a header
 followed by its data.
 */
module FirstFitModel {
  const HEADER: nat := 16
  const UINT32: nat := 0x1_0000_0000
  const NULL := -1

  datatype Block = Block(size: nat, free: bool)

  function Extent(b: Block): nat {
    b.size + HEADER
  }

  function Total(s: seq<Block>): nat {
    if s == [] then 0 else Extent(s[0]) + Total(s[1..])
  }

  /** Bytes held by allocated blocks and their headers: used_mem. */
  function Used(s: seq<Block>): nat {
    if s == [] then 0 else (if s[0].free then 0 else Extent(s[0])) + Used(s[1..])
  }

  function Vacant(s: seq<Block>): nat {
    if s == [] then 0 else (if s[0].free then Extent(s[0]) else 0) + Vacant(s[1..])
  }

  lemma {:induction false} TotalIsUsedAndVacant(s: seq<Block>)
    ensures Total(s) == Used(s) + Vacant(s)
  {
    if s != [] { TotalIsUsedAndVacant(s[1..]); }
  }

  /** No two adjacent free blocks. */
  predicate Normal(s: seq<Block>) {
    forall i :: 0 <= i < |s| - 1 ==> !(s[i].free && s[i + 1].free)
  }

  /** The allocated blocks of a heap laid out from base: header address to data size. */
  function Live(s: seq<Block>, base: nat): map<nat, nat> {
    if s == [] then map[]
    else
      var rest := Live(s[1..], base + Extent(s[0]));
      if s[0].free then rest else rest[base := s[0].size]
  }

  // ----- malloc -----

  /** ALIGN4 in 32-bit arithmetic. */
  function Align4(x: nat): nat
    requires x < UINT32
  {
    ((x + UINT32 - 1) % UINT32 / 4 * 4 + 4) % UINT32
  }

  predicate Fits(b: Block, n: nat) {
    b.free && b.size >= n
  }

  /** The position of the first block that fits, or |s|. */
  function FindFit(s: seq<Block>, n: nat): (i: nat)
    ensures i <= |s| && (i < |s| ==> Fits(s[i], n))
    ensures forall j :: 0 <= j < i ==> !Fits(s[j], n)
  {
    if s == [] || Fits(s[0], n) then 0 else 1 + FindFit(s[1..], n)
  }

  /** The allocated block, followed by the rest of a block large enough to be divided. */
  function Carve(b: Block, n: nat): (r: seq<Block>)
    requires Fits(b, n)
    ensures Total(r) == Extent(b) && 1 <= |r| <= 2
  {
    if b.size >= n + HEADER + 4 then
      var r := [Block(n, false), Block(b.size - n - HEADER, true)];
      assert Total(r[1..]) == Extent(r[1]);
      r
    else [Block(b.size, false)]
  }

  function Allocated(s: seq<Block>, i: nat, n: nat): seq<Block>
    requires i < |s| && Fits(s[i], n)
  {
    s[..i] + Carve(s[i], n) + s[i + 1..]
  }

  function Malloc(s: seq<Block>, size: nat): (seq<Block>, int)
    requires size < UINT32
  {
    var n := Align4(size);
    var i := FindFit(s, n);
    if i == |s| then (s, NULL) else (Allocated(s, i, n), Total(s[..i]) + HEADER)
  }

  // ----- free -----

  function Merge(a: Block, b: Block): Block {
    Block(a.size + HEADER + b.size, true)
  }

  /** One left-to-right pass that joins a free block with the free blocks after it. */
  function Coalesce(s: seq<Block>): (r: seq<Block>)
    ensures Total(r) == Total(s) && Used(r) == Used(s)
    ensures |r| <= |s| && (s != [] ==> r != [] && r[0].free == s[0].free)
    decreases |s|
  {
    if |s| < 2 then s
    else if s[0].free && s[1].free then
      var t := [Merge(s[0], s[1])] + s[2..];
      assert t[1..] == s[2..] && s[1..][1..] == s[2..];
      Coalesce(t)
    else [s[0]] + Coalesce(s[1..])
  }

  /** The position of the block whose header is at address o, or |s|. */
  function BlockAt(s: seq<Block>, base: nat, o: int): (i: nat)
    ensures i <= |s| && (i < |s| ==> base + Total(s[..i]) == o)
  {
    if s == [] then 0
    else if base == o then assert s[..0] == []; 0
    else
      var i := BlockAt(s[1..], base + Extent(s[0]), o);
      assert i < |s[1..]| ==> s[..i + 1] == [s[0]] + s[1..][..i];
      if i == |s| - 1 then |s| else
        assert s[..i + 1][1..] == s[1..][..i];
        1 + i
  }

  predicate IsLivePointer(s: seq<Block>, p: int) {
    p >= HEADER && p - HEADER in Live(s, 0)
  }

  function Free(s: seq<Block>, p: int): seq<Block> {
    var i := BlockAt(s, 0, p - HEADER);
    if i == |s| then s else Coalesce(s[i := s[i].(free := true)])
  }

  // ----- sums and live blocks over concatenation -----

  lemma {:induction false} TotalAppend(a: seq<Block>, b: seq<Block>)
    ensures Total(a + b) == Total(a) + Total(b) && Used(a + b) == Used(a) + Used(b)
  {
    if a == [] {
      assert a + b == b;
    } else {
      assert (a + b)[1..] == a[1..] + b;
      TotalAppend(a[1..], b);
    }
  }

  lemma {:induction false} LiveKeys(s: seq<Block>, base: nat)
    ensures forall o :: o in Live(s, base) ==> base <= o && o + HEADER + Live(s, base)[o] <= base + Total(s)
  {
    if s != [] {
      LiveKeys(s[1..], base + Extent(s[0]));
    }
  }

  lemma {:induction false} LiveAppend(a: seq<Block>, b: seq<Block>, base: nat)
    ensures Live(a + b, base) == Live(a, base) + Live(b, base + Total(a))
  {
    LiveKeys(b, base + Total(a));
    if a == [] {
      assert a + b == b;
    } else {
      assert (a + b)[1..] == a[1..] + b;
      LiveAppend(a[1..], b, base + Extent(a[0]));
    }
  }

  lemma {:induction false} CoalesceNormal(s: seq<Block>)
    ensures Normal(Coalesce(s))
    decreases |s|
  {
    if |s| >= 2 {
      if s[0].free && s[1].free {
        CoalesceNormal([Merge(s[0], s[1])] + s[2..]);
      } else {
        CoalesceNormal(s[1..]);
      }
    }
  }

  lemma {:induction false} CoalesceLive(s: seq<Block>, base: nat)
    ensures Live(Coalesce(s), base) == Live(s, base)
    decreases |s|
  {
    if |s| >= 2 {
      if s[0].free && s[1].free {
        var t := [Merge(s[0], s[1])] + s[2..];
        assert t[1..] == s[2..] && s[1..][1..] == s[2..];
        CoalesceLive(t, base);
      } else {
        CoalesceLive(s[1..], base + Extent(s[0]));
      }
    }
  }

  // ----- what malloc and free do to the live blocks -----

  /** A middle part, starting at o and ending at e, with its surroundings. */
  lemma ThreeParts(a: seq<Block>, m: seq<Block>, b: seq<Block>, o: nat, e: nat)
    requires o == Total(a) && e == o + Total(m)
    ensures Total(a + m + b) == e + Total(b)
    ensures Used(a + m + b) == Used(a) + Used(m) + Used(b)
    ensures Live(a + m + b, 0) == Live(a, 0) + Live(m, o) + Live(b, e)
    ensures forall x :: x in Live(a, 0) ==> x < o
    ensures forall x :: x in Live(b, e) ==> x >= e
  {
    TotalAppend(a, m);
    TotalAppend(a + m, b);
    LiveAppend(a, m, 0);
    LiveAppend(a + m, b, 0);
    LiveKeys(a, 0);
    LiveKeys(b, e);
  }

  lemma InsertBetween(a: map<nat, nat>, b: map<nat, nat>, o: nat, v: nat)
    requires (forall x :: x in a ==> x < o) && (forall x :: x in b ==> x > o)
    ensures o !in a + map[] + b && a + map[o := v] + b == (a + map[] + b)[o := v]
    ensures (a + map[o := v] + b) - {o} == a + map[] + b
  {
  }

  /** Exchanging one free block for parts of the same extent, of which only the first is live. */
  lemma ExchangeEffect(a: seq<Block>, x: Block, c: seq<Block>, b: seq<Block>, o: nat, e: nat)
    requires o == Total(a) && e == o + Extent(x) && x.free
    requires Total(c) == Extent(x) && c != [] && Live(c, o) == map[o := c[0].size] && Used(c) == Extent(c[0])
    ensures Total(a + c + b) == Total(a + [x] + b) && Used(a + c + b) == Used(a + [x] + b) + Extent(c[0])
    ensures o !in Live(a + [x] + b, 0) && Live(a + c + b, 0) == Live(a + [x] + b, 0)[o := c[0].size]
    ensures Live(a + c + b, 0) - {o} == Live(a + [x] + b, 0)
  {
    OneBlock(x, o);
    ThreeParts(a, [x], b, o, e);
    ThreeParts(a, c, b, o, e);
    InsertBetween(Live(a, 0), Live(b, e), o, c[0].size);
  }

  lemma OneBlock(b: Block, o: nat)
    ensures Total([b]) == Extent(b) && Used([b]) == (if b.free then 0 else Extent(b))
    ensures Live([b], o) == (if b.free then map[] else map[o := b.size])
  {
    assert [b][1..] == [];
  }

  lemma CarveEffect(b: Block, n: nat, o: nat)
    requires Fits(b, n)
    ensures var c := Carve(b, n);
            Live(c, o) == map[o := c[0].size] && Used(c) == Extent(c[0]) && n <= c[0].size < n + HEADER + 4
  {
    var c := Carve(b, n);
    OneBlock(c[0], o);
    if |c| == 2 {
      OneBlock(c[1], o + Extent(c[0]));
      assert c == [c[0]] + [c[1]];
      LiveAppend([c[0]], [c[1]], o);
      TotalAppend([c[0]], [c[1]]);
    } else {
      assert c == [c[0]];
    }
  }

  /** Allocating adds exactly one live block, at an address that was not live. */
  lemma AllocatedEffect(s: seq<Block>, i: nat, n: nat)
    requires i < |s| && Fits(s[i], n)
    ensures var t, o, c := Allocated(s, i, n), Total(s[..i]), Carve(s[i], n);
            && o !in Live(s, 0)
            && Live(t, 0) == Live(s, 0)[o := c[0].size]
            && Total(t) == Total(s) && Used(t) == Used(s) + Extent(c[0])
            && n <= c[0].size < n + HEADER + 4
  {
    var a, c, b := s[..i], Carve(s[i], n), s[i + 1..];
    assert s == a + [s[i]] + b;
    CarveEffect(s[i], n, Total(a));
    ExchangeEffect(a, s[i], c, b, Total(a), Total(a) + Extent(s[i]));
  }

  lemma {:induction false} LiveIsBlock(s: seq<Block>, base: nat, o: int)
    ensures var i := BlockAt(s, base, o);
            o in Live(s, base) <==> (i < |s| && !s[i].free)
    ensures o in Live(s, base) ==> Live(s, base)[o] == s[BlockAt(s, base, o)].size
  {
    if s != [] {
      LiveIsBlock(s[1..], base + Extent(s[0]), o);
      LiveKeys(s[1..], base + Extent(s[0]));
    }
  }

  lemma MarkedFreeEffect(s: seq<Block>, i: nat)
    requires i < |s| && !s[i].free
    ensures var t, o := s[i := s[i].(free := true)], Total(s[..i]);
            && o in Live(s, 0) && Live(t, 0) == Live(s, 0) - {o}
            && Total(t) == Total(s) && Used(t) == Used(s) - Extent(s[i])
  {
    var a, b := s[..i], s[i + 1..];
    var f := s[i].(free := true);
    assert s == a + [s[i]] + b && s[i := f] == a + [f] + b;
    OneBlock(s[i], Total(a));
    ExchangeEffect(a, f, [s[i]], b, Total(a), Total(a) + Extent(f));
  }

  /** Freeing a live pointer removes exactly its block; the result has no adjacent free blocks. */
  lemma FreeEffect(s: seq<Block>, p: int)
    requires IsLivePointer(s, p)
    ensures var t := Free(s, p);
            && Normal(t) && Total(t) == Total(s)
            && Live(t, 0) == Live(s, 0) - {p - HEADER}
            && Used(t) == Used(s) - (Live(s, 0)[p - HEADER] + HEADER)
  {
    LiveIsBlock(s, 0, p - HEADER);
    var i := BlockAt(s, 0, p - HEADER);
    MarkedFreeEffect(s, i);
    var t := s[i := s[i].(free := true)];
    CoalesceNormal(t);
    CoalesceLive(t, 0);
  }

  /** What one malloc does, whether or not it succeeds. */
  lemma MallocEffect(s: seq<Block>, size: nat)
    requires Normal(s) && size < UINT32
    ensures var (t, p) := Malloc(s, size);
            && Normal(t) && Total(t) == Total(s)
            && (p == NULL ==> t == s)
            && (p != NULL ==>
                  && p >= HEADER && p - HEADER !in Live(s, 0) && p - HEADER in Live(t, 0)
                  && Live(t, 0) == Live(s, 0)[p - HEADER := Live(t, 0)[p - HEADER]]
                  && Align4(size) <= Live(t, 0)[p - HEADER] < Align4(size) + HEADER + 4
                  && Used(t) == Used(s) + Live(t, 0)[p - HEADER] + HEADER)
  {
    var n := Align4(size);
    var i := FindFit(s, n);
    if i < |s| {
      AllocatedEffect(s, i, n);
      AllocatedNormal(s, i, n);
    }
  }

  lemma AllocatedNormal(s: seq<Block>, i: nat, n: nat)
    requires Normal(s) && i < |s| && Fits(s[i], n)
    ensures Normal(Allocated(s, i, n))
  {
    var t, c := Allocated(s, i, n), Carve(s[i], n);
    forall j | 0 <= j < |t| - 1 ensures !(t[j].free && t[j + 1].free) {
      if j >= i + |c| - 1 {
        var j' := j - |c| + 1;
        assert t[j + 1] == s[j' + 1];
        assert j' == i ==> s[i].free && !s[i + 1].free;
      }
    }
  }

  // ----- the layout is a function of the live blocks -----

  /** In a normal layout that starts with a free block, the first live address tells its length. */
  lemma FirstLiveAddress(s: seq<Block>, base: nat)
    requires Normal(s) && |s| > 1 && s[0].free
    ensures base + Extent(s[0]) in Live(s, base)
    ensures forall o :: o in Live(s, base) ==> o >= base + Extent(s[0])
  {
    LiveKeys(s[1..], base + Extent(s[0]));
    assert !s[1..][0].free;
  }

  lemma {:induction false} LayoutCanonical(s: seq<Block>, t: seq<Block>, base: nat)
    requires Normal(s) && Normal(t) && Total(s) == Total(t) && Live(s, base) == Live(t, base)
    ensures s == t
  {
    if s != [] && t != [] {
      LiveKeys(s[1..], base + Extent(s[0]));
      LiveKeys(t[1..], base + Extent(t[0]));
      if s[0].free && t[0].free {
        BothFreeHeads(s, t, base);
      }
      assert base in Live(s, base) <==> !s[0].free;
      assert base in Live(t, base) <==> !t[0].free;
      assert s[0] == t[0];
      assert Live(s[1..], base + Extent(s[0])) == Live(s, base) - {base};
      assert Live(t[1..], base + Extent(t[0])) == Live(t, base) - {base};
      LayoutCanonical(s[1..], t[1..], base + Extent(s[0]));
      assert s == [s[0]] + s[1..] && t == [t[0]] + t[1..];
    }
  }

  lemma BothFreeHeads(s: seq<Block>, t: seq<Block>, base: nat)
    requires Normal(s) && Normal(t) && Total(s) == Total(t) && Live(s, base) == Live(t, base)
    requires s != [] && t != [] && s[0].free && t[0].free
    ensures s[0] == t[0]
  {
    if |s| > 1 { FirstLiveAddress(s, base); } else { OneBlock(s[0], base); assert s == [s[0]]; }
    if |t| > 1 { FirstLiveAddress(t, base); } else { OneBlock(t[0], base); assert t == [t[0]]; }
  }
}
