/**
 The allocator of memoryManager.c: headers linked through the heap, walked by the loops
 of my_malloc and my_free. Each operation is proved against FirstFitModel.
 */
module FirstFitHeap {
  import opened FirstFitModel

  datatype BlockHeader = BlockHeader(size: nat, free: bool, next: int)

  type Memory = map<int, BlockHeader>

  /** The headers from base on spell out s; the last one points to end. */
  ghost predicate Segment(mem: Memory, base: nat, s: seq<Block>, end: int)
    decreases |s|
  {
    s == [] ||
    (var next := if |s| == 1 then end else base + Extent(s[0]);
     base in mem && mem[base] == BlockHeader(s[0].size, s[0].free, next)
     && Segment(mem, base + Extent(s[0]), s[1..], end))
  }

  lemma {:induction false} SegmentAppend(mem: Memory, base: nat, a: seq<Block>, b: seq<Block>, end: int)
    requires b != []
    ensures Segment(mem, base, a + b, end)
            <==> Segment(mem, base, a, base + Total(a)) && Segment(mem, base + Total(a), b, end)
    decreases |a|
  {
    if a == [] {
      assert a + b == b;
    } else {
      assert (a + b)[1..] == a[1..] + b;
      SegmentAppend(mem, base + Extent(a[0]), a[1..], b, end);
    }
  }

  lemma {:induction false} SegmentFrame(mem: Memory, mem': Memory, base: nat, s: seq<Block>, end: int)
    requires Segment(mem, base, s, end)
    requires forall x :: base <= x < base + Total(s) && x in mem ==> x in mem' && mem'[x] == mem[x]
    ensures Segment(mem', base, s, end)
    decreases |s|
  {
    if s != [] {
      SegmentFrame(mem, mem', base + Extent(s[0]), s[1..], end);
    }
  }

  /** Rewriting the front of the rest of the list, from curr on. */
  lemma SegmentReplace(mem: Memory, mem': Memory, a: seq<Block>, m: seq<Block>, m': seq<Block>, b: seq<Block>)
    requires Segment(mem, 0, a + (m + b), NULL) && m != [] && m' != [] && Total(m) == Total(m')
    requires forall x :: x in mem && (x < Total(a) || x >= Total(a) + Total(m)) ==> x in mem' && mem'[x] == mem[x]
    requires Segment(mem', Total(a), m', if b == [] then NULL else Total(a) + Total(m'))
    ensures Segment(mem', 0, a + (m' + b), NULL)
  {
    SegmentAppend(mem, 0, a, m + b, NULL);
    SegmentFrame(mem, mem', 0, a, Total(a));
    if b == [] {
      assert m' + b == m';
    } else {
      SegmentAppend(mem, Total(a), m, b, NULL);
      SegmentFrame(mem, mem', Total(a) + Total(m), b, NULL);
      SegmentAppend(mem', Total(a), m', b, NULL);
    }
    SegmentAppend(mem', 0, a, m' + b, NULL);
  }

  lemma SegmentAt(mem: Memory, a: seq<Block>, b: seq<Block>)
    requires Segment(mem, 0, a + b, NULL) && b != []
    ensures Total(a) in mem
    ensures mem[Total(a)] == BlockHeader(b[0].size, b[0].free, if |b| == 1 then NULL else Total(a) + Extent(b[0]))
  {
    SegmentAppend(mem, 0, a, b, NULL);
  }

  lemma {:induction false} FindFitAppend(a: seq<Block>, b: seq<Block>, n: nat)
    requires forall j :: 0 <= j < |a| ==> !Fits(a[j], n)
    ensures FindFit(a + b, n) == |a| + FindFit(b, n)
  {
    if a == [] {
      assert a + b == b;
    } else {
      assert (a + b)[1..] == a[1..] + b;
      FindFitAppend(a[1..], b, n);
    }
  }

  // ----- the three ways the headers change -----

  /** The block at curr divided if it is large enough, and marked allocated. */
  function Taken(mem: Memory, curr: int, size: nat): Memory
    requires curr in mem && mem[curr].size >= size
  {
    var h := mem[curr];
    if h.size >= size + HEADER + 4 then
      var newBlock := curr + HEADER + size;
      mem[newBlock := BlockHeader(h.size - size - HEADER, true, h.next)][curr := BlockHeader(size, false, newBlock)]
    else mem[curr := h.(free := false)]
  }

  lemma CarveSegment(mem: Memory, curr: nat, x: Block, n: nat, end: int)
    requires Fits(x, n)
    requires var c := Carve(x, n);
             && curr in mem
             && mem[curr] == BlockHeader(c[0].size, false, if |c| == 1 then end else curr + HEADER + n)
             && (|c| == 2 ==> var e := curr + HEADER + n; e in mem && mem[e] == BlockHeader(c[1].size, true, end))
    ensures Segment(mem, curr, Carve(x, n), end)
  {
    var c := Carve(x, n);
    if |c| == 2 {
      assert c[1..] == [c[1]];
      assert Segment(mem, curr + Extent(c[0]), c[1..], end);
    }
  }

  lemma TakenMiddle(mem: Memory, x: Block, curr: nat, size: nat, end: int)
    requires Fits(x, size) && curr in mem && mem[curr] == BlockHeader(x.size, true, end)
    ensures Segment(Taken(mem, curr, size), curr, Carve(x, size), end)
    ensures forall y :: y in mem && (y < curr || y >= curr + Extent(x)) ==>
              y in Taken(mem, curr, size) && Taken(mem, curr, size)[y] == mem[y]
  {
    CarveSegment(Taken(mem, curr, size), curr, x, size, end);
  }

  lemma TakenHeaders(mem: Memory, a: seq<Block>, x: Block, rest: seq<Block>, curr: nat, size: nat)
    requires Segment(mem, 0, a + ([x] + rest), NULL) && Fits(x, size) && curr == Total(a)
    ensures curr in mem && mem[curr].size == x.size
    ensures Segment(Taken(mem, curr, size), 0, a + (Carve(x, size) + rest), NULL)
  {
    SegmentAt(mem, a, [x] + rest);
    OneBlock(x, curr);
    TakenMiddle(mem, x, curr, size, if rest == [] then NULL else curr + Extent(x));
    SegmentReplace(mem, Taken(mem, curr, size), a, [x], Carve(x, size), rest);
  }

  lemma TakenSegment(mem: Memory, a: seq<Block>, b: seq<Block>, size: nat)
    requires Segment(mem, 0, a + b, NULL) && b != [] && Fits(b[0], size)
    ensures Total(a) in mem && mem[Total(a)].size == b[0].size
    ensures Segment(Taken(mem, Total(a), size), 0, Allocated(a + b, |a|, size), NULL)
  {
    assert b == [b[0]] + b[1..];
    TakenHeaders(mem, a, b[0], b[1..], Total(a), size);
    assert (a + b)[..|a|] == a && (a + b)[|a| + 1..] == b[1..];
    assert a + Carve(b[0], size) + b[1..] == a + (Carve(b[0], size) + b[1..]);
  }

  /** The block at curr joined with the next one. */
  function Joined(mem: Memory, curr: int): Memory
    requires curr in mem && mem[curr].next in mem
  {
    var h, n := mem[curr], mem[mem[curr].next];
    mem[curr := BlockHeader(h.size + HEADER + n.size, h.free, n.next)]
  }

  lemma JoinedHeaders(mem: Memory, a: seq<Block>, x: Block, y: Block, rest: seq<Block>, curr: nat)
    requires Segment(mem, 0, a + ([x, y] + rest), NULL) && x.free && y.free && curr == Total(a)
    ensures curr in mem && mem[curr].next == curr + Extent(x) && mem[curr].next in mem
    ensures Segment(Joined(mem, curr), 0, a + ([Merge(x, y)] + rest), NULL)
  {
    NextHeader(mem, a, [x, y] + rest);
    PairTotal(x, y);
    OneBlock(Merge(x, y), 0);
    SingleSegment(Joined(mem, curr), curr, Merge(x, y), if rest == [] then NULL else curr + Extent(Merge(x, y)));
    SegmentReplace(mem, Joined(mem, curr), a, [x, y], [Merge(x, y)], rest);
  }

  lemma JoinedSegment(mem: Memory, a: seq<Block>, b: seq<Block>)
    requires Segment(mem, 0, a + b, NULL) && |b| >= 2 && b[0].free && b[1].free
    ensures Total(a) in mem && mem[Total(a)].next == Total(a) + Extent(b[0]) && mem[Total(a)].next in mem
    ensures Segment(Joined(mem, Total(a)), 0, a + ([Merge(b[0], b[1])] + b[2..]), NULL)
  {
    assert b == [b[0], b[1]] + b[2..];
    JoinedHeaders(mem, a, b[0], b[1], b[2..], Total(a));
  }

  lemma PairTotal(x: Block, y: Block)
    ensures Total([x, y]) == Extent(x) + Extent(y)
  {
    assert [x, y][1..] == [y];
    OneBlock(y, 0);
  }

  lemma NextHeader(mem: Memory, a: seq<Block>, b: seq<Block>)
    requires Segment(mem, 0, a + b, NULL) && |b| >= 2
    ensures var curr := Total(a);
            && curr in mem && mem[curr] == BlockHeader(b[0].size, b[0].free, curr + Extent(b[0]))
            && var next := curr + Extent(b[0]);
               next in mem
               && mem[next] == BlockHeader(b[1].size, b[1].free, if |b| == 2 then NULL else next + Extent(b[1]))
  {
    SegmentAppend(mem, 0, a, b, NULL);
    assert Segment(mem, Total(a) + Extent(b[0]), b[1..], NULL);
  }

  /** A list of one block. */
  lemma SingleSegment(mem: Memory, o: nat, x: Block, end: int)
    ensures Segment(mem, o, [x], end) <==> o in mem && mem[o] == BlockHeader(x.size, x.free, end)
  {
    assert [x][1..] == [];
  }

  lemma FreedHeader(mem: Memory, a: seq<Block>, x: Block, b: seq<Block>, o: nat)
    requires Segment(mem, 0, a + ([x] + b), NULL) && o == Total(a)
    ensures o in mem && mem[o].size == x.size
    ensures Segment(mem[o := mem[o].(free := true)], 0, a + ([x.(free := true)] + b), NULL)
  {
    var y := x.(free := true);
    SegmentAt(mem, a, [x] + b);
    OneBlock(x, o);
    OneBlock(y, o);
    var mem' := mem[o := mem[o].(free := true)];
    SingleSegment(mem', o, y, if b == [] then NULL else o + Extent(y));
    SegmentReplace(mem, mem', a, [x], [y], b);
  }

  lemma FreedSegment(mem: Memory, s: seq<Block>, i: nat)
    requires Segment(mem, 0, s, NULL) && i < |s|
    ensures var o := Total(s[..i]);
            o in mem && mem[o].size == s[i].size
            && Segment(mem[o := mem[o].(free := true)], 0, s[i := s[i].(free := true)], NULL)
  {
    var a, b, x := s[..i], s[i + 1..], s[i];
    assert s == a + ([x] + b);
    assert s[i := x.(free := true)] == a + ([x.(free := true)] + b);
    FreedHeader(mem, a, x, b, Total(a));
  }

  /** Moving the first block of the rest behind the cursor. */
  lemma Advance(a: seq<Block>, b: seq<Block>)
    requires b != []
    ensures a + b == (a + [b[0]]) + b[1..] && Total(a + [b[0]]) == Total(a) + Extent(b[0])
  {
    TotalAppend(a, [b[0]]);
    OneBlock(b[0], 0);
  }

  class Heap {
    var freeList: int
    var totalMem: nat
    var usedMem: nat
    var mem: Memory
    ghost var layout: seq<Block>

    ghost predicate Valid()
      reads this
    {
      && freeList == 0 && layout != [] && Segment(mem, 0, layout, NULL)
      && Normal(layout) && Total(layout) == totalMem && usedMem == Used(layout)
    }

    constructor (size: nat)
      requires HEADER <= size < UINT32
      ensures Valid() && layout == [Block(size - HEADER, true)] && totalMem == size
    {
      totalMem, usedMem := size, 0;
      freeList := 0;
      mem := map[0 := BlockHeader(size - HEADER, true, NULL)];
      layout := [Block(size - HEADER, true)];
      new;
      OneBlock(layout[0], 0);
    }

    method MemDump() returns (total: nat, used: nat, freeMem: int)
      requires Valid()
      ensures total == Total(layout) && used == Used(layout) && freeMem == Vacant(layout)
    {
      TotalIsUsedAndVacant(layout);
      total, used := totalMem, usedMem;
      freeMem := totalMem - usedMem;
    }

    method MyMalloc(request: nat) returns (p: int)
      requires Valid() && request < UINT32
      modifies this`mem, this`usedMem, this`layout
      ensures Valid() && (layout, p) == Malloc(old(layout), request)
    {
      var size := Align4(request);
      var curr, a, b := FindBlock(size);
      if curr == NULL { return NULL; }
      assert layout[..|a|] == a;
      TakeBlock(curr, size, a, b);
      p := curr + HEADER;
    }

    /** The search loop of my_malloc; a and b are the blocks before curr and from curr on. */
    method FindBlock(size: nat) returns (curr: int, ghost a: seq<Block>, ghost b: seq<Block>)
      requires Valid()
      ensures layout == a + b && |a| == FindFit(layout, size)
      ensures curr == (if b == [] then NULL else Total(a))
    {
      curr := freeList;
      a, b := [], layout;
      while curr != NULL
        invariant layout == a + b
        invariant curr == (if b == [] then NULL else Total(a))
        invariant forall j :: 0 <= j < |a| ==> !Fits(a[j], size)
        decreases |b|
      {
        SegmentAt(mem, a, b);
        if mem[curr].free && mem[curr].size >= size {
          FindFitAppend(a, b, size);
          return;
        }
        curr := mem[curr].next;
        Advance(a, b);
        a, b := a + [b[0]], b[1..];
      }
      FindFitAppend(a, [], size);
    }

    /** Divide the block at curr if it is large enough, and mark it allocated. */
    method TakeBlock(curr: nat, size: nat, ghost a: seq<Block>, ghost b: seq<Block>)
      requires Valid() && layout == a + b && b != [] && curr == Total(a) && Fits(b[0], size)
      modifies this`mem, this`usedMem, this`layout
      ensures Valid() && layout == Allocated(old(layout), |a|, size)
    {
      TakenSegment(mem, a, b, size);
      AllocatedEffect(layout, |a|, size);
      AllocatedNormal(layout, |a|, size);
      layout := Allocated(layout, |a|, size);
      if mem[curr].size >= size + HEADER + 4 {
        var newBlock := curr + HEADER + size;
        mem := mem[newBlock := BlockHeader(mem[curr].size - size - HEADER, true, mem[curr].next)];
        mem := mem[curr := mem[curr].(size := size, next := newBlock)];
      }
      mem := mem[curr := mem[curr].(free := false)];
      usedMem := usedMem + mem[curr].size + HEADER;
      assert mem == Taken(old(mem), curr, size);
    }

    method MyFree(ptr: int)
      requires Valid() && (ptr == NULL || IsLivePointer(layout, ptr))
      modifies this`mem, this`usedMem, this`layout
      ensures Valid() && layout == (if ptr == NULL then old(layout) else Free(old(layout), ptr))
    {
      if ptr == NULL { return; }
      var block := ptr - HEADER;
      LiveIsBlock(layout, 0, block);
      ghost var i := BlockAt(layout, 0, block);
      MarkedFreeEffect(layout, i);
      FreedSegment(mem, layout, i);
      FreeEffect(layout, ptr);
      mem := mem[block := mem[block].(free := true)];
      usedMem := usedMem - (mem[block].size + HEADER);
      layout := layout[i := layout[i].(free := true)];
      CoalesceList();
    }

    /** The loop of my_free: one pass over the list. */
    method CoalesceList()
      requires freeList == 0 && layout != [] && Segment(mem, 0, layout, NULL)
      modifies this`mem, this`layout
      ensures layout == Coalesce(old(layout)) && Segment(mem, 0, layout, NULL)
    {
      var curr := freeList;
      ghost var a: seq<Block>, b := [], layout;
      assert a + b == layout;
      assert a + Coalesce(b) == Coalesce(b);
      SegmentAt(mem, a, b);
      while curr != NULL && mem[curr].next != NULL
        invariant layout == a + b && b != [] && curr == Total(a)
        invariant Segment(mem, 0, layout, NULL)
        invariant curr in mem && (mem[curr].next != NULL <==> |b| >= 2)
        invariant a + Coalesce(b) == Coalesce(old(layout))
        decreases |b|
      {
        NextHeader(mem, a, b);
        var next := mem[curr].next;
        if mem[curr].free && mem[next].free && curr + mem[curr].size + HEADER == next {
          b := JoinNext(curr, a, b);
        } else {
          curr := next;
          Skip(a, b);
          a, b := a + [b[0]], b[1..];
        }
        SegmentAt(mem, a, b);
      }
    }

    /** The joining branch of the loop. */
    method JoinNext(curr: nat, ghost a: seq<Block>, ghost b: seq<Block>) returns (ghost r: seq<Block>)
      requires Segment(mem, 0, layout, NULL) && layout == a + b && curr == Total(a)
      requires |b| >= 2 && b[0].free && b[1].free
      modifies this`mem, this`layout
      ensures r == [Merge(b[0], b[1])] + b[2..] && layout == a + r && Segment(mem, 0, layout, NULL)
    {
      JoinedSegment(mem, a, b);
      mem := mem[curr := mem[curr].(size := mem[curr].size + HEADER + mem[mem[curr].next].size)];
      mem := mem[curr := mem[curr].(next := mem[mem[curr].next].next)];
      assert mem == Joined(old(mem), curr);
      r := [Merge(b[0], b[1])] + b[2..];
      layout := a + r;
    }
  }

  lemma Skip(a: seq<Block>, b: seq<Block>)
    requires |b| >= 2 && !(b[0].free && b[1].free)
    ensures a + b == (a + [b[0]]) + b[1..] && Total(a + [b[0]]) == Total(a) + Extent(b[0])
    ensures a + Coalesce(b) == (a + [b[0]]) + Coalesce(b[1..])
  {
    Advance(a, b);
    Regroup(a, b[0], Coalesce(b[1..]));
  }

  lemma Regroup(a: seq<Block>, x: Block, c: seq<Block>)
    ensures a + ([x] + c) == (a + [x]) + c
  {
  }
}
