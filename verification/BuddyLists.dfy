/** The intrusive doubly linked free lists of the buddy allocator, as a relation between memory and sequences. */
module BuddyLists {
  import opened BuddyModel

  /** What the kernel stores at the start of a block: list links while free, a header while live. */
  datatype Cell = Node(next: int, prev: int) | Header(order: nat, magic: nat)

  type Memory = map<int, Cell>

  function HeadOf(l: seq<nat>): int {
    if l == [] then NULL else l[0]
  }

  function LinkOf(l: seq<nat>, i: nat): Cell
    requires i < |l|
  {
    Node(if i + 1 < |l| then l[i + 1] else NULL, if i > 0 then l[i - 1] else NULL)
  }

  predicate LinkedAt(mem: Memory, l: seq<nat>, i: nat)
    requires i < |l|
  {
    l[i] in mem && mem[l[i]] == LinkOf(l, i)
  }

  /** The nodes of l are linked both ways, in order. */
  predicate Chained(mem: Memory, l: seq<nat>) {
    forall i :: 0 <= i < |l| ==> LinkedAt(mem, l, i)
  }

  predicate Exclusive(lists: seq<seq<nat>>) {
    && (forall k :: 0 <= k < |lists| ==> NoDup(lists[k]))
    && (forall j, k, x :: 0 <= j < |lists| && 0 <= k < |lists| && j != k && x in lists[j] ==> x !in lists[k])
  }

  /** The heads and the links in memory spell out exactly these lists. */
  predicate Represents(mem: Memory, heads: seq<int>, lists: seq<seq<nat>>) {
    && |heads| == |lists|
    && (forall k :: 0 <= k < |lists| ==> heads[k] == HeadOf(lists[k]) && Chained(mem, lists[k]))
  }

  predicate Unlisted(lists: seq<seq<nat>>, x: int) {
    forall k :: 0 <= k < |lists| ==> x !in lists[k]
  }

  lemma ChainedFrame(mem: Memory, mem': Memory, l: seq<nat>)
    requires Chained(mem, l)
    requires forall x :: x in l && x in mem ==> x in mem' && mem'[x] == mem[x]
    ensures Chained(mem', l)
  {
    forall i | 0 <= i < |l| ensures LinkedAt(mem', l, i) {
      assert LinkedAt(mem, l, i);
    }
  }

  // ----- linking in front -----

  function Pushed(mem: Memory, l: seq<nat>, block: nat): Memory {
    var m := mem[block := Node(HeadOf(l), NULL)];
    if l != [] && l[0] in m && m[l[0]].Node? then m[l[0] := m[l[0]].(prev := block)] else m
  }

  lemma ChainedPush(mem: Memory, l: seq<nat>, block: nat)
    requires Chained(mem, l) && NoDup(l) && block !in l
    ensures Chained(Pushed(mem, l, block), [block] + l)
  {
    var m, r := Pushed(mem, l, block), [block] + l;
    if l != [] { assert LinkedAt(mem, l, 0); }
    forall i | 0 <= i < |r| ensures LinkedAt(m, r, i) {
      if i > 0 {
        assert LinkedAt(mem, l, i - 1);
        assert r[i] == l[i - 1];
      }
    }
  }

  lemma PushRepresents(mem: Memory, heads: seq<int>, lists: seq<seq<nat>>, k: nat, block: nat)
    requires Represents(mem, heads, lists) && Exclusive(lists) && k < |lists| && Unlisted(lists, block)
    ensures Represents(Pushed(mem, lists[k], block), heads[k := block], lists[k := [block] + lists[k]])
    ensures Exclusive(lists[k := [block] + lists[k]])
  {
    var m := Pushed(mem, lists[k], block);
    ChainedPush(mem, lists[k], block);
    forall j | 0 <= j < |lists| && j != k ensures Chained(m, lists[j]) {
      assert lists[k] != [] ==> lists[k][0] in lists[k];
      ChainedFrame(mem, m, lists[j]);
    }
  }

  // ----- unlinking -----

  function SetNext(mem: Memory, x: int, next: int): Memory {
    if x in mem && mem[x].Node? then mem[x := mem[x].(next := next)] else mem
  }

  function SetPrev(mem: Memory, x: int, prev: int): Memory {
    if x in mem && mem[x].Node? then mem[x := mem[x].(prev := prev)] else mem
  }

  function Unlinked(mem: Memory, c: Cell): Memory
    requires c.Node?
  {
    var m := if c.prev != NULL then SetNext(mem, c.prev, c.next) else mem;
    if c.next != NULL then SetPrev(m, c.next, c.prev) else m
  }

  lemma UnlinkAt(mem: Memory, l: seq<nat>, i: nat, j: nat)
    requires Chained(mem, l) && NoDup(l) && i < |l| && j < |l| - 1
    ensures LinkedAt(Unlinked(mem, LinkOf(l, i)), l[..i] + l[i + 1..], j)
  {
    var r := l[..i] + l[i + 1..];
    var j' := if j < i then j else j + 1;
    assert r[j] == l[j'];
    assert LinkedAt(mem, l, j');
    if i > 0 { assert LinkedAt(mem, l, i - 1); }
    if i + 1 < |l| { assert LinkedAt(mem, l, i + 1); }
  }

  lemma UnlinkRepresents(mem: Memory, heads: seq<int>, lists: seq<seq<nat>>, k: nat, i: nat)
    requires Represents(mem, heads, lists) && Exclusive(lists) && k < |lists| && i < |lists[k]|
    ensures LinkedAt(mem, lists[k], i)
    ensures var r := lists[k][..i] + lists[k][i + 1..];
            Represents(Unlinked(mem, LinkOf(lists[k], i)), heads[k := HeadOf(r)], lists[k := r]) && Exclusive(lists[k := r])
  {
    var l := lists[k];
    var m, r := Unlinked(mem, LinkOf(l, i)), l[..i] + l[i + 1..];
    assert LinkedAt(mem, l, i);
    forall j | 0 <= j < |r| ensures LinkedAt(m, r, j) {
      UnlinkAt(mem, l, i, j);
    }
    UnlinkTouches(mem, l, i);
    forall j | 0 <= j < |lists| && j != k ensures Chained(m, lists[j]) {
      ChainedFrame(mem, m, lists[j]);
    }
    UnlinkExclusive(lists, k, i);
  }

  lemma UnlinkTouches(mem: Memory, l: seq<nat>, i: nat)
    requires i < |l|
    ensures var m := Unlinked(mem, LinkOf(l, i));
            m.Keys == mem.Keys && forall x :: x in mem && x !in l ==> m[x] == mem[x]
  {
  }

  lemma UnlinkExclusive(lists: seq<seq<nat>>, k: nat, i: nat)
    requires Exclusive(lists) && k < |lists| && i < |lists[k]|
    ensures Exclusive(lists[k := lists[k][..i] + lists[k][i + 1..]])
  {
    var r := lists[k][..i] + lists[k][i + 1..];
    forall a, b | 0 <= a < b < |r| ensures r[a] != r[b] {
      assert lists[k][if a < i then a else a + 1] != lists[k][if b < i then b else b + 1];
    }
    forall x | x in r ensures x in lists[k] {
    }
  }
}
