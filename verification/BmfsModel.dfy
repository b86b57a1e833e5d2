/** File creation and deletion in the BMFS directory (bmfs.c): records on values, and what a creation promises. */
module BmfsModel {
  const RECORDS := 64
  const DELETED: char := 1 as char

  /** A directory record; the empty name marks the end of the directory. */
  datatype Entry = Entry(name: string, start: nat, blocks: nat, size: nat)

  datatype Outcome = Exists | DirectoryFull | NoRoom | Created(at: nat)

  predicate EndMark(e: Entry) {
    e.name == ""
  }

  predicate Live(e: Entry) {
    e.name != "" && e.name[0] != DELETED
  }

  /** The name and its terminator fit the 32 bytes of a record. */
  predicate NameFits(name: string) {
    |name| < 32
  }

  /** A record of that name counts as a file. */
  predicate ProperName(name: string) {
    NameFits(name) && name != "" && name[0] != DELETED
  }

  function EndOf(e: Entry): nat {
    e.start + e.blocks
  }

  // ----- reading the directory -----

  /** The number of records before the end mark. */
  function Listed(dir: seq<Entry>): (n: nat)
    ensures n <= |dir| && (n < |dir| ==> EndMark(dir[n]))
    ensures forall i :: 0 <= i < n ==> !EndMark(dir[i])
  {
    if dir == [] || EndMark(dir[0]) then 0 else 1 + Listed(dir[1..])
  }

  /** The first file of that name, or |dir|. */
  function Find(dir: seq<Entry>, name: string): (i: nat)
    ensures i <= |dir| && (i < |dir| ==> i < Listed(dir) && Live(dir[i]) && dir[i].name == name)
    ensures forall j :: 0 <= j < i && j < Listed(dir) && Live(dir[j]) ==> dir[j].name != name
  {
    if dir == [] then 0
    else if EndMark(dir[0]) then |dir|
    else if Live(dir[0]) && dir[0].name == name then 0
    else 1 + Find(dir[1..], name)
  }

  /** The first record that is deleted or the end mark, or |dir|. */
  function Slot(dir: seq<Entry>): (i: nat)
    ensures i <= |dir| && (i < |dir| ==> !Live(dir[i]))
    ensures forall j :: 0 <= j < i ==> Live(dir[j])
  {
    if dir == [] || !Live(dir[0]) then 0 else 1 + Slot(dir[1..])
  }

  /** The count of records to sort: without an end mark it stays at its initial 0. */
  function Used(dir: seq<Entry>): (n: nat)
    ensures n <= Listed(dir)
  {
    if Listed(dir) < |dir| then Listed(dir) else 0
  }

  function Records(dir: seq<Entry>): (r: seq<Entry>)
    ensures |r| == Listed(dir) && forall i :: 0 <= i < |r| ==> r[i] == dir[i] && !EndMark(r[i])
  {
    dir[..Listed(dir)]
  }

  function LiveIn(rs: seq<Entry>): set<Entry> {
    set e | e in rs && Live(e)
  }

  function Files(dir: seq<Entry>): set<Entry> {
    LiveIn(Records(dir))
  }

  // ----- creating and deleting -----

  /** MiB to blocks of 2 MiB. */
  function BlocksFor(maxsize: nat): (r: nat)
    ensures 2 * r - 1 <= maxsize <= 2 * r
  {
    (if maxsize % 2 != 0 then maxsize + 1 else maxsize) / 2
  }

  /** Subtraction of 64-bit unsigned numbers. */
  function Minus(a: nat, b: nat): int {
    if a >= b then a - b else a - b + 0x1_0000_0000_0000_0000
  }

  /** Live records first, by starting block; the comparison says nothing about the order of deleted ones. */
  predicate Before(e: Entry, f: Entry) {
    Live(f) ==> Live(e) && e.start <= f.start
  }

  ghost predicate SortedCopy(dir: seq<Entry>, sorted: seq<Entry>) {
    multiset(sorted) == multiset(dir) && Ordered(sorted)
  }

  predicate Ordered(s: seq<Entry>) {
    forall i, j :: 0 <= i < j < |s| ==> Before(s[i], s[j])
  }

  function GapEnd(sorted: seq<Entry>, i: nat, n: nat): int
    requires i <= |sorted|
  {
    if i == |sorted| || !Live(sorted[i]) then Minus(n, 1) else sorted[i].start
  }

  /** The search for a gap of r blocks from record i on; 0 when there is none. */
  function Scan(sorted: seq<Entry>, i: nat, prev: nat, n: nat, r: nat): nat
    requires i <= |sorted|
    decreases |sorted| - i
  {
    if GapEnd(sorted, i, n) >= 0 && Minus(GapEnd(sorted, i, n), prev) >= r then prev
    else if i < |sorted| then Scan(sorted, i + 1, EndOf(sorted[i]), n, r)
    else 0
  }

  function Written(dir: seq<Entry>, slot: nat, e: Entry): (d: seq<Entry>)
    requires slot < |dir|
    ensures |d| == |dir|
  {
    var d := dir[slot := e];
    if slot == Used(dir) && slot + 1 < |dir| then d[slot + 1 := d[slot + 1].(name := "")] else d
  }

  /** Creation on a disk of n blocks; `sorted` is what the sort leaves in the copy of the directory. */
  function Create(dir: seq<Entry>, n: nat, name: string, maxsize: nat, sorted: seq<Entry>): (seq<Entry>, Outcome)
  {
    var r := BlocksFor(maxsize);
    if Find(dir, name) < |dir| then (dir, Exists)
    else if Slot(dir) == |dir| then (dir, DirectoryFull)
    else
      var at := Scan(sorted, 0, 1, n, r);
      if at == 0 then (dir, NoRoom) else (Written(dir, Slot(dir), Entry(name, at, r, 0)), Created(at))
  }

  function Delete(dir: seq<Entry>, name: string): seq<Entry> {
    var i := Find(dir, name);
    if i < |dir| && dir[i].name != "" then dir[i := dir[i].(name := [DELETED] + dir[i].name[1..])] else dir
  }

  function Formatted(): (dir: seq<Entry>)
    ensures |dir| == RECORDS && forall i :: 0 <= i < |dir| ==> EndMark(dir[i])
  {
    seq(RECORDS, _ => Entry("", 0, 0, 0))
  }

  // ----- what the directory promises -----

  /** Inside the data blocks: the first and the last block are reserved. */
  predicate InData(e: Entry, n: nat) {
    1 <= e.start && 1 <= e.blocks && EndOf(e) <= n - 1
  }

  predicate Disjoint(e: Entry, f: Entry) {
    EndOf(e) <= f.start || EndOf(f) <= e.start
  }

  ghost predicate Good(dir: seq<Entry>, n: nat) {
    |dir| == RECORDS && 2 <= n < 0x8000_0000 && GoodUpTo(dir, Listed(dir), n)
  }

  /** Every record lies inside the data blocks; files have their own names and blocks. */
  predicate GoodUpTo(dir: seq<Entry>, m: nat, n: nat)
    requires m <= |dir|
  {
    && (forall i :: 0 <= i < m ==> InData(dir[i], n))
    && (forall i, j :: 0 <= i < j < m && Live(dir[i]) && Live(dir[j]) ==>
          dir[i].name != dir[j].name && Disjoint(dir[i], dir[j]))
  }

  /** The blocks s, ..., s + r - 1 are data blocks of no file. */
  ghost predicate Clear(es: seq<Entry>, s: nat, r: nat, n: nat) {
    1 <= s && s + r <= n - 1 && forall e :: e in es && Live(e) ==> EndOf(e) <= s || s + r <= e.start
  }

  ghost predicate CanFit(es: seq<Entry>, r: nat, n: nat) {
    exists s: nat :: Clear(es, s, r, n)
  }

  ghost predicate Lowest(es: seq<Entry>, at: nat, r: nat, n: nat) {
    Clear(es, at, r, n) && forall s: nat :: s < at ==> !Clear(es, s, r, n)
  }

  /** The creation as documented: the lowest free run, unless the name is taken, the directory full or no run is long enough. */
  ghost predicate Right(dir: seq<Entry>, n: nat, name: string, r: nat, after: seq<Entry>, out: Outcome) {
    if exists e :: e in Files(dir) && e.name == name then out == Exists && after == dir
    else if forall e :: e in dir ==> Live(e) then out == DirectoryFull && after == dir
    else if !CanFit(Records(dir), r, n) then out == NoRoom && after == dir
    else out.Created? && Lowest(Records(dir), out.at, r, n) && Files(after) == Files(dir) + {Entry(name, out.at, r, 0)}
  }

  /** The record of a deleted file behind which r blocks would end before the last block. */
  predicate RoomBehind(e: Entry, r: nat, n: nat) {
    !Live(e) && EndOf(e) + r <= n - 1
  }

  // ----- the sorted copy -----

  lemma CountedTwice<T>(s: seq<T>, i: nat, j: nat)
    requires i < j < |s| && s[i] == s[j]
    ensures multiset(s)[s[i]] >= 2
  {
    assert s == s[..j] + [s[j]] + s[j + 1..];
    assert s[i] in s[..j];
    assert multiset(s[..j])[s[i]] >= 1;
  }

  lemma SecondPlace<T>(s: seq<T>, x: T)
    ensures multiset(s)[x] >= 2 ==> exists i, j :: 0 <= i < j < |s| && s[i] == x && s[j] == x
  {
    if multiset(s)[x] >= 2 {
      assert x in s;
      var i :| 0 <= i < |s| && s[i] == x;
      assert s == s[..i] + [s[i]] + s[i + 1..];
      assert x in s[..i] || x in s[i + 1..];
      if x in s[..i] {
        var k :| 0 <= k < i && s[k] == x;
      } else {
        var k :| 0 <= k < |s| - i - 1 && s[i + 1..][k] == x;
        assert s[i + 1 + k] == x;
      }
    }
  }

  lemma FileOnce(dir: seq<Entry>, n: nat, e: Entry)
    requires Good(dir, n) && Live(e)
    ensures multiset(Records(dir))[e] <= 1
  {
    SecondPlace(Records(dir), e);
  }

  /** Sorted files follow one another without overlap. */
  ghost predicate Tidy(sorted: seq<Entry>, n: nat) {
    && (forall i :: 0 <= i < |sorted| ==> InData(sorted[i], n))
    && (forall i, j :: 0 <= i < j < |sorted| && Live(sorted[j]) ==> Live(sorted[i]) && EndOf(sorted[i]) <= sorted[j].start)
  }

  lemma SameMembers(dir: seq<Entry>, sorted: seq<Entry>)
    requires multiset(sorted) == multiset(dir)
    ensures forall e :: e in sorted <==> e in dir
  {
    forall e ensures e in sorted <==> e in dir {
      assert e in sorted <==> e in multiset(sorted);
      assert e in dir <==> e in multiset(dir);
    }
  }

  lemma SortedTidy(dir: seq<Entry>, sorted: seq<Entry>, n: nat)
    requires Good(dir, n) && SortedCopy(Records(dir), sorted)
    ensures Tidy(sorted, n)
  {
    var recs := Records(dir);
    SameMembers(recs, sorted);
    forall i | 0 <= i < |sorted| ensures InData(sorted[i], n) {
      assert sorted[i] in recs;
    }
    forall i, j | 0 <= i < j < |sorted| && Live(sorted[j]) ensures Live(sorted[i]) && EndOf(sorted[i]) <= sorted[j].start {
      assert Before(sorted[i], sorted[j]);
      FileOnce(dir, n, sorted[j]);
      if sorted[i] == sorted[j] { CountedTwice(sorted, i, j); }
      assert sorted[i] in recs && sorted[j] in recs;
      assert Disjoint(sorted[i], sorted[j]);
      assert InData(sorted[j], n);
    }
  }

  // ----- the search -----

  /** Behind the last file only the ends of deleted records are tried. */
  lemma {:induction false} ScanDead(sorted: seq<Entry>, i: nat, prev: nat, n: nat, r: nat)
    requires i <= |sorted| && 1 <= prev <= n - 1
    requires forall j :: i <= j < |sorted| ==> !Live(sorted[j]) && InData(sorted[j], n)
    ensures var at := Scan(sorted, i, prev, n, r);
            && (at != 0 ==> at + r <= n - 1)
            && (at != 0 <==> prev + r <= n - 1 || exists j :: i <= j < |sorted| && RoomBehind(sorted[j], r, n))
    decreases |sorted| - i
  {
    if prev + r > n - 1 && i < |sorted| {
      ScanDead(sorted, i + 1, EndOf(sorted[i]), n, r);
    }
  }

  lemma {:induction false} ScanFinds(sorted: seq<Entry>, i: nat, prev: nat, n: nat, r: nat)
    requires Tidy(sorted, n) && i <= |sorted| && 1 <= prev <= n - 1 && 1 <= r
    requires forall j :: 0 <= j < i ==> Live(sorted[j]) && EndOf(sorted[j]) <= prev
    requires forall j :: i <= j < |sorted| && Live(sorted[j]) ==> prev <= sorted[j].start
    requires forall s: nat :: s < prev ==> !Clear(sorted, s, r, n)
    ensures var at := Scan(sorted, i, prev, n, r);
            if CanFit(sorted, r, n) then Lowest(sorted, at, r, n)
            else (at != 0 ==> at + r <= n - 1) && (at != 0 <==> exists j :: i <= j < |sorted| && RoomBehind(sorted[j], r, n))
    decreases |sorted| - i
  {
    if i < |sorted| && Live(sorted[i]) {
      if sorted[i].start - prev >= r {
        GapClear(sorted, i, prev, n, r);
      } else {
        GapTooShort(sorted, i, prev, n, r);
        ScanFinds(sorted, i + 1, EndOf(sorted[i]), n, r);
      }
    } else if prev + r <= n - 1 {
      GapClear(sorted, i, prev, n, r);
    } else {
      assert !CanFit(sorted, r, n) by {
        assert forall s: nat :: s >= prev ==> !Clear(sorted, s, r, n);
      }
      if i < |sorted| { ScanDead(sorted, i + 1, EndOf(sorted[i]), n, r); }
    }
  }

  /** A gap between the records before i and the files from i on. */
  lemma GapClear(sorted: seq<Entry>, i: nat, prev: nat, n: nat, r: nat)
    requires Tidy(sorted, n) && i <= |sorted| && 1 <= prev && prev + r <= n - 1
    requires forall j :: 0 <= j < i ==> EndOf(sorted[j]) <= prev
    requires i < |sorted| && Live(sorted[i]) ==> prev + r <= sorted[i].start
    ensures Clear(sorted, prev, r, n)
  {
    forall e | e in sorted && Live(e) ensures EndOf(e) <= prev || prev + r <= e.start {
      var j :| 0 <= j < |sorted| && sorted[j] == e;
      if j > i { assert Live(sorted[i]) && EndOf(sorted[i]) <= sorted[j].start; }
    }
  }

  lemma GapTooShort(sorted: seq<Entry>, i: nat, prev: nat, n: nat, r: nat)
    requires i < |sorted| && Live(sorted[i]) && prev <= sorted[i].start < prev + r
    requires forall s: nat :: s < prev ==> !Clear(sorted, s, r, n)
    ensures forall s: nat :: s < EndOf(sorted[i]) ==> !Clear(sorted, s, r, n)
  {
    assert sorted[i] in sorted;
  }

  /** The search over any sorted copy of a good directory with an end mark. */
  lemma SearchResult(dir: seq<Entry>, sorted: seq<Entry>, n: nat, r: nat)
    requires Good(dir, n) && SortedCopy(Records(dir), sorted) && 1 <= r
    ensures var at := Scan(sorted, 0, 1, n, r);
            if CanFit(Records(dir), r, n) then Lowest(Records(dir), at, r, n)
            else (at != 0 ==> at + r <= n - 1) && (at != 0 <==> exists e :: e in Records(dir) && RoomBehind(e, r, n))
  {
    SortedTidy(dir, sorted, n);
    SameMembers(Records(dir), sorted);
    forall s: nat ensures Clear(sorted, s, r, n) <==> Clear(Records(dir), s, r, n) { }
    ScanFinds(sorted, 0, 1, n, r);
    var at := Scan(sorted, 0, 1, n, r);
    if CanFit(Records(dir), r, n) {
      var s: nat :| Clear(Records(dir), s, r, n);
      assert Clear(sorted, s, r, n);
    } else if e :| e in Records(dir) && RoomBehind(e, r, n) {
      var j :| 0 <= j < |sorted| && sorted[j] == e;
      assert RoomBehind(sorted[j], r, n);
    }
  }
}
