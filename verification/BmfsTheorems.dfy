/** What file creation in BMFS keeps, over whole histories, and exactly when it goes wrong after deletions. */
module BmfsTheorems {
  import opened BmfsModel

  // ----- the record written -----

  lemma ListedIs(dir: seq<Entry>, n: nat)
    requires n <= |dir| && (n < |dir| ==> EndMark(dir[n])) && forall i :: 0 <= i < n ==> !EndMark(dir[i])
    ensures Listed(dir) == n
  {
  }

  lemma SlotAtMost(dir: seq<Entry>)
    ensures Slot(dir) <= Listed(dir)
  {
    assert Listed(dir) < |dir| ==> !Live(dir[Listed(dir)]);
  }

  lemma SlotListed(dir: seq<Entry>)
    ensures Slot(dir) <= Listed(dir)
    ensures Slot(dir) == |dir| <==> forall e :: e in dir ==> Live(e)
  {
    SlotAtMost(dir);
    if Slot(dir) < |dir| { assert dir[Slot(dir)] in dir; }
  }

  lemma FoundIff(dir: seq<Entry>, name: string)
    ensures Find(dir, name) < |dir| <==> exists e :: e in Files(dir) && e.name == name
  {
    var i := Find(dir, name);
    if i < |dir| {
      assert Records(dir)[i] in Files(dir);
    }
    forall e | e in Files(dir) ensures i == |dir| ==> e.name != name {
      var j :| 0 <= j < |Records(dir)| && Records(dir)[j] == e;
      assert dir[j] == e;
    }
  }

  /** With an end mark, or a slot behind the first record, all other files stay listed. */
  lemma WrittenListed(dir: seq<Entry>, e: Entry)
    requires Slot(dir) < |dir| && Live(e) && (Listed(dir) < |dir| || Slot(dir) > 0)
    ensures var d := Written(dir, Slot(dir), e);
            && Listed(d) == (if Slot(dir) == Listed(dir) then Slot(dir) + 1 else Listed(dir))
            && forall i :: 0 <= i < Listed(d) ==> d[i] == if i == Slot(dir) then e else dir[i]
  {
    SlotAtMost(dir);
    WrittenShape(dir, Slot(dir), e);
    PlacedListed(dir, Written(dir, Slot(dir), e), Listed(dir), Slot(dir), e);
  }

  lemma WrittenShape(dir: seq<Entry>, k: nat, e: Entry)
    requires k < |dir| && (Listed(dir) < |dir| || k > 0) && k <= Listed(dir)
    ensures Written(dir, k, e)
            == if k == Listed(dir) && k + 1 < |dir| then dir[k := e][k + 1 := dir[k + 1].(name := "")] else dir[k := e]
  {
  }

  lemma WrittenRecords(dir: seq<Entry>, e: Entry)
    requires Slot(dir) < |dir| && Live(e) && (Listed(dir) < |dir| || Slot(dir) > 0)
    ensures Records(Written(dir, Slot(dir), e)) == Placed(Records(dir), Slot(dir), e)
  {
    SlotAtMost(dir);
    WrittenListed(dir, e);
    var d := Written(dir, Slot(dir), e);
    PlacedRecords(dir, Listed(dir), d, Listed(d), Slot(dir), e);
  }

  /** The records with one added behind them or put in place k. */
  function Placed(rs: seq<Entry>, k: nat, e: Entry): seq<Entry> {
    if k < |rs| then rs[k := e] else rs + [e]
  }

  lemma PlacedRecords(dir: seq<Entry>, m: nat, d: seq<Entry>, l: nat, k: nat, e: Entry)
    requires k <= m <= |dir| && l == (if k == m then k + 1 else m) <= |d|
    requires forall i :: 0 <= i < l ==> d[i] == if i == k then e else dir[i]
    ensures d[..l] == Placed(dir[..m], k, e)
  {
  }

  lemma PlacedListed(dir: seq<Entry>, d: seq<Entry>, m: nat, k: nat, e: Entry)
    requires k <= m <= |dir| && k < |dir| && Live(e)
    requires (m < |dir| ==> EndMark(dir[m])) && forall i :: 0 <= i < m ==> !EndMark(dir[i])
    requires d == if k == m && k + 1 < |dir| then dir[k := e][k + 1 := dir[k + 1].(name := "")] else dir[k := e]
    ensures Listed(d) == if k == m then k + 1 else m
    ensures forall i :: 0 <= i < Listed(d) ==> d[i] == if i == k then e else dir[i]
  {
    var l := if k == m then k + 1 else m;
    assert forall i :: 0 <= i < l ==> d[i] == if i == k then e else dir[i];
    ListedIs(d, l);
  }

  lemma WrittenFiles(dir: seq<Entry>, e: Entry)
    requires Slot(dir) < |dir| && Live(e) && (Listed(dir) < |dir| || Slot(dir) > 0)
    ensures Files(Written(dir, Slot(dir), e)) == Files(dir) + {e}
  {
    SlotAtMost(dir);
    WrittenRecords(dir, e);
    SlotFiles(Records(dir), Slot(dir), e);
  }

  lemma SlotFiles(rs: seq<Entry>, k: nat, e: Entry)
    requires k <= |rs| && (k < |rs| ==> !Live(rs[k])) && Live(e)
    ensures LiveIn(Placed(rs, k, e)) == LiveIn(rs) + {e}
  {
    var ss := Placed(rs, k, e);
    assert ss[k] == e;
    forall f | f in rs && Live(f) ensures f in ss {
      var i :| 0 <= i < |rs| && rs[i] == f;
      assert ss[i] == f;
    }
    forall f | f in ss ensures f == e || f in rs {
      var i :| 0 <= i < |ss| && ss[i] == f;
      assert i != k ==> rs[i] == f;
    }
  }

  /** A full directory whose first record was deleted: the write of the end mark cuts off everything else. */
  lemma WrittenCuts(dir: seq<Entry>, e: Entry)
    requires |dir| == RECORDS && Slot(dir) == 0 && Listed(dir) == |dir| && Live(e)
    ensures Files(Written(dir, 0, e)) == {e} && Listed(Written(dir, 0, e)) == 1 && Written(dir, 0, e)[0] == e
  {
    var d := Written(dir, 0, e);
    ListedIs(d, 1);
    assert Records(d) == [e];
  }

  lemma WrittenGood(dir: seq<Entry>, n: nat, e: Entry)
    requires Good(dir, n) && Slot(dir) < |dir| && Live(e) && (Listed(dir) < |dir| || Slot(dir) > 0)
    requires InData(e, n) && Clear(Records(dir), e.start, e.blocks, n) && Find(dir, e.name) == |dir|
    ensures Good(Written(dir, Slot(dir), e), n)
  {
    WrittenListed(dir, e);
    SlotAtMost(dir);
    var k, m, d := Slot(dir), Listed(dir), Written(dir, Slot(dir), e);
    forall i | 0 <= i < m && Live(dir[i]) ensures dir[i].name != e.name && Disjoint(dir[i], e) {
      assert dir[i] == Records(dir)[i];
    }
    SlotGood(dir, m, d, Listed(d), k, e, n);
  }

  lemma SlotGood(dir: seq<Entry>, m: nat, d: seq<Entry>, l: nat, k: nat, e: Entry, n: nat)
    requires k <= m <= |dir| && l == (if k == m then k + 1 else m) && l <= |d|
    requires GoodUpTo(dir, m, n) && forall i :: 0 <= i < l ==> d[i] == if i == k then e else dir[i]
    requires InData(e, n) && forall i :: 0 <= i < m && Live(dir[i]) ==> dir[i].name != e.name && Disjoint(dir[i], e)
    ensures GoodUpTo(d, l, n)
  {
  }

  /** A record that counts as no file leaves a good directory good, although it may cut it short. */
  lemma WrittenHidden(dir: seq<Entry>, n: nat, e: Entry)
    requires Good(dir, n) && Slot(dir) < |dir| && !Live(e) && InData(e, n)
    ensures Good(Written(dir, Slot(dir), e), n)
  {
    var k, d := Slot(dir), Written(dir, Slot(dir), e);
    SlotAtMost(dir);
    HiddenGoodUpTo(dir, Listed(dir), d, Listed(d), k, e, n);
  }

  lemma HiddenGoodUpTo(dir: seq<Entry>, m: nat, d: seq<Entry>, l: nat, k: nat, e: Entry, n: nat)
    requires k <= m <= |dir| == |d| && k < |d| && l <= |d| && (m < |dir| ==> EndMark(dir[m])) && forall i :: 0 <= i < l ==> !EndMark(d[i])
    requires d[k] == e && (k == m && k + 1 < |d| ==> EndMark(d[k + 1]))
    requires forall i :: 0 <= i < |d| && i != k ==> d[i] == dir[i] || EndMark(d[i])
    requires GoodUpTo(dir, m, n) && !Live(e) && InData(e, n)
    ensures GoodUpTo(d, l, n)
  {
    assert k < m < |d| ==> EndMark(d[m]);
    assert l <= if k == m then k + 1 else m;
    assert forall i :: 0 <= i < l && i != k ==> i < m && d[i] == dir[i];
  }

  // ----- one creation -----

  /** The creation does what is promised. A caller can check this on the directory beforehand. */
  ghost predicate Safe(dir: seq<Entry>, n: nat, r: nat) {
    if Listed(dir) < |dir| then CanFit(Records(dir), r, n) || forall e :: e in Records(dir) ==> !RoomBehind(e, r, n)
    else Slot(dir) == |dir| || r > n - 2 || (Clear(Records(dir), 1, r, n) && (Slot(dir) > 0 || Files(dir) == {}))
  }

  lemma MarkedRightIff(dir: seq<Entry>, n: nat, name: string, maxsize: nat, sorted: seq<Entry>)
    requires Good(dir, n) && ProperName(name) && maxsize >= 1 && SortedCopy(dir[..Used(dir)], sorted)
    requires Find(dir, name) == |dir| && Listed(dir) < |dir|
    ensures var (after, out) := Create(dir, n, name, maxsize, sorted);
            Right(dir, n, name, BlocksFor(maxsize), after, out) <==> Safe(dir, n, BlocksFor(maxsize))
  {
    var r := BlocksFor(maxsize);
    var at := Scan(sorted, 0, 1, n, r);
    FoundIff(dir, name);
    SlotListed(dir);
    assert dir[..Used(dir)] == Records(dir);
    SearchResult(dir, sorted, n, r);
    if CanFit(Records(dir), r, n) {
      WrittenFiles(dir, Entry(name, at, r, 0));
    }
  }

  lemma UnmarkedRightIff(dir: seq<Entry>, n: nat, name: string, maxsize: nat, sorted: seq<Entry>)
    requires Good(dir, n) && ProperName(name) && maxsize >= 1 && SortedCopy(dir[..Used(dir)], sorted)
    requires Find(dir, name) == |dir| && Listed(dir) == |dir|
    ensures var (after, out) := Create(dir, n, name, maxsize, sorted);
            Right(dir, n, name, BlocksFor(maxsize), after, out) <==> Safe(dir, n, BlocksFor(maxsize))
  {
    var r := BlocksFor(maxsize);
    FoundIff(dir, name);
    SlotListed(dir);
    NothingSorted(dir, sorted);
    var e := Entry(name, 1, r, 0);
    if Slot(dir) < |dir| && r <= n - 2 {
      if Slot(dir) > 0 {
        WrittenFiles(dir, e);
      } else {
        WrittenCuts(dir, e);
        assert forall f :: f in Files(dir) ==> f.name != name;
      }
    } else if Slot(dir) < |dir| {
      assert !CanFit(Records(dir), r, n);
    }
  }

  /** No room, in the directory or on the disk. */
  ghost predicate Refused(dir: seq<Entry>, n: nat, r: nat) {
    Slot(dir) == |dir| || !CanFit(Records(dir), r, n)
  }

  lemma HiddenRightIff(dir: seq<Entry>, n: nat, name: string, maxsize: nat, sorted: seq<Entry>)
    requires Good(dir, n) && !ProperName(name) && NameFits(name) && maxsize >= 1 && SortedCopy(dir[..Used(dir)], sorted)
    ensures var (after, out) := Create(dir, n, name, maxsize, sorted);
            && Find(dir, name) == |dir|
            && (Right(dir, n, name, BlocksFor(maxsize), after, out) <==> Safe(dir, n, BlocksFor(maxsize)) && Refused(dir, n, BlocksFor(maxsize)))
  {
    var r := BlocksFor(maxsize);
    FoundIff(dir, name);
    SlotListed(dir);
    if Listed(dir) < |dir| {
      assert dir[..Used(dir)] == Records(dir);
      SearchResult(dir, sorted, n, r);
    } else {
      NothingSorted(dir, sorted);
    }
    var (after, out) := Create(dir, n, name, maxsize, sorted);
    if out.Created? { assert Entry(name, out.at, r, 0) !in Files(after); }
  }

  /** Without an end mark nothing is sorted. */
  lemma NothingSorted(dir: seq<Entry>, sorted: seq<Entry>)
    requires Listed(dir) == |dir| && SortedCopy(dir[..Used(dir)], sorted)
    ensures sorted == []
  {
    assert |multiset(sorted)| == 0;
  }

  /** Creation is right, for every order in which the sort leaves deleted records, exactly on safe directories. */
  lemma CreateRightIff(dir: seq<Entry>, n: nat, name: string, maxsize: nat, sorted: seq<Entry>)
    requires Good(dir, n) && NameFits(name) && maxsize >= 1 && SortedCopy(dir[..Used(dir)], sorted)
    ensures var (after, out) := Create(dir, n, name, maxsize, sorted);
            Right(dir, n, name, BlocksFor(maxsize), after, out)
            <==> Find(dir, name) < |dir| || (Safe(dir, n, BlocksFor(maxsize)) && (ProperName(name) || Refused(dir, n, BlocksFor(maxsize))))
  {
    FoundIff(dir, name);
    if !ProperName(name) {
      HiddenRightIff(dir, n, name, maxsize, sorted);
    } else if Find(dir, name) == |dir| {
      if Listed(dir) < |dir| {
        MarkedRightIff(dir, n, name, maxsize, sorted);
      } else {
        UnmarkedRightIff(dir, n, name, maxsize, sorted);
      }
    }
  }

  /**
   An unsafe creation of a file makes two files overlap, unless the end mark it writes cuts off all other files: that
   is so in a directory without an end mark whose first record is deleted.
   */
  lemma CreateGoodIff(dir: seq<Entry>, n: nat, name: string, maxsize: nat, sorted: seq<Entry>)
    requires Good(dir, n) && NameFits(name) && maxsize >= 1 && SortedCopy(dir[..Used(dir)], sorted)
    ensures Good(Create(dir, n, name, maxsize, sorted).0, n)
            <==> Find(dir, name) < |dir| || !ProperName(name) || CutsOff(dir) || Safe(dir, n, BlocksFor(maxsize))
  {
    if !ProperName(name) {
      HiddenGood(dir, n, name, maxsize, sorted);
    } else if Find(dir, name) == |dir| {
      if Listed(dir) < |dir| {
        MarkedGoodIff(dir, n, name, maxsize, sorted);
      } else {
        UnmarkedGoodIff(dir, n, name, maxsize, sorted);
      }
    }
  }

  predicate CutsOff(dir: seq<Entry>) {
    Listed(dir) == |dir| && Slot(dir) == 0
  }

  lemma HiddenGood(dir: seq<Entry>, n: nat, name: string, maxsize: nat, sorted: seq<Entry>)
    requires Good(dir, n) && !ProperName(name) && NameFits(name) && maxsize >= 1 && SortedCopy(dir[..Used(dir)], sorted)
    ensures Good(Create(dir, n, name, maxsize, sorted).0, n)
  {
    var r := BlocksFor(maxsize);
    if Listed(dir) < |dir| {
      assert dir[..Used(dir)] == Records(dir);
      SearchResult(dir, sorted, n, r);
    } else {
      NothingSorted(dir, sorted);
    }
    var at := Scan(sorted, 0, 1, n, r);
    if Slot(dir) < |dir| && at != 0 { WrittenHidden(dir, n, Entry(name, at, r, 0)); }
  }

  lemma MarkedGoodIff(dir: seq<Entry>, n: nat, name: string, maxsize: nat, sorted: seq<Entry>)
    requires Good(dir, n) && ProperName(name) && maxsize >= 1 && SortedCopy(dir[..Used(dir)], sorted)
    requires Find(dir, name) == |dir| && Listed(dir) < |dir|
    ensures Good(Create(dir, n, name, maxsize, sorted).0, n) <==> Safe(dir, n, BlocksFor(maxsize))
  {
    var r := BlocksFor(maxsize);
    var at := Scan(sorted, 0, 1, n, r);
    SlotListed(dir);
    assert dir[..Used(dir)] == Records(dir);
    SearchResult(dir, sorted, n, r);
    if at != 0 {
      var e := Entry(name, at, r, 0);
      if CanFit(Records(dir), r, n) {
        WrittenGood(dir, n, e);
      } else {
        assert !Clear(Records(dir), at, r, n);
        OverlapBad(dir, n, e);
      }
    }
  }

  lemma UnmarkedGoodIff(dir: seq<Entry>, n: nat, name: string, maxsize: nat, sorted: seq<Entry>)
    requires Good(dir, n) && ProperName(name) && maxsize >= 1 && SortedCopy(dir[..Used(dir)], sorted)
    requires Find(dir, name) == |dir| && Listed(dir) == |dir|
    ensures Good(Create(dir, n, name, maxsize, sorted).0, n) <==> CutsOff(dir) || Safe(dir, n, BlocksFor(maxsize))
  {
    var r := BlocksFor(maxsize);
    NothingSorted(dir, sorted);
    var e := Entry(name, 1, r, 0);
    if Slot(dir) < |dir| && r <= n - 2 {
      if Slot(dir) == 0 {
        WrittenCuts(dir, e);
      } else if Clear(Records(dir), 1, r, n) {
        WrittenGood(dir, n, e);
      } else {
        OverlapBad(dir, n, e);
      }
    }
  }

  lemma OverlapBad(dir: seq<Entry>, n: nat, e: Entry)
    requires Good(dir, n) && Slot(dir) < |dir| && (Listed(dir) < |dir| || Slot(dir) > 0) && Live(e)
    requires EndOf(e) <= n - 1 && 1 <= e.blocks && !Clear(Records(dir), e.start, e.blocks, n)
    ensures !Good(Written(dir, Slot(dir), e), n)
  {
    WrittenListed(dir, e);
    SlotAtMost(dir);
    var k, d := Slot(dir), Written(dir, Slot(dir), e);
    OverlapFound(dir, Records(dir), d, Listed(d), k, e, n);
  }

  lemma OverlapFound(dir: seq<Entry>, rs: seq<Entry>, d: seq<Entry>, l: nat, k: nat, e: Entry, n: nat)
    requires rs <= dir && k <= |rs| && (k < |rs| ==> !Live(rs[k])) && l == (if k == |rs| then k + 1 else |rs|) <= |d|
    requires forall i :: 0 <= i < l ==> d[i] == if i == k then e else dir[i]
    requires Live(e) && EndOf(e) <= n - 1 && 1 <= e.blocks && !Clear(rs, e.start, e.blocks, n)
    ensures !GoodUpTo(d, l, n)
  {
    assert d[k] == e;
    if e.start >= 1 {
      var f :| f in rs && Live(f) && !(EndOf(f) <= e.start || EndOf(e) <= f.start);
      var i :| 0 <= i < |rs| && rs[i] == f;
      assert i != k && d[i] == f;
    }
  }

  // ----- histories -----

  datatype Op = Make(name: string, maxsize: nat, sorted: seq<Entry>) | Remove(name: string)

  /** What the command line lets through, with any result the sort may have; it lets longer names through, too, which no record can hold. */
  ghost predicate Issued(dir: seq<Entry>, op: Op) {
    op.Make? ==> NameFits(op.name) && op.maxsize >= 1 && SortedCopy(dir[..Used(dir)], op.sorted)
  }

  function Done(dir: seq<Entry>, n: nat, op: Op): seq<Entry> {
    match op
    case Make(name, maxsize, sorted) => Create(dir, n, name, maxsize, sorted).0
    case Remove(name) => Delete(dir, name)
  }

  ghost predicate History(dir: seq<Entry>, n: nat, ops: seq<Op>, end: seq<Entry>)
    decreases |ops|
  {
    if ops == [] then end == dir
    else Issued(dir, ops[0]) && History(Done(dir, n, ops[0]), n, ops[1..], end)
  }

  ghost predicate NothingDeleted(dir: seq<Entry>) {
    forall i :: 0 <= i < Listed(dir) ==> Live(dir[i])
  }

  /** Not a creation of a record that counts as deleted. */
  predicate Plain(op: Op) {
    op.Make? && (op.name == "" || ProperName(op.name))
  }

  lemma CreateKeeps(dir: seq<Entry>, n: nat, op: Op)
    requires Good(dir, n) && NothingDeleted(dir) && op.Make? && Issued(dir, op)
    ensures Safe(dir, n, BlocksFor(op.maxsize))
    ensures Good(Done(dir, n, op), n) && (Plain(op) ==> NothingDeleted(Done(dir, n, op)))
  {
    SlotListed(dir);
    CreateGoodIff(dir, n, op.name, op.maxsize, op.sorted);
    var at := Scan(op.sorted, 0, 1, n, BlocksFor(op.maxsize));
    if Listed(dir) < |dir| && Plain(op) {
      WrittenPlain(dir, Entry(op.name, at, BlocksFor(op.maxsize), 0));
    }
  }

  lemma WrittenPlain(dir: seq<Entry>, e: Entry)
    requires NothingDeleted(dir) && Listed(dir) < |dir| && (e.name == "" || Live(e))
    ensures Slot(dir) < |dir| && NothingDeleted(Written(dir, Slot(dir), e))
  {
    SlotAtMost(dir);
    var k, d := Slot(dir), Written(dir, Slot(dir), e);
    if e.name == "" {
      PrefixLive(dir, d, k);
    } else {
      WrittenListed(dir, e);
      forall i | 0 <= i < Listed(d) ensures Live(d[i]) {
        assert i != k ==> i < Listed(dir);
      }
    }
  }

  /** A directory cut where the first deleted or empty record was. */
  lemma PrefixLive(dir: seq<Entry>, d: seq<Entry>, k: nat)
    requires k < |dir| == |d| && EndMark(d[k]) && forall i :: 0 <= i < k ==> Live(dir[i]) && d[i] == dir[i]
    ensures NothingDeleted(d)
  {
    ListedIs(d, k);
  }

  lemma {:induction false} CreationsKeep(dir: seq<Entry>, n: nat, ops: seq<Op>, end: seq<Entry>)
    requires Good(dir, n) && NothingDeleted(dir) && History(dir, n, ops, end) && forall i :: 0 <= i < |ops| ==> Plain(ops[i])
    ensures Good(end, n) && NothingDeleted(end)
    decreases |ops|
  {
    if ops != [] {
      CreateKeeps(dir, n, ops[0]);
      CreationsKeep(Done(dir, n, ops[0]), n, ops[1..], end);
    }
  }

  /**
   After any creations on a formatted disk: files disjoint inside the data blocks, names unique, and the next creation
   right exactly if its name is proper or there is no room for it.
   */
  lemma CreationsAreRight(n: nat, ops: seq<Op>, dir: seq<Entry>, op: Op)
    requires 2 <= n < 0x8000_0000 && History(Formatted(), n, ops, dir) && forall i :: 0 <= i < |ops| ==> Plain(ops[i])
    requires op.Make? && Issued(dir, op)
    ensures Good(dir, n)
    ensures var (after, out) := Create(dir, n, op.name, op.maxsize, op.sorted);
            Right(dir, n, op.name, BlocksFor(op.maxsize), after, out)
            <==> ProperName(op.name) || Refused(dir, n, BlocksFor(op.maxsize))
  {
    CreationsKeep(Formatted(), n, ops, dir);
    CreateKeeps(dir, n, op);
    CreateRightIff(dir, n, op.name, op.maxsize, op.sorted);
    FoundIff(dir, op.name);
  }

  lemma DeletedRecord(dir: seq<Entry>, name: string)
    ensures var i, d := Find(dir, name), Delete(dir, name);
            && |d| == |dir| && Listed(d) == Listed(dir)
            && forall j :: 0 <= j < Listed(dir) ==>
                 d[j].start == dir[j].start && d[j].blocks == dir[j].blocks
                 && (if j == i then !Live(d[j]) else d[j] == dir[j])
  {
    ListedIs(Delete(dir, name), Listed(dir));
  }

  lemma DeleteKeepsGood(dir: seq<Entry>, n: nat, name: string)
    requires Good(dir, n)
    ensures Good(Delete(dir, name), n)
  {
    DeletedRecord(dir, name);
  }

  lemma DeleteFiles(dir: seq<Entry>, n: nat, name: string)
    requires Good(dir, n)
    ensures Files(Delete(dir, name)) == set e | e in Files(dir) && e.name != name
  {
    DeletedRecord(dir, name);
    var d := Delete(dir, name);
    forall e | e in Files(dir) && e.name != name ensures e in Files(d) {
      var j :| 0 <= j < |Records(dir)| && Records(dir)[j] == e;
      assert Records(d)[j] == e;
    }
    forall e | e in Files(d) ensures e in Files(dir) && e.name != name {
      var j :| 0 <= j < |Records(d)| && Records(d)[j] == e;
      assert Records(dir)[j] == e;
    }
  }

  /** Deletion marks the first character of the name and changes nothing else. */
  lemma DeleteMarksName(dir: seq<Entry>, name: string, j: nat)
    requires j < |dir|
    ensures var d := Delete(dir, name);
            && |d| == |dir|
            && d[j].start == dir[j].start && d[j].blocks == dir[j].blocks && d[j].size == dir[j].size
            && |d[j].name| == |dir[j].name|
            && (forall i :: 1 <= i < |d[j].name| ==> d[j].name[i] == dir[j].name[i])
            && (j != Find(dir, name) ==> d[j] == dir[j])
            && (j == Find(dir, name) ==> d[j].name != "" && d[j].name[0] == DELETED)
  {
  }

  /** Deleting the file just created leaves the files there were. */
  lemma DeleteUndoesCreate(dir: seq<Entry>, n: nat, name: string, maxsize: nat, sorted: seq<Entry>)
    requires Good(dir, n) && ProperName(name) && maxsize >= 1 && SortedCopy(dir[..Used(dir)], sorted)
    requires Find(dir, name) == |dir| && Safe(dir, n, BlocksFor(maxsize))
    ensures Files(Delete(Create(dir, n, name, maxsize, sorted).0, name)) == Files(dir)
  {
    var (after, out) := Create(dir, n, name, maxsize, sorted);
    CreateGoodIff(dir, n, name, maxsize, sorted);
    CreateRightIff(dir, n, name, maxsize, sorted);
    FoundIff(dir, name);
    DeleteFiles(after, n, name);
  }

  /** A creation that leaves the directory good, as can be seen beforehand. */
  ghost predicate Harmless(dir: seq<Entry>, n: nat, op: Op) {
    op.Make? ==> Find(dir, op.name) < |dir| || !ProperName(op.name) || CutsOff(dir) || Safe(dir, n, BlocksFor(op.maxsize))
  }

  /** Any history of creations and deletions in which every creation is harmless when it is issued. */
  ghost predicate Guarded(dir: seq<Entry>, n: nat, ops: seq<Op>)
    decreases |ops|
  {
    ops == [] || (Harmless(dir, n, ops[0]) && Guarded(Done(dir, n, ops[0]), n, ops[1..]))
  }

  lemma StepGoodIff(dir: seq<Entry>, n: nat, op: Op)
    requires Good(dir, n) && Issued(dir, op)
    ensures Good(Done(dir, n, op), n) <==> Harmless(dir, n, op)
  {
    match op
    case Make(name, maxsize, sorted) => CreateGoodIff(dir, n, name, maxsize, sorted);
    case Remove(name) => DeleteKeepsGood(dir, n, name);
  }

  /** The directory is good after every operation. */
  ghost predicate GoodThroughout(dir: seq<Entry>, n: nat, ops: seq<Op>)
    decreases |ops|
  {
    Good(dir, n) && (ops == [] || GoodThroughout(Done(dir, n, ops[0]), n, ops[1..]))
  }

  /** Whatever is created and deleted: the directory stays good exactly if every creation is harmless when it is issued. */
  lemma {:induction false} GuardedHistoriesGood(dir: seq<Entry>, n: nat, ops: seq<Op>, end: seq<Entry>)
    requires Good(dir, n) && History(dir, n, ops, end)
    ensures GoodThroughout(dir, n, ops) <==> Guarded(dir, n, ops)
    ensures Guarded(dir, n, ops) ==> Good(end, n)
    decreases |ops|
  {
    if ops != [] {
      StepGoodIff(dir, n, ops[0]);
      if Good(Done(dir, n, ops[0]), n) {
        GuardedHistoriesGood(Done(dir, n, ops[0]), n, ops[1..], end);
      } else {
        assert !GoodThroughout(Done(dir, n, ops[0]), n, ops[1..]);
      }
    }
  }

  // ----- the conditions are met, and are needed -----

  /** The first creation on a formatted disk is placed inside the data blocks exactly when the disk has two blocks at least. */
  lemma FirstCreationIff(n: nat, name: string, maxsize: nat)
    requires 1 <= maxsize && n < 0x8000_0000 && maxsize < 0x8000_0000
    ensures var out := Create(Formatted(), n, name, maxsize, []).1;
            (out.Created? ==> out.at + BlocksFor(maxsize) <= n - 1) <==> n >= 2
  {
  }

  function Three(a: string): (dir: seq<Entry>)
    ensures |dir| == RECORDS && dir[0] == Entry(a, 1, 1, 0) && dir[1] == Entry("b", 2, 3, 0)
    ensures forall i :: 2 <= i < RECORDS ==> dir[i] == Entry("", 0, 0, 0)
  {
    [Entry(a, 1, 1, 0), Entry("b", 2, 3, 0)] + seq(RECORDS - 2, _ => Entry("", 0, 0, 0))
  }

  function One(): (dir: seq<Entry>)
    ensures |dir| == RECORDS && dir[0] == Entry("a", 1, 1, 0)
    ensures forall i :: 1 <= i < RECORDS ==> dir[i] == Entry("", 0, 0, 0)
  {
    [Entry("a", 1, 1, 0)] + seq(RECORDS - 1, _ => Entry("", 0, 0, 0))
  }

  lemma MakeFirst()
    ensures Issued(Formatted(), Make("a", 2, [])) && Done(Formatted(), 6, Make("a", 2, [])) == One()
  {
    var d := Formatted();
    ListedIs(d, 0);
    assert d[..0] == [] && Find(d, "a") == |d|;
  }

  lemma MakeSecond()
    ensures Issued(One(), Make("b", 6, [Entry("a", 1, 1, 0)])) && Done(One(), 6, Make("b", 6, [Entry("a", 1, 1, 0)])) == Three("a")
  {
    var d := One();
    ListedIs(d, 1);
    assert d[..1] == [Entry("a", 1, 1, 0)];
    assert Slot(d) == 1 && Find(d, "b") == |d|;
  }

  lemma RemoveFirst()
    ensures Done(Three("a"), 6, Remove("a")) == Three([DELETED])
  {
    var d := Three("a");
    ListedIs(d, 2);
    assert Find(d, "a") == 0;
    assert "a"[1..] == [];
    assert Delete(d, "a")[0] == Three([DELETED])[0];
  }

  lemma MakeThird()
    ensures var d := Three([DELETED]);
            Issued(d, Make("c", 6, [d[1], d[0]])) && Create(d, 6, "c", 6, [d[1], d[0]]).1 == Created(d[1].start)
  {
    var d := Three([DELETED]);
    ListedIs(d, 2);
    assert d[..2] == [d[0], d[1]];
    assert Slot(d) == 0 && Find(d, "c") == |d|;
    var sorted := [d[1], d[0]];
    assert Scan(sorted, 2, 2, 6, 3) == 2;
    assert Scan(sorted, 1, 5, 6, 3) == 2;
    assert Scan(sorted, 0, 1, 6, 3) == 2;
    assert BlocksFor(6) == 3;
  }

  /** On a disk of six blocks: a with one block, b with three, a deleted; then c with three blocks is put on top of b. */
  lemma DeletionThenOverlap()
    ensures var a, b, c := Make("a", 2, []), Make("b", 6, [Entry("a", 1, 1, 0)]), Make("c", 6, [Entry("b", 2, 3, 0), Entry([DELETED], 1, 1, 0)]);
            var dir := Three([DELETED]);
            && History(Formatted(), 6, [a, b, Remove("a")], dir)
            && Issued(dir, c) && Create(dir, 6, c.name, c.maxsize, c.sorted).1 == Created(dir[1].start)
  {
    var a, b := Make("a", 2, []), Make("b", 6, [Entry("a", 1, 1, 0)]);
    MakeFirst();
    MakeSecond();
    RemoveFirst();
    MakeThird();
    assert [a, b, Remove("a")][1..] == [b, Remove("a")];
    assert [b, Remove("a")][1..] == [Remove("a")];
    assert History(Three("a"), 6, [Remove("a")], Three([DELETED]));
    assert History(One(), 6, [b, Remove("a")], Three([DELETED]));
    assert History(Formatted(), 6, [a, b, Remove("a")], Three([DELETED]));
    var d := Three([DELETED]);
    assert [d[1], d[0]] == [Entry("b", 2, 3, 0), Entry([DELETED], 1, 1, 0)];
  }

  /** After the same history the creation of a file without a name puts the end mark before b, which is lost. */
  lemma NamelessFileHidesOthers()
    ensures var dir, c := Three([DELETED]), Make("", 2, [Entry("b", 2, 3, 0), Entry([DELETED], 1, 1, 0)]);
            && Good(dir, 6) && Issued(dir, c) && Create(dir, 6, "", 2, c.sorted).1 == Created(1)
            && Files(dir) == {Entry("b", 2, 3, 0)} && Files(Done(dir, 6, c)) == {}
  {
    var dir := Three([DELETED]);
    ListedIs(dir, 2);
    assert dir[..2] == [dir[0], dir[1]];
    var sorted := [dir[1], dir[0]];
    assert Files(dir) == {dir[1]} by { assert Records(dir) == [dir[0], dir[1]]; }
    assert Slot(dir) == 0 && Find(dir, "") == |dir| by { FoundIff(dir, ""); }
    assert Scan(sorted, 0, 1, 6, 1) == 1;
    var d := Done(dir, 6, Make("", 2, sorted));
    assert EndMark(d[0]);
    ListedIs(d, 0);
  }

  function Insert(e: Entry, s: seq<Entry>): (r: seq<Entry>)
    requires Ordered(s)
    ensures multiset(r) == multiset(s) + multiset{e} && Ordered(r)
    ensures forall x :: x in r ==> x == e || x in s
  {
    if s == [] || Before(e, s[0]) then
      OrderedFront(e, s);
      [e] + s
    else
      assert s == [s[0]] + s[1..];
      var t := Insert(e, s[1..]);
      assert forall i :: 1 <= i < |s| ==> Before(s[0], s[i]);
      OrderedFront(s[0], t);
      [s[0]] + t
  }

  lemma OrderedFront(e: Entry, s: seq<Entry>)
    requires Ordered(s)
    requires (s != [] ==> Before(e, s[0])) || forall f :: f in s ==> Before(e, f)
    ensures Ordered([e] + s)
  {
    assert forall i :: 0 < i < |s| ==> Before(s[0], s[i]);
    assert forall i :: 0 <= i < |s| ==> Before(e, s[i]);
  }

  /** There is always a sorted copy. */
  function Sorted(s: seq<Entry>): (r: seq<Entry>)
    ensures SortedCopy(s, r)
  {
    if s == [] then []
    else
      assert s == [s[0]] + s[1..];
      Insert(s[0], Sorted(s[1..]))
  }
}
