/** The directory buffer of bmfs.c, changed in place. */
module BmfsDisk {
  import opened BmfsModel

  class Disk {
    const directory: array<Entry>
    const blocks: nat

    ghost predicate Valid()
      reads this
    {
      directory.Length == RECORDS
    }

    /** A formatted disk. */
    constructor (numBlocks: nat)
      ensures Valid() && fresh(directory) && directory[..] == Formatted() && blocks == numBlocks
    {
      directory := new Entry[RECORDS](_ => Entry("", 0, 0, 0));
      blocks := numBlocks;
      new;
      assert directory[..] == Formatted();
    }

    method FindFile(filename: string) returns (found: bool, slot: nat)
      requires Valid()
      ensures found <==> Find(directory[..], filename) < RECORDS
      ensures found ==> slot == Find(directory[..], filename)
    {
      found, slot := false, 0;
      var tint := 0;
      ghost var dir := directory[..];
      while tint < RECORDS
        invariant 0 <= tint && (tint < RECORDS ==> tint <= Find(dir, filename) && tint <= Listed(dir))
        invariant tint >= RECORDS ==> Find(dir, filename) == RECORDS
      {
        if EndMark(directory[tint]) {
          tint := RECORDS;
        } else if Live(directory[tint]) && directory[tint].name == filename {
          found, slot := true, tint;
          return;
        } else {
          tint := tint + 1;
        }
      }
    }

    /** The number of records to sort, and the record to write or -1. */
    method CountRecords() returns (numUsed: nat, firstFree: int)
      requires Valid()
      ensures numUsed == Used(directory[..])
      ensures firstFree == if Slot(directory[..]) < RECORDS then Slot(directory[..]) else -1
    {
      numUsed, firstFree := 0, -1;
      ghost var dir := directory[..];
      var tint := 0;
      while tint < RECORDS
        invariant 0 <= tint <= RECORDS && numUsed == 0
        invariant forall i :: 0 <= i < tint ==> !EndMark(dir[i])
        invariant if firstFree == -1 then forall i :: 0 <= i < tint ==> Live(dir[i])
                  else 0 <= firstFree < tint && firstFree == Slot(dir)
      {
        if EndMark(directory[tint]) {
          numUsed := tint;
          if firstFree == -1 { firstFree := tint; }
          break;
        } else if !Live(directory[tint]) {
          if firstFree == -1 { firstFree := tint; }
        }
        tint := tint + 1;
      }
    }

    /** `sorted` is what the library's sort leaves of the first records of the copied directory. */
    method FindGap(sorted: seq<Entry>, requested: nat) returns (newStart: nat)
      requires Valid()
      ensures newStart == Scan(sorted, 0, 1, blocks, requested)
    {
      newStart := 0;
      var prevEnd := 1;
      var tint := 0;
      while tint < |sorted| + 1
        invariant 0 <= tint <= |sorted| + 1
        invariant Scan(sorted, 0, 1, blocks, requested) == if tint <= |sorted| then Scan(sorted, tint, prevEnd, blocks, requested) else 0
      {
        var thisStart := if tint == |sorted| || !Live(sorted[tint]) then Minus(blocks, 1) else sorted[tint].start;
        if Minus(thisStart, prevEnd) >= requested {
          newStart := prevEnd;
          return;
        }
        if tint < |sorted| { prevEnd := EndOf(sorted[tint]); }
        tint := tint + 1;
      }
    }

    method CreateFile(filename: string, size: nat, sorted: seq<Entry>) returns (out: Outcome)
      requires Valid() && SortedCopy(directory[..Used(directory[..])], sorted)
      modifies directory
      ensures (directory[..], out) == Create(old(directory[..]), blocks, filename, size, sorted)
    {
      var maxsize := if size % 2 != 0 then size + 1 else size;
      var found, _ := FindFile(filename);
      if found { return Exists; }
      var numUsed, firstFree := CountRecords();
      if firstFree == -1 { return DirectoryFull; }
      var newStart := FindGap(sorted, maxsize / 2);
      if newStart == 0 { return NoRoom; }
      directory[firstFree] := Entry(filename, newStart, maxsize / 2, 0);
      if firstFree == numUsed && numUsed + 1 < RECORDS {
        directory[numUsed + 1] := directory[numUsed + 1].(name := "");
      }
      out := Created(newStart);
    }

    method DeleteFile(filename: string) returns (found: bool)
      requires Valid()
      modifies directory
      ensures directory[..] == Delete(old(directory[..]), filename)
      ensures found <==> Find(old(directory[..]), filename) < RECORDS
    {
      var slot;
      found, slot := FindFile(filename);
      if found {
        directory[slot] := directory[slot].(name := [DELETED] + directory[slot].name[1..]);
      }
    }
  }
}
