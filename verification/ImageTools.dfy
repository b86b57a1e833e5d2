/** The packer's output file and the loader's memory, changed step by step. */
module ImageTools {
  import opened Common
  import opened Images

  const BUFFER_SIZE := 128

  /** A file being read; the end-of-file flag is set by the first read that comes up short. */
  class Source {
    const data: seq<byte>
    var pos: nat
    var eof: bool

    ghost predicate Valid()
      reads this
    {
      pos <= |data| && (eof ==> pos == |data|)
    }

    constructor (contents: seq<byte>)
      ensures Valid() && data == contents && pos == 0 && !eof
    {
      data, pos, eof := contents, 0, false;
    }

    method Read(n: nat) returns (chunk: seq<byte>)
      requires Valid()
      modifies this
      ensures Valid() && old(pos) <= pos && chunk == data[old(pos)..pos]
      ensures pos == (if old(pos) + n <= |data| then old(pos) + n else |data|) && eof == (old(eof) || |chunk| < n)
    {
      var end := if pos + n <= |data| then pos + n else |data|;
      chunk := data[pos..end];
      pos := end;
      eof := eof || |chunk| < n;
    }
  }

  class Packer {
    var target: seq<byte>

    constructor ()
      ensures target == []
    {
      target := [];
    }

    method Write(b: seq<byte>)
      modifies this
      ensures target == old(target) + b
    {
      target := target + b;
    }

    /** The whole file, in chunks. */
    method WriteFile(contents: seq<byte>)
      modifies this
      ensures target == old(target) + contents
    {
      var source := new Source(contents);
      assert contents[..0] == [];
      while !source.eof
        invariant source.Valid() && source.data == contents && fresh(source)
        invariant target == old(target) + contents[..source.pos]
        decreases |contents| - source.pos, !source.eof
      {
        ghost var was := source.pos;
        var chunk := source.Read(BUFFER_SIZE);
        assert contents[..was] + chunk == contents[..source.pos];
        Write(chunk);
      }
      assert contents[..|contents|] == contents;
    }

    /** Kernel, number of modules, and each module behind its size. */
    method BuildImage(files: seq<seq<byte>>)
      requires files != [] && target == []
      modifies this
      ensures target == Image(files)
    {
      WriteFile(files[0]);
      Write(Le32(|files| - 1));
      ghost var ms := files[1..];
      var i := 1;
      while i < |files|
        invariant 1 <= i <= |files|
        invariant target == files[0] + (Le32(|ms|) + Body(ms, i - 1))
      {
        Write(Le32(|files[i]|));
        WriteFile(files[i]);
        assert ms[i - 1] == files[i];
        assert Body(ms, i) == Body(ms, i - 1) + Le32(|ms[i - 1]|) + ms[i - 1];
        i := i + 1;
      }
    }
  }

  class Machine {
    const bytes: array<byte>

    constructor (contents: seq<byte>)
      ensures fresh(bytes) && bytes[..] == contents
    {
      bytes := new byte[|contents|](i requires 0 <= i < |contents| => contents[i]);
      new;
      assert bytes[..] == contents;
    }

    method WordAt(p: nat) returns (w: nat)
      requires p + 4 <= bytes.Length
      ensures w == Word(bytes[..], p)
    {
      w := Join(bytes[p], Join(bytes[p + 1], Join(bytes[p + 2], bytes[p + 3])));
    }

    method StoreAt(p: nat, w: nat)
      requires p + 4 <= bytes.Length
      modifies bytes
      ensures bytes[..] == Store(old(bytes[..]), p, Le32(w))
    {
      LowBytes(w);
      bytes[p] := w % 256;
      bytes[p + 1] := w / 256 % 256;
      bytes[p + 2] := w / 256 / 256 % 256;
      bytes[p + 3] := w / 256 / 256 / 256 % 256;
    }

    method CopyByWords(d: nat, s: nat, n: nat)
      requires d + 4 * n <= bytes.Length && s + 4 * n <= bytes.Length
      modifies bytes
      ensures bytes[..] == CopyWords(old(bytes[..]), d, s, n)
    {
      var i := 0;
      while i < n
        invariant 0 <= i <= n && bytes[..] == CopyWords(old(bytes[..]), d, s, i)
      {
        var w := WordAt(s + 4 * i);
        StoreAt(d + 4 * i, w);
        i := i + 1;
      }
    }

    method CopyByBytes(d: nat, s: nat, n: nat)
      requires d + n <= bytes.Length && s + n <= bytes.Length
      modifies bytes
      ensures bytes[..] == CopyBytes(old(bytes[..]), d, s, n)
    {
      var i := 0;
      while i < n
        invariant 0 <= i <= n && bytes[..] == CopyBytes(old(bytes[..]), d, s, i)
      {
        bytes[d + i] := bytes[s + i];
        i := i + 1;
      }
    }

    /** Word by word where everything is aligned; the result does not depend on it. */
    method Memcpy(destination: nat, source: nat, length: nat)
      requires destination + length <= bytes.Length && source + length <= bytes.Length
      modifies bytes
      ensures bytes[..] == CopyBytes(old(bytes[..]), destination, source, length)
    {
      if destination % 4 == 0 && source % 4 == 0 && length % 4 == 0 {
        WordsAreBytes(bytes[..], destination, source, length / 4);
        CopyByWords(destination, source, length / 4);
      } else {
        CopyByBytes(destination, source, length);
      }
    }

    method ReadUint32(cursor: nat) returns (w: nat, next: nat)
      requires cursor + 4 <= bytes.Length
      ensures w == Word(bytes[..], cursor) && next == cursor + 4
    {
      w := WordAt(cursor);
      next := cursor + 4;
    }

    method LoadOne(cursor: nat, target: nat) returns (next: nat)
      requires LoadModule(Progress(bytes[..], cursor), target).Some?
      modifies bytes
      ensures Some(Progress(bytes[..], next)) == LoadModule(Progress(old(bytes[..]), cursor), target)
    {
      var size, start := ReadUint32(cursor);
      OneModule(Progress(bytes[..], cursor), size, target);
      Memcpy(target, start, size);
      next := start + size;
    }

    method LoadAll(payload: nat, targets: seq<nat>) returns (cursor: nat)
      requires Load(bytes[..], payload, targets).Some?
      modifies bytes
      ensures Some(Progress(bytes[..], cursor)) == Load(old(bytes[..]), payload, targets)
    {
      var count;
      count, cursor := ReadUint32(payload);
      ghost var mem := bytes[..];
      LoadIs(mem, payload, targets, count);
      var i := 0;
      while i < count
        invariant 0 <= i <= count && Some(Progress(bytes[..], cursor)) == LoadModules(mem, payload + 4, targets, i)
      {
        LoadsBefore(mem, payload + 4, targets, i + 1, count);
        cursor := LoadOne(cursor, targets[i]);
        i := i + 1;
      }
    }
  }

  lemma {:induction false} LoadsBefore(mem: seq<byte>, cur: nat, ts: seq<nat>, i: nat, k: nat)
    requires i <= k <= |ts| && LoadModules(mem, cur, ts, k).Some?
    ensures LoadModules(mem, cur, ts, i).Some?
    decreases k
  {
    if i < k { LoadsBefore(mem, cur, ts, i, k - 1); }
  }
}
