/** The kernel image: what the module packer prints (ModulePacker/main.c) and the module loader reads back (moduleLoader.c, lib.c). */
module Images {
  import opened Common

  type byte = x: int | 0 <= x < 256

  // ----- 32-bit words, least significant byte first -----

  /** The k lowest bytes of n. */
  function Low(n: nat, k: nat): (b: seq<byte>)
    ensures |b| == k
    decreases n, k
  {
    if k == 0 then [] else [n % 256] + Low(n / 256, k - 1)
  }

  function Le32(n: nat): (b: seq<byte>)
    ensures |b| == 4
  {
    Low(n, 4)
  }

  lemma LowBytes(n: nat)
    ensures Le32(n) == [n % 256, n / 256 % 256, n / 256 / 256 % 256, n / 256 / 256 / 256 % 256]
  {
    var a, b, c := n / 256, n / 256 / 256, n / 256 / 256 / 256;
    assert Low(c, 1) == [c % 256] + Low(c / 256, 0);
    assert Low(b, 2) == [b % 256] + Low(c, 1);
    assert Low(a, 3) == [a % 256] + Low(b, 2);
    assert Low(n, 4) == [n % 256] + Low(a, 3);
  }

  function Join(low: nat, rest: nat): nat {
    low + 256 * rest
  }

  function Word(mem: seq<byte>, p: nat): (w: nat)
    requires p + 4 <= |mem|
    ensures w < 0x1_0000_0000
  {
    Join(mem[p], Join(mem[p + 1], Join(mem[p + 2], mem[p + 3])))
  }

  /** The least significant byte comes first. */
  lemma Le32Bytes(n: nat)
    ensures Le32(n) == [n % 256, n / 256 % 256, n / 256 / 256 % 256, n / 256 / 256 / 256 % 256]
  {
    var a, b, c := n / 256, n / 256 / 256, n / 256 / 256 / 256;
    assert Low(c, 1) == [c % 256] by { assert Low(c / 256, 0) == []; }
    assert Low(b, 2) == [b % 256] + Low(c, 1);
    assert Low(a, 3) == [a % 256] + Low(b, 2);
  }

  lemma WordOfLe32(n: nat, mem: seq<byte>, p: nat)
    requires Holds(mem, p, Le32(n))
    ensures Word(mem, p) == n % 0x1_0000_0000
  {
    var b := Le32(n);
    assert b[0] == mem[p] && b[1] == mem[p + 1] && b[2] == mem[p + 2] && b[3] == mem[p + 3];
    LowBytes(n);
    Digits(n);
  }

  lemma WordOfSmall(n: nat, mem: seq<byte>, p: nat)
    requires Holds(mem, p, Le32(n)) && n < 0x1_0000_0000
    ensures Word(mem, p) == n
  {
    WordOfLe32(n, mem, p);
  }

  lemma Digits(n: nat)
    ensures Join(n % 256, Join(n / 256 % 256, Join(n / 256 / 256 % 256, n / 256 / 256 / 256 % 256))) == n % 0x1_0000_0000
  {
    var a := n / 256;
    var b := a / 256;
    var c := b / 256;
    var w := Join(n % 256, Join(a % 256, Join(b % 256, c % 256)));
    assert n == 256 * a + n % 256;
    assert a == 256 * b + a % 256;
    assert b == 256 * c + b % 256;
    assert c == 256 * (c / 256) + c % 256;
    assert n == 0x1_0000_0000 * (c / 256) + w;
  }

  lemma Le32OfWord(mem: seq<byte>, p: nat)
    requires p + 4 <= |mem|
    ensures Le32(Word(mem, p)) == mem[p..p + 4]
  {
    var x2 := Join(mem[p + 2], mem[p + 3]);
    var x1 := Join(mem[p + 1], x2);
    JoinSplit(mem[p], x1);
    JoinSplit(mem[p + 1], x2);
    JoinSplit(mem[p + 2], mem[p + 3]);
    LowBytes(Word(mem, p));
  }

  lemma JoinSplit(low: byte, rest: nat)
    ensures Join(low, rest) % 256 == low && Join(low, rest) / 256 == rest
  {
  }

  // ----- copying -----

  /** One byte after the other, from the front. */
  function CopyBytes(mem: seq<byte>, d: nat, s: nat, n: nat): (m: seq<byte>)
    requires d + n <= |mem| && s + n <= |mem|
    ensures |m| == |mem|
  {
    if n == 0 then mem
    else
      var m := CopyBytes(mem, d, s, n - 1);
      m[d + n - 1 := m[s + n - 1]]
  }

  function Store(mem: seq<byte>, d: nat, b: seq<byte>): (m: seq<byte>)
    requires d + 4 <= |mem| && |b| == 4
    ensures |m| == |mem|
  {
    mem[d := b[0]][d + 1 := b[1]][d + 2 := b[2]][d + 3 := b[3]]
  }

  function CopyWords(mem: seq<byte>, d: nat, s: nat, n: nat): (m: seq<byte>)
    requires d + 4 * n <= |mem| && s + 4 * n <= |mem|
    ensures |m| == |mem|
  {
    if n == 0 then mem
    else
      var m := CopyWords(mem, d, s, n - 1);
      Store(m, d + 4 * (n - 1), Le32(Word(m, s + 4 * (n - 1))))
  }

  /** Between aligned addresses words and bytes give the same memory, overlapping or not. */
  lemma {:induction false} WordsAreBytes(mem: seq<byte>, d: nat, s: nat, n: nat)
    requires d + 4 * n <= |mem| && s + 4 * n <= |mem| && d % 4 == 0 && s % 4 == 0
    ensures CopyWords(mem, d, s, n) == CopyBytes(mem, d, s, 4 * n)
  {
    if n > 0 {
      WordsAreBytes(mem, d, s, n - 1);
      var k := 4 * (n - 1);
      var m := CopyBytes(mem, d, s, k);
      Aligned(d, n - 1);
      Aligned(s, n - 1);
      OneWord(m, d + k, s + k);
      FourSteps(mem, d, s, k);
    }
  }

  lemma Aligned(a: nat, j: nat)
    requires a % 4 == 0
    ensures (a + 4 * j) % 4 == 0
  {
    assert a + 4 * j == 4 * (a / 4 + j);
  }

  lemma FourSteps(mem: seq<byte>, d: nat, s: nat, k: nat)
    requires d + k + 4 <= |mem| && s + k + 4 <= |mem|
    ensures CopyBytes(mem, d, s, k + 4) == CopyBytes(CopyBytes(mem, d, s, k), d + k, s + k, 4)
  {
    var m := CopyBytes(mem, d, s, k);
    assert CopyBytes(m, d + k, s + k, 0) == m;
    assert CopyBytes(m, d + k, s + k, 1) == CopyBytes(mem, d, s, k + 1);
    assert CopyBytes(m, d + k, s + k, 2) == CopyBytes(mem, d, s, k + 2);
    assert CopyBytes(m, d + k, s + k, 3) == CopyBytes(mem, d, s, k + 3);
  }

  lemma OneWord(m: seq<byte>, d: nat, s: nat)
    requires d + 4 <= |m| && s + 4 <= |m| && d % 4 == 0 && s % 4 == 0
    ensures Store(m, d, Le32(Word(m, s))) == CopyBytes(m, d, s, 4)
  {
    Le32OfWord(m, s);
    OneStore(m, d, s);
  }

  lemma OneStore(m: seq<byte>, d: nat, s: nat)
    requires d + 4 <= |m| && s + 4 <= |m| && (d == s || d + 4 <= s || s + 4 <= d)
    ensures Store(m, d, m[s..s + 4]) == CopyBytes(m, d, s, 4)
  {
    assert CopyBytes(m, d, s, 1) == m[d := m[s]];
    assert CopyBytes(m, d, s, 2) == m[d := m[s]][d + 1 := m[s + 1]];
    assert CopyBytes(m, d, s, 3) == m[d := m[s]][d + 1 := m[s + 1]][d + 2 := m[s + 2]];
  }

  /** Where the source is not overwritten before it is read, the target gets the source. */
  lemma {:induction false} CopyIsBlit(mem: seq<byte>, d: nat, s: nat, n: nat)
    requires d + n <= |mem| && s + n <= |mem| && (d <= s || s + n <= d)
    ensures SameOutside(mem, CopyBytes(mem, d, s, n), d, n)
    ensures forall i :: d <= i < d + n ==> CopyBytes(mem, d, s, n)[i] == mem[i - d + s]
  {
    if n > 0 {
      CopyIsBlit(mem, d, s, n - 1);
      var m := CopyBytes(mem, d, s, n - 1);
      assert m[s + n - 1] == mem[s + n - 1];
      assert CopyBytes(mem, d, s, n) == m[d + n - 1 := m[s + n - 1]];
    }
  }

  predicate Repeats(r: seq<byte>, d: nat, s: nat, n: nat)
    requires s < d && d + n <= |r|
  {
    forall i :: d <= i < d + n ==> r[i] == r[i - (d - s)]
  }

  predicate SameOutside(mem: seq<byte>, r: seq<byte>, d: nat, n: nat) {
    |r| == |mem| && forall a :: 0 <= a < |mem| && !(d <= a < d + n) ==> r[a] == mem[a]
  }

  /** A target that starts inside its source repeats the source's first d - s bytes; nothing else is written. */
  lemma {:induction false} CopyRepeats(mem: seq<byte>, d: nat, s: nat, n: nat)
    requires s < d && d + n <= |mem|
    ensures Repeats(CopyBytes(mem, d, s, n), d, s, n) && SameOutside(mem, CopyBytes(mem, d, s, n), d, n)
  {
    if n > 0 {
      CopyRepeats(mem, d, s, n - 1);
      var m := CopyBytes(mem, d, s, n - 1);
      var r := CopyBytes(mem, d, s, n);
      assert r == m[d + n - 1 := m[s + n - 1]];
      forall i | d <= i < d + n ensures r[i] == r[i - (d - s)] { }
    }
  }

  predicate Holds(mem: seq<byte>, p: nat, b: seq<byte>) {
    p + |b| <= |mem| && forall i :: 0 <= i < |b| ==> b[i] == mem[p + i]
  }

  lemma HoldsParts(mem: seq<byte>, p: nat, b: seq<byte>, c: seq<byte>)
    requires Holds(mem, p, b + c)
    ensures Holds(mem, p, b) && Holds(mem, p + |b|, c)
  {
    forall i | 0 <= i < |b| ensures b[i] == mem[p + i] {
      assert (b + c)[i] == b[i];
    }
    forall i | 0 <= i < |c| ensures c[i] == mem[p + |b| + i] {
      assert (b + c)[|b| + i] == c[i];
    }
  }

  // ----- the printed image -----

  /** The first k modules, each with its size before it. */
  function Body(ms: seq<seq<byte>>, k: nat): seq<byte>
    requires k <= |ms|
  {
    if k == 0 then [] else Body(ms, k - 1) + Le32(|ms[k - 1]|) + ms[k - 1]
  }

  /** What follows the kernel: the number of modules, then the modules. */
  function Payload(ms: seq<seq<byte>>): seq<byte> {
    Le32(|ms|) + Body(ms, |ms|)
  }

  function Image(files: seq<seq<byte>>): seq<byte>
    requires files != []
  {
    files[0] + Payload(files[1..])
  }

  /** Where module k starts, with its size, behind the number of modules. */
  function Offset(ms: seq<seq<byte>>, k: nat): nat
    requires k <= |ms|
  {
    if k == 0 then 0 else Offset(ms, k - 1) + 4 + |ms[k - 1]|
  }

  lemma {:induction false} OffsetGrows(ms: seq<seq<byte>>, i: nat, j: nat)
    requires i < j <= |ms|
    ensures Offset(ms, i) + 4 + |ms[i]| <= Offset(ms, j)
  {
    if i < j - 1 { OffsetGrows(ms, i, j - 1); }
  }

  predicate SizesFit(ms: seq<seq<byte>>) {
    forall i :: 0 <= i < |ms| ==> |ms[i]| < 0x1_0000_0000
  }

  predicate ModuleAt(mem: seq<byte>, q: nat, m: seq<byte>) {
    q + 4 + |m| <= |mem| && Word(mem, q) == |m| && Holds(mem, q + 4, m)
  }

  /** Module i of those packed from p on. */
  predicate PackedAt(mem: seq<byte>, p: nat, ms: seq<seq<byte>>, i: nat)
    requires i < |ms|
  {
    ModuleAt(mem, p + Offset(ms, i), ms[i])
  }

  lemma NextHolds(mem: seq<byte>, p: nat, ms: seq<seq<byte>>, k: nat)
    requires k < |ms| && |ms[k]| < 0x1_0000_0000 && Holds(mem, p, Body(ms, k + 1))
    ensures Holds(mem, p, Body(ms, k)) && ModuleAt(mem, p + |Body(ms, k)|, ms[k])
    ensures |Body(ms, k + 1)| == |Body(ms, k)| + 4 + |ms[k]|
  {
    HoldsThree(mem, p, Body(ms, k), Le32(|ms[k]|), ms[k]);
    WordOfSmall(|ms[k]|, mem, p + |Body(ms, k)|);
  }

  lemma HoldsThree(mem: seq<byte>, p: nat, b: seq<byte>, w: seq<byte>, m: seq<byte>)
    requires Holds(mem, p, b + w + m)
    ensures Holds(mem, p, b) && Holds(mem, p + |b|, w) && Holds(mem, p + |b| + |w|, m)
  {
    HoldsParts(mem, p, b + w, m);
    HoldsParts(mem, p, b, w);
  }

  /** The payload in memory: its count, and behind that the modules. */
  lemma PayloadHolds(mem: seq<byte>, p: nat, ms: seq<seq<byte>>)
    requires Holds(mem, p, Payload(ms)) && |ms| < 0x1_0000_0000
    ensures p + 4 <= |mem| && Word(mem, p) == |ms| && Holds(mem, p + 4, Body(ms, |ms|))
    ensures |Payload(ms)| == 4 + |Body(ms, |ms|)|
  {
    HoldsParts(mem, p, Le32(|ms|), Body(ms, |ms|));
    WordOfSmall(|ms|, mem, p);
  }

  lemma {:induction false} BodyHolds(mem: seq<byte>, p: nat, ms: seq<seq<byte>>, k: nat)
    requires k <= |ms| && Holds(mem, p, Body(ms, k)) && SizesFit(ms)
    ensures |Body(ms, k)| == Offset(ms, k)
    ensures forall i: nat :: i < k ==> PackedAt(mem, p, ms, i)
  {
    if k > 0 {
      NextHolds(mem, p, ms, k - 1);
      BodyHolds(mem, p, ms, k - 1);
      assert PackedAt(mem, p, ms, k - 1);
    }
  }

  // ----- reading an image -----

  datatype Reading = Reading(modules: seq<seq<byte>>, cursor: nat)

  /** k modules from p on. */
  function ReadModules(b: seq<byte>, p: nat, k: nat): Option<Reading> {
    if k == 0 then Some(Reading([], p))
    else
      match ReadModules(b, p, k - 1)
      case None => None
      case Some(r) => ReadModule(b, r)
  }

  function ReadModule(b: seq<byte>, r: Reading): Option<Reading> {
    if |b| < r.cursor + 4 || |b| < r.cursor + 4 + Word(b, r.cursor) then None
    else
      var n := Word(b, r.cursor);
      Some(Reading(r.modules + [Piece(b, r.cursor + 4, n)], r.cursor + 4 + n))
  }

  function Piece(b: seq<byte>, p: nat, n: nat): seq<byte>
    requires p + n <= |b|
  {
    seq(n, i requires 0 <= i < n => b[p + i])
  }

  function ReadPayload(b: seq<byte>): Option<Reading> {
    if |b| < 4 then None else ReadModules(b, 4, Word(b, 0))
  }

  lemma ReadOne(b: seq<byte>, r: Reading, m: seq<byte>)
    requires r.cursor + 4 + |m| <= |b| && Word(b, r.cursor) == |m| && Piece(b, r.cursor + 4, |m|) == m
    ensures ReadModule(b, r) == Some(Reading(r.modules + [m], r.cursor + 4 + |m|))
  {
  }

  lemma PieceHolds(b: seq<byte>, p: nat, m: seq<byte>)
    requires Holds(b, p, m)
    ensures Piece(b, p, |m|) == m
  {
  }

  lemma {:induction false} ReadsBack(b: seq<byte>, p: nat, ms: seq<seq<byte>>, k: nat)
    requires k <= |ms| && forall i: nat :: i < k ==> PackedAt(b, p, ms, i)
    ensures ReadModules(b, p, k) == Some(Reading(ms[..k], p + Offset(ms, k)))
  {
    if k > 0 {
      ReadsBack(b, p, ms, k - 1);
      assert PackedAt(b, p, ms, k - 1);
      PieceHolds(b, p + Offset(ms, k - 1) + 4, ms[k - 1]);
      ReadOne(b, Reading(ms[..k - 1], p + Offset(ms, k - 1)), ms[k - 1]);
      assert ms[..k - 1] + [ms[k - 1]] == ms[..k];
    }
  }

  lemma {:induction false} ReadSizesFit(b: seq<byte>, p: nat, k: nat)
    ensures ReadModules(b, p, k).Some? ==> SizesFit(ReadModules(b, p, k).value.modules)
  {
    if k > 0 {
      ReadSizesFit(b, p, k - 1);
    }
  }

  /** The modules come back, and all of the payload is read, exactly when every size fits its field. */
  lemma PayloadReadsBackIff(ms: seq<seq<byte>>, more: seq<byte>)
    requires |ms| < 0x1_0000_0000
    ensures ReadPayload(Payload(ms) + more) == Some(Reading(ms, |Payload(ms)|)) <==> SizesFit(ms)
  {
    var b := Payload(ms) + more;
    assert Holds(b, 0, Payload(ms)) by { assert Payload(ms) <= b; }
    PayloadAt(b, ms);
  }

  lemma PayloadAt(b: seq<byte>, ms: seq<seq<byte>>)
    requires Holds(b, 0, Payload(ms)) && |ms| < 0x1_0000_0000
    ensures ReadPayload(b) == Some(Reading(ms, |Payload(ms)|)) <==> SizesFit(ms)
  {
    PayloadHolds(b, 0, ms);
    ReadPayloadIs(b, |ms|);
    if SizesFit(ms) {
      BodyReadsBack(b, 4, ms);
    } else {
      ReadSizesFit(b, 4, |ms|);
    }
  }

  lemma BodyReadsBack(b: seq<byte>, p: nat, ms: seq<seq<byte>>)
    requires SizesFit(ms) && Holds(b, p, Body(ms, |ms|))
    ensures ReadModules(b, p, |ms|) == Some(Reading(ms, p + |Body(ms, |ms|)|))
  {
    BodyHolds(b, p, ms, |ms|);
    ReadsBack(b, p, ms, |ms|);
    assert ms[..|ms|] == ms;
  }

  lemma ReadPayloadIs(b: seq<byte>, k: nat)
    requires |b| >= 4 && Word(b, 0) == k
    ensures ReadPayload(b) == ReadModules(b, 4, k)
  {
  }

  // ----- loading -----

  datatype Progress = Progress(mem: seq<byte>, cursor: nat)

  /** The first k modules copied, from cur on, to their targets; None when the walk leaves the memory. */
  function LoadModules(mem: seq<byte>, cur: nat, ts: seq<nat>, k: nat): (r: Option<Progress>)
    requires k <= |ts|
    ensures r.Some? ==> |r.value.mem| == |mem|
  {
    if k == 0 then Some(Progress(mem, cur))
    else
      match LoadModules(mem, cur, ts, k - 1)
      case None => None
      case Some(s) => LoadModule(s, ts[k - 1])
  }

  function LoadModule(s: Progress, t: nat): (r: Option<Progress>)
    ensures r.Some? ==> |r.value.mem| == |s.mem|
  {
    if |s.mem| < s.cursor + 4 then None
    else
      var n := Word(s.mem, s.cursor);
      if |s.mem| < s.cursor + 4 + n || |s.mem| < t + n then None
      else Some(Progress(CopyBytes(s.mem, t, s.cursor + 4, n), s.cursor + 4 + n))
  }

  function Load(mem: seq<byte>, payload: nat, targets: seq<nat>): (r: Option<Progress>)
    ensures r.Some? ==> |r.value.mem| == |mem|
  {
    if |mem| < payload + 4 || Word(mem, payload) > |targets| then None
    else LoadModules(mem, payload + 4, targets, Word(mem, payload))
  }

  predicate Inside(a: int, t: nat, m: seq<byte>) {
    t <= a < t + |m|
  }

  /** Target i ends inside the memory and does not start in the part of the image that is unread when it is written. */
  predicate RoomFor(size: nat, cur: nat, ms: seq<seq<byte>>, ts: seq<nat>, i: nat)
    requires i < |ms| <= |ts|
  {
    ts[i] + |ms[i]| <= size && (ts[i] <= cur + Offset(ms, i) + 4 || cur + Offset(ms, |ms|) <= ts[i])
  }

  /** There is room for every target, and no two overlap. */
  ghost predicate Apart(size: nat, cur: nat, ms: seq<seq<byte>>, ts: seq<nat>)
    requires |ms| <= |ts|
  {
    && (forall i: nat :: i < |ms| ==> RoomFor(size, cur, ms, ts, i))
    && (forall i, j :: 0 <= i < j < |ms| ==> ts[i] + |ms[i]| <= ts[j] || ts[j] + |ms[j]| <= ts[i])
  }

  /** The first k modules are at their targets, and nothing else was written. */
  ghost predicate Loaded(mem: seq<byte>, r: seq<byte>, ms: seq<seq<byte>>, ts: seq<nat>, k: nat)
    requires k <= |ms| <= |ts|
  {
    && |r| == |mem|
    && (forall i :: 0 <= i < k ==> Holds(r, ts[i], ms[i]))
    && (forall a :: 0 <= a < |mem| && (forall i :: 0 <= i < k ==> !Inside(a, ts[i], ms[i])) ==> r[a] == mem[a])
  }

  lemma ModuleFrame(mem: seq<byte>, mem': seq<byte>, q: nat, m: seq<byte>)
    requires |mem'| == |mem| && ModuleAt(mem, q, m) && forall a :: q <= a < q + 4 + |m| ==> mem'[a] == mem[a]
    ensures ModuleAt(mem', q, m)
  {
  }

  lemma OneModule(s: Progress, n: nat, t: nat)
    requires s.cursor + 4 + n <= |s.mem| && Word(s.mem, s.cursor) == n && t + n <= |s.mem|
    ensures LoadModule(s, t) == Some(Progress(CopyBytes(s.mem, t, s.cursor + 4, n), s.cursor + 4 + n))
  {
  }

  lemma CopyHolds(mem: seq<byte>, s: nat, m: seq<byte>, t: nat)
    requires Holds(mem, s, m) && t + |m| <= |mem| && (t <= s || s + |m| <= t)
    ensures var r := CopyBytes(mem, t, s, |m|); Holds(r, t, m) && SameOutside(mem, r, t, |m|)
  {
    CopyIsBlit(mem, t, s, |m|);
    var r := CopyBytes(mem, t, s, |m|);
    forall i | 0 <= i < |m| ensures m[i] == r[t + i] {
      assert r[t + i] == mem[t + i - t + s];
    }
  }

  lemma LoadedNext(mem: seq<byte>, m: seq<byte>, r: seq<byte>, ms: seq<seq<byte>>, ts: seq<nat>, k: nat)
    requires k < |ms| <= |ts| && Loaded(mem, m, ms, ts, k) && Holds(r, ts[k], ms[k]) && SameOutside(m, r, ts[k], |ms[k]|)
    requires forall i :: 0 <= i < k ==> ts[i] + |ms[i]| <= ts[k] || ts[k] + |ms[k]| <= ts[i]
    ensures Loaded(mem, r, ms, ts, k + 1)
  {
    forall i | 0 <= i <= k ensures Holds(r, ts[i], ms[i]) {
      if i < k { assert Holds(m, ts[i], ms[i]); }
    }
    forall a | 0 <= a < |mem| && (forall i :: 0 <= i <= k ==> !Inside(a, ts[i], ms[i])) ensures r[a] == mem[a] {
      assert !Inside(a, ts[k], ms[k]);
      assert m[a] == mem[a];
    }
  }

  /** What was loaded so far, with the rest of the image as it was. */
  ghost predicate After(mem: seq<byte>, cur: nat, ms: seq<seq<byte>>, ts: seq<nat>, k: nat, s: Progress)
    requires k <= |ms| <= |ts|
  {
    && s.cursor == cur + Offset(ms, k)
    && Loaded(mem, s.mem, ms, ts, k)
    && forall i: nat :: k <= i < |ms| ==> PackedAt(s.mem, cur, ms, i)
  }

  lemma NextModule(s: Progress, cur: nat, ms: seq<seq<byte>>, ts: seq<nat>, k: nat)
    requires k < |ms| <= |ts| && s.cursor == cur + Offset(ms, k) && PackedAt(s.mem, cur, ms, k) && RoomFor(|s.mem|, cur, ms, ts, k)
    ensures LoadModule(s, ts[k]).Some?
    ensures var r := LoadModule(s, ts[k]).value;
            && r.cursor == cur + Offset(ms, k + 1)
            && Holds(r.mem, ts[k], ms[k]) && SameOutside(s.mem, r.mem, ts[k], |ms[k]|)
  {
    OffsetGrows(ms, k, |ms|);
    OneModule(s, |ms[k]|, ts[k]);
    CopyHolds(s.mem, s.cursor + 4, ms[k], ts[k]);
  }

  lemma RestPacked(m: seq<byte>, r: seq<byte>, cur: nat, ms: seq<seq<byte>>, ts: seq<nat>, k: nat, i: nat)
    requires k < i < |ms| <= |ts| && PackedAt(m, cur, ms, i) && RoomFor(|m|, cur, ms, ts, k) && SameOutside(m, r, ts[k], |ms[k]|)
    ensures PackedAt(r, cur, ms, i)
  {
    OffsetGrows(ms, k, i);
    OffsetGrows(ms, i, |ms|);
    ModuleFrame(m, r, cur + Offset(ms, i), ms[i]);
  }

  lemma AfterNext(mem: seq<byte>, cur: nat, ms: seq<seq<byte>>, ts: seq<nat>, k: nat, s: Progress)
    requires k < |ms| <= |ts| && Apart(|mem|, cur, ms, ts) && After(mem, cur, ms, ts, k, s)
    ensures LoadModule(s, ts[k]).Some? && After(mem, cur, ms, ts, k + 1, LoadModule(s, ts[k]).value)
  {
    assert RoomFor(|mem|, cur, ms, ts, k) && PackedAt(s.mem, cur, ms, k);
    NextModule(s, cur, ms, ts, k);
    var r := LoadModule(s, ts[k]).value;
    LoadedNext(mem, s.mem, r.mem, ms, ts, k);
    forall i: nat | k < i < |ms| ensures PackedAt(r.mem, cur, ms, i) {
      RestPacked(s.mem, r.mem, cur, ms, ts, k, i);
    }
  }

  lemma {:induction false} LoadsModules(mem: seq<byte>, cur: nat, ms: seq<seq<byte>>, ts: seq<nat>, k: nat)
    requires k <= |ms| <= |ts| && Apart(|mem|, cur, ms, ts)
    requires forall i: nat :: i < |ms| ==> PackedAt(mem, cur, ms, i)
    ensures LoadModules(mem, cur, ts, k).Some? && After(mem, cur, ms, ts, k, LoadModules(mem, cur, ts, k).value)
  {
    if k > 0 {
      LoadsModules(mem, cur, ms, ts, k - 1);
      AfterNext(mem, cur, ms, ts, k - 1, LoadModules(mem, cur, ts, k - 1).value);
    }
  }

  /** Loading what was packed, with the image in memory at base: every module unchanged at its target, and nothing else written. */
  lemma LoadPackedImage(mem: seq<byte>, base: nat, files: seq<seq<byte>>, targets: seq<nat>)
    requires 0 < |files| <= |targets| && |files| <= 0x8000_0000 && Holds(mem, base, Image(files)) && SizesFit(files[1..])
    requires Apart(|mem|, base + |files[0]| + 4, files[1..], targets)
    ensures var r := Load(mem, base + |files[0]|, targets);
            r.Some? && r.value.cursor == base + |Image(files)| && Loaded(mem, r.value.mem, files[1..], targets, |files| - 1)
  {
    var payload, ms := base + |files[0]|, files[1..];
    HoldsParts(mem, base, files[0], Payload(ms));
    PayloadHolds(mem, payload, ms);
    BodyHolds(mem, payload + 4, ms, |ms|);
    LoadsModules(mem, payload + 4, ms, targets, |ms|);
    LoadIs(mem, payload, targets, |ms|);
  }

  lemma LoadIs(mem: seq<byte>, payload: nat, targets: seq<nat>, k: nat)
    requires payload + 4 <= |mem| && Word(mem, payload) == k <= |targets|
    ensures Load(mem, payload, targets) == LoadModules(mem, payload + 4, targets, k)
  {
  }
}
