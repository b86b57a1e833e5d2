/** Numbers as text: itoa and strncat (lib.c), to_decimal and from_decimal (stdLib.c), and the names of pipe semaphores (pipes.c). */
module Numerals {
  import opened Common

  const INT_LIMIT := 0x8000_0000

  /** A 32-bit signed result. */
  function Wrap(x: int): (r: int)
    ensures -INT_LIMIT <= r < INT_LIMIT && (-INT_LIMIT <= x < INT_LIMIT ==> r == x)
  {
    (x + INT_LIMIT) % 0x1_0000_0000 - INT_LIMIT
  }

  function Digit(d: nat): (c: char)
    requires d < 16
    ensures DigitValue(c) == d && c != '-'
  {
    if d < 10 then '0' + d as char else 'A' + (d - 10) as char
  }

  /** The value of a digit of any base up to 16, or 16. */
  function DigitValue(c: char): (d: nat)
    ensures d <= 16
  {
    if '0' <= c <= '9' then (c - '0') as int
    else if 'A' <= c <= 'F' then (c - 'A') as int + 10
    else if 'a' <= c <= 'f' then (c - 'a') as int + 10
    else 16
  }

  /** Most significant digit first; nothing for zero. */
  function Digits(n: nat, b: nat): string
    requires 2 <= b <= 16
  {
    if n == 0 then ""
    else
      Below(n, b);
      Digits(n / b, b) + [Digit(n % b)]
  }

  lemma Below(n: nat, b: nat)
    requires 2 <= b
    ensures 0 <= n / b <= n && n == n / b * b + n % b && n % b < b
    ensures n > 0 ==> n / b < n
  {
    var q, r := n / b, n % b;
    assert n == q * b + r;
    if q > 0 { assert q * b >= q * 2; }
  }

  lemma Compose(v: nat, b: nat, d: nat)
    requires d < b
    ensures (v * b + d) / b == v && (v * b + d) % b == d
  {
    var q, r := (v * b + d) / b, (v * b + d) % b;
    assert q * b + r == v * b + d;
    var e := q - v;
    assert e * b == d - r;
    ProductBounds(e, b);
  }

  function FromDecimal(n: nat, b: nat): string
    requires 2 <= b <= 16
  {
    if n == 0 then "0" else Digits(n, b)
  }

  /** None at the first character that is no digit of the base. */
  function ToDecimal(s: string, b: nat): (r: Option<int>)
    ensures r.Some? ==> -INT_LIMIT <= r.value < INT_LIMIT
  {
    if s == "" then Some(0)
    else
      match ToDecimal(s[..|s| - 1], b)
      case None => None
      case Some(v) =>
        var d := DigitValue(s[|s| - 1]);
        if d >= b || d >= 16 then None else Some(Wrap(v * b + d))
  }

  function Itoa(n: int): string {
    if n < 0 then "-" + Digits(-n, 10) else Digits(n, 10)
  }

  // ----- round trips -----

  lemma {:induction false} DigitsRead(n: nat, b: nat)
    requires n < INT_LIMIT && 2 <= b <= 16
    ensures ToDecimal(Digits(n, b), b) == Some(n)
  {
    if n > 0 {
      Below(n, b);
      DigitsRead(n / b, b);
      var s := Digits(n, b);
      assert s[..|s| - 1] == Digits(n / b, b);
    }
  }

  /** to_decimal undoes from_decimal. */
  lemma ToUndoesFrom(n: nat, b: nat)
    requires n < INT_LIMIT && 2 <= b <= 16
    ensures ToDecimal(FromDecimal(n, b), b) == Some(n)
  {
    DigitsRead(n, b);
    if n == 0 {
      assert "0"[..0] == "";
      assert DigitValue('0') == 0;
    }
  }

  predicate AllDigits(s: string, b: nat) {
    forall i :: 0 <= i < |s| ==> DigitValue(s[i]) < b && DigitValue(s[i]) < 16
  }

  /** The number a text of digits stands for, without bound. */
  function Value(s: string, b: nat): nat {
    if s == "" then 0 else Value(s[..|s| - 1], b) * b + DigitValue(s[|s| - 1])
  }

  lemma {:induction false} ReadsValue(s: string, b: nat)
    requires 2 <= b <= 16
    ensures ToDecimal(s, b).Some? <==> AllDigits(s, b)
    ensures AllDigits(s, b) && Value(s, b) < INT_LIMIT ==> ToDecimal(s, b) == Some(Value(s, b))
  {
    if s != "" {
      var t := s[..|s| - 1];
      ReadsValue(t, b);
      assert AllDigits(s, b) <==> AllDigits(t, b) && DigitValue(s[|s| - 1]) < b;
      Grows(Value(t, b), b);
    }
  }

  lemma Grows(v: nat, b: nat)
    requires b >= 2
    ensures v * b >= v && (v > 0 ==> v * b > 0)
  {
  }

  /** Without small letters, and without leading zeros except in 0 itself. */
  predicate Canonical(s: string) {
    s == "0" || (s != "" && s[0] != '0' && forall i :: 0 <= i < |s| ==> !('a' <= s[i] <= 'f'))
  }

  lemma {:induction false} DigitsOfValue(s: string, b: nat)
    requires 2 <= b <= 16 && AllDigits(s, b) && s != "" && s[0] != '0' && forall i :: 0 <= i < |s| ==> !('a' <= s[i] <= 'f')
    ensures Value(s, b) > 0 && Digits(Value(s, b), b) == s
  {
    var t, c := s[..|s| - 1], s[|s| - 1];
    var d := DigitValue(c);
    assert Digit(d) == c;
    if t == "" {
      assert Value(t, b) == 0;
      assert Digits(d / b, b) == "" by { Compose(0, b, d); }
      Compose(0, b, d);
      assert s == [c];
    } else {
      DigitsOfValue(t, b);
      Grows(Value(t, b), b);
      Compose(Value(t, b), b, d);
      assert s == t + [c];
    }
  }

  lemma {:induction false} DigitsCanonical(n: nat, b: nat)
    requires 2 <= b <= 16 && n > 0
    ensures var s := Digits(n, b); s != "" && s[0] != '0' && forall i :: 0 <= i < |s| ==> !('a' <= s[i] <= 'f')
  {
    Below(n, b);
    var s := Digits(n, b);
    var t, c := Digits(n / b, b), Digit(n % b);
    assert s == t + [c];
    assert !('a' <= c <= 'f');
    if n / b > 0 {
      DigitsCanonical(n / b, b);
      assert s[0] == t[0];
    } else {
      assert t == "" && n % b == n;
      assert s == [c] && c != '0';
    }
  }

  /** from_decimal gives back the text that to_decimal has read exactly when it was canonical. */
  lemma FromUndoesToIff(s: string, b: nat)
    requires 2 <= b <= 16 && AllDigits(s, b) && Value(s, b) < INT_LIMIT
    ensures ToDecimal(s, b).Some? && ToDecimal(s, b).value >= 0
    ensures FromDecimal(ToDecimal(s, b).value, b) == s <==> Canonical(s)
  {
    ReadsValue(s, b);
    var n := Value(s, b);
    if n > 0 { DigitsCanonical(n, b); }
    if s == "0" {
      assert "0"[..0] == "";
    } else if Canonical(s) {
      DigitsOfValue(s, b);
    }
  }

  // ----- small letters -----

  /** The value of a character as a digit, by the letters themselves. */
  predicate Stands(c: char, d: int) {
    0 <= d < 16 && (c == "0123456789ABCDEF"[d] || c == "0123456789abcdef"[d])
  }

  predicate DigitOf(c: char, b: nat) {
    exists d :: 0 <= d < b && Stands(c, d)
  }

  lemma StandsValue(c: char)
    ensures forall d :: Stands(c, d) <==> 0 <= d < 16 && d == DigitValue(c)
  {
    var d := DigitValue(c);
    assert "0123456789ABCDEF"[0] == '0' && "0123456789ABCDEF"[9] == '9' && "0123456789ABCDEF"[10] == 'A';
  }

  /** A capital letter from A to F made small. */
  function Small(c: char): char {
    match c
    case 'A' => 'a'
    case 'B' => 'b'
    case 'C' => 'c'
    case 'D' => 'd'
    case 'E' => 'e'
    case 'F' => 'f'
    case _ => c
  }

  /** t is s with some of the letters A to F made small. */
  predicate Smaller(s: string, t: string) {
    |t| == |s| && forall i :: 0 <= i < |s| ==> t[i] == s[i] || t[i] == Small(s[i])
  }

  /** Small letters read like the capitals. */
  lemma {:induction false} SmallReadsSame(s: string, t: string, b: nat)
    requires Smaller(s, t)
    ensures ToDecimal(t, b) == ToDecimal(s, b)
    decreases |s|
  {
    if s != "" {
      SmallReadsSame(s[..|s| - 1], t[..|t| - 1], b);
    }
  }

  /** A number written with any of its letters small is read back. */
  lemma SmallRoundTrip(n: nat, b: nat, t: string)
    requires n < INT_LIMIT && 2 <= b <= 16 && Smaller(FromDecimal(n, b), t)
    ensures ToDecimal(t, b) == Some(n)
  {
    ToUndoesFrom(n, b);
    SmallReadsSame(FromDecimal(n, b), t, b);
  }

  /** A text is refused exactly if one of its characters stands for no digit of the base. */
  lemma RefusedIff(s: string, b: nat)
    requires 2 <= b <= 16
    ensures ToDecimal(s, b).None? <==> exists i :: 0 <= i < |s| && !DigitOf(s[i], b)
  {
    ReadsValue(s, b);
    forall i | 0 <= i < |s| ensures (DigitValue(s[i]) < b && DigitValue(s[i]) < 16) <==> DigitOf(s[i], b) {
      StandsValue(s[i]);
      assert DigitValue(s[i]) < 16 ==> Stands(s[i], DigitValue(s[i]));
    }
  }

  /** A text of digits is read as their sum in powers of the base, as long as that fits. */
  lemma {:induction false} ReadsPositional(s: string, ds: seq<nat>, b: nat)
    requires 2 <= b <= 16 && |ds| == |s| && forall i :: 0 <= i < |s| ==> ds[i] < b && Stands(s[i], ds[i])
    requires Weighed(ds, b) < INT_LIMIT
    ensures ToDecimal(s, b) == Some(Weighed(ds, b))
  {
    if s != "" {
      var t, es := s[..|s| - 1], ds[..|s| - 1];
      Grows(Weighed(es, b), b);
      ReadsPositional(t, es, b);
      ReadsLast(s, b, Weighed(es, b), ds[|s| - 1]);
    }
  }

  lemma ReadsLast(s: string, b: nat, v: nat, d: nat)
    requires s != "" && b <= 16 && d < b && Stands(s[|s| - 1], d) && ToDecimal(s[..|s| - 1], b) == Some(v)
    ensures ToDecimal(s, b) == Some(Wrap(v * b + d))
  {
    StandsValue(s[|s| - 1]);
  }

  function Weighed(ds: seq<nat>, b: nat): nat {
    if ds == [] then 0 else Weighed(ds[..|ds| - 1], b) * b + ds[|ds| - 1]
  }

  // ----- names -----

  lemma {:induction false} DigitsValue(n: nat, b: nat)
    requires 2 <= b <= 16
    ensures Value(Digits(n, b), b) == n && AllDigits(Digits(n, b), b)
  {
    if n > 0 {
      Below(n, b);
      DigitsValue(n / b, b);
      var s := Digits(n, b);
      assert s[..|s| - 1] == Digits(n / b, b);
    }
  }

  /** itoa never gives two numbers the same text, and differs from from_decimal only for zero, where it gives none. */
  lemma ItoaInjective(m: int, n: int)
    ensures Itoa(m) == Itoa(n) ==> m == n
    ensures n >= 0 ==> (Itoa(n) == FromDecimal(n, 10) <==> n != 0)
  {
    var i, j := if m < 0 then -m else m, if n < 0 then -n else n;
    DigitsValue(i, 10);
    DigitsValue(j, 10);
    assert m < 0 ==> Itoa(m)[0] == '-' && Itoa(m)[1..] == Digits(i, 10);
    assert n < 0 ==> Itoa(n)[0] == '-' && Itoa(n)[1..] == Digits(j, 10);
    assert DigitValue('-') == 16;
  }

  /** A minus sign exactly for negative numbers, then the digits of the absolute value, which read back; none for zero. */
  lemma ItoaReads(n: int)
    requires -INT_LIMIT < n < INT_LIMIT
    ensures n < 0 ==> Itoa(n) != "" && Itoa(n)[0] == '-' && ToDecimal(Itoa(n)[1..], 10) == Some(-n)
    ensures n > 0 ==> Itoa(n) != "" && Itoa(n)[0] != '-' && ToDecimal(Itoa(n), 10) == Some(n)
    ensures n == 0 ==> Itoa(n) == ""
  {
    var m := if n < 0 then -n else n;
    DigitsRead(m, 10);
    if n < 0 {
      assert Itoa(n)[1..] == Digits(m, 10);
    } else if n > 0 {
      DigitsFirst(n, 10);
    }
  }

  lemma {:induction false} DigitsFirst(n: nat, b: nat)
    requires 2 <= b <= 16 && n > 0
    ensures Digits(n, b) != "" && Digits(n, b)[0] != '-'
  {
    Below(n, b);
    if n / b > 0 { DigitsFirst(n / b, b); }
  }

  const FIRST_FD := 20

  /** The two descriptors of the k-th pipe; the counter has 16 bits. */
  function ReadEnd(k: nat): nat {
    (FIRST_FD + 2 * k) % 0x1_0000
  }

  function WriteEnd(k: nat): nat {
    (FIRST_FD + 2 * k + 1) % 0x1_0000
  }

  function WriteSemName(k: nat): string {
    Itoa(ReadEnd(k)) + "write"
  }

  function ReadSemName(k: nat): string {
    Itoa(WriteEnd(k)) + "read"
  }

  lemma SuffixSplit(a: string, b: string, s: string)
    ensures a + s == b + s ==> a == b
  {
    if a + s == b + s {
      assert |a| == |b|;
      assert a == (a + s)[..|a|] && b == (b + s)[..|b|];
    }
  }

  lemma LastLetters(a: string)
    ensures |a + "write"| >= 5 && (a + "write")[|a + "write"| - 2] == 't'
    ensures |a + "read"| >= 4 && (a + "read")[|a + "read"| - 2] == 'a'
  {
  }

  lemma EndsClashIff(j: nat, k: nat)
    ensures ReadEnd(j) == ReadEnd(k) <==> (j - k) % 0x8000 == 0
    ensures WriteEnd(j) == WriteEnd(k) <==> (j - k) % 0x8000 == 0
  {
    SameRemainderIff(FIRST_FD + 2 * j, FIRST_FD + 2 * k, j - k);
    SameRemainderIff(FIRST_FD + 2 * j + 1, FIRST_FD + 2 * k + 1, j - k);
  }

  lemma SameRemainderIff(a: nat, b: nat, d: int)
    requires a - b == 2 * d
    ensures a % 0x1_0000 == b % 0x1_0000 <==> d % 0x8000 == 0
  {
    var p, q, e := a / 0x1_0000, b / 0x1_0000, d / 0x8000;
    assert a == p * 0x1_0000 + a % 0x1_0000;
    assert b == q * 0x1_0000 + b % 0x1_0000;
    assert d == e * 0x8000 + d % 0x8000;
  }

  /** Two pipes share a semaphore name exactly when a multiple of 32768 pipes lie between their creations. */
  lemma PipeNamesClashIff(j: nat, k: nat)
    ensures WriteSemName(j) == WriteSemName(k) <==> (j - k) % 0x8000 == 0
    ensures ReadSemName(j) == ReadSemName(k) <==> (j - k) % 0x8000 == 0
    ensures WriteSemName(j) != ReadSemName(k)
  {
    EndsClashIff(j, k);
    SuffixSplit(Itoa(ReadEnd(j)), Itoa(ReadEnd(k)), "write");
    SuffixSplit(Itoa(WriteEnd(j)), Itoa(WriteEnd(k)), "read");
    ItoaInjective(ReadEnd(j), ReadEnd(k));
    ItoaInjective(WriteEnd(j), WriteEnd(k));
    LastLetters(Itoa(ReadEnd(j)));
    LastLetters(Itoa(WriteEnd(k)));
  }
}
