/** The text routines on character buffers, with the terminating zero where the program puts it. */
module NumeralText {
  import opened Common
  import opened Numerals

  const NUL: char := 0 as char

  function Reversed(s: string): (r: string)
    ensures |r| == |s| && forall i :: 0 <= i < |s| ==> r[i] == s[|s| - 1 - i]
  {
    seq(|s|, i requires 0 <= i < |s| => s[|s| - 1 - i])
  }

  /** The buffer holds s, terminated. */
  predicate Text(b: seq<char>, s: string) {
    |s| < |b| && b[..|s|] == s && b[|s|] == NUL && NUL !in s
  }

  lemma TextStops(b: seq<char>, s: string, i: nat)
    requires Text(b, s) && i <= |s|
    ensures b[i] == NUL <==> i == |s|
    ensures i < |s| ==> b[i] == s[i]
  {
    assert i < |s| ==> b[..|s|][i] in s;
  }

  lemma {:induction false} NoNul(n: nat, b: nat)
    requires 2 <= b <= 16
    ensures NUL !in Digits(n, b)
  {
    if n > 0 {
      Below(n, b);
      NoNul(n / b, b);
    }
  }

  method StrLength(str: array<char>, ghost s: string) returns (len: nat)
    requires Text(str[..], s)
    ensures len == |s|
  {
    len := 0;
    TextStops(str[..], s, len);
    while str[len] != NUL
      invariant len <= |s| && (str[len] == NUL <==> len == |s|)
      decreases |s| - len
    {
      len := len + 1;
      TextStops(str[..], s, len);
    }
  }

  /** The first len characters, in place. */
  method ReversePart(str: array<char>, len: nat)
    requires len <= str.Length
    modifies str
    ensures str[..len] == Reversed(old(str[..len])) && str[len..] == old(str[len..])
  {
    var i := 0;
    while i < len / 2
      invariant 0 <= i <= len / 2
      invariant forall k :: 0 <= k < i ==> str[k] == old(str[len - 1 - k]) && str[len - 1 - k] == old(str[k])
      invariant forall k :: i <= k < len - i ==> str[k] == old(str[k])
      invariant forall k :: len <= k < str.Length ==> str[k] == old(str[k])
    {
      str[i], str[len - i - 1] := str[len - i - 1], str[i];
      i := i + 1;
    }
  }

  method Reverse(str: array<char>, ghost s: string)
    requires Text(str[..], s)
    modifies str
    ensures Text(str[..], Reversed(s))
  {
    var len := StrLength(str, s);
    ReversePart(str, len);
    assert old(str[..len]) == old(str[..])[..len];
    assert str[..][..len] == str[..len] && str[..][len] == str[len..][0] == old(str[len..])[0];
    forall c | c in Reversed(s) ensures c != NUL {
      var i :| 0 <= i < |s| && Reversed(s)[i] == c;
      assert s[|s| - 1 - i] == c;
    }
  }

  /** Digits from the least significant on. */
  method PutDigits(n: nat, b: nat, str: array<char>) returns (pos: nat)
    requires 2 <= b <= 16 && |Digits(n, b)| < str.Length
    modifies str
    ensures pos == |Digits(n, b)| && str[..pos] == Reversed(Digits(n, b))
  {
    pos := 0;
    var num: nat := n;
    while num != 0
      invariant pos <= |Digits(n, b)| && Digits(n, b) == Digits(num, b) + Reversed(str[..pos])
      decreases num
    {
      Below(num, b);
      ghost var before := str[..pos];
      NextDigit(num, b, before);
      str[pos] := Digit(num % b);
      pos := pos + 1;
      assert str[..pos] == before + [Digit(num % b)];
      num := num / b;
    }
    assert Reversed(Reversed(str[..pos])) == str[..pos];
  }

  lemma NextDigit(num: nat, b: nat, before: string)
    requires 2 <= b <= 16 && num > 0
    ensures Digits(num, b) + Reversed(before) == Digits(num / b, b) + Reversed(before + [Digit(num % b)])
    ensures |Digits(num, b)| >= 1
  {
    Below(num, b);
    var c := Digit(num % b);
    assert Reversed(before + [c]) == [c] + Reversed(before);
    assert Digits(num / b, b) + [c] + Reversed(before) == Digits(num / b, b) + ([c] + Reversed(before));
  }

  method ItoaInto(num: int, str: array<char>)
    requires |Itoa(num)| < str.Length
    modifies str
    ensures Text(str[..], Itoa(num))
  {
    var n := if num < 0 then -num else num;
    NoNul(n, 10);
    var i := PutDigits(n, 10, str);
    ghost var s := Reversed(Digits(n, 10));
    if num < 0 {
      str[i] := '-';
      i := i + 1;
      s := s + ['-'];
    }
    str[i] := NUL;
    assert str[..i] == s;
    assert Reversed(s) == Itoa(num);
    ReversedNoNul(s, Itoa(num));
    assert str[..][..i] == s;
    Reverse(str, s);
  }

  lemma ReversedNoNul(s: string, r: string)
    requires Reversed(s) == r && NUL !in r
    ensures NUL !in s
  {
    forall c | c in s ensures c != NUL {
      var i :| 0 <= i < |s| && s[i] == c;
      assert r[|s| - 1 - i] == c;
    }
  }

  method FromDecimalInto(decimal: nat, base: nat, buffer: array<char>)
    requires 2 <= base <= 16 && |FromDecimal(decimal, base)| < buffer.Length
    modifies buffer
    ensures Text(buffer[..], FromDecimal(decimal, base))
  {
    if decimal == 0 {
      buffer[0] := '0';
      buffer[1] := NUL;
      assert buffer[..][..1] == "0";
      return;
    }
    NoNul(decimal, base);
    var pos := PutDigits(decimal, base, buffer);
    buffer[pos] := NUL;
    ghost var s := buffer[..pos];
    ReversePart(buffer, pos);
    assert Reversed(Reversed(Digits(decimal, base))) == Digits(decimal, base);
    assert buffer[..][..pos] == buffer[..pos] && buffer[..][pos] == buffer[pos..][0];
  }

  /** The number read, or -1. */
  method ToDecimalOf(fmt: array<char>, base: nat, ghost s: string) returns (r: int)
    requires Text(fmt[..], s)
    ensures r == match ToDecimal(s, base) case None => -1 case Some(v) => v
  {
    r := 0;
    var i := 0;
    assert s[..0] == "";
    TextStops(fmt[..], s, i);
    while fmt[i] != NUL
      invariant i <= |s| && ToDecimal(s[..i], base) == Some(r) && (fmt[i] == NUL <==> i == |s|)
      decreases |s| - i
    {
      TextStops(fmt[..], s, i);
      assert s[..i + 1][..i] == s[..i];
      var digit := DigitValue(fmt[i]);
      if digit >= base || digit >= 16 {
        BadPrefix(s, i + 1, base);
        return -1;
      }
      r := Wrap(r * base + digit);
      i := i + 1;
      TextStops(fmt[..], s, i);
    }
    assert s[..i] == s;
  }

  lemma {:induction false} BadPrefix(s: string, i: nat, base: nat)
    requires i <= |s| && ToDecimal(s[..i], base) == None
    ensures ToDecimal(s, base) == None
    decreases |s|
  {
    if i < |s| {
      var t := s[..|s| - 1];
      assert t[..i] == s[..i];
      BadPrefix(t, i, base);
    } else {
      assert s[..i] == s;
    }
  }

  /** Appends in place; the result is the new length. */
  method Strncat(dest: array<char>, src: array<char>, ghost d: string, ghost s: string) returns (len: nat)
    requires dest != src && Text(dest[..], d) && Text(src[..], s) && |d| + |s| < dest.Length
    modifies dest
    ensures Text(dest[..], d + s) && len == |d + s|
  {
    var n := StrLength(dest, d);
    var i := 0;
    assert dest[..n] == d;
    TextStops(src[..], s, i);
    while src[i] != NUL
      invariant i <= |s| && dest[..n + i] == d + s[..i] && src[..] == old(src[..]) && (src[i] == NUL <==> i == |s|)
      decreases |s| - i
    {
      TextStops(src[..], s, i);
      dest[n + i] := src[i];
      i := i + 1;
      TextStops(src[..], s, i);
    }
    dest[n + i] := NUL;
    assert dest[..][..n + i] == dest[..n + i] == d + s;
    len := n + i;
  }
}
