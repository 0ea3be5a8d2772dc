/** Decimal formatting of a 64-bit integer, digits written backwards into a buffer of 20 bytes. */
module Itoa {

  const MIN64: int := -0x8000_0000_0000_0000
  const MAX64: int := 0x7fff_ffff_ffff_ffff

  type Int64 = n: int | MIN64 <= n <= MAX64

  /** Negation wraps around at the minimum, which is its own negation. */
  function Negate(n: Int64): Int64 {
    if n == MIN64 then MIN64 else -n
  }

  function Digit(d: int): char
    requires 0 <= d < 10
  {
    '0' + d as char
  }

  predicate IsDigit(c: char) {
    '0' <= c <= '9'
  }

  function DigitValue(c: char): nat
    requires IsDigit(c)
  {
    c as int - '0' as int
  }

  predicate IsNumber(s: string) {
    s != "" && forall i :: 0 <= i < |s| ==> IsDigit(s[i])
  }

  function Pow10(k: nat): nat {
    if k == 0 then 1 else 10 * Pow10(k - 1)
  }

  /** The number a string of digits denotes. */
  function ParseDigits(s: string): nat
    requires forall i :: 0 <= i < |s| ==> IsDigit(s[i])
  {
    if s == "" then 0 else 10 * ParseDigits(s[..|s| - 1]) + DigitValue(s[|s| - 1])
  }

  /** Decimal numerals: digits without a leading zero, unless zero itself, and a sign if negative. */
  predicate IsNumeral(s: string) {
    if s != "" && s[0] == '-' then IsNumber(s[1..]) && s[1] != '0'
    else IsNumber(s) && (s[0] == '0' ==> |s| == 1)
  }

  function Parse(s: string): int
    requires IsNumeral(s)
  {
    if s[0] == '-' then -(ParseDigits(s[1..]) as int) else ParseDigits(s)
  }

  lemma {:induction false} ParseMore(d: char, s: string)
    requires IsDigit(d) && forall i :: 0 <= i < |s| ==> IsDigit(s[i])
    ensures ParseDigits([d] + s) == DigitValue(d) * Pow10(|s|) + ParseDigits(s)
  {
    var more := [d] + s;
    if s == "" {
      assert more[..|more| - 1] == "";
    } else {
      var front := s[..|s| - 1];
      ParseMore(d, front);
      assert more[..|more| - 1] == [d] + front;
      assert DigitValue(d) * (10 * Pow10(|front|)) == 10 * (DigitValue(d) * Pow10(|front|));
    }
  }

  lemma NineteenDigits()
    ensures Pow10(19) > MAX64
  {
    assert Pow10(5) == 100_000;
    assert Pow10(10) == 10_000_000_000;
    assert Pow10(15) == 1_000_000_000_000_000;
  }

  /** The loop state: what is left to write, and the digits written so far at the end of the buffer. */
  ghost predicate Written(n: int, left: int, tail: string) {
    && |tail| <= 19
    && (forall i :: 0 <= i < |tail| ==> IsDigit(tail[i]))
    && left * Pow10(|tail|) + ParseDigits(tail) == n
    && 0 <= left < Pow10(19 - |tail|)
    && (left == 0 && tail != "" ==> tail[0] != '0')
  }

  lemma PowerNext(k: nat)
    ensures Pow10(k + 1) == 10 * Pow10(k) && Pow10(0) == 1
  {
  }

  lemma WriteDigit(n: int, left: int, tail: string)
    requires Written(n, left, tail) && left > 0
    ensures |tail| < 19 && Written(n, left / 10, [Digit(left % 10)] + tail)
  {
    hide Pow10, ParseDigits;
    PowerNext(|tail|);
    PowerNext(if |tail| < 19 then 18 - |tail| else 0);
    ParseMore(Digit(left % 10), tail);
    DigitOf(left % 10);
    DigitMoves(left, Pow10(|tail|));
    assert ([Digit(left % 10)] + tail)[1..] == tail;
  }

  lemma DigitOf(d: int)
    requires 0 <= d < 10
    ensures IsDigit(Digit(d)) && DigitValue(Digit(d)) == d && (Digit(d) == '0' <==> d == 0)
  {
  }

  lemma DigitMoves(left: nat, p: nat)
    ensures left * p == (left / 10) * (10 * p) + (left % 10) * p
  {
    var q, r := left / 10, left % 10;
    assert (10 * q + r) * p == q * (10 * p) + r * p;
  }

  lemma NothingWritten(n: int)
    requires 0 <= n <= MAX64
    ensures Written(n, n, "")
  {
    NineteenDigits();
    assert n * 1 == n;
  }

  lemma AllWritten(n: int, tail: string)
    requires Written(n, 0, tail) && n > 0
    ensures IsNumber(tail) && tail[0] != '0' && ParseDigits(tail) == n
    ensures IsNumeral(tail) && Parse(tail) == n
    ensures IsNumeral(['-'] + tail) && Parse(['-'] + tail) == -n
  {
    assert 0 * Pow10(|tail|) == 0;
    assert (['-'] + tail)[1..] == tail;
  }

  /** The digit loop never runs out of buffer. It writes nothing for a number that is not positive. */
  method WriteDigits(buf: array<char>, n: Int64) returns (pos: nat)
    requires buf.Length == 20
    modifies buf
    ensures 1 <= pos <= 20
    ensures n > 0 ==> Written(n, 0, buf[pos..])
    ensures n <= 0 ==> pos == 20
  {
    pos := buf.Length;
    var left := n;
    assert buf[20..] == "";
    if n > 0 {
      NothingWritten(n);
    }
    hide *;
    while left > 0
      invariant 1 <= pos <= 20
      invariant n > 0 ==> left >= 0 && Written(n, left, buf[pos..])
      invariant n <= 0 ==> left == n && pos == 20
    {
      ghost var tail := buf[pos..];
      WriteDigit(n, left, tail);
      pos := pos - 1;
      buf[pos] := Digit(left % 10);
      assert buf[pos + 1..] == tail;
      assert buf[pos..] == [Digit(left % 10)] + tail;
      left := left / 10;
    }
  }

  /** The result is the numeral of every 64-bit integer but the least, for which it is just a sign. */
  method Itoa(n: Int64) returns (s: string)
    ensures n != MIN64 <==> IsNumeral(s) && Parse(s) == n
    ensures n == MIN64 ==> s == "-"
  {
    if n == 0 {
      assert "0"[..0] == "";
      return "0";
    }
    assert !IsNumeral("-");
    var buf := new char[20];
    var neg := n < 0;
    var magnitude := if neg then Negate(n) else n;
    var pos := WriteDigits(buf, magnitude);
    ghost var tail := buf[pos..];
    if magnitude > 0 {
      AllWritten(magnitude, tail);
    }
    hide Written, IsNumeral, Parse;
    if neg {
      pos := pos - 1;
      buf[pos] := '-';
      assert buf[pos + 1..] == tail;
      assert buf[pos..] == ['-'] + tail;
    }
    return buf[pos..];
  }

  // -------------------------------------------------------- numerals are unique

  lemma {:induction false} DigitsBound(s: string)
    requires forall i :: 0 <= i < |s| ==> IsDigit(s[i])
    ensures ParseDigits(s) < Pow10(|s|)
    ensures s != "" && s[0] != '0' ==> ParseDigits(s) >= Pow10(|s| - 1)
  {
    if s != "" {
      DigitsBound(s[..|s| - 1]);
    }
  }

  lemma {:induction false} PowersGrow(a: nat, b: nat)
    requires a <= b
    ensures Pow10(a) <= Pow10(b)
  {
    if a < b {
      PowersGrow(a, b - 1);
    }
  }

  lemma {:induction false} DigitsUnique(a: string, b: string)
    requires |a| == |b| && forall i :: 0 <= i < |a| ==> IsDigit(a[i]) && IsDigit(b[i])
    requires ParseDigits(a) == ParseDigits(b)
    ensures a == b
  {
    if a != "" {
      DigitsUnique(a[..|a| - 1], b[..|b| - 1]);
      assert a == a[..|a| - 1] + [a[|a| - 1]] && b == b[..|b| - 1] + [b[|b| - 1]];
    }
  }

  /** A number has only one numeral: so the result of Itoa is pinned down by its contract. */
  lemma NumeralsUnique(a: string, b: string)
    requires IsNumeral(a) && IsNumeral(b) && Parse(a) == Parse(b)
    ensures a == b
  {
    var x, y := if a[0] == '-' then a[1..] else a, if b[0] == '-' then b[1..] else b;
    DigitsBound(x);
    DigitsBound(y);
    assert ParseDigits("0") == 0 by { assert "0"[..0] == ""; }
    if |x| < |y| {
      PowersGrow(|x|, |y| - 1);
    } else if |y| < |x| {
      PowersGrow(|y|, |x| - 1);
    } else {
      DigitsUnique(x, y);
    }
    assert a[0] == '-' ==> a == ['-'] + x;
    assert b[0] == '-' ==> b == ['-'] + y;
    assert Pow10(|x| - 1) >= 1 && Pow10(|y| - 1) >= 1 by { PowersGrow(0, |x| - 1); PowersGrow(0, |y| - 1); }
  }

  /** The numerals by their characters: each digit counts for itself, ten times as much with one more behind it,
      and a sign negates. */
  lemma NumeralsInFigures(s: string, c: char)
    requires IsNumber(s) && '0' <= c <= '9'
    ensures ParseDigits([c]) == c as int - 48 && ParseDigits(s + [c]) == 10 * ParseDigits(s) + (c as int - 48)
    ensures s[0] != '0' ==> IsNumeral(s) && IsNumeral("-" + s)
    ensures s[0] != '0' ==> Parse(s) == ParseDigits(s) && Parse("-" + s) + ParseDigits(s) == 0
    ensures IsNumeral("0") && Parse("0") == 0 && !IsNumeral("-0") && !IsNumeral("0" + s) && !IsNumeral("")
    ensures MIN64 == -9223372036854775808 && MAX64 == 9223372036854775807
  {
    assert (s + [c])[..|s|] == s;
    assert [c][..0] == "" && "0"[..0] == "";
    assert ("-" + s)[1..] == s;
    assert "-0"[1..] == "0";
  }
}
