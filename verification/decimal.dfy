/** The decimal conversions of the C library the report relies on:
    `printf("%d")` / `printf("%ld")` for writing and `atoi` / `atol` for reading.
    Integers are unbounded: the overflow behaviour of `int` and `long` is not modelled. */
module Decimal {

  predicate IsDigit(c: char) {
    '0' <= c <= '9'
  }

  function DigitValue(c: char): nat
    requires IsDigit(c)
  {
    (c as int) - ('0' as int)
  }

  function DigitChar(d: nat): (c: char)
    requires d < 10
    ensures IsDigit(c) && DigitValue(c) == d
  {
    (('0' as int) + d) as char
  }

  /** `isspace` in the C locale: space, `\t`, `\n`, `\v`, `\f`, `\r`. */
  predicate IsSpace(c: char) {
    c == ' ' || c == '\t' || c == '\n' || c == '\r' || (c as int) == 11 || (c as int) == 12
  }

  /** The digits of `n`, most significant first, without leading zeros. */
  function Digits(n: nat): (s: string)
    ensures |s| >= 1
    ensures forall i :: 0 <= i < |s| ==> IsDigit(s[i])
  {
    if n < 10 then [DigitChar(n)] else Digits(n / 10) + [DigitChar(n % 10)]
  }

  /** `printf("%d", n)`: a minus sign for negative numbers, then the digits.
      The text holds no space and no newline, so it can sit before a separator. */
  function Format(n: int): (s: string)
    ensures |s| >= 1
    ensures IsDigit(s[0]) <==> n >= 0
    ensures forall i :: 0 <= i < |s| ==> !IsSpace(s[i]) && s[i] != '#'
  {
    if n < 0 then "-" + Digits(-n) else Digits(n)
  }

  function SkipSpace(s: string): (t: string)
    ensures |t| <= |s| && t == s[|s| - |t|..]
    ensures |t| > 0 ==> !IsSpace(t[0])
  {
    if |s| > 0 && IsSpace(s[0]) then SkipSpace(s[1..]) else s
  }

  /** Folds the leading run of digits of `s` onto `acc`, stopping at the first non-digit. */
  function Accumulate(s: string, acc: nat): nat
  {
    if |s| > 0 && IsDigit(s[0]) then Accumulate(s[1..], acc * 10 + DigitValue(s[0])) else acc
  }

  /** `atol(s)` (and `atoi(s)`): leading white space, an optional sign, then the
      longest run of decimal digits; 0 when there is none. */
  function ParseLong(s: string): int
  {
    var t := SkipSpace(s);
    if |t| > 0 && t[0] == '-' then -(Accumulate(t[1..], 0) as int)
    else if |t| > 0 && t[0] == '+' then Accumulate(t[1..], 0)
    else Accumulate(t, 0)
  }

  predicate AllDigits(s: string) {
    forall i :: 0 <= i < |s| ==> IsDigit(s[i])
  }

  /** Text after the digits that does not start with a digit is ignored. */
  lemma {:induction false} AccumulateStops(x: string, y: string, acc: nat)
    requires AllDigits(x)
    requires |y| == 0 || !IsDigit(y[0])
    ensures Accumulate(x + y, acc) == Accumulate(x, acc)
    decreases |x|
  {
    if |x| > 0 {
      assert (x + y)[1..] == x[1..] + y;
      AccumulateStops(x[1..], y, acc * 10 + DigitValue(x[0]));
    } else {
      assert x + y == y;
    }
  }

  /** One more trailing digit multiplies by ten and adds it. */
  lemma {:induction false} AccumulateSnoc(x: string, c: char, acc: nat)
    requires AllDigits(x) && IsDigit(c)
    ensures Accumulate(x + [c], acc) == Accumulate(x, acc) * 10 + DigitValue(c)
    decreases |x|
  {
    if |x| > 0 {
      assert (x + [c])[1..] == x[1..] + [c];
      AccumulateSnoc(x[1..], c, acc * 10 + DigitValue(x[0]));
    } else {
      assert x + [c] == [c];
    }
  }

  lemma {:induction false} AccumulateDigits(n: nat)
    ensures Accumulate(Digits(n), 0) == n
  {
    if n >= 10 {
      AccumulateDigits(n / 10);
      AccumulateSnoc(Digits(n / 10), DigitChar(n % 10), 0);
    }
  }

  /** `atol` reads back what `printf("%ld")` wrote, whatever non-digit text follows. */
  lemma {:induction false} FormatParseRoundTrip(n: int, tail: string)
    requires |tail| == 0 || !IsDigit(tail[0])
    ensures ParseLong(Format(n) + tail) == n
  {
    var s := Format(n) + tail;
    assert s[0] == Format(n)[0];
    assert SkipSpace(s) == s;
    if n < 0 {
      assert s[1..] == Digits(-n) + tail;
      AccumulateStops(Digits(-n), tail, 0);
      AccumulateDigits(-n);
    } else {
      AccumulateStops(Digits(n), tail, 0);
      AccumulateDigits(n);
    }
  }

  /** Text whose first character is no white space, sign or digit reads as 0. */
  lemma {:induction false} ParseLongNonNumeric(s: string)
    requires |s| > 0 && !IsSpace(s[0]) && !IsDigit(s[0]) && s[0] != '-' && s[0] != '+'
    ensures ParseLong(s) == 0
  {
    assert SkipSpace(s) == s;
  }
}
