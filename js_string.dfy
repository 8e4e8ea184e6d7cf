/**
 * The two JavaScript string built-ins the ticket screen relies on,
 * `String(n)` for an integer `n` and `s.padStart(len, fill)`, together with
 * the decimal reading that undoes `String(n)`.
 */
module JsString {

  predicate IsDigit(c: char)
  {
    '0' <= c <= '9'
  }

  predicate AllDigits(s: string)
  {
    forall i :: 0 <= i < |s| ==> IsDigit(s[i])
  }

  function Digit(d: int): (c: char)
    requires 0 <= d <= 9
    ensures IsDigit(c) && c as int - '0' as int == d
  {
    ('0' as int + d) as char
  }

  function DigitValue(c: char): (d: nat)
    requires IsDigit(c)
    ensures d <= 9 && Digit(d) == c
  {
    c as int - '0' as int
  }

  /**
   * `String(n)` for a non-negative integer: its decimal digits, most
   * significant first, with no leading zero; one digit below 10, two below 100.
   */
  function NatToString(n: nat): (s: string)
    ensures |s| >= 1 && AllDigits(s)
    ensures |s| > 1 ==> s[0] != '0'
    ensures (n < 10) == (|s| == 1)
    ensures (n < 100) == (|s| <= 2)
    decreases n
  {
    if n < 10 then [Digit(n)] else NatToString(n / 10) + [Digit(n % 10)]
  }

  /** `String(n)` for any integer: a minus sign exactly when `n` is negative. */
  function IntToString(n: int): (s: string)
    ensures |s| >= 1
    ensures (n < 0) == (s[0] == '-')
    ensures n >= 0 ==> AllDigits(s)
  {
    if n < 0 then "-" + NatToString(-n) else NatToString(n)
  }

  /** The value of a string of decimal digits; the empty string reads as 0. */
  function ParseNat(s: string): nat
    requires AllDigits(s)
    decreases |s|
  {
    if s == [] then 0 else 10 * ParseNat(s[..|s| - 1]) + DigitValue(s[|s| - 1])
  }

  /** An optional minus sign followed by at least one decimal digit. */
  predicate IsIntLiteral(s: string)
  {
    if |s| >= 1 && s[0] == '-' then |s| >= 2 && AllDigits(s[1..]) else |s| >= 1 && AllDigits(s)
  }

  function ParseInt(s: string): int
    requires IsIntLiteral(s)
  {
    if s[0] == '-' then -(ParseNat(s[1..]) as int) else ParseNat(s)
  }

  /** Reading the decimal digits back gives the number they were written from. */
  lemma {:induction false} ParseNatString(n: nat)
    ensures ParseNat(NatToString(n)) == n
    decreases n
  {
    if n >= 10 {
      var s := NatToString(n);
      assert s[..|s| - 1] == NatToString(n / 10);
      ParseNatString(n / 10);
    }
  }

  /** `String(n)` is a signed decimal literal that reads back as `n`. */
  lemma {:induction false} ParseIntString(n: int)
    ensures IsIntLiteral(IntToString(n))
    ensures ParseInt(IntToString(n)) == n
  {
    if n < 0 {
      var m: nat := -n;
      assert IntToString(n) == "-" + NatToString(m);
      SignedLiteral(NatToString(m));
      ParseNatString(m);
    } else {
      ParseNatString(n);
    }
  }

  /** A minus sign before a non-empty digit string reads as the negated digits. */
  lemma SignedLiteral(digits: string)
    requires |digits| >= 1 && AllDigits(digits)
    ensures IsIntLiteral("-" + digits) && ParseInt("-" + digits) == -(ParseNat(digits) as int)
  {
    assert ("-" + digits)[1..] == digits;
  }

  /** `fill` written `n` times. */
  function Repeat(fill: char, n: nat): (r: string)
    ensures |r| == n
    ensures forall i :: 0 <= i < n ==> r[i] == fill
  {
    seq(n, _ => fill)
  }

  /**
   * `s.padStart(len, fill)` with a one-character filler: `s` unchanged when it
   * is already `len` long or longer, otherwise `s` behind enough copies of
   * `fill` to reach length `len`.
   */
  function PadStart(s: string, len: nat, fill: char): (r: string)
    ensures |r| == if |s| < len then len else |s|
    ensures r[|r| - |s|..] == s
    ensures forall i :: 0 <= i < |r| - |s| ==> r[i] == fill
  {
    if |s| < len then Repeat(fill, len - |s|) + s else s
  }
}
