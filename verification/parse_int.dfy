/** A model of JavaScript's global `parseInt` applied to a string, with the
    radix left at its default, and of the decimal printing of an integer
    that `String(n)` performs.

    The model reads an optional `+` or `-` sign followed by the longest run
    of decimal digits; whatever follows the run is ignored, and a string
    without such a run gives `None`, which stands for `NaN`.  Leading white
    space, the `0x` prefix and the floating-point range of the result are
    not modelled. */
module ParseInt {
  import opened Wrappers

  predicate IsDigit(c: char) {
    '0' <= c <= '9'
  }

  predicate IsSign(c: char) {
    c == '-' || c == '+'
  }

  predicate AllDigits(s: string) {
    forall k :: 0 <= k < |s| ==> IsDigit(s[k])
  }

  function DigitValue(c: char): (d: nat)
    requires IsDigit(c)
    ensures d < 10
  {
    c as int - '0' as int
  }

  function DigitChar(d: nat): (c: char)
    requires d < 10
    ensures IsDigit(c) && DigitValue(c) == d
  {
    ('0' as int + d) as char
  }

  /** The string begins with an integer literal: a digit, or a sign followed
      by a digit.  This is exactly when `parseInt` does not give `NaN`. */
  predicate StartsWithInteger(s: string) {
    || (|s| >= 1 && IsDigit(s[0]))
    || (|s| >= 2 && IsSign(s[0]) && IsDigit(s[1]))
  }

  /** The longest prefix of `s` made of digits only. */
  function LeadingDigits(s: string): (ds: string)
    ensures ds <= s
    ensures AllDigits(ds)
    ensures |ds| < |s| ==> !IsDigit(s[|ds|])
  {
    if |s| > 0 && IsDigit(s[0]) then [s[0]] + LeadingDigits(s[1..]) else ""
  }

  /** The value of a string of decimal digits, most significant first. */
  function DigitsValue(ds: string): (v: nat)
    requires AllDigits(ds)
  {
    if |ds| == 0 then 0
    else DigitsValue(ds[..|ds| - 1]) * 10 + DigitValue(ds[|ds| - 1])
  }

  /** The part of `s` after an optional leading sign. */
  function Unsigned(s: string): (rest: string) {
    if |s| > 0 && IsSign(s[0]) then s[1..] else s
  }

  function SignOf(s: string): (sign: int) {
    if |s| > 0 && s[0] == '-' then -1 else 1
  }

  /** `parseInt(s)`, with `None` for `NaN`. */
  function ParseInt(s: string): (r: Option<int>)
    ensures r.Some? <==> StartsWithInteger(s)
  {
    var ds := LeadingDigits(Unsigned(s));
    if |ds| == 0 then None else Some(SignOf(s) * DigitsValue(ds))
  }

  /** The decimal digits of a natural number, without leading zeros. */
  function NatDigits(n: nat): (ds: string)
    ensures |ds| >= 1 && AllDigits(ds)
    ensures DigitsValue(ds) == n
    ensures |ds| > 1 ==> ds[0] != '0'
  {
    if n < 10 then [DigitChar(n)]
    else
      var ds := NatDigits(n / 10) + [DigitChar(n % 10)];
      assert ds[..|ds| - 1] == NatDigits(n / 10);
      ds
  }

  /** The plain decimal text of `n`, which is `String(n)` when `n` is a
      `JsValues.PlainInt`. */
  function ToDecimal(n: int): (s: string)
    ensures |s| >= 1
  {
    if n < 0 then "-" + NatDigits(-n) else NatDigits(n)
  }

  /** A run of digits followed by something that is not a digit reads as
      just the run. */
  lemma {:induction false} LeadingDigitsAppend(a: string, b: string)
    requires |b| == 0 || !IsDigit(b[0])
    ensures LeadingDigits(a + b) == LeadingDigits(a)
    decreases |a|
  {
    if |a| > 0 && IsDigit(a[0]) {
      assert (a + b)[1..] == a[1..] + b;
      LeadingDigitsAppend(a[1..], b);
    } else if |a| == 0 {
      assert a + b == b;
    }
  }

  lemma {:induction false} LeadingDigitsOfDigits(ds: string)
    requires AllDigits(ds)
    ensures LeadingDigits(ds) == ds
    decreases |ds|
  {
    if |ds| > 0 {
      LeadingDigitsOfDigits(ds[1..]);
      assert ds == [ds[0]] + ds[1..];
    }
  }

  /** `parseInt` ignores whatever trails the leading integer: text that does
      not continue the digit run can be appended without changing the
      result (a sign is harmless only when something precedes it). */
  lemma ParseIntIgnoresSuffix(s: string, t: string)
    requires |t| == 0 || (!IsDigit(t[0]) && (|s| > 0 || !IsSign(t[0])))
    ensures ParseInt(s + t) == ParseInt(s)
  {
    if |s| == 0 {
      assert s + t == t;
    } else {
      assert (s + t)[0] == s[0];
      if IsSign(s[0]) {
        assert (s + t)[1..] == s[1..] + t;
      }
      assert Unsigned(s + t) == Unsigned(s) + t;
      LeadingDigitsAppend(Unsigned(s), t);
    }
  }

  /** Printing an integer and parsing it back gives the integer. */
  lemma ParseIntToDecimal(n: int)
    ensures ParseInt(ToDecimal(n)) == Some(n)
  {
    var s := ToDecimal(n);
    var ds := NatDigits(if n < 0 then -n else n);
    if n < 0 {
      assert Unsigned(s) == ds;
    } else {
      assert Unsigned(s) == ds;
    }
    LeadingDigitsOfDigits(ds);
  }

  /** `parseInt("42px")` is 42: a printed integer followed by text that does
      not start with a digit parses to that integer. */
  lemma ParseIntTrailingText(n: int, t: string)
    requires |t| == 0 || !IsDigit(t[0])
    ensures ParseInt(ToDecimal(n) + t) == Some(n)
  {
    ParseIntIgnoresSuffix(ToDecimal(n), t);
    ParseIntToDecimal(n);
  }
}
