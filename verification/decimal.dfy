/**
 * Decimal spelling and parsing of integers, as Kotlin's `Int.toString()`,
 * `String.format("%02d", …)` and `String.toIntOrNull()` do them for ASCII digits.
 */
module Decimal {
  import opened Wrappers

  predicate IsDigit(c: char) {
    '0' <= c <= '9'
  }

  predicate AllDigits(s: string) {
    forall i | 0 <= i < |s| :: IsDigit(s[i])
  }

  function DigitValue(c: char): (d: nat)
    requires IsDigit(c)
    ensures d < 10
  {
    c as int - '0' as int
  }

  function DigitChar(d: nat): (c: char)
    requires d < 10
    ensures IsDigit(c) && DigitValue(c) == d
  {
    ('0' as int + d) as char
  }

  function Pow10(n: nat): (p: nat)
    ensures p >= 1
  {
    if n == 0 then 1 else 10 * Pow10(n - 1)
  }

  /** The number a string of decimal digits denotes; leading zeros are allowed and the empty string is 0. */
  function Value(s: string): (v: nat)
    requires AllDigits(s)
    ensures v < Pow10(|s|)
  {
    if s == [] then 0
    else
      var v0 := Value(s[..|s| - 1]);
      assert v0 * 10 <= (Pow10(|s| - 1) - 1) * 10;
      v0 * 10 + DigitValue(s[|s| - 1])
  }

  /** The shortest decimal spelling of a natural number: no leading zero, exactly as long as the number needs. */
  function Digits(n: nat): (s: string)
    ensures AllDigits(s) && |s| >= 1
    ensures |s| > 1 ==> s[0] != '0'
    ensures n < Pow10(|s|) && (|s| > 1 ==> Pow10(|s| - 1) <= n)
  {
    if n < 10 then [DigitChar(n)]
    else
      var front := Digits(n / 10);
      assert n / 10 < Pow10(|front|) ==> n < 10 * Pow10(|front|);
      assert |front| > 1 ==> Pow10(|front| - 1) <= n / 10 ==> 10 * Pow10(|front| - 1) <= n;
      front + [DigitChar(n % 10)]
  }

  lemma {:induction false} ValueOfDigits(n: nat)
    ensures Value(Digits(n)) == n
  {
    if n >= 10 {
      var s := Digits(n);
      assert s[..|s| - 1] == Digits(n / 10);
      ValueOfDigits(n / 10);
    }
  }

  /** A leading zero does not change the value of a digit string. */
  lemma {:induction false} ValueOfLeadingZero(s: string)
    requires AllDigits(s)
    ensures AllDigits("0" + s) && Value("0" + s) == Value(s)
  {
    if s != [] {
      var t := "0" + s;
      assert t[..|t| - 1] == "0" + s[..|s| - 1];
      ValueOfLeadingZero(s[..|s| - 1]);
    }
  }

  /** Kotlin `Int.toString()`. */
  function IntToString(n: int): (s: string)
    ensures |s| >= 1
    ensures n >= 0 <==> AllDigits(s)
    ensures n < 0 <==> s[0] == '-'
  {
    if n < 0 then
      var s := "-" + Digits(-n);
      assert !IsDigit(s[0]);
      s
    else Digits(n)
  }

  /** `String.format("%02d", n)`: the decimal spelling, zero-padded after any sign to at least two characters. */
  function Pad2(n: int): (s: string)
    ensures |s| >= 2
    ensures 0 <= n < 100 <==> |s| == 2 && AllDigits(s)
    ensures n < 0 <==> s[0] == '-'
  {
    if n < 0 then "-" + Digits(-n)
    else if n < 10 then "0" + Digits(n)
    else Digits(n)
  }

  /** Read back what `Pad2` wrote for a non-negative number. */
  lemma ValueOfPad2(n: nat)
    ensures AllDigits(Pad2(n)) && Value(Pad2(n)) == n
  {
    ValueOfDigits(n);
    if n < 10 {
      ValueOfLeadingZero(Digits(n));
    }
  }

  /**
   * Kotlin `String.toIntOrNull()` in radix 10: an optional `+` or `-` followed by at least one
   * digit; anything else, the empty string included, gives null.
   */
  function ToIntOrNull(s: string): (r: Option<int>)
    ensures s == [] ==> r == None
    ensures AllDigits(s) && s != [] ==> r == Some(Value(s))
    ensures r.Some? ==> IsDigit(s[0]) || (|s| > 1 && (s[0] == '-' || s[0] == '+'))
    ensures r.Some? <==> (AllDigits(s) && s != []) || (|s| > 1 && (s[0] == '-' || s[0] == '+') && AllDigits(s[1..]))
    ensures |s| > 1 && s[0] == '+' && AllDigits(s[1..]) ==> r == Some(Value(s[1..]))
    ensures |s| > 1 && s[0] == '-' && AllDigits(s[1..]) ==> r == Some(-(Value(s[1..]) as int))
  {
    if s == [] then None
    else if AllDigits(s) then Some(Value(s))
    else if |s| > 1 && (s[0] == '-' || s[0] == '+') && AllDigits(s[1..]) then
      var magnitude: int := Value(s[1..]);
      Some(if s[0] == '-' then -magnitude else magnitude)
    else None
  }

  /** A minus sign followed by digits parses as the negated value of the digits. */
  lemma ToIntOrNullOfNegated(d: string)
    requires AllDigits(d) && d != []
    ensures var v: int := Value(d); ToIntOrNull("-" + d) == Some(-v)
  {
    var s := "-" + d;
    assert s[1..] == d;
    assert !AllDigits(s) by { assert !IsDigit(s[0]); }
  }

  /** Kotlin's parse undoes Kotlin's `toString`. */
  lemma ToIntOrNullOfIntToString(n: int)
    ensures ToIntOrNull(IntToString(n)) == Some(n)
  {
    if n < 0 {
      ValueOfDigits(-n);
      assert IntToString(n) == "-" + Digits(-n);
      ToIntOrNullOfNegated(Digits(-n));
    } else {
      ValueOfDigits(n);
      var s := IntToString(n);
      assert s == Digits(n) && s != [];
      assert ToIntOrNull(s) == Some(Value(s));
    }
  }
}
