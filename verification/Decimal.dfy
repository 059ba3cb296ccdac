/** Decimal text of integers, as the source's `%d`, `strconv.FormatInt` and `strconv.ParseInt` produce and read it. */
module Decimal {
  const MAX_INT64: int := 0x7fff_ffff_ffff_ffff
  const MIN_INT64: int := -0x8000_0000_0000_0000

  type int64 = n: int | MIN_INT64 <= n <= MAX_INT64

  predicate IsDigit(c: char) {
    '0' <= c <= '9'
  }

  predicate AllDigits(s: string) {
    forall i :: 0 <= i < |s| ==> IsDigit(s[i])
  }

  function Digit(d: nat): (c: char)
    requires d < 10
    ensures IsDigit(c)
  {
    ('0' as int + d) as char
  }

  function DigitValue(c: char): (d: nat)
    requires IsDigit(c)
    ensures d < 10
  {
    c as int - '0' as int
  }

  function Pow10(k: nat): (p: nat)
    ensures p >= 1
  {
    if k == 0 then 1 else 10 * Pow10(k - 1)
  }

  /** The decimal digits of a natural number, without leading zeros. */
  function Digits(n: nat): (s: string)
    ensures AllDigits(s) && |s| >= 1
  {
    if n < 10 then [Digit(n)] else Digits(n / 10) + [Digit(n % 10)]
  }

  /** The number a digit string denotes; leading zeros are allowed. */
  function ValueOf(s: string): nat
    requires AllDigits(s)
  {
    if s == [] then 0 else 10 * ValueOf(s[..|s| - 1]) + DigitValue(s[|s| - 1])
  }

  function Magnitude(n: int): nat {
    if n < 0 then -n else n
  }

  function FormatInt(n: int): string {
    if n < 0 then "-" + Digits(-n) else Digits(n)
  }

  datatype Parsed = Parsed(value: int64, ok: bool)

  /** `strconv.ParseInt(s, 10, 64)`: an optional sign and at least one digit; a syntax error
      yields 0, a range error yields the nearest bound, both with a failure flag. */
  function ParseInt(s: string): Parsed {
    var body := if s != [] && (s[0] == '-' || s[0] == '+') then s[1..] else s;
    if body == [] || !AllDigits(body) then Parsed(0, false)
    else
      var m: int := ValueOf(body);
      var v := if s[0] == '-' then -m else m;
      if v > MAX_INT64 then Parsed(MAX_INT64, false)
      else if v < MIN_INT64 then Parsed(MIN_INT64, false)
      else Parsed(v, true)
  }

  lemma {:induction false} ValueOfDigits(n: nat)
    ensures ValueOf(Digits(n)) == n
  {
    if n >= 10 {
      ValueOfDigits(n / 10);
      var s := Digits(n);
      assert s[..|s| - 1] == Digits(n / 10);
    }
  }

  /** A digit string denotes a number below the power of ten of its length, and at least the
      previous power when it does not begin with zero. */
  lemma {:induction false} ValueBounds(s: string)
    requires AllDigits(s)
    ensures ValueOf(s) < Pow10(|s|)
    ensures s != [] && s[0] != '0' ==> Pow10(|s| - 1) <= ValueOf(s)
  {
    if |s| > 1 {
      ValueBounds(s[..|s| - 1]);
    }
  }

  lemma {:induction false} DigitsLead(n: nat)
    ensures n > 0 ==> Digits(n)[0] != '0'
  {
    if n >= 10 {
      DigitsLead(n / 10);
    }
  }

  lemma {:induction false} Pow10Monotone(a: nat, b: nat)
    requires a <= b
    ensures Pow10(a) <= Pow10(b)
  {
    if a < b {
      Pow10Monotone(a, b - 1);
    }
  }

  /** The number of digits of n is the k with 10^(k-1) <= n < 10^k. */
  lemma DigitsLength(n: nat, k: nat)
    requires k >= 1 && n < Pow10(k)
    requires k == 1 || Pow10(k - 1) <= n
    ensures |Digits(n)| == k
  {
    var s := Digits(n);
    ValueOfDigits(n);
    ValueBounds(s);
    DigitsLead(n);
    if |s| < k {
      Pow10Monotone(|s|, k - 1);
    } else if |s| > k {
      Pow10Monotone(k, |s| - 1);
    }
  }

  /** Reading back a formatted 64-bit integer gives that integer. */
  lemma ParseFormat(n: int64)
    ensures ParseInt(FormatInt(n)) == Parsed(n, true)
  {
    var m := Magnitude(n);
    ValueOfDigits(m);
    if n < 0 {
      assert FormatInt(n)[1..] == Digits(m);
    }
  }

  /** What ParseInt makes of a text: no digits, or anything but digits behind the sign, is 0 with an error; a number
      beyond int64 is the bound on its side with an error; a plus sign is allowed. */
  lemma ParseElse(s: string)
    ensures s == [] || (exists i :: 1 <= i < |s| && !IsDigit(s[i])) ==> ParseInt(s) == Parsed(0, false)
    ensures s != [] && !IsDigit(s[0]) && (|s| == 1 || s[0] !in {'+', '-'}) ==> ParseInt(s) == Parsed(0, false)
    ensures s != [] && AllDigits(s) ==>
              ParseInt(s) == (if ValueOf(s) <= 0x7fff_ffff_ffff_ffff then Parsed(ValueOf(s), true)
                              else Parsed(0x7fff_ffff_ffff_ffff, false))
    ensures s != [] && AllDigits(s) ==> ParseInt("+" + s) == ParseInt(s)
    ensures s != [] && AllDigits(s) ==>
              ParseInt("-" + s) == (if ValueOf(s) <= 0x8000_0000_0000_0000 then Parsed(-(ValueOf(s) as int), true)
                                    else Parsed(-0x8000_0000_0000_0000, false))
  {
    assert ("+" + s)[1..] == s && ("-" + s)[1..] == s;
    if i :| 1 <= i < |s| && !IsDigit(s[i]) {
      assert s[1..][i - 1] == s[i];
    }
  }

  lemma FormatInjective(a: int, b: int)
    requires FormatInt(a) == FormatInt(b)
    ensures a == b
  {
    var x, y := FormatInt(a), FormatInt(b);
    ValueOfDigits(Magnitude(a));
    ValueOfDigits(Magnitude(b));
    assert (x[0] == '-') == (a < 0) && (y[0] == '-') == (b < 0);
    assert a < 0 ==> x[1..] == Digits(-a) && y[1..] == Digits(-b);
  }

  /** Formatted integers consist of digits and a minus sign, so they never contain a separator. */
  lemma FormatChars(n: int, c: char)
    requires c in FormatInt(n)
    ensures IsDigit(c) || c == '-'
  {
    assert AllDigits(Digits(Magnitude(n)));
  }
}
