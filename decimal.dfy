/**
 * Decimal text of integers: Go's `%d` verb of `fmt` and `strconv.Atoi` with its
 * error result dropped (the core writes `iter, _ := strconv.Atoi(...)`).
 */
module Decimal {

  const MinInt64: int := -0x8000_0000_0000_0000
  const MaxInt64: int := 0x7fff_ffff_ffff_ffff

  predicate IsDigit(c: char) { '0' <= c <= '9' }

  predicate AllDigits(s: string) { forall i :: 0 <= i < |s| ==> IsDigit(s[i]) }

  function DigitChar(d: nat): (c: char)
    requires d < 10
    ensures IsDigit(c) && c as int - '0' as int == d
  {
    ('0' as int + d) as char
  }

  /** Digits of a natural number, most significant first, no leading zeros. */
  function NatDigits(n: nat): (s: string)
    decreases n
  {
    if n < 10 then [DigitChar(n)] else NatDigits(n / 10) + [DigitChar(n % 10)]
  }

  /** `fmt.Sprintf("%d", n)`: an optional minus sign, then the digits of |n|. */
  function Format(n: int): string
  {
    if n < 0 then "-" + NatDigits(-n) else NatDigits(n)
  }

  /** The value of a string of decimal digits. */
  function DigitsValue(s: string): nat
    requires AllDigits(s)
    decreases |s|
  {
    if |s| == 0 then 0
    else DigitsValue(s[..|s| - 1]) * 10 + (s[|s| - 1] as int - '0' as int)
  }

  const MaxUint64: int := 0xffff_ffff_ffff_ffff

  /** The length of the run of decimal digits that starts `s`. */
  function DigitRun(s: string): (k: nat)
    ensures k <= |s| && AllDigits(s[..k])
    ensures k < |s| ==> !IsDigit(s[k])
    decreases |s|
  {
    if |s| == 0 || !IsDigit(s[0]) then 0
    else
      var k := 1 + DigitRun(s[1..]);
      assert forall j :: 1 <= j < k ==> s[..k][j] == s[1..][..k - 1][j - 1];
      k
  }

  /** Digits followed by the end or by a non-digit: the run is exactly the digits. */
  lemma {:induction false} DigitRunOf(a: string, rest: string)
    requires AllDigits(a) && (|rest| == 0 || !IsDigit(rest[0]))
    ensures DigitRun(a + rest) == |a|
    decreases |a|
  {
    if |a| > 0 {
      assert (a + rest)[1..] == a[1..] + rest;
      DigitRunOf(a[1..], rest);
    } else {
      assert a + rest == rest;
    }
  }

  /**
   * `strconv.Atoi(s)` with the error dropped, for a 64-bit `int`: an optional
   * `+` or `-`, then the digits, read one byte at a time as `strconv.ParseUint`
   * does. Each byte is checked to be a digit before the value is tested for
   * overflow, so:
   *  - once the leading digits are worth more than 2^64 - 1 the parse stops
   *    with a range error, and the result is the end of the 64-bit range on
   *    the side of the sign, whatever follows;
   *  - otherwise a non-digit, an empty string or a lone sign is a syntax
   *    error, and the result is 0;
   *  - otherwise the value, clamped to the 64-bit range as `strconv.ParseInt`
   *    reports it.
   */
  function Atoi(s: string): (n: int)
    ensures MinInt64 <= n <= MaxInt64
  {
    var negative := |s| > 0 && s[0] == '-';
    var digits := if |s| > 0 && (s[0] == '-' || s[0] == '+') then s[1..] else s;
    var run := DigitRun(digits);
    var v: int := DigitsValue(digits[..run]);
    if v > MaxUint64 then (if negative then MinInt64 else MaxInt64)
    else if run == 0 || run < |digits| then 0
    else if negative then (if -v < MinInt64 then MinInt64 else -v)
    else (if v > MaxInt64 then MaxInt64 else v)
  }

  function Pow10(k: nat): (p: nat)
    ensures p >= 1
  {
    if k == 0 then 1 else 10 * Pow10(k - 1)
  }

  /** A string of k digits is worth less than 10^k. */
  lemma {:induction false} DigitsValueBound(s: string)
    requires AllDigits(s)
    ensures DigitsValue(s) < Pow10(|s|)
    decreases |s|
  {
    if |s| > 0 {
      DigitsValueBound(s[..|s| - 1]);
    }
  }

  lemma {:induction false} Pow10Monotone(j: nat, k: nat)
    requires j <= k
    ensures Pow10(j) <= Pow10(k)
    decreases k
  {
    if j < k {
      Pow10Monotone(j, k - 1);
    }
  }

  lemma {:induction false} Pow10Add(j: nat, k: nat)
    ensures Pow10(j + k) == Pow10(j) * Pow10(k)
    decreases k
  {
    if k > 0 {
      Pow10Add(j, k - 1);
    }
  }

  lemma Pow10Nineteen()
    ensures Pow10(19) == 10_000_000_000_000_000_000
  {
    Pow10Add(10, 9);
    assert Pow10(10) == 10_000_000_000;
    assert Pow10(9) == 1_000_000_000;
  }

  /** A string of digits is worth at least its leading digit times 10^(k-1). */
  lemma {:induction false} LeadingDigitBound(s: string)
    requires AllDigits(s) && |s| > 0
    ensures DigitsValue(s) >= (s[0] as int - '0' as int) * Pow10(|s| - 1)
    decreases |s|
  {
    if |s| > 1 {
      var t := s[..|s| - 1];
      assert t[0] == s[0];
      LeadingDigitBound(t);
    }
  }

  /** At most 19 digits never reach the range error. */
  lemma ShortDigitsFit(s: string)
    requires AllDigits(s) && |s| <= 19
    ensures DigitsValue(s) <= MaxUint64
  {
    DigitsValueBound(s);
    Pow10Monotone(|s|, 19);
    Pow10Nineteen();
  }

  lemma {:induction false} NatDigitsValue(n: nat)
    ensures |NatDigits(n)| > 0 && AllDigits(NatDigits(n))
    ensures DigitsValue(NatDigits(n)) == n
    decreases n
  {
    if n >= 10 {
      NatDigitsValue(n / 10);
      var s := NatDigits(n);
      assert s[..|s| - 1] == NatDigits(n / 10);
    }
  }

  /** `Format` output always parses back with `Atoi` on the 64-bit range. */
  lemma AtoiFormat(n: int)
    requires MinInt64 <= n <= MaxInt64
    ensures Atoi(Format(n)) == n
  {
    if n < 0 {
      NatDigitsValue(-n);
      var s := Format(n);
      assert s[1..] == NatDigits(-n);
      DigitRunOf(NatDigits(-n), "");
      assert NatDigits(-n) + "" == NatDigits(-n);
    } else {
      NatDigitsValue(n);
      assert NatDigits(n)[0] != '-' && NatDigits(n)[0] != '+';
      DigitRunOf(NatDigits(n), "");
      assert NatDigits(n) + "" == NatDigits(n);
    }
  }

  /** Distinct numbers have distinct decimal text. */
  lemma FormatInjective(m: int, n: int)
    requires Format(m) == Format(n)
    ensures m == n
  {
    var a := if m < 0 then -m else m;
    var b := if n < 0 then -n else n;
    NatDigitsValue(a);
    NatDigitsValue(b);
    assert (Format(m)[0] == '-') == (m < 0);
    assert (Format(n)[0] == '-') == (n < 0);
    if m < 0 {
      assert Format(m)[1..] == NatDigits(a);
      assert Format(n)[1..] == NatDigits(b);
    }
  }

  /**
   * Anything that is not sign-then-digits reads as 0 (the "unparsable text is
   * 0" rule), provided the parse meets the offending byte before the value
   * overflows: here at most 19 bytes come before it.
   */
  lemma AtoiRejectsNonDigit(s: string, i: nat)
    requires i < |s| && !IsDigit(s[i]) && i <= 19
    requires i > 0 || (s[0] != '-' && s[0] != '+')
    ensures Atoi(s) == 0
  {
    var signed := s[0] == '-' || s[0] == '+';
    var digits := if signed then s[1..] else s;
    var at := if signed then i - 1 else i;
    assert digits[at] == s[i];
    var run := DigitRun(digits);
    assert run <= at;
    ShortDigitsFit(digits[..run]);
  }

  /**
   * Leading digits worth more than 2^64 - 1 are a range error whatever comes
   * after them: the result is the end of the 64-bit range on the side of the sign.
   */
  lemma AtoiClampsOverflow(sign: string, a: string, rest: string)
    requires sign == "" || sign == "-" || sign == "+"
    requires AllDigits(a) && DigitsValue(a) > MaxUint64
    requires |rest| == 0 || !IsDigit(rest[0])
    ensures Atoi(sign + a + rest) == if sign == "-" then MinInt64 else MaxInt64
  {
    var s := sign + a + rest;
    assert |a| > 0;
    var digits := a + rest;
    if sign == "" {
      assert s == digits && IsDigit(s[0]);
    } else {
      assert s[1..] == digits;
    }
    DigitRunOf(a, rest);
    assert digits[..|a|] == a;
  }

  /** A count of twenty nines followed by a letter is a range error, not a syntax error. */
  lemma AtoiOverflowBeforeLetter()
    ensures Atoi("99999999999999999999x") == MaxInt64
  {
    var a := "99999999999999999999";
    assert AllDigits(a) && |a| == 20 && a[0] == '9';
    LeadingDigitBound(a);
    Pow10Nineteen();
    AtoiClampsOverflow("", a, "x");
    assert "" + a + "x" == "99999999999999999999x";
  }

  /** A run of digits ends where the first non-digit begins. */
  lemma DigitsThenStop(a: string, s: string)
    requires AllDigits(a) && |s| > 0 && !IsDigit(s[0])
    ensures !IsDigit((a + s)[|a|])
    ensures forall k :: 0 <= k < |a| ==> IsDigit((a + s)[k])
  {
  }

  /** Digits followed by a non-digit can be told apart from the rest unambiguously. */
  lemma DigitsPrefix(a: string, s: string, b: string, t: string)
    requires AllDigits(a) && AllDigits(b)
    requires |s| > 0 && |t| > 0 && !IsDigit(s[0]) && !IsDigit(t[0])
    requires a + s == b + t
    ensures a == b && s == t
  {
    DigitsThenStop(a, s);
    DigitsThenStop(b, t);
    assert |a| == |b|;
    assert a == (a + s)[..|a|];
    assert b == (b + t)[..|b|];
    assert s == (a + s)[|a|..];
    assert t == (b + t)[|b|..];
  }
}
