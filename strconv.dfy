/**
  The two integer conversions the REST handlers rely on: Go's
  `strconv.Atoi` for path parameters and `fmt.Sprintf("%d", …)` for the
  status image URL, on Go's 64-bit `int`.
*/
module Strconv {
  import opened Wrappers

  const MinInt64: int := -0x8000_0000_0000_0000
  const MaxInt64: int := 0x7fff_ffff_ffff_ffff

  predicate IsDigit(ch: char)
  {
    '0' <= ch <= '9'
  }

  predicate AllDigits(s: string)
  {
    forall i :: 0 <= i < |s| ==> IsDigit(s[i])
  }

  /** The value of a run of decimal digits, most significant first. */
  function DigitsValue(s: string): nat
    requires AllDigits(s)
  {
    if s == [] then 0
    else 10 * DigitsValue(s[..|s| - 1]) + (s[|s| - 1] as int - '0' as int)
  }

  /**
    The value of a digit run, negated when `negative`, when the run is
    non-empty, all digits and the value fits in 64 bits.
  */
  function SignedDigits(digits: string, negative: bool): (r: Option<int>)
    ensures r.Some? ==> digits != [] && AllDigits(digits) && MinInt64 <= r.value <= MaxInt64
  {
    if digits == [] || !AllDigits(digits) then None
    else
      var magnitude: int := DigitsValue(digits);
      var v := if negative then -magnitude else magnitude;
      if MinInt64 <= v <= MaxInt64 then Some(v) else None
  }

  /**
    `strconv.Atoi`: an optional '+' or '-' followed by at least one
    decimal digit, with a value that fits in 64 bits; anything else is
    an error (`None`).
  */
  function Atoi(s: string): (r: Option<int>)
    ensures r.Some? ==> MinInt64 <= r.value <= MaxInt64
    ensures r.Some? ==> |s| > 0 && (IsDigit(s[0]) || ((s[0] == '+' || s[0] == '-') && |s| > 1))
    ensures r.Some? ==> forall i :: 0 < i < |s| ==> IsDigit(s[i])
  {
    if |s| > 0 && (s[0] == '+' || s[0] == '-') then
      var r := SignedDigits(s[1..], s[0] == '-');
      assert r.Some? ==> forall i :: 0 < i < |s| ==> IsDigit(s[i]) by {
        if r.Some? {
          forall i | 0 < i < |s| ensures IsDigit(s[i]) {
            assert s[i] == s[1..][i - 1];
          }
        }
      }
      r
    else
      SignedDigits(s, false)
  }

  /** The decimal digits of `n`, without leading zeros. */
  function Digits(n: nat): (s: string)
    ensures |s| > 0 && AllDigits(s)
    ensures DigitsValue(s) == n
    ensures |s| > 1 ==> s[0] != '0'
  {
    var last := ('0' as int + n % 10) as char;
    if n < 10 then [last]
    else
      var front := Digits(n / 10);
      assert (front + [last])[..|front|] == front;
      front + [last]
  }

  /** `fmt.Sprintf("%d", n)`: a '-' for negatives, then the digits. */
  function Itoa(n: int): (s: string)
    ensures |s| > 0
    ensures n >= 0 ==> AllDigits(s) && DigitsValue(s) == n
    ensures n < 0 ==> s[0] == '-' && AllDigits(s[1..]) && DigitsValue(s[1..]) == -n
  {
    if n < 0 then "-" + Digits(-n) else Digits(n)
  }

  /** Parsing the decimal rendering of any 64-bit integer gives it back. */
  lemma ItoaRoundTrip(n: int)
    requires MinInt64 <= n <= MaxInt64
    ensures Atoi(Itoa(n)) == Some(n)
  {
    if n < 0 {
      assert Itoa(n)[1..] == Digits(-n);
    } else {
      var s := Digits(n);
      assert IsDigit(s[0]);
    }
  }

  /** A leading zero does not change the value of a digit run. */
  lemma {:induction false} LeadingZero(d: string)
    requires AllDigits(d)
    ensures AllDigits("0" + d) && DigitsValue("0" + d) == DigitsValue(d)
  {
    if d != [] {
      var z := "0" + d;
      assert z[..|z| - 1] == "0" + d[..|d| - 1];
      assert z[|z| - 1] == d[|d| - 1];
      LeadingZero(d[..|d| - 1]);
    }
  }

  /** A digit run with no sign parses to its value when that fits in 64 bits. */
  lemma AtoiUnsigned(d: string)
    requires |d| > 0 && AllDigits(d)
    ensures Atoi(d) == if DigitsValue(d) <= MaxInt64 then Some(DigitsValue(d)) else None
  {
    assert IsDigit(d[0]);
  }

  /** A sign in front of a digit run: '+' keeps its value, '-' negates it. */
  lemma AtoiSigned(d: string, sign: char)
    requires |d| > 0 && AllDigits(d) && (sign == '+' || sign == '-')
    ensures Atoi([sign] + d) ==
      var v := if sign == '-' then 0 - DigitsValue(d) else DigitsValue(d);
      if MinInt64 <= v <= MaxInt64 then Some(v) else None
  {
    var s := [sign] + d;
    assert s[0] == sign && s[1..] == d;
    assert Atoi(s) == SignedDigits(d, sign == '-');
  }

  /**
    What `Atoi` gives for a digit run with no sign, with '+' and with
    '-': the run's value, its negation for '-', or an error when that
    value does not fit in 64 bits.
  */
  lemma AtoiOfDigits(d: string)
    requires |d| > 0 && AllDigits(d)
    ensures Atoi(d) == if DigitsValue(d) <= MaxInt64 then Some(DigitsValue(d)) else None
    ensures Atoi("+" + d) == Atoi(d)
    ensures Atoi("-" + d) == if DigitsValue(d) <= -MinInt64 then Some(0 - DigitsValue(d)) else None
  {
    AtoiUnsigned(d);
    AtoiSigned(d, '+');
    AtoiSigned(d, '-');
  }

  /** Leading zeros and a '+' sign are accepted and do not change the value. */
  lemma AtoiIgnoresPlusAndZeros(n: nat)
    requires n <= MaxInt64
    ensures Atoi("+" + Digits(n)) == Some(n)
    ensures Atoi("0" + Digits(n)) == Some(n)
    ensures Atoi("+0" + Digits(n)) == Some(n)
  {
    var d := Digits(n);
    LeadingZero(d);
    AtoiUnsigned("0" + d);
    AtoiSigned(d, '+');
    AtoiSigned("0" + d, '+');
    assert "+0" + d == ['+'] + ("0" + d);
  }
}
