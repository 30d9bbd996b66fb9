/**
 * Decimal conversion between Go's 64-bit `int` and strings, as the handlers
 * use it: strconv.Atoi parses the `:id` path parameter, and strconv.Itoa
 * names a driver's member in the geo index.
 */
module Strconv {
  import opened Wrappers

  const MinInt64: int := -0x8000_0000_0000_0000
  const MaxInt64: int := 0x7FFF_FFFF_FFFF_FFFF

  predicate IsDigit(c: char) {
    '0' <= c <= '9'
  }

  predicate AllDigits(s: string) {
    forall i :: 0 <= i < |s| ==> IsDigit(s[i])
  }

  /** The value of a string of decimal digits, most significant first. */
  function DigitsValue(s: string): nat
    requires AllDigits(s)
  {
    if |s| == 0 then 0 else 10 * DigitsValue(s[..|s| - 1]) + (s[|s| - 1] as int - '0' as int)
  }

  /** The digits of `s` after an optional leading sign. */
  function Magnitude(s: string): string {
    if |s| > 0 && (s[0] == '-' || s[0] == '+') then s[1..] else s
  }

  /**
   * strconv.Atoi: an optional sign followed by at least one decimal digit,
   * whose value must fit in 64 bits; anything else is an error (None).
   */
  function Atoi(s: string): (r: Option<int>)
    ensures r.Some? ==> MinInt64 <= r.value <= MaxInt64
    ensures r.Some? ==> |Magnitude(s)| > 0 && AllDigits(Magnitude(s))
  {
    var digits := Magnitude(s);
    if |digits| == 0 || !AllDigits(digits) then None
    else
      var v: int := if s[0] == '-' then -(DigitsValue(digits) as int) else DigitsValue(digits);
      if MinInt64 <= v <= MaxInt64 then Some(v) else None
  }

  function DigitChar(d: nat): char
    requires d < 10
  {
    ('0' as int + d) as char
  }

  /** The shortest decimal digits of `n`. */
  function NatDigits(n: nat): string {
    if n < 10 then [DigitChar(n)] else NatDigits(n / 10) + [DigitChar(n % 10)]
  }

  /** strconv.Itoa: a minus sign for negative numbers, then the digits. */
  function Itoa(n: int): string {
    if n < 0 then "-" + NatDigits(-n) else NatDigits(n)
  }

  lemma {:induction false} NatDigitsValue(n: nat)
    ensures |NatDigits(n)| > 0 && AllDigits(NatDigits(n))
    ensures DigitsValue(NatDigits(n)) == n
  {
    if n >= 10 {
      NatDigitsValue(n / 10);
      var s := NatDigits(n / 10) + [DigitChar(n % 10)];
      assert s[..|s| - 1] == NatDigits(n / 10);
    }
  }

  /** Parsing what Itoa prints gives the number back, for every 64-bit int. */
  lemma AtoiItoa(n: int)
    requires MinInt64 <= n <= MaxInt64
    ensures Atoi(Itoa(n)) == Some(n)
  {
    var m: nat := if n < 0 then -n else n;
    var digits := NatDigits(m);
    NatDigitsValue(m);
    var s := Itoa(n);
    if n < 0 {
      assert s == "-" + digits;
      assert s[0] == '-' && s[1..] == digits;
    } else {
      assert s == digits && IsDigit(s[0]);
    }
    assert Magnitude(s) == digits;
  }

  /** Distinct driver ids have distinct member names in the geo index. */
  lemma ItoaInjective(a: int, b: int)
    requires MinInt64 <= a <= MaxInt64 && MinInt64 <= b <= MaxInt64
    requires Itoa(a) == Itoa(b)
    ensures a == b
  {
    AtoiItoa(a);
    AtoiItoa(b);
  }

  /** A character that is neither a digit nor a leading sign makes the parse fail. */
  lemma AtoiRejectsNonDigit(s: string, k: int)
    requires 0 <= k < |s| && !IsDigit(s[k])
    requires k > 0 || (s[0] != '-' && s[0] != '+')
    ensures Atoi(s) == None
  {
    var digits := Magnitude(s);
    var j := if |s| > 0 && (s[0] == '-' || s[0] == '+') then k - 1 else k;
    assert 0 <= j < |digits| && digits[j] == s[k];
  }

  /** The path parameters of the handler table tests. */
  lemma PathParameters()
    ensures Atoi("1") == Some(1) && Atoi("0") == Some(0) && Atoi("-1") == Some(-1)
    ensures Atoi("abc") == None && Atoi("") == None
  {
    assert Magnitude("-1") == "1";
    assert !IsDigit("abc"[0]);
  }
}
