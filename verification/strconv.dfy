/**
 * Decimal integers as Go's `strconv.Atoi` reads them and as `%d` writes
 * them, on a platform where `int` is 64 bits wide.
 */
module Strconv {
  import opened Wrappers

  const MinInt64: int := -0x8000_0000_0000_0000
  const MaxInt64: int := 0x7fff_ffff_ffff_ffff

  predicate InInt64(n: int) {
    MinInt64 <= n <= MaxInt64
  }

  /** The int64 value with the same low 64 bits as `x`: what Go's int64 arithmetic yields. */
  function WrapInt64(x: int): (r: int)
    ensures InInt64(r)
    ensures (x - r) % 0x1_0000_0000_0000_0000 == 0
    ensures InInt64(x) ==> r == x
  {
    (x - MinInt64) % 0x1_0000_0000_0000_0000 + MinInt64
  }

  predicate IsDigit(c: char) {
    '0' <= c <= '9'
  }

  predicate AllDigits(s: string) {
    forall i :: 0 <= i < |s| ==> IsDigit(s[i])
  }

  function DigitValue(c: char): nat
    requires IsDigit(c)
  {
    c as int - '0' as int
  }

  function DigitChar(d: nat): (c: char)
    requires d < 10
    ensures IsDigit(c) && DigitValue(c) == d
  {
    ('0' as int + d) as char
  }

  /** The value of a string of decimal digits, most significant first. */
  function DigitsValue(s: string): nat
    requires AllDigits(s)
    decreases |s|
  {
    if |s| == 0 then 0 else DigitsValue(s[..|s| - 1]) * 10 + DigitValue(s[|s| - 1])
  }

  /** An optional sign followed by at least one ASCII digit. */
  predicate SignedDecimal(s: string) {
    |s| > 0 && AllDigits(s[1..]) && (IsDigit(s[0]) || ((s[0] == '+' || s[0] == '-') && |s| > 1))
  }

  /** The number a signed decimal denotes, leading zeros included. */
  function SignedValue(s: string): int
    requires SignedDecimal(s)
  {
    if s[0] == '-' then -(DigitsValue(s[1..]) as int)
    else if s[0] == '+' then DigitsValue(s[1..])
    else DigitsValue(s)
  }

  /**
   * `strconv.Atoi`: an optional `+` or `-` followed by at least one ASCII
   * digit, whose value fits in 64 bits; anything else is an error (`None`).
   * Leading zeros are allowed; spaces, underscores and base prefixes are not.
   */
  function Atoi(s: string): (r: Option<int>)
    ensures r.Some? ==> InInt64(r.value)
    ensures r.Some? ==> |s| > 0 && (IsDigit(s[0]) || s[0] == '+' || s[0] == '-')
    ensures r.Some? ==> AllDigits(s[1..])
    ensures r.Some? ==> (r.value < 0 ==> s[0] == '-')
    ensures r.Some? <==> SignedDecimal(s) && InInt64(SignedValue(s))
    ensures r.Some? ==> r.value == SignedValue(s)
  {
    if |s| == 0 then None
    else
      var negative := s[0] == '-';
      var digits := if s[0] == '-' || s[0] == '+' then s[1..] else s;
      if |digits| == 0 || !AllDigits(digits) then None
      else
        var magnitude: int := DigitsValue(digits);
        var v := if negative then -magnitude else magnitude;
        if InInt64(v) then Some(v) else None
  }

  /** The decimal digits of `n`, without leading zeros. */
  function Digits(n: nat): (r: string)
    ensures |r| > 0 && AllDigits(r)
    ensures |r| > 1 ==> r[0] != '0'
    decreases n
  {
    if n < 10 then [DigitChar(n)] else Digits(n / 10) + [DigitChar(n % 10)]
  }

  /** `strconv.Itoa(n)`, also what `fmt`'s `%d` prints. */
  function FormatInt(n: int): (r: string)
    ensures |r| > 0
    ensures r[0] == '-' <==> n < 0
    ensures AllDigits(r[1..])
    ensures n >= 0 ==> AllDigits(r) && DigitsValue(r) == n
    ensures n < 0 ==> |r| > 1 && DigitsValue(r[1..]) == -n
    ensures |r| > 1 && r[0] != '-' ==> r[0] != '0'
    ensures |r| > 1 && r[0] == '-' ==> r[1] != '0'
  {
    if n < 0 then
      DigitsValueOfDigits(-n);
      assert ("-" + Digits(-n))[1..] == Digits(-n);
      "-" + Digits(-n)
    else
      DigitsValueOfDigits(n);
      Digits(n)
  }

  lemma {:induction false} DigitsValueOfDigits(n: nat)
    ensures DigitsValue(Digits(n)) == n
    decreases n
  {
    if n >= 10 {
      DigitsValueOfDigits(n / 10);
      var s := Digits(n);
      assert s[..|s| - 1] == Digits(n / 10);
    }
  }

  /** Reading back what `FormatInt` wrote gives the number, for every 64-bit value. */
  lemma AtoiFormatInt(n: int)
    requires InInt64(n)
    ensures Atoi(FormatInt(n)) == Some(n)
  {
    if n < 0 {
      DigitsValueOfDigits(-n);
      assert FormatInt(n)[1..] == Digits(-n);
    } else {
      DigitsValueOfDigits(n);
    }
  }

  /** A value outside 64 bits is rejected even though it is well formed. */
  lemma AtoiRejectsOutOfRange(n: int)
    requires !InInt64(n)
    ensures Atoi(FormatInt(n)) == None
  {
    if n < 0 {
      DigitsValueOfDigits(-n);
      assert FormatInt(n)[1..] == Digits(-n);
    } else {
      DigitsValueOfDigits(n);
    }
  }

  lemma FormatUnauthorized()
    ensures FormatInt(401) == "401"
  {
    assert Digits(401) == Digits(40) + ['1'];
    assert Digits(40) == Digits(4) + ['0'];
  }

  /** A leading `+` is accepted and changes nothing. */
  lemma AtoiPlusSign(d: string)
    requires |d| > 0 && AllDigits(d)
    ensures Atoi("+" + d) == Atoi(d)
  {
    assert ("+" + d)[1..] == d;
  }

  /** Negative values parse, so a negative ttl passes validation. */
  lemma AtoiExamples()
    ensures Atoi("-5") == Some(-5)
    ensures Atoi("300") == Some(300)
    ensures Atoi("abc") == None
    ensures Atoi("") == None
    ensures Atoi("-") == None
  {
    assert "-5"[1..] == "5" && "5"[..0] == "";

    assert "300"[..2] == "30" && "30"[..1] == "3";
    assert !IsDigit("abc"[0]);
    assert "-"[1..] == "";
  }
}
