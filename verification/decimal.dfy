/**
  Decimal text for 64-bit integers: the `%d` verb of Go's fmt package, which the
  coordinator uses to write the start time, and `strconv.ParseInt(s, 10, 64)`,
  which the agent uses to read it back.
*/
module Decimal {
  import opened Wrappers

  const MinInt64: int := -0x8000_0000_0000_0000
  const MaxInt64: int := 0x7FFF_FFFF_FFFF_FFFF

  predicate IsInt64(n: int) {
    MinInt64 <= n <= MaxInt64
  }

  predicate IsDigit(c: char) {
    '0' <= c <= '9'
  }

  predicate IsSign(c: char) {
    c == '+' || c == '-'
  }

  predicate AllDigits(s: string) {
    forall i :: 0 <= i < |s| ==> IsDigit(s[i])
  }

  function DigitValue(c: char): (d: nat)
    requires IsDigit(c)
    ensures d < 10
  {
    c as int - '0' as int
  }

  function DigitChar(d: nat): (c: char)
    requires d < 10
    ensures IsDigit(c) && DigitValue(c) == d
  {
    ('0' as int + d) as char
  }

  /** The number a string of decimal digits denotes, most significant digit first. */
  function DigitsValue(s: string): nat
    requires AllDigits(s)
  {
    if |s| == 0 then 0 else DigitsValue(s[..|s| - 1]) * 10 + DigitValue(s[|s| - 1])
  }

  /** The decimal digits of a natural number: never empty, no leading zero. */
  function Digits(n: nat): (s: string)
    ensures 1 <= |s| && AllDigits(s)
    ensures s[0] == '0' ==> n == 0
    decreases n
  {
    if n < 10 then [DigitChar(n)] else Digits(n / 10) + [DigitChar(n % 10)]
  }

  /** `fmt.Sprintf("%d", n)`: a minus sign for negative numbers, then the digits of |n|. */
  function FormatInt(n: int): (s: string)
    ensures 1 <= |s|
    ensures s[0] == '-' <==> n < 0
    ensures n >= 0 ==> AllDigits(s)
    ensures n < 0 ==> 2 <= |s| && AllDigits(s[1..])
  {
    if n < 0 then "-" + Digits(-n) else Digits(n)
  }

  /** The text after an optional leading sign. */
  function Unsigned(s: string): string
    requires 1 <= |s|
  {
    if IsSign(s[0]) then s[1..] else s
  }

  /**
    `strconv.ParseInt(s, 10, 64)`: an optional `+` or `-`, then one or more
    decimal digits, denoting a value inside the int64 range. Everything else
    (the empty string, a lone sign, any other character, a value out of range)
    is an error; the kinds of error are not distinguished here.
  */
  function ParseInt64(s: string): (r: Option<int>)
    ensures r.Some? ==> IsInt64(r.value)
    ensures r.Some? ==> 1 <= |s| && 1 <= |Unsigned(s)| && AllDigits(Unsigned(s))
    ensures r.Some? ==> (r.value < 0 ==> s[0] == '-')
    ensures r.Some? ==> DigitsValue(Unsigned(s)) == if r.value < 0 then -r.value else r.value
  {
    if |s| == 0 then None
    else
      var digits := Unsigned(s);
      if |digits| == 0 || !AllDigits(digits) then None
      else
        var n: int := if s[0] == '-' then -(DigitsValue(digits) as int) else DigitsValue(digits);
        if IsInt64(n) then Some(n) else None
  }

  lemma {:induction false} DigitsValueOfDigits(n: nat)
    ensures DigitsValue(Digits(n)) == n
    decreases n
  {
    if n >= 10 {
      var s := Digits(n);
      assert s[..|s| - 1] == Digits(n / 10);
      DigitsValueOfDigits(n / 10);
    }
  }

  /** Reading back what `%d` wrote gives the same int64. */
  lemma FormatParseRoundTrip(n: int)
    requires IsInt64(n)
    ensures ParseInt64(FormatInt(n)) == Some(n)
  {
    var s := FormatInt(n);
    if n < 0 {
      assert Unsigned(s) == Digits(-n);
      DigitsValueOfDigits(-n);
    } else {
      assert !IsSign(s[0]);
      DigitsValueOfDigits(n);
    }
  }

  /** The value an optional sign followed by digits denotes, before any range check. */
  function SignedValue(sign: string, digits: string): int
    requires AllDigits(digits)
  {
    if sign == "-" then -(DigitsValue(digits) as int) else DigitsValue(digits)
  }

  /**
    A label made of no sign, `+` or `-`, followed by one or more digits, is
    accepted with the value it denotes when that value is an int64, and refused
    as out of range otherwise.
  */
  lemma ParseInt64OfSignedDigits(sign: string, digits: string)
    requires sign == "" || sign == "+" || sign == "-"
    requires 1 <= |digits| && AllDigits(digits)
    ensures IsInt64(SignedValue(sign, digits)) ==> ParseInt64(sign + digits) == Some(SignedValue(sign, digits))
    ensures !IsInt64(SignedValue(sign, digits)) ==> ParseInt64(sign + digits).None?
  {
    var s := sign + digits;
    if sign == "" {
      assert s == digits;
    } else {
      assert Unsigned(s) == digits;
    }
  }

  /**
    The decimal text of an integer outside the int64 range, with or without an
    explicit `+`, is refused: for instance `-9223372036854775809` and
    `+9223372036854775808`.
  */
  lemma ParseInt64RefusesOutOfRange(n: int)
    requires !IsInt64(n)
    ensures ParseInt64(FormatInt(n)).None?
    ensures n > 0 ==> ParseInt64("+" + FormatInt(n)).None?
  {
    if n < 0 {
      DigitsValueOfDigits(-n);
      ParseInt64OfSignedDigits("-", Digits(-n));
    } else {
      DigitsValueOfDigits(n);
      ParseInt64OfSignedDigits("", Digits(n));
      ParseInt64OfSignedDigits("+", Digits(n));
    }
  }

  /** Each of the malformed shapes of label is refused. */
  lemma ParseInt64Rejects(s: string)
    ensures |s| == 0 ==> ParseInt64(s).None?
    ensures |s| == 1 && IsSign(s[0]) ==> ParseInt64(s).None?
    ensures (exists i :: 0 < i < |s| && !IsDigit(s[i])) ==> ParseInt64(s).None?
    ensures 1 <= |s| && !IsDigit(s[0]) && !IsSign(s[0]) ==> ParseInt64(s).None?
    ensures (1 <= |s| && 1 <= |Unsigned(s)| && AllDigits(Unsigned(s))
             && !IsInt64(SignedValue(s[..|s| - |Unsigned(s)|], Unsigned(s))))
      ==> ParseInt64(s).None?
  {
    if exists i :: 0 < i < |s| && !IsDigit(s[i]) {
      var i :| 0 < i < |s| && !IsDigit(s[i]);
      if IsSign(s[0]) {
        assert Unsigned(s)[i - 1] == s[i];
      } else {
        assert Unsigned(s)[i] == s[i];
      }
    }
  }

}
