/** Decimal printing and parsing of unsigned integers, as Rust's Display and FromStr do it. */
module Decimal {
  import opened Wrappers

  predicate IsDigit(c: char) {
    '0' <= c <= '9'
  }

  predicate AllDigits(s: string) {
    forall i :: 0 <= i < |s| ==> IsDigit(s[i])
  }

  function DigitChar(d: nat): (c: char)
    requires d < 10
    ensures IsDigit(c) && DigitValue(c) == d
  {
    '0' + d as char
  }

  function DigitValue(c: char): nat
    requires IsDigit(c)
  {
    (c - '0') as nat
  }

  function Print(n: nat): (s: string)
    ensures s != "" && AllDigits(s)
  {
    if n < 10 then [DigitChar(n)] else Print(n / 10) + [DigitChar(n % 10)]
  }

  function Value(s: string): nat
    requires AllDigits(s)
  {
    if s == "" then 0 else 10 * Value(s[..|s| - 1]) + DigitValue(s[|s| - 1])
  }

  /** The text without its plus sign. */
  function Unsigned(s: string): string {
    if s != "" && s[0] == '+' then s[1..] else s
  }

  /** FromStr of an unsigned type with the given maximum: an optional plus sign, then at least one digit, in range. */
  function Parse(s: string, max: nat): Option<nat> {
    var digits := Unsigned(s);
    if digits == "" || !AllDigits(digits) || Value(digits) > max then None else Some(Value(digits))
  }

  lemma {:induction false} ValueOfPrint(n: nat)
    ensures Value(Print(n)) == n
  {
    if n >= 10 {
      ValueOfPrint(n / 10);
      var s := Print(n);
      assert s[..|s| - 1] == Print(n / 10);
    } else {
      assert Print(n)[..0] == "";
    }
  }

  /** The printed form has no leading zero. */
  lemma {:induction false} NoLeadingZero(n: nat)
    ensures n > 0 ==> Print(n)[0] != '0'
    ensures n < 10 ==> |Print(n)| == 1
  {
    if n >= 10 {
      NoLeadingZero(n / 10);
    }
  }

  /** Printing and parsing are inverse on every value of the type. */
  lemma ParsePrint(n: nat, max: nat)
    requires n <= max
    ensures Parse(Print(n), max) == Some(n)
  {
    ValueOfPrint(n);
    assert IsDigit(Print(n)[0]);
  }

  lemma PrintInjective(m: nat, n: nat)
    requires Print(m) == Print(n)
    ensures m == n
  {
    ValueOfPrint(m);
    ValueOfPrint(n);
  }

  // ---------------------------------------------------------------- which texts are numbers

  predicate AllZeros(s: string) {
    forall i :: 0 <= i < |s| ==> s[i] == '0'
  }

  /** The text is an optional plus sign, any zeros, and the number as it is printed. */
  predicate Spells(s: string, sign: string, zeros: string, n: nat) {
    (sign == "" || sign == "+") && AllZeros(zeros) && s == sign + zeros + Print(n)
  }

  ghost predicate IsDecimal(s: string, n: nat) {
    exists sign, zeros :: Spells(s, sign, zeros, n)
  }

  lemma {:induction false} ZerosAreZero(zeros: string)
    requires AllZeros(zeros)
    ensures AllDigits(zeros) && Value(zeros) == 0
  {
    if zeros != "" {
      ZerosAreZero(zeros[..|zeros| - 1]);
    }
  }

  lemma {:induction false} LeadingZeros(zeros: string, n: nat)
    requires AllZeros(zeros)
    ensures AllDigits(zeros + Print(n)) && Value(zeros + Print(n)) == n
  {
    var s := zeros + Print(n);
    if n >= 10 {
      LeadingZeros(zeros, n / 10);
      assert s[..|s| - 1] == zeros + Print(n / 10);
    } else {
      ZerosAreZero(zeros);
      assert s[..|s| - 1] == zeros;
    }
  }

  lemma PrintSnoc(v: nat, d: nat)
    requires v > 0 && d < 10
    ensures Print(10 * v + d) == Print(v) + [DigitChar(d)]
  {}

  lemma AppendDigit(zeros: string, v: nat, d: nat) returns (zeros': string)
    requires AllZeros(zeros) && d < 10
    ensures AllZeros(zeros') && zeros + Print(v) + [DigitChar(d)] == zeros' + Print(10 * v + d)
  {
    if v == 0 {
      zeros' := zeros + "0";
      assert Print(0) == "0" && Print(d) == [DigitChar(d)];
    } else {
      zeros' := zeros;
      PrintSnoc(v, d);
    }
  }

  /** Digits are zeros followed by the printed form of their value. */
  lemma {:induction false} DigitsSplit(digits: string) returns (zeros: string)
    requires AllDigits(digits) && digits != ""
    ensures AllZeros(zeros) && digits == zeros + Print(Value(digits))
  {
    var n := |digits| - 1;
    var front, last := digits[..n], DigitValue(digits[n]);
    assert DigitChar(last) == digits[n];
    if front == "" {
      zeros := "";
      assert Value(digits) == last && Print(last) == [DigitChar(last)];
    } else {
      zeros := DigitsSplit(front);
      zeros := AppendDigit(zeros, Value(front), last);
      assert digits == front + [digits[n]];
    }
  }

  lemma ParsedIsSpelled(s: string, max: nat)
    requires Parse(s, max).Some?
    ensures Parse(s, max).value <= max && IsDecimal(s, Parse(s, max).value)
  {
    var zeros := DigitsSplit(Unsigned(s));
    var sign := if s != "" && s[0] == '+' then "+" else "";
    assert s == sign + Unsigned(s);
    assert Spells(s, sign, zeros, Parse(s, max).value);
  }

  lemma UnsignedSpelling(s: string, sign: string, zeros: string, n: nat)
    requires Spells(s, sign, zeros, n)
    ensures Unsigned(s) == zeros + Print(n)
  {
    var digits := zeros + Print(n);
    LeadingZeros(zeros, n);
    assert IsDigit(digits[0]) && s == sign + digits;
  }

  lemma SpelledIsParsed(s: string, max: nat, n: nat)
    requires n <= max && IsDecimal(s, n)
    ensures Parse(s, max) == Some(n)
  {
    var sign, zeros :| Spells(s, sign, zeros, n);
    LeadingZeros(zeros, n);
    UnsignedSpelling(s, sign, zeros, n);
  }

  /** Exactly which texts parse to a number: those that spell it, if it is in range. */
  lemma ParseExactly(s: string, max: nat, n: nat)
    ensures Parse(s, max) == Some(n) <==> n <= max && IsDecimal(s, n)
  {
    if Parse(s, max) == Some(n) {
      ParsedIsSpelled(s, max);
    } else if n <= max && IsDecimal(s, n) {
      SpelledIsParsed(s, max, n);
    }
  }
}
