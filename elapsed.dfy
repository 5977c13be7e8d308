/**
 * `make_testrail_time`: the test's duration in seconds, rounded to the
 * nearest whole second with Ruby's `Float#round` (halves away from zero),
 * raised to at least 1 (TestRail refuses "0s") and written as "<n>s".
 */
module Elapsed {
  import opened Chars

  function DigitChar(d: nat): (c: char)
    requires d < 10
    ensures IsDigit(c) && c as int - '0' as int == d
  {
    ('0' as int + d) as char
  }

  /** Ruby `Float#round` with no argument: nearest integer, halves away from zero. */
  function Round(x: real): (n: int)
    ensures -1.0 / 2.0 <= x - n as real <= 1.0 / 2.0
    ensures x - n as real == 1.0 / 2.0 ==> x < 0.0
    ensures n as real - x == 1.0 / 2.0 ==> x > 0.0
  {
    if x >= 0.0 then (x + 1.0 / 2.0).Floor else -((-x + 1.0 / 2.0).Floor)
  }

  /** The integer nearest to `x`, ties away from zero, is unique. */
  lemma RoundUnique(x: real, m: int)
    requires -1.0 / 2.0 <= x - m as real <= 1.0 / 2.0
    requires x - m as real == 1.0 / 2.0 ==> x < 0.0
    requires m as real - x == 1.0 / 2.0 ==> x > 0.0
    ensures m == Round(x)
  {
  }

  /** `Integer#to_s`: the decimal digits of `n`, most significant first. */
  function Decimal(n: nat): (s: string)
    ensures |s| >= 1
    ensures forall i :: 0 <= i < |s| ==> IsDigit(s[i])
    ensures s[0] == '0' ==> n == 0
    decreases n
  {
    if n < 10 then [DigitChar(n)] else Decimal(n / 10) + [DigitChar(n % 10)]
  }

  function DigitValue(c: char): (d: nat)
    requires IsDigit(c)
    ensures d < 10 && DigitChar(d) == c
  {
    c as int - '0' as int
  }

  /** The value of a string of decimal digits. */
  function DecimalValue(s: string): nat
    requires forall i :: 0 <= i < |s| ==> IsDigit(s[i])
    decreases |s|
  {
    if |s| == 0 then 0
    else DecimalValue(s[..|s| - 1]) * 10 + DigitValue(s[|s| - 1])
  }

  /** Reading back the digits `Decimal` writes gives the number. */
  lemma {:induction false} DecimalRoundTrip(n: nat)
    ensures DecimalValue(Decimal(n)) == n
    decreases n
  {
    if n >= 10 {
      DecimalRoundTrip(n / 10);
      var s := Decimal(n);
      assert s[..|s| - 1] == Decimal(n / 10);
    }
  }

  /** Different numbers are written differently. */
  lemma DecimalInjective(m: nat, n: nat)
    requires Decimal(m) == Decimal(n)
    ensures m == n
  {
    DecimalRoundTrip(m);
    DecimalRoundTrip(n);
  }

  /** `[seconds.round, 1].max`, the whole number of seconds reported. */
  function ReportedSeconds(seconds: real): (n: nat)
    ensures n >= 1
    ensures n == Round(seconds) || (n == 1 && Round(seconds) < 1)
  {
    if Round(seconds) >= 1 then Round(seconds) else 1
  }

  /** `make_testrail_time`: "<n>s". */
  function MakeTestrailTime(seconds: real): (r: string)
    ensures |r| >= 2 && r[|r| - 1] == 's'
    ensures forall i :: 0 <= i < |r| - 1 ==> IsDigit(r[i])
    ensures r[0] != '0'
  {
    Decimal(ReportedSeconds(seconds)) + "s"
  }

  /**
   * The number in front of the "s" is the input rounded to the nearest
   * second (ties away from zero), or 1 when that rounds below 1; so the
   * result is never "0s".
   */
  lemma MakeTestrailTimeValue(seconds: real)
    ensures var r := MakeTestrailTime(seconds);
      var n := DecimalValue(r[..|r| - 1]);
      && n >= 1
      && (Round(seconds) >= 1 ==> n == Round(seconds))
      && (Round(seconds) < 1 ==> n == 1)
      && r != "0s"
  {
    var r := MakeTestrailTime(seconds);
    assert r[..|r| - 1] == Decimal(ReportedSeconds(seconds));
    DecimalRoundTrip(ReportedSeconds(seconds));
  }

  /** The documented examples: 2.34 gives "2s", 0 gives "1s", and 59.5 gives "60s". */
  lemma MakeTestrailTimeExamples()
    ensures MakeTestrailTime(2.34) == "2s"
    ensures MakeTestrailTime(0.0) == "1s"
    ensures MakeTestrailTime(59.5) == "60s"
  {
    assert Round(2.34) == 2;
    assert Round(0.0) == 0;
    assert Round(59.5) == 60;
    assert Decimal(60) == Decimal(6) + [DigitChar(0)];
  }
}
