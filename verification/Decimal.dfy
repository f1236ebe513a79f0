/** Decimal numbers: printing a number and reading it back. */
module Decimal {
  import opened Common

  function Digit(n: nat): char
    requires n < 10
  {
    ('0' as int + n) as char
  }

  predicate IsDigit(c: char) {
    '0' <= c <= '9'
  }

  function DigitValue(c: char): nat
    requires IsDigit(c)
  {
    c as int - '0' as int
  }

  function Print(n: nat): (s: string)
    ensures s != [] && forall k :: 0 <= k < |s| ==> IsDigit(s[k])
  {
    if n < 10 then [Digit(n)] else Print(n / 10) + [Digit(n % 10)]
  }

  /** The value of a string of digits; the empty string and other characters are rejected. */
  function Parse(s: string): Option<nat> {
    if s == [] || exists k :: 0 <= k < |s| && !IsDigit(s[k]) then None else Some(Value(s))
  }

  function Value(s: string): nat
    requires forall k :: 0 <= k < |s| ==> IsDigit(s[k])
  {
    if s == [] then 0 else 10 * Value(s[..|s| - 1]) + DigitValue(s[|s| - 1])
  }

  lemma {:induction false} ParsePrint(n: nat)
    ensures Parse(Print(n)) == Some(n)
  {
    if n < 10 {
      assert Value([Digit(n)]) == 10 * Value([]) + n;
    } else {
      ParsePrint(n / 10);
      var s := Print(n);
      assert s[..|s| - 1] == Print(n / 10);
    }
  }

  /** A number is spelled by the digits before its last one, and its last one. */
  lemma PrintIsDecimal(n: nat, d: nat)
    requires d < 10
    ensures Print(d) == ['0' + d as char]
    ensures n > 0 ==> Print(10 * n + d) == Print(n) + ['0' + d as char]
  {
    assert (10 * n + d) / 10 == n && (10 * n + d) % 10 == d;
  }
}
