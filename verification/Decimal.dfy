/** Printing a number in decimal, and reading it back. */
module Decimal {
  function Digit(d: nat): char
    requires d < 10
  {
    '0' + d as char
  }

  predicate IsDigit(c: char) {
    '0' <= c <= '9'
  }

  function DigitValue(c: char): nat
    requires IsDigit(c)
  {
    (c - '0') as nat
  }

  predicate AllDigits(s: string) {
    forall i :: 0 <= i < |s| ==> IsDigit(s[i])
  }

  function ToString(n: nat): string {
    if n < 10 then [Digit(n)] else ToString(n / 10) + [Digit(n % 10)]
  }

  function Value(s: string): nat
    requires AllDigits(s)
  {
    if s == "" then 0 else Value(s[..|s| - 1]) * 10 + DigitValue(s[|s| - 1])
  }

  /** No superfluous zero in front. */
  predicate Canonical(s: string) {
    s != "" && AllDigits(s) && (|s| > 1 ==> s[0] != '0')
  }

  lemma {:induction false} PrintedIsCanonical(n: nat)
    ensures Canonical(ToString(n))
    ensures n > 0 ==> ToString(n)[0] != '0'
  {
    if n < 10 {
    } else {
      PrintedIsCanonical(n / 10);
    }
  }

  lemma {:induction false} ReadUndoesPrint(n: nat)
    ensures AllDigits(ToString(n)) && Value(ToString(n)) == n
  {
    PrintedIsCanonical(n);
    if n < 10 {
    } else {
      ReadUndoesPrint(n / 10);
      assert ToString(n)[..|ToString(n)| - 1] == ToString(n / 10);
    }
  }

  lemma {:induction false} PositiveUnlessZero(s: string)
    requires Canonical(s) && s[0] != '0'
    ensures Value(s) > 0
  {
    if |s| == 1 {
    } else {
      PositiveUnlessZero(s[..|s| - 1]);
    }
  }

  lemma {:induction false} PrintUndoesRead(s: string)
    requires Canonical(s)
    ensures ToString(Value(s)) == s
  {
    var m := |s| - 1;
    if m > 0 {
      PrintUndoesRead(s[..m]);
      PositiveUnlessZero(s[..m]);
      assert s == s[..m] + [s[m]];
    } else {
      assert s == [s[0]];
      assert s[..m] == "";
    }
  }
}
