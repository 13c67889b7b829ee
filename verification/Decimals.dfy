/** Numbers as the printed text of their decimal digits. */
module Decimals {

  predicate Digit(c: char) { '0' <= c <= '9' }

  function DigitOf(d: nat): (c: char)
    requires d < 10
    ensures Digit(c)
  {
    '0' + d as char
  }

  function Printed(n: nat): (s: string)
    ensures s != "" && forall i :: 0 <= i < |s| ==> Digit(s[i])
  {
    (if n < 10 then "" else Printed(n / 10)) + [DigitOf(n % 10)]
  }

  function Value(s: string): nat
    requires forall i :: 0 <= i < |s| ==> Digit(s[i])
  {
    if s == "" then 0
    else
      var c := s[|s| - 1];
      assert Digit(c);
      10 * Value(s[..|s| - 1]) + (c as int - '0' as int)
  }

  /** Reading a printed number gives the number back. */
  lemma {:induction false} ReadsBack(n: nat)
    ensures Value(Printed(n)) == n
  {
    var s := Printed(n);
    if n >= 10 {
      ReadsBack(n / 10);
      assert s[..|s| - 1] == Printed(n / 10);
    } else {
      assert s[..|s| - 1] == "";
    }
  }

  /** Different numbers print differently. */
  lemma PrintedApart(m: nat, n: nat)
    requires Printed(m) == Printed(n)
    ensures m == n
  {
    ReadsBack(m);
    ReadsBack(n);
  }

  function Power(k: nat): (p: nat)
    ensures p > 0
  {
    if k == 0 then 1 else 10 * Power(k - 1)
  }

  lemma {:induction false} Width(n: nat, k: nat)
    requires k > 0 && n < Power(k)
    ensures |Printed(n)| <= k
  {
    if k > 1 && n >= 10 {
      Width(n / 10, k - 1);
    } else {
      assert Power(1) == 10 * Power(0);
    }
  }
}
