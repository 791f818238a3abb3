/** Natural numbers as decimal digits, and back. */
module Decimal {
  predicate IsDigit(c: char) { '0' <= c <= '9' }

  predicate AllDigits(s: string) {
    forall i | 0 <= i < |s| :: IsDigit(s[i])
  }

  function Digit(n: nat): (c: char)
    requires n < 10
    ensures IsDigit(c)
  {
    ('0' as int + n) as char
  }

  function ToString(n: nat): (s: string)
    ensures s != "" && AllDigits(s)
  {
    if n < 10 then [Digit(n)] else ToString(n / 10) + [Digit(n % 10)]
  }

  function ToNat(s: string): (n: nat)
    requires AllDigits(s)
  {
    if s == "" then 0 else 10 * ToNat(s[..|s| - 1]) + (s[|s| - 1] as int - '0' as int)
  }

  lemma {:induction false} RoundTrip(n: nat)
    ensures ToNat(ToString(n)) == n
  {
    var s := ToString(n);
    if n < 10 {
      assert s[..0] == "";
    } else {
      RoundTrip(n / 10);
      assert s[..|s| - 1] == ToString(n / 10);
    }
  }

  /** The run of digits at the front. */
  function DigitRun(s: string): (n: nat)
    ensures n <= |s| && AllDigits(s[..n])
    ensures n < |s| ==> !IsDigit(s[n])
  {
    if s == "" || !IsDigit(s[0]) then 0
    else
      var n := DigitRun(s[1..]);
      assert forall i | 1 <= i < n + 1 :: s[i] == s[1..][i - 1];
      n + 1
  }

  lemma {:induction false} DigitRunOf(s: string, rest: string)
    requires AllDigits(s) && (rest == "" || !IsDigit(rest[0]))
    ensures DigitRun(s + rest) == |s|
  {
    if s == "" {
      assert s + rest == rest;
    } else {
      DigitRunOf(s[1..], rest);
      assert (s + rest)[1..] == s[1..] + rest;
    }
  }
}
