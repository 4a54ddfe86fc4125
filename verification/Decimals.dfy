/** Decimal numerals in the one spelling that has no leading zero. */
module Decimals {

  predicate AllDigits(s: string) {
    forall i :: 0 <= i < |s| ==> '0' <= s[i] <= '9'
  }

  /** `0`, or digits that do not start with a zero. */
  predicate Canonical(s: string) {
    s != "" && AllDigits(s) && (s == "0" || s[0] != '0')
  }

  /** What `int` reads. */
  function Value(s: string): nat
    requires AllDigits(s)
  {
    if s == "" then 0 else Value(s[..|s| - 1]) * 10 + (s[|s| - 1] as int - '0' as int)
  }

  function Digit(n: nat): char
    requires n < 10
  {
    ('0' as int + n) as char
  }

  function Digits(n: nat): string {
    if n < 10 then [Digit(n)] else Digits(n / 10) + [Digit(n % 10)]
  }

  function Pow10(k: nat): (p: nat)
    ensures p >= 1
  {
    if k == 0 then 1 else 10 * Pow10(k - 1)
  }

  lemma {:induction false} DigitsRead(n: nat)
    ensures Canonical(Digits(n)) && Value(Digits(n)) == n
    ensures n > 0 ==> Digits(n)[0] != '0'
  {
    if n < 10 {
      assert Digits(n)[..0] == "";
    } else {
      DigitsRead(n / 10);
      var s := Digits(n);
      assert s[..|s| - 1] == Digits(n / 10);
      assert s[0] == Digits(n / 10)[0];
    }
  }

  lemma {:induction false} LeadingDigit(s: string)
    requires AllDigits(s) && s != "" && s[0] != '0'
    ensures Value(s) > 0
    decreases |s|
  {
    var front := s[..|s| - 1];
    if front != "" {
      LeadingDigit(front);
    }
  }

  lemma ReadOne(s: string)
    requires AllDigits(s) && |s| == 1
    ensures Digits(Value(s)) == s
  {
  }

  lemma ReadPush(front: string, last: char)
    requires AllDigits(front) && '0' <= last <= '9' && Value(front) > 0 && Digits(Value(front)) == front
    ensures AllDigits(front + [last]) && Digits(Value(front + [last])) == front + [last]
  {
  }

  lemma {:induction false} ReadDigits(s: string)
    requires Canonical(s)
    ensures Digits(Value(s)) == s
    decreases |s|
  {
    if |s| == 1 {
      ReadOne(s);
    } else {
      var front := s[..|s| - 1];
      assert s == front + [s[|s| - 1]];
      LeadingDigit(front);
      ReadDigits(front);
      ReadPush(front, s[|s| - 1]);
    }
  }

  lemma {:induction false} DigitsLength(n: nat, k: nat)
    requires k > 0
    ensures |Digits(n)| <= k <==> n < Pow10(k)
    decreases k
  {
    if n >= 10 {
      if k == 1 {
        assert Pow10(1) == 10 * Pow10(0);
        assert |Digits(n)| == |Digits(n / 10)| + 1 && |Digits(n / 10)| > 0;
      } else {
        DigitsLength(n / 10, k - 1);
      }
    } else {
      assert Pow10(k) == 10 * Pow10(k - 1);
    }
  }
}
