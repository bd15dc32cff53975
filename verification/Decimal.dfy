/** Decimal text of a natural number: what "%d" and u2a print and atoi reads. */
module Decimal {
  import opened Common

  predicate IsDigit(c: char) {
    '0' <= c <= '9'
  }

  ghost predicate AllDigits(s: string) {
    forall i :: 0 <= i < |s| ==> IsDigit(s[i])
  }

  function Digit(d: nat): char
    requires d < 10
  {
    '0' + d as char
  }

  function Print(n: nat): string {
    if n < 10 then [Digit(n)] else Print(n / 10) + [Digit(n % 10)]
  }

  /** Decimal text of a possibly negative C int. */
  function PrintInt(n: int): string {
    if n < 0 then "-" + Print(-n) else Print(n)
  }

  /** The number a run of digits denotes; atoi on a string of at most seven digits. */
  function Value(s: string): nat
    requires AllDigits(s)
  {
    if s == "" then 0 else 10 * Value(s[..|s| - 1]) + (s[|s| - 1] as int - '0' as int)
  }

  /** Written as print would write it: at least one digit, and no leading zero. */
  ghost predicate Canonical(s: string) {
    AllDigits(s) && |s| > 0 && (|s| > 1 ==> s[0] != '0')
  }

  lemma {:induction false} PrintParses(n: nat)
    ensures Canonical(Print(n)) && Value(Print(n)) == n
    ensures n > 0 ==> Print(n)[0] != '0'
  {
    if n >= 10 {
      PrintParses(n / 10);
      assert Print(n)[..|Print(n)| - 1] == Print(n / 10);
    }
  }

  lemma {:induction false} PrintIsOnlyText(s: string)
    requires Canonical(s)
    ensures Print(Value(s)) == s
  {
    var front, last := s[..|s| - 1], s[|s| - 1];
    assert s == front + [last];
    if |s| > 1 {
      PrintIsOnlyText(front);
      PositiveValue(front);
    }
  }

  lemma {:induction false} PositiveValue(s: string)
    requires Canonical(s) && s[0] != '0'
    ensures Value(s) > 0
  {
    if |s| > 1 {
      PositiveValue(s[..|s| - 1]);
    }
  }

  /** The ten digits, and the number each denotes. */
  lemma DigitsInOrder(d: nat)
    requires d < 10
    ensures Digit(d) == "0123456789"[d] && Value([Digit(d)]) == d
  {
    assert [Digit(d)][..0] == "";
  }

  /** Digits stand for tens, hundreds and so on from the right. */
  lemma {:induction false} ValueSplits(a: string, b: string)
    requires AllDigits(a) && AllDigits(b)
    ensures AllDigits(a + b) && Value(a + b) == Value(a) * Pow10(|b|) + Value(b)
  {
    if b == "" {
      assert a + b == a;
    } else {
      var front, last := b[..|b| - 1], [b[|b| - 1]];
      assert (a + b)[..|a + b| - 1] == a + front;
      ValueSplits(a, front);
      Distribute(Value(a), Pow10(|front|), Value(front));
    }
  }

  lemma Distribute(v: nat, p: nat, f: nat)
    ensures 10 * (v * p + f) == v * (10 * p) + 10 * f
  {
  }

  function DigitRun(s: string): (n: nat)
    ensures n <= |s| && AllDigits(s[..n])
    ensures n < |s| ==> !IsDigit(s[n])
  {
    if s == "" || !IsDigit(s[0]) then 0 else
      var n := 1 + DigitRun(s[1..]);
      assert s[..n] == [s[0]] + s[1..][..n - 1];
      n
  }

  lemma {:induction false} DigitRunIs(s: string, n: nat)
    requires n <= |s| && AllDigits(s[..n]) && (n < |s| ==> !IsDigit(s[n]))
    ensures DigitRun(s) == n
  {
    if n > 0 {
      assert s[..n][0] == s[0];
      assert s[1..][..n - 1] == s[..n][1..];
      DigitRunIs(s[1..], n - 1);
    }
  }

  /** The number that starts a text, if it starts with a digit. */
  function Leading(s: string): Option<nat> {
    if DigitRun(s) == 0 then None else Some(Value(s[..DigitRun(s)]))
  }

  lemma LeadingPrint(n: nat, rest: string)
    requires rest != "" ==> !IsDigit(rest[0])
    ensures Leading(Print(n) + rest) == Some(n) && DigitRun(Print(n) + rest) == |Print(n)|
  {
    PrintParses(n);
    var s := Print(n) + rest;
    assert s[..|Print(n)|] == Print(n);
    DigitRunIs(s, |Print(n)|);
  }

  function Pow10(k: nat): nat {
    if k == 0 then 1 else 10 * Pow10(k - 1)
  }

  lemma {:induction false} PrintLength(n: nat, k: nat)
    requires 0 < k && n < Pow10(k)
    ensures |Print(n)| <= k
  {
    if n >= 10 {
      assert Pow10(k) == 10 * Pow10(k - 1);
      PrintLength(n / 10, k - 1);
    }
  }

  lemma {:induction false} ValueBound(s: string)
    requires AllDigits(s)
    ensures Value(s) < Pow10(|s|)
  {
    if s != "" {
      ValueBound(s[..|s| - 1]);
    }
  }

  lemma PrintUint64Length(n: nat)
    requires n < 0x1_0000_0000_0000_0000
    ensures |Print(n)| <= 20
  {
    assert Pow10(5) == 100_000;
    assert Pow10(10) == 10_000_000_000;
    assert Pow10(15) == 1_000_000_000_000_000;
    assert Pow10(20) == 100_000_000_000_000_000_000;
    PrintLength(n, 20);
  }
}
