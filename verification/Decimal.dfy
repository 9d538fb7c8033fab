/** Decimal text: the fixed-width codec of ip.c (int_to_str, str_to_int, power) and the variable-width one of
    printf's %d. */
module Decimal {
  import opened Common

  function Pow10(k: nat): (p: int)
    ensures p >= 1
  {
    if k == 0 then 1 else 10 * Pow10(k - 1)
  }

  predicate IsDigit(c: char) {
    '0' <= c <= '9'
  }

  predicate AllDigits(s: string) {
    forall i :: 0 <= i < |s| ==> IsDigit(s[i])
  }

  function DigitChar(d: int): (c: char)
    requires 0 <= d < 10
    ensures IsDigit(c) && DigitValue(c) == d
  {
    ('0' as int + d) as char
  }

  function DigitValue(c: char): int {
    c as int - '0' as int
  }

  /** The number a digit string stands for. */
  function Value(s: string): int {
    if s == "" then 0 else 10 * Value(s[..|s| - 1]) + DigitValue(s[|s| - 1])
  }

  /** The last k digits of n, leading zeros included. */
  function Digits(n: nat, k: nat): (s: string)
    ensures |s| == k && AllDigits(s)
  {
    if k == 0 then "" else Digits(n / 10, k - 1) + [DigitChar(n % 10)]
  }

  /** Decimal without leading zeros, as %d prints it. */
  function Natural(n: nat): (s: string)
    ensures |s| > 0 && AllDigits(s)
  {
    if n < 10 then [DigitChar(n)] else Natural(n / 10) + [DigitChar(n % 10)]
  }

  function Printed(n: int): (s: string)
    ensures |s| > 0
  {
    if n < 0 then "-" + Natural(-n) else Natural(n)
  }

  // ---------------------------------------------------------------- the two directions

  lemma {:induction false} ValueOfDigits(n: nat, k: nat)
    requires n < Pow10(k)
    ensures Value(Digits(n, k)) == n
  {
    if k > 0 {
      var front := Digits(n / 10, k - 1);
      assert Digits(n, k)[..k - 1] == front;
      ValueOfDigits(n / 10, k - 1);
    }
  }

  lemma {:induction false} DigitsOfValue(s: string)
    requires AllDigits(s)
    ensures 0 <= Value(s) < Pow10(|s|) && Digits(Value(s), |s|) == s
  {
    if s != "" {
      var front, last := s[..|s| - 1], s[|s| - 1];
      DigitsOfValue(front);
      assert Value(s) / 10 == Value(front) && Value(s) % 10 == DigitValue(last);
      assert s == front + [last];
    }
  }

  lemma {:induction false} ValueOfNatural(n: nat)
    ensures Value(Natural(n)) == n
    ensures n >= Pow10(|Natural(n)| - 1) || n == 0
    ensures n < Pow10(|Natural(n)|)
  {
    if n >= 10 {
      ValueOfNatural(n / 10);
      assert Natural(n)[..|Natural(n)| - 1] == Natural(n / 10);
    } else {
      assert Natural(n)[..0] == "" && Pow10(1) == 10 * Pow10(0);
    }
  }

  /** Decimal printing is injective. */
  lemma DecimalInjective(m: int, n: int)
    requires Printed(m) == Printed(n)
    ensures m == n
  {
    ValueOfNatural(if m < 0 then -m else m);
    ValueOfNatural(if n < 0 then -n else n);
    assert Printed(m)[0] == '-' <==> m < 0;
    assert Printed(n)[0] == '-' <==> n < 0;
    if m < 0 {
      assert Printed(m)[1..] == Natural(-m) && Printed(n)[1..] == Natural(-n);
    }
  }

  /** Reading on past the end of a number multiplies it up. */
  lemma {:induction false} ValueAppend(a: string, b: string)
    ensures Value(a + b) == Value(a) * Pow10(|b|) + Value(b)
  {
    if b == "" {
      assert a + b == a;
    } else {
      var front, last := b[..|b| - 1], b[|b| - 1];
      assert (a + b)[..|a + b| - 1] == a + front;
      ValueAppend(a, front);
      assert Value(a) * (10 * Pow10(|front|)) == 10 * (Value(a) * Pow10(|front|));
    }
  }

  /** str_to_int computes res * 10 + str[i] - '0' from left to right: every step stays within int exactly when the
      result is at least '0' below the largest int. */
  lemma StepsFit(s: string)
    requires AllDigits(s) && s != ""
    ensures (forall i :: 0 <= i < |s| ==> 10 * Value(s[..i]) + s[i] as int <= INT_MAX)
            <==> Value(s) + '0' as int <= INT_MAX
  {
    var n := |s| - 1;
    assert 10 * Value(s[..n]) + s[n] as int == Value(s) + '0' as int;
    forall i | 0 <= i < |s| ensures 10 * Value(s[..i]) + s[i] as int <= Value(s) + '0' as int {
      StepAtMost(s, i);
    }
  }

  lemma {:induction false} StepAtMost(s: string, i: nat)
    requires AllDigits(s) && i < |s|
    ensures 10 * Value(s[..i]) + s[i] as int <= Value(s) + '0' as int
  {
    var n := |s| - 1;
    if i < n {
      var front := s[..n];
      assert front[..i] == s[..i] && front[i] == s[i];
      StepAtMost(front, i);
      DigitsOfValue(front);
    }
  }

  // ---------------------------------------------------------------- the loops of ip.c

  /** power, for base ten */
  method Power(exponent: nat) returns (result: int)
    ensures result == Pow10(exponent)
  {
    result := 1;
    var e := exponent;
    while e > 0
      invariant 0 <= e <= exponent && result == Pow10(exponent - e)
    {
      result := result * 10;
      e := e - 1;
    }
  }

  lemma {:induction false} DigitFromTop(n: nat, k: nat, i: nat)
    requires i < k
    ensures var p := Pow10(k - i - 1); 0 <= (n % (10 * p)) / p < 10 && Digits(n, k)[i] == DigitChar((n % (10 * p)) / p)
  {
    var p := Pow10(k - i - 1);
    QuotientDigit(n, p);
    if i < k - 1 {
      DigitFromTop(n / 10, k - 1, i);
      var q := Pow10(k - i - 2);
      ShiftedQuotient(n, q);
    }
  }

  lemma QuotientDigit(n: nat, p: int)
    requires p >= 1
    ensures 0 <= (n % (10 * p)) / p < 10
  {
    var r := n % (10 * p);
    assert p * (r / p) <= r;
    Multiple(p, r / p - 9);
  }

  lemma Multiple(m: int, d: int)
    requires m >= 1
    ensures d >= 1 ==> m * d >= m
    ensures d <= -1 ==> m * d <= -m
  {
  }

  lemma ShiftedQuotient(n: nat, q: int)
    requires q >= 1
    ensures ((n / 10) % (10 * q)) / q == (n % (10 * (10 * q))) / (10 * q)
  {
    var big := 10 * q;
    var a, r := n / (10 * big), n % (10 * big);
    // n = 10 * big * a + r, so n / 10 = big * a + r / 10
    assert n == 10 * (big * a) + r;
    assert n / 10 == big * a + r / 10;
    assert 0 <= r / 10 < big;
    RemainderIs(n / 10, big, a, r / 10);
    DivideTwice(r, q);
  }

  lemma RemainderIs(n: nat, m: int, a: int, r: int)
    requires m >= 1 && n == m * a + r && 0 <= r < m
    ensures n % m == r
  {
    var b, s := n / m, n % m;
    assert m * (a - b) == s - r;
    Multiple(m, a - b);
  }

  lemma DivideTwice(r: nat, q: int)
    requires q >= 1
    ensures (r / 10) / q == r / (10 * q)
  {
    var b := r / (10 * q);
    var s := r % (10 * q);
    assert r == 10 * (q * b) + s;
    assert r / 10 == q * b + s / 10;
    assert 0 <= s / 10 < q;
    QuotientIs(r / 10, q, b, s / 10);
  }

  lemma QuotientIs(n: nat, m: int, a: int, r: int)
    requires m >= 1 && n == m * a + r && 0 <= r < m
    ensures n / m == a
  {
    RemainderIs(n, m, a, r);
    var b := n / m;
    assert m * (a - b) == m * a - m * b == 0;
    Multiple(m, a - b);
  }

  /** int_to_str, writing into a buffer from the given place. */
  method IntToStr(str: array<char>, at: nat, size: nat, n: nat)
    requires at + size <= str.Length
    modifies str
    ensures str[at..at + size] == Digits(n, size)
    ensures forall j :: 0 <= j < str.Length && !(at <= j < at + size) ==> str[j] == old(str[j])
  {
    var help := Power(size);
    for i := 0 to size
      invariant help == Pow10(size - i)
      invariant forall j :: 0 <= j < i ==> str[at + j] == Digits(n, size)[j]
      invariant forall j :: 0 <= j < str.Length && !(at <= j < at + i) ==> str[j] == old(str[j])
    {
      var tmp := n % help;
      DigitFromTop(n, size, i);
      help := help / 10;
      str[at + i] := (tmp / help + '0' as int) as char;
    }
  }

  /** str_to_int */
  method StrToInt(str: string, sizeOfInt: nat) returns (res: int)
    requires sizeOfInt <= |str|
    ensures res == Value(str[..sizeOfInt])
  {
    res := 0;
    for i := 0 to sizeOfInt
      invariant res == Value(str[..i])
    {
      assert str[..i + 1][..i] == str[..i];
      res := res * 10 + str[i] as int - '0' as int;
    }
  }
}
