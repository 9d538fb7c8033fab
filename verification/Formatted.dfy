/** The conversions of printf and sscanf that tcp.c and network_manager.c use (sections 7.21.6.1 and 7.21.6.2 of
    C11). */
module Formatted {
  import opened Common
  import opened Decimal

  // ---------------------------------------------------------------- printing

  function Repeat(c: char, n: int): (s: string)
    ensures |s| == Max(0, n) && forall i :: 0 <= i < |s| ==> s[i] == c
  {
    seq(Max(0, n), _ => c)
  }

  /** %0wd: the sign first, then zeros up to the width. */
  function ZeroPadded(n: int, width: nat): string {
    if n < 0 then "-" + Repeat('0', width - 1 - |Natural(-n)|) + Natural(-n)
    else Repeat('0', width - |Natural(n)|) + Natural(n)
  }

  /** %wd: blanks up to the width. */
  function BlankPadded(n: int, width: nat): string {
    Repeat(' ', width - |Printed(n)|) + Printed(n)
  }

  // ---------------------------------------------------------------- scanning

  predicate IsSpace(c: char) {
    c == ' ' || '\t' <= c <= '\r'
  }

  function SkipSpace(s: string): (r: string)
    ensures r != "" ==> !IsSpace(r[0])
  {
    if s != "" && IsSpace(s[0]) then SkipSpace(s[1..]) else s
  }

  /** How many digits s starts with, looking at no more than `limit` characters. */
  function DigitRun(s: string, limit: int): (n: nat)
    ensures n <= |s| && AllDigits(s[..n]) && (n > 0 ==> n <= limit)
  {
    if limit <= 0 || s == "" || !IsDigit(s[0]) then 0
    else
      var n := DigitRun(s[1..], limit - 1);
      assert s[..n + 1] == [s[0]] + s[1..][..n];
      n + 1
  }

  /** %wd: skip white space, which does not count towards the width, then an optional sign and digits, at most
      `width` characters in all. The number read and the text that is left, or nothing if there is no number. */
  function ScanInt(s: string, width: int): Option<(int, string)> {
    var t := SkipSpace(s);
    if t != "" && width > 0 && (t[0] == '-' || t[0] == '+') then
      var n := DigitRun(t[1..], width - 1);
      if n == 0 then None
      else Some((if t[0] == '-' then -Value(t[1..n + 1]) else Value(t[1..n + 1]), t[n + 1..]))
    else
      var n := DigitRun(t, width);
      if n == 0 then None else Some((Value(t[..n]), t[n..]))
  }

  /** What a conversion leaves in its int. A number that int cannot hold is outside the C standard; `wild` is what the
      library at hand makes of it. Nothing is assumed about `wild`: theorems hold for every one. */
  function Stored(n: int, wild: int -> int): int {
    if FitsInt(n) then n else wild(n)
  }

  /** The library that keeps the low 32 bits, as glibc does. */
  function LowBits(n: int): int {
    (n + 0x8000_0000) % 0x1_0000_0000 - 0x8000_0000
  }

  // ---------------------------------------------------------------- what one says of the other

  lemma {:induction false} DigitRunIs(digits: string, rest: string, limit: int)
    requires AllDigits(digits) && |digits| <= limit
    requires |digits| == limit || rest == "" || !IsDigit(rest[0])
    ensures DigitRun(digits + rest, limit) == |digits|
  {
    var s := digits + rest;
    if digits != "" {
      assert s[1..] == digits[1..] + rest;
      DigitRunIs(digits[1..], rest, limit - 1);
    } else {
      assert s == rest;
    }
  }

  lemma {:induction false} SkipBlanks(n: nat, s: string)
    requires s == "" || !IsSpace(s[0])
    ensures SkipSpace(Repeat(' ', n) + s) == s
  {
    var t := Repeat(' ', n) + s;
    if n > 0 {
      assert t[1..] == Repeat(' ', n - 1) + s;
      SkipBlanks(n - 1, s);
    } else {
      assert t == s;
    }
  }

  /** Leading zeros do not matter. */
  lemma {:induction false} ValueOfZeros(n: nat, s: string)
    ensures Value(Repeat('0', n) + s) == Value(s)
  {
    var z := Repeat('0', n);
    ValueAppend(z, s);
    ZerosAreZero(n);
  }

  lemma {:induction false} ZerosAreZero(n: nat)
    ensures Value(Repeat('0', n)) == 0
  {
    if n > 0 {
      var z := Repeat('0', n);
      assert z[..n - 1] == Repeat('0', n - 1);
      ZerosAreZero(n - 1);
    }
  }

  /** The value fits its column. */
  predicate FitsColumn(n: int, width: nat) {
    |ZeroPadded(n, width)| == width
  }

  lemma NaturalWidth(m: nat, k: nat)
    requires k >= 1
    ensures |Natural(m)| <= k <==> m < Pow10(k)
  {
    ValueOfNatural(m);
    var w := |Natural(m)|;
    if w <= k {
      Pow10Grows(w, k);
    } else {
      Pow10Grows(k, w - 1);
      assert Pow10(k) >= 10;
    }
  }

  /** The numbers that do. */
  lemma FitsColumnMeans(n: int, width: nat)
    requires width >= 2
    ensures FitsColumn(n, width) <==> -Pow10(width - 1) < n < Pow10(width)
  {
    hide Natural, Pow10;
    if n < 0 {
      NaturalWidth(-n, width - 1);
    } else {
      NaturalWidth(n, width);
    }
  }

  lemma {:induction false} Pow10Grows(a: nat, b: nat)
    requires a <= b
    ensures Pow10(a) <= Pow10(b)
  {
    if a < b {
      Pow10Grows(a, b - 1);
    }
  }

  lemma ScanUnsigned(t: string, width: int)
    requires t != "" && IsDigit(t[0]) && width > 0
    ensures var n := DigitRun(t, width); ScanInt(t, width) == Some((Value(t[..n]), t[n..]))
  {
    assert SkipSpace(t) == t;
  }

  lemma ScanMinus(t: string, width: int)
    requires t != "" && IsDigit(t[0]) && width > 1
    ensures var n := DigitRun(t, width - 1); ScanInt("-" + t, width) == Some((-Value(t[..n]), t[n..]))
  {
    var s := "-" + t;
    assert SkipSpace(s) == s && s[1..] == t;
    assert forall n :: 0 <= n <= |t| ==> s[1..n + 1] == t[..n] && s[n + 1..] == t[n..];
  }

  lemma {:induction false} SkipsSpace(space: string, s: string)
    requires (forall c :: c in space ==> IsSpace(c)) && (s == "" || !IsSpace(s[0]))
    ensures SkipSpace(space + s) == s
    decreases |space|
  {
    var t := space + s;
    if space != "" {
      assert space[0] in space && t[1..] == space[1..] + s;
      SkipsSpace(space[1..], s);
    } else {
      assert t == s;
    }
  }

  lemma ScanPlus(t: string, width: int)
    requires t != "" && IsDigit(t[0]) && width > 1
    ensures var n := DigitRun(t, width - 1); ScanInt("+" + t, width) == Some((Value(t[..n]), t[n..]))
  {
    var s := "+" + t;
    assert SkipSpace(s) == s && s[1..] == t;
    assert forall n :: 0 <= n <= |t| ==> s[1..n + 1] == t[..n] && s[n + 1..] == t[n..];
  }

  lemma ScanSkips(space: string, t: string, width: int)
    requires (forall c :: c in space ==> IsSpace(c)) && t != "" && !IsSpace(t[0])
    ensures ScanInt(space + t, width) == ScanInt(t, width)
  {
    SkipsSpace(space, t);
    SkipsSpace("", t);
    assert "" + t == t;
    hide SkipSpace;
  }

  lemma StartsWell(sign: string, u: string)
    requires (sign == "" || sign == "-" || sign == "+") && u != "" && IsDigit(u[0])
    ensures !IsSpace((sign + u)[0])
  {
  }

  lemma ScanSign(sign: string, u: string, width: int)
    requires (sign == "" || sign == "-" || sign == "+") && u != "" && IsDigit(u[0]) && |sign| < width
    ensures var n := DigitRun(u, width - |sign|);
            ScanInt(sign + u, width) == Some((if sign == "-" then -Value(u[..n]) else Value(u[..n]), u[n..]))
  {
    if sign == "" {
      assert sign + u == u;
      ScanUnsigned(u, width);
    } else if sign == "-" {
      ScanMinus(u, width);
    } else {
      ScanPlus(u, width);
    }
  }

  /** What a conversion reads: white space is passed over, a sign is heeded, and digits are taken up to the width. */
  lemma ScanMeans(space: string, sign: string, digits: string, rest: string, width: int)
    requires (forall c :: c in space ==> IsSpace(c)) && (sign == "" || sign == "-" || sign == "+")
    requires digits != "" && AllDigits(digits) && |sign| + |digits| <= width
    requires |sign| + |digits| == width || rest == "" || !IsDigit(rest[0])
    ensures ScanInt(space + (sign + (digits + rest)), width) ==
            Some((if sign == "-" then -Value(digits) else Value(digits), rest))
  {
    var u := digits + rest;
    hide ScanInt, Value, DigitRun, IsSpace;
    DigitRunIs(digits, rest, width - |sign|);
    assert IsDigit(u[0]);
    StartsWell(sign, u);
    assert u[..|digits|] == digits && u[|digits|..] == rest by { hide AllDigits, IsDigit; }
    hide AllDigits, IsDigit;
    ScanSign(sign, u, width);
    ScanSkips(space, sign + u, width);
  }

  /** A zero-padded column is read back exactly, whatever follows it. */
  lemma ScanZeroPadded(n: int, width: nat, rest: string)
    requires FitsColumn(n, width)
    ensures ScanInt(ZeroPadded(n, width) + rest, width) == Some((n, rest))
  {
    hide ScanInt, DigitRun, Value, Natural;
    if n < 0 {
      var zeros := Repeat('0', width - 1 - |Natural(-n)|);
      var digits := zeros + Natural(-n);
      ValueOfNatural(-n);
      ValueOfZeros(|zeros|, Natural(-n));
      assert zeros == Repeat('0', |zeros|);
      DigitRunIs(digits, rest, width - 1);
      ScanMinus(digits + rest, width);
      assert (digits + rest)[..|digits|] == digits && (digits + rest)[|digits|..] == rest;
      assert ZeroPadded(n, width) + rest == "-" + (digits + rest);
    } else {
      var zeros := Repeat('0', width - |Natural(n)|);
      var digits := zeros + Natural(n);
      ValueOfNatural(n);
      ValueOfZeros(|zeros|, Natural(n));
      assert zeros == Repeat('0', |zeros|);
      DigitRunIs(digits, rest, width);
      ScanUnsigned(digits + rest, width);
      assert (digits + rest)[..|digits|] == digits && (digits + rest)[|digits|..] == rest;
    }
  }

  /** The number n with the given digits written behind it. */
  function Extended(n: int, more: string): int {
    if n < 0 then -Value(Natural(-n) + more) else Value(Natural(n) + more)
  }

  /** Writing digits behind a number changes it, unless they are zeros behind a zero. */
  lemma ExtendedSame(n: int, more: string)
    requires AllDigits(more)
    ensures Extended(n, more) == n <==> more == "" || (n == 0 && Value(more) == 0)
  {
    hide Natural, Value, Pow10;
    var m := if n < 0 then -n else n;
    ValueAppend(Natural(m), more);
    ValueOfNatural(m);
    DigitsOfValue(more);
    if more != "" {
      TenAtLeast(|more|);
      Scaled(m, Pow10(|more|), Value(more));
    } else {
      assert Natural(m) + more == Natural(m);
    }
  }

  lemma TenAtLeast(k: nat)
    requires k > 0
    ensures Pow10(k) >= 10
  {
  }

  lemma Scaled(m: nat, p: int, v: int)
    requires p >= 10 && v >= 0
    ensures m * p + v == m <==> m == 0 && v == 0
  {
    if m > 0 {
      assert m * p >= m * 10;
    }
  }

  lemma SplitRun(digits: string, rest: string, e: nat)
    requires e <= |rest|
    ensures var t := digits + rest; var k := |digits| + e; t[..k] == digits + rest[..e] && t[k..] == rest[e..]
  {
  }

  /** A number is read together with the digits that follow it, up to the width. */
  lemma ScanNumber(n: int, width: nat, rest: string)
    requires |Printed(n)| <= width
    ensures var extra := DigitRun(rest, width - |Printed(n)|);
            ScanInt(Printed(n) + rest, width) == Some((Extended(n, rest[..extra]), rest[extra..]))
  {
    hide ScanInt, DigitRun, Value, Natural;
    var more := width - |Printed(n)|;
    if n < 0 {
      ScanDigits(Natural(-n), rest, more);
      ScanMinus(Natural(-n) + rest, width);
      assert Printed(n) + rest == "-" + (Natural(-n) + rest);
    } else {
      ScanDigits(Natural(n), rest, more);
      ScanUnsigned(Natural(n) + rest, width);
    }
  }

  lemma ScanDigits(digits: string, rest: string, more: nat)
    requires digits != "" && AllDigits(digits)
    ensures var t := digits + rest; var e := DigitRun(rest, more); var k := DigitRun(t, |digits| + more);
            && IsDigit(t[0]) && k == |digits| + e && t[..k] == digits + rest[..e] && t[k..] == rest[e..]
  {
    hide DigitRun;
    LongerRun(digits, rest, more);
    SplitRun(digits, rest, DigitRun(rest, more));
  }

  /** Blanks are skipped before the width is counted, so a blank-padded column can draw in what follows it. */
  lemma ScanBlankPadded(n: int, width: nat, rest: string)
    requires |Printed(n)| <= width
    ensures ScanInt(BlankPadded(n, width) + rest, width) == ScanInt(Printed(n) + rest, width)
  {
    var blanks, t := width - |Printed(n)|, Printed(n) + rest;
    assert BlankPadded(n, width) + rest == Repeat(' ', blanks) + t;
    SkipBlanks(blanks, t);
    assert SkipSpace(t) == t;
  }

  lemma {:induction false} LongerRun(digits: string, rest: string, more: nat)
    requires AllDigits(digits)
    ensures DigitRun(digits + rest, |digits| + more) == |digits| + DigitRun(rest, more)
  {
    var s := digits + rest;
    if digits != "" {
      assert s[1..] == digits[1..] + rest;
      LongerRun(digits[1..], rest, more);
    } else {
      assert s == rest;
    }
  }
}
