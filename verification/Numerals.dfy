/** Decimal text: what `printf` writes for integers and what `from_chars` reads back. */
module Numerals {
  import opened Types

  predicate IsDigit(c: char) {
    '0' <= c <= '9'
  }

  predicate AllDigits(s: string) {
    forall i | 0 <= i < |s| :: IsDigit(s[i])
  }

  function DigitOf(c: char): nat
    requires IsDigit(c)
  {
    (c - '0') as int
  }

  function DigitChar(d: nat): (c: char)
    requires d < 10
    ensures IsDigit(c) && DigitOf(c) == d
  {
    '0' + d as char
  }

  /** The number a digit string denotes; the empty string denotes 0. */
  function Value(s: string): (v: int)
    requires AllDigits(s)
    ensures 0 <= v
  {
    if s == "" then 0 else 10 * Value(s[..|s| - 1]) + DigitOf(s[|s| - 1])
  }

  /** The shortest digit string of a number, as `%d` prints it. */
  function Decimal(n: nat): (s: string)
    ensures s != "" && AllDigits(s)
  {
    if n < 10 then [DigitChar(n)] else Decimal(n / 10) + [DigitChar(n % 10)]
  }

  function Zeros(n: int): (s: string)
    ensures |s| == if 0 <= n then n else 0
    ensures forall i | 0 <= i < |s| :: s[i] == '0'
  {
    if n <= 0 then "" else "0" + Zeros(n - 1)
  }

  /** `%0<width>d`, and `%+0<width>d` if `plus`: sign, zeros up to the width, digits. */
  function PrintInt(n: int, width: nat, plus: bool): string {
    var sign := if n < 0 then "-" else if plus then "+" else "";
    var digits := Decimal(if n < 0 then -n else n);
    sign + Zeros(width - |sign| - |digits|) + digits
  }

  /** `std::from_chars` for a type with range [lo, hi], accepted only if it consumes the whole text:
      an optional minus sign, at least one digit, nothing else, and a value in range. */
  function ParseInt(s: string, lo: int, hi: int): Option<int> {
    var negative := s != "" && s[0] == '-';
    var digits := if negative then s[1..] else s;
    if digits == "" || !AllDigits(digits) then None
    else
      var v: int := if negative then -Value(digits) else Value(digits);
      if lo <= v <= hi then Some(v) else None
  }

  function Pow10(n: nat): (p: nat)
    ensures p > 0
  {
    if n == 0 then 1 else 10 * Pow10(n - 1)
  }

  // ---- Facts ----

  lemma {:induction false} ValueOfDecimal(n: nat)
    ensures Value(Decimal(n)) == n
  {
    if n >= 10 {
      ValueOfDecimal(n / 10);
      var s := Decimal(n / 10);
      assert (s + [DigitChar(n % 10)])[..|s|] == s;
    }
  }

  lemma Shift(a: int, p: int)
    ensures a * (10 * p) == 10 * (a * p)
  {
  }

  lemma {:induction false} ValueOfConcat(a: string, b: string)
    requires AllDigits(a) && AllDigits(b)
    ensures AllDigits(a + b)
    ensures Value(a + b) == Value(a) * Pow10(|b|) + Value(b)
  {
    if b == "" {
      assert a + b == a;
    } else {
      var last := |b| - 1;
      assert (a + b)[..|a + b| - 1] == a + b[..last];
      ValueOfConcat(a, b[..last]);
      Shift(Value(a), Pow10(last));
    }
  }

  lemma {:induction false} ValueOfZeros(n: int)
    ensures AllDigits(Zeros(n)) && Value(Zeros(n)) == 0
    decreases if n < 0 then 0 else n
  {
    if n > 0 {
      ValueOfZeros(n - 1);
      ValueOfConcat("0", Zeros(n - 1));
      assert "0"[..0] == "";
    }
  }

  lemma {:induction false} ValueBelowPow10(s: string)
    requires AllDigits(s)
    ensures Value(s) < Pow10(|s|)
  {
    if s != "" {
      ValueBelowPow10(s[..|s| - 1]);
    }
  }

  lemma {:induction false} ValueAtLeastLeading(s: string)
    requires s != "" && AllDigits(s)
    ensures Value(s) >= DigitOf(s[0]) * Pow10(|s| - 1)
  {
    if |s| > 1 {
      ValueAtLeastLeading(s[..|s| - 1]);
      Shift(DigitOf(s[0]), Pow10(|s| - 2));
    }
  }

  lemma {:induction false} DecimalLength(n: nat, w: nat)
    requires w > 0
    ensures |Decimal(n)| <= w <==> n < Pow10(w)
    decreases w
  {
    if w == 1 {
      assert Pow10(1) == 10 * Pow10(0);
    } else if n >= 10 {
      DecimalLength(n / 10, w - 1);
    }
  }

  lemma ParseDigits(s: string, lo: int, hi: int)
    requires s != "" && AllDigits(s)
    ensures ParseInt(s, lo, hi) == if lo <= Value(s) <= hi then Some(Value(s)) else None
    ensures ParseInt("-" + s, lo, hi) == if lo <= -Value(s) <= hi then Some(-Value(s)) else None
  {
    assert ("-" + s)[1..] == s;
  }

  /** Leading zeros do not change the value. */
  lemma ValueOfPadded(zeros: int, n: nat)
    ensures Zeros(zeros) + Decimal(n) != "" && AllDigits(Zeros(zeros) + Decimal(n))
    ensures Value(Zeros(zeros) + Decimal(n)) == n
  {
    ValueOfZeros(zeros);
    ValueOfDecimal(n);
    ValueOfConcat(Zeros(zeros), Decimal(n));
  }

  lemma PrintedNonNegative(n: nat, width: nat)
    ensures PrintInt(n, width, false) == Zeros(width - |Decimal(n)|) + Decimal(n)
  {
    assert "" + Zeros(width - |Decimal(n)|) == Zeros(width - |Decimal(n)|);
  }

  lemma PrintedNegative(n: int, width: nat)
    requires n < 0
    ensures PrintInt(n, width, false) == "-" + (Zeros(width - 1 - |Decimal(-n)|) + Decimal(-n))
  {
  }

  lemma ParsePadded(zeros: int, n: nat, lo: int, hi: int)
    ensures lo <= n <= hi ==> ParseInt(Zeros(zeros) + Decimal(n), lo, hi) == Some(n)
    ensures lo <= 0 - n <= hi ==> ParseInt("-" + (Zeros(zeros) + Decimal(n)), lo, hi) == Some(0 - n)
  {
    hide ParseInt, Value, Decimal, Zeros;
    ValueOfPadded(zeros, n);
    ParseDigits(Zeros(zeros) + Decimal(n), lo, hi);
  }

  /** Whatever `printf` writes without a plus sign, `from_chars` reads back. */
  lemma ParsePrinted(n: int, width: nat, lo: int, hi: int)
    requires lo <= n <= hi
    ensures ParseInt(PrintInt(n, width, false), lo, hi) == Some(n)
  {
    hide ParseInt, PrintInt, Decimal, Zeros;
    if n < 0 {
      PrintedNegative(n, width);
      ParsePadded(width - 1 - |Decimal(-n)|, -n, lo, hi);
    } else {
      PrintedNonNegative(n, width);
      ParsePadded(width - |Decimal(n)|, n, lo, hi);
    }
  }

  lemma PrintedLength(n: int, width: nat, plus: bool)
    requires width >= 2
    ensures
      var sign := if n < 0 || plus then 1 else 0;
      |PrintInt(n, width, plus)| == width <==> (if n < 0 then -n else n) < Pow10(width - sign)
    ensures |PrintInt(n, width, plus)| >= width
  {
    var sign := if n < 0 || plus then 1 else 0;
    DecimalLength(if n < 0 then -n else n, width - sign);
  }

  // ---- Decimal fractions ----

  /** The milliseconds in the decimal fraction 0.frac, rounded down. */
  function FractionMs(frac: string): int
    requires AllDigits(frac)
  {
    Value(frac) * 1000 / Pow10(|frac|)
  }

  lemma {:induction false} FractionOfPrefix(frac: string)
    requires |frac| >= 3 && AllDigits(frac)
    ensures FractionMs(frac) == Value(frac[..3])
    decreases |frac|
  {
    var n := |frac| - 3;
    assert frac == frac[..3] + frac[3..];
    ValueOfConcat(frac[..3], frac[3..]);
    ValueBelowPow10(frac[3..]);
    PowersOfThree(n);
    QuotientOfConcat(Value(frac[..3]), Pow10(n), Value(frac[3..]));
  }

  lemma {:induction false} PowersOfThree(n: nat)
    ensures Pow10(n + 3) == 1000 * Pow10(n)
  {
    assert Pow10(n + 3) == 10 * Pow10(n + 2) == 100 * Pow10(n + 1) == 1000 * Pow10(n);
  }

  lemma QuotientOfConcat(a: int, p: int, b: int)
    requires 0 < p && 0 <= b < p && 0 <= a
    ensures (a * p + b) * 1000 / (1000 * p) == a
  {
    var q, d := (a * p + b) * 1000, 1000 * p;
    assert q == a * d + b * 1000;
    assert 0 <= b * 1000 < d;
    QuotientUnique(q, d, a, b * 1000);
  }

  lemma CancelFactor(x: int, y: int, d: int)
    requires 0 < d && x * d < y * d
    ensures x < y
  {
  }

  lemma QuotientUnique(q: int, d: int, a: int, r: int)
    requires 0 < d && 0 <= r < d && q == a * d + r
    ensures q / d == a
  {
    var e := q / d;
    assert e * d <= q < (e + 1) * d;
    CancelFactor(e, a + 1, d);
    CancelFactor(a, e + 1, d);
  }
}
