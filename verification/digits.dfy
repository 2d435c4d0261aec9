/** Decimal rendering and reading of natural numbers: `n.toString()`,
    `padStart(w, '0')` and the digit groups of a date string. */
module Digits {
  import Text

  predicate IsDigit(c: char) {
    '0' <= c <= '9'
  }

  predicate AllDigits(s: string) {
    forall i :: 0 <= i < |s| ==> IsDigit(s[i])
  }

  function DigitChar(d: nat): (c: char)
    requires d < 10
    ensures IsDigit(c)
  {
    (('0' as int) + d) as char
  }

  function DigitValue(c: char): (d: nat)
    requires IsDigit(c)
    ensures d < 10 && DigitChar(d) == c
  {
    (c as int) - ('0' as int)
  }

  function Pow10(w: nat): (p: nat)
    ensures p >= 1
  {
    if w == 0 then 1 else 10 * Pow10(w - 1)
  }

  /** The decimal digits of `n`, left-padded with '0' to at least `w`
      characters (`String(n).padStart(w, '0')`). `Decimal(n, 0)` is `String(n)`. */
  function Decimal(n: nat, w: nat): (s: string)
    ensures |s| >= 1 && |s| >= w
    ensures AllDigits(s)
    decreases n + w
  {
    if n < 10 && w <= 1 then [DigitChar(n)]
    else Decimal(n / 10, if w == 0 then 0 else w - 1) + [DigitChar(n % 10)]
  }

  /** The number a string of digits denotes. */
  function Value(s: string): nat
    requires AllDigits(s)
  {
    if |s| == 0 then 0 else 10 * Value(s[..|s| - 1]) + DigitValue(s[|s| - 1])
  }

  /** A number that fits in `w` digits is rendered with exactly `w` characters. */
  lemma {:induction false} DecimalLength(n: nat, w: nat)
    requires 1 <= w && n < Pow10(w)
    ensures |Decimal(n, w)| == w
    decreases w
  {
    if !(n < 10 && w <= 1) {
      DecimalLength(n / 10, w - 1);
    }
  }

  /** Reading back a rendered number gives the number. */
  lemma {:induction false} ValueOfDecimal(n: nat, w: nat)
    ensures Value(Decimal(n, w)) == n
    decreases n + w
  {
    if !(n < 10 && w <= 1) {
      var w' := if w == 0 then 0 else w - 1;
      var t := Decimal(n / 10, w');
      var s := t + [DigitChar(n % 10)];
      assert Decimal(n, w) == s;
      assert s[..|s| - 1] == t;
      ValueOfDecimal(n / 10, w');
      assert DigitValue(s[|s| - 1]) == n % 10;
    }
  }

  /** Rendering the number a non-empty digit string denotes, padded to the
      string's length, gives the string back. */
  lemma {:induction false} DecimalOfValue(s: string)
    requires |s| >= 1 && AllDigits(s)
    ensures Decimal(Value(s), |s|) == s
    decreases |s|
  {
    var t := s[..|s| - 1];
    if |s| > 1 {
      DecimalOfValue(t);
      assert s == t + [s[|s| - 1]];
    }
  }

  /** A digit string of length `w` denotes a number below `10^w`. */
  lemma {:induction false} ValueBound(s: string)
    requires AllDigits(s)
    ensures Value(s) < Pow10(|s|)
    decreases |s|
  {
    if |s| > 0 {
      ValueBound(s[..|s| - 1]);
    }
  }

  /** Appending a digit keeps the order of the numbers, the new digit
      deciding only between equal prefixes. */
  lemma ShiftOrder(x: nat, y: nat, d: nat, e: nat)
    requires d < 10 && e < 10
    ensures 10 * x + d < 10 * y + e <==> x < y || (x == y && d < e)
  {
    if x < y {
      assert 10 * x + 10 <= 10 * y;
    } else if y < x {
      assert 10 * y + 10 <= 10 * x;
    }
  }

  /** String order on equal lengths, decided on the last character. */
  lemma LessLast(a: string, b: string)
    requires |a| == |b| > 0
    ensures Text.Less(a, b) <==>
      || Text.Less(a[..|a| - 1], b[..|b| - 1])
      || (a[..|a| - 1] == b[..|b| - 1] && a[|a| - 1] < b[|b| - 1])
  {
    var a1, b1 := a[..|a| - 1], b[..|b| - 1];
    var ca, cb := [a[|a| - 1]], [b[|b| - 1]];
    assert a == a1 + ca && b == b1 + cb;
    Text.LessConcat(a1, ca, b1, cb);
    assert ca[1..] == [] && cb[1..] == [];
  }

  /** For digit strings of equal length, string order is numeric order. */
  lemma {:induction false} LessIffValueLess(a: string, b: string)
    requires AllDigits(a) && AllDigits(b) && |a| == |b|
    ensures Text.Less(a, b) <==> Value(a) < Value(b)
    decreases |a|
  {
    if |a| > 0 {
      var a1, b1 := a[..|a| - 1], b[..|b| - 1];
      var da, db := DigitValue(a[|a| - 1]), DigitValue(b[|b| - 1]);
      LessLast(a, b);
      LessIffValueLess(a1, b1);
      assert a1 == b1 <==> Value(a1) == Value(b1) by {
        if |a1| >= 1 {
          ValueInjective(a1, b1);
        }
      }
      assert Value(a) == 10 * Value(a1) + da && Value(b) == 10 * Value(b1) + db;
      ShiftOrder(Value(a1), Value(b1), da, db);
    }
  }

  /** Digit strings of equal length are equal exactly when their numbers are. */
  lemma ValueInjective(a: string, b: string)
    requires AllDigits(a) && AllDigits(b) && |a| == |b| && |a| >= 1
    ensures a == b <==> Value(a) == Value(b)
  {
    if Value(a) == Value(b) {
      DecimalOfValue(a);
      DecimalOfValue(b);
    }
  }
}
