/**
 * Dates as the store keeps them, `YYYY-MM-DD` text. The expiry checks
 * compare such texts with Python's `<` on strings; this module shows that,
 * on well-formed dates, that comparison is the order of (year, month, day).
 */
module Dates {
  import opened Text

  predicate IsDigit(c: char) { '0' <= c <= '9' }

  /** The value of a digit; any other character weighs nothing. */
  function Weight(c: char): (w: nat)
    ensures w <= 9
    ensures IsDigit(c) ==> w == c as int - '0' as int
  {
    if IsDigit(c) then c as int - '0' as int else 0
  }

  function Pow10(n: nat): (p: nat)
    ensures p >= 1
  {
    if n == 0 then 1 else 10 * Pow10(n - 1)
  }

  /** The text read as a decimal numeral, non-digits counting as zeros. */
  function Numeral(s: string): nat {
    if s == [] then 0 else Weight(s[0]) * Pow10(|s| - 1) + Numeral(s[1..])
  }

  /** Multiplying by the same natural keeps `<=`. */
  lemma {:induction false} ScaleMonotone(x: nat, y: nat, p: nat)
    requires x <= y
    ensures x * p <= y * p
    decreases p
  {
    if p > 0 {
      ScaleMonotone(x, y, p - 1);
      assert x * p == x * (p - 1) + x;
      assert y * p == y * (p - 1) + y;
    }
  }

  lemma {:induction false} NumeralBound(s: string)
    ensures Numeral(s) < Pow10(|s|)
  {
    if s != [] {
      NumeralBound(s[1..]);
      var p := Pow10(|s| - 1);
      ScaleMonotone(Weight(s[0]), 9, p);
      assert Pow10(|s|) == 10 * p;
    }
  }

  /** At every position both texts hold a digit, or the same character. */
  predicate Aligned(a: string, b: string)
    requires |a| == |b|
  {
    forall k :: 0 <= k < |a| ==> (IsDigit(a[k]) && IsDigit(b[k])) || a[k] == b[k]
  }

  /**
   * On aligned texts of equal length, comparing as strings is comparing as
   * numerals.
   */
  lemma {:induction false} LexLessIsNumeric(a: string, b: string)
    requires |a| == |b| && Aligned(a, b)
    ensures LexLess(a, b) <==> Numeral(a) < Numeral(b)
  {
    if a != [] {
      var p := Pow10(|a| - 1);
      NumeralBound(a[1..]);
      NumeralBound(b[1..]);
      if a[0] == b[0] {
        assert Aligned(a[1..], b[1..]) by {
          forall k | 0 <= k < |a| - 1 ensures (IsDigit(a[1..][k]) && IsDigit(b[1..][k])) || a[1..][k] == b[1..][k] {
            assert a[1..][k] == a[k + 1] && b[1..][k] == b[k + 1];
          }
        }
        LexLessIsNumeric(a[1..], b[1..]);
      } else {
        assert IsDigit(a[0]) && IsDigit(b[0]);
        var wa, wb := Weight(a[0]), Weight(b[0]);
        if wa < wb {
          FirstDigitDecides(a, b, p);
        } else {
          FirstDigitDecides(b, a, p);
        }
      }
    }
  }

  /** A smaller factor is smaller by at least one more multiple. */
  lemma {:induction false} ScaleGap(x: nat, y: nat, p: nat)
    requires x < y
    ensures x * p + p <= y * p
    decreases p
  {
    if p > 0 {
      ScaleGap(x, y, p - 1);
      assert x * p == x * (p - 1) + x;
      assert y * p == y * (p - 1) + y;
    }
  }

  /** A smaller leading digit makes the smaller numeral, whatever follows. */
  lemma FirstDigitDecides(a: string, b: string, p: nat)
    requires |a| == |b| > 0 && p == Pow10(|a| - 1)
    requires Numeral(a[1..]) < p && Weight(a[0]) < Weight(b[0])
    ensures Numeral(a) < Numeral(b)
  {
    ScaleGap(Weight(a[0]), Weight(b[0]), p);
  }

  /** A `YYYY-MM-DD` text: ten characters, dashes at positions 4 and 7, digits elsewhere. */
  predicate IsIsoDate(s: string) {
    && |s| == 10 && s[4] == '-' && s[7] == '-'
    && IsDigit(s[0]) && IsDigit(s[1]) && IsDigit(s[2]) && IsDigit(s[3])
    && IsDigit(s[5]) && IsDigit(s[6]) && IsDigit(s[8]) && IsDigit(s[9])
  }

  function Year(s: string): nat
    requires IsIsoDate(s)
  {
    1000 * Weight(s[0]) + 100 * Weight(s[1]) + 10 * Weight(s[2]) + Weight(s[3])
  }

  function Month(s: string): nat
    requires IsIsoDate(s)
  {
    10 * Weight(s[5]) + Weight(s[6])
  }

  function Day(s: string): nat
    requires IsIsoDate(s)
  {
    10 * Weight(s[8]) + Weight(s[9])
  }

  /** (year, month, day) ordered lexicographically. */
  predicate Before(a: string, b: string)
    requires IsIsoDate(a) && IsIsoDate(b)
  {
    || Year(a) < Year(b)
    || (Year(a) == Year(b) && Month(a) < Month(b))
    || (Year(a) == Year(b) && Month(a) == Month(b) && Day(a) < Day(b))
  }

  /** The numeral of a date: the year, month and day in their decimal places. */
  lemma DateNumeral(s: string)
    requires IsIsoDate(s)
    ensures Numeral(s) == Year(s) * 1000000 + Month(s) * 1000 + Day(s)
  {
    var w := seq(10, k requires 0 <= k < 10 => Weight(s[k]));
    assert Numeral(s[9..]) == w[9] by {
      assert s[9..][1..] == [];
    }
    assert Numeral(s[8..]) == w[8] * 10 + w[9] by {
      assert s[8..][1..] == s[9..];
    }
    assert Numeral(s[7..]) == w[8] * 10 + w[9] by {
      assert s[7..][1..] == s[8..];
    }
    assert Numeral(s[6..]) == w[6] * 1000 + w[8] * 10 + w[9] by {
      assert s[6..][1..] == s[7..];
      assert Pow10(3) == 1000;
    }
    assert Numeral(s[5..]) == w[5] * 10000 + w[6] * 1000 + w[8] * 10 + w[9] by {
      assert s[5..][1..] == s[6..];
      assert Pow10(4) == 10000;
    }
    assert Numeral(s[4..]) == Numeral(s[5..]) by {
      assert s[4..][1..] == s[5..];
    }
    assert Numeral(s[3..]) == w[3] * 1000000 + Numeral(s[4..]) by {
      assert s[3..][1..] == s[4..];
      assert Pow10(6) == 1000000;
    }
    assert Numeral(s[2..]) == w[2] * 10000000 + Numeral(s[3..]) by {
      assert s[2..][1..] == s[3..];
      assert Pow10(7) == 10000000;
    }
    assert Numeral(s[1..]) == w[1] * 100000000 + Numeral(s[2..]) by {
      assert s[1..][1..] == s[2..];
      assert Pow10(8) == 100000000;
    }
    assert Numeral(s) == w[0] * 1000000000 + Numeral(s[1..]) by {
      assert Pow10(9) == 1000000000;
    }
  }

  /**
   * Comparing two `YYYY-MM-DD` texts as strings orders them by year, then
   * month, then day, which is the calendar order.
   */
  lemma IsoDateOrder(a: string, b: string)
    requires IsIsoDate(a) && IsIsoDate(b)
    ensures LexLess(a, b) <==> Before(a, b)
  {
    assert Aligned(a, b);
    LexLessIsNumeric(a, b);
    DateNumeral(a);
    DateNumeral(b);
  }
}
