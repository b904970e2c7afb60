/**
 The text of a decimal (`str` as security/hashchain.py uses it) read back: it
 loses nothing, so the hashed bytes tell any two different numbers apart.
 */
module DecimalNotation {
  import opened Canonical
  import opened JsonText

  // ------------------------------------------------------------ cutting a text

  ghost predicate Free(s: string, c: char)
  {
    forall i :: 0 <= i < |s| ==> s[i] != c
  }

  /** What stands before the first `c`. */
  function Head(s: string, c: char): string
  {
    if s == [] || s[0] == c then "" else [s[0]] + Head(s[1..], c)
  }

  /** What stands behind the first `c`; empty without one. */
  function Tail(s: string, c: char): string
  {
    if s == [] then "" else if s[0] == c then s[1..] else Tail(s[1..], c)
  }

  lemma {:induction false} Uncut(s: string, c: char)
    requires Free(s, c)
    ensures Head(s, c) == s && Tail(s, c) == ""
  {
    if s != [] { Uncut(s[1..], c); }
  }

  lemma {:induction false} Cut(s: string, c: char, rest: string)
    requires Free(s, c)
    ensures Head(s + [c] + rest, c) == s && Tail(s + [c] + rest, c) == rest
  {
    var all := s + [c] + rest;
    if s == [] {
      assert all[0] == c && all[1..] == rest;
    } else {
      assert all[0] == s[0] && all[1..] == s[1..] + [c] + rest;
      Cut(s[1..], c, rest);
    }
  }

  // ------------------------------------------------------------------- reading

  function ReadExponent(s: string): int
  {
    if s == "" then 0
    else if s[0] == '+' then Read(s[1..])
    else if s[0] == '-' then -Read(s[1..])
    else Read(s)
  }

  function ReadUnsigned(negative: bool, s: string): Decimal
  {
    var mantissa := Head(s, 'E');
    var fraction := Tail(mantissa, '.');
    var digits := Read(Head(mantissa, '.') + fraction);
    Decimal(negative, if digits < 0 then 0 else digits, ReadExponent(Tail(s, 'E')) - |fraction|)
  }

  /** Python's `Decimal(text)`. */
  function ReadDecimal(s: string): Decimal
  {
    if s != "" && s[0] == '-' then ReadUnsigned(true, s[1..]) else ReadUnsigned(false, s)
  }

  ghost predicate AllDigits(s: string)
  {
    forall i :: 0 <= i < |s| ==> IsDigit(s[i])
  }

  lemma DigitsAreFree(s: string)
    requires AllDigits(s)
    ensures Free(s, 'E') && Free(s, '.')
  {
  }

  /** Whole digits, the fraction's digits and an exponent, in the notation's three shapes. */
  lemma ReadParts(negative: bool, whole: string, fraction: string, exponent: string)
    requires AllDigits(whole) && AllDigits(fraction)
    ensures ReadUnsigned(negative, Assembled(whole, fraction, exponent))
            == var digits := Read(whole + fraction);
               Decimal(negative, if digits < 0 then 0 else digits, ReadExponent(exponent) - |fraction|)
  {
    hide Read;
    hide ReadExponent;
    var mantissa := whole + if fraction == "" then "" else "." + fraction;
    var s := mantissa + if exponent == "" then "" else "E" + exponent;
    MantissaIsCut(whole, fraction);
    assert Head(s, 'E') == mantissa && Tail(s, 'E') == exponent by {
      if exponent == "" {
        assert s == mantissa;
        Uncut(mantissa, 'E');
      } else {
        assert s == mantissa + ['E'] + exponent;
        Cut(mantissa, 'E', exponent);
      }
    }
  }

  lemma MantissaIsCut(whole: string, fraction: string)
    requires AllDigits(whole) && AllDigits(fraction)
    ensures var mantissa := whole + if fraction == "" then "" else "." + fraction;
      Free(mantissa, 'E') && Head(mantissa, '.') == whole && Tail(mantissa, '.') == fraction
  {
    DigitsAreFree(whole);
    DigitsAreFree(fraction);
    if fraction == "" {
      assert whole + "" == whole;
      Uncut(whole, '.');
    } else {
      assert whole + ("." + fraction) == whole + ['.'] + fraction;
      Cut(whole, '.', fraction);
    }
  }

  lemma {:induction false} LeadingZeros(k: nat, s: string)
    ensures Read(Zeros(k) + s) == Read(s) && AllDigits(Zeros(k)) && |Zeros(k)| == k
    decreases k, |s|
  {
    if s != [] {
      LeadingZeros(k, s[..|s| - 1]);
      assert (Zeros(k) + s)[..|Zeros(k) + s| - 1] == Zeros(k) + s[..|s| - 1];
    } else if k > 0 {
      LeadingZeros(k - 1, []);
      ZerosEndInZero(k);
      assert Zeros(k) + [] == Zeros(k) && Zeros(k - 1) + [] == Zeros(k - 1);
    }
  }

  lemma {:induction false} ZerosEndInZero(k: nat)
    requires k > 0
    ensures Zeros(k) == Zeros(k - 1) + "0"
  {
    if k > 1 { ZerosEndInZero(k - 1); }
  }

  lemma ExponentReads(n: int)
    ensures ReadExponent((if n < 0 then "" else "+") + IntText(n)) == n
    ensures (if n < 0 then "" else "+") + IntText(n) != ""
  {
    NatTextReads(if n < 0 then -n else n);
    IntTextHead(n);
    if n < 0 {
      assert "" + IntText(n) == IntText(n);
      assert IntText(n)[1..] == NatText(-n);
    } else {
      assert ("+" + IntText(n))[1..] == IntText(n);
    }
  }

  // ------------------------------------------------------------ the three shapes

  /** Sign apart, the text is whole digits, fraction digits and an exponent. */
  function Whole(d: Decimal): string
  {
    var body := NatText(d.digits);
    var point := d.exponent + |body|;
    if d.exponent <= 0 && point > -6 then (if point <= 0 then "0" else body[..point]) else body[..1]
  }

  function Fraction(d: Decimal): string
  {
    var body := NatText(d.digits);
    var point := d.exponent + |body|;
    if d.exponent <= 0 && point > -6 then (if point <= 0 then Zeros(-point) + body else body[point..]) else body[1..]
  }

  function Exponent(d: Decimal): string
  {
    var point := d.exponent + |NatText(d.digits)|;
    if d.exponent <= 0 && point > -6 then "" else (if point - 1 < 0 then "" else "+") + IntText(point - 1)
  }

  /** Where the point stands, counted from the first digit. */
  function Point(d: Decimal): int
  {
    d.exponent + |NatText(d.digits)|
  }

  function Assembled(whole: string, fraction: string, exponent: string): string
  {
    whole + (if fraction == "" then "" else "." + fraction) + (if exponent == "" then "" else "E" + exponent)
  }

  function Sign(d: Decimal): string
  {
    if d.negative then "-" else ""
  }

  lemma Regroup(sign: string, a: string, b: string, c: string)
    ensures sign + a + b + c == sign + (a + b + c)
    ensures sign + a + b == sign + (a + b + "")
    ensures sign + (a + b) == sign + (a + b + "")
  {
    assert sign + a + b + c == sign + (a + b + c);
    assert a + b + "" == a + b;
    assert sign + a + b == sign + (a + b);
  }

  lemma SmallShape(d: Decimal)
    requires d.exponent <= 0 && -6 < Point(d) <= 0
    ensures DecimalText(d) == Sign(d) + Assembled(Whole(d), Fraction(d), Exponent(d))
  {
    hide NatText;
    hide IntText;
    NatTextReads(d.digits);
    Regroup(Sign(d), "0", "." + Fraction(d), "");
    assert "." + Zeros(-Point(d)) + NatText(d.digits) == "." + Fraction(d);
  }

  lemma PlainShape(d: Decimal)
    requires d.exponent <= 0 && 0 < Point(d)
    ensures DecimalText(d) == Sign(d) + Assembled(Whole(d), Fraction(d), Exponent(d))
  {
    hide NatText;
    hide IntText;
    hide Zeros;
    Regroup(Sign(d), Whole(d), if Fraction(d) == "" then "" else "." + Fraction(d), "");
  }

  lemma ScientificShape(d: Decimal)
    requires !(d.exponent <= 0 && Point(d) > -6)
    ensures DecimalText(d) == Sign(d) + Assembled(Whole(d), Fraction(d), Exponent(d))
  {
    hide IntText;
    hide Zeros;
    NatTextReads(d.digits);
    ExponentReads(Point(d) - 1);
    hide NatText;
    hide Assembled;
    var mark := if Point(d) - 1 < 0 then "" else "+";
    GlueExponent(Sign(d), Whole(d), Fraction(d), mark, IntText(Point(d) - 1));
  }

  lemma GlueExponent(sign: string, whole: string, fraction: string, mark: string, exponent: string)
    requires mark + exponent != ""
    ensures sign + whole + (if fraction == "" then "" else "." + fraction) + ("E" + mark + exponent)
            == sign + Assembled(whole, fraction, mark + exponent)
  {
    var middle := if fraction == "" then "" else "." + fraction;
    assert "E" + mark + exponent == "E" + (mark + exponent);
    Regroup(sign, whole, middle, "E" + (mark + exponent));
  }

  lemma TextShape(d: Decimal)
    ensures AllDigits(Whole(d)) && AllDigits(Fraction(d))
    ensures DecimalText(d) == Sign(d) + Assembled(Whole(d), Fraction(d), Exponent(d))
  {
    PartsAreDigits(d);
    hide Whole;
    hide Fraction;
    hide Exponent;
    hide DecimalText;
    if d.exponent <= 0 && Point(d) > -6 {
      if Point(d) <= 0 { SmallShape(d); } else { PlainShape(d); }
    } else {
      ScientificShape(d);
    }
  }

  lemma PartsAreDigits(d: Decimal)
    ensures AllDigits(Whole(d)) && AllDigits(Fraction(d))
  {
    var body := NatText(d.digits);
    NatTextReads(d.digits);
    hide NatText;
    if d.exponent <= 0 && -6 < Point(d) <= 0 { LeadingZeros(-Point(d), body); }
  }

  lemma ShapeReads(d: Decimal)
    ensures Read(Whole(d) + Fraction(d)) == d.digits
    ensures ReadExponent(Exponent(d)) - |Fraction(d)| == d.exponent
  {
    var body := NatText(d.digits);
    NatTextReads(d.digits);
    hide NatText;
    hide IntText;
    hide ReadExponent;
    hide Read;
    NoExponent();
    if d.exponent <= 0 && Point(d) > -6 {
      if Point(d) <= 0 {
        SmallReads(-Point(d), body);
      } else {
        assert body[..Point(d)] + body[Point(d)..] == body;
      }
    } else {
      assert body[..1] + body[1..] == body;
      ExponentReads(Point(d) - 1);
    }
  }

  lemma SmallReads(k: nat, body: string)
    ensures Read("0" + (Zeros(k) + body)) == Read(body)
    ensures |Zeros(k) + body| == k + |body|
  {
    hide Read;
    LeadingZeros(k, body);
    LeadingZeros(k + 1, body);
    assert "0" + (Zeros(k) + body) == Zeros(k + 1) + body;
  }

  lemma NoExponent()
    ensures ReadExponent("") == 0
  {
  }

  /** Every decimal is read back from its text, coefficient and exponent alike. */
  lemma DecimalTextReadsBack(d: Decimal)
    ensures ReadDecimal(DecimalText(d)) == d
  {
    hide Whole;
    hide Fraction;
    hide Exponent;
    hide ReadUnsigned;
    hide DecimalText;
    TextShape(d);
    ShapeReads(d);
    ReadParts(d.negative, Whole(d), Fraction(d), Exponent(d));
    var unsigned := Assembled(Whole(d), Fraction(d), Exponent(d));
    if d.negative {
      assert ("-" + unsigned)[1..] == unsigned;
    } else {
      assert "" + unsigned == unsigned;
      StartsWithDigit(d);
    }
  }

  lemma StartsWithDigit(d: Decimal)
    ensures Whole(d) != "" && IsDigit(Whole(d)[0])
  {
    NatTextReads(d.digits);
  }

  /** Two decimals feed the same text to the hash exactly when they are the same number, zeros of opposite sign apart. */
  lemma TextDecidesNumber(a: Decimal, b: Decimal)
    ensures DecimalText(Normalize(a)) == DecimalText(Normalize(b))
        <==> NumericallyEqual(a, b) && !(a.digits == 0 && b.digits == 0 && a.negative != b.negative)
  {
    hide DecimalText;
    hide NumericallyEqual;
    hide Normalize;
    DecimalTextReadsBack(Normalize(a));
    DecimalTextReadsBack(Normalize(b));
    NormalFormDecidesEquality(a, b);
  }

  // ----------------------------------------------------------- plain or scientific

  lemma MarkedExactly(sign: string, whole: string, fraction: string, exponent: string)
    requires Free(sign, 'E') && Free(whole, 'E') && Free(fraction, 'E')
    ensures 'E' in sign + Assembled(whole, fraction, exponent) <==> exponent != ""
  {
    var middle := if fraction == "" then "" else "." + fraction;
    var mark := if exponent == "" then "" else "E" + exponent;
    assert Free(middle, 'E');
    assert Assembled(whole, fraction, exponent) == whole + middle + mark;
    assert 'E' in mark <==> exponent != "" by { if exponent != "" { assert mark[0] == 'E'; } }
  }

  /** The text is in scientific notation exactly for a positive exponent or more than six leading places. */
  lemma ScientificExactly(d: Decimal)
    ensures 'E' in DecimalText(d) <==> d.exponent > 0 || Point(d) <= -6
  {
    TextShape(d);
    DigitsAreFree(Whole(d));
    DigitsAreFree(Fraction(d));
    ExponentReads(Point(d) - 1);
    hide Whole;
    hide Fraction;
    hide DecimalText;
    hide IntText;
    hide NatText;
    MarkedExactly(Sign(d), Whole(d), Fraction(d), Exponent(d));
  }

  /** A number that is a whole multiple of ten, whatever exponent it is written with. */
  predicate IsMultipleOfTen(d: Decimal)
  {
    d.exponent > 0 || d.digits % TenTo(1 - d.exponent) == 0
  }

  function TenTo(k: nat): (r: nat)
    ensures r > 0
  {
    ShiftIsPositive(k);
    Shift(1, k)
  }

  lemma {:induction false} ShiftIsPositive(k: nat)
    ensures Shift(1, k) > 0
  {
    if k > 0 { ShiftIsPositive(k - 1); }
  }

  /** Dividing by ten once and then by a power is dividing by the next power. */
  lemma TenTimes(n: nat, power: nat)
    requires power > 0 && n % 10 == 0
    ensures n % (10 * power) == 0 <==> n / 10 % power == 0
  {
    var m := n / 10;
    var q, r := m / power, m % power;
    assert m == power * q + r;
    assert n == 10 * m == (10 * power) * q + 10 * r;
    RemainderIs(n, 10 * power, q, 10 * r);
  }

  lemma RemainderIs(n: nat, m: nat, q: nat, r: nat)
    requires m > 0 && n == m * q + r && r < m
    ensures n % m == r
  {
    var q', r' := n / m, n % m;
    assert n == m * q' + r';
    if q' < q { assert m * q' + m <= m * q by { Times(m, q' + 1, q); } }
    if q < q' { assert m * q + m <= m * q' by { Times(m, q + 1, q'); } }
  }

  lemma Times(m: nat, a: nat, b: nat)
    requires a <= b
    ensures m * a <= m * b
  {
  }

  lemma NotTenfold(n: nat, power: nat)
    requires power > 0 && n % 10 != 0
    ensures n % (10 * power) != 0
  {
    var q, r := n / (10 * power), n % (10 * power);
    assert n == 10 * power * q + r;
    assert n == 10 * (power * q) + r;
  }

  /** The normal form has a positive exponent exactly for multiples of ten, and the point does not move. */
  lemma {:induction false} NormalFormScale(d: Decimal)
    requires d.digits > 0
    ensures Normalize(d).exponent > 0 <==> IsMultipleOfTen(d)
    ensures Point(Normalize(d)) == Point(d)
    decreases d.digits
  {
    if d.digits % 10 == 0 {
      var r := Decimal(d.negative, d.digits / 10, d.exponent + 1);
      NormalFormScale(r);
      assert Normalize(d) == Normalize(r);
      TenthPoint(d.digits);
      if d.exponent < 0 {
        TenTimes(d.digits, TenTo(-d.exponent));
      } else if d.exponent == 0 {
        assert TenTo(1) == 10 * TenTo(0);
      }
    } else if d.exponent <= 0 {
      NotTenfold(d.digits, TenTo(-d.exponent));
    }
  }

  lemma TenthPoint(n: nat)
    requires n > 0 && n % 10 == 0
    ensures |NatText(n)| == |NatText(n / 10)| + 1
  {
  }

  /**
   The hashed text of a number is in scientific notation exactly for nonzero
   multiples of ten, whatever trailing zeros they are stored with, and for
   nonzero numbers below a millionth.
   */
  lemma HashedScientificExactly(d: Decimal)
    ensures 'E' in DecimalText(Normalize(d)) <==> d.digits > 0 && (IsMultipleOfTen(d) || Point(d) <= -6)
  {
    hide IsMultipleOfTen;
    hide DecimalText;
    ScientificExactly(Normalize(d));
    if d.digits > 0 {
      NormalFormScale(d);
    } else {
      NormalizeShape(d);
    }
  }

  /** A price of 100.00 is hashed as "1E+2", one of 1E+1 as it stands. */
  lemma HundredIsScientific()
    ensures DecimalText(Normalize(Decimal(false, 10000, -2))) == "1E+2"
    ensures DecimalText(Normalize(Decimal(false, 1, 1))) == "1E+1"
  {
    var one := Decimal(false, 1, 2);
    assert Normalize(Decimal(false, 100, 0)) == Normalize(Decimal(false, 10, 1)) == Normalize(one) == one;
    assert Normalize(Decimal(false, 10000, -2)) == Normalize(Decimal(false, 1000, -1)) == one;
    assert NatText(1) == "1" && IntText(2) == "2";
    assert DecimalText(one) == "1E+2";
  }
}
