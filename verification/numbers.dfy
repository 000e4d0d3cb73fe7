/** Numeric cleanup of scraped text (`RateSource.getFloat`): every character
    outside `[0-9.]` is removed, then what is left is parsed as a decimal
    number. After the cleanup no sign, exponent, letter or underscore can
    remain, so `strconv.ParseFloat` accepts the text exactly when it holds at
    least one digit and at most one decimal point. Values are exact reals. */
module Numbers {
  import opened Wrappers
  import opened Errors

  predicate IsDigit(c: char) {
    '0' <= c <= '9'
  }

  /** The characters the pattern `[^0-9.]` does not match. */
  predicate IsNumChar(c: char) {
    IsDigit(c) || c == '.'
  }

  predicate AllNumeric(t: string) {
    forall i :: 0 <= i < |t| ==> IsNumChar(t[i])
  }

  predicate AllDigits(t: string) {
    forall i :: 0 <= i < |t| ==> IsDigit(t[i])
  }

  /** `regexp.MustCompile("[^0-9.]").ReplaceAllString(s, "")`. */
  function Clean(s: string): (t: string)
    ensures |t| <= |s|
    ensures AllNumeric(t)
  {
    if s == [] then [] else Keep(s[0]) + Clean(s[1..])
  }

  /** What the replacement leaves of one character. */
  function Keep(c: char): string {
    if IsNumChar(c) then [c] else []
  }

  /** Cleaning works character by character: it distributes over concatenation,
      so it keeps the numeric characters in their original order. */
  lemma {:induction false} CleanConcat(a: string, b: string)
    ensures Clean(a + b) == Clean(a) + Clean(b)
  {
    if a != [] {
      assert (a + b)[0] == a[0];
      assert (a + b)[1..] == a[1..] + b;
      CleanConcat(a[1..], b);
    } else {
      assert a + b == b;
    }
  }

  /** Only digits and points survive the cleanup, and text made of them alone is left as it is. */
  lemma {:induction false} CleanKeepsExactlyNumeric(s: string)
    ensures AllNumeric(Clean(s))
    ensures AllNumeric(s) ==> Clean(s) == s
  {
    if s != [] {
      CleanKeepsExactlyNumeric(s[1..]);
      assert AllNumeric(s) ==> AllNumeric(s[1..]);
    }
  }

  /** Cleaning is idempotent. */
  lemma CleanIdempotent(s: string)
    ensures Clean(Clean(s)) == Clean(s)
  {
    CleanKeepsExactlyNumeric(s);
    CleanKeepsExactlyNumeric(Clean(s));
  }

  function DotCount(t: string): nat {
    if t == [] then 0 else DotCount(t[..|t| - 1]) + (if t[|t| - 1] == '.' then 1 else 0)
  }

  function DigitCount(t: string): nat {
    if t == [] then 0 else DigitCount(t[..|t| - 1]) + (if IsDigit(t[|t| - 1]) then 1 else 0)
  }

  function DigitValue(c: char): nat
    requires IsDigit(c)
  {
    c as int - '0' as int
  }

  function Pow10(n: nat): (p: nat)
    ensures p >= 1
  {
    if n == 0 then 1 else 10 * Pow10(n - 1)
  }

  /** The digits of `t`, read as one natural number with the point ignored
      (the mantissa `readFloat` accumulates). */
  function Mantissa(t: string): nat {
    if t == [] then 0
    else
      var m := Mantissa(t[..|t| - 1]);
      if IsDigit(t[|t| - 1]) then m * 10 + DigitValue(t[|t| - 1]) else m
  }

  /** The number of digits after the first point (the decimal exponent, negated). */
  function FracDigits(t: string): nat {
    if t == [] then 0
    else FracDigits(t[..|t| - 1]) + (if IsDigit(t[|t| - 1]) && '.' in t[..|t| - 1] then 1 else 0)
  }

  /** `strconv.ParseFloat(t, 64)` on text that only holds digits and points. */
  function ParseFloat(t: string): (r: Result<real, Error>)
    requires AllNumeric(t)
    ensures r.Success? <==> DigitCount(t) > 0 && DotCount(t) <= 1
    ensures r.Failure? ==> r.error == SyntaxError(t)
  {
    if DigitCount(t) == 0 || DotCount(t) > 1 then Failure(SyntaxError(t))
    else Success(Mantissa(t) as real / Pow10(FracDigits(t)) as real)
  }

  /** `RateSource.getFloat`: fails exactly when the cleaned text has no digit
      or more than one point, reporting that text; otherwise a value that is
      never negative, because no sign survives the cleanup. */
  function GetFloat(s: string): (r: Result<real, Error>)
    ensures r.Success? <==> DigitCount(Clean(s)) > 0 && DotCount(Clean(s)) <= 1
    ensures r.Failure? ==> r.error == SyntaxError(Clean(s))
    ensures r.Success? ==> r.value >= 0.0
  {
    CleanKeepsExactlyNumeric(s);
    ParseFloat(Clean(s))
  }

  /** `getFloat` only sees the cleaned text: pre-cleaning its input changes nothing. */
  lemma GetFloatSeesOnlyCleanedText(s: string)
    ensures GetFloat(s) == GetFloat(Clean(s))
  {
    CleanIdempotent(s);
  }

  // ---------------------------------------------------------------------------
  // Reference reading: integer part plus fraction
  // ---------------------------------------------------------------------------

  lemma {:induction false} PrefixOfAppend(t: string, c: char)
    ensures (t + [c])[..|t|] == t
    ensures (t + [c])[|t|] == c
  {
  }

  lemma ShiftStep(m: nat, p: nat, x: nat, d: nat)
    ensures (m * p + x) * 10 + d == m * (10 * p) + (x * 10 + d)
  {
  }

  /** Appending digits shifts the mantissa left by their count. */
  lemma {:induction false} MantissaConcat(a: string, x: string)
    ensures Mantissa(a + x) == Mantissa(a) * Pow10(DigitCount(x)) + Mantissa(x)
    decreases |x|
  {
    if x == [] {
      assert a + x == a;
    } else {
      var x' := x[..|x| - 1];
      var c := x[|x| - 1];
      assert x == x' + [c];
      assert a + x == (a + x') + [c];
      PrefixOfAppend(a + x', c);
      PrefixOfAppend(x', c);
      MantissaConcat(a, x');
      if IsDigit(c) {
        assert Mantissa(a + x) == Mantissa(a + x') * 10 + DigitValue(c);
        assert Mantissa(x) == Mantissa(x') * 10 + DigitValue(c);
        assert Pow10(DigitCount(x)) == 10 * Pow10(DigitCount(x'));
        ShiftStep(Mantissa(a), Pow10(DigitCount(x')), Mantissa(x'), DigitValue(c));
      }
    }
  }

  lemma {:induction false} AllDigitsCounts(b: string)
    requires AllDigits(b)
    ensures DigitCount(b) == |b|
    ensures DotCount(b) == 0
    ensures '.' !in b
  {
    if b != [] {
      AllDigitsCounts(b[..|b| - 1]);
    }
  }

  /** After a point, every further digit is a fraction digit. */
  lemma {:induction false} FracDigitsAfterPoint(a: string, b: string)
    requires '.' !in a
    requires AllDigits(b)
    ensures FracDigits(a + ['.'] + b) == |b|
    ensures FracDigits(a) == 0
    decreases |b|
  {
    NoPointNoFraction(a);
    if b == [] {
      var t := a + ['.'];
      PrefixOfAppend(a, '.');
      assert a + ['.'] + b == t;
    } else {
      var b' := b[..|b| - 1];
      var c := b[|b| - 1];
      FracDigitsAfterPoint(a, b');
      assert a + ['.'] + b == (a + ['.'] + b') + [c];
      PrefixOfAppend(a + ['.'] + b', c);
      assert (a + ['.'] + b')[|a|] == '.';
    }
  }

  lemma {:induction false} NoPointNoFraction(a: string)
    requires '.' !in a
    ensures FracDigits(a) == 0
  {
    if a != [] {
      assert '.' !in a[..|a| - 1];
      NoPointNoFraction(a[..|a| - 1]);
    }
  }

  lemma {:induction false} CountsOfConcat(a: string, b: string)
    ensures DotCount(a + b) == DotCount(a) + DotCount(b)
    ensures DigitCount(a + b) == DigitCount(a) + DigitCount(b)
    decreases |b|
  {
    if b == [] {
      assert a + b == a;
    } else {
      var b' := b[..|b| - 1];
      var c := b[|b| - 1];
      assert a + b == (a + b') + [c];
      PrefixOfAppend(a + b', c);
      PrefixOfAppend(b', c);
      assert b == b' + [c];
      CountsOfConcat(a, b');
    }
  }

  lemma PointCounts()
    ensures DotCount(".") == 1 && DigitCount(".") == 0 && Mantissa(".") == 0
  {
    assert "."[..0] == "";
  }

  /** The counts `ParseFloat` looks at, for a digit run, a point and a digit run. */
  lemma {:induction false} DecimalCounts(intPart: string, frac: string)
    requires AllDigits(intPart) && AllDigits(frac)
    ensures AllNumeric(intPart + "." + frac)
    ensures DotCount(intPart + "." + frac) == 1
    ensures DigitCount(intPart + "." + frac) == |intPart| + |frac|
    ensures FracDigits(intPart + "." + frac) == |frac|
  {
    var head := intPart + ".";
    var t := head + frac;
    forall i | 0 <= i < |t|
      ensures IsNumChar(t[i])
    {
      if i < |intPart| {
        assert t[i] == intPart[i];
      } else if i > |intPart| {
        assert t[i] == frac[i - |intPart| - 1];
      }
    }
    AllDigitsCounts(intPart);
    AllDigitsCounts(frac);
    PointCounts();
    CountsOfConcat(intPart, ".");
    CountsOfConcat(head, frac);
    FracDigitsAfterPoint(intPart, frac);
  }

  /** The mantissa of `int.frac` is the integer part shifted by the fraction's length, plus the fraction. */
  lemma DecimalMantissa(intPart: string, frac: string)
    requires AllDigits(intPart) && AllDigits(frac)
    ensures Mantissa(intPart + "." + frac) == Mantissa(intPart) * Pow10(|frac|) + Mantissa(frac)
  {
    var head := intPart + ".";
    AllDigitsCounts(frac);
    PointCounts();
    MantissaConcat(intPart, ".");
    assert Mantissa(head) == Mantissa(intPart);
    MantissaConcat(head, frac);
  }

  /** A decimal `int.frac` made of digits, with a digit somewhere, reads as the
      integer written by all its digits over ten to the number of fraction
      digits; that integer is the integer part shifted left by the fraction's
      length plus the fraction. */
  lemma GetFloatReadsDecimal(intPart: string, frac: string)
    requires AllDigits(intPart) && AllDigits(frac)
    requires |intPart| + |frac| > 0
    ensures GetFloat(intPart + "." + frac) ==
              Success(Mantissa(intPart + "." + frac) as real / Pow10(|frac|) as real)
    ensures Mantissa(intPart + "." + frac) == Mantissa(intPart) * Pow10(|frac|) + Mantissa(frac)
  {
    DecimalIsParsed(intPart, frac);
    DecimalMantissa(intPart, frac);
  }

  lemma DecimalIsParsed(intPart: string, frac: string)
    requires AllDigits(intPart) && AllDigits(frac)
    requires |intPart| + |frac| > 0
    ensures GetFloat(intPart + "." + frac) ==
              Success(Mantissa(intPart + "." + frac) as real / Pow10(|frac|) as real)
  {
    DecimalCounts(intPart, frac);
    GetFloatOfNumeric(intPart + "." + frac);
  }

  /** On text that is already clean, `getFloat` is the plain parse. */
  lemma GetFloatOfNumeric(t: string)
    requires AllNumeric(t)
    ensures GetFloat(t) == ParseFloat(t)
  {
    CleanKeepsExactlyNumeric(t);
  }

  /** Text with a second point is refused, whatever digits surround the points. */
  lemma GetFloatRefusesTwoPoints(a: string, b: string, c: string)
    requires AllDigits(a) && AllDigits(b) && AllDigits(c)
    ensures GetFloat(a + "." + b + "." + c) == Failure(SyntaxError(a + "." + b + "." + c))
  {
    var first := a + "." + b;
    var tail := "." + c;
    var t := first + tail;
    DecimalCounts(a, b);
    DecimalCounts("", c);
    assert "" + "." + c == tail;
    assert t == a + "." + b + "." + c;
    forall i | 0 <= i < |t|
      ensures IsNumChar(t[i])
    {
      if i < |first| {
        assert t[i] == first[i];
      } else {
        assert t[i] == tail[i - |first|];
      }
    }
    CleanKeepsExactlyNumeric(t);
    CountsOfConcat(first, tail);
  }

  // ---------------------------------------------------------------------------
  // Plain decimal integers read back unchanged
  // ---------------------------------------------------------------------------

  function DigitChar(d: nat): (c: char)
    requires d < 10
    ensures IsDigit(c) && DigitValue(c) == d
  {
    ('0' as int + d) as char
  }

  /** The plain decimal text of a natural number, without leading zeros. */
  function NatText(n: nat): (t: string)
    ensures AllDigits(t) && |t| >= 1
  {
    if n < 10 then [DigitChar(n)] else NatText(n / 10) + [DigitChar(n % 10)]
  }

  lemma {:induction false} MantissaOfNatText(n: nat)
    ensures Mantissa(NatText(n)) == n
  {
    if n >= 10 {
      MantissaOfNatText(n / 10);
      PrefixOfAppend(NatText(n / 10), DigitChar(n % 10));
    } else {
      assert NatText(n)[..0] == [];
    }
  }

  /** Text made only of digits reads as the integer those digits write,
      leading zeros included. */
  lemma GetFloatReadsDigits(t: string)
    requires AllDigits(t) && t != []
    ensures GetFloat(t) == Success(Mantissa(t) as real)
  {
    DigitsParse(t);
    GetFloatOfNumeric(t);
  }

  lemma DigitsParse(t: string)
    requires AllDigits(t) && t != []
    ensures AllNumeric(t)
    ensures ParseFloat(t) == Success(Mantissa(t) as real)
  {
    AllDigitsCounts(t);
    NoPointNoFraction(t);
    assert Pow10(0) == 1;
  }

  /** A natural number printed in plain decimal is read back as itself. */
  lemma GetFloatReadsNatText(n: nat)
    ensures GetFloat(NatText(n)) == Success(n as real)
  {
    GetFloatReadsDigits(NatText(n));
    MantissaOfNatText(n);
  }

  /** Leading zeros do not change the value. */
  lemma GetFloatReadsLeadingZeros()
    ensures GetFloat("0042") == Success(42.0)
  {
    var t := "0042";
    assert t[..3] == "004" && "004"[..2] == "00" && "00"[..1] == "0" && "0"[..0] == "";
    GetFloatReadsDigits(t);
  }

  predicate NoNumChar(j: string) {
    forall i :: 0 <= i < |j| ==> !IsNumChar(j[i])
  }

  lemma {:induction false} CleanDropsJunk(j: string)
    requires NoNumChar(j)
    ensures Clean(j) == []
  {
    if j != [] {
      CleanDropsJunk(j[1..]);
    }
  }

  /** Junk around and between numeric runs disappears; the runs are glued together. */
  lemma {:induction false} CleanJoinsNumericRuns(j1: string, a: string, j2: string, b: string, j3: string)
    requires NoNumChar(j1) && NoNumChar(j2) && NoNumChar(j3)
    requires AllNumeric(a) && AllNumeric(b)
    ensures Clean(j1 + a + j2 + b + j3) == a + b
  {
    CleanDropsJunk(j1);
    CleanDropsJunk(j2);
    CleanDropsJunk(j3);
    CleanKeepsExactlyNumeric(a);
    CleanKeepsExactlyNumeric(b);
    var x1 := j1 + a;
    var x2 := x1 + j2;
    var x3 := x2 + b;
    CleanConcat(j1, a);
    assert Clean(x1) == a;
    CleanConcat(x1, j2);
    assert Clean(x2) == a;
    CleanConcat(x2, b);
    assert Clean(x3) == a + b;
    CleanConcat(x3, j3);
  }

  lemma PriceMantissas()
    ensures Mantissa("1234") == 1234 && Mantissa("56") == 56
  {
    assert "1234"[..3] == "123";
    assert "123"[..2] == "12";
    assert "12"[..1] == "1";
    assert "1"[..0] == "";
    assert "56"[..1] == "5";
    assert "5"[..0] == "";
  }

  lemma CleanPrice(s: string)
    requires s == "$1,234.56 USD"
    ensures Clean(s) == "1234" + "." + "56"
  {
    assert s == "$" + "1" + "," + "234.56" + " USD";
    CleanJoinsNumericRuns("$", "1", ",", "234.56", " USD");
    assert "1" + "234.56" == "1234" + "." + "56";
  }

  /** The cleanup example: currency sign, grouping comma and unit go. The
      text is a parameter fixed by the precondition, because a literal
      argument to `GetFloat` in the conclusion is unfolded eagerly. */
  lemma GetFloatReadsPrice(s: string)
    requires s == "$1,234.56 USD"
    ensures GetFloat(s) == Success(1234.56)
  {
    CleanPrice(s);
    GetFloatSeesOnlyCleanedText(s);
    GetFloatReadsDecimal("1234", "56");
    PriceMantissas();
  }

  /** Text without any digit is refused. */
  lemma GetFloatRefusesNoDigits()
    ensures GetFloat("n/a") == Failure(SyntaxError(""))
  {
    CleanDropsJunk("n/a");
  }

}
