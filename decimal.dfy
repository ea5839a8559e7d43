/**
 * Python's `float(s)` for decimal text: surrounding whitespace, an optional
 * sign, digits with an optional fraction, and an optional exponent.
 */
module Decimal {
  import opened Wrappers
  import opened Text
  import opened Numerals

  function Pow10(e: nat): (p: nat)
    ensures p >= 1
  {
    if e == 0 then 1 else 10 * Pow10(e - 1)
  }

  /** The digits before and after the point of `digits`, `digits.`, `digits.digits` or
      `.digits`: at least one digit in all. */
  function MantissaParts(s: string): (r: Option<(string, string)>)
    ensures r.Some? ==> AllDigits(r.value.0) && AllDigits(r.value.1) && r.value.0 + r.value.1 != []
    ensures r.Some? ==> s == r.value.0 || s == r.value.0 + "." + r.value.1
  {
    var i := DigitRun(s);
    var whole := s[..i];
    var rest := s[i..];
    if rest == [] then
      if i > 0 then assert s == whole; Some((whole, "")) else None
    else if rest[0] != '.' then None
    else
      var frac := rest[1..];
      if !AllDigits(frac) || (i == 0 && frac == []) then None
      else
        assert s == whole + "." + frac;
        Some((whole, frac))
  }

  /** The value of a mantissa. */
  function Mantissa(s: string): (r: Option<real>)
    ensures r.Some? <==> MantissaParts(s).Some?
  {
    match MantissaParts(s)
    case None => None
    case Some((whole, frac)) =>
      Some(DigitsValue(whole) as real + DigitsValue(frac) as real / Pow10(|frac|) as real)
  }

  /** A fraction of n digits is below 10^n. */
  lemma {:induction false} FractionBelowOne(frac: string)
    requires AllDigits(frac)
    ensures DigitsValue(frac) < Pow10(|frac|)
  {
    if |frac| > 0 {
      var init := frac[..|frac| - 1];
      assert AllDigits(init);
      FractionBelowOne(init);
      assert Pow10(|frac|) == 10 * Pow10(|init|);
    }
  }

  /** The value of `w.f` lies between `w` and `w + 1`: the digits after the point add less than one. */
  lemma MantissaBounds(s: string)
    requires MantissaParts(s).Some?
    ensures var whole := DigitsValue(MantissaParts(s).value.0) as real;
            whole <= Mantissa(s).value < whole + 1.0
  {
    var (whole, frac) := MantissaParts(s).value;
    FractionBelowOne(frac);
    QuotientBelowOne(DigitsValue(frac), Pow10(|frac|));
  }

  lemma QuotientBelowOne(a: nat, p: nat)
    requires a < p
    ensures 0.0 <= a as real / p as real < 1.0
  {
    var q := a as real / p as real;
    assert q * p as real == a as real;
  }

  /** The exponent after `e`/`E`: an optional sign and at least one digit. */
  function Exponent(s: string): Option<int> {
    if |s| > 0 && (s[0] == '+' || s[0] == '-') then
      if IsDigits(s[1..]) then
        var e: int := DigitsValue(s[1..]);
        Some(if s[0] == '-' then -e else e)
      else None
    else if IsDigits(s) then Some(DigitsValue(s))
    else None
  }

  function ExponentMark(s: string): (k: int)
    ensures -1 <= k < |s|
    ensures k >= 0 ==> s[k] == 'e' || s[k] == 'E'
    ensures k == -1 ==> forall i :: 0 <= i < |s| ==> s[i] != 'e' && s[i] != 'E'
  {
    var a := Find(s, 'e');
    var b := Find(s, 'E');
    if a == -1 then b else if b == -1 then a else if a < b then a else b
  }

  function Scale(m: real, e: int): real {
    if e >= 0 then m * Pow10(e) as real else m / Pow10(-e) as real
  }

  function Unsigned(s: string): Option<real> {
    var k := ExponentMark(s);
    if k == -1 then Mantissa(s)
    else
      match (Mantissa(s[..k]), Exponent(s[k + 1..]))
      case (Some(m), Some(e)) => Some(Scale(m, e))
      case _ => None
  }

  /** `float(s)`; `None` where Python raises `ValueError`. */
  function ParseFloat(s: string): (r: Option<real>)
    ensures (forall i :: 0 <= i < |s| ==> IsSpace(s[i])) ==> r.None?
  {
    var t := Strip(s);
    if |t| > 0 && (t[0] == '+' || t[0] == '-') then
      match Unsigned(t[1..])
      case Some(v) => Some(if t[0] == '-' then -v else v)
      case None => None
    else Unsigned(t)
  }

  lemma StripNoSpace(s: string)
    requires forall i :: 0 <= i < |s| ==> !IsSpace(s[i])
    ensures Strip(s) == s
  {
  }

  lemma DigitRunAll(s: string)
    requires AllDigits(s)
    ensures DigitRun(s) == |s|
  {
  }

  /** Text without `e`/`E` and without a leading sign is read as a bare mantissa. */
  lemma ParseFloatPlain(s: string)
    requires |s| > 0 && s[0] != '+' && s[0] != '-'
    requires forall i :: 0 <= i < |s| ==> !IsSpace(s[i]) && s[i] != 'e' && s[i] != 'E'
    ensures ParseFloat(s) == Mantissa(s)
  {
    StripNoSpace(s);
    assert ExponentMark(s) == -1;
  }

  /** A run of digits alone is a whole mantissa. */
  lemma MantissaWhole(s: string, v: nat)
    requires s != [] && AllDigits(s) && v == DigitsValue(s)
    ensures Mantissa(s) == Some(v as real)
  {
    DigitRunAll(s);
    assert s[..|s|] == s;
    assert MantissaParts(s) == Some((s, ""));
    assert DigitsValue("") == 0;
  }

  /** `float(str(n)) == n` */
  lemma ParseFloatNat(n: nat)
    ensures ParseFloat(NatToString(n)) == Some(n as real)
  {
    var s := NatToString(n);
    ParseFloatPlain(s);
    NatToStringValue(n);
    MantissaWhole(s, n);
  }

  /** Text made of digits and dots only, as the pattern `[0-9.]+` captures it. */
  predicate DigitsAndDots(s: string) {
    forall i :: 0 <= i < |s| ==> IsDigitChar(s[i]) || s[i] == '.'
  }

  predicate AtMostOneDot(s: string) {
    forall i, j :: 0 <= i < |s| && 0 <= j < |s| && s[i] == '.' && s[j] == '.' ==> i == j
  }

  /** Text that is all leading digits is a mantissa exactly when it is not empty. */
  lemma MantissaAllDigits(s: string, i: nat)
    requires i == DigitRun(s) == |s|
    ensures MantissaParts(s).Some? <==> |s| > 0
  {
  }

  /** After the leading digits and a point, `float` wants a digit-only fraction and one digit in all. */
  lemma MantissaWithPoint(s: string, i: nat)
    requires i == DigitRun(s) < |s| && s[i] == '.'
    ensures MantissaParts(s).Some? <==> AllDigits(s[i + 1..]) && !(i == 0 && |s| == 1)
  {
    assert s[i..][0] == '.';
    assert s[i..][1..] == s[i + 1..];
  }

  lemma OneDotAt(s: string, i: nat)
    requires DigitsAndDots(s) && i < |s| && s[i] == '.' && AllDigits(s[..i])
    ensures AtMostOneDot(s) <==> AllDigits(s[i + 1..])
  {
    var frac := s[i + 1..];
    if !AllDigits(frac) {
      var k :| 0 <= k < |frac| && !IsDigitChar(frac[k]);
      assert s[i + 1 + k] == frac[k];
    }
  }

  /** For text of digits and dots, `float` succeeds exactly when there is a digit and at most one dot. */
  lemma ParseFloatDigitsAndDots(s: string)
    requires DigitsAndDots(s)
    ensures ParseFloat(s).Some? <==> AtMostOneDot(s) && exists i :: 0 <= i < |s| && IsDigitChar(s[i])
  {
    if |s| > 0 {
      ParseFloatPlain(s);
      var i := DigitRun(s);
      if i < |s| {
        DotAfterDigits(s, i);
      } else {
        MantissaAllDigits(s, i);
        assert s[..i] == s;
        assert IsDigitChar(s[0]);
      }
    }
  }

  /** Digits and dots with a dot after the leading digits. */
  lemma DotAfterDigits(s: string, i: nat)
    requires DigitsAndDots(s) && i == DigitRun(s) < |s|
    ensures MantissaParts(s).Some? <==> AtMostOneDot(s) && exists k :: 0 <= k < |s| && IsDigitChar(s[k])
  {
    assert s[i] == '.';
    MantissaWithPoint(s, i);
    OneDotAt(s, i);
    if i > 0 {
      assert IsDigitChar(s[0]) by { assert s[..i][0] == s[0]; }
    } else if |s| > 1 && AllDigits(s[1..]) {
      assert IsDigitChar(s[1]) by { assert s[1..][0] == s[1]; }
    }
  }
}
