/**
 * Decimal text of integers as Python writes it: `str(n)`, `int(s)` for a digit
 * string, and the thousands-grouped form of `format(n, ",")` (`f"{n:,}"`).
 */
module Numerals {
  import opened Text

  function DigitChar(d: nat): (c: char)
    requires d < 10
    ensures IsDigitChar(c)
  {
    ('0' as int + d) as char
  }

  function DigitOf(c: char): (d: nat)
    requires IsDigitChar(c)
    ensures d < 10 && DigitChar(d) == c
  {
    c as int - '0' as int
  }

  /** `int(s)` for a string of ASCII digits (the empty string gives 0). */
  function DigitsValue(s: string): nat
    requires AllDigits(s)
  {
    if |s| == 0 then 0 else DigitsValue(s[..|s| - 1]) * 10 + DigitOf(s[|s| - 1])
  }

  /** `str(n)` for a natural number: digits, no leading zero. */
  function NatToString(n: nat): (s: string)
    ensures IsDigits(s)
    ensures s[0] == '0' ==> s == "0"
  {
    if n < 10 then [DigitChar(n)] else NatToString(n / 10) + [DigitChar(n % 10)]
  }

  /** Reading back what `str(n)` wrote gives `n`. */
  lemma {:induction false} NatToStringValue(n: nat)
    ensures DigitsValue(NatToString(n)) == n
  {
    if n >= 10 {
      var s := NatToString(n);
      assert s[..|s| - 1] == NatToString(n / 10);
      NatToStringValue(n / 10);
    }
  }

  /** Distinct numbers have distinct decimal text. */
  lemma NatToStringInjective(m: nat, n: nat)
    requires NatToString(m) == NatToString(n)
    ensures m == n
  {
    NatToStringValue(m);
    NatToStringValue(n);
  }

  /** `str(i)` for any integer. */
  function IntToString(i: int): (s: string)
    ensures |s| > 0
    ensures i >= 0 <==> IsDigits(s)
  {
    if i < 0 then
      assert ("-" + NatToString(-i))[0] == '-';
      "-" + NatToString(-i)
    else NatToString(i)
  }

  /** Three digits with leading zeros, the group after a comma. */
  function Pad3(n: nat): (s: string)
    requires n < 1000
    ensures |s| == 3 && AllDigits(s)
  {
    [DigitChar(n / 100), DigitChar(n / 10 % 10), DigitChar(n % 10)]
  }

  /** `f"{n:,}"` for a natural number. */
  function Grouped(n: nat): (s: string)
    ensures n < 1000 ==> s == NatToString(n)
  {
    if n < 1000 then NatToString(n) else Grouped(n / 1000) + "," + Pad3(n % 1000)
  }

  /** `f"{i:,}"` for any integer. */
  function GroupedInt(i: int): string {
    if i < 0 then "-" + Grouped(-i) else Grouped(i)
  }

  /** Appending a decimal digit to `str(n)` writes `n * 10 + d`. */
  lemma AppendDigit(n: nat, d: nat, m: nat)
    requires n >= 1 && d < 10 && m == n * 10 + d
    ensures NatToString(m) == NatToString(n) + [DigitChar(d)]
  {
    assert m / 10 == n && m % 10 == d;
  }

  /** The decimal text of `a * 1000 + b` is that of `a` followed by the three digits of `b`. */
  lemma NatToStringThousands(a: nat, b: nat)
    requires a >= 1 && b < 1000
    ensures NatToString(a * 1000 + b) == NatToString(a) + Pad3(b)
  {
    var h, t, u := b / 100, b / 10 % 10, b % 10;
    var a1 := a * 10 + h;
    var a2 := a1 * 10 + t;
    var n := a * 1000 + b;
    ThousandsDigits(a, b);
    AppendDigit(a, h, a1);
    AppendDigit(a1, t, a2);
    AppendDigit(a2, u, n);
    var s := NatToString(a);
    assert NatToString(n) == s + [DigitChar(h)] + [DigitChar(t)] + [DigitChar(u)];
    assert Pad3(b) == [DigitChar(h), DigitChar(t), DigitChar(u)];
  }

  lemma ThousandsDigits(a: nat, b: nat)
    requires b < 1000
    ensures a * 1000 + b == ((a * 10 + b / 100) * 10 + b / 10 % 10) * 10 + b % 10
  {
    var h, r := b / 100, b % 100;
    var t, u := r / 10, r % 10;
    assert b == 100 * h + r && r == 10 * t + u;
    assert b / 10 == 10 * h + t;
    assert b / 10 % 10 == t && b % 10 == u;
    assert ((a * 10 + h) * 10 + t) * 10 + u == 1000 * a + 100 * h + 10 * t + u;
  }

  /** Deleting the commas of `f"{n:,}"` gives `str(n)`. */
  lemma {:induction false} GroupedUngrouped(n: nat)
    ensures Remove(Grouped(n), ',') == NatToString(n)
  {
    if n >= 1000 {
      var q, r := n / 1000, n % 1000;
      var g, p := Grouped(q), Pad3(r);
      assert Grouped(n) == g + [','] + p;
      GroupedUngrouped(q);
      UngroupStep(g, p, NatToString(q));
      NatToStringThousands(q, r);
    }
  }

  lemma UngroupStep(g: string, p: string, s: string)
    requires Remove(g, ',') == s && AllDigits(p)
    ensures Remove(g + [','] + p, ',') == s + p
  {
    RemoveSkip(g, p, ',');
    RemoveAppend(g, p, ',');
    assert ',' !in p;
  }

  /** The grouped form of a natural number is made of digits and commas and starts with a digit. */
  lemma {:induction false} GroupedShape(n: nat)
    ensures |Grouped(n)| > 0 && IsDigitChar(Grouped(n)[0])
    ensures forall i :: 0 <= i < |Grouped(n)| ==> IsDigitChar(Grouped(n)[i]) || Grouped(n)[i] == ','
  {
    if n >= 1000 {
      GroupedShape(n / 1000);
    }
  }
}
