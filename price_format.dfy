/**
 * The 억/만원 money formatter used by the exploration and merge tools, and the
 * variant of the analysis dashboard that shows the remainder in whole thousands.
 * Amounts are in 만원 (10,000 won); 1억 is 10,000 만원.
 */
module PriceFormat {
  import opened Wrappers
  import opened Text
  import opened Numerals
  import ListingTable

  /** `int(x)` for a float: truncation toward zero. */
  function Trunc(x: real): (i: int)
    ensures x >= 0.0 ==> i >= 0 && i as real <= x < i as real + 1.0
    ensures x < 0.0 ==> i <= 0 && i as real - 1.0 < x <= i as real
  {
    if x >= 0.0 then x.Floor else -((-x).Floor)
  }

  const NoInfo: string := "정보 없음"

  /** `f"{억}억 {천:,}만원" if 천 > 0 else f"{억}억원"` */
  function EokText(eok: nat, rest: nat): string {
    if rest > 0 then NatToString(eok) + "억 " + Grouped(rest) + "만원" else NatToString(eok) + "억원"
  }

  /** `format_price(val)`; `None` is a missing (NaN) value. */
  function FormatPrice(val: Option<real>): (s: string)
    ensures val.None? || val.value == 0.0 ==> s == NoInfo
  {
    if val.None? || val.value == 0.0 then NoInfo
    else
      var v := Trunc(val.value);
      if v >= 10000 then EokText(v / 10000, v % 10000) else GroupedInt(v) + "만원"
  }

  /** `format_price(val)` of the analysis dashboard: the remainder is rounded down to thousands. */
  function FormatPriceThousands(val: Option<real>): (s: string)
    ensures val.None? || val.value == 0.0 ==> s == NoInfo
  {
    if val.None? || val.value == 0.0 then NoInfo
    else
      var v := Trunc(val.value);
      if v >= 10000 then EokText(v / 10000, v % 10000 / 1000 * 1000) else GroupedInt(v) + "만원"
  }

  /** A decimal numeral contains no space and no comma. */
  lemma NumeralHasNoSeparators(n: nat)
    ensures ' ' !in NatToString(n) && ',' !in NatToString(n)
  {
    var s := NatToString(n);
    assert forall i :: 0 <= i < |s| ==> IsDigitChar(s[i]);
  }

  /** The grouped form of a number contains no space. */
  lemma GroupedHasNoSpace(n: nat)
    ensures ' ' !in Grouped(n)
  {
    var g := Grouped(n);
    GroupedShape(n);
    forall i | 0 <= i < |g| ensures g[i] != ' ' {
      assert IsDigitChar(g[i]) || g[i] == ',';
    }
  }

  /** Deleting the space of the 억 text. */
  lemma RemoveSpaceEokText(e: string, g: string)
    requires ' ' !in e && ' ' !in g
    ensures Remove(e + "억 " + g + "만원", ' ') == e + "억" + g + "만원"
  {
    EokTextJoins(e, g);
    RemoveSkip(e + "억", g + "만원", ' ');
    var plain := e + "억" + g + "만원";
    assert ' ' !in plain by {
      forall i | 0 <= i < |plain| ensures plain[i] != ' ' {
        EokTextChar(e, g, i);
      }
    }
  }

  /** The 억 text split around its space. */
  lemma EokTextJoins(e: string, g: string)
    ensures e + "억 " + g + "만원" == (e + "억") + [' '] + (g + "만원")
    ensures (e + "억") + (g + "만원") == e + "억" + g + "만원"
  {
  }

  /** A character of the plain 억 text comes from one of its four parts. */
  lemma EokTextChar(e: string, g: string, i: nat)
    requires i < |e + "억" + g + "만원"|
    ensures (e + "억" + g + "만원")[i] in e || (e + "억" + g + "만원")[i] in g
         || (e + "억" + g + "만원")[i] in "억만원"
  {
    var p := e + "억" + g + "만원";
    if i < |e| {
      assert p[i] == e[i];
    } else if i == |e| {
      assert p[i] == '억';
    } else if i < |e| + 1 + |g| {
      assert p[i] == g[i - |e| - 1];
    } else if i == |e| + 1 + |g| {
      assert p[i] == '만';
    } else {
      assert p[i] == '원';
    }
  }

  /** Deleting the commas of the 억 text. */
  lemma RemoveCommasEokText(e: string, rest: nat)
    requires ',' !in e
    ensures Remove(e + "억" + Grouped(rest) + "만원", ',') == e + "억" + NatToString(rest) + "만원"
  {
    var g, n := Grouped(rest), NatToString(rest);
    EokTextAppend(e, g);
    EokTextAppend(e, n);
    RemoveAppend(e + "억", g + "만원", ',');
    RemoveAppend(g, "만원", ',');
    GroupedUngrouped(rest);
    UnitsHaveNoComma(e);
  }

  lemma EokTextAppend(e: string, g: string)
    ensures e + "억" + g + "만원" == (e + "억") + (g + "만원")
  {
  }

  lemma UnitsHaveNoComma(e: string)
    requires ',' !in e
    ensures Remove(e + "억", ',') == e + "억" && Remove("만원", ',') == "만원"
  {
    assert ',' !in e + "억";
  }

  /** Deleting the spaces and commas of the 억 text leaves the plain "N억M만원" form. */
  lemma CleanEokText(eok: nat, rest: nat)
    requires rest > 0
    ensures ListingTable.Clean(EokText(eok, rest)) == NatToString(eok) + "억" + NatToString(rest) + "만원"
  {
    var e := NatToString(eok);
    NumeralHasNoSeparators(eok);
    GroupedHasNoSpace(rest);
    RemoveSpaceEokText(e, Grouped(rest));
    RemoveCommasEokText(e, rest);
  }

  /** Reading the formatted text back with the listing price parser gives the amount for every
      amount of at least 1억. */
  lemma FormatThenParse(val: real)
    requires Trunc(val) >= 10000
    ensures ListingTable.ParsePriceText(FormatPrice(Some(val))) == Some(Trunc(val))
  {
    var v := Trunc(val);
    var eok, rest := v / 10000, v % 10000;
    calc {
      ListingTable.ParsePriceText(FormatPrice(Some(val)));
      { FormatIsEok(val, v, eok, rest); }
      ListingTable.ParsePriceText(EokText(eok, rest));
      { EokTextParses(eok, rest); }
      Some(eok * 10000 + rest);
      Some(v);
    }
  }

  /** The analysis variant reads back as the amount rounded down to a multiple of 1,000 만원. */
  lemma FormatThousandsThenParse(val: real)
    requires Trunc(val) >= 10000
    ensures ListingTable.ParsePriceText(FormatPriceThousands(Some(val))) == Some(Trunc(val) / 1000 * 1000)
  {
    var v := Trunc(val);
    var w := v / 1000 * 1000;
    ThousandsIsRoundedDown(val);
    assert w >= 10000 by {
      assert v / 1000 >= 10;
    }
    assert Trunc(w as real) == w;
    FormatThenParse(w as real);
  }

  /** Rounding down to thousands keeps the 억 part and rounds the remainder. */
  lemma ThousandsSplit(v: nat)
    ensures (v / 1000 * 1000) / 10000 == v / 10000
    ensures (v / 1000 * 1000) % 10000 == v % 10000 / 1000 * 1000
    ensures v / 10000 * 10000 + v % 10000 / 1000 * 1000 == v / 1000 * 1000
  {
    var q, r := v / 10000, v % 10000;
    var k, u := r / 1000, r % 1000;
    assert v == 10000 * q + 1000 * k + u;
    assert v / 1000 == 10 * q + k;
    assert v / 1000 * 1000 == 10000 * q + 1000 * k;
    assert 1000 * k < 10000;
  }

  /** The parser reads the 억 text as `eok * 10000 + rest`. */
  lemma EokTextParses(eok: nat, rest: nat)
    requires eok >= 1
    ensures ListingTable.ParsePriceText(EokText(eok, rest)) == Some(eok * 10000 + rest)
  {
    var e := NatToString(eok);
    NatToStringValue(eok);
    if rest > 0 {
      CleanEokText(eok, rest);
      NatToStringValue(rest);
      ListingTable.ParseEok(EokText(eok, rest), e, NatToString(rest), "만원", eok, rest);
    } else {
      NumeralHasNoSeparators(eok);
      assert ' ' !in e + "억원" && ',' !in e + "억원";
      assert e + "억원" == e + "억" + "" + "원";
      ListingTable.ParseEok(EokText(eok, rest), e, "", "원", eok, 0);
    }
  }

  /** The analysis variant shows exactly what the plain formatter shows for the amount rounded
      down to thousands. */
  lemma ThousandsIsRoundedDown(val: real)
    requires Trunc(val) >= 10000
    ensures FormatPriceThousands(Some(val)) == FormatPrice(Some((Trunc(val) / 1000 * 1000) as real))
  {
    var v := Trunc(val);
    var w := v / 1000 * 1000;
    ThousandsSplit(v);
    assert Trunc(w as real) == w;
  }

  /** 12500 is "1억 2,500만원". */
  lemma FormatExample12500()
    ensures FormatPrice(Some(12500.0)) == "1억 2,500만원"
  {
    assert Trunc(12500.0) == 12500;
    FormatIsEok(12500.0, 12500, 1, 2500);
    GroupedExample(2, 500, "2", "500");
    EokTextOne(2500, "2,500");
    assert "1억 " + "2,500" + "만원" == "1억 2,500만원";
  }

  /** The grouped form of a number below a million with a non-zero thousands digit. */
  lemma GroupedExample(k: nat, u: nat, ks: string, us: string)
    requires 1 <= k < 10 && u < 1000
    requires ks == [DigitChar(k)] && us == Pad3(u)
    ensures Grouped(k * 1000 + u) == ks + "," + us
  {
    assert (k * 1000 + u) / 1000 == k && (k * 1000 + u) % 1000 == u;
  }

  /** The 억 text for 1억 and a non-zero remainder. */
  lemma EokTextOne(rest: nat, g: string)
    requires rest > 0 && Grouped(rest) == g
    ensures EokText(1, rest) == "1억 " + g + "만원"
  {
    assert NatToString(1) == "1";
  }

  /** 20000 is "2억원". */
  lemma FormatExample20000()
    ensures FormatPrice(Some(20000.0)) == "2억원"
  {
    assert Trunc(20000.0) == 20000;
    assert NatToString(2) == "2";
  }

  /** Below 1억 the amount is written with thousands separators. */
  lemma FormatExampleSmall()
    ensures FormatPrice(Some(5000.0)) == "5,000만원"
    ensures FormatPrice(Some(-5.0)) == "-5만원"
  {
    assert Trunc(5000.0) == 5000;
    assert Trunc(-5.0) == -5;
    assert NatToString(5) == "5";
    assert Pad3(0) == "000";
  }

  /** Below 1억 both formatters write the truncated amount with thousands separators and "만원";
      deleting the separators leaves its decimal numeral. */
  lemma FormatBelowEok(val: real)
    requires val != 0.0 && Trunc(val) < 10000
    ensures FormatPrice(Some(val)) == GroupedInt(Trunc(val)) + "만원"
    ensures FormatPriceThousands(Some(val)) == FormatPrice(Some(val))
    ensures Remove(FormatPrice(Some(val)), ',') == IntToString(Trunc(val)) + "만원"
  {
    var v := Trunc(val);
    GroupedIntUngrouped(v);
    RemoveAppend(GroupedInt(v), "만원", ',');
  }

  /** Deleting the commas of the grouped form of an integer gives its decimal numeral. */
  lemma GroupedIntUngrouped(i: int)
    ensures Remove(GroupedInt(i), ',') == IntToString(i)
  {
    if i < 0 {
      var n := -i;
      GroupedUngrouped(n);
      RemoveAppend("-", Grouped(n), ',');
      assert Remove("-", ',') == "-";
      assert GroupedInt(i) == "-" + Grouped(n) && IntToString(i) == "-" + NatToString(n);
    } else {
      GroupedUngrouped(i);
    }
  }

  /** The analysis variant writes 10500 as "1억원": the 500 below a thousand are dropped. */
  lemma FormatThousandsExample10500()
    ensures FormatPriceThousands(Some(10500.0)) == "1억원"
  {
    assert Trunc(10500.0) == 10500;
    FormatThousandsIsEok(10500.0, 10500, 1, 0);
    assert NatToString(1) == "1";
  }

  /** The analysis variant writes 12500 as "1억 2,000만원". */
  lemma FormatThousandsExample12500()
    ensures FormatPriceThousands(Some(12500.0)) == "1억 2,000만원"
  {
    assert Trunc(12500.0) == 12500;
    FormatThousandsIsEok(12500.0, 12500, 1, 2000);
    Pad3Zero();
    GroupedExample(2, 0, "2", "000");
    EokTextOne(2000, "2,000");
    ExampleText2000();
  }

  /** From 1억 up the formatter writes the 억 text of the split amount. */
  lemma FormatIsEok(val: real, v: int, eok: nat, rest: nat)
    requires Trunc(val) == v && v >= 10000
    requires eok == v / 10000 && rest == v % 10000
    ensures FormatPrice(Some(val)) == EokText(eok, rest)
  {
  }

  /** From 1억 up the analysis variant writes the 억 text of the split amount. */
  lemma FormatThousandsIsEok(val: real, v: int, eok: nat, rest: nat)
    requires Trunc(val) == v && v >= 10000
    requires eok == v / 10000 && rest == v % 10000 / 1000 * 1000
    ensures FormatPriceThousands(Some(val)) == EokText(eok, rest)
  {
  }

  lemma Pad3Zero()
    ensures Pad3(0) == "000"
  {
  }

  lemma ExampleText2000()
    ensures "1억 " + "2,000" + "만원" == "1억 2,000만원"
  {
  }
}
