/**
 * The dashboard's listing filters: the derived price and area columns, the
 * price ranges, the candidate values of a column, the rule that narrows the
 * user's selection to the values actually present, the budget, and the filter
 * steps that narrow the listing table one condition at a time.
 */
module ListingFilters {
  import opened Wrappers
  import opened Lists
  import opened Text
  import opened Numerals
  import opened Json
  import opened StringOrder
  import Decimal
  import ListingTable

  /** `str(v).strip()` for a value that survives `dropna()`; a dropped value reads as "",
      which the emptiness test then removes as well. */
  function CellText(v: Json, show: Json -> string): string {
    if v.JNull? then "" else Strip(Str(v, show))
  }

  /** The cell text of every value of a column, in order. */
  function Texts(values: seq<Json>, show: Json -> string): (texts: seq<string>)
    ensures forall x :: x in texts <==> exists i :: 0 <= i < |values| && CellText(values[i], show) == x
  {
    var texts := seq(|values|, i requires 0 <= i < |values| => CellText(values[i], show));
    assert forall x :: x in texts <==> exists i :: 0 <= i < |values| && CellText(values[i], show) == x by {
      forall x ensures x in texts <==> exists i :: 0 <= i < |values| && CellText(values[i], show) == x {
        if x in texts {
          var i :| 0 <= i < |texts| && texts[i] == x;
          assert CellText(values[i], show) == x;
        }
        if exists i :: 0 <= i < |values| && CellText(values[i], show) == x {
          var i :| 0 <= i < |values| && CellText(values[i], show) == x;
          assert texts[i] == x;
        }
      }
    }
    texts
  }

  /** `unique_non_empty(series)`: the sorted distinct stripped non-empty values. */
  function UniqueNonEmpty(values: seq<Json>, show: Json -> string): (r: seq<string>)
    ensures Sorted(r)
    ensures forall x :: x in r <==> x != [] && exists i :: 0 <= i < |values| && CellText(values[i], show) == x
  {
    SortedSet(Where(Texts(values, show), (x: string) => x != []))
  }

  /** Every candidate value is already stripped. */
  lemma UniqueNonEmptyStripped(values: seq<Json>, show: Json -> string, x: string)
    requires x in UniqueNonEmpty(values, show)
    ensures Strip(x) == x
  {
    var i :| 0 <= i < |values| && CellText(values[i], show) == x;
    StripStripped(x);
  }

  /** `price_bucket(x)` for a price in 만원. */
  function PriceBucket(price: Option<int>): (r: string)
    ensures r == "가격정보없음" <==> price.None?
    ensures r == "5,000만 미만" <==> price.Some? && price.value < 5000
    ensures r == "5,000만 ~ 5억" <==> price.Some? && 5000 <= price.value <= 50000
    ensures r == "5억 초과" <==> price.Some? && price.value > 50000
  {
    match price
    case None => "가격정보없음"
    case Some(x) =>
      if x < 5000 then "5,000만 미만"
      else if x <= 50000 then "5,000만 ~ 5억"
      else "5억 초과"
  }

  /** `[t for t in selected if t in real] or list(real)`, where `present` lists the values of the set `real`. */
  function Effective(selected: seq<string>, present: seq<string>): (r: seq<string>)
    ensures (exists t :: t in selected && t in present) ==> r == Where(selected, t => t in present)
    ensures (exists t :: t in selected && t in present) ==> forall x :: x in r <==> x in selected && x in present
    ensures (forall t :: t in selected ==> t !in present) ==> r == present
  {
    var kept := Where(selected, t => t in present);
    if kept != [] then
      assert kept[0] in selected && kept[0] in present;
      kept
    else
      assert forall t :: t in selected ==> t !in present;
      present
  }

  /** `budget_eok * 10000 + budget_man`, in 만원. */
  function Budget(eok: nat, man: nat): (b: nat)
    ensures b > 0 <==> eok > 0 || man > 0
  {
    eok * 10000 + man
  }

  /** With fewer than 10000 만원, the budget splits back into its 억 and 만원 parts. */
  lemma BudgetSplits(eok: nat, man: nat)
    requires man < 10000
    ensures Budget(eok, man) / 10000 == eok && Budget(eok, man) % 10000 == man
  {
  }

  /** The budget agrees with the price parser: "N억M" reads as the budget of N 억 and M 만원. */
  lemma BudgetMatchesPrice(eok: nat, man: nat)
    ensures ListingTable.ParsePriceText(NatToString(eok) + "억" + NatToString(man)) == Some(Budget(eok, man) as int)
  {
    var b := Budget(eok, man);
    assert b == eok * 10000 + man;
    NatToStringValue(eok);
    NatToStringValue(man);
    EokDigitsParse(NatToString(eok), NatToString(man), eok, man);
    assert ListingTable.ParsePriceText(NatToString(eok) + "억" + NatToString(man)) == Some(b as int);
  }

  /** "N억M" written with digit strings reads as N*10000+M. */
  lemma EokDigitsParse(d: string, m: string, eok: nat, man: nat)
    requires IsDigits(d) && AllDigits(m) && DigitsValue(d) == eok && DigitsValue(m) == man
    ensures ListingTable.ParsePriceText(d + "억" + m) == Some(eok * 10000 + man)
  {
    DigitsAroundEok(d, m);
    ListingTable.ParseEok(d + "억" + m, d, m, "", eok, man);
  }

  /** Digits around 억 have no separators for the parser to delete. */
  lemma DigitsAroundEok(d: string, m: string)
    requires AllDigits(d) && AllDigits(m)
    ensures ListingTable.Clean(d + "억" + m) == d + "억" + m + ""
  {
    var s := d + "억" + m;
    assert ' ' !in s && ',' !in s by {
      assert forall i :: 0 <= i < |s| ==> s[i] == '억' || IsDigitChar(s[i]);
    }
    ListingTable.CleanWithoutSeparators(s);
    assert s == s + "";
  }

  /** One listing row with the columns the dashboard derives from it. */
  datatype Listing = Listing(cells: seq<string>, price: Option<int>, pyeong: Option<real>, bucket: string)

  /** Cell `j` of a row ("" past its end). */
  function Cell(row: seq<string>, j: nat): string {
    if j < |row| then row[j] else ""
  }

  /** Column positions in the listing table. */
  const EstateTypeColumn: nat := 3
  const TradeTypeColumn: nat := 4
  const PriceColumn: nat := 5
  const AreaColumn: nat := 6

  /** The fixed positions are the table's columns named "매물유형", "거래유형", "가격" and "면적(㎡)",
      the names the filters look up. */
  lemma FilterColumnsNamed()
    ensures |ListingTable.Headers()| > AreaColumn
    ensures ListingTable.Headers()[EstateTypeColumn] == "매물유형"
    ensures ListingTable.Headers()[TradeTypeColumn] == "거래유형"
    ensures ListingTable.Headers()[PriceColumn] == "가격"
    ensures ListingTable.Headers()[AreaColumn] == "면적(㎡)"
  {
  }

  /** Square metres in one 평. */
  const SquareMetresPerPyeong: real := 3.305785

  /** The derived columns: price in 만원, area in 평, and price range. */
  function Derive(row: seq<string>): (l: Listing)
    ensures l.cells == row
    ensures l.price == ListingTable.ParsePriceText(Cell(row, PriceColumn))
    ensures l.bucket == PriceBucket(l.price)
    ensures l.pyeong.Some? <==> Decimal.ParseFloat(Cell(row, AreaColumn)).Some?
  {
    var price := ListingTable.ParsePriceText(Cell(row, PriceColumn));
    var sqm := Decimal.ParseFloat(Cell(row, AreaColumn));
    var pyeong := if sqm.Some? then Some(sqm.value / SquareMetresPerPyeong) else None;
    Listing(row, price, pyeong, PriceBucket(price))
  }

  /** A column of the listing table, as the values `unique_non_empty` receives. */
  function Column(df: seq<Listing>, j: nat): (c: seq<Json>)
    ensures |c| == |df| && forall i :: 0 <= i < |df| ==> c[i] == JStr(Cell(df[i].cells, j))
  {
    seq(|df|, i requires 0 <= i < |df| => JStr(Cell(df[i].cells, j)))
  }

  /** A row passes every filter. */
  predicate Kept(l: Listing, trad: seq<string>, rlet: seq<string>, minPy: real, maxPy: real, budget: int) {
    && Cell(l.cells, TradeTypeColumn) in trad
    && Cell(l.cells, EstateTypeColumn) in rlet
    && (l.pyeong.None? || (minPy <= l.pyeong.value && l.pyeong.value <= maxPy))
    && (budget <= 0 || l.price.None? || l.price.value <= budget)
  }

  /** The effective trade-type and estate-type selections for a table. */
  function EffectiveTrade(df: seq<Listing>, selected: seq<string>, show: Json -> string): seq<string> {
    Effective(selected, UniqueNonEmpty(Column(df, TradeTypeColumn), show))
  }

  function EffectiveEstate(df: seq<Listing>, selected: seq<string>, show: Json -> string): seq<string> {
    Effective(selected, UniqueNonEmpty(Column(df, EstateTypeColumn), show))
  }

  /** The filter steps of a search run: trade type, estate type, area range, then the budget
      when it is positive. The result keeps exactly the rows that pass all of them, in order. */
  method ApplyFilters(df: seq<Listing>, tradSelected: seq<string>, rletSelected: seq<string>,
                      minPy: real, maxPy: real, budgetEok: nat, budgetMan: nat, show: Json -> string)
    returns (fdf: seq<Listing>)
    ensures fdf == Where(df, l => Kept(l, EffectiveTrade(df, tradSelected, show), EffectiveEstate(df, rletSelected, show),
                                       minPy, maxPy, Budget(budgetEok, budgetMan)))
  {
    var trad := EffectiveTrade(df, tradSelected, show);
    var rlet := EffectiveEstate(df, rletSelected, show);
    var budget := Budget(budgetEok, budgetMan);
    ghost var p1 := (l: Listing) => Cell(l.cells, TradeTypeColumn) in trad;
    ghost var p2 := (l: Listing) => p1(l) && Cell(l.cells, EstateTypeColumn) in rlet;
    ghost var p3 := (l: Listing) => p2(l) && (l.pyeong.None? || (minPy <= l.pyeong.value && l.pyeong.value <= maxPy));
    ghost var all := (l: Listing) => Kept(l, trad, rlet, minPy, maxPy, budget);
    fdf := df;
    fdf := Where(fdf, (l: Listing) => Cell(l.cells, TradeTypeColumn) in trad);
    WhereExt(df, (l: Listing) => Cell(l.cells, TradeTypeColumn) in trad, p1);
    fdf := Where(fdf, (l: Listing) => Cell(l.cells, EstateTypeColumn) in rlet);
    WhereWhere(df, p1, (l: Listing) => Cell(l.cells, EstateTypeColumn) in rlet, p2);
    fdf := Where(fdf, (l: Listing) => l.pyeong.None? || (minPy <= l.pyeong.value && l.pyeong.value <= maxPy));
    WhereWhere(df, p2, (l: Listing) => l.pyeong.None? || (minPy <= l.pyeong.value && l.pyeong.value <= maxPy), p3);
    if budget > 0 {
      fdf := Where(fdf, (l: Listing) => l.price.None? || l.price.value <= budget);
      WhereWhere(df, p3, (l: Listing) => l.price.None? || l.price.value <= budget, all);
    } else {
      WhereExt(df, p3, all);
    }
  }
}
