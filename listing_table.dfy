/**
 * Listing normalisation: the fixed column set of the listing table, the cell
 * text of one item field, the row builder used for display and for export, and
 * the parser that turns a Korean price text ("5억 3,000") into an amount in
 * units of ten thousand won (만원).
 */
module ListingTable {
  import opened Wrappers
  import opened Text
  import opened Numerals
  import opened Json

  /** The item keys shown in the table, with their column headers, in display order. */
  const Columns: seq<(string, string)> := [
    ("atclNo", "매물ID"),
    ("atclNm", "단지/건물명"),
    ("bildNm", "동/호"),
    ("rletTpNm", "매물유형"),
    ("tradTpNm", "거래유형"),
    ("hanPrc", "가격"),
    ("spc2", "면적(㎡)"),
    ("flrInfo", "층"),
    ("direction", "방향"),
    ("rltrNm", "중개사"),
    ("directTradYn", "직거래"),
    ("atclCfmYmd", "확인일"),
    ("atclFetrDesc", "특징"),
    ("lat", "lat"),
    ("lng", "lng")
  ]

  function Keys(): (r: seq<string>)
    ensures |r| == |Columns| == 15
    ensures forall j :: 0 <= j < |r| ==> r[j] == Columns[j].0
  {
    seq(|Columns|, j requires 0 <= j < |Columns| => Columns[j].0)
  }

  function Headers(): (r: seq<string>)
    ensures |r| == |Columns|
    ensures forall j :: 0 <= j < |r| ==> r[j] == Columns[j].1
  {
    seq(|Columns|, j requires 0 <= j < |Columns| => Columns[j].1)
  }

  /** `_norm_value`: the cell text of one field value. */
  function NormValue(v: Json, show: Json -> string): (r: string)
    ensures v.JNull? ==> r == ""
    ensures v.JArr? && v.items == [] ==> r == ""
    ensures v.JArr? && |v.items| == 1 ==> r == Str(v.items[0], show)
    ensures !v.JNull? && !v.JArr? ==> r == Str(v, show)
  {
    match v
    case JNull => ""
    case JArr(a) => Join(", ", seq(|a|, i requires 0 <= i < |a| => Str(a[i], show)))
    case _ => Str(v, show)
  }

  /** A list of two strings becomes both of them separated by ", ". */
  lemma NormValuePair(a: string, b: string, show: Json -> string)
    ensures NormValue(JArr([JStr(a), JStr(b)]), show) == a + ", " + b
  {
    var parts := seq(2, i requires 0 <= i < 2 => Str([JStr(a), JStr(b)][i], show));
    assert parts == [a, b];
    assert parts[1..] == [b];
  }

  /** One table row: the cell text of each column's field, a missing key read as `None`. */
  function RowOf(item: map<string, Json>, show: Json -> string): seq<string> {
    seq(|Columns|, j requires 0 <= j < |Columns| => NormValue(Get(item, Columns[j].0, JNull), show))
  }

  /** A row has one cell per column, a missing key gives "" and a string field is copied as is. */
  lemma RowOfCells(item: map<string, Json>, show: Json -> string)
    ensures |RowOf(item, show)| == 15
    ensures forall j :: 0 <= j < 15 && Keys()[j] !in item ==> RowOf(item, show)[j] == ""
    ensures forall j :: 0 <= j < 15 && Keys()[j] in item && item[Keys()[j]].JStr? ==>
              RowOf(item, show)[j] == item[Keys()[j]].s
  {
  }

  /** Why the table could not be built. */
  datatype TableError =
    | NotADict(index: nat)  // `it.get` raised on the item at this position
    | NoItems               // the `ValueError` of `save_to_excel` for an empty list

  /** The rows for a list of items: one row per item, in order, or the first item that is not a dict. */
  function Rows(items: seq<Json>, show: Json -> string): (r: Result<seq<seq<string>>, TableError>)
    ensures r.Ok? <==> forall i :: 0 <= i < |items| ==> items[i].JObj?
    ensures r.Ok? ==> |r.value| == |items|
    ensures r.Ok? ==> forall i :: 0 <= i < |items| ==> r.value[i] == RowOf(items[i].fields, show)
    ensures r.Err? ==> r.error.NotADict? && r.error.index < |items| && !items[r.error.index].JObj?
                       && forall i :: 0 <= i < r.error.index ==> items[i].JObj?
  {
    if |items| == 0 then Ok([])
    else if !items[0].JObj? then Err(NotADict(0))
    else
      match Rows(items[1..], show)
      case Ok(rest) => Ok([RowOf(items[0].fields, show)] + rest)
      case Err(NotADict(k)) => Err(NotADict(k + 1))
      case Err(e) => Err(e)
  }

  /** A table: its headers and its rows of cell text. */
  datatype Table = Table(columns: seq<string>, rows: seq<seq<string>>)

  /** `items_to_dataframe` (with pandas available). */
  method ItemsToTable(items: seq<Json>, show: Json -> string) returns (result: Result<Table, TableError>)
    ensures Rows(items, show).Ok? ==> result == Ok(Table(Headers(), Rows(items, show).value))
    ensures Rows(items, show).Err? ==> result == Err(Rows(items, show).error)
  {
    var rows: seq<seq<string>> := [];
    var i := 0;
    while i < |items|
      invariant 0 <= i <= |items|
      invariant forall k :: 0 <= k < i ==> items[k].JObj?
      invariant |rows| == i
      invariant forall k :: 0 <= k < i ==> rows[k] == RowOf(items[k].fields, show)
    {
      if !items[i].JObj? {
        return Err(NotADict(i));
      }
      rows := rows + [RowOf(items[i].fields, show)];
      i := i + 1;
    }
    assert rows == Rows(items, show).value;
    return Ok(Table(Headers(), rows));
  }

  /** The table `save_to_excel` writes; writing the file and returning its absolute path are not modelled. */
  function SaveToExcel(items: seq<Json>, show: Json -> string): (r: Result<Table, TableError>)
    ensures items == [] ==> r == Err(NoItems)
    ensures items != [] && Rows(items, show).Ok? ==> r == Ok(Table(Headers(), Rows(items, show).value))
    ensures items != [] && Rows(items, show).Err? ==> r == Err(Rows(items, show).error)
  {
    if items == [] then Err(NoItems)
    else
      match Rows(items, show)
      case Ok(rows) => Ok(Table(Headers(), rows))
      case Err(e) => Err(e)
  }

  /** The price text with its spaces and commas deleted. */
  function Clean(s: string): (r: string)
    ensures ' ' !in r && ',' !in r
  {
    RemoveKeeps(Remove(s, ' '), ',', ' ');
    Remove(Remove(s, ' '), ',')
  }

  /** Text without spaces or commas is already clean. */
  lemma CleanWithoutSeparators(s: string)
    requires ' ' !in s && ',' !in s
    ensures Clean(s) == s
  {
  }

  /** `re.match(r"(?P<eok>\d+)억(?P<rest>\d+)?", s)`: the 억 count and the digits that follow it
      (0 when none do), read at the start of `s`. */
  function EokMatch(s: string): (r: Option<(nat, nat)>)
    ensures r.Some? <==> 0 < DigitRun(s) < |s| && s[DigitRun(s)] == '억'
  {
    var d := DigitRun(s);
    if 0 < d < |s| && s[d] == '억' then
      var tail := s[d + 1..];
      Some((DigitsValue(s[..d]), DigitsValue(tail[..DigitRun(tail)])))
    else None
  }

  /** `parse_price_to_manwon` on `str(text)`. */
  function ParsePriceText(text: string): (r: Option<int>)
    ensures Clean(text) in {"", "-", "없음"} ==> r.None?
    ensures r.Some? <==> EokMatch(Clean(text)).Some? || IsDigits(Clean(text))
    ensures EokMatch(Clean(text)).Some? ==>
              r == Some(EokMatch(Clean(text)).value.0 * 10000 + EokMatch(Clean(text)).value.1)
    ensures EokMatch(Clean(text)).None? && IsDigits(Clean(text)) ==> r == Some(DigitsValue(Clean(text)))
  {
    var s := Clean(text);
    if s in {"", "-", "없음"} then
      NoNumberIn(s);
      None
    else
      match EokMatch(s)
      case Some((eok, rest)) => Some(eok * 10000 + rest)
      case None => if IsDigits(s) then Some(DigitsValue(s)) else None
  }

  /** The empty text, "-" and "없음" hold neither an 억 amount nor a number. */
  lemma NoNumberIn(s: string)
    requires s in {"", "-", "없음"}
    ensures EokMatch(s).None? && !IsDigits(s)
  {
    if s != [] {
      assert !IsDigitChar(s[0]);
      assert DigitRun(s) == 0;
    }
  }

  /** `parse_price_to_manwon(text)` */
  function ParsePrice(text: Json, show: Json -> string): (r: Option<int>)
    ensures text.JNull? ==> r.None?
    ensures text.JStr? ==> r == ParsePriceText(text.s)
    ensures r.Some? ==> r.value >= 0
  {
    if text.JNull? then None else ParsePriceText(Str(text, show))
  }

  /** The 억 pattern on "N억" + M + a tail that does not start with a digit. */
  lemma EokMatchOf(d: string, m: string, tail: string)
    requires IsDigits(d) && AllDigits(m) && (tail == [] || !IsDigitChar(tail[0]))
    ensures EokMatch(d + "억" + m + tail) == Some((DigitsValue(d), DigitsValue(m)))
  {
    var c := d + "억" + m + tail;
    assert c == d + ("억" + m + tail);
    DigitRunOf(d, "억" + m + tail);
    assert c[|d|] == '억';
    assert c[..|d|] == d;
    var rest := c[|d| + 1..];
    assert rest == m + tail;
    DigitRunOf(m, tail);
    assert rest[..|m|] == m;
  }

  /** "N억" followed by digits M (and anything not starting with a digit) reads as N*10000+M. */
  lemma ParseEok(s: string, d: string, m: string, tail: string, eok: nat, rest: nat)
    requires Clean(s) == d + "억" + m + tail
    requires IsDigits(d) && AllDigits(m) && (tail == [] || !IsDigitChar(tail[0]))
    requires eok == DigitsValue(d) && rest == DigitsValue(m)
    ensures ParsePriceText(s) == Some(eok * 10000 + rest)
  {
    EokMatchOf(d, m, tail);
    ParseByEok(s, eok, rest);
  }

  /** A text whose cleaned form matches the 억 pattern reads by that match. */
  lemma ParseByEok(s: string, eok: nat, rest: nat)
    requires EokMatch(Clean(s)) == Some((eok, rest))
    ensures ParsePriceText(s) == Some(eok * 10000 + rest)
  {
  }

  /** A bare number without 억 reads as itself. */
  lemma ParseDigits(s: string)
    requires IsDigits(Clean(s))
    ensures ParsePriceText(s) == Some(DigitsValue(Clean(s)))
  {
    var c := Clean(s);
    assert DigitRun(c) == |c| by { DigitRunOf(c, ""); assert c + "" == c; }
  }

  /** "5억 3,000" is 53000 만원. */
  lemma ParseExample()
    ensures ParsePriceText("5억 3,000") == Some(53000)
  {
    ExampleClean();
    ExampleValue();
    ParseEok("5억 3,000", "5", "3000", "", 5, 3000);
    assert 5 * 10000 + 3000 == 53000;
  }

  lemma ExampleClean()
    ensures Clean("5억 3,000") == "5" + "억" + "3000" + ""
  {
    ExampleJoins();
    CleanIgnores("5억", "3,000", ' ');
    CleanIgnores("5억3", "000", ',');
    ExamplePlain();
  }

  lemma ExampleJoins()
    ensures "5억" + [' '] + "3,000" == "5억 3,000"
    ensures "5억3" + [','] + "000" == "5억" + "3,000"
  {
  }

  lemma ExamplePlain()
    ensures Clean("5억3" + "000") == "5" + "억" + "3000" + ""
  {
    var p := "5억3000";
    assert "5억3" + "000" == p;
    assert "5" + "억" + "3000" + "" == p;
    assert ' ' !in p && ',' !in p;
  }

  lemma ExampleValue()
    ensures IsDigits("5") && AllDigits("3000")
    ensures DigitsValue("5") == 5 && DigitsValue("3000") == 3000
  {
    var t := "3000";
    assert |t| == 4 && t[0] == '3' && t[1] == '0' && t[2] == '0' && t[3] == '0';
    assert "3000"[..3] == "300" && "300"[..2] == "30" && "30"[..1] == "3";
    assert "3"[..0] == "" && "5"[..0] == "";
  }

  /** Deleting one space or comma from the raw text leaves the cleaned text unchanged. */
  lemma CleanIgnores(a: string, b: string, c: char)
    requires c == ' ' || c == ','
    ensures Clean(a + [c] + b) == Clean(a + b)
  {
    RemoveAppend(a, b, ' ');
    if c == ' ' {
      RemoveSkip(a, b, ' ');
    } else {
      RemoveOther(a, b, ' ', ',');
      RemoveSkip(Remove(a, ' '), Remove(b, ' '), ',');
    }
  }

  /** Spaces and commas anywhere in the text never change the parsed price. */
  lemma ParseIgnoresSeparators(a: string, b: string, c: char)
    requires c == ' ' || c == ','
    ensures ParsePriceText(a + [c] + b) == ParsePriceText(a + b)
  {
    CleanIgnores(a, b, c);
  }
}
