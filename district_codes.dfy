/**
 * The nationwide list of city, county and district codes from the public
 * standard-region-code service: the paging loop that collects the rows of every
 * page until one ends it, and the table step that keeps active rows whose
 * 10-digit code names a city, county or district.
 *
 * The service is a function from page number to reply; the service key, the
 * timeout and the console messages are not modelled.
 */
module DistrictCodes {
  import opened Wrappers
  import opened Text
  import opened Json
  import opened Lists
  import opened Numerals

  /** One `requests.get`: an exception (connection, timeout, body not JSON) or a status and decoded body. */
  datatype Reply = Raised | Reply(status: int, data: Json)

  /** What a page tells the loop: stop, or the rows to add before asking for the next page. */
  datatype Page = Stop | More(rows: seq<Json>)

  /** The one-character strings `list.extend` takes from a string. */
  function Characters(t: string): (cs: seq<Json>)
    ensures |cs| == |t| && forall i :: 0 <= i < |t| ==> cs[i] == JStr([t[i]])
  {
    seq(|t|, i requires 0 <= i < |t| => JStr([t[i]]))
  }

  /** What `all_items.extend(data["StanReginCd"][1].get("row", []))` adds, when the body has
      that shape: the elements of a list, or the characters of a string. Every other shape
      either takes the `else` branch or raises inside the `try`, and both end the loop. */
  function RowList(data: Json): (r: Option<seq<Json>>)
    ensures r.Some? ==> data.JObj? && "StanReginCd" in data.fields
    ensures r.Some? ==> var parts := data.fields["StanReginCd"];
                        parts.JArr? && |parts.items| > 1 && parts.items[1].JObj?
                        && var row := Get(parts.items[1].fields, "row", JArr([]));
                           (row.JArr? && r.value == row.items) || (row.JStr? && r.value == Characters(row.s))
    ensures r.None? ==> !data.JObj? || "StanReginCd" !in data.fields || !data.fields["StanReginCd"].JArr?
                        || |data.fields["StanReginCd"].items| <= 1 || !data.fields["StanReginCd"].items[1].JObj?
                        || (var row := Get(data.fields["StanReginCd"].items[1].fields, "row", JArr([]));
                            !row.JArr? && !row.JStr?)
  {
    match data
    case JObj(m) =>
      (match Get(m, "StanReginCd", JNull)
       case JArr(parts) =>
         if |parts| > 1 && parts[1].JObj? then
           match Get(parts[1].fields, "row", JArr([]))
           case JArr(rows) => Some(rows)
           case JStr(t) => Some(Characters(t))
           case _ => None
         else None
       case _ => None)
    case _ => None
  }

  /** One pass of the loop body. */
  function PageOf(r: Reply): (p: Page)
    ensures p.More? <==> r.Reply? && r.status == 200 && RowList(r.data).Some? && RowList(r.data).value != []
    ensures p.More? ==> p.rows == RowList(r.data).value
  {
    if r.Raised? || r.status != 200 then Stop
    else
      match RowList(r.data)
      case Some(rows) => if rows == [] then Stop else More(rows)
      case None => Stop
  }

  /** The loop goes on past page `p`. */
  predicate Proceeds(server: nat -> Reply, p: nat) {
    PageOf(server(p)).More?
  }

  /** Page `last` ends the loop if it is reached; the loop is then known to stop. */
  predicate StopsAt(server: nat -> Reply, last: nat) {
    last >= 1 && !Proceeds(server, last)
  }

  /** The first page at or after `p` that ends the loop. */
  function FirstStop(server: nat -> Reply, p: nat, last: nat): (k: nat)
    requires 1 <= p <= last && StopsAt(server, last)
    ensures p <= k <= last && !Proceeds(server, k)
    ensures forall q :: p <= q < k ==> Proceeds(server, q)
    decreases last - p
  {
    if !Proceeds(server, p) then p else FirstStop(server, p + 1, last)
  }

  lemma FirstStopNext(server: nat -> Reply, p: nat, last: nat)
    requires 1 <= p <= last && StopsAt(server, last) && Proceeds(server, p)
    ensures p < last && FirstStop(server, p, last) == FirstStop(server, p + 1, last)
  {
  }

  /** The rows of pages 1..n, in page order. */
  function Collected(server: nat -> Reply, n: nat): seq<Json> {
    if n == 0 then []
    else Collected(server, n - 1) + (match PageOf(server(n)) case More(rows) => rows case Stop => [])
  }

  /** The page numbers 1..n. */
  function Pages(n: nat): (ps: seq<nat>)
    ensures |ps| == n && forall i :: 0 <= i < n ==> ps[i] == i + 1
  {
    seq(n, i => i + 1)
  }

  lemma PagesNext(n: nat)
    ensures Pages(n + 1) == Pages(n) + [n + 1]
  {
  }

  // ---------------------------------------------------------------------------
  // The table step
  // ---------------------------------------------------------------------------

  /** One output row: the code as text and the region name as the service gave it. */
  datatype Dong = Dong(code: string, name: Json)

  /** The table step failed (`pd.DataFrame` or a column lookup raised). */
  datatype TableError = NotARecord | MissingColumn(column: string)

  /** `pd.DataFrame(all_items)` for a list of dicts: one record per item. */
  function Records(items: seq<Json>): (r: Option<seq<map<string, Json>>>)
    ensures r.Some? <==> forall i :: 0 <= i < |items| ==> items[i].JObj?
    ensures r.Some? ==> |r.value| == |items| && forall i :: 0 <= i < |items| ==> r.value[i] == items[i].fields
  {
    if forall i :: 0 <= i < |items| ==> items[i].JObj? then
      Some(seq(|items|, i requires 0 <= i < |items| => items[i].fields))
    else None
  }

  /** A column exists when some record has the key. */
  predicate HasColumn(rows: seq<map<string, Json>>, column: string) {
    exists i :: 0 <= i < |rows| && column in rows[i]
  }

  /** 2^53: every integer up to it in size is exact in a float64. */
  const ExactIntLimit: int := 0x20_0000_0000_0000

  /** A record's cell in `column` is missing or holds None. */
  predicate IsGap(r: map<string, Json>, column: string) {
    column !in r || r[column].JNull?
  }

  predicate IsNumber(v: Json) {
    v.JInt? || v.JFloat?
  }

  /** pandas stores `column` of the table `rows` as float64: it holds only numbers and gaps,
      at least one number, and a gap or a float among them. */
  predicate IsFloatColumn(rows: seq<map<string, Json>>, column: string) {
    && (forall i :: 0 <= i < |rows| ==> IsGap(rows[i], column) || IsNumber(rows[i][column]))
    && (exists i :: 0 <= i < |rows| && !IsGap(rows[i], column) && IsNumber(rows[i][column]))
    && (exists i :: 0 <= i < |rows| && (IsGap(rows[i], column) || rows[i][column].JFloat?))
  }

  /** `str()` of the float64 that holds the integer `i`: its digits and ".0" while it is exact,
      otherwise Python's float text, taken as given. */
  function FloatText(i: int, show: Json -> string): string {
    if -ExactIntLimit <= i <= ExactIntLimit then IntToString(i) + ".0" else show(JFloat(i as real))
  }

  /** `df["region_cd"].astype(str)` at record `r` of the table `rows`. A float64 column writes
      its numbers as floats and its gaps as "nan"; any other column writes `str()` of each
      value, and "nan" for the NaN of a missing key. */
  function Code(rows: seq<map<string, Json>>, r: map<string, Json>, show: Json -> string): string {
    if IsFloatColumn(rows, "region_cd") then
      if IsGap(r, "region_cd") then "nan"
      else match r["region_cd"]
           case JInt(i) => FloatText(i, show)
           case v => show(v)
    else if "region_cd" in r then Str(r["region_cd"], show) else "nan"
  }

  /** A city, county or district code: five trailing zeros, but not the eight of a province. */
  predicate IsDistrictCode(code: string) {
    EndsWith(code, "00000") && !EndsWith(code, "00000000")
  }

  /** `df["flag"] == "Y"` for one record. */
  predicate IsActive(r: map<string, Json>) {
    Get(r, "flag", JNull) == JStr("Y")
  }

  /** The flag filter applies only when the column exists. */
  function ActiveRows(rows: seq<map<string, Json>>): (act: seq<map<string, Json>>)
    ensures !HasColumn(rows, "flag") ==> act == rows
    ensures HasColumn(rows, "flag") ==> forall r :: r in act <==> r in rows && IsActive(r)
  {
    if HasColumn(rows, "flag") then Where(rows, IsActive) else rows
  }

  /** The output row of a kept record. */
  function DongOf(rows: seq<map<string, Json>>, show: Json -> string): map<string, Json> -> Option<Dong> {
    r => if IsDistrictCode(Code(rows, r, show)) then Some(Dong(Code(rows, r, show), Get(r, "locatadd_nm", JNull))) else None
  }

  /** Everything after the loop of `get_all_dongs`. */
  function DistrictTable(items: seq<Json>, show: Json -> string): Result<seq<Dong>, TableError> {
    if items == [] then Ok([])
    else
      match Records(items)
      case None => Err(NotARecord)
      case Some(rows) =>
        if !HasColumn(rows, "region_cd") then Err(MissingColumn("region_cd"))
        else if !HasColumn(rows, "locatadd_nm") then Err(MissingColumn("locatadd_nm"))
        else Ok(FilterMap(ActiveRows(rows), DongOf(rows, show)))
  }

  /** `get_all_dongs()` as a value of the replies: the table of the rows of the pages before
      the first page that ends the loop. */
  function AllDongs(server: nat -> Reply, show: Json -> string, last: nat): Result<seq<Dong>, TableError>
    requires StopsAt(server, last)
  {
    DistrictTable(Collected(server, FirstStop(server, 1, last) - 1), show)
  }

  /** `get_all_dongs()`. `requested` lists the pages asked for, in order. */
  method GetAllDongs(server: nat -> Reply, show: Json -> string, ghost last: nat)
    returns (result: Result<seq<Dong>, TableError>, ghost requested: seq<nat>)
    requires StopsAt(server, last)
    ensures result == AllDongs(server, show, last)
    ensures requested == Pages(FirstStop(server, 1, last))
  {
    var allItems: seq<Json> := [];
    var page: nat := 1;
    requested := [];
    ghost var k := FirstStop(server, 1, last);
    while true
      invariant 1 <= page <= last
      invariant k == FirstStop(server, page, last)
      invariant allItems == Collected(server, page - 1)
      invariant requested == Pages(page - 1)
      decreases last - page
    {
      var reply := server(page);
      PagesNext(page - 1);
      requested := requested + [page];
      var p := PageOf(reply);
      if p.Stop? {
        assert k == page;
        break;
      }
      allItems := allItems + p.rows;
      FirstStopNext(server, page, last);
      page := page + 1;
    }
    result := DistrictTable(allItems, show);
  }

  /** Pages are asked for from 1 upwards, and page p+1 only after page p gave rows. */
  lemma RequestsFollowRows(server: nat -> Reply, last: nat, i: nat)
    requires StopsAt(server, last)
    requires i + 1 < |Pages(FirstStop(server, 1, last))|
    ensures PageOf(server(Pages(FirstStop(server, 1, last))[i])).More?
  {
    var k := FirstStop(server, 1, last);
    assert Pages(k)[i] == i + 1;
    assert 1 <= i + 1 < k;
    assert Proceeds(server, i + 1);
  }

  /** A loop that ends on page 1 (an error status, an exception, an odd body or no rows) returns
      an empty table. */
  lemma FirstPageStopsEmpty(server: nat -> Reply, show: Json -> string, last: nat)
    requires StopsAt(server, last) && !Proceeds(server, 1)
    ensures AllDongs(server, show, last) == Ok([])
  {
  }

  /** A continuing page adds exactly its rows, after those of the pages before it. */
  lemma CollectedStep(server: nat -> Reply, m: nat)
    requires m >= 1 && Proceeds(server, m)
    ensures Collected(server, m) == Collected(server, m - 1) + PageOf(server(m)).rows
  {
  }

  /** The rows after m pages are a prefix of the rows after n >= m pages. */
  lemma {:induction false} CollectedPrefix(server: nat -> Reply, m: nat, n: nat)
    requires m <= n
    ensures Collected(server, m) <= Collected(server, n)
    decreases n - m
  {
    if m < n {
      CollectedPrefix(server, m, n - 1);
      assert Collected(server, n - 1) <= Collected(server, n);
    }
  }

  /** A stop after page 1 keeps the rows already collected: every page before the stopping
      one contributes its rows, in order, to the rows the table is built from. */
  lemma {:induction false} LaterStopKeepsRows(server: nat -> Reply, show: Json -> string, last: nat, p: nat)
    requires StopsAt(server, last) && 1 <= p < FirstStop(server, 1, last)
    ensures var k := FirstStop(server, 1, last);
            && Proceeds(server, p)
            && Collected(server, p - 1) + PageOf(server(p)).rows <= Collected(server, k - 1)
            && Collected(server, k - 1) != []
    ensures AllDongs(server, show, last) == DistrictTable(Collected(server, FirstStop(server, 1, last) - 1), show)
  {
    assert AllDongs(server, show, last) == DistrictTable(Collected(server, FirstStop(server, 1, last) - 1), show);
    StepPrefix(server, p, FirstStop(server, 1, last) - 1);
  }

  lemma StepPrefix(server: nat -> Reply, p: nat, n: nat)
    requires 1 <= p <= n && Proceeds(server, p)
    ensures Collected(server, p - 1) + PageOf(server(p)).rows <= Collected(server, n)
  {
    CollectedStep(server, p);
    CollectedPrefix(server, p, n);
  }

  /** Whatever the stopping page returned, and whatever comes after it, the result depends only
      on the pages before it. */
  lemma {:induction false} StopPageIgnored(server: nat -> Reply, other: nat -> Reply, show: Json -> string,
                                           last: nat, otherLast: nat)
    requires StopsAt(server, last) && StopsAt(other, otherLast)
    requires !Proceeds(other, FirstStop(server, 1, last))
    requires forall q :: 1 <= q < FirstStop(server, 1, last) ==> other(q) == server(q)
    ensures AllDongs(other, show, otherLast) == AllDongs(server, show, last)
  {
    var k := FirstStop(server, 1, last);
    SameFirstStop(server, other, 1, last, otherLast, k);
    SameCollected(server, other, k - 1);
  }

  lemma {:induction false} SameFirstStop(server: nat -> Reply, other: nat -> Reply, p: nat, last: nat, otherLast: nat, k: nat)
    requires StopsAt(server, last) && StopsAt(other, otherLast)
    requires 1 <= p <= k && p <= last && k == FirstStop(server, p, last)
    requires p <= otherLast && !Proceeds(other, k)
    requires forall q :: p <= q < k ==> other(q) == server(q)
    ensures FirstStop(other, p, otherLast) == k
    decreases k - p
  {
    if p < k {
      assert Proceeds(other, p);
      FirstStopNext(server, p, last);
      FirstStopNext(other, p, otherLast);
      SameFirstStop(server, other, p + 1, last, otherLast, k);
    }
  }

  lemma {:induction false} SameCollected(server: nat -> Reply, other: nat -> Reply, n: nat)
    requires forall q :: 1 <= q <= n ==> other(q) == server(q)
    ensures Collected(other, n) == Collected(server, n)
  {
    if n > 0 {
      SameCollected(server, other, n - 1);
    }
  }

  /** Every output row has a district code and comes from an input record (an active one
      when the flag column exists). */
  lemma DistrictTableRows(items: seq<Json>, show: Json -> string)
    requires DistrictTable(items, show).Ok? && items != []
    ensures var rows := Records(items).value;
            forall d :: d in DistrictTable(items, show).value ==>
              && IsDistrictCode(d.code)
              && exists r :: r in rows && Code(rows, r, show) == d.code && Get(r, "locatadd_nm", JNull) == d.name
                             && (HasColumn(rows, "flag") ==> IsActive(r))
  {
    var rows := Records(items).value;
    var act := ActiveRows(rows);
    var out := FilterMap(act, DongOf(rows, show));
    assert DistrictTable(items, show) == Ok(out);
    FilterMapSource(act, DongOf(rows, show));
    forall d | d in out
      ensures IsDistrictCode(d.code)
      ensures exists r :: r in rows && Code(rows, r, show) == d.code && Get(r, "locatadd_nm", JNull) == d.name
                          && (HasColumn(rows, "flag") ==> IsActive(r))
    {
      var i :| 0 <= i < |act| && DongOf(rows, show)(act[i]) == Some(d);
      var r := act[i];
      assert r in act;
      DongOfShape(rows, r, show, d);
    }
  }

  /** A kept record's output row carries its district code and its name. */
  lemma DongOfShape(rows: seq<map<string, Json>>, r: map<string, Json>, show: Json -> string, d: Dong)
    requires DongOf(rows, show)(r) == Some(d)
    ensures IsDistrictCode(d.code) && d.code == Code(rows, r, show) && d.name == Get(r, "locatadd_nm", JNull)
  {
  }

  /** Every active record with a district code is in the output. */
  lemma DistrictTableComplete(items: seq<Json>, show: Json -> string, i: nat)
    requires DistrictTable(items, show).Ok? && items != []
    requires i < |Records(items).value|
    requires var rows := Records(items).value;
             (HasColumn(rows, "flag") ==> IsActive(rows[i])) && IsDistrictCode(Code(rows, rows[i], show))
    ensures var rows := Records(items).value;
            Dong(Code(rows, rows[i], show), Get(rows[i], "locatadd_nm", JNull)) in DistrictTable(items, show).value
  {
    var rows := Records(items).value;
    var act := ActiveRows(rows);
    assert rows[i] in act;
    var j :| 0 <= j < |act| && act[j] == rows[i];
    FilterMapComplete(act, j, DongOf(rows, show));
  }

  /** District-level codes are kept; province-level and neighbourhood-level ones are not. */
  lemma DistrictCodeExamples()
    ensures IsDistrictCode("1111000000")
    ensures !IsDistrictCode("1100000000")
    ensures !IsDistrictCode("1111010100")
  {
    assert "1111000000"[5..] == "00000";
    assert "1100000000"[2..] == "00000000";
    assert "1111010100"[5..] != "00000" by { assert "1111010100"[5..][0] == '1'; }
  }

  /** The float text of an exact integer ends in ".0", so it never ends in four zeros. */
  lemma FloatTextEnds(i: int, show: Json -> string)
    requires -ExactIntLimit <= i <= ExactIntLimit
    ensures FloatText(i, show) == IntToString(i) + ".0"
    ensures !EndsWith(FloatText(i, show), "0000") && !EndsWith(FloatText(i, show), "00000")
  {
    var t := IntToString(i) + ".0";
    assert t[|t| - 2] == '.';
    assert |t| >= 4 ==> t[|t| - 4..][2] == '.';
    assert |t| >= 5 ==> t[|t| - 5..][3] == '.';
  }

  /** In a float64 code column a gap reads "nan" and an integer code reads as float text;
      neither is a district code. */
  lemma FloatCodeNotDistrict(rows: seq<map<string, Json>>, r: map<string, Json>, show: Json -> string)
    requires IsFloatColumn(rows, "region_cd")
    requires IsGap(r, "region_cd")
             || (r["region_cd"].JInt? && -ExactIntLimit <= r["region_cd"].i <= ExactIntLimit)
    ensures IsGap(r, "region_cd") ==> Code(rows, r, show) == "nan"
    ensures !IsGap(r, "region_cd") ==> Code(rows, r, show) == IntToString(r["region_cd"].i) + ".0"
    ensures !IsDistrictCode(Code(rows, r, show))
  {
    if !IsGap(r, "region_cd") {
      FloatTextEnds(r["region_cd"].i, show);
    }
  }

  /** A code column of integers alone stays an integer column: each code is its digits. */
  lemma IntegerColumnCodes(rows: seq<map<string, Json>>, r: map<string, Json>, show: Json -> string)
    requires forall i :: 0 <= i < |rows| ==> "region_cd" in rows[i] && rows[i]["region_cd"].JInt?
    requires "region_cd" in r
    ensures Code(rows, r, show) == Str(r["region_cd"], show)
  {
  }

  /** When the integer codes share their column with a gap, pandas makes the column float64
      and no code is a district code any more: the table is empty. */
  lemma GapDropsIntegerCodes(items: seq<Json>, show: Json -> string)
    requires DistrictTable(items, show).Ok? && items != []
    requires var rows := Records(items).value;
             && IsFloatColumn(rows, "region_cd")
             && forall i :: 0 <= i < |rows| ==>
                  IsGap(rows[i], "region_cd")
                  || (rows[i]["region_cd"].JInt? && -ExactIntLimit <= rows[i]["region_cd"].i <= ExactIntLimit)
    ensures DistrictTable(items, show).value == []
  {
    var rows := Records(items).value;
    DistrictTableRows(items, show);
    if DistrictTable(items, show).value != [] {
      var d := DistrictTable(items, show).value[0];
      assert d in DistrictTable(items, show).value;
      var r :| r in rows && Code(rows, r, show) == d.code && Get(r, "locatadd_nm", JNull) == d.name
               && (HasColumn(rows, "flag") ==> IsActive(r));
      var k :| 0 <= k < |rows| && rows[k] == r;
      FloatCodeNotDistrict(rows, r, show);
    }
  }

  /** A district code next to a record without one: the district is lost. */
  lemma GapExample(show: Json -> string)
    ensures DistrictTable([JObj(map["region_cd" := JInt(1111000000), "locatadd_nm" := JStr("a")]),
                           JObj(map["locatadd_nm" := JStr("b")])], show) == Ok([])
  {
    var first := map["region_cd" := JInt(1111000000), "locatadd_nm" := JStr("a")];
    var second := map["locatadd_nm" := JStr("b")];
    var items := [JObj(first), JObj(second)];
    var rows := Records(items).value;
    assert rows == [first, second];
    assert !IsGap(rows[0], "region_cd") && IsGap(rows[1], "region_cd");
    assert IsFloatColumn(rows, "region_cd");
    assert forall i :: 0 <= i < |rows| ==>
             IsGap(rows[i], "region_cd")
             || (rows[i]["region_cd"].JInt? && -ExactIntLimit <= rows[i]["region_cd"].i <= ExactIntLimit);
    assert HasColumn(rows, "region_cd") && HasColumn(rows, "locatadd_nm");
    GapDropsIntegerCodes(items, show);
  }
}
