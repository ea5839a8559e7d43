/**
 * The single-request variant of the code list: the first page of the
 * standard-region-code service, with every code ending in four zeros removed.
 * Every failure, whether an error status, an unexpected body or an exception
 * while building the table, yields an empty table.
 */
module LegalDongCodes {
  import opened Wrappers
  import opened Text
  import opened Json
  import opened Lists
  import opened Numerals
  import opened DistrictCodes

  /** `data["StanReginCd"][1]["row"]`, when the body has that shape (any value of `row`). */
  function RowValue(data: Json): (r: Option<Json>)
    ensures r.Some? <==> data.JObj? && "StanReginCd" in data.fields && data.fields["StanReginCd"].JArr?
                         && |data.fields["StanReginCd"].items| > 1 && data.fields["StanReginCd"].items[1].JObj?
                         && "row" in data.fields["StanReginCd"].items[1].fields
    ensures r.Some? ==> r.value == data.fields["StanReginCd"].items[1].fields["row"]
  {
    match data
    case JObj(m) =>
      (match Get(m, "StanReginCd", JNull)
       case JArr(parts) =>
         if |parts| > 1 && parts[1].JObj? && "row" in parts[1].fields then Some(parts[1].fields["row"]) else None
       case _ => None)
    case _ => None
  }

  /** A code below the district level: not ending in "0000". */
  predicate IsFineCode(code: string) {
    !EndsWith(code, "0000")
  }

  /** A table as `pd.DataFrame(items)` builds it: its records, and the columns it has
      although no record holds them (those of a dict of empty lists). */
  datatype Frame = Frame(rows: seq<map<string, Json>>, keys: set<string>)

  /** `column in df.columns`. */
  predicate FrameHas(f: Frame, column: string) {
    column in f.keys || HasColumn(f.rows, column)
  }

  /** The lengths of the list values of a dict of columns. */
  function ListLengths(m: map<string, Json>): set<nat> {
    set k | k in m && m[k].JArr? :: |m[k].items|
  }

  /** The records of a dict of columns whose lists all have length `n`: row `i` holds the
      `i`-th element of every list and every other value broadcast. */
  function ColumnRows(m: map<string, Json>, n: nat): (rows: seq<map<string, Json>>)
    requires forall k :: k in m && m[k].JArr? ==> |m[k].items| == n
    ensures |rows| == n
    ensures forall i :: 0 <= i < n ==> rows[i].Keys == m.Keys
    ensures forall i, k :: 0 <= i < n && k in m ==>
              rows[i][k] == if m[k].JArr? then m[k].items[i] else m[k]
  {
    seq(n, i requires 0 <= i < n => map k | k in m :: if m[k].JArr? then m[k].items[i] else m[k])
  }

  /** `pd.DataFrame(items)`, or `None` where it raises. A list gives its records (it raises
      unless every element is a dict). A dict with no entries gives an empty table, and one
      of columns gives a record per position of its lists, scalars broadcast; it raises when
      the lists differ in length, when there is no list at all, or when a value is a dict. */
  function FrameOf(items: Json): (f: Option<Frame>)
    ensures items.JArr? ==> (f.Some? <==> Records(items.items).Some?)
    ensures items.JArr? && f.Some? ==> f.value.rows == Records(items.items).value && f.value.keys == {}
    ensures items.JObj? ==>
              (f.Some? <==> items.fields == map[]
                            || ((forall k :: k in items.fields ==> !items.fields[k].JObj?)
                                && exists n :: n in ListLengths(items.fields) && ListLengths(items.fields) == {n}))
    ensures items.JObj? && f.Some? ==> f.value.keys == items.fields.Keys
    ensures items.JObj? && f.Some? ==>
              (forall k :: k in items.fields && items.fields[k].JArr? ==> |items.fields[k].items| == |f.value.rows|)
              && (forall i, k :: 0 <= i < |f.value.rows| && k in items.fields ==>
                    k in f.value.rows[i]
                    && f.value.rows[i][k] == if items.fields[k].JArr? then items.fields[k].items[i] else items.fields[k])
    ensures !items.JArr? && !items.JObj? ==> f.None?
  {
    match items
    case JArr(a) => (match Records(a) case Some(rows) => Some(Frame(rows, {})) case None => None)
    case JObj(m) =>
      if m == map[] then Some(Frame([], {}))
      else if (forall k :: k in m ==> !m[k].JObj?) && exists n :: n in ListLengths(m) && ListLengths(m) == {n} then
        var n :| n in ListLengths(m) && ListLengths(m) == {n};
        assert forall k :: k in m && m[k].JArr? ==> |m[k].items| in ListLengths(m);
        Some(Frame(ColumnRows(m, n), m.Keys))
      else None
    case _ => None
  }

  /** The output row of a kept record; `rows` is the whole table, which fixes the column's dtype. */
  function FineDongOf(rows: seq<map<string, Json>>, show: Json -> string): map<string, Json> -> Option<Dong> {
    r => if IsFineCode(Code(rows, r, show)) then Some(Dong(Code(rows, r, show), Get(r, "locatadd_nm", JNull))) else None
  }

  /** The table built from `row`, or `None` where pandas raises. */
  function FineTable(items: Json, show: Json -> string): (t: Option<seq<Dong>>)
    ensures t.Some? <==> FrameOf(items).Some?
                         && FrameHas(FrameOf(items).value, "region_cd")
                         && FrameHas(FrameOf(items).value, "locatadd_nm")
  {
    match FrameOf(items)
    case Some(f) =>
      if FrameHas(f, "region_cd") && FrameHas(f, "locatadd_nm") then Some(FilterMap(f.rows, FineDongOf(f.rows, show)))
      else None
    case None => None
  }

  /** `get_all_dongs()` of this variant; the request is the first page. */
  function LegalDongs(reply: Reply, show: Json -> string): (t: seq<Dong>)
    ensures reply.Raised? || reply.status != 200 ==> t == []
    ensures reply.Reply? && RowValue(reply.data).None? ==> t == []
    ensures reply.Reply? && reply.status == 200 && RowValue(reply.data).Some? ==>
              (FineTable(RowValue(reply.data).value, show).None? ==> t == [])
              && (FineTable(RowValue(reply.data).value, show).Some? ==> t == FineTable(RowValue(reply.data).value, show).value)
  {
    if reply.Raised? || reply.status != 200 then []
    else
      match RowValue(reply.data)
      case None => []
      case Some(items) => FineTable(items, show).GetOr([])
  }

  /** No output code ends in "0000", every output row comes from a record of the reply, and
      every record whose code does not end in "0000" is in the output. */
  lemma LegalDongsRows(reply: Reply, show: Json -> string)
    requires reply.Reply? && reply.status == 200 && RowValue(reply.data).Some?
    requires FineTable(RowValue(reply.data).value, show).Some?
    ensures var rows := FrameOf(RowValue(reply.data).value).value.rows;
            && (forall d :: d in LegalDongs(reply, show) ==>
                  IsFineCode(d.code)
                  && exists r :: r in rows && Code(rows, r, show) == d.code && Get(r, "locatadd_nm", JNull) == d.name)
            && (forall i :: 0 <= i < |rows| && IsFineCode(Code(rows, rows[i], show)) ==>
                  Dong(Code(rows, rows[i], show), Get(rows[i], "locatadd_nm", JNull)) in LegalDongs(reply, show))
  {
    var rows := FrameOf(RowValue(reply.data).value).value.rows;
    FilterMapSource(rows, FineDongOf(rows, show));
    forall d | d in LegalDongs(reply, show)
      ensures IsFineCode(d.code)
              && exists r :: r in rows && Code(rows, r, show) == d.code && Get(r, "locatadd_nm", JNull) == d.name
    {
      var i :| 0 <= i < |rows| && FineDongOf(rows, show)(rows[i]) == Some(d);
      assert rows[i] in rows;
    }
    forall i | 0 <= i < |rows| && IsFineCode(Code(rows, rows[i], show))
      ensures Dong(Code(rows, rows[i], show), Get(rows[i], "locatadd_nm", JNull)) in LegalDongs(reply, show)
    {
      FilterMapComplete(rows, i, FineDongOf(rows, show));
    }
  }

  /** In a float64 code column, gaps and integer codes never end in "0000": each is kept, a
      gap as "nan" and a code as float text, so that a province code 1100000000 comes out as
      "1100000000.0". */
  lemma FloatCodesKept(reply: Reply, show: Json -> string, i: nat)
    requires reply.Reply? && reply.status == 200 && RowValue(reply.data).Some?
    requires FineTable(RowValue(reply.data).value, show).Some?
    requires var rows := FrameOf(RowValue(reply.data).value).value.rows;
             && i < |rows| && IsFloatColumn(rows, "region_cd")
             && (IsGap(rows[i], "region_cd")
                 || (rows[i]["region_cd"].JInt? && -ExactIntLimit <= rows[i]["region_cd"].i <= ExactIntLimit))
    ensures var rows := FrameOf(RowValue(reply.data).value).value.rows;
            && (IsGap(rows[i], "region_cd") ==> Dong("nan", Get(rows[i], "locatadd_nm", JNull)) in LegalDongs(reply, show))
            && (!IsGap(rows[i], "region_cd") ==>
                  Dong(IntToString(rows[i]["region_cd"].i) + ".0", Get(rows[i], "locatadd_nm", JNull)) in LegalDongs(reply, show))
  {
    var rows := FrameOf(RowValue(reply.data).value).value.rows;
    FloatCodeNotDistrict(rows, rows[i], show);
    if !IsGap(rows[i], "region_cd") {
      FloatTextEnds(rows[i]["region_cd"].i, show);
    }
    LegalDongsRows(reply, show);
  }

  /** A dict of column lists is a table too: one column entry per record. */
  lemma DictRowExample(show: Json -> string)
    ensures FineTable(JObj(map["region_cd" := JArr([JStr("1111010100")]), "locatadd_nm" := JArr([JStr("x")])]), show)
            == Some([Dong("1111010100", JStr("x"))])
  {
    var m := map["region_cd" := JArr([JStr("1111010100")]), "locatadd_nm" := JArr([JStr("x")])];
    DictRowFrame(m);
    var f := FrameOf(JObj(m)).value;
    assert !IsFloatColumn(f.rows, "region_cd");
    assert Code(f.rows, f.rows[0], show) == "1111010100";
    assert FineDongOf(f.rows, show)(f.rows[0]) == Some(Dong("1111010100", JStr("x")));
    assert f.rows[..0] == [];
    assert FilterMap(f.rows, FineDongOf(f.rows, show)) == [Dong("1111010100", JStr("x"))];
  }

  lemma DictRowFrame(m: map<string, Json>)
    requires m == map["region_cd" := JArr([JStr("1111010100")]), "locatadd_nm" := JArr([JStr("x")])]
    ensures FrameOf(JObj(m)).Some?
    ensures var f := FrameOf(JObj(m)).value;
            && "region_cd" in f.keys && "locatadd_nm" in f.keys && |f.rows| == 1
            && "region_cd" in f.rows[0] && f.rows[0]["region_cd"] == JStr("1111010100")
            && Get(f.rows[0], "locatadd_nm", JNull) == JStr("x")
  {
    assert ListLengths(m) == {1} by {
      assert |m["region_cd"].items| in ListLengths(m);
    }
    assert "region_cd" in m && "locatadd_nm" in m;
  }

  /** The two variants keep disjoint sets of codes: a district code always ends in "0000". */
  lemma VariantsDisjoint(code: string)
    ensures !(IsDistrictCode(code) && IsFineCode(code))
  {
    if EndsWith(code, "00000") {
      assert code[|code| - 4..] == code[|code| - 5..][1..];
    }
  }
}
