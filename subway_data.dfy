/**
 * The subway table: the rows of the station CSV file turned into a map from
 * line name to a map from station name to coordinates, returned in ascending
 * order of line name.
 *
 * The file is given as its outcome: missing, unreadable (any exception while
 * reading it) or its rows as `csv.DictReader` yields them.
 */
module SubwayLines {
  import opened Wrappers
  import opened Text
  import opened StringOrder
  import Decimal

  /** One CSV row: header name to field text. */
  type Row = map<string, string>

  datatype CsvFile = Missing | Unreadable | Table(rows: seq<Row>)

  type Coords = (real, real)
  type Stations = map<string, Coords>

  /** A numeric line id gets the suffix 호선; any other id is the name as it stands. */
  function LineName(lineId: string): (name: string)
    ensures IsDigits(lineId) ==> name == lineId + "호선"
    ensures !IsDigits(lineId) ==> name == lineId
  {
    if IsDigits(lineId) then lineId + "호선" else lineId
  }

  /** What one row does: nothing (its coordinates do not parse), one entry, or a failure of the
      whole load (a missing column raises `KeyError`, which only the outer handler catches). */
  datatype Entry = Entry(line: string, station: string, coords: Coords)
  datatype RowEffect = Skip | Add(entry: Entry) | Fail

  /** The loop body for one row, in the order the source reads the fields: the longitude
      column is looked up only once the latitude has parsed. */
  function ReadRow(row: Row): (e: RowEffect)
    ensures e.Add? ==> "호선" in row && "역명" in row && "위도" in row && "경도" in row
                       && e.entry.line == LineName(row["호선"]) && e.entry.station == row["역명"]
                       && Decimal.ParseFloat(row["위도"]) == Some(e.entry.coords.0)
                       && Decimal.ParseFloat(row["경도"]) == Some(e.entry.coords.1)
    ensures e.Skip? ==> "위도" in row && (Decimal.ParseFloat(row["위도"]).None? ||
                                            ("경도" in row && Decimal.ParseFloat(row["경도"]).None?))
    ensures e.Fail? <==> "호선" !in row || "역명" !in row || "위도" !in row
                         || (Decimal.ParseFloat(row["위도"]).Some? && "경도" !in row)
  {
    if "호선" !in row || "역명" !in row || "위도" !in row then Fail
    else
      match Decimal.ParseFloat(row["위도"])
      case None => Skip
      case Some(lat) =>
        if "경도" !in row then Fail
        else
          match Decimal.ParseFloat(row["경도"])
          case None => Skip
          case Some(lon) => Add(Entry(LineName(row["호선"]), row["역명"], (lat, lon)))
  }

  /** The table being built: the line names in order of first appearance, and the map. */
  datatype Building = Building(order: seq<string>, lines: map<string, Stations>)

  /** `subway_lines[line][station] = coords`, creating the line's map when it is new. */
  function Put(b: Building, e: Entry): (r: Building)
    ensures r.lines.Keys == b.lines.Keys + {e.line}
    ensures e.station in r.lines[e.line] && r.lines[e.line][e.station] == e.coords
    ensures e.line in b.lines ==> r.lines[e.line].Keys == b.lines[e.line].Keys + {e.station}
    ensures e.line !in b.lines ==> r.lines[e.line] == map[e.station := e.coords]
    ensures forall l :: l in b.lines && l != e.line ==> r.lines[l] == b.lines[l]
    ensures e.line in b.lines ==> forall s :: s in b.lines[e.line] && s != e.station ==>
              r.lines[e.line][s] == b.lines[e.line][s]
    ensures e.line in b.lines ==> r.order == b.order
    ensures e.line !in b.lines ==> r.order == b.order + [e.line]
  {
    var stations := if e.line in b.lines then b.lines[e.line] else map[];
    var order := if e.line in b.lines then b.order else b.order + [e.line];
    Building(order, b.lines[e.line := stations[e.station := e.coords]])
  }

  /** What each row does, in row order. */
  function Effects(rows: seq<Row>): (es: seq<RowEffect>)
    ensures |es| == |rows| && forall i :: 0 <= i < |rows| ==> es[i] == ReadRow(rows[i])
  {
    seq(|rows|, i requires 0 <= i < |rows| => ReadRow(rows[i]))
  }

  /** The effects applied in order to an empty table, or `None` once one fails the load. */
  function Fold(es: seq<RowEffect>): Option<Building> {
    if |es| == 0 then Some(Building([], map[]))
    else
      match Fold(es[..|es| - 1])
      case None => None
      case Some(b) =>
        match es[|es| - 1]
        case Fail => None
        case Skip => Some(b)
        case Add(e) => Some(Put(b, e))
  }

  /** The table the rows build. */
  function Build(rows: seq<Row>): Option<Building> {
    Fold(Effects(rows))
  }

  /** The line names seen are exactly the keys of the map. */
  lemma {:induction false} FoldOrder(es: seq<RowEffect>)
    requires Fold(es).Some?
    ensures forall l :: l in Fold(es).value.order <==> l in Fold(es).value.lines
  {
    if |es| > 0 {
      var init := es[..|es| - 1];
      FoldOrder(init);
      var b := Fold(init).value;
      match es[|es| - 1]
      case Skip =>
      case Add(e) =>
        assert Fold(es).value == Put(b, e);
    }
  }

  /** One more row read. */
  lemma FoldStep(es: seq<RowEffect>, i: nat)
    requires i < |es| && Fold(es[..i]).Some?
    ensures es[i].Fail? ==> Fold(es[..i + 1]).None?
    ensures es[i].Skip? ==> Fold(es[..i + 1]) == Fold(es[..i])
    ensures es[i].Add? ==> Fold(es[..i + 1]) == Some(Put(Fold(es[..i]).value, es[i].entry))
  {
    assert es[..i + 1][..i] == es[..i];
  }

  /** Once a row fails, the load fails whatever follows. */
  lemma {:induction false} FoldFailed(es: seq<RowEffect>, k: nat)
    requires k <= |es| && Fold(es[..k]).None?
    ensures Fold(es).None?
    decreases |es| - k
  {
    if k < |es| {
      assert es[..k + 1][..k] == es[..k];
      FoldFailed(es, k + 1);
    } else {
      assert es[..k] == es;
    }
  }

  /** A row whose coordinates do not parse changes nothing. */
  lemma SkipChangesNothing(rows: seq<Row>, row: Row)
    requires ReadRow(row).Skip?
    ensures Build(rows + [row]) == Build(rows)
  {
    var es := Effects(rows + [row]);
    assert es[..|rows|] == Effects(rows);
  }

  /** The last entry for a line and station decides its coordinates. */
  lemma {:induction false} FoldLastWins(es: seq<RowEffect>, i: nat)
    requires Fold(es).Some?
    requires i < |es| && es[i].Add?
    requires forall j :: i < j < |es| && es[j].Add? ==>
               (es[j].entry.line, es[j].entry.station) != (es[i].entry.line, es[i].entry.station)
    ensures var e := es[i].entry;
            e.line in Fold(es).value.lines && e.station in Fold(es).value.lines[e.line]
            && Fold(es).value.lines[e.line][e.station] == e.coords
  {
    var init := es[..|es| - 1];
    var b := Fold(init).value;
    var e := es[i].entry;
    if i < |es| - 1 {
      assert init[i] == es[i];
      FoldLastWins(init, i);
      match es[|es| - 1]
      case Skip =>
      case Add(e') =>
        var r := Put(b, e');
        assert Fold(es).value == r;
        if e'.line != e.line {
          assert r.lines[e.line] == b.lines[e.line];
        } else {
          assert e'.station != e.station;
        }
    } else {
      assert Fold(es).value == Put(b, e);
    }
  }

  /** The last usable row for a line and station decides its coordinates. */
  lemma LastRowWins(rows: seq<Row>, i: nat)
    requires Build(rows).Some?
    requires i < |rows| && ReadRow(rows[i]).Add?
    requires forall j :: i < j < |rows| && ReadRow(rows[j]).Add? ==>
               (ReadRow(rows[j]).entry.line, ReadRow(rows[j]).entry.station)
                 != (ReadRow(rows[i]).entry.line, ReadRow(rows[i]).entry.station)
    ensures var e := ReadRow(rows[i]).entry;
            e.line in Build(rows).value.lines && e.station in Build(rows).value.lines[e.line]
            && Build(rows).value.lines[e.line][e.station] == e.coords
  {
    FoldLastWins(Effects(rows), i);
  }

  /** Every station in the table, with its coordinates, was put there by some entry. */
  lemma {:induction false} FoldSound(es: seq<RowEffect>, l: string, st: string)
    requires Fold(es).Some? && l in Fold(es).value.lines && st in Fold(es).value.lines[l]
    ensures exists i :: 0 <= i < |es| && es[i] == Add(Entry(l, st, Fold(es).value.lines[l][st]))
  {
    var init := es[..|es| - 1];
    var b := Fold(init).value;
    var c := Fold(es).value.lines[l][st];
    match es[|es| - 1]
    case Skip =>
      FoldSound(init, l, st);
      var i :| 0 <= i < |init| && init[i] == Add(Entry(l, st, c));
      assert es[i] == init[i];
    case Add(e) =>
      if e.line == l && e.station == st {
        assert es[|es| - 1] == Add(Entry(l, st, c));
      } else {
        assert Fold(es).value == Put(b, e);
        assert l in b.lines && st in b.lines[l] && b.lines[l][st] == c;
        FoldSound(init, l, st);
        var i :| 0 <= i < |init| && init[i] == Add(Entry(l, st, c));
        assert es[i] == init[i];
      }
  }

  /** Every line and station of the built table comes from a usable row with those coordinates. */
  lemma {:induction false} BuildSound(rows: seq<Row>, l: string, st: string)
    requires Build(rows).Some? && l in Build(rows).value.lines && st in Build(rows).value.lines[l]
    ensures exists i :: 0 <= i < |rows| && ReadRow(rows[i]) == Add(Entry(l, st, Build(rows).value.lines[l][st]))
  {
    FoldSound(Effects(rows), l, st);
    var i :| 0 <= i < |rows| && Effects(rows)[i] == Add(Entry(l, st, Build(rows).value.lines[l][st]));
  }

  /** The entries the table is returned with: line names in ascending order, each with its stations. */
  function InLineOrder(b: Building): (r: seq<(string, Stations)>)
    requires forall l :: l in b.order ==> l in b.lines
  {
    var names := SortedSet(b.order);
    seq(|names|, i requires 0 <= i < |names| => (names[i], b.lines[names[i]]))
  }

  /** `load_subway_data()` as a value: empty when the file is missing or unreadable or a row
      fails; otherwise the built table in ascending order of line name. */
  function Loaded(file: CsvFile): (r: seq<(string, Stations)>)
    ensures file.Missing? || file.Unreadable? ==> r == []
    ensures file.Table? && Build(file.rows).None? ==> r == []
  {
    match file
    case Missing => []
    case Unreadable => []
    case Table(rows) =>
      match Build(rows)
      case None => []
      case Some(b) => FoldOrder(Effects(rows)); InLineOrder(b)
  }

  /** The result lists every line exactly once, in ascending order, with the stations built for it. */
  lemma {:induction false} LoadedShape(rows: seq<Row>)
    requires Build(rows).Some?
    ensures var r := Loaded(Table(rows));
            && Sorted(seq(|r|, i requires 0 <= i < |r| => r[i].0))
            && (forall l :: l in Build(rows).value.lines <==> exists i :: 0 <= i < |r| && r[i].0 == l)
            && (forall i :: 0 <= i < |r| ==> r[i].1 == Build(rows).value.lines[r[i].0])
  {
    var b := Build(rows).value;
    FoldOrder(Effects(rows));
    assert Loaded(Table(rows)) == InLineOrder(b);
    InLineOrderShape(b);
  }

  lemma InLineOrderShape(b: Building)
    requires forall l :: l in b.order <==> l in b.lines
    ensures var r := InLineOrder(b);
            && Sorted(seq(|r|, i requires 0 <= i < |r| => r[i].0))
            && (forall l :: l in b.lines <==> exists i :: 0 <= i < |r| && r[i].0 == l)
            && (forall i :: 0 <= i < |r| ==> r[i].1 == b.lines[r[i].0])
  {
    var names := SortedSet(b.order);
    var r := InLineOrder(b);
    assert seq(|r|, i requires 0 <= i < |r| => r[i].0) == names;
    forall l | l in b.lines ensures exists i :: 0 <= i < |r| && r[i].0 == l {
      assert l in names;
      var i :| 0 <= i < |names| && names[i] == l;
      assert r[i].0 == l;
    }
  }

  /** `load_subway_data()`. */
  method LoadSubwayData(file: CsvFile) returns (r: seq<(string, Stations)>)
    ensures r == Loaded(file)
  {
    if file.Missing? || file.Unreadable? {
      return [];
    }
    var rows := file.rows;
    ghost var es := Effects(rows);
    var b := Building([], map[]);
    var i := 0;
    while i < |rows|
      invariant 0 <= i <= |rows|
      invariant Fold(es[..i]) == Some(b)
    {
      FoldStep(es, i);
      var effect := ReadRow(rows[i]);
      if effect.Fail? {
        FoldFailed(es, i + 1);
        return [];
      }
      if effect.Add? {
        b := Put(b, effect.entry);
      }
      i := i + 1;
    }
    assert es[..i] == es;
    FoldOrder(es);
    r := InLineOrder(b);
  }
}
