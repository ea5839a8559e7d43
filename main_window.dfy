/**
 * The desktop collector's window logic: reading the region code and centre
 * from the region box, the progress bar value and label, the window state
 * around a collection run, and the decisions of the save-to-Excel command.
 *
 * The region table is a map from region code to (latitude, longitude, name).
 * The region box is given by its current index (-1 when nothing is selected),
 * the code stored with the selected entry, and its current text. The save
 * dialog and the default-file-name rule are functions.
 */
module Desktop {
  import opened Wrappers
  import opened Text
  import opened Numerals
  import opened Json
  import ListingTable

  type RegionTable = map<string, (real, real, string)>

  /** The text of a region box entry: `f"{name} ({cortar_no})"`. */
  function ComboLabel(name: string, code: string): string {
    name + " (" + code + ")"
  }

  /** The code candidate read from typed text: the stripped text between the last "(" and
      the last ")" when both occur, otherwise the whole text. */
  function Candidate(text: string): string {
    if '(' in text && ')' in text then
      var start := RFind(text, '(') + 1;
      var end := RFind(text, ')');
      Strip(Slice(text, start, end))
    else text
  }

  /** `_get_cortar_and_coords`: the selected entry's code if it is in the table, otherwise a
      digit-only code typed into the box (bare or in parentheses) that is in the table. */
  function CortarAndCoords(index: int, itemData: Option<string>, currentText: string, config: RegionTable):
    (r: Option<(string, real, real)>)
    ensures r.Some? ==> r.value.0 in config && r.value.1 == config[r.value.0].0 && r.value.2 == config[r.value.0].1
    ensures index >= 0 && itemData.Some? && itemData.value != [] && itemData.value in config ==> r.Some? && r.value.0 == itemData.value
    ensures !(index >= 0 && itemData.Some? && itemData.value != [] && itemData.value in config) ==>
              (r.Some? <==> var c := Candidate(Strip(currentText)); Strip(currentText) != [] && IsDigits(c) && c in config)
              && (r.Some? ==> r.value.0 == Candidate(Strip(currentText)))
  {
    if index >= 0 && itemData.Some? && itemData.value != [] && itemData.value in config then
      var (lat, lon, _) := config[itemData.value];
      Some((itemData.value, lat, lon))
    else
      var text := Strip(currentText);
      if text == [] then None
      else
        var code := Candidate(text);
        if IsDigits(code) && code in config then
          var (lat, lon, _) := config[code];
          Some((code, lat, lon))
        else None
  }

  /** Typed text ending in "(code)" yields that code. */
  lemma CandidateOfLabel(text: string, code: string)
    requires IsDigits(code) && EndsWith(text, "(" + code + ")")
    ensures Candidate(text) == code
  {
    var n := |text|;
    var open, close := n - |code| - 2, n - 1;
    assert text[open..] == "(" + code + ")";
    assert text[open] == '(' && text[close] == ')';
    assert forall i :: open < i < n ==> text[i] != '(' by {
      forall i | open < i < n ensures text[i] != '(' {
        assert text[i] == ("(" + code + ")")[i - open];
      }
    }
    RFindAt(text, '(', open);
    RFindAt(text, ')', close);
    assert Slice(text, open + 1, close) == code by {
      assert text[open + 1..close] == ("(" + code + ")")[1..|code| + 1];
    }
    StripStripped(code);
  }

  /** Typing an entry's own text finds that entry: the code in its text is read back. */
  lemma LabelRoundTrip(name: string, code: string, config: RegionTable)
    requires IsDigits(code) && code in config
    ensures CortarAndCoords(-1, None, ComboLabel(name, code), config) == Some((code, config[code].0, config[code].1))
  {
    var entry := ComboLabel(name, code);
    var suffix := "(" + code + ")";
    assert entry == (name + " ") + suffix;
    assert EndsWith(entry, suffix);
    StripEndsWith(entry, suffix);
    CandidateOfLabel(Strip(entry), code);
  }

  /** `int(100 * current / total)` for `total > 0`, otherwise 0: true division, then
      truncation toward zero. */
  function ProgressPercent(current: int, total: int): (pct: int)
    ensures total <= 0 ==> pct == 0
    ensures total > 0 && current >= 0 ==> pct * total <= 100 * current < (pct + 1) * total
  {
    if total <= 0 then 0
    else
      var scaled := 100 * current;
      if scaled >= 0 then DivFloor(scaled, total); scaled / total else -((-scaled) / total)
  }

  /** Integer division of a non-negative number rounds down. */
  lemma DivFloor(a: int, b: int)
    requires a >= 0 && b > 0
    ensures (a / b) * b <= a < (a / b + 1) * b
  {
    var q, r := a / b, a % b;
    assert a == q * b + r && 0 <= r < b;
    assert (q + 1) * b == q * b + b;
  }

  /** Multiplying by a positive number keeps a strict order. */
  lemma MulLess(x: int, y: int, t: int)
    requires t > 0 && x * t < y * t
    ensures x < y
  {
    if x >= y {
      assert x * t - y * t == (x - y) * t;
      MulNonNegative(x - y, t);
    }
  }

  lemma MulNonNegative(a: int, b: int)
    requires a >= 0 && b >= 0
    ensures a * b >= 0
  {
  }

  /** A floor quotient of a number between 0 and `100 * t` lies between 0 and 100, and is 100 for `100 * t` itself. */
  lemma QuotientRange(q: int, t: int, a: int)
    requires t > 0 && 0 <= a <= 100 * t
    requires q * t <= a < (q + 1) * t
    ensures 0 <= q <= 100
    ensures a == 100 * t ==> q == 100
  {
    MulLess(0, q + 1, t);
    MulLess(q, 101, t);
    if a == 100 * t {
      MulLess(100, q + 1, t);
    }
  }

  /** For a count within the total the bar stays between 0 and 100, and reaches 100 at the end. */
  lemma ProgressPercentRange(current: int, total: int)
    requires total > 0 && 0 <= current <= total
    ensures 0 <= ProgressPercent(current, total) <= 100
    ensures current == total ==> ProgressPercent(current, total) == 100
  {
    MulNonNegative(100, total - current);
    assert 100 * (total - current) == 100 * total - 100 * current;
    QuotientRange(ProgressPercent(current, total), total, 100 * current);
  }

  /** A later count never shows a smaller percentage. */
  lemma ProgressPercentMonotone(c1: int, c2: int, total: int)
    requires 0 <= c1 <= c2
    ensures ProgressPercent(c1, total) <= ProgressPercent(c2, total)
  {
    if total > 0 {
      var p1, p2 := ProgressPercent(c1, total), ProgressPercent(c2, total);
      assert p1 * total <= 100 * c1 <= 100 * c2 < (p2 + 1) * total;
      MulLess(p1, p2 + 1, total);
    }
  }

  /** The progress label: `f"{message} ({current}/{total})"`. */
  function ProgressText(current: int, total: int, message: string): string {
    message + " (" + IntToString(current) + "/" + IntToString(total) + ")"
  }

  /** The region part of the default file name: the box text (or "지역" when empty), cut
      before its first "(" and stripped; text without "(" is kept as it is. */
  function DefaultRegionLabel(text: string): (r: string)
    ensures text == [] ==> r == "지역"
    ensures text != [] && '(' !in text ==> r == text
    ensures '(' in text ==> r == Strip(text[..Find(text, '(')]) && '(' !in r
  {
    var region := if text == [] then "지역" else text;
    if '(' in region then
      var k := Find(region, '(');
      var r := Strip(region[..k]);
      assert '(' !in region[..k];
      r
    else region
  }

  /** A region box entry gives back its region name, stripped. */
  lemma DefaultRegionLabelOfCombo(name: string, code: string)
    requires '(' !in name
    ensures DefaultRegionLabel(ComboLabel(name, code)) == Strip(name + " ")
  {
    var entry := ComboLabel(name, code);
    ComboLabelOpen(name, code);
    FindAt(entry, '(', |name| + 1);
  }

  /** The first "(" of an entry follows its name and a space. */
  lemma ComboLabelOpen(name: string, code: string)
    requires '(' !in name
    ensures var entry := ComboLabel(name, code);
            && |name| + 1 < |entry| && entry[|name| + 1] == '(' && entry[..|name| + 1] == name + " "
            && forall i :: 0 <= i < |name| + 1 ==> entry[i] != '('
  {
    var entry := ComboLabel(name, code);
    assert entry == name + " " + "(" + code + ")";
    forall i | 0 <= i < |name| + 1 ensures entry[i] != '(' {
      if i < |name| { assert entry[i] == name[i]; }
    }
  }

  /** The first occurrence found at `p`. */
  lemma FindAt(s: string, c: char, p: nat)
    requires p < |s| && s[p] == c && forall i :: 0 <= i < p ==> s[i] != c
    ensures Find(s, c) == p
  {
  }

  /** The chosen path with ".xlsx" appended unless it already ends with it. */
  function WithXlsx(path: string): (r: string)
    ensures EndsWith(r, ".xlsx")
    ensures r == path <==> EndsWith(path, ".xlsx")
    ensures StartsWith(r, path)
  {
    if EndsWith(path, ".xlsx") then path
    else
      var r := path + ".xlsx";
      assert r[|r| - 5..] == ".xlsx";
      assert r[..|path|] == path;
      r
  }

  /** Appending the suffix is idempotent. */
  lemma WithXlsxIdempotent(path: string)
    ensures WithXlsx(WithXlsx(path)) == WithXlsx(path)
  {
  }

  /** What the save command does. */
  datatype SaveOutcome =
    | NothingToSave                                                  // the "저장 불가" warning
    | Cancelled(defaultName: string)                                 // the dialog returned no path
    | Saved(path: string, table: Result<ListingTable.Table, ListingTable.TableError>)  // `save_to_excel` on the final path

  /** The window's state: the collected items and the widgets the handlers update. */
  class MainWindow {
    var items: seq<Json>
    var running: bool          // a worker is attached
    var progressValue: int
    var progressLabel: string
    var countLabel: string
    var statusMessage: string
    var startEnabled: bool
    var cancelEnabled: bool
    var excelEnabled: bool

    /** The buttons follow the worker, and export is only offered with items to export. */
    predicate Valid()
      reads this
    {
      && cancelEnabled == running
      && startEnabled == !running
      && (excelEnabled ==> items != [])
    }

    constructor()
      ensures Valid()
      ensures items == [] && !running && progressValue == 0 && progressLabel == "대기 중..."
      ensures countLabel == "총 0건" && statusMessage == "지역을 선택하고 '수집 시작'을 클릭하세요."
      ensures startEnabled && !cancelEnabled && !excelEnabled
    {
      items := [];
      running := false;
      progressValue := 0;
      progressLabel := "대기 중...";
      countLabel := "총 0건";
      statusMessage := "지역을 선택하고 '수집 시작'을 클릭하세요.";
      startEnabled := true;
      cancelEnabled := false;
      excelEnabled := false;
    }

    /** `_start_worker`: clears the items and the bar and attaches a worker. */
    method StartWorker()
      requires Valid()
      modifies this
      ensures Valid()
      ensures items == [] && running && progressValue == 0 && progressLabel == "수집 준비 중..."
      ensures statusMessage == "매물 수집 중..." && !excelEnabled
      ensures countLabel == old(countLabel)
    {
      items := [];
      startEnabled := false;
      cancelEnabled := true;
      excelEnabled := false;
      progressValue := 0;
      progressLabel := "수집 준비 중...";
      statusMessage := "매물 수집 중...";
      running := true;
    }

    /** `_on_start_scrape`: starts a run for a region found in the box, or changes nothing. */
    method OnStartScrape(index: int, itemData: Option<string>, currentText: string, config: RegionTable)
      returns (region: Option<(string, real, real)>)
      requires Valid()
      modifies this
      ensures Valid()
      ensures region == CortarAndCoords(index, itemData, currentText, config)
      ensures region.None? ==> unchanged(this)
      ensures region.Some? ==> items == [] && running && progressValue == 0 && progressLabel == "수집 준비 중..."
      ensures region.Some? ==> statusMessage == "매물 수집 중..." && !excelEnabled && countLabel == old(countLabel)
    {
      region := CortarAndCoords(index, itemData, currentText, config);
      if region.Some? {
        StartWorker();
      }
    }

    /** `_on_progress`: the bar shows the percentage and the entry the message with the counts.
        The bar's range is 0..100, and a percentage outside it leaves the bar as it was. */
    method OnProgress(current: int, total: int, message: string)
      requires Valid()
      modifies this
      ensures Valid()
      ensures 0 <= ProgressPercent(current, total) <= 100 ==> progressValue == ProgressPercent(current, total)
      ensures !(0 <= ProgressPercent(current, total) <= 100) ==> progressValue == old(progressValue)
      ensures progressLabel == ProgressText(current, total, message)
      ensures items == old(items) && running == old(running) && countLabel == old(countLabel)
      ensures excelEnabled == old(excelEnabled) && statusMessage == old(statusMessage)
    {
      var pct := ProgressPercent(current, total);
      if 0 <= pct <= 100 {
        progressValue := pct;
      }
      progressLabel := ProgressText(current, total, message);
    }

    /** `_finish_scrape`: a full bar, "완료", and no worker. */
    method FinishScrape()
      requires Valid()
      modifies this
      ensures Valid()
      ensures !running && progressValue == 100 && progressLabel == "완료"
      ensures items == old(items) && excelEnabled == old(excelEnabled)
      ensures countLabel == old(countLabel) && statusMessage == old(statusMessage)
    {
      startEnabled := true;
      cancelEnabled := false;
      progressValue := 100;
      progressLabel := "완료";
      running := false;
    }

    /** `_on_finished_success`: keeps the items, shows their count, offers export when there are any. */
    method OnFinishedSuccess(newItems: seq<Json>)
      requires Valid()
      modifies this
      ensures Valid()
      ensures items == newItems && !running && progressValue == 100 && progressLabel == "완료"
      ensures excelEnabled <==> |newItems| > 0
      ensures countLabel == "총 " + IntToString(|newItems|) + "건"
      ensures statusMessage == "수집 완료: " + IntToString(|newItems|) + "건"
    {
      items := newItems;
      excelEnabled := false;
      FinishScrape();
      statusMessage := "수집 완료: " + IntToString(|newItems|) + "건";
      countLabel := "총 " + IntToString(|newItems|) + "건";
      excelEnabled := |newItems| > 0;
    }

    /** `_on_finished_error`: ends the run and keeps whatever was there before. */
    method OnFinishedError(message: string)
      requires Valid()
      modifies this
      ensures Valid()
      ensures !running && progressValue == 100 && progressLabel == "완료" && statusMessage == "오류 발생"
      ensures items == old(items) && excelEnabled == old(excelEnabled) && countLabel == old(countLabel)
    {
      FinishScrape();
      statusMessage := "오류 발생";
    }

    /** `_on_save_excel`: nothing without items; otherwise the dialog is offered the default
        name for the box text, and a chosen path gets ".xlsx" before the table is written.
        A written table puts "저장 완료: " and the absolute path of the file in the status bar. */
    method OnSaveExcel(currentText: string, defaultFilename: string -> string,
                       dialog: string -> string, absolutePath: string -> string, show: Json -> string)
      returns (outcome: SaveOutcome)
      requires Valid()
      modifies this
      ensures Valid()
      ensures items == [] ==> outcome == NothingToSave
      ensures items != [] && dialog(defaultFilename(DefaultRegionLabel(currentText))) == [] ==>
                outcome == Cancelled(defaultFilename(DefaultRegionLabel(currentText)))
      ensures items != [] && dialog(defaultFilename(DefaultRegionLabel(currentText))) != [] ==>
                outcome == Saved(WithXlsx(dialog(defaultFilename(DefaultRegionLabel(currentText)))),
                                 ListingTable.SaveToExcel(items, show))
      ensures outcome.Saved? && outcome.table.Ok? ==> statusMessage == "저장 완료: " + absolutePath(outcome.path)
      ensures !(outcome.Saved? && outcome.table.Ok?) ==> statusMessage == old(statusMessage)
      ensures items == old(items) && running == old(running) && progressValue == old(progressValue)
      ensures progressLabel == old(progressLabel) && countLabel == old(countLabel)
      ensures startEnabled == old(startEnabled) && cancelEnabled == old(cancelEnabled) && excelEnabled == old(excelEnabled)
    {
      if items == [] {
        return NothingToSave;
      }
      var defaultName := defaultFilename(DefaultRegionLabel(currentText));
      var path := dialog(defaultName);
      if path == [] {
        return Cancelled(defaultName);
      }
      path := WithXlsx(path);
      var table := ListingTable.SaveToExcel(items, show);
      outcome := Saved(path, table);
      if table.Ok? {
        statusMessage := "저장 완료: " + absolutePath(path);
      }
    }
  }
}
