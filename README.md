# Real-estate listing tools, modelled in Dafny

This project models the deterministic core of a Korean real-estate toolkit:

- the Naver Land listing scraper: bounding box, cluster total, article pages and the paging loop with cancellation and progress;
- the listing table: fifteen fixed columns, cell flattening, and the "N억M" price parser;
- the dashboard's region search and filter rules;
- the desktop window's region-code reading, progress and export rules;
- the school finder over an OpenStreetMap Overpass reply;
- the two administrative-code fetchers over the Korean standard region-code service;
- the subway station table loader;
- the three 억/만원 price formatters;
- the two infrastructure-score calculators.

Every network reply, file, dialog, clock and external call is an input value or a function parameter:

- a page oracle `nat -> Fetch` for the scraper;
- a URL-to-reply function for the region search;
- `CsvFile` for the station table;
- a `Counter` for the place-count service;
- a `show` function for Python's `str()` of values whose text the model does not spell out.

Each loop in the source is a `method` with a `while` loop. The method is proved equal to a specification function, and the properties are proved about that function as lemmas. A `while True` loop that only ends when the server says so takes a ghost bound `last`, with the precondition that page `last` stops the loop. The methods of the desktop window change the fields of a `MainWindow` class.

Python's truncating `int()` and floor-dividing `//` and `%` are written out where negative values can reach them. Prices are unbounded integers, as in Python.

Shared helper modules:

| module | contents |
|---|---|
| `Wrappers` | `Option`, `Result` |
| `Text` | strip, find, slicing, containment and digit tests |
| `Numerals` | decimal text of integers and `{:,}` grouping |
| `Decimal` | the decimal subset of `float()` |
| `StringOrder` | code-point order and sorted sets |
| `Json` | dynamic values, truthiness, `dict.get`, `str()`, `float()` |
| `PercentEncoding` | `urllib.parse.quote` |
| `Lists` | filter-map, take, and selection (`Where`) |

## Model

| member | source | states |
|---|---|---|
| Scraper.CalcBounds | scraper.py:39-48 | The box is centred on (lat, lon), 0.18 high and 0.36 wide, whatever the zoom; so btm < lat < top and lft < lon < rgt |
| Scraper.Checked | scraper.py:81-82 | A reply is accepted exactly when it arrived as a dict whose `code` is "success"; otherwise an error is raised |
| Scraper.EntryCount | scraper.py:84-85 | A cluster entry with no `count` contributes 1; an integer `count` contributes itself |
| Scraper.ClusterTotalAppend | scraper.py:84-85 | The total of two concatenated entry lists is the sum of their totals |
| Scraper.ClusterTotalNonNegative | scraper.py:84-85 | Entries whose counts are non-negative integers or absent give a total >= 0 |
| Scraper.ClusterTotalWithoutCounts | scraper.py:84-85 | Entries with no `count` give the number of entries |
| Scraper.ClusterTotalExample | scraper.py:84-85 | [{count:3},{count:5},{}] totals 9 |
| Scraper.Entries | scraper.py:84 | A list field gives its elements |
| Scraper.RegionName | scraper.py:87-91 | The name is `data.cortar.detail.regionName` when present; a missing or empty `cortar` gives "" |
| Scraper.FetchClusterList | scraper.py:51-101 | A rejected reply raises; an accepted one gives the box, the raw data and the summed total of the `ARTICLE` entries; an accepted reply whose `data` is a dict with readable `ARTICLE` entries, counts and `cortar` always gives a summary |
| Scraper.FetchArticleList | scraper.py:143-150 | A page is accepted exactly when its reply is; `body`, `more` and `page` default to [], false and the requested page |
| Scraper.Extension | scraper.py:197-198 | A list body extends by its elements; a null body raises |
| Scraper.PageStep | scraper.py:186-204 | One page gives the items it adds and whether another page follows, or the error it raised |
| Scraper.FirstStop | scraper.py:180-206 | The loop stops at the first page that is cancelled, fails or has no `more` flag, and every page before it proceeds |
| Scraper.FirstStopUnique | scraper.py:180-206 | The stopping page does not depend on which stopping bound is given |
| Scraper.CollectedPrefix | scraper.py:197-198 | The items after m pages are a prefix of the items after n >= m pages |
| Scraper.RequestsInOrder | scraper.py:180-190 | The requests are for pages 1, 2, 3, ... in order, with the other query fields unchanged |
| Scraper.ProgressAt | scraper.py:171-201 | The first call is (0, total, "매물 목록 조회 중..."); the call after page i reports the number of items collected so far, with the counts in its message; every call carries the total |
| Scraper.TraceAt | scraper.py:171-201 | Call i of the run is the call made after page i, the first one coming before any page |
| Scraper.TraceMonotone | scraper.py:200-201 | Every progress call carries the cluster total, and the current count never decreases |
| Scraper.ScrapeAllArticles | scraper.py:153-208 | The result, requests and progress calls are exactly those of the specification run `Expected` |
| Scraper.CancelBeforeFirstPage | scraper.py:181-182 | A cancel before page 1 returns [] and requests nothing |
| Scraper.ZeroTotalRequestsNothing | scraper.py:174-175 | A zero total returns [], requests no page and reports progress once as (0, 0) |
| Scraper.StopsAfterFinalPage | scraper.py:203-204 | The loop stops right after the first page without `more`; the result is the in-order concatenation of pages 1..k |
| ListingTable.Keys | utils.py:25-41 | There are 15 columns, and the row keys follow the column table in order |
| ListingTable.NormValue | utils.py:44-50 | None gives ""; a list gives its elements' texts joined by ", " ("" when empty); anything else gives `str(v)` |
| ListingTable.NormValuePair | utils.py:48-49 | A two-element list joins as "a, b" |
| ListingTable.RowOfCells | utils.py:60-67 | A row has 15 cells in column order; a missing key gives ""; a text value is kept as is |
| ListingTable.Rows | utils.py:60-67 | The rows succeed only if every item is a dict; then there is one row per item, in order, and otherwise the first non-dict index is reported |
| ListingTable.ItemsToTable | utils.py:60-67 | The loop builds the headers and exactly the rows of `Rows` |
| ListingTable.SaveToExcel | utils.py:119-126 | An empty item list raises; otherwise the table written is the headers plus one row per item |
| ListingTable.Clean | utils.py:77 | The cleaned text holds no space and no comma |
| ListingTable.EokMatch | utils.py:81 | A match exists exactly when the text starts with a digit run followed by 억 |
| ListingTable.ParsePriceText | utils.py:74-90 | "", "-" and "없음" give None; "N억M" gives N*10000+M; digits alone give their value; any other text gives None |
| ListingTable.ParsePrice | utils.py:70-90 | None gives None; text is parsed as above; a parsed price is never negative |
| ListingTable.EokMatchOf | utils.py:81-85 | Digits, 억, optional digits and a non-digit tail match with those two numbers |
| ListingTable.ParseEok | utils.py:81-85 | A cleaned "N억M..." parses to N*10000+M |
| ListingTable.ParseDigits | utils.py:87-88 | A cleaned all-digit text parses to its value |
| ListingTable.ParseExample | utils.py:81-85 | "5억 3,000" parses to 53000 |
| ListingTable.CleanIgnores | utils.py:77 | Inserting a space or a comma does not change the cleaned text |
| ListingTable.ParseIgnoresSeparators | utils.py:77 | Inserting a space or a comma anywhere never changes the parse |
| PercentEncoding.Utf8 | app.py:71 | A character encodes to 1-4 UTF-8 bytes, one byte exactly for ASCII |
| PercentEncoding.QuoteSafeText | app.py:71 | Text made only of letters, digits and `-._~/` is left unchanged |
| PercentEncoding.QuoteOutput | app.py:71 | The quoted keyword contains only letters, digits, `-._~/` and `%` escapes |
| PercentEncoding.UnpercentQuote | app.py:71 | Decoding the quoted keyword gives back its UTF-8 bytes |
| RegionSearch.Pick | app.py:79-81 | A parameter gives its first value, and an absent or empty one gives None |
| RegionSearch.MatchAt | app.py:90-95 | A match at a position starts with the key and yields a non-empty run of digits (and dots for coordinates) |
| RegionSearch.MatchAtShape | app.py:91-93 | The pattern matches at a position with group g exactly when the text there is the key, an optional quote, spaces, `:` or `=`, spaces, an optional quote, then g, with g non-empty, made of group characters and not followed by another one |
| RegionSearch.SearchFrom | app.py:90-95 | A position found lies in the text and the pattern matches there |
| RegionSearch.SearchFromLeftmost | app.py:90-95 | No position before the one found matches, and no position at all matches when nothing is found |
| RegionSearch.Search | app.py:90-95 | A value is found exactly when the pattern matches somewhere in the text |
| RegionSearch.SearchLeading | app.py:90-95 | "key:digits" or "key=digits" at the start yields the digits |
| RegionSearch.WithCoordinates | app.py:87-95 | The region is built exactly when both coordinate texts parse as numbers; otherwise `float()` raises |
| RegionSearch.FromReply | app.py:79-97 | A complete query gives its first values and the final URL; otherwise the page text is scanned, and if a value is missing `RuntimeError` is raised |
| RegionSearch.ResolveRegion | app.py:62-97 | A blank keyword raises `ValueError`; otherwise the result comes from the reply to the quoted search URL |
| RegionSearch.BlankKeywordMakesNoRequest | app.py:67-69 | A blank keyword fails the same way whatever the server would answer, so no request matters |
| RegionSearch.OnlySearchUrlMatters | app.py:71-73 | Servers that agree on the search URL give the same result |
| RegionSearch.PageCoordinatesParse | app.py:90-95 | A latitude found in the page by the digit-and-dot pattern parses under `float()` exactly when it has at most one dot and some digit (so "1.2.3" is found and then raises `ValueError`) |
| ListingFilters.Texts | app.py:103-105 | The cell texts are exactly the stripped texts of the column's values, a missing value reading as "" |
| ListingFilters.UniqueNonEmpty | app.py:103-105 | The result is sorted, has no duplicates, and holds exactly the non-empty stripped values |
| ListingFilters.UniqueNonEmptyStripped | app.py:103-105 | Every returned value is already stripped |
| ListingFilters.PriceBucket | app.py:204-211 | Missing, < 5000, 5000..50000 and > 50000 map to the four bucket labels, each exactly |
| ListingFilters.Effective | app.py:218-222 | The chosen values that occur in the data, in choice order; all present values when none occur |
| ListingFilters.Budget | app.py:237-238 | The budget is positive exactly when 억 or 만 is |
| ListingFilters.BudgetSplits | app.py:237-238 | With 만 < 10000, the budget splits back into its 억 and 만 parts |
| ListingFilters.BudgetMatchesPrice | app.py:237-238 | The budget equals the price parse of "{억}억{만}" |
| ListingFilters.FilterColumnsNamed | app.py:199-229 | The fixed cell positions the filters read are the table columns "매물유형", "거래유형", "가격" and "면적(㎡)" that the dashboard looks up by name |
| ListingFilters.Derive | app.py:199-211 | The derived price is the parse of the price cell, the bucket is its bucket, and the area is present exactly when the area cell parses |
| ListingFilters.ApplyFilters | app.py:225-238 | The kept rows are those whose trade and estate types are effective selections, whose area is unknown or in range, and, when the budget is positive, whose price is unknown or within it, in order |
| Lists.TakeFilterMap | frontend/map_service/poi_schools.py:59-96 | The output is the first `lim` transformed elements, in element order; the loop stops at the element that reaches the limit |
| Lists.FilterMapSource | frontend/map_service/poi_schools.py:59-96 | Every output comes from some element, and there are never more outputs than elements |
| Lists.FilterMapComplete | frontend/map_service/poi_schools.py:59-96 | Every element that yields a record contributes it |
| Lists.WhereWhere | app.py:225-238 | Two successive filters are one filter by the conjunction |
| Desktop.CortarAndCoords | main_window.py:132-162 | A selected item code in the table wins; blank text gives None; a typed candidate is accepted only if it is all digits and in the table; a result always carries the table's coordinates for its code |
| Desktop.CandidateOfLabel | main_window.py:147-152 | A combo label "name (code)" gives back its code |
| Desktop.LabelRoundTrip | main_window.py:132-162 | Typing a combo label resolves to that code and its configured coordinates |
| Desktop.ProgressPercent | main_window.py:195-198 | 0 with no total; for total > 0 and current >= 0 the largest p with p*total <= 100*current |
| Desktop.ProgressPercentRange | main_window.py:195-198 | For a count between 0 and the total the percentage is between 0 and 100, and 100 at the end |
| Desktop.ProgressPercentMonotone | main_window.py:195-198 | More progress never shows a lower percentage |
| Desktop.DefaultRegionLabel | main_window.py:261-263 | Empty text gives "지역"; text with a "(" gives the part before the first "(", whitespace stripped; other text is kept as it is, unstripped |
| Desktop.DefaultRegionLabelOfCombo | main_window.py:261-263 | A combo label's default is its stripped region name |
| Desktop.WithXlsx | main_window.py:276-277 | The path ends with ".xlsx" and starts with the chosen path, and is unchanged exactly when it already ended so |
| Desktop.WithXlsxIdempotent | main_window.py:276-277 | Adding the suffix twice is adding it once |
| Desktop.MainWindow.constructor | main_window.py:32-127 | The window starts with no items, idle progress and only the start button enabled |
| Desktop.MainWindow.StartWorker | main_window.py:178-192 | The items and progress are reset, a worker runs, and export is disabled |
| Desktop.MainWindow.OnStartScrape | main_window.py:164-176 | An unresolved region leaves the window unchanged; a resolved one starts the worker: no items, bar 0, "수집 준비 중...", status "매물 수집 중...", export disabled, count label kept |
| Desktop.MainWindow.OnProgress | main_window.py:194-201 | The bar shows the percentage when it lies in the bar's range 0..100 and keeps its value otherwise; the label shows the counts and message; nothing else changes |
| Desktop.MainWindow.FinishScrape | main_window.py:227-233 | The worker is gone, the bar shows 100 and "완료", and the items are kept |
| Desktop.MainWindow.OnFinishedSuccess | main_window.py:203-209 | The window holds the new items, shows 100 and "완료", shows their count in the label and the status bar, and offers export only when there are any |
| Desktop.MainWindow.OnFinishedError | main_window.py:218-225 | The bar shows 100 and "완료", the status shows "오류 발생", and the items, count label and export state are kept |
| Desktop.MainWindow.OnSaveExcel | main_window.py:252-286 | Without items nothing is saved; a cancelled dialog saves nothing; a chosen path gets ".xlsx", and the table written is the one `save_to_excel` builds; a written table shows "저장 완료: " and the absolute path in the status bar; nothing else changes |
| SchoolPoi.ClassifyLevel | frontend/map_service/poi_schools.py:12-20 | "초", "중", "고" and "기타" by the school words in the stripped name, in that priority, each exactly |
| SchoolPoi.Clamp | frontend/map_service/poi_schools.py:38-39 | The value is clamped into [lo, hi] and is unchanged inside it |
| SchoolPoi.SchoolName | frontend/map_service/poi_schools.py:64-67 | `name`, else a truthy `name:ko`, else "", stripped |
| SchoolPoi.Coordinates | frontend/map_service/poi_schools.py:73-90 | Top-level lat/lon when both keys exist, else the `center` dict's; coordinates are found exactly when the keys are there and both parse under `float()` |
| SchoolPoi.Tags | frontend/map_service/poi_schools.py:64 | A dict `tags` field gives its entries; anything else gives no tags |
| SchoolPoi.ExtractShape | frontend/map_service/poi_schools.py:62-90 | A non-dict element is skipped; a dict yields a record exactly when it has a non-empty name and coordinates, with the level of that name |
| SchoolPoi.FetchNearbySchools | frontend/map_service/poi_schools.py:36-96 | The loop returns exactly the specification result `NearbySchools` for the clamped query |
| SchoolPoi.NearbySchoolsShape | frontend/map_service/poi_schools.py:38-96 | Never more records than the clamped limit; each record has a non-empty name and the level of that name |
| SchoolPoi.NearbySchoolsComplete | frontend/map_service/poi_schools.py:59-96 | Below the limit, every dict element with a name and coordinates appears with its name and level |
| DistrictCodes.RowList | backend/pipeline/public_api.py:35-40 | Rows are taken only from a dict with `StanReginCd` holding at least two parts, the second a dict; from such a reply a list `row` (an absent one is `[]`) always gives its elements and a string `row` always gives its characters |
| DistrictCodes.PageOf | backend/pipeline/public_api.py:28-42 | A page continues the loop exactly when it has status 200 and a non-empty row list, which it then adds |
| DistrictCodes.FirstStop | backend/pipeline/public_api.py:14-45 | The loop stops at the first page that does not continue, and every earlier page continued |
| DistrictCodes.Records | backend/pipeline/public_api.py:50 | The rows form a table exactly when every row is a dict |
| DistrictCodes.ActiveRows | backend/pipeline/public_api.py:53-54 | With a `flag` column only rows flagged "Y" are kept; without one every row is kept |
| DistrictCodes.GetAllDongs | backend/pipeline/public_api.py:11-78 | The loop requests pages 1..k, where k is the first stopping page, and returns the specification table `AllDongs` |
| DistrictCodes.RequestsFollowRows | backend/pipeline/public_api.py:14-40 | Each page except the last one requested returned a non-empty row list |
| DistrictCodes.FirstPageStopsEmpty | backend/pipeline/public_api.py:43-48 | If page 1 already stops the loop, the result is empty |
| DistrictCodes.CollectedStep | backend/pipeline/public_api.py:36-40 | A continuing page adds exactly its rows after those of the earlier pages |
| DistrictCodes.CollectedPrefix | backend/pipeline/public_api.py:38-40 | The rows after m pages are a prefix of the rows after n >= m pages |
| DistrictCodes.LaterStopKeepsRows | backend/pipeline/public_api.py:43-45 | When the loop stops at page k, the table is built from the rows of pages 1..k-1, each page's rows in place and in order, and they are not empty |
| DistrictCodes.StopPageIgnored | backend/pipeline/public_api.py:43-45 | Whatever the stopping page returned, and whatever later pages would return, the result is the same for servers that agree on the pages before it |
| DistrictCodes.DistrictTableRows | backend/pipeline/public_api.py:56-78 | Every output row carries a district-level code and the name of an active source row |
| DistrictCodes.DistrictTableComplete | backend/pipeline/public_api.py:53-78 | Every active source row with a district-level code is in the output |
| DistrictCodes.DistrictCodeExamples | backend/pipeline/public_api.py:66-69 | "1111000000" is kept; "1100000000" and "1111010100" are not |
| DistrictCodes.FloatTextEnds | backend/pipeline/public_api.py:56 | The float text of an integer up to 2^53 is its digits and ".0", so it never ends in "0000" or "00000" |
| DistrictCodes.FloatCodeNotDistrict | backend/pipeline/public_api.py:56-69 | In a float64 code column a gap reads "nan", an integer code reads as its digits and ".0", and neither is a district code |
| DistrictCodes.IntegerColumnCodes | backend/pipeline/public_api.py:50-56 | A code column holding only integers is not float64, and each code is `str()` of its value |
| DistrictCodes.GapDropsIntegerCodes | backend/pipeline/public_api.py:50-69 | When integer codes share their column with a missing or null code, the table is empty |
| DistrictCodes.GapExample | backend/pipeline/public_api.py:50-69 | The code 1111000000 next to a record without a code gives an empty table |
| LegalDongCodes.RowValue | public_api.py:36-40 | The rows come from the second part of a `StanReginCd` list |
| LegalDongCodes.ColumnRows | public_api.py:42 | A dict of columns gives one record per list position, each with every key: the list's element there, or the broadcast scalar |
| LegalDongCodes.FrameOf | public_api.py:42 | A list builds a table exactly when every element is a dict; a dict builds one exactly when it is empty, or has no dict value and all its lists share one length, which is then the number of records |
| LegalDongCodes.FineTable | public_api.py:42-54 | A table is produced exactly when `row` builds a table that has both the code and the name column |
| LegalDongCodes.LegalDongs | public_api.py:24-58 | A raised request, a non-200 status, a reply without `StanReginCd`, a `row` that builds no table, or a table without the code and name columns (the caught `KeyError`) give an empty table; otherwise the filtered table |
| LegalDongCodes.LegalDongsRows | public_api.py:42-54 | The output holds exactly the records whose code does not end in "0000", as (code, name) |
| LegalDongCodes.FloatCodesKept | public_api.py:42-47 | In a float64 code column every gap is kept as "nan" and every integer code is kept as float text, a province code included |
| LegalDongCodes.DictRowExample | public_api.py:42-54 | The dict of columns `{region_cd: ["1111010100"], locatadd_nm: ["x"]}` gives the one row ("1111010100", "x") |
| LegalDongCodes.VariantsDisjoint | public_api.py:47 | No code passes both the district-level filter and this one |
| SubwayLines.LineName | subway_data.py:23-25 | An all-digit line id gets "호선"; any other id is unchanged |
| SubwayLines.ReadRow | subway_data.py:23-32 | A missing line, station or latitude column fails the load; an unparseable coordinate skips the row; otherwise the row adds its entry |
| SubwayLines.Put | subway_data.py:34-38 | The entry is set; a new line holds just that station, an existing one gains it; every other line and station is untouched |
| SubwayLines.FoldOrder | subway_data.py:34-45 | The remembered line order holds exactly the table's lines |
| SubwayLines.FoldStep | subway_data.py:22-38 | Each row fails the load, changes nothing, or puts its entry |
| SubwayLines.FoldFailed | subway_data.py:40-42 | Once a row has failed, the whole load fails |
| SubwayLines.SkipChangesNothing | subway_data.py:28-32 | A row whose coordinates do not parse changes nothing |
| SubwayLines.LastRowWins | subway_data.py:37-38 | For a repeated (line, station) pair the last row's coordinates win |
| SubwayLines.FoldSound | subway_data.py:34-38 | Every (line, station, coordinates) in the table was put there by some entry |
| SubwayLines.BuildSound | subway_data.py:22-38 | Every (line, station, coordinates) in the built table comes from a usable row that reads as exactly that entry |
| SubwayLines.Loaded | subway_data.py:14-42 | A missing or unreadable file, or a failed row, gives an empty table |
| SubwayLines.LoadedShape | subway_data.py:45 | The lines come back in ascending name order, exactly the lines of the built table (each from a usable row, by BuildSound), each with its stations |
| Decimal.FractionBelowOne | subway_data.py:29-30 | The digits after the point, read as a whole number, are below 10 to the number of digits |
| Decimal.MantissaBounds | subway_data.py:29-30 | The mantissa "w" or "w.f" that `float` reads before any exponent has a value between w and w + 1 |
| SubwayLines.LoadSubwayData | subway_data.py:5-46 | The loading loop returns exactly the specification table `Loaded` |
| PriceFormat.Trunc | team_explore.py:35 | Truncation toward zero: the integer part, never further from zero than the value |
| PriceFormat.FormatPrice | team_explore.py:32-40 | A missing value or 0 gives "정보 없음" |
| PriceFormat.FormatBelowEok | team_explore.py:32-40 | Below 1억 a non-zero value is written as its truncation with thousands separators and "만원", the same in both formatters, and deleting the separators gives its decimal numeral |
| PriceFormat.FormatThenParse | team_explore.py:32-40 | From 1억 up, the listing price parser reads the formatted text back as the truncated value |
| PriceFormat.FormatExample12500 | team_explore.py:36-39 | 12500 formats as "1억 2,500만원" |
| PriceFormat.FormatExample20000 | area_merge.py:22-25 | 20000 formats as "2억원" |
| PriceFormat.FormatExampleSmall | area_merge.py:26 | 5000 formats as "5,000만원" and -5 as "-5만원" |
| PriceFormat.FormatPriceThousands | frontend/analysis/app.py:69-75 | A missing value or 0 gives "정보 없음" |
| PriceFormat.FormatThousandsThenParse | frontend/analysis/app.py:72-74 | From 1억 up, the parser reads the text back as the value rounded down to a multiple of 1000 |
| PriceFormat.ThousandsIsRoundedDown | frontend/analysis/app.py:72-74 | The value shown is at most the value and less than 1000 below it |
| PriceFormat.FormatThousandsExample10500 | frontend/analysis/app.py:72-74 | 10500 formats as "1억원" |
| PriceFormat.FormatThousandsExample12500 | frontend/analysis/app.py:72-74 | 12500 formats as "1억 2,000만원" |
| InfraScore.CalculateScore | backend/scoring/scoring.py:7-38 | The map has the eight count keys and `total_score`, and nothing else; each count is unchanged; the total is their sum |
| InfraScore.SumCountsOfCategories | backend/scoring/scoring.py:17-26 | The total is the plain sum of the eight counts |
| InfraScore.TotalIsSumOfEntries | backend/scoring/scoring.py:17-38 | `total_score` equals the sum of the other entries of the map |
| InfraScore.ScoreMonotone | backend/scoring/scoring.py:17-26 | Raising counts never lowers the total |
| InfraScore.TotalAtLeastEachCount | backend/scoring/scoring.py:17-26 | With non-negative counts the total is at least each count |
| WeightedScore.CalculateScore | scoring.py:3-19 | The map has the four count keys and `total_score`; each count is unchanged; the total is 2·school + 3·subway + 2·hospital + 1·cafe |
| WeightedScore.ScoreMonotone | scoring.py:11 | Raising counts never lowers the weighted total |
| WeightedScore.SubwayWeighsThree | scoring.py:11 | One more subway station raises the total by exactly 3 |

## Left out

- HTTP and JSON transport are not modelled. This covers `requests`, `raise_for_status`, `.json()`, timeouts, headers, parameters and service keys. Every reply is an input value: the data received, or the failure raised.
- The sleeps between requests, the rate limiter, the worker threads and the Streamlit cache are timing and concurrency, which the model does not have.
- The Streamlit, Qt, folium and plotly widget code is left out. The desktop window keeps only the fields its handlers set. `_populate_table`, `_clear_table` and `item_to_row` are not part of this model. `_on_cancel_scrape` only forwards to the worker thread, so the model takes cancellation as the scraper's `cancel` parameter.
- Floating point is modelled by exact reals. `float()` is a decimal parser with no `inf`, `nan` or underscores, and `pd.to_numeric` is approximated by it. The square-metre-to-pyeong division is exact. The percentage in the window uses integer floor division, which equals `int(100*current/total)` only up to float rounding.
- Python's `\d` and `str.isdigit` are modelled as the ASCII digits only.
- `str()` of floats, lists and dicts is a `show` parameter, so text that depends on Python's float printing is not spelled out. A code column of numbers with a missing or null entry, or with a float among them, is float64 in pandas. The model spells out the float text of its integers up to 2^53 (digits and ".0") and writes "nan" for its gaps. Larger integers and floats in such a column go through `show`.
- DistrictCodes.Code: a column's dtype is read off its values as listed above. pandas has further rules, for example for mixed booleans and numbers, and the model writes `str()` of each value for every other column.
- LegalDongCodes.FrameOf: a dict `row` with a dict among its values is modelled as a failure. pandas would align such a value by its keys into an index.
- `REGION_CONFIG` is a map parameter. `default_filename`, the file dialog and the Excel writer are function parameters or results.
- The image-URL resolver, `save_items_to_ipynb` and the `scrape_articles(..., limit=...)` that the dashboard calls are not part of this model. Only `scrape_all_articles` exists in the scraper source, and it has no limit.
- The dashboard's final `sort_values` step is left out. Its order depends on floats and pandas' sort stability.
- ListingFilters.Effective: when no chosen value occurs, it falls back to the present values in sorted order. The source's `list(set(...))` has no specified order, and the filter that uses it only tests membership.
- Scraper.Extension: a string body extends by its characters, as in Python, but a non-empty dict body is modelled as an error rather than as its keys.
- DistrictCodes.RowList: a falsy `row` ends the loop, as in the source, and so does a truthy number, where `list.extend` raises a `TypeError` that the loop catches. A non-empty dict `row` is modelled as a stop of the loop, but the source extends by its keys and asks for the next page. The model does not keep dict key order, which that case would need; either way such rows are not records, so the source's table step then fails.
- DistrictCodes.Records: a non-dict row makes the backend table fail and makes the root variant return an empty table. This stands in for pandas exceptions on malformed rows.
- SubwayLines.ReadRow: a short CSV row reads its missing fields as `None`, and the model treats such a field as a missing column, which fails the load. In the source a `None` line id fails the load, because `isdigit` on `None` raises an `AttributeError` that only the outer handler catches. A `None` coordinate makes `float()` raise a `TypeError`, which subway_data.py:31 catches, so the row is skipped.
- ListingTable.ItemsToTable: the `ImportError` raised when pandas is absent (utils.py:56-57) is not modelled; the model assumes pandas is installed.
- Desktop.MainWindow.OnSaveExcel: a failure of the Excel writer itself, such as pandas or openpyxl raising or pandas being absent, is not modelled. Only the table errors of `save_to_excel` are modelled. `os.path.abspath` depends on the working directory, so it is the `absolutePath` parameter.
- Scraper.EntryCount: a boolean `count` adds 0 or 1, as in Python; any other non-integer `count` is modelled as an error, where Python would add a float.
- InfraScore.CalculateScore: the place counts are a function parameter, so the order of the eight requests is not observable in the model.
- WeightedScore.CalculateScore: the count calls in the source pass two arguments to a three-parameter function. The model takes the counts as a parameter and does not model that call.
