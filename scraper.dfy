/**
 * Listing acquisition against the mobile real-estate API: the search box around
 * a centre point, the cluster summary that yields the estimated listing total,
 * one normalised article-list page, and the page loop that collects every
 * listing of a region.
 *
 * The HTTP layer is not modelled: the cluster response is a parameter, the
 * article-list endpoint is a function from page number to response, and the
 * cancel check is a function from page number to the answer it gives when
 * consulted before that page. The progress callback's calls are returned as a
 * trace.
 */
module Scraper {
  import opened Wrappers
  import opened Json
  import Numerals

  /** Half-height and half-width of the search box, in degrees. */
  const DeltaLat: real := 0.09
  const DeltaLon: real := 0.18
  /** The zoom level `fetch_cluster_list` is called with. */
  const DefaultZoom: int := 12

  /** The search box `(btm, lft, top, rgt)`. */
  datatype Bounds = Bounds(btm: real, lft: real, top: real, rgt: real)

  /** `_calc_bounds`: a fixed-size box centred on the point; the zoom is ignored. */
  function CalcBounds(lat: real, lon: real, z: int): (b: Bounds)
    ensures b.btm < lat < b.top && b.lft < lon < b.rgt
    ensures b.top - b.btm == 2.0 * DeltaLat && b.rgt - b.lft == 2.0 * DeltaLon
    ensures b.btm + b.top == 2.0 * lat && b.lft + b.rgt == 2.0 * lon
  {
    Bounds(lat - DeltaLat, lon - DeltaLon, lat + DeltaLat, lon + DeltaLon)
  }

  /** The ways a load-bearing call fails. */
  datatype ScrapeError =
    | RequestFailed        // the request raised, the status was an error, or the body was not JSON
    | ApiError(code: Json) // the `RuntimeError` for a `code` other than "success"
    | Malformed            // a response of an unexpected shape made Python raise

  /** The `code` check both endpoints apply to the decoded body. */
  function Checked(resp: Fetch): (r: Result<map<string, Json>, ScrapeError>)
    ensures r.Ok? <==> resp.Received? && resp.data.JObj? && Get(resp.data.fields, "code", JNull) == JStr("success")
    ensures r.Ok? ==> r.value == resp.data.fields
  {
    match resp
    case Failed => Err(RequestFailed)
    case Received(JObj(m)) =>
      if Get(m, "code", JNull) == JStr("success") then Ok(m)
      else Err(ApiError(Get(m, "code", JStr("unknown"))))
    case Received(_) => Err(Malformed)
  }

  /** One cluster entry's term of `sum(item.get("count", 1) for item in articles)`. */
  function EntryCount(item: Json): (r: Result<int, ScrapeError>)
    ensures item.JObj? && "count" !in item.fields ==> r == Ok(1)
    ensures item.JObj? && "count" in item.fields && item.fields["count"].JInt? ==> r == Ok(item.fields["count"].i)
  {
    match item
    case JObj(m) =>
      (match Get(m, "count", JInt(1))
       case JInt(i) => Ok(i)
       case JBool(b) => Ok(if b then 1 else 0)
       case _ => Err(Malformed))
    case _ => Err(Malformed)
  }

  /** The estimated total: the sum of the entries' counts. */
  function ClusterTotal(entries: seq<Json>): Result<int, ScrapeError> {
    if |entries| == 0 then Ok(0)
    else
      match (EntryCount(entries[0]), ClusterTotal(entries[1..]))
      case (Ok(a), Ok(b)) => Ok(a + b)
      case _ => Err(Malformed)
  }

  /** The total over two runs of entries is the sum of their totals. */
  lemma {:induction false} ClusterTotalAppend(a: seq<Json>, b: seq<Json>)
    requires ClusterTotal(a).Ok? && ClusterTotal(b).Ok?
    ensures ClusterTotal(a + b) == Ok(ClusterTotal(a).value + ClusterTotal(b).value)
  {
    if |a| == 0 {
      assert a + b == b;
    } else {
      assert (a + b)[1..] == a[1..] + b;
      ClusterTotalAppend(a[1..], b);
    }
  }

  /** Dict entries with no count or a non-negative integer count give a non-negative total. */
  predicate WellFormedEntry(item: Json) {
    item.JObj? && ("count" in item.fields ==> item.fields["count"].JInt? && item.fields["count"].i >= 0)
  }

  lemma {:induction false} ClusterTotalNonNegative(entries: seq<Json>)
    requires forall i :: 0 <= i < |entries| ==> WellFormedEntry(entries[i])
    ensures ClusterTotal(entries).Ok? && ClusterTotal(entries).value >= 0
  {
    if |entries| > 0 {
      ClusterTotalNonNegative(entries[1..]);
    }
  }

  /** The total is a sum, not a count: when no entry has a count it is the number of entries. */
  lemma {:induction false} ClusterTotalWithoutCounts(entries: seq<Json>)
    requires forall i :: 0 <= i < |entries| ==> entries[i].JObj? && "count" !in entries[i].fields
    ensures ClusterTotal(entries) == Ok(|entries|)
  {
    if |entries| > 0 {
      ClusterTotalWithoutCounts(entries[1..]);
    }
  }

  /** `[{count: 3}, {count: 5}, {}]` totals 9. */
  lemma ClusterTotalExample()
    ensures ClusterTotal([JObj(map["count" := JInt(3)]), JObj(map["count" := JInt(5)]), JObj(map[])]) == Ok(9)
  {
    var e := [JObj(map["count" := JInt(3)]), JObj(map["count" := JInt(5)]), JObj(map[])];
    assert e[1..][1..][1..] == [];
  }

  /** Python's `for item in v` over `data.get("ARTICLE", [])`. A non-empty string or dict
      yields strings, on which `.get` raises, so only an array or an empty one goes through. */
  function Entries(v: Json): (r: Result<seq<Json>, ScrapeError>)
    ensures v.JArr? ==> r == Ok(v.items)
  {
    match v
    case JArr(a) => Ok(a)
    case JStr(s) => if s == [] then Ok([]) else Err(Malformed)
    case JObj(m) => if m == map[] then Ok([]) else Err(Malformed)
    case _ => Err(Malformed)
  }

  /** `data.cortar.detail.regionName`, defaulting to "" when `cortar` is absent or falsy. */
  function RegionName(inner: map<string, Json>): (r: Result<Json, ScrapeError>)
    ensures !Truthy(Get(inner, "cortar", JObj(map[]))) ==> r == Ok(JStr(""))
    ensures "cortar" in inner && inner["cortar"].JObj? && "detail" in inner["cortar"].fields
            && inner["cortar"].fields["detail"].JObj? && "regionName" in inner["cortar"].fields["detail"].fields
            ==> r == Ok(inner["cortar"].fields["detail"].fields["regionName"])
  {
    var cortar := Get(inner, "cortar", JObj(map[]));
    if !Truthy(cortar) then Ok(JStr(""))
    else
      match cortar
      case JObj(c) =>
        (match Get(c, "detail", JObj(map[]))
         case JObj(d) => Ok(Get(d, "regionName", JStr("")))
         case _ => Err(Malformed))
      case _ => Err(Malformed)
  }

  /** `fetch_cluster_list`'s summary. */
  datatype ClusterSummary = ClusterSummary(totCnt: int, regionName: Json, data: Json, bounds: Bounds)

  /** `fetch_cluster_list` applied to the response of the cluster endpoint. */
  function FetchClusterList(lat: real, lon: real, z: int, resp: Fetch): (r: Result<ClusterSummary, ScrapeError>)
    ensures Checked(resp).Err? ==> r == Err(Checked(resp).error)
    ensures r.Ok? ==> r.value.bounds == CalcBounds(lat, lon, z) && r.value.data == resp.data
    ensures r.Ok? ==> var inner := Get(resp.data.fields, "data", JObj(map[]));
                      inner.JObj? && Entries(Get(inner.fields, "ARTICLE", JArr([]))).Ok?
                      && Ok(r.value.totCnt) == ClusterTotal(Entries(Get(inner.fields, "ARTICLE", JArr([]))).value)
                      && Ok(r.value.regionName) == RegionName(inner.fields)
    ensures Checked(resp).Ok? ==> var inner := Get(resp.data.fields, "data", JObj(map[]));
              (inner.JObj? && Entries(Get(inner.fields, "ARTICLE", JArr([]))).Ok?
               && ClusterTotal(Entries(Get(inner.fields, "ARTICLE", JArr([]))).value).Ok?
               && RegionName(inner.fields).Ok?) ==> r.Ok?
  {
    match Checked(resp)
    case Err(e) => Err(e)
    case Ok(m) =>
      match Get(m, "data", JObj(map[]))
      case JObj(inner) =>
        (match Entries(Get(inner, "ARTICLE", JArr([])))
         case Err(e) => Err(e)
         case Ok(articles) =>
           match (ClusterTotal(articles), RegionName(inner))
           case (Ok(total), Ok(name)) => Ok(ClusterSummary(total, name, resp.data, CalcBounds(lat, lon, z)))
           case _ => Err(Malformed))
      case _ => Err(Malformed)
  }

  /** `fetch_article_list`'s normalised page. */
  datatype ArticlePage = ArticlePage(body: Json, more: Json, page: Json)

  /** `fetch_article_list` applied to the response for page `page`. */
  function FetchArticleList(page: int, resp: Fetch): (r: Result<ArticlePage, ScrapeError>)
    ensures r.Ok? <==> Checked(resp).Ok?
    ensures r.Ok? ==> var m := resp.data.fields;
                      r.value.body == Get(m, "body", JArr([]))
                      && r.value.more == Get(m, "more", JBool(false))
                      && r.value.page == Get(m, "page", JInt(page))
    ensures r.Ok? && "more" !in resp.data.fields ==> !Truthy(r.value.more)
  {
    match Checked(resp)
    case Err(e) => Err(e)
    case Ok(m) => Ok(ArticlePage(Get(m, "body", JArr([])), Get(m, "more", JBool(false)), Get(m, "page", JInt(page))))
  }

  /** What `all_items.extend(body)` appends: an array's elements or a string's characters.
      `None` and numbers make `extend` raise; a non-empty dict is not modelled. */
  function Extension(body: Json): (r: Result<seq<Json>, ScrapeError>)
    ensures body.JArr? ==> r == Ok(body.items)
    ensures body.JNull? ==> r.Err?
  {
    match body
    case JArr(a) => Ok(a)
    case JStr(s) => Ok(seq(|s|, i requires 0 <= i < |s| => JStr([s[i]])))
    case JObj(m) => if m == map[] then Ok([]) else Err(Malformed)
    case _ => Err(Malformed)
  }

  /** One page of the loop: the items it adds and whether the server reports more. */
  function PageStep(resp: Fetch, page: nat): (r: Result<(seq<Json>, bool), ScrapeError>)
    ensures FetchArticleList(page, resp).Err? ==> r == Err(FetchArticleList(page, resp).error)
    ensures r.Ok? ==> var p := FetchArticleList(page, resp).value;
                      Extension(p.body) == Ok(r.value.0) && r.value.1 == Truthy(p.more)
  {
    match FetchArticleList(page, resp)
    case Err(e) => Err(e)
    case Ok(p) =>
      match Extension(p.body)
      case Err(e) => Err(e)
      case Ok(items) => Ok((items, Truthy(p.more)))
  }

  /** The loop goes past page `p`: not cancelled, the page loaded, and the server said `more`. */
  predicate Proceeds(articles: nat -> Fetch, cancel: nat -> bool, p: nat) {
    !cancel(p) && PageStep(articles(p), p).Ok? && PageStep(articles(p), p).value.1
  }

  /** Page `last` ends the loop if it is reached; the loop is then known to stop. */
  predicate StopsAt(articles: nat -> Fetch, cancel: nat -> bool, last: nat) {
    last >= 1 && !Proceeds(articles, cancel, last)
  }

  /** The first page at or after `p` where the loop stops. */
  function FirstStop(articles: nat -> Fetch, cancel: nat -> bool, p: nat, last: nat): (k: nat)
    requires 1 <= p <= last && StopsAt(articles, cancel, last)
    ensures p <= k <= last && !Proceeds(articles, cancel, k)
    ensures forall q :: p <= q < k ==> Proceeds(articles, cancel, q)
    decreases last - p
  {
    if !Proceeds(articles, cancel, p) then p else FirstStop(articles, cancel, p + 1, last)
  }

  /** The stopping page does not depend on which bound `last` was used to find it. */
  lemma FirstStopUnique(articles: nat -> Fetch, cancel: nat -> bool, p: nat, last1: nat, last2: nat)
    requires 1 <= p <= last1 && StopsAt(articles, cancel, last1)
    requires p <= last2 && StopsAt(articles, cancel, last2)
    ensures FirstStop(articles, cancel, p, last1) == FirstStop(articles, cancel, p, last2)
  {
  }

  /** The items page `p` contributes (none when it failed). */
  function Items(articles: nat -> Fetch, p: nat): seq<Json> {
    var s := PageStep(articles(p), p);
    if s.Ok? then s.value.0 else []
  }

  /** The in-order concatenation of the items of pages 1..n. */
  function Collected(articles: nat -> Fetch, n: nat): seq<Json> {
    if n == 0 then [] else Collected(articles, n - 1) + Items(articles, n)
  }

  /** The items collected after `m` pages are a prefix of those collected after `n >= m`. */
  lemma {:induction false} CollectedPrefix(articles: nat -> Fetch, m: nat, n: nat)
    requires m <= n
    ensures |Collected(articles, m)| <= |Collected(articles, n)|
    ensures Collected(articles, m) == Collected(articles, n)[..|Collected(articles, m)|]
    decreases n - m
  {
    if m < n {
      CollectedPrefix(articles, m, n - 1);
      var a, b := Collected(articles, m), Collected(articles, n - 1);
      assert Collected(articles, n) == b + Items(articles, n);
      assert (b + Items(articles, n))[..|a|] == b[..|a|];
    }
  }

  /** One call of the page request, with the parameters shared by every page of the loop. */
  datatype ArticleQuery = ArticleQuery(cortarNo: string, lat: real, lon: real, totCnt: int, bounds: Bounds, page: nat)

  /** The requests for pages 1..n, in order. */
  function Requests(q: ArticleQuery, n: nat): seq<ArticleQuery> {
    if n == 0 then [] else Requests(q, n - 1) + [q.(page := n)]
  }

  lemma {:induction false} RequestsInOrder(q: ArticleQuery, n: nat)
    ensures |Requests(q, n)| == n
    ensures forall i :: 0 <= i < n ==> Requests(q, n)[i] == q.(page := i + 1)
  {
    if n > 0 {
      RequestsInOrder(q, n - 1);
    }
  }

  /** One call of the progress callback. */
  datatype Progress = Progress(current: int, total: int, message: string)

  function CollectingMessage(current: int, total: int): string {
    "수집 중... (" + Numerals.IntToString(current) + "/" + Numerals.IntToString(total) + ")"
  }

  /** The progress call made after page `i` (`i > 0`), or the initial one (`i == 0`). */
  function ProgressAt(articles: nat -> Fetch, total: int, i: nat): (p: Progress)
    ensures i == 0 ==> p == Progress(0, total, "매물 목록 조회 중...")
    ensures i > 0 ==> p.current == |Collected(articles, i)| && p.message == CollectingMessage(p.current, total)
    ensures p.total == total
  {
    if i == 0 then Progress(0, total, "매물 목록 조회 중...")
    else
      var c := |Collected(articles, i)|;
      Progress(c, total, CollectingMessage(c, total))
  }

  /** The progress calls after `n` pages: the initial `(0, total)` and one per page. */
  function Trace(articles: nat -> Fetch, total: int, n: nat): (t: seq<Progress>)
    ensures |t| == n + 1
  {
    if n == 0 then [ProgressAt(articles, total, 0)]
    else Trace(articles, total, n - 1) + [ProgressAt(articles, total, n)]
  }

  /** The `i`-th progress call after `n` pages. */
  lemma {:induction false} TraceAt(articles: nat -> Fetch, total: int, n: nat, i: nat)
    requires i <= n
    ensures Trace(articles, total, n)[i] == ProgressAt(articles, total, i)
  {
    if i < n {
      TraceAt(articles, total, n - 1, i);
      assert Trace(articles, total, n)[i] == Trace(articles, total, n - 1)[i];
    }
  }

  /** Every progress call carries the same total, and the current count never decreases. */
  lemma TraceMonotone(articles: nat -> Fetch, total: int, n: nat)
    ensures forall i :: 0 <= i <= n ==> Trace(articles, total, n)[i].total == total
    ensures forall i :: 1 <= i <= n ==> Trace(articles, total, n)[i].current == |Collected(articles, i)|
    ensures forall i, j :: 0 <= i <= j <= n ==>
              Trace(articles, total, n)[i].current <= Trace(articles, total, n)[j].current
  {
    forall i | 0 <= i <= n
      ensures Trace(articles, total, n)[i].total == total
      ensures i >= 1 ==> Trace(articles, total, n)[i].current == |Collected(articles, i)|
    {
      TraceAt(articles, total, n, i);
    }
    forall i, j | 0 <= i <= j <= n
      ensures Trace(articles, total, n)[i].current <= Trace(articles, total, n)[j].current
    {
      TraceAt(articles, total, n, i);
      TraceAt(articles, total, n, j);
      CollectedPrefix(articles, i, j);
    }
  }

  /** What one run of `scrape_all_articles` produces: the value returned (or the exception
      raised), the page requests issued, and the progress calls made. */
  datatype Scrape = Scrape(result: Result<seq<Json>, ScrapeError>, requests: seq<ArticleQuery>, progress: seq<Progress>)

  /** The cluster call succeeds with a non-zero total, so pages will be requested. */
  predicate NeedsPages(lat: real, lon: real, cluster: Fetch) {
    var c := FetchClusterList(lat, lon, DefaultZoom, cluster);
    c.Ok? && c.value.totCnt != 0
  }

  function QueryFor(cortarNo: string, lat: real, lon: real, c: ClusterSummary): ArticleQuery {
    ArticleQuery(cortarNo, lat, lon, c.totCnt, c.bounds, 0)
  }

  /** The outcome of a page loop that stops at page `k`: cancelled before it, failed on it,
      or finished after it. */
  function Outcome(q: ArticleQuery, total: int, articles: nat -> Fetch, cancel: nat -> bool, k: nat): Scrape
    requires k >= 1
  {
    if cancel(k) then
      Scrape(Ok(Collected(articles, k - 1)), Requests(q, k - 1), Trace(articles, total, k - 1))
    else if PageStep(articles(k), k).Err? then
      Scrape(Err(PageStep(articles(k), k).error), Requests(q, k), Trace(articles, total, k - 1))
    else
      Scrape(Ok(Collected(articles, k)), Requests(q, k), Trace(articles, total, k))
  }

  /** The run of `scrape_all_articles` as a function of its responses. */
  function Expected(cortarNo: string, lat: real, lon: real, cluster: Fetch,
                    articles: nat -> Fetch, cancel: nat -> bool, last: nat): Scrape
    requires NeedsPages(lat, lon, cluster) ==> StopsAt(articles, cancel, last)
  {
    match FetchClusterList(lat, lon, DefaultZoom, cluster)
    case Err(e) => Scrape(Err(e), [], [])
    case Ok(c) =>
      if c.totCnt == 0 then Scrape(Ok([]), [], [Progress(0, 0, "매물 목록 조회 중...")])
      else Outcome(QueryFor(cortarNo, lat, lon, c), c.totCnt, articles, cancel, FirstStop(articles, cancel, 1, last))
  }

  /** Past a page that proceeds, the search for the stopping page continues at the next one. */
  lemma FirstStopNext(articles: nat -> Fetch, cancel: nat -> bool, p: nat, last: nat)
    requires 1 <= p <= last && StopsAt(articles, cancel, last) && Proceeds(articles, cancel, p)
    ensures p < last && FirstStop(articles, cancel, p, last) == FirstStop(articles, cancel, p + 1, last)
  {
  }

  /** `scrape_all_articles` */
  method ScrapeAllArticles(cortarNo: string, lat: real, lon: real, cluster: Fetch,
                           articles: nat -> Fetch, cancel: nat -> bool, ghost last: nat)
    returns (result: Result<seq<Json>, ScrapeError>, requests: seq<ArticleQuery>, progress: seq<Progress>)
    requires NeedsPages(lat, lon, cluster) ==> StopsAt(articles, cancel, last)
    ensures Scrape(result, requests, progress) == Expected(cortarNo, lat, lon, cluster, articles, cancel, last)
  {
    var summary := FetchClusterList(lat, lon, DefaultZoom, cluster);
    if summary.Err? {
      return Err(summary.error), [], [];
    }
    var c := summary.value;
    progress := [ProgressAt(articles, c.totCnt, 0)];
    requests := [];
    if c.totCnt == 0 {
      return Ok([]), requests, progress;
    }
    var q := QueryFor(cortarNo, lat, lon, c);
    ghost var k := FirstStop(articles, cancel, 1, last);
    assert Expected(cortarNo, lat, lon, cluster, articles, cancel, last) == Outcome(q, c.totCnt, articles, cancel, k);
    var allItems: seq<Json> := [];
    var page: nat := 1;
    while true
      invariant 1 <= page <= last
      invariant k == FirstStop(articles, cancel, page, last)
      invariant allItems == Collected(articles, page - 1)
      invariant requests == Requests(q, page - 1)
      invariant progress == Trace(articles, c.totCnt, page - 1)
      decreases last - page
    {
      if cancel(page) {
        assert k == page;
        return Ok(allItems), requests, progress;
      }
      requests := requests + [q.(page := page)];
      var step := PageStep(articles(page), page);
      if step.Err? {
        assert k == page;
        return Err(step.error), requests, progress;
      }
      allItems := allItems + step.value.0;
      progress := progress + [ProgressAt(articles, c.totCnt, page)];
      if !step.value.1 {
        assert k == page;
        return Ok(allItems), requests, progress;
      }
      FirstStopNext(articles, cancel, page, last);
      page := page + 1;
    }
  }

  /** A cancel before the first page returns no items and requests no page. */
  lemma CancelBeforeFirstPage(cortarNo: string, lat: real, lon: real, cluster: Fetch,
                              articles: nat -> Fetch, cancel: nat -> bool, last: nat)
    requires NeedsPages(lat, lon, cluster) && StopsAt(articles, cancel, last)
    requires cancel(1)
    ensures Expected(cortarNo, lat, lon, cluster, articles, cancel, last).result == Ok([])
    ensures Expected(cortarNo, lat, lon, cluster, articles, cancel, last).requests == []
  {
  }

  /** A zero total returns no items, reports `(0, 0)` once and requests no page. */
  lemma ZeroTotalRequestsNothing(cortarNo: string, lat: real, lon: real, cluster: Fetch,
                                 articles: nat -> Fetch, cancel: nat -> bool, last: nat)
    requires FetchClusterList(lat, lon, DefaultZoom, cluster).Ok?
    requires FetchClusterList(lat, lon, DefaultZoom, cluster).value.totCnt == 0
    ensures Expected(cortarNo, lat, lon, cluster, articles, cancel, last)
            == Scrape(Ok([]), [], [Progress(0, 0, "매물 목록 조회 중...")])
  {
  }

  /** When pages 1..k-1 all report `more` and page k loads with `more` false (no cancel),
      the run requests exactly pages 1..k and returns the concatenation of their items. */
  lemma StopsAfterFinalPage(cortarNo: string, lat: real, lon: real, cluster: Fetch,
                            articles: nat -> Fetch, cancel: nat -> bool, k: nat)
    requires NeedsPages(lat, lon, cluster) && k >= 1
    requires forall p :: 1 <= p < k ==> Proceeds(articles, cancel, p)
    requires !cancel(k) && PageStep(articles(k), k).Ok? && !PageStep(articles(k), k).value.1
    ensures var s := Expected(cortarNo, lat, lon, cluster, articles, cancel, k);
            && s.result == Ok(Collected(articles, k))
            && |s.requests| == k
            && (forall i :: 0 <= i < k ==> s.requests[i].page == i + 1)
            && |s.progress| == k + 1
  {
    var c := FetchClusterList(lat, lon, DefaultZoom, cluster).value;
    var q := QueryFor(cortarNo, lat, lon, c);
    assert FirstStop(articles, cancel, 1, k) == k;
    assert Expected(cortarNo, lat, lon, cluster, articles, cancel, k)
        == Scrape(Ok(Collected(articles, k)), Requests(q, k), Trace(articles, c.totCnt, k));
    RequestsInOrder(q, k);
  }
}
