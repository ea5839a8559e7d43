/**
 * The infrastructure score of a region: eight keyword-search counts (elementary
 * schools, subway stations, hospitals, cafes, academies, department stores,
 * convenience stores, parks) and their unweighted sum.
 *
 * The keyword search is a function from (query, region) to the count it reports,
 * standing for `get_kakao_count`, whose HTTP request, rate limit and error
 * handling are not part of this model.
 */
module InfraScore {
  /** `get_kakao_count(query, region)` */
  type Counter = (string, string) -> int

  /** The result keys and the search query behind each, in the order the source asks. */
  const Categories: seq<(string, string)> := [
    ("school", "초등학교"), ("subway", "지하철역"), ("hospital", "병원"), ("cafe", "카페"),
    ("academy", "학원"), ("department", "백화점"), ("convenience", "편의점"), ("park", "공원")
  ]

  const TotalKey: string := "total_score"

  /** The number of each category's query, summed over a list of categories. */
  function SumCounts(cats: seq<(string, string)>, region: string, count: Counter): int {
    if |cats| == 0 then 0 else SumCounts(cats[..|cats| - 1], region, count) + count(cats[|cats| - 1].1, region)
  }

  /** `calculate_score(region_name)` */
  function CalculateScore(region: string, count: Counter): (r: map<string, int>)
    ensures r.Keys == {"school", "subway", "hospital", "cafe", "academy", "department", "convenience", "park", TotalKey}
    ensures forall i :: 0 <= i < |Categories| ==> r[Categories[i].0] == count(Categories[i].1, region)
    ensures r[TotalKey] == SumCounts(Categories, region, count)
  {
    var school := count("초등학교", region);
    var subway := count("지하철역", region);
    var hospital := count("병원", region);
    var cafe := count("카페", region);
    var academy := count("학원", region);
    var department := count("백화점", region);
    var convenience := count("편의점", region);
    var park := count("공원", region);
    var total := school + subway + hospital + academy + department + cafe + convenience + park;
    assert SumCounts(Categories, region, count) == total by { SumCountsOfCategories(region, count); }
    map["school" := school, "subway" := subway, "hospital" := hospital, "cafe" := cafe,
        "academy" := academy, "department" := department, "convenience" := convenience, "park" := park,
        TotalKey := total]
  }

  /** The sum over the eight categories, written out. */
  lemma SumCountsOfCategories(region: string, count: Counter)
    ensures SumCounts(Categories, region, count)
         == count("초등학교", region) + count("지하철역", region) + count("병원", region) + count("카페", region)
          + count("학원", region) + count("백화점", region) + count("편의점", region) + count("공원", region)
  {
    var c := Categories;
    assert c[..0] == [];
    SumCountsStep(c, 0, region, count);
    SumCountsStep(c, 1, region, count);
    SumCountsStep(c, 2, region, count);
    SumCountsStep(c, 3, region, count);
    SumCountsStep(c, 4, region, count);
    SumCountsStep(c, 5, region, count);
    SumCountsStep(c, 6, region, count);
    SumCountsStep(c, 7, region, count);
    assert c[..8] == c;
  }

  /** One more category added to the sum. */
  lemma SumCountsStep(cats: seq<(string, string)>, k: nat, region: string, count: Counter)
    requires k < |cats|
    ensures SumCounts(cats[..k + 1], region, count) == SumCounts(cats[..k], region, count) + count(cats[k].1, region)
  {
    assert cats[..k + 1][..k] == cats[..k];
  }

  /** The total is the sum of the other eight entries of the result. */
  lemma TotalIsSumOfEntries(region: string, count: Counter)
    ensures var r := CalculateScore(region, count);
            r[TotalKey] == r["school"] + r["subway"] + r["hospital"] + r["cafe"]
                         + r["academy"] + r["department"] + r["convenience"] + r["park"]
  {
    SumCountsOfCategories(region, count);
  }

  /** A region with at least as many places of every category scores at least as high. */
  lemma {:induction false} SumCountsMonotone(cats: seq<(string, string)>, region: string, a: Counter, b: Counter)
    requires forall i :: 0 <= i < |cats| ==> a(cats[i].1, region) <= b(cats[i].1, region)
    ensures SumCounts(cats, region, a) <= SumCounts(cats, region, b)
  {
    if |cats| > 0 {
      SumCountsMonotone(cats[..|cats| - 1], region, a, b);
    }
  }

  lemma ScoreMonotone(region: string, a: Counter, b: Counter)
    requires forall i :: 0 <= i < |Categories| ==> a(Categories[i].1, region) <= b(Categories[i].1, region)
    ensures CalculateScore(region, a)[TotalKey] <= CalculateScore(region, b)[TotalKey]
  {
    SumCountsMonotone(Categories, region, a, b);
  }

  /** With counts that are not negative, the total is at least each category's count. */
  lemma TotalAtLeastEachCount(region: string, count: Counter, i: nat)
    requires forall j :: 0 <= j < |Categories| ==> count(Categories[j].1, region) >= 0
    requires i < |Categories|
    ensures CalculateScore(region, count)[TotalKey] >= CalculateScore(region, count)[Categories[i].0]
  {
    SumCountsOfCategories(region, count);
    assert forall j :: 0 <= j < |Categories| ==> count(Categories[j].1, region) >= 0;
    assert count(Categories[0].1, region) >= 0 && count(Categories[1].1, region) >= 0;
    assert count(Categories[2].1, region) >= 0 && count(Categories[3].1, region) >= 0;
    assert count(Categories[4].1, region) >= 0 && count(Categories[5].1, region) >= 0;
    assert count(Categories[6].1, region) >= 0 && count(Categories[7].1, region) >= 0;
  }
}
