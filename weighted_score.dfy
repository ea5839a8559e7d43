/**
 * The earlier, weighted score of a region: four keyword-search counts
 * (elementary schools, subway stations, hospitals, cafes) weighted 2, 3, 2 and 1.
 * The count is a function of (query, region), as in the infrastructure score.
 */
module WeightedScore {
  import InfraScore

  /** The weight of each result key, with its search query. */
  const Weighted: seq<(string, string, int)> := [
    ("school", "초등학교", 2), ("subway", "지하철역", 3), ("hospital", "병원", 2), ("cafe", "카페", 1)
  ]

  /** The weighted sum over a list of weighted categories. */
  function WeightedSum(cats: seq<(string, string, int)>, region: string, count: InfraScore.Counter): int {
    if |cats| == 0 then 0
    else WeightedSum(cats[..|cats| - 1], region, count) + cats[|cats| - 1].2 * count(cats[|cats| - 1].1, region)
  }

  /** One more weighted category added to the sum. */
  lemma WeightedSumStep(cats: seq<(string, string, int)>, k: nat, region: string, count: InfraScore.Counter)
    requires k < |cats|
    ensures WeightedSum(cats[..k + 1], region, count) == WeightedSum(cats[..k], region, count) + cats[k].2 * count(cats[k].1, region)
  {
    assert cats[..k + 1][..k] == cats[..k];
  }

  /** `calculate_score(region_name)` */
  function CalculateScore(region: string, count: InfraScore.Counter): (r: map<string, int>)
    ensures r.Keys == {"school", "subway", "hospital", "cafe", InfraScore.TotalKey}
    ensures forall i :: 0 <= i < |Weighted| ==> r[Weighted[i].0] == count(Weighted[i].1, region)
    ensures r[InfraScore.TotalKey] == WeightedSum(Weighted, region, count)
  {
    var school := count("초등학교", region);
    var subway := count("지하철역", region);
    var hospital := count("병원", region);
    var cafe := count("카페", region);
    var total := school * 2 + subway * 3 + hospital * 2 + cafe * 1;
    assert WeightedSum(Weighted, region, count) == total by {
      var w := Weighted;
      assert w[..0] == [];
      WeightedSumStep(w, 0, region, count);
      WeightedSumStep(w, 1, region, count);
      WeightedSumStep(w, 2, region, count);
      WeightedSumStep(w, 3, region, count);
      assert w[..4] == w;
    }
    map["school" := school, "subway" := subway, "hospital" := hospital, "cafe" := cafe, InfraScore.TotalKey := total]
  }

  /** A region with at least as many places of every category scores at least as high, and one
      more subway station adds 3. */
  lemma {:induction false} WeightedSumMonotone(cats: seq<(string, string, int)>, region: string,
                                               a: InfraScore.Counter, b: InfraScore.Counter)
    requires forall i :: 0 <= i < |cats| ==> cats[i].2 >= 0 && a(cats[i].1, region) <= b(cats[i].1, region)
    ensures WeightedSum(cats, region, a) <= WeightedSum(cats, region, b)
  {
    if |cats| > 0 {
      WeightedSumMonotone(cats[..|cats| - 1], region, a, b);
      var c := cats[|cats| - 1];
      assert c.2 * a(c.1, region) <= c.2 * b(c.1, region);
    }
  }

  lemma ScoreMonotone(region: string, a: InfraScore.Counter, b: InfraScore.Counter)
    requires forall i :: 0 <= i < |Weighted| ==> a(Weighted[i].1, region) <= b(Weighted[i].1, region)
    ensures CalculateScore(region, a)[InfraScore.TotalKey] <= CalculateScore(region, b)[InfraScore.TotalKey]
  {
    WeightedSumMonotone(Weighted, region, a, b);
  }

  /** The subway count weighs most: one more station raises the score by 3. */
  lemma SubwayWeighsThree(region: string, a: InfraScore.Counter, b: InfraScore.Counter)
    requires b("지하철역", region) == a("지하철역", region) + 1
    requires forall q :: q != "지하철역" ==> a(q, region) == b(q, region)
    ensures CalculateScore(region, b)[InfraScore.TotalKey] == CalculateScore(region, a)[InfraScore.TotalKey] + 3
  {
    assert a("초등학교", region) == b("초등학교", region);
    assert a("병원", region) == b("병원", region);
    assert a("카페", region) == b("카페", region);
  }
}
