/** `analyze_data` (app.py, lines 157-184): totals, the guarded margin, the monthly
    series, top and bottom groups, region performance, contribution shares and the
    two-sigma anomaly test on monthly sales. */
module Analysis {
  import opened Seqs
  import opened Grouping
  import opened Records

  /** `head(10)` of the descending ranking. */
  const TopCount: nat := 10
  /** `head(3)` of the ascending ranking. */
  const DeclineCount: nat := 3

  function TotalSales(rows: seq<Record>): real { SumOf(rows, SalesOf) }

  function TotalProfit(rows: seq<Record>): real { SumOf(rows, ProfitOf) }

  /** Profit as a percentage of sales, defined as 0 when there are no positive sales. */
  function ProfitMargin(totalSales: real, totalProfit: real): (m: real)
    ensures totalSales > 0.0 ==> m * totalSales == totalProfit * 100.0
    ensures totalSales <= 0.0 ==> m == 0.0
  {
    if totalSales > 0.0 then totalProfit / totalSales * 100.0 else 0.0
  }

  /** Sales summed per calendar month of the order date, months ascending. */
  function MonthlySales(rows: seq<Record>): seq<Entry<Month>>
  {
    GroupSum(rows, MonthKey, SalesOf, MonthBefore)
  }

  /** One entry per distinct month of the view, strictly ascending by month, each the
      sum of that month's sales, all of them adding up to the total sales. */
  lemma MonthlySalesSpec(rows: seq<Record>)
    ensures var m := MonthlySales(rows);
      && StrictlyAscending(m, MonthBefore)
      && KeySet(m) == RowKeys(rows, MonthKey)
      && (forall i :: 0 <= i < |m| ==> m[i].total == SumWhere(rows, MonthKey, SalesOf, m[i].key))
      && SumTotals(m) == TotalSales(rows)
  {
    MonthBeforeIsStrictOrder();
    GroupSumSpec(rows, MonthKey, SalesOf, MonthBefore);
  }

  /** The column products are ranked by: Sub-Category when the view has it. */
  function GroupColumn(columns: seq<string>): (c: string)
    ensures c == SubCategoryColumn <==> SubCategoryColumn in columns
    ensures c != SubCategoryColumn ==> c == CategoryColumn
  {
    if SubCategoryColumn in columns then SubCategoryColumn else CategoryColumn
  }

  function GroupKey(column: string): Record -> string
  {
    if column == SubCategoryColumn then SubCategoryOf else CategoryOf
  }

  /** Sales summed per group of the grouping column, groups ascending by name. */
  function GroupSales(view: CleanTable): seq<Entry<string>>
  {
    GroupSum(view.rows, GroupKey(GroupColumn(view.columns)), SalesOf, StrLess)
  }

  /** The ten best-selling groups, best first. */
  function TopProducts(groups: seq<Entry<string>>): (r: seq<Entry<string>>)
    ensures |r| == Min(TopCount, |groups|)
    ensures SortedByTotal(r, true)
    ensures multiset(r) <= multiset(groups)
    ensures forall x, y :: x in r && y in multiset(groups) - multiset(r) ==> y.total <= x.total
  {
    TopByTotal(groups, TopCount, true)
  }

  /** The three worst-selling groups, worst first. */
  function TopDeclines(groups: seq<Entry<string>>): (r: seq<Entry<string>>)
    ensures |r| == Min(DeclineCount, |groups|)
    ensures SortedByTotal(r, false)
    ensures multiset(r) <= multiset(groups)
    ensures forall x, y :: x in r && y in multiset(groups) - multiset(r) ==> x.total <= y.total
  {
    TopByTotal(groups, DeclineCount, false)
  }

  /** One region with its summed Sales and summed Profit. */
  datatype RegionPerf = RegionPerf(region: string, sales: real, profit: real)

  function RegionPerformance(rows: seq<Record>): seq<RegionPerf>
  {
    var bySales := GroupSum(rows, RegionOf, SalesOf, StrLess);
    var byProfit := GroupSum(rows, RegionOf, ProfitOf, StrLess);
    MapSeq(bySales, (e: Entry<string>) => RegionPerf(e.key, e.total, Lookup(byProfit, e.key)))
  }

  /** One row per region of the view, regions ascending, with that region's summed
      Sales and summed Profit. */
  lemma RegionPerformanceSpec(rows: seq<Record>)
    ensures var p := RegionPerformance(rows);
      && (forall i, j :: 0 <= i < j < |p| ==> StrLess(p[i].region, p[j].region))
      && (set i | 0 <= i < |p| :: p[i].region) == RowKeys(rows, RegionOf)
      && (forall i :: 0 <= i < |p| ==>
            p[i].sales == SumWhere(rows, RegionOf, SalesOf, p[i].region)
            && p[i].profit == SumWhere(rows, RegionOf, ProfitOf, p[i].region))
  {
    StrLessIsStrictOrder();
    var g := GroupSum(rows, RegionOf, SalesOf, StrLess);
    var p := RegionPerformance(rows);
    GroupSumSpec(rows, RegionOf, SalesOf, StrLess);
    forall i | 0 <= i < |p| ensures p[i].profit == SumWhere(rows, RegionOf, ProfitOf, p[i].region) {
      GroupSumLookup(rows, RegionOf, ProfitOf, StrLess, g[i].key);
    }
    assert (set i | 0 <= i < |p| :: p[i].region) == KeySet(g) by {
      forall k | k in KeySet(g) ensures exists i :: 0 <= i < |p| && p[i].region == k {
        var e :| e in g && e.key == k;
        var i :| 0 <= i < |g| && g[i] == e;
        assert p[i].region == k;
      }
    }
  }

  /** A group's share of total sales in percent; `None` stands for the NaN or infinity
      pandas produces when the total is 0. */
  datatype Share = Share(group: string, percent: Option<real>)

  function Shares(groups: seq<Entry<string>>, total: real): seq<Share>
  {
    MapSeq(groups, (e: Entry<string>) => Share(e.key, if total == 0.0 then None else Some(e.total / total * 100.0)))
  }

  function CategoryContribution(rows: seq<Record>): seq<Share>
  {
    Shares(GroupSum(rows, CategoryOf, SalesOf, StrLess), TotalSales(rows))
  }

  function RegionContribution(rows: seq<Record>): seq<Share>
  {
    Shares(GroupSum(rows, RegionOf, SalesOf, StrLess), TotalSales(rows))
  }

  /** Sum of the defined percentages. */
  function SumPercents(shares: seq<Share>): real
  {
    if shares == [] then 0.0
    else (if shares[0].percent.Some? then shares[0].percent.value else 0.0) + SumPercents(shares[1..])
  }

  lemma {:induction false} SharesSum(groups: seq<Entry<string>>, total: real)
    requires total != 0.0
    ensures SumPercents(Shares(groups, total)) == SumTotals(groups) / total * 100.0
  {
    if groups != [] {
      SharesSum(groups[1..], total);
      assert Shares(groups, total)[1..] == Shares(groups[1..], total);
    }
  }

  /** With non-zero total sales the category shares, and the region shares, add up to
      100; with zero total sales no share is defined. */
  lemma ContributionsSumTo100(rows: seq<Record>)
    ensures TotalSales(rows) != 0.0 ==>
      SumPercents(CategoryContribution(rows)) == 100.0 && SumPercents(RegionContribution(rows)) == 100.0
    ensures TotalSales(rows) == 0.0 ==>
      forall s :: s in CategoryContribution(rows) + RegionContribution(rows) ==> s.percent.None?
  {
    var total := TotalSales(rows);
    GroupSumTotal(rows, CategoryOf, SalesOf, StrLess);
    GroupSumTotal(rows, RegionOf, SalesOf, StrLess);
    if total != 0.0 {
      assert total / total == 1.0;
      SharesSum(GroupSum(rows, CategoryOf, SalesOf, StrLess), total);
      SharesSum(GroupSum(rows, RegionOf, SalesOf, StrLess), total);
    }
  }

  function Square(x: real): (r: real)
    ensures r >= 0.0
  {
    if x >= 0.0 then MulNonNegative(x, x); x * x else MulNonNegative(-x, -x); x * x
  }

  lemma MulNonNegative(a: real, b: real)
    requires a >= 0.0 && b >= 0.0
    ensures a * b >= 0.0
  {
  }

  lemma MulPositive(a: real, b: real)
    requires a > 0.0 && b > 0.0
    ensures a * b > 0.0
  {
  }

  /** Squaring is strictly increasing on the non-negative reals. */
  lemma SquareLess(x: real, y: real)
    requires 0.0 <= x < y
    ensures Square(x) < Square(y)
  {
    assert y * y - x * x == (y - x) * (y + x);
    MulPositive(y - x, y + x);
    assert x * x < y * y;
    assert Square(x) == x * x && Square(y) == y * y;
  }

  function Abs(x: real): real { if x < 0.0 then -x else x }

  /** Comparing squares is comparing the absolute deviation with two standard deviations. */
  lemma AbsVersusSquare(x: real, sigma: real)
    requires sigma >= 0.0
    ensures Abs(x) > 2.0 * sigma <==> Square(x) > 4.0 * Square(sigma)
  {
    var a, t := Abs(x), 2.0 * sigma;
    assert Square(x) == Square(a);
    assert 4.0 * Square(sigma) == Square(t);
    if a > t {
      SquareLess(t, a);
    } else if a < t {
      SquareLess(a, t);
    }
  }

  /** Mean of the monthly totals. */
  function Mean(series: seq<Entry<Month>>): real
    requires |series| > 0
  {
    SumTotals(series) / |series| as real
  }

  /** Sum of squared deviations of the monthly totals from `m`. */
  function SumSquares(series: seq<Entry<Month>>, m: real): (r: real)
    ensures r >= 0.0
  {
    if series == [] then 0.0 else Square(series[0].total - m) + SumSquares(series[1..], m)
  }

  /** pandas' default `std()` squared: the sample variance, dividing by n - 1. */
  function SampleVariance(series: seq<Entry<Month>>): real
    requires |series| >= 2
  {
    SumSquares(series, Mean(series)) / (|series| - 1) as real
  }

  /** `|x - mean| > 2 * std`, squared on both sides; false when the standard deviation is
      NaN, that is for fewer than two months. */
  predicate IsAnomalous(x: real, series: seq<Entry<Month>>)
  {
    |series| >= 2 && Square(x - Mean(series)) > 4.0 * SampleVariance(series)
  }

  /** The anomalous months in series order, or `None` when there are none. */
  function Anomalies(series: seq<Entry<Month>>): (r: Option<seq<Entry<Month>>>)
    ensures r.Some? ==> r.value != [] && IsSubsequence(r.value, series)
    ensures forall e :: (r.Some? && e in r.value) <==> (e in series && IsAnomalous(e.total, series))
    ensures |series| < 2 ==> r.None?
  {
    var flagged := Select(series, (e: Entry<Month>) => IsAnomalous(e.total, series));
    assert forall e :: e in flagged <==> multiset(flagged)[e] > 0;
    assert forall e :: e in series <==> multiset(series)[e] > 0;
    if |series| < 2 then
      SelectNone(series, (e: Entry<Month>) => IsAnomalous(e.total, series));
      None
    else if flagged == [] then None
    else Some(flagged)
  }

  /** The months a selection flags each lie more than `t` away (squared) from `m`, so
      together they account for more than `t` per flagged month of the squared
      deviations. */
  lemma {:induction false} FlaggedSquares(s: seq<Entry<Month>>, m: real, t: real, p: Entry<Month> -> bool)
    requires t >= 0.0
    requires forall e :: p(e) ==> Square(e.total - m) > t
    ensures Times(|Select(s, p)|, t) <= SumSquares(s, m)
    ensures |Select(s, p)| > 0 ==> Times(|Select(s, p)|, t) < SumSquares(s, m)
  {
    if s != [] {
      FlaggedSquares(s[1..], m, t, p);
      assert SumSquares(s, m) == Square(s[0].total - m) + SumSquares(s[1..], m);
      if !p(s[0]) {
        assert Select(s, p) == Select(s[1..], p);
      }
    }
  }

  /** `n * t`, as `n` additions of `t`. */
  function Times(n: nat, t: real): real
  {
    if n == 0 then 0.0 else Times(n - 1, t) + t
  }

  /** Fewer than a quarter of the months beyond the first can be flagged: with the
      sample standard deviation a month can lie more than two deviations from the mean
      only when there are at least six months. */
  lemma AnomalyCountBound(series: seq<Entry<Month>>)
    ensures Anomalies(series).Some? ==> 4 * |Anomalies(series).value| < |series| - 1
  {
    var r := Anomalies(series);
    if r.Some? {
      var p := (e: Entry<Month>) => IsAnomalous(e.total, series);
      assert r.value == Select(series, p);
      FlaggedCountBound(series, p);
    }
  }

  lemma FlaggedCountBound(series: seq<Entry<Month>>, p: Entry<Month> -> bool)
    requires |series| >= 2
    requires forall e :: p(e) ==> IsAnomalous(e.total, series)
    ensures Select(series, p) != [] ==> 4 * |Select(series, p)| < |series| - 1
  {
    var n := |series|;
    var m := Mean(series);
    var d := SumSquares(series, m);
    var v := SampleVariance(series);
    var c := |Select(series, p)|;
    DivNonNegative(d, (n - 1) as real);
    FlaggedSquares(series, m, 4.0 * v, p);
    if c > 0 && 4 * c >= n - 1 {
      TimesFour(c, v);
      TimesMonotone(n - 1, 4 * c, v);
      DivTimes(d, n - 1);
      assert false;
    }
  }

  lemma DivNonNegative(d: real, k: real)
    requires d >= 0.0 && k > 0.0
    ensures d / k >= 0.0
  {
  }

  lemma DivTimes(d: real, k: nat)
    requires k > 0
    ensures Times(k, d / k as real) == d
  {
    TimesIsProduct(k, d / k as real);
  }

  lemma {:induction false} TimesIsProduct(n: nat, t: real)
    ensures Times(n, t) == n as real * t
  {
    if n > 0 {
      TimesIsProduct(n - 1, t);
      assert (n - 1) as real * t + t == n as real * t;
    }
  }

  lemma {:induction false} TimesFour(c: nat, v: real)
    ensures Times(c, 4.0 * v) == Times(4 * c, v)
  {
    if c > 0 {
      TimesFour(c - 1, v);
      var b := 4 * (c - 1);
      assert Times(b + 4, v) == Times(b + 3, v) + v;
      assert Times(b + 3, v) == Times(b + 2, v) + v;
      assert Times(b + 2, v) == Times(b + 1, v) + v;
      assert Times(b + 1, v) == Times(b, v) + v;
    }
  }

  lemma {:induction false} TimesMonotone(a: nat, b: nat, t: real)
    requires a <= b && t >= 0.0
    ensures Times(a, t) <= Times(b, t)
  {
    if a < b {
      TimesMonotone(a, b - 1, t);
    }
  }

  /** No month is flagged in a series of at most five months. */
  lemma FewMonthsNoAnomaly(series: seq<Entry<Month>>)
    requires |series| <= 5
    ensures Anomalies(series) == None
  {
    AnomalyCountBound(series);
  }

  function SixMonths(): seq<Entry<Month>>
  {
    [Entry(Month(2023, 1), 0.0), Entry(Month(2023, 2), 0.0), Entry(Month(2023, 3), 0.0),
     Entry(Month(2023, 4), 0.0), Entry(Month(2023, 5), 0.0), Entry(Month(2023, 6), 6.0)]
  }

  lemma SixMonthStatistics()
    ensures Mean(SixMonths()) == 1.0 && SampleVariance(SixMonths()) == 6.0
  {
    var series := SixMonths();
    assert SumTotals(series[5..]) == 6.0;
    assert SumTotals(series[4..]) == 6.0;
    assert SumTotals(series[3..]) == 6.0;
    assert SumTotals(series[2..]) == 6.0;
    assert SumTotals(series[1..]) == 6.0;
    assert Mean(series) == 1.0;
    assert SumSquares(series[5..], 1.0) == 25.0;
    assert SumSquares(series[4..], 1.0) == 26.0;
    assert SumSquares(series[3..], 1.0) == 27.0;
    assert SumSquares(series[2..], 1.0) == 28.0;
    assert SumSquares(series[1..], 1.0) == 29.0;
  }

  /** Six months with one outlier: exactly the outlier is flagged, so the bound of
      AnomalyCountBound is reached. */
  lemma SixMonthOutlier()
    ensures Anomalies(SixMonths()).Some?
    ensures forall e :: e in Anomalies(SixMonths()).value <==> e == Entry(Month(2023, 6), 6.0)
  {
    var series := SixMonths();
    var outlier := Entry(Month(2023, 6), 6.0);
    SixMonthStatistics();
    assert IsAnomalous(6.0, series);
    assert !IsAnomalous(0.0, series);
    assert series[5] == outlier && outlier in series;
    forall e | e in series ensures IsAnomalous(e.total, series) <==> e == outlier {
      var i :| 0 <= i < 6 && series[i] == e;
      assert i < 5 ==> e.total == 0.0;
    }
  }

  /** Everything `analyze_data` returns. */
  datatype AnalysisResult = AnalysisResult(
    totalSales: real,
    totalProfit: real,
    avgProfitMargin: real,
    monthlySales: seq<Entry<Month>>,
    groupColumn: string,
    topProducts: seq<Entry<string>>,
    topDeclines: seq<Entry<string>>,
    regionPerf: seq<RegionPerf>,
    categoryContrib: seq<Share>,
    regionContrib: seq<Share>,
    anomalies: Option<seq<Entry<Month>>>)

  /** `analyze_data(df_filt)` on a filtered view. */
  function AnalyzeData(view: CleanTable): (a: AnalysisResult)
    ensures a.totalSales == TotalSales(view.rows) && a.totalProfit == TotalProfit(view.rows)
    ensures a.avgProfitMargin == ProfitMargin(a.totalSales, a.totalProfit)
    ensures StrictlyAscending(a.monthlySales, MonthBefore)
    ensures KeySet(a.monthlySales) == RowKeys(view.rows, MonthKey)
    ensures SumTotals(a.monthlySales) == a.totalSales
    ensures a.groupColumn == SubCategoryColumn <==> SubCategoryColumn in view.columns
    ensures |a.topProducts| <= TopCount && SortedByTotal(a.topProducts, true)
    ensures |a.topDeclines| <= DeclineCount && SortedByTotal(a.topDeclines, false)
    ensures a.totalSales != 0.0 ==>
      SumPercents(a.categoryContrib) == 100.0 && SumPercents(a.regionContrib) == 100.0
    ensures a.anomalies.Some? ==> 4 * |a.anomalies.value| < |a.monthlySales| - 1
    ensures forall e :: (a.anomalies.Some? && e in a.anomalies.value) <==>
      (e in a.monthlySales && IsAnomalous(e.total, a.monthlySales))
    ensures a.monthlySales == MonthlySales(view.rows)
    ensures a.groupColumn == GroupColumn(view.columns)
    ensures a.topProducts == TopProducts(GroupSales(view)) && a.topDeclines == TopDeclines(GroupSales(view))
    ensures a.regionPerf == RegionPerformance(view.rows)
    ensures a.categoryContrib == CategoryContribution(view.rows) && a.regionContrib == RegionContribution(view.rows)
    ensures a.anomalies == Anomalies(a.monthlySales)
  {
    var rows := view.rows;
    var totalSales := TotalSales(rows);
    var totalProfit := TotalProfit(rows);
    var monthly := MonthlySales(rows);
    MonthlySalesSpec(rows);
    ContributionsSumTo100(rows);
    AnomalyCountBound(monthly);
    var groups := GroupSales(view);
    AnalysisResult(
      totalSales,
      totalProfit,
      ProfitMargin(totalSales, totalProfit),
      monthly,
      GroupColumn(view.columns),
      TopProducts(groups),
      TopDeclines(groups),
      RegionPerformance(rows),
      CategoryContribution(rows),
      RegionContribution(rows),
      Anomalies(monthly))
  }

  /** An empty view yields zero totals, a zero margin, no months, no groups and no
      anomalies. */
  lemma EmptyViewDefaults(view: CleanTable)
    requires view.rows == []
    ensures var a := AnalyzeData(view);
      && a.totalSales == 0.0 && a.totalProfit == 0.0 && a.avgProfitMargin == 0.0
      && a.monthlySales == [] && a.topProducts == [] && a.topDeclines == []
      && a.regionPerf == [] && a.categoryContrib == [] && a.regionContrib == []
      && a.anomalies == None
  {
  }

  /** The analysis depends only on which rows the view holds, not on their order: the
      monthly series in particular comes out chronological whatever the row order. */
  lemma AnalyzeDataPermutation(v: CleanTable, w: CleanTable)
    requires v.columns == w.columns && multiset(v.rows) == multiset(w.rows)
    ensures AnalyzeData(v) == AnalyzeData(w)
  {
    MonthBeforeIsStrictOrder();
    StrLessIsStrictOrder();
    var a, b := v.rows, w.rows;
    SumOfPermutation(a, b, SalesOf, MonthKey, MonthBefore);
    SumOfPermutation(a, b, ProfitOf, MonthKey, MonthBefore);
    GroupSumPermutation(a, b, MonthKey, SalesOf, MonthBefore);
    GroupSumPermutation(a, b, GroupKey(GroupColumn(v.columns)), SalesOf, StrLess);
    GroupSumPermutation(a, b, RegionOf, SalesOf, StrLess);
    GroupSumPermutation(a, b, RegionOf, ProfitOf, StrLess);
    GroupSumPermutation(a, b, CategoryOf, SalesOf, StrLess);
  }
}
