/**
 * Portfolio totals on the dashboard: the per-stock metrics of every stock in
 * the Stocks table, summed, and the portfolio yield weighted by cost.
 */
module Dashboard {
  import opened Ledger
  import opened Metrics

  /**
   * The dashboard's totals. `totalPL` is `None` as soon as one stock's
   * realized profit is undefined: an undefined term makes the sum undefined.
   */
  datatype Totals = Totals(totalDiv: real, totalPL: Option<real>, totalShares: real,
                           totalCost: real, totalNetCost: real)

  const NoTotals: Totals := Totals(0.0, Some(0.0), 0.0, 0.0, 0.0)

  /** Adds two profits, undefined when either is. */
  function AddPL(a: Option<real>, b: Option<real>): (r: Option<real>)
    ensures r.Some? <==> a.Some? && b.Some?
    ensures r.Some? ==> r.value == a.value + b.value
  {
    if a.Some? && b.Some? then Some(a.value + b.value) else None
  }

  /** Two sets of totals added field by field (the totals of two disjoint groups of stocks). */
  function Combine(x: Totals, y: Totals): Totals
  {
    Totals(x.totalDiv + y.totalDiv, AddPL(x.totalPL, y.totalPL), x.totalShares + y.totalShares,
           x.totalCost + y.totalCost, x.totalNetCost + y.totalNetCost)
  }

  /** One stock's contribution to the totals. */
  function Contribution(m: StockMetrics): Totals
  {
    Totals(m.divAmt, m.pl, m.currentQty, m.totalBuyCost, m.netCost)
  }

  /** The totals of a list of per-stock metrics, summed in list order. */
  function SumMetrics(ms: seq<StockMetrics>): Totals
  {
    if ms == [] then NoTotals
    else Combine(SumMetrics(ms[..|ms| - 1]), Contribution(ms[|ms| - 1]))
  }

  /** The metrics of every stock row after the header, in table order. */
  function PerStock(snap: Snapshot): (ms: seq<StockMetrics>)
    ensures |ms| == |DataRows(snap.stocks)|
    ensures forall i :: 0 <= i < |ms| ==> ms[i] == MetricsOf(snap, snap.stocks[i + 1].symbol)
  {
    var stocks := DataRows(snap.stocks);
    seq(|stocks|, i requires 0 <= i < |stocks| => MetricsOf(snap, stocks[i].symbol))
  }

  /**
   * The portfolio yield: total dividends as a percentage of the total bought
   * cost, or zero when that cost is not positive.
   */
  function AvgYield(t: Totals): (y: real)
    ensures t.totalCost > 0.0 ==> y * t.totalCost == 100.0 * t.totalDiv
    ensures t.totalCost <= 0.0 ==> y == 0.0
  {
    if t.totalCost > 0.0 then t.totalDiv * 100.0 / t.totalCost else 0.0
  }

  /**
   * The dashboard's totals loop: the metrics of each stock row after the
   * header are computed and added to the running totals; the portfolio
   * yield is then taken from the totals.
   */
  method DashboardTotals(snap: Snapshot) returns (totals: Totals, avgYield: real)
    ensures totals == SumMetrics(PerStock(snap))
    ensures avgYield == AvgYield(totals)
  {
    var totalDiv, totalPL, totalShares, totalCost, totalNetCost := 0.0, Some(0.0), 0.0, 0.0, 0.0;
    var stocks := DataRows(snap.stocks);
    ghost var ms := PerStock(snap);
    for i := 0 to |stocks|
      invariant Totals(totalDiv, totalPL, totalShares, totalCost, totalNetCost) == SumMetrics(ms[..i])
    {
      var m := GetStockMetrics(snap, stocks[i].symbol);
      totalDiv := totalDiv + m.divAmt;
      totalPL := AddPL(totalPL, m.pl);
      totalShares := totalShares + m.currentQty;
      totalCost := totalCost + m.totalBuyCost;
      totalNetCost := totalNetCost + m.netCost;
      assert ms[..i + 1][..i] == ms[..i];
    }
    assert ms[..|stocks|] == ms;
    totals := Totals(totalDiv, totalPL, totalShares, totalCost, totalNetCost);
    avgYield := if totalCost > 0.0 then totalDiv * 100.0 / totalCost else 0.0;
  }

  // ----- properties of the totals -------------------------------------------

  /**
   * Totals are additive: the totals of two groups of stocks listed one after
   * the other are the two groups' totals combined.
   */
  lemma {:induction false} SumMetricsAppend(a: seq<StockMetrics>, b: seq<StockMetrics>)
    ensures SumMetrics(a + b) == Combine(SumMetrics(a), SumMetrics(b))
  {
    if b == [] {
      assert a + b == a;
    } else {
      var init := b[..|b| - 1];
      assert (a + b)[..|a + b| - 1] == a + init;
      SumMetricsAppend(a, init);
    }
  }

  /**
   * A stock row added to the Stocks table adds that symbol's metrics to the
   * totals and changes nothing else; listing a symbol twice counts it twice.
   */
  lemma AppendStockRow(snap: Snapshot, stock: StockRow)
    requires |snap.stocks| > 0
    ensures SumMetrics(PerStock(snap.(stocks := snap.stocks + [stock])))
            == Combine(SumMetrics(PerStock(snap)), Contribution(MetricsOf(snap, stock.symbol)))
  {
    var snap' := snap.(stocks := snap.stocks + [stock]);
    var ms, ms' := PerStock(snap), PerStock(snap');
    assert ms'[..|ms|] == ms;
  }

  /** Moving one stock's contribution past a group of others leaves the sum as it was. */
  lemma CombineMovesPast(p: Totals, c: Totals, r: Totals)
    ensures Combine(Combine(p, c), r) == Combine(Combine(p, r), c)
  {
  }

  /** Taking the element at `k` out of a sequence takes one occurrence of it out of its multiset. */
  lemma RemoveAt<T>(s: seq<T>, k: int)
    requires 0 <= k < |s|
    ensures multiset(s[..k] + s[k + 1..]) == multiset(s) - multiset{s[k]}
  {
    assert s == s[..k] + [s[k]] + s[k + 1..];
  }

  /**
   * The order in which the stocks are listed does not change the totals:
   * any two lists holding the same per-stock metrics, each as many times,
   * have equal totals.
   */
  lemma {:induction false} SumMetricsPermutation(a: seq<StockMetrics>, b: seq<StockMetrics>)
    requires multiset(a) == multiset(b)
    ensures SumMetrics(a) == SumMetrics(b)
    decreases |a|
  {
    if a == [] {
      assert |b| == |multiset(b)| == 0;
    } else {
      var init, x := a[..|a| - 1], a[|a| - 1];
      assert x in multiset(b);
      var k :| 0 <= k < |b| && b[k] == x;
      var before, after := b[..k], b[k + 1..];
      assert multiset(init) == multiset(before + after) by {
        RemoveAt(a, |a| - 1);
        assert a[..|a| - 1] + a[|a|..] == init;
        RemoveAt(b, k);
      }
      SumMetricsPermutation(init, before + after);
      assert b == before + [x] + after;
      assert (before + [x])[..|before|] == before;
      SumMetricsAppend(before + [x], after);
      SumMetricsAppend(before, after);
      CombineMovesPast(SumMetrics(before), Contribution(x), SumMetrics(after));
    }
  }

  /** The metrics of the symbol of each of `rows`, in order. */
  function EachMetrics(snap: Snapshot, rows: seq<StockRow>): (ms: seq<StockMetrics>)
    ensures |ms| == |rows|
    ensures forall i :: 0 <= i < |rows| ==> ms[i] == MetricsOf(snap, rows[i].symbol)
  {
    seq(|rows|, i requires 0 <= i < |rows| => MetricsOf(snap, rows[i].symbol))
  }

  lemma EachMetricsAppend(snap: Snapshot, x: seq<StockRow>, y: seq<StockRow>)
    ensures EachMetrics(snap, x + y) == EachMetrics(snap, x) + EachMetrics(snap, y)
  {
    assert forall i :: 0 <= i < |x + y| ==> (x + y)[i] == if i < |x| then x[i] else y[i - |x|];
  }

  /** Taking one stock row out of a list takes its metrics out of the list's metrics. */
  lemma EachMetricsRemoveAt(snap: Snapshot, rows: seq<StockRow>, k: int)
    requires 0 <= k < |rows|
    ensures multiset(EachMetrics(snap, rows))
            == multiset(EachMetrics(snap, rows[..k] + rows[k + 1..])) + multiset{MetricsOf(snap, rows[k].symbol)}
  {
    var before, after := rows[..k], rows[k + 1..];
    assert rows == before + [rows[k]] + after;
    EachMetricsAppend(snap, before + [rows[k]], after);
    EachMetricsAppend(snap, before, [rows[k]]);
    EachMetricsAppend(snap, before, after);
  }

  /** Listing the same stock rows in another order lists the same metrics in another order. */
  lemma {:induction false} StockRowsPermutation(snap: Snapshot, r1: seq<StockRow>, r2: seq<StockRow>)
    requires multiset(r1) == multiset(r2)
    ensures multiset(EachMetrics(snap, r1)) == multiset(EachMetrics(snap, r2))
    decreases |r1|
  {
    if r1 == [] {
      assert |r2| == |multiset(r2)| == 0;
    } else {
      var n := |r1| - 1;
      assert r1[n] in multiset(r2);
      var k :| 0 <= k < |r2| && r2[k] == r1[n];
      var rest1, rest2 := r1[..n] + r1[n + 1..], r2[..k] + r2[k + 1..];
      RemoveAt(r1, n);
      RemoveAt(r2, k);
      StockRowsPermutation(snap, rest1, rest2);
      EachMetricsRemoveAt(snap, r1, n);
      EachMetricsRemoveAt(snap, r2, k);
    }
  }

  /**
   * The order of the rows of the Stocks table does not change the totals:
   * two tables whose data rows are the same rows, each as many times, give
   * the same totals.
   */
  lemma StockOrderIrrelevant(snap: Snapshot, stocks: seq<StockRow>)
    requires multiset(DataRows(snap.stocks)) == multiset(DataRows(stocks))
    ensures SumMetrics(PerStock(snap.(stocks := stocks))) == SumMetrics(PerStock(snap))
  {
    var snap' := snap.(stocks := stocks);
    assert PerStock(snap) == EachMetrics(snap, DataRows(snap.stocks));
    assert PerStock(snap') == EachMetrics(snap, DataRows(stocks)) by {
      forall i | 0 <= i < |PerStock(snap')|
        ensures PerStock(snap')[i] == EachMetrics(snap, DataRows(stocks))[i]
      {
        assert MetricsOf(snap', stocks[i + 1].symbol) == MetricsOf(snap, stocks[i + 1].symbol);
      }
    }
    StockRowsPermutation(snap, DataRows(stocks), DataRows(snap.stocks));
    SumMetricsPermutation(EachMetrics(snap, DataRows(stocks)), EachMetrics(snap, DataRows(snap.stocks)));
  }

  /** The portfolio's realized profit is defined exactly when every stock's is. */
  lemma {:induction false} TotalPLDefinedIffEveryStock(ms: seq<StockMetrics>)
    ensures SumMetrics(ms).totalPL.Some? <==> forall i :: 0 <= i < |ms| ==> ms[i].pl.Some?
  {
    if ms != [] {
      var init := ms[..|ms| - 1];
      TotalPLDefinedIffEveryStock(init);
      assert forall i :: 0 <= i < |init| ==> init[i] == ms[i];
    }
  }

  /** Each stock's yield weighted by its bought cost, summed. */
  function CostWeightedYield(ms: seq<StockMetrics>): real
  {
    if ms == [] then 0.0
    else CostWeightedYield(ms[..|ms| - 1]) + ms[|ms| - 1].yieldPct * ms[|ms| - 1].totalBuyCost
  }

  /** The relation between a stock's yield, dividends and bought cost that every computed metric has. */
  predicate YieldConsistent(m: StockMetrics)
  {
    m.yieldPct == if m.totalBuyCost > 0.0 then m.divAmt * 100.0 / m.totalBuyCost else 0.0
  }

  lemma MetricsYieldConsistent(snap: Snapshot, symbol: string)
    ensures YieldConsistent(MetricsOf(snap, symbol))
  {
  }

  /**
   * The portfolio yield is the cost-weighted mean of the per-stock yields,
   * not their plain average, provided every stock that received dividends
   * has a positive bought cost (a stock without one shows a zero yield but
   * still adds its dividends to the total).
   */
  lemma {:induction false} PortfolioYieldIsCostWeighted(ms: seq<StockMetrics>)
    requires forall i :: 0 <= i < |ms| ==> YieldConsistent(ms[i])
    requires forall i :: 0 <= i < |ms| ==> ms[i].totalBuyCost > 0.0 || ms[i].divAmt == 0.0
    ensures 100.0 * SumMetrics(ms).totalDiv == CostWeightedYield(ms)
    ensures SumMetrics(ms).totalCost > 0.0 ==>
              AvgYield(SumMetrics(ms)) * SumMetrics(ms).totalCost == CostWeightedYield(ms)
  {
    if ms != [] {
      var init, last := ms[..|ms| - 1], ms[|ms| - 1];
      assert forall i :: 0 <= i < |init| ==> init[i] == ms[i];
      PortfolioYieldIsCostWeighted(init);
      assert |ms| - 1 < |ms|;
      if last.totalBuyCost > 0.0 {
        assert last.yieldPct * last.totalBuyCost == 100.0 * last.divAmt;
      }
    }
  }

  /**
   * Two stocks, one with cost 1000 and dividends 50 (a 5% yield) and one
   * with cost 3000 and no dividends (0%): the portfolio yield is 1.25%, not
   * the 2.5% average of the two yields.
   */
  lemma WeightedYieldExample(a: StockMetrics, b: StockMetrics)
    requires a.divAmt == 50.0 && a.totalBuyCost == 1000.0 && YieldConsistent(a)
    requires b.divAmt == 0.0 && b.totalBuyCost == 3000.0 && YieldConsistent(b)
    ensures a.yieldPct == 5.0 && b.yieldPct == 0.0
    ensures AvgYield(SumMetrics([a, b])) == 1.25
    ensures AvgYield(SumMetrics([a, b])) != (a.yieldPct + b.yieldPct) / 2.0
  {
    assert [a, b][..1] == [a];
    assert [a][..0] == [];
    assert SumMetrics([a]) == Combine(NoTotals, Contribution(a));
    assert SumMetrics([a, b]) == Combine(SumMetrics([a]), Contribution(b));
    var t := SumMetrics([a, b]);
    assert t.totalDiv == 50.0 && t.totalCost == 4000.0;
    assert AvgYield(t) == 1.25;
  }
}
