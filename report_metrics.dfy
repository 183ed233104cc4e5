/** The report page's trade metrics: net profit, win and loss counts, win
    rate, gross profit and loss, profit factor, expectancy, best and worst
    trade, and the cumulative profit series in date order. */
module ReportMetrics {
  import Js
  import Reals
  import Seqs
  import Trades

  // ---------------------------------------------------------------------
  // Filters over profits

  /** `pnls.filter((p) => p > 0)`, order kept. */
  function Gains(xs: seq<real>): (r: seq<real>)
    ensures |r| <= |xs|
    ensures forall i :: 0 <= i < |r| ==> r[i] > 0.0
    ensures forall v :: multiset(r)[v] == if v > 0.0 then multiset(xs)[v] else 0
  {
    if xs == [] then []
    else
      var x := xs[|xs| - 1];
      assert xs == xs[..|xs| - 1] + [x];
      Gains(xs[..|xs| - 1]) + (if x > 0.0 then [x] else [])
  }

  /** `pnls.filter((p) => p < 0)`, order kept. */
  function Losses(xs: seq<real>): (r: seq<real>)
    ensures |r| <= |xs|
    ensures forall i :: 0 <= i < |r| ==> r[i] < 0.0
    ensures forall v :: multiset(r)[v] == if v < 0.0 then multiset(xs)[v] else 0
  {
    if xs == [] then []
    else
      var x := xs[|xs| - 1];
      assert xs == xs[..|xs| - 1] + [x];
      Losses(xs[..|xs| - 1]) + (if x < 0.0 then [x] else [])
  }

  /** Every profit is a gain, a loss, or zero; a zero counts as neither. */
  lemma {:induction false} GainsAndLossesCount(xs: seq<real>)
    ensures |Gains(xs)| + |Losses(xs)| <= |xs|
    ensures |Gains(xs)| + |Losses(xs)| == |xs| <==> 0.0 !in xs
    decreases |xs|
  {
    if xs != [] {
      var init := xs[..|xs| - 1];
      GainsAndLossesCount(init);
      assert xs == init + [xs[|xs| - 1]];
    }
  }

  /** The gains and the losses add up to the whole. */
  lemma {:induction false} GainsPlusLosses(xs: seq<real>)
    ensures Seqs.Sum(Gains(xs)) + Seqs.Sum(Losses(xs)) == Seqs.Sum(xs)
    decreases |xs|
  {
    if xs != [] {
      var x := xs[|xs| - 1];
      var init := xs[..|xs| - 1];
      GainsPlusLosses(init);
      Seqs.SumAppend(Gains(init), if x > 0.0 then [x] else []);
      Seqs.SumAppend(Losses(init), if x < 0.0 then [x] else []);
      assert Seqs.Sum([x]) == x by { assert [x][..0] == []; }
    }
  }

  // ---------------------------------------------------------------------
  // computeReportMetrics

  datatype Metrics = Metrics(
    netPnl: real,
    totalTrades: nat,
    wins: nat,
    losses: nat,
    winRate: real,
    grossProfit: real,
    grossLoss: real,
    profitFactor: real,
    expectancy: real,
    bestTrade: real,
    worstTrade: real)

  /** `wins / total * 100`, or 0 without trades. */
  function WinRate(wins: nat, total: nat): real
  {
    if total > 0 then wins as real / total as real * 100.0 else 0.0
  }

  /** `grossLoss > 0 ? grossProfit / grossLoss : grossProfit > 0 ? Infinity : 0` */
  function RawProfitFactor(grossProfit: real, grossLoss: real): (r: Js.Num)
    ensures grossLoss > 0.0 ==> r == Js.Finite(grossProfit / grossLoss)
    ensures grossLoss <= 0.0 ==> (r == Js.PosInf <==> grossProfit > 0.0)
    ensures grossLoss <= 0.0 && grossProfit <= 0.0 ==> r == Js.Finite(0.0)
  {
    if grossLoss > 0.0 then Js.Finite(grossProfit / grossLoss)
    else if grossProfit > 0.0 then Js.PosInf
    else Js.Finite(0.0)
  }

  /** `Math.abs(x)` */
  function Abs(x: real): real { if x < 0.0 then -x else x }

  /** `computeReportMetrics`; the profit factor `Infinity` is reported as 0. */
  function ComputeReportMetrics(trades: seq<Trades.Trade>): Metrics
  {
    var pnls := Trades.Pnls(trades);
    var total := |trades|;
    var net := Seqs.Sum(pnls);
    var wins := |Gains(pnls)|;
    var losses := |Losses(pnls)|;
    var grossProfit := Seqs.Sum(Gains(pnls));
    var grossLoss := Abs(Seqs.Sum(Losses(pnls)));
    var pf := RawProfitFactor(grossProfit, grossLoss);
    Metrics(
      net, total, wins, losses, WinRate(wins, total), grossProfit, grossLoss,
      if pf.IsFinite() then pf.v else 0.0,
      Expectancy(net, total),
      if pnls != [] then Seqs.Max(pnls) else 0.0,
      if pnls != [] then Seqs.Min(pnls) else 0.0)
  }

  /** Wins and losses never exceed the trades; zero-profit trades are neither,
      and the win rate is a percentage, 0 without trades. */
  lemma MetricsCounts(trades: seq<Trades.Trade>)
    ensures var m := ComputeReportMetrics(trades);
            m.totalTrades == |trades| &&
            m.wins + m.losses <= m.totalTrades &&
            (m.wins + m.losses == m.totalTrades <==> forall i :: 0 <= i < |trades| ==> trades[i].pnl != 0.0) &&
            (m.totalTrades == 0 ==> m.winRate == 0.0) &&
            (m.totalTrades > 0 ==> m.winRate == m.wins as real / m.totalTrades as real * 100.0) &&
            0.0 <= m.winRate <= 100.0
  {
    var pnls := Trades.Pnls(trades);
    GainsAndLossesCount(pnls);
    assert 0.0 in pnls <==> exists i :: 0 <= i < |trades| && trades[i].pnl == 0.0 by {
      if 0.0 in pnls {
        var i :| 0 <= i < |pnls| && pnls[i] == 0.0;
        assert trades[i].pnl == 0.0;
      }
    }
    WinRateRange(|Gains(pnls)|, |trades|);
  }

  lemma WinRateRange(wins: nat, total: nat)
    requires wins <= total
    ensures 0.0 <= WinRate(wins, total) <= 100.0
  {
    if total > 0 {
      assert wins as real / total as real <= 1.0;
    }
  }

  /** Gross profit and gross loss are not negative and differ by the net profit. */
  lemma MetricsGross(trades: seq<Trades.Trade>)
    ensures var m := ComputeReportMetrics(trades);
            m.grossProfit >= 0.0 && m.grossLoss >= 0.0 &&
            m.grossProfit - m.grossLoss == m.netPnl &&
            m.netPnl == Seqs.Sum(Trades.Pnls(trades))
  {
    var pnls := Trades.Pnls(trades);
    Seqs.SumNonNegative(Gains(pnls));
    Seqs.SumNonPositive(Losses(pnls));
    GainsPlusLosses(pnls);
  }

  /** The profit factor is the ratio of gross profit to gross loss when there
      is a loss, and 0 otherwise: the infinite factor is reported as 0. */
  lemma MetricsProfitFactor(trades: seq<Trades.Trade>)
    ensures var m := ComputeReportMetrics(trades);
            (m.grossLoss > 0.0 ==> m.profitFactor == m.grossProfit / m.grossLoss) &&
            (m.grossLoss == 0.0 ==> m.profitFactor == 0.0)
  {
  }

  /** The expectancy is the average profit, 0 without trades. */
  lemma MetricsExpectancy(trades: seq<Trades.Trade>)
    ensures var m := ComputeReportMetrics(trades);
            (m.totalTrades == 0 ==> m.expectancy == 0.0) &&
            (m.totalTrades > 0 ==> Reals.Times(m.totalTrades, m.expectancy) == m.netPnl)
  {
    var m := ComputeReportMetrics(trades);
    ExpectancyTimes(m.netPnl, m.totalTrades);
  }

  /** `total > 0 ? net / total : 0` */
  function Expectancy(net: real, total: nat): real
  {
    if total > 0 then net / total as real else 0.0
  }

  /** `total` copies of the average add up to the net profit. */
  lemma ExpectancyTimes(net: real, total: nat)
    ensures total == 0 ==> Expectancy(net, total) == 0.0
    ensures total > 0 ==> Reals.Times(total, Expectancy(net, total)) == net
  {
    if total > 0 {
      Reals.TimesIsProduct(total, net / total as real);
      Reals.DivTimes(net, total as real);
    }
  }

  /** The best trade is the largest profit and the worst the smallest; both 0
      without trades. */
  lemma MetricsExtremes(trades: seq<Trades.Trade>)
    ensures var m := ComputeReportMetrics(trades);
            m.worstTrade <= m.bestTrade &&
            (trades == [] ==> m.bestTrade == 0.0 && m.worstTrade == 0.0) &&
            (forall i :: 0 <= i < |trades| ==> m.worstTrade <= trades[i].pnl <= m.bestTrade) &&
            (trades != [] ==> exists i, j :: 0 <= i < |trades| && 0 <= j < |trades| &&
                                             trades[i].pnl == m.bestTrade && trades[j].pnl == m.worstTrade)
  {
    var pnls := Trades.Pnls(trades);
    if pnls != [] {
      var best, worst := Seqs.Max(pnls), Seqs.Min(pnls);
      assert pnls[0] <= best && worst <= pnls[0];
      var i :| 0 <= i < |pnls| && pnls[i] == best;
      var j :| 0 <= j < |pnls| && pnls[j] == worst;
      assert trades[i].pnl == best && trades[j].pnl == worst;
    }
  }

  // ---------------------------------------------------------------------
  // computeCumulativeSeries

  /** A point of the cumulative series; the ISO and display date strings are
      formatted from `time` and are not modelled. */
  datatype CumulativePoint = CumulativePoint(time: real, cumulativePnl: real)

  /** Point `k` of the series over trades already in date order: the rounded
      sum of the first `k + 1` profits. */
  function PointAt(sorted: seq<Trades.Trade>, k: nat): CumulativePoint
    requires k < |sorted|
  {
    CumulativePoint(sorted[k].time, Js.Round2(Seqs.Sum(Trades.Pnls(sorted)[..k + 1])))
  }

  function CumulativeSeries(trades: seq<Trades.Trade>): (r: seq<CumulativePoint>)
    ensures |r| == |trades|
  {
    var sorted := Trades.ByDate(trades);
    seq(|sorted|, k requires 0 <= k < |sorted| => PointAt(sorted, k))
  }

  /** `computeCumulativeSeries`: the running sum over the trades sorted by date. */
  method ComputeCumulativeSeries(trades: seq<Trades.Trade>) returns (points: seq<CumulativePoint>)
    ensures points == CumulativeSeries(trades)
  {
    var sorted := Trades.ByDate(trades);
    points := Accumulate(sorted);
  }

  /** The loop of `computeCumulativeSeries` over trades already in date order. */
  method Accumulate(sorted: seq<Trades.Trade>) returns (points: seq<CumulativePoint>)
    ensures |points| == |sorted|
    ensures forall k :: 0 <= k < |sorted| ==> points[k] == PointAt(sorted, k)
  {
    var cumulative := 0.0;
    points := [];
    for i := 0 to |sorted|
      invariant |points| == i
      invariant cumulative == Seqs.Sum(Trades.Pnls(sorted)[..i])
      invariant forall k :: 0 <= k < i ==> points[k] == PointAt(sorted, k)
    {
      Seqs.SumPrefixStep(Trades.Pnls(sorted), i);
      cumulative := cumulative + sorted[i].pnl;
      points := points + [CumulativePoint(sorted[i].time, Js.Round2(cumulative))];
    }
  }

  /** The series runs in date order. */
  lemma CumulativeSeriesInOrder(trades: seq<Trades.Trade>)
    ensures var r := CumulativeSeries(trades);
            forall i, j :: 0 <= i < j < |r| ==> r[i].time <= r[j].time
  {
  }

  /** The last point of the series is the rounded net profit of all trades. */
  lemma CumulativeSeriesEnds(trades: seq<Trades.Trade>)
    requires trades != []
    ensures var r := CumulativeSeries(trades);
            r[|r| - 1].cumulativePnl == Js.Round2(ComputeReportMetrics(trades).netPnl)
  {
    var sorted := Trades.ByDate(trades);
    var pnls := Trades.Pnls(sorted);
    assert pnls[..|pnls|] == pnls;
    Trades.PnlsPermutation(sorted, trades);
    Seqs.SumPermutation(pnls, Trades.Pnls(trades));
    assert CumulativeSeries(trades)[|trades| - 1] == PointAt(sorted, |trades| - 1);
  }

  /** When no trade loses, the series never falls. */
  lemma CumulativeSeriesRises(trades: seq<Trades.Trade>)
    requires forall i :: 0 <= i < |trades| ==> trades[i].pnl >= 0.0
    ensures var r := CumulativeSeries(trades);
            forall k :: 0 < k < |r| ==> r[k - 1].cumulativePnl <= r[k].cumulativePnl
  {
    var sorted := Trades.ByDate(trades);
    var pnls := Trades.Pnls(sorted);
    forall k | 0 < k < |sorted|
      ensures PointAt(sorted, k - 1).cumulativePnl <= PointAt(sorted, k).cumulativePnl
    {
      assert sorted[k] in multiset(trades);
      Seqs.SumPrefixStep(pnls, k);
      Js.Round2Monotone(Seqs.Sum(pnls[..k]), Seqs.Sum(pnls[..k + 1]));
    }
  }
}
