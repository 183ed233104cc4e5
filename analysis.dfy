/** The analysis page's pure helpers: the date-range filter, the headline
    statistics with the drawdown scan over the cumulative profit, the
    day-of-month buckets and the monthly profit table. */
module Analysis {
  import Js
  import Reals
  import Seqs
  import Sorting
  import Trades
  import ReportMetrics

  // ---------------------------------------------------------------------
  // filterTradesByRange

  datatype Range = Last30Days | Last90Days | AllTime

  /** The length of a range's window in milliseconds. */
  function WindowMs(range: Range): real
    requires !range.AllTime?
  {
    if range.Last30Days? then 30.0 * 24.0 * 60.0 * 60.0 * 1000.0
    else 90.0 * 24.0 * 60.0 * 60.0 * 1000.0
  }

  /** `trades.filter((t) => time(t) >= cutoff)`, order kept. */
  function OnOrAfter(trades: seq<Trades.Trade>, cutoff: real): (r: seq<Trades.Trade>)
    ensures |r| <= |trades|
  {
    if trades == [] then []
    else
      var t := trades[|trades| - 1];
      var init := OnOrAfter(trades[..|trades| - 1], cutoff);
      if t.time >= cutoff then init + [t] else init
  }

  /** A trade is kept exactly when it is one of the trades and is not older
      than the cutoff. */
  lemma {:induction false} OnOrAfterKeeps(trades: seq<Trades.Trade>, cutoff: real)
    ensures forall t :: t in OnOrAfter(trades, cutoff) <==> t in trades && t.time >= cutoff
    decreases |trades|
  {
    if trades != [] {
      var init := trades[..|trades| - 1];
      OnOrAfterKeeps(init, cutoff);
      assert trades == init + [trades[|trades| - 1]];
    }
  }

  /** A trade not older than the cutoff is kept as many times as it occurs,
      an older one not at all. */
  lemma {:induction false} OnOrAfterCounts(trades: seq<Trades.Trade>, cutoff: real)
    ensures forall t :: multiset(OnOrAfter(trades, cutoff))[t] ==
                          if t.time >= cutoff then multiset(trades)[t] else 0
    decreases |trades|
  {
    if trades != [] {
      var init := trades[..|trades| - 1];
      var last := trades[|trades| - 1];
      OnOrAfterCounts(init, cutoff);
      assert trades == init + [last];
      assert multiset(trades) == multiset(init) + multiset{last};
    }
  }

  /** The filter of a concatenation is the concatenation of the filters: the
      kept trades stay in their order. */
  lemma {:induction false} OnOrAfterAppend(a: seq<Trades.Trade>, b: seq<Trades.Trade>, cutoff: real)
    ensures OnOrAfter(a + b, cutoff) == OnOrAfter(a, cutoff) + OnOrAfter(b, cutoff)
    decreases |b|
  {
    if b == [] {
      assert a + b == a;
    } else {
      var init := b[..|b| - 1];
      var last := b[|b| - 1];
      OnOrAfterAppend(a, init, cutoff);
      assert (a + b)[..|a + b| - 1] == a + init;
      assert (a + b)[|a + b| - 1] == last;
      if last.time >= cutoff {
        assert OnOrAfter(b, cutoff) == OnOrAfter(init, cutoff) + [last];
        assert OnOrAfter(a + b, cutoff) == OnOrAfter(a + init, cutoff) + [last];
      } else {
        assert OnOrAfter(b, cutoff) == OnOrAfter(init, cutoff);
        assert OnOrAfter(a + b, cutoff) == OnOrAfter(a + init, cutoff);
      }
    }
  }

  /** When no trade is older than the cutoff, the filter returns all of them. */
  lemma {:induction false} OnOrAfterAll(trades: seq<Trades.Trade>, cutoff: real)
    requires forall i :: 0 <= i < |trades| ==> trades[i].time >= cutoff
    ensures OnOrAfter(trades, cutoff) == trades
    decreases |trades|
  {
    if trades != [] {
      var init := trades[..|trades| - 1];
      OnOrAfterAll(init, cutoff);
      assert trades == init + [trades[|trades| - 1]];
    }
  }

  /** When every trade is older than the cutoff, the filter returns none. */
  lemma {:induction false} OnOrAfterNone(trades: seq<Trades.Trade>, cutoff: real)
    requires forall i :: 0 <= i < |trades| ==> trades[i].time < cutoff
    ensures OnOrAfter(trades, cutoff) == []
    decreases |trades|
  {
    if trades != [] {
      OnOrAfterNone(trades[..|trades| - 1], cutoff);
    }
  }

  /** `filterTradesByRange`; `now` stands for `Date.now()`. */
  function FilterTradesByRange(trades: seq<Trades.Trade>, range: Range, now: real): (r: seq<Trades.Trade>)
    ensures range.AllTime? ==> r == trades
  {
    if range.AllTime? then trades else OnOrAfter(trades, now - WindowMs(range))
  }

  /** The 30-day and 90-day ranges keep exactly the trades of their window. */
  lemma FilterTradesByWindow(trades: seq<Trades.Trade>, range: Range, now: real)
    requires !range.AllTime?
    ensures WindowMs(range) == if range.Last30Days? then 2592000000.0 else 7776000000.0
    ensures forall t :: t in FilterTradesByRange(trades, range, now) <==>
                          t in trades && t.time >= now - WindowMs(range)
    ensures forall t :: multiset(FilterTradesByRange(trades, range, now))[t] ==
                          if t.time >= now - WindowMs(range) then multiset(trades)[t] else 0
  {
    OnOrAfterKeeps(trades, now - WindowMs(range));
    OnOrAfterCounts(trades, now - WindowMs(range));
  }

  // ---------------------------------------------------------------------
  // The drawdown scan

  /** The cumulative profit after the first `k` trades. */
  function Cum(xs: seq<real>, k: nat): real
    requires k <= |xs|
  {
    Seqs.Sum(xs[..k])
  }

  /** `peak` after `k` steps of the scan: it starts at 0 and follows any new high. */
  function Peak(xs: seq<real>, k: nat): real
    requires k <= |xs|
  {
    if k == 0 then 0.0
    else
      var p := Peak(xs, k - 1);
      if Cum(xs, k) > p then Cum(xs, k) else p
  }

  /** `maxDrawdown` after `k` steps of the scan. */
  function Drawdown(xs: seq<real>, k: nat): real
    requires k <= |xs|
  {
    if k == 0 then 0.0
    else
      var d := Drawdown(xs, k - 1);
      var dd := Peak(xs, k) - Cum(xs, k);
      if dd > d then dd else d
  }

  /** The peak is the highest cumulative profit seen so far, the start included. */
  lemma {:induction false} PeakIsHighest(xs: seq<real>, k: nat)
    requires k <= |xs|
    ensures forall i :: 0 <= i <= k ==> Cum(xs, i) <= Peak(xs, k)
    ensures exists i :: 0 <= i <= k && Cum(xs, i) == Peak(xs, k)
  {
    if k == 0 {
      assert xs[..0] == [];
      assert Cum(xs, 0) == 0.0;
    } else {
      PeakIsHighest(xs, k - 1);
    }
  }

  /** The maximum drawdown is the largest fall of the cumulative profit from
      an earlier level (the start included) to a later one. */
  lemma {:induction false} DrawdownIsLargestFall(xs: seq<real>, k: nat)
    requires k <= |xs|
    ensures forall i, j :: 0 <= i <= j <= k ==> Cum(xs, i) - Cum(xs, j) <= Drawdown(xs, k)
    ensures exists i, j :: 0 <= i <= j <= k && Drawdown(xs, k) == Cum(xs, i) - Cum(xs, j)
  {
    if k == 0 {
      assert Cum(xs, 0) - Cum(xs, 0) == 0.0;
    } else {
      DrawdownIsLargestFall(xs, k - 1);
      PeakIsHighest(xs, k);
      var d := Drawdown(xs, k - 1);
      var dd := Peak(xs, k) - Cum(xs, k);
      if dd > d {
        var i :| 0 <= i <= k && Cum(xs, i) == Peak(xs, k);
        assert Drawdown(xs, k) == Cum(xs, i) - Cum(xs, k);
      } else {
        var i, j :| 0 <= i <= j <= k - 1 && d == Cum(xs, i) - Cum(xs, j);
        assert Drawdown(xs, k) == Cum(xs, i) - Cum(xs, j);
      }
    }
  }

  /** The cumulative profit never falls when no trade loses. */
  lemma {:induction false} CumRises(xs: seq<real>, i: nat, j: nat)
    requires i <= j <= |xs|
    requires forall n :: 0 <= n < |xs| ==> xs[n] >= 0.0
    ensures Cum(xs, i) <= Cum(xs, j)
    decreases j
  {
    if i < j {
      CumRises(xs, i, j - 1);
      Seqs.SumPrefixStep(xs, j - 1);
    }
  }

  /** The drawdown is never negative, and it is 0 when no trade loses. */
  lemma DrawdownBounds(xs: seq<real>)
    ensures Drawdown(xs, |xs|) >= 0.0
    ensures (forall n :: 0 <= n < |xs| ==> xs[n] >= 0.0) ==> Drawdown(xs, |xs|) == 0.0
  {
    DrawdownIsLargestFall(xs, |xs|);
    assert Cum(xs, 0) - Cum(xs, 0) <= Drawdown(xs, |xs|);
    if forall n :: 0 <= n < |xs| ==> xs[n] >= 0.0 {
      var i, j :| 0 <= i <= j <= |xs| && Drawdown(xs, |xs|) == Cum(xs, i) - Cum(xs, j);
      CumRises(xs, i, j);
    }
  }

  /** The drawdown loop of `computeAnalysisStats`. */
  method MaxDrawdown(pnls: seq<real>) returns (maxDrawdown: real)
    ensures maxDrawdown == Drawdown(pnls, |pnls|)
  {
    var peak := 0.0;
    var cumulative := 0.0;
    maxDrawdown := 0.0;
    for i := 0 to |pnls|
      invariant cumulative == Cum(pnls, i)
      invariant peak == Peak(pnls, i)
      invariant maxDrawdown == Drawdown(pnls, i)
    {
      Seqs.SumPrefixStep(pnls, i);
      cumulative := cumulative + pnls[i];
      if cumulative > peak {
        peak := cumulative;
      }
      var dd := peak - cumulative;
      if dd > maxDrawdown {
        maxDrawdown := dd;
      }
    }
  }

  // ---------------------------------------------------------------------
  // The Sharpe ratio

  /** The average profit, 0 without trades. */
  function Mean(xs: seq<real>): real
  {
    if |xs| > 0 then Seqs.Sum(xs) / |xs| as real else 0.0
  }

  function SquaredDeviations(xs: seq<real>, m: real): (r: seq<real>)
    ensures |r| == |xs| && forall i :: 0 <= i < |r| ==> r[i] == (xs[i] - m) * (xs[i] - m)
  {
    seq(|xs|, i requires 0 <= i < |xs| => (xs[i] - m) * (xs[i] - m))
  }

  /** The sample variance, 0 for fewer than two trades. */
  function Variance(xs: seq<real>): real
  {
    if |xs| > 1 then Seqs.Sum(SquaredDeviations(xs, Mean(xs))) / (|xs| - 1) as real else 0.0
  }

  /** `std > 0 ? mean / std : 0` with `std = Math.sqrt(variance)`: the ratio
      is kept as its mean and variance, since square roots are not modelled. */
  datatype Sharpe = Zero | MeanOverStd(mean: real, variance: real)

  function SharpeOf(xs: seq<real>): (r: Sharpe)
    ensures r.MeanOverStd? ==> r.variance > 0.0 && r.mean == Mean(xs)
  {
    var v := Variance(xs);
    if v > 0.0 then MeanOverStd(Mean(xs), v) else Zero
  }

  lemma VarianceNonNegative(xs: seq<real>)
    ensures Variance(xs) >= 0.0
  {
    if |xs| > 1 {
      var sq := SquaredDeviations(xs, Mean(xs));
      forall i | 0 <= i < |sq| ensures sq[i] >= 0.0 {
        var d := xs[i] - Mean(xs);
        assert sq[i] == d * d;
      }
      Seqs.SumNonNegative(sq);
    }
  }

  /** There is no Sharpe ratio for fewer than two trades, nor when every trade
      made the same profit. */
  lemma SharpeOfSameProfit(xs: seq<real>, v: real)
    requires forall i :: 0 <= i < |xs| ==> xs[i] == v
    ensures SharpeOf(xs) == Zero
  {
    if |xs| > 1 {
      Seqs.SumConstant(xs, v);
      Reals.MeanOfCopies(|xs|, v);
      var sq := SquaredDeviations(xs, Mean(xs));
      Seqs.SumConstant(sq, 0.0);
      Reals.TimesIsProduct(|sq|, 0.0);
    }
  }

  // ---------------------------------------------------------------------
  // computeAnalysisStats

  datatype AnalysisStats = AnalysisStats(
    winRatePct: real,
    profitFactor: Js.Num,
    expectancy: real,
    maxDrawdown: real,
    sharpe: Sharpe)

  /** What `computeAnalysisStats` returns: the drawdown is scanned over the
      trades in date order, the rest does not depend on the order. */
  function StatsOf(trades: seq<Trades.Trade>): AnalysisStats
  {
    var pnls := Trades.Pnls(trades);
    var gains := ReportMetrics.Gains(pnls);
    var grossProfit := Seqs.Sum(gains);
    var grossLoss := ReportMetrics.Abs(Seqs.Sum(ReportMetrics.Losses(pnls)));
    var sorted := Trades.ByDate(trades);
    AnalysisStats(
      ReportMetrics.WinRate(|gains|, |trades|),
      ReportMetrics.RawProfitFactor(grossProfit, grossLoss),
      Mean(pnls),
      Drawdown(Trades.Pnls(sorted), |sorted|),
      SharpeOf(pnls))
  }

  /** `computeAnalysisStats` */
  method ComputeAnalysisStats(trades: seq<Trades.Trade>) returns (stats: AnalysisStats)
    ensures stats == StatsOf(trades)
  {
    var pnls := Trades.Pnls(trades);
    var gains := ReportMetrics.Gains(pnls);
    var grossProfit := Seqs.Sum(gains);
    var grossLoss := ReportMetrics.Abs(Seqs.Sum(ReportMetrics.Losses(pnls)));
    var sorted := Trades.ByDate(trades);
    var maxDrawdown := MaxDrawdown(Trades.Pnls(sorted));
    stats := AnalysisStats(
      ReportMetrics.WinRate(|gains|, |trades|),
      ReportMetrics.RawProfitFactor(grossProfit, grossLoss),
      Mean(pnls),
      maxDrawdown,
      SharpeOf(pnls));
  }

  /** Without trades every statistic is 0. */
  lemma StatsWithoutTrades()
    ensures StatsOf([]) == AnalysisStats(0.0, Js.Finite(0.0), 0.0, 0.0, Zero)
  {
    assert Trades.Pnls([]) == [];
    assert Trades.ByDate([]) == [];
  }

  /** The win rate and the expectancy agree with the report's; the profit
      factor agrees with the report's except when there is profit and no loss,
      where the analysis page shows Infinity and the report 0. */
  lemma StatsAgreeWithReport(trades: seq<Trades.Trade>)
    ensures var s := StatsOf(trades);
            var m := ReportMetrics.ComputeReportMetrics(trades);
            s.winRatePct == m.winRate &&
            s.expectancy == m.expectancy &&
            (s.profitFactor.IsFinite() ==> s.profitFactor == Js.Finite(m.profitFactor)) &&
            (s.profitFactor == Js.PosInf <==> m.grossLoss == 0.0 && m.grossProfit > 0.0) &&
            (s.profitFactor == Js.PosInf ==> m.profitFactor == 0.0)
  {
  }

  /** The maximum drawdown is never negative and is the largest fall of the
      cumulative profit, taken in date order from 0, between two moments. */
  lemma StatsDrawdown(trades: seq<Trades.Trade>)
    ensures var s := StatsOf(trades);
            var xs := Trades.Pnls(Trades.ByDate(trades));
            s.maxDrawdown >= 0.0 &&
            (forall i, j :: 0 <= i <= j <= |xs| ==> Cum(xs, i) - Cum(xs, j) <= s.maxDrawdown) &&
            (exists i, j :: 0 <= i <= j <= |xs| && s.maxDrawdown == Cum(xs, i) - Cum(xs, j))
  {
    var xs := Trades.Pnls(Trades.ByDate(trades));
    DrawdownIsLargestFall(xs, |xs|);
    DrawdownBounds(xs);
  }

  // ---------------------------------------------------------------------
  // buildDayOfMonthData

  /** The running totals kept for one day of the month. */
  datatype DayBucket = DayBucket(pnl: real, count: nat, wins: nat)

  /** The totals of the trades made on day `d` of a month. */
  function BucketOf(trades: seq<Trades.Trade>, d: int): (b: DayBucket)
    ensures b.wins <= b.count
    ensures b.count == 0 ==> b.pnl == 0.0
  {
    if trades == [] then DayBucket(0.0, 0, 0)
    else
      var b := BucketOf(trades[..|trades| - 1], d);
      var t := trades[|trades| - 1];
      if t.dayOfMonth == d then DayBucket(b.pnl + t.pnl, b.count + 1, b.wins + if t.pnl > 0.0 then 1 else 0)
      else b
  }

  datatype DayOfMonthEntry = DayOfMonthEntry(day: int, pnl: real, trades: nat, winRate: real)

  /** The entry shown for a day: its rounded profit, its trade count and its
      win rate in percent, 0 on a day without trades. */
  function EntryOf(day: int, b: DayBucket): DayOfMonthEntry
  {
    DayOfMonthEntry(day, Js.Round2(b.pnl), b.count, ReportMetrics.WinRate(b.wins, b.count))
  }

  /** `buildDayOfMonthData`: one entry for each of the days 1 to 31. */
  method BuildDayOfMonthData(trades: seq<Trades.Trade>) returns (r: seq<DayOfMonthEntry>)
    ensures |r| == 31
    ensures forall i :: 0 <= i < 31 ==> r[i] == EntryOf(i + 1, BucketOf(trades, i + 1))
  {
    var byDay: map<int, DayBucket> := map[];
    for d := 1 to 32
      invariant forall e :: 1 <= e < d ==> e in byDay && byDay[e] == DayBucket(0.0, 0, 0)
    {
      byDay := byDay[d := DayBucket(0.0, 0, 0)];
    }
    assert trades[..0] == [];
    for i := 0 to |trades|
      invariant forall e :: 1 <= e <= 31 ==> e in byDay && byDay[e] == BucketOf(trades[..i], e)
    {
      var t := trades[i];
      var day := t.dayOfMonth;
      var x := byDay[day];
      x := x.(pnl := x.pnl + t.pnl, count := x.count + 1);
      if t.pnl > 0.0 {
        x := x.(wins := x.wins + 1);
      }
      byDay := byDay[day := x];
      assert trades[..i + 1][..i] == trades[..i];
    }
    assert trades[..|trades|] == trades;
    r := seq(31, i requires 0 <= i < 31 => EntryOf(i + 1, byDay[i + 1]));
  }

  /** Every entry's win rate is a percentage, and a day without trades shows
      no profit and a zero win rate. */
  lemma DayEntryBounds(trades: seq<Trades.Trade>, day: int)
    ensures var e := EntryOf(day, BucketOf(trades, day));
            e.day == day &&
            0.0 <= e.winRate <= 100.0 &&
            (e.trades == 0 ==> e.winRate == 0.0 && e.pnl == 0.0)
  {
    var b := BucketOf(trades, day);
    ReportMetrics.WinRateRange(b.wins, b.count);
    Js.Round2OfZero();
  }

  /** The trade counts of days 1 to `n`. */
  function CountThrough(trades: seq<Trades.Trade>, n: nat): nat
  {
    if n == 0 then 0 else CountThrough(trades, n - 1) + BucketOf(trades, n).count
  }

  /** The profits of days 1 to `n`. */
  function PnlThrough(trades: seq<Trades.Trade>, n: nat): real
  {
    if n == 0 then 0.0 else PnlThrough(trades, n - 1) + BucketOf(trades, n).pnl
  }

  lemma {:induction false} ThroughStep(init: seq<Trades.Trade>, t: Trades.Trade, n: nat)
    ensures CountThrough(init + [t], n) == CountThrough(init, n) + if t.dayOfMonth <= n then 1 else 0
    ensures PnlThrough(init + [t], n) == PnlThrough(init, n) + if t.dayOfMonth <= n then t.pnl else 0.0
  {
    var ts := init + [t];
    assert ts[..|ts| - 1] == init;
    if n > 0 {
      ThroughStep(init, t, n - 1);
    }
  }

  /** Every trade falls on exactly one of the 31 days: the day counts add up
      to the number of trades and the day profits to the net profit. */
  lemma {:induction false} DaysCoverTrades(trades: seq<Trades.Trade>)
    ensures CountThrough(trades, 31) == |trades|
    ensures PnlThrough(trades, 31) == Seqs.Sum(Trades.Pnls(trades))
    decreases |trades|
  {
    if trades == [] {
      ZeroThrough(31);
    } else {
      var init := trades[..|trades| - 1];
      var t := trades[|trades| - 1];
      assert trades == init + [t];
      DaysCoverTrades(init);
      ThroughStep(init, t, 31);
      Trades.PnlsAppend(init, [t]);
      Seqs.SumAppend(Trades.Pnls(init), [t.pnl]);
      assert Seqs.Sum([t.pnl]) == t.pnl by { assert [t.pnl][..0] == []; }
    }
  }

  lemma {:induction false} ZeroThrough(n: nat)
    ensures CountThrough([], n) == 0 && PnlThrough([], n) == 0.0
  {
    if n > 0 {
      ZeroThrough(n - 1);
    }
  }

  // ---------------------------------------------------------------------
  // buildMonthlyData

  /** `toLocaleDateString("en-US", { month: "short" })` of a month number. */
  const ShortMonthNames: seq<string> :=
    ["Jan", "Feb", "Mar", "Apr", "May", "Jun", "Jul", "Aug", "Sep", "Oct", "Nov", "Dec"]

  function ShortLabel(k: Trades.MonthKey): string
  {
    ShortMonthNames[k.month - 1]
  }

  /** The position of each short month name, by month number, in the
      alphabetical order `localeCompare` puts them in:
      Apr, Aug, Dec, Feb, Jan, Jul, Jun, Mar, May, Nov, Oct, Sep. */
  const LabelOrder: seq<real> := [4.0, 3.0, 7.0, 0.0, 8.0, 6.0, 5.0, 1.0, 11.0, 10.0, 9.0, 2.0]

  /** A month of the table: its key (the long label "January 2024" is
      formatted from it), its short label and its rounded profit. */
  datatype MonthEntry = MonthEntry(key: Trades.MonthKey, shortLabel: string, pnl: real)

  function LabelRank(e: MonthEntry): real
  {
    LabelOrder[e.key.month - 1]
  }

  /** The months of the trades, in order of first appearance (the order of
      `Object.entries` on a record with these keys). */
  function MonthKeys(trades: seq<Trades.Trade>): seq<Trades.MonthKey>
  {
    Trades.Distinct(Trades.MonthsOf(trades))
  }

  /** The profit of the trades of month `k`. */
  function MonthSum(trades: seq<Trades.Trade>, k: Trades.MonthKey): real
  {
    if trades == [] then 0.0
    else
      var t := trades[|trades| - 1];
      MonthSum(trades[..|trades| - 1], k) + if t.monthKey == k then t.pnl else 0.0
  }

  /** Some trade was made in month `k`. */
  predicate HasMonth(trades: seq<Trades.Trade>, k: Trades.MonthKey)
  {
    exists i :: 0 <= i < |trades| && trades[i].monthKey == k
  }

  /** The months appear once each, and they are exactly the trades' months. */
  lemma MonthKeysAreTheMonths(trades: seq<Trades.Trade>)
    ensures var ks := MonthKeys(trades);
            (forall i, j :: 0 <= i < j < |ks| ==> ks[i] != ks[j]) &&
            (forall k :: k in ks <==> HasMonth(trades, k)) &&
            (ks == [] <==> trades == [])
  {
    var months := Trades.MonthsOf(trades);
    Trades.DistinctFacts(months);
    forall k ensures k in months <==> HasMonth(trades, k) {
      if k in months {
        var i :| 0 <= i < |months| && months[i] == k;
        assert trades[i].monthKey == k;
      }
    }
  }

  /** A month without trades has no profit. */
  lemma {:induction false} MonthSumOfOtherMonth(trades: seq<Trades.Trade>, k: Trades.MonthKey)
    requires !HasMonth(trades, k)
    ensures MonthSum(trades, k) == 0.0
    decreases |trades|
  {
    if trades != [] {
      var init := trades[..|trades| - 1];
      assert trades[|trades| - 1].monthKey != k;
      assert !HasMonth(init, k) by {
        forall i | 0 <= i < |init| ensures init[i].monthKey != k {
          assert init[i] == trades[i];
        }
      }
      MonthSumOfOtherMonth(init, k);
    }
  }

  /** The table rows before sorting, one per month in order of appearance. */
  function MonthEntries(trades: seq<Trades.Trade>): (r: seq<MonthEntry>)
    ensures |r| == |MonthKeys(trades)|
  {
    var ks := MonthKeys(trades);
    seq(|ks|, j requires 0 <= j < |ks| => MonthEntry(ks[j], ShortLabel(ks[j]), Js.Round2(MonthSum(trades, ks[j]))))
  }

  /** `months.reduce((a, b) => (b.pnl >= a.pnl ? b : a), months[0])`: the
      last month with the highest profit. */
  function Best(ms: seq<MonthEntry>): (b: MonthEntry)
    requires ms != []
    ensures b in ms && forall i :: 0 <= i < |ms| ==> ms[i].pnl <= b.pnl
  {
    if |ms| == 1 then ms[0]
    else
      var a := Best(ms[..|ms| - 1]);
      assert forall i :: 0 <= i < |ms| - 1 ==> ms[i] == ms[..|ms| - 1][i];
      var b := ms[|ms| - 1];
      if b.pnl >= a.pnl then b else a
  }

  /** `months.reduce((a, b) => (b.pnl <= a.pnl ? b : a), months[0])`: the
      last month with the lowest profit. */
  function Worst(ms: seq<MonthEntry>): (w: MonthEntry)
    requires ms != []
    ensures w in ms && forall i :: 0 <= i < |ms| ==> w.pnl <= ms[i].pnl
  {
    if |ms| == 1 then ms[0]
    else
      var a := Worst(ms[..|ms| - 1]);
      assert forall i :: 0 <= i < |ms| - 1 ==> ms[i] == ms[..|ms| - 1][i];
      var b := ms[|ms| - 1];
      if b.pnl <= a.pnl then b else a
  }

  datatype MonthlyData = MonthlyData(
    data: seq<MonthEntry>,
    bestMonth: string,
    bestPnl: real,
    worstMonth: string,
    worstPnl: real)

  /** The placeholder shown for the best and worst month when there is none. */
  const NoMonth: string := "\U{2014}"

  /** The result of `buildMonthlyData` for the sorted table rows. */
  function MonthlyDataOf(months: seq<MonthEntry>): MonthlyData
  {
    if months == [] then MonthlyData([], NoMonth, 0.0, NoMonth, 0.0)
    else
      var best := Best(months);
      var worst := Worst(months);
      MonthlyData(months, best.shortLabel, best.pnl, worst.shortLabel, worst.pnl)
  }

  /** `buildMonthlyData`: the profit of each month, sorted by short month
      name, with the best and the worst month. */
  method BuildMonthlyData(trades: seq<Trades.Trade>) returns (r: MonthlyData)
    ensures r == MonthlyDataOf(Sorting.SortBy(MonthEntries(trades), LabelRank))
  {
    var byMonth: map<Trades.MonthKey, real> := map[];
    var keys: seq<Trades.MonthKey> := [];
    assert trades[..0] == [];
    for i := 0 to |trades|
      invariant keys == MonthKeys(trades[..i])
      invariant forall k :: k in byMonth <==> k in keys
      invariant forall k :: k in byMonth ==> byMonth[k] == MonthSum(trades[..i], k)
    {
      var t := trades[i];
      var k := t.monthKey;
      ghost var prefix := trades[..i + 1];
      assert prefix[..i] == trades[..i] && prefix[i] == t;
      assert Trades.MonthsOf(prefix) == Trades.MonthsOf(trades[..i]) + [k];
      Trades.DistinctAppend(Trades.MonthsOf(trades[..i]), k);
      if k !in byMonth {
        MonthKeysAreTheMonths(trades[..i]);
        MonthSumOfOtherMonth(trades[..i], k);
      }
      var previous := if k in byMonth then byMonth[k] else 0.0;
      byMonth := byMonth[k := previous + t.pnl];
      if k !in keys {
        keys := keys + [k];
      }
    }
    assert trades[..|trades|] == trades;
    var months := seq(|keys|, j requires 0 <= j < |keys| =>
                        MonthEntry(keys[j], ShortLabel(keys[j]), Js.Round2(byMonth[keys[j]])));
    assert months == MonthEntries(trades);
    r := MonthlyDataOf(Sorting.SortBy(months, LabelRank));
  }

  /** Without trades the table is empty and shows the placeholder; otherwise
      it holds each month once, sorted by short name, and the best and worst
      profits bound every month's profit and belong to a month shown. */
  lemma MonthlyDataFacts(trades: seq<Trades.Trade>)
    ensures var r := MonthlyDataOf(Sorting.SortBy(MonthEntries(trades), LabelRank));
            (trades == [] ==> r == MonthlyData([], NoMonth, 0.0, NoMonth, 0.0)) &&
            multiset(r.data) == multiset(MonthEntries(trades)) &&
            Sorting.SortedBy(r.data, LabelRank) &&
            (trades != [] ==>
               (forall i :: 0 <= i < |r.data| ==> r.worstPnl <= r.data[i].pnl <= r.bestPnl) &&
               (exists i :: 0 <= i < |r.data| && r.data[i].pnl == r.bestPnl && r.data[i].shortLabel == r.bestMonth) &&
               (exists i :: 0 <= i < |r.data| && r.data[i].pnl == r.worstPnl && r.data[i].shortLabel == r.worstMonth))
  {
    MonthKeysAreTheMonths(trades);
    var sorted := Sorting.SortBy(MonthEntries(trades), LabelRank);
    if trades != [] {
      assert sorted != [];
      var best := Best(sorted);
      var worst := Worst(sorted);
      var i :| 0 <= i < |sorted| && sorted[i] == best;
      var j :| 0 <= j < |sorted| && sorted[j] == worst;
    }
  }
}
