/** The calendar page's aggregations: one cell per trading day, the grid row
    of a selected day, the totals of its week, and the statistics of the
    shown month. Day keys, and the dates behind them, are abstract values
    of the trades. */
module Calendar {
  import Reals
  import Seqs
  import Trades
  import ReportMetrics

  /** The number of trades made on day `key`. */
  function CountOn(trades: seq<Trades.Trade>, key: string): nat
  {
    if trades == [] then 0
    else CountOn(trades[..|trades| - 1], key) + if trades[|trades| - 1].dayKey == key then 1 else 0
  }

  /** The profit of the trades made on day `key`. */
  function PnlOn(trades: seq<Trades.Trade>, key: string): real
  {
    if trades == [] then 0.0
    else
      var t := trades[|trades| - 1];
      PnlOn(trades[..|trades| - 1], key) + if t.dayKey == key then t.pnl else 0.0
  }

  /** The number of winning trades made on day `key`. */
  function WinsOn(trades: seq<Trades.Trade>, key: string): nat
  {
    if trades == [] then 0
    else
      var t := trades[|trades| - 1];
      WinsOn(trades[..|trades| - 1], key) + if t.dayKey == key && t.pnl > 0.0 then 1 else 0
  }

  /** The count of a day is how often its key occurs among the trades. */
  lemma {:induction false} CountOnIsMultiplicity(trades: seq<Trades.Trade>, key: string)
    ensures CountOn(trades, key) == multiset(Trades.DaysOf(trades))[key]
    decreases |trades|
  {
    if trades != [] {
      var init := trades[..|trades| - 1];
      CountOnIsMultiplicity(init, key);
      assert Trades.DaysOf(trades) == Trades.DaysOf(init) + [trades[|trades| - 1].dayKey];
    }
  }

  /** A day has a trade exactly when some trade carries its key. */
  lemma CountOnPositive(trades: seq<Trades.Trade>, key: string)
    ensures CountOn(trades, key) > 0 <==> key in Trades.DaysOf(trades)
  {
    CountOnIsMultiplicity(trades, key);
  }

  /** A day without trades has neither profit nor wins. */
  lemma {:induction false} NothingOnOtherDay(trades: seq<Trades.Trade>, key: string)
    requires CountOn(trades, key) == 0
    ensures PnlOn(trades, key) == 0.0 && WinsOn(trades, key) == 0
    decreases |trades|
  {
    if trades != [] {
      NothingOnOtherDay(trades[..|trades| - 1], key);
    }
  }

  /** Adding trade `i` to the trades before it adds to its own day only. */
  lemma StepOn(trades: seq<Trades.Trade>, i: nat, key: string)
    requires i < |trades|
    ensures var on := trades[i].dayKey == key;
            CountOn(trades[..i + 1], key) == CountOn(trades[..i], key) + (if on then 1 else 0) &&
            PnlOn(trades[..i + 1], key) == PnlOn(trades[..i], key) + (if on then trades[i].pnl else 0.0) &&
            WinsOn(trades[..i + 1], key) == WinsOn(trades[..i], key) + (if on && trades[i].pnl > 0.0 then 1 else 0)
  {
    assert trades[..i + 1][..i] == trades[..i];
  }

  /** A day has no more wins than trades. */
  lemma {:induction false} WinsAtMostCount(trades: seq<Trades.Trade>, key: string)
    ensures WinsOn(trades, key) <= CountOn(trades, key)
    decreases |trades|
  {
    if trades != [] {
      WinsAtMostCount(trades[..|trades| - 1], key);
    }
  }

  /** `DayCellData`: the profit, the number of trades and the fraction of
      winning trades of one day. */
  datatype DayCellData = DayCellData(dailyPnl: real, tradesCount: nat, winRateDay: real)

  /** The cell of a day with trades: their profit, their number, and the
      fraction of them that won. */
  function CellOf(trades: seq<Trades.Trade>, key: string): DayCellData
    requires CountOn(trades, key) > 0
  {
    var n := CountOn(trades, key);
    DayCellData(PnlOn(trades, key), n, WinsOn(trades, key) as real / n as real)
  }

  /** The win fraction of a day lies in [0, 1]. */
  lemma CellWinRate(trades: seq<Trades.Trade>, key: string)
    requires CountOn(trades, key) > 0
    ensures 0.0 <= CellOf(trades, key).winRateDay <= 1.0
  {
    WinsAtMostCount(trades, key);
    Reals.PartOfWhole(WinsOn(trades, key) as real, CountOn(trades, key) as real);
  }

  /** The map is the daily data of `trades`: a cell for exactly the days
      with trades, holding that day's count, profit and win fraction. */
  ghost predicate IsDailyDataOf(dailyData: map<string, DayCellData>, trades: seq<Trades.Trade>)
  {
    (forall key :: key in dailyData <==> CountOn(trades, key) > 0) &&
    (forall key :: key in dailyData ==> CountOn(trades, key) > 0 && dailyData[key] == CellOf(trades, key))
  }

  /** 1 for a winning trade, 0 otherwise. */
  function Win(t: Trades.Trade): real
  {
    if t.pnl > 0.0 then 1.0 else 0.0
  }

  /** The cell of a day's first trade. */
  lemma FirstOfDay(trades: seq<Trades.Trade>, i: nat)
    requires i < |trades| && CountOn(trades[..i], trades[i].dayKey) == 0
    ensures CountOn(trades[..i + 1], trades[i].dayKey) > 0
    ensures CellOf(trades[..i + 1], trades[i].dayKey) == DayCellData(trades[i].pnl, 1, Win(trades[i]))
  {
    StepOn(trades, i, trades[i].dayKey);
    NothingOnOtherDay(trades[..i], trades[i].dayKey);
  }

  /** The win fraction of cell `ex` after one more trade that adds `win`
      wins: `(rate * (n - 1) + win) / n` for the new count `n`. */
  function RateAfter(ex: DayCellData, win: real): real
  {
    (ex.winRateDay * ex.tradesCount as real + win) / (ex.tradesCount + 1) as real
  }

  /** The running win fraction: from a cell of `n` trades with `w` wins, a
      trade that adds `win` gives the cell of `count` trades with `wins` wins. */
  lemma NextWinRate(ex: DayCellData, next: DayCellData, n: nat, w: nat, count: nat, wins: nat, win: real)
    requires n > 0 && ex.tradesCount == n && ex.winRateDay == w as real / n as real
    requires count == n + 1 && wins as real == w as real + win && next.winRateDay == wins as real / count as real
    ensures next.winRateDay == RateAfter(ex, win)
  {
    var d := n as real;
    assert count as real == d + 1.0;
    Reals.RunningFraction(w as real, d, win);
  }

  /** The cell of a day after one more trade, from the cell before it: the
      profit and the count. */
  lemma NextOfDay(trades: seq<Trades.Trade>, i: nat)
    requires i < |trades| && CountOn(trades[..i], trades[i].dayKey) > 0
    ensures CountOn(trades[..i + 1], trades[i].dayKey) > 0
    ensures var ex, next := CellOf(trades[..i], trades[i].dayKey), CellOf(trades[..i + 1], trades[i].dayKey);
            next.dailyPnl == ex.dailyPnl + trades[i].pnl && next.tradesCount == ex.tradesCount + 1
  {
    StepOn(trades, i, trades[i].dayKey);
  }

  /** The cell of a day after one more trade, from the cell before it: the
      win fraction. */
  lemma NextRateOfDay(trades: seq<Trades.Trade>, i: nat)
    requires i < |trades| && CountOn(trades[..i], trades[i].dayKey) > 0
    ensures CountOn(trades[..i + 1], trades[i].dayKey) > 0
    ensures var ex, next := CellOf(trades[..i], trades[i].dayKey), CellOf(trades[..i + 1], trades[i].dayKey);
            next.winRateDay == RateAfter(ex, Win(trades[i]))
  {
    var key := trades[i].dayKey;
    StepOn(trades, i, key);
    var n, w := CountOn(trades[..i], key), WinsOn(trades[..i], key);
    var count, wins := CountOn(trades[..i + 1], key), WinsOn(trades[..i + 1], key);
    assert wins as real == w as real + Win(trades[i]);
    NextWinRate(CellOf(trades[..i], key), CellOf(trades[..i + 1], key), n, w, count, wins, Win(trades[i]));
  }

  /** The cell of trade `t`'s day once `t` is added: a new cell for a new
      day, else the previous profit plus `t`'s, one more trade, and the win
      fraction recomputed from the previous one as `(rate * (n - 1) + win) / n`. */
  function NextCell(dailyData: map<string, DayCellData>, t: Trades.Trade): DayCellData
  {
    if t.dayKey !in dailyData then DayCellData(t.pnl, 1, Win(t))
    else
      var ex := dailyData[t.dayKey];
      DayCellData(ex.dailyPnl + t.pnl, ex.tradesCount + 1, RateAfter(ex, Win(t)))
  }

  /** Adding trade `i` leaves the cells of the other days as they were. */
  lemma OtherDaysKeep(dailyData: map<string, DayCellData>, trades: seq<Trades.Trade>, i: nat)
    requires i < |trades| && IsDailyDataOf(dailyData, trades[..i])
    ensures forall k | k != trades[i].dayKey ::
              (k in dailyData <==> CountOn(trades[..i + 1], k) > 0) &&
              (k in dailyData ==> CountOn(trades[..i + 1], k) > 0 && dailyData[k] == CellOf(trades[..i + 1], k))
  {
    forall k | k != trades[i].dayKey
      ensures (k in dailyData <==> CountOn(trades[..i + 1], k) > 0) &&
              (k in dailyData ==> CountOn(trades[..i + 1], k) > 0 && dailyData[k] == CellOf(trades[..i + 1], k))
    {
      StepOn(trades, i, k);
    }
  }

  /** The updated cell of trade `i`'s day is that day's cell after it. */
  lemma KeyCell(dailyData: map<string, DayCellData>, trades: seq<Trades.Trade>, i: nat)
    requires i < |trades|
    requires var key := trades[i].dayKey;
             (key in dailyData ==> CountOn(trades[..i], key) > 0 && dailyData[key] == CellOf(trades[..i], key)) &&
             (key !in dailyData ==> CountOn(trades[..i], key) == 0)
    ensures CountOn(trades[..i + 1], trades[i].dayKey) > 0
    ensures NextCell(dailyData, trades[i]) == CellOf(trades[..i + 1], trades[i].dayKey)
  {
    if trades[i].dayKey in dailyData {
      NextOfDay(trades, i);
      NextRateOfDay(trades, i);
    } else {
      FirstOfDay(trades, i);
    }
  }

  /** One step of `buildDailyData`: a new day gets a cell of its one trade; a
      known day adds the trade's profit, counts it, and recomputes the win
      fraction from the previous one; the other days keep their cells. */
  lemma AddToDay(dailyData: map<string, DayCellData>, trades: seq<Trades.Trade>, i: nat, cell: DayCellData)
    requires i < |trades| && IsDailyDataOf(dailyData, trades[..i])
    requires cell == NextCell(dailyData, trades[i])
    ensures IsDailyDataOf(dailyData[trades[i].dayKey := cell], trades[..i + 1])
  {
    KeyCell(dailyData, trades, i);
    OtherDaysKeep(dailyData, trades, i);
  }

  /** `buildDailyData`: a cell for exactly the days with trades, holding the
      count, profit and win fraction of that day's trades. The running win
      fraction is updated as `(rate * (n - 1) + win) / n`. */
  method BuildDailyData(trades: seq<Trades.Trade>) returns (m: map<string, DayCellData>)
    ensures forall key :: key in m <==> key in Trades.DaysOf(trades)
    ensures forall key :: key in m ==> CountOn(trades, key) > 0 && m[key] == CellOf(trades, key)
  {
    m := map[];
    for i := 0 to |trades|
      invariant IsDailyDataOf(m, trades[..i])
    {
      var cell := UpdatedCell(m, trades[i]);
      AddToDay(m, trades, i, cell);
      m := m[trades[i].dayKey := cell];
    }
    assert trades[..|trades|] == trades;
    forall key ensures key in m <==> key in Trades.DaysOf(trades) {
      CountOnPositive(trades, key);
    }
  }

  /** The body of the loop of `buildDailyData`: the entry of the trade's day,
      created or updated. */
  method UpdatedCell(m: map<string, DayCellData>, t: Trades.Trade) returns (cell: DayCellData)
    ensures cell == NextCell(m, t)
  {
    var key := t.dayKey;
    if key !in m {
      cell := DayCellData(t.pnl, 1, if t.pnl > 0.0 then 1.0 else 0.0);
    } else {
      var existing := m[key];
      var count := existing.tradesCount + 1;
      var wins := existing.winRateDay * (count - 1) as real + if t.pnl > 0.0 then 1.0 else 0.0;
      cell := DayCellData(existing.dailyPnl + t.pnl, count, wins / count as real);
    }
  }

  /** `days.findIndex((d) => d.isoDateKey === key)`: the first cell holding
      `key`, or -1 when none does. */
  function FindIndex(days: seq<string>, key: string): (i: int)
    ensures -1 <= i < |days|
    ensures i == -1 <==> key !in days
    ensures 0 <= i ==> days[i] == key && key !in days[..i]
  {
    if days == [] then -1
    else if days[0] == key then 0
    else
      var j := FindIndex(days[1..], key);
      if j < 0 then -1
      else
        assert days[..j + 1] == [days[0]] + days[1..][..j];
        j + 1
  }

  /** `getWeekNumberInGrid`: the 1-based row of the seven-day grid rows that
      holds the first cell of the selected day, and 1 when the grid does not
      show that day. */
  function GetWeekNumberInGrid(days: seq<string>, key: string): (w: int)
    ensures key !in days ==> w == 1
    ensures key in days ==> 1 <= w && 7 * (w - 1) <= FindIndex(days, key) < 7 * w
  {
    var idx := FindIndex(days, key);
    if idx < 0 then 1 else idx / 7 + 1
  }

  /** A calendar grid of six weeks has six rows. */
  lemma WeekNumberInSixWeeks(days: seq<string>, key: string)
    requires |days| == 42
    ensures 1 <= GetWeekNumberInGrid(days, key) <= 6
  {
  }

  /** The profit of the cells of the days `week` that the map holds. */
  function WeekPnl(week: seq<string>, dailyData: map<string, DayCellData>): real
  {
    if week == [] then 0.0
    else
      var k := week[|week| - 1];
      WeekPnl(week[..|week| - 1], dailyData) + if k in dailyData then dailyData[k].dailyPnl else 0.0
  }

  /** The number of days of `week` whose cell has a trade. */
  function TradedDays(week: seq<string>, dailyData: map<string, DayCellData>): (n: nat)
    ensures n <= |week|
  {
    if week == [] then 0
    else
      var k := week[|week| - 1];
      TradedDays(week[..|week| - 1], dailyData) + if k in dailyData && dailyData[k].tradesCount > 0 then 1 else 0
  }

  /** `getWeeklyAggregation`: over the seven days of the week, the summed
      profit of the days with a cell and the number of days with a trade. */
  method GetWeeklyAggregation(week: seq<string>, dailyData: map<string, DayCellData>)
    returns (weeklyPnl: real, tradedDays: nat)
    requires |week| == 7
    ensures weeklyPnl == WeekPnl(week, dailyData)
    ensures tradedDays == TradedDays(week, dailyData) <= 7
  {
    weeklyPnl, tradedDays := 0.0, 0;
    for i := 0 to 7
      invariant weeklyPnl == WeekPnl(week[..i], dailyData)
      invariant tradedDays == TradedDays(week[..i], dailyData)
    {
      var key := week[i];
      assert week[..i + 1][..i] == week[..i];
      if key in dailyData {
        var cell := dailyData[key];
        weeklyPnl := weeklyPnl + cell.dailyPnl;
        if cell.tradesCount > 0 {
          tradedDays := tradedDays + 1;
        }
      }
    }
    assert week[..7] == week;
  }

  /** No key occurs twice. */
  predicate NoRepeats(ks: seq<string>)
  {
    forall i, j :: 0 <= i < j < |ks| ==> ks[i] != ks[j]
  }

  /** The profit of the trades made on one of the days `week`. */
  function PnlInDays(trades: seq<Trades.Trade>, week: seq<string>): real
  {
    if trades == [] then 0.0
    else
      var t := trades[|trades| - 1];
      PnlInDays(trades[..|trades| - 1], week) + if t.dayKey in week then t.pnl else 0.0
  }

  /** The summed profit of the days `week`, each counted from the trades. */
  function SumOfDays(trades: seq<Trades.Trade>, week: seq<string>): real
  {
    if week == [] then 0.0
    else SumOfDays(trades, week[..|week| - 1]) + PnlOn(trades, week[|week| - 1])
  }

  /** On the daily data of the trades, the week's profit is the sum of its
      days' profits. */
  lemma {:induction false} WeekPnlOfDays(week: seq<string>, dailyData: map<string, DayCellData>,
                                          trades: seq<Trades.Trade>)
    requires IsDailyDataOf(dailyData, trades)
    ensures WeekPnl(week, dailyData) == SumOfDays(trades, week)
    decreases |week|
  {
    if week != [] {
      var k := week[|week| - 1];
      WeekPnlOfDays(week[..|week| - 1], dailyData, trades);
      if k !in dailyData {
        NothingOnOtherDay(trades, k);
      }
    }
  }

  /** One more trade adds its profit to the days of the week once, when its
      day is one of them. */
  lemma {:induction false} SumOfDaysStep(trades: seq<Trades.Trade>, week: seq<string>)
    requires trades != [] && NoRepeats(week)
    ensures var t := trades[|trades| - 1];
            SumOfDays(trades, week)
            == SumOfDays(trades[..|trades| - 1], week) + if t.dayKey in week then t.pnl else 0.0
    decreases |week|
  {
    if week != [] {
      var init := week[..|week| - 1];
      assert NoRepeats(init);
      assert forall i :: 0 <= i < |init| ==> init[i] == week[i];
      assert week == init + [week[|week| - 1]];
      SumOfDaysStep(trades, init);
    }
  }

  /** For a week of different days, the sum of the days' profits is the
      profit of the trades made in that week. */
  lemma {:induction false} SumOfDaysIsPnlInDays(trades: seq<Trades.Trade>, week: seq<string>)
    requires NoRepeats(week)
    ensures SumOfDays(trades, week) == PnlInDays(trades, week)
    decreases |trades|
  {
    if trades == [] {
      ZeroSumOfDays(week);
    } else {
      SumOfDaysIsPnlInDays(trades[..|trades| - 1], week);
      SumOfDaysStep(trades, week);
    }
  }

  lemma {:induction false} ZeroSumOfDays(week: seq<string>)
    ensures SumOfDays([], week) == 0.0
    decreases |week|
  {
    if week != [] {
      ZeroSumOfDays(week[..|week| - 1]);
    }
  }

  /** On the daily data of all trades, the weekly profit of a week of
      different days is the profit of the trades made in that week. */
  lemma WeeklyPnlOfTrades(week: seq<string>, dailyData: map<string, DayCellData>, trades: seq<Trades.Trade>)
    requires IsDailyDataOf(dailyData, trades) && NoRepeats(week)
    ensures WeekPnl(week, dailyData) == PnlInDays(trades, week)
  {
    WeekPnlOfDays(week, dailyData, trades);
    SumOfDaysIsPnlInDays(trades, week);
  }

  /** The days of `week` that have a cell. */
  function DaysWithCells(week: seq<string>, dailyData: map<string, DayCellData>): set<string>
  {
    set k | k in week && k in dailyData
  }

  /** The days of `week` on which some trade was made. */
  function DaysWithTrades(week: seq<string>, trades: seq<Trades.Trade>): set<string>
  {
    set k | k in week && CountOn(trades, k) > 0
  }

  /** When every cell has a trade, the traded days of a week of different
      days are the days of the week that have a cell. */
  lemma {:induction false} TradedDaysWithCells(week: seq<string>, dailyData: map<string, DayCellData>)
    requires NoRepeats(week) && forall k :: k in dailyData ==> dailyData[k].tradesCount > 0
    ensures TradedDays(week, dailyData) == |DaysWithCells(week, dailyData)|
    decreases |week|
  {
    if week != [] {
      var init := week[..|week| - 1];
      var k := week[|week| - 1];
      assert NoRepeats(init);
      assert week == init + [k];
      TradedDaysWithCells(init, dailyData);
      var before := DaysWithCells(init, dailyData);
      if k in dailyData {
        assert DaysWithCells(week, dailyData) == before + {k};
        assert k !in before;
      } else {
        assert DaysWithCells(week, dailyData) == before;
      }
    }
  }

  /** On the daily data of all trades, the traded days of a week of
      different days are the days of the week on which some trade was made. */
  lemma TradedDaysOfTrades(week: seq<string>, dailyData: map<string, DayCellData>, trades: seq<Trades.Trade>)
    requires IsDailyDataOf(dailyData, trades) && NoRepeats(week)
    ensures TradedDays(week, dailyData) == |DaysWithTrades(week, trades)|
  {
    TradedDaysWithCells(week, dailyData);
    assert DaysWithCells(week, dailyData) == DaysWithTrades(week, trades);
  }

  /** `trades.filter(...)`: the trades made from `from` to `to`, both
      included. */
  function TradesInMonth(trades: seq<Trades.Trade>, from: real, to: real): (r: seq<Trades.Trade>)
    ensures |r| <= |trades|
  {
    if trades == [] then []
    else
      var t := trades[|trades| - 1];
      var r := TradesInMonth(trades[..|trades| - 1], from, to);
      if from <= t.time <= to then r + [t] else r
  }

  /** A trade is kept exactly when it is one of the trades and was made in
      the month. */
  lemma {:induction false} TradesInMonthKeeps(trades: seq<Trades.Trade>, from: real, to: real)
    ensures forall t :: t in TradesInMonth(trades, from, to) <==> t in trades && from <= t.time <= to
    decreases |trades|
  {
    if trades != [] {
      var init := trades[..|trades| - 1];
      TradesInMonthKeeps(init, from, to);
      assert trades == init + [trades[|trades| - 1]];
    }
  }

  /** A trade of the month is kept as many times as it occurs, any other
      not at all. */
  lemma {:induction false} TradesInMonthCounts(trades: seq<Trades.Trade>, from: real, to: real)
    ensures forall t :: multiset(TradesInMonth(trades, from, to))[t] ==
                          if from <= t.time <= to then multiset(trades)[t] else 0
    decreases |trades|
  {
    if trades != [] {
      var init := trades[..|trades| - 1];
      var last := trades[|trades| - 1];
      TradesInMonthCounts(init, from, to);
      assert trades == init + [last];
      assert multiset(trades) == multiset(init) + multiset{last};
    }
  }

  /** The filter of a concatenation is the concatenation of the filters: the
      kept trades stay in their order. */
  lemma {:induction false} TradesInMonthAppend(a: seq<Trades.Trade>, b: seq<Trades.Trade>, from: real, to: real)
    ensures TradesInMonth(a + b, from, to) == TradesInMonth(a, from, to) + TradesInMonth(b, from, to)
    decreases |b|
  {
    if b == [] {
      assert a + b == a;
    } else {
      var init := b[..|b| - 1];
      var last := b[|b| - 1];
      TradesInMonthAppend(a, init, from, to);
      assert (a + b)[..|a + b| - 1] == a + init;
      assert (a + b)[|a + b| - 1] == last;
      if from <= last.time <= to {
        assert TradesInMonth(b, from, to) == TradesInMonth(init, from, to) + [last];
        assert TradesInMonth(a + b, from, to) == TradesInMonth(a + init, from, to) + [last];
      } else {
        assert TradesInMonth(b, from, to) == TradesInMonth(init, from, to);
        assert TradesInMonth(a + b, from, to) == TradesInMonth(a + init, from, to);
      }
    }
  }

  /** When every trade was made in the month, the filter returns all of them. */
  lemma {:induction false} TradesInMonthAll(trades: seq<Trades.Trade>, from: real, to: real)
    requires forall i :: 0 <= i < |trades| ==> from <= trades[i].time <= to
    ensures TradesInMonth(trades, from, to) == trades
    decreases |trades|
  {
    if trades != [] {
      var init := trades[..|trades| - 1];
      TradesInMonthAll(init, from, to);
      assert trades == init + [trades[|trades| - 1]];
    }
  }

  /** When no trade was made in the month, the filter returns none. */
  lemma {:induction false} TradesInMonthNone(trades: seq<Trades.Trade>, from: real, to: real)
    requires forall i :: 0 <= i < |trades| ==> !(from <= trades[i].time <= to)
    ensures TradesInMonth(trades, from, to) == []
    decreases |trades|
  {
    if trades != [] {
      TradesInMonthNone(trades[..|trades| - 1], from, to);
    }
  }

  /** The number of days `ks` on which the trades made a profit. */
  function WinningDays(trades: seq<Trades.Trade>, ks: seq<string>): (n: nat)
    ensures n <= |ks|
  {
    if ks == [] then 0
    else WinningDays(trades, ks[..|ks| - 1]) + if PnlOn(trades, ks[|ks| - 1]) > 0.0 then 1 else 0
  }

  /** The number of days `ks` on which the trades made a loss. */
  function LosingDays(trades: seq<Trades.Trade>, ks: seq<string>): (n: nat)
    ensures n <= |ks|
  {
    if ks == [] then 0
    else LosingDays(trades, ks[..|ks| - 1]) + if PnlOn(trades, ks[|ks| - 1]) < 0.0 then 1 else 0
  }

  /** A day is not both winning and losing. */
  lemma {:induction false} WinningAndLosingDays(trades: seq<Trades.Trade>, ks: seq<string>)
    ensures WinningDays(trades, ks) + LosingDays(trades, ks) <= |ks|
    decreases |ks|
  {
    if ks != [] {
      WinningAndLosingDays(trades, ks[..|ks| - 1]);
    }
  }

  /** The figures of the month summary. */
  datatype MonthlyStats = MonthlyStats(
    netPnl: real,
    totalTrades: nat,
    winningDays: nat,
    losingDays: nat,
    winRatePct: real)

  /** The month summary of the trades of the month: their profit and number,
      the days, in order of first trade, that ended in profit or in loss, and
      the percentage of winning trades. */
  function MonthlyStatsOf(tradesInMonth: seq<Trades.Trade>): MonthlyStats
  {
    var days := Trades.Distinct(Trades.DaysOf(tradesInMonth));
    var pnls := Trades.Pnls(tradesInMonth);
    MonthlyStats(Seqs.Sum(pnls), |tradesInMonth|,
                 WinningDays(tradesInMonth, days), LosingDays(tradesInMonth, days),
                 ReportMetrics.WinRate(|ReportMetrics.Gains(pnls)|, |tradesInMonth|))
  }

  /** A running total of one day of the month. */
  datatype DayTotal = DayTotal(pnl: real, trades: nat)

  /** `monthlyStats`: the days of the month are collected in a map, in order
      of first trade, then the trades and the days are counted. */
  method ComputeMonthlyStats(tradesInMonth: seq<Trades.Trade>) returns (s: MonthlyStats)
    ensures s == MonthlyStatsOf(tradesInMonth)
  {
    var dailyByKey, keys := CollectDays(tradesInMonth);
    var netPnl, totalTrades, wins := CountTrades(tradesInMonth);
    var winningDays, losingDays := 0, 0;
    for j := 0 to |keys|
      invariant winningDays == WinningDays(tradesInMonth, keys[..j])
      invariant losingDays == LosingDays(tradesInMonth, keys[..j])
    {
      var pnl := dailyByKey[keys[j]].pnl;
      assert keys[..j + 1][..j] == keys[..j];
      if pnl > 0.0 {
        winningDays := winningDays + 1;
      }
      if pnl < 0.0 {
        losingDays := losingDays + 1;
      }
    }
    assert keys[..|keys|] == keys;
    var winRatePct := if totalTrades > 0 then wins as real / totalTrades as real * 100.0 else 0.0;
    s := MonthlyStats(netPnl, totalTrades, winningDays, losingDays, winRatePct);
  }

  /** The map holds the profit and number of trades of each day of
      `trades`, and `keys` lists those days in order of first trade. */
  ghost predicate IsDayTotalsOf(dailyByKey: map<string, DayTotal>, keys: seq<string>, trades: seq<Trades.Trade>)
  {
    keys == Trades.Distinct(Trades.DaysOf(trades)) &&
    (forall k :: k in dailyByKey <==> k in keys) &&
    (forall k :: k in dailyByKey ==> dailyByKey[k] == DayTotal(PnlOn(trades, k), CountOn(trades, k)))
  }

  /** The first trade of a day adds the day, after the others, with that
      trade's profit. */
  lemma NewDayTotal(dailyByKey: map<string, DayTotal>, keys: seq<string>, trades: seq<Trades.Trade>, i: nat)
    requires i < |trades| && IsDayTotalsOf(dailyByKey, keys, trades[..i]) && trades[i].dayKey !in dailyByKey
    ensures IsDayTotalsOf(dailyByKey[trades[i].dayKey := DayTotal(trades[i].pnl, 1)], keys + [trades[i].dayKey],
                          trades[..i + 1])
  {
    var key := trades[i].dayKey;
    DaysStep(trades, i);
    Trades.DistinctFacts(Trades.DaysOf(trades[..i]));
    CountOnPositive(trades[..i], key);
    NothingOnOtherDay(trades[..i], key);
    forall k ensures k in dailyByKey ==> PnlOn(trades[..i + 1], k) == PnlOn(trades[..i], k) &&
                                         CountOn(trades[..i + 1], k) == CountOn(trades[..i], k) {
      StepOn(trades, i, k);
    }
    StepOn(trades, i, key);
  }

  /** A further trade of a known day adds to that day's totals. */
  lemma KnownDayTotal(dailyByKey: map<string, DayTotal>, keys: seq<string>, trades: seq<Trades.Trade>, i: nat)
    requires i < |trades| && IsDayTotalsOf(dailyByKey, keys, trades[..i]) && trades[i].dayKey in dailyByKey
    ensures var ex := dailyByKey[trades[i].dayKey];
            IsDayTotalsOf(dailyByKey[trades[i].dayKey := DayTotal(ex.pnl + trades[i].pnl, ex.trades + 1)], keys,
                          trades[..i + 1])
  {
    DaysStep(trades, i);
    forall k ensures var on := trades[i].dayKey == k;
                     PnlOn(trades[..i + 1], k) == PnlOn(trades[..i], k) + (if on then trades[i].pnl else 0.0) &&
                     CountOn(trades[..i + 1], k) == CountOn(trades[..i], k) + (if on then 1 else 0) {
      StepOn(trades, i, k);
    }
  }

  /** The first-appearance days of the trades up to trade `i`. */
  lemma DaysStep(trades: seq<Trades.Trade>, i: nat)
    requires i < |trades|
    ensures var key := trades[i].dayKey;
            var ks := Trades.Distinct(Trades.DaysOf(trades[..i]));
            Trades.Distinct(Trades.DaysOf(trades[..i + 1])) == if key in ks then ks else ks + [key]
  {
    assert Trades.DaysOf(trades[..i + 1]) == Trades.DaysOf(trades[..i]) + [trades[i].dayKey];
    Trades.DistinctAppend(Trades.DaysOf(trades[..i]), trades[i].dayKey);
  }

  /** The first loop of `monthlyStats`: the profit and number of trades of
      each day, with the days in the order the map lists them. */
  method CollectDays(trades: seq<Trades.Trade>) returns (dailyByKey: map<string, DayTotal>, keys: seq<string>)
    ensures keys == Trades.Distinct(Trades.DaysOf(trades))
    ensures forall k :: k in dailyByKey <==> k in keys
    ensures forall k :: k in dailyByKey ==> dailyByKey[k] == DayTotal(PnlOn(trades, k), CountOn(trades, k))
  {
    dailyByKey, keys := map[], [];
    for i := 0 to |trades|
      invariant IsDayTotalsOf(dailyByKey, keys, trades[..i])
    {
      var t := trades[i];
      var key := t.dayKey;
      if key !in dailyByKey {
        NewDayTotal(dailyByKey, keys, trades, i);
        dailyByKey := dailyByKey[key := DayTotal(t.pnl, 1)];
        keys := keys + [key];
      } else {
        KnownDayTotal(dailyByKey, keys, trades, i);
        var ex := dailyByKey[key];
        dailyByKey := dailyByKey[key := DayTotal(ex.pnl + t.pnl, ex.trades + 1)];
      }
    }
    assert trades[..|trades|] == trades;
  }

  /** The second loop of `monthlyStats`: the profit, the number and the
      winning number of the trades. */
  method CountTrades(trades: seq<Trades.Trade>) returns (netPnl: real, totalTrades: nat, wins: nat)
    ensures netPnl == Seqs.Sum(Trades.Pnls(trades))
    ensures totalTrades == |trades|
    ensures wins == |ReportMetrics.Gains(Trades.Pnls(trades))|
  {
    var pnls := Trades.Pnls(trades);
    netPnl, totalTrades, wins := 0.0, 0, 0;
    for i := 0 to |trades|
      invariant netPnl == Seqs.Sum(pnls[..i])
      invariant totalTrades == i
      invariant wins == |ReportMetrics.Gains(pnls[..i])|
    {
      var t := trades[i];
      Seqs.SumPrefixStep(pnls, i);
      assert pnls[..i + 1][..i] == pnls[..i];
      netPnl := netPnl + t.pnl;
      totalTrades := totalTrades + 1;
      if t.pnl > 0.0 {
        wins := wins + 1;
      }
    }
    assert pnls[..|trades|] == pnls;
  }

  /** `daysTradedInMonth`: the number of different days of the month's
      trades, gathered in a set. */
  method DaysTradedInMonth(tradesInMonth: seq<Trades.Trade>) returns (n: nat)
    ensures n == |set k | k in Trades.DaysOf(tradesInMonth)|
  {
    var keys: set<string> := {};
    for i := 0 to |tradesInMonth|
      invariant keys == set k | k in Trades.DaysOf(tradesInMonth[..i])
    {
      ghost var prefix := tradesInMonth[..i + 1];
      assert prefix[..i] == tradesInMonth[..i];
      assert Trades.DaysOf(prefix) == Trades.DaysOf(tradesInMonth[..i]) + [tradesInMonth[i].dayKey];
      keys := keys + {tradesInMonth[i].dayKey};
    }
    assert tradesInMonth[..|tradesInMonth|] == tradesInMonth;
    n := |keys|;
  }

  /** The month summary counts every trade of the month, the winning and the
      losing days together are at most the days traded, the win rate is a
      percentage, and 0 without trades. */
  lemma MonthlyStatsFacts(tradesInMonth: seq<Trades.Trade>)
    ensures var s := MonthlyStatsOf(tradesInMonth);
            s.totalTrades == |tradesInMonth| &&
            s.winningDays + s.losingDays <= |set k | k in Trades.DaysOf(tradesInMonth)| &&
            0.0 <= s.winRatePct <= 100.0 &&
            (tradesInMonth == [] ==> s.winRatePct == 0.0)
  {
    var days := Trades.Distinct(Trades.DaysOf(tradesInMonth));
    WinningAndLosingDays(tradesInMonth, days);
    Trades.DistinctCount(Trades.DaysOf(tradesInMonth));
    var pnls := Trades.Pnls(tradesInMonth);
    ReportMetrics.GainsAndLossesCount(pnls);
    ReportMetrics.WinRateRange(|ReportMetrics.Gains(pnls)|, |tradesInMonth|);
  }

  /** The month's profit on the summary is the profit of its days. */
  lemma MonthlyNetIsDays(tradesInMonth: seq<Trades.Trade>)
    ensures MonthlyStatsOf(tradesInMonth).netPnl
         == SumOfDays(tradesInMonth, Trades.Distinct(Trades.DaysOf(tradesInMonth)))
  {
    var days := Trades.Distinct(Trades.DaysOf(tradesInMonth));
    Trades.DistinctFacts(Trades.DaysOf(tradesInMonth));
    SumOfDaysIsPnlInDays(tradesInMonth, days);
    AllInDays(tradesInMonth, days);
  }

  /** When every trade's day is among `ks`, those days hold all the profit. */
  lemma {:induction false} AllInDays(trades: seq<Trades.Trade>, ks: seq<string>)
    requires forall k :: k in Trades.DaysOf(trades) ==> k in ks
    ensures PnlInDays(trades, ks) == Seqs.Sum(Trades.Pnls(trades))
    decreases |trades|
  {
    if trades != [] {
      var init := trades[..|trades| - 1];
      assert Trades.DaysOf(trades) == Trades.DaysOf(init) + [trades[|trades| - 1].dayKey];
      assert Trades.Pnls(trades)[..|trades| - 1] == Trades.Pnls(init);
      AllInDays(init, ks);
    }
  }
}
