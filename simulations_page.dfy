/** The computations of the simulations page: the validation that turns the
    form's raw inputs into simulation parameters, the resampling of each
    path's per-trade balances to one balance per day, the choice of what the
    fan and spaghetti charts draw, the auto-zoomed y-axis windows, and the
    rescaling to multiples of the starting balance. React state, rendering
    and event wiring are not modelled; each memoised value is a function of
    the values it depends on. */
module SimulationsPage {
  import Js
  import Prng
  import Seqs
  import Sorting
  import Percentiles
  import MonteCarlo
  import SamplePaths

  /** `Math.max(a, b)` */
  function MathMax(a: real, b: real): real { if a >= b then a else b }

  /** `Math.min(a, b)` */
  function MathMin(a: real, b: real): real { if a <= b then a else b }

  // ---------------------------------------------------------------------
  // Validation of the form

  /** The form's `SimulationParams` as the inputs hold them: a number field
      is NaN while it is blank. */
  datatype Form = Form(
    startingBalance: Js.InputNumber,
    days: Js.InputNumber,
    simulations: Js.InputNumber,
    tradesPerDay: Js.InputNumber,
    winRate: Js.InputNumber,
    riskPerTradePct: Js.InputNumber,
    leverage: Js.InputNumber,
    winRMin: Js.InputNumber,
    winRMax: Js.InputNumber,
    lossRMin: Js.InputNumber,
    lossRMax: Js.InputNumber,
    feeRatePerSidePct: Js.InputNumber,
    extremesEnabled: bool,
    extremeProbPct: Js.InputNumber,
    extremeWinR: Js.InputNumber,
    extremeLossR: Js.InputNumber,
    ruinThresholdPct: Js.InputNumber,
    useSeed: bool,
    seedValue: Prng.Seed)

  /** `Number(x) || d`: NaN and zero are falsy and give way to `d`. */
  function OrDefault(x: Js.InputNumber, d: real): (r: real)
    ensures r == d || (x.Value? && r == x.v)
    ensures x.Value? && x.v != 0.0 ==> r == x.v
    ensures d != 0.0 ==> r != 0.0
  {
    if x.Value? && x.v != 0.0 then x.v else d
  }

  /** `clamp(value, min, max)` */
  function Clamp(value: Js.InputNumber, min: real, max: real): (r: real)
    ensures value.NotANumber? ==> r == min
    ensures min <= max ==> min <= r <= max
    ensures min > max ==> r == min
    ensures value.Value? && min <= value.v <= max ==> r == value.v
  {
    if value.NotANumber? then min
    else MathMax(min, MathMin(max, value.v))
  }

  /** `Math.max(1, Math.min(limit, Math.floor(Number(x) || 1)))`: a whole
      count between 1 and `limit`. */
  function Count(x: Js.InputNumber, limit: nat): (n: nat)
    requires limit >= 1
    ensures 1 <= n <= limit
    ensures x.Value? && 1.0 <= x.v <= limit as real && x.v == x.v.Floor as real ==> n == x.v.Floor
  {
    var f := Js.Floor(OrDefault(x, 1.0));
    var m := if limit < f then limit else f;
    if 1 > m then 1 else m
  }

  /** `params.useSeed ? (typeof seed === "number" ? seed : String(seed || "12345")) : 12345` */
  function SeedOf(useSeed: bool, seed: Prng.Seed): (s: Prng.Seed)
    ensures !useSeed ==> s == Prng.NumSeed(12345.0)
    ensures useSeed && seed.NumSeed? ==> s == seed
    ensures useSeed && seed.StrSeed? ==> s == Prng.StrSeed(if seed.s == "" then "12345" else seed.s)
  {
    if !useSeed then Prng.NumSeed(12345.0)
    else match seed
      case NumSeed(_) => seed
      case StrSeed(str) => Prng.StrSeed(if str == "" then "12345" else str)
  }

  /** The ranges `validatedParams` guarantees. */
  predicate Validated(p: MonteCarlo.Params)
  {
    p.startingBalance >= 1.0 &&
    1 <= p.days <= 365 && 1 <= p.simulations <= 100000 && 1 <= p.tradesPerDay <= 100 &&
    0.0 <= p.winRate <= 100.0 &&
    p.riskPerTradePct >= 0.01 &&
    p.leverage >= 1.0 &&
    p.feeRatePerSidePct >= 0.0 &&
    0.0 <= p.extremeProbPct <= 100.0 &&
    p.extremeWinR >= 0.0 && p.extremeLossR >= 0.0 &&
    0.0 <= p.ruinThresholdPct <= 100.0 &&
    (p.seedValue.StrSeed? ==> p.seedValue.s != "") &&
    (!p.useSeed ==> p.seedValue == Prng.NumSeed(12345.0))
  }

  /** `validatedParams`: every field of the form forced into its range. */
  function ValidatedParams(f: Form): (p: MonteCarlo.Params)
    ensures Validated(p)
    ensures p.extremesEnabled == f.extremesEnabled && p.useSeed == f.useSeed
    ensures p.seedValue == SeedOf(f.useSeed, f.seedValue)
  {
    MonteCarlo.Params(
      MathMax(1.0, OrDefault(f.startingBalance, 1.0)),
      Count(f.days, 365),
      Count(f.simulations, 100000),
      Count(f.tradesPerDay, 100),
      Clamp(Js.Value(OrDefault(f.winRate, 0.0)), 0.0, 100.0),
      MathMax(0.01, OrDefault(f.riskPerTradePct, 0.0)),
      MathMax(1.0, OrDefault(f.leverage, 1.0)),
      OrDefault(f.winRMin, 0.0),
      OrDefault(f.winRMax, 0.0),
      OrDefault(f.lossRMin, 0.0),
      OrDefault(f.lossRMax, 0.0),
      MathMax(0.0, OrDefault(f.feeRatePerSidePct, 0.0)),
      f.extremesEnabled,
      Clamp(Js.Value(OrDefault(f.extremeProbPct, 0.0)), 0.0, 100.0),
      MathMax(0.0, OrDefault(f.extremeWinR, 0.0)),
      MathMax(0.0, OrDefault(f.extremeLossR, 0.0)),
      Clamp(Js.Value(OrDefault(f.ruinThresholdPct, 0.0)), 0.0, 100.0),
      f.useSeed,
      SeedOf(f.useSeed, f.seedValue))
  }

  /** The form that holds the given parameters. */
  function FormOf(p: MonteCarlo.Params): Form
  {
    Form(
      Js.Value(p.startingBalance), Js.Value(p.days as real), Js.Value(p.simulations as real),
      Js.Value(p.tradesPerDay as real), Js.Value(p.winRate), Js.Value(p.riskPerTradePct),
      Js.Value(p.leverage), Js.Value(p.winRMin), Js.Value(p.winRMax), Js.Value(p.lossRMin),
      Js.Value(p.lossRMax), Js.Value(p.feeRatePerSidePct), p.extremesEnabled,
      Js.Value(p.extremeProbPct), Js.Value(p.extremeWinR), Js.Value(p.extremeLossR),
      Js.Value(p.ruinThresholdPct), p.useSeed, p.seedValue)
  }

  /** Parameters already in range pass validation unchanged. */
  lemma ValidParamsAreKept(p: MonteCarlo.Params)
    requires Validated(p)
    ensures ValidatedParams(FormOf(p)) == p
  {
    var f := FormOf(p);
    assert Count(f.days, 365) == p.days by { assert (p.days as real).Floor == p.days; }
    assert Count(f.simulations, 100000) == p.simulations by { assert (p.simulations as real).Floor == p.simulations; }
    assert Count(f.tradesPerDay, 100) == p.tradesPerDay by { assert (p.tradesPerDay as real).Floor == p.tradesPerDay; }
  }

  /** Validating twice is validating once. */
  lemma ValidationIsIdempotent(f: Form)
    ensures ValidatedParams(FormOf(ValidatedParams(f))) == ValidatedParams(f)
  {
    ValidParamsAreKept(ValidatedParams(f));
  }

  /** `DEFAULT_PARAMS` */
  const DefaultParams: MonteCarlo.Params := MonteCarlo.Params(
    1000.0, 30, 1000, 3, 50.0, 1.0, 10.0, 1.0, 3.0, 1.0, 2.0, 0.05,
    false, 0.1, 10.0, 10.0, 20.0, false, Prng.NumSeed(12345.0))

  /** The defaults are already valid, so the reset form runs them as they are. */
  lemma DefaultsAreValid()
    ensures ValidatedParams(FormOf(DefaultParams)) == DefaultParams
  {
    ValidParamsAreKept(DefaultParams);
  }

  // ---------------------------------------------------------------------
  // One balance per day

  /** `b[Math.min(d * tradesPerDay, b.length - 1)] ?? 0` */
  function DayValue(b: seq<real>, d: nat, tradesPerDay: nat): real
  {
    if b == [] then 0.0
    else if d * tradesPerDay < |b| - 1 then b[d * tradesPerDay] else b[|b| - 1]
  }

  /** The row of `days + 1` daily balances of one path. */
  function DailyRow(b: seq<real>, days: nat, tradesPerDay: nat): (row: seq<real>)
    ensures |row| == days + 1
  {
    seq(days + 1, d requires 0 <= d <= days => DayValue(b, d, tradesPerDay))
  }

  /** `dailyPaths`: one row per simulated path, none before a run. */
  function DailyPaths(runs: Js.Option<seq<MonteCarlo.Path>>, days: nat, tradesPerDay: nat): (rows: seq<seq<real>>)
    ensures runs.None? ==> rows == []
    ensures runs.Some? ==> |rows| == |runs.value|
  {
    if runs.None? then []
    else seq(|runs.value|, i requires 0 <= i < |runs.value| => DailyRow(runs.value[i].balances, days, tradesPerDay))
  }

  /** The inner loop of `dailyPaths`. */
  method ResampleRow(b: seq<real>, days: nat, tradesPerDay: nat) returns (row: seq<real>)
    ensures row == DailyRow(b, days, tradesPerDay)
  {
    row := [];
    var d := 0;
    while d <= days
      invariant 0 <= d <= days + 1 && |row| == d
      invariant forall e :: 0 <= e < d ==> row[e] == DayValue(b, e, tradesPerDay)
    {
      var idx := if d * tradesPerDay < |b| - 1 then d * tradesPerDay else |b| - 1;
      row := row + [if 0 <= idx < |b| then b[idx] else 0.0];
      d := d + 1;
    }
  }

  /** `dailyPaths`, as the page computes it. */
  method ComputeDailyPaths(runs: Js.Option<seq<MonteCarlo.Path>>, days: nat, tradesPerDay: nat)
    returns (result: seq<seq<real>>)
    ensures result == DailyPaths(runs, days, tradesPerDay)
  {
    if runs.None? || |runs.value| == 0 {
      return [];
    }
    var paths := runs.value;
    result := [];
    for i := 0 to |paths|
      invariant |result| == i
      invariant forall k :: 0 <= k < i ==> result[k] == DailyRow(paths[k].balances, days, tradesPerDay)
    {
      var row := ResampleRow(paths[i].balances, days, tradesPerDay);
      result := result + [row];
    }
  }

  lemma MulMonotone(d: nat, days: nat, tradesPerDay: nat)
    requires d <= days
    ensures d * tradesPerDay <= days * tradesPerDay
  {
    assert days * tradesPerDay == d * tradesPerDay + (days - d) * tradesPerDay;
  }

  /** On a simulated path the row samples the balance after each full day:
      day `d` holds the balance after `d * tradesPerDay` trades, so the row
      starts at the starting balance and ends at the final balance. */
  lemma DailyRowOfSimulatedPath(p: MonteCarlo.Params, u: nat -> real, d: nat)
    requires d <= p.days
    ensures var path := MonteCarlo.SimulatedPath(p, u);
            var row := DailyRow(path.balances, p.days, p.tradesPerDay);
            d * p.tradesPerDay < |path.balances| &&
            row[d] == path.balances[d * p.tradesPerDay] &&
            row[0] == p.startingBalance &&
            row[p.days] == path.finalBalance
  {
    var path := MonteCarlo.SimulatedPath(p, u);
    MonteCarlo.PathLength(p, u);
    MulMonotone(d, p.days, p.tradesPerDay);
  }

  // ---------------------------------------------------------------------
  // What the charts draw

  /** `fanSeriesMulti`: the default bands of the daily paths, none without paths. */
  function FanOf(daily: seq<seq<real>>): (f: Js.Option<Percentiles.FanSeriesMulti>)
    ensures f.Some? <==> daily != []
  {
    if daily == [] then Js.None
    else Js.Some(Percentiles.FanSeries(daily, Percentiles.DefaultFanPercentiles))
  }

  datatype CenterLineMode = Median | MeanLine

  /** `fanChartSeries` */
  datatype FanChartSeries = FanChartSeries(
    x: seq<int>, bands: map<real, seq<real>>, centerLine: seq<real>, centerLineLabel: string)

  function FanChart(fan: Js.Option<Percentiles.FanSeriesMulti>, mode: CenterLineMode): (c: Js.Option<FanChartSeries>)
    ensures c.Some? <==> fan.Some?
    ensures c.Some? ==> c.value.x == fan.value.x && c.value.bands == fan.value.bands
    ensures c.Some? && mode == MeanLine ==> c.value.centerLine == fan.value.meanSeries && c.value.centerLineLabel == "Mean"
    ensures c.Some? && mode == Median ==> c.value.centerLine == fan.value.centerLine && c.value.centerLineLabel == "Median"
  {
    if fan.None? then Js.None
    else
      var f := fan.value;
      Js.Some(FanChartSeries(f.x, f.bands,
        if mode == MeanLine then f.meanSeries else f.centerLine,
        if mode == MeanLine then "Mean" else "Median"))
  }

  /** `Math.max(50, Math.min(1000, Math.floor(spaghettiSampleSize)))` */
  function SpaghettiSize(sampleSize: real): (n: int)
    ensures 50 <= n <= 1000
    ensures 50.0 <= sampleSize <= 1000.0 && sampleSize == sampleSize.Floor as real ==> n == sampleSize.Floor
  {
    var f := Js.Floor(sampleSize);
    var m := if 1000 < f then 1000 else f;
    if 50 > m then 50 else m
  }

  /** `spaghettiSampledPaths`: on the spaghetti tab, a sample of the daily
      paths, led by the fan's centre line when the highlight is shown. */
  function SpaghettiPaths(daily: seq<seq<real>>, onSpaghettiTab: bool, sampleSize: real,
                          showHighlight: bool, mode: CenterLineMode, u: nat -> real): seq<seq<real>>
    requires SamplePaths.UnitDraws(u)
  {
    if daily == [] || !onSpaghettiTab then []
    else
      var fan := FanOf(daily);
      var highlight := if showHighlight then FanChart(fan, mode).value.centerLine else [];
      SamplePaths.Sample(daily, SpaghettiSize(sampleSize),
                         if showHighlight then Js.Some(highlight) else Js.None, u)
  }

  /** With the highlight on, the spaghetti chart's first line is the
      median (or mean) line of the fan. */
  lemma SpaghettiLeadsWithCenterLine(daily: seq<seq<real>>, sampleSize: real, mode: CenterLineMode, u: nat -> real)
    requires SamplePaths.UnitDraws(u) && daily != []
    ensures var s := SpaghettiPaths(daily, true, sampleSize, true, mode, u);
            |s| > 0 && s[0] == FanChart(FanOf(daily), mode).value.centerLine
  {
    SamplePaths.HighlightLeads(daily, SpaghettiSize(sampleSize), FanChart(FanOf(daily), mode).value.centerLine, u);
  }

  // ---------------------------------------------------------------------
  // Auto-zoomed y-axis windows

  datatype YWindow = YWindow(yMin: real, yMax: real)

  /** The padding shared by all four y-ranges: 2% of the span on each side,
      a span of 1 when the range is a single value, never below 0, and
      never empty. */
  function Padded(lo: real, hi: real): (w: YWindow)
    ensures 0.0 <= w.yMin < w.yMax
    ensures lo <= hi ==> w.yMin <= MathMax(0.0, lo) && hi <= w.yMax
    ensures lo < hi && lo >= 0.02 * (hi - lo) ==>
              lo - w.yMin == w.yMax - hi == 0.02 * (hi - lo)
  {
    var span := if hi - lo != 0.0 then hi - lo else 1.0;
    var yMin := MathMax(0.0, lo - span * 0.02);
    var yMax := hi + span * 0.02;
    if yMax <= yMin then YWindow(yMin, yMin + 1.0) else YWindow(yMin, yMax)
  }

  /** `bands[p]` is an array, and so truthy, whenever `p` is a key; the
      page only zooms onto bands that have at least one day. */
  predicate NonEmptyBands(bands: map<real, seq<real>>)
  {
    forall p :: p in bands ==> bands[p] != []
  }

  /** The `lo` and `hi` of the fan: the lowest 1st and highest 99th
      percentile with outliers included and both present, else the lowest
      5th and highest 95th percentile, 0 for a missing band. */
  function FanBounds(bands: map<real, seq<real>>, includeOutliers: bool): (bounds: (real, real))
    requires NonEmptyBands(bands)
  {
    if includeOutliers && 1.0 in bands && 99.0 in bands then
      (Seqs.Min(bands[1.0]), Seqs.Max(bands[99.0]))
    else
      (if 5.0 in bands then Seqs.Min(bands[5.0]) else 0.0,
       if 95.0 in bands then Seqs.Max(bands[95.0]) else 0.0)
  }

  /** `fanYRange` and `chartFanYRange`: no window (`undefined`) without a fan
      or with auto-zoom off. */
  function FanYRange(bands: Js.Option<map<real, seq<real>>>, autoZoomY: bool, includeOutliers: bool): (r: Js.Option<YWindow>)
    requires bands.Some? ==> NonEmptyBands(bands.value)
    ensures r.Some? <==> bands.Some? && autoZoomY
    ensures r.Some? ==> 0.0 <= r.value.yMin < r.value.yMax
  {
    if bands.None? || !autoZoomY then Js.None
    else
      var (lo, hi) := FanBounds(bands.value, includeOutliers);
      Js.Some(Padded(lo, hi))
  }

  /** The daily paths of a run have `days + 1 > 0` days, so every band of
      their fan has at least one entry. */
  lemma FanOfDailyPathsHasDays(daily: seq<seq<real>>)
    requires daily != [] && daily[0] != []
    ensures NonEmptyBands(Percentiles.FanSeries(daily, Percentiles.DefaultFanPercentiles).bands)
  {
    Percentiles.FanShape(daily, Percentiles.DefaultFanPercentiles);
  }

  /** The default fan has the four bands the bounds are taken from. */
  lemma DefaultBandKeys(daily: seq<seq<real>>)
    ensures var bands := Percentiles.FanSeries(daily, Percentiles.DefaultFanPercentiles).bands;
            1.0 in bands && 5.0 in bands && 95.0 in bands && 99.0 in bands
  {
    var ps := Percentiles.DefaultFanPercentiles;
    assert ps[0] == 1.0 && ps[1] == 5.0 && ps[11] == 95.0 && ps[12] == 99.0;
  }

  /** The window holds any band that lies, on some day, between the two
      bands the bounds are taken from. */
  lemma BoundsAround(bands: map<real, seq<real>>, includeOutliers: bool, q: real, j: int)
    requires NonEmptyBands(bands)
    requires 1.0 in bands && 5.0 in bands && 95.0 in bands && 99.0 in bands && q in bands
    requires var a := if includeOutliers then 1.0 else 5.0;
             var b := if includeOutliers then 99.0 else 95.0;
             0 <= j < |bands[a]| && j < |bands[b]| && j < |bands[q]| &&
             bands[a][j] <= bands[q][j] <= bands[b][j]
    ensures var w := FanYRange(Js.Some(bands), true, includeOutliers).value;
            w.yMin <= MathMax(0.0, bands[q][j]) && bands[q][j] <= w.yMax
  {
    var bounds := FanBounds(bands, includeOutliers);
    assert bounds.0 <= bands[q][j] <= bounds.1;
  }

  /** The fan window contains, on every day, every band between the two the
      bounds come from (1st to 99th with outliers, 5th to 95th without),
      clipped below at 0. */
  lemma FanWindowCoversBands(daily: seq<seq<real>>, includeOutliers: bool, q: real, j: int)
    requires daily != [] && 0 <= j < |daily[0]|
    requires q in Percentiles.DefaultFanPercentiles
    requires if includeOutliers then 1.0 <= q <= 99.0 else 5.0 <= q <= 95.0
    ensures var f := Percentiles.FanSeries(daily, Percentiles.DefaultFanPercentiles);
            NonEmptyBands(f.bands) &&
            var w := FanYRange(Js.Some(f.bands), true, includeOutliers).value;
            w.yMin <= MathMax(0.0, f.bands[q][j]) && f.bands[q][j] <= w.yMax
  {
    var ps := Percentiles.DefaultFanPercentiles;
    var bands := Percentiles.FanSeries(daily, ps).bands;
    DefaultBandKeys(daily);
    FanOfDailyPathsHasDays(daily);
    var a := if includeOutliers then 1.0 else 5.0;
    var b := if includeOutliers then 99.0 else 95.0;
    assert bands[a] == Percentiles.Band(daily, a) && bands[b] == Percentiles.Band(daily, b);
    assert bands[q] == Percentiles.Band(daily, q);
    Percentiles.BandsOrdered(daily, a, q, j);
    Percentiles.BandsOrdered(daily, q, b, j);
    BoundsAround(bands, includeOutliers, q, j);
  }

  /** Every value of every sampled path, in order. */
  function Flatten(paths: seq<seq<real>>): (all: seq<real>)
    ensures paths == [] ==> all == []
  {
    if paths == [] then [] else Flatten(paths[..|paths| - 1]) + paths[|paths| - 1]
  }

  /** The lines drawn have no values at all. */
  lemma {:induction false} FlattenEmpty(paths: seq<seq<real>>)
    ensures Flatten(paths) == [] <==> forall i :: 0 <= i < |paths| ==> paths[i] == []
  {
    if paths != [] {
      var init := paths[..|paths| - 1];
      FlattenEmpty(init);
      assert Flatten(paths) == Flatten(init) + paths[|paths| - 1];
      assert forall i :: 0 <= i < |init| ==> init[i] == paths[i];
    }
  }

  /** `spaghettiYRange` and `chartSpaghettiYRange`: the 5th and 95th
      percentiles of all drawn values, padded. */
  function SpaghettiYRange(paths: seq<seq<real>>, autoZoomY: bool): (r: Js.Option<YWindow>)
    ensures r.Some? <==> autoZoomY && Flatten(paths) != []
    ensures r.Some? ==> 0.0 <= r.value.yMin < r.value.yMax
  {
    if !autoZoomY || paths == [] then Js.None
    else
      var all := Flatten(paths);
      if all == [] then Js.None
      else
        var sorted := Sorting.SortReals(all);
        Js.Some(Padded(Percentiles.PercentileAt(sorted, 5.0), Percentiles.PercentileAt(sorted, 95.0)))
  }

  /** The spaghetti window contains every non-negative value that lies
      between the 5th and 95th percentiles of the drawn values. */
  lemma SpaghettiWindowCoversMiddle(paths: seq<seq<real>>, v: real)
    requires Flatten(paths) != []
    ensures var sorted := Sorting.SortReals(Flatten(paths));
            var w := SpaghettiYRange(paths, true).value;
            0.0 <= v && Percentiles.PercentileAt(sorted, 5.0) <= v <= Percentiles.PercentileAt(sorted, 95.0) ==>
              w.yMin <= v <= w.yMax
  {
    var sorted := Sorting.SortReals(Flatten(paths));
    Percentiles.Monotone(sorted, 5.0, 95.0);
  }

  /** The push loop of the spaghetti y-range. */
  method CollectValues(paths: seq<seq<real>>) returns (all: seq<real>)
    ensures all == Flatten(paths)
  {
    all := [];
    for i := 0 to |paths|
      invariant all == Flatten(paths[..i])
    {
      assert paths[..i + 1][..i] == paths[..i];
      for j := 0 to |paths[i]|
        invariant all == Flatten(paths[..i]) + paths[i][..j]
      {
        assert paths[i][..j + 1] == paths[i][..j] + [paths[i][j]];
        all := all + [paths[i][j]];
      }
    }
    assert paths[..|paths|] == paths;
  }

  /** The spaghetti y-range as the page computes it: collect, sort in place,
      read off two percentiles. */
  method ComputeSpaghettiYRange(paths: seq<seq<real>>, autoZoomY: bool) returns (r: Js.Option<YWindow>)
    ensures r == SpaghettiYRange(paths, autoZoomY)
  {
    if !autoZoomY || |paths| == 0 {
      return Js.None;
    }
    var all := CollectValues(paths);
    if |all| == 0 {
      return Js.None;
    }
    var buffer := new real[|all|](i requires 0 <= i < |all| => all[i]);
    assert buffer[..] == all;
    Sorting.SortInPlace(buffer);
    var p5 := Percentiles.PercentileAt(buffer[..], 5.0);
    var p95 := Percentiles.PercentileAt(buffer[..], 95.0);
    r := Js.Some(Padded(p5, p95));
  }

  // ---------------------------------------------------------------------
  // Display as multiples of the starting balance

  datatype DisplayMode = Absolute | Multiple

  /** `arr.map((v) => v / scale)` */
  function Scaled(arr: seq<real>, scale: real): (r: seq<real>)
    requires scale != 0.0
    ensures |r| == |arr|
  {
    seq(|arr|, i requires 0 <= i < |arr| => arr[i] / scale)
  }

  /** Scaling loses nothing: multiplying back by the scale gives the
      original values. */
  lemma ScaledRoundTrip(arr: seq<real>, scale: real, i: int)
    requires scale != 0.0 && 0 <= i < |arr|
    ensures Scaled(arr, scale)[i] * scale == arr[i]
  {
  }

  /** The bands record with every band scaled. */
  function ScaledBands(bands: map<real, seq<real>>, scale: real): (r: map<real, seq<real>>)
    requires scale != 0.0
    ensures r.Keys == bands.Keys
    ensures forall p :: p in r ==> r[p] == Scaled(bands[p], scale)
  {
    map p | p in bands :: Scaled(bands[p], scale)
  }

  /** `chartFanSeries` */
  function ChartFan(fan: Js.Option<FanChartSeries>, mode: DisplayMode, scale: real): (c: Js.Option<FanChartSeries>)
    requires scale != 0.0
    ensures c.Some? <==> fan.Some?
    ensures mode == Absolute ==> c == fan
    ensures c.Some? ==> c.value.x == fan.value.x && c.value.centerLineLabel == fan.value.centerLineLabel &&
                        c.value.bands.Keys == fan.value.bands.Keys
    ensures c.Some? && mode == Multiple ==>
              c.value.centerLine == Scaled(fan.value.centerLine, scale) &&
              forall p :: p in c.value.bands ==> c.value.bands[p] == Scaled(fan.value.bands[p], scale)
  {
    if fan.None? || mode == Absolute then fan
    else
      var f := fan.value;
      Js.Some(FanChartSeries(f.x, ScaledBands(f.bands, scale), Scaled(f.centerLine, scale), f.centerLineLabel))
  }

  /** `chartSpaghettiPaths` */
  function ChartSpaghetti(paths: seq<seq<real>>, mode: DisplayMode, scale: real): (r: seq<seq<real>>)
    requires scale != 0.0
    ensures |r| == |paths|
    ensures mode == Absolute ==> r == paths
    ensures mode == Multiple ==> forall i :: 0 <= i < |r| ==> r[i] == Scaled(paths[i], scale)
  {
    if mode == Absolute then paths
    else seq(|paths|, i requires 0 <= i < |paths| => Scaled(paths[i], scale))
  }

  /** Scaling keeps every band non-empty, so the chart fan can be zoomed. */
  lemma ChartFanKeepsDays(fan: Js.Option<FanChartSeries>, mode: DisplayMode, scale: real)
    requires scale != 0.0 && fan.Some? && NonEmptyBands(fan.value.bands)
    ensures NonEmptyBands(ChartFan(fan, mode, scale).value.bands)
  {
  }

  /** Shown as multiples, every daily path of a validated run starts at 1. */
  lemma MultiplesStartAtOne(p: MonteCarlo.Params, u: nat -> real)
    requires Validated(p)
    ensures var row := DailyRow(MonteCarlo.SimulatedPath(p, u).balances, p.days, p.tradesPerDay);
            Scaled(row, p.startingBalance)[0] == 1.0
  {
    var row := DailyRow(MonteCarlo.SimulatedPath(p, u).balances, p.days, p.tradesPerDay);
    DailyRowOfSimulatedPath(p, u, 0);
    var start := p.startingBalance;
    assert row[0] == start;
    assert Scaled(row, start)[0] == row[0] / start;
    OwnRatio(start);
  }

  lemma OwnRatio(x: real)
    requires x != 0.0
    ensures x / x == 1.0
  {
  }
}
