/** Percentile bands across simulated equity paths: a linear-interpolation
    percentile on a sorted sequence, and the per-day fan series computed with
    one reused row buffer that is refilled and sorted in place for every day. */
module Percentiles {
  import Js
  import Reals
  import Seqs
  import Sorting

  /** A percentile argument the source ever passes: a number in [0, 100]. */
  predicate IsPercent(p: real) { 0.0 <= p <= 100.0 }

  /** The fractional rank `(p / 100) * (n - 1)` of percentile `p` among `n` values. */
  function Rank(n: nat, p: real): real
  {
    p / 100.0 * (n - 1) as real
  }

  lemma {:induction false} RankBounds(n: nat, p: real)
    requires n > 0 && IsPercent(p)
    ensures 0.0 <= Rank(n, p) <= (n - 1) as real
  {
    var f := p / 100.0;
    var m := (n - 1) as real;
    assert 0.0 <= f <= 1.0;
    assert f * m <= 1.0 * m by {
      assert (1.0 - f) * m >= 0.0;
    }
  }

  /** `Math.floor(idx)` and `Math.ceil(idx)` for the rank, both valid indices. */
  function Lo(n: nat, p: real): (lo: int)
    requires n > 0 && IsPercent(p)
    ensures 0 <= lo < n
  {
    RankBounds(n, p);
    Js.Floor(Rank(n, p))
  }

  function Hi(n: nat, p: real): (hi: int)
    requires n > 0 && IsPercent(p)
    ensures Lo(n, p) <= hi < n
    ensures hi == Lo(n, p) || hi == Lo(n, p) + 1
    ensures hi == Lo(n, p) <==> Rank(n, p) == Lo(n, p) as real
  {
    RankBounds(n, p);
    Js.Ceil(Rank(n, p))
  }

  /** `percentileAt(sorted, p)`: 0 for no values, the value at an integral
      rank, and otherwise the linear interpolation between its neighbours. */
  function PercentileAt(sorted: seq<real>, p: real): (r: real)
    requires IsPercent(p)
    ensures sorted == [] ==> r == 0.0
  {
    if |sorted| == 0 then 0.0
    else
      var n := |sorted|;
      var idx := Rank(n, p);
      var lo := Lo(n, p);
      var hi := Hi(n, p);
      if lo == hi then sorted[lo]
      else sorted[lo] + (idx - lo as real) * (sorted[hi] - sorted[lo])
  }

  /** At an integral rank the percentile is exactly that element. */
  lemma IntegralRankExact(sorted: seq<real>, p: real, k: nat)
    requires IsPercent(p) && k < |sorted| && Rank(|sorted|, p) == k as real
    ensures PercentileAt(sorted, p) == sorted[k]
  {
    assert Lo(|sorted|, p) == k;
  }

  /** The 0th percentile of a sorted sequence is its minimum, the 100th its maximum. */
  lemma ExtremePercentiles(sorted: seq<real>)
    requires Sorting.Sorted(sorted) && sorted != []
    ensures PercentileAt(sorted, 0.0) == Seqs.Min(sorted) == sorted[0]
    ensures PercentileAt(sorted, 100.0) == Seqs.Max(sorted) == sorted[|sorted| - 1]
  {
    var n := |sorted|;
    IntegralRankExact(sorted, 0.0, 0);
    assert Rank(n, 100.0) == (n - 1) as real;
    IntegralRankExact(sorted, 100.0, n - 1);
    var mn := Seqs.Min(sorted);
    var mx := Seqs.Max(sorted);
    assert mn <= sorted[0] && sorted[0] <= mn;
    assert mx >= sorted[n - 1] && sorted[n - 1] >= mx;
  }

  /** On sorted input the percentile lies between its two neighbours. */
  lemma {:induction false} Between(sorted: seq<real>, p: real)
    requires IsPercent(p) && Sorting.Sorted(sorted) && sorted != []
    ensures sorted[Lo(|sorted|, p)] <= PercentileAt(sorted, p) <= sorted[Hi(|sorted|, p)]
  {
    var n := |sorted|;
    var lo := Lo(n, p);
    var hi := Hi(n, p);
    if lo != hi {
      var f := Rank(n, p) - lo as real;
      var d := sorted[hi] - sorted[lo];
      assert 0.0 <= f <= 1.0 && d >= 0.0;
      assert 0.0 <= f * d <= d by {
        assert (1.0 - f) * d >= 0.0;
      }
    }
  }

  /** On sorted input every percentile lies between the first and last value. */
  lemma {:induction false} WithinRange(sorted: seq<real>, p: real)
    requires IsPercent(p) && Sorting.Sorted(sorted) && sorted != []
    ensures sorted[0] <= PercentileAt(sorted, p) <= sorted[|sorted| - 1]
  {
    Between(sorted, p);
  }

  lemma {:induction false} RankMonotone(n: nat, p: real, q: real)
    requires n > 0 && IsPercent(p) && IsPercent(q) && p <= q
    ensures Rank(n, p) <= Rank(n, q)
  {
    var m := (n - 1) as real;
    assert (q / 100.0 - p / 100.0) * m >= 0.0;
  }

  /** On sorted input the percentile does not decrease as `p` grows. */
  lemma {:induction false} Monotone(sorted: seq<real>, p: real, q: real)
    requires IsPercent(p) && IsPercent(q) && p <= q
    requires Sorting.Sorted(sorted)
    ensures PercentileAt(sorted, p) <= PercentileAt(sorted, q)
  {
    if sorted != [] {
      var n := |sorted|;
      RankMonotone(n, p, q);
      Between(sorted, p);
      Between(sorted, q);
      var lp, hp, lq := Lo(n, p), Hi(n, p), Lo(n, q);
      if lp < lq {
        assert sorted[hp] <= sorted[lq];
      } else if lp == hp {
        assert sorted[lp] <= PercentileAt(sorted, q);
      } else {
        assert lp == lq;
        var hq := Hi(n, q);
        assert hq == hp;
        var d := sorted[hp] - sorted[lp];
        var fp := Rank(n, p) - lp as real;
        var fq := Rank(n, q) - lq as real;
        assert d >= 0.0 && fp <= fq;
        assert (fq - fp) * d >= 0.0;
      }
    }
  }

  /** A sequence of equal values has that value at every percentile. */
  lemma {:induction false} OfConstant(s: seq<real>, p: real, c: real)
    requires IsPercent(p) && s != [] && forall i :: 0 <= i < |s| ==> s[i] == c
    ensures PercentileAt(s, p) == c
  {
    assert Sorting.Sorted(s);
    Between(s, p);
  }

  // ---------------------------------------------------------------------
  // The fan series

  /** `FanSeriesMulti` */
  datatype FanSeriesMulti = FanSeriesMulti(
    x: seq<int>,
    bands: map<real, seq<real>>,
    centerLine: seq<real>,
    meanSeries: seq<real>)

  /** `paths[i][j] ?? 0`: a day a shorter path does not reach counts as 0. */
  function Cell(path: seq<real>, j: int): real
  {
    if 0 <= j < |path| then path[j] else 0.0
  }

  /** The values of all paths on day `j`, in path order. */
  function Column(paths: seq<seq<real>>, j: int): (c: seq<real>)
    ensures |c| == |paths|
  {
    seq(|paths|, i requires 0 <= i < |paths| => Cell(paths[i], j))
  }

  /** Percentile `p` of day `j` across all paths. */
  function BandAt(paths: seq<seq<real>>, p: real, j: int): real
    requires IsPercent(p)
  {
    PercentileAt(Sorting.SortReals(Column(paths, j)), p)
  }

  /** The mean of day `j` across all paths. */
  function MeanAt(paths: seq<seq<real>>, j: int): real
    requires paths != []
  {
    Seqs.Sum(Column(paths, j)) / |paths| as real
  }

  function NumDays(paths: seq<seq<real>>): nat
  {
    if paths == [] then 0 else |paths[0]|
  }

  function Band(paths: seq<seq<real>>, p: real): (b: seq<real>)
    requires IsPercent(p)
    ensures |b| == NumDays(paths)
  {
    seq(NumDays(paths), j requires 0 <= j < NumDays(paths) => BandAt(paths, p, j))
  }

  function MeanSeries(paths: seq<seq<real>>): (m: seq<real>)
    requires paths != []
    ensures |m| == NumDays(paths)
  {
    seq(NumDays(paths), j requires 0 <= j < NumDays(paths) => MeanAt(paths, j))
  }

  function Indices(n: nat): (x: seq<int>)
    ensures |x| == n && forall i :: 0 <= i < n ==> x[i] == i
  {
    seq(n, i requires 0 <= i < n => i)
  }

  function Zeros(n: nat): (z: seq<real>)
    ensures |z| == n && forall i :: 0 <= i < n ==> z[i] == 0.0
  {
    seq(n, i requires 0 <= i < n => 0.0)
  }

  predicate AllPercents(ps: seq<real>)
  {
    forall i :: 0 <= i < |ps| ==> IsPercent(ps[i])
  }

  /** `DEFAULT_FAN_PERCENTILES`, the bands `computeFanSeries` draws by default. */
  const DefaultFanPercentiles: seq<real> :=
    [1.0, 5.0, 10.0, 20.0, 30.0, 40.0, 50.0, 60.0, 70.0, 80.0, 90.0, 95.0, 99.0]

  /** The record of bands, filled in the order the percentiles are listed
      (a repeated percentile is written again with the same band). */
  function Bands(paths: seq<seq<real>>, ps: seq<real>): (b: map<real, seq<real>>)
    requires AllPercents(ps)
    ensures b.Keys == set p | p in ps
    ensures forall p :: p in b ==> IsPercent(p) && b[p] == Band(paths, p)
  {
    if ps == [] then map[]
    else
      var init := ps[..|ps| - 1];
      assert forall p :: p in ps <==> p in init || p == ps[|ps| - 1];
      Bands(paths, init)[ps[|ps| - 1] := Band(paths, ps[|ps| - 1])]
  }

  /** What `computeFanSeries(paths, ps)` returns. With no paths every band is
      empty, since `Band` then has no days. */
  function FanSeries(paths: seq<seq<real>>, ps: seq<real>): FanSeriesMulti
    requires AllPercents(ps)
  {
    if paths == [] then
      FanSeriesMulti([], Bands(paths, ps), [], [])
    else
      FanSeriesMulti(
        Indices(NumDays(paths)),
        Bands(paths, ps),
        if 50.0 in ps then Band(paths, 50.0) else Zeros(NumDays(paths)),
        MeanSeries(paths))
  }

  /** Refills the reused row buffer with day `j` of every path. */
  method FillRow(row: array<real>, paths: seq<seq<real>>, j: int)
    requires row.Length == |paths|
    modifies row
    ensures row[..] == Column(paths, j)
  {
    for i := 0 to |paths|
      invariant forall k :: 0 <= k < i ==> row[k] == Cell(paths[k], j)
    {
      row[i] := Cell(paths[i], j);
    }
  }

  /** The stored band row `q` of the grid, as a sequence. */
  function GridRow(grid: array2<real>, q: int): (s: seq<real>)
    requires 0 <= q < grid.Length0
    reads grid
    ensures |s| == grid.Length1
  {
    seq(grid.Length1, d requires 0 <= d < grid.Length1 reads grid => grid[q, d])
  }

  /** `percentiles.forEach((p) => { bands[p][j] = percentileAt(row, p) })`
      for one day `j`, with the bands stored as the rows of `grid`. */
  method WriteBands(grid: array2<real>, sorted: seq<real>, paths: seq<seq<real>>, ps: seq<real>, j: int)
    requires AllPercents(ps) && grid.Length0 == |ps| && 0 <= j < grid.Length1
    requires sorted == Sorting.SortReals(Column(paths, j))
    modifies grid
    ensures forall q :: 0 <= q < |ps| ==> grid[q, j] == BandAt(paths, ps[q], j)
    ensures forall q, d :: 0 <= q < |ps| && 0 <= d < grid.Length1 && d != j ==>
      grid[q, d] == old(grid[q, d])
  {
    forall q | 0 <= q < |ps| {
      grid[q, j] := PercentileAt(sorted, ps[q]);
    }
  }

  /** One iteration of the day loop: refill the row, sort it in place, then
      read off every band and the mean for day `j`. */
  method DayStats(row: array<real>, grid: array2<real>, mean: array<real>,
                  paths: seq<seq<real>>, ps: seq<real>, j: int)
    requires paths != [] && AllPercents(ps)
    requires row.Length == |paths| && grid.Length0 == |ps| && 0 <= j < grid.Length1
    requires 0 <= j < mean.Length && mean != row
    modifies row, grid, mean
    ensures forall q :: 0 <= q < |ps| ==> grid[q, j] == BandAt(paths, ps[q], j)
    ensures forall q, d :: 0 <= q < |ps| && 0 <= d < grid.Length1 && d != j ==>
      grid[q, d] == old(grid[q, d])
    ensures mean[j] == MeanAt(paths, j)
    ensures forall d :: 0 <= d < mean.Length && d != j ==> mean[d] == old(mean[d])
  {
    FillRow(row, paths, j);
    ghost var column := row[..];
    Sorting.SortInPlace(row);
    var sorted := row[..];
    WriteBands(grid, sorted, paths, ps, j);
    Seqs.SumPermutation(sorted, column);
    mean[j] := Seqs.Sum(sorted) / |sorted| as real;
  }

  /** The day loop over a fresh grid with one row per percentile. */
  method FillGrid(row: array<real>, grid: array2<real>, mean: array<real>,
                  paths: seq<seq<real>>, ps: seq<real>)
    requires paths != [] && AllPercents(ps)
    requires row.Length == |paths| && grid.Length0 == |ps| && grid.Length1 == mean.Length
    requires mean != row
    modifies row, grid, mean
    ensures forall q, d :: 0 <= q < |ps| && 0 <= d < grid.Length1 ==> grid[q, d] == BandAt(paths, ps[q], d)
    ensures forall d :: 0 <= d < mean.Length ==> mean[d] == MeanAt(paths, d)
  {
    for j := 0 to mean.Length
      invariant forall q, d :: 0 <= q < |ps| && 0 <= d < j ==> grid[q, d] == BandAt(paths, ps[q], d)
      invariant forall d :: 0 <= d < j ==> mean[d] == MeanAt(paths, d)
    {
      DayStats(row, grid, mean, paths, ps, j);
    }
  }

  /** Gathers the grid rows into the record of bands, keyed by percentile. */
  method CollectBands(grid: array2<real>, paths: seq<seq<real>>, ps: seq<real>)
    returns (bands: map<real, seq<real>>)
    requires AllPercents(ps) && grid.Length0 == |ps| && grid.Length1 == NumDays(paths)
    requires forall q, d :: 0 <= q < |ps| && 0 <= d < grid.Length1 ==> grid[q, d] == BandAt(paths, ps[q], d)
    ensures bands == Bands(paths, ps)
  {
    bands := map[];
    for q := 0 to |ps|
      invariant bands == Bands(paths, ps[..q])
    {
      assert ps[..q + 1][..q] == ps[..q];
      assert GridRow(grid, q) == Band(paths, ps[q]);
      bands := bands[ps[q] := GridRow(grid, q)];
    }
    assert ps[..|ps|] == ps;
  }

  /** `computeFanSeries(paths, percentiles)` */
  method ComputeFanSeries(paths: seq<seq<real>>, ps: seq<real>) returns (f: FanSeriesMulti)
    requires AllPercents(ps)
    ensures f == FanSeries(paths, ps)
  {
    if |paths| == 0 {
      var empty: map<real, seq<real>> := map[];
      for q := 0 to |ps|
        invariant empty == Bands(paths, ps[..q])
      {
        assert ps[..q + 1][..q] == ps[..q];
        empty := empty[ps[q] := []];
      }
      assert ps[..|ps|] == ps;
      return FanSeriesMulti([], empty, [], []);
    }
    var numDays := |paths[0]|;
    var row := new real[|paths|];
    var grid := new real[|ps|, numDays];
    var mean := new real[numDays];
    FillGrid(row, grid, mean, paths, ps);
    var bands := CollectBands(grid, paths, ps);
    var center := if 50.0 in ps then bands[50.0] else Zeros(numDays);
    f := FanSeriesMulti(Indices(numDays), bands, center, mean[..]);
    assert f.meanSeries == MeanSeries(paths);
  }

  /** `computeFanSeriesLegacy`: the 5th, 25th, 50th, 75th and 95th bands. */
  datatype FanSeries5 = FanSeries5(
    x: seq<int>, p5: seq<real>, p25: seq<real>, p50: seq<real>, p75: seq<real>, p95: seq<real>)

  const LegacyPercentiles: seq<real> := [5.0, 25.0, 50.0, 75.0, 95.0]

  method ComputeFanSeriesLegacy(paths: seq<seq<real>>) returns (l: FanSeries5)
    ensures l.p50 == FanSeries(paths, LegacyPercentiles).centerLine
    ensures l.p5 == FanSeries(paths, LegacyPercentiles).bands[5.0]
    ensures l.p25 == FanSeries(paths, LegacyPercentiles).bands[25.0]
    ensures l.p50 == FanSeries(paths, LegacyPercentiles).bands[50.0]
    ensures l.p75 == FanSeries(paths, LegacyPercentiles).bands[75.0]
    ensures l.p95 == FanSeries(paths, LegacyPercentiles).bands[95.0]
    ensures l.x == FanSeries(paths, LegacyPercentiles).x
  {
    var ps := LegacyPercentiles;
    assert AllPercents(ps);
    assert 5.0 in ps && 25.0 in ps && 50.0 in ps && 75.0 in ps && 95.0 in ps;
    var multi := ComputeFanSeries(paths, ps);
    l := FanSeries5(multi.x, multi.bands[5.0], multi.bands[25.0], multi.centerLine,
                    multi.bands[75.0], multi.bands[95.0]);
  }

  // ---------------------------------------------------------------------
  // Properties of the fan series

  /** Shape: every band and the mean series have one entry per day of the
      first path, `x` counts the days, and no paths give empty series. */
  lemma FanShape(paths: seq<seq<real>>, ps: seq<real>)
    requires AllPercents(ps)
    ensures var f := FanSeries(paths, ps);
      f.bands.Keys == set p | p in ps &&
      |f.x| == |f.centerLine| == |f.meanSeries| == NumDays(paths) &&
      (forall i :: 0 <= i < |f.x| ==> f.x[i] == i) &&
      (forall p :: p in f.bands ==> |f.bands[p]| == NumDays(paths)) &&
      (paths == [] ==> f.x == [] && f.centerLine == [] && f.meanSeries == [] &&
                       forall p :: p in f.bands ==> f.bands[p] == [])
  {
  }

  /** The centre line is the 50th band when it is requested, zeros otherwise. */
  lemma CenterLine(paths: seq<seq<real>>, ps: seq<real>)
    requires AllPercents(ps)
    ensures 50.0 in ps ==> FanSeries(paths, ps).centerLine == FanSeries(paths, ps).bands[50.0]
    ensures 50.0 !in ps ==> FanSeries(paths, ps).centerLine == Zeros(NumDays(paths))
  {
  }

  /** Bands are ordered like their percentiles, day by day. */
  lemma BandsOrdered(paths: seq<seq<real>>, p: real, q: real, j: int)
    requires IsPercent(p) && IsPercent(q) && p <= q && 0 <= j < NumDays(paths)
    ensures Band(paths, p)[j] <= Band(paths, q)[j]
  {
    Monotone(Sorting.SortReals(Column(paths, j)), p, q);
  }

  /** Day `j` of a batch of identical paths is that path's value, repeated. */
  lemma {:induction false} ColumnOfIdentical(paths: seq<seq<real>>, j: int)
    requires paths != [] && forall i :: 0 <= i < |paths| ==> paths[i] == paths[0]
    requires 0 <= j < |paths[0]|
    ensures forall i :: 0 <= i < |paths| ==> Column(paths, j)[i] == paths[0][j]
  {
  }

  lemma {:induction false} BandOfIdentical(paths: seq<seq<real>>, p: real)
    requires IsPercent(p)
    requires paths != [] && forall i :: 0 <= i < |paths| ==> paths[i] == paths[0]
    ensures Band(paths, p) == paths[0]
  {
    forall j | 0 <= j < |paths[0]|
      ensures BandAt(paths, p, j) == paths[0][j]
    {
      var c := Column(paths, j);
      ColumnOfIdentical(paths, j);
      assert Sorting.Sorted(c);
      Sorting.SortRealsOfSorted(c);
      OfConstant(c, p, paths[0][j]);
    }
  }

  lemma {:induction false} MeanOfIdentical(paths: seq<seq<real>>)
    requires paths != [] && forall i :: 0 <= i < |paths| ==> paths[i] == paths[0]
    ensures MeanSeries(paths) == paths[0]
  {
    forall j | 0 <= j < |paths[0]|
      ensures MeanAt(paths, j) == paths[0][j]
    {
      ColumnOfIdentical(paths, j);
      Seqs.SumConstant(Column(paths, j), paths[0][j]);
      Reals.MeanOfCopies(|paths|, paths[0][j]);
    }
  }

  /** For a batch of identical paths every band and the mean series are that path. */
  lemma IdenticalPaths(paths: seq<seq<real>>, ps: seq<real>)
    requires AllPercents(ps) && paths != []
    requires forall i :: 0 <= i < |paths| ==> paths[i] == paths[0]
    ensures forall p :: p in ps ==> FanSeries(paths, ps).bands[p] == paths[0]
    ensures FanSeries(paths, ps).meanSeries == paths[0]
  {
    forall p | p in ps
      ensures Band(paths, p) == paths[0]
    {
      BandOfIdentical(paths, p);
    }
    MeanOfIdentical(paths);
  }
}
