/** The Monte Carlo engine: every simulation walks one equity path trade by
    trade (risk a fixed share of the balance, pay the leveraged round-trip
    fee, draw a win and an R multiple, stop at ruin), pads a ruined path to
    full length, scans it for its deepest drawdown, and the batch of final
    balances is reduced to a summary.

    The generator is passed in as `u`: `u(k)` is the value the `k`-th call of
    `rng()` returns for this simulation (counting from 0), so the draws a
    trade consumes are explicit in the index `k`. */
module MonteCarlo {
  import Js
  import Reals
  import Seqs
  import Sorting
  import Prng
  import Percentiles
  import JsString

  /** `SimulationParams`; `days`, `simulations` and `tradesPerDay` are the
      whole numbers the form validation produces. */
  datatype Params = Params(
    startingBalance: real,
    days: nat,
    simulations: nat,
    tradesPerDay: nat,
    winRate: real,
    riskPerTradePct: real,
    leverage: real,
    winRMin: real,
    winRMax: real,
    lossRMin: real,
    lossRMax: real,
    feeRatePerSidePct: real,
    extremesEnabled: bool,
    extremeProbPct: real,
    extremeWinR: real,
    extremeLossR: real,
    ruinThresholdPct: real,
    useSeed: bool,
    seedValue: Prng.Seed)

  /** `SimulationPath` */
  datatype Path = Path(
    balances: seq<real>,
    finalBalance: real,
    totalFees: real,
    maxDrawdownPct: real,
    ruined: bool)

  function TotalTrades(p: Params): nat { p.days * p.tradesPerDay }

  function RuinThreshold(p: Params): real { p.startingBalance * (p.ruinThresholdPct / 100.0) }

  function RiskPct(p: Params): real { p.riskPerTradePct / 100.0 }

  function FeePct(p: Params): real { p.feeRatePerSidePct / 100.0 }

  function ExtremeProb(p: Params): real { p.extremeProbPct / 100.0 }

  /** `min + r * (max - min)` lies in [min, max] for `r` in [0, 1), and below
      `max` when the range is not empty. */
  lemma UniformRange(r: real, min: real, max: real, x: real)
    requires x == min + r * (max - min)
    ensures 0.0 <= r < 1.0 && min <= max ==> min <= x <= max && (min < max ==> x < max)
  {
    if 0.0 <= r < 1.0 && min <= max {
      var d := max - min;
      Reals.FractionBelow(r, d);
      assert x == min + r * d;
    }
  }

  /** `uniform(rng, min, max)` once `rng()` has returned `r`. */
  function Uniform(r: real, min: real, max: real): (x: real)
    ensures 0.0 <= r < 1.0 && min <= max ==> min <= x <= max && (min < max ==> x < max)
  {
    var x := min + r * (max - min);
    UniformRange(r, min, max, x);
    x
  }

  /** The R multiple of one trade and the index of the next unused draw. */
  datatype Multiple = Multiple(r: real, next: nat)

  /** Chooses R, starting at draw `k`: with fat tails enabled one draw decides
      whether the trade is extreme; a trade that is not extreme takes one
      more draw for its uniform R. */
  function DrawMultiple(p: Params, u: nat -> real, isWin: bool, k: nat): (m: Multiple)
    ensures !p.extremesEnabled ==> m.next == k + 1
    ensures p.extremesEnabled ==> m.next == k + 1 || m.next == k + 2
    ensures 0.0 <= u(m.next - 1) < 1.0 && p.winRMin <= p.winRMax && p.lossRMin <= p.lossRMax
              && m.next == k + 1 + (if p.extremesEnabled then 1 else 0) ==>
              (isWin ==> p.winRMin <= m.r <= p.winRMax) && (!isWin ==> p.lossRMin <= m.r <= p.lossRMax)
    ensures m.next == k + 1 && p.extremesEnabled ==>
              m.r == (if isWin then p.extremeWinR else p.extremeLossR)
  {
    var extreme := p.extremesEnabled && u(k) < ExtremeProb(p);
    if extreme then Multiple(if isWin then p.extremeWinR else p.extremeLossR, k + 1)
    else
      var j := if p.extremesEnabled then k + 1 else k;
      var r := if isWin then Uniform(u(j), p.winRMin, p.winRMax) else Uniform(u(j), p.lossRMin, p.lossRMax);
      Multiple(r, j + 1)
  }

  /** The balance after one trade, its fee and the next unused draw. */
  datatype Trade = Trade(balance: real, fee: real, next: nat)

  /** One pass of the trade loop from `balance`, starting at draw `k`. */
  function TradeStep(p: Params, u: nat -> real, balance: real, k: nat): (t: Trade)
    ensures !p.extremesEnabled ==> t.next == k + 2
    ensures p.extremesEnabled ==> t.next == k + 2 || t.next == k + 3
  {
    var riskAmount := balance * RiskPct(p);
    var notional := riskAmount * p.leverage;
    var fee := 2.0 * notional * FeePct(p);
    var isWin := u(k) < p.winRate / 100.0;
    var m := DrawMultiple(p, u, isWin, k + 1);
    var pnl := if isWin then riskAmount * m.r else -riskAmount * m.r;
    Trade(balance + (pnl - fee), fee, m.next)
  }

  /** The fee of a trade is the round trip (two sides) on the leveraged notional. */
  lemma TradeFee(p: Params, u: nat -> real, balance: real, k: nat)
    ensures TradeStep(p, u, balance, k).fee == 2.0 * (balance * RiskPct(p) * p.leverage) * FeePct(p)
    ensures p.feeRatePerSidePct == 0.0 ==> TradeStep(p, u, balance, k).fee == 0.0
  {
  }

  /** The balances the trade loop pushes and the fees it adds up. */
  datatype Trades = Trades(balances: seq<real>, fees: real)

  /** At most `n` more trades from `balance`, stopping right after the first
      balance at or below the ruin threshold. */
  function Walk(p: Params, u: nat -> real, balance: real, k: nat, n: nat): (w: Trades)
    ensures |w.balances| <= n
    ensures n > 0 ==> |w.balances| > 0
    decreases n
  {
    if n == 0 then Trades([], 0.0)
    else
      var t := TradeStep(p, u, balance, k);
      if t.balance <= RuinThreshold(p) then Trades([t.balance], t.fee)
      else
        var rest := Walk(p, u, t.balance, t.next, n - 1);
        Trades([t.balance] + rest.balances, t.fee + rest.fees)
  }

  /** Every balance but the last is above `threshold`. */
  predicate AboveUntilLast(bs: seq<real>, threshold: real)
  {
    forall i :: 0 <= i < |bs| - 1 ==> bs[i] > threshold
  }

  /** Only the last balance of a walk can be at or below the ruin threshold. */
  lemma {:induction false} WalkAboveUntilLast(p: Params, u: nat -> real, balance: real, k: nat, n: nat)
    ensures AboveUntilLast(Walk(p, u, balance, k, n).balances, RuinThreshold(p))
    decreases n
  {
    if n > 0 {
      WalkStep(p, u, balance, k, n);
      var t := TradeStep(p, u, balance, k);
      if t.balance > RuinThreshold(p) {
        var rest := Walk(p, u, t.balance, t.next, n - 1).balances;
        WalkAboveUntilLast(p, u, t.balance, t.next, n - 1);
        var w := Walk(p, u, balance, k, n).balances;
        assert w == [t.balance] + rest;
        forall i | 1 <= i < |w| - 1
          ensures w[i] > RuinThreshold(p)
        {
          assert w[i] == rest[i - 1];
        }
      }
    }
  }

  /** A walk stops before its `n` trades only at ruin. */
  lemma {:induction false} WalkStopsOnlyAtRuin(p: Params, u: nat -> real, balance: real, k: nat, n: nat)
    ensures var w := Walk(p, u, balance, k, n).balances;
            |w| < n ==> w[|w| - 1] <= RuinThreshold(p)
    decreases n
  {
    if n > 0 {
      WalkStep(p, u, balance, k, n);
      var t := TradeStep(p, u, balance, k);
      if t.balance > RuinThreshold(p) {
        var rest := Walk(p, u, t.balance, t.next, n - 1).balances;
        WalkStopsOnlyAtRuin(p, u, t.balance, t.next, n - 1);
        var w := Walk(p, u, balance, k, n).balances;
        assert w == [t.balance] + rest;
        assert |w| < n ==> w[|w| - 1] == rest[|rest| - 1];
      }
    }
  }

  /** `n` copies of `v`. */
  function Repeat(v: real, n: nat): (r: seq<real>)
    ensures |r| == n && forall i :: 0 <= i < n ==> r[i] == v
  {
    seq(n, _ => v)
  }

  /** `bs` extended with copies of `v` up to length `n`. */
  function Pad(bs: seq<real>, n: nat, v: real): (r: seq<real>)
    ensures |r| == if |bs| < n then n else |bs|
    ensures r[..|bs|] == bs
    ensures forall i :: |bs| <= i < |r| ==> r[i] == v
  {
    bs + Repeat(v, if |bs| < n then n - |bs| else 0)
  }

  /** The percentage drop of `b` below the running peak; 0 for a peak that is not positive. */
  function Drawdown(peak: real, b: real): real
  {
    if peak > 0.0 then (peak - b) / peak * 100.0 else 0.0
  }

  /** The running peak after the first `n` balances: it starts at the first
      one and is raised by every larger one. */
  function PeakOf(bs: seq<real>, n: nat): (peak: real)
    requires 0 < n <= |bs|
    ensures bs[n - 1] <= peak
  {
    if n == 1 then bs[0]
    else
      var peak := PeakOf(bs, n - 1);
      if bs[n - 1] > peak then bs[n - 1] else peak
  }

  /** The running peak is the largest of the balances seen so far. */
  lemma {:induction false} PeakIsPrefixMax(bs: seq<real>, n: nat)
    requires 0 < n <= |bs|
    ensures PeakOf(bs, n) == Seqs.Max(bs[..n])
    decreases n
  {
    if n > 1 {
      PeakIsPrefixMax(bs, n - 1);
      Seqs.MaxPrefixStep(bs, n - 1);
    }
  }

  /** The largest drawdown among the first `n` balances, each measured from
      the running peak at that balance. */
  function MaxDrawdownOf(bs: seq<real>, n: nat): (m: real)
    requires n <= |bs|
    ensures 0.0 <= m
  {
    if n == 0 then 0.0
    else
      var d := Drawdown(PeakOf(bs, n), bs[n - 1]);
      var m := MaxDrawdownOf(bs, n - 1);
      if d > m then d else m
  }

  function MaxDrawdown(bs: seq<real>): real
  {
    MaxDrawdownOf(bs, |bs|)
  }

  /** What one simulation produces from the draws `u`. */
  function SimulatedPath(p: Params, u: nat -> real): Path
  {
    var balances := PathBalances(p, u);
    var final := EndBalance(p, u);
    Path(balances, final, Walk(p, u, p.startingBalance, 0, TotalTrades(p)).fees,
         MaxDrawdown(balances), final <= RuinThreshold(p))
  }

  /** The starting balance followed by the balances the trade loop pushes. */
  function Produced(p: Params, u: nat -> real): (r: seq<real>)
    ensures 0 < |r| <= TotalTrades(p) + 1 && r[0] == p.startingBalance
  {
    [p.startingBalance] + Walk(p, u, p.startingBalance, 0, TotalTrades(p)).balances
  }

  /** The balance when the trade loop ends. */
  function EndBalance(p: Params, u: nat -> real): real
  {
    var produced := Produced(p, u);
    produced[|produced| - 1]
  }

  /** The balances of a path once a ruined one has been padded. */
  function PathBalances(p: Params, u: nat -> real): seq<real>
  {
    Pad(Produced(p, u), TotalTrades(p) + 1, EndBalance(p, u))
  }

  /** The body of the trade loop. */
  method SimulateTrade(p: Params, u: nat -> real, balance: real, k: nat)
    returns (newBalance: real, fee: real, next: nat)
    ensures Trade(newBalance, fee, next) == TradeStep(p, u, balance, k)
  {
    var riskAmount := balance * RiskPct(p);
    var notional := riskAmount * p.leverage;
    fee := 2.0 * notional * FeePct(p);
    next := k;
    var isWin := u(next) < p.winRate / 100.0;
    next := next + 1;
    var extreme := false;
    if p.extremesEnabled {
      extreme := u(next) < ExtremeProb(p);
      next := next + 1;
    }
    var r: real;
    if extreme {
      r := if isWin then p.extremeWinR else p.extremeLossR;
    } else {
      if p.extremesEnabled {
        assert next - 1 == k + 1;
      }
      r := if isWin then Uniform(u(next), p.winRMin, p.winRMax) else Uniform(u(next), p.lossRMin, p.lossRMax);
      next := next + 1;
    }
    assert Multiple(r, next) == DrawMultiple(p, u, isWin, k + 1);
    var pnl := if isWin then riskAmount * r else -riskAmount * r;
    var pnlAfterFees := pnl - fee;
    newBalance := balance + pnlAfterFees;
  }

  /** `while (balances.length < n) balances.push(v)` */
  method PadBalances(balances: seq<real>, n: nat, v: real) returns (padded: seq<real>)
    ensures padded == Pad(balances, n, v)
  {
    padded := balances;
    while |padded| < n
      invariant |balances| <= |padded| <= if |balances| < n then n else |balances|
      invariant padded == balances + Repeat(v, |padded| - |balances|)
      decreases n - |padded|
    {
      padded := padded + [v];
    }
  }

  /** The running-peak scan over a path. */
  method ScanDrawdown(balances: seq<real>) returns (maxDrawdownPct: real)
    ensures maxDrawdownPct == MaxDrawdown(balances)
  {
    maxDrawdownPct := 0.0;
    var runPeak := if |balances| > 0 then balances[0] else 0.0;
    var i := 0;
    while i < |balances|
      invariant 0 <= i <= |balances|
      invariant 0 < i ==> runPeak == PeakOf(balances, i)
      invariant i == 0 < |balances| ==> runPeak == balances[0]
      invariant maxDrawdownPct == MaxDrawdownOf(balances, i)
    {
      var b := balances[i];
      if b > runPeak {
        runPeak := b;
      }
      var dd := Drawdown(runPeak, b);
      if dd > maxDrawdownPct {
        maxDrawdownPct := dd;
      }
      i := i + 1;
    }
  }

  /** The trade loop with its ruin check; returns the balances before the
      drawdown scan, the final balance and the fees. */
  method TradeLoop(p: Params, u: nat -> real)
    returns (balances: seq<real>, balance: real, totalFees: real)
    ensures balance == EndBalance(p, u)
    ensures balances == PathBalances(p, u)
    ensures totalFees == Walk(p, u, p.startingBalance, 0, TotalTrades(p)).fees
  {
    var total := TotalTrades(p);
    var threshold := RuinThreshold(p);
    ghost var whole := Walk(p, u, p.startingBalance, 0, total);
    ghost var produced := [p.startingBalance] + whole.balances;
    balance := p.startingBalance;
    balances := [balance];
    totalFees := 0.0;
    var k: nat := 0;
    ghost var rest := whole;
    var t := 0;
    while t < total
      invariant 0 <= t <= total
      invariant |balances| == t + 1 && balances[t] == balance
      invariant rest == Walk(p, u, balance, k, total - t)
      invariant balances + rest.balances == produced
      invariant totalFees + rest.fees == whole.fees
    {
      WalkAdvance(p, u, balance, k, total - t, balances, totalFees);
      var fee;
      balance, fee, k := SimulateTrade(p, u, balance, k);
      totalFees := totalFees + fee;
      balances := balances + [balance];
      if balance <= threshold {
        balances := PadBalances(balances, total + 1, balance);
        break;
      }
      rest := Walk(p, u, balance, k, total - t - 1);
      t := t + 1;
    }
    if t == total {
      assert balances == produced;
    }
  }

  /** One trade of the loop in terms of the walk: the balances pushed so far
      followed by the rest of the walk stay the same sequence, and so does
      the fee total. */
  lemma WalkAdvance(p: Params, u: nat -> real, balance: real, k: nat, n: nat, before: seq<real>, fees: real)
    requires n > 0
    ensures var t := TradeStep(p, u, balance, k);
            var w := Walk(p, u, balance, k, n);
            var rest := Walk(p, u, t.balance, t.next, n - 1);
            (t.balance <= RuinThreshold(p) ==> before + [t.balance] == before + w.balances && fees + t.fee == w.fees + fees) &&
            (t.balance > RuinThreshold(p) ==>
               (before + [t.balance]) + rest.balances == before + w.balances && (fees + t.fee) + rest.fees == fees + w.fees)
  {
    WalkStep(p, u, balance, k, n);
    var t := TradeStep(p, u, balance, k);
    var rest := Walk(p, u, t.balance, t.next, n - 1);
    if t.balance > RuinThreshold(p) {
      assert (before + [t.balance]) + rest.balances == before + ([t.balance] + rest.balances);
    }
  }

  /** Unfolds one trade of the walk. */
  lemma WalkStep(p: Params, u: nat -> real, balance: real, k: nat, n: nat)
    requires n > 0
    ensures var t := TradeStep(p, u, balance, k);
            var w := Walk(p, u, t.balance, t.next, n - 1);
            Walk(p, u, balance, k, n) ==
              if t.balance <= RuinThreshold(p) then Trades([t.balance], t.fee)
              else Trades([t.balance] + w.balances, t.fee + w.fees)
  {
  }

  /** One iteration of the simulation loop: a whole path. */
  method SimulatePath(p: Params, u: nat -> real) returns (path: Path)
    ensures path == SimulatedPath(p, u)
  {
    var balances, balance, totalFees := TradeLoop(p, u);
    var maxDrawdownPct := ScanDrawdown(balances);
    path := Path(balances, balance, totalFees, maxDrawdownPct, balance <= RuinThreshold(p));
  }

  // Properties of a single path.

  /** Every path, ruined or not, has one balance per trade plus the start. */
  lemma PathLength(p: Params, u: nat -> real)
    ensures var path := SimulatedPath(p, u);
            |path.balances| == TotalTrades(p) + 1 &&
            path.balances[0] == p.startingBalance &&
            path.finalBalance == path.balances[TotalTrades(p)]
  {
    var produced := Produced(p, u);
    var balances := PathBalances(p, u);
    assert balances[..|produced|] == produced;
    assert balances[0] == produced[0];
    assert balances[|produced| - 1] == produced[|produced| - 1];
  }

  /** After the start, every balance of a path before its last produced one
      is above the threshold, and every balance from it on is the final one. */
  lemma PathSegments(p: Params, u: nat -> real)
    ensures var n := |Produced(p, u)|;
            var bs := PathBalances(p, u);
            (forall i :: 1 <= i < n - 1 ==> bs[i] > RuinThreshold(p)) &&
            (forall i :: n - 1 <= i < |bs| ==> bs[i] == EndBalance(p, u))
  {
    var w := Walk(p, u, p.startingBalance, 0, TotalTrades(p)).balances;
    var produced := Produced(p, u);
    var bs := PathBalances(p, u);
    var n := |produced|;
    assert bs[..n] == produced;
    assert produced == [p.startingBalance] + w;
    WalkAboveUntilLast(p, u, p.startingBalance, 0, TotalTrades(p));
    forall i | 1 <= i < n - 1
      ensures bs[i] > RuinThreshold(p)
    {
      assert bs[i] == bs[..n][i] == produced[i] == w[i - 1];
    }
    forall i | n - 1 <= i < |bs|
      ensures bs[i] == EndBalance(p, u)
    {
      if i == n - 1 {
        assert bs[i] == bs[..n][i];
      }
    }
  }

  /** From the first balance at or below the ruin threshold on, a path does not change. */
  lemma RuinFreezesPath(p: Params, u: nat -> real)
    ensures var bs := SimulatedPath(p, u).balances;
            forall i, j :: 1 <= i <= j < |bs| && bs[i] <= RuinThreshold(p) ==> bs[j] == bs[i]
  {
    PathSegments(p, u);
  }

  /** A path that is not ruined ran all of its trades. */
  lemma UnruinedPathRunsAllTrades(p: Params, u: nat -> real)
    ensures !SimulatedPath(p, u).ruined ==> |Produced(p, u)| == TotalTrades(p) + 1
  {
    WalkStopsOnlyAtRuin(p, u, p.startingBalance, 0, TotalTrades(p));
    var w := Walk(p, u, p.startingBalance, 0, TotalTrades(p)).balances;
    var produced := Produced(p, u);
    if |w| > 0 {
      assert produced[|produced| - 1] == w[|w| - 1];
    }
  }

  /** A path with at least one trade is ruined exactly when some balance after
      a trade is at or below the threshold. */
  lemma RuinedIffBelowThreshold(p: Params, u: nat -> real)
    requires TotalTrades(p) > 0
    ensures var path := SimulatedPath(p, u);
            path.ruined <==> exists i :: 1 <= i < |path.balances| && path.balances[i] <= RuinThreshold(p)
  {
    PathSegments(p, u);
    PathLength(p, u);
    var path := SimulatedPath(p, u);
    if path.ruined {
      assert path.balances[TotalTrades(p)] <= RuinThreshold(p);
    }
  }

  /** The drawdown at every single balance is at most the maximum. */
  lemma {:induction false} MaxDrawdownOfBound(bs: seq<real>, n: nat, i: nat)
    requires i < n <= |bs|
    ensures Drawdown(PeakOf(bs, i + 1), bs[i]) <= MaxDrawdownOf(bs, n)
    decreases n
  {
    if i < n - 1 {
      MaxDrawdownOfBound(bs, n - 1, i);
    }
  }

  /** The scan's result bounds the drawdown at every index, measured from the
      largest balance up to that index. */
  lemma MaxDrawdownBound(bs: seq<real>, i: nat)
    requires i < |bs|
    ensures Drawdown(Seqs.Max(bs[..i + 1]), bs[i]) <= MaxDrawdown(bs)
  {
    MaxDrawdownOfBound(bs, |bs|, i);
    PeakIsPrefixMax(bs, i + 1);
  }

  /** The drawdown never exceeds 100% while the balance stays non-negative. */
  lemma DrawdownAtMost100(peak: real, b: real)
    requires 0.0 <= b && b <= peak
    ensures Drawdown(peak, b) <= 100.0
  {
    if peak > 0.0 {
      assert (peak - b) / peak <= 1.0;
    }
  }

  lemma {:induction false} MaxDrawdownOfAtMost100(bs: seq<real>, n: nat)
    requires n <= |bs|
    requires forall i :: 0 <= i < |bs| ==> 0.0 <= bs[i]
    ensures MaxDrawdownOf(bs, n) <= 100.0
    decreases n
  {
    if n > 0 {
      MaxDrawdownOfAtMost100(bs, n - 1);
      DrawdownAtMost100(PeakOf(bs, n), bs[n - 1]);
    }
  }

  lemma NoDrawdownAtPeak(b: real)
    ensures Drawdown(b, b) == 0.0
  {
    if b > 0.0 {
      assert (b - b) / b == 0.0;
    }
  }

  /** On a non-decreasing path the running peak is the latest balance. */
  lemma {:induction false} RisingPeak(bs: seq<real>, n: nat)
    requires 0 < n <= |bs|
    requires Sorting.Sorted(bs)
    ensures PeakOf(bs, n) == bs[n - 1]
    decreases n
  {
    if n > 1 {
      RisingPeak(bs, n - 1);
    }
  }

  /** A path that never falls below its running peak has no drawdown. */
  lemma {:induction false} RisingPathHasNoDrawdownOf(bs: seq<real>, n: nat)
    requires n <= |bs|
    requires Sorting.Sorted(bs)
    ensures MaxDrawdownOf(bs, n) == 0.0
    decreases n
  {
    if n > 0 {
      RisingPathHasNoDrawdownOf(bs, n - 1);
      RisingPeak(bs, n);
      NoDrawdownAtPeak(bs[n - 1]);
    }
  }

  lemma RisingPathHasNoDrawdown(bs: seq<real>)
    requires Sorting.Sorted(bs)
    ensures MaxDrawdown(bs) == 0.0
  {
    RisingPathHasNoDrawdownOf(bs, |bs|);
  }

  /** The drawdown of every path lies in [0, 100] when its balances stay non-negative. */
  lemma PathDrawdownRange(p: Params, u: nat -> real)
    ensures SimulatedPath(p, u).maxDrawdownPct >= 0.0
    ensures (forall i :: 0 <= i < |SimulatedPath(p, u).balances| ==> 0.0 <= SimulatedPath(p, u).balances[i]) ==>
              SimulatedPath(p, u).maxDrawdownPct <= 100.0
  {
    var bs := SimulatedPath(p, u).balances;
    if forall i :: 0 <= i < |bs| ==> 0.0 <= bs[i] {
      MaxDrawdownOfAtMost100(bs, |bs|);
    }
  }

  lemma {:induction false} WalkFeesZero(p: Params, u: nat -> real, balance: real, k: nat, n: nat)
    requires p.feeRatePerSidePct == 0.0
    ensures Walk(p, u, balance, k, n).fees == 0.0
    decreases n
  {
    if n > 0 {
      var t := TradeStep(p, u, balance, k);
      if t.balance > RuinThreshold(p) {
        WalkFeesZero(p, u, t.balance, t.next, n - 1);
      }
    }
  }

  /** Without a fee rate a path pays no fees. */
  lemma ZeroFeeRate(p: Params, u: nat -> real)
    requires p.feeRatePerSidePct == 0.0
    ensures SimulatedPath(p, u).totalFees == 0.0
  {
    WalkFeesZero(p, u, p.startingBalance, 0, TotalTrades(p));
  }

  // Worked examples: start 1000, risk 10%, leverage 1, no fees, no fat tails.

  function Example(days: nat, winRate: real, ruinThresholdPct: real): Params
  {
    Params(1000.0, days, 1, 1, winRate, 10.0, 1.0, 2.0, 2.0, 1.0, 1.0, 0.0,
           false, 0.0, 0.0, 0.0, ruinThresholdPct, false, Prng.NumSeed(12345.0))
  }

  /** The first trade of an example: a certain win (R = 2) or a certain loss (R = 1). */
  lemma ExampleFirstTrade(days: nat, winRate: real, ruinThresholdPct: real, u: nat -> real)
    requires winRate == 0.0 || winRate == 100.0
    requires 0.0 <= u(0) < 1.0
    ensures TradeStep(Example(days, winRate, ruinThresholdPct), u, 1000.0, 0).balance ==
              if winRate == 100.0 then 1200.0 else 900.0
  {
    var p := Example(days, winRate, ruinThresholdPct);
    var isWin := u(0) < winRate / 100.0;
    assert isWin <==> winRate == 100.0;
    var m := DrawMultiple(p, u, isWin, 1);
    assert m.r == if isWin then 2.0 else 1.0;
  }

  /** A path whose first trade is its last (one trade, or ruin) is the start
      and that trade's balance, padded. */
  lemma FirstTradeEndsPath(p: Params, u: nat -> real)
    requires TotalTrades(p) > 0
    requires TotalTrades(p) == 1 || TradeStep(p, u, p.startingBalance, 0).balance <= RuinThreshold(p)
    ensures var b := TradeStep(p, u, p.startingBalance, 0).balance;
            PathBalances(p, u) == Pad([p.startingBalance, b], TotalTrades(p) + 1, b) &&
            EndBalance(p, u) == b
  {
    WalkStep(p, u, p.startingBalance, 0, TotalTrades(p));
    var t := TradeStep(p, u, p.startingBalance, 0);
    assert Walk(p, u, p.startingBalance, 0, TotalTrades(p)).balances == [t.balance];
    assert Produced(p, u) == [p.startingBalance, t.balance];
  }

  /** A certain win at R = 2 on 100 risked turns 1000 into 1200. */
  lemma WinningTrade(u: nat -> real)
    requires forall k :: 0.0 <= u(k) < 1.0
    ensures SimulatedPath(Example(1, 100.0, 0.0), u).balances == [1000.0, 1200.0]
    ensures SimulatedPath(Example(1, 100.0, 0.0), u).finalBalance == 1200.0
    ensures !SimulatedPath(Example(1, 100.0, 0.0), u).ruined
  {
    var p := Example(1, 100.0, 0.0);
    ExampleFirstTrade(1, 100.0, 0.0, u);
    FirstTradeEndsPath(p, u);
    assert Pad([1000.0, 1200.0], 2, 1200.0) == [1000.0, 1200.0];
  }

  /** A certain loss at R = 1 turns 1000 into 900. */
  lemma LosingTrade(u: nat -> real)
    requires forall k :: 0.0 <= u(k) < 1.0
    ensures SimulatedPath(Example(1, 0.0, 0.0), u).balances == [1000.0, 900.0]
    ensures SimulatedPath(Example(1, 0.0, 0.0), u).finalBalance == 900.0
  {
    var p := Example(1, 0.0, 0.0);
    ExampleFirstTrade(1, 0.0, 0.0, u);
    FirstTradeEndsPath(p, u);
    assert Pad([1000.0, 900.0], 2, 900.0) == [1000.0, 900.0];
  }

  /** With a 95% ruin threshold the first loss ruins a three-trade path,
      which is padded with the ruin balance. */
  lemma RuinedPathIsPadded(u: nat -> real)
    requires forall k :: 0.0 <= u(k) < 1.0
    ensures SimulatedPath(Example(3, 0.0, 95.0), u).balances == [1000.0, 900.0, 900.0, 900.0]
    ensures SimulatedPath(Example(3, 0.0, 95.0), u).ruined
  {
    var p := Example(3, 0.0, 95.0);
    ExampleFirstTrade(3, 0.0, 95.0, u);
    FirstTradeEndsPath(p, u);
    assert Pad([1000.0, 900.0], 4, 900.0) == [1000.0, 900.0, 900.0, 900.0];
  }

  // The batch and its summary.

  /** `SimulationSummary`; the means and the ruin share are NaN for an empty batch. */
  datatype Summary = Summary(
    meanFinalBalance: Js.Num,
    medianFinalBalance: real,
    p5FinalBalance: real,
    p95FinalBalance: real,
    meanMaxDrawdownPct: Js.Num,
    ruinProbabilityPct: Js.Num,
    bestFinalBalance: real,
    worstFinalBalance: real,
    totalTradesPerSim: nat,
    avgFeePaid: Js.Num,
    avgPnL: Js.Num)

  function FinalBalances(paths: seq<Path>): (r: seq<real>)
    ensures |r| == |paths| && forall i :: 0 <= i < |paths| ==> r[i] == paths[i].finalBalance
  {
    seq(|paths|, i requires 0 <= i < |paths| => paths[i].finalBalance)
  }

  function Drawdowns(paths: seq<Path>): (r: seq<real>)
    ensures |r| == |paths| && forall i :: 0 <= i < |paths| ==> r[i] == paths[i].maxDrawdownPct
  {
    seq(|paths|, i requires 0 <= i < |paths| => paths[i].maxDrawdownPct)
  }

  function FeesList(paths: seq<Path>): (r: seq<real>)
    ensures |r| == |paths| && forall i :: 0 <= i < |paths| ==> r[i] == paths[i].totalFees
  {
    seq(|paths|, i requires 0 <= i < |paths| => paths[i].totalFees)
  }

  /** `paths.filter((p) => p.ruined).length` */
  function RuinCount(paths: seq<Path>): (n: nat)
    ensures n <= |paths|
    ensures n == 0 <==> forall i :: 0 <= i < |paths| ==> !paths[i].ruined
    ensures n == |paths| <==> forall i :: 0 <= i < |paths| ==> paths[i].ruined
  {
    if paths == [] then 0
    else
      var rest := RuinCount(paths[..|paths| - 1]);
      assert forall i :: 0 <= i < |paths| - 1 ==> paths[..|paths| - 1][i] == paths[i];
      rest + if paths[|paths| - 1].ruined then 1 else 0
  }

  /** `xs.reduce((a, b) => a + b, 0) / xs.length` */
  function Mean(xs: seq<real>): (m: Js.Num)
    ensures xs == [] ==> m == Js.NaN
    ensures xs != [] ==> m == Js.Finite(Seqs.Sum(xs) / |xs| as real)
  {
    Js.Div(Seqs.Sum(xs), |xs| as real)
  }

  /** `x - c` for a finite `c`; NaN stays NaN. */
  function MinusNum(x: Js.Num, c: real): (r: Js.Num)
    ensures r.IsFinite() <==> x.IsFinite()
    ensures x.IsFinite() ==> r.v == x.v - c
  {
    match x
    case Finite(v) => Js.Finite(v - c)
    case _ => x
  }

  lemma ShareAtMostOne(c: real, n: real)
    ensures 0.0 <= c <= n && 0.0 < n ==> 0.0 <= c / n <= 1.0
  {
    if 0.0 <= c <= n && 0.0 < n {
      assert c / n * n == c;
    }
  }

  /** The final balances in ascending order. */
  function Finals(paths: seq<Path>): (r: seq<real>)
    ensures Sorting.Sorted(r) && multiset(r) == multiset(FinalBalances(paths)) && |r| == |paths|
  {
    Sorting.SortReals(FinalBalances(paths))
  }

  /** `finalBalances[finalBalances.length - 1] ?? 0` */
  function Best(finals: seq<real>): real
  {
    if |finals| > 0 then finals[|finals| - 1] else 0.0
  }

  /** `finalBalances[0] ?? 0` */
  function Worst(finals: seq<real>): real
  {
    if |finals| > 0 then finals[0] else 0.0
  }

  /** `(ruinCount / simulations) * 100`: the ruined share in percent for a
      batch of the requested size, NaN for an empty one. */
  function RuinProbability(p: Params, paths: seq<Path>): (r: Js.Num)
    ensures |paths| == p.simulations > 0 ==>
              r == Js.Finite(RuinCount(paths) as real / p.simulations as real * 100.0) &&
              0.0 <= r.v <= 100.0
    ensures paths == [] && p.simulations == 0 ==> r == Js.NaN
  {
    ShareAtMostOne(RuinCount(paths) as real, p.simulations as real);
    Js.ScaleNum(Js.Div(RuinCount(paths) as real, p.simulations as real), 100.0)
  }

  /** The reduction of the batch at the end of `runMonteCarlo`. */
  function Summarize(p: Params, paths: seq<Path>): Summary
  {
    var finals := Finals(paths);
    var mean := Mean(finals);
    Summary(
      mean,
      Percentiles.PercentileAt(finals, 50.0),
      Percentiles.PercentileAt(finals, 5.0),
      Percentiles.PercentileAt(finals, 95.0),
      Mean(Drawdowns(paths)),
      RuinProbability(p, paths),
      Best(finals),
      Worst(finals),
      TotalTrades(p),
      Mean(FeesList(paths)),
      MinusNum(mean, p.startingBalance))
  }

  /** The order statistics of a non-empty batch are ordered. */
  lemma SummaryOrdered(p: Params, paths: seq<Path>)
    requires paths != []
    ensures var s := Summarize(p, paths);
            s.worstFinalBalance <= s.p5FinalBalance <= s.medianFinalBalance
              <= s.p95FinalBalance <= s.bestFinalBalance
  {
    var finals := Finals(paths);
    Percentiles.WithinRange(finals, 5.0);
    Percentiles.Monotone(finals, 5.0, 50.0);
    Percentiles.Monotone(finals, 50.0, 95.0);
    Percentiles.WithinRange(finals, 95.0);
  }

  /** The mean final balance of a non-empty batch is finite and does not
      depend on the sorting; the average PnL is measured from the starting balance. */
  lemma SummaryMean(p: Params, paths: seq<Path>)
    requires paths != []
    ensures var s := Summarize(p, paths);
            s.meanFinalBalance == Js.Finite(Seqs.Sum(FinalBalances(paths)) / |paths| as real) &&
            s.avgPnL == Js.Finite(s.meanFinalBalance.v - p.startingBalance) &&
            s.totalTradesPerSim == p.days * p.tradesPerDay
  {
    Seqs.SumPermutation(Finals(paths), FinalBalances(paths));
  }

  /** The mean final balance lies between the worst and the best. */
  lemma MeanBetweenExtremes(paths: seq<Path>)
    requires paths != []
    ensures Mean(Finals(paths)).IsFinite()
    ensures Worst(Finals(paths)) <= Mean(Finals(paths)).v <= Best(Finals(paths))
  {
    var finals := Finals(paths);
    Seqs.SumBounds(finals, finals[0], finals[|finals| - 1]);
    Reals.MeanWithin(Seqs.Sum(finals), |finals|, finals[0], finals[|finals| - 1]);
  }

  /** ... and an empty batch has NaN means and zero order statistics. */
  lemma SummaryOfNoPaths(p: Params)
    requires p.simulations == 0
    ensures var s := Summarize(p, []);
            s.meanFinalBalance == Js.NaN && s.meanMaxDrawdownPct == Js.NaN &&
            s.ruinProbabilityPct == Js.NaN && s.avgFeePaid == Js.NaN && s.avgPnL == Js.NaN &&
            s.medianFinalBalance == s.p5FinalBalance == s.p95FinalBalance == 0.0 &&
            s.bestFinalBalance == s.worstFinalBalance == 0.0
  {
    assert Finals([]) == [];
  }

  /** The seed of simulation `sim`: `seedValue + sim` or `${seedValue}-${sim}`. */
  function SimSeed(seed: Prng.Seed, sim: nat): Prng.Seed
  {
    match seed
    case NumSeed(n) => Prng.NumSeed(n + sim as real)
    case StrSeed(s) => Prng.StrSeed(s + "-" + Js.Decimal(sim))
  }

  /** Different simulations of one run start from different seeds. */
  lemma SimSeedsDistinct(seed: Prng.Seed, i: nat, j: nat)
    requires i != j
    ensures SimSeed(seed, i) != SimSeed(seed, j)
  {
    match seed
    case NumSeed(n) =>
    case StrSeed(s) =>
      var a, b := s + "-" + Js.Decimal(i), s + "-" + Js.Decimal(j);
      assert a[|s| + 1..] == Js.Decimal(i);
      assert b[|s| + 1..] == Js.Decimal(j);
      DecimalInjective(i, j);
  }

  /** `String(n)` tells whole numbers apart. */
  lemma DecimalInjective(i: nat, j: nat)
    ensures Js.Decimal(i) == Js.Decimal(j) ==> i == j
  {
    JsString.NumberOfDecimal(i);
    JsString.NumberOfDecimal(j);
  }

  /** The draws simulation `sim` sees: the stream of its own seed, or the
      caller's unseeded source `ambient(sim, k)`. */
  function Draws(p: Params, ambient: (nat, nat) -> real, sim: nat): nat -> real
  {
    if p.useSeed then
      var s0 := Prng.InitialState(SimSeed(p.seedValue, sim));
      (k: nat) => Prng.NthOutput(s0, k)
    else
      (k: nat) => ambient(sim, k)
  }

  /** A seeded run does not depend on the unseeded source: two runs with the
      same parameters produce the same paths. */
  lemma SeededDrawsIgnoreAmbient(p: Params, a: (nat, nat) -> real, b: (nat, nat) -> real, sim: nat)
    requires p.useSeed
    ensures Draws(p, a, sim) == Draws(p, b, sim)
    ensures SimulatedPath(p, Draws(p, a, sim)) == SimulatedPath(p, Draws(p, b, sim))
  {
  }

  /** `runMonteCarlo(params)` */
  method RunMonteCarlo(p: Params, ambient: (nat, nat) -> real) returns (paths: seq<Path>, summary: Summary)
    ensures |paths| == p.simulations
    ensures forall sim :: 0 <= sim < |paths| ==> paths[sim] == SimulatedPath(p, Draws(p, ambient, sim))
    ensures summary == Summarize(p, paths)
  {
    paths := [];
    var sim := 0;
    while sim < p.simulations
      invariant 0 <= sim <= p.simulations && |paths| == sim
      invariant forall i :: 0 <= i < sim ==> paths[i] == SimulatedPath(p, Draws(p, ambient, i))
    {
      var path := SimulatePath(p, Draws(p, ambient, sim));
      paths := paths + [path];
      sim := sim + 1;
    }
    summary := Summarize(p, paths);
  }
}
