# Trading journal core, modelled in Dafny

This project models the computational core of a trading-journal web
application. It covers three groups of code.

The Monte Carlo simulator:
- a seeded mulberry32 generator (`prng.ts`);
- the per-simulation path generator, which applies a fee per trade, draws R-multiples for wins and losses, stops on ruin and pads the path, together with the aggregate summary (`montecarlo.ts`);
- the percentile fan over daily paths (`percentiles.ts`);
- the random but deterministic sampler of paths for the spaghetti chart (`samplePaths.ts`);
- the glue of the simulations page: default and validated parameters, daily resampling, the fan and spaghetti series and their zoomed y-ranges (`simulations/page.tsx`).

The trade import and arithmetic:
- the CSV trade importer: header normalisation, number parsing with US and EU separators, type/market/symbol normalisation, market inference from symbols, row validation and the import report (`tradeParser.ts`);
- the PnL formulas of the trade forms (`calculations.tsx`).

The statistics pages:
- the report metrics and cumulative series (`reportMetrics.ts`);
- the range filter, statistics, day-of-month and monthly buckets of the analysis page (`analysis/page.tsx`);
- the daily, weekly and monthly aggregation of the calendar page (`calendar/page.tsx`).

Conventions of the model:
- JavaScript numbers are modelled as `real`. Where a division by zero, an infinity or NaN can reach the result, the model uses `Js.Num`, which is a finite real, a signed infinity or NaN.
- `Math.floor`, `Math.round`, `toFixed(2)`-style rounding and `>>> 0` are written out in module `Js`.
- Randomness is a parameter. The generator's output stream, and `Math.random` where the simulator falls back to it, is a draw function `u: nat -> real`: the k-th draw of a run is `u(k)`. `Prng` proves that the seeded stream lies in [0, 1) and is determined by its seed.
- Trade dates are abstract fields of `Trades.Trade`: a timestamp, a day key and a month key. The pages derive these with `Date`.
- The private `percentile` helper of `montecarlo.ts` (lines 51-58) has the same body as `percentileAt` in `percentiles.ts`. Both are modelled by `Percentiles.PercentileAt`.
- Loops that build arrays or scan values become methods with loop invariants. Each is proved against a specification function, and the lemmas are stated about that function.

## Model

| member | source | states |
|---|---|---|
| Js.Div | src/app/lib/calculations.tsx:41 | a non-zero divisor gives the quotient; a zero divisor gives a signed infinity, or NaN for 0 / 0 |
| Js.ScaleNum | src/lib/sim/montecarlo.ts:166 | scaling by a positive constant keeps infinities and NaN as they are |
| Js.Floor | src/lib/sim/percentiles.ts:11 | `Math.floor` is the largest whole number not above its argument |
| Js.Ceil | src/lib/sim/percentiles.ts:12 | `Math.ceil` is the smallest whole number not below its argument, equal to the floor exactly for a whole argument |
| Js.Round | src/lib/reportMetrics.ts:74 | `Math.round` is within half of its argument, halves rounding up |
| Js.Round2 | src/lib/reportMetrics.ts:74 | rounding to cents moves a value by at most half a cent |
| Js.Round2Num | src/app/lib/calculations.tsx:41 | rounding keeps infinities and NaN and rounds finite values to cents |
| Js.Trunc | src/lib/sim/prng.ts:6 | truncation goes towards zero |
| Js.ToUint32OfUint32 | src/lib/sim/prng.ts:6 | `>>> 0` keeps a value already in [0, 2^32) |
| Js.ToUint32 | src/lib/sim/prng.ts:6 | reference definition of `seed >>> 0` (no contract of its own): truncate towards zero, then reduce modulo 2^32; `ToUint32OfUint32` and `Prng.CongruentSeedsSameState` state its properties |
| Js.Round2Monotone | src/lib/reportMetrics.ts:74 | rounding to cents keeps the order of values |
| Seqs.SumAppend | src/lib/reportMetrics.ts:30 | the sum of two stretches is the sum of each |
| Seqs.SumPermutation | src/lib/reportMetrics.ts:30 | the sum does not depend on the order of the terms |
| Seqs.Max | src/lib/reportMetrics.ts:42 | `Math.max(...xs)` is one of the values and no value is larger |
| Seqs.Min | src/lib/reportMetrics.ts:43 | `Math.min(...xs)` is one of the values and no value is smaller |
| Seqs.SumBounds | src/lib/sim/montecarlo.ts:153-154 | terms between lo and hi give a sum between n copies of each |
| Seqs.MaxPrefixStep | src/lib/sim/montecarlo.ts:135 | one more element either raises the running maximum or leaves it |
| Sorting.InsertBy | src/lib/sim/percentiles.ts:49 | inserting keeps the sequence sorted and adds exactly the new element |
| Sorting.SortBy | src/app/analysis/page.tsx:121-131 | the sort is ordered by the key and a permutation of its input |
| Sorting.SortByStable | src/app/analysis/page.tsx:121-131 | the sort is stable: for every key value, the items with that key keep their input order |
| Sorting.SortByOfSorted | src/app/analysis/page.tsx:121-131 | input already in key order comes back unchanged |
| Sorting.InsertByWithKey | src/app/analysis/page.tsx:121-131 | an inserted item goes after every item with the same key |
| Sorting.WithKeyAppend | src/app/analysis/page.tsx:121-131 | the items of one key in `a + b` are those of `a` followed by those of `b` |
| Sorting.SortReals | src/lib/sim/montecarlo.ts:149 | the numeric sort is sorted and a permutation of its input |
| Sorting.SortedUnique | src/lib/sim/percentiles.ts:49 | two sorted arrangements of the same numbers are equal |
| Sorting.SortRealsOfSorted | src/lib/sim/montecarlo.ts:149 | sorting sorted numbers changes nothing |
| Sorting.Swap | src/lib/sim/percentiles.ts:49 | two elements of the buffer are exchanged and nothing else changes |
| Sorting.Sink | src/lib/sim/percentiles.ts:49 | one insertion step extends the sorted prefix and keeps the contents |
| Sorting.SortInPlace | src/lib/sim/percentiles.ts:49 | the in-place sort leaves the buffer sorted, a permutation, equal to the functional sort |
| JsString.Trim | src/lib/csv/tradeParser.ts:85 | `trim()` removes white space at both ends and only there |
| JsString.Lower | src/lib/csv/tradeParser.ts:79 | `toLowerCase()` maps each letter and leaves no capital |
| JsString.Upper | src/lib/csv/tradeParser.ts:140 | `toUpperCase()` maps each letter and leaves no lower-case letter |
| JsString.CollapseIsSingleSpaced | src/lib/csv/tradeParser.ts:79 | collapsing white space runs to one space leaves only single spaces |
| JsString.CollapseOfSingleSpaced | src/lib/csv/tradeParser.ts:79 | a single-spaced string is left as it is |
| JsString.Collapse | src/lib/csv/tradeParser.ts:79 | a string that starts with a non-space character keeps that first character; the full meaning of `replace(/\s+/g, repl)` is stated by `CollapseIsSingleSpaced`, `CollapseOfSingleSpaced` and `TradeParser.CollapseAfterWord` |
| JsString.RemoveSpaces | src/lib/csv/tradeParser.ts:96 | removing white space leaves none and does not touch a string without it; that every other character is kept, in order, is stated by `RemoveSpacesAppend` and `RemoveSpacesOfOne` |
| JsString.RemoveSpacesAppend | src/lib/csv/tradeParser.ts:96 | `replace(/\s+/g, "")` distributes over concatenation, so the kept characters stay in their order |
| JsString.RemoveSpacesOfOne | src/lib/csv/tradeParser.ts:96 | one character is dropped exactly when it is white space, and kept otherwise |
| JsString.ReplaceAll | src/lib/csv/tradeParser.ts:141 | every copy of the character is replaced and nothing else changes |
| JsString.RemoveAll | src/lib/csv/tradeParser.ts:103 | every copy of the character is removed |
| JsString.IndexOf | src/lib/csv/tradeParser.ts:103 | -1 exactly when the character is absent, otherwise its first position |
| JsString.LastIndexOf | src/lib/csv/tradeParser.ts:98-99 | -1 exactly when the character is absent, otherwise its last position |
| JsString.ReplaceFirst | src/lib/csv/tradeParser.ts:103 | a string pattern replaces only the first copy |
| JsString.NumberOfDigits | src/lib/csv/tradeParser.ts:107 | `Number` of a plain digit string is its value |
| JsString.NumberOfDecimal | src/lib/csv/tradeParser.ts:107 | `Number(String(n))` is n for a whole number |
| JsString.NumberOf | src/lib/csv/tradeParser.ts:107 | reference definition of `Number(s)` on strings without white space (no contract of its own): empty is 0, radix literals, signed decimals, otherwise no finite value; `NumberOfDigits`, `NumberOfDecimal`, `TradeParser.NumberOfFraction` and `TradeParser.NumberOfWord` state its values |
| Prng.ToUnit | src/lib/sim/prng.ts:13 | dividing a 32-bit unsigned value by 2^32 lands in [0, 1) |
| Prng.Mix | src/lib/sim/prng.ts:10-13 | reference definition of the mulberry32 output mix on the advanced state (no contract of its own): the `imul` and xor-shift steps on 32-bit words; `Output` states that the scaled result is in [0, 1) |
| Prng.CodeUnits | src/lib/sim/prng.ts:19-20 | a character is one UTF-16 code unit below U+10000 and a surrogate pair above, as `charCodeAt` and `length` count |
| Prng.Hash | src/lib/sim/prng.ts:17-23 | reference definition (no contract of its own): the left fold of `h = 31*h + unit` modulo 2^32 from 0; `HashSeed` proves the loop computes it and `HashAppendChar` the one-step recurrence |
| Prng.HashSeed | src/lib/sim/prng.ts:17-23 | the loop's `h` is the left fold of `(imul(31, h) + unit) >>> 0` over the string's UTF-16 code units |
| Prng.Output | src/lib/sim/prng.ts:10-13 | every output of the mulberry32 mix is in [0, 1) |
| Prng.NthOutput | src/lib/sim/prng.ts:8-14 | the value of call number k lies in [0, 1) |
| Prng.StateAfterShift | src/lib/sim/prng.ts:9 | advancing k + 1 times is advancing once by the odd constant, then k times |
| Prng.NthOutputShift | src/lib/sim/prng.ts:8-14 | after one call the generator continues with the stream of the advanced state |
| Prng.Rng.constructor | src/lib/sim/prng.ts:5-6 | the captured state is the string hash or the number taken modulo 2^32 |
| Prng.InitialState | src/lib/sim/prng.ts:6 | reference definition of the starting state (no contract of its own): `hashSeed` of a string seed, `seed >>> 0` of a number; `CongruentSeedsSameState`, `Uint32SeedIsItself` and `StringSeedIsItsHash` state its properties |
| Prng.Rng.Next | src/lib/sim/prng.ts:8-14 | the state advances by 0x6d2b79f5 modulo 2^32 and the result is the mix of the new state, in [0, 1) |
| Prng.HashAppendChar | src/lib/sim/prng.ts:19-21 | appending a character below U+10000 folds exactly one more hash step |
| Prng.CongruentSeedsSameState | src/lib/sim/prng.ts:6 | integer seeds that differ by a multiple of 2^32 start the same stream |
| Prng.Uint32SeedIsItself | src/lib/sim/prng.ts:6 | `seed >>> 0` leaves a number that already is a 32-bit unsigned value unchanged |
| Prng.StringSeedIsItsHash | src/lib/sim/prng.ts:6 | a string seed starts the same stream as the number its hash is |
| MonteCarlo.UniformRange | src/lib/sim/montecarlo.ts:47-49 | `min + r * (max - min)` lies in [min, max] for r in [0, 1), and below max when min < max |
| MonteCarlo.Uniform | src/lib/sim/montecarlo.ts:47-49 | `uniform` stays inside its interval for a draw in [0, 1) |
| MonteCarlo.DrawMultiple | src/lib/sim/montecarlo.ts:110-117 | R uses one draw, or two with fat tails on; an extreme trade takes the fixed extreme R, otherwise R is uniform in the win or loss range |
| MonteCarlo.TradeStep | src/lib/sim/montecarlo.ts:104-122 | one trade consumes two draws, or three with fat tails enabled |
| MonteCarlo.TradeFee | src/lib/sim/montecarlo.ts:104-106 | the fee of a trade is twice the fee rate on the leveraged risked amount, and nothing at a zero fee rate |
| MonteCarlo.Walk | src/lib/sim/montecarlo.ts:103-129 | a walk of n trades pushes at most n balances, and at least one when n > 0 |
| MonteCarlo.WalkAboveUntilLast | src/lib/sim/montecarlo.ts:125-128 | only the last balance of a walk can be at or below the ruin threshold |
| MonteCarlo.WalkStopsOnlyAtRuin | src/lib/sim/montecarlo.ts:125-128 | a walk that stops before its n trades ends at or below the ruin threshold |
| MonteCarlo.Repeat | src/lib/sim/montecarlo.ts:126 | n copies of a value |
| MonteCarlo.Pad | src/lib/sim/montecarlo.ts:126 | padding keeps the balances as a prefix, reaches the target length and fills with the last balance |
| MonteCarlo.PeakOf | src/lib/sim/montecarlo.ts:132-135 | the running peak is at least the latest balance |
| MonteCarlo.PeakIsPrefixMax | src/lib/sim/montecarlo.ts:132-135 | the running peak after n balances is the largest of the first n balances |
| MonteCarlo.MaxDrawdownOf | src/lib/sim/montecarlo.ts:131-138 | the maximum drawdown is never negative |
| MonteCarlo.Produced | src/lib/sim/montecarlo.ts:99-129 | a path starts at the starting balance and has at most one balance per trade plus the start |
| MonteCarlo.SimulateTrade | src/lib/sim/montecarlo.ts:104-122 | the loop body computes the balance, fee and next draw of the trade-step function |
| MonteCarlo.PadBalances | src/lib/sim/montecarlo.ts:126 | the `while ... push` loop produces the padded sequence |
| MonteCarlo.ScanDrawdown | src/lib/sim/montecarlo.ts:131-138 | the running-peak scan returns the path's maximum drawdown |
| MonteCarlo.MaxDrawdown | src/lib/sim/montecarlo.ts:131-138 | reference definition (no contract of its own): the largest running-peak drawdown over the whole path; `MaxDrawdownBound`, `PathDrawdownRange` and `RisingPathHasNoDrawdown` state its properties |
| MonteCarlo.TradeLoop | src/lib/sim/montecarlo.ts:99-129 | the trade loop with its break ends at the walk's balance, with the padded path and the walk's fees |
| MonteCarlo.WalkAdvance | src/lib/sim/montecarlo.ts:103-123 | one more trade extends the pushed balances and the fee total by that trade |
| MonteCarlo.WalkStep | src/lib/sim/montecarlo.ts:103-129 | a walk is its first trade followed by the walk from the new balance, unless that trade ruins it |
| MonteCarlo.SimulatePath | src/lib/sim/montecarlo.ts:95-146 | one iteration of the simulation loop builds the path the specification function describes |
| MonteCarlo.SimulatedPath | src/lib/sim/montecarlo.ts:99-146 | reference definition of one path record (no contract of its own): padded balances, last loop balance, summed fees, maximum drawdown, ruin flag; `PathLength`, `RuinFreezesPath`, `RuinedIffBelowThreshold` and `PathDrawdownRange` state its properties |
| MonteCarlo.PathLength | src/lib/sim/montecarlo.ts:126 | every path, ruined or not, has exactly one balance per trade plus the start |
| MonteCarlo.PathSegments | src/lib/sim/montecarlo.ts:122-128 | before its last produced balance a path stays above the ruin threshold; after it every balance equals the final one |
| MonteCarlo.RuinFreezesPath | src/lib/sim/montecarlo.ts:125-128 | from the first balance at or below the threshold on, the path does not change |
| MonteCarlo.UnruinedPathRunsAllTrades | src/lib/sim/montecarlo.ts:103-129 | a path that is not ruined ran all of its trades |
| MonteCarlo.RuinedIffBelowThreshold | src/lib/sim/montecarlo.ts:145 | with at least one trade, a path is ruined exactly when some balance after the start is at or below the threshold |
| MonteCarlo.MaxDrawdownOfBound | src/lib/sim/montecarlo.ts:133-137 | the drawdown at each balance is at most the running maximum |
| MonteCarlo.MaxDrawdownBound | src/lib/sim/montecarlo.ts:131-138 | the scan's result bounds the drawdown at every index measured from the prefix maximum |
| MonteCarlo.DrawdownAtMost100 | src/lib/sim/montecarlo.ts:136 | the drawdown never exceeds 100% while the balance stays non-negative |
| MonteCarlo.MaxDrawdownOfAtMost100 | src/lib/sim/montecarlo.ts:131-138 | the maximum drawdown of non-negative balances is at most 100% |
| MonteCarlo.NoDrawdownAtPeak | src/lib/sim/montecarlo.ts:136 | a balance at the peak has no drawdown |
| MonteCarlo.RisingPeak | src/lib/sim/montecarlo.ts:132-135 | on a non-decreasing path the running peak is the latest balance |
| MonteCarlo.RisingPathHasNoDrawdownOf | src/lib/sim/montecarlo.ts:131-138 | a non-decreasing path has no drawdown in any prefix |
| MonteCarlo.RisingPathHasNoDrawdown | src/lib/sim/montecarlo.ts:131-138 | a non-decreasing path has a maximum drawdown of 0 |
| MonteCarlo.PathDrawdownRange | src/lib/sim/montecarlo.ts:131-138 | every path's drawdown is in [0, 100] when its balances stay non-negative |
| MonteCarlo.WalkFeesZero | src/lib/sim/montecarlo.ts:104-122 | at a zero fee rate a walk pays no fees |
| MonteCarlo.ZeroFeeRate | src/lib/sim/montecarlo.ts:101-122 | without a fee rate a path pays no fees |
| MonteCarlo.ExampleFirstTrade | src/lib/sim/montecarlo.ts:104-122 | at a 100% or 0% win rate the first trade is a certain win at R = 2 or a certain loss at R = 1 |
| MonteCarlo.FirstTradeEndsPath | src/lib/sim/montecarlo.ts:99-146 | a path whose first trade is its last is the start followed by that balance |
| MonteCarlo.WinningTrade | src/lib/sim/montecarlo.ts:99-146 | a certain win risking 10% at R = 2 turns 1000 into 1200, not ruined |
| MonteCarlo.LosingTrade | src/lib/sim/montecarlo.ts:99-146 | a certain loss risking 10% at R = 1 turns 1000 into 900 |
| MonteCarlo.RuinedPathIsPadded | src/lib/sim/montecarlo.ts:125-128 | with a 95% threshold the first loss ruins a three-trade path and the rest is padded with 900 |
| MonteCarlo.FinalBalances | src/lib/sim/montecarlo.ts:149 | the final balance of each path, in path order |
| MonteCarlo.Drawdowns | src/lib/sim/montecarlo.ts:150 | the drawdown of each path, in path order |
| MonteCarlo.FeesList | src/lib/sim/montecarlo.ts:152 | the fees of each path, in path order |
| MonteCarlo.RuinCount | src/lib/sim/montecarlo.ts:151 | at most the number of paths; 0 exactly when no path is ruined and all exactly when every path is |
| MonteCarlo.Mean | src/lib/sim/montecarlo.ts:153-158 | the sum over the length, NaN for an empty list |
| MonteCarlo.MinusNum | src/lib/sim/montecarlo.ts:171 | subtracting a finite number keeps NaN as NaN and finite values finite |
| MonteCarlo.ShareAtMostOne | src/lib/sim/montecarlo.ts:166 | a count over a larger positive total is a share in [0, 1] |
| MonteCarlo.Finals | src/lib/sim/montecarlo.ts:149 | the final balances sorted ascending, a permutation of them |
| MonteCarlo.RuinProbability | src/lib/sim/montecarlo.ts:166 | the ruined share in percent lies in [0, 100] for a non-empty batch; NaN for zero simulations |
| MonteCarlo.SummaryOrdered | src/lib/sim/montecarlo.ts:160-172 | worst <= p5 <= median <= p95 <= best for a non-empty batch |
| MonteCarlo.Summarize | src/lib/sim/montecarlo.ts:149-172 | reference definition of the summary record (no contract of its own); `SummaryOrdered`, `SummaryMean`, `SummaryOfNoPaths` and `MeanBetweenExtremes` state its properties |
| MonteCarlo.SummaryMean | src/lib/sim/montecarlo.ts:153-171 | the mean final balance of a non-empty batch is finite and the average PnL is it less the start |
| MonteCarlo.MeanBetweenExtremes | src/lib/sim/montecarlo.ts:153-168 | the mean final balance lies between the worst and the best |
| MonteCarlo.SummaryOfNoPaths | src/lib/sim/montecarlo.ts:153-172 | an empty batch has NaN means and zero order statistics |
| MonteCarlo.SeededDrawsIgnoreAmbient | src/lib/sim/montecarlo.ts:95-97 | a seeded run does not depend on `Math.random` |
| MonteCarlo.SimSeed | src/lib/sim/montecarlo.ts:96 | reference definition of the per-simulation seed (no contract of its own): `seedValue + sim` for a number, `${seedValue}-${sim}` for a string; `SimSeedsDistinct` states that simulations get different seeds |
| MonteCarlo.SimSeedsDistinct | src/lib/sim/montecarlo.ts:96 | two different simulation indices give two different seeds, for numeric and for string seeds |
| MonteCarlo.DecimalInjective | src/lib/sim/montecarlo.ts:96 | `String(n)` gives different text for different whole numbers |
| MonteCarlo.Draws | src/lib/sim/montecarlo.ts:95-97 | reference definition of the draws of one simulation (no contract of its own): the stream of its seed when seeded, the caller's source otherwise; `SeededDrawsIgnoreAmbient` states that a seeded run ignores the caller's source |
| MonteCarlo.RunMonteCarlo | src/lib/sim/montecarlo.ts:60-175 | one path per simulation, each the simulated path of its own draws, and the summary of those paths |
| Percentiles.RankBounds | src/lib/sim/percentiles.ts:10 | the fractional rank of a percentile in [0, 100] lies in [0, n - 1] |
| Percentiles.Lo | src/lib/sim/percentiles.ts:11 | `Math.floor` of the rank is a valid index |
| Percentiles.Hi | src/lib/sim/percentiles.ts:12-13 | `Math.ceil` of the rank is a valid index equal to the floor or one above it, equal exactly when the rank is integral |
| Percentiles.PercentileAt | src/lib/sim/percentiles.ts:8-15 | 0 for no values |
| Percentiles.IntegralRankExact | src/lib/sim/percentiles.ts:13 | at an integral rank k the percentile is exactly the k-th value |
| Percentiles.ExtremePercentiles | src/lib/sim/percentiles.ts:8-15 | the 0th percentile of sorted values is their minimum and the 100th their maximum |
| Percentiles.Between | src/lib/sim/percentiles.ts:14 | on sorted input the interpolated value lies between its two neighbours |
| Percentiles.WithinRange | src/lib/sim/percentiles.ts:8-15 | on sorted input every percentile lies between the first and last value |
| Percentiles.RankMonotone | src/lib/sim/percentiles.ts:10 | the rank grows with the percentile |
| Percentiles.Monotone | src/lib/sim/percentiles.ts:8-15 | on sorted input the percentile does not decrease as p grows |
| Percentiles.OfConstant | src/lib/sim/percentiles.ts:8-15 | equal values have that value at every percentile |
| Percentiles.Column | src/lib/sim/percentiles.ts:46-48 | one value per path for a day, 0 where a path is too short |
| Percentiles.Band | src/lib/sim/percentiles.ts:45-52 | one band value per day |
| Percentiles.MeanSeries | src/lib/sim/percentiles.ts:53 | one mean per day |
| Percentiles.Indices | src/lib/sim/percentiles.ts:35 | the x axis is 0, 1, ..., numDays - 1 |
| Percentiles.Zeros | src/lib/sim/percentiles.ts:56 | the fallback centre line is all zeros |
| Percentiles.Bands | src/lib/sim/percentiles.ts:38-52 | one band per requested percentile, keyed by it, each the percentile of every day's sorted column |
| Percentiles.FillRow | src/lib/sim/percentiles.ts:46-48 | the reused row buffer holds day j of every path |
| Percentiles.GridRow | src/lib/sim/percentiles.ts:40 | a stored band row has one entry per day |
| Percentiles.WriteBands | src/lib/sim/percentiles.ts:50-52 | day j of every band is the percentile of the sorted row and no other day changes |
| Percentiles.DayStats | src/lib/sim/percentiles.ts:46-53 | one iteration of the day loop writes day j of every band and of the mean series and nothing else |
| Percentiles.FillGrid | src/lib/sim/percentiles.ts:45-54 | after the day loop every band and mean entry is the reference value of its day |
| Percentiles.CollectBands | src/lib/sim/percentiles.ts:38-41 | the grid rows become the record of bands keyed by percentile |
| Percentiles.ComputeFanSeries | src/lib/sim/percentiles.ts:24-58 | the in-place computation returns the fan series the reference functions describe |
| Percentiles.FanSeries | src/lib/sim/percentiles.ts:24-58 | reference definition of the fan record (requires percentages in [0, 100], no contract of its own); `FanShape`, `CenterLine`, `IdenticalPaths` and `ComputeFanSeries` state its properties |
| Percentiles.ComputeFanSeriesLegacy | src/lib/sim/percentiles.ts:70-80 | the legacy record is the 5th, 25th, 50th, 75th and 95th bands and the centre line |
| Percentiles.FanShape | src/lib/sim/percentiles.ts:28-57 | every band and the mean series have one entry per day, and an empty batch gives empty series |
| Percentiles.CenterLine | src/lib/sim/percentiles.ts:56 | the centre line is the 50th band when requested and zeros otherwise |
| Percentiles.BandsOrdered | src/lib/sim/percentiles.ts:49-52 | bands are ordered like their percentiles, day by day |
| Percentiles.ColumnOfIdentical | src/lib/sim/percentiles.ts:46-48 | a day of identical paths is that path's value repeated |
| Percentiles.BandOfIdentical | src/lib/sim/percentiles.ts:45-52 | every band of identical paths is that path |
| Percentiles.MeanOfIdentical | src/lib/sim/percentiles.ts:53 | the mean series of identical paths is that path |
| Percentiles.IdenticalPaths | src/lib/sim/percentiles.ts:24-58 | for identical paths every requested band and the mean series are that path |
| SamplePaths.FindFrom | src/lib/sim/samplePaths.ts:18-22 | the search returns -1 or an index at or after its start |
| SamplePaths.FindFromIsFirst | src/lib/sim/samplePaths.ts:18-22 | the search finds the first path equal to the highlight (same length, same values), and -1 only when there is none |
| SamplePaths.ExcludeIndex | src/lib/sim/samplePaths.ts:16-23 | `excludeIdx` is -1 or a valid path index |
| SamplePaths.PoolOf | src/lib/sim/samplePaths.ts:25-28 | the pool has n - 1 entries when the excluded index is valid and n otherwise, each below n and not the excluded one |
| SamplePaths.Pool | src/lib/sim/samplePaths.ts:16-28 | reference definition of the pool of a call (no contract of its own); `PoolLeavesOutFirstMatch`, `PoolHasAllOthers` and `PoolIsDistinct` state its properties |
| SamplePaths.PoolHasAllOthers | src/lib/sim/samplePaths.ts:25-28 | every index below n except the excluded one is in the pool |
| SamplePaths.PoolIsDistinct | src/lib/sim/samplePaths.ts:25-28 | the pool holds each index once |
| SamplePaths.BuildPool | src/lib/sim/samplePaths.ts:25-28 | the pool loop pushes exactly the indices other than `excludeIdx`, in order |
| SamplePaths.PickInRange | src/lib/sim/samplePaths.ts:36 | a draw in [0, 1) picks an index in [k, length) |
| SamplePaths.Swapped | src/lib/sim/samplePaths.ts:37 | the swap only rearranges the pool |
| SamplePaths.ShuffledIsPermutation | src/lib/sim/samplePaths.ts:35-38 | the swap loop keeps the pool's length and is a permutation of it |
| SamplePaths.SwappedIsDistinct | src/lib/sim/samplePaths.ts:37 | a swap keeps distinct indices distinct |
| SamplePaths.ShuffledIsDistinct | src/lib/sim/samplePaths.ts:35-38 | the swap loop keeps the pool's indices distinct |
| SamplePaths.Taken | src/lib/sim/samplePaths.ts:30-33 | `need` never exceeds the pool |
| SamplePaths.Need | src/lib/sim/samplePaths.ts:30-33 | `need` is the smaller of the pool length and the requested size less one for a highlight: at most each and equal to one of them |
| SamplePaths.PermutationBounded | src/lib/sim/samplePaths.ts:35-42 | a rearranged pool still holds only valid indices other than the highlight's |
| SamplePaths.Picked | src/lib/sim/samplePaths.ts:35-42 | the indices taken are `need` many, distinct, valid and never the highlight's match |
| SamplePaths.Gather | src/lib/sim/samplePaths.ts:42 | one path per picked index |
| SamplePaths.ShuffledStep | src/lib/sim/samplePaths.ts:36-37 | one step of the swap loop swaps position k with a pick in [k, length) |
| SamplePaths.Shuffled | src/lib/sim/samplePaths.ts:35-38 | reference definition of the swap loop from step k to `need` (requires draws in [0, 1), no contract of its own); `ShuffledIsPermutation`, `ShuffledIsDistinct` and `ShuffleInPlace` state its properties |
| SamplePaths.ShuffleInPlace | src/lib/sim/samplePaths.ts:35-38 | the in-place swap loop on the pool array yields the shuffled pool |
| SamplePaths.PushPicked | src/lib/sim/samplePaths.ts:40-42 | the result is the highlight, if any, followed by the paths at the first `need` pool entries |
| SamplePaths.MakePool | src/lib/sim/samplePaths.ts:16-28 | a fresh array holding the pool |
| SamplePaths.SamplePaths | src/lib/sim/samplePaths.ts:5-44 | the method returns the reference sample, early returns included |
| SamplePaths.Sample | src/lib/sim/samplePaths.ts:5-44 | reference definition of the sample (requires draws in [0, 1), no contract of its own); `NoPaths`, `SmallBatchIsCopied`, `HighlightLeads`, `SampleLength` and `SampleElements` state its properties |
| SamplePaths.ShuffleAndCollect | src/lib/sim/samplePaths.ts:25-43 | after the early returns the result is the highlight followed by the picked paths |
| SamplePaths.NoPaths | src/lib/sim/samplePaths.ts:10 | an empty batch gives an empty sample |
| SamplePaths.SmallBatchIsCopied | src/lib/sim/samplePaths.ts:11 | without a highlight a batch no larger than the sample size is returned whole |
| SamplePaths.PoolLeavesOutFirstMatch | src/lib/sim/samplePaths.ts:16-28 | the pool leaves out exactly the first path equal to the highlight, and nothing when none matches |
| SamplePaths.HighlightLeads | src/lib/sim/samplePaths.ts:41 | with a highlight, a sample of a non-empty batch starts with it |
| SamplePaths.SampleLength | src/lib/sim/samplePaths.ts:30-42 | a shuffled sample has the highlight, if any, and `need` other paths |
| SamplePaths.SampleElements | src/lib/sim/samplePaths.ts:41-42 | after the highlight come the picked paths, in the order they were picked |
| SamplePaths.LargeBatchYieldsSampleSize | src/lib/sim/samplePaths.ts:30-42 | without a highlight a batch larger than the sample size yields exactly that many paths |
| SimulationsPage.OrDefault | src/app/simulations/page.tsx:87-102 | `Number(x) \|\| d` is d or the input; a non-zero input is kept, and a non-zero default never gives 0 |
| SimulationsPage.Clamp | src/app/simulations/page.tsx:48-51 | NaN gives min; the result lies in [min, max]; an input already in range is kept |
| SimulationsPage.Count | src/app/simulations/page.tsx:88-90 | a whole count in [1, limit], equal to the input when that already is such a count |
| SimulationsPage.SeedOf | src/app/simulations/page.tsx:103-107 | 12345 without a seed; a numeric seed is kept; an empty string seed becomes "12345" |
| SimulationsPage.ValidatedParams | src/app/simulations/page.tsx:84-109 | every field is forced into the range the engine expects; the switches are kept |
| SimulationsPage.ValidParamsAreKept | src/app/simulations/page.tsx:84-109 | parameters already in range pass validation unchanged |
| SimulationsPage.ValidationIsIdempotent | src/app/simulations/page.tsx:84-109 | validating twice is validating once |
| SimulationsPage.DefaultsAreValid | src/app/simulations/page.tsx:26-46 | the default parameters pass validation unchanged |
| SimulationsPage.DailyRow | src/app/simulations/page.tsx:140-145 | a row has `days + 1` entries |
| SimulationsPage.DailyPaths | src/app/simulations/page.tsx:134-149 | no rows before a run, and one row per path after |
| SimulationsPage.ResampleRow | src/app/simulations/page.tsx:140-145 | the inner loop builds the daily row |
| SimulationsPage.ComputeDailyPaths | src/app/simulations/page.tsx:134-149 | the nested loops build the daily paths |
| SimulationsPage.MulMonotone | src/app/simulations/page.tsx:143 | the index of an earlier day is no larger than that of the last day |
| SimulationsPage.DailyRowOfSimulatedPath | src/app/simulations/page.tsx:140-145 | on a simulated path day d holds the balance after d * tradesPerDay trades; the row starts at the starting balance and ends at the final balance |
| SimulationsPage.FanOf | src/app/simulations/page.tsx:156-159 | a fan exists exactly when there are daily paths |
| SimulationsPage.FanChart | src/app/simulations/page.tsx:161-171 | the chart keeps the fan's axis and bands; its centre line is the mean series labelled "Mean" or the median labelled "Median" |
| SimulationsPage.SpaghettiSize | src/app/simulations/page.tsx:194 | the sample size is a whole number in [50, 1000], the input itself when it already is one |
| SimulationsPage.SpaghettiPaths | src/app/simulations/page.tsx:192-202 | reference definition of the spaghetti sample (no contract of its own): empty off the spaghetti tab or without paths, else the sample of the daily paths led by the centre line; `SpaghettiLeadsWithCenterLine` states its lead |
| SimulationsPage.SpaghettiLeadsWithCenterLine | src/app/simulations/page.tsx:192-202 | with the highlight on, the first spaghetti line is the fan's centre line |
| SimulationsPage.Padded | src/app/simulations/page.tsx:184-189 | the window is non-empty and not below 0, holds [max(0, lo), hi], and pads by exactly 2% of the span when that stays above 0 |
| SimulationsPage.FanYRange | src/app/simulations/page.tsx:173-190 | a window exists exactly with a fan and auto-zoom on, and it is non-empty and not below 0 |
| SimulationsPage.FanBounds | src/app/simulations/page.tsx:176-183 | reference definition of `lo`/`hi` (no contract of its own): min of the 1st and max of the 99th band with outliers, else of the 5th and 95th, 0 for a missing band; `BoundsAround` and `FanWindowCoversBands` state that the window covers the bands in between |
| SimulationsPage.FanOfDailyPathsHasDays | src/app/simulations/page.tsx:156-159 | every band of the fan of non-empty daily paths has at least one day |
| SimulationsPage.DefaultBandKeys | src/app/simulations/page.tsx:176-182 | the default fan has the 1st, 5th, 95th and 99th bands the bounds read |
| SimulationsPage.BoundsAround | src/app/simulations/page.tsx:176-189 | the window holds any band value lying between the two bands the bounds come from |
| SimulationsPage.FanWindowCoversBands | src/app/simulations/page.tsx:173-190 | on every day, the fan window holds every band between the 1st and 99th (with outliers) or 5th and 95th, clipped below at 0 |
| SimulationsPage.Flatten | src/app/simulations/page.tsx:207 | no paths give no values |
| SimulationsPage.FlattenEmpty | src/app/simulations/page.tsx:207-208 | the collected values are empty exactly when every sampled path is empty |
| SimulationsPage.SpaghettiYRange | src/app/simulations/page.tsx:204-218 | a window exists exactly with auto-zoom on and some value drawn, and it is non-empty and not below 0 |
| SimulationsPage.SpaghettiWindowCoversMiddle | src/app/simulations/page.tsx:209-217 | the window holds every non-negative value between the 5th and 95th percentile of the drawn values |
| SimulationsPage.CollectValues | src/app/simulations/page.tsx:206-207 | the push loop collects every value of every path, in order |
| SimulationsPage.ComputeSpaghettiYRange | src/app/simulations/page.tsx:204-218 | collecting, sorting in place and padding gives the reference window |
| SimulationsPage.Scaled | src/app/simulations/page.tsx:226 | one scaled value per value |
| SimulationsPage.ScaledRoundTrip | src/app/simulations/page.tsx:226 | multiplying a scaled value back by the scale gives the original |
| SimulationsPage.ScaledBands | src/app/simulations/page.tsx:227-231 | the same percentile keys, each band scaled |
| SimulationsPage.ChartFan | src/app/simulations/page.tsx:222-238 | absolute mode passes the fan through; multiple mode keeps axis and label and scales bands and centre line |
| SimulationsPage.ChartSpaghetti | src/app/simulations/page.tsx:240-244 | absolute mode passes the paths through; multiple mode scales each path |
| SimulationsPage.ChartFanKeepsDays | src/app/simulations/page.tsx:222-238 | scaling keeps every band non-empty |
| SimulationsPage.MultiplesStartAtOne | src/app/simulations/page.tsx:240-244 | shown as multiples, every daily path of a validated run starts at 1 |
| TradeParser.NormalizeHeader | src/lib/csv/tradeParser.ts:78-81 | a known alias maps to a canonical column; any other header is its trimmed, lower-cased, single-spaced key |
| TradeParser.HeaderKey | src/lib/csv/tradeParser.ts:79 | reference definition of the trimmed, lower-cased, single-spaced header (no contract of its own); `HeaderKeyIsNormal`, `HeaderKeyOfNormal` and `EntryPriceKey` state its properties |
| TradeParser.HeaderKeyIsNormal | src/lib/csv/tradeParser.ts:79 | every header key is trimmed, free of capitals and single-spaced |
| TradeParser.HeaderKeyOfNormal | src/lib/csv/tradeParser.ts:79 | a key already in that form is its own header key |
| TradeParser.CanonicalColumnsAreSnakeCase | src/lib/csv/tradeParser.ts:5-28 | every canonical column is lower-case letters and underscores |
| TradeParser.CanonicalColumnsAreKeys | src/lib/csv/tradeParser.ts:5-28 | every canonical column is an alias of itself |
| TradeParser.CanonicalColumnsAreFixed | src/lib/csv/tradeParser.ts:5-28 | every canonical column maps to itself and is its own header key |
| TradeParser.NormalizeHeaderIdempotent | src/lib/csv/tradeParser.ts:78-81 | normalising a header twice changes nothing |
| TradeParser.CollapseAfterWord | src/lib/csv/tradeParser.ts:79 | `replace(/\s+/g, ...)` passes over a stretch without white space unchanged |
| TradeParser.CollapseOfTwoWords | src/lib/csv/tradeParser.ts:79 | the single space between two words becomes the replacement |
| TradeParser.EntryPriceHeader | src/lib/csv/tradeParser.ts:10 | the header "Entry Price" names the `entry_price` column |
| TradeParser.NormalizeTypeRoundTrip | src/lib/csv/tradeParser.ts:119-124 | the canonical spelling of a type is read back as that type |
| TradeParser.NormalizeType | src/lib/csv/tradeParser.ts:119-124 | reference definition of the type aliases (no contract of its own); `NormalizeTypeRoundTrip`, `NormalizeTypeIgnoresCase`, `NormalizeTypeBuy`, `NormalizeTypeMinusOne` and `NormalizeTypeHold` state its properties |
| TradeParser.NormalizeTypeIgnoresCase | src/lib/csv/tradeParser.ts:120 | letter case does not matter to the type column |
| TradeParser.NormalizeTypeBuy | src/lib/csv/tradeParser.ts:121 | "BUY" is a long trade |
| TradeParser.NormalizeTypeMinusOne | src/lib/csv/tradeParser.ts:122 | "-1" is a short trade |
| TradeParser.NormalizeTypeHold | src/lib/csv/tradeParser.ts:123 | "hold" is no trade type |
| TradeParser.NormalizeMarket | src/lib/csv/tradeParser.ts:130-133 | a market is returned exactly when the lower-cased, trimmed, underscored key is an alias |
| TradeParser.MarketKey | src/lib/csv/tradeParser.ts:131 | reference definition of the lower-cased, trimmed, underscored market key (no contract of its own); `MarketKeyOfPlain` and `NormalizeMarketUnderscores` state its properties |
| TradeParser.MarketKeyOfPlain | src/lib/csv/tradeParser.ts:131 | a word without capitals or white space is its own market key |
| TradeParser.MarketNamesAreAliases | src/lib/csv/tradeParser.ts:46-50 | each canonical market name is an alias of that market |
| TradeParser.NormalizeMarketRoundTrip | src/lib/csv/tradeParser.ts:130-133 | the canonical spelling of a market is read back as that market |
| TradeParser.CollapseOfNoSpace | src/lib/csv/tradeParser.ts:131 | a string without white space is not changed by the replacement |
| TradeParser.NormalizeMarketIgnoresCase | src/lib/csv/tradeParser.ts:131 | letter case does not matter to the market column |
| TradeParser.NormalizeMarketUnderscores | src/lib/csv/tradeParser.ts:131-132 | inner white space becomes an underscore: "CFD FX" is forex |
| TradeParser.NormalizeSymbol | src/lib/csv/tradeParser.ts:139-142 | the symbol has no white space, no hyphen and no lower-case letter |
| TradeParser.NormalizeSymbolIdempotent | src/lib/csv/tradeParser.ts:139-142 | normalising a symbol twice changes nothing |
| TradeParser.InferMarket | src/lib/csv/tradeParser.ts:149-168 | forex exactly for a fiat pair; crypto exactly for a non-fiat symbol holding a quote token or starting with a base ticker; stocks otherwise |
| TradeParser.InferMarketIgnoresCase | src/lib/csv/tradeParser.ts:150 | letter case does not matter to market inference |
| TradeParser.SixLetters | src/lib/csv/tradeParser.ts:155-159 | a six-letter symbol without a slash is a fiat pair exactly when both halves are fiat codes |
| TradeParser.InferSixLetterPair | src/lib/csv/tradeParser.ts:155-159 | a six-letter pair of fiat codes is forex |
| TradeParser.InferBaseTicker | src/lib/csv/tradeParser.ts:163-166 | a symbol starting with a base ticker, and not six letters long, is crypto |
| TradeParser.InferOther | src/lib/csv/tradeParser.ts:160-167 | a symbol with no slash, no quote token and no base ticker, not six letters long, is a stock |
| TradeParser.InferEurUsd | src/lib/csv/tradeParser.ts:155-159 | EURUSD is forex |
| TradeParser.InferBtcUsdt | src/lib/csv/tradeParser.ts:149-168 | btcusdt is crypto |
| TradeParser.InferAapl | src/lib/csv/tradeParser.ts:149-168 | AAPL is a stock |
| TradeParser.DecimalPoint | src/lib/csv/tradeParser.ts:98-106 | a value without a comma is left as it is |
| TradeParser.ParseNumberSafe | src/lib/csv/tradeParser.ts:94-109 | null for a missing or empty value |
| TradeParser.DecimalPointDotLast | src/lib/csv/tradeParser.ts:100-103 | when the dot comes last every comma is dropped |
| TradeParser.DecimalPointCommaLast | src/lib/csv/tradeParser.ts:100-103 | when the comma comes last every dot is dropped and the first comma becomes a dot |
| TradeParser.DecimalPointUS | src/lib/csv/tradeParser.ts:100-103 | `a,b.c` is read as `ab.c` |
| TradeParser.DecimalPointEU | src/lib/csv/tradeParser.ts:100-103 | `a.b,c` is read as `ab.c` |
| TradeParser.DecimalPointComma | src/lib/csv/tradeParser.ts:104-106 | a lone comma is a decimal comma |
| TradeParser.NumberOfFraction | src/lib/csv/tradeParser.ts:107 | `Number("a.c")` of digit strings is the digits' value over 10^\|c\| |
| TradeParser.ParseNumberSafeGrouped | src/lib/csv/tradeParser.ts:94-109 | a grouped number with a decimal part, US or European, reads as the same value |
| TradeParser.ParseNumberSafeUS | src/lib/csv/tradeParser.ts:98-107 | `a,b.c` (comma before the last dot) drops the grouping comma and reads the digits of `a b c` over 10^\|c\| |
| TradeParser.ParseNumberSafeEU | src/lib/csv/tradeParser.ts:98-107 | `a.b,c` (dot before the last comma) drops the grouping dot, reads the comma as the decimal point, and gives the same value as the US spelling |
| TradeParser.ParseNumberSafeDecimalComma | src/lib/csv/tradeParser.ts:94-109 | `a,c` reads as `a.c` |
| TradeParser.ParseNumberSafeOneComma5 | src/lib/csv/tradeParser.ts:94-109 | "1,5" is 1.5 |
| TradeParser.NumberOfWord | src/lib/csv/tradeParser.ts:107-108 | `Number` reads nothing that starts with a letter as a finite number |
| TradeParser.DecimalPointKeepsHead | src/lib/csv/tradeParser.ts:98-106 | the separator handling leaves a first character that is no separator in place |
| TradeParser.ParseNumberSafeOfWord | src/lib/csv/tradeParser.ts:94-109 | a value starting with a letter is null |
| TradeParser.ParseNumberSafeRejects | src/lib/csv/tradeParser.ts:94-109 | "" and "abc" are null |
| TradeParser.ParseNumberSafeOfDecimal | src/lib/csv/tradeParser.ts:94-109 | a whole number written in decimal reads back as itself |
| TradeParser.ValidateRow | src/lib/csv/tradeParser.ts:180-188 | no error exactly for a non-blank symbol and positive prices and quantity; "Missing symbol" exactly for a blank symbol |
| TradeParser.GoodRowIsValid | src/lib/csv/tradeParser.ts:180-188 | with the market read from own alias keys, every row the loop can build passes validation |
| TradeParser.TrimVal | src/lib/csv/tradeParser.ts:83-86 | the value has no leading or trailing white space |
| TradeParser.Required | src/lib/csv/tradeParser.ts:269-300 | a required amount is accepted exactly when it parses to a positive number, and is that number |
| TradeParser.Optional | src/lib/csv/tradeParser.ts:302-321 | a blank optional amount is 0 |
| TradeParser.BuildRow | src/lib/csv/tradeParser.ts:244-338 | a built row is good, its symbol is the normalised symbol, its market the column's or the inferred one, and blank optional amounts are 0 |
| TradeParser.RowMarket | src/lib/csv/tradeParser.ts:267 | reference definition of the row's market with own-key alias lookup (no contract of its own): the market column when it names a market, else the symbol's inferred market; `RowMarketAsWrittenAgrees` relates it to the source's lookup |
| TradeParser.RowMarketAsWritten | src/lib/csv/tradeParser.ts:267 | reference definition of the same expression with the plain-object lookup, inherited members included (no contract of its own); `ConstructorMarketAsWritten` and `RowMarketAsWrittenAgrees` state where it differs |
| TradeParser.ParseDate | src/lib/csv/tradeParser.ts:170-175 | reference definition (no contract of its own): a blank date is no date, anything else is what the injected date conversion returns |
| TradeParser.BuildPriced | src/lib/csv/tradeParser.ts:269-300 | a row built past the required amounts is good and keeps symbol and market |
| TradeParser.BuildCosted | src/lib/csv/tradeParser.ts:302-338 | a row built past the optional amounts is good, keeps symbol and market, and has blank amounts at 0 |
| TradeParser.RowResultOf | src/lib/csv/tradeParser.ts:244-347 | record i is reported at line i + 2, an invalid one with its raw record, and it is valid exactly when it was built and validated |
| TradeParser.RowResultValidIffBuilt | src/lib/csv/tradeParser.ts:340-346 | with the market read from own alias keys, `validateRow` never rejects a row the loop built, so a record is valid exactly when it was built |
| TradeParser.RowResults | src/lib/csv/tradeParser.ts:244-348 | one result per record |
| TradeParser.RowResultsAt | src/lib/csv/tradeParser.ts:244-348 | result i is the loop's pass over record i |
| TradeParser.ValidPlusInvalid | src/lib/csv/tradeParser.ts:347-354 | every result counts once, as a valid row or as an invalid one |
| TradeParser.ValidRowsAppend | src/lib/csv/tradeParser.ts:347 | the valid rows of two stretches are those of each, in order |
| TradeParser.ValidRowsInOrder | src/lib/csv/tradeParser.ts:346-347 | the valid rows keep the order of the records |
| TradeParser.ValidRowsAreGood | src/lib/csv/tradeParser.ts:346-347 | every valid row comes from a valid result |
| TradeParser.ParseOf | src/lib/csv/tradeParser.ts:204-355 | failure exactly for a parse error or missing required columns, with an error and no rows; success gives one result per record and valid plus invalid equals all results |
| TradeParser.ParsedRows | src/lib/csv/tradeParser.ts:244-355 | each record's result is numbered from line 2 and every valid row is good |
| TradeParser.ParseTradesCsv | src/lib/csv/tradeParser.ts:194-356 | the method returns the reference parse result |
| TradeParser.RowLoop | src/lib/csv/tradeParser.ts:244-348 | the row loop yields one result per record and collects the valid rows alongside |
| TradeParser.RowResultsStep | src/lib/csv/tradeParser.ts:244-348 | one more record adds its own result |
| TradeParser.ValidRowsStep | src/lib/csv/tradeParser.ts:346-347 | a valid result adds its row |
| TradeParser.MarketLookupAsWritten | src/lib/csv/tradeParser.ts:130-133 | an own key of the alias object gives the same market as the corrected lookup |
| TradeParser.MarketCheckAsWritten | src/lib/csv/tradeParser.ts:183 | only the three canonical markets pass the market check |
| TradeParser.MarketLookupAgrees | src/lib/csv/tradeParser.ts:130-133 | the plain-object lookup equals the own-key lookup on every market text whose key is not `constructor` or `__proto__`, and yields the inherited member on those two |
| TradeParser.RowMarketAsWrittenAgrees | src/lib/csv/tradeParser.ts:267 | the row's market as written equals the loop's `RowMarket` unless the market key names an inherited member, in which case the market check of line 183 rejects the row |
| TradeParser.ConstructorMarketAsWritten | src/lib/csv/tradeParser.ts:267 | a market column reading "Constructor" yields the inherited `Object` constructor, and the market check rejects the row |
| TradeParser.ConstructorMarketCorrected | src/lib/csv/tradeParser.ts:267 | with own keys only, the same row falls back to the symbol and is crypto |
| Trades.Pnls | src/lib/reportMetrics.ts:41 | one profit per trade, in order |
| Trades.PnlsAppend | src/lib/reportMetrics.ts:41 | the profits of two stretches of trades are those of each, in order |
| Trades.ByDate | src/lib/reportMetrics.ts:64-66 | the sort by date is a permutation of the trades, in non-decreasing time |
| Trades.ByDateStable | src/lib/reportMetrics.ts:64-66 | trades with equal dates keep their input order, as the language's stable sort keeps them |
| Trades.PnlsWithout | src/lib/reportMetrics.ts:41 | taking one trade out takes its profit out of the profits |
| Trades.PnlsPermutation | src/lib/reportMetrics.ts:64-70 | reordering trades reorders their profits the same way |
| Trades.MonthsOf | src/app/analysis/page.tsx:115-120 | one month key per trade, in order |
| Trades.DaysOf | src/app/calendar/page.tsx:26-46 | one day key per trade, in order |
| Trades.DistinctAppend | src/app/analysis/page.tsx:115-120 | a new key is listed last; a known key changes nothing |
| Trades.DistinctFacts | src/app/analysis/page.tsx:115-120 | each key is listed once, and the keys listed are exactly those given |
| Trades.DistinctCount | src/app/calendar/page.tsx:149-153 | there are as many keys as different values given |
| ReportMetrics.Gains | src/lib/reportMetrics.ts:31-34 | exactly the positive profits: each positive value as often as in the input, no other value |
| ReportMetrics.ComputeReportMetrics | src/lib/reportMetrics.ts:28-58 | reference definition of the metrics record (no contract of its own); `MetricsCounts`, `MetricsGross`, `MetricsProfitFactor`, `MetricsExpectancy` and `MetricsExtremes` state its properties |
| ReportMetrics.Losses | src/lib/reportMetrics.ts:32-36 | exactly the negative profits: each negative value as often as in the input, no other value |
| ReportMetrics.GainsAndLossesCount | src/lib/reportMetrics.ts:31-32 | gains and losses together are at most all trades, and all of them exactly when no profit is 0 |
| ReportMetrics.GainsPlusLosses | src/lib/reportMetrics.ts:30-37 | the gains and the losses add up to the net profit |
| ReportMetrics.RawProfitFactor | src/lib/reportMetrics.ts:38-39 | the ratio when there is a loss; without one, Infinity exactly when there is a profit and 0 otherwise |
| ReportMetrics.MetricsCounts | src/lib/reportMetrics.ts:29-33 | wins plus losses are at most the trades, all of them exactly when no profit is 0; the win rate is the percentage of wins, 0 without trades |
| ReportMetrics.WinRateRange | src/lib/reportMetrics.ts:33 | the win rate lies in [0, 100] |
| ReportMetrics.MetricsGross | src/lib/reportMetrics.ts:30-37 | gross profit and loss are not negative and differ by the net profit, the sum of all profits |
| ReportMetrics.MetricsProfitFactor | src/lib/reportMetrics.ts:38-53 | the factor is the ratio when there is a loss, and 0 otherwise |
| ReportMetrics.MetricsExpectancy | src/lib/reportMetrics.ts:40 | the expectancy added once per trade gives the net profit, 0 without trades |
| ReportMetrics.ExpectancyTimes | src/lib/reportMetrics.ts:40 | the average `net / total`, added `total` times, gives back `net`; 0 for no trades |
| ReportMetrics.MetricsExtremes | src/lib/reportMetrics.ts:41-43 | best and worst are the largest and smallest profits, attained by some trade, 0 without trades |
| ReportMetrics.CumulativeSeries | src/lib/reportMetrics.ts:63-82 | one point per trade |
| ReportMetrics.ComputeCumulativeSeries | src/lib/reportMetrics.ts:63-82 | the method returns the reference series |
| ReportMetrics.Accumulate | src/lib/reportMetrics.ts:67-81 | point k is the rounded sum of the first k + 1 profits in date order |
| ReportMetrics.CumulativeSeriesInOrder | src/lib/reportMetrics.ts:64-66 | the series runs in date order |
| ReportMetrics.CumulativeSeriesEnds | src/lib/reportMetrics.ts:63-82 | the last point is the rounded net profit of all trades |
| ReportMetrics.CumulativeSeriesRises | src/lib/reportMetrics.ts:63-82 | when no trade loses, the series never falls |
| Calculations.CalculateCryptoFees | src/app/lib/calculations.tsx:8-20 | nothing for a non-positive entry price or size; otherwise the fee rate on the size plus the fee rate on the exit value of `qty / entry` coins |
| Calculations.EntryValue | src/app/lib/calculations.tsx:15-17 | `qty / entry` coins bought at `entry` cost `qty` |
| Calculations.CryptoFeesAtEntry | src/app/lib/calculations.tsx:8-20 | closing at the entry price costs the fee rate twice on the size |
| Calculations.CryptoFeesNonNegative | src/app/lib/calculations.tsx:8-20 | fees are never negative for a non-negative rate and exit price |
| Calculations.GrossMirror | src/app/lib/calculations.tsx:35-38 | a short position gains exactly what the long one loses |
| Calculations.GrossSign | src/app/lib/calculations.tsx:35-38 | for a positive amount a long gains exactly when the price rises and a short exactly when it falls |
| Calculations.CalculatePnL | src/app/lib/calculations.tsx:22-44 | the PnL is the gross less fees within half a cent; the percentage is 0 for a non-positive size, the rounded share of the entry value otherwise, and not finite at a zero entry value |
| Calculations.PnLAtEntry | src/app/lib/calculations.tsx:22-44 | closing at the entry price without fees makes nothing |
| Calculations.CalculateCryptoPnL | src/app/lib/calculations.tsx:53-77 | zeros for a non-positive entry; the percentage is finite, 0 for a non-positive margin and the rounded share of the margin otherwise |
| Calculations.CryptoPnLIsCoinPnL | src/app/lib/calculations.tsx:68-74 | the crypto PnL is the plain PnL of `qty / entry` coins |
| Calculations.CryptoPnLAtEntry | src/app/lib/calculations.tsx:53-77 | closing at the entry price without fees makes nothing, and nothing in percent |
| Analysis.OnOrAfter | src/app/analysis/page.tsx:23 | the filter keeps at most all trades |
| Analysis.OnOrAfterKeeps | src/app/analysis/page.tsx:23 | a trade is kept exactly when it is one of the trades and not older than the cutoff |
| Analysis.OnOrAfterCounts | src/app/analysis/page.tsx:23 | a trade not older than the cutoff is kept as many times as it occurs, an older one not at all |
| Analysis.OnOrAfterAppend | src/app/analysis/page.tsx:23 | the filter distributes over concatenation, so the kept trades stay in their order |
| Analysis.OnOrAfterAll | src/app/analysis/page.tsx:23 | when no trade is older than the cutoff, the filter returns the trades unchanged |
| Analysis.OnOrAfterNone | src/app/analysis/page.tsx:23 | when every trade is older than the cutoff, the filter returns none |
| Analysis.FilterTradesByRange | src/app/analysis/page.tsx:18-24 | "All Time" returns the trades unchanged |
| Analysis.FilterTradesByWindow | src/app/analysis/page.tsx:20-23 | the 30-day and 90-day windows are 30 and 90 days of milliseconds and keep exactly the trades inside the window, each as many times as it occurs |
| Analysis.PeakIsHighest | src/app/analysis/page.tsx:41-46 | the peak is the highest cumulative profit seen so far, the start at 0 included, and some prefix attains it |
| Analysis.DrawdownIsLargestFall | src/app/analysis/page.tsx:41-49 | the maximum drawdown is the largest fall of the cumulative profit from an earlier level to a later one, and some pair attains it |
| Analysis.CumRises | src/app/analysis/page.tsx:44-45 | the cumulative profit never falls when no trade loses |
| Analysis.DrawdownBounds | src/app/analysis/page.tsx:41-49 | the drawdown is never negative, and 0 when no trade loses |
| Analysis.MaxDrawdown | src/app/analysis/page.tsx:41-49 | the loop computes the reference drawdown |
| Analysis.SquaredDeviations | src/app/analysis/page.tsx:55 | one squared deviation from the mean per profit |
| Analysis.SharpeOf | src/app/analysis/page.tsx:51-58 | a ratio exists only for a positive variance, and is taken of the mean profit |
| Analysis.VarianceNonNegative | src/app/analysis/page.tsx:53-56 | the sample variance is never negative |
| Analysis.SharpeOfSameProfit | src/app/analysis/page.tsx:53-58 | there is no Sharpe ratio (0) for fewer than two trades or when every trade made the same profit |
| Analysis.ComputeAnalysisStats | src/app/analysis/page.tsx:26-67 | the method computes the reference statistics |
| Analysis.StatsOf | src/app/analysis/page.tsx:26-67 | reference definition of the statistics record (no contract of its own); `StatsWithoutTrades`, `StatsAgreeWithReport` and `StatsDrawdown` state its properties |
| Analysis.StatsWithoutTrades | src/app/analysis/page.tsx:34-58 | without trades every statistic is 0 |
| Analysis.StatsAgreeWithReport | src/app/analysis/page.tsx:34-36 | win rate and expectancy agree with the report; the profit factor agrees except with profit and no loss, where this page shows Infinity and the report 0 |
| Analysis.StatsDrawdown | src/app/analysis/page.tsx:38-49 | the drawdown is not negative and is the largest fall of the cumulative profit in date order between two moments |
| Analysis.BucketOf | src/app/analysis/page.tsx:90-95 | a day's wins are at most its trades, and a day without trades has no profit |
| Analysis.BuildDayOfMonthData | src/app/analysis/page.tsx:87-106 | 31 entries, entry i being day i + 1 with the totals of its trades |
| Analysis.DayEntryBounds | src/app/analysis/page.tsx:96-105 | each entry is for its day, its win rate is a percentage, and a day without trades shows 0 profit and 0 win rate |
| Analysis.ThroughStep | src/app/analysis/page.tsx:90-95 | one more trade adds to the totals of exactly its day |
| Analysis.DaysCoverTrades | src/app/analysis/page.tsx:87-95 | the day counts add up to the number of trades and the day profits to the net profit |
| Analysis.ZeroThrough | src/app/analysis/page.tsx:89 | all days start at zero |
| Analysis.MonthKeysAreTheMonths | src/app/analysis/page.tsx:115-121 | each month appears once and the months are exactly the trades' months |
| Analysis.MonthSumOfOtherMonth | src/app/analysis/page.tsx:119 | a month without trades has no profit |
| Analysis.MonthEntries | src/app/analysis/page.tsx:121-130 | one table row per month |
| Analysis.Best | src/app/analysis/page.tsx:141 | the chosen month is one of the months and has the highest profit |
| Analysis.Worst | src/app/analysis/page.tsx:142 | the chosen month is one of the months and has the lowest profit |
| Analysis.BuildMonthlyData | src/app/analysis/page.tsx:108-150 | the method returns the reference data for the table rows sorted by short month label |
| Analysis.MonthlyDataOf | src/app/analysis/page.tsx:132-149 | reference definition (no contract of its own): the placeholder and zeros without months, otherwise the months with the labels and profits of the best and the worst; `MonthlyDataFacts` states its properties |
| Analysis.MonthlyDataFacts | src/app/analysis/page.tsx:121-149 | no trades give the placeholder and zeros; otherwise each month once, sorted by label, with best and worst bounding every month and belonging to a month |
| Calendar.CountOnIsMultiplicity | src/app/calendar/page.tsx:26-46 | a day's trade count is how often its key occurs among the trades |
| Calendar.CountOnPositive | src/app/calendar/page.tsx:31-32 | a day has a trade exactly when some trade carries its key |
| Calendar.NothingOnOtherDay | src/app/calendar/page.tsx:26-46 | a day without trades has neither profit nor wins |
| Calendar.StepOn | src/app/calendar/page.tsx:28-44 | one more trade adds to its own day's count, profit and wins only |
| Calendar.WinsAtMostCount | src/app/calendar/page.tsx:36-42 | a day has no more wins than trades |
| Calendar.CellWinRate | src/app/calendar/page.tsx:36-42 | the win fraction of a day lies in [0, 1] |
| Calendar.CellOf | src/app/calendar/page.tsx:26-46 | reference definition of one day's cell (requires a trade on that day, no contract of its own): profit sum, trade count and win fraction; `CellWinRate` and `BuildDailyData` state its properties |
| Calendar.FirstOfDay | src/app/calendar/page.tsx:32-37 | a day's first trade creates the cell of its profit, one trade and a win fraction of 1 or 0 |
| Calendar.NextWinRate | src/app/calendar/page.tsx:41-42 | `(rate * (n - 1) + win) / n` is the win fraction after one more trade |
| Calendar.NextOfDay | src/app/calendar/page.tsx:39-40 | a further trade of a day adds its profit and one to the count |
| Calendar.NextRateOfDay | src/app/calendar/page.tsx:41-42 | the recomputed win fraction is that of the day's trades so far |
| Calendar.OtherDaysKeep | src/app/calendar/page.tsx:28-44 | adding a trade leaves the cells of other days as they were |
| Calendar.KeyCell | src/app/calendar/page.tsx:31-43 | the updated cell of the trade's day is that day's cell after the trade |
| Calendar.AddToDay | src/app/calendar/page.tsx:28-44 | one step of the loop keeps the map the daily data of the trades seen so far |
| Calendar.BuildDailyData | src/app/calendar/page.tsx:26-46 | a cell for exactly the days with trades, holding that day's count, profit and win fraction |
| Calendar.UpdatedCell | src/app/calendar/page.tsx:31-43 | the loop body creates or updates the cell of the trade's day |
| Calendar.FindIndex | src/app/calendar/page.tsx:60 | -1 exactly when the key is absent, otherwise the first cell holding it |
| Calendar.GetWeekNumberInGrid | src/app/calendar/page.tsx:57-63 | 1 when the day is not in the grid, otherwise the 1-based seven-day row holding its first cell |
| Calendar.WeekNumberInSixWeeks | src/app/calendar/page.tsx:57-63 | a grid of 42 cells has week numbers 1 to 6 |
| Calendar.TradedDays | src/app/calendar/page.tsx:72-81 | no more traded days than days in the week |
| Calendar.GetWeeklyAggregation | src/app/calendar/page.tsx:65-83 | the loop sums the profit of the week's days that have a cell and counts those with a trade, at most 7 |
| Calendar.WeekPnl | src/app/calendar/page.tsx:72-81 | reference definition (no contract of its own): the sum of the profits of the week's days present in the map; `WeekPnlOfDays` and `WeeklyPnlOfTrades` state its properties |
| Calendar.WeekPnlOfDays | src/app/calendar/page.tsx:72-81 | on the daily data of the trades the week's profit is the sum of its days' profits |
| Calendar.SumOfDaysStep | src/app/calendar/page.tsx:72-81 | one more trade adds its profit once when its day is in the week |
| Calendar.SumOfDaysIsPnlInDays | src/app/calendar/page.tsx:72-81 | for a week of different days the sum of the days' profits is the profit of the week's trades |
| Calendar.ZeroSumOfDays | src/app/calendar/page.tsx:70 | without trades the week makes nothing |
| Calendar.WeeklyPnlOfTrades | src/app/calendar/page.tsx:65-83 | on the daily data of all trades the weekly profit is the profit of the trades made that week |
| Calendar.TradedDaysWithCells | src/app/calendar/page.tsx:76-79 | when every cell has a trade, the traded days are the week's days with a cell |
| Calendar.TradedDaysOfTrades | src/app/calendar/page.tsx:65-83 | on the daily data of all trades the traded days are the week's days on which some trade was made |
| Calendar.TradesInMonth | src/app/calendar/page.tsx:100-107 | the filter keeps at most all trades |
| Calendar.TradesInMonthKeeps | src/app/calendar/page.tsx:103-106 | the filter keeps exactly the trades from `from` to `to`, both included |
| Calendar.TradesInMonthCounts | src/app/calendar/page.tsx:103-106 | a trade of the month is kept as many times as it occurs, any other not at all |
| Calendar.TradesInMonthAppend | src/app/calendar/page.tsx:103-106 | the filter distributes over concatenation, so the kept trades stay in their order |
| Calendar.TradesInMonthAll | src/app/calendar/page.tsx:103-106 | when every trade was made in the month, the filter returns the trades unchanged |
| Calendar.TradesInMonthNone | src/app/calendar/page.tsx:103-106 | when no trade was made in the month, the filter returns none |
| Calendar.WinningDays | src/app/calendar/page.tsx:134-135 | no more winning days than days |
| Calendar.LosingDays | src/app/calendar/page.tsx:134-136 | no more losing days than days |
| Calendar.WinningAndLosingDays | src/app/calendar/page.tsx:134-137 | a day is not both winning and losing |
| Calendar.ComputeMonthlyStats | src/app/calendar/page.tsx:111-146 | the method computes the reference month summary |
| Calendar.MonthlyStatsOf | src/app/calendar/page.tsx:124-146 | reference definition of the month summary (no contract of its own); `MonthlyStatsFacts` and `MonthlyNetIsDays` state its properties |
| Calendar.NewDayTotal | src/app/calendar/page.tsx:117-118 | the first trade of a day adds the day, after the others, with its profit and one trade |
| Calendar.KnownDayTotal | src/app/calendar/page.tsx:119-122 | a further trade of a known day adds to that day's totals |
| Calendar.DaysStep | src/app/calendar/page.tsx:113-123 | one more trade adds its day to the listed days only when it is new |
| Calendar.CollectDays | src/app/calendar/page.tsx:112-123 | the map holds exactly the days of the trades, in order of first trade, with each day's profit and count |
| Calendar.CountTrades | src/app/calendar/page.tsx:124-133 | the loop sums the profits, counts the trades and counts the winning trades |
| Calendar.DaysTradedInMonth | src/app/calendar/page.tsx:149-153 | the number of different day keys of the month's trades |
| Calendar.MonthlyStatsFacts | src/app/calendar/page.tsx:124-146 | every trade counts once, winning plus losing days are at most the days traded, the win rate is a percentage and 0 without trades |
| Calendar.MonthlyNetIsDays | src/app/calendar/page.tsx:124-137 | the month's profit is the sum of its days' profits |
| Calendar.AllInDays | src/app/calendar/page.tsx:124-137 | days covering every trade hold all the profit |

## Left out

- `Math.random` itself: the unseeded simulator draws from an ambient source, modelled as the parameter `ambient` of `MonteCarlo.RunMonteCarlo`, with no property assumed beyond what each lemma requires.
- IEEE-754 rounding of intermediate results: arithmetic is exact over the reals. Infinities and NaN are tracked only where `Js.Num` appears, and signed zeros are not distinguished.
- `Papa.parse`: the importer is modelled from the parsed header row and the records as string maps onward. Quoting and delimiter handling belong to the CSV library.
- `new Date(...)` and `toISOString()` in `parseDate`: they are a parameter `toIso`, because date parsing is host-defined.
- `getMonthRange` (calendar page lines 48-55): it is `Date` arithmetic. The month's first and last instants (`from` and `to`, the times of `monthRange.from` and `monthRange.to`) are parameters of `Calendar.TradesInMonth`.
- Locale formatting: the `date`/`displayDate` strings of the cumulative points and the month labels (`toLocaleDateString`) are not modelled. The `localeCompare` order of the monthly buckets is modelled by `Analysis.LabelRank`, the alphabetical rank of the short month name (Apr, Aug, Dec, Feb, Jan, Jul, Jun, Mar, May, Nov, Oct, Sep).
- The Sharpe ratio's `Math.sqrt` is kept symbolic: the model states the mean and variance that feed it.
- Upper- and lower-case mapping covers ASCII letters only. Unicode case mapping is host-defined.
- Keys that `COLUMN_ALIASES` inherits from `Object.prototype` are not modelled for headers. The same effect in `MARKET_ALIASES` is recorded under Findings.
- TradeParser.NormalizeMarket, RowMarket, BuildRow, ValidateRow, RowResultOf, ParseOf: the row loop reads the market from own alias keys only (the corrected lookup). A record whose market key is `constructor` or `__proto__` is therefore accepted here, with its market inferred from the symbol, while the source as written rejects it with "Invalid market". `TradeParser.RowMarketAsWrittenAgrees` proves that these two keys are the only records on which the two lookups differ.
- React state, components, effects and `useMemo` caching are left out. The page members are the pure computations those hooks wrap.
- Trades whose date is invalid (a NaN timestamp) are not modelled. Every trade has a real timestamp.
- The seed text-field handler (simulations page lines 497-507) only edits form state.
- Prng: the determinism of the whole stream is stated through `Prng.NthOutput`, the n-th output as a function of the seed, rather than by running two generators side by side.
- SimulationsPage.FanYRange: requires `NonEmptyBands`, that every band present has at least one day. `SimulationsPage.FanOfDailyPathsHasDays` proves this for every fan the page builds. An empty band, which the page never produces, is not modelled.
- Percentiles.PercentileAt: requires `p` in [0, 100], which every caller passes. Other percentages index outside the array in the source and yield `undefined` or NaN.
- The per-day and per-month cells of `buildDailyData` and `monthlyStats` are updated as values in a `map`. The source mutates objects that nothing else references.
- The week of a day in the calendar grid (`startOfWeekSunday` / `setDate`) is given as a 7-element sequence of day keys per week, and the grid's days as a sequence parameter, because both come from `Date` arithmetic.
- `buildCumulativeData` of the analysis page (lines 69-85) computes the same running sum as the report's cumulative series, `ReportMetrics.CumulativeSeries`, apart from the locale date labels.
- Dates before year 1 are not modelled.
- Form inputs of the simulations page are finite numbers: `Infinity` typed into a field is not modelled.

## Findings

| source | as written | input that shows it | evidently intended | confidence | as-written member | corrected member |
|---|---|---|---|---|---|---|
| src/lib/csv/tradeParser.ts:130-133 | `MARKET_ALIASES[key]` is a plain object lookup, so a key inherited from `Object.prototype` returns that member: `constructor` gives the `Object` function and `__proto__` gives `Object.prototype`. Either is truthy, so `normalizeMarket` returns it and `validateRow` then rejects the row as having an invalid market. | a row with market `Constructor` and symbol `BTCUSDT` | an unknown market name falls back to inference from the symbol, giving `crypto` | not executed | TradeParser.ConstructorMarketAsWritten | TradeParser.ConstructorMarketCorrected |
