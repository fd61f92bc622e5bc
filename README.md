# Yield Scout core, modelled in Dafny

Yield Scout scans a yield aggregator's pool list for USDC lending pools on Base
and Arbitrum. It keeps the pools of a fixed protocol whitelist, ranks them by
APY, tags each with a risk tier, compares two pools for a migration verdict
(GO / MAYBE / NO-GO), and summarises one pool's recent history (average, min
and max yield, a stability tier, a TVL trend and a bar-glyph trend strip).

This project models the decision logic of `scripts/yield_scout.py`:

- `Pools`: the pool record and eligibility.
  - Absent or null APY and TVL are `Option<real>`, read as 0 in one place (`Tvl`, `Apy`).
  - The prediction label has three cases: absent, JSON null, or text.
- `Ranking`: the filter loop and the stable sort by APY, highest first.
  - The filter loop is a method. Its result is tied to a reference definition: select the qualifying pools, then insertion-sort them.
  - The scan command's top-N cut.
- `Risk`: the first-match risk classifier.
- `Lookup`: `short_id` and the prefix lookup `find_pool_by_id`.
  - The lookup is a method with a linear loop, tied to a recursive first-match function.
- `Breakeven`: the cost/breakeven arithmetic and verdict.
  - A pure function of the two APYs, the two chains and the amount.
  - A method that first resolves both pool identifiers.
- `History`: the statistics of the last 30 points of a series, the stability tier and the TVL trend.
- `Sparkline`: the eight-level bucketing.
- `Series`: `sum`, `min` and `max`.
- `Text`: ASCII case mapping, `startswith`, `in` and `rstrip(".")`.
- `Options`: the optional value.

Numbers are exact reals. An infinite breakeven time is `None`.

The stability tier is computed without `sqrt`. For a positive average,
`sqrt(variance) / avg < k` holds exactly when `variance < k² · avg²`.
`History.CvTierAgrees` proves that the two forms give the same tier.

The model keeps four behaviours of the code that a reader might not expect:

- A prediction label that is present but JSON null is Python's `None`. `None` is neither `"Down"` nor `""`, so a pool with a TVL of at least 5,000,000, IL risk not "yes" and a null label is LOW, not MED (`Risk.RiskExamples`).
- The lookup accepts a query made only of dots. It strips to `""` and matches the first pool (`Lookup.DotsQueryMatchesFirst`).
- A negative `--top` uses Python slicing, so it drops pools from the end of the ranking (`Ranking.Head`).
- A negative amount is not rejected. Moving -10,000 to a lower-yielding pool is GO (`Breakeven.NegativeAmountExample`).

## Model

| member | source | states |
|---|---|---|
| `Text.Contains` | scripts/yield_scout.py:118 | the substring test `"USDC" in symbol` holds iff the pattern occurs at some position |
| `Text.StartsWith` | scripts/yield_scout.py:271 | `s.startswith(prefix)` holds iff the prefix is no longer than `s` and agrees with `s` position by position |
| `Text.RStripDots` | scripts/yield_scout.py:268 | `rstrip(".")` leaves a prefix that does not end in a dot, and only dots were removed |
| `Text.Lower` | scripts/yield_scout.py:134 | lower-casing keeps the length and maps each character (ASCII letters only) |
| `Text.Upper` | scripts/yield_scout.py:117 | upper-casing keeps the length and maps each character (ASCII letters only) |
| `Pools.Tvl` | scripts/yield_scout.py:138 | an absent or null TVL counts as 0, a present one as itself |
| `Pools.Apy` | scripts/yield_scout.py:143 | an absent or null APY counts as 0, a present one as itself |
| `Pools.IsUsdcPool` | scripts/yield_scout.py:102-126 | the guard clauses amount to five conditions together: chain is Base or Arbitrum, project whitelisted, stablecoin, upper-cased symbol contains USDC, exposure not "multi" |
| `Ranking.Given` | scripts/yield_scout.py:134-136 | an optional chain or protocol argument constrains the scan iff it is present and not the empty string (Python truthiness) |
| `Ranking.Qualifies` | scripts/yield_scout.py:132-140 | a kept pool is eligible and meets the TVL floor; a given chain that differs case-insensitively, or a given protocol that differs, rejects it; with neither given, eligibility and the floor decide alone |
| `Ranking.Select` | scripts/yield_scout.py:130-141 | the pools the loop keeps all come from the input and pass every guard |
| `Ranking.SelectCounts` | scripts/yield_scout.py:130-141 | each qualifying pool is kept exactly as often as it occurs in the input, and no other pool is kept |
| `Ranking.SelectChainIgnoresCase` | scripts/yield_scout.py:134 | chain constraints equal up to case select the same pools |
| `Ranking.Insert` | scripts/yield_scout.py:143 | inserting one pool adds exactly that pool |
| `Ranking.InsertSorted` | scripts/yield_scout.py:143 | inserting into an APY-descending list keeps it descending |
| `Ranking.SortByApyDesc` | scripts/yield_scout.py:143 | the sort returns a permutation of its input in non-increasing APY order |
| `Ranking.SortStable` | scripts/yield_scout.py:143 | pools with equal APY keep their input order |
| `Ranking.SortSortedIdentity` | scripts/yield_scout.py:143 | sorting an already sorted list returns it unchanged |
| `Ranking.Filtered` | scripts/yield_scout.py:129-144 | the reference filter is a permutation of the qualifying pools in non-increasing APY order |
| `Ranking.FilteredSpec` | scripts/yield_scout.py:129-144 | the filter output holds only qualifying pools, each qualifying input pool as often as in the input (a permutation of the qualifying subsequence), sorted by APY descending, equal APY in input order |
| `Ranking.FilterIdempotent` | scripts/yield_scout.py:129-144 | filtering the filter's output again with the same constraints returns it unchanged |
| `Ranking.FilterPools` | scripts/yield_scout.py:129-144 | the append loop with its `continue` guards, then the sort, computes exactly the reference filter |
| `Ranking.TopCount` | scripts/yield_scout.py:215 | a count of 0 means 20; any other count is kept |
| `Ranking.Head` | scripts/yield_scout.py:216 | Python's `s[:n]` is a prefix of length `min(n, len)` for non-negative `n`, dropping `-n` pools from the end otherwise |
| `Ranking.Scan` | scripts/yield_scout.py:206-216 | the scan shows a prefix of the ranking, all qualifying and sorted, of length `min(top or 20, matches)` for a non-negative top |
| `Risk.WeakPrediction` | scripts/yield_scout.py:175-180 | a missing predictions record reads as "" and is weak; a JSON null label is not; a text label is weak iff it is "Down" or "" |
| `Risk.RiskScore` | scripts/yield_scout.py:172-182 | HIGH iff TVL < 500,000 or IL risk "yes"; otherwise MED iff TVL < 5,000,000 or the label reads "Down" or ""; otherwise LOW |
| `Risk.RiskMonotoneInTvl` | scripts/yield_scout.py:178-182 | raising the TVL, all else equal, never raises the tier |
| `Risk.RiskDependsOnlyOnRiskFields` | scripts/yield_scout.py:172-176 | the tier depends only on TVL, IL flag and prediction label |
| `Risk.RiskExamples` | scripts/yield_scout.py:172-182 | TVL 400,000 is HIGH; 2,000,000 with "Up" is MED; 10,000,000 with "Up" is LOW; with no label MED; with a null label LOW |
| `Lookup.ShortId` | scripts/yield_scout.py:185-188 | ids of at most 12 characters are unchanged, longer ones become their first 12 plus "..."; stripped of dots, the result prefixes the id |
| `Lookup.RStripDotsIgnoresTrailingDots` | scripts/yield_scout.py:268 | appending dots to a query does not change what the lookup searches for |
| `Lookup.Matches` | scripts/yield_scout.py:271 | `pid == q or pid.startswith(q)` is the prefix test alone |
| `Lookup.FirstMatch` | scripts/yield_scout.py:269-273 | None iff no pool id starts with the query; otherwise the first matching position, with no earlier match |
| `Lookup.FindPool` | scripts/yield_scout.py:267-273 | None iff no pool id starts with the dot-stripped query; otherwise a listed pool whose id does |
| `Lookup.FindPoolById` | scripts/yield_scout.py:267-273 | the search loop returns None iff no pool id starts with the dot-stripped query, else the first pool in list order whose id does |
| `Lookup.ShortIdResolves` | scripts/yield_scout.py:267-273 | looking up the short form of a listed pool's id always succeeds, at that pool or an earlier one, and the result's id starts with the dot-stripped short id |
| `Lookup.DotsQueryMatchesFirst` | scripts/yield_scout.py:268-272 | a query of dots only resolves to the first pool |
| `Lookup.PrefixResolves` | scripts/yield_scout.py:267-273 | any prefix of a listed id, trailing dots included, resolves, never to a later pool |
| `Breakeven.CostRate` | scripts/yield_scout.py:292-295 | the rate is 1% iff the chains match case-insensitively, else 3% |
| `Breakeven.VerdictFor` | scripts/yield_scout.py:305-311 | GO iff days <= 30, MAYBE iff 30 < days <= 90, NO-GO iff days > 90 |
| `Breakeven.Analyze` | scripts/yield_scout.py:288-311 | amount 0 means 10,000; the rate is the chain-dependent cost rate and the cost is amount times rate; the daily gain is the APY difference in percent of the amount per 365 days; a non-positive daily gain means breakeven never and NO-GO; otherwise days times daily gain equals cost and the verdict follows the day thresholds |
| `Breakeven.GainPositiveIff` | scripts/yield_scout.py:298-301 | for a non-negative amount (0 meaning the default 10,000) the daily gain is positive iff the target APY exceeds the source APY |
| `Breakeven.NoGainIsNoGo` | scripts/yield_scout.py:301-303 | for a non-negative amount and a target APY not above the source's, breakeven is never and the verdict NO-GO |
| `Breakeven.DaysIndependentOfAmount` | scripts/yield_scout.py:296-305 | for a non-negative amount and a higher target APY, days = rate x 36500 / (apyB - apyA) |
| `Breakeven.VerdictIndependentOfAmount` | scripts/yield_scout.py:294-311 | any two non-negative amounts give the same verdict |
| `Breakeven.EqualApyExample` | scripts/yield_scout.py:298-303 | equal APYs give a zero daily gain and NO-GO, for any amount |
| `Breakeven.SameChainMaybeExample` | scripts/yield_scout.py:294-311 | 3% to 8% on one chain with 10,000: cost 100, 73 days, MAYBE |
| `Breakeven.CrossChainExample` | scripts/yield_scout.py:294-311 | 3% to 20% with 10,000: 1095/17 (about 64) days and MAYBE cross-chain; 365/17 (about 21) days and GO on one chain |
| `Breakeven.NegativeAmountExample` | scripts/yield_scout.py:290-311 | a negative amount to a lower-yielding pool gives -73 days and GO |
| `Breakeven.CompareById` | scripts/yield_scout.py:276-311 | an unresolved source id is reported first, then an unresolved target id; otherwise the analysis of the two resolved pools |
| `Series.MinOf` | scripts/yield_scout.py:386 | `min` is an element no larger than every element |
| `Series.MaxOf` | scripts/yield_scout.py:387 | `max` is an element no smaller than every element |
| `Series.SumAppend` | scripts/yield_scout.py:385 | the sum accumulates from the front: appending a term adds it to the sum of the rest |
| `Series.MeanOfConstant` | scripts/yield_scout.py:385 | the average of a flat series is its value |
| `Series.SumBetween` | scripts/yield_scout.py:385 | a sum lies between n times a lower and n times an upper bound of its terms |
| `Series.SumConstant` | scripts/yield_scout.py:385 | the sum of n copies of c is n times c |
| `Series.Mean` | scripts/yield_scout.py:385-387 | the average lies between the minimum and the maximum |
| `History.Recent` | scripts/yield_scout.py:380 | `points[-30:]` is the last `min(30, n)` points, in order |
| `History.Apys` | scripts/yield_scout.py:381 | one yield per point, in order: the point's APY, or 0 when absent or null |
| `History.Tvls` | scripts/yield_scout.py:382 | one TVL per point, in order: the point's TVL, or 0 when absent or null |
| `History.Variance` | scripts/yield_scout.py:391 | the population variance is never negative, and 0 for a flat series |
| `History.StabilityOf` | scripts/yield_scout.py:390-403 | the tier is N/A iff there are fewer than 2 points or the average is not positive |
| `History.CvBelowIff` | scripts/yield_scout.py:392-397 | for a positive average, `sd / avg < k` iff `sd² < k² avg²` |
| `History.CvTierAgrees` | scripts/yield_scout.py:390-399 | with `sd` the square root of the variance, the variance-based tier equals the code's tier from `cv = sd / avg` with cut-offs 0.1 and 0.3 |
| `History.FlatSeriesIsStable` | scripts/yield_scout.py:390-395 | a constant positive series of length at least 2 has variance 0 and is STABLE |
| `History.TvlChange` | scripts/yield_scout.py:407-408 | with a non-zero first TVL, the change times the first TVL is 100 times the difference last minus first; with a zero first TVL it is 100 times the last |
| `History.TvlTrend` | scripts/yield_scout.py:406-416 | N/A iff fewer than 2 points; otherwise the trend carries the percent change, UP only above +5%, DOWN only below -5%, FLAT in between |
| `History.TrendAgainstStart` | scripts/yield_scout.py:407-412 | with a positive first TVL, UP iff the last exceeds 1.05 times the first, DOWN iff it is below 0.95 times the first |
| `History.TrendFromZeroStart` | scripts/yield_scout.py:407-409 | a zero first TVL divides by 1: the change is 100 times the last TVL |
| `History.ClassifyStability` | scripts/yield_scout.py:389-403 | the branching block yields the specified tier, and variance 0 when the tier is N/A |
| `History.ClassifyTrend` | scripts/yield_scout.py:405-416 | the branching block yields the specified TVL trend |
| `History.Summarize` | scripts/yield_scout.py:375-416 | an empty series is an error; otherwise the window has `min(30, n)` points and min <= avg <= max, with the specified tiers and trend strip |
| `Sparkline.Span` | scripts/yield_scout.py:197 | the scaling range is always positive (1 for a flat series) |
| `Sparkline.ScaledInUnit` | scripts/yield_scout.py:198 | the scaled position lies in [0, 7]: 0 at the minimum, 7 at a distinct maximum |
| `Sparkline.Level` | scripts/yield_scout.py:198 | every in-range value gets a level in 1..8, the minimum 1 and a distinct maximum 8 |
| `Sparkline.LevelMonotone` | scripts/yield_scout.py:198 | v <= w gives level(v) <= level(w) |
| `Sparkline.Levels` | scripts/yield_scout.py:195-198 | one level per value, each in 1..8: element i is the level of value i between the window's minimum and maximum |
| `Sparkline.Render` | scripts/yield_scout.py:191-198 | the strip has one glyph per value ("" for no values), glyph i being the bar of value i's level, so the blank at index 0 is never used |
| `Sparkline.ExtremesGetExtremeBars` | scripts/yield_scout.py:195-198 | when not all values are equal, a minimum gets the lowest bar and a maximum the full bar |
| `Sparkline.FlatSeriesLowestBar` | scripts/yield_scout.py:197-198 | a flat series maps every point to level 1 |
| `Sparkline.LevelsMonotone` | scripts/yield_scout.py:191-198 | the levels are ordered as the values are |

## Left out

- `_get_ssl_ctx` and `fetch_json` (scripts/yield_scout.py:59-72): network I/O. The feeds' data are parameters of the model.
- `load_pools` (scripts/yield_scout.py:80-94): the on-disk cache with its 15-minute freshness window depends on the file system and the clock. The `data.get("data", data)` envelope unwrapping is left out with it.
- `fmt_usd`, `fmt_pct`, the `.1f`/`.2f` text of the TVL-trend labels and the `round()` calls: float string formatting. `History.Trend` carries the signed change as a number instead.
- The `math.sqrt` standard deviation (scripts/yield_scout.py:392): `History.Summary` reports the variance. The tier is decided by the equivalent squared comparison.
- Table printing, JSON emission and `sys.exit`: the error paths are values instead, `Breakeven.Outcome.PoolNotFound` and `History.Report.NoHistory`.
- The `dates` list (scripts/yield_scout.py:383): used only for display.
- `PROTOCOL_INFO`, `cmd_protocols` and `USDC_ADDRESSES`: static data with no logic.
- `main` and its argparse wiring: the command-line surface.
- Floating point: all APY, TVL and amount arithmetic is exact. Rounding, NaN and infinities are not modelled.
- `Text.Upper`, `Text.Lower`: only ASCII letters change case. Python's Unicode case mapping also maps some other characters, for example U+017F upper-cases to "S".
- `Pools.Pool`: string fields always hold strings. A JSON null `chain` or `pool` would make the code fail in `.lower()` or `.startswith()`; that path is not modelled. An empty pool record, which `if not pool_a` treats as "not found", is not modelled either.
- `Ranking.SortByApyDesc`: models what Python's `list.sort` returns (a stable sort by key), not its Timsort algorithm or its in-place update.
