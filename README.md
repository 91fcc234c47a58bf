# Meteora DLMM calculator: pool ranking, estimate, search and health score

This project models the numeric core of a browser dashboard for Meteora DLMM liquidity pools. The dashboard lists the pools of the DLMM pair API. Given a deposit amount (the user's "TVL") and minimum liquidity and volume thresholds, it does four things:

- **Ranking** (`ranking.dfy`). Every pool gets the share of its 24-hour fees the deposit would earn. A pool under either threshold earns 0 but stays in the list. The deposit is added to the pool's liquidity only when the "TVL is added" box is ticked. The list is sorted by that return, highest first, and the first 50 rows are shown. Nothing is ranked while the TVL field reads 0 or is not a number.
- **Estimate** (`estimation.dfy`). For the selected pool it computes the deposit's percentage of the pool, its daily return and the days until the fees repay the deposit. `selection.dfy` models how a row click finds the selected pool by address.
- **Search** (`search.dfy`). The dropdown lists the pools whose lower-cased name or address contains the lower-cased query and that meet both thresholds. They are sorted by liquidity, highest first. The dropdown opens when the query is non-empty or the field has the focus.
- **Health analysis** (`health.dfy`). It sets three 0/1 flags: liquidity, volume and "diversity". It averages the fee yield of the pools with strictly more liquidity, and of those with strictly more volume. It combines five of these figures with weight 0.2 each.

All of this is modelled as pure functions over a `Pool` value: address, name, liquidity, 24-hour volume and 24-hour fees. Numbers are Dafny `real`s. A form field read with `parseFloat` is an `Option<real>`, where `None` stands for NaN. Every comparison with NaN is false. So an empty threshold field marks no pool as under-threshold in the ranking (`x < NaN` is false) and lets no pool through the search (`x >= NaN` is false). Both sorts are JavaScript's stable `Array.prototype.sort` with the comparator `(a, b) => key(b) - key(a)`. `sequences.dfy` models this as a stable insertion sort and proves it sorted, a permutation and stable.

Points where the model's reading of the source needs a word:

- The ranking is skipped only when the TVL is 0 or NaN (`if (!userTVL) return`, static/app.js:80). A negative TVL is ranked, as in the source.
- The diversity flag counts only pools that have the current pool's own address (static/app.js:293). The model keeps this as written and proves what follows from it: with distinct addresses and the default threshold 2, the flag is always 0.
- The panel labels the health score "/5", but the score is a sum weighted by 0.2, that is, the average of five metrics. With every metric in [0, 1] the score lies in [0, 1], and the model proves that range.
- The model's `HealthMetrics` carries the two cohort averages, which the source's returned object leaves out (see `Health.AnalyzePoolHealth` under "## Left out").

The health analysis is never called in the source: both calls are commented out (static/app.js:162, 409). Its two helpers are `async`, so as written it would combine Promises, not numbers (static/app.js:304-312). The model gives these functions their evident numeric meaning.

## Model

| member | source | states |
|---|---|---|
| `Pools.Ratio` | static/app.js:93 | the quotient times the divisor gives back the dividend when the divisor is non-zero; a zero divisor gives 0 |
| `Pools.ThresholdSplitsPools` | static/app.js:195-204 | a parsed threshold puts each pool either below it or at least at it; a NaN threshold puts every pool in neither group |
| `Sequences.Filter` | static/app.js:200-205 | the result keeps exactly the elements that pass the test, each as often as in the input, and is no longer than the input |
| `Sequences.FilterAppend` | static/app.js:200-205 | `filter` keeps the input order: filtering a concatenation concatenates the filtered parts in the same order |
| `Sequences.Insert` | static/app.js:97 | inserting into a sorted list keeps it sorted and adds exactly the one new element |
| `Sequences.SortDesc` | static/app.js:97 | the result is sorted by non-increasing key and is a permutation of the input |
| `Sequences.SortDescIsStable` | static/app.js:97 | elements with equal keys come out in their input order (`sort` is stable) |
| `Sequences.Take` | static/app.js:98 | `slice(0, n)` has length min(n, length) and agrees with the list position by position |
| `Ranking.WithReturns` | static/app.js:85-95 | the `map` gives one entry per pool, at the same position, holding that pool unchanged and its projected return |
| `Ranking.RankPools` | static/app.js:80-97 | there is no list exactly when the TVL is 0 or NaN; otherwise the list is sorted by non-increasing return and is a permutation of the mapped pools |
| `Ranking.TopProfitablePools` | static/app.js:80-98 | the table exists exactly when the ranking does and holds the first min(50, n) entries of the ranked list |
| `Ranking.DailyReturn` | static/app.js:86-94 | a pool under either threshold gets return 0; otherwise return × effective liquidity = TVL × fees; a zero effective liquidity gives 0 |
| `Ranking.DailyReturnIsShareOfFees` | static/app.js:87-92 | the checkbox decides the denominator: above the thresholds, return × (liquidity + TVL) = TVL × fees when the box is ticked, and return × liquidity = TVL × fees when it is not |
| `Ranking.WithReturnsCounts` | static/app.js:85-95 | each pool occurs in the mapped list, with its own return, as often as in the input |
| `Ranking.RankedEntriesAreAnnotatedPools` | static/app.js:85-97 | every ranked entry is an input pool with its own return; every pool is ranked as often as it is listed; the length is unchanged |
| `Ranking.PositiveReturnsRankFirst` | static/app.js:87-97 | a pool with a positive return is ranked ahead of every pool under the thresholds |
| `Ranking.ShownPoolsOutearnHiddenOnes` | static/app.js:97-98 | every pool shown in the table earns at least as much as every ranked pool cut off after row 50 |
| `Ranking.RankingKeepsTiesInInputOrder` | static/app.js:97 | pools with equal returns keep the API's order |
| `Ranking.ScenarioWithoutThresholds` | static/app.js:85-97 | pools of 1000 and 2000 liquidity with 10 in fees and a deposit of 100 added: returns 10/11 and 10/21, the smaller pool first |
| `Ranking.ScenarioWithLiquidityThreshold` | static/app.js:85-97 | the same pools with a liquidity threshold of 1500: the smaller pool's return is 0 and it ranks last |
| `Estimation.Estimate` | static/app.js:146-155 | undefined exactly when the effective liquidity is 0; percent × effective liquidity = TVL × 100; daily return = percent / 100 × fees; no payback time exactly when TVL or fees are 0; otherwise payback time × daily return = TVL |
| `Estimation.PaybackIsLiquidityOverFees` | static/app.js:147-153 | with non-zero TVL and fees the payback time is effective liquidity / fees |
| `Estimation.ZeroDepositEarnsNothing` | static/app.js:147-155 | a deposit of 0 in a pool of non-zero liquidity gives 0%, return 0 and no payback time |
| `Estimation.UncheckedBoxUsesPoolLiquidity` | static/app.js:147-155 | without the checkbox the percentage is TVL × 100 / liquidity: the deposit is not in the denominator |
| `Estimation.AddedDepositIsAPartOfThePool` | static/app.js:147-155 | with the deposit added, a positive TVL and non-negative liquidity, the percentage lies in (0, 100] |
| `Estimation.EstimateAgreesWithRanking` | static/app.js:147-152 | for a pool above the thresholds the estimate's daily return equals the ranking's return |
| `Selection.FirstIndexOf` | static/app.js:400 | the index found holds the address and no earlier pool does; none is found exactly when no pool holds it |
| `Selection.FindByAddress` | static/app.js:400 | `find` returns the first pool with the address, and `undefined` exactly when there is none |
| `Selection.SelectPool` | static/app.js:398-405 | a picked pool is used as it is; otherwise a non-empty address selects the first listed pool with that address, or nothing when none has it; an empty address selects nothing |
| `Search.LowerIsIdempotent` | static/app.js:194 | lower-casing twice is lower-casing once |
| `Search.Lower` | static/app.js:194 | lower-casing keeps the length, turns each letter A to Z into its letter a to z, leaves no letter A to Z, and changes no other character |
| `Search.ContainsIffOccurs` | static/app.js:202 | `includes` holds exactly when the query occurs at some position of the text |
| `Search.QualifiesIffQueryOccurs` | static/app.js:201-204 | a pool passes the filter exactly when the lower-cased query occurs in its lower-cased name or address and it meets both thresholds |
| `Search.Search` | static/app.js:194-206 | the dropdown is hidden exactly when the query is empty and the field is unfocused; otherwise it holds exactly the qualifying pools, each as often as listed, sorted by non-increasing liquidity |
| `Search.SearchKeepsTiesInInputOrder` | static/app.js:200-206 | pools of equal liquidity are listed in the API's order |
| `Search.FocusedEmptyQueryListsQualifyingPools` | static/app.js:199-204 | focusing the empty field lists exactly the pools that meet both thresholds |
| `Search.SearchIgnoresCase` | static/app.js:194-202 | a query and its lower-cased form give the same dropdown |
| `Search.NaNThresholdHidesEveryPool` | static/app.js:195-204 | an empty or unparsable liquidity threshold leaves the open dropdown empty |
| `Health.AnalyzePoolHealth` | static/app.js:285-335 | each flag is 0 or 1, and 1 exactly when the pool meets its threshold or the significant count reaches the diversity threshold; the contribution and projected return are `UserContribution` and `ProjectedReturn` (the deposit's share of the pool and of its fees); the two comparisons are the average fee yields (`Mean`) of the strictly larger and the strictly busier pools; the score is the weighted score of these figures |
| `Health.SignificantPools` | static/app.js:293 | each pool with the current address and at least the significance threshold of liquidity is counted as often as it is listed, and no other pool |
| `Health.DiversitySeesOnlyOwnAddress` | static/app.js:293 | the significant pools are exactly the listed pools with the current pool's address and at least the significance threshold of liquidity |
| `Health.AtMostOneWithAddress` | static/app.js:293 | with distinct addresses, a filter that keeps only one address keeps at most one pool |
| `Health.DistinctAddressesNeverDiverse` | static/app.js:293-294 | with distinct addresses and a diversity threshold of 2 or more, at most one pool is significant and the diversity flag is 0 |
| `Health.DefaultConfigNeverDiverse` | static/app.js:32-37 | with the configuration `init` installs and distinct addresses, the diversity flag is 0 |
| `Health.CohortsAreStrictlyHigher` | static/app.js:326-327 | the cohorts are exactly the pools with strictly more liquidity, or volume, and never contain the current pool |
| `Health.HigherTVLPools` | static/app.js:326 | each pool with strictly more liquidity is in the cohort as often as it is listed, and no other pool |
| `Health.HigherVolumePools` | static/app.js:327 | each pool with strictly more volume is in the cohort as often as it is listed, and no other pool |
| `Health.EmptyCohortsScoreZero` | static/app.js:329-334 | with no strictly larger (or busier) pool, the cohort average is 0, not NaN |
| `Health.Mean` | static/app.js:329-335 | the average times the cohort size is the sum; an empty cohort gives 0 |
| `Health.SumWithinBounds` | static/app.js:329-330 | a sum of values in [0, 1] lies between 0 and the count |
| `Health.MeanWithinBounds` | static/app.js:329-334 | the average of values in [0, 1] lies in [0, 1], and so does the 0 of an empty cohort |
| `Health.HealthScore` | static/app.js:338-354 | five times the score is the sum of the five metrics: the score is their average |
| `Health.HealthScoreWithinBounds` | static/app.js:338-353 | the 0.2-weighted sum of five metrics in [0, 1] lies in [0, 1] |
| `Health.AnalyzedScoreWithinBounds` | static/app.js:304-312 | when no pool's fees exceed its liquidity or volume, the analysed score lies in [0, 1] |
| `Health.TopPoolWithAllFlagsScoresSixTenths` | static/app.js:291-353 | a pool meeting all three flags with no larger or busier pool scores exactly 0.6 |
| `Health.DistinctTopPoolScoresFourTenths` | static/app.js:291-353 | with distinct addresses and diversity threshold 2 or more, the largest and busiest pool meeting both thresholds scores exactly 0.4 |
| `Health.UserContribution` | static/app.js:297-298 | undefined exactly when deposit plus liquidity is 0; otherwise contribution × (liquidity + deposit) = deposit × 100 |
| `Health.ProjectedReturn` | static/app.js:300-301 | undefined exactly when deposit plus liquidity is 0; otherwise return × (liquidity + deposit) = deposit × fees |
| `Health.ContributionMatchesEstimate` | static/app.js:296-301 | the contribution and projected return are the estimate's percentage and daily return with the deposit added, and are undefined in the same case |
| `Findings.EffectiveLiquidityAsWritten` | static/app.js:297 | as written, the sum is the text of the TVL followed by the liquidity string |
| `Findings.StringGreaterIsAsymmetric` | static/app.js:326 | JavaScript's string `>` is a strict order: two strings are never each greater than the other |
| `Findings.TextComparisonMisordersLiquidity` | static/app.js:326 | as written, "900" > "1000" holds and "1000" > "900" does not; the numeric cohort of a 1000-liquidity pool excludes a 900-liquidity pool |
| `Findings.ConcatenationInflatesLiquidity` | static/app.js:297-298 | as written, a TVL of 100 and liquidity "1000" give the divisor 1001000; the numeric contribution is 100/1100 × 100 |

## Findings

| source | as written | input that shows it | evidently intended | confidence | as-written member | corrected member |
|---|---|---|---|---|---|---|
| static/app.js:326 | `p.liquidity > this.currentPool.liquidity` compares the API's liquidity strings code unit by code unit | current pool "1000", other pool "900": "900" > "1000" holds, so the smaller pool joins the higher-TVL cohort | compare the parsed numbers, as the ranking and the search sort do | medium, not executed (the function is never called; the string type is inferred from the `parseFloat(pool.liquidity)` calls) | `Findings.TextComparisonMisordersLiquidity` | `Health.CohortsAreStrictlyHigher` |
| static/app.js:297 | `userTVL + this.currentPool.liquidity` adds a number to the liquidity string, which concatenates | TVL 100, liquidity "1000": effective liquidity "1001000", contribution about 0.01% instead of about 9.09% | numeric sum 1100, as `estimate` computes it | medium, not executed (same caveats as above) | `Findings.ConcatenationInflatesLiquidity` | `Health.ContributionMatchesEstimate` |

## Left out

- DOM rendering: the ranking table, the pool-detail and health panels, the dropdown elements, `toFixed` and `toLocaleString` formatting, and the event listeners. These are UI.
- Network fetches of the pair list and bin arrays, and the last-write-wins race on the pool list. These are I/O and asynchronous.
- `localStorage` writes, clipboard access, and the IndexedDB, modal and notification helpers (static/DatabaseManager.js, static/ModalManager.js, static/NotificationManager.js). These are browser APIs and timer-driven UI.
- IEEE-754 arithmetic. The model uses exact reals, so rounding, Infinity and NaN propagation are not modelled.
- The `async`/Promise behaviour of `compareWithOtherPools` and `calculateHealthScore`. The model uses the values they compute.
- Pool fields the computations never read (bin step, base fee, mints, cumulative volumes). Pool fields that `parseFloat` cannot read are also not modelled: the model holds parsed numbers.
- The case where `estimate` runs with no selected pool. The source then throws at static/app.js:161. The model always receives a pool.
- Health.AnalyzePoolHealth: the result also holds the two cohort averages (`higherTVLReturn`, `higherVolumeReturn`). The source's returned object at static/app.js:314-321 leaves them out, so the panel rows at static/app.js:383 and 387 would show "NaN%". The model keeps them because the score is computed from them.
- Pools.Ratio: a zero divisor gives 0, where JavaScript gives Infinity or NaN. This affects `Ranking.DailyReturn` (effective liquidity 0) and the cohort averages (a cohort pool with liquidity or volume 0).
- Estimation.Estimate: takes the TVL as a number. A NaN TVL field, which makes every figure NaN in the source, is not modelled. Undefined figures are `None` instead of Infinity or NaN.
- Health.ContributionMatchesEstimate: contribution and projected return are `None` where the deposit plus liquidity is 0; the source shows Infinity or NaN there.
- Search.Lower / Search.LowerIsIdempotent: lower-casing covers only the ASCII letters A to Z. Full Unicode case mapping is not modelled.
