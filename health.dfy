/**
 * The pool health analysis (`analyzePoolHealth`, `compareWithOtherPools`,
 * `calculateHealthScore`): three pass/fail flags for the selected pool, the
 * deposit's share and return, the average fee yield of the pools that are
 * larger or busier than it, and a weighted score of five of these figures.
 */
module Health {
  import opened Wrappers
  import opened Pools
  import opened Sequences
  import Estimation
  import Ranking

  /** The thresholds of `this.config`. */
  datatype Config = Config(
    minLiquidity: real,
    minVolume: real,
    significantLiquidityThreshold: real,
    diversityThreshold: nat)

  /** The configuration `init` installs. */
  const DefaultConfig: Config := Config(1000.0, 1000.0, 5000.0, 2)

  /** The weight of each of the five scored metrics. */
  const Weight: real := 0.2

  /**
   * The figures of the health panel. `userContribution` and `projectedReturn`
   * are `None` where the deposit plus the pool's liquidity is 0.
   */
  datatype HealthMetrics = HealthMetrics(
    liquidityHealth: real,
    volumeHealth: real,
    diversityHealth: real,
    userContribution: Option<real>,
    projectedReturn: Option<real>,
    higherTVLReturn: real,
    higherVolumeReturn: real,
    healthScore: real)

  /** `condition ? 1 : 0`. */
  function Flag(condition: bool): real {
    if condition then 1.0 else 0.0
  }

  /**
   * The pool counted towards diversity: liquidity at least the significance
   * threshold and the same address as the current pool.
   */
  predicate Significant(p: Pool, current: Pool, config: Config) {
    p.liquidity >= config.significantLiquidityThreshold && p.address == current.address
  }

  /** The pools the diversity flag counts, each as often as it is listed. */
  function SignificantPools(pools: seq<Pool>, current: Pool, config: Config): (r: seq<Pool>)
    ensures forall p :: multiset(r)[p] == if Significant(p, current, config) then multiset(pools)[p] else 0
  {
    Filter(pools, p => Significant(p, current, config))
  }

  /** The pools with strictly more liquidity than `current`, each as often as it is listed. */
  function HigherTVLPools(pools: seq<Pool>, current: Pool): (r: seq<Pool>)
    ensures forall p :: multiset(r)[p] == if p.liquidity > current.liquidity then multiset(pools)[p] else 0
  {
    Filter(pools, (p: Pool) => p.liquidity > current.liquidity)
  }

  /** The pools with strictly more 24-hour volume than `current`, each as often as it is listed. */
  function HigherVolumePools(pools: seq<Pool>, current: Pool): (r: seq<Pool>)
    ensures forall p :: multiset(r)[p] == if p.volume24h > current.volume24h then multiset(pools)[p] else 0
  {
    Filter(pools, (p: Pool) => p.volume24h > current.volume24h)
  }

  /** A pool's fees per unit of liquidity. */
  function FeesPerLiquidity(p: Pool): real {
    Ratio(p.fees24h, p.liquidity)
  }

  /** A pool's fees per unit of traded volume. */
  function FeesPerVolume(p: Pool): real {
    Ratio(p.fees24h, p.volume24h)
  }

  /** `s.reduce((acc, p) => acc + f(p), 0)`. */
  function Sum(s: seq<Pool>, f: Pool -> real): real
    decreases |s|
  {
    if s == [] then 0.0 else f(s[0]) + Sum(s[1..], f)
  }

  /** The sum divided by the count, with `|| 0` turning the NaN of an empty cohort into 0. */
  function Mean(s: seq<Pool>, f: Pool -> real): (r: real)
    ensures |s| > 0 ==> r * (|s| as real) == Sum(s, f)
    ensures |s| == 0 ==> r == 0.0
  {
    if |s| == 0 then 0.0 else Sum(s, f) / (|s| as real)
  }

  /**
   * `calculateHealthScore`: the five metrics, each weighted 0.2, so the score
   * is their plain average.
   */
  function HealthScore(liquidityHealth: real, volumeHealth: real, diversityHealth: real,
                       higherTVLReturn: real, higherVolumeReturn: real): (r: real)
    ensures r * 5.0 == liquidityHealth + volumeHealth + diversityHealth + higherTVLReturn + higherVolumeReturn
  {
    liquidityHealth * Weight + volumeHealth * Weight + diversityHealth * Weight
    + higherTVLReturn * Weight + higherVolumeReturn * Weight
  }

  /**
   * The deposit's percentage of the pool; the deposit is always added to the
   * liquidity here. Undefined where the deposit plus the liquidity is 0.
   */
  function UserContribution(current: Pool, tvl: real): (r: Option<real>)
    ensures r.None? <==> current.liquidity + tvl == 0.0
    ensures r.Some? ==> r.value * (current.liquidity + tvl) == tvl * 100.0
  {
    var effectiveLiquidity := Ranking.EffectiveLiquidity(current.liquidity, tvl, true);
    if effectiveLiquidity == 0.0 then None else Some(tvl / effectiveLiquidity * 100.0)
  }

  /**
   * The deposit's projected daily share of the pool's fees, undefined where the
   * deposit plus the liquidity is 0.
   */
  function ProjectedReturn(current: Pool, tvl: real): (r: Option<real>)
    ensures r.None? <==> current.liquidity + tvl == 0.0
    ensures r.Some? ==> r.value * (current.liquidity + tvl) == tvl * current.fees24h
  {
    var effectiveLiquidity := Ranking.EffectiveLiquidity(current.liquidity, tvl, true);
    if effectiveLiquidity == 0.0 then None else Some(tvl / effectiveLiquidity * current.fees24h)
  }

  /**
   * `analyzePoolHealth` for the pool `current` among `pools` and a deposit of
   * `tvl`: each flag is 0 or 1, and 1 exactly when its threshold is met; the
   * contribution and projected return are the deposit's share of the pool and
   * of its fees; the two comparisons are the average fee yields of the larger
   * and of the busier pools; the score is computed from the figures the panel
   * shows.
   */
  function AnalyzePoolHealth(current: Pool, pools: seq<Pool>, config: Config, tvl: real): (r: HealthMetrics)
    ensures r.liquidityHealth in {0.0, 1.0} && (r.liquidityHealth == 1.0 <==> current.liquidity >= config.minLiquidity)
    ensures r.volumeHealth in {0.0, 1.0} && (r.volumeHealth == 1.0 <==> current.volume24h >= config.minVolume)
    ensures r.diversityHealth in {0.0, 1.0}
    ensures r.diversityHealth == 1.0 <==> |SignificantPools(pools, current, config)| >= config.diversityThreshold
    ensures r.userContribution == UserContribution(current, tvl)
    ensures r.projectedReturn == ProjectedReturn(current, tvl)
    ensures r.higherTVLReturn == Mean(HigherTVLPools(pools, current), FeesPerLiquidity)
    ensures r.higherVolumeReturn == Mean(HigherVolumePools(pools, current), FeesPerVolume)
    ensures r.healthScore
         == HealthScore(r.liquidityHealth, r.volumeHealth, r.diversityHealth, r.higherTVLReturn, r.higherVolumeReturn)
  {
    var liquidityHealth := Flag(current.liquidity >= config.minLiquidity);
    var volumeHealth := Flag(current.volume24h >= config.minVolume);
    var diversityHealth := Flag(|SignificantPools(pools, current, config)| >= config.diversityThreshold);
    var higherTVLReturn := Mean(HigherTVLPools(pools, current), FeesPerLiquidity);
    var higherVolumeReturn := Mean(HigherVolumePools(pools, current), FeesPerVolume);
    HealthMetrics(
      liquidityHealth,
      volumeHealth,
      diversityHealth,
      UserContribution(current, tvl),
      ProjectedReturn(current, tvl),
      higherTVLReturn,
      higherVolumeReturn,
      HealthScore(liquidityHealth, volumeHealth, diversityHealth, higherTVLReturn, higherVolumeReturn))
  }

  /** The diversity count sees only the current pool's own address. */
  lemma DiversitySeesOnlyOwnAddress(current: Pool, pools: seq<Pool>, config: Config)
    ensures forall p :: p in SignificantPools(pools, current, config) <==>
              p in pools && p.address == current.address
              && p.liquidity >= config.significantLiquidityThreshold
  {
  }

  /** No two pools of the list share an address. */
  predicate DistinctAddresses(pools: seq<Pool>) {
    forall i, j :: 0 <= i < j < |pools| ==> pools[i].address != pools[j].address
  }

  lemma {:induction false} AtMostOneWithAddress(pools: seq<Pool>, keep: Pool -> bool, address: string)
    requires DistinctAddresses(pools)
    requires forall p :: keep(p) ==> p.address == address
    ensures |Filter(pools, keep)| <= 1
    decreases |pools|
  {
    if pools != [] {
      AtMostOneWithAddress(pools[1..], keep, address);
    }
  }

  /**
   * With distinct addresses at most one pool is significant, so a diversity
   * threshold of 2 or more (the default is 2) is never met.
   */
  lemma DistinctAddressesNeverDiverse(current: Pool, pools: seq<Pool>, config: Config, tvl: real)
    requires DistinctAddresses(pools)
    requires config.diversityThreshold >= 2
    ensures |SignificantPools(pools, current, config)| <= 1
    ensures AnalyzePoolHealth(current, pools, config, tvl).diversityHealth == 0.0
  {
    AtMostOneWithAddress(pools, p => Significant(p, current, config), current.address);
  }

  /** With the configuration `init` installs and distinct addresses, diversity never counts. */
  lemma DefaultConfigNeverDiverse(current: Pool, pools: seq<Pool>, tvl: real)
    requires DistinctAddresses(pools)
    ensures AnalyzePoolHealth(current, pools, DefaultConfig, tvl).diversityHealth == 0.0
  {
    DistinctAddressesNeverDiverse(current, pools, DefaultConfig, tvl);
  }

  /** The comparison cohorts hold exactly the strictly larger (busier) pools, never the pool itself. */
  lemma CohortsAreStrictlyHigher(current: Pool, pools: seq<Pool>)
    ensures forall p :: p in HigherTVLPools(pools, current) <==> p in pools && p.liquidity > current.liquidity
    ensures forall p :: p in HigherVolumePools(pools, current) <==> p in pools && p.volume24h > current.volume24h
    ensures current !in HigherTVLPools(pools, current) && current !in HigherVolumePools(pools, current)
  {
  }

  /** An empty cohort contributes 0, not NaN. */
  lemma EmptyCohortsScoreZero(current: Pool, pools: seq<Pool>, config: Config, tvl: real)
    ensures (forall p :: p in pools ==> p.liquidity <= current.liquidity) ==>
              AnalyzePoolHealth(current, pools, config, tvl).higherTVLReturn == 0.0
    ensures (forall p :: p in pools ==> p.volume24h <= current.volume24h) ==>
              AnalyzePoolHealth(current, pools, config, tvl).higherVolumeReturn == 0.0
  {
    var higherTVL := HigherTVLPools(pools, current);
    if higherTVL != [] {
      assert higherTVL[0] in higherTVL;
    }
    var higherVolume := HigherVolumePools(pools, current);
    if higherVolume != [] {
      assert higherVolume[0] in higherVolume;
    }
  }

  lemma {:induction false} SumWithinBounds(s: seq<Pool>, f: Pool -> real)
    requires forall p :: p in s ==> 0.0 <= f(p) <= 1.0
    ensures 0.0 <= Sum(s, f) <= |s| as real
    decreases |s|
  {
    if s != [] {
      assert s[0] in s;
      assert forall p :: p in s[1..] ==> p in s;
      SumWithinBounds(s[1..], f);
    }
  }

  /** The mean of values in [0, 1] is in [0, 1]. */
  lemma MeanWithinBounds(s: seq<Pool>, f: Pool -> real)
    requires forall p :: p in s ==> 0.0 <= f(p) <= 1.0
    ensures 0.0 <= Mean(s, f) <= 1.0
  {
    if |s| > 0 {
      SumWithinBounds(s, f);
      QuotientBounds(Sum(s, f), |s| as real);
    }
  }

  /** The weighted score lies in [0, 1] when each of its five metrics does. */
  lemma HealthScoreWithinBounds(l: real, v: real, d: real, t: real, w: real)
    requires 0.0 <= l <= 1.0 && 0.0 <= v <= 1.0 && 0.0 <= d <= 1.0
    requires 0.0 <= t <= 1.0 && 0.0 <= w <= 1.0
    ensures 0.0 <= HealthScore(l, v, d, t, w) <= 1.0
  {
  }

  /**
   * When no pool earns more fees than it has liquidity or volume, the score of
   * the analysis lies in [0, 1] (the panel labels it "/5").
   */
  lemma AnalyzedScoreWithinBounds(current: Pool, pools: seq<Pool>, config: Config, tvl: real)
    requires forall p :: p in pools ==> 0.0 <= FeesPerLiquidity(p) <= 1.0 && 0.0 <= FeesPerVolume(p) <= 1.0
    ensures 0.0 <= AnalyzePoolHealth(current, pools, config, tvl).healthScore <= 1.0
  {
    MeanWithinBounds(HigherTVLPools(pools, current), FeesPerLiquidity);
    MeanWithinBounds(HigherVolumePools(pools, current), FeesPerVolume);
  }

  /** A pool that meets all three flags and has no larger or busier rival scores 0.6. */
  lemma TopPoolWithAllFlagsScoresSixTenths(current: Pool, pools: seq<Pool>, config: Config, tvl: real)
    requires current.liquidity >= config.minLiquidity && current.volume24h >= config.minVolume
    requires |SignificantPools(pools, current, config)| >= config.diversityThreshold
    requires forall p :: p in pools ==> p.liquidity <= current.liquidity && p.volume24h <= current.volume24h
    ensures AnalyzePoolHealth(current, pools, config, tvl).healthScore == 0.6
  {
    EmptyCohortsScoreZero(current, pools, config, tvl);
  }

  /**
   * With distinct addresses the diversity flag never counts, so the largest
   * and busiest pool meeting both thresholds scores 0.4.
   */
  lemma DistinctTopPoolScoresFourTenths(current: Pool, pools: seq<Pool>, config: Config, tvl: real)
    requires DistinctAddresses(pools) && config.diversityThreshold >= 2
    requires current.liquidity >= config.minLiquidity && current.volume24h >= config.minVolume
    requires forall p :: p in pools ==> p.liquidity <= current.liquidity && p.volume24h <= current.volume24h
    ensures AnalyzePoolHealth(current, pools, config, tvl).healthScore == 0.4
  {
    EmptyCohortsScoreZero(current, pools, config, tvl);
    DistinctAddressesNeverDiverse(current, pools, config, tvl);
  }

  /**
   * The health panel's contribution and projected return are the estimate
   * panel's figures with the deposit always added to the pool.
   */
  lemma ContributionMatchesEstimate(current: Pool, tvl: real)
    ensures var e := Estimation.Estimate(current, tvl, true);
            && (UserContribution(current, tvl).None? <==> e.None?)
            && (ProjectedReturn(current, tvl).None? <==> e.None?)
            && (e.Some? ==> UserContribution(current, tvl).value == e.value.percentOfPool)
            && (e.Some? ==> ProjectedReturn(current, tvl).value == e.value.dailyReturn)
  {
  }
}
