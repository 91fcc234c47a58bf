/**
 * The pool-detail estimate (`estimate`): for the selected pool, the share of
 * the pool the user's deposit would be, the fees it would earn in a day, and
 * the number of days until those fees repay the deposit.
 */
module Estimation {
  import opened Wrappers
  import opened Pools
  import Ranking

  /**
   * The three figures of the estimate panel. `timeToROI` is `None` where the
   * daily return is 0 and the dashboard's own division gives Infinity or NaN.
   */
  datatype EstimateFigures = EstimateFigures(percentOfPool: real, dailyReturn: real, timeToROI: Option<real>)

  /**
   * The estimate for `pool` and a deposit of `tvl`; `None` when the effective
   * liquidity is 0 and every figure would be non-finite.
   */
  function Estimate(pool: Pool, tvl: real, tvlIsAdded: bool): (r: Option<EstimateFigures>)
    ensures r.None? <==> Ranking.EffectiveLiquidity(pool.liquidity, tvl, tvlIsAdded) == 0.0
    ensures r.Some? ==>
              r.value.percentOfPool * Ranking.EffectiveLiquidity(pool.liquidity, tvl, tvlIsAdded) == tvl * 100.0
    ensures r.Some? ==> r.value.dailyReturn == r.value.percentOfPool / 100.0 * pool.fees24h
    ensures r.Some? ==> (r.value.timeToROI.None? <==> tvl == 0.0 || pool.fees24h == 0.0)
    ensures r.Some? && r.value.timeToROI.Some? ==> r.value.timeToROI.value * r.value.dailyReturn == tvl
  {
    var effectiveLiquidity := Ranking.EffectiveLiquidity(pool.liquidity, tvl, tvlIsAdded);
    if effectiveLiquidity == 0.0 then None
    else
      var share := tvl / effectiveLiquidity;
      var dailyReturn := share * pool.fees24h;
      assert share * effectiveLiquidity == tvl;
      assert share == 0.0 <==> tvl == 0.0;
      assert dailyReturn == 0.0 <==> tvl == 0.0 || pool.fees24h == 0.0;
      Some(EstimateFigures(
        share * 100.0,
        dailyReturn,
        if dailyReturn == 0.0 then None else Some(tvl / dailyReturn)))
  }

  /**
   * The payback time does not depend on the deposit's size beyond the
   * denominator: it is the effective liquidity divided by the pool's daily fees.
   */
  lemma PaybackIsLiquidityOverFees(pool: Pool, tvl: real, tvlIsAdded: bool)
    requires Ranking.EffectiveLiquidity(pool.liquidity, tvl, tvlIsAdded) != 0.0
    requires tvl != 0.0 && pool.fees24h != 0.0
    ensures Estimate(pool, tvl, tvlIsAdded).value.timeToROI
         == Some(Ranking.EffectiveLiquidity(pool.liquidity, tvl, tvlIsAdded) / pool.fees24h)
  {
  }

  /** A deposit of 0 earns nothing and never pays back. */
  lemma ZeroDepositEarnsNothing(pool: Pool, tvlIsAdded: bool)
    requires pool.liquidity != 0.0
    ensures Estimate(pool, 0.0, tvlIsAdded).Some?
    ensures Estimate(pool, 0.0, tvlIsAdded).value.dailyReturn == 0.0
    ensures Estimate(pool, 0.0, tvlIsAdded).value.percentOfPool == 0.0
    ensures Estimate(pool, 0.0, tvlIsAdded).value.timeToROI.None?
  {
  }

  /** Without the checkbox the deposit is never part of the denominator. */
  lemma UncheckedBoxUsesPoolLiquidity(pool: Pool, tvl: real)
    requires pool.liquidity != 0.0
    ensures Estimate(pool, tvl, false).Some?
    ensures Estimate(pool, tvl, false).value.percentOfPool * pool.liquidity == tvl * 100.0
  {
  }

  /**
   * With the deposit added to a pool of non-negative liquidity, a positive
   * deposit is more than 0% and at most 100% of the pool.
   */
  lemma AddedDepositIsAPartOfThePool(pool: Pool, tvl: real)
    requires tvl > 0.0 && pool.liquidity >= 0.0
    ensures Estimate(pool, tvl, true).Some?
    ensures 0.0 < Estimate(pool, tvl, true).value.percentOfPool <= 100.0
  {
    var eff := pool.liquidity + tvl;
    QuotientBounds(tvl, eff);
    assert Estimate(pool, tvl, true).value.percentOfPool == tvl / eff * 100.0;
  }

  /**
   * The estimate panel and the ranking table agree: for a pool that passes the
   * thresholds, the estimated daily return is its ranked return.
   */
  lemma EstimateAgreesWithRanking(pool: Pool, tvl: real, inputs: Ranking.UserInputs)
    requires !Ranking.UnderThreshold(pool, inputs)
    requires Ranking.EffectiveLiquidity(pool.liquidity, tvl, inputs.tvlIsAdded) != 0.0
    ensures Estimate(pool, tvl, inputs.tvlIsAdded).Some?
    ensures Estimate(pool, tvl, inputs.tvlIsAdded).value.dailyReturn == Ranking.DailyReturn(pool, tvl, inputs)
  {
  }
}
