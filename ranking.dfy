/**
 * The "Top 50 Most Profitable DLMM Pools" table (`calculateTopProfitablePools`):
 * every pool gets the share of its 24-hour fees that the user's deposit would
 * earn, the list is ordered by that return, highest first, and its first 50
 * entries are shown.
 */
module Ranking {
  import opened Wrappers
  import opened Pools
  import opened Sequences

  /** How many ranked pools the table shows (`slice(0, 50)`). */
  const DisplayLimit: nat := 50

  /**
   * The form fields the ranking reads besides the TVL: the two thresholds,
   * each parsed with parseFloat (`None` is NaN), and the "TVL is added"
   * checkbox.
   */
  datatype UserInputs = UserInputs(
    minLiquidity: Option<real>,
    minVolume: Option<real>,
    tvlIsAdded: bool)

  /** A pool record with its projected return attached: `{...pool, dailyReturn}`. */
  datatype RankedPool = RankedPool(pool: Pool, dailyReturn: real)

  /** The sort key of the ranking. */
  function ReturnOf(e: RankedPool): real {
    e.dailyReturn
  }

  /** A pool the user's thresholds rule out; it stays in the list with return 0. */
  predicate UnderThreshold(p: Pool, inputs: UserInputs) {
    Below(p.liquidity, inputs.minLiquidity) || Below(p.volume24h, inputs.minVolume)
  }

  /** The pool's liquidity, with the deposit added when the checkbox is ticked. */
  function EffectiveLiquidity(liquidity: real, tvl: real, tvlIsAdded: bool): real {
    if tvlIsAdded then liquidity + tvl else liquidity
  }

  /**
   * `(userTVL / effectiveLiquidity) * fees_24h`: a pool under either threshold
   * is kept but projected to earn nothing; otherwise the return is the
   * deposit's share of the pool's fees.
   */
  function DailyReturn(p: Pool, tvl: real, inputs: UserInputs): (r: real)
    ensures UnderThreshold(p, inputs) ==> r == 0.0
    ensures !UnderThreshold(p, inputs) && EffectiveLiquidity(p.liquidity, tvl, inputs.tvlIsAdded) != 0.0 ==>
              r * EffectiveLiquidity(p.liquidity, tvl, inputs.tvlIsAdded) == tvl * p.fees24h
    ensures EffectiveLiquidity(p.liquidity, tvl, inputs.tvlIsAdded) == 0.0 ==> r == 0.0
  {
    if UnderThreshold(p, inputs) then 0.0
    else
      var effectiveLiquidity := EffectiveLiquidity(p.liquidity, tvl, inputs.tvlIsAdded);
      var share := Ratio(tvl, effectiveLiquidity);
      assert share * p.fees24h * effectiveLiquidity == (share * effectiveLiquidity) * p.fees24h;
      share * p.fees24h
  }

  /** `pools.map(...)`: one entry per pool, in the same position, the pool itself unchanged. */
  function WithReturns(pools: seq<Pool>, tvl: real, inputs: UserInputs): (r: seq<RankedPool>)
    ensures |r| == |pools|
    ensures forall i :: 0 <= i < |pools| ==>
              r[i].pool == pools[i] && r[i].dailyReturn == DailyReturn(pools[i], tvl, inputs)
    decreases |pools|
  {
    if pools == [] then []
    else [RankedPool(pools[0], DailyReturn(pools[0], tvl, inputs))] + WithReturns(pools[1..], tvl, inputs)
  }

  /**
   * The whole ranked list, before it is cut to the display limit. There is no
   * list when the TVL field reads 0 or NaN (`if (!userTVL) return`).
   */
  function RankPools(pools: seq<Pool>, tvl: Option<real>, inputs: UserInputs): (r: Option<seq<RankedPool>>)
    ensures r.None? <==> tvl.None? || tvl.value == 0.0
    ensures r.Some? ==> SortedDesc(r.value, ReturnOf)
    ensures r.Some? ==> multiset(r.value) == multiset(WithReturns(pools, tvl.value, inputs))
  {
    if tvl.None? || tvl.value == 0.0 then None
    else Some(SortDesc(WithReturns(pools, tvl.value, inputs), ReturnOf))
  }

  /** The rows of the table: the first `DisplayLimit` entries of the ranked list. */
  function TopProfitablePools(pools: seq<Pool>, tvl: Option<real>, inputs: UserInputs): (r: Option<seq<RankedPool>>)
    ensures r.None? <==> tvl.None? || tvl.value == 0.0
    ensures r.Some? ==> |r.value| == if |pools| < DisplayLimit then |pools| else DisplayLimit
    ensures r.Some? ==> r.value == RankPools(pools, tvl, inputs).value[..|r.value|]
  {
    match RankPools(pools, tvl, inputs)
    case None => None
    case Some(ranked) => Some(Take(ranked, DisplayLimit))
  }

  /**
   * The "TVL is added" checkbox decides the denominator: above the thresholds,
   * the deposit is part of the denominator exactly when the box is ticked.
   */
  lemma DailyReturnIsShareOfFees(p: Pool, tvl: real, inputs: UserInputs)
    requires !UnderThreshold(p, inputs)
    ensures inputs.tvlIsAdded && p.liquidity + tvl != 0.0 ==>
              DailyReturn(p, tvl, inputs) * (p.liquidity + tvl) == tvl * p.fees24h
    ensures !inputs.tvlIsAdded && p.liquidity != 0.0 ==>
              DailyReturn(p, tvl, inputs) * p.liquidity == tvl * p.fees24h
  {
  }

  lemma {:induction false} WithReturnsCounts(pools: seq<Pool>, tvl: real, inputs: UserInputs, p: Pool)
    ensures multiset(WithReturns(pools, tvl, inputs))[RankedPool(p, DailyReturn(p, tvl, inputs))]
         == multiset(pools)[p]
    decreases |pools|
  {
    if pools != [] {
      WithReturnsCounts(pools[1..], tvl, inputs, p);
      assert pools == [pools[0]] + pools[1..];
      var r := WithReturns(pools, tvl, inputs);
      assert r == [r[0]] + WithReturns(pools[1..], tvl, inputs);
    }
  }

  /**
   * The ranking maps one to one: each entry is an input pool with its own
   * projected return, and each pool appears as often as in the input.
   */
  lemma RankedEntriesAreAnnotatedPools(pools: seq<Pool>, tvl: Option<real>, inputs: UserInputs, p: Pool)
    requires RankPools(pools, tvl, inputs).Some?
    ensures forall e :: e in RankPools(pools, tvl, inputs).value ==>
              e.pool in pools && e.dailyReturn == DailyReturn(e.pool, tvl.value, inputs)
    ensures multiset(RankPools(pools, tvl, inputs).value)[RankedPool(p, DailyReturn(p, tvl.value, inputs))]
         == multiset(pools)[p]
    ensures |RankPools(pools, tvl, inputs).value| == |pools|
  {
    var deposit := tvl.value;
    var mapped := WithReturns(pools, deposit, inputs);
    var ranked := RankPools(pools, tvl, inputs).value;
    forall e | e in ranked
      ensures e.pool in pools && e.dailyReturn == DailyReturn(e.pool, deposit, inputs)
    {
      assert e in multiset(ranked);
      assert e in mapped;
      var i :| 0 <= i < |mapped| && mapped[i] == e;
    }
    WithReturnsCounts(pools, deposit, inputs, p);
    assert |ranked| == |multiset(ranked)| == |multiset(mapped)| == |mapped|;
  }

  /** Every pool with a positive return is ranked ahead of every pool under the thresholds. */
  lemma PositiveReturnsRankFirst(pools: seq<Pool>, tvl: Option<real>, inputs: UserInputs, i: nat, j: nat)
    requires RankPools(pools, tvl, inputs).Some?
    requires i < |RankPools(pools, tvl, inputs).value| && j < |RankPools(pools, tvl, inputs).value|
    requires RankPools(pools, tvl, inputs).value[i].dailyReturn > 0.0
    requires UnderThreshold(RankPools(pools, tvl, inputs).value[j].pool, inputs)
    ensures i < j
  {
    var ranked := RankPools(pools, tvl, inputs).value;
    RankedEntriesAreAnnotatedPools(pools, tvl, inputs, ranked[j].pool);
    assert ranked[j] in ranked;
    assert ranked[j].dailyReturn == 0.0;
  }

  /** No pool left out of the table earns more than a pool shown in it. */
  lemma ShownPoolsOutearnHiddenOnes(pools: seq<Pool>, tvl: Option<real>, inputs: UserInputs, i: nat, j: nat)
    requires TopProfitablePools(pools, tvl, inputs).Some?
    requires i < |TopProfitablePools(pools, tvl, inputs).value| <= j < |RankPools(pools, tvl, inputs).value|
    ensures TopProfitablePools(pools, tvl, inputs).value[i].dailyReturn
         >= RankPools(pools, tvl, inputs).value[j].dailyReturn
  {
  }

  /** Pools with equal returns keep their order from the API's list. */
  lemma RankingKeepsTiesInInputOrder(pools: seq<Pool>, tvl: Option<real>, inputs: UserInputs, k: real)
    requires RankPools(pools, tvl, inputs).Some?
    ensures WithKey(RankPools(pools, tvl, inputs).value, ReturnOf, k)
         == WithKey(WithReturns(pools, tvl.value, inputs), ReturnOf, k)
  {
    SortDescIsStable(WithReturns(pools, tvl.value, inputs), ReturnOf, k);
  }

  /**
   * Two pools of 1000 and 2000 liquidity, both with 10 in fees and 500 in
   * volume, and a deposit of 100 that is added to the pool.
   */
  function ScenarioPools(): seq<Pool> {
    [Pool("A", "A-USDC", 1000.0, 500.0, 10.0), Pool("B", "B-USDC", 2000.0, 500.0, 10.0)]
  }

  /** With no thresholds the smaller pool earns 100/1100 * 10 and ranks first. */
  lemma ScenarioWithoutThresholds()
    ensures RankPools(ScenarioPools(), Some(100.0), UserInputs(Some(0.0), Some(0.0), true))
         == Some([RankedPool(ScenarioPools()[0], 10.0 / 11.0), RankedPool(ScenarioPools()[1], 10.0 / 21.0)])
  {
    var pools := ScenarioPools();
    var inputs := UserInputs(Some(0.0), Some(0.0), true);
    var ra := RankedPool(pools[0], 10.0 / 11.0);
    var rb := RankedPool(pools[1], 10.0 / 21.0);
    assert DailyReturn(pools[0], 100.0, inputs) == 10.0 / 11.0;
    assert DailyReturn(pools[1], 100.0, inputs) == 10.0 / 21.0;
    var mapped := WithReturns(pools, 100.0, inputs);
    assert mapped == [ra, rb];
    assert mapped[1..] == [rb];
    assert SortDesc([rb], ReturnOf) == [rb];
  }

  /** A liquidity threshold of 1500 forces the smaller pool's return to 0 and ranks it last. */
  lemma ScenarioWithLiquidityThreshold()
    ensures RankPools(ScenarioPools(), Some(100.0), UserInputs(Some(1500.0), Some(0.0), true))
         == Some([RankedPool(ScenarioPools()[1], 10.0 / 21.0), RankedPool(ScenarioPools()[0], 0.0)])
  {
    var pools := ScenarioPools();
    var inputs := UserInputs(Some(1500.0), Some(0.0), true);
    var za := RankedPool(pools[0], 0.0);
    var rb := RankedPool(pools[1], 10.0 / 21.0);
    assert DailyReturn(pools[0], 100.0, inputs) == 0.0;
    assert DailyReturn(pools[1], 100.0, inputs) == 10.0 / 21.0;
    var mapped := WithReturns(pools, 100.0, inputs);
    assert mapped == [za, rb];
    assert mapped[1..] == [rb];
    assert SortDesc([rb], ReturnOf) == [rb];
    assert [rb][1..] == [];
    assert Insert(za, [], ReturnOf) == [za];
    assert Insert(za, [rb], ReturnOf) == [rb, za];
  }
}
