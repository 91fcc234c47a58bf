/**
 * Two places in the health analysis where JavaScript's operators act on the
 * API's decimal strings instead of on numbers. Each is modelled here as
 * written, with an input that shows the discrepancy; the rest of the model
 * (module Health) uses the numeric meaning.
 */
module Findings {
  import opened Wrappers
  import opened Pools
  import Health

  /**
   * `a > b` on two JavaScript strings: characters are compared from the left,
   * and a string is greater than each of its proper prefixes. JavaScript
   * compares UTF-16 code units; on the digit strings used here the two orders
   * agree.
   */
  predicate StringGreater(a: string, b: string)
    decreases |a|
  {
    |a| > 0 && (|b| == 0 || a[0] > b[0] || (a[0] == b[0] && StringGreater(a[1..], b[1..])))
  }

  /**
   * The cohort test `p.liquidity > this.currentPool.liquidity` as written: both
   * sides are the API's liquidity strings.
   */
  predicate MoreLiquidAsWritten(liquidityText: string, currentLiquidityText: string) {
    StringGreater(liquidityText, currentLiquidityText)
  }

  /**
   * As written, a pool holding 900 counts as more liquid than one holding 1000,
   * while the numeric cohort leaves it out.
   */
  lemma TextComparisonMisordersLiquidity()
    ensures MoreLiquidAsWritten("900", "1000")
    ensures !MoreLiquidAsWritten("1000", "900")
    ensures var small := Pool("S", "S-USDC", 900.0, 0.0, 0.0);
            var large := Pool("L", "L-USDC", 1000.0, 0.0, 0.0);
            small !in Health.HigherTVLPools([small, large], large)
  {
    var small := Pool("S", "S-USDC", 900.0, 0.0, 0.0);
    var large := Pool("L", "L-USDC", 1000.0, 0.0, 0.0);
    Health.CohortsAreStrictlyHigher(large, [small, large]);
  }

  /**
   * JavaScript's string order is a strict order: two strings are never each
   * greater than the other. It is a different order from the numeric one,
   * as `TextComparisonMisordersLiquidity` above shows.
   */
  lemma {:induction false} StringGreaterIsAsymmetric(a: string, b: string)
    ensures !(StringGreater(a, b) && StringGreater(b, a))
    decreases |a|
  {
    if |a| > 0 && |b| > 0 && a[0] == b[0] {
      StringGreaterIsAsymmetric(a[1..], b[1..]);
    }
  }

  /** The value of a string of decimal digits. */
  function DigitsValue(s: string): nat
    requires forall i :: 0 <= i < |s| ==> '0' <= s[i] <= '9'
    decreases |s|
  {
    if s == [] then 0
    else DigitsValue(s[..|s| - 1]) * 10 + (s[|s| - 1] as int - '0' as int)
  }

  /**
   * `userTVL + this.currentPool.liquidity` as written: a number plus a string
   * is the concatenation of the number's text and the string.
   */
  function EffectiveLiquidityAsWritten(tvlText: string, liquidityText: string): (r: string)
    ensures |r| == |tvlText| + |liquidityText|
    ensures r[..|tvlText|] == tvlText && r[|tvlText|..] == liquidityText
  {
    tvlText + liquidityText
  }

  /**
   * As written, a deposit of 100 in a pool of 1000 is divided by 1001000
   * rather than by 1100, while the numeric contribution is 100/1100 of 100%.
   */
  lemma ConcatenationInflatesLiquidity()
    ensures DigitsValue(EffectiveLiquidityAsWritten("100", "1000")) == 1001000
    ensures Health.UserContribution(Pool("P", "P-USDC", 1000.0, 0.0, 0.0), 100.0) == Some(100.0 / 1100.0 * 100.0)
  {
    assert EffectiveLiquidityAsWritten("100", "1000") == "1001000";
    assert "1001000"[..6] == "100100";
    assert "100100"[..5] == "10010";
    assert "10010"[..4] == "1001";
    assert "1001"[..3] == "100";
    assert "100"[..2] == "10";
    assert "10"[..1] == "1";
    assert "1"[..0] == "";
    assert DigitsValue("1") == 1;
    assert DigitsValue("10") == 10;
    assert DigitsValue("100") == 100;
    assert DigitsValue("1001") == 1001;
    assert DigitsValue("10010") == 10010;
    assert DigitsValue("100100") == 100100;
  }
}
