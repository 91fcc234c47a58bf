/**
 * Pool records of the DLMM pair API and the number conventions the dashboard
 * applies to them and to its form inputs.
 */
module Pools {
  import opened Wrappers

  /**
   * One DLMM pair as listed by `GET /pair/all`. The API sends `liquidity` and
   * `fees_24h` as decimal strings and `trade_volume_24h` as a number; the
   * dashboard parses them before any arithmetic, and the model holds the
   * parsed values. Fields the computations never read (bin step, base fee,
   * mints, cumulative volumes) are left out.
   */
  datatype Pool = Pool(
    address: string,
    name: string,
    liquidity: real,
    volume24h: real,
    fees24h: real)

  /**
   * `x < t` where `t` is a threshold read from a form field with parseFloat:
   * an empty or unparsable field gives NaN (here `None`), and every comparison
   * with NaN is false.
   */
  predicate Below(x: real, t: Option<real>) {
    t.Some? && x < t.value
  }

  /** `x >= t` for a parsed threshold `t`; false when `t` is NaN. */
  predicate AtLeast(x: real, t: Option<real>) {
    t.Some? && x >= t.value
  }

  /**
   * A parsed threshold splits the pools into those below it and those at least
   * at it; a NaN threshold puts every pool in neither group.
   */
  lemma ThresholdSplitsPools(x: real, t: Option<real>)
    ensures t.None? ==> !Below(x, t) && !AtLeast(x, t)
    ensures t.Some? ==> (Below(x, t) <==> !AtLeast(x, t))
  {
  }

  /**
   * `a / b` where `b` is non-zero. Where JavaScript would produce Infinity or
   * NaN (a zero divisor) the model yields 0.
   */
  function Ratio(a: real, b: real): (r: real)
    ensures b != 0.0 ==> r * b == a
    ensures b == 0.0 ==> r == 0.0
  {
    if b == 0.0 then 0.0 else a / b
  }

  /** A part of a positive whole is between 0 and 1 of it. */
  lemma QuotientBounds(part: real, whole: real)
    requires 0.0 <= part <= whole && 0.0 < whole
    ensures 0.0 <= part / whole <= 1.0
    ensures part > 0.0 ==> part / whole > 0.0
  {
  }
}
