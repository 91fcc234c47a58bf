/**
 * The search dropdown (`displayResults`): pools whose name or address contains
 * the query, ignoring case, that meet both thresholds, listed by liquidity,
 * highest first.
 */
module Search {
  import opened Wrappers
  import opened Pools
  import opened Sequences

  /** `toLowerCase` on one character; only the ASCII letters A to Z change. */
  function LowerChar(c: char): char {
    if 'A' <= c <= 'Z' then (c as int + 32) as char else c
  }

  /**
   * `toLowerCase` on a string: each letter A to Z becomes its letter a to z,
   * every other character stays as it is, and the length is unchanged.
   */
  function Lower(s: string): (r: string)
    ensures |r| == |s|
    ensures forall i :: 0 <= i < |s| && 'A' <= s[i] <= 'Z' ==> r[i] == (s[i] as int + 32) as char
    ensures forall i :: 0 <= i < |r| ==> !('A' <= r[i] <= 'Z')
    ensures forall i :: 0 <= i < |s| && !('A' <= s[i] <= 'Z') ==> r[i] == s[i]
  {
    seq(|s|, i requires 0 <= i < |s| => LowerChar(s[i]))
  }

  /** Lower-casing twice is lower-casing once. */
  lemma LowerIsIdempotent(s: string)
    ensures Lower(Lower(s)) == Lower(s)
  {
    assert forall i :: 0 <= i < |s| ==> Lower(Lower(s))[i] == Lower(s)[i];
  }

  /** `s.includes(sub)`: `sub` starts at the front of `s` or somewhere further on. */
  function Contains(s: string, sub: string): bool
    decreases |s|
  {
    (|sub| <= |s| && s[..|sub|] == sub) || (|s| > 0 && Contains(s[1..], sub))
  }

  /** `sub` occurs in `s` starting at position `i`. */
  predicate OccursAt(s: string, sub: string, i: int) {
    0 <= i <= |s| - |sub| && s[i..i + |sub|] == sub
  }

  /** `Contains` finds exactly the strings that occur somewhere in `s`. */
  lemma {:induction false} ContainsIffOccurs(s: string, sub: string)
    ensures Contains(s, sub) <==> exists i :: OccursAt(s, sub, i)
    decreases |s|
  {
    if |sub| <= |s| && s[..|sub|] == sub {
      assert OccursAt(s, sub, 0);
    } else if |s| > 0 {
      ContainsIffOccurs(s[1..], sub);
      if Contains(s[1..], sub) {
        var i :| OccursAt(s[1..], sub, i);
        assert s[i + 1..i + 1 + |sub|] == s[1..][i..i + |sub|];
        assert OccursAt(s, sub, i + 1);
      } else {
        forall i | OccursAt(s, sub, i)
          ensures false
        {
          if i != 0 {
            assert s[i..i + |sub|] == s[1..][i - 1..i - 1 + |sub|];
            assert OccursAt(s[1..], sub, i - 1);
          }
        }
      }
    } else {
      forall i | OccursAt(s, sub, i)
        ensures false
      {
      }
    }
  }

  /** The query is found in the pool's lower-cased name or lower-cased address. */
  predicate Matches(p: Pool, query: string) {
    Contains(Lower(p.name), query) || Contains(Lower(p.address), query)
  }

  /** The filter of the dropdown: a match that meets both thresholds. */
  predicate Qualifies(p: Pool, query: string, minLiquidity: Option<real>, minVolume: Option<real>) {
    Matches(p, query) && AtLeast(p.liquidity, minLiquidity) && AtLeast(p.volume24h, minVolume)
  }

  /**
   * A pool qualifies exactly when the lower-cased query occurs somewhere in its
   * lower-cased name or address and it meets both thresholds.
   */
  lemma QualifiesIffQueryOccurs(p: Pool, query: string, minLiquidity: Option<real>, minVolume: Option<real>)
    ensures Qualifies(p, Lower(query), minLiquidity, minVolume) <==>
              && ((exists i :: OccursAt(Lower(p.name), Lower(query), i))
                  || (exists i :: OccursAt(Lower(p.address), Lower(query), i)))
              && AtLeast(p.liquidity, minLiquidity)
              && AtLeast(p.volume24h, minVolume)
  {
    ContainsIffOccurs(Lower(p.name), Lower(query));
    ContainsIffOccurs(Lower(p.address), Lower(query));
  }

  /** The sort key of the dropdown. */
  function LiquidityOf(p: Pool): real {
    p.liquidity
  }

  /**
   * The dropdown's entries, or `None` when it is hidden: the query is empty
   * and the search field does not have the focus.
   */
  function Search(pools: seq<Pool>, query: string, focused: bool,
                  minLiquidity: Option<real>, minVolume: Option<real>): (r: Option<seq<Pool>>)
    ensures r.None? <==> query == "" && !focused
    ensures r.Some? ==> SortedDesc(r.value, LiquidityOf)
    ensures r.Some? ==> forall p :: p in r.value <==>
              p in pools && Qualifies(p, Lower(query), minLiquidity, minVolume)
    ensures r.Some? ==> forall p ::
              multiset(r.value)[p] == if Qualifies(p, Lower(query), minLiquidity, minVolume) then multiset(pools)[p] else 0
  {
    var q := Lower(query);
    if q != "" || focused then
      Some(SortDesc(Filter(pools, p => Qualifies(p, q, minLiquidity, minVolume)), LiquidityOf))
    else None
  }

  /**
   * Pools of equal liquidity are listed in the API's order: `filter` keeps the
   * order of the list and the stable `sort` keeps it among ties.
   */
  lemma SearchKeepsTiesInInputOrder(pools: seq<Pool>, query: string, focused: bool,
                                    minLiquidity: Option<real>, minVolume: Option<real>, k: real)
    requires query != "" || focused
    ensures WithKey(Search(pools, query, focused, minLiquidity, minVolume).value, LiquidityOf, k)
         == WithKey(Filter(pools, p => Qualifies(p, Lower(query), minLiquidity, minVolume)), LiquidityOf, k)
  {
    SortDescIsStable(Filter(pools, p => Qualifies(p, Lower(query), minLiquidity, minVolume)), LiquidityOf, k);
  }

  /** Focusing the empty search field lists every pool that meets the thresholds. */
  lemma FocusedEmptyQueryListsQualifyingPools(pools: seq<Pool>, minLiquidity: Option<real>, minVolume: Option<real>)
    ensures Search(pools, "", true, minLiquidity, minVolume).Some?
    ensures forall p :: p in Search(pools, "", true, minLiquidity, minVolume).value <==>
              p in pools && AtLeast(p.liquidity, minLiquidity) && AtLeast(p.volume24h, minVolume)
  {
    forall p: Pool
      ensures Matches(p, Lower(""))
    {
      assert Lower(p.name)[..0] == "";
    }
  }

  /** The case of the query does not matter. */
  lemma SearchIgnoresCase(pools: seq<Pool>, query: string, focused: bool,
                          minLiquidity: Option<real>, minVolume: Option<real>)
    ensures Search(pools, query, focused, minLiquidity, minVolume)
         == Search(pools, Lower(query), focused, minLiquidity, minVolume)
  {
    LowerIsIdempotent(query);
  }

  /** An empty or unparsable threshold field hides every pool: `x >= NaN` is false. */
  lemma NaNThresholdHidesEveryPool(pools: seq<Pool>, query: string, focused: bool, minVolume: Option<real>)
    requires query != "" || focused
    ensures Search(pools, query, focused, None, minVolume) == Some([])
  {
  }
}
