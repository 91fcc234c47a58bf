/**
 * Choosing the pool the detail panel shows (`updatePoolData`): a pool picked
 * from the search dropdown is used as it is; a click on a row of the ranking
 * table passes only the row's address, which is looked up in the pool list.
 */
module Selection {
  import opened Wrappers
  import opened Pools

  /** The position of the first pool with `address`: where `find(p => p.address === address)` stops. */
  function FirstIndexOf(pools: seq<Pool>, address: string): (r: Option<nat>)
    ensures r.Some? ==> r.value < |pools| && pools[r.value].address == address
    ensures r.Some? ==> forall j :: 0 <= j < r.value ==> pools[j].address != address
    ensures r.None? ==> forall j :: 0 <= j < |pools| ==> pools[j].address != address
    decreases |pools|
  {
    if pools == [] then None
    else if pools[0].address == address then Some(0)
    else
      match FirstIndexOf(pools[1..], address)
      case None => None
      case Some(i) => Some(i + 1)
  }

  /** `allPoolData.find(p => p.address === address)`; `None` stands for `undefined`. */
  function FindByAddress(pools: seq<Pool>, address: string): (r: Option<Pool>)
    ensures r.None? <==> forall p :: p in pools ==> p.address != address
    ensures r.Some? ==> r.value in pools && r.value.address == address
    ensures r.Some? ==> exists i :: 0 <= i < |pools| && pools[i] == r.value && FirstWithAddress(pools, address, i)
  {
    match FirstIndexOf(pools, address)
    case None => None
    case Some(i) => Some(pools[i])
  }

  /** `pools[i]` is the first pool in the list with `address`. */
  predicate FirstWithAddress(pools: seq<Pool>, address: string, i: nat) {
    && i < |pools|
    && pools[i].address == address
    && forall j :: 0 <= j < i ==> pools[j].address != address
  }

  /**
   * The pool `updatePoolData(pool, poolAddress)` makes current. An empty
   * address is falsy in JavaScript and counts as no address. `None` is the case
   * where no pool results and reading `pool.name` throws, so the current pool
   * is left as it was.
   */
  function SelectPool(picked: Option<Pool>, address: string, pools: seq<Pool>): (r: Option<Pool>)
    ensures picked.Some? ==> r == picked
    ensures picked.None? && address == "" ==> r.None?
    ensures picked.None? && address != "" ==>
              (r.None? <==> forall p :: p in pools ==> p.address != address)
    ensures picked.None? && r.Some? ==> r.value in pools && r.value.address == address
    ensures picked.None? && address != "" && r.Some? ==>
              exists i :: 0 <= i < |pools| && pools[i] == r.value && FirstWithAddress(pools, address, i)
  {
    if address != "" && picked.None? then FindByAddress(pools, address) else picked
  }
}
