/**
 * Atomic fetch-max built from compare-and-swap, in two variants: one that always
 * exchanges (storing the current value back when it is already the larger), and one
 * that only attempts a store while `v` is larger than the value it last saw.
 *
 * The model is single-threaded: nobody else changes the cell between the load and the
 * exchange, and the exchange never fails spuriously, so each loop ends on its first pass.
 * `stores` counts the successful exchanges, to tell the two variants apart.
 */
module AtomicMinMax {

  /** `std::max(a, b)`: `b` when `a < b`, otherwise `a`. */
  function Max(a: int, b: int): (r: int)
    ensures r >= a && r >= b && (r == a || r == b)
  {
    if a < b then b else a
  }

  /** A `std::atomic<T>` holding a number. */
  class AtomicCell {
    var value: int
    /** How many stores the cell has taken. */
    ghost var stores: nat

    constructor (initial: int)
      ensures value == initial && stores == 0
    {
      value := initial;
      stores := 0;
    }

    /** load(): the value held. */
    method Load() returns (observed: int)
      ensures observed == value
    {
      observed := value;
    }

    /**
     * compare_exchange_weak(expected, desired): when the cell holds `expected` it takes
     * `desired` and reports success; otherwise it is left alone. Either way `observed` is
     * what the cell held, which is what the caller's `expected` reads afterwards.
     */
    method CompareExchangeWeak(expected: int, desired: int) returns (success: bool, observed: int)
      modifies this
      ensures success <==> old(value) == expected
      ensures observed == old(value)
      ensures success ==> value == desired && stores == old(stores) + 1
      ensures !success ==> value == old(value) && stores == old(stores)
    {
      observed := value;
      success := value == expected;
      if success {
        value := desired;
        stores := stores + 1;
      }
    }
  }

  /**
   * atomic_fetch_max_read_modify_write: returns the value held just before the successful
   * exchange and leaves the larger of it and `v`; it stores even when that is the old value.
   */
  method FetchMaxReadModifyWrite(cell: AtomicCell, v: int) returns (t: int)
    modifies cell
    ensures t == old(cell.value)
    ensures cell.value == Max(v, t) && cell.value >= old(cell.value) && cell.value >= v
    ensures cell.stores == old(cell.stores) + 1
  {
    t := cell.Load();
    var exchanged := false;
    while !exchanged
      invariant !exchanged ==> t == cell.value == old(cell.value) && cell.stores == old(cell.stores)
      invariant exchanged ==>
        t == old(cell.value) && cell.value == Max(v, t) && cell.stores == old(cell.stores) + 1
      decreases if exchanged then 0 else 1
    {
      exchanged, t := cell.CompareExchangeWeak(t, Max(v, t));
    }
  }

  /**
   * atomic_fetch_max_read_and_conditional_store: returns the value held before the call;
   * stores `v` only when it is larger than that value, and otherwise stores nothing.
   */
  method FetchMaxConditionalStore(cell: AtomicCell, v: int) returns (t: int)
    modifies cell
    ensures t == old(cell.value)
    ensures cell.value == Max(v, t) && cell.value >= old(cell.value) && cell.value >= v
    ensures cell.stores == if v > t then old(cell.stores) + 1 else old(cell.stores)
  {
    t := cell.Load();
    var exchanged := false;
    while !exchanged && Max(v, t) != t
      invariant t == old(cell.value)
      invariant !exchanged ==> cell.value == old(cell.value) && cell.stores == old(cell.stores)
      invariant exchanged ==> v > t && cell.value == v && cell.stores == old(cell.stores) + 1
      decreases if exchanged then 0 else 1
    {
      exchanged, t := cell.CompareExchangeWeak(t, v);
    }
  }
}
