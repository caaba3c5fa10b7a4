/**
 * The companion slide store (a zustand store): three fields, each
 * overwritten on its own by one setter.
 */
module ScrollStore {

  /** The store's data fields, as one value. */
  datatype StoreState = StoreState(currentIndex: int, progress: real, direction: int)

  /** The state the store is created with. */
  const Initial: StoreState := StoreState(0, 0.0, 0)

  /** The effect of `setCurrentIndex(i)`: only `currentIndex` changes. */
  function WithCurrentIndex(st: StoreState, i: int): (r: StoreState)
    ensures r.currentIndex == i && r.progress == st.progress && r.direction == st.direction
  {
    st.(currentIndex := i)
  }

  /** The effect of `setProgress(p)`: only `progress` changes. */
  function WithProgress(st: StoreState, p: real): (r: StoreState)
    ensures r.progress == p && r.currentIndex == st.currentIndex && r.direction == st.direction
  {
    st.(progress := p)
  }

  /** The effect of `setDirection(d)`: only `direction` changes. */
  function WithDirection(st: StoreState, d: int): (r: StoreState)
    ensures r.direction == d && r.currentIndex == st.currentIndex && r.progress == st.progress
  {
    st.(direction := d)
  }

  /** Applying a setter twice with the same value is the same as applying it once. */
  lemma SettersIdempotent(st: StoreState, i: int, p: real, d: int)
    ensures WithCurrentIndex(WithCurrentIndex(st, i), i) == WithCurrentIndex(st, i)
    ensures WithProgress(WithProgress(st, p), p) == WithProgress(st, p)
    ensures WithDirection(WithDirection(st, d), d) == WithDirection(st, d)
  {
  }

  /** Setters of different fields do not interfere: their order does not matter. */
  lemma SettersCommute(st: StoreState, i: int, p: real, d: int)
    ensures WithProgress(WithCurrentIndex(st, i), p) == WithCurrentIndex(WithProgress(st, p), i)
    ensures WithDirection(WithCurrentIndex(st, i), d) == WithCurrentIndex(WithDirection(st, d), i)
    ensures WithDirection(WithProgress(st, p), d) == WithProgress(WithDirection(st, d), p)
  {
  }

  /** The mutable store object. */
  class CoffeeScrollStore {
    var currentIndex: int
    var progress: real
    var direction: int

    /** The store's fields as a value. */
    function Snapshot(): StoreState
      reads this
    {
      StoreState(currentIndex, progress, direction)
    }

    constructor ()
      ensures Snapshot() == Initial
    {
      currentIndex, progress, direction := 0, 0.0, 0;
    }

    method SetCurrentIndex(i: int)
      modifies this
      ensures Snapshot() == WithCurrentIndex(old(Snapshot()), i)
    {
      currentIndex := i;
    }

    method SetProgress(p: real)
      modifies this
      ensures Snapshot() == WithProgress(old(Snapshot()), p)
    {
      progress := p;
    }

    method SetDirection(d: int)
      modifies this
      ensures Snapshot() == WithDirection(old(Snapshot()), d)
    {
      direction := d;
    }
  }
}
