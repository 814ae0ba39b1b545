/** System.Random, abstracted: the simulator seeds it from the clock, so its
    outputs are inputs of the model. A draw is given as an arbitrary raw
    integer; `Next` maps it into the requested range, so every possible
    outcome of `Random.Next(lo, hi)` is covered. */
module Randomness {

  /** Random.Next(lo, hi): an int in [lo, hi), or lo itself when lo == hi. */
  function Next(raw: int, lo: int, hi: int): (r: int)
    requires lo <= hi
    ensures lo == hi ==> r == lo
    ensures lo < hi ==> lo <= r < hi
  {
    if lo == hi then lo else lo + raw % (hi - lo)
  }

  /** Every value of the range is the outcome of some draw. */
  lemma NextCoversRange(lo: int, hi: int, v: int)
    requires lo <= v < hi
    ensures Next(v - lo, lo, hi) == v
  {
  }
}
