/** The capacity argument `tmax` shared by both loaders. */
module Capacity {

  /** The number of rows a loader may fill: `tmax`, or none when it is not
      positive (the loop guard `i < tmax` then fails at once). */
  function Room(tmax: int): nat {
    if tmax > 0 then tmax else 0
  }
}
