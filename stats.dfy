/** The column statistics pandas computes here: the sum and the mean of a group or window. */
module Stats {
  function Sum(xs: seq<real>): real {
    if xs == [] then 0.0 else xs[0] + Sum(xs[1..])
  }

  /** `mean` of a non-empty group or window. */
  function Mean(xs: seq<real>): real
    requires xs != []
  {
    Sum(xs) / |xs| as real
  }
}
