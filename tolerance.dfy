/** The tolerance constant shared by the normalisation assertion and the
    completion test of simulate. */
module Tolerance {
  /** EPSILON = 1e-8: a job whose remaining size drops below it has completed,
      and a distribution mean within it of 1 counts as normalised. */
  const EPSILON: real := 0.00000001
}
