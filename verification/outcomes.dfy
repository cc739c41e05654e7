/** The exceptions the plotting layer can raise, and the result types that carry them. */
module Outcomes {

  /** Why an operation raised, by cause. */
  datatype Error =
    | BadAxis          // np.moveaxis rejected plot_ax (out of range, repeated, or wrong count)
    | RankMismatch     // lineplot / plot2d: number of dimension variables does not fit the data rank
    | IndexOutOfRange  // data.shape[ii] read past the last axis
    | Unhashable       // a list, or another unhashable spec, used as a dictionary key
    | KeyMissing       // a hashable spec that is not a registered name used as a dictionary key

  datatype Result<T> = Ok(value: T) | Err(error: Error)

  /** The outcome of an operation that returns nothing but may raise. */
  datatype Outcome = Pass | Fail(error: Error)
}
