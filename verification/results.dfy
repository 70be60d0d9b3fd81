/** Optional values, failure-carrying results, and the reasons the dashboard
    stops before it renders any view. */
module Results {

  /** A value that may be absent, such as a date that failed to parse. */
  datatype Option<+T> = None | Some(value: T)

  /** Either the value of a successful step or the reason the step stopped. */
  datatype Result<+T, +E> = Success(value: T) | Failure(error: E)

  /** Why the dashboard halted: a period label the strict month parse rejects
      (the period selector's sort raises on it), or a selection no row passes. */
  datatype Halt = UnparseablePeriod(text: string) | NoMatchingRows
}
