/** Optional values and error-carrying results, used for the lookups and the
    parses that the `Roll` class refuses. */
module Results {

  datatype Option<+T> = None | Some(value: T)

  datatype Result<+T, +E> = Success(value: T) | Failure(error: E)
}
