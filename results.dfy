/** Failure values shared by the table builder, the interpolator and the
    stateful wrapper. Each exception the original code can raise becomes one
    constructor of `Error`; an operation that can raise returns a `Result`. */
module Results {

  datatype Option<+T> = None | Some(value: T)

  datatype Error =
    /** The inverse normal CDF was called with p outside the open interval (0,1). */
    | DomainError(p: real)
    /** The sanity assertion on a scaled quantile (it must lie in [-3,3]) failed. */
    | QuantileOutOfRange
    /** `transform` was called with a transformation map that has no keys. */
    | NoTransformationMap
    /** The stateful wrapper was asked to transform before any map was built. */
    | NotFitted
    /** A name that is not bound anywhere was evaluated. */
    | UndefinedName(name: string)

  datatype Result<+T> = Ok(value: T) | Err(error: Error)

  /** The outcome of an operation that returns nothing on success. */
  datatype Outcome = Pass | Fail(error: Error)
}
