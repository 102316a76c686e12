/** Result and option types for the generators' error paths and for attributes
    that a SyntheticTS object only acquires once a stage has run. */
module Outcomes {

  /** An attribute that may not exist yet. */
  datatype Option<+T> = None | Some(value: T)

  /** Why an operation produced no series.
      - NotInitialized: the stage was asked for before normal_process ran; the
        source prints a message and returns None without touching any state.
      - InvalidParameter: one of the source's parameter assertions failed.
      - EmptySeries: min/max of a zero-length array (numpy raises ValueError).
      - ZeroBlockWidth: the chunk width is 0, so range(0, n, 0) raises ValueError.
      - IndexOutOfRange: a centred chunk run overruns its block (IndexError).
      - MissingAttribute: an attribute that no stage has set yet is read
        (AttributeError).
      - BadSampleSize: np.random.choice without replacement is asked for fewer
        than 0 or more than the population (ValueError).
      - EmptyFrame: pandas cannot name the two columns of a frame with no
        rows (ValueError).
      - NegativeDimension: numpy is asked for an array of negative size
        (ValueError).
      - NegativeScale: numpy is asked for Gaussian samples with a negative
        standard deviation (ValueError, raised before the size is looked at). */
  datatype Error =
    | NotInitialized
    | InvalidParameter
    | EmptySeries
    | ZeroBlockWidth
    | IndexOutOfRange
    | MissingAttribute
    | BadSampleSize
    | EmptyFrame
    | NegativeDimension
    | NegativeScale

  datatype Result<+T> = Ok(value: T) | Err(error: Error)
}
