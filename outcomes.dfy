/** Error conditions raised by the angle-scanning pipeline, and the result type that carries them. */
module Outcomes {

  /** One constructor per exception the pipeline can raise. */
  datatype Error =
    | ChannelMismatch      // moveout vector length differs from the channel count
    | NegativeShift        // a moveout entry is negative
    | EmptyReduction       // np.amin / np.amax over an empty array
    | SliceShapeMismatch   // the two sides of the interpolation slice assignment differ in length
    | WindowBeyondTrace    // the semblance half window reaches past the end of the trace
    | UnknownMode          // coherence mode is not 'semb', 'stack' or 'sembstack'
    | TableMismatch        // delay table and data disagree on the channel count
    | EmptyArgmax          // argmax over an empty column (no candidate angles)
    | NegativeDimension    // np.zeros with a negative length (empty velocity profile)

  datatype Outcome<T> = Ok(value: T) | Fail(err: Error)

  datatype Option<T> = None | Some(value: T)
}
