/**
 * Outcomes shared by the whole model: an optional value (the source's
 * nullable references) and the result of an operation that can throw.
 */
module Results {

  datatype Option<+T> = None | Some(value: T)

  /** The exceptions the recurrence engine raises, one case per cause. */
  datatype Error =
    | NoEndDateUnsupported    // "no End date" rules cannot be expanded in bulk
    | EndDateTypeNotSet       // the end condition was never chosen
    | CustomDatePartNotSet    // a logical (First Monday ...) rule lacks one of its parts
    | MalformedSeriesInfo     // a series-info token that Substring/int.Parse/DateTime reject
    | NullReference           // a null settings or values object is dereferenced
    | DateOutOfRange          // new DateTime or a DateTime step outside its range

  datatype Result<+T> = Ok(value: T) | Err(error: Error)
}
