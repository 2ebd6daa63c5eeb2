/** Option and Result, and the Java exceptions the modelled code lets escape. */
module Wrappers {

  /** A Java reference that may be null: `None` is null. */
  datatype Option<+T> = None | Some(value: T)

  /** The outcome of an operation that may throw. */
  datatype Result<+T, +E> = Ok(value: T) | Err(error: E)

  /** The exceptions the modelled operations can raise, named after the Java classes. */
  datatype Exception =
    | NumberFormat      // Integer.parseInt or Long.parseLong given something that is not a number
    | IndexOutOfBounds  // an array index past the end (e.g. `split(..)[1]` with one piece)
    | DateTimeParse     // a begin or end time that parses as neither a zoned nor a local time
    | IllegalArgument   // a begin time whose zone is a bare offset while no time zone was given
    | DateTime          // ZoneId.of given an id it does not know
    | NullPointer       // a null dereference
    | Formatting        // FormattingException: a content type the handler cannot work with
    | IO                // IOException: an unreadable body or a rejected builder
    | NotFound          // NotFoundException from the data access object
    | Validation        // a query parameter that is present but does not convert to the asked type
}
