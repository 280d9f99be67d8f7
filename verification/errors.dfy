/** The exceptions that cross the boundaries of the core. */
module Errors {

  /** Python exceptions that the core never catches; they travel up to the dispatcher. */
  datatype Crash =
    | IndexError       // subscripting past the end of a list or a string
    | KeyError         // a missing key in a dict
    | TypeError        // subscripting or unpacking a value of the wrong kind
    | AttributeError   // `None.capitalize()` inside the summary validator
    | StatisticsError  // `statistics.mean` of an empty sequence
    | DataError        // the store rejecting statement parameters

  datatype Error =
    | ValidationError     // pydantic's ValidationError
    | ExternalError       // a provider could not be reached or did not know the locality
    | AlreadyExistsError  // registration of an identity that already exists
    | UniqueViolation     // the store's primary-key violation, before the repository maps it
    | Unhandled(crash: Crash)
}
