/** Values shared by every part of the model: optional values (Java's null),
    results (Java's exceptions) and the error kinds the services raise. */
module Common {

  /** A Java reference that may be null. */
  datatype Option<+T> = None | Some(value: T) {
    function GetOr(default: T): T {
      match this
      case Some(v) => v
      case None => default
    }
  }

  /** The exceptions the modelled code throws, by kind. */
  datatype Error =
    | IllegalArgument(message: string)    // IllegalArgumentException
    | EntityNotFound(detail: Option<string>)  // jakarta.persistence.EntityNotFoundException
    | NotFound(message: string)           // ResponseStatusException(HttpStatus.NOT_FOUND, ...)
    | Runtime(message: string)            // a plain RuntimeException
    | NullPointer                         // dereferencing or unboxing a null
    | NumberFormat(input: string)         // Long.parseLong on a non-numeric string
    | IndexOutOfBounds                    // String.charAt outside the string
    | NoSuchElement                       // Optional.get() on an empty Optional
    | NonUniqueResult                     // a single-result query that matched several rows
    | DateTimeParse                       // LocalDate / YearMonth parsing failed
    | DateTimeRange                       // LocalDate.of with a year outside its range
    | Persistence(message: string)        // the JPA provider refusing to save an entity
    | DataIntegrityViolation              // a save that breaks a unique column
    | TransactionRequired                 // a derived delete query run outside a transaction

  /** The outcome of a call that may throw. */
  datatype Result<+T> = Ok(value: T) | Err(error: Error)

  /** A Java `Double`, carried as an opaque IEEE-754 bit pattern: the model
      never computes with floating-point values. */
  datatype Double = Double(bits: int)

  /** `0.0`, whose bit pattern is all zeros. */
  const ZeroDouble := Double(0)
}
