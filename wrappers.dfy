/** Optional values, results with an error, and pass/fail outcomes. */
module Wrappers {

  datatype Option<+T> = None | Some(value: T)

  datatype Result<+T, +E> = Success(value: T) | Failure(error: E)

  datatype Outcome<+E> = Pass | Fail(error: E)
}

/**
 * The failures the AQC front end and its executor can end in. Each stands for
 * an exception the program raises; none is caught inside the core.
 */
module Errors {

  datatype Error =
    /** `ParserError(message)` raised by the parser. */
    | ParserError(message: string)
    /** `AttributeError` from assigning `attribute` on a missing (None) record. */
    | AttributeError(attribute: string)
    /** `ValueError` from `int(literal)` on a literal that is not a number. */
    | ValueError(literal: string)
    /** `AqpError(message)` raised by the executor. */
    | AqpError(message: string)
}
