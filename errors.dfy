/** The exceptions the core raises or lets through. `CalendarError` and
    `RequestError` are the two kinds of `CalendarBaseException`; the others
    are the Python built-in exceptions that some operations raise and that
    the request handler does not catch. */
module Errors {

  datatype Exception =
    | CalendarError(message: string)
    | RequestError(message: string)
    | ValueError(message: string)
    | KeyError(message: string)
    | TypeError(message: string)

  /** True for the exceptions derived from `CalendarBaseException`. */
  predicate IsCalendarBase(e: Exception)
  {
    e.CalendarError? || e.RequestError?
  }
}
