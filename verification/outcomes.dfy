/** Optional values, the exceptions the library raises or lets through, and results. */
module Outcomes {

  /** Python's `None` versus a present value. */
  datatype Option<+T> = None | Some(value: T)

  /** The exception kinds that reach a caller of the modelled code. */
  datatype Error =
    | NoSuchElement             // selenium's NoSuchElementException: a lookup found nothing
    | WebDriverError            // any other failure reported by the browser backend
    | UsageError(message: string)
    | Timeout                   // selenium's TimeoutException from a wait
    | TypeError(message: string)
    | KeyError(key: string)
    | IndexError
    | ValueError

  /** The outcome of a call that may raise. */
  datatype Result<+T> = Ok(value: T) | Err(error: Error)
}
