/** The exceptions a verification request can end with, and the result type that carries them. */
module Errors {

  datatype Error =
    /** `extrairTweetId` found no `status/<digits>` in the URL. */
    | InvalidTweetUrl(url: string)
    /** A named fixture could not be read in replay mode. */
    | FixtureUnavailable(name: string)
    /** A JavaScript TypeError: a property read on null/undefined, or a call of a missing method. */
    | TypeError(operation: string)
    /** `toISOString` of an Invalid Date (a RangeError in JavaScript). */
    | InvalidDate(text: string)
    /** A failure reported by one of the scrapers. */
    | ScraperFailed(message: string)
    /** The cache directory or file could not be written. */
    | CacheWriteFailed(key: string)

  datatype Result<+T> = Ok(value: T) | Err(error: Error) {

    predicate IsFailure() {
      Err?
    }

    function PropagateFailure<U>(): Result<U>
      requires Err?
    {
      Err(error)
    }

    function Extract(): T
      requires Ok?
    {
      value
    }
  }
}
