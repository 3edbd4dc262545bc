/** What the core can throw. JavaScript may throw any value; the core
    distinguishes `Error` instances (by class), strings, and the rest. */
module Failures {
  import opened Wrappers
  import opened Scraped

  /** The error classes the core creates or inspects. */
  datatype ErrorValue =
    | PlainError(message: string)
    | AxiosError(message: string, code: Option<string>, status: Option<int>)
    | BetterloxApiError(message: string, cause: Thrown)
    | SyncLetterboxdError(message: string, synced: seq<FilmEntry>, username: Option<string>)
    | LoginError(message: string)
    | UserRepoError(message: string)
    | TypeError(message: string)

  /** A thrown value: an `Error` instance, a string, or anything else
      (an object without a `message`). */
  datatype Thrown = Raised(error: ErrorValue) | RaisedString(text: string) | RaisedOther

  /** `String(error.message)`: a thrown value that is not an `Error` has
      no `message`, which prints as "undefined". */
  function MessageText(t: Thrown): string {
    match t
    case Raised(e) => e.message
    case RaisedString(_) => "undefined"
    case RaisedOther => "undefined"
  }

  /** `error instanceof Error ? error.message : <fallback>`. */
  function ErrorMessageOr(t: Thrown, fallback: string): string {
    if t.Raised? then t.error.message else fallback
  }

  /** `axios.isAxiosError(error)`. */
  predicate IsAxios(t: Thrown) {
    t.Raised? && t.error.AxiosError?
  }

  /** `axios.isAxiosError(error) && error.response?.status === code`. */
  predicate IsAxiosStatus(t: Thrown, code: int) {
    IsAxios(t) && t.error.status == Some(code)
  }

  /** `error instanceof BetterloxApiError`. */
  predicate IsBetterlox(t: Thrown) {
    t.Raised? && t.error.BetterloxApiError?
  }
}
