/** Python's exception-based control flow, made explicit.

    Every operation of the model that can raise in the source returns a
    `Result`: either the value the Python function returns, or the exception
    it raises. `DownloaderError` is the one exception class the downloaders
    define and catch; every other variant stands for an exception the code
    lets escape.
 */
module Outcomes {

  datatype Option<+T> = None | Some(value: T)

  /** The Python exceptions the modelled code raises or lets escape. */
  datatype Exc =
    | DownloaderError(message: string)   // scraper.downloader.DownloaderError
    | RequestException(message: string)  // any requests.RequestException (transport, bad URL)
    | JsonDecodeError                    // response.json() on a body that is not JSON
    | CdxError(message: string)          // a waybackpy failure other than NoCDXRecordFound
    | KeyError(key: string)
    | IndexError
    | TypeError(message: string)
    | ValueError(message: string)
    | ZeroDivisionError

  /** A Python call: the returned value, or the raised exception. */
  datatype Result<+T> = Ok(value: T) | Raise(exc: Exc) {

    predicate IsFailure() {
      Raise?
    }

    function PropagateFailure<U>(): Result<U>
      requires Raise?
    {
      Raise(exc)
    }

    function Extract(): T
      requires Ok?
    {
      value
    }
  }

  /** True iff the call raised `DownloaderError`, the exception
      `download_resource` swallows. */
  predicate IsDownloaderError<T>(r: Result<T>) {
    r.Raise? && r.exc.DownloaderError?
  }

  /** Prefix `s` to a successful string result; errors pass through. */
  function Prepend(s: string, r: Result<string>): (p: Result<string>)
    ensures r.Ok? ==> p == Ok(s + r.value)
    ensures r.Raise? ==> p == r
  {
    match r
    case Ok(v) => Ok(s + v)
    case Raise(e) => Raise(e)
  }
}
