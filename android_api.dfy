/**
 * The Android client's API envelope (`ApiResponse`), the repositories'
 * `Result` type, and what a Retrofit call hands a repository: a decoded
 * envelope, or an exception carrying a possibly-null message.
 */
module AndroidApi {
  import opened Wrappers

  datatype ApiResponse<T> = ApiResponse(code: int, message: Option<string>, data: Option<T>)

  /** The `data` of every domains endpoint. */
  datatype DomainsResponse = DomainsResponse(domains: seq<string>)

  datatype Result<T> = Success(data: T) | Error(code: Option<int>, message: string) | Loading

  datatype Call<T> = Replied(response: ApiResponse<T>) | Threw(message: Option<string>)

  const NetworkError := "Network error"

  /** The envelope says 200 and carries data: the repositories' test for a call that returns data. */
  predicate Delivered<T>(call: Call<T>)
  {
    call.Replied? && call.response.code == 200 && call.response.data.Some?
  }

  /** The envelope says 200: the repositories' test for a call whose data is not used. */
  predicate Accepted<T>(call: Call<T>)
  {
    call.Replied? && call.response.code == 200
  }

  /**
   * The error a repository reports for a call that did not succeed: the
   * server's code and message (or the operation's fallback text), or the
   * exception's message (or "Network error") without a code.
   */
  function FailureOf<T, U>(call: Call<T>, fallback: string): (r: Result<U>)
    ensures r.Error?
  {
    match call
    case Replied(response) => Error(Some(response.code), response.message.GetOr(fallback))
    case Threw(message) => Error(None, message.GetOr(NetworkError))
  }

  /**
   * What a ViewModel publishes for a repository result: the success mapped
   * by `f`, the error with the same code and message, and nothing for
   * `Loading`.
   */
  function Reported<T, U>(result: Result<T>, f: T -> U): (r: Option<Result<U>>)
    ensures result.Success? ==> r == Some(Success(f(result.data)))
    ensures result.Error? ==> r == Some(Error(result.code, result.message))
    ensures result.Loading? ==> r == None
  {
    match result
    case Success(data) => Some(Success(f(data)))
    case Error(code, message) => Some(Error(code, message))
    case Loading => None
  }

  /** Whether each call of a batch was accepted by the server. */
  function AcceptedFlags<T>(calls: seq<Call<T>>): (r: seq<bool>)
    ensures |r| == |calls|
    ensures forall i :: 0 <= i < |calls| ==> r[i] == Accepted(calls[i])
  {
    seq(|calls|, i requires 0 <= i < |calls| => Accepted(calls[i]))
  }
}
