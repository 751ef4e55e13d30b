/** One request to the Toggl API, seen from the client: what came back
    over the wire, and how the client turns that into a decoded body or
    its single error type. */
module Transport {
  import opened Wrappers

  /** The body of a response that arrived: empty, decodable JSON, or bytes that
      are not JSON. */
  datatype Body<T> = NoContent | Json(value: T) | Malformed

  /** What the HTTP layer produced for one request, once the session's
      retries are spent: the last response, or the error that ended the
      attempts. */
  datatype HttpOutcome<T> =
    | Response(status: int, body: Body<T>)
    | ConnectTimedOut    // no connection within the timeout
    | ReadTimedOut       // connected, but no answer within the timeout
    | ConnectionFailed
    | Crashed

  datatype FailureKind = Timeout | HttpStatus(status: int) | RequestFailed | Unexpected

  /** `TogglApiError`: the one exception every failed request is reported as. */
  datatype TogglApiError = TogglApiError(kind: FailureKind)

  /** `raise_for_status()` raises for client and server errors. */
  predicate IsErrorStatus(status: int) {
    400 <= status < 600
  }

  /** The statuses the session retries. A request still answered with one of
      them when the retries are spent ends in `RetryError` instead of a
      response. */
  const RetriedStatuses: set<int> := {402, 429, 500, 502, 503, 504}

  /** `_make_request`: the decoded body of a successful response (`None` for an
      empty one), or a `TogglApiError` for every kind of failure. Its kind is
      the `except` clause that caught it: only a connect timeout is a
      `Timeout` (a spent read retry raises `ConnectionError`), and only an
      error status the session does not retry is an `HTTPError`. */
  function MakeRequest<T>(o: HttpOutcome<T>): (r: Result<Option<T>, TogglApiError>)
    ensures r.Success? <==> o.Response? && !IsErrorStatus(o.status) && !o.body.Malformed?
    ensures r.Success? ==> (r.value.Some? <==> o.body.Json?)
    ensures r.Success? && r.value.Some? ==> r.value.value == o.body.value
    ensures o.Response? && IsErrorStatus(o.status) && o.status !in RetriedStatuses ==>
      r.error.kind == HttpStatus(o.status)
    ensures o.Response? && o.status in RetriedStatuses ==> r.error.kind == RequestFailed
    ensures r.Failure? && r.error.kind == Timeout <==> o.ConnectTimedOut?
    ensures o.ReadTimedOut? || o.ConnectionFailed? ==> r.error.kind == RequestFailed
  {
    match o
    case ConnectTimedOut => Failure(TogglApiError(Timeout))
    case ReadTimedOut => Failure(TogglApiError(RequestFailed))
    case ConnectionFailed => Failure(TogglApiError(RequestFailed))
    case Crashed => Failure(TogglApiError(Unexpected))
    case Response(status, body) =>
      if status in RetriedStatuses then Failure(TogglApiError(RequestFailed))
      else if IsErrorStatus(status) then Failure(TogglApiError(HttpStatus(status)))
      else
        match body
        case NoContent => Success(None)
        case Json(v) => Success(Some(v))
        case Malformed => Failure(TogglApiError(RequestFailed))
  }
}
