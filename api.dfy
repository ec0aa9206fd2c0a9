/** The error classification of `_call_api` (utils.py:19-28): a request
    either yields a parsed body, returned as is, or raises; a raised
    `requests` exception becomes a synthetic `{cod, message}` body. */
module Api {
  import opened Json

  /** A `requests.exceptions.RequestException`, by the two subclasses the
      handlers test for. `ConnectTimeout` is both a `Timeout` and a
      `ConnectionError`, so both flags may be set. `text` is `str(e)`. */
  datatype RequestError = RequestError(isTimeout: bool, isConnectionError: bool, text: string)

  /** What `requests.get(...)` followed by `response.json()` did. */
  datatype Outcome =
    | Parsed(body: Json)
    | RaisedRequestError(error: RequestError)
    | RaisedOther(description: string)   // not a RequestException: no handler matches

  /** What `_call_api` does: return a body, or let an exception escape. */
  datatype CallResult = Returns(body: Json) | Propagates(description: string)

  const TimeoutCode := 408
  const ConnectionCode := 503
  const OtherCode := 500
  const TimeoutMessage := "Request timeout"
  const ConnectionMessage := "Network connection error"

  /** The status code and message of the handler that catches `e`; the
      handlers are tried in the order Timeout, ConnectionError,
      RequestException, and the first that matches wins. */
  function Classify(e: RequestError): (r: (int, string))
    ensures r.0 == TimeoutCode <==> e.isTimeout
    ensures r.0 == ConnectionCode <==> !e.isTimeout && e.isConnectionError
    ensures r.0 == OtherCode <==> !e.isTimeout && !e.isConnectionError
    ensures r.0 == TimeoutCode ==> r.1 == TimeoutMessage
    ensures r.0 == ConnectionCode ==> r.1 == ConnectionMessage
    ensures r.0 == OtherCode ==> r.1 == e.text
  {
    if e.isTimeout then (TimeoutCode, TimeoutMessage)
    else if e.isConnectionError then (ConnectionCode, ConnectionMessage)
    else (OtherCode, e.text)
  }

  /** The synthetic body `{"cod": code, "message": message}`. */
  function ErrorBody(e: RequestError): (r: map<string, Json>)
    ensures r.Keys == {"cod", "message"}
    ensures r["cod"] == JNum(Classify(e).0 as real)
    ensures r["message"] == JStr(Classify(e).1)
  {
    var (code, message) := Classify(e);
    map["cod" := JNum(code as real), "message" := JStr(message)]
  }

  /** `_call_api(url, params)` once the request has been made. */
  function CallApi(o: Outcome): (r: CallResult)
    ensures o.Parsed? ==> r == Returns(o.body)
    ensures o.RaisedRequestError? ==> r == Returns(JObj(ErrorBody(o.error)))
    ensures o.RaisedOther? ==> r == Propagates(o.description)
  {
    match o
    case Parsed(body) => Returns(body)
    case RaisedRequestError(e) => Returns(JObj(ErrorBody(e)))
    case RaisedOther(d) => Propagates(d)
  }

  /** A failure that is both a timeout and a connection error is reported
      as a timeout: the first handler wins. */
  lemma ConnectTimeoutIsTimeout(text: string)
    ensures CallApi(RaisedRequestError(RequestError(true, true, text)))
         == Returns(JObj(map["cod" := JNum(408.0), "message" := JStr("Request timeout")]))
  {
  }

  /** Every caught failure yields a body whose code is one of the three
      synthetic codes, so never the provider's success code 200. */
  lemma CaughtFailureCodes(e: RequestError)
    ensures CallApi(RaisedRequestError(e)).Returns?
    ensures var c := CallApi(RaisedRequestError(e)).body.fields["cod"];
            c in {JNum(408.0), JNum(503.0), JNum(500.0)}
  {
  }
}
