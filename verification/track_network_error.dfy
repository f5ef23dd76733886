/** Turning completed XHR and fetch requests into network errors for the logs product: which
    requests count as failures, and the message, resource and stack of the error. */
module TrackNetworkError {
  import opened Text

  datatype RequestType = Xhr | Fetch

  /** What a completed request reports (`httpMethod` is its `method`). `responseType` is only
      known for fetch. */
  datatype CompletedRequest = CompletedRequest(
    httpMethod: string, url: string, status: int,
    responseType: Option<string>, responseText: Option<string>)

  datatype Resource = Resource(httpMethod: string, statusCode: int, url: string)

  /** The error notified for a failed request (its source is always "network"). */
  datatype NetworkError = NetworkError(message: string, resource: Resource, stack: string)

  const FailedToLoad: string := "Failed to load"
  const Ellipsis: string := "..."

  /** `isRejected`: no status, and not an opaque (no-cors) response. */
  predicate IsRejected(request: CompletedRequest) {
    request.status == 0 && request.responseType != Some("opaque")
  }

  /** `isServerError`. */
  predicate IsServerError(request: CompletedRequest) {
    request.status >= 500
  }

  /** `format`. */
  function Format(t: RequestType): string {
    if t == Xhr then "XHR" else "Fetch"
  }

  /** `truncateResponseText`: a text longer than `limit` is cut to its first `limit`
      characters followed by `...`; anything else is returned as is. */
  function TruncateResponseText(text: Option<string>, limit: nat): (r: Option<string>)
    ensures r.Some? <==> text.Some?
    ensures r.Some? ==> |r.value| <= limit + |Ellipsis|
    ensures r.Some? && |text.value| <= limit ==> r == text
    ensures r.Some? && |text.value| > limit ==>
      |r.value| == limit + |Ellipsis| && r.value[..limit] == text.value[..limit] && r.value[limit..] == Ellipsis
  {
    if Truthy(text) && |text.value| > limit then Some(text.value[..limit] + Ellipsis) else text
  }

  /** The decision and payload of `handleCompleteRequest`: an error exactly for a request that
      is not to the intake and was rejected or answered with a server error. */
  function HandleCompleteRequest(isIntakeUrl: string -> bool, responseLengthLimit: nat,
                                 t: RequestType, request: CompletedRequest): (r: Option<NetworkError>)
    ensures r.Some? <==> !isIntakeUrl(request.url) && (IsRejected(request) || IsServerError(request))
    ensures r.Some? ==> r.value.message == Format(t) + " error " + request.httpMethod + " " + request.url
    ensures r.Some? ==> r.value.resource == Resource(request.httpMethod, request.status, request.url)
  {
    if !isIntakeUrl(request.url) && (IsRejected(request) || IsServerError(request)) then
      var truncated := TruncateResponseText(request.responseText, responseLengthLimit);
      Some(NetworkError(
        Format(t) + " error " + request.httpMethod + " " + request.url,
        Resource(request.httpMethod, request.status, request.url),
        if Truthy(truncated) then truncated.value else FailedToLoad))
    else None
  }

  // ----- properties -----

  /** Truncating twice is truncating once. */
  lemma TruncateIdempotent(text: Option<string>, limit: nat)
    ensures TruncateResponseText(TruncateResponseText(text, limit), limit) == TruncateResponseText(text, limit)
  {
    var once := TruncateResponseText(text, limit);
    if once.Some? && |once.value| > limit {
      assert once.value[..limit] + Ellipsis == once.value;
    }
  }

  /** Only a missing or empty response text leaves the stack to the fallback; otherwise the
      stack is the (truncated) response text. */
  lemma StackFallsBackOnlyWithoutText(isIntakeUrl: string -> bool, limit: nat, t: RequestType, request: CompletedRequest)
    requires HandleCompleteRequest(isIntakeUrl, limit, t, request).Some?
    ensures
      var stack := HandleCompleteRequest(isIntakeUrl, limit, t, request).value.stack;
      && (!Truthy(request.responseText) ==> stack == FailedToLoad)
      && (Truthy(request.responseText) ==> Some(stack) == TruncateResponseText(request.responseText, limit))
  {
    var truncated := TruncateResponseText(request.responseText, limit);
    if Truthy(request.responseText) && |request.responseText.value| > limit {
      assert |truncated.value| > 0;
    }
  }

  /** Successful, redirected and client-error responses never produce an error. */
  lemma NoErrorBelowServerErrors(isIntakeUrl: string -> bool, limit: nat, t: RequestType, request: CompletedRequest)
    requires 0 < request.status < 500
    ensures HandleCompleteRequest(isIntakeUrl, limit, t, request).None?
  {
  }

  /** An opaque fetch response has status 0 by design and is not an error. */
  lemma OpaqueResponseIsNoError(isIntakeUrl: string -> bool, limit: nat, request: CompletedRequest)
    requires request.status == 0 && request.responseType == Some("opaque")
    ensures HandleCompleteRequest(isIntakeUrl, limit, Fetch, request).None?
  {
  }

  /** `format` names only XHR requests "XHR". */
  lemma FormatNamesXhrOnly(t: RequestType)
    ensures Format(t) == "XHR" <==> t == Xhr
  {
  }
}
