/** The route-interception decision: for every request a page is about to
    send, whether it is aborted, which headers it is continued with, and
    whether it takes over the caller's method and body. */
module Routing {
  import opened Common
  import opened Engine
  import Utils
  import HeaderPolicy

  /** What the configured header policy gave for this request: no policy
      configured (the setting is `None`), a header set, or `None` returned
      by the policy callable (as `use_playwright_headers` does). */
  datatype PolicyOutput = NoPolicy | PolicyHeaders(headers: Headers) | PolicyReturnedNone

  /** The policy callable's return value as a `PolicyOutput`. */
  function OutputOf(returned: Option<Headers>): PolicyOutput
  {
    if returned.Some? then PolicyHeaders(returned.value) else PolicyReturnedNone
  }

  /** The caller's request as the route handler captures it; its header
      collection is passed separately because the handler rewrites it. */
  datatype CallerRequest = CallerRequest(httpMethod: string, url: string, body: seq<byte>, encoding: string)

  /** The keyword arguments of `route.continue_`. */
  datatype Overrides = Overrides(headers: Option<Headers>, httpMethod: Option<string>, postData: Option<string>)

  /** Abort; continue with overrides, the caller's headers now being
      `callerHeaders`; or raise before continuing, the caller's headers then
      being `callerHeaders`. */
  datatype RouteDecision =
    | Abort
    | Continue(overrides: Overrides, callerHeaders: Headers)
    | Fail(error: Error, callerHeaders: Headers)

  /** The request stands for the caller's own fetch: same URL once trailing
      slashes are stripped, and a navigation request. */
  predicate IsPrimary(request: InterceptedRequest, url: string): (b: bool)
    ensures b ==> request.isNavigation
    ensures request.isNavigation && request.url == url ==> b
  {
    RStripSlash(request.url) == RStripSlash(url) && request.isNavigation
  }

  lemma PrimaryIgnoresTrailingSlashes(request: InterceptedRequest, url: string, n: nat)
    ensures IsPrimary(request, url + Slashes(n)) == IsPrimary(request, url)
  {
    RStripSlashIgnoresTrailingSlashes(url, n);
  }

  /** The request handler's decision, with a policy that returns `None`
      treated as no policy: the browser's headers are used and no header
      override is sent. */
  function Decide(shouldAbort: bool, policy: PolicyOutput, caller: CallerRequest,
                  request: InterceptedRequest, decode: (seq<byte>, string) -> Outcome<string>): (r: RouteDecision)
    // an aborted request is neither rewritten nor continued
    ensures r.Abort? <==> shouldAbort
    // the caller's headers become the headers the request is sent with
    ensures !shouldAbort ==>
      r.callerHeaders == if policy.PolicyHeaders? then policy.headers else request.headers
    ensures r.Continue? ==>
      (r.overrides.headers.Some? <==> policy.PolicyHeaders?) &&
      (policy.PolicyHeaders? ==> r.overrides.headers.value == policy.headers)
    // only the primary request takes the caller's method, when it differs
    ensures r.Continue? ==>
      (r.overrides.httpMethod.Some? <==>
         IsPrimary(request, caller.url) && Upper(caller.httpMethod) != Upper(request.httpMethod)) &&
      (r.overrides.httpMethod.Some? ==> r.overrides.httpMethod.value == caller.httpMethod)
    // ... and the caller's body, when non-empty, decoded with its encoding
    ensures r.Continue? ==>
      (r.overrides.postData.Some? <==> IsPrimary(request, caller.url) && caller.body != []) &&
      (r.overrides.postData.Some? ==> decode(caller.body, caller.encoding) == Ok(r.overrides.postData.value))
    // the only failure is a body that does not decode
    ensures r.Fail? <==>
      !shouldAbort && IsPrimary(request, caller.url) && caller.body != [] &&
      decode(caller.body, caller.encoding).Raised?
    ensures r.Fail? ==> r.error == decode(caller.body, caller.encoding).error
  {
    if shouldAbort then Abort
    else
      var final := if policy.PolicyHeaders? then policy.headers else request.headers;
      var headerOverride := if policy.PolicyHeaders? then Some(policy.headers) else None;
      if IsPrimary(request, caller.url) then
        var methodOverride :=
          if Upper(caller.httpMethod) != Upper(request.httpMethod) then Some(caller.httpMethod) else None;
        if caller.body == [] then Continue(Overrides(headerOverride, methodOverride, None), final)
        else
          match decode(caller.body, caller.encoding)
          case Ok(text) => Continue(Overrides(headerOverride, methodOverride, Some(text)), final)
          case Raised(e) => Fail(e, final)
      else Continue(Overrides(headerOverride, None, None), final)
  }

  /** Iterating `None` in `headers.update(...)` raises this. */
  const NoneNotIterable: Error := Error(false, "'NoneType' object is not iterable")

  /** The request handler as written: a policy that returns `None` reaches
      `headers.clear()` and then `headers.update(None)`, which raises. */
  function DecideAsWritten(shouldAbort: bool, policy: PolicyOutput, caller: CallerRequest,
                           request: InterceptedRequest, decode: (seq<byte>, string) -> Outcome<string>): (r: RouteDecision)
    ensures policy != PolicyReturnedNone ==> r == Decide(shouldAbort, policy, caller, request, decode)
    // a policy returning `None` makes a request that is not aborted fail and empties the caller's headers
    ensures !shouldAbort && policy == PolicyReturnedNone ==> r == Fail(NoneNotIterable, map[])
    // an aborted request is aborted whatever the policy
    ensures shouldAbort ==> r == Abort
  {
    if !shouldAbort && policy.PolicyReturnedNone? then Fail(NoneNotIterable, map[])
    else Decide(shouldAbort, policy, caller, request, decode)
  }

  /** As written, configuring `use_playwright_headers` as the policy makes
      every request that is not aborted fail and leaves the caller with no
      headers. */
  lemma PlaywrightHeadersPolicyFailsAsWritten(browserType: string, caller: CallerRequest, callerHeaders: Headers,
                                              request: InterceptedRequest, decode: (seq<byte>, string) -> Outcome<string>)
    ensures var policy := OutputOf(HeaderPolicy.UsePlaywrightHeaders(browserType, request, callerHeaders));
            DecideAsWritten(false, policy, caller, request, decode) == Fail(NoneNotIterable, map[])
  {
  }

  /** With `None` treated as no policy, `use_playwright_headers` passes the
      browser's headers through unmodified, as it is documented to. */
  lemma PlaywrightHeadersPolicyPassesThrough(browserType: string, caller: CallerRequest, callerHeaders: Headers,
                                             request: InterceptedRequest, decode: (seq<byte>, string) -> Outcome<string>)
    ensures var policy := OutputOf(HeaderPolicy.UsePlaywrightHeaders(browserType, request, callerHeaders));
            var r := Decide(false, policy, caller, request, decode);
            r == Decide(false, NoPolicy, caller, request, decode) &&
            r.callerHeaders == request.headers &&
            (r.Continue? ==> r.overrides.headers == None)
  {
  }

  /** Exceptions the route handler can meet before its `try`: from
      `route.abort()`, and from the header policy or `all_headers()`. Either
      propagates as it is, even when it says the page is closed. */
  datatype RouteFailures = RouteFailures(abortError: Option<Error>, headersError: Option<Error>)

  /** What came of an intercepted request once `route.continue_` ran:
      `continueError` is the error it raised, if any. A continuation that
      failed because the page, context or browser was already closed is
      swallowed; any other error propagates. */
  datatype RouteOutcome =
    | Aborted
    | Continued(overrides: Overrides)
    | ContinueFailedSafely(overrides: Overrides, error: Error)
    | RaisedError(error: Error)

  function Resolve(decision: RouteDecision, continueError: Option<Error>): (r: RouteOutcome)
    ensures decision.Abort? ==> r == Aborted
    ensures decision.Fail? ==> r == RaisedError(decision.error)
    ensures decision.Continue? && continueError.None? ==> r == Continued(decision.overrides)
    ensures decision.Continue? && continueError.Some? ==>
      (r.RaisedError? <==> !Utils.IsSafeCloseError(continueError.value)) &&
      (r.RaisedError? ==> r.error == continueError.value) &&
      (!r.RaisedError? ==> r == ContinueFailedSafely(decision.overrides, continueError.value))
  {
    match decision
    case Abort => Aborted
    case Fail(e, _) => RaisedError(e)
    case Continue(overrides, _) =>
      if continueError.None? then Continued(overrides)
      else if Utils.IsSafeCloseError(continueError.value) then ContinueFailedSafely(overrides, continueError.value)
      else RaisedError(continueError.value)
  }
}
