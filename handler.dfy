/** The download handler: it owns the context registry and the page
    permits, creates contexts and pages on demand, intercepts every request
    a page sends, and turns a navigation into a response. */
module Handler {
  import opened Common
  import opened Engine
  import opened PageMethods
  import opened Requests
  import opened Permits
  import opened Routing
  import Utils
  import HeaderPolicy
  import Redirects
  import Scripting

  const DefaultBrowserType: string := "chromium"
  const DefaultContextName: string := "default"
  const PersistentContextPathKey: string := "user_data_dir"
  const ContentEncoding: string := "content-encoding"
  const PlaywrightFlag: string := "playwright"

  /** The `ValueError` that `asyncio.Semaphore` raises for a negative
      initial value. */
  const NegativeSemaphoreError: Error := Error(false, "Semaphore initial value must be >= 0")

  /** `PLAYWRIGHT_PROCESS_REQUEST_HEADERS`: not set (the policy is then
      `use_scrapy_headers`), set to `None`, or set to a policy callable. */
  datatype HeadersSetting =
    | Unset
    | SetToNone
    | SetTo(policy: (string, InterceptedRequest, Headers) -> Option<Headers>)

  /** The handler state that creating a context moves: the free permits of
      the global context semaphore, whether a browser was launched, the
      context stats and the running maximum of registered contexts. */
  datatype ContextLaunches = ContextLaunches(contextPermits: Option<int>, browserLaunched: bool, contextCount: nat,
                                             persistentContextCount: nat, nonPersistentContextCount: nat,
                                             maxConcurrentContextCount: Option<int>)

  /** The response handed back to the caller. */
  datatype Response = Response(url: string, status: int, headers: Headers, body: seq<byte>,
                               encoding: string, flags: seq<string>)

  /** A context is persistent when its kwargs carry a truthy `user_data_dir`. */
  predicate IsPersistent(kwargs: map<string, Value>): (b: bool)
    ensures b <==> (PersistentContextPathKey in kwargs &&
                    kwargs[PersistentContextPathKey] !in {NoneValue, BoolValue(false), IntValue(0), RealValue(0.0), StrValue("")})
  {
    PersistentContextPathKey in kwargs && Truthy(kwargs[PersistentContextPathKey])
  }

  /** `meta.setdefault("playwright_context", "default")` */
  function ContextNameOf(name: Option<string>): (r: string)
    ensures name.Some? ==> r == name.value
    ensures name.None? ==> r == DefaultContextName
  {
    if name.Some? then name.value else DefaultContextName
  }

  /** A running maximum as the stats keep it: replaced when absent or when
      the new count exceeds it. */
  function NewMax(current: Option<int>, count: int): (r: int)
    ensures r >= count && (current.Some? ==> r >= current.value)
    ensures r == count || (current.Some? && r == current.value)
  {
    if current.None? || count > current.value then count else current.value
  }

  /** The response's headers: the navigation response's headers without
      Content-Encoding, none when `goto` gave no response. */
  function ResponseHeaders(response: Option<NavResponse>): (h: Headers)
    ensures ContentEncoding !in h
    ensures response.None? ==> h == map[]
    ensures response.Some? ==>
      forall k :: k != ContentEncoding ==>
        (k in h <==> k in response.value.headers) && (k in h ==> h[k] == response.value.headers[k])
  {
    if response.None? then map[] else response.value.headers - {ContentEncoding}
  }

  /** The response's headers and status once navigation returned, the
      redirect history recorded in the request's meta when it returned a
      response. */
  method NavigationResult(request: ScrapyRequest, response: Option<NavResponse>) returns (headers: Headers, status: int)
    modifies request`redirect
    ensures headers == ResponseHeaders(response)
    ensures status == if response.None? then 200 else response.value.status
    ensures response.Some? && response.value.redirectedFrom != [] ==>
      request.redirect == Some(Redirects.Chronological(response.value.redirectedFrom))
    ensures !(response.Some? && response.value.redirectedFrom != []) ==> request.redirect == old(request.redirect)
  {
    if response.None? {
      headers := map[];
      status := 200;
    } else {
      Redirects.SetRedirectMeta(request, response.value.redirectedFrom);
      headers := response.value.headers - {ContentEncoding};
      status := response.value.status;
    }
  }

  /** The result of `_download_request_with_page` from what the page did:
      the navigation's outcome, the page methods' failure if any, and the
      content read. The first failure, in that order, is raised. */
  function Assemble(goto: GotoOutcome, stepsFailure: Option<Error>, content: Outcome<string>,
                    finalUrl: string, codecs: Utils.Codecs): (r: Outcome<Response>)
    ensures r.Ok? <==> goto.GotoReturned? && stepsFailure.None? && content.Ok?
    ensures goto.GotoRaised? ==> r == Raised(goto.error)
    ensures goto.GotoReturned? && stepsFailure.Some? ==> r == Raised(stepsFailure.value)
    ensures goto.GotoReturned? && stepsFailure.None? && content.Raised? ==> r == Raised(content.error)
    // status 200 and no headers when the navigation gave no response
    ensures r.Ok? ==>
      r.value.url == finalUrl && r.value.flags == [PlaywrightFlag] &&
      r.value.status == (if goto.response.None? then 200 else goto.response.value.status) &&
      r.value.headers == ResponseHeaders(goto.response)
    // the body is the page content in the charset the response declares
    ensures r.Ok? ==>
      (r.value.body, r.value.encoding) == Utils.EncodeBody(r.value.headers, content.value, codecs) &&
      ((r.value.body, r.value.encoding) == (Utils.Utf8(content.value), Utils.Utf8Name) ||
       codecs.encode(content.value, r.value.encoding) == Some(r.value.body))
  {
    if goto.GotoRaised? then Raised(goto.error)
    else if stepsFailure.Some? then Raised(stepsFailure.value)
    else if content.Raised? then Raised(content.error)
    else
      var headers := ResponseHeaders(goto.response);
      var status := if goto.response.None? then 200 else goto.response.value.status;
      var (body, encoding) := Utils.EncodeBody(headers, content.value, codecs);
      Ok(Response(finalUrl, status, headers, body, encoding, [PlaywrightFlag]))
  }

  class DownloadHandler {
    const browserTypeName: string
    const maxPagesPerContext: int
    const headersSetting: HeadersSetting
    const abortRequest: Option<InterceptedRequest -> Outcome<bool>>
    var browserLaunched: bool
    var contextWrappers: Registry
    /** The pages that still hold a page permit, with their context's name. */
    var pageHolders: map<Page, string>
    /** The free permits of the global context semaphore, when there is one. */
    var contextPermits: Option<int>
    // stats
    var contextCount: nat
    var persistentContextCount: nat
    var nonPersistentContextCount: nat
    var pageCount: nat
    var closedPageCount: nat
    var abortedRequestCount: nat
    var maxConcurrentPageCount: Option<int>
    var maxConcurrentContextCount: Option<int>

    ghost function PoolState(): Pool<Page>
      reads this`contextWrappers, this`pageHolders
    {
      Pool(contextWrappers, pageHolders)
    }

    ghost function Launches(): ContextLaunches
      reads this`contextPermits, this`browserLaunched, this`contextCount
      reads this`persistentContextCount, this`nonPersistentContextCount, this`maxConcurrentContextCount
    {
      ContextLaunches(contextPermits, browserLaunched, contextCount, persistentContextCount,
                      nonPersistentContextCount, maxConcurrentContextCount)
    }

    /** What launching a context does to `s`: one global permit is taken
        when there is a ceiling, the browser is launched unless the context
        is persistent, and the context is counted. */
    function Launched(s: ContextLaunches, persistent: bool): ContextLaunches
    {
      s.(contextPermits := if s.contextPermits.Some? then Some(s.contextPermits.value - 1) else None,
         browserLaunched := s.browserLaunched || !persistent,
         contextCount := s.contextCount + 1,
         persistentContextCount := s.persistentContextCount + (if persistent then 1 else 0),
         nonPersistentContextCount := s.nonPersistentContextCount + (if persistent then 0 else 1))
    }

    /** What creating a context with `kwargs` does to `s`: it is launched,
        and the maximum becomes that of `contexts` registered contexts
        unless the page semaphore raised. */
    function AfterLaunch(s: ContextLaunches, kwargs: map<string, Value>, contexts: nat): ContextLaunches
    {
      var launched := Launched(s, IsPersistent(kwargs));
      if maxPagesPerContext < 0 then launched
      else launched.(maxConcurrentContextCount := Some(NewMax(s.maxConcurrentContextCount, contexts)))
    }

    /** Every context's page permits are accounted for by the pages that
        hold one, and the global context semaphore is never negative. */
    ghost predicate Valid()
      reads this`contextWrappers, this`pageHolders, this`contextPermits
    {
      Accounted(PoolState(), maxPagesPerContext) && (contextPermits.Some? ==> contextPermits.value >= 0)
    }

    /** The settings: the browser type (empty when unset), the page ceiling
        per context and its fallback `CONCURRENT_REQUESTS`, the context
        ceiling (0 when unset; a negative one makes the semaphore raise),
        the header policy and the abort predicate. */
    constructor (browserTypeSetting: string, maxPagesSetting: int, concurrentRequests: int,
                 maxContextsSetting: int, headersSetting: HeadersSetting,
                 abortRequest: Option<InterceptedRequest -> Outcome<bool>>)
      requires maxContextsSetting >= 0
      ensures browserTypeName == (if browserTypeSetting != "" then browserTypeSetting else DefaultBrowserType)
      ensures maxPagesPerContext == (if maxPagesSetting != 0 then maxPagesSetting else concurrentRequests)
      ensures contextPermits == (if maxContextsSetting != 0 then Some(maxContextsSetting) else None)
      ensures this.headersSetting == headersSetting && this.abortRequest == abortRequest
      ensures contextWrappers == map[] && pageHolders == map[] && !browserLaunched
      ensures contextCount == 0 && persistentContextCount == 0 && nonPersistentContextCount == 0
      ensures pageCount == 0 && closedPageCount == 0 && abortedRequestCount == 0
      ensures maxConcurrentPageCount == None && maxConcurrentContextCount == None
      ensures Valid()
    {
      browserTypeName := if browserTypeSetting != "" then browserTypeSetting else DefaultBrowserType;
      maxPagesPerContext := if maxPagesSetting != 0 then maxPagesSetting else concurrentRequests;
      contextPermits := if maxContextsSetting != 0 then Some(maxContextsSetting) else None;
      this.headersSetting := headersSetting;
      this.abortRequest := abortRequest;
      browserLaunched := false;
      contextWrappers := map[];
      pageHolders := map[];
      contextCount, persistentContextCount, nonPersistentContextCount := 0, 0, 0;
      pageCount, closedPageCount, abortedRequestCount := 0, 0, 0;
      maxConcurrentPageCount, maxConcurrentContextCount := None, None;
    }

    /** `_set_max_concurrent_context_count` */
    method SetMaxConcurrentContextCount()
      modifies this`maxConcurrentContextCount
      ensures maxConcurrentContextCount == Some(NewMax(old(maxConcurrentContextCount), |contextWrappers|))
    {
      var count := |contextWrappers|;
      if maxConcurrentContextCount.None? || count > maxConcurrentContextCount.value {
        maxConcurrentContextCount := Some(count);
      }
    }

    /** `_set_max_concurrent_page_count`, given the pages open in all
        contexts. */
    method SetMaxConcurrentPageCount(count: nat)
      modifies this`maxConcurrentPageCount
      ensures maxConcurrentPageCount == Some(NewMax(old(maxConcurrentPageCount), count))
    {
      if maxConcurrentPageCount.None? || count > maxConcurrentPageCount.value {
        maxConcurrentPageCount := Some(count);
      }
    }

    /** `context_wrappers[name] = wrapper`, the wrapper's page semaphore
        being full. */
    method Register(name: string, wrapper: ContextWrapper)
      requires Valid()
      requires wrapper.pagePermits == maxPagesPerContext && maxPagesPerContext >= 0
      modifies this`contextWrappers, this`pageHolders
      ensures Valid()
      ensures PoolState() == RegisterContext(old(PoolState()), name, wrapper)
    {
      RegisterContextKeepsAccount(PoolState(), name, wrapper, maxPagesPerContext);
      contextWrappers := contextWrappers[name := wrapper];
      pageHolders := DropHolders(pageHolders, name);
    }

    /** The start of `_create_browser_context`: a global context permit
        when there is a ceiling, the launch (of the browser too unless the
        context is persistent) and the context stats. Whether the context
        is persistent is returned. */
    method LaunchContext(kwargs: map<string, Value>) returns (persistent: bool)
      requires contextPermits.Some? ==> contextPermits.value > 0
      modifies this`contextPermits, this`browserLaunched
      modifies this`contextCount, this`persistentContextCount, this`nonPersistentContextCount
      ensures persistent == IsPersistent(kwargs)
      ensures contextPermits == if old(contextPermits).Some? then Some(old(contextPermits).value - 1) else None
      ensures contextPermits.Some? ==> contextPermits.value >= 0
      ensures browserLaunched == (old(browserLaunched) || !persistent)
      ensures contextCount == old(contextCount) + 1
      ensures persistentContextCount == old(persistentContextCount) + (if persistent then 1 else 0)
      ensures nonPersistentContextCount == old(nonPersistentContextCount) + (if persistent then 0 else 1)
      ensures Launches() == Launched(old(Launches()), persistent)
    {
      if contextPermits.Some? {
        contextPermits := Some(contextPermits.value - 1);
      }
      persistent := IsPersistent(kwargs);
      if persistent {
        persistentContextCount := persistentContextCount + 1;
      } else {
        browserLaunched := true;
        nonPersistentContextCount := nonPersistentContextCount + 1;
      }
      contextCount := contextCount + 1;
    }

    /** `_create_browser_context`: after the launch, the context is
        registered under `name` with a full page semaphore. A negative page
        ceiling makes the semaphore's constructor raise, after the global
        permit was taken and the stats counted: nothing is registered then.
        `context` is the engine's handle for the new context. */
    method CreateBrowserContext(name: string, kwargs: map<string, Value>, context: nat)
      returns (r: Outcome<ContextWrapper>)
      requires Valid()
      requires contextPermits.Some? ==> contextPermits.value > 0
      modifies this`contextPermits, this`browserLaunched, this`contextWrappers, this`pageHolders
      modifies this`contextCount, this`persistentContextCount, this`nonPersistentContextCount
      modifies this`maxConcurrentContextCount
      ensures Valid()
      ensures contextPermits == if old(contextPermits).Some? then Some(old(contextPermits).value - 1) else None
      ensures browserLaunched == (old(browserLaunched) || !IsPersistent(kwargs))
      ensures contextCount == old(contextCount) + 1
      ensures persistentContextCount == old(persistentContextCount) + (if IsPersistent(kwargs) then 1 else 0)
      ensures nonPersistentContextCount == old(nonPersistentContextCount) + (if IsPersistent(kwargs) then 0 else 1)
      ensures maxPagesPerContext < 0 ==>
        r == Raised(NegativeSemaphoreError) && PoolState() == old(PoolState()) &&
        maxConcurrentContextCount == old(maxConcurrentContextCount)
      ensures maxPagesPerContext >= 0 ==>
        r == Ok(ContextWrapper(context, IsPersistent(kwargs), maxPagesPerContext)) &&
        PoolState() == RegisterContext(old(PoolState()), name, r.value) &&
        maxConcurrentContextCount == Some(NewMax(old(maxConcurrentContextCount), |contextWrappers|))
      ensures Launches() == AfterLaunch(old(Launches()), kwargs, |contextWrappers|)
    {
      ghost var before := Launches();
      var persistent := LaunchContext(kwargs);
      ghost var launched := Launches();
      if maxPagesPerContext < 0 {
        return Raised(NegativeSemaphoreError);
      }
      var wrapper := ContextWrapper(context, persistent, maxPagesPerContext);
      Register(name, wrapper);
      assert Launches() == launched;
      SetMaxConcurrentContextCount();
      r := Ok(wrapper);
    }

    /** The pool once a context is registered under `name`, created with
        `kwargs` and the engine handle `context` when none was. */
    ghost function PoolWithContext(pool: Pool<Page>, name: string, kwargs: map<string, Value>, context: nat): Pool<Page>
    {
      if name in pool.wrappers then pool
      else RegisterContext(pool, name, ContextWrapper(context, IsPersistent(kwargs), maxPagesPerContext))
    }

    /** The context registered under `name`, created with `kwargs` when
        none is; the creation's error, if it raised. */
    method EnsureContext(name: string, kwargs: map<string, Value>, context: nat) returns (failure: Option<Error>)
      requires Valid()
      requires name !in contextWrappers ==> contextPermits.Some? ==> contextPermits.value > 0
      modifies this`contextPermits, this`browserLaunched, this`contextWrappers, this`pageHolders
      modifies this`contextCount, this`persistentContextCount, this`nonPersistentContextCount
      modifies this`maxConcurrentContextCount
      ensures Valid()
      ensures var created := name !in old(contextWrappers);
        && failure == (if created && maxPagesPerContext < 0 then Some(NegativeSemaphoreError) else None)
        && (failure.None? ==> name in contextWrappers)
        && PoolState() == (if failure.None? then PoolWithContext(old(PoolState()), name, kwargs, context)
                           else old(PoolState()))
        && contextCount == old(contextCount) + (if created then 1 else 0)
        && contextPermits == (if created && old(contextPermits).Some? then Some(old(contextPermits).value - 1)
                              else old(contextPermits))
      ensures Launches() == if name in old(contextWrappers) then old(Launches())
                            else AfterLaunch(old(Launches()), kwargs, |old(contextWrappers)| + 1)
    {
      failure := None;
      if name !in contextWrappers {
        var created := CreateBrowserContext(name, kwargs, context);
        if created.Raised? {
          failure := Some(created.error);
        }
      }
    }

    /** `semaphore.acquire()` then `new_page()`: a new page takes one
        permit of the context `name`, and is counted; `totalPageCount` is
        the number of pages open in all contexts afterwards. */
    method OpenNewPage(name: string, behaviour: PageBehaviour, totalPageCount: nat) returns (page: Page)
      requires Valid()
      requires name in contextWrappers && contextWrappers[name].pagePermits > 0
      modifies this`contextWrappers, this`pageHolders, this`pageCount, this`maxConcurrentPageCount
      ensures Valid()
      ensures fresh(page) && !page.closed && page.contentReads == 0
      ensures page.methodNames == behaviour.methodNames && page.invoke == behaviour.invoke
      ensures page.contentScript == behaviour.contentScript
      ensures PoolState() == OpenPage(old(PoolState()), name, page)
      ensures pageCount == old(pageCount) + 1
      ensures maxConcurrentPageCount == Some(NewMax(old(maxConcurrentPageCount), totalPageCount))
    {
      page := new Page(behaviour.methodNames, behaviour.invoke, behaviour.contentScript);
      OpenPageKeepsAccount(PoolState(), name, page, maxPagesPerContext);
      contextWrappers := AcquireByName(contextWrappers, name);
      pageHolders := pageHolders[page := name];
      pageCount := pageCount + 1;
      SetMaxConcurrentPageCount(totalPageCount);
    }

    /** `_create_page`: the request's context (creating it when absent),
        one of its page permits, and a new page in it. A context that cannot
        be created leaves its error as the result. */
    method CreatePage(request: ScrapyRequest, context: nat, behaviour: PageBehaviour, totalPageCount: nat)
      returns (r: Outcome<Page>)
      requires Valid()
      requires var name := ContextNameOf(request.contextName);
        if name in contextWrappers then contextWrappers[name].pagePermits > 0
        else maxPagesPerContext != 0 && (contextPermits.Some? ==> contextPermits.value > 0)
      modifies this`contextPermits, this`browserLaunched, this`contextWrappers, this`pageHolders
      modifies this`contextCount, this`persistentContextCount, this`nonPersistentContextCount
      modifies this`maxConcurrentContextCount, this`pageCount, this`maxConcurrentPageCount
      modifies request`contextName
      ensures Valid()
      ensures request.contextName == Some(ContextNameOf(old(request.contextName)))
      ensures var name := ContextNameOf(old(request.contextName));
        var created := name !in old(contextWrappers);
        && contextCount == old(contextCount) + (if created then 1 else 0)
        && contextPermits == (if created && old(contextPermits).Some? then Some(old(contextPermits).value - 1)
                              else old(contextPermits))
      ensures var name := ContextNameOf(old(request.contextName));
        Launches() == if name in old(contextWrappers) then old(Launches())
                      else AfterLaunch(old(Launches()), request.contextKwargs, |old(contextWrappers)| + 1)
      ensures var name := ContextNameOf(old(request.contextName));
        name !in old(contextWrappers) && maxPagesPerContext < 0 ==>
          r == Raised(NegativeSemaphoreError) && PoolState() == old(PoolState()) &&
          pageCount == old(pageCount) && maxConcurrentPageCount == old(maxConcurrentPageCount)
      ensures var name := ContextNameOf(old(request.contextName));
        !(name !in old(contextWrappers) && maxPagesPerContext < 0) ==>
          var before := PoolWithContext(old(PoolState()), name, request.contextKwargs, context);
          && r.Ok? && fresh(r.value) && !r.value.closed && r.value.contentReads == 0
          && r.value.methodNames == behaviour.methodNames && r.value.invoke == behaviour.invoke
          && r.value.contentScript == behaviour.contentScript
          && name in before.wrappers && before.wrappers[name].pagePermits > 0
          && PoolState() == OpenPage(before, name, r.value)
          && pageCount == old(pageCount) + 1
          && maxConcurrentPageCount == Some(NewMax(old(maxConcurrentPageCount), totalPageCount))
    {
      var name := ContextNameOf(request.contextName);
      request.contextName := Some(name);
      var failure := EnsureContext(name, request.contextKwargs, context);
      if failure.Some? {
        return Raised(failure.value);
      }
      ghost var launches := Launches();
      var page := OpenNewPage(name, behaviour, totalPageCount);
      assert Launches() == launches;
      r := Ok(page);
    }

    /** The page's close and crash listener, releasing the page's permit
        only the first time. */
    method OnPageClosed(page: Page)
      requires Valid()
      modifies this`contextWrappers, this`pageHolders
      ensures Valid()
      ensures PoolState() == ReleasePageOnce(old(PoolState()), page)
    {
      ReleasePageOnceKeepsAccount(PoolState(), page, maxPagesPerContext);
      if page in pageHolders {
        contextWrappers := ReleaseByName(contextWrappers, pageHolders[page]);
        pageHolders := pageHolders - {page};
      }
    }

    /** The context's close listener: unregisters it, tolerating its
        absence, and gives back a global context permit when there is a
        ceiling. */
    method OnContextClosed(name: string)
      requires Valid()
      modifies this`contextWrappers, this`pageHolders, this`contextPermits
      ensures Valid()
      ensures PoolState() == CloseContext(old(PoolState()), name)
      ensures contextPermits == if old(contextPermits).Some? then Some(old(contextPermits).value + 1) else None
    {
      CloseContextKeepsAccount(PoolState(), name, maxPagesPerContext);
      contextWrappers := contextWrappers - {name};
      pageHolders := DropHolders(pageHolders, name);
      if contextPermits.Some? {
        contextPermits := Some(contextPermits.value + 1);
      }
    }

    /** `page.close()` from the handler, which fires the close listener,
        and the closed-page stat. */
    method ClosePage(page: Page)
      requires Valid()
      modifies page`closed, this`contextWrappers, this`pageHolders, this`closedPageCount
      ensures Valid()
      ensures page.closed
      ensures PoolState() == ReleasePageOnce(old(PoolState()), page)
      ensures closedPageCount == old(closedPageCount) + 1
    {
      page.Close();
      OnPageClosed(page);
      closedPageCount := closedPageCount + 1;
    }

    /** The abort predicate's answer for a request, which may raise; with
        no predicate configured, the request is not aborted. */
    function AbortAnswer(request: InterceptedRequest): (r: Outcome<bool>)
      ensures abortRequest.None? ==> r == Ok(false)
      ensures abortRequest.Some? ==> r == abortRequest.value(request)
    {
      if abortRequest.Some? then abortRequest.value(request) else Ok(false)
    }

    /** A request is aborted only when a predicate is configured and answers
        true. */
    predicate ShouldAbort(request: InterceptedRequest): (b: bool)
      ensures b <==> abortRequest.Some? && abortRequest.value(request) == Ok(true)
    {
      AbortAnswer(request) == Ok(true)
    }

    /** What the configured header policy gives for a request, called with
        the caller's headers as they are when the request is intercepted. */
    function PolicyFor(request: InterceptedRequest, callerHeaders: Headers): (r: PolicyOutput)
      ensures headersSetting.SetToNone? ==> r == NoPolicy
      ensures headersSetting.Unset? ==>
        r == PolicyHeaders(HeaderPolicy.UseScrapyHeaders(browserTypeName, request, callerHeaders))
      ensures headersSetting.SetTo? ==>
        var returned := headersSetting.policy(browserTypeName, request, callerHeaders);
        (r.PolicyHeaders? <==> returned.Some?) && (r.PolicyHeaders? ==> r.headers == returned.value) &&
        (!r.PolicyHeaders? ==> r == PolicyReturnedNone)
    {
      match headersSetting
      case SetToNone => NoPolicy
      case Unset => PolicyHeaders(HeaderPolicy.UseScrapyHeaders(browserTypeName, request, callerHeaders))
      case SetTo(policy) => OutputOf(policy(browserTypeName, request, callerHeaders))
    }

    /** The header part of the route handler: the policy's headers become
        the override and the caller's headers; with no policy, or one that
        gives `None`, the browser's headers become the caller's and no
        override is sent. */
    method RewriteHeaders(request: ScrapyRequest, intercepted: InterceptedRequest) returns (headerOverride: Option<Headers>)
      modifies request`headers
      ensures var policy := PolicyFor(intercepted, old(request.headers));
        && headerOverride == (if policy.PolicyHeaders? then Some(policy.headers) else None)
        && request.headers == (if policy.PolicyHeaders? then policy.headers else intercepted.headers)
    {
      headerOverride := None;
      var finalHeaders := intercepted.headers;
      match headersSetting {
        case SetToNone =>
        case Unset =>
          finalHeaders := HeaderPolicy.UseScrapyHeaders(browserTypeName, intercepted, request.headers);
          headerOverride := Some(finalHeaders);
        case SetTo(policy) =>
          var returned := policy(browserTypeName, intercepted, request.headers);
          if returned.Some? {
            finalHeaders := returned.value;
            headerOverride := returned;
          }
      }
      request.headers := map[];
      request.headers := request.headers + finalHeaders;
      assert request.headers == finalHeaders;
    }

    /** The route handler installed for `request`, run on one intercepted
        request; `decode` is `bytes.decode`, `failures` what `route.abort()`
        and the header policy raise, if anything, and `continueError` what
        `route.continue_` raises. An exception before the `try` around
        `route.continue_` always propagates and changes nothing. */
    method HandleRoute(request: ScrapyRequest, intercepted: InterceptedRequest,
                       decode: (seq<byte>, string) -> Outcome<string>, failures: RouteFailures,
                       continueError: Option<Error>)
      returns (outcome: RouteOutcome)
      modifies this`abortedRequestCount, request`headers
      ensures var answer := AbortAnswer(intercepted);
        var escaped := if answer.Raised? then Some(answer.error)
                       else if answer.value then failures.abortError else failures.headersError;
        escaped.Some? ==>
          outcome == RaisedError(escaped.value) && request.headers == old(request.headers) &&
          abortedRequestCount == old(abortedRequestCount)
      ensures var answer := AbortAnswer(intercepted);
        var escaped := if answer.Raised? then Some(answer.error)
                       else if answer.value then failures.abortError else failures.headersError;
        var decision := Decide(ShouldAbort(intercepted), PolicyFor(intercepted, old(request.headers)),
                               CallerRequest(request.httpMethod, request.url, request.body, request.encoding),
                               intercepted, decode);
        escaped.None? ==>
          && outcome == Resolve(decision, continueError)
          && request.headers == (if decision.Abort? then old(request.headers) else decision.callerHeaders)
          && abortedRequestCount == old(abortedRequestCount) + (if decision.Abort? then 1 else 0)
    {
      var answer := AbortAnswer(intercepted);
      if answer.Raised? {
        return RaisedError(answer.error);
      }
      if answer.value {
        if failures.abortError.Some? {
          return RaisedError(failures.abortError.value);
        }
        abortedRequestCount := abortedRequestCount + 1;
        return Aborted;
      }
      if failures.headersError.Some? {
        return RaisedError(failures.headersError.value);
      }
      var headerOverride := RewriteHeaders(request, intercepted);
      var overrides := Overrides(headerOverride, None, None);
      if IsPrimary(intercepted, request.url) {
        if Upper(request.httpMethod) != Upper(intercepted.httpMethod) {
          overrides := overrides.(httpMethod := Some(request.httpMethod));
        }
        if request.body != [] {
          var decoded := decode(request.body, request.encoding);
          if decoded.Raised? {
            return RaisedError(decoded.error);
          }
          overrides := overrides.(postData := Some(decoded.value));
        }
      }
      if continueError.None? {
        outcome := Continued(overrides);
      } else if Utils.IsSafeCloseError(continueError.value) {
        outcome := ContinueFailedSafely(overrides, continueError.value);
      } else {
        outcome := RaisedError(continueError.value);
      }
    }

    /** `_download_request_with_page`: navigate, record redirects, run the
        page methods, read the content, close the page unless the caller
        keeps it, and build the response. `goto` and `finalUrl` are the
        navigation's outcome and the page's URL after it. */
    method DownloadWithPage(request: ScrapyRequest, page: Page, goto: GotoOutcome, finalUrl: string,
                            codecs: Utils.Codecs) returns (r: Outcome<Response>)
      requires Valid()
      modifies request`page, request`redirect, page`contentReads, page`closed
      modifies this`contextWrappers, this`pageHolders, this`closedPageCount
      modifies Scripting.StepObjects(request.pageMethods)
      ensures Valid()
      ensures r == Assemble(goto, Scripting.StepsFailure(page, request.pageMethods),
                            page.contentScript(old(page.contentReads)), finalUrl, codecs)
      ensures request.page == if request.includePage then page else old(request.page)
      ensures goto.GotoReturned? && goto.response.Some? && goto.response.value.redirectedFrom != [] ==>
        request.redirect == Some(Redirects.Chronological(goto.response.value.redirectedFrom))
      ensures !(goto.GotoReturned? && goto.response.Some? && goto.response.value.redirectedFrom != []) ==>
        request.redirect == old(request.redirect)
      // the page methods run only after a navigation that did not raise
      ensures forall i :: 0 <= i < |request.pageMethods| && request.pageMethods[i].Call? ==>
        var pm := request.pageMethods[i].pm;
        pm.result == if goto.GotoReturned? &&
                        Scripting.RanBefore(page, request.pageMethods,
                                            Scripting.FailureIndex(page, request.pageMethods), pm)
                     then page.invoke(pm.methodName, pm.args, pm.kwargs).value
                     else old(pm.result)
      ensures page.contentReads == old(page.contentReads) +
        (if goto.GotoReturned? && Scripting.StepsFailure(page, request.pageMethods).None? then 1 else 0)
      // only a successful download closes the page, and only when it is not kept
      ensures r.Ok? && !request.includePage ==>
        page.closed && closedPageCount == old(closedPageCount) + 1 &&
        PoolState() == ReleasePageOnce(old(PoolState()), page)
      ensures !(r.Ok? && !request.includePage) ==>
        page.closed == old(page.closed) && closedPageCount == old(closedPageCount) &&
        PoolState() == old(PoolState())
    {
      if request.includePage {
        request.page := page;
      }
      if goto.GotoRaised? {
        return Raised(goto.error);
      }
      var headers, status := NavigationResult(request, goto.response);
      var failure := Scripting.ApplyPageMethods(page, request.pageMethods);
      if failure.Some? {
        return Raised(failure.value);
      }
      r := Respond(page, request.includePage, goto.response, headers, status, finalUrl, codecs);
    }

    /** The end of `_download_request_with_page` once the page methods
        succeeded: read the content, close the page unless it is kept, and
        build the response from the content in its chosen charset. */
    method Respond(page: Page, includePage: bool, response: Option<NavResponse>, headers: Headers, status: int,
                   finalUrl: string, codecs: Utils.Codecs) returns (r: Outcome<Response>)
      requires Valid()
      requires headers == ResponseHeaders(response)
      requires status == if response.None? then 200 else response.value.status
      modifies page`contentReads, page`closed
      modifies this`contextWrappers, this`pageHolders, this`closedPageCount
      ensures Valid()
      ensures r == Assemble(GotoReturned(response), None, page.contentScript(old(page.contentReads)), finalUrl, codecs)
      ensures page.contentReads == old(page.contentReads) + 1
      ensures r.Ok? && !includePage ==>
        page.closed && closedPageCount == old(closedPageCount) + 1 &&
        PoolState() == ReleasePageOnce(old(PoolState()), page)
      ensures !(r.Ok? && !includePage) ==>
        page.closed == old(page.closed) && closedPageCount == old(closedPageCount) &&
        PoolState() == old(PoolState())
    {
      var content := page.Content();
      if content.Raised? {
        return Raised(content.error);
      }
      if !includePage {
        ClosePage(page);
      }
      var (body, encoding) := Utils.EncodeBody(headers, content.value, codecs);
      r := Ok(Response(finalUrl, status, headers, body, encoding, [PlaywrightFlag]));
    }

    /** No page can be had for `request`: it carries none, its context must
        be created, and the page ceiling is negative. */
    predicate PageUnobtainable(request: ScrapyRequest)
      reads request`page, request`contextName, this`contextWrappers
    {
      request.page == null && ContextNameOf(request.contextName) !in contextWrappers && maxPagesPerContext < 0
    }

    /** The pool once a page `p` is opened in the context `name`, which is
        created with `kwargs` when absent. */
    ghost function PoolWithPage(pool: Pool<Page>, name: string, kwargs: map<string, Value>, context: nat, p: Page): Pool<Page>
    {
      var before := PoolWithContext(pool, name, kwargs, context);
      if name in before.wrappers && before.wrappers[name].pagePermits > 0 then OpenPage(before, name, p) else before
    }

    /** A fresh page that gives its permit back leaves only its context
        behind: the pool is as if the context alone had been made. */
    lemma {:induction false} FreshPageReleasedLeavesContext(pool: Pool<Page>, name: string, kwargs: map<string, Value>,
                                                           context: nat, p: Page)
      requires p !in pool.holders
      ensures ReleasePageOnce(PoolWithPage(pool, name, kwargs, context, p), p) ==
              PoolWithContext(pool, name, kwargs, context)
    {
      var before := PoolWithContext(pool, name, kwargs, context);
      assert p !in before.holders;
      if name in before.wrappers && before.wrappers[name].pagePermits > 0 {
        OpenThenReleaseRestores(before, name, p);
      }
    }

    /** The request's own page when it carries one, otherwise a new page;
        the context name defaulted either way. */
    method PageFor(request: ScrapyRequest, context: nat, behaviour: PageBehaviour, totalPageCount: nat)
      returns (r: Outcome<Page>)
      requires Valid()
      requires request.page == null ==>
        var name := ContextNameOf(request.contextName);
        if name in contextWrappers then contextWrappers[name].pagePermits > 0
        else maxPagesPerContext != 0 && (contextPermits.Some? ==> contextPermits.value > 0)
      modifies this`contextPermits, this`browserLaunched, this`contextWrappers, this`pageHolders
      modifies this`contextCount, this`persistentContextCount, this`nonPersistentContextCount
      modifies this`maxConcurrentContextCount, this`pageCount, this`maxConcurrentPageCount
      modifies request`contextName
      ensures Valid()
      ensures request.contextName == Some(ContextNameOf(old(request.contextName)))
      ensures old(request.page) != null ==>
        r == Ok(old(request.page)) && PoolState() == old(PoolState()) && pageCount == old(pageCount)
      ensures old(PageUnobtainable(request)) ==>
        r == Raised(NegativeSemaphoreError) && PoolState() == old(PoolState()) && pageCount == old(pageCount)
      ensures old(request.page) == null && !old(PageUnobtainable(request)) ==>
        && r.Ok? && fresh(r.value) && !r.value.closed && r.value.contentReads == 0
        && r.value.methodNames == behaviour.methodNames && r.value.invoke == behaviour.invoke
        && r.value.contentScript == behaviour.contentScript && pageCount == old(pageCount) + 1
        && r.value !in old(pageHolders)
        && PoolState() == PoolWithPage(old(PoolState()), ContextNameOf(old(request.contextName)),
                                       request.contextKwargs, context, r.value)
        && maxConcurrentPageCount == Some(NewMax(old(maxConcurrentPageCount), totalPageCount))
      ensures !(old(request.page) == null && !old(PageUnobtainable(request))) ==>
        maxConcurrentPageCount == old(maxConcurrentPageCount)
      // a context is created only for a request without a page whose context is absent
      ensures var created := old(request.page) == null && ContextNameOf(old(request.contextName)) !in old(contextWrappers);
        Launches() == if created then AfterLaunch(old(Launches()), request.contextKwargs, |old(contextWrappers)| + 1)
                      else old(Launches())
    {
      if request.page != null {
        r := Ok(request.page);
      } else {
        r := CreatePage(request, context, behaviour, totalPageCount);
      }
      request.contextName := Some(ContextNameOf(request.contextName));
    }

    /** The `try` of `_download_request`: the download with the page, and on
        failure the page closed unless the caller keeps it or it is closed
        already, the failure then propagating. `start`, `readsBefore`,
        `wasClosed` and `resultsBefore` name the pool, the page's content
        reads and closed flag and the page methods' results it starts from. */
    method DownloadClosingOnFailure(request: ScrapyRequest, page: Page, goto: GotoOutcome, finalUrl: string,
                                    codecs: Utils.Codecs, ghost start: Pool<Page>, ghost readsBefore: nat,
                                    ghost wasClosed: bool, ghost resultsBefore: seq<Value>)
      returns (r: Outcome<Response>)
      requires Valid()
      requires PoolState() == start && page.contentReads == readsBefore && page.closed == wasClosed
      requires Scripting.Results(request.pageMethods) == resultsBefore
      modifies request`page, request`redirect, page`contentReads, page`closed
      modifies this`contextWrappers, this`pageHolders, this`closedPageCount
      modifies Scripting.StepObjects(request.pageMethods)
      ensures Valid()
      ensures Launches() == old(Launches())
      ensures r == Assemble(goto, Scripting.StepsFailure(page, request.pageMethods),
                            page.contentScript(readsBefore), finalUrl, codecs)
      ensures request.page == if request.includePage then page else old(request.page)
      ensures goto.GotoReturned? && goto.response.Some? && goto.response.value.redirectedFrom != [] ==>
        request.redirect == Some(Redirects.Chronological(goto.response.value.redirectedFrom))
      ensures !(goto.GotoReturned? && goto.response.Some? && goto.response.value.redirectedFrom != []) ==>
        request.redirect == old(request.redirect)
      ensures Scripting.ResultsAfter(page, request.pageMethods, goto.GotoReturned?, resultsBefore)
      ensures page.contentReads ==
        readsBefore + (if goto.GotoReturned? && Scripting.StepsFailure(page, request.pageMethods).None? then 1 else 0)
      ensures page.closed == (wasClosed || !request.includePage)
      ensures var released := !request.includePage && (r.Ok? || !wasClosed);
        && closedPageCount == old(closedPageCount) + (if released then 1 else 0)
        && PoolState() == (if released then ReleasePageOnce(start, page) else start)
        && (released ==> page !in pageHolders)
    {
      r := DownloadWithPage(request, page, goto, finalUrl, codecs);
      if r.Raised? && !request.includePage && !page.closed {
        ClosePage(page);
      }
    }

    /** `_download_request`: the request's own page, or a new one; the
        download; and on failure the page closed unless the caller keeps it
        or it is closed already, the failure then propagating. When no page
        can be had, the error propagates and no page is returned. `context`,
        `behaviour` and `totalPageCount` describe a context and page the
        engine would create. */
    method DownloadRequest(request: ScrapyRequest, goto: GotoOutcome, finalUrl: string, codecs: Utils.Codecs,
                           context: nat, behaviour: PageBehaviour, totalPageCount: nat)
      returns (r: Outcome<Response>, page: Page?)
      requires Valid()
      requires request.page == null ==>
        var name := ContextNameOf(request.contextName);
        if name in contextWrappers then contextWrappers[name].pagePermits > 0
        else maxPagesPerContext != 0 && (contextPermits.Some? ==> contextPermits.value > 0)
      modifies this`contextPermits, this`browserLaunched, this`contextWrappers, this`pageHolders
      modifies this`contextCount, this`persistentContextCount, this`nonPersistentContextCount
      modifies this`maxConcurrentContextCount, this`pageCount, this`maxConcurrentPageCount, this`closedPageCount
      modifies request`contextName, request`page, request`redirect
      modifies if request.page != null then {request.page} else {}
      modifies Scripting.StepObjects(request.pageMethods)
      ensures Valid()
      ensures request.contextName == Some(ContextNameOf(old(request.contextName)))
      ensures (page == null) == old(PageUnobtainable(request))
      // a context is created, taking a global slot and moving the context
      // stats, only for a request without a page whose context is absent,
      // even when its page semaphore then raises
      ensures var created := old(request.page) == null && ContextNameOf(old(request.contextName)) !in old(contextWrappers);
        Launches() == if created then AfterLaunch(old(Launches()), request.contextKwargs, |old(contextWrappers)| + 1)
                      else old(Launches())
      // a context that cannot be created: its error propagates, and no page is opened or closed
      ensures page == null ==>
        r == Raised(NegativeSemaphoreError) && PoolState() == old(PoolState()) &&
        pageCount == old(pageCount) && closedPageCount == old(closedPageCount) &&
        request.page == old(request.page) && request.redirect == old(request.redirect)
      ensures page == null ==>
        maxConcurrentPageCount == old(maxConcurrentPageCount) &&
        Scripting.Results(request.pageMethods) == old(Scripting.Results(request.pageMethods))
      ensures !request.includePage ==> request.page == old(request.page)
      ensures page != null && old(request.page) != null ==>
        page == old(request.page) && pageCount == old(pageCount) &&
        maxConcurrentPageCount == old(maxConcurrentPageCount)
      ensures page != null && old(request.page) == null ==>
        fresh(page) && page.methodNames == behaviour.methodNames && page.invoke == behaviour.invoke &&
        page.contentScript == behaviour.contentScript && pageCount == old(pageCount) + 1 &&
        maxConcurrentPageCount == Some(NewMax(old(maxConcurrentPageCount), totalPageCount))
      ensures page != null ==>
        var readsBefore := if old(request.page) == null then 0 else old(request.page.contentReads);
        r == Assemble(goto, Scripting.StepsFailure(page, request.pageMethods),
                      page.contentScript(readsBefore), finalUrl, codecs)
      ensures page != null && request.includePage ==> request.page == page
      // the redirects are recorded after a redirected navigation, the page
      // methods that ran hold their results, and the content is read once
      // when the navigation and the page methods succeeded
      ensures page != null && goto.GotoReturned? && goto.response.Some? && goto.response.value.redirectedFrom != [] ==>
        request.redirect == Some(Redirects.Chronological(goto.response.value.redirectedFrom))
      ensures page != null && !(goto.GotoReturned? && goto.response.Some? && goto.response.value.redirectedFrom != []) ==>
        request.redirect == old(request.redirect)
      ensures page != null ==>
        Scripting.ResultsAfter(page, request.pageMethods, goto.GotoReturned?,
                               old(Scripting.Results(request.pageMethods)))
      ensures page != null ==>
        var readsBefore := if old(request.page) == null then 0 else old(request.page.contentReads);
        page.contentReads ==
          readsBefore + (if goto.GotoReturned? && Scripting.StepsFailure(page, request.pageMethods).None? then 1 else 0)
      // whatever the outcome, a page the caller does not keep ends closed
      ensures page != null ==>
        var wasClosed := old(request.page) != null && old(request.page.closed);
        && page.closed == (wasClosed || !request.includePage)
        && closedPageCount ==
             old(closedPageCount) + (if !request.includePage && (r.Ok? || !wasClosed) then 1 else 0)
      // and gives its permit back, unless it had been closed before and the download failed
      ensures page != null ==>
        var wasClosed := old(request.page) != null && old(request.page.closed);
        var released := !request.includePage && (r.Ok? || !wasClosed);
        var start := if old(request.page) != null then old(PoolState())
                     else PoolWithPage(old(PoolState()), ContextNameOf(old(request.contextName)),
                                       request.contextKwargs, context, page);
        && PoolState() == (if released then ReleasePageOnce(start, page) else start)
        && (released ==> page !in pageHolders)
    {
      // the callees' contracts carry the proof; the definitions below are not needed
      hide Valid, PoolWithPage, AfterLaunch, Assemble, Scripting.ResultsAfter, Scripting.StepsFailure, PageUnobtainable;
      ghost var wasClosed := request.page != null && request.page.closed;
      ghost var readsBefore := if request.page == null then 0 else request.page.contentReads;
      ghost var resultsBefore := Scripting.Results(request.pageMethods);
      var obtained := PageFor(request, context, behaviour, totalPageCount);
      if obtained.Raised? {
        return Raised(obtained.error), null;
      }
      page := obtained.value;
      ghost var start := if old(request.page) != null then old(PoolState())
                         else PoolWithPage(old(PoolState()), ContextNameOf(old(request.contextName)),
                                           request.contextKwargs, context, page);
      r := DownloadClosingOnFailure(request, page, goto, finalUrl, codecs, start, readsBefore, wasClosed, resultsBefore);
    }
  }
}
