# scrapy-playwright download handler, modelled in Dafny

scrapy-playwright is a Scrapy download handler that fetches pages through
a Playwright-driven browser. This project models its bookkeeping and
decision logic. The browser-engine calls it covers are inputs: a page's
answers to content reads and page-method calls, navigation outcomes, the
abort predicate's answer, the errors `route.abort()`, the header policy and
`route.continue_` raise, charset sniffing and codec encodability. The
engine calls it does not cover are listed under "Left out".

The model covers:

- **The context registry and its permits** (`Permits`, `Handler.DownloadHandler`).
  - Contexts are named and created on first use.
  - Each context has a page semaphore that starts at the page ceiling.
  - An optional global context semaphore exists when a context ceiling is configured.
  - Page close/crash listeners and context close listeners give permits back.
  - The class invariant `Valid` says that every context's free page permits plus the pages holding one add up to the ceiling. The release-once listener preserves it; the listener as written does not (see Findings).
- **Route interception** (`Routing`, `Handler.DownloadHandler.HandleRoute`).
  - Aborting.
  - The header policy, and the caller's header collection being replaced by the final headers.
  - The method and `post_data` overrides, which apply only to the caller's own navigation request.
  - Classification of errors raised by `route.continue_`.
- **Header policies** (`HeaderPolicy`): `use_scrapy_headers`, including a `urlparse(...).netloc` model, and `use_playwright_headers`.
- **Navigation and response assembly** (`Handler`, `Redirects`, `Scripting`).
  - Redirect history.
  - Status and headers when navigation gives no response.
  - Page methods run in order.
  - The page-close decision on success and on failure.
  - The response body encoded in the declared charset.
- **Utilities** (`Utils`).
  - Charset choice with a UTF-8 fallback.
  - The closed-target error classifier.
  - The one-retry content read, `Utils.GetPageContent`. It models `_get_page_content` on its own: the handler's download reads the content with a plain `page.content()` (handler.py:354) and never retries.
  - The exception-to-`None` lookups.
- **The `PageMethod` descriptor** (`PageMethods`).

Modules: `Common` (shared vocabulary), `Engine` (what the handler sees of the browser), `PageMethods`, `Requests` (the caller's request object), `HeaderPolicy`, `Utils`, `Permits`, `Routing`, `Redirects`, `Scripting`, `Handler`.

Header names are modelled as lower-case keys with one value each, which is how `Headers` behaves for the names the handler uses.

## Model

| member | source | states |
|---|---|---|
| Common.RStripSlash | scrapy_playwright/handler.py:507 | `rstrip("/")` gives a prefix of the string that does not end in `/`, and everything it removed is `/` |
| Common.RStripSlashIgnoresTrailingSlashes | scrapy_playwright/handler.py:507 | appending any number of slashes does not change the stripped URL |
| Common.Upper | scrapy_playwright/handler.py:510 | `upper()` keeps the length and upper-cases each character in place |
| Common.ContainsInfix | scrapy_playwright/_utils.py:72 | the substring test holds for any message that contains the searched text |
| Common.ContainsAt | scrapy_playwright/_utils.py:72 | conversely, when the substring test holds, the searched text occurs at a position of the message |
| Common.ContainsIffOccurs | scrapy_playwright/_utils.py:72 | the substring test holds exactly when the searched text occurs at some position, as Python's `in` does |
| Common.EndsWithAppended | scrapy_playwright/_utils.py:49-51 | the suffix test holds for any message built as prefix plus suffix |
| Engine.Page.Content | scrapy_playwright/handler.py:354 | a content read gives the page's next answer and counts one read |
| Engine.Page.Close | scrapy_playwright/handler.py:358 | after `close()` the page is closed |
| PageMethods.PageMethod.constructor | scrapy_playwright/page.py:10-14 | the method name, positional and keyword arguments are stored as given and `result` starts as `None` |
| PageMethods.PageMethod.Str | scrapy_playwright/page.py:16-19 | `str`/`repr` is `<PageMethod for method 'NAME'>`, from which the method name reads back exactly |
| PageMethods.DescribedMethodRoundTrip | scrapy_playwright/page.py:16-17 | parsing the description of a name gives that name back |
| PageMethods.DescribeInjective | scrapy_playwright/page.py:16-17 | two descriptors print alike exactly when they name the same method |
| HeaderPolicy.IndexOf | scrapy_playwright/headers.py:29 | the first `:` of a URL is found, with none before it |
| HeaderPolicy.AfterScheme | scrapy_playwright/headers.py:29 | what `urlparse` leaves after the scheme is a suffix of the URL, and anything removed is a letter-led scheme and its colon |
| HeaderPolicy.NetlocEnd | scrapy_playwright/headers.py:29 | the netloc ends at the first `/`, `?` or `#` |
| HeaderPolicy.Netloc | scrapy_playwright/headers.py:29 | the netloc never contains `/`, `?` or `#` |
| HeaderPolicy.AfterSchemeOfUrl | scrapy_playwright/headers.py:29 | a valid scheme and its colon are removed from the URL, and nothing else |
| HeaderPolicy.NetlocOfUrl | scrapy_playwright/headers.py:29 | for `scheme://host` followed by a path, query or fragment, the netloc is exactly the host |
| HeaderPolicy.WithUserAgent | scrapy_playwright/headers.py:24 | `setdefault`: a caller that has a user agent keeps all its headers; otherwise the browser's user agent is added when it has one; no other header changes |
| HeaderPolicy.UseScrapyHeaders | scrapy_playwright/headers.py:12-35 | navigation requests get the caller's headers, with the user agent filled from the browser only when missing and, for Firefox, `host` set to the URL's netloc; other requests get the browser's headers, with the user agent taken from the caller when it is non-empty and the browser's headers exactly as they are otherwise |
| HeaderPolicy.UsePlaywrightHeaders | scrapy_playwright/headers.py:38-42 | returns `None` whatever it is given |
| Utils.PossibleEncodings | scrapy_playwright/_utils.py:25-29 | the Content-Type charset comes first and only when that header is non-empty, then the body-declared charset |
| Utils.FirstWorking | scrapy_playwright/_utils.py:33-39 | finds the first candidate that is non-empty and encodes the text, and no earlier one does |
| Utils.Utf8Char | scrapy_playwright/_utils.py:40 | a character encodes to 1 to 4 bytes, one byte exactly for ASCII |
| Utils.Utf8 | scrapy_playwright/_utils.py:40 | UTF-8 text takes between one and four bytes per character |
| Utils.EncodeBody | scrapy_playwright/_utils.py:32-40 | the header charset wins when it encodes the text, then the body charset, then UTF-8; the body is always the text encoded in the returned charset |
| Utils.BodyCharsetWhenHeaderCharsetFails | scrapy_playwright/_utils.py:33-39 | when the header charset cannot encode the text, the body-declared one is used along with its encoding |
| Utils.NoCharsetMeansUtf8 | scrapy_playwright/_utils.py:40 | with no charset anywhere the result is the UTF-8 encoding and `"utf-8"` |
| Utils.IsSafeCloseError | scrapy_playwright/_utils.py:43-51 | an error is a safe close error exactly when its message ends, at some position, with one of the two closed-target messages |
| Utils.SafeCloseErrorOfSuffix | scrapy_playwright/_utils.py:43-51 | every message ending in either closed-target message is classified safe |
| Utils.SafeCloseErrorHasSuffix | scrapy_playwright/_utils.py:43-51 | every message classified safe ends in one of the two closed-target messages |
| Utils.IsNavigationRace | scrapy_playwright/_utils.py:72 | a read error is retried exactly when it is a browser error whose message contains the navigation message at some position |
| Utils.GetPageContent | scrapy_playwright/_utils.py:59-86 | one read when it succeeds or fails otherwise; exactly one more read, whose outcome is final, when the first fails with the navigation message |
| Utils.FloatOf | scrapy_playwright/_utils.py:91 | `float()`: `None` raises; booleans give 1.0 and 0.0; an int converts exactly when it is below the overflow bound in magnitude and raises otherwise; floats stay; strings go through the parser |
| Utils.GetFloatSetting | scrapy_playwright/_utils.py:89-93 | a missing or unconvertible setting gives `None`, otherwise its float value; an int too large for a double gives `None`, as `float()` raises `OverflowError` for it |
| Utils.GetHeaderValue | scrapy_playwright/_utils.py:96-103 | the resource's answer, or `None` when the lookup raises |
| Permits.ReleaseByName | scrapy_playwright/handler.py:433-438 | the page listener gives one permit back to the named context when it is registered, and changes nothing else |
| Permits.AcquireByName | scrapy_playwright/handler.py:189 | acquiring takes one permit of the named context, keeps its context handle and persistence, and changes nothing else |
| Permits.RegisterContext | scrapy_playwright/handler.py:167-171 | the name maps to the given wrapper, every other context is kept, and no page gains a permit |
| Permits.OpenPage | scrapy_playwright/handler.py:189-190 | the context gives up one permit and the page becomes its holder; other contexts and other pages are unchanged |
| Permits.ReleasePageOnce | scrapy_playwright/handler.py:231-232 | afterwards the page holds no permit; its context gets one back only when the page held one; other contexts are unchanged |
| Permits.CrashThenCloseExceedsCeiling | scrapy_playwright/handler.py:231-232 | with the listener on both `close` and `crash`, a page that crashes and is then closed leaves its context one permit above its ceiling |
| Permits.CloseContext | scrapy_playwright/handler.py:443-446 | closing a context removes its name, tolerating its absence, and keeps the other contexts as they were |
| Permits.DropHoldersOf | scrapy_playwright/handler.py:444 | after a context goes, none of its pages hold its permits and other contexts' holders are unchanged |
| Permits.RegisterContextKeepsAccount | scrapy_playwright/handler.py:167-171 | registering a context with a full page semaphore keeps every context's permits accounted for |
| Permits.OpenPageKeepsAccount | scrapy_playwright/handler.py:189-190 | a new page taking a permit keeps the accounting |
| Permits.HoldersOfAdded | scrapy_playwright/handler.py:189-190 | a new page adds itself to its context's holders and to no other context's |
| Permits.ReleasePageOnceKeepsAccount | scrapy_playwright/handler.py:433-438 | releasing once per page keeps the accounting |
| Permits.HoldersOfRemoved | scrapy_playwright/handler.py:433-438 | a released page leaves its context's holders and no other context's |
| Permits.CloseContextKeepsAccount | scrapy_playwright/handler.py:440-446 | closing a context keeps the accounting |
| Permits.AccountedWithinCeiling | scrapy_playwright/handler.py:167-171 | under the accounting, a context's free page permits stay between zero and the ceiling |
| Permits.ReleasePageOnceIdempotent | scrapy_playwright/handler.py:231-232 | a second close or crash event of a page changes nothing |
| Permits.CrashThenCloseRestoresCeiling | scrapy_playwright/handler.py:231-232 | with release once per page, crash then close returns the context exactly to its ceiling |
| Permits.OpenThenReleaseRestores | scrapy_playwright/handler.py:189-190 | a page that is opened and then closed leaves the pool exactly as it was before it opened |
| Routing.PrimaryIgnoresTrailingSlashes | scrapy_playwright/handler.py:506-509 | whether a request is the caller's own does not depend on trailing slashes of the caller's URL |
| Routing.IsPrimary | scrapy_playwright/handler.py:506-509 | only navigation requests are the caller's own, and a navigation to the caller's own URL always is |
| Routing.Decide | scrapy_playwright/handler.py:489-513 | abort exactly when the predicate says so; the caller's headers become the policy's headers or, with no policy, the browser's; a header override exactly when a policy gave headers; a method override exactly for the caller's own navigation request whose upper-cased method differs; `post_data` exactly for that request with a non-empty body, decoded with its encoding; failure exactly when that decoding raises |
| Routing.DecideAsWritten | scrapy_playwright/handler.py:491-502 | agrees with `Decide` whenever the policy does not return `None`; when it does, an aborted request is still aborted, and any other request fails with the error of iterating `None` and leaves the caller with no headers |
| Routing.PlaywrightHeadersPolicyFailsAsWritten | scrapy_playwright/handler.py:491-502 | as written, `use_playwright_headers` as the policy makes every request that is not aborted raise and empties the caller's headers |
| Routing.PlaywrightHeadersPolicyPassesThrough | scrapy_playwright/headers.py:38-42 | treating `None` as no policy gives the browser's headers unmodified and sends no header override |
| Routing.Resolve | scrapy_playwright/handler.py:515-554 | a `route.continue_` failure is swallowed exactly when it is a closed-target error and raised otherwise; abort and decoding failures pass through |
| Redirects.CollectRedirects | scrapy_playwright/handler.py:594-608 | the count is the chain length, and URLs and reasons are the chain reversed into chronological order, reason `None` for a hop without a response |
| Redirects.SetRedirectMeta | scrapy_playwright/handler.py:592-608 | the redirect meta is the chronological history when there was a redirect and is left untouched otherwise |
| Redirects.TwoRedirectsInOrder | scrapy_playwright/handler.py:592-608 | two redirects are reported oldest first with their statuses |
| Scripting.FailureIndex | scrapy_playwright/handler.py:387-405 | locates the first step that runs and raises; no earlier step does |
| Scripting.StepsFailure | scrapy_playwright/handler.py:387-405 | no error exactly when no step fails; otherwise the error of the first failing step |
| Scripting.ApplyPageMethods | scrapy_playwright/handler.py:382-417 | steps run in order and skip non-descriptors and unknown methods; the run stops with the first error; exactly the descriptors that ran before it get their call's result, the others keep theirs |
| Handler.NewMax | scrapy_playwright/handler.py:243-254 | the running maximum is at least the new count and the old maximum, and is one of them |
| Handler.IsPersistent | scrapy_playwright/handler.py:148 | a context is persistent exactly when `user_data_dir` is present and not one of Python's falsy values |
| Handler.ContextNameOf | scrapy_playwright/handler.py:177 | `setdefault("playwright_context", "default")`: the request's own name, or `default` when it has none |
| Handler.ResponseHeaders | scrapy_playwright/handler.py:336-352 | no headers when navigation gives no response, otherwise the response's headers without Content-Encoding |
| Handler.NavigationResult | scrapy_playwright/handler.py:336-352 | after a navigation, the headers and status follow `ResponseHeaders` and the 200 default, and the redirect meta is written only when there was a redirect |
| Handler.Assemble | scrapy_playwright/handler.py:335-380 | the first failure of navigation, page methods and content read is raised; otherwise the response has the page's URL, status 200 when navigation gave no response, headers without Content-Encoding, the `playwright` flag, and the content encoded in the chosen charset |
| Handler.DownloadHandler.constructor | scrapy_playwright/handler.py:58-102 | the browser type defaults to chromium, the page ceiling falls back to `CONCURRENT_REQUESTS`, a global context ceiling exists only when configured non-zero, the default header policy is `use_scrapy_headers`, and the abort predicate is stored as given |
| Handler.DownloadHandler.SetMaxConcurrentContextCount | scrapy_playwright/handler.py:249-254 | the context-count maximum becomes the running maximum with the number of registered contexts |
| Handler.DownloadHandler.SetMaxConcurrentPageCount | scrapy_playwright/handler.py:243-247 | the page-count maximum becomes the running maximum with the open page count |
| Handler.DownloadHandler.Register | scrapy_playwright/handler.py:167-171 | the context is registered with a full page semaphore and the accounting invariant holds |
| Handler.DownloadHandler.LaunchContext | scrapy_playwright/handler.py:145-164 | the global slot is taken when there is a ceiling; the browser is launched unless the context is persistent; the context counters move |
| Handler.DownloadHandler.CreateBrowserContext | scrapy_playwright/handler.py:138-173 | takes a global slot when there is a ceiling; the context is persistent exactly when `user_data_dir` is truthy; a non-persistent one launches the browser; the counters move; with a non-negative page ceiling the context is registered with a full page semaphore, and with a negative one `ValueError` is raised after the slot and the counters were taken and nothing is registered; the accounting invariant holds either way |
| Handler.DownloadHandler.EnsureContext | scrapy_playwright/handler.py:180-187 | a context is created only when none is registered under the name; afterwards one is registered, unless its creation raised, whose error is returned with the registry unchanged; the global slot, the browser launch, the context counters and the context-count maximum move as a launch does exactly when a context is created, and stay otherwise |
| Handler.DownloadHandler.OpenNewPage | scrapy_playwright/handler.py:189-207 | a fresh page takes one permit of its context, the page counter goes up by one, the page-count maximum becomes the running maximum with the pages open, and the invariant holds |
| Handler.DownloadHandler.CreatePage | scrapy_playwright/handler.py:175-238 | the context name defaults to `default`; a context is created only when none is registered under it, and only then do the global slot, the browser launch, the context counters and the context-count maximum move; when that creation raises, the error is the result and no page is opened or counted; otherwise the new page takes one of its permits, is counted, and the page-count maximum is updated; the invariant holds |
| Handler.DownloadHandler.OnPageClosed | scrapy_playwright/handler.py:433-438 | the close/crash listener gives the page's permit back to its context only the first time, keeping the invariant |
| Handler.DownloadHandler.OnContextClosed | scrapy_playwright/handler.py:440-454 | the context listener removes the name, tolerating its absence, and returns a global slot exactly when there is a ceiling |
| Handler.DownloadHandler.ClosePage | scrapy_playwright/handler.py:357-359 | the page is closed, its permit released once and the closed-page counter goes up by one |
| Handler.DownloadHandler.AbortAnswer | scrapy_playwright/handler.py:468-469 | with no abort predicate configured the answer is not to abort; otherwise it is the predicate's answer, which may raise |
| Handler.DownloadHandler.ShouldAbort | scrapy_playwright/handler.py:468-470 | a request is aborted exactly when a predicate is configured and answers true |
| Handler.DownloadHandler.PolicyFor | scrapy_playwright/handler.py:491-498 | no policy when the setting is `None`; `use_scrapy_headers` when it is unset; otherwise the configured policy's headers, or its `None` |
| Handler.DownloadHandler.RewriteHeaders | scrapy_playwright/handler.py:489-502 | the policy's headers become the override and the caller's headers; with no policy the browser's headers become the caller's and no override is sent |
| Handler.DownloadHandler.HandleRoute | scrapy_playwright/handler.py:466-554 | an error of the abort predicate, of `route.abort()` for an aborted request, or of the header policy for another propagates whatever it says and changes nothing; otherwise the outcome is the route decision resolved against the continuation's error, the caller's headers are replaced unless the request is aborted, and the aborted counter goes up exactly when it is |
| Handler.DownloadHandler.DownloadWithPage | scrapy_playwright/handler.py:323-380 | the result is `Assemble` of what the page did; the page is stored in meta when kept; redirect meta is set only after a redirected navigation; page methods run only after a navigation that did not raise; only a successful download closes the page, and only when it is not kept |
| Handler.DownloadHandler.Respond | scrapy_playwright/handler.py:354-380 | one content read; the page closed and counted only on success when not kept; the response is `Assemble` of the read |
| Handler.DownloadHandler.DownloadClosingOnFailure | scrapy_playwright/handler.py:300-321 | the result is `Assemble` of what the page did; the page is stored in meta when kept; redirect meta is set only after a redirected navigation; the page methods run only after a navigation that did not raise, and those that ran before the first failure hold their results; the content is read once when navigation and page methods succeeded; a page the caller does not keep ends closed; it is closed, counted and its permit released unless the download failed on a page that was already closed; the context counters do not move |
| Handler.DownloadHandler.PageFor | scrapy_playwright/handler.py:175-238 | the request's own page when it has one, with the pool, the page counter and its maximum and the context counters unchanged; else a fresh page opened in the named context, created first when absent, counted with the page-count maximum updated, or the context's creation error with the pool and the page counters unchanged; the global slot, the browser launch and the context counters move exactly when a context is created, even when its page semaphore then raises; the context name defaults to `default` |
| Handler.DownloadHandler.FreshPageReleasedLeavesContext | scrapy_playwright/handler.py:189-190 | a fresh page that gives its permit back leaves the pool as if only its context had been created |
| Handler.DownloadHandler.DownloadRequest | scrapy_playwright/handler.py:276-321 | the request's own page is used, otherwise a new one is created; a context is created, taking a global slot and moving the context counters and the browser launch, exactly when the request has no page and its context is absent; when no page can be had, the creation error propagates and no page is opened or closed: the pool, the page counters, the meta other than `playwright_context` and the page methods' results stay, while the global slot and the context counters have moved; otherwise the download on the page as `DownloadClosingOnFailure` states it, from the page's state before: the result, the meta, the page methods' results and the content read; whatever the outcome, a page the caller does not keep ends closed and, unless the download failed on a page already closed, is counted and gives its permit back |

## Left out

- Browser launch and connection, the Playwright manager lifecycle, startup contexts, and closing the handler. These are engine calls. The model keeps only a "browser launched" flag.
- asyncio concurrency, locks and the blocking wait of a semaphore. A wait that would block is a precondition that a permit is free. Peak concurrency under a burst is not modelled.
- The threaded event-loop adapter and the memory-usage and extension modules. They bridge event loops or read live OS processes.
- Charset sniffing from headers and HTML, and Python codec encodability. These are the oracle functions of `Utils.Codecs`.
- `bytes.decode`. It is an input of the route handler.
- Logging, stats key strings, the request and response loggers, `responsetypes.from_args`, and the server IP address and security details lookups.
- `load_object`. The header policy and abort predicate are given already loaded.
- The page init callback and the meta-configured page event handlers. Both are user code run against the page.
- Navigation timeouts, `playwright_page_goto_kwargs` and `download_latency`. These are engine options or a clock.
- Scrapy's case-insensitive, multi-valued headers. Keys are lower-case with one value.
- Unicode upper-casing beyond ASCII.
- `urlparse`'s stripping of whitespace and control characters.
- Floats other than reals, such as NaN and infinities.
- The `playwright_context` meta entry present with value `None`. Python's `setdefault` then keeps `None` as the context name. The model treats the entry as absent.
- Handler.DownloadHandler.RewriteHeaders: when the header policy returns `None`, as `use_playwright_headers` does, it is treated as no policy. In Python the handler then raises (see Findings); `Routing.DecideAsWritten` models that.
- Handler.DownloadHandler.HandleRoute: the same correction as `RewriteHeaders`, through `Routing.Decide`.
- Handler.DownloadHandler.OnPageClosed: releases a page's permit only the first time it fires (see Findings). In Python the same callback on `close` and `crash` releases every time; `Permits.ReleaseByName` models the listener as written.
- Handler.DownloadHandler.ClosePage: fires the release-once listener of `OnPageClosed`, with the same correction.
- Handler.DownloadHandler.CreateBrowserContext: does not model an engine failure while the context is launched. After such a failure the global slot taken is never given back. The negative page ceiling, which makes the page semaphore raise, is modelled.
- Handler.DownloadHandler.OpenNewPage: `new_page()` is assumed to succeed once the page permit is taken. In Python it can raise after the `semaphore.acquire()` at handler.py:189-190; no page then exists to carry the close listener, so that permit is never given back and the context stays one permit short of its ceiling. The accounting invariant `Valid` holds only because this failure is not modelled.
- Handler.DownloadHandler.CreatePage: the same assumption as `OpenNewPage`, that `new_page()` succeeds; its failure would raise out of `_create_page` with the permit lost.
- Handler.DownloadHandler.PageFor: the same assumption as `OpenNewPage`; a fresh page is always obtained once a permit is free.
- Handler.DownloadHandler.constructor: a negative context ceiling is a precondition violation here. In Python the semaphore's constructor raises for it.
- Handler.DownloadHandler.OnContextClosed: gives the global slot back for any name, as the listener does. The model does not tie the number of global slots to the number of registered contexts.
- Scripting.ApplyPageMethods: one engine answer stands for the method call and the load-state wait that follows it. A failure of either ends the run alike.
- The route handler runs while `goto` is in progress. The model takes the navigation's outcome and each interception as separate inputs and does not model their interleaving.
- Handler.DownloadHandler.DownloadWithPage: a page method cannot close the page, and a page answers a call from the method's name and arguments alone, whatever was called on it before, by this request or by an earlier one that kept the page. In Python a `close` page method closes the page, and its load-state wait then raises (handler.py:404-405). The page is then closed already when the handler checks it at handler.py:303, so it is neither closed again nor counted. The model's clauses on `page.closed` and `closedPageCount` hold only for page methods that leave the page open. Failures of `response.all_headers()` (handler.py:351) and of a redirect hop's `redirected.response()` (handler.py:601) are not modelled: the navigation's response and its redirect chain are given whole. In Python either makes the download raise after a navigation that returned, the first after the redirect meta was written and the second before, and the failure path closes the page as for any other failure.
- Handler.DownloadHandler.DownloadClosingOnFailure: the same assumptions as `DownloadWithPage`: no page method closes the page, and `response.all_headers()` and `redirected.response()` do not raise.
- Handler.DownloadHandler.DownloadRequest: the same assumptions as `DownloadWithPage` (no page method closes the page; `response.all_headers()` and `redirected.response()` do not raise) and as `OpenNewPage` (`new_page()` does not raise, so the only case without a page is the negative page ceiling). Failures of the page event handlers, `page.unroute` and `page.route` (handler.py:282-298) are not modelled either. They come before the `try`, so such a failure would leave a new page open.
- Utils.EncodeBody: Dafny characters are Unicode scalar values, so text holding a lone surrogate cannot be given. `page.content()` can return such text, and Python's UTF-8 fallback raises `UnicodeEncodeError` on it (_utils.py:40). The model's fallback always returns.
- Utils.FloatOf: an int below the overflow bound converts to its exact value. Python rounds it to the nearest double.
- Utils.GetFloatSetting: an int setting below the overflow bound gives its exact value, where Python gives the nearest double.
- HeaderPolicy.UseScrapyHeaders: when neither side has a user agent, Python stores `None` under `user-agent`. The model leaves the key out.
- `PageMethods.PageMethod.Str` uses the class name `PageMethod`. Subclasses, whose `__class__.__name__` differs, are not modelled.

## Findings

| source | as written | input that shows it | evidently intended | confidence | as-written member | corrected member |
|---|---|---|---|---|---|---|
| scrapy_playwright/handler.py:231-232 | the same permit-releasing listener is registered for `close` and `crash`, and each call releases one permit with no upper bound | a context with ceiling `n` opens one page; the page crashes and is then closed; the context now has `n + 1` free permits | each page gives its permit back exactly once, so a context never exceeds its ceiling | medium, not executed | Permits.CrashThenCloseExceedsCeiling | Permits.CrashThenCloseRestoresCeiling |
| scrapy_playwright/handler.py:491-502 | any configured policy's result is used as the override and passed to `headers.update`, including the `None` that `use_playwright_headers` returns | `PLAYWRIGHT_PROCESS_REQUEST_HEADERS` set to `use_playwright_headers`; any request that is not aborted clears the caller's headers and then raises a `TypeError` | the browser's headers pass through unmodified, as the function's documentation says and tests/test_playwright_requests.py:263-281 expects | medium, not executed | Routing.PlaywrightHeadersPolicyFailsAsWritten | Routing.PlaywrightHeadersPolicyPassesThrough |
