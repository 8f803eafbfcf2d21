/** What the handler sees of the browser engine. The engine calls the
    model covers are inputs here: a page's answers to content reads and to
    page-method calls are fixed when the page is made, and the navigation's
    outcome and the page's final URL are passed to the operations that
    navigate. In the route handler, the failures of `route.abort()` and of
    the header lookup and the error of `route.continue_` are parameters of
    `HandleRoute`. */
module Engine {
  import opened Common

  /** A network request the page is about to send, as route interception
      shows it: `url`, `method` (here `httpMethod`), `is_navigation_request()` and
      `all_headers()`. */
  datatype InterceptedRequest =
    InterceptedRequest(url: string, httpMethod: string, isNavigation: bool, headers: Headers)

  /** One request of a `redirected_from` chain: its URL and the status of
      the response it received, `None` when `response()` gave none. */
  datatype Hop = Hop(url: string, status: Option<int>)

  /** A navigation response: its status, `all_headers()`, and the
      `redirected_from` chain of its request, nearest hop first. */
  datatype NavResponse = NavResponse(status: int, headers: Headers, redirectedFrom: seq<Hop>)

  /** `page.goto(...)`: raises, or returns a response or `None`. */
  datatype GotoOutcome = GotoRaised(error: Error) | GotoReturned(response: Option<NavResponse>)

  /** How a page about to be created will behave: the fields of `Page`
      that are fixed when it is made. */
  datatype PageBehaviour = PageBehaviour(
    methodNames: set<string>,
    invoke: (string, seq<Value>, map<string, Value>) -> Outcome<Value>,
    contentScript: nat -> Outcome<string>)

  /** A browser page. `methodNames` are the attributes `getattr` finds on
      it; `invoke` answers a call of one of them with its arguments,
      including the load-state wait that follows; `contentScript(k)` answers
      the k-th `content()` read. */
  class Page {
    const methodNames: set<string>
    const invoke: (string, seq<Value>, map<string, Value>) -> Outcome<Value>
    const contentScript: nat -> Outcome<string>
    var contentReads: nat
    var closed: bool

    constructor (methodNames: set<string>,
                 invoke: (string, seq<Value>, map<string, Value>) -> Outcome<Value>,
                 contentScript: nat -> Outcome<string>)
      ensures this.methodNames == methodNames && this.invoke == invoke
      ensures this.contentScript == contentScript
      ensures contentReads == 0 && !closed
    {
      this.methodNames := methodNames;
      this.invoke := invoke;
      this.contentScript := contentScript;
      contentReads := 0;
      closed := false;
    }

    /** `page.content()` */
    method Content() returns (r: Outcome<string>)
      modifies this`contentReads
      ensures r == contentScript(old(contentReads))
      ensures contentReads == old(contentReads) + 1
    {
      r := contentScript(contentReads);
      contentReads := contentReads + 1;
    }

    /** `page.close()` */
    method Close()
      modifies this`closed
      ensures closed
    {
      closed := true;
    }
  }
}
