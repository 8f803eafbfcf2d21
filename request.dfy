/** The caller's request, as far as the handler reads and writes it: its
    URL, method, body and encoding, the browser options in its meta, and
    the meta entries and headers the handler updates. */
module Requests {
  import opened Common
  import opened Engine
  import opened PageMethods

  /** The `redirect_times`, `redirect_urls` and `redirect_reasons` entries. */
  datatype RedirectMeta = RedirectMeta(times: nat, urls: seq<string>, reasons: seq<Option<int>>)

  class ScrapyRequest {
    const url: string
    const httpMethod: string
    const body: seq<byte>
    const encoding: string
    /** meta `playwright_include_page` */
    const includePage: bool
    /** meta `playwright_context_kwargs` (absent reads as empty) */
    const contextKwargs: map<string, Value>
    /** meta `playwright_page_methods`, in order (a dict gives its values) */
    const pageMethods: seq<Step>
    var headers: Headers
    /** meta `playwright_context` */
    var contextName: Option<string>
    /** meta `playwright_page` */
    var page: Page?
    var redirect: Option<RedirectMeta>

    constructor (url: string, httpMethod: string, body: seq<byte>, encoding: string, headers: Headers,
                 includePage: bool, contextName: Option<string>, contextKwargs: map<string, Value>,
                 pageMethods: seq<Step>, page: Page?)
      ensures this.url == url && this.httpMethod == httpMethod && this.body == body
      ensures this.encoding == encoding && this.headers == headers && this.includePage == includePage
      ensures this.contextName == contextName && this.contextKwargs == contextKwargs
      ensures this.pageMethods == pageMethods && this.page == page && redirect == None
    {
      this.url := url;
      this.httpMethod := httpMethod;
      this.body := body;
      this.encoding := encoding;
      this.headers := headers;
      this.includePage := includePage;
      this.contextName := contextName;
      this.contextKwargs := contextKwargs;
      this.pageMethods := pageMethods;
      this.page := page;
      redirect := None;
    }
  }
}
