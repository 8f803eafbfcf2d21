/** Header reconciliation policies: which headers an intercepted request is
    continued with. */
module HeaderPolicy {
  import opened Common
  import opened Engine

  const UserAgent: string := "user-agent"
  const Host: string := "host"

  /** Characters allowed in a URL scheme after its first letter. */
  predicate SchemeChar(c: char)
  {
    'a' <= c <= 'z' || 'A' <= c <= 'Z' || '0' <= c <= '9' || c == '+' || c == '-' || c == '.'
  }

  predicate AsciiLetter(c: char)
  {
    'a' <= c <= 'z' || 'A' <= c <= 'Z'
  }

  /** Index of the first occurrence of `c` in `s`, or `|s|`. */
  function IndexOf(s: string, c: char): (k: nat)
    ensures k <= |s| && (k < |s| ==> s[k] == c)
    ensures forall i :: 0 <= i < k ==> s[i] != c
  {
    if s == [] then 0 else if s[0] == c then 0 else 1 + IndexOf(s[1..], c)
  }

  predicate NetlocDelimiter(c: char)
  {
    c == '/' || c == '?' || c == '#'
  }

  /** Index of the first `/`, `?` or `#` in `s`, or `|s|`. */
  function NetlocEnd(s: string): (k: nat)
    ensures k <= |s| && (k < |s| ==> NetlocDelimiter(s[k]))
    ensures forall i :: 0 <= i < k ==> !NetlocDelimiter(s[i])
  {
    if s == [] then 0 else if NetlocDelimiter(s[0]) then 0 else 1 + NetlocEnd(s[1..])
  }

  /** What `urlsplit` leaves after removing a scheme: the text after the
      first `:` when everything before it is a scheme, the whole URL
      otherwise. */
  function AfterScheme(url: string): (r: string)
    ensures |r| <= |url| && r == url[|url| - |r|..]
    // what is removed is a scheme and its colon
    ensures r != url ==>
      var i := |url| - |r| - 1;
      0 < i && url[i] == ':' && AsciiLetter(url[0]) && forall j :: 0 <= j < i ==> SchemeChar(url[j])
  {
    var i := IndexOf(url, ':');
    if 0 < i < |url| && AsciiLetter(url[0]) && forall j :: 0 <= j < i ==> SchemeChar(url[j])
    then url[i + 1..]
    else url
  }

  /** `urlparse(url).netloc`: after the scheme, the text between a leading
      `//` and the next `/`, `?` or `#`; empty when there is no `//`. */
  function Netloc(url: string): (r: string)
    ensures forall i :: 0 <= i < |r| ==> !NetlocDelimiter(r[i])
  {
    var rest := AfterScheme(url);
    if |rest| >= 2 && rest[..2] == "//" then
      var tail := rest[2..];
      tail[..NetlocEnd(tail)]
    else ""
  }

  predicate ValidScheme(scheme: string)
  {
    |scheme| > 0 && AsciiLetter(scheme[0]) && forall j :: 0 <= j < |scheme| ==> SchemeChar(scheme[j])
  }

  /** For a URL built from a scheme, `://`, a host and a path, query or
      fragment, the netloc is the host. */
  lemma NetlocOfUrl(scheme: string, host: string, rest: string)
    requires ValidScheme(scheme)
    requires forall i :: 0 <= i < |host| ==> !NetlocDelimiter(host[i])
    requires rest == [] || NetlocDelimiter(rest[0])
    ensures Netloc(scheme + "://" + host + rest) == host
  {
    var tail := host + rest;
    AfterSchemeOfUrl(scheme, "//" + tail);
    assert scheme + "://" + host + rest == scheme + ":" + ("//" + tail);
    assert ("//" + tail)[2..] == tail;
    NetlocEndPrefix(host, rest);
    assert tail[..|host|] == host;
  }

  lemma AfterSchemeOfUrl(scheme: string, rest: string)
    requires ValidScheme(scheme)
    ensures AfterScheme(scheme + ":" + rest) == rest
  {
    var url := scheme + ":" + rest;
    assert url == scheme + (":" + rest);
    forall i | 0 <= i < |scheme|
      ensures scheme[i] != ':'
    {
      assert SchemeChar(scheme[i]);
    }
    IndexOfPrefix(scheme, ":" + rest, ':');
    var i := IndexOf(url, ':');
    assert i == |scheme| && 0 < i < |url| && url[0] == scheme[0];
    forall j | 0 <= j < i
      ensures SchemeChar(url[j])
    {
      assert url[j] == scheme[j];
    }
    assert url[i + 1..] == rest;
  }

  lemma {:induction false} IndexOfPrefix(p: string, q: string, c: char)
    requires forall i :: 0 <= i < |p| ==> p[i] != c
    requires q != [] && q[0] == c
    ensures IndexOf(p + q, c) == |p|
  {
    if p != [] {
      assert (p + q)[1..] == p[1..] + q;
      IndexOfPrefix(p[1..], q, c);
    }
  }

  lemma {:induction false} NetlocEndPrefix(p: string, q: string)
    requires forall i :: 0 <= i < |p| ==> !NetlocDelimiter(p[i])
    requires q == [] || NetlocDelimiter(q[0])
    ensures NetlocEnd(p + q) == |p|
  {
    if p != [] {
      assert (p + q)[1..] == p[1..] + q;
      NetlocEndPrefix(p[1..], q);
    } else {
      assert p + q == q;
    }
  }

  /** The caller's headers after `setdefault("user-agent", ...)`: the
      caller's user agent when present, otherwise the browser's. */
  function WithUserAgent(caller: Headers, browser: Headers): (r: Headers)
    ensures UserAgent in caller ==> r == caller
    ensures UserAgent !in caller ==>
      (UserAgent in r <==> UserAgent in browser) && (UserAgent in browser ==> r[UserAgent] == browser[UserAgent])
    ensures r - {UserAgent} == caller - {UserAgent}
  {
    if UserAgent in caller || UserAgent !in browser then caller
    else caller[UserAgent := browser[UserAgent]]
  }

  /** `use_scrapy_headers`: for navigation requests the caller's headers
      (with the user agent filled in, and for Firefox the host set to the
      request's netloc); for other requests the browser's headers, with the
      caller's user agent when it is non-empty. */
  function UseScrapyHeaders(browserType: string, request: InterceptedRequest, caller: Headers): (r: Headers)
    // navigation requests: the caller's headers
    ensures request.isNavigation ==>
      forall k :: k != UserAgent && !(browserType == "firefox" && k == Host) ==>
        (k in r <==> k in caller) && (k in caller ==> r[k] == caller[k])
    ensures request.isNavigation && browserType == "firefox" ==>
      Host in r && r[Host] == Netloc(request.url)
    ensures request.isNavigation ==>
      (UserAgent in r <==> UserAgent in caller || UserAgent in request.headers)
    // other requests: the browser's headers
    ensures !request.isNavigation ==>
      forall k :: k != UserAgent ==>
        (k in r <==> k in request.headers) && (k in r ==> r[k] == request.headers[k])
    ensures !request.isNavigation ==>
      (UserAgent in r <==> UserAgent in request.headers || (UserAgent in caller && caller[UserAgent] != ""))
    ensures !request.isNavigation && !(UserAgent in caller && caller[UserAgent] != "") ==> r == request.headers
    // the user agent: the caller's when it has one, else the browser's
    ensures UserAgent in caller && (request.isNavigation || caller[UserAgent] != "") ==>
      r[UserAgent] == caller[UserAgent]
    ensures UserAgent !in caller && UserAgent in request.headers ==>
      r[UserAgent] == request.headers[UserAgent]
  {
    var callerHeaders := WithUserAgent(caller, request.headers);
    if request.isNavigation then
      if browserType == "firefox" then callerHeaders[Host := Netloc(request.url)]
      else callerHeaders
    else
      if UserAgent in callerHeaders && callerHeaders[UserAgent] != "" then
        request.headers[UserAgent := callerHeaders[UserAgent]]
      else request.headers
  }

  /** `use_playwright_headers`: `None` whatever it is given. */
  function UsePlaywrightHeaders(browserType: string, request: InterceptedRequest, caller: Headers): (r: Option<Headers>)
    ensures r == None
  {
    None
  }
}
