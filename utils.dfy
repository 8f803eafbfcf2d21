/** Support routines: choosing the charset a page's text is encoded with,
    recognising errors caused by a page, context or browser already being
    closed, reading page content with one retry, and the lookups that turn
    any exception into `None`. */
module Utils {
  import opened Common
  import opened Engine

  const ContentType: string := "content-type"
  const Utf8Name: string := "utf-8"

  /** The charset oracles: the charset named by a Content-Type value, the
      charset declared inside an HTML body (both already normalised to a
      codec name, or `None`), and whether text encodes with a codec (`None`
      stands for a `UnicodeEncodeError`). */
  datatype Codecs = Codecs(
    contentTypeCharset: string -> Option<string>,
    bodyDeclaredCharset: string -> Option<string>,
    encode: (string, string) -> Option<seq<byte>>)

  /** True when the headers carry a non-empty Content-Type. */
  predicate HasContentType(headers: Headers)
  {
    ContentType in headers && headers[ContentType] != ""
  }

  /** `_possible_encodings`: the Content-Type charset, only when that header
      is present, then the body-declared charset. */
  function PossibleEncodings(headers: Headers, text: string, codecs: Codecs): (r: seq<Option<string>>)
    ensures |r| == (if HasContentType(headers) then 2 else 1)
    ensures r[|r| - 1] == codecs.bodyDeclaredCharset(text)
    ensures HasContentType(headers) ==> r[0] == codecs.contentTypeCharset(headers[ContentType])
  {
    if HasContentType(headers)
    then [codecs.contentTypeCharset(headers[ContentType]), codecs.bodyDeclaredCharset(text)]
    else [codecs.bodyDeclaredCharset(text)]
  }

  /** A candidate survives `filter(None, ...)` and `text.encode` accepts it. */
  predicate Works(candidate: Option<string>, text: string, codecs: Codecs)
  {
    candidate.Some? && candidate.value != "" && codecs.encode(text, candidate.value).Some?
  }

  /** Position of the first candidate that works, `|candidates|` if none. */
  function FirstWorking(candidates: seq<Option<string>>, text: string, codecs: Codecs): (k: nat)
    ensures k <= |candidates|
    ensures k < |candidates| ==> Works(candidates[k], text, codecs)
    ensures forall j :: 0 <= j < k ==> !Works(candidates[j], text, codecs)
  {
    if candidates == [] then 0
    else if Works(candidates[0], text, codecs) then 0
    else 1 + FirstWorking(candidates[1..], text, codecs)
  }

  /** UTF-8 encoding of one character. */
  function Utf8Char(c: char): (r: seq<byte>)
    ensures 1 <= |r| <= 4
    ensures |r| == 1 <==> c as int < 0x80
  {
    var n := c as int;
    if n < 0x80 then [n]
    else if n < 0x800 then [0xC0 + n / 0x40, 0x80 + n % 0x40]
    else if n < 0x10000 then [0xE0 + n / 0x1000, 0x80 + (n / 0x40) % 0x40, 0x80 + n % 0x40]
    else [0xF0 + n / 0x40000, 0x80 + (n / 0x1000) % 0x40, 0x80 + (n / 0x40) % 0x40, 0x80 + n % 0x40]
  }

  /** `text.encode("utf-8")` */
  function Utf8(text: string): (r: seq<byte>)
    ensures |text| <= |r| <= 4 * |text|
  {
    if text == [] then [] else Utf8Char(text[0]) + Utf8(text[1..])
  }

  /** `_encode_body`: the first charset candidate that encodes the text,
      together with the encoded text; UTF-8 when none does. */
  function EncodeBody(headers: Headers, text: string, codecs: Codecs): (r: (seq<byte>, string))
    // the Content-Type charset wins when it is present and encodes the text
    ensures HasContentType(headers) && Works(codecs.contentTypeCharset(headers[ContentType]), text, codecs) ==>
      r.1 == codecs.contentTypeCharset(headers[ContentType]).value
    // otherwise the body-declared charset, when it encodes the text
    ensures (!HasContentType(headers) || !Works(codecs.contentTypeCharset(headers[ContentType]), text, codecs))
            && Works(codecs.bodyDeclaredCharset(text), text, codecs) ==>
      r.1 == codecs.bodyDeclaredCharset(text).value
    // otherwise UTF-8
    ensures (!HasContentType(headers) || !Works(codecs.contentTypeCharset(headers[ContentType]), text, codecs))
            && !Works(codecs.bodyDeclaredCharset(text), text, codecs) ==>
      r == (Utf8(text), Utf8Name)
    // the chosen charset always comes with the text encoded in it
    ensures r == (Utf8(text), Utf8Name) || codecs.encode(text, r.1) == Some(r.0)
    // a candidate that encodes the text is used with the codec's own bytes, even one named "utf-8"
    ensures var candidates := PossibleEncodings(headers, text, codecs);
      FirstWorking(candidates, text, codecs) < |candidates| ==> codecs.encode(text, r.1) == Some(r.0)
  {
    var candidates := PossibleEncodings(headers, text, codecs);
    var k := FirstWorking(candidates, text, codecs);
    if k < |candidates| then
      var name := candidates[k].value;
      (codecs.encode(text, name).value, name)
    else (Utf8(text), Utf8Name)
  }

  /** When the Content-Type charset cannot encode the text, the charset the
      body declares is used instead, if it can. */
  lemma BodyCharsetWhenHeaderCharsetFails(headers: Headers, text: string, codecs: Codecs)
    requires HasContentType(headers)
    requires !Works(codecs.contentTypeCharset(headers[ContentType]), text, codecs)
    requires Works(codecs.bodyDeclaredCharset(text), text, codecs)
    ensures EncodeBody(headers, text, codecs).1 == codecs.bodyDeclaredCharset(text).value
    ensures Some(EncodeBody(headers, text, codecs).0) == codecs.encode(text, codecs.bodyDeclaredCharset(text).value)
  {
  }

  /** With no charset anywhere, the text is encoded as UTF-8. */
  lemma NoCharsetMeansUtf8(headers: Headers, text: string, codecs: Codecs)
    requires !HasContentType(headers) || codecs.contentTypeCharset(headers[ContentType]) == None
    requires codecs.bodyDeclaredCharset(text) == None
    ensures EncodeBody(headers, text, codecs) == (Utf8(text), Utf8Name)
  {
  }

  const BrowserClosed: string := "Browser has been closed"
  const TargetClosed: string := "Target page, context or browser has been closed"

  /** `_is_safe_close_error`: the message ends with one of the two
      closed-target messages. */
  predicate IsSafeCloseError(error: Error): (b: bool)
    ensures b <==> (exists k :: 0 <= k <= |error.message| &&
                     (error.message[k..] == BrowserClosed || error.message[k..] == TargetClosed))
  {
    EndsWith(error.message, BrowserClosed) || EndsWith(error.message, TargetClosed)
  }

  /** Any message that ends with a closed-target message is safe ... */
  lemma SafeCloseErrorOfSuffix(fromBrowser: bool, prefix: string)
    ensures IsSafeCloseError(Error(fromBrowser, prefix + BrowserClosed))
    ensures IsSafeCloseError(Error(fromBrowser, prefix + TargetClosed))
  {
    EndsWithAppended(prefix, BrowserClosed);
    EndsWithAppended(prefix, TargetClosed);
  }

  /** ... and every safe message is such a message. */
  lemma SafeCloseErrorHasSuffix(error: Error)
    requires IsSafeCloseError(error)
    ensures var m := error.message;
      (|m| >= |BrowserClosed| && m == m[..|m| - |BrowserClosed|] + BrowserClosed) ||
      (|m| >= |TargetClosed| && m == m[..|m| - |TargetClosed|] + TargetClosed)
  {
    var m := error.message;
    if EndsWith(m, BrowserClosed) {
      assert m == m[..|m| - |BrowserClosed|] + m[|m| - |BrowserClosed|..];
    } else {
      assert m == m[..|m| - |TargetClosed|] + m[|m| - |TargetClosed|..];
    }
  }

  const NavigationErrorMessage: string :=
    "Unable to retrieve content because the page is navigating and changing the content."

  /** The read error that `_get_page_content` retries: a browser error whose
      message contains the navigation message. */
  predicate IsNavigationRace(outcome: Outcome<string>): (b: bool)
    ensures b <==> (outcome.Raised? && outcome.error.fromBrowser &&
                    exists i: nat :: OccursAt(outcome.error.message, NavigationErrorMessage, i))
  {
    if outcome.Raised? then
      ContainsIffOccurs(outcome.error.message, NavigationErrorMessage);
      outcome.error.fromBrowser && Contains(outcome.error.message, NavigationErrorMessage)
    else false
  }

  /** `_get_page_content`: one read; when it fails with the navigation race,
      exactly one more read whose outcome is final. */
  method GetPageContent(page: Page) returns (r: Outcome<string>)
    modifies page`contentReads
    ensures var first := page.contentScript(old(page.contentReads));
      if IsNavigationRace(first) then
        r == page.contentScript(old(page.contentReads) + 1) && page.contentReads == old(page.contentReads) + 2
      else
        r == first && page.contentReads == old(page.contentReads) + 1
  {
    r := page.Content();
    if IsNavigationRace(r) {
      r := page.Content();
    }
  }

  function Pow2(n: nat): (r: nat)
    ensures r > 0
  {
    if n == 0 then 1 else 2 * Pow2(n - 1)
  }

  /** The smallest magnitude an int rounds away from every finite double:
      halfway between the largest double, (2^53 - 1) * 2^971, and 2^1024.
      `float()` of an int this large or larger raises `OverflowError`. */
  const FloatOverflowBound: int := 0x3F_FFFF_FFFF_FFFF * Pow2(970)

  /** `float(value)`: numbers convert, strings go through the float parser,
      anything else raises (`None` here). */
  function FloatOf(v: Value, parseFloat: string -> Option<real>): (r: Option<real>)
    ensures v.NoneValue? ==> r == None
    ensures v.BoolValue? ==> r == Some(if v.b then 1.0 else 0.0)
    // an int converts when it is within the double range, and raises otherwise
    ensures v.IntValue? ==>
      (r.Some? <==> -FloatOverflowBound < v.i < FloatOverflowBound) && (r.Some? ==> r.value == v.i as real)
    ensures v.RealValue? ==> r == Some(v.r)
    ensures v.StrValue? ==> r == parseFloat(v.s)
  {
    match v
    case NoneValue => None
    case BoolValue(b) => Some(if b then 1.0 else 0.0)
    case IntValue(i) => if -FloatOverflowBound < i < FloatOverflowBound then Some(i as real) else None
    case RealValue(x) => Some(x)
    case StrValue(s) => parseFloat(s)
  }

  /** `_get_float_setting`: the setting as a float, `None` whenever the
      conversion raises (a missing setting reads as `None`). */
  function GetFloatSetting(settings: map<string, Value>, key: string, parseFloat: string -> Option<real>): (r: Option<real>)
    ensures key !in settings ==> r == None
    ensures key in settings ==> r == FloatOf(settings[key], parseFloat)
    ensures key in settings && settings[key].IntValue? ==>
      r == if -FloatOverflowBound < settings[key].i < FloatOverflowBound then Some(settings[key].i as real) else None
  {
    if key in settings then FloatOf(settings[key], parseFloat) else None
  }

  /** `_get_header_value`: the resource's answer, `None` if it raised. */
  function GetHeaderValue(headerValue: string -> Outcome<Option<string>>, name: string): (r: Option<string>)
    ensures headerValue(name).Ok? ==> r == headerValue(name).value
    ensures headerValue(name).Raised? ==> r == None
  {
    match headerValue(name)
    case Ok(v) => v
    case Raised(_) => None
  }
}
