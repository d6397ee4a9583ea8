/**
 * How sendHttpRequest shapes the outgoing native request: the URL it loads
 * (a GET carries its content as a query string) and the body a POST or PUT
 * carries (the in-memory string wins over the stream).
 */
module RequestShaping {
  import opened Wrappers
  import opened Net

  predicate IsGet(httpMethod: string): (r: bool)
  {
    EqualsIgnoreCase(httpMethod, GET)
  }

  /**
   * Only POST and PUT carry a body: exactly the spellings P/p O/o S/s T/t
   * and P/p U/u T/t.
   */
  predicate DoingOutput(httpMethod: string): (r: bool)
    ensures r <==> || (|httpMethod| == 4 && httpMethod[0] in "Pp" && httpMethod[1] in "Oo"
                       && httpMethod[2] in "Ss" && httpMethod[3] in "Tt")
                   || (|httpMethod| == 3 && httpMethod[0] in "Pp" && httpMethod[1] in "Uu"
                       && httpMethod[2] in "Tt")
  {
    assert |httpMethod| == 4 && EqualsIgnoreCase(httpMethod, POST) ==>
             ToUpper(httpMethod[0]) == 'P' && ToUpper(httpMethod[1]) == 'O'
             && ToUpper(httpMethod[2]) == 'S' && ToUpper(httpMethod[3]) == 'T';
    assert |httpMethod| == 3 && EqualsIgnoreCase(httpMethod, PUT) ==>
             ToUpper(httpMethod[0]) == 'P' && ToUpper(httpMethod[1]) == 'U' && ToUpper(httpMethod[2]) == 'T';
    EqualsIgnoreCase(httpMethod, POST) || EqualsIgnoreCase(httpMethod, PUT)
  }

  /** True when the content is set and is not the empty string. */
  predicate HasQuery(content: Option<string>): (r: bool)
  {
    content.Some? && content.value != ""
  }

  /**
   * The URL the native request loads.  The given URL is always a prefix of
   * it; it is longer exactly for a GET with non-empty content, and then the
   * rest is "?" followed by the content verbatim.
   */
  function OutgoingUrl(httpMethod: string, url: string, content: Option<string>): (r: string)
    ensures |url| <= |r| && r[..|url|] == url
    ensures |r| > |url| <==> IsGet(httpMethod) && HasQuery(content)
    ensures |r| > |url| ==> r[|url|] == '?' && r[|url| + 1..] == content.value
  {
    if IsGet(httpMethod) then
      var queryString := if HasQuery(content) then "?" + content.value else "";
      url + queryString
    else
      url
  }

  /** The query part of an outgoing URL, given the URL it was built from. */
  function QueryOf(outgoing: string, url: string): (query: Option<string>)
  {
    if |url| < |outgoing| && outgoing[..|url|] == url && outgoing[|url|] == '?' then
      Some(outgoing[|url| + 1..])
    else
      None
  }

  /**
   * Reading the query back out of the outgoing URL recovers the content that
   * went in, and finds none when no query was appended.
   */
  lemma QueryRoundTrip(httpMethod: string, url: string, content: Option<string>)
    ensures QueryOf(OutgoingUrl(httpMethod, url, content), url) ==
              if IsGet(httpMethod) && HasQuery(content) then content else None
  {
  }

  /** Where the body of the outgoing request comes from. */
  datatype BodySource =
    | NoBodySource
    | FromString(text: string)
    | FromStream

  /**
   * The body rule for a request with the given method, content and (set or
   * unset) content stream.
   */
  function SelectBody(httpMethod: string, content: Option<string>, hasStream: bool): (r: BodySource)
    ensures r.FromString? <==> DoingOutput(httpMethod) && content.Some?
    ensures r.FromString? ==> r.text == content.value
    ensures r.FromStream? <==> DoingOutput(httpMethod) && content.None? && hasStream
    ensures r.NoBodySource? <==> !DoingOutput(httpMethod) || (content.None? && !hasStream)
  {
    if DoingOutput(httpMethod) then
      if content.Some? then FromString(content.value)
      else if hasStream then FromStream
      else NoBodySource
    else
      NoBodySource
  }

  /** A method that carries a body never has its content moved into the URL. */
  lemma QueryAndBodyExclusive(httpMethod: string, url: string, content: Option<string>, hasStream: bool)
    ensures DoingOutput(httpMethod) ==> OutgoingUrl(httpMethod, url, content) == url
    ensures IsGet(httpMethod) ==> SelectBody(httpMethod, content, hasStream) == NoBodySource
  {
    if DoingOutput(httpMethod) {
      IsGetSpelling(httpMethod);
    }
  }

  /** The examples: a GET with "q=1", a GET without content, a POST with both. */
  lemma Examples()
    ensures OutgoingUrl("GET", "http://x/y", Some("q=1")) == "http://x/y?q=1"
    ensures OutgoingUrl("get", "http://x/y", Some("")) == "http://x/y"
    ensures OutgoingUrl("GET", "http://x/y", None) == "http://x/y"
    ensures OutgoingUrl("POST", "http://x/y", Some("q=1")) == "http://x/y"
    ensures SelectBody("POST", Some("a"), true) == FromString("a")
    ensures SelectBody("put", None, true) == FromStream
    ensures SelectBody("GET", Some("a"), true) == NoBodySource
  {
    assert IsGet("GET") && IsGet("get");
    assert DoingOutput("POST") && DoingOutput("put");
    IsGetSpelling("POST");
    assert ToUpper("GET"[0]) != ToUpper(PUT[0]);
  }
}
