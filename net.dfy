/**
 * The engine's networking types that the iOS backend consumes: the request a
 * caller fills in, the listener that receives exactly one of three callbacks,
 * the HTTP method names, and the native request object the backend fills in
 * for the operating system's URL loading.
 */
module Net {
  import opened Wrappers
  import opened Streams

  /** Net.HttpMethods. */
  const GET: string := "GET"
  const POST: string := "POST"
  const PUT: string := "PUT"

  /** Upper-case mapping of one character (ASCII letters only). */
  function ToUpper(c: char): (u: char)
  {
    if 'a' <= c <= 'z' then (c as int - 32) as char else c
  }

  /** String.equalsIgnoreCase, character by character after case mapping. */
  predicate EqualsIgnoreCase(a: string, b: string)
  {
    |a| == |b| && forall i :: 0 <= i < |a| ==> ToUpper(a[i]) == ToUpper(b[i])
  }

  /**
   * Net.HttpRequest as the backend reads it.  Its identity is what the
   * backend keys its pending requests by; a null URL or content is None, a
   * null content stream is null.
   */
  class HttpRequest {
    const httpMethod: string
    const url: Option<string>
    const content: Option<string>
    const contentStream: InputStream?
    const timeOut: int
    const headers: map<string, string>

    constructor (httpMethod: string, url: Option<string>, content: Option<string>,
                 contentStream: InputStream?, timeOut: int, headers: map<string, string>)
      ensures this.httpMethod == httpMethod && this.url == url && this.content == content
      ensures this.contentStream == contentStream && this.timeOut == timeOut && this.headers == headers
    {
      this.httpMethod := httpMethod;
      this.url := url;
      this.content := content;
      this.contentStream := contentStream;
      this.timeOut := timeOut;
      this.headers := headers;
    }
  }

  /**
   * Net.HttpResponseListener.  Only its identity matters here: which
   * listener a callback reached is recorded in the callback log.
   */
  class HttpResponseListener {
    constructor ()
    {
    }
  }

  /** The body a native request carries. */
  datatype HttpBody =
    | NoBody
      /** setHTTPBody with the bytes of an in-memory string. */
    | DataBody(text: string)
      /** setHTTPBodyStream with the drained contents of a content stream. */
    | StreamBody(bytes: seq<byte>)

  /**
   * NSMutableURLRequest, reduced to a record of the values its setters were
   * given.
   */
  class NativeUrlRequest {
    var url: string
    var ignoresLocalCache: bool
    var handlesCookies: bool
    var timeoutInterval: int
    var httpMethod: string
    var headerFields: map<string, string>
    var body: HttpBody

    /** A fresh request: cache and cookie handling at their defaults, no body. */
    constructor ()
      ensures url == "" && !ignoresLocalCache && handlesCookies && timeoutInterval == 60
      ensures httpMethod == GET && headerFields == map[] && body == NoBody
    {
      url := "";
      ignoresLocalCache := false;
      handlesCookies := true;
      timeoutInterval := 60;
      httpMethod := GET;
      headerFields := map[];
      body := NoBody;
    }
  }

  /** Which spellings of a three-letter method name equal "GET" ignoring case. */
  lemma IsGetSpelling(m: string)
    ensures EqualsIgnoreCase(m, GET) <==>
              |m| == 3 && (m[0] == 'G' || m[0] == 'g') && (m[1] == 'E' || m[1] == 'e') && (m[2] == 'T' || m[2] == 't')
  {
    if |m| == 3 && EqualsIgnoreCase(m, GET) {
      assert ToUpper(m[0]) == 'G' && ToUpper(m[1]) == 'E' && ToUpper(m[2]) == 'T';
    }
  }
}
