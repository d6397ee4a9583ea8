/**
 * NetObjCImpl, the iOS HTTP backend: it registers each request under its
 * identity, shapes and dispatches the native request, and delivers exactly
 * the callbacks that its three locked regions decide on.
 */
module NetObjC {
  import opened Wrappers
  import opened Streams
  import opened Net
  import opened RequestShaping
  import opened Responses
  import opened Registry

  /** What the native connection's completion block is handed. */
  datatype ConnectionResult =
      /** A non-null NSError, with its description. */
    | ConnectionError(description: string)
      /**
       * Building the HttpClientResponse raised the IOException its
       * constructor declares; as that constructor is written, this never
       * happens.
       */
    | ResponseIOException
      /**
       * A null or non-HTTP response: the cast or the status lookup in the
       * HttpClientResponse constructor raises an unchecked exception that the
       * IOException handler does not catch, so it escapes the block.
       */
    | NotHttpResponse
      /** An HTTP response, already wrapped as an HttpClientResponse. */
    | Received(response: HttpClientResponse)

  /**
   * The registry step the completion block takes for a connection result,
   * or None when the block ends by an escaping exception before any step.
   */
  function CompletionAction(request: HttpRequest, listener: HttpResponseListener,
                            result: ConnectionResult): (a: Option<Action>)
    ensures a.None? <==> result.NotHttpResponse?
    ensures a.Some? ==> a.value.request == request
    ensures a.Some? && a.value.Respond? <==> result.Received?
    ensures result.Received? ==> a == Some(Respond(request, result.response))
    ensures result.ConnectionError? ==> a == Some(Fail(request, listener, TransportError(result.description)))
    ensures result.ResponseIOException? ==> a == Some(Fail(request, listener, ResponseError))
  {
    match result
    case ConnectionError(description) => Some(Fail(request, listener, TransportError(description)))
    case ResponseIOException => Some(Fail(request, listener, ResponseError))
    case NotHttpResponse => None
    case Received(response) => Some(Respond(request, response))
  }

  const BUFSIZE: nat := 4096

  /**
   * toNSInputStream: reads the stream in chunks of at most BUFSIZE bytes
   * until a read reports the end, and returns everything read, in order,
   * which is the whole of what the stream had left.
   */
  method ToNSInputStream(input: InputStream) returns (data: seq<byte>, ghost chunks: seq<seq<byte>>)
    modifies input
    ensures data == old(input.remaining) && input.remaining == []
    ensures data == Concat(chunks)
    ensures forall i :: 0 <= i < |chunks| ==> 1 <= |chunks[i]| <= BUFSIZE
  {
    var out := new ByteArrayOutputStream(BUFSIZE);
    var tmp := new byte[BUFSIZE];
    chunks := [];
    while true
      invariant fresh(out) && fresh(tmp) && tmp.Length == BUFSIZE
      invariant out.bytes + input.remaining == old(input.remaining)
      invariant out.bytes == Concat(chunks)
      invariant forall i :: 0 <= i < |chunks| ==> 1 <= |chunks[i]| <= BUFSIZE
      decreases |input.remaining|
    {
      var r := input.Read(tmp);
      if r == -1 {
        break;
      }
      ghost var chunk := tmp[..r];
      out.Write(tmp, 0, r);
      ConcatAppend(chunks, chunk);
      chunks := chunks + [chunk];
    }
    data := out.ToByteArray();
  }

  /**
   * The worker's body step: a POST or PUT gets the content string as its
   * body when the string is set, and otherwise the drained content stream
   * when that is set; every other request is left without a body.
   */
  method PrepareBody(request: HttpRequest, native: NativeUrlRequest)
    modifies native, if request.contentStream != null then {request.contentStream} else {}
    ensures var source := SelectBody(request.httpMethod, request.content, request.contentStream != null);
            && (source.NoBodySource? ==> native.body == old(native.body))
            && (source.FromString? ==> native.body == DataBody(source.text))
            && (source.FromStream? ==> native.body == StreamBody(old(request.contentStream.remaining))
                                       && request.contentStream.remaining == [])
            && (!source.FromStream? && request.contentStream != null ==>
                  request.contentStream.remaining == old(request.contentStream.remaining))
    ensures native.url == old(native.url) && native.httpMethod == old(native.httpMethod)
    ensures native.timeoutInterval == old(native.timeoutInterval) && native.headerFields == old(native.headerFields)
    ensures native.ignoresLocalCache == old(native.ignoresLocalCache)
    ensures native.handlesCookies == old(native.handlesCookies)
  {
    if DoingOutput(request.httpMethod) {
      var contentAsString := request.content;
      if contentAsString.Some? {
        native.body := DataBody(contentAsString.value);
      } else {
        var contentAsStream := request.contentStream;
        if contentAsStream != null {
          var bytes, _ := ToNSInputStream(contentAsStream);
          native.body := StreamBody(bytes);
        }
      }
    }
  }

  class NetObjCImpl {
    var requests: map<HttpRequest, NativeUrlRequest>
    var listeners: map<HttpRequest, HttpResponseListener>
    /** Every listener callback fired so far, in order. */
    ghost var log: seq<Event>

    /** The two maps as a registry value. */
    function Model(): (r: Registry)
      reads this
    {
      Registry(requests, listeners)
    }

    constructor ()
      ensures Model() == Empty && log == []
    {
      requests := map[];
      listeners := map[];
      log := [];
    }

    /** Takes one registry step and records its callbacks. */
    twostate predicate Took(new a: Action)
      reads this
    {
      var o := Apply(old(Model()), a);
      Model() == o.registry && log == old(log) + o.callbacks
    }

    /**
     * sendHttpRequest up to the hand-off to the worker.  Without a URL the
     * listener fails at once and nothing is registered.  Otherwise a fresh
     * native request is shaped (URL, cache and cookie policy, timeout,
     * method, headers), registered under the request in both maps, and
     * returned for the worker.
     */
    method SendHttpRequest(request: HttpRequest, listener: HttpResponseListener)
      returns (dispatched: NativeUrlRequest?)
      modifies this
      ensures request.url.None? ==> && dispatched == null && Model() == old(Model())
                                    && log == old(log) + [Failed(request, listener, MissingUrl)]
      ensures request.url.Some? ==> dispatched != null && fresh(dispatched)
                                    && Took(Submit(request, listener, dispatched))
      ensures request.url.Some? ==>
                && dispatched.url == OutgoingUrl(request.httpMethod, request.url.value, request.content)
                && dispatched.ignoresLocalCache && !dispatched.handlesCookies
                && dispatched.timeoutInterval == request.timeOut
                && dispatched.httpMethod == request.httpMethod
                && dispatched.headerFields == request.headers
                && dispatched.body == NoBody
    {
      if request.url.None? {
        log := log + [Failed(request, listener, MissingUrl)];
        return null;
      }
      var httpMethod := request.httpMethod;
      var url: string;
      if EqualsIgnoreCase(httpMethod, GET) {
        var queryString := "";
        var value := request.content;
        if value.Some? && value.value != "" {
          queryString := "?" + value.value;
        }
        url := request.url.value + queryString;
      } else {
        url := request.url.value;
      }

      var nuRequest := new NativeUrlRequest();
      nuRequest.url := url;
      nuRequest.ignoresLocalCache := true;
      nuRequest.handlesCookies := false;
      nuRequest.timeoutInterval := request.timeOut;
      nuRequest.httpMethod := httpMethod;

      // the locked registration
      requests := requests[request := nuRequest];
      listeners := listeners[request := listener];

      nuRequest.headerFields := request.headers;
      dispatched := nuRequest;
    }

    /**
     * The success region of the completion block: the response reaches the
     * listener still registered for the request, if any, which is then
     * removed; the requests entry stays.
     */
    method DeliverResponse(request: HttpRequest, response: HttpClientResponse)
      modifies this
      ensures Took(Respond(request, response))
    {
      if request in listeners {
        var listener := listeners[request];
        log := log + [Response(request, listener, response)];
        listeners := listeners - {request};
      }
    }

    /**
     * removeOnFailure: the given listener always fails, and the request
     * leaves both maps.
     */
    method RemoveOnFailure(request: HttpRequest, listener: HttpResponseListener, cause: Cause)
      modifies this
      ensures Took(Fail(request, listener, cause))
    {
      log := log + [Failed(request, listener, cause)];
      requests := requests - {request};
      listeners := listeners - {request};
    }

    /**
     * cancelHttpRequest: the registered listener, if any, is cancelled and
     * the request leaves both maps; otherwise nothing happens.
     */
    method CancelHttpRequest(request: HttpRequest)
      modifies this
      ensures Took(CancelRequest(request))
    {
      if request in listeners {
        var listener := listeners[request];
        log := log + [Cancelled(request, listener)];
        requests := requests - {request};
        listeners := listeners - {request};
      }
    }

    /**
     * The completion block handed to the native connection: an error, or an
     * IOException while building the response, fails the captured listener;
     * an HTTP response goes through the success region; a null or non-HTTP
     * response leaves the block by an uncaught exception, so no callback
     * fires and the request stays registered.
     */
    method ConnectionFinished(request: HttpRequest, listener: HttpResponseListener, result: ConnectionResult)
      modifies this
      ensures var a := CompletionAction(request, listener, result);
              && (a.Some? ==> Took(a.value))
              && (a.None? ==> Model() == old(Model()) && log == old(log))
    {
      match result
      case ConnectionError(description) =>
        RemoveOnFailure(request, listener, TransportError(description));
      case ResponseIOException =>
        RemoveOnFailure(request, listener, ResponseError);
      case NotHttpResponse =>
        // the uncaught cast exception ends the block here
      case Received(response) =>
        DeliverResponse(request, response);
    }
  }

  /**
   * A request cancelled right after it was sent, whose response then
   * arrives: the listener hears only the cancellation.
   */
  method CancelRightAfterSend()
  {
    var net := new NetObjCImpl();
    var request := new HttpRequest(GET, Some("http://example.com"), None, null, 0, map[]);
    var listener := new HttpResponseListener();
    var native := net.SendHttpRequest(request, listener);
    assert native.url == "http://example.com";
    net.CancelHttpRequest(request);
    net.ConnectionFinished(request, listener, Received(HttpClientResponse(200, map[], [79, 75])));
    assert net.log == [Cancelled(request, listener)];
    assert net.Model() == Empty;
  }

  /**
   * The same request cancelled and then failed by the connection: the
   * listener hears the cancellation and then the failure.
   */
  method CancelThenConnectionError()
  {
    var net := new NetObjCImpl();
    var request := new HttpRequest(GET, Some("http://example.invalid"), None, null, 0, map[]);
    var listener := new HttpResponseListener();
    var native := net.SendHttpRequest(request, listener);
    net.CancelHttpRequest(request);
    net.ConnectionFinished(request, listener, ConnectionError("unreachable"));
    assert net.log == [Cancelled(request, listener), Failed(request, listener, TransportError("unreachable"))];
  }

  /**
   * A response that is not an HTTP response: no callback ever fires, and the
   * request stays in both maps, so a later cancel still reaches its listener.
   */
  method NonHttpResponseIsLost()
  {
    var net := new NetObjCImpl();
    var request := new HttpRequest(GET, Some("http://example.com"), None, null, 0, map[]);
    var listener := new HttpResponseListener();
    var native := net.SendHttpRequest(request, listener);
    net.ConnectionFinished(request, listener, NotHttpResponse);
    assert net.log == [];
    assert request in net.requests && request in net.listeners;
    net.CancelHttpRequest(request);
    assert net.log == [Cancelled(request, listener)];
  }

  /** A POST with both a string and a stream sends the string and leaves the stream unread. */
  method PostPrefersString()
  {
    var stream := new InputStream([1, 2, 3]);
    var request := new HttpRequest(POST, Some("http://x/y"), Some("a"), stream, 0, map[]);
    var listener := new HttpResponseListener();
    var net := new NetObjCImpl();
    var native := net.SendHttpRequest(request, listener);
    assert SelectBody(POST, Some("a"), true) == FromString("a");
    PrepareBody(request, native);
    assert native.body == DataBody("a");
    assert stream.remaining == [1, 2, 3];
  }
}
