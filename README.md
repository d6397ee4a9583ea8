# NetObjCImpl: the iOS HTTP backend of libgdx-ios-net, in Dafny

This project models `NetObjCImpl`, the networking backend that the game uses on iOS.
It sends HTTP requests through the operating system's URL loading and reports each one to the
caller's `Net.HttpResponseListener` as one of three callbacks: `handleHttpResponse`, `failed` or
`cancelled`.

The model has three parts.

- **Pending-request registry.** The backend keeps two maps, keyed by the request object, under
  one lock. `requests` maps each request to its native `NSMutableURLRequest`; `listeners` maps it
  to its listener. Each locked region becomes one step function in module `Registry`: registration,
  the success region of the completion block, `removeOnFailure` and `cancelHttpRequest`. The
  null-URL rejection at the top of `sendHttpRequest` is a step too. An interleaving of threads is
  a sequence of these steps, so `Registry.Run` replays any such sequence. The class
  `NetObjC.NetObjCImpl` keeps the two maps as fields plus a ghost log of every callback fired.
  Each of its methods is proved to take exactly the matching registry step.
- **Outgoing-request shaping** (module `RequestShaping`). This covers the URL a request loads and
  the body a POST or PUT carries.
- **Response and stream helpers.** `HttpClientResponse` gives the header views, the body and the
  body stream (module `Responses`). `ToNSInputStream` drains the content stream in chunks of 4096
  bytes (module `NetObjC`). `java.io` input streams and byte buffers are modelled in module
  `Streams`. The engine types the backend consumes are in module `Net`.

What the model proves about the registry:

- While a request is neither re-submitted nor failed, its callback count plus its registration
  (1 or 0) stays constant. So a registered request gets at most one callback from responses and
  cancellations, it gets one exactly when it is no longer registered, and that callback reaches
  the listener it was registered with.
- The failure path has no membership check, and the model keeps it that way, as in the source.
  `removeOnFailure` calls `failed` on the listener it captured, whether or not the request is
  still registered. `Registry.FailureAfterCancelFiresTwice` shows the consequence: a transport
  error that arrives after a cancel fires a second callback for the same registration. The scenario
  method `NetObjC.CancelThenConnectionError` replays this against the class.
- The success path removes only the `listeners` entry. The `requests` entry stays behind.
- A null or non-HTTP response makes the completion block end with an exception that its handler
  does not catch. No callback fires and the request stays registered;
  `NetObjC.NonHttpResponseIsLost` replays this.

`NetObjC.CancelRightAfterSend` replays the game's own "cancel test": send, cancel at once, then
let the response arrive. The only callback is the cancellation, and both maps end up empty.

## Model

| member | source | states |
|---|---|---|
| `Net.IsGetSpelling` | ios/src/com/badlogic/gdx/net/NetObjCImpl.java:115 | a method name equals GET ignoring case exactly when it has three letters, each G/g, E/e, T/t |
| `RequestShaping.OutgoingUrl` | ios/src/com/badlogic/gdx/net/NetObjCImpl.java:115-124 | the request URL is always a prefix of the outgoing URL; the outgoing URL is longer exactly for a GET (any case) whose content is set and non-empty, and then the rest is `?` followed by the content verbatim |
| `RequestShaping.QueryRoundTrip` | ios/src/com/badlogic/gdx/net/NetObjCImpl.java:115-124 | reading the query back out of the outgoing URL yields the content for a GET with non-empty content, and nothing otherwise (content null or empty, or any non-GET method) |
| `RequestShaping.DoingOutput` | ios/src/com/badlogic/gdx/net/NetObjCImpl.java:133 | a request carries output exactly when its method is spelled P/p O/o S/s T/t or P/p U/u T/t |
| `RequestShaping.SelectBody` | ios/src/com/badlogic/gdx/net/NetObjCImpl.java:133-163 | only POST or PUT (any case) carries a body; a set content string is the body, even an empty one, and the stream is then ignored; otherwise a set stream is the body; with neither set, no body. Each case is an if-and-only-if |
| `RequestShaping.QueryAndBodyExclusive` | ios/src/com/badlogic/gdx/net/NetObjCImpl.java:115-163 | a POST/PUT never gets a query string, and a GET never gets a body |
| `RequestShaping.Examples` | ios/src/com/badlogic/gdx/net/NetObjCImpl.java:115-163 | GET `http://x/y` with `q=1` loads `http://x/y?q=1`; with empty or absent content it loads `http://x/y` unchanged; POST with string `a` and a stream sends `a` |
| `Responses.HttpClientResponse.GetHeader` | ios/src/com/badlogic/gdx/net/NetObjCImpl.java:72-74 | null exactly when the name is not a header field of the native response; otherwise that field's single value |
| `Responses.HttpClientResponse.GetHeaders` | ios/src/com/badlogic/gdx/net/NetObjCImpl.java:77-86 | exactly the header field names as keys, each mapped to a one-element list holding its original value |
| `Responses.HttpClientResponse.GetResult` | ios/src/com/badlogic/gdx/net/NetObjCImpl.java:52-54 | the body bytes exactly as the native response delivered them |
| `Responses.HttpClientResponse.GetResultAsStream` | ios/src/com/badlogic/gdx/net/NetObjCImpl.java:52-64 | a fresh stream whose contents are exactly the bytes `getResult` returns |
| `Responses.HeaderViewsAgree` | ios/src/com/badlogic/gdx/net/NetObjCImpl.java:72-86 | `getHeader` is null exactly when `getHeaders` has no entry for the name, and otherwise the list holds that value alone |
| `Responses.HeaderListsRoundTrip` | ios/src/com/badlogic/gdx/net/NetObjCImpl.java:77-86 | taking the only element of each list gives back the original header fields |
| `Registry.RejectMissingUrl` | ios/src/com/badlogic/gdx/net/NetObjCImpl.java:106-109 | without a URL the listener's `failed` fires with the missing-URL cause and the registry is unchanged |
| `Registry.Register` | ios/src/com/badlogic/gdx/net/NetObjCImpl.java:135-141 | both maps get an entry for the request (the native request and the listener), overwriting an earlier one; the key sets grow by just that request; every other key keeps its entries; no callback fires |
| `Registry.Complete` | ios/src/com/badlogic/gdx/net/NetObjCImpl.java:181-190 | a registered listener gets `handleHttpResponse` and its entry goes; an unregistered request fires nothing and changes nothing; the `requests` map is never touched; other keys are unchanged |
| `Registry.RemoveOnFailure` | ios/src/com/badlogic/gdx/net/NetObjCImpl.java:207-216 | `failed` fires on the captured listener with no membership check; afterwards the request is in neither map; other keys are unchanged |
| `Registry.Cancel` | ios/src/com/badlogic/gdx/net/NetObjCImpl.java:238-251 | with a registered listener, `cancelled` fires on it once and the request leaves both maps; without one, no callback and both maps unchanged; other keys are unchanged |
| `Registry.StepConserves` | ios/src/com/badlogic/gdx/net/NetObjCImpl.java:181-251 | one step that neither submits nor fails a request fires a callback for it exactly when the step removes its registered listener |
| `Registry.CallbackConservation` | ios/src/com/badlogic/gdx/net/NetObjCImpl.java:135-251 | over any interleaving of locked steps without a re-submit or failure of the request, callbacks fired for it plus its registration equal its registration at the start |
| `Registry.AtMostOneCallbackPerRegistration` | ios/src/com/badlogic/gdx/net/NetObjCImpl.java:135-251 | after a request with a URL is submitted, responses, cancellations and other requests' steps fire at most one callback for it, and exactly one iff it is no longer registered |
| `Registry.CallbacksReachRegisteredListener` | ios/src/com/badlogic/gdx/net/NetObjCImpl.java:181-251 | every callback fired for a registered request, until it is re-submitted or failed, reaches the listener it was registered with |
| `Registry.OtherRequestsUnaffected` | ios/src/com/badlogic/gdx/net/NetObjCImpl.java:95-96 | steps about other requests fire no callback for a request and leave its entries in both maps as they were |
| `Registry.SubmitWithoutUrl` | ios/src/com/badlogic/gdx/net/NetObjCImpl.java:105-109 | submitting a request without a URL fails it at once and puts it into neither map |
| `Registry.CancelIdempotent` | ios/src/com/badlogic/gdx/net/NetObjCImpl.java:238-251 | a second cancel fires nothing and leaves the registry as the first left it |
| `Registry.LateResponseAfterCancelDiscarded` | ios/src/com/badlogic/gdx/net/NetObjCImpl.java:181-251 | a response arriving after a cancel fires no callback; the cancellation is the only callback |
| `Registry.FailureAfterCancelFiresTwice` | ios/src/com/badlogic/gdx/net/NetObjCImpl.java:207-216 | a failure arriving after a cancel fires `failed` as a second callback for the same registration |
| `Registry.SuccessKeepsRequestEntry` | ios/src/com/badlogic/gdx/net/NetObjCImpl.java:181-190 | submit then success fires `handleHttpResponse` once; afterwards the listener entry is gone but the `requests` entry remains |
| `NetObjC.CompletionAction` | ios/src/com/badlogic/gdx/net/NetObjCImpl.java:168-180 | a connection error fails the captured listener with the error's description; an IOException while building the response (the handler at 177-179) fails it with the response error; a null or non-HTTP response takes no step at all, because the cast's exception escapes that handler; only an HTTP response takes the success step |
| `NetObjC.ToNSInputStream` | ios/src/com/badlogic/gdx/net/NetObjCImpl.java:218-236 | the result is the in-order concatenation of the chunks read, each chunk 1 to 4096 bytes long, and equals the whole remaining stream, which is left at its end |
| `NetObjC.PrepareBody` | ios/src/com/badlogic/gdx/net/NetObjCImpl.java:152-163 | the native body follows the body rule: the string, or the fully drained stream, or left unset; the stream is read only when it is the body; no other native field changes |
| `NetObjC.NetObjCImpl.constructor` | ios/src/com/badlogic/gdx/net/NetObjCImpl.java:99-103 | both maps start empty and no callback has fired |
| `NetObjC.NetObjCImpl.SendHttpRequest` | ios/src/com/badlogic/gdx/net/NetObjCImpl.java:105-144 | without a URL: `failed` fires, nothing is registered and nothing is dispatched. Otherwise: a fresh native request gets the outgoing URL, ignores the local cache, does not handle cookies, and takes the request's timeout, method and headers; it is registered in both maps, as `Register` states |
| `NetObjC.NetObjCImpl.DeliverResponse` | ios/src/com/badlogic/gdx/net/NetObjCImpl.java:181-190 | takes exactly the `Complete` step on the maps and appends its callbacks to the log |
| `NetObjC.NetObjCImpl.RemoveOnFailure` | ios/src/com/badlogic/gdx/net/NetObjCImpl.java:207-216 | takes exactly the `RemoveOnFailure` step on the maps and appends its callback to the log |
| `NetObjC.NetObjCImpl.CancelHttpRequest` | ios/src/com/badlogic/gdx/net/NetObjCImpl.java:238-251 | takes exactly the `Cancel` step on the maps and appends its callbacks to the log |
| `NetObjC.NetObjCImpl.ConnectionFinished` | ios/src/com/badlogic/gdx/net/NetObjCImpl.java:168-192 | takes exactly the registry step that `CompletionAction` chooses for the connection result; for a null or non-HTTP response, both maps and the callback log stay as they were |

## Left out

- The thread pool, the operation queue and `NSURLConnection.sendAsynchronousRequest` (lines 93-94, 146, 165) are concurrency and native calls. The worker is modelled by `PrepareBody`. The connection's answer is modelled by `ConnectionFinished`, an external event that the environment may fire at any time. An exception while preparing or dispatching (lines 195-197, 202-204) is modelled by calling `RemoveOnFailure` with `DispatchError`.
- The lock itself is left out. Each locked region is one atomic method, and `Registry.Run` covers every order in which those regions can run.
- `SendHttpRequest` never raises an exception itself. The failure paths that its `catch` clauses lead to are the external `RemoveOnFailure` event described above.
- The native `NSMutableURLRequest` only records the values its setters were given. Its URL parsing, cache and cookie behaviour are not modelled. The timeout is recorded as given, with no unit conversion.
- Building an `HttpClientResponse` from the native response is left out (lines 45-49): it uses a native cast. The constructor declares `IOException`, but nothing in its body throws one. `ResponseIOException` models the handler at lines 177-179 as written, which that constructor never reaches. What the constructor can actually raise is a `ClassCastException` for a non-HTTP response or a `NullPointerException` for a null one; the handler does not catch either. `NotHttpResponse` models both: the block ends with no callback and no removal, and the request stays registered until a cancel. Where that exception goes after it leaves the block is not modelled. The status code is stored as an unbounded integer, so the `int` cast at line 48 is not modelled.
- `getResultAsString` (lines 57-59) decodes with the platform's default charset, so it is left out. For the same reason, a string body is recorded as text, not as encoded bytes.
- `RequestShaping.SelectBody` (and `RequestShaping.DoingOutput`): `equalsIgnoreCase` is modelled for ASCII letters only. Java also upper-cases a few non-ASCII letters to ASCII ones. For example, it maps U+017F (long s) to 'S', so `"PO\u017FT".equalsIgnoreCase("POST")` is true and Java sends a body, but the model sends none. No such letter maps to G, E or T, so the GET rule is unaffected.
- `NetObjC.ToNSInputStream`: a read that throws an `IOException` is not modelled. The modelled stream always succeeds, and each read returns between one byte and the buffer's length. Closing the output buffer is not modelled.
- What listener callbacks do is left out: that is the caller's code. Only which callback fired, for which request and on which listener, is recorded. A listener that throws, or that calls back into the backend while the lock is held, is not modelled.
- `ObjCNet.java`, the launchers and the rendering part of `IOSNetGame.java` are delegation and application glue. The game's cancel-right-after-send usage is replayed by the scenario method `NetObjC.CancelRightAfterSend`.
