/**
 * The pending-request registry of the iOS backend as a sequential state
 * machine.  Every region the backend runs under its single lock is one step
 * function here; an interleaving of threads is a sequence of such steps.
 * Each step returns the new registry together with the listener callbacks it
 * fired, in order.
 */
module Registry {
  import opened Wrappers
  import opened Net
  import opened Responses

  /** Why a listener's failed callback fired. */
  datatype Cause =
      /** The request had no URL: "can't process a HTTP request without URL set". */
    | MissingUrl
      /** The native connection reported an error, with its description. */
    | TransportError(description: string)
      /**
       * Building the response object raised an IOException.  The constructor
       * declares one, though nothing in its body throws it.
       */
    | ResponseError
      /** Preparing or dispatching the native request raised an exception. */
    | DispatchError

  /** One listener callback, with the request it was fired for. */
  datatype Event =
    | Response(request: HttpRequest, listener: HttpResponseListener, response: HttpClientResponse)
    | Failed(request: HttpRequest, listener: HttpResponseListener, cause: Cause)
    | Cancelled(request: HttpRequest, listener: HttpResponseListener)

  /** The two maps, keyed by request identity. */
  datatype Registry = Registry(requests: map<HttpRequest, NativeUrlRequest>,
                               listeners: map<HttpRequest, HttpResponseListener>)

  /** The registry after a step, and the callbacks the step fired. */
  datatype Outcome = Outcome(registry: Registry, callbacks: seq<Event>)

  const Empty := Registry(map[], map[])

  /** The entries of the two maps at key k. */
  predicate SameAt(r: Registry, r': Registry, k: HttpRequest)
  {
    && (k in r.requests <==> k in r'.requests)
    && (k in r.requests ==> r.requests[k] == r'.requests[k])
    && (k in r.listeners <==> k in r'.listeners)
    && (k in r.listeners ==> r.listeners[k] == r'.listeners[k])
  }

  /** Both maps agree with r at every key other than the given request. */
  predicate Unchanged(r: Registry, r': Registry, request: HttpRequest)
  {
    r'.requests - {request} == r.requests - {request} && r'.listeners - {request} == r.listeners - {request}
  }

  lemma UnchangedElsewhere(r: Registry, r': Registry, request: HttpRequest, k: HttpRequest)
    requires Unchanged(r, r', request) && k != request
    ensures SameAt(r, r', k)
  {
    assert k in r.requests <==> k in r.requests - {request};
    assert k in r'.requests <==> k in r'.requests - {request};
    assert k in r.listeners <==> k in r.listeners - {request};
    assert k in r'.listeners <==> k in r'.listeners - {request};
  }

  /**
   * The null-URL check at the top of sendHttpRequest: the listener's failed
   * callback fires and nothing is registered.
   */
  function RejectMissingUrl(r: Registry, request: HttpRequest, listener: HttpResponseListener): (o: Outcome)
    ensures o.registry == r
    ensures o.callbacks == [Failed(request, listener, MissingUrl)]
  {
    Outcome(r, [Failed(request, listener, MissingUrl)])
  }

  /**
   * Registration in sendHttpRequest: both maps get an entry for the request,
   * overwriting an earlier one for the same request; no callback fires and
   * every other key keeps its entries.
   */
  function Register(r: Registry, request: HttpRequest, listener: HttpResponseListener,
                    native: NativeUrlRequest): (o: Outcome)
    ensures request in o.registry.requests && o.registry.requests[request] == native
    ensures request in o.registry.listeners && o.registry.listeners[request] == listener
    ensures o.registry.requests.Keys == r.requests.Keys + {request}
    ensures o.registry.listeners.Keys == r.listeners.Keys + {request}
    ensures Unchanged(r, o.registry, request)
    ensures o.callbacks == []
  {
    Outcome(Registry(r.requests[request := native], r.listeners[request := listener]), [])
  }

  /**
   * The success region of the completion block: the response reaches the
   * listener only if the request is still registered, and then only the
   * listeners entry goes; the requests map is never touched.
   */
  function Complete(r: Registry, request: HttpRequest, response: HttpClientResponse): (o: Outcome)
    ensures request in r.listeners ==>
              o.callbacks == [Response(request, r.listeners[request], response)]
    ensures request !in r.listeners ==> o == Outcome(r, [])
    ensures request !in o.registry.listeners
    ensures o.registry.requests == r.requests
    ensures Unchanged(r, o.registry, request)
  {
    if request in r.listeners then
      var listener := r.listeners[request];
      Outcome(Registry(r.requests, r.listeners - {request}), [Response(request, listener, response)])
    else
      Outcome(r, [])
  }

  /**
   * removeOnFailure: the captured listener's failed callback fires whether or
   * not the request is still registered, and the request leaves both maps.
   */
  function RemoveOnFailure(r: Registry, request: HttpRequest, listener: HttpResponseListener,
                           cause: Cause): (o: Outcome)
    ensures o.callbacks == [Failed(request, listener, cause)]
    ensures request !in o.registry.requests && request !in o.registry.listeners
    ensures Unchanged(r, o.registry, request)
  {
    Outcome(Registry(r.requests - {request}, r.listeners - {request}), [Failed(request, listener, cause)])
  }

  /**
   * cancelHttpRequest: with a registered listener, its cancelled callback
   * fires and the request leaves both maps; without one, nothing happens.
   */
  function Cancel(r: Registry, request: HttpRequest): (o: Outcome)
    ensures request in r.listeners ==>
              && o.callbacks == [Cancelled(request, r.listeners[request])]
              && request !in o.registry.requests && request !in o.registry.listeners
    ensures request !in r.listeners ==> o == Outcome(r, [])
    ensures Unchanged(r, o.registry, request)
  {
    if request in r.listeners then
      var listener := r.listeners[request];
      Outcome(Registry(r.requests - {request}, r.listeners - {request}), [Cancelled(request, listener)])
    else
      Outcome(r, [])
  }

  /**
   * The atomic steps that can happen to the registry: a caller submits or
   * cancels; the native connection completes with a response; or some path
   * fails (transport error, bad response, exception while dispatching).
   */
  datatype Action =
    | Submit(request: HttpRequest, listener: HttpResponseListener, native: NativeUrlRequest)
    | Respond(request: HttpRequest, response: HttpClientResponse)
    | Fail(request: HttpRequest, listener: HttpResponseListener, cause: Cause)
    | CancelRequest(request: HttpRequest)

  function Apply(r: Registry, a: Action): (o: Outcome)
  {
    match a
    case Submit(request, listener, native) =>
      if request.url.None? then RejectMissingUrl(r, request, listener)
      else Register(r, request, listener, native)
    case Respond(request, response) => Complete(r, request, response)
    case Fail(request, listener, cause) => RemoveOnFailure(r, request, listener, cause)
    case CancelRequest(request) => Cancel(r, request)
  }

  /** Runs the steps in order, collecting every callback. */
  function Run(r: Registry, acts: seq<Action>): (o: Outcome)
    decreases |acts|
  {
    if acts == [] then Outcome(r, [])
    else
      var first := Apply(r, acts[0]);
      var rest := Run(first.registry, acts[1..]);
      Outcome(rest.registry, first.callbacks + rest.callbacks)
  }

  /** The number of callbacks fired for the given request. */
  function CallbacksFor(request: HttpRequest, events: seq<Event>): (n: nat)
    decreases |events|
  {
    if events == [] then 0
    else (if events[0].request == request then 1 else 0) + CallbacksFor(request, events[1..])
  }

  lemma {:induction false} CallbacksForAppend(request: HttpRequest, a: seq<Event>, b: seq<Event>)
    ensures CallbacksFor(request, a + b) == CallbacksFor(request, a) + CallbacksFor(request, b)
    decreases |a|
  {
    if a == [] {
      assert a + b == b;
    } else {
      assert (a + b)[1..] == a[1..] + b;
      CallbacksForAppend(request, a[1..], b);
    }
  }

  /** 1 while a listener is registered for the request, 0 otherwise. */
  function Pending(r: Registry, request: HttpRequest): (n: nat)
  {
    if request in r.listeners then 1 else 0
  }

  /** True when the action names the request. */
  predicate Concerns(a: Action, request: HttpRequest)
  {
    a.request == request
  }

  /** True when the action re-submits the request or fails it. */
  predicate SubmitsOrFails(a: Action, request: HttpRequest)
  {
    (a.Submit? || a.Fail?) && a.request == request
  }

  /**
   * A step that neither submits nor fails the request moves at most one
   * token: a callback for the request fires exactly when the step removes its
   * registered listener.
   */
  lemma StepConserves(r: Registry, a: Action, request: HttpRequest)
    requires !SubmitsOrFails(a, request)
    ensures CallbacksFor(request, Apply(r, a).callbacks) + Pending(Apply(r, a).registry, request)
              == Pending(r, request)
  {
    var o := Apply(r, a);
    if a.request != request {
      assert SameAt(r, o.registry, request) by { UnchangedElsewhere(r, o.registry, a.request, request); }
      assert forall e :: e in o.callbacks ==> e.request == a.request;
      if o.callbacks != [] {
        assert o.callbacks[1..] == [];
      }
    }
  }

  /**
   * While the request is neither re-submitted nor failed, the callbacks fired
   * for it and its registration add up to what it started with: a registered
   * request gets at most one callback, and gets one exactly when it is no
   * longer registered; an unregistered one gets none.
   */
  lemma {:induction false} CallbackConservation(r: Registry, acts: seq<Action>, request: HttpRequest)
    requires forall i :: 0 <= i < |acts| ==> !SubmitsOrFails(acts[i], request)
    ensures CallbacksFor(request, Run(r, acts).callbacks) + Pending(Run(r, acts).registry, request)
              == Pending(r, request)
    decreases |acts|
  {
    if acts != [] {
      var first := Apply(r, acts[0]);
      StepConserves(r, acts[0], request);
      CallbackConservation(first.registry, acts[1..], request);
      CallbacksForAppend(request, first.callbacks, Run(first.registry, acts[1..]).callbacks);
    }
  }

  /**
   * At most one terminal callback per registration: after a request with a
   * URL is submitted, any run of responses, cancellations and other requests'
   * steps fires at most one callback for it, and fires one exactly when the
   * request is no longer registered at the end.
   */
  lemma AtMostOneCallbackPerRegistration(r: Registry, request: HttpRequest, listener: HttpResponseListener,
                                         native: NativeUrlRequest, acts: seq<Action>)
    requires request.url.Some?
    requires forall i :: 0 <= i < |acts| ==> !SubmitsOrFails(acts[i], request)
    ensures var o := Run(r, [Submit(request, listener, native)] + acts);
            && CallbacksFor(request, o.callbacks) <= 1
            && (CallbacksFor(request, o.callbacks) == 1 <==> request !in o.registry.listeners)
  {
    var all := [Submit(request, listener, native)] + acts;
    assert all[1..] == acts;
    var first := Apply(r, all[0]);
    assert first == Register(r, request, listener, native);
    CallbackConservation(first.registry, acts, request);
    var rest := Run(first.registry, acts);
    assert Run(r, all) == Outcome(rest.registry, [] + rest.callbacks);
    assert [] + rest.callbacks == rest.callbacks;
  }

  lemma {:induction false} NoCallbacksFor(request: HttpRequest, events: seq<Event>)
    requires CallbacksFor(request, events) == 0
    ensures forall i :: 0 <= i < |events| ==> events[i].request != request
    decreases |events|
  {
    if events != [] {
      NoCallbacksFor(request, events[1..]);
      assert forall i :: 1 <= i < |events| ==> events[i] == events[1..][i - 1];
    }
  }

  /** Every callback fired for the request reached the given listener. */
  predicate OnlyReaches(events: seq<Event>, request: HttpRequest, listener: HttpResponseListener)
  {
    forall i :: 0 <= i < |events| && events[i].request == request ==> events[i].listener == listener
  }

  /**
   * Every callback fired for a registered request, while it is neither
   * re-submitted nor failed, reaches the listener it was registered with.
   */
  lemma {:induction false} CallbacksReachRegisteredListener(r: Registry, acts: seq<Action>, request: HttpRequest)
    requires request in r.listeners
    requires forall i :: 0 <= i < |acts| ==> !SubmitsOrFails(acts[i], request)
    ensures OnlyReaches(Run(r, acts).callbacks, request, r.listeners[request])
    decreases |acts|
  {
    if acts != [] {
      var first := Apply(r, acts[0]);
      var rest := Run(first.registry, acts[1..]);
      var events := first.callbacks + rest.callbacks;
      assert Run(r, acts).callbacks == events;
      assert forall i :: 0 <= i < |first.callbacks| && first.callbacks[i].request == request ==>
               first.callbacks[i].listener == r.listeners[request];
      if request in first.registry.listeners {
        assert first.registry.listeners[request] == r.listeners[request] by {
          if acts[0].request != request {
            UnchangedElsewhere(r, first.registry, acts[0].request, request);
          }
        }
        CallbacksReachRegisteredListener(first.registry, acts[1..], request);
        assert OnlyReaches(rest.callbacks, request, r.listeners[request]);
      } else {
        CallbackConservation(first.registry, acts[1..], request);
        NoCallbacksFor(request, rest.callbacks);
      }
      forall i | 0 <= i < |events| && events[i].request == request
        ensures events[i].listener == r.listeners[request]
      {
        if i >= |first.callbacks| {
          var j := i - |first.callbacks|;
          assert events[i] == rest.callbacks[j];
        } else {
          assert events[i] == first.callbacks[i];
        }
      }
    }
  }

  /**
   * Steps about other requests never fire a callback for this one and leave
   * its entries as they were.
   */
  lemma {:induction false} OtherRequestsUnaffected(r: Registry, acts: seq<Action>, request: HttpRequest)
    requires forall i :: 0 <= i < |acts| ==> !Concerns(acts[i], request)
    ensures CallbacksFor(request, Run(r, acts).callbacks) == 0
    ensures SameAt(r, Run(r, acts).registry, request)
    decreases |acts|
  {
    if acts != [] {
      var first := Apply(r, acts[0]);
      assert SameAt(r, first.registry, request) by { UnchangedElsewhere(r, first.registry, acts[0].request, request); }
      assert CallbacksFor(request, first.callbacks) == 0 by {
        assert forall e :: e in first.callbacks ==> e.request == acts[0].request;
        if first.callbacks != [] {
          assert first.callbacks[1..] == [];
        }
      }
      OtherRequestsUnaffected(first.registry, acts[1..], request);
      CallbacksForAppend(request, first.callbacks, Run(first.registry, acts[1..]).callbacks);
    }
  }

  /** A request without a URL is failed at once and never reaches either map. */
  lemma SubmitWithoutUrl(r: Registry, request: HttpRequest, listener: HttpResponseListener,
                         native: NativeUrlRequest)
    requires request.url.None?
    ensures Apply(r, Submit(request, listener, native)) == Outcome(r, [Failed(request, listener, MissingUrl)])
  {
  }

  /** A second cancel changes nothing and fires nothing. */
  lemma CancelIdempotent(r: Registry, request: HttpRequest)
    ensures Cancel(Cancel(r, request).registry, request) == Outcome(Cancel(r, request).registry, [])
  {
  }

  /**
   * A response arriving after a cancel is discarded: the only callback is the
   * cancellation.
   */
  lemma LateResponseAfterCancelDiscarded(r: Registry, request: HttpRequest, response: HttpClientResponse)
    requires request in r.listeners
    ensures var o := Run(r, [CancelRequest(request), Respond(request, response)]);
            && o.callbacks == [Cancelled(request, r.listeners[request])]
            && o.registry == Cancel(r, request).registry
  {
    var c := Cancel(r, request);
    assert [CancelRequest(request), Respond(request, response)][1..] == [Respond(request, response)];
    assert Run(c.registry, [Respond(request, response)]) == Outcome(c.registry, []);
  }

  /**
   * The failure path has no membership check: a transport error arriving
   * after a cancel fires a second callback for the same registration.
   */
  lemma FailureAfterCancelFiresTwice(r: Registry, request: HttpRequest, cause: Cause)
    requires request in r.listeners
    ensures var listener := r.listeners[request];
            var o := Run(r, [CancelRequest(request), Fail(request, listener, cause)]);
            && o.callbacks == [Cancelled(request, listener), Failed(request, listener, cause)]
            && CallbacksFor(request, o.callbacks) == 2
  {
    var listener := r.listeners[request];
    var c := Cancel(r, request);
    var acts := [CancelRequest(request), Fail(request, listener, cause)];
    assert acts[1..] == [Fail(request, listener, cause)];
    var f := RemoveOnFailure(c.registry, request, listener, cause);
    assert Run(c.registry, acts[1..]) == Outcome(f.registry, f.callbacks);
    var cbs := [Cancelled(request, listener), Failed(request, listener, cause)];
    assert cbs[1..][1..] == [];
    assert CallbacksFor(request, cbs[1..][1..]) == 0;
    assert CallbacksFor(request, cbs[1..]) == 1;
  }

  /** A success leaves the requests entry behind; only a failure or a cancel removes it. */
  lemma SuccessKeepsRequestEntry(r: Registry, request: HttpRequest, listener: HttpResponseListener,
                                 native: NativeUrlRequest, response: HttpClientResponse)
    requires request.url.Some?
    ensures var o := Run(r, [Submit(request, listener, native), Respond(request, response)]);
            && o.callbacks == [Response(request, listener, response)]
            && request in o.registry.requests && o.registry.requests[request] == native
            && request !in o.registry.listeners
  {
    var acts := [Submit(request, listener, native), Respond(request, response)];
    var s := Register(r, request, listener, native);
    assert acts[1..] == [Respond(request, response)];
    var c := Complete(s.registry, request, response);
    assert Run(s.registry, acts[1..]) == Outcome(c.registry, c.callbacks);
  }
}
