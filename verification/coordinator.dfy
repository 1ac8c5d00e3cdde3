/** The token-refresh coordinator of the HTTP client, as a state machine.

    The asynchronous program is flattened into discrete events, each of which
    makes one synchronous change:
    - a response error arrives for a request (its status and its `_retry` flag);
    - the refresh exchange succeeds with a new token pair;
    - the refresh exchange fails with an error;
    - the `finally` step of the exchange resets the refreshing flag.
    The credential store and the default headers are part of the state. The
    rest of what the coordinator does (the refresh POST, the call of a
    waiter's resolve function, the resubmission of a request, the call of a
    promise's reject function, the navigation to the login route) is appended
    to an effect log, in the order it happens.

    The type parameter R stands for the identity of a request configuration
    object; the imperative model in module Api instantiates it with its
    Request class. */
module Coordinator {

  datatype Option<T> = None | Some(value: T)

  /** Keys of the credential store and the header the client writes. */
  const AccessTokenKey: string := "accessToken"
  const RefreshTokenKey: string := "refreshToken"
  const Authorization: string := "Authorization"
  /** The route the client navigates to when the refresh exchange fails. */
  const LoginRoute: string := "/"
  /** The status code that asks for a refresh. */
  const Unauthorized: int := 401

  function Bearer(token: string): string { "Bearer " + token }

  /** `localStorage.getItem(key)`: the stored string, or null. */
  function Lookup(store: map<string, string>, key: string): Option<string>
  {
    if key in store then Some(store[key]) else None
  }

  /** JavaScript truthiness of a stored access token: present and not "". */
  predicate HasToken(store: map<string, string>)
  {
    AccessTokenKey in store && store[AccessTokenKey] != ""
  }

  /** The request interceptor: the headers of an outgoing request after it
      has run against the credential store. */
  function WithAuth(headers: map<string, string>, store: map<string, string>): (r: map<string, string>)
    ensures HasToken(store) ==> Authorization in r && r[Authorization] == Bearer(store[AccessTokenKey])
    ensures !HasToken(store) ==> r == headers
    ensures r.Keys == headers.Keys + (if HasToken(store) then {Authorization} else {})
    ensures forall k :: k in headers && k != Authorization ==> r[k] == headers[k]
  {
    if HasToken(store) then headers[Authorization := Bearer(store[AccessTokenKey])] else headers
  }

  /** An error as the response interceptor sees it: the HTTP status of its
      response, or None when there was no response at all. */
  datatype Failure = Failure(status: Option<int>)

  /** Which branch of the response-error interceptor an error takes. */
  datatype Route = PassThrough | Enqueue | StartRefresh

  /** Only a 401 for a request not yet marked `_retry` enters the refresh
      path; it waits in the queue when an exchange is under way and starts
      one otherwise. */
  function RouteOf(status: Option<int>, retry: bool, refreshing: bool): (r: Route)
    ensures r != PassThrough <==> status == Some(Unauthorized) && !retry
    ensures r == Enqueue <==> status == Some(Unauthorized) && !retry && refreshing
    ensures r == StartRefresh <==> status == Some(Unauthorized) && !retry && !refreshing
  {
    if status == Some(Unauthorized) && !retry then
      if refreshing then Enqueue else StartRefresh
    else PassThrough
  }

  /** What the client does outside its own state, in the order it does it. */
  datatype Effect<R> =
    | RefreshPost(refreshToken: Option<string>)   // POST to the refresh endpoint
    | Resolved(req: R, token: string)            // a waiter's resolve function is called with the token
    | Resubmit(req: R, auth: string)             // the request is sent again, carrying this Authorization header
    | Reject(req: R, err: Failure)               // the reject function of the request's promise is called with err;
                                                 // a waiter's caller sees it through its catch handler
    | Redirect(route: string)                    // navigation

  /** How `processQueue` releases the waiters: all with the new access token,
      or all with the refresh error. */
  datatype Release = Resolve(token: string) | RejectWith(err: Failure)

  /** What `processQueue` does to one waiter: it calls the waiter's resolve
      function with the token, or its reject function with the error. Only
      a resolve schedules the waiter's continuation, which runs later. */
  function ReleaseOf<R>(req: R, release: Release): (e: Effect<R>)
    ensures e.Resolved? || e.Reject?
    ensures e.Resolved? <==> release.Resolve?
    ensures e.Resolved? ==> e.req == req && e.token == release.token
    ensures e.Reject? ==> e.req == req && e.err == release.err
  {
    match release
    case Resolve(token) => Resolved(req, token)
    case RejectWith(err) => Reject(req, err)
  }

  /** The effects of `processQueue` on a queue of waiters. */
  function Released<R>(queue: seq<R>, release: Release): (es: seq<Effect<R>>)
    ensures |es| == |queue|
    ensures forall i :: 0 <= i < |queue| ==> es[i] == ReleaseOf(queue[i], release)
  {
    if queue == [] then []
    else Released(queue[..|queue| - 1], release) + [ReleaseOf(queue[|queue| - 1], release)]
  }

  /** The continuations of resolved waiters, run after the callback that
      resolved them has returned: each writes `Bearer <token>` into its own
      request's header and resubmits the request. */
  function Replays<R>(queue: seq<R>, token: string): (es: seq<Effect<R>>)
    ensures |es| == |queue|
    ensures forall i :: 0 <= i < |queue| ==> es[i] == Resubmit(queue[i], Bearer(token))
  {
    if queue == [] then []
    else Replays(queue[..|queue| - 1], token) + [Resubmit(queue[|queue| - 1], Bearer(token))]
  }

  /** The coordinator's state.
      - refreshing: the module flag `isRefreshing`;
      - queue: the requests whose waiters are in `failedQueue`, oldest first;
      - exchange: the request whose 401 started the refresh exchange that is
        still in flight (held by the closure of the source);
      - store: the credential store;
      - common: the instance's default headers;
      - effects: the effect log;
      - retried: the requests whose `_retry` flag the interceptor has set. */
  datatype State<R(==)> = State(
    refreshing: bool,
    queue: seq<R>,
    exchange: Option<R>,
    store: map<string, string>,
    common: map<string, string>,
    effects: seq<Effect<R>>,
    retried: set<R>)

  /** A fresh client: idle, nothing queued, nothing logged. */
  function Init<R(==)>(store: map<string, string>): (s: State<R>)
    ensures Inv(s) && !s.refreshing && s.queue == [] && s.exchange == None
    ensures s.store == store && s.effects == [] && s.retried == {}
  {
    State(false, [], None, store, map[], [], {})
  }

  /** The coordinator's own invariant: an exchange is in flight only while
      the flag is up, and its request is marked retried. */
  predicate Inv<R(==)>(s: State<R>)
  {
    s.exchange.Some? ==> s.refreshing && s.exchange.value in s.retried
  }

  /** The events. In ResponseError, `retry` is the request's own `_retry`
      flag as it arrives: a free input, since a caller may build a
      configuration that already carries it. The runs in
      CoordinatorProperties use flags that agree with `retried`. */
  datatype Event<R> =
    | ResponseError(req: R, status: Option<int>, retry: bool)
    | RefreshOk(access: string, refresh: string)
    | RefreshFail(err: Failure)
    | Settle

  /** When an event can happen: an exchange settles only when one is in
      flight, and the `finally` step runs only after it has settled. */
  predicate Enabled<R(==)>(s: State<R>, e: Event<R>)
    ensures Inv(s) && Enabled(s, e) && (e.RefreshOk? || e.RefreshFail?) ==> s.refreshing
    ensures Enabled(s, e) && e.Settle? ==> s.refreshing
  {
    match e
    case ResponseError(_, _, _) => true
    case RefreshOk(_, _) => s.exchange.Some?
    case RefreshFail(_) => s.exchange.Some?
    case Settle => s.refreshing && s.exchange.None?
  }

  /** One event. The effect log only grows, a request once marked stays
      marked, and the invariant is kept. */
  function Step<R(==)>(s: State<R>, e: Event<R>): (t: State<R>)
    requires Enabled(s, e)
    ensures Inv(s) ==> Inv(t)
    ensures |s.effects| <= |t.effects| && t.effects[..|s.effects|] == s.effects
    ensures s.retried <= t.retried
  {
    match e
    case ResponseError(req, status, retry) =>
      (match RouteOf(status, retry, s.refreshing)
       case PassThrough => s.(effects := s.effects + [Reject(req, Failure(status))])
       case Enqueue => s.(queue := s.queue + [req])
       case StartRefresh =>
         s.(refreshing := true, exchange := Some(req), retried := s.retried + {req},
            effects := s.effects + [RefreshPost(Lookup(s.store, RefreshTokenKey))]))
    case RefreshOk(access, refresh) =>
      s.(store := s.store[AccessTokenKey := access][RefreshTokenKey := refresh],
         common := s.common[Authorization := Bearer(access)],
         effects := s.effects + Released(s.queue, Resolve(access)) + [Resubmit(s.exchange.value, Bearer(access))]
                    + Replays(s.queue, access),
         queue := [], exchange := None)
    case RefreshFail(err) =>
      s.(store := map[],
         effects := s.effects + Released(s.queue, RejectWith(err)) + [Redirect(LoginRoute), Reject(s.exchange.value, err)],
         queue := [], exchange := None)
    case Settle =>
      s.(refreshing := false)
  }

  /** A sequence of events; None when one of them cannot happen where it
      stands. */
  function Run<R(==)>(s: State<R>, es: seq<Event<R>>): Option<State<R>>
    decreases |es|
  {
    if es == [] then Some(s)
    else if Enabled(s, es[0]) then Run(Step(s, es[0]), es[1..])
    else None
  }

  /** Kinds of effect, for counting them in a log. */
  datatype Kind<R> = Posts | Redirects | ResolvesOf(req: R) | ResubmitsOf(req: R) | RejectsOf(req: R)

  predicate IsKind<R(==)>(e: Effect<R>, k: Kind<R>)
  {
    match k
    case Posts => e.RefreshPost?
    case Redirects => e.Redirect?
    case ResolvesOf(r) => e.Resolved? && e.req == r
    case ResubmitsOf(r) => e.Resubmit? && e.req == r
    case RejectsOf(r) => e.Reject? && e.req == r
  }

  /** The number of effects of kind k in a log. */
  function Count<R(==)>(es: seq<Effect<R>>, k: Kind<R>): nat
  {
    if es == [] then 0
    else Count(es[..|es| - 1], k) + (if IsKind(es[|es| - 1], k) then 1 else 0)
  }
}
