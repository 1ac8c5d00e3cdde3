/** The HTTP client instance and its two interceptors, in the imperative form
    of the source: a request configuration is an object whose headers and
    `_retry` flag are updated in place, and the client holds the refresh flag,
    the waiter queue, the credential store, its default headers and the log of
    what it has done, all reassigned by its methods. Each method is proved
    against the state machine of module Coordinator. */
module Api {
  import opened Coordinator

  /** A request configuration as the interceptors see it. */
  class Request {
    var headers: map<string, string>
    var retry: bool

    constructor (headers: map<string, string>)
      ensures this.headers == headers && !retry
    {
      this.headers := headers;
      retry := false;
    }
  }

  class Client {
    var isRefreshing: bool
    /** The waiters of `failedQueue`, each standing for the request it was
        created for. */
    var failedQueue: seq<Request>
    /** The request whose 401 started the exchange still in flight. */
    var exchange: Option<Request>
    /** The credential store. */
    var store: map<string, string>
    /** The instance's default headers. */
    var common: map<string, string>
    /** POSTs, resolutions, resubmissions, rejections and navigations, in order. */
    var effects: seq<Effect<Request>>
    /** The requests this client has marked `_retry`. */
    ghost var retried: set<Request>

    ghost function Abs(): State<Request>
      reads this
    {
      State(isRefreshing, failedQueue, exchange, store, common, effects, retried)
    }

    ghost predicate Valid()
      reads this, retried
    {
      Inv(Abs()) && forall r :: r in retried ==> r.retry
    }

    constructor (store: map<string, string>)
      ensures Valid() && Abs() == Init(store)
    {
      isRefreshing := false;
      failedQueue := [];
      exchange := None;
      this.store := store;
      common := map[];
      effects := [];
      retried := {};
    }

    /** The request interceptor. */
    method AttachAuth(config: Request)
      modifies config
      ensures config.headers == WithAuth(old(config.headers), store)
      ensures config.retry == old(config.retry)
    {
      var token := Lookup(store, AccessTokenKey);
      if token.Some? && token.value != "" {
        config.headers := config.headers[Authorization := Bearer(token.value)];
      }
    }

    /** `processQueue`: releases every waiter in queue order with the same
        outcome, then empties the queue. It only calls the waiters' resolve
        or reject functions; the requests themselves are not touched here. */
    method ProcessQueue(release: Release)
      requires Valid()
      modifies this
      ensures Valid()
      ensures failedQueue == []
      ensures effects == old(effects) + Released(old(failedQueue), release)
      ensures isRefreshing == old(isRefreshing) && exchange == old(exchange) && store == old(store)
      ensures common == old(common) && retried == old(retried)
    {
      var queue := failedQueue;
      var i := 0;
      while i < |queue|
        invariant 0 <= i <= |queue|
        invariant failedQueue == queue && retried == old(retried)
        invariant isRefreshing == old(isRefreshing) && exchange == old(exchange)
        invariant store == old(store) && common == old(common)
        invariant effects == old(effects) + Released(queue[..i], release)
      {
        effects := effects + [ReleaseOf(queue[i], release)];
        assert queue[..i + 1] == queue[..i] + [queue[i]];
        i := i + 1;
      }
      assert queue[..i] == queue;
      failedQueue := [];
    }

    /** The continuations of the waiters resolved with `token`, run in the
        order they were resolved: each writes `Bearer <token>` into its own
        request's `Authorization` header and resubmits the request. */
    method ResumeWaiters(waiters: seq<Request>, token: string)
      requires Valid()
      modifies this, waiters
      ensures Valid()
      ensures effects == old(effects) + Replays(waiters, token)
      ensures isRefreshing == old(isRefreshing) && failedQueue == old(failedQueue) && exchange == old(exchange)
      ensures store == old(store) && common == old(common) && retried == old(retried)
      ensures forall r :: r in waiters ==> r.headers == old(r.headers)[Authorization := Bearer(token)]
      ensures forall r :: r in waiters ==> r.retry == old(r.retry)
    {
      var i := 0;
      while i < |waiters|
        invariant 0 <= i <= |waiters|
        invariant isRefreshing == old(isRefreshing) && failedQueue == old(failedQueue) && exchange == old(exchange)
        invariant store == old(store) && common == old(common) && retried == old(retried)
        invariant effects == old(effects) + Replays(waiters[..i], token)
        invariant forall r :: r in waiters[..i] ==> r.headers == old(r.headers)[Authorization := Bearer(token)]
        invariant forall r :: r in waiters && r !in waiters[..i] ==> r.headers == old(r.headers)
        invariant forall r :: r in waiters ==> r.retry == old(r.retry)
      {
        var waiter := waiters[i];
        waiter.headers := waiter.headers[Authorization := Bearer(token)];
        effects := effects + [Resubmit(waiter, Bearer(token))];
        assert waiters[..i + 1] == waiters[..i] + [waiter];
        i := i + 1;
      }
      assert waiters[..i] == waiters;
    }

    /** The response-error interceptor, up to the point where it waits. */
    method OnResponseError(req: Request, status: Option<int>) returns (route: Route)
      requires Valid()
      modifies this, req
      ensures Valid()
      ensures route == RouteOf(status, old(req.retry), old(isRefreshing))
      ensures Abs() == Step(old(Abs()), ResponseError(req, status, old(req.retry)))
      ensures req.retry == (old(req.retry) || route == StartRefresh)
      ensures req.headers == old(req.headers)
    {
      if status == Some(Unauthorized) && !req.retry {
        if isRefreshing {
          failedQueue := failedQueue + [req];
          return Enqueue;
        }
        req.retry := true;
        isRefreshing := true;
        var refreshToken := Lookup(store, RefreshTokenKey);
        effects := effects + [RefreshPost(refreshToken)];
        exchange := Some(req);
        retried := retried + {req};
        return StartRefresh;
      }
      effects := effects + [Reject(req, Failure(status))];
      return PassThrough;
    }

    /** The exchange returned a new token pair. */
    method RefreshSucceeded(access: string, refresh: string)
      requires Valid() && exchange.Some?
      modifies this, exchange.value, failedQueue
      ensures Valid()
      ensures Abs() == Step(old(Abs()), RefreshOk(access, refresh))
      ensures old(exchange.value).headers == old(exchange.value.headers)[Authorization := Bearer(access)]
      ensures forall r :: r in old(failedQueue) ==> r.headers == old(r.headers)[Authorization := Bearer(access)]
      ensures old(exchange.value).retry && forall r :: r in old(failedQueue) ==> r.retry == old(r.retry)
    {
      var original := exchange.value;
      store := store[AccessTokenKey := access][RefreshTokenKey := refresh];
      common := common[Authorization := Bearer(access)];
      original.headers := original.headers[Authorization := Bearer(access)];
      var waiters := failedQueue;
      ProcessQueue(Resolve(access));
      effects := effects + [Resubmit(original, Bearer(access))];
      exchange := None;
      ResumeWaiters(waiters, access);
    }

    /** The exchange failed with `err`. */
    method RefreshFailed(err: Failure)
      requires Valid() && exchange.Some?
      modifies this
      ensures Valid()
      ensures Abs() == Step(old(Abs()), RefreshFail(err))
      ensures forall r :: r in old(failedQueue) ==> r.headers == old(r.headers) && r.retry == old(r.retry)
    {
      var original := exchange.value;
      ProcessQueue(RejectWith(err));
      store := map[];
      effects := effects + [Redirect(LoginRoute), Reject(original, err)];
      exchange := None;
    }

    /** The `finally` step of the exchange. */
    method Settle()
      requires Valid() && isRefreshing && exchange.None?
      modifies this
      ensures Valid()
      ensures Abs() == Step(old(Abs()), Coordinator.Settle)
    {
      isRefreshing := false;
    }
  }
}
