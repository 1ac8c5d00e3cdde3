/** What the refresh coordinator promises, proved of the state machine in
    module Coordinator. */
module CoordinatorProperties {
  import opened Coordinator

  // ---------------------------------------------------------------------
  // Counting effects

  lemma {:induction false} CountSnoc<R>(es: seq<Effect<R>>, x: Effect<R>, k: Kind<R>)
    ensures Count(es + [x], k) == Count(es, k) + (if IsKind(x, k) then 1 else 0)
  {
  }

  lemma {:induction false} CountAppend<R>(es: seq<Effect<R>>, fs: seq<Effect<R>>, k: Kind<R>)
    ensures Count(es + fs, k) == Count(es, k) + Count(fs, k)
    decreases |fs|
  {
    if fs == [] {
      assert es + fs == es;
    } else {
      var n := |fs| - 1;
      assert es + fs == (es + fs[..n]) + [fs[n]];
      assert fs == fs[..n] + [fs[n]];
      CountAppend(es, fs[..n], k);
      CountSnoc(es + fs[..n], fs[n], k);
      CountSnoc(fs[..n], fs[n], k);
    }
  }

  // ---------------------------------------------------------------------
  // processQueue

  predicate ReleasedCountsHold<R(==)>(q: seq<R>, release: Release, k: Kind<R>)
  {
    && (k.Posts? || k.Redirects? || k.ResubmitsOf? ==> Count(Released(q, release), k) == 0)
    && (k.ResolvesOf? ==>
          Count(Released(q, release), k) == (if release.Resolve? then multiset(q)[k.req] else 0))
    && (k.RejectsOf? ==>
          Count(Released(q, release), k) == (if release.RejectWith? then multiset(q)[k.req] else 0))
  }

  /** `processQueue` resolves (on success) or rejects (on failure) each
      queued request exactly as many times as it was queued; by itself it
      resubmits nothing, posts no refresh and navigates nowhere. */
  lemma {:induction false} ReleasedCounts<R>(q: seq<R>, release: Release, k: Kind<R>)
    ensures ReleasedCountsHold(q, release, k)
    decreases |q|
  {
    if q != [] {
      var n := |q| - 1;
      ReleasedCounts(q[..n], release, k);
      CountSnoc(Released(q[..n], release), ReleaseOf(q[n], release), k);
      assert q == q[..n] + [q[n]];
      assert multiset(q) == multiset(q[..n]) + multiset{q[n]};
    }
  }

  predicate ReplaysCountsHold<R(==)>(q: seq<R>, token: string, k: Kind<R>)
  {
    && (!k.ResubmitsOf? ==> Count(Replays(q, token), k) == 0)
    && (k.ResubmitsOf? ==> Count(Replays(q, token), k) == multiset(q)[k.req])
  }

  /** The continuations of resolved waiters resubmit each queued request
      exactly as many times as it was queued, and do nothing else. */
  lemma {:induction false} ReplaysCounts<R>(q: seq<R>, token: string, k: Kind<R>)
    ensures ReplaysCountsHold(q, token, k)
    decreases |q|
  {
    if q != [] {
      var n := |q| - 1;
      ReplaysCounts(q[..n], token, k);
      CountSnoc(Replays(q[..n], token), Resubmit(q[n], Bearer(token)), k);
      assert q == q[..n] + [q[n]];
      assert multiset(q) == multiset(q[..n]) + multiset{q[n]};
    }
  }

  // ---------------------------------------------------------------------
  // The response-error interceptor, one event at a time

  /** Any error other than a 401 for a request not yet retried is rejected
      unchanged, and nothing else changes. */
  lemma PassThroughChangesNothing<R>(s: State<R>, req: R, status: Option<int>, retry: bool)
    requires !(status == Some(Unauthorized) && !retry)
    ensures Step(s, ResponseError(req, status, retry)) == s.(effects := s.effects + [Reject(req, Failure(status))])
  {
  }

  /** While an exchange is under way, a qualifying 401 appends exactly one
      waiter at the end of the queue: no POST, no mark, flag and store
      untouched. */
  lemma QueuedWhileRefreshing<R>(s: State<R>, req: R)
    requires s.refreshing
    ensures Step(s, ResponseError(req, Some(Unauthorized), false)) == s.(queue := s.queue + [req])
  {
  }

  /** With no exchange under way, a qualifying 401 marks the request
      retried, raises the flag and posts the stored refresh token exactly
      once. */
  lemma StartsOneExchange<R>(s: State<R>, req: R) returns (t: State<R>)
    requires !s.refreshing
    ensures t == Step(s, ResponseError(req, Some(Unauthorized), false))
    ensures t.refreshing && t.exchange == Some(req) && req in t.retried
    ensures t.queue == s.queue && t.store == s.store && t.common == s.common
    ensures t.effects == s.effects + [RefreshPost(Lookup(s.store, RefreshTokenKey))]
    ensures Count(t.effects, Posts) == Count(s.effects, Posts) + 1
  {
    t := Step(s, ResponseError(req, Some(Unauthorized), false));
    CountSnoc(s.effects, RefreshPost(Lookup(s.store, RefreshTokenKey)), Posts);
  }

  // ---------------------------------------------------------------------
  // Settling the exchange

  /** Refresh success: both tokens stored and the default header carries
      the new token. `processQueue` resolves every waiter in queue order,
      then the original request is resubmitted with the new token, and only
      then do the waiters' continuations resubmit their requests with it, in
      queue order. */
  lemma RefreshOkReleasesAll<R>(s: State<R>, access: string, refresh: string)
    returns (t: State<R>)
    requires s.exchange.Some?
    ensures t == Step(s, RefreshOk(access, refresh))
    ensures t.store[AccessTokenKey] == access && t.store[RefreshTokenKey] == refresh
    ensures forall key :: key in s.store && key != AccessTokenKey && key != RefreshTokenKey ==>
      key in t.store && t.store[key] == s.store[key]
    ensures t.common[Authorization] == Bearer(access)
    ensures t.queue == [] && t.exchange == None && t.refreshing == s.refreshing
    ensures |t.effects| == |s.effects| + 2 * |s.queue| + 1 && t.effects[..|s.effects|] == s.effects
    ensures forall i :: 0 <= i < |s.queue| ==> t.effects[|s.effects| + i] == Resolved(s.queue[i], access)
    ensures t.effects[|s.effects| + |s.queue|] == Resubmit(s.exchange.value, Bearer(access))
    ensures forall i :: 0 <= i < |s.queue| ==>
      t.effects[|s.effects| + |s.queue| + 1 + i] == Resubmit(s.queue[i], Bearer(access))
  {
    t := Step(s, RefreshOk(access, refresh));
    var released := Released(s.queue, Resolve(access));
    var replays := Replays(s.queue, access);
    var first := Resubmit(s.exchange.value, Bearer(access));
    assert t.effects == s.effects + released + [first] + replays;
    forall i | 0 <= i < |s.queue|
      ensures t.effects[|s.effects| + |s.queue| + 1 + i] == Resubmit(s.queue[i], Bearer(access))
    {
      assert t.effects[|s.effects| + |s.queue| + 1 + i] == replays[i];
    }
  }

  /** Refresh success, counted: each request is resolved once and
      resubmitted once per time it waited in the queue, and resubmitted once
      more if it started the exchange; no rejection, POST or navigation. */
  lemma RefreshOkCounts<R>(s: State<R>, access: string, refresh: string, r: R)
    requires s.exchange.Some?
    ensures var t := Step(s, RefreshOk(access, refresh));
      && Count(t.effects, ResolvesOf(r)) == Count(s.effects, ResolvesOf(r)) + multiset(s.queue)[r]
      && Count(t.effects, ResubmitsOf(r)) ==
           Count(s.effects, ResubmitsOf(r)) + multiset(s.queue)[r] + (if r == s.exchange.value then 1 else 0)
      && Count(t.effects, RejectsOf(r)) == Count(s.effects, RejectsOf(r))
      && Count(t.effects, Posts) == Count(s.effects, Posts)
      && Count(t.effects, Redirects) == Count(s.effects, Redirects)
  {
    var t := Step(s, RefreshOk(access, refresh));
    var first := Resubmit(s.exchange.value, Bearer(access));
    OkCount(s, access, first, ResolvesOf(r));
    OkCount(s, access, first, ResubmitsOf(r));
    OkCount(s, access, first, RejectsOf(r));
    OkCount(s, access, first, Posts);
    OkCount(s, access, first, Redirects);
  }

  lemma OkCount<R>(s: State<R>, access: string, first: Effect<R>, k: Kind<R>)
    ensures Count(s.effects + Released(s.queue, Resolve(access)) + [first] + Replays(s.queue, access), k) ==
      Count(s.effects, k) + Count(Released(s.queue, Resolve(access)), k) + (if IsKind(first, k) then 1 else 0)
      + Count(Replays(s.queue, access), k)
    ensures ReleasedCountsHold(s.queue, Resolve(access), k)
    ensures ReplaysCountsHold(s.queue, access, k)
  {
    var released := Released(s.queue, Resolve(access));
    var replays := Replays(s.queue, access);
    CountAppend(s.effects + released + [first], replays, k);
    CountSnoc(s.effects + released, first, k);
    CountAppend(s.effects, released, k);
    ReleasedCounts(s.queue, Resolve(access), k);
    ReplaysCounts(s.queue, access, k);
  }

  /** Refresh failure: every waiter is rejected with the refresh error in
      queue order, the store is cleared, the client navigates to the login
      route, and then the original request is rejected with the same error.
      The default header is left as it was. */
  lemma RefreshFailRejectsAll<R>(s: State<R>, err: Failure) returns (t: State<R>)
    requires s.exchange.Some?
    ensures t == Step(s, RefreshFail(err))
    ensures t.store == map[] && t.common == s.common
    ensures t.queue == [] && t.exchange == None && t.refreshing == s.refreshing
    ensures |t.effects| == |s.effects| + |s.queue| + 2 && t.effects[..|s.effects|] == s.effects
    ensures forall i :: 0 <= i < |s.queue| ==> t.effects[|s.effects| + i] == Reject(s.queue[i], err)
    ensures t.effects[|s.effects| + |s.queue|] == Redirect(LoginRoute)
    ensures t.effects[|s.effects| + |s.queue| + 1] == Reject(s.exchange.value, err)
  {
    t := Step(s, RefreshFail(err));
  }

  /** Refresh failure, counted: each request is rejected once per time it
      waited, plus once if it started the exchange; none is resolved or
      resubmitted, no POST is made and the client navigates exactly once. */
  lemma RefreshFailCounts<R>(s: State<R>, err: Failure, r: R)
    requires s.exchange.Some?
    ensures var t := Step(s, RefreshFail(err));
      && Count(t.effects, RejectsOf(r)) ==
           Count(s.effects, RejectsOf(r)) + multiset(s.queue)[r] + (if r == s.exchange.value then 1 else 0)
      && Count(t.effects, ResubmitsOf(r)) == Count(s.effects, ResubmitsOf(r))
      && Count(t.effects, ResolvesOf(r)) == Count(s.effects, ResolvesOf(r))
      && Count(t.effects, Posts) == Count(s.effects, Posts)
      && Count(t.effects, Redirects) == Count(s.effects, Redirects) + 1
  {
    var t := Step(s, RefreshFail(err));
    var drained := Released(s.queue, RejectWith(err));
    var nav := Redirect(LoginRoute);
    var last := Reject(s.exchange.value, err);
    assert t.effects == ((s.effects + drained) + [nav]) + [last];
    assert t.effects == (s.effects + drained) + [nav, last];
    FailCount(s, drained, nav, last, ResubmitsOf(r), RejectWith(err));
    FailCount(s, drained, nav, last, RejectsOf(r), RejectWith(err));
    FailCount(s, drained, nav, last, ResolvesOf(r), RejectWith(err));
    FailCount(s, drained, nav, last, Posts, RejectWith(err));
    FailCount(s, drained, nav, last, Redirects, RejectWith(err));
  }

  lemma FailCount<R>(s: State<R>, drained: seq<Effect<R>>, nav: Effect<R>, last: Effect<R>,
                     k: Kind<R>, release: Release)
    requires drained == Released(s.queue, release)
    ensures Count((s.effects + drained) + [nav, last], k) ==
      Count(s.effects, k) + Count(drained, k) + (if IsKind(nav, k) then 1 else 0) + (if IsKind(last, k) then 1 else 0)
    ensures ReleasedCountsHold(s.queue, release, k)
  {
    assert (s.effects + drained) + [nav, last] == ((s.effects + drained) + [nav]) + [last];
    CountSnoc((s.effects + drained) + [nav], last, k);
    CountSnoc(s.effects + drained, nav, k);
    CountAppend(s.effects, drained, k);
    ReleasedCounts(s.queue, release, k);
  }

  /** The `finally` step lowers the flag and nothing else, so the next
      qualifying 401 starts a new exchange. */
  lemma SettleReopens<R>(s: State<R>, req: R) returns (t: State<R>)
    requires s.refreshing && s.exchange.None?
    ensures t == Step(s, Settle)
    ensures t == s.(refreshing := false)
    ensures Step(t, ResponseError(req, Some(Unauthorized), false)).exchange == Some(req)
    ensures Count(Step(t, ResponseError(req, Some(Unauthorized), false)).effects, Posts) == Count(s.effects, Posts) + 1
  {
    t := Step(s, Settle);
    var u := StartsOneExchange(t, req);
  }

  // ---------------------------------------------------------------------
  // Runs of events

  predicate Qualifies<R>(e: Event<R>)
  {
    e.ResponseError? && e.status == Some(Unauthorized) && !e.retry
  }

  /** The number of `finally` steps in a run. */
  function Settles<R>(es: seq<Event<R>>): nat
  {
    if es == [] then 0 else (if es[0].Settle? then 1 else 0) + Settles(es[1..])
  }

  /** Within one cycle (no `finally` step), any number of response errors
      posts at most one refresh: exactly one when the flag was down and one
      of them qualifies, none otherwise. */
  lemma {:induction false} OnePostPerCycle<R>(s: State<R>, es: seq<Event<R>>)
    requires forall i :: 0 <= i < |es| ==> es[i].ResponseError?
    ensures Run(s, es).Some?
    ensures Run(s, es).value.refreshing == (s.refreshing || exists i :: 0 <= i < |es| && Qualifies(es[i]))
    ensures Count(Run(s, es).value.effects, Posts) ==
      Count(s.effects, Posts) + (if !s.refreshing && exists i :: 0 <= i < |es| && Qualifies(es[i]) then 1 else 0)
    decreases |es|
  {
    if es != [] {
      var e := es[0];
      var s1 := Step(s, e);
      var rest := es[1..];
      assert forall i :: 0 <= i < |rest| ==> rest[i] == es[i + 1];
      OnePostPerCycle(s1, rest);
      var x := Reject(e.req, Failure(e.status));
      if Qualifies(e) {
        if !s.refreshing {
          var _ := StartsOneExchange(s, e.req);
        }
      } else {
        CountSnoc(s.effects, x, Posts);
      }
      var any := exists i :: 0 <= i < |es| && Qualifies(es[i]);
      var anyRest := exists i :: 0 <= i < |rest| && Qualifies(rest[i]);
      if anyRest {
        var i :| 0 <= i < |rest| && Qualifies(rest[i]);
        assert Qualifies(es[i + 1]);
      }
      if any && !Qualifies(e) {
        var i :| 0 <= i < |es| && Qualifies(es[i]);
        assert Qualifies(rest[i - 1]);
      }
    }
  }

  /** Over any run, refresh POSTs and completed cycles stay in step: the
      number of POSTs grows by the number of `finally` steps, plus one for
      an exchange still open at the end, minus one for one already open at
      the start. From the initial state: one POST per cycle. */
  lemma {:induction false} PostsMatchCycles<R>(s: State<R>, es: seq<Event<R>>)
    requires Run(s, es).Some?
    ensures Count(Run(s, es).value.effects, Posts) + (if Run(s, es).value.refreshing then 0 else 1) ==
      Count(s.effects, Posts) + (if s.refreshing then 0 else 1) + Settles(es)
    decreases |es|
  {
    if es != [] {
      var e := es[0];
      var s1 := Step(s, e);
      PostsMatchCycles(s1, es[1..]);
      match e
      case ResponseError(req, status, retry) =>
        if RouteOf(status, retry, s.refreshing) == StartRefresh {
          var _ := StartsOneExchange(s, req);
        } else if RouteOf(status, retry, s.refreshing) == PassThrough {
          CountSnoc(s.effects, Reject(req, Failure(status)), Posts);
        }
      case RefreshOk(access, refresh) =>
        RefreshOkCounts(s, access, refresh, s.exchange.value);
      case RefreshFail(err) =>
        RefreshFailCounts(s, err, s.exchange.value);
      case Settle =>
    }
  }

  lemma RunCons<R>(s: State<R>, e: Event<R>, es: seq<Event<R>>)
    requires Enabled(s, e)
    ensures Run(s, [e] + es) == Run(Step(s, e), es)
  {
  }

  /** A run in which the `finally` step follows each settlement of the
      exchange at once, as the promise chain of the source schedules it: no
      response error lands between the drain and the lowering of the flag. */
  predicate SettlesPromptly<R>(es: seq<Event<R>>)
  {
    forall i :: 0 <= i < |es| - 1 && (es[i].RefreshOk? || es[i].RefreshFail?) ==> es[i + 1].Settle?
  }

  /** The coordinator's intended invariant, in the form an induction over runs keeps: a
      waiter is queued only while the flag is raised and an exchange is in
      flight to release it. */
  predicate WaitersHaveExchange<R>(s: State<R>)
  {
    s.queue != [] ==> s.refreshing && s.exchange.Some?
  }

  lemma {:induction false} PromptRunKeepsWaiters<R>(s: State<R>, es: seq<Event<R>>)
    requires WaitersHaveExchange(s) && SettlesPromptly(es)
    requires s.refreshing && s.exchange.None? && es != [] ==> es[0].Settle?
    ensures Run(s, es).Some? ==> WaitersHaveExchange(Run(s, es).value)
    decreases |es|
  {
    if es != [] && Enabled(s, es[0]) {
      var t := Step(s, es[0]);
      assert SettlesPromptly(es[1..]) by {
        forall i | 0 <= i < |es[1..]| - 1 && (es[1..][i].RefreshOk? || es[1..][i].RefreshFail?)
          ensures es[1..][i + 1].Settle?
        {
          assert es[1..][i] == es[i + 1] && es[1..][i + 1] == es[i + 2];
        }
      }
      assert t.refreshing && t.exchange.None? && es[1..] != [] ==> es[1..][0].Settle? by {
        if t.refreshing && t.exchange.None? && es[1..] != [] {
          assert es[0].RefreshOk? || es[0].RefreshFail?;
          assert es[1..][0] == es[1];
        }
      }
      PromptRunKeepsWaiters(t, es[1..]);
    }
  }

  /** When every settlement is followed at once by the `finally` step, a
      client started fresh has waiters only while a refresh is under way:
      `failedQueue` is non-empty only while `isRefreshing` is true. */
  lemma WaitersOnlyWhileRefreshing<R>(store: map<string, string>, es: seq<Event<R>>)
    requires SettlesPromptly(es)
    ensures Run(Init(store), es).Some? ==> (Run(Init(store), es).value.queue != [] ==> Run(Init(store), es).value.refreshing)
  {
    PromptRunKeepsWaiters(Init(store), es);
  }

  // ---------------------------------------------------------------------
  // Scenarios

  /** Requests A and B both get a 401 while no exchange is under way; the
      exchange succeeds with token T2. One POST; B's waiter is resolved, A is
      resubmitted with T2, then B's continuation resubmits B with T2; the
      flag ends down. */
  lemma ScenarioSuccess<R>(store: map<string, string>, a: R, b: R, t2: string, r2: string)
    returns (t: State<R>)
    requires a != b
    ensures Run(Init(store), [ResponseError(a, Some(Unauthorized), false), ResponseError(b, Some(Unauthorized), false),
                              RefreshOk(t2, r2), Settle]) == Some(t)
    ensures t.effects == [RefreshPost(Lookup(store, RefreshTokenKey)), Resolved(b, t2),
                          Resubmit(a, Bearer(t2)), Resubmit(b, Bearer(t2))]
    ensures !t.refreshing && t.queue == [] && t.retried == {a}
    ensures t.store == store[AccessTokenKey := t2][RefreshTokenKey := r2]
  {
    var s0: State<R> := Init(store);
    var e1, e2, e3, e4 := ResponseError(a, Some(Unauthorized), false), ResponseError(b, Some(Unauthorized), false),
                          RefreshOk(t2, r2), Settle;
    var s1 := Step(s0, e1);
    var s2 := Step(s1, e2);
    assert s2.queue == [b];
    var s3 := Step(s2, e3);
    assert Released(s2.queue, Resolve(t2)) == [Resolved(b, t2)];
    assert Replays(s2.queue, t2) == [Resubmit(b, Bearer(t2))];
    t := Step(s3, e4);
    RunCons(s3, e4, []);
    RunCons(s2, e3, [e4]);
    RunCons(s1, e2, [e3, e4]);
    RunCons(s0, e1, [e2, e3, e4]);
    assert [e1] + [e2, e3, e4] == [e1, e2, e3, e4];
    assert [e2] + [e3, e4] == [e2, e3, e4];
    assert [e3] + [e4] == [e3, e4];
  }

  /** Request C gets a 401 and the exchange fails with error E: C is
      rejected with E after one navigation to the login route, the store is
      empty and the flag ends down. */
  lemma ScenarioFailure<R>(store: map<string, string>, c: R, err: Failure) returns (t: State<R>)
    ensures Run(Init(store), [ResponseError(c, Some(Unauthorized), false), RefreshFail(err), Settle]) == Some(t)
    ensures t.effects == [RefreshPost(Lookup(store, RefreshTokenKey)), Redirect(LoginRoute), Reject(c, err)]
    ensures !t.refreshing && t.queue == [] && t.store == map[]
  {
    var s0: State<R> := Init(store);
    var e1, e2, e3 := ResponseError(c, Some(Unauthorized), false), RefreshFail(err), Settle;
    var s1 := Step(s0, e1);
    var s2 := Step(s1, e2);
    assert Released(s1.queue, RejectWith(err)) == [];
    t := Step(s2, e3);
    RunCons(s2, e3, []);
    RunCons(s1, e2, [e3]);
    RunCons(s0, e1, [e2, e3]);
    assert [e1] + [e2, e3] == [e1, e2, e3];
    assert [e2] + [e3] == [e2, e3];
  }

  /** A waiter is never marked retried, so when its replay gets another
      401 it starts a second exchange; the request that started the first
      exchange is marked, and its second 401 is rejected unchanged. */
  lemma QueuedReplayStartsNewCycle<R>(store: map<string, string>, a: R, b: R, t2: string, r2: string)
    returns (t: State<R>)
    requires a != b
    ensures Run(Init(store), [ResponseError(a, Some(Unauthorized), false), ResponseError(b, Some(Unauthorized), false),
                              RefreshOk(t2, r2), Settle]) == Some(t)
    ensures a in t.retried && b !in t.retried
    ensures Step(t, ResponseError(b, Some(Unauthorized), false)).exchange == Some(b)
    ensures Count(Step(t, ResponseError(b, Some(Unauthorized), false)).effects, Posts) == 2
    ensures Step(t, ResponseError(a, Some(Unauthorized), true)).effects == t.effects + [Reject(a, Failure(Some(Unauthorized)))]
  {
    t := ScenarioSuccess(store, a, b, t2, r2);
    var u := StartsOneExchange(t, b);
    assert Count(t.effects, Posts) == 1 by {
      var e0, e1, e2, e3 := t.effects[0], t.effects[1], t.effects[2], t.effects[3];
      assert t.effects == [e0] + [e1] + [e2] + [e3];
      CountSnoc([e0] + [e1] + [e2], e3, Posts);
      CountSnoc([e0] + [e1], e2, Posts);
      CountSnoc([e0], e1, Posts);
      CountSnoc([], e0, Posts);
      assert [] + [e0] == [e0];
    }
  }

  lemma CountPair<R>(x0: Effect<R>, x1: Effect<R>, k: Kind<R>)
    ensures Count([x0, x1], k) == (if IsKind(x0, k) then 1 else 0) + (if IsKind(x1, k) then 1 else 0)
  {
    CountSnoc([], x0, k);
    CountSnoc([x0], x1, k);
    assert [] + [x0] == [x0];
    assert [x0] + [x1] == [x0, x1];
  }

  /** The flag is lowered in its own step, after the queue was drained. A
      401 that arrives in between is queued behind an exchange that has
      already released its waiters; after the `finally` step the client is
      idle with that waiter still queued, and only the next cycle's success
      releases it. */
  lemma LateWaiterOutlivesCycle<R>(store: map<string, string>, a: R, b: R, c: R, t2: string, r2: string,
                                    t3: string, r3: string)
    returns (t: State<R>)
    requires a != b
    ensures Run(Init(store), [ResponseError(a, Some(Unauthorized), false), RefreshOk(t2, r2),
                              ResponseError(b, Some(Unauthorized), false), Settle]) == Some(t)
    ensures !t.refreshing && t.queue == [b]
    ensures Count(t.effects, ResolvesOf(b)) == 0 && Count(t.effects, ResubmitsOf(b)) == 0
    ensures Count(t.effects, RejectsOf(b)) == 0
    ensures Step(Step(t, ResponseError(c, Some(Unauthorized), false)), RefreshOk(t3, r3)).effects ==
      t.effects + [RefreshPost(Some(r2)), Resolved(b, t3), Resubmit(c, Bearer(t3)), Resubmit(b, Bearer(t3))]
  {
    t := LateWaiterFirstCycle(store, a, b, t2, r2);
    var post, replay := RefreshPost(Lookup(store, RefreshTokenKey)), Resubmit(a, Bearer(t2));
    CountPair(post, replay, ResolvesOf(b));
    CountPair(post, replay, ResubmitsOf(b));
    CountPair(post, replay, RejectsOf(b));
    LateWaiterReleasedNextCycle(t, b, c, t3, r3);
  }

  /** The first cycle of the run above: A's exchange succeeds, B's 401
      arrives before the `finally` step and is queued. */
  lemma LateWaiterFirstCycle<R>(store: map<string, string>, a: R, b: R, t2: string, r2: string)
    returns (t: State<R>)
    ensures Run(Init(store), [ResponseError(a, Some(Unauthorized), false), RefreshOk(t2, r2),
                              ResponseError(b, Some(Unauthorized), false), Settle]) == Some(t)
    ensures !t.refreshing && t.queue == [b] && Lookup(t.store, RefreshTokenKey) == Some(r2)
    ensures t.effects == [RefreshPost(Lookup(store, RefreshTokenKey)), Resubmit(a, Bearer(t2))]
  {
    var s0: State<R> := Init(store);
    var e1, e2, e3, e4 := ResponseError(a, Some(Unauthorized), false), RefreshOk(t2, r2),
                          ResponseError(b, Some(Unauthorized), false), Settle;
    var s1 := Step(s0, e1);
    var s2 := Step(s1, e2);
    assert Released(s1.queue, Resolve(t2)) == [] && Replays(s1.queue, t2) == [];
    assert s2.effects == s1.effects + [Resubmit(a, Bearer(t2))];
    var s3 := Step(s2, e3);
    t := Step(s3, e4);
    RunCons(s3, e4, []);
    RunCons(s2, e3, [e4]);
    RunCons(s1, e2, [e3, e4]);
    RunCons(s0, e1, [e2, e3, e4]);
    assert [e1] + [e2, e3, e4] == [e1, e2, e3, e4];
    assert [e2] + [e3, e4] == [e2, e3, e4];
    assert [e3] + [e4] == [e3, e4];
  }

  /** An idle client with one stale waiter: the next qualifying 401 starts
      an exchange, and its success resolves the stale waiter along with
      the new cycle's own request. */
  lemma LateWaiterReleasedNextCycle<R>(t: State<R>, b: R, c: R, t3: string, r3: string)
    requires !t.refreshing && t.queue == [b]
    ensures Step(Step(t, ResponseError(c, Some(Unauthorized), false)), RefreshOk(t3, r3)).effects ==
      t.effects + [RefreshPost(Lookup(t.store, RefreshTokenKey)), Resolved(b, t3),
                   Resubmit(c, Bearer(t3)), Resubmit(b, Bearer(t3))]
  {
  }
}
