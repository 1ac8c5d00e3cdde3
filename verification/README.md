# Token-refresh coordinator of the finance-control front end

This project models the HTTP client of the single-page app in `src/services/api.js`. It covers the two interceptors and the coordinator that sits between them. The coordinator renews an expired access token once and holds the other failing requests until that renewal settles. It uses two pieces of module state: the flag `isRefreshing` and the waiter list `failedQueue`.

The asynchronous program is modelled as a series of discrete events. Each event makes one synchronous change:

- a response error arrives, with its HTTP status (or none) and the request's `_retry` flag;
- the refresh exchange succeeds with a new token pair;
- the refresh exchange fails with an error;
- the `finally` step of the exchange lowers the flag. This is a separate event, so the model can show what happens to a 401 that arrives after the queue has been drained but before the flag is lowered.

The credential store (`localStorage`, with its writes and its clearing) and the instance's default headers are part of the state. Everything else the client does goes into an effect log, in order. That covers the refresh POST, the call of a waiter's resolve function with the new token, the resubmission of a request (with the `Authorization` header it carries), the call of a promise's reject function, and the navigation to `/`.

- `coordinator.dfy`, module `Coordinator`: the state, the events, the transition function `Step`, and runs of events (`Run`). It also holds the request interceptor as `WithAuth`, the interceptor's branch choice as `RouteOf`, `processQueue`'s effects as `Released`, and the resolved waiters' continuations as `Replays`.
- `properties.dfy`, module `CoordinatorProperties`: what the coordinator promises, proved about `Step` and `Run`.
- `api.dfy`, module `Api`: the imperative form of the source.
  - `Request` is a configuration object whose `headers` and `retry` fields are updated in place.
  - `Client` holds `isRefreshing`, `failedQueue`, the in-flight exchange, the credential store (a `map<string,string>`), the instance's default headers, and the effect log.
  - `OnResponseError`, `RefreshSucceeded`, `RefreshFailed` and `Settle` each ensure `Abs() == Step(old(Abs()), event)`, and the constructor ensures `Abs() == Init(store)`. So every lemma in `CoordinatorProperties` applies to the class.
  - `ProcessQueue` is the `forEach` loop of `processQueue`, and `ResumeWaiters` runs the resolved waiters' continuations. Both are `while` loops, and each ensures the log it appends (`Released`, `Replays`).

## Details of the code that the model keeps

- **`_retry` is set late.** It is set only on the branch that starts an exchange (`src/services/api.js:58`), after the `isRefreshing` test. A request that waited in the queue is never marked. If its replay gets another 401, it starts a new exchange (`QueuedReplayStartsNewCycle`). The request that started the first exchange is marked, so its second 401 is rejected unchanged.
- **Order on success.** `processQueue` (line 76) only calls each waiter's resolve function. The waiter's continuation (lines 50-53), which writes the new token into its request's header and resubmits it, runs later, after the success callback has returned. So the original request is resubmitted first (line 79), and the waiters' requests follow in queue order. All of this happens before the `finally` step. The log lists the resolutions, then the original resubmission, then the waiters' resubmissions (`RefreshOkReleasesAll`, `ScenarioSuccess`).
- **The flag is lowered last.** It is lowered in the `finally` step (lines 88-90), after the queue has been drained. A 401 that arrives between the two steps is queued behind an exchange that has already released its waiters. The client then goes idle with that waiter still queued, and only the next cycle's drain releases it (`LateWaiterOutlivesCycle`). So "waiters exist only while refreshing" is not an invariant of every run of this model. With the runtime's real scheduling, the `finally` callback runs right after the settlement callbacks, so no response lands in that window. For the runs where each settlement is followed at once by the `finally` step, the invariant is proved (`WaitersOnlyWhileRefreshing`).
- **The default header survives a failure.** When the exchange fails, the credential store is cleared but the instance's default `Authorization` header is not (`RefreshFailRejectsAll`: `t.common == s.common`).

## Model

| member | source | states |
|---|---|---|
| `Coordinator.WithAuth` | src/services/api.js:28-34 | With a non-empty stored `accessToken`, the `Authorization` header becomes `Bearer <token>` and every other header is kept. With the token absent or empty, the headers are unchanged. |
| `Api.Client.AttachAuth` | src/services/api.js:28-34 | The request interceptor updates the config's headers in place to `WithAuth` of the store. It leaves `_retry` alone. |
| `Coordinator.RouteOf` | src/services/api.js:43-46 | An error enters the refresh path if and only if its status is 401 and the request is not marked retried. Such an error is queued if and only if a refresh is under way, and otherwise starts an exchange. |
| `CoordinatorProperties.PassThroughChangesNothing` | src/services/api.js:94-95 | Any other error (other status, no response, already retried) is rejected unchanged, and no other part of the state changes. |
| `CoordinatorProperties.QueuedWhileRefreshing` | src/services/api.js:46-49 | While refreshing, a qualifying 401 appends exactly one waiter at the end of the queue. It sends no POST, sets no retry mark, and leaves the flag, store and headers as they were. |
| `CoordinatorProperties.StartsOneExchange` | src/services/api.js:57-65 | While idle, a qualifying 401 marks the request retried and raises the flag. It records that request as the exchange's origin and appends exactly one POST carrying the stored refresh token. |
| `Coordinator.ReleaseOf` | src/services/api.js:18-22 | One waiter is released by calling its resolve function with the token if and only if the outcome is a success; otherwise its reject function is called with the error. The effect names that waiter's request. |
| `Coordinator.Released` | src/services/api.js:16-25 | `processQueue` produces exactly one effect per waiter, in queue order, each the release of that waiter with the common outcome. |
| `CoordinatorProperties.ReleasedCounts` | src/services/api.js:16-25 | Each queued request is resolved on success, or rejected on failure, exactly as often as it appears in the queue. Releasing the queue resubmits nothing and sends no POST and no navigation. |
| `Api.Client.ProcessQueue` | src/services/api.js:16-25 | The loop appends `Released(queue, outcome)` to the log and leaves the queue empty. It touches no request, and nothing else changes. |
| `Coordinator.Replays` | src/services/api.js:50-53 | The resolved waiters' continuations produce exactly one resubmission per waiter, in queue order, each carrying `Bearer <token>`. |
| `CoordinatorProperties.ReplaysCounts` | src/services/api.js:50-53 | The continuations resubmit each queued request exactly as often as it appears in the queue, and do nothing else. |
| `Api.Client.ResumeWaiters` | src/services/api.js:50-53 | The loop sets each waiter's `Authorization` header to `Bearer <token>` and appends `Replays(waiters, token)` to the log. It leaves `_retry` and the rest of the client unchanged. |
| `CoordinatorProperties.RefreshOkReleasesAll` | src/services/api.js:50-80 | On success both tokens are stored, other keys are kept, and the default header becomes `Bearer <access>`. The log gains each waiter's resolution with the new token, in queue order, then the original request's resubmission, then each waiter's resubmission, in queue order. The queue is emptied and the flag is left raised. |
| `CoordinatorProperties.RefreshOkCounts` | src/services/api.js:50-80 | On success each request is resolved once per time it waited. It is resubmitted once per time it waited, plus once if it started the exchange. There are no rejections, no POST and no navigation. |
| `Api.Client.RefreshSucceeded` | src/services/api.js:50-80 | The class takes the `Step` for a successful refresh, in the source's order: store, default header, original header, `processQueue`, the original resubmission, then the waiters' continuations. The original request's header and every waiter's header become `Bearer <access>`. |
| `CoordinatorProperties.RefreshFailRejectsAll` | src/services/api.js:81-87 | On failure every waiter is rejected with the refresh error, in queue order. Then comes one navigation to `/`, then the original request's rejection with the same error. The store is emptied and the default header is left as it was. |
| `CoordinatorProperties.RefreshFailCounts` | src/services/api.js:81-87 | On failure each request is rejected once per time it waited, plus once if it started the exchange. None is resolved or resubmitted, no POST is sent, and the client navigates exactly once. |
| `Api.Client.RefreshFailed` | src/services/api.js:81-87 | The class takes the `Step` for a failed refresh, and the waiters' requests are not modified. |
| `CoordinatorProperties.SettleReopens` | src/services/api.js:88-90 | The `finally` step lowers the flag and changes nothing else. The next qualifying 401 then starts a new exchange with one more POST. |
| `Api.Client.Settle` | src/services/api.js:88-90 | The class takes the `Step` for the `finally` step. |
| `Api.Client.OnResponseError` | src/services/api.js:39-96 | The response-error interceptor takes the branch `RouteOf` chooses and the `Step` for that error. It sets `_retry` only when it starts an exchange and never touches the request's headers. |
| `Api.Client.constructor` | src/services/api.js:12-13 | A new client starts idle, with an empty queue, no exchange and an empty log. |
| `Coordinator.Init` | src/services/api.js:12-13 | The module starts with the flag down, an empty queue, no exchange, nothing marked and an empty log, and it keeps the invariant. |
| `Coordinator.Enabled` | src/services/api.js:61-90 | An exchange settles only while one is in flight, hence (under the invariant) only while the flag is raised. The `finally` step runs only while the flag is raised and after the exchange has settled. |
| `Coordinator.Step` | src/services/api.js:43-90 | Every event keeps the invariant: an exchange is in flight only while the flag is raised, and its request is marked retried. The log only grows at its end, and a request once marked retried stays marked. |
| `CoordinatorProperties.OnePostPerCycle` | src/services/api.js:43-65 | Within one cycle, any number of response errors sends at most one refresh POST. It sends exactly one when the flag was down and some error qualifies, and none otherwise. |
| `CoordinatorProperties.PostsMatchCycles` | src/services/api.js:57-90 | Over any run of events, the number of POSTs grows in step with the `finally` steps: one exchange per cycle, never two. |
| `CoordinatorProperties.PromptRunKeepsWaiters` | src/services/api.js:46-90 | Over any run in which each settlement is followed at once by the `finally` step, starting from a state where it holds, a waiter is queued only while the flag is raised and an exchange is in flight. |
| `CoordinatorProperties.WaitersOnlyWhileRefreshing` | src/services/api.js:12-90 | From a fresh client, over any such run, `failedQueue` is non-empty only while `isRefreshing` is true. |
| `CoordinatorProperties.ScenarioSuccess` | src/services/api.js:43-90 | A and B both get a 401 and the exchange returns T2. There is one POST, B's waiter is resolved with T2, A is resubmitted with T2, then B is, and the flag ends down with the new pair stored. |
| `CoordinatorProperties.ScenarioFailure` | src/services/api.js:81-90 | C gets a 401 and the exchange fails. There is one POST and one navigation, C is rejected with the refresh error, the store is empty and the flag ends down. |
| `CoordinatorProperties.QueuedReplayStartsNewCycle` | src/services/api.js:43-59 | A request that waited in the queue is never marked retried, so its replay's 401 starts a second exchange. The request that started the first exchange has its second 401 rejected unchanged. |
| `CoordinatorProperties.LateWaiterOutlivesCycle` | src/services/api.js:76-90 | A 401 between the drain and the `finally` step stays queued after the flag is lowered, with no effect recorded for it. The next cycle's success resolves it and resubmits it after that cycle's own request. |

## Left out

- The HTTP transport is not modelled: `axios.create` with its base URL and `Content-Type` header, the real network round trips, and the merging of default headers into outgoing requests. A resubmission is recorded as an effect. Its result, which the source hands back to the caller, is not modelled.
- Promise and microtask scheduling is not modelled as such. The order it gives within one settlement is built into `Step` (resolutions, then the original resubmission, then the waiters' continuations). Events are discrete and happen one after another, and an event that cannot happen in a given state (a settlement with no exchange in flight) is refused. The waiter's `.catch((err) => Promise.reject(err))` passes the error on unchanged, so it is modelled as the rejection itself.
- `localStorage` is a `map<string,string>` and `clear()` empties it. `router.push('/')` is a `Redirect("/")` effect.
- The refresh response body is taken to hold two strings. The model leaves out a body without tokens, which would store the text "undefined", and a `null` body, which makes the success callback throw and so takes the failure path.
- `processQueue(error, token)` is modelled as one outcome: all waiters resolved with a token, or all rejected with an error. Both call sites pass `(null, token)` or `(error, null)` with an error object, so the other combinations never occur.
- A refresh that never settles has no timeout or cancellation in the source, so the model has none.
- `src/main.js`, `src/router/index.js`, `src/composables/useBreakpoint.js` and `tailwind.config.js` are not part of this model. They hold UI setup, the route table, viewport detection and styling.
