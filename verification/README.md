# shared-lib-client auth core in Dafny

This project models the authentication core of `shared-lib-client`, a client library shared by
the frontend modules of a micro-frontend web application, and proves properties of the model.

- **Auth interceptor** (`src/interceptors/auth.interceptor.ts`). It attaches `Authorization: Bearer <token>` to every
  request whose URL does not contain an excluded pattern. It classifies authentication failures.
  It coordinates one token-refresh cycle at a time across the whole process: the first failing
  request raises `isRefreshing`, resets the single-slot subject and dispatches
  `AUTH_TOKEN_EXPIRED`. Later failures wait on the same subject. The host then calls
  `notifyTokenRefreshed(token)`, which replays every waiter with the new token, or
  `cancelTokenRefresh()`, which drops every waiter.
  The model is a pure transition system over an explicit `State` record (`interceptor.dfy`).
  Whole runs of host and network actions are in `refresh_protocol.dfy`. The exclusion list is in
  `exclusion.dfy`. `includes` and `trim` are in `strings.dfy`.
- **`StorageUtil`** (`storage.dfy`): four fixed keys over a key/value store, modelled as a `map<string, string>`.
  The getters are read-through lookups. Their behaviour is stated by the setter, remove and clear contracts.
- **Route guards** (`auth_guards.dfy`, `no_auth_guards.dfy`): allow or deny on "a stored token with a
  non-whitespace character", plus the redirect target.
- **`GlobalStoreService`** (`global_store.dfy`): user, loading flag and theme, with setters and a partial reset.

Some modelling choices:

- `State` has two fields beyond the source's own variables:
  - `replaying`: released initiators and joiners whose replayed request is still in flight. The `finalize` handler runs when such a replay ends.
  - `cycle`: the number of refresh cycles opened so far. Each waiter is tagged with its cycle.
- The exclusion decision is taken when the request is sent and travels with it (`Sent.excluded`), as
  `isExcludedRequest` does in the source.
- `configureAuthInterceptor` only ever replaces the list. It never merges into it.
- `notifyTokenRefreshed("CANCEL_REFRESH_TOKEN")` is indistinguishable from `cancelTokenRefresh()`.
  The model keeps this: `Cancel` is `Notify` with the marker.
- A missing or empty stored token is sent as `Bearer ` followed by a single space (`|| " "`).
- An invalid refresh token forces logout even on an excluded request, because that test runs first.
- `RefreshProtocol.Step` uses the corrected `finalize` (see Findings). `RefreshProtocol.StepAsWritten` keeps the source's.

## Model

| member | source | states |
|---|---|---|
| `Strings.IncludesFrom` | src/interceptors/auth.interceptor.ts:90 | the scan from offset `i` answers true iff `pattern` occurs at some offset at or after `i` |
| `Strings.Includes` | src/interceptors/auth.interceptor.ts:90 | `url.includes(pattern)` holds iff `pattern` occurs in `url` at some offset |
| `Strings.EmptyPatternIncluded` | src/interceptors/auth.interceptor.ts:90 | the empty pattern is included in every string |
| `Strings.TrimStart` | src/guards/auth.guard.ts:12 | the result is a suffix of the input, everything removed is whitespace, and it does not start with whitespace |
| `Strings.TrimEnd` | src/guards/auth.guard.ts:12 | the result is a prefix of the input, everything removed is whitespace, and it does not end with whitespace |
| `Strings.Trim` | src/guards/auth.guard.ts:12 | `trim()` removes exactly the leading and trailing whitespace: the result is a slice of the input, everything outside it is whitespace, and it neither starts nor ends with whitespace; it is non-empty iff the input has a non-whitespace character |
| `Strings.TrimEndOfSuffix` | src/guards/auth.guard.ts:12 | trimming the end of the start-trimmed string leaves exactly the slice between the leading and the trailing whitespace of the original |
| `Storage.SetItem` | src/utils/storage.util.ts:13 | after `setItem(k, v)`, key `k` reads `v` and every other key reads as before |
| `Storage.RemoveItem` | src/utils/storage.util.ts:26 | after `removeItem(k)`, key `k` reads null and every other key reads as before |
| `Storage.SetDeviceId` | src/utils/storage.util.ts:12-14 | the device id reads back as the value set; the other three fields are unchanged |
| `Storage.SetAccessToken` | src/utils/storage.util.ts:21-23 | the access token reads back as the value set; the other three fields are unchanged |
| `Storage.RemoveAccessToken` | src/utils/storage.util.ts:25-27 | the access token reads null; the other three fields are unchanged |
| `Storage.SetRefreshToken` | src/utils/storage.util.ts:34-36 | the refresh token reads back as the value set; the other three fields are unchanged |
| `Storage.RemoveRefreshToken` | src/utils/storage.util.ts:38-40 | the refresh token reads null; the other three fields are unchanged |
| `Storage.SetUserId` | src/utils/storage.util.ts:47-49 | the user id reads back as the value set; the other three fields are unchanged |
| `Storage.RemoveUserId` | src/utils/storage.util.ts:51-53 | the user id reads null; the other three fields are unchanged |
| `Storage.ClearAuthData` | src/utils/storage.util.ts:56-60 | the three sequential removals equal deleting exactly the three auth keys; the device id survives |
| `Storage.ClearAll` | src/utils/storage.util.ts:63-68 | the four removals equal deleting exactly the four known keys; every getter then reads null |
| `Storage.KeysDistinct` | src/utils/storage.util.ts:2-5 | the four key constants are pairwise distinct |
| `Storage.ClearAllIdempotent` | src/utils/storage.util.ts:63-68 | clearing everything twice equals clearing once |
| `Storage.ClearAllAfterClearAuthData` | src/utils/storage.util.ts:56-68 | `clearAll` after `clearAuthData` equals `clearAll` alone |
| `AuthGuards.IsLoggedIn` | src/guards/auth.guard.ts:12 | `token && token.trim().length > 0` holds iff a token is stored and it has a non-whitespace character |
| `AuthGuards.AuthGuard` | src/guards/auth.guard.ts:8-19 | allows iff a session exists; when it allows it navigates nowhere; when it denies it navigates to `/auth` |
| `AuthGuards.CreateAuthGuard` | src/guards/auth.guard.ts:25-39 | the same decision, and a denial navigates to the given redirect (default `/auth`) |
| `AuthGuards.CreateAuthGuardSameDecision` | src/guards/auth.guard.ts:25-39 | a custom guard allows exactly when the default guard does |
| `AuthGuards.CreateAuthGuardDefault` | src/guards/auth.guard.ts:26 | the factory with no argument is the default guard |
| `NoAuthGuards.NoAuthGuard` | src/guards/no-auth.guard.ts:8-18 | allows iff no session exists; when it denies it navigates to `/homePage`; when it allows it navigates nowhere |
| `NoAuthGuards.CreateNoAuthGuard` | src/guards/no-auth.guard.ts:24-38 | the same decision, and a denial navigates to the given redirect (default `/homePage`) |
| `NoAuthGuards.NoAuthGuardComplementsAuthGuard` | src/guards/no-auth.guard.ts:12-17 | on every store each no-auth guard decides the negation of the matching auth guard |
| `NoAuthGuards.ExactlyOneGuardNavigates` | src/guards/no-auth.guard.ts:12-17 | on every store exactly one of `authGuard` and `noAuthGuard` navigates |
| `NoAuthGuards.CreateNoAuthGuardDefault` | src/guards/no-auth.guard.ts:25 | the factory with no argument is the default guard |
| `GlobalStore.Initial` | src/store/global-store.service.ts:16-18 | the initial state is no user, not loading, light theme |
| `GlobalStore.SetUser` | src/store/global-store.service.ts:23-25 | updates the user only |
| `GlobalStore.SetLoading` | src/store/global-store.service.ts:30-32 | updates the loading flag only |
| `GlobalStore.SetTheme` | src/store/global-store.service.ts:37-39 | updates the theme only |
| `GlobalStore.ClearState` | src/store/global-store.service.ts:44-47 | clears the user and the loading flag and keeps the theme |
| `GlobalStore.ClearStateIdempotent` | src/store/global-store.service.ts:44-47 | a second reset changes nothing |
| `GlobalStore.ClearStateForgetsSession` | src/store/global-store.service.ts:23-47 | after a reset, the user and loading values set before it leave no trace |
| `GlobalStore.ClearStateOfInitial` | src/store/global-store.service.ts:16-47 | resetting the initial state gives the initial state |
| `GlobalStore.SettersCommute` | src/store/global-store.service.ts:23-39 | setters of different fields commute |
| `Exclusion.Configure` | src/interceptors/auth.interceptor.ts:65-69 | a present, non-empty list replaces the current one; an absent or empty list leaves it unchanged |
| `Exclusion.Fresh` | src/interceptors/auth.interceptor.ts:75 | the filter keeps only arguments absent from the current list, and every such argument appears in the result |
| `Exclusion.FreshCounts` | src/interceptors/auth.interceptor.ts:75 | the filter keeps each argument absent from the current list exactly as many times as the arguments hold it, and drops every present one |
| `Exclusion.FreshAppend` | src/interceptors/auth.interceptor.ts:75 | filtering distributes over concatenation, so the arguments keep their order |
| `Exclusion.AddExcluded` | src/interceptors/auth.interceptor.ts:74-77 | the old list is a prefix; the appended tail is exactly the filtered arguments, in order, each new argument as often as it was given; the result holds exactly the old patterns and the arguments |
| `Exclusion.FreshOfCovered` | src/interceptors/auth.interceptor.ts:75 | when every argument is already present, nothing is appended |
| `Exclusion.AddExcludedIdempotent` | src/interceptors/auth.interceptor.ts:74-77 | adding the same arguments twice equals adding them once |
| `Exclusion.AddPresentIsNoop` | src/interceptors/auth.interceptor.ts:74-77 | adding a pattern already present leaves the list unchanged |
| `Exclusion.AddKeepsRepeatsInArgument` | src/interceptors/auth.interceptor.ts:75-76 | a pattern not yet in the list appears in the result exactly as many times as in the argument: repeats inside one argument are not removed |
| `Exclusion.AddKeepsRepeatsExample` | src/interceptors/auth.interceptor.ts:75-76 | adding `["/login", "/login"]` to an empty list gives both copies |
| `Exclusion.Snapshot` | src/interceptors/auth.interceptor.ts:82-84 | returns a list equal, element by element, to the current one; the state is only read |
| `Exclusion.IsExcluded` | src/interceptors/auth.interceptor.ts:89-91 | true iff some pattern of the list is a substring of the URL; with an empty list nothing is excluded |
| `Exclusion.EmptyPatternExcludesAll` | src/interceptors/auth.interceptor.ts:89-91 | an empty pattern excludes every URL |
| `Exclusion.AddExcludedMonotone` | src/interceptors/auth.interceptor.ts:74-91 | adding patterns never un-excludes a URL |
| `AuthInterceptor.EventNameDistinguishes` | src/interceptors/auth.interceptor.ts:161 | the `AUTH_TOKEN_EXPIRED` event dispatched here and the `FORCE_LOGOUT` event of line 127 carry different type strings, so the host can tell them apart |
| `AuthInterceptor.Init` | src/interceptors/auth.interceptor.ts:23-42 | at module load the flag is down, the subject holds null and the list is empty |
| `AuthInterceptor.WithBearer` | src/interceptors/auth.interceptor.ts:112-116 | the clone carries `Authorization: Bearer <token>` and keeps the URL and every other header |
| `AuthInterceptor.Credential` | src/interceptors/auth.interceptor.ts:105 | the stored token when it is present and non-empty, otherwise a single space; never empty |
| `AuthInterceptor.Intercept` | src/interceptors/auth.interceptor.ts:103-120 | an excluded request goes out unmodified; any other one gets `Bearer <credential>` over its own headers, same URL |
| `AuthInterceptor.Classify` | src/interceptors/auth.interceptor.ts:122-139 | force logout iff the code is `REFRESH_TOKEN_INVALID`; refresh iff not that code, the status is 401 or the code is `ACCESS_TOKEN_EXPIRED`, and the request is not excluded; otherwise rethrow; both rethrowing outcomes carry the original error |
| `AuthInterceptor.Handle401` | src/interceptors/auth.interceptor.ts:152-201 | with the flag down: raise it, reset the slot, dispatch one `AUTH_TOKEN_EXPIRED`, open a cycle and wait as its initiator; with it up: wait as a joiner and dispatch nothing |
| `AuthInterceptor.OnError` | src/interceptors/auth.interceptor.ts:121-140 | force logout appends `FORCE_LOGOUT` and changes nothing else; rethrow changes nothing; only an enqueue enters the refresh sequence; an excluded request never waits or opens a cycle |
| `AuthInterceptor.ReleaseAll` | src/interceptors/auth.interceptor.ts:164-199 | every waiter is released once, in order: dropped with the cancellation error on the marker, otherwise replayed once with `Bearer <token>` |
| `AuthInterceptor.Notify` | src/interceptors/auth.interceptor.ts:208-211 | the slot holds the token, the flag is down, no request waits, each former waiter is replayed with `Bearer <token>` (or dropped on the marker), and the log is unchanged |
| `AuthInterceptor.Cancel` | src/interceptors/auth.interceptor.ts:218-221 | the slot holds the marker, the flag is down, every former waiter is dropped and none is replayed; the exclusion list, the event log, the cycle counter and the in-flight replays are unchanged |
| `AuthInterceptor.FinalizeAsWritten` | src/interceptors/auth.interceptor.ts:179-181 | lowers the flag whatever cycle is open and changes nothing else |
| `AuthInterceptor.Finalize` | src/interceptors/auth.interceptor.ts:179-181 | lowers the flag only when the terminating initiator's cycle is the current one |
| `AuthInterceptor.ReplayTerminatesAsWritten` | src/interceptors/auth.interceptor.ts:173-181 | the replay leaves `replaying`; the waiters, the log, the slot, the cycle counter and the exclusion list are unchanged; an initiator's termination lowers the flag, and a joiner's leaves it as it was |
| `AuthInterceptor.ReplayTerminates` | src/interceptors/auth.interceptor.ts:173-181 | the same, but the flag survives the termination of an initiator from an older cycle |
| `AuthInterceptor.ReplayOutcomeIrrelevant` | src/interceptors/auth.interceptor.ts:173-177 | a failed replay leaves the same state as a successful one; this holds by construction, since the outcome goes only to the caller and is never classified again |
| `RefreshProtocol.InitSatisfiesInv` | src/interceptors/auth.interceptor.ts:23-24 | the initial state satisfies the protocol invariant |
| `RefreshProtocol.StepPreservesInv` | src/interceptors/auth.interceptor.ts:120-221 | (corrected `finalize`) every action preserves the invariant: flag up iff requests wait, slot null while up, one initiator first in the current cycle, one `AUTH_TOKEN_EXPIRED` per cycle |
| `RefreshProtocol.RunPreservesInv` | src/interceptors/auth.interceptor.ts:120-221 | (corrected `finalize`) every run from an invariant state ends in one |
| `RefreshProtocol.ReachableSatisfiesInv` | src/interceptors/auth.interceptor.ts:23-221 | (corrected `finalize`) every state reachable from module load satisfies the invariant |
| `RefreshProtocol.StepOpensAtMostOneCycle` | src/interceptors/auth.interceptor.ts:156-161 | (corrected `finalize`) an action other than notify or cancel never lowers the flag, and it dispatches `AUTH_TOKEN_EXPIRED` exactly when it raises the flag |
| `RefreshProtocol.OneExpiryPerCycle` | src/interceptors/auth.interceptor.ts:152-201 | (corrected `finalize`) any run without notify or cancel dispatches `AUTH_TOKEN_EXPIRED` once if it opened a cycle and never otherwise |
| `RefreshProtocol.NoReplayEndedRunsAgree` | src/interceptors/auth.interceptor.ts:173-181 | a run with no replay ending is the same under the handler as written and the corrected one |
| `RefreshProtocol.FailuresJoinOneCycle` | src/interceptors/auth.interceptor.ts:183-200 | refresh-triggering failures, each with its own error, of non-excluded requests are appended in order as waiters, after the existing ones |
| `RefreshProtocol.ConcurrentFailuresShareOneRefresh` | src/interceptors/auth.interceptor.ts:152-221 | with `finalize` as written (and equally with the corrected one), N refresh-triggering failures from idle, each with its own error, give one `AUTH_TOKEN_EXPIRED` and N waiters; a notify then replays all N with `Bearer <token>`, and a cancel drops all N |
| `RefreshProtocol.ReleasedExactlyOnce` | src/interceptors/auth.interceptor.ts:164-166 | a second notify or cancel releases nobody |
| `RefreshProtocol.ExcludedNeverWaits` | src/interceptors/auth.interceptor.ts:136-139 | a failure of an excluded request never waits, never moves the flag and never dispatches `AUTH_TOKEN_EXPIRED` |
| `RefreshProtocol.StaleFinalizeReopensCycle` | src/interceptors/auth.interceptor.ts:179-181 | with `finalize` as written, a 401, then an older initiator's replay ending, then another 401 dispatch `AUTH_TOKEN_EXPIRED` twice with no notify or cancel, and the invariant breaks |
| `RefreshProtocol.CorrectedFinalizeKeepsCycle` | src/interceptors/auth.interceptor.ts:179-181 | with the corrected handler the same actions dispatch it once, and both requests wait in one cycle |
| `RefreshProtocol.CorrectedFinalizeNeverChangesFlag` | src/interceptors/auth.interceptor.ts:179-181 | in a reachable state the corrected handler never changes the flag |
| `RefreshProtocol.StaleFinalizeReachable` | src/interceptors/auth.interceptor.ts:156-181 | with `finalize` as written, one 401 then a notify reaches a state with the flag down and an initiator replay in flight |
| `RefreshProtocol.OrdersCarriesStoredToken` | src/interceptors/auth.interceptor.ts:105-117 | a request to `/orders` with stored token `abc` and no exclusions carries exactly `Authorization: Bearer abc` |
| `RefreshProtocol.ExcludedLoginRethrown` | src/interceptors/auth.interceptor.ts:131-139 | with `/login` excluded, `/auth/login` goes out unmodified, and its 401 is rethrown with no state change |

## Findings

| source | as written | input that shows it | evidently intended | confidence | as-written member | corrected member |
|---|---|---|---|---|---|---|
| src/interceptors/auth.interceptor.ts:179-181 | an initiator's `finalize` sets `isRefreshing = false` unconditionally, even when another refresh cycle has opened since its own one ended | request A fails with 401 (cycle 1); the host calls `notifyTokenRefreshed("T1")` and A's replay goes out; request B, sent earlier with the old token, fails with 401 and opens cycle 2; A's replay completes, so `finalize` lowers the flag; request C fails with 401 and dispatches a second `AUTH_TOKEN_EXPIRED` in cycle 2 | a cycle's flag stays up until that cycle is notified or cancelled; only the current cycle's initiator may lower it | medium; not executed | `RefreshProtocol.StaleFinalizeReopensCycle` | `RefreshProtocol.CorrectedFinalizeKeepsCycle` |

`AuthInterceptor.FinalizeAsWritten` and `AuthInterceptor.ReplayTerminatesAsWritten` model the handler as
written, and `RefreshProtocol.StepAsWritten` runs them. `AuthInterceptor.Finalize` and
`AuthInterceptor.ReplayTerminates` are the corrected definitions, and `RefreshProtocol.Step` runs them.
The invariant lemmas are about the corrected handler, since the one as written breaks the invariant.
`RefreshProtocol.NoReplayEndedRunsAgree` shows that the two handlers agree on every run in which no
replay ends, so `RefreshProtocol.ConcurrentFailuresShareOneRefresh` holds of the source as written.
`RefreshProtocol.StaleFinalizeReachable` shows that the starting state of the counterexample is
reachable under the handler as written. With unsubscription left out (below), the
corrected handler never changes the flag in a reachable state (`RefreshProtocol.CorrectedFinalizeNeverChangesFlag`),
because notify and cancel already lower it.

## Left out

- Unsubscription: the model has no step in which a caller abandons a waiting request. In the source that would run the initiator's `finalize` while its cycle is still open.
- Replays that complete synchronously inside `notifyTokenRefreshed`: a replay always ends in a later `ReplayEnded` step.
- Real rxjs scheduling and concurrency: interleavings are arbitrary sequences of `RefreshProtocol.Action`.
- `BehaviorSubject` semantics beyond the single slot: the model keeps only the slot value and the subscribers.
- The HTTP transport (`next`): requests handed to it are `Sent` values, and its results are the `HttpError` and `ReplayOutcome` parameters of the actions.
- Successful responses pass through unchanged and touch no state, so they are not a step.
- `window.dispatchEvent` is an appended event log (`State.emitted`), and `localStorage` is a `map<string, string>`.
- Angular `HttpHeaders` names are case-insensitive; the model's header map is keyed by exact string.
- `router.navigate` is the `navigateTo` field of a guard result; its returned promise is left out.
- Angular `inject` and signals are plain parameters and record fields.
- An error body whose `status.code` is not a string is modelled as an absent code.
- The `UserInfo` index signature holds values of any type; the model keeps string values only.
- Strings are sequences of Unicode scalar values, while JavaScript strings are UTF-16 code units and may hold lone surrogates. `includes` and `trim` agree with the model on well-formed strings.
- `src/services/rest/rest.service.ts` is not part of this model: it wraps the Angular HTTP client and router, and its only logic is URL concatenation and retry timing.
- The compiled `.js` and `.d.ts` files, the interfaces and the re-exports are not part of this model: they declare types or are stale build output.
