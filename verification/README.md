# kratoscarf: verified models of its stateful parts

kratoscarf is a web layer over the Kratos framework. Most of it is wiring; this project models the
parts that keep state of their own or decide something that the wiring depends on, and proves what
holds of them over whole runs.

| file | subject |
|---|---|
| `SessionSpec.dfy` | the session life cycle as a machine over ids: interleaved requests, a clock, cleanup |
| `Sessions.dfy` | Session, MemoryStore, Manager and the middleware's save on shared heap objects, refining that machine |
| `RedisSessions.dfy` | the copying Redis store, on objects and as a machine; its agreement with the in-memory store; which of its writes survive |
| `AuthFlow.dfy` | login, logout and profile of the auth example, with the browsers' cookie jars |
| `AuthInterleaving.dfy` | the same routes with the requests of different clients interleaved step by step |
| `AuthOverlap.dfy` | the same routes when requests for one session overlap: when a logout is final |
| `Jwt.dfy` | token pairs, validation, refresh and revocation over time |
| `Health.dfy` | the concurrent health check: goroutines, mutex, wait group |
| `Pagination.dfy`, `Todos.dfy` | 64-bit page arithmetic; the ordered todo repository and its service |
| `Errors.dfy` | the search for a BizError in an error tree, and the encoded status and body |
| `Routing.dfy` | router scopes over Go slices |
| `Scheduling.dfy` | the scheduler's name table beside the cron engine |

`dafny verify dfyconfig.toml` checks everything.

## How the system is represented

- Instants and durations are integers counting nanoseconds; the clock never goes back. `time.Now()`
  is a parameter, read once per call.
- The session id generator is a parameter that returns non-empty ids never returned before.
- A signed token is the datatype value of its algorithm, key and claims, so signing is injective, and
  a token under the server's key can be presented only after it was issued.
- An object that the Go code updates in place is a class. Its methods are proved to do what a function
  on values says (`ToPool`, `ToMachine`, `Contents`, `ToTable`, `ToRegistry` give the value), and the
  theorems about runs are about those functions.
- Each step of a request is atomic, and steps of different requests and goroutines interleave
  freely. A step is one access to a session field or a store, with two exceptions: `Load` looks the
  session up and resets its two flags, and `Finish` tests the flags and saves. A save that another
  request's load separates from its test is an explicit `Save` step followed by `End`.
- `End` also stands for a request that a panic in its handler unwinds past the session middleware,
  which has no deferred save (auth/session/middleware.go:68-77).
- `requires Valid(m)` and `requires Sound(w)` hold in every reachable state: `ReachableStates` and
  `ReachableIsSound` start from the initial one.

## What turned out to be conditional

- A profile request finds the right user in every run exactly when `maxAge` is below one second or a
  whole number of seconds; otherwise the cookie's truncated Max-Age drops it while the session lives
  (`FractionalMaxAgeForgets`).
- A session out of the store stays out in every continuation exactly when no request in flight holds
  it (`GoneForGoodIff`), and can be loaded again exactly when one does and its expiry has not passed
  (`LoadableAgainIff`); the middleware alone is enough to bring it back (`OverlapResurrects`).
- What Redis holds under a key of a session survives every continuation that leaves that key alone
  exactly when no request in flight has a copy that differs in it (`SavedWriteSurvivesIff`,
  `OverlapLosesAWrite`). The in-memory store needs no such condition (`WriteIsSeen`).
- The two session stores show every request the same, all along a run, exactly when no request writes
  to a session while another holds it, loads one that another holds new or modified, leaves with an
  unsaved write, or loads a session at the very instant of its expiry (`StoresAgreeIff`;
  `DisorderShows` for a single step, `UnsavedWriteSeparates` and `LoadsAgreeOffTheExpiry` for two of
  the conditions). Requests may overlap otherwise.
- A logout is final exactly when the session is untouched at the moment it is destroyed and no login
  that has yet to save holds it (`LogOutIsFinalIff`). A login that starts and ends while the logout
  is being served is enough to undo it (`LogInUndoesLogOut`).
- Revoking a refresh token, at auth/jwt/jwt.go:152 said to prevent replay, does so exactly when
  `RefreshExpiry <= AccessExpiry` (`SingleUseIff`); otherwise a token can be exchanged
  ceil(RefreshExpiry / AccessExpiry) times, and no more (`ExchangeLimit`, `ExchangeLimitIsTight`).
- What is left to a token in any state is exactly ceil(L / AccessExpiry) exchanges, where L > 0 runs
  from the instant it is no longer rejected as revoked to its exp, and none when that is no time at
  all (`ExchangeMaximum`).
- A refresh returns the token just revoked exactly when neither truncated date has moved since its
  issue (`RefreshedIntoItselfIff`, `AccessRefreshedIntoItselfIff`); the same second alone is not
  enough (`SameSecondIsNotEnough`). A token just handed out is good until its exp unless it was
  handed out before and its revocation is still in force (`NewPairIsAcceptedIff`).
- The health report depends on the schedule exactly when two checkers of one name disagree
  (`ScheduleIndependentIff`).
- A page panics exactly when its offset wraps below zero (`PanicIff`, `HugePagePanics`), and repeats
  earlier items when it wraps into the list (`PageIsTileIff`, `HugePageRepeatsFirst`). The first k
  pages tile the list exactly when none of theirs does either (`PagesTileTheListIff`).
- After deleting one of n todos, Create works exactly when the numeral n is free: it was the id
  deleted, or was not in use (`CreateAfterDeleteIff`). In a list numbered 1..n that means deleting
  the last (`CreateAfterFirstDeleteIff`), in others it does not (`NotOnlyTheLast`). A failing Create
  fails until something is deleted (`CreateStaysStuck`).
- docs/router.md:116 says that `Use` does not affect routes registered before it. The registered
  closure reads the router's field when it is dispatched, so it does (`LateUseAppliesIff`).

## Model

| member | source | states |
|---|---|---|
| SessionSpec.ReachableStates | auth/session/session.go:139-162 | under any interleaving and any client cookies, every stored id was drawn from the generator and its session expires maxAge after its creation |
| SessionSpec.RunValid | auth/session/session.go:139-180 | stored ids are minted ids, with the expiry fixed at creation, after every executable schedule |
| SessionSpec.LoadMeans | auth/session/session.go:139-162 | a load leads to the stored session its cookie names, up to and at its expiry, with its values and without its flags, and otherwise to a new, empty one that lives for maxAge |
| SessionSpec.WriteMeans | auth/session/session.go:33-48 | a write changes one key of the session held, marks it modified and changes no other session |
| SessionSpec.StoreMeans | auth/session/middleware.go:68-77 | which ids are stored after a save, a destroy, the middleware's end and a cleanup; no record changes with them |
| SessionSpec.StoredIdsWereMinted | auth/session/session.go:139-162 | a made-up cookie value never becomes a stored id |
| SessionSpec.LifeSpanIsFixed | auth/session/session.go:165-180 | no load, write or save moves a session's creation or expiry, and no run forgets a minted session |
| SessionSpec.StoredEntryPersists | auth/session/memory.go:25-62 | a stored key, present or absent, stays as it is while nobody writes it, destroys the session or lets it expire |
| SessionSpec.WriteIsSeen | auth/session/session.go:33-48 | a value set or deleted on a stored session is what every later load sees, although other loads reset Modified and saves are skipped |
| SessionSpec.DeadStaysDead | auth/session/session.go:183-201 | an unstored id that no request holds is never stored or loaded again, under any interleaving |
| SessionSpec.OnlySavesStore | auth/session/middleware.go:68-77 | an id out of the store comes back only by the save of a request that holds it |
| SessionSpec.DestroyIsFinalIffUnmodified | auth/session/middleware.go:68-77 | a session destroyed by its handler and held by no other request is gone for good if it was left unmodified, and is saved again otherwise |
| SessionSpec.GoneForGoodIff | auth/session/session.go:183-201 | a session out of the store stays out in every continuation if and only if no request in flight holds it |
| SessionSpec.LoadableAgainIff | auth/session/memory.go:25-40 | some continuation loads it again if and only if a request in flight holds it and its expiry has not passed |
| SessionSpec.OverlapResurrects | auth/session/middleware.go:63-77 | from every idle state with a live session, two overlapping requests through the middleware bring a destroyed session back |
| SessionSpec.CleanupIsInvisible | auth/session/memory.go:49-62 | deleting all cleanup firings from any schedule changes no load, value or flag, only which expired entries remain |
| Sessions.Session.Set | auth/session/session.go:33-36 | writes one key and marks the session modified, nothing else |
| Sessions.Session.Delete | auth/session/session.go:45-48 | removes one key and marks the session modified, nothing else |
| Sessions.MemoryStore.Get | auth/session/memory.go:25-33 | hands out the stored object itself, unless absent or strictly past its expiry |
| Sessions.MemoryStore.Cleanup | auth/session/memory.go:49-62 | the deleting loop keeps exactly the entries that are not strictly past their expiry |
| Sessions.Manager.GetSession | auth/session/session.go:139-162 | does what PoolLoad says: a hit resets the flags of the one object of that id, a miss makes a new object; one object per id is kept |
| Sessions.Manager.SaveSession | auth/session/session.go:165-180 | stores the session under its own id and sets the cookie with the truncated Max-Age |
| Sessions.Manager.DestroySession | auth/session/session.go:183-201 | removes the id named by the cookie, if any, and clears the cookie |
| Sessions.Manager.SaveIfTouched | auth/session/middleware.go:71-77 | the middleware's conditional save, with the cookie exactly when it saved |
| Sessions.Server.Do | auth/session/middleware.go:63-77 | one step of a request on shared heap objects is one step of the machine over ids |
| Sessions.Server.Execute | auth/session/middleware.go:52-82 | every schedule of interleaved requests on shared objects ends as the machine says |
| RedisSessions.KeyInjective | contrib/auth/redis/session.go:41-43 | distinct ids have distinct keys |
| RedisSessions.SessionStore.Get | contrib/auth/redis/session.go:45-62 | a new object for every hit, with IsNew and Modified false; an expired leftover is deleted |
| RedisSessions.SessionStore.Save | contrib/auth/redis/session.go:64-74 | the entry lives until the session's expiry; a session already due is deleted instead |
| RedisSessions.RedisManager.GetSession | auth/session/session.go:139-162 | over Redis, every request gets a new object: the decoded session on a hit, a new session on a miss |
| RedisSessions.RedisServer.Execute | auth/session/middleware.go:52-82 | every schedule of interleaved requests over Redis, each on its own object, ends as the machine over copies says |
| RedisSessions.StoresAgreeIff | contrib/auth/redis/session.go:45-78 | from an empty start, with requests overlapping freely and cleanup firing anywhere, every request has the same session in both stores, hit or miss, values and flags, and lookups of sessions nobody holds find the same off the expiry instant, at every moment of a run, if and only if no request writes to a session that another holds, loads one that another holds new or modified, leaves with an unsaved write, or loads a session at its expiry instant |
| RedisSessions.DisorderShows | contrib/auth/redis/session.go:45-78 | each single step of those four kinds makes a difference that a request or a lookup sees at once |
| RedisSessions.AgreeStepIff | contrib/auth/redis/session.go:45-78 | the relation that carries the proof, between pool and entries, is kept by a step if and only if it is none of the four |
| RedisSessions.AgreeWriteIff | auth/session/session.go:33-48 | a write to a session keeps the stores in agreement if and only if no other request holds it |
| RedisSessions.AgreeLeaveIff | auth/session/middleware.go:68-77 | a request that leaves without the middleware's save keeps the stores in agreement if and only if it has nothing unsaved |
| RedisSessions.UnsavedWriteSeparates | auth/session/middleware.go:68-77 | from every idle state in agreement, a write to a live session that is not saved shows in memory and not in Redis |
| RedisSessions.AgreeSave | contrib/auth/redis/session.go:64-74 | a save brings the stores back into agreement, also when the session has expired meanwhile |
| RedisSessions.LoadsAgreeOffTheExpiry | auth/session/memory.go:29 | for a stored id the two loads agree if and only if the clock is not at its expiry |
| RedisSessions.CopyRunValid | contrib/auth/redis/session.go:64-74 | every schedule keeps Redis entries to minted sessions under their own keys, each until its own expiry |
| RedisSessions.RedisReachableStates | contrib/auth/redis/session.go:45-78 | in every reachable state, under any interleaving and cookies, a live Redis entry is a session drawn from the generator, under its own key and until its own expiry |
| RedisSessions.SavedWriteSurvivesIff | contrib/auth/redis/session.go:45-74 | what Redis holds under a key of a live session, a value or its absence, is found in every continuation that leaves it alone if and only if no request in flight has a copy that differs in it |
| RedisSessions.OverlapLosesAWrite | contrib/auth/redis/session.go:64-74 | of two overlapping requests that write different keys of a session, only the last one's write survives in Redis |
| AuthFlow.AuthService.SessionLogin | examples/app/auth-app/internal/service/auth.go:90-111 | on shared objects: refused for an unknown name or another password, with nothing changed; otherwise the session is loaded, written and saved, and its cookie set |
| AuthFlow.LogInMeans | examples/app/auth-app/internal/biz/user.go:36-45 | a login is accepted exactly with the password registered for the name; a refused one changes no session and no jar |
| AuthFlow.LogOutMeans | examples/app/auth-app/internal/service/auth.go:113-122 | a logout takes the live session its cookie names out of the store and out of the jar |
| AuthFlow.ProfilesComeFromLogIns | examples/app/auth-app/internal/service/auth.go:90-141 | in every run a client is shown a user only after it has logged in with that user's password |
| AuthFlow.AuthService.ServeLogout | examples/app/auth-app/internal/service/auth.go:113-122 | logout behind the middleware, which saves a new session after a logout without one |
| AuthFlow.AuthService.ServeProfile | examples/app/auth-app/internal/service/auth.go:124-141 | profile behind the middleware, failed type assertions made explicit |
| AuthFlow.Site.Request | examples/app/auth-app/internal/server/http.go:15-50 | one request served on the shared objects, with the browser's jar updated, is one step of the abstract application |
| AuthFlow.Site.ProcessAll | examples/app/auth-app/internal/server/http.go:15-50 | any run of requests, waits and sweeps on the shared objects is the abstract run that ShowsAfter and ProfileShowsTheView speak of |
| AuthFlow.ShowsAfter | examples/app/auth-app/internal/service/auth.go:90-141 | after every run each jar leads to a live session exactly when the client's own history says so, with that user and that expiry |
| AuthFlow.ProfileShowsTheView | examples/app/auth-app/internal/service/auth.go:124-141 | in every run a profile request is answered with user u exactly when the client's session was last logged in as u, not logged out, and not past the expiry fixed at its creation; it never crashes |
| AuthFlow.FractionalMaxAgeForgets | auth/session/session.go:174 | for every other maxAge a run exists in which the client is forgotten while its session is alive |
| AuthInterleaving.EveryClientSeesItsOwnHistory | examples/app/auth-app/internal/service/auth.go:90-141 | with the requests of different clients interleaved step by step, and waits and cleanups in between, each client receives exactly the answers its own history calls for, and never a crash |
| AuthInterleaving.AnswersComeFromLogIns | examples/app/auth-app/internal/service/auth.go:90-141 | with interleaved requests too, no answer names a user whose password the client has not given |
| AuthInterleaving.OwnedAfter | examples/app/auth-app/internal/service/auth.go:90-141 | in every reachable state no two clients have a session in common, in their jars, their requests or the answers on their way |
| AuthInterleaving.OthersDoNotMatter | auth/session/middleware.go:63-77 | no step of another client's request, no wait and no cleanup changes a client's jar, request or live sessions |
| AuthInterleaving.NetRunsTheMachine | auth/session/middleware.go:63-77 | the interleaved requests are a schedule of the session machine |
| AuthInterleaving.SerialIsServe | examples/app/auth-app/internal/service/auth.go:90-141 | a request that nothing interrupts does what the service's methods do, in pool, jar and answer |
| AuthOverlap.WellFormedAfter | examples/app/auth-app/internal/service/auth.go:90-141 | every run keeps each request to what can remain of its route |
| AuthOverlap.OutForGoodIff | auth/session/middleware.go:63-77 | a session out of the store stays out, whatever login, logout and profile requests follow, if and only if no login that has yet to save holds it and, if it is touched, no request that has yet to close |
| AuthOverlap.LogOutIsFinalIff | examples/app/auth-app/internal/service/auth.go:113-122 | a logout of the session it loaded is final if and only if the session is untouched when it is destroyed and no login that has yet to save holds it |
| AuthOverlap.LogInUndoesLogOut | auth/session/middleware.go:68-77 | from every idle state with a live session, a login that is over before the logout destroys makes the logout's own close put the session back, logged in |
| AuthOverlap.TrafficRunsTheMachine | auth/session/middleware.go:63-77 | these runs are schedules of the session machine |
| AuthOverlap.LogInPlan | examples/app/auth-app/internal/service/auth.go:90-111 | the plan of a login, uninterrupted, leaves the pool that the service's login leaves |
| AuthOverlap.ClosingPlans | examples/app/auth-app/internal/service/auth.go:113-141 | so do the plans of a logout and of a profile request |
| Jwt.Authenticator.GenerateTokenPair | auth/jwt/jwt.go:80-116 | both tokens field by field: issuer, dates and subject replaced, the refresh token carrying the user id only; ExpiresAt is AccessExpiry from now |
| Jwt.Authenticator.ValidateToken | auth/jwt/jwt.go:118-144 | accepts exactly the tokens under our algorithm and key, before exp, not revoked |
| Jwt.Authenticator.RefreshToken | auth/jwt/jwt.go:146-158 | revokes and reissues exactly when the token is accepted; otherwise changes nothing |
| Jwt.Authenticator.RevokeToken | auth/jwt/jwt.go:160-165 | stores the token for AccessExpiry, or does nothing without a store |
| Jwt.ReachableIsSound | auth/jwt/jwt.go:80-165 | in every reachable state each issued token is ours and within a lifetime of its issue, and no revocation entry lapses later than AccessExpiry from now |
| Jwt.EntriesOnlyExtend | auth/jwt/jwt.go:160-165 | in any continuation a revocation entry is only ever extended |
| Jwt.RevocationIsFinalIff | auth/jwt/jwt.go:133-165 | a revoked token is rejected in every continuation if and only if its exp is no later than its entry's |
| Jwt.RevokedAccessTokenStaysRevoked | auth/jwt/jwt.go:118-165 | an access token revoked at any later moment is never accepted again |
| Jwt.ExchangesAreApart | auth/jwt/jwt.go:146-165 | two successful refreshes with one token are at least AccessExpiry apart |
| Jwt.ExchangesFitTheLifetime | auth/jwt/jwt.go:133-165 | the k-th exchange of a token falls k - 1 access lifetimes after it became available, and before its exp |
| Jwt.ExchangeLimit | auth/jwt/jwt.go:146-165 | from its issue on, a refresh token is exchanged at most ceil(RefreshExpiry / AccessExpiry) times in any run |
| Jwt.ExchangeLimitIsTight | auth/jwt/jwt.go:146-165 | for every pair of positive lifetimes, that limit is attained from an empty store at any instant at which the refresh expiry falls on a whole second |
| Jwt.ExchangeMaximum | auth/jwt/jwt.go:133-165 | in any state, the greatest number of exchanges any continuation makes with an issued token is exactly one per access lifetime from the end of its revocation, if any, to its exp |
| Jwt.SingleUseIff | auth/jwt/jwt.go:152-155 | replay is prevented in all runs if and only if RefreshExpiry does not exceed AccessExpiry |
| Jwt.NewPairIsAccepted | auth/jwt/jwt.go:80-144 | both tokens of a new pair are accepted exactly until their truncated exp, once the clock's second is past the issue of everything revoked |
| Jwt.PairLifetimes | auth/jwt/jwt.go:83-114 | in every continuation that leaves them alone, under a fresh second, the access token is accepted exactly until AccessExpiry from the call and the refresh token until RefreshExpiry from it, cut to whole seconds; ExpiresAt is the uncut end |
| Jwt.NewPairIsAcceptedIff | auth/jwt/jwt.go:80-144 | a token just handed out is accepted until its exp in all continuations that leave it alone, if and only if it is not one whose earlier revocation is still in force |
| Jwt.RefreshedIntoItselfIff | auth/jwt/jwt.go:95-105 | exchanging a refresh token returns that same token, just revoked, if and only if neither truncated date has moved since its issue |
| Jwt.AccessRefreshedIntoItselfIff | auth/jwt/jwt.go:83-87 | the same for an access token, which is exchanged as well |
| Jwt.ExpiresAtIsClose | auth/jwt/jwt.go:111-115 | the returned ExpiresAt is less than a second after the access token's own exp |
| Jwt.ChainKeepsIdentity | auth/jwt/jwt.go:95-103 | along any chain of refreshes the user id stays that of the login, and roles, name and extras are the login's or, after any refresh-token exchange, none |
| Jwt.TokensComeFromLogins | auth/jwt/jwt.go:146-158 | in every run each token ever issued has the user id of some login and no role that login lacked |
| Health.RunValid | health/health.go:112-131 | at every moment of every schedule the report describes exactly the goroutines that have written, and schedule length plus remaining work is constant |
| Health.EveryScheduleSummarises | health/health.go:112-133 | every schedule takes the same number of steps, gets stuck only when the wait has returned, and then delivers the summary |
| Health.SummaryIsUnique | health/health.go:104-127 | any two summaries have the same status and names, and are equal when checkers of one name agree |
| Health.EveryResultIsReported | health/health.go:122-128 | without disagreement Checks is exactly the map from name to result |
| Health.SomeScheduleReports | health/health.go:123-128 | any checker can be the last to write its name |
| Health.ScheduleIndependentIff | health/health.go:94-134 | the report is the same for all schedules if and only if checkers that share a name agree |
| Health.Registry.Register | health/health.go:73-77 | appends one entry |
| Health.Registry.Check | health/health.go:94-134 | in terms of what was registered: down iff a checker registered for the type is down, exactly their names, and under each name the result of one of them |
| Health.TypesSelect | health/health.go:98 | a checker registered for both types takes part in both checks, one registered for a single type in that one only |
| Pagination.PageRequest.Normalize | response/pagination.go:11-21 | in place: a page below 1 becomes 1, a size that is not positive the default, and the size is cut to the maximum |
| Pagination.PageIsTileIff | examples/app/router-validation-demo/internal/data/todo.go:51-61 | with 64-bit wrap-around, a page is its tile of the list if and only if its offset fits or wraps past the end |
| Pagination.NoPanicWithinRange | response/pagination.go:24-29 | the slice bounds are in range for every page with (Page-1)*100 below 2^63, and the page is its tile |
| Pagination.PanicIff | examples/app/router-validation-demo/internal/data/todo.go:51-61 | slicing panics if and only if the 64-bit offset is negative |
| Pagination.HugePagePanics | response/pagination.go:24-29 | a concrete page number that panics |
| Pagination.HugePageRepeatsFirst | response/pagination.go:24-29 | a concrete page number whose offset wraps to zero |
| Pagination.PagesTileTheListIff | examples/app/router-validation-demo/internal/data/todo.go:44-61 | the first k pages that List returns concatenate to the first k * size items if and only if no offset among them wraps into the list or below zero; otherwise one panics or items repeat |
| Pagination.PagesTileTheList | examples/app/router-validation-demo/internal/data/todo.go:44-61 | so they do while the last offset fits in 64 bits, to the whole list once they reach its length, and a later page whose offset fits is empty |
| Pagination.EachItemOnOnePage | examples/app/router-validation-demo/internal/data/todo.go:44-61 | each item is on one page that List returns and on no other whose offset fits in 64 bits |
| Todos.ParseItoa | examples/app/router-validation-demo/internal/service/todo.go:116 | decimal printing has an inverse |
| Todos.ItoaIsDecimal | examples/app/router-validation-demo/internal/service/todo.go:116 | a printed number has digits only and no leading zero |
| Todos.TodoRepo.List | examples/app/router-validation-demo/internal/data/todo.go:38-62 | answers page and size as asked, or 1, 10 and 100 where out of range, with the total and the stored objects after the first (page - 1) * size, at most size of them |
| Todos.ListedPagesTile | examples/app/router-validation-demo/internal/data/todo.go:38-62 | the answers to List(1, size), List(2, size) and so on concatenate to the list, as long as the offsets fit in 64 bits |
| Todos.TodoRepo.Create | examples/app/router-validation-demo/internal/data/todo.go:74-83 | appends a new id, refuses an existing one; map and order keep agreeing |
| Todos.TodoRepo.Update | examples/app/router-validation-demo/internal/data/todo.go:85-93 | replaces the entry with that id, also when it is the edited stored object |
| Todos.TodoRepo.Delete | examples/app/router-validation-demo/internal/data/todo.go:95-110 | removes the id from the map and, by the copying loop, from the order |
| Todos.WithoutRemovesOne | examples/app/router-validation-demo/internal/data/todo.go:95-110 | a delete takes away one element and keeps the order of the rest |
| Todos.TodoService.UpdateTodo | examples/app/router-validation-demo/internal/service/todo.go:125-146 | editing the shared object before calling Update changes its one entry and keeps every id under its key |
| Todos.TodoService.CreateTodo | examples/app/router-validation-demo/internal/service/todo.go:109-122 | mints numeral Total + 1 and succeeds exactly when it is unused, replacing nothing |
| Todos.IdsStayDistinct | examples/app/router-validation-demo/internal/data/todo.go:74-110 | ids stay distinct along every run of creates, updates and deletes |
| Todos.WithoutDeletesIdsAreNumerals | examples/app/router-validation-demo/internal/service/todo.go:115-121 | in delete-free runs ids are 1..n in order and every Create succeeds |
| Todos.RunsFromTheSeeds | examples/app/router-validation-demo/internal/data/todo.go:20-35 | both from the three seeded todos: distinct ids in every run, and numerals 1..n without deletes |
| Todos.UpdateChangesOne | examples/app/router-validation-demo/internal/service/todo.go:125-146 | an update rewrites the given fields of the one entry with its id, in its place |
| Todos.CreateMeans | examples/app/router-validation-demo/internal/service/todo.go:115-121 | Create appends the given title, not completed, under the next numeral, unless that is an id already |
| Todos.UpdateMeans | examples/app/router-validation-demo/internal/service/todo.go:125-146 | Update answers the item as it then stands in the list, or NotFound |
| Todos.DeleteMeans | examples/app/router-validation-demo/internal/service/todo.go:149-155 | Delete answers NoContent for ids in the list and takes that one away, and NotFound for others |
| Todos.CreateAfterDeleteIff | examples/app/router-validation-demo/internal/service/todo.go:115-121 | after deleting any one of n todos, whatever was deleted before, Create succeeds if and only if numeral n is the id deleted or is not in use |
| Todos.CreateAfterFirstDeleteIff | examples/app/router-validation-demo/internal/service/todo.go:115-121 | so after deleting one of 1..n, if and only if it was n |
| Todos.NotOnlyTheLast | examples/app/router-validation-demo/internal/service/todo.go:115-121 | after an earlier delete, deleting one that is not the last can free Create, and deleting the last can leave it failing |
| Todos.TodoService.DoAll | examples/app/router-validation-demo/internal/service/todo.go:88-155 | any run of calls on the shared objects gives the replies and the contents of the run on the list |
| Todos.CreateStaysStuck | examples/app/router-validation-demo/internal/service/todo.go:115-121 | a Create that fails keeps failing until something is deleted |
| Errors.SearchIsPreorder | response/errors.go:57-63 | the search finds the first BizError in depth-first preorder, and one whenever there is one |
| Errors.StatusAndBodyFromTheFirst | response/encoder.go:77-108 | status and body come from that same BizError and from nothing else |
| Errors.CausesDoNotLeak | response/errors.go:43-47 | replacing the causes of any BizErrors by anything changes neither status nor body |
| Errors.DerivedErrors | response/errors.go:43-55 | WithCause, also below a wrapper, shows in neither status nor body; WithMessage shows in the message only |
| Errors.WrappingHidesDuckTyping | response/encoder.go:81-121 | without a BizError, wrapping an error, or joining any number of them, makes a plain internal error |
| Errors.DuckTypedErrors | response/encoder.go:81-129 | the status, code, text and data of an error without BizError, each with its default, and of no error at all |
| Errors.NoTokenError | auth/jwt/types.go:53-58 | the missing-token error gives 401, code 40100 and its own text |
| Errors.EncodeError | response/encoder.go:77-90 | writes exactly that status and body |
| Routing.Router.Use | router/router.go:143-145 | append on an array with spare capacity or a replaced one: the list grows by the arguments |
| Routing.App.DoGroup | router/router.go:62-74 | a group gets its own array holding the parent's list and its own middleware |
| Routing.App.Perform | router/router.go:62-145 | any program of Group, Use and Handle on shared arrays does what it does to separate lists, whatever spare capacity there is |
| Routing.App.Dispatch | router/router.go:118-139 | reads the scope's list at dispatch and runs the server's middleware in order, that list in order, then the handler |
| Routing.ScopeGrowsByItsOwnUses | router/router.go:143-145 | a program changes an existing scope by that scope's own Use calls only, and no existing route |
| Routing.GroupRouteMeaning | router/router.go:112-140 | a group's route runs, position by position, server middleware, the parent's list at Group time, the group's own and everything added before dispatch, then the handler, under its method on the concatenated path |
| Routing.RootRouteMeaning | router/router.go:112-140 | the same for a route of the root scope |
| Routing.LateUseAppliesIff | router/router.go:131-133 | a Use after the registration changes a route if and only if it is on its own scope and not empty |
| Scheduling.Scheduler.Do | contrib/schedule/schedule.go:37-107 | every call keeps the name table a bijection onto the engine's entries and mirrors running; which calls are refused, for which of three reasons; a refused one changes nothing |
| Scheduling.RunningIff | contrib/schedule/schedule.go:87-107 | after any run it is running iff a Start has not been followed by a Stop, or it was running and was never stopped |
| Scheduling.Scheduler.DoAll | contrib/schedule/schedule.go:37-107 | any run of calls gives the failures and the registry of the run on values |
| Scheduling.Scheduler.Register | contrib/schedule/schedule.go:41-51 | a new name gets the next entry id; a refused call changes nothing |
| Scheduling.IdsAreNeverReused | contrib/schedule/schedule.go:37-85 | no entry id is given to two registrations of a run, or was given before it |
| Scheduling.NamesAreIndependent | contrib/schedule/schedule.go:37-85 | what is registered under a name depends on the calls about that name only |
| Scheduling.RemovedNameIsFree | contrib/schedule/schedule.go:37-85 | a removed name can be registered again, as a job or at a positive interval, whatever happened to other names, and gets an entry id that nothing had before |

## Left out

- HTTP, the Kratos transport, JSON, cookie header syntax and Redis networking: session values are
  assumed to survive JSON; a Redis entry is gone once its time to live is over.
- Store errors: MemoryStore returns none, and a failing Redis server is not modelled.
- Cryptography: signing is an injective constructor; password hashing and random bytes are not modelled.
- Clock readings inside one call: each call reads the clock once, so the time a call takes is not modelled.
- Concurrent RefreshToken calls: validation and revocation are separate in the code; runs here are sequential.
- Token texts: revocation is keyed by the token string, which the model identifies with algorithm, key
  and claims; that one signed token has one text form is assumed.
- Custom claims factories and the subject and audience checks of golang-jwt: with the default factory
  a token's claims are what was signed.
- Skip-path matching: that a request skips the session middleware is part of its steps (`End` instead of `Finish`).
- Checkers that panic or never return: the timeout context does not stop them in the code either.
- Data races inside Go maps: every access is one atomic step.
- Request binding and validation of the todo service: both return before any change.
- Waiting for running jobs in `Scheduler.Stop`, which contrib/schedule/schedule.go:98 announces: the code
  does not wait on what `cron.Stop` returns.
- Cron expression parsing and duration formatting: the parser's verdict and the text are inputs.
- Middleware headers, request ids, token extractors, cursor pagination, FromKratosError: each is settled
  by reading one branch.
