# Verified model of the agent platform's stateful kernels

The platform runs LLM agents behind an API. Between a request and an agent stand a few small
stateful kernels that decide who may run, which version serves a caller, how much may be spent,
what a human still has to approve and what history says. This project models those kernels in
Dafny and proves what they guarantee over whole runs: every sequence of calls, every interleaving
of requests (of the session lock's replicas, too), every answer of the language model.

Each file is one kernel. A kernel that keeps state appears twice: once as a specification on
values (a function `Step`, `Apply` or `Next` and runs of it), and once as classes or methods with
the source's fields, branches and loops, whose contracts name the specification's step. The
theorems are about the specification's runs. In `SessionLock`, `InFlight` and `StickySessions` the
specification is a machine over the interleaved steps of many callers; there the methods (for
stickiness in `VersionRouter`) follow one call, or one uninterrupted request, and are proved to be
steps of that machine, while time passing, crashes, messages in flight and interleaving exist in the
machine alone. Pure code (`_safe_eval`, the cost formulas) appears as functions only.

| file | kernel |
|---|---|
| `RateLimiter.dfy` | the in-memory sliding-window limiter: front-only pruning, whole-bucket eviction every 100 accepts, timestamps read before the lock |
| `RedisLimiter.dfy` | the Lua limiter over sorted sets with key expiry |
| `SessionLock.dfy` | the distributed session lock: SET NX EX, tokens, compare-and-delete, expiry, crashes, fail-open |
| `RunHistory.dfy` | run history in Redis (a hash and three kinds of sorted set) against the SQL backends |
| `WeightedRouting.dfy` | the choice of a version by hash prefix and cumulative weights |
| `PackRegistry.dfy` | the registry of versions and weights |
| `StickySessions.dfy` | which version a session is served, over interleaved requests |
| `PinnedSessions.dfy` | exactly when a session keeps its version |
| `OrderlySessions.dfy` | conditions on an execution under which every saved session keeps its version |
| `UnpinnedRuns.dfy` | four executions in which a session loses its version |
| `VersionRouter.dfy` | the handler that asks the history, the registry and the marks |
| `InFlight.dfy` | the per-process marks of sessions in flight |
| `Cost.dfy` | estimates, bills and the shared budget |
| `ModelPricingLookup.dfy` | resolving a model id to a price |
| `ShippedAliases.dfy` | the alias table the program ships |
| `ReviewStore.dfy` | the human-review queue, in memory and in SQLite |
| `Calculator.dfy` | the calculator tool's evaluator |
| `CalculatorLaws.dfy` | what its operators and functions mean, as laws between expressions |
| `ResearchLoop.dfy` | the research agent's graph |
| `ResearchLaws.dfy` | what it reads off records and search results |

Modelling choices that hold throughout: floats are reals (integers where the source only counts),
timestamps are reals or integers handed to each call, SHA-256 is whatever prefix it returned, a
uuid or a random draw is a parameter, and a Redis pipeline, a Lua script and an SQL statement are
one step each.

## What is not as one might expect

Where a promise does not hold for every input, the model keeps the code as it is, exhibits a run
that breaks the promise and proves when it is kept.

- A session lock does not exclude a second run after one outage (`FailOpenBreaksExclusion`) or
  after a run that outlives the lock (`OverrunBreaksExclusion`). `ExclusionHoldsIff` gives the
  exact condition over every execution; `ExclusionIsSafeIffTimely` and `FailOpenKeepsExclusionIff`
  show that being timely and meeting no run in flight are the weakest conditions.
- `RedisSessionRegistry` documents that a replica never deletes a lock it no longer owns. That
  holds per replica (`ReleaseDeletesOnlyOwnLock`), not per run (`OverrunDeletesNextLock`). A run's
  lock falls to a delete exactly when that carries its token (`DeleteTakesLockIff`), and no such
  delete is ever sent exactly when no release finds another run's token recorded
  (`DeletesSpareRunsIffNoneStrays`); timely runs without outages are safe
  (`TimelyRunsKeepTheirLocks`).
- Redis lists a run under a session it does not belong to when a session id contains `:pack:`
  (`ColonsCollide`), and under a session it has left (`MovedRunLingers`).
  `SessionListingMatchesSqlIffSettled` says exactly when the listings agree. The shipped endpoints
  admit only letters, digits, `_` and `-` as session ids (api/models.py:114,
  api/endpoints/sessions.py:31), which is the `ColonFree` that `StableHistoriesAreSettled` asks for; a
  colon takes a direct caller of the memory, or a pack of one's own whose input has a free-form
  `session_id`.
- The backends may read the last pack version off different runs, and SQLite alone answers for a
  blank session (`BlankSessionsDiffer`), which again no shipped endpoint passes on.
  `VersionRunMatchesIff` says exactly when they agree.
- Hash prefix 0 is routed to the first version even at weight zero (`PicksPositiveWeight`).
- `set_weights` applies the entries before a bad one (`WeightsAppliedUpToFirstBad`).
- A session with a saved version is not always pinned to it. (Sessions matter to packs of one's own
  whose input has a `session_id`; no shipped pack's input has one.) On one worker it keeps its version
  (`OneWorkerKeepsVersion`): the handler does not wait between reading the history
  (api/router_factory.py:234) and setting the session's mark (:293), so a second run either reads
  after the first is over, or, should a thread store the first run's record just then, is answered
  409. It takes runs that cross on two workers (`CrossingRunsFlipVersion`), a Redis mark that fails
  open (`UnseenMarkFlipsVersion`), or a save that is stored after its request gave up on it, which it
  does after 5 seconds (:46, :141; `LateSaveFlipsVersion`), to flip the version without a header.
  Callers that wait for their answers and saves are safe on any number of workers
  (`InTurnSessionSticks`), and `SticksIffPinned` says exactly when a session keeps its version from a
  given moment on. All this goes by `created_at`, which every backend stamps before it waits for its
  database (core/memory.py:666, 946, 1105): a late save with the older stamp does not become the last.
- A class replaced, by another thread, between the router's two registry calls records "unknown" and
  locks the session out (`ReplacedClassLocksSessionOut`); without that none ever is
  (`UnswappedSessionIsServed`).
- The Lua limiter counts member names, and two calls whose clock readings print alike may build
  the same name (`CollidingNamesOvershoot`). `CountsDistinctNames` says what that comes to in every
  case, and `LimitExactIff` exactly when the limit on accepts is kept.
- Calls that arrive `d` out of order cost the in-memory limiter `2d` of its window, not `d`
  (`SkewCountsTwice`).
- A connector record without an identifier is dropped when an earlier record brought along the
  identifier it would be given (`NamelessRecordKeptIff`).

## Model

| member | source | states |
|---|---|---|
| SlidingWindow.SkewedClockStillLimits | core/security.py:613-639 | If no call's timestamp is more than d below that of an earlier call, no closed interval of length W - 2d holds more than `max_requests` accepted timestamps of a key, despite front-only pruning and eviction by the last element; d = 0 gives the whole window |
| SlidingWindow.SkewCountsTwice | core/security.py:613-639 | The 2d cannot be spared: for every skew d, every window of at least 2d and every excess x with 0 < x <= d there is a d-skewed run with 101 accepts under a limit of 100 in an interval of length W - 2d + x |
| SlidingWindow.SteadyClockRefinesNaive | core/security.py:598-659 | With a non-decreasing clock every `is_allowed` and `remaining` answer is that of a limiter that keeps all accepted timestamps and counts those in [now - W, now]; every bucket stays sorted |
| SlidingWindow.BucketsStayBounded | core/security.py:616-630 | Whatever the clock does, no bucket ever exceeds `max_requests` entries |
| SlidingWindow.StepTracks | core/security.py:613-630 | One call by any key keeps a key's bucket a faithful stand-in for all its accepted timestamps |
| SlidingWindow.StepLimits | core/security.py:613-630 | One call never overfills a window of length W - 2d |
| SlidingWindow.EvictTracks | core/security.py:632-639 | Deleting a whole bucket because its last timestamp is stale loses nothing a later window of length W - 2d can see |
| SlidingWindow.BucketCounts | core/security.py:617-622 | Under a steady clock what survives pruning is what the full log holds in [now - W, now], and is what `remaining` counts |
| SlidingWindow.RateLimiter.Create | core/security.py:568-596 | Construction fails exactly for a limit below 1 or a window that is not positive, and otherwise starts empty |
| SlidingWindow.RateLimiter.IsAllowed | core/security.py:598-630 | The locked body updates buckets and counter as the specification's step and returns its answer |
| SlidingWindow.RateLimiter.EvictStale | core/security.py:632-639 | Removes exactly the buckets that are empty or end before the cutoff |
| SlidingWindow.RateLimiter.Remaining | core/security.py:641-659 | Answers as the specification's query and changes nothing |
| RedisWindow.CountsDistinctNames | core/security.py:678-695 | With one non-decreasing clock the script accepts exactly when fewer than `max_req` distinct member texts accepted for the key have a timestamp in (now - W, now], however the server prints numbers and outages included |
| RedisWindow.LimitExactIff | core/security.py:678-695 | With one non-decreasing clock every answer is that of a limiter that counts all accepted timestamps in (now - W, now] if and only if no served call finds fewer than `max_req` distinct texts in that window while `max_req` accepts or more lie there |
| RedisWindow.DistinctNamesLimitExactly | core/security.py:678-695 | When no two calls on a key have clock readings that print alike and the same random number, a call is accepted exactly when fewer than `max_req` accepted timestamps lie in (now - W, now] |
| RedisWindow.NamesCollideIff | core/security.py:692-692 | Two calls add the same member if and only if their clock readings print alike and they drew the same random number, whatever printing a number gives, dashes included |
| RedisWindow.LifeIsJustEnough | core/security.py:693-693 | A key lives a whole number of seconds, at least one and less than two beyond the window |
| RedisWindow.IdleKeyVanishes | core/security.py:693-693 | A key on which nothing is accepted for that long holds nothing |
| RedisWindow.CollidingNamesOvershoot | core/security.py:692-692 | Any two clock readings within a window that print alike, drawn with the same random suffix, let a third call through a limit of two |
| RedisWindow.VisibleIsWindow | core/security.py:685-694 | Neither the inclusive prune nor the expiry of ceil(W) + 1 seconds drops an entry still in the window |
| RedisWindow.Redis.RunScript | core/security.py:678-695 | The script, command by command, has the specification's effect on the sorted sets and its reply |
| RedisWindow.RedisRateLimiter.IsAllowed | core/security.py:718-740 | Accepts on a non-negative reply, and on an outage without touching the store |
| SessionLock.AtMostOneRunPerSession | core/security.py:842-895 | If no acquire fails open and every run begins its release within the lifetime, at most one run per session is in flight on all replicas together, in every interleaving of acquires, recordings, time, crashes, releases and late deletes |
| SessionLock.ReleaseDeletesOnlyOwnLock | core/security.py:884-895 | In every execution, a delete that removes a lock removes one that its own replica set for that session |
| SessionLock.BlockedForAtMostOneLifetime | core/security.py:866-895 | In every execution an acquire is refused exactly when a lock set less than one lifetime ago is still stored; otherwise it is granted |
| SessionLock.FailOpenBreaksExclusion | core/security.py:872-877 | One outage at an acquire lets two runs of a session overlap well inside the lifetime |
| SessionLock.OverrunBreaksExclusion | core/security.py:868-871 | A run that outlives its lock overlaps the next run |
| SessionLock.OverrunDeletesNextLock | core/security.py:880-895 | On one replica that run's release then deletes the next run's live lock, since tokens are kept per session |
| SessionLock.ExclusionHoldsIff | core/security.py:842-895 | In every execution a session never has two runs in flight if and only if no acquire finds its lock gone, and no outage its Redis gone, while another run of the session is in flight |
| SessionLock.ExclusionIsSafeIffTimely | core/security.py:866-882 | Without outages, all runs of an execution are timely if and only if at no moment an acquire could have let a second run of a session in |
| SessionLock.FailOpenKeepsExclusionIff | core/security.py:872-877 | After any such execution an outage keeps exclusion if and only if no run of its session is in flight |
| SessionLock.TimelyRunsKeepTheirLocks | core/security.py:884-895 | If no acquire fails open and every run is timely, every run in flight still has its own lock after any delivered delete |
| SessionLock.DeleteTakesLockIff | core/security.py:842-847 | In every execution a delete takes the live lock of a run if and only if it carries that run's token |
| SessionLock.DeletesSpareRunsIffNoneStrays | core/security.py:880-895 | In every execution no delete with the token of a run in flight is ever on its way if and only if no release finds another run's token recorded for its replica and session |
| SessionLock.DeletesArriveOnce | core/security.py:884-895 | A delete is sent by a release that finds its token recorded, and is on its way until it is delivered or lost, once |
| SessionLock.CrashForgetsOneReplica | core/security.py:849-895 | A replica can crash at any moment and takes its runs and tokens with it; its locks stay until they expire and its deletes are still on their way |
| SessionLock.RedisLocks.Set | core/security.py:868-871 | SET NX EX: succeeds exactly when no live lock is stored, and stores token and expiry |
| SessionLock.RedisLocks.Release | core/security.py:842-847 | Deletes the lock exactly when it is live and holds the token |
| SessionLock.RedisSessionRegistry.TryAcquire | core/security.py:866-882 | A granted answer is the protocol's acquire followed by the recording of the token, a refusal changes nothing, and a broken connection is its failing open, whether or not the command took effect |
| SessionLock.RedisSessionRegistry.Release | core/security.py:884-895 | The pop is the protocol's start of a release, and the script its delivery, also when only the answer is lost, or its loss; without a token nothing is sent |
| RunHistory.TimelineMatchesSql | core/memory.py:934-983 | For every history with increasing timestamps, re-saves included, the Redis timeline equals "sort newest first, limit" over the stored records |
| RunHistory.ListingsAreNewest | core/memory.py:976-996 | After every history with increasing timestamps a Redis listing, of the timeline or of any index, has as many runs as the limit asks for and the index holds, no run twice, newest score first, and leaves out none that scores higher than one listed |
| RunHistory.SqlAnswerIsNewest | core/memory.py:738-781 | So has every answer of `ORDER BY created_at DESC LIMIT n` on any rows: the smaller of n and their number, each once, newest first, none left out that is newer than one listed |
| RunHistory.StoredIsLastOfRun | core/memory.py:934-965 | Both kinds of backend hold of a run what its last accepted save gave: result, metadata, time, and the query without the white space around it; a save is refused exactly when its run id or its query is white space |
| RunHistory.SessionListingMatchesSqlIffSettled | core/memory.py:985-996 | Listing a session gives the same runs in Redis and SQL, for every limit, if and only if every run indexed under the session's key still carries the session |
| RunHistory.LatestRunMatchesIffStillCarried | core/memory.py:1002-1015 | Redis answers from the run last filed under the pack's key, as it is stored now; that is the run SQL answers from if and only if it still carries session and pack |
| RunHistory.VersionRunMatchesIff | core/memory.py:998-1017 | For every history with increasing timestamps and every session and pack, blank ones included: Redis and a SQL backend read the version off the same run, or both off none, if and only if the run last filed under the pack's key still carries session and pack, or nothing was filed there and none of the last 50 listed runs is of the pack, or the arguments are blank and guarded or unused |
| RunHistory.VersionMatchesSql | core/memory.py:998-1017 | Under that condition both answer the same `pack_version` |
| RunHistory.FallbackFindsNothing | core/memory.py:1006-1011 | On a settled session, when the pack index is empty the scan of the last 50 runs finds nothing |
| RunHistory.FallbackReadsFifty | core/memory.py:1006-1011 | When nothing is filed under the pack's key, Redis reads the version off the newest run of the pack among the 50 newest of the session's index, or answers none if none of those is of the pack |
| RunHistory.StableHistoriesAreSettled | core/memory.py:922-964 | If session ids hold no colon, as the shipped endpoints see to, and no run id changes session or pack, every session is settled and every version answered alike |
| RunHistory.ColonsCollide | core/memory.py:928-932 | A run of session "a" and pack "b" is listed by Redis, and by no SQL backend, under session "a:pack:b", an id the shipped endpoints do not admit |
| RunHistory.MovedRunLingers | core/memory.py:961-964 | A run saved again under another session stays listed under the first in Redis |
| RunHistory.BlankSessionsDiffer | core/memory.py:783-810 | For a blank session id, which a direct caller may pass, SQLite finds a version where Postgres and Redis answer none |
| RunHistory.VersionIsOfLastSave | core/memory.py:783-810 | With fresh run ids the version found is that of the last accepted save of the session and pack |
| RunHistory.AccurateIndexAgrees | core/memory.py:976-996 | An index that scores exactly its runs' creation times answers every limit as the filtered, sorted table |
| RunHistory.IndexHoldsIndexed | core/memory.py:955-965 | A sorted set holds exactly the run ids that some accepted save filed under its key |
| RunHistory.KeysAreInjective | core/memory.py:922-932 | Without colons in session ids a session key or pack key belongs to one session, and to one pack |
| RunHistory.RedisRunHistory.SaveRun | core/memory.py:934-965 | Rejects a blank run id or query and changes nothing; otherwise writes the hash and the three indexes |
| RunHistory.RedisRunHistory.ListRuns | core/memory.py:976-983 | Rejects a limit below 1; otherwise the stored runs of the highest-scored ids, in order |
| RunHistory.RedisRunHistory.ListRunsBySession | core/memory.py:985-996 | Rejects a blank session, then a limit below 1; otherwise reads the session's index |
| RunHistory.RedisRunHistory.GetPackVersionForSession | core/memory.py:998-1017 | None on blank arguments; else the pack index's newest run, or the first match among the session's last 50 |
| RunHistory.SqlRunHistory.SaveRun | core/memory.py:631-680 | Rejects a blank run id or query; otherwise replaces or inserts the row |
| RunHistory.SqlRunHistory.ListRuns | core/memory.py:718-745 | The limited prefix of some newest-first order of the table |
| RunHistory.SqlRunHistory.ListRunsBySession | core/memory.py:747-781 | The same over the rows that carry the session, with the two argument errors |
| RunHistory.SqlRunHistory.GetPackVersionForSession | core/memory.py:1165-1186 | The version of the newest row of session and pack; with the blank-argument guard (Postgres) or without it (SQLite) |
| WeightedRouting.PickIsOwner | pack_kernel/registry.py:52-62 | The trailing `return versions[-1]` is never reached, and the version returned is the only one whose cumulative interval holds the threshold |
| WeightedRouting.PicksPositiveWeight | pack_kernel/registry.py:52-62 | With a positive total a prefix lands on a version of positive weight if and only if the prefix is not 0 or the first weight is positive |
| WeightedRouting.RaiseMovesTowards | pack_kernel/registry.py:52-62 | Raising version j's weight moves every key only towards j: one on j stays, one before ends between its place and j, one after between j and its place |
| WeightedRouting.RampNeverGoesBack | pack_kernel/registry.py:52-62 | The same over any ramp of ever higher weights, so ramping a canary sends nobody back to the baseline |
| WeightedRouting.Apportionment | pack_kernel/registry.py:52-62 | Of the 2^32 prefixes, version i gets (2^32 - 1) * w_i / total to within one |
| WeightedRouting.SelectWeighted | pack_kernel/registry.py:52-62 | The loop over cumulative weights returns the version the specification picks |
| PackRegistry.MutationsKeepSound | pack_kernel/registry.py:90-225 | `register` and `set_weights`, failing calls included, keep versions distinct per pack and weights non-negative, and never remove or move a version |
| PackRegistry.RegisteredAtWeightOne | pack_kernel/registry.py:90-134 | A registered class stands in the place of its version, or last, with weight 1, and nothing else in the registry changes; only a class without an id, name or description is turned down |
| PackRegistry.GetRefusals | pack_kernel/registry.py:159-187 | `get` refuses exactly an unknown pack, a named version that is not registered, and without a version several versions that all weigh nothing; a single version is served whatever it weighs |
| PackRegistry.WeightsAppliedUpToFirstBad | pack_kernel/registry.py:209-225 | `set_weights` reports an error exactly when some entry is bad, and exactly the entries before the first bad one take effect, the last one per version winning |
| PackRegistry.GetExactVersion | pack_kernel/registry.py:159-175 | An explicit version is served exactly when it is registered, and by a class of that version |
| PackRegistry.RegisteredForever | pack_kernel/registry.py:90-225 | Over any sequence of `register` and `set_weights`, failing calls included, a registered version stays registered and in its place, and asking for it by name is never refused |
| PackRegistry.RegisteredIff | pack_kernel/registry.py:90-225 | After any sequence of such calls just those versions are registered that were before or that a successful `register` brought |
| PackRegistry.RaiseInRegistry | pack_kernel/registry.py:177-225 | With a positive total, after raising one version's weight `get` serves the same affinity key a version between the one served before and the raised one |
| PackRegistry.Registry.RegisterPack | pack_kernel/registry.py:90-134 | Rejects missing attributes and changes nothing; otherwise replaces the entry of that version in place or appends it |
| PackRegistry.Registry.SetPackWeights | pack_kernel/registry.py:189-225 | Leaves the weights the specification gives and reports its error, also after a partial update |
| PackRegistry.Registry.GetPack | pack_kernel/registry.py:136-187 | Serves the class, or raises the error, that the specification gives for the version and draw |
| StickySessions.HeaderlessRunIsServed | api/router_factory.py:228-247 | In every execution, a header-less run of a session with history is served the last saved version, and is rejected exactly when that is "unknown" and no such version is registered |
| PinnedSessions.SticksIffPinned | api/router_factory.py:228-348 | After any execution, a session whose last saved version is registered keeps it, through every future up to a run with another version in its header becoming the last one saved or the replacement of a class a header-less run has chosen, if and only if no pending header-less run has asked for, chosen, named or entered with another, except one whose save is stamped before the last one; also if from then on all runs see the marks and no save is given up |
| OrderlySessions.OneWorkerKeepsVersion | api/router_factory.py:228-348 | In every execution of one worker, whose handlers take no step while another is between reading the history and setting the mark, though threads stamp and store saves at any time, in which the marks are seen, no save is given up and no class is replaced under a header-less run: from its first save on a session keeps its version until a run that named another in its header becomes the last one saved, whatever requests overlap |
| OrderlySessions.OneWorkerSessionSticks | api/router_factory.py:228-348 | In such an execution every session last saved with a version other than "unknown" is pinned to it, and so keeps it through every undisturbed future of any kind, whenever it is not marked or no header-less run of it is between reading the history and entering |
| OrderlySessions.InTurnSessionSticks | api/router_factory.py:228-348 | On any number of workers and even without marks, if no run of the session starts while another one is under way, its late save included, unless both named their versions in a header, and no class is replaced under a header-less run, a session last saved with a version other than "unknown" is pinned to it and keeps it through every undisturbed future |
| OrderlySessions.CarefulSessionSticks | api/router_factory.py:228-348 | The same for every execution in which no save becomes the last one while another, header-less run of its session is under way |
| OrderlySessions.UnswappedSessionIsServed | api/router_factory.py:228-256 | In every execution in which no class is replaced under a run of the session, with a header or without, its last saved version is registered and served then and ever after |
| StickySessions.StaysPinned | api/router_factory.py:228-348 | Such a session stays so through any registering, reweighting, asking, 404, 409, running, late and lost saves, until a run that named another version in its header becomes the last one saved or a class is replaced under a header-less run |
| StickySessions.PinnedSessionAlwaysGets | api/router_factory.py:228-257 | From the empty system on, until then every header-less run of such a session is given a class of its version and never rejected, and one that becomes the last saved records that version, also while runs with other headers are pending, refused or lost |
| UnpinnedRuns.ReplacedClassLocksSessionOut | api/router_factory.py:249-256 | One worker, marks seen and no save given up: re-registering a version between the router's two registry calls moves a session from it to "unknown", and every later header-less run of it is rejected |
| UnpinnedRuns.CrossingRunsFlipVersion | api/router_factory.py:228-297 | Two header-less runs of one session that cross on two workers before either enters move it to another version, though they share the marks, no save is given up and no class is replaced |
| UnpinnedRuns.UnseenMarkFlipsVersion | core/security.py:872-877 | So do two runs on one worker of which the second enters because the marks' store has failed, the other conditions kept |
| UnpinnedRuns.LateSaveFlipsVersion | api/router_factory.py:140-148 | So do two runs on one worker, one after the other, when the first one's save is stored after its request gave up on it and the second asked, both saves in the order of their stamps and the other conditions kept |
| PinnedSessions.DissenterFlips | api/router_factory.py:228-348 | In any reachable state, a pending header-less run that does not agree with the session's version, at whatever stage it is, its save on its way included unless stamped before the last one, has an undisturbed future with working marks that flips it |
| VersionRouter.Router.RunPack | api/router_factory.py:224-348 | The handler, uninterrupted, takes the machine's steps from asking to its answer: 404 exactly when the registry refuses, 409 exactly when the session is marked, otherwise the version of the class served; its record is stored under the next stamp, lost or left on its way, and the marks are as they were |
| VersionRouter.Router.VersionUsed | api/router_factory.py:249-256 | The search for the class itself finds the version recorded, or "unknown" |
| InFlight.EveryPathReleasesOnce | api/router_factory.py:293-348 | In every interleaving of run and stream requests, each is over after at most five steps; one answered 409 never releases, and one that got in has released exactly once, whichever of its stages returned or raised |
| InFlight.MarksFollowRequests | api/router_factory.py:473-488 | In every interleaving the marked sessions are exactly those between acquire and release, each held by one request; with no request in between nothing is marked |
| InFlight.StatusTells | api/router_factory.py:300-328 | 402 means the budget, 504 the time, 502 the credentials, also behind a general error, 500 everything else, and no status a cancellation |
| InFlight.WhatReachesTheCaller | api/router_factory.py:130-188 | A failed save never reaches the caller, and of queuing the review only an unexpected exception does, as 500; a cancellation passes through both |
| InFlight.RunPack | api/router_factory.py:293-348 | A `/run` request, whichever of execution, saving and queuing the review raises, takes the machine's steps to its end, leaves the registry as it was and answers the status of the first that raised, 200 if none did; 409 exactly when the session was marked |
| InFlight.StreamPack | api/router_factory.py:473-477 | A `/run/stream` request is refused exactly when its session is marked, and otherwise returns with the mark set |
| InFlight.StreamEvents | api/router_factory.py:479-488 | The generator clears the mark once, whether the events end, time out, are cut off or raise |
| InFlight.InMemorySessionRegistry.TryAcquire | core/security.py:813-818 | Succeeds exactly when the session was not marked, and marks it |
| InFlight.InMemorySessionRegistry.Release | core/security.py:820-822 | Removes the mark, and is idempotent |
| Cost.EstimateAccountsForEveryToken | core/cost.py:446-478 | The gap between the pre-call estimate and an unbatched bill is unused input and output, plus what cache reads save, minus what cache writes add |
| Cost.CostWithinEstimate | core/cost.py:446-478 | With tokens within the estimate's, cache tokens within input, a read rate at most the input rate and a batch multiplier at most 1, cost exceeds the estimate by at most the written tokens times (write rate - input rate) |
| Cost.DefaultSurcharge | core/cost.py:56-66 | Under the default rates that surcharge is a quarter of the input rate on written tokens |
| Cost.ThousandTokens | core/cost.py:446-478 | A thousand tokens cost their rate: n thousand fresh input, output, cached or written tokens cost n times the respective rate in bill and estimate, and without a cache rate a tenth of the input rate for reading and five quarters for writing |
| Cost.TokensAddUp | core/cost.py:446-478 | Bills and estimates of two calls add up to those of their tokens together, and cached tokens beyond the input give no credit |
| Cost.BatchCostsMultiple | core/cost.py:458-459 | A batched call costs the batch multiplier times the same call unbatched |
| Cost.UnpricedModels | core/cost.py:437-446 | Estimate and bill of a model without a price are zero, or both errors when prices are required and the model is named |
| Cost.OverspendIsBounded | core/cost.py:641-737 | With at most k calls in flight and no estimate above E, in every interleaving of starts, failures and ends the total is at most budget + (k-1)E plus what finished calls cost beyond their estimates |
| Cost.BudgetHolds | core/cost.py:641-737 | When actual costs stay within estimates the total never exceeds budget + (k-1)E, and never the budget with one call at a time |
| Cost.OverspendIsReached | core/cost.py:641-737 | The bound is reached: for every k and every E > 0 within the budget there is an execution with at most k calls in flight, estimates of at most E and costs within them that spends budget + (k-1)E |
| Cost.TotalsAreSums | core/cost.py:704-708 | The recorded cost and tokens are the sums over all finished calls, those over budget included |
| Cost.OneCall | core/cost.py:641-737 | A call from its admission to its end adds its cost and tokens to the totals, and to the excess what it cost beyond its estimate, whatever else is in flight |
| Cost.UnnamedCallsAreUnchecked | core/cost.py:657-674 | A call whose model has no name is checked against nothing: whatever it costs is spent, under every budget |
| Cost.CostTracker.OnStart | core/cost.py:641-674 | Refuses exactly a call of a named model whose estimate does not fit on top of the total; reports unknown pricing in strict mode; changes nothing |
| Cost.CostTracker.OnEnd | core/cost.py:692-737 | Adds cost and tokens first and then reports whether the total is over budget; an unpriced call in strict mode adds nothing |
| ModelPricingLookup.FirstIsLongestIffLongestFirst | core/cost.py:143-184 | On a table of distinct, priced prefixes, first match is longest match for every id exactly when no entry is a proper prefix of a later one |
| ModelPricingLookup.EarlierSpellingWins | core/cost.py:386-411 | For every id without an exact entry, dotted or not: the id as given and the model named inside it each lead to their longest matching alias, and the one earlier in the table prices the id |
| ModelPricingLookup.UndottedIdGetsLongestAlias | core/cost.py:386-411 | In particular an id without a dot is priced by its longest matching alias, and by nothing without one |
| ShippedAliases.ShippedLongestFirst | core/cost.py:143-184 | In the shipped table of 39 aliases no entry is a proper prefix of a later one |
| ShippedAliases.AnyIdInShippedTable | core/cost.py:386-411 | So with the shipped table each spelling of an id leads to its longest matching alias, and the earlier of the two prices it |
| ShippedAliases.UndottedIdInShippedTable | core/cost.py:386-411 | In particular an id without a dot gets its longest matching alias, and nothing without one |
| ModelPricingLookup.DateNeverChangesAlias | core/cost.py:393-409 | Stripping a date suffix never changes the alias found |
| ModelPricingLookup.ExactEntryWins | core/cost.py:386-403 | An id that is in the table is priced by its own entry, and one that is not by that without its date suffix, whatever the aliases |
| ModelPricingLookup.InnerEntryWins | core/cost.py:374-403 | After those an id with a dot is priced by the entry of what follows its first dot without a version suffix, then of that without its date; if nothing follows, nothing is looked for |
| ModelPricingLookup.ResolvedIsPriced | core/cost.py:386-411 | Whatever key an id resolves to is in the table |
| ModelPricingLookup.DateIsEightDigits | core/cost.py:35-35 | A date suffix is a final dash and eight digits, and is taken off whole |
| ModelPricingLookup.VersionComesOff | core/cost.py:36-36 | A final `-v`, digits, colon and digits is taken off whole |
| ModelPricingLookup.OnlyVersionsComeOff | core/cost.py:36-36 | Nothing else is taken off as a version |
| ModelPricingLookup.OverridesKeepIdsPriced | core/cost.py:301-318 | Merging an override file never takes an id's pricing away |
| ModelPricingLookup.ResolveModelPricing | core/cost.py:386-411 | The two nested loops find the entry the specification resolves to |
| ReviewStore.BackendsAgree | core/review_store.py:165-409 | For every sequence of calls with the same timestamps the in-memory and SQLite stores return the same records, pages and errors, those of the specification |
| ReviewStore.QueueEvolves | core/review_store.py:165-249 | Over any calls no review disappears, moves or loses what was recorded at creation, and one that left pending never changes again |
| ReviewStore.DecisionIsFinal | core/review_store.py:375-409 | Whatever runs between SQLite's update and its re-read outside the lock, the re-read sees the decision just written |
| ReviewStore.DecisionIsRecorded | core/review_store.py:219-246 | After a successful decision and any later calls the review holds the status asked for, the stripped reviewer, the notes and the time of the decision, and what it was created with |
| ReviewStore.CreationIsRecorded | core/review_store.py:172-195 | A created review holds the run, pack, session and time given and the first 500 characters of the summary from then on, and starts pending and undecided |
| ReviewStore.DecidedIsListed | core/review_store.py:202-246 | After a successful decision and any later calls the review is in the full listing of the status asked for, and on no page of another |
| ReviewStore.NewestHolds | core/review_store.py:202-217 | A listing by status holds exactly the reviews of that status, an unfiltered one all |
| ReviewStore.DecidedAtMostOnce | core/review_store.py:219-246 | At most one decision per review ever succeeds |
| ReviewStore.DecidedByOneDecision | core/review_store.py:219-246 | Over any calls a review not decided before has had exactly one successful decision if it is decided after them, and none if it is not |
| ReviewStore.DecisionKeepsOrder | core/review_store.py:219-246 | A decision never moves a review in the listing |
| ReviewStore.PagesCoverListing | core/review_store.py:202-217 | Consecutive pages concatenate to the whole filtered list |
| ReviewStore.InMemoryReviewStore.CreateReview | core/review_store.py:172-195 | Appends a pending review, or reports a blank argument or a duplicate run id and changes nothing |
| ReviewStore.InMemoryReviewStore.ListReviews | core/review_store.py:202-217 | The page of the reversed, filtered dictionary, with the argument errors |
| ReviewStore.InMemoryReviewStore.DecideReview | core/review_store.py:219-246 | Replaces a pending review by its decided form in place, or reports bad arguments, not found or already decided |
| ReviewStore.SqliteReviewStore.CreateReview | core/review_store.py:301-338 | The unique insert has the same effect and error on the rows in id order |
| ReviewStore.SqliteReviewStore.SelectPage | core/review_store.py:357-373 | `WHERE status ... ORDER BY id DESC LIMIT ... OFFSET` is that page of the newest-first list |
| ReviewStore.SqliteReviewStore.DecideReview | core/review_store.py:375-409 | The conditional update, its row count and the re-read amount to the specification's decision |
| Calculator.MagnitudeBound | core/tools.py:262-330 | For every expression an answer computed on integers throughout is at most M to the number of its leaves, M being any number of at least 2, the largest literal and the largest power the guards let through |
| Calculator.ShippedBound | core/tools.py:262-330 | With the shipped limits M, for answers computed on integers, is the larger of 1000^1000 and the largest literal |
| Calculator.MagnitudeReached | core/tools.py:262-330 | The bound is attained for every M and every number of leaves |
| Calculator.GuardsOnlyRefuse | core/tools.py:293-303 | Widening the two limits changes the outcome of no expression computed on integers except those refused for an exponent or a base |
| Calculator.FloorSemantics | core/tools.py:249-259 | `//` and `%` are the one pair with a = b*q + r whose remainder is below the divisor and has its sign |
| Calculator.QuotientsShrink | core/tools.py:249-259 | `//` never grows a number and `%` stays below the divisor |
| Calculator.NearestIsNearest | core/tools.py:240-247 | `round` to tens, hundreds and so on moves by at most half a unit and takes the even multiple on a tie |
| Calculator.RaiseBound | core/tools.py:293-303 | Both guards together bound every power |
| CalculatorLaws.SubtractingUndoesAdding | core/tools.py:249-259 | On any operands `e + f - f` and `+e` are `e`, and `e + -e` and `e - e` are 0 |
| CalculatorLaws.TimesIsRepeatedPlus | core/tools.py:249-259 | `n * e` is what adding `e` n times to 0 gives, and `-n * e` its negative |
| CalculatorLaws.PowerIsRepeatedTimes | core/tools.py:249-259 | A power with a natural exponent that the guards let through is what multiplying so many times gives |
| CalculatorLaws.PowerOutcomes | core/tools.py:293-303 | Which powers are refused for the exponent, which for the base, which divide by zero, which leave the integers and which are answered |
| CalculatorLaws.ShippedGuards | core/tools.py:293-303 | The shipped limits refuse exponents beyond 1000 either way and larger bases than 1000 from exponent 2 on, and answer every other natural power |
| CalculatorLaws.DivisionOutcomes | core/tools.py:249-259 | `/`, `//` and `%` fail exactly on a zero divisor; `f * (e // f) + e % f` is `e` |
| CalculatorLaws.FunctionsOfOne | core/tools.py:240-247 | `abs(e)` is `max(e, -e)`, `round(e)` and `int(e)` are `e`, and `float(e)` leaves the integers |
| CalculatorLaws.FunctionsOfTwo | core/tools.py:240-247 | `max` of two is the larger, `min(e, f) + max(e, f)` is `e + f`, and `round` to n places is the identity for n >= 0 and else the nearest multiple of 10^-n |
| CalculatorLaws.ManyArguments | core/tools.py:240-247 | `min` and `max` of two or more values are among them and bound them all |
| CalculatorLaws.ArgumentCounts | core/tools.py:313-322 | How many arguments each of the six functions takes |
| CalculatorLaws.AnsweredIsAllowed | core/tools.py:262-330 | Only an expression made of integer literals, the seven operators, the two signs and calls of the six functions by name, all the way down, is ever answered on integers |
| CalculatorLaws.AllowedIsSupported | core/tools.py:262-330 | And such an expression only ever fails for a power's limits, a zero divisor or the number of arguments |
| CalculatorLaws.LeftOperandFirst | core/tools.py:285-303 | The first operand without an integer answer settles the outcome |
| ResearchLoop.RunEnds | agents/researcher.py:252-423 | For every oracle a run needs k rounds, 1 <= k <= `max_research_iterations`, and is over after 2k+1 nodes; each round before the k-th found nothing so far or got an unreadable verdict or one of insufficiency, and the k-th is the maximum, or has findings and a readable verdict that does not deny sufficiency, or a reply failed; the run is done exactly when 2k+1 <= `max_step_count` and no reply failed, then with the findings of those rounds; short of steps, the step budget stops it |
| ResearchLoop.VerdictDecides | agents/researcher.py:252-423 | From an assessment a run goes back to research exactly when there are no findings, the verdict is unreadable or denies sufficiency, and rounds are left; it stops when the reply fails, and otherwise summarises |
| ResearchLoop.CallsAreBounded | agents/researcher.py:137-423 | The model is asked at most 2k+1 times and never more often than nodes ran, and nodes never exceed `max_step_count` |
| ResearchLoop.NextCounts | agents/base_agent.py:365-384 | A node that runs is counted once, before its work, and asks the model exactly once, except an assessment without findings, which does not ask |
| ResearchLoop.RunsOnlyAppend | agents/researcher.py:190-217 | Over a whole run findings, sources and references are only appended to, no source is listed twice and no two references share an id |
| ResearchLoop.FromKeysKeepsFirsts | agents/researcher.py:211-217 | `list(dict.fromkeys(...))` keeps each source once, loses none and orders them by first occurrence |
| ResearchLoop.RefsOfRun | agents/researcher.py:190-217 | The references of a run are those of one pass over everything the connector returned, however spread over rounds |
| ResearchLoop.NamelessRecordKeptIff | connectors/base.py:60-86 | A record without an id is kept, numbered by its place, unless an earlier record brought that very id along; records without ids never displace each other |
| ResearchLoop.NodeResearch | agents/researcher.py:137-228 | The node's loops compute the specification's round: three sub-queries, then the connector's records, then the three lists; a failing reply ends it |
| ResearchLaws.QueriesSearched | agents/researcher.py:155-176 | A round searches for the first three sub-queries, or for the query itself when there is no list |
| ResearchLaws.SourceIsTold | agents/researcher.py:183-188 | A line of a search result names an address exactly when, between white space, it is "Source:" and then that address |
| ResearchLaws.FieldsOfReference | connectors/base.py:60-86 | Identifier, title and address of a reference are what the first of their keys, in order, that holds more than white space tells, stripped; without one the identifier is `doc-` and the place |
| ResearchLaws.SnippetOfReference | connectors/base.py:60-86 | Its snippet is the first 500 characters of what the first of the snippet keys tells |
| ResearchLaws.CitationShows | connectors/base.py:42-45 | A citation shows the identifier in brackets, then title and address with a dash between, whichever there are |
| ResearchLaws.RawIsFirst | agents/researcher.py:200-206 | The finding a record adds is the first of its non-empty texts as it stands |
| ResearchLoop.AddRecords | agents/researcher.py:190-209 | The loop with its growing set of seen ids collects references, snippets and citations as the specification does |
| ResearchLoop.CiteLines | agents/researcher.py:183-188 | The addresses of the lines that start with "Source:", in order, blanks skipped |

## Left out

- RunHistory.VersionMatchesSql: the exact condition is about the run answered from (`VersionRunMatchesIff`), because two different runs may carry the same version string.
- PinnedSessions.SticksIffPinned: a session whose saved version is the string "unknown" is left out; a run whose class is gone would record that very string.
- OrderlySessions.OneWorkerSessionSticks: says nothing of a session last saved with "unknown", which `UnswappedSessionIsServed` excludes, nor of the moment in which a doomed request is about to be answered 409, which `OneWorkerKeepsVersion` covers.
- Calculator.MagnitudeBound: an integer made from a float, such as `int(1e308)`, counts as computed on floats, of which nothing is said.
- Calculator.GuardsOnlyRefuse: says nothing of float powers, which the limits refuse too; with a float operand the outcome is `Float` throughout.
- RunHistory: the row `id` field that SQL adds to a record, `get_run`, and the undefined order of runs saved at the very same instant, which histories with increasing timestamps exclude.
- SlidingWindow: interleavings inside a call; the lock makes each call one step, and only the reading of the clock falls outside it.
- RedisWindow: `remaining`, whose prune and count are two commands; a clock that steps back between replicas; and how Lua prints a number, which is any function.
- SessionLock: a release whose script is still on its way when the call returns exists only in the step machine; the method's connection breaks before or after the command.
- PackRegistry: the registry's lists hold entries as values, so that `list(...)` copies share entry objects, and that `pv.weight` is updated through them, is not captured; `list_packs`, `get_schemas` and `list_packs_with_metadata`.
- WeightedRouting: the rounding of floats, and the distribution of `random.choices` without an affinity key (any version of positive weight may be drawn).
- StickySessions: all runs share one registry table, while `PackRegistry` is per process; a version saved by one replica and never registered on another is answered 404 there. A mark that lapses is modelled as one not seen.
- StickySessions: one clock stamps all saves, each with a time of its own; replicas whose clocks differ, and saves stamped at the very same instant, are not modelled.
- StickySessions: runs without a session, the checks of the request's body, and a history backend whose reads lag behind its writes.
- InFlight: a stream generator that is returned but never started keeps its mark, and the server is assumed to start every one; a client that disconnects is a cancellation.
- Cost: the token heuristics that feed an estimate and the extraction of usage from provider answers, which are parameters; counters exported to Prometheus.
- ModelPricingLookup: the prices themselves, reading the override file, and lower-casing; digits in suffixes are ASCII digits.
- Calculator: parsing, floats (once one appears nothing more is said about the result), `True` and `False` other than as 1 and 0, memory and recursion limits, and the formatting of the answer.
- ResearchLoop: retries inside one model call, which count as one call; values of connector records that are not text; how a search result is split into lines; the metadata of references; resuming a checkpointed thread; the check of an empty query before the graph starts; prompts.
- LLM clients, LangGraph, FastAPI wiring, SSE framing, logging, metrics, connectors, prompt builders, domain packs, output guards and log masking: foreign or thin code with no invariant of its own.
- Redis, SQLite and Postgres themselves: only the operations used, each as one atomic step.
