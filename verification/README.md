# tonin, modelled and verified

This project models the parts of tonin whose correctness is hardest to see from the code, and proves what they promise:

- **The outbound proxy** (`Pipeline*.dfy`, `Proxy*.dfy`, with `Cache`, `Breaker*`, `Retry`, `Keys`, `Status`, `Pool`).
  Requests look up a TTL cache, ask a circuit breaker, join or start a shared upstream call, retry it, record its
  outcome and fill the cache. Any number of callers interleave; a step is one atomic action of the code (one map
  operation, one counter update, one upstream answer). Ghost histories record upstream calls and replies, so that the
  theorems speak about whole runs. `Proxy.ProxyState.Handle` is the same code run by a lone caller, and
  `ProxyRefinement` shows that it is one run of the interleaved model. `PipelineProgress` shows that no caller is
  stranded, `BreakerTrips` and `PipelineTrips` when a breaker trips, told from the outcomes alone, and `BreakerRace` what
  the race for a path's first breaker does. `PoolProgress` says what a request over the pool gets.
- **The deploy wave scheduler** (`WaveScheduler.dfy`, `DependencyGraph.dfy`): the in-place batch topological sort with its
  cycle fallback, against longest dependency chains.
- **The environment lock file** (`Lock*.dfy`): editing an ordered TOML document in place in any map iteration order, and
  publishing it through temporary files named after the process. `LockKeeps` says what editing leaves alone, `LockReads`
  what a lock file says, `LockProgress` that writers get there.
- **`tonin.toml`** (`Schema*.dfy`, `Sections.dfy`, `Callers.dfy`, `Egress.dfy`, `Ranges.dfy`, `EnvVars.dfy`,
  `Dependencies.dfy`, `Placeholders.dfy`, `Workspace.dfy`): the strict schema check against a declarative grammar,
  per-environment resolution, and the derivation of ingress from egress. `CallerEntries`, `DependencyEntries`,
  `EgressEntries` and `SchemaNames` say what entries and names mean, read off their keys and words alone.
- **Reconciliation** (`Deploy*.dfy`, `Watcher*.dfy`): image references, deploy and status; the GitHub config watcher.

`dafny verify dfyconfig.toml` checks everything.

Where code and documentation disagree, the model follows the code:

- The scheduler's comment says that cycle participants land in wave 0. The code also puts every plan that depends on a
  cycle there (`crates/tonin-plugin/src/plan.rs:1454-1461`).
- `PROXY_RETRY_MAX = 0` is documented as "no retries" (`crates/tonin-proxy/src/config.rs:17`), but `with_retry` then makes
  no call and reaches its `unreachable!()`.
- The client library's breaker documentation describes a half-open failure re-opening the breaker
  (`crates/tonin-client/src/breaker.rs:25-26`). The proxy's breaker never re-arms its trip time, so it is Open once.
- An empty table in `[callers]` is a caller to the schema check and an overlay to the resolver.
- A temporary lock file is documented as unique per process and per write (`crates/tonin-plugin/src/lock.rs:125`). Its name
  holds the pid and a counter that starts at 0, so a later process under the same pid takes the same names again.
- The watcher documents a missing ref as something to retry. A contents request that is answered 404 on a refetch is not
  retried: the code records the commit and publishes that there is no content, and the next poll finds no change
  (`crates/tonin-config-github/src/lib.rs:245-247`, `crates/tonin-config-github/src/lib.rs:417-433`).
- A range's prefix length may carry a plus sign or zeros in front (`crates/tonin-plugin/src/network.rs:358`), although the
  message names only the plain form.

What the code relies on without checking, and what happens otherwise:

- Plan names are unique in a workspace.
- Request paths, service and method names hold no NUL byte; otherwise keys collide (`Keys.NulPathCollides`).
- At least one attempt is allowed (`Retry.WithRetry`).
- A ref does not come back to a commit after standing at one with other content, and an existing file is not answered
  404. The watcher can end up stale exactly when one of the two fails (`Watcher.StaleExactlyWhen`).
- Writers of the lock in different running processes have different pids. The lock file can show something nobody rendered
  exactly when two share one (`LockPublish.TornExactlyWhenShared`).
- First use of a path is a race: a caller that found no breaker puts its own, untouched one in place of whatever the path
  has by then. A path that rejects calls stops doing so early exactly then, and it can reject calls again arbitrarily
  later exactly when there are at least two callers (`BreakerRace`).

## Model

| member | source | states |
|---|---|---|
| `PipelineTheorems.OkRepliesAnswered` | crates/tonin-proxy/src/proxy.rs:207-289 | In every interleaving, an OK reply carries bytes that some upstream call for the same path and body returned with status 0, whether from the cache, a joined flight or its own |
| `PipelineTheorems.CacheHoldsAnswers` | crates/tonin-proxy/src/proxy.rs:267-274 | Only OK bodies of upstream calls are ever cached, each under its own request's key; no error is |
| `PipelineTheorems.HitIsLastInsert` | crates/tonin-proxy/src/cache.rs:44-66 | A cache hit answers with the last response accepted for the key, less than a TTL old, in every interleaving of split lookups and inserts |
| `PipelineTheorems.CacheBound` | crates/tonin-proxy/src/cache.rs:55-66 | With n callers, cache size plus inserters past the room check never exceeds capacity - 1 + n |
| `PipelineTheorems.OneFlightPerRequest` | crates/tonin-proxy/src/coalesce.rs:63-97 | At any time at most one unresolved flight exists for a request |
| `PipelineTheorems.FlightRunsOnce` | crates/tonin-proxy/src/coalesce.rs:72-87 | A flight makes one retry run of upstream calls however many callers share it, and resolves to its last outcome |
| `PipelineTheorems.SharedOutcome` | crates/tonin-proxy/src/coalesce.rs:63-97 | All callers of one flight reply with its one outcome, at any two times of a run, cancelled waiters included |
| `PipelineTheorems.JoinsUnresolvedFlight` | crates/tonin-proxy/src/coalesce.rs:71-88 | A caller reaching the map joins an unresolved flight for its very path and body, and starts a new one exactly when there is none |
| `PipelineTheorems.OpenOnce` | crates/tonin-proxy/src/breaker.rs:75-109 | All rejections one breaker object ever makes lie within one reset period, as its trip time is never re-armed |
| `PipelineTheorems.PathOpenOnce` | crates/tonin-proxy/src/breaker.rs:56-109 | All rejections on a path that has had a single breaker lie within one reset period |
| `BreakerRace.ClosesEarlyExactlyWhen` | crates/tonin-proxy/src/breaker.rs:56-64 | A path that rejects calls stops doing so before its time exactly in the step in which a caller or flight that found no breaker inserts its own |
| `BreakerRace.RejectsAgainExactlyWhen` | crates/tonin-proxy/src/breaker.rs:56-109 | Some run rejects calls on a path at two times any given gap above the reset period apart if and only if there are at least two callers (for error-rate thresholds of at most one) |
| `PipelineTheorems.BreakerAccounting` | crates/tonin-proxy/src/proxy.rs:253-287 | A breaker's failures are at most the flights that ended in a fault, the rest of its total at most the healthy answers delivered; with equality when no breaker was lost to a first-use race |
| `PipelineProgress.NeverStuck` | crates/tonin-proxy/src/proxy.rs:207-289 | In every reachable state each caller, or the flight it waits for, can move |
| `PipelineProgress.EveryCallerCanBeAnswered` | crates/tonin-proxy/src/proxy.rs:207-289 | From every reachable state and for every busy caller, some steps lead to the reply to its very request, with no other reply on the way |
| `PipelineTheorems.RunSafe` | crates/tonin-proxy/src/proxy.rs:207-289 | The pipeline invariants (structure, in-flight map in bijection with unresolved flights, histories, responses, room, accounts) hold in every state of every run |
| `PipelineTheorems.RunLater` | crates/tonin-proxy/src/breaker.rs:75-94 | Along a run breakers are only added and only count up, and a tripped one keeps its trip time; landed flights and past replies stay |
| `Proxy.ProxyState.Handle` | crates/tonin-proxy/src/proxy.rs:207-289 | A lone request: the reply, the upstream calls and the new cache and breakers are those of cache, breaker, retry, record and insert in the code's order |
| `Proxy.AnsweredFromCacheNext` | crates/tonin-proxy/src/proxy.rs:207-276 | After an OK answer that found room, the same request is answered alike from the cache until the TTL is over, with no upstream call |
| `Proxy.OnlyOwnOkCached` | crates/tonin-proxy/src/proxy.rs:266-287 | Handling a request touches no other request's cache entry, and an error leaves no entry for its own |
| `ProxyRefinement.HandlingIsARun` | crates/tonin-proxy/src/proxy.rs:207-289 | From any state with a free caller and no flight for its request, the pipeline can run it to exactly the reply, calls, cache and breakers that handling it alone gives |
| `Keys.RequestKeyInjective` | crates/tonin-proxy/src/coalesce.rs:42-48 | NUL-free paths: equal keys mean equal path and body |
| `Keys.NulPathCollides` | crates/tonin-proxy/src/coalesce.rs:42-48 | Every path with a NUL shares its key with a request on another path |
| `Keys.ClientKeyInjective` | crates/tonin-client/src/coalesce.rs:63-75 | The client's default key determines service, method and request bytes when the names are NUL-free |
| `Status.CodesClassified` | crates/tonin-proxy/src/status.rs:92-104 | Which codes are retried and which count as faults; every retried one is a fault |
| `Cache.ResponseCache.Get` | crates/tonin-proxy/src/cache.rs:44-53 | Returns an unexpired entry; otherwise removes the key's entry and nothing else |
| `Cache.ResponseCache.Insert` | crates/tonin-proxy/src/cache.rs:55-66 | Stores for exactly one TTL, or does nothing at capacity; a lone inserter never exceeds the capacity |
| `Breaker.CircuitBreakerMap.Check` | crates/tonin-proxy/src/breaker.rs:66-72 | Lets a call through exactly when the path's breaker is not Open |
| `Breaker.CircuitBreakerMap.Record` | crates/tonin-proxy/src/breaker.rs:75-94 | Counts the outcome and trips the breaker when the rate is reached with enough requests, never re-arming it |
| `Breaker.CircuitBreakerMap.Reset` | crates/tonin-proxy/src/breaker.rs:112-119 | Clears an existing breaker and creates none |
| `BreakerTrips.TripsExactlyWhen` | crates/tonin-proxy/src/breaker.rs:75-94 | For any outcomes recorded on an untouched breaker: it has tripped exactly when some prefix of at least ten holds the threshold's share of faults, at the time of the first such prefix |
| `BreakerTrips.RejectsExactlyWhile` | crates/tonin-proxy/src/breaker.rs:66-109 | It rejects calls exactly until thirty seconds after that time |
| `BreakerTrips.OtherPathsUntouched` | crates/tonin-proxy/src/breaker.rs:56-94 | Recording any outcomes on one path leaves every other path's breaker as it is |
| `PipelineTrips.TripsWhenWarranted` | crates/tonin-proxy/src/breaker.rs:75-94 | In every interleaving: a tripped breaker had counted ten or more calls with the threshold's share of failures, and one that counts so many has tripped once no recording is under way on it |
| `PipelineTrips.RejectionNeedsFaults` | crates/tonin-proxy/src/proxy.rs:207-289 | A rejection is UNAVAILABLE, and on its path the threshold's share of some ten or more calls ended in faulted flights |
| `PipelineTrips.HealthyPathNeverRejects` | crates/tonin-proxy/src/breaker.rs:85-92 | With a positive threshold, a path none of whose flights ended in a fault never rejects a call |
| `Breaker.StepsRecord` | crates/tonin-proxy/src/breaker.rs:75-94 | The separate atomic steps of one undisturbed recording add up to the sequential update |
| `Breaker.RecordStepGrows` | crates/tonin-proxy/src/breaker.rs:56-94 | Every atomic step only adds breakers and counts up, and keeps a set trip time |
| `Retry.WithRetry` | crates/tonin-proxy/src/retry.rs:18-45 | Makes at most the allowed calls, every one before the last retryable, returns the last outcome, sleeps in total the closed form; makes no call and runs off its end exactly for 0 attempts |
| `Retry.SleepAdds` | crates/tonin-proxy/src/retry.rs:27-43 | The closed form of total sleep (50(2^m - 1) ms for m <= 6, then 2000 ms each) grows by the doubled and capped backoff |
| `Pool.OpenConnectionStays` | crates/tonin-proxy/src/pool.rs:122-139 | No step of any request replaces a slot's open connection |
| `Pool.OneInstallPerClosing` | crates/tonin-proxy/src/pool.rs:122-139 | Racing reconnects install at most one connection between two closings of a slot |
| `Pool.AtMostSizeOpen` | crates/tonin-proxy/src/pool.rs:47-76 | At most size installed connections are open at once, size 0 counting as 1 |
| `Pool.EvenSpread` | crates/tonin-proxy/src/pool.rs:122-125 | Until the counter wraps, the requests per slot differ by at most one |
| `Pool.ServedFromPool` | crates/tonin-proxy/src/pool.rs:126-139 | A request that is served from the pool got a connection installed in the slot it picked |
| `PoolProgress.OpenConnectionServes` | crates/tonin-proxy/src/pool.rs:122-139 | A request that looks at a slot with an open connection, or comes back to one, is served with that very connection |
| `PoolProgress.OwnConnectionServes` | crates/tonin-proxy/src/pool.rs:132-138 | A request that comes back to a slot without one is served with its own, which the slot keeps |
| `PoolProgress.OnlyFailedConnectsFail` | crates/tonin-proxy/src/pool.rs:122-139 | In every run the requests that ended without a connection are as many as the connects that failed |
| `PoolProgress.EachEndsOnce` | crates/tonin-proxy/src/pool.rs:122-139 | In every run each request that picked a slot has ended once or is under way |
| `PoolProgress.EveryRequestCanBeServed` | crates/tonin-proxy/src/pool.rs:122-139 | From every reachable state at most three steps of its own bring a request to a connection of its slot |
| `WaveScheduler.WaveGroups` | crates/tonin-plugin/src/plan.rs:1401-1470 | Group w holds, in input order, exactly the plans that reach no cycle and whose longest chain of known dependencies has w links (for w = 0 also those that reach a cycle); every plan is in a group and no group is empty |
| `WaveScheduler.GroupingUnique` | crates/tonin-plugin/src/plan.rs:1463-1469 | That specification leaves exactly one result |
| `WaveScheduler.DependencyEarlierIffAcyclic` | crates/tonin-plugin/src/plan.rs:1393-1400 | A known dependency is in a strictly earlier wave exactly when the dependent reaches no cycle |
| `WaveScheduler.EachWaveNeedsPrevious` | crates/tonin-plugin/src/plan.rs:1393-1400 | Each member of wave N+1 directly depends on a member of wave N |
| `WaveScheduler.InOneGroup` | crates/tonin-plugin/src/plan.rs:1463-1469 | No plan is in two waves |
| `WaveScheduler.NoUnderflow` | crates/tonin-plugin/src/plan.rs:1440-1449 | An in-degree is positive whenever it is decremented |
| `WaveScheduler.FinalWaves` | crates/tonin-plugin/src/plan.rs:1454-1461 | When the queue runs dry, in-degree is positive exactly for the plans never dequeued; those reach a cycle, the others have their longest chain as wave |
| `WaveScheduler.AssignWaves` | crates/tonin-plugin/src/plan.rs:1410-1461 | The loop terminates with every plan's wave as specified |
| `WaveScheduler.NoGap` | crates/tonin-plugin/src/plan.rs:1463-1469 | Below every assigned wave each wave is used, so dropping empty groups renumbers nothing |
| `DependencyGraph.StuckReachesCycle` | crates/tonin-plugin/src/plan.rs:1454-1461 | A set in which every plan depends on another member reaches a cycle, self-loops included |
| `DependencyGraph.LevelIsLongestChain` | crates/tonin-plugin/src/plan.rs:1431-1452 | Levels of a dependency-closed set are longest chains, and its members reach no cycle |
| `LockRender.RenderLock` | crates/tonin-plugin/src/lock.rs:176-257 | For every iteration order of the services, the document becomes a rendering of the lock |
| `LockRender.RenderingUnique` | crates/tonin-plugin/src/lock.rs:218-229 | There is exactly one rendering, so the result does not depend on the iteration order |
| `LockStore.RenderedDecodes` | crates/tonin-plugin/src/lock.rs:176-235 | For any existing document, with inline or dotted layouts or none, the rendering decodes to exactly the lock |
| `LockStore.OtherKeysUntouched` | crates/tonin-plugin/src/lock.rs:173-182 | Top-level entries other than schema, env and services keep content, formatting and order |
| `LockStore.MatchingServiceVerbatim` | crates/tonin-plugin/src/lock.rs:203-216 | A standard service table whose three fields match keeps its content and formatting; only its position may change |
| `LockStore.ServicesSorted` | crates/tonin-plugin/src/lock.rs:194-232 | Service tables are exactly the lock's, sorted by name and at one position; stale ones are gone |
| `LockStore.RenderingIdempotent` | crates/tonin-plugin/src/lock.rs:176-235 | Rendering the same lock again changes nothing |
| `LockStore.RenderedTidy` | crates/tonin-plugin/src/lock.rs:176-235 | A rendering is again a well-formed document (each key once), at every level the store edits |
| `LockKeeps.ServiceKept` | crates/tonin-plugin/src/lock.rs:203-257 | A locked service whose old entry is a table in any layout keeps its other keys in place, content and formatting, and of version, image and git_sha those that are right already; a standard table also its key, whitespace and comments |
| `LockKeeps.ServiceAdded` | crates/tonin-plugin/src/lock.rs:203-216 | A service that had no table gets one with exactly the three fields, in order |
| `LockKeeps.HeadersKept` | crates/tonin-plugin/src/lock.rs:181-182 | schema and env hold the lock's texts, and stay as they are where they did already |
| `LockKeeps.ServicesTableKept` | crates/tonin-plugin/src/lock.rs:184-192 | A standard services table keeps key, whitespace, comments and place, and is made explicit only when it is empty |
| `LockKeeps.FirstPlaceKept` | crates/tonin-plugin/src/lock.rs:218-229 | All services come where the first of the kept ones stood |
| `LockReads.DecodesExactly` | crates/tonin-plugin/src/lock.rs:108-120 | A well-formed document decodes to a lock exactly if schema, env and the services it lists, each with its three texts in a table of any layout, are those of the lock |
| `LockStore.GitLockStore.WriteIfChanged` | crates/tonin-plugin/src/lock.rs:144-170 | The store then holds exactly the lock, and reports Unchanged and writes nothing exactly when it already did |
| `LockPublish.NoPartialLock` | crates/tonin-plugin/src/lock.rs:160-169 | With any writers, interleavings, failures, crashes and restarts, while no two running processes with writers share a pid, lock.toml is the initial content or one successful writer's complete rendering |
| `LockPublish.TornExactlyWhenShared` | crates/tonin-plugin/src/lock.rs:123-169 | Given writers of at least two characters each can leave lock.toml with something else if and only if two of their running processes share a pid |
| `LockPublish.UnfinishedApart` | crates/tonin-plugin/src/lock.rs:123-131 | Under that condition writers under way never share a temporary path, whatever was left behind by crashed processes of the same pid |
| `LockPublish.NamesRepeatExactly` | crates/tonin-plugin/src/lock.rs:123-131 | Two temporary names are equal exactly when two processes under one pid took them at the same count; within one process they never repeat |
| `LockPublish.OnlyWrittenShows` | crates/tonin-plugin/src/lock.rs:163-169 | While no writer has succeeded, lock.toml is what it was |
| `LockProgress.EveryWriterCanPublish` | crates/tonin-plugin/src/lock.rs:160-169 | From every such state each writer under way can go on by itself to publish all it rendered, leaving no temporary file |
| `LockProgress.FailedRenameLeavesNothing` | crates/tonin-plugin/src/lock.rs:165-168 | After a failed rename the temporary file is removed and every other file is as it was |
| `SchemaWalker.Validate` | crates/tonin-plugin/src/schema.rs:415-427 | Passes exactly when the document conforms to the grammar, with the overlay environments in document order; else reports the first key or value, in document order, that does not belong |
| `SchemaBlame.TableOnce` | crates/tonin-plugin/src/schema.rs:153-192 | There is at most one such first error, and none where the document conforms |
| `SchemaWalker.Walker.Table` | crates/tonin-plugin/src/schema.rs:153-192 | The same for one table, the environments appended to those collected before |
| `SchemaWalker.Walker.OneShape` | crates/tonin-plugin/src/schema.rs:246-367 | The same for one value against its shape |
| `SchemaWalker.Walker.Required` | crates/tonin-plugin/src/schema.rs:195-215 | Reports the first required key that is missing |
| `SchemaWalker.Walker.EnvName` | crates/tonin-plugin/src/schema.rs:219-244 | Records a name that can be an environment and rejects any other |
| `SchemaWalker.CamelCase` | crates/tonin-plugin/src/schema.rs:382-396 | The loop drops every underscore and capitalises what follows it |
| `SchemaNames.CamelJoinsWords` | crates/tonin-plugin/src/schema.rs:382-396 | Words joined by underscores read in camelCase as the first one followed by the others capitalised |
| `SchemaNames.MatchesExactly` | crates/tonin-plugin/src/schema.rs:372-378 | A key names a field exactly if it is the field's name or, where the schema allows it, the name in camelCase |
| `SchemaNames.ProvidesExactly` | crates/tonin-plugin/src/schema.rs:195-215 | A required name is given exactly if some key of the table spells it |
| `SchemaNames.EnvNameExactly` | crates/tonin-plugin/src/schema.rs:103-109 | An environment name is made of lowercase letters, digits and dashes, with no dash at either end |
| `SchemaDepth.ConformsAtEveryDepth` | crates/tonin-plugin/src/schema.rs:153-367 | A document conforms exactly when no place in it, however deep, is out of order where it stands |
| `SchemaEnvs.CollectsExactlyTheNamedEnvs` | crates/tonin-plugin/src/schema.rs:217-244 | An environment is collected exactly when some overlay table or override key at some depth names it |
| `SchemaAccepts.ClassifiersAgreeUnlessEmpty` | crates/tonin-plugin/src/network.rs:118-126 | The walker and `is_overlay` classify a callers table alike if and only if it is not empty |
| `SchemaAccepts.AcceptedCallersKeysKnown` | crates/tonin-plugin/src/schema.rs:310-345 | A callers section the schema accepts has no key unknown to the resolver, overlays included |
| `SchemaAccepts.AcceptedEgressKeysKnown` | crates/tonin-plugin/src/schema.rs:703-719 | An egress section the schema accepts has no key unknown to the resolver, in lists and overlays too |
| `SchemaAccepts.ResolveAccepted` | crates/tonin-plugin/src/network.rs:54-66 | Resolving sections of an accepted document never reports an unknown key |
| `Sections.ParsePorts` | crates/tonin-plugin/src/network.rs:24-46 | Gives the ports in order exactly when the value is a non-empty array of distinct numbers in 1-65535 |
| `Callers.ParseCaller` | crates/tonin-plugin/src/network.rs:129-208 | Gives exactly the caller an entry describes; an unknown-key error names a key of the entry that is not a caller key |
| `CallerEntries.AcceptedExactlyWhen` | crates/tonin-plugin/src/network.rs:129-208 | An entry is accepted exactly if it is a text that resolves to a namespace, or a table of the four keys, each of its kind, with labels or else a namespace, and not both labels and service |
| `CallerEntries.CallerMeans` | crates/tonin-plugin/src/network.rs:129-208 | Without labels it is the service it names, or else of its own name, in its namespace; with labels the pods carrying exactly them, in its namespace if it gives one; on the ports it lists, or none |
| `Callers.ResolveCallers` | crates/tonin-plugin/src/network.rs:223-257 | Succeeds exactly when every base and overlay entry is good; the list is in name order, each caller from the selected overlay if it has the name, else from the base, and nothing else |
| `CallerEntries.ResolvedCallerMeans` | crates/tonin-plugin/src/network.rs:210-257 | Every caller of the list is what its entry means, the one in the environment's own overlay or else the base one |
| `Callers.CallersVerdictSameForAllEnvs` | crates/tonin-plugin/src/network.rs:221-222 | Accepted or rejected alike in any two environments whose names are non-empty and brace-free (or otherwise of one kind) |
| `Callers.OnlyBaseAndOwnOverlayCount` | crates/tonin-plugin/src/network.rs:210-222 | The result for an environment depends only on the base entries and its own overlay |
| `Placeholders.ReplacesEveryToken` | crates/tonin-plugin/src/plan.rs:138-141 | A pattern is its parts joined by `{env}`; resolving it joins the same parts by the environment name |
| `Placeholders.PartsHoldNoToken` | crates/tonin-plugin/src/plan.rs:138-141 | No part holds a further `{env}` |
| `Placeholders.ResidualBraces` | crates/tonin-plugin/src/plan.rs:138-153 | Whether braces remain after substitution is the same for any two names that both have or both lack braces |
| `Placeholders.SameVerdictsIffSameKind` | crates/tonin-plugin/src/plan.rs:143-153 | Two environments accept the same namespace patterns if and only if both names are plain, both empty or both braced |
| `Egress.ApplyEgressTable` | crates/tonin-plugin/src/network.rs:420-441 | Replaces each key the table sets; fails exactly on a bad key |
| `Egress.ParseFqdn` | crates/tonin-plugin/src/network.rs:308-346 | Gives a destination exactly for known well-typed keys, one of name and pattern, and ports |
| `Egress.ParseCidr` | crates/tonin-plugin/src/network.rs:366-402 | Gives a range exactly for known well-typed keys with range and ports, under any range check |
| `Egress.ResolvedInRange` | crates/tonin-plugin/src/network.rs:349-402 | Under the code's check every destination of a resolved section, and every exception to it, is an address, a slash and a prefix length the address has room for |
| `Ranges.WrittenRange` | crates/tonin-plugin/src/network.rs:349-364 | For every address text and number, `address/number` passes exactly when the address parses and the number is at most 32 or 128 for its version |
| `Ranges.LooseRange` | crates/tonin-plugin/src/network.rs:358 | A plus sign or a zero in front of the prefix length changes nothing |
| `Egress.ResolveEgress` | crates/tonin-plugin/src/network.rs:446-461 | Succeeds exactly when base and all overlays are good, whatever the environment; applies the selected overlay over the base |
| `EgressEntries.FqdnExactly` | crates/tonin-plugin/src/network.rs:301-346 | A table gives a destination exactly if it holds a DNS name under name or else a pattern under pattern, ports, and no other key; and gives those |
| `EgressEntries.CidrExactly` | crates/tonin-plugin/src/network.rs:366-402 | A table gives a range exactly if it holds one under cidr, ports, maybe ranges under except, and no other key; and gives those |
| `EgressEntries.ResolvedEgressMeans` | crates/tonin-plugin/src/network.rs:403-461 | The resolved destinations and ranges are what the chosen lists mean, one by one and in order, in both ways of writing a list |
| `Egress.EachKeyFromOneTable` | crates/tonin-plugin/src/network.rs:443-445 | Each key of the result comes whole from the overlay or else the base or else is empty |
| `Egress.OnlyBaseAndOwnOverlayCount` | crates/tonin-plugin/src/network.rs:443-461 | The result depends only on the base keys and the environment's own overlay |
| `EnvVars.ResolveEnvVars` | crates/tonin-plugin/src/plan.rs:305-348 | Succeeds exactly when all values are strings or tables of strings, whatever the environment; the list is in key order, each variable its overlay's text, else the base's, with `{env}` replaced, and nothing else |
| `EnvVars.VariableMeans` | crates/tonin-plugin/src/plan.rs:305-348 | A variable has a value exactly if its text in the environment's own table, or else in the base, comes to it once tokens are replaced |
| `EnvVars.OnlyBaseAndOwnOverlayCount` | crates/tonin-plugin/src/plan.rs:295-304 | The result depends only on the base texts and the environment's own overlay |
| `Dependencies.ParseTable` | crates/tonin-plugin/src/plan.rs:156-241 | Accepts exactly well-typed tables without both port and ports, and gives namespace, overrides, environments and ports |
| `Dependencies.ResolveDependsOn` | crates/tonin-plugin/src/plan.rs:254-293 | Gives, in document order, the targets of the entries active in the environment; fails exactly when some entry is malformed or, while active, has no usable namespace |
| `Dependencies.ResolvedIffAsked` | crates/tonin-plugin/src/plan.rs:254-293 | A dependency is in the result if and only if the entry under its name asks for it in this environment |
| `DependencyEntries.VerdictMeans` | crates/tonin-plugin/src/plan.rs:156-293 | An entry gives exactly the dependency it asks for (its name, the namespace its own or default pattern resolves to, its port or ports or 50051), nothing exactly if it is not meant for the environment or inherits, and is bad otherwise |
| `DependencyEntries.ResolvedMeans` | crates/tonin-plugin/src/plan.rs:254-293 | The resolved dependencies are exactly those that the entries under their names ask for |
| `DependencyEntries.ResolvesExactlyWhen` | crates/tonin-plugin/src/plan.rs:254-293 | Resolution succeeds exactly if every entry asks for a dependency or for nothing |
| `Dependencies.DependenciesUnique` | crates/tonin-plugin/src/plan.rs:254-259 | No dependency name comes up twice, which the wave scheduler relies on |
| `Dependencies.OnlyOwnNamespaceCounts` | crates/tonin-plugin/src/plan.rs:243-253 | The override for the environment decides, and without one the default alone: no other environment's namespace leaks in |
| `Workspace.LoadWorkspace` | crates/tonin-plugin/src/plan.rs:1357-1390 | Every plan is completed from the loaded egress with its callers sorted, and plans come out by name, none lost or added |
| `TextOrder.LessExactly` | crates/tonin-plugin/src/plan.rs:1388 | One name comes before another exactly if it is a proper prefix or has the smaller character where they first differ |
| `Workspace.DeriveCallers` | crates/tonin-plugin/src/plan.rs:1366-1386 | In place, each plan's callers become its own and exactly the dependents not listed yet, as read from the plans before the loop, all sorted |
| `Workspace.IngressIsTransposeOfEgress` | crates/tonin-plugin/src/plan.rs:1371-1384 | A service calls Q in the result if and only if it declares Q in depends_on or Q listed it |
| `Workspace.ExplicitWinsElseOnce` | crates/tonin-plugin/src/plan.rs:1376-1384 | Explicit callers stay the only ones for their service, with their ports; an unlisted dependent gets exactly one, on default ports; nobody else any |
| `Deploy.PrintOfParse` | crates/tonin-plugin/src/deploy_backend.rs:134-168 | Printing a parsed image gives the text back if and only if it has no @, or no tag before the first one |
| `Deploy.ParseOfPrint` | crates/tonin-plugin/src/deploy_backend.rs:134-168 | Parsing undoes printing for references with a tag, a digest or neither |
| `Deploy.HelmUpgradeArgs` | crates/tonin-plugin/src/deploy_backend.rs:80-120 | The flags in order: values files, namespace, repository, then digest or else tag, and always the version |
| `DeployStatus.UpgradeArgs` | crates/tonin-plugin/src/deploy_backend.rs:80-120 | For an ordinary reference: release and chart, each values file in order, namespace, repository, the digest or else the tag or version, the version, and the four flags that make the upgrade atomic |
| `DeployStatus.RunsWhatIsLocked` | crates/tonin-plugin/src/deploy_backend.rs:60-72 | Over a chart that pins no digest unless the lock does, what runs after a deploy is exactly the lock's image, tagged with the version if it has neither tag nor digest |
| `Deploy.DeployedImage` | crates/tonin-plugin/src/deploy_backend.rs:274-287 | The image read back after a deploy is what was set, with the chart's own tag or digest where nothing was |
| `Deploy.VersionReported` | crates/tonin-plugin/src/deploy_backend.rs:261-271 | After a deploy the release reports the lock's version, or with an empty one the tag that was set |
| `DeployStatus.ImageReadExactly` | crates/tonin-plugin/src/deploy_backend.rs:273-287 | The image read from a release's values has its repository, and tag and digest exactly where those are non-empty texts |
| `DeployStatus.VersionReadExactly` | crates/tonin-plugin/src/deploy_backend.rs:259-271 | The version read is the text or number under version, or if there is none, under tag |
| `Deploy.DeployThenStatus` | crates/tonin-plugin/src/platform.rs:300-305 | For all values and lock entries, deploy then status is healthy if and only if the wanted image reads back, a condition on its repository, tag and digest and the chart's own digest |
| `DeployStatus.StatusExactly` | crates/tonin-plugin/src/platform.rs:300-305 | Not deployed exactly when nothing runs and nothing is wanted, unhealthy exactly when only wanted, and healthy exactly when the very image wanted runs |
| `Deploy.OrdinaryDeployHealthy` | crates/tonin-plugin/src/platform.rs:300-305 | Ordinary references over a chart that pins no digest (unless the lock does) come out healthy |
| `Deploy.TwoColonsDegraded` | crates/tonin-plugin/src/deploy_backend.rs:137-156 | A pinned image with two colons in its last segment comes out degraded after its own deploy |
| `Watcher.StaleExactlyWhen` | crates/tonin-config-github/src/lib.rs:395-455 | Along a history of the ref some schedule finds no change over other content if and only if the ref comes back to a commit after standing at one with other content, or a request for an existing file may be answered 404 |
| `Watcher.NoChangeExactly` | crates/tonin-config-github/src/lib.rs:408-433 | In every run whose ref does not come back so, whenever a poll finds no change receivers hold exactly the content at the head it observed, except if and only if the last answer was a 404 for a file that exists there |
| `Watcher.NoChangeMeansCurrent` | crates/tonin-config-github/src/lib.rs:408-416 | With a ref that only moves forward and no 404 for an existing file, no change means that receivers are current |
| `Watcher.MissingRefetchSticks` | crates/tonin-config-github/src/lib.rs:417-433 | From any waiting state with an unrecorded head that has content, a refetch answered 404 publishes no content and records the head, so that the next poll finds no change over it |
| `Watcher.RecordedHeadIsFinal` | crates/tonin-config-github/src/lib.rs:408-433 | Once the head is recorded, what receivers hold, current or not, stays until the ref moves, whatever is answered |
| `Watcher.NeverOlderThanRecorded` | crates/tonin-config-github/src/lib.rs:395-440 | What receivers hold was answered while the ref stood at the recorded commit or later in its history |
| `Watcher.NeverGoesBack` | crates/tonin-config-github/src/lib.rs:417-433 | What receivers hold never comes from an earlier place in the ref's history than before, whatever is answered and whatever fails |
| `Watcher.StaysCurrent` | crates/tonin-config-github/src/lib.rs:395-455 | With no 404 for an existing file, the head's content, once answered from the head itself, stays shown while the ref stands still |
| `Watcher.TickCatchesUp` | crates/tonin-config-github/src/lib.rs:395-440 | One tick with successful requests catches up from any waiting state, except exactly if the head is already recorded over other content |
| `WatcherProgress.StoppedExactlyWhen` | crates/tonin-config-github/src/lib.rs:395-455 | In every run the watcher has stopped exactly when a poll was refused for good or all receivers left; no other failure ends it |
| `WatcherProgress.FailureOnlyCostsTime` | crates/tonin-config-github/src/lib.rs:419-455 | Any other failed request leaves what is shown and recorded, and the watcher waiting for its next tick |
| `WatcherProgress.CanAlwaysCatchUp` | crates/tonin-config-github/src/lib.rs:395-440 | From every reachable state that is not stopped, the watcher's own steps lead to the head being recorded, and to its content being shown exactly if it was not already recorded over something else |
| `WatcherProgress.IntervalDoubles` | crates/tonin-config-github/src/lib.rs:391-481 | In every run the polling interval is the base one, or backed off by the number of polls that failed since one last brought the head: doubled for each, up to five minutes |
| `Watcher.BackoffIsCappedDoubling` | crates/tonin-config-github/src/lib.rs:469-481 | Backoff is the base doubled per failure and capped, if and only if the 32-bit factor has not saturated short of the cap |

## Left out

- Sockets, HTTP/2 framing, keep-alives, request headers, body read failures, draining and signals of the proxy: upstream
  calls and connects are steps with any outcome.
- How an outcome is read from gRPC trailers or an HTTP status: outcomes arrive classified by code.
- Breaker thresholds as floating point: a threshold is a fraction. Counters of breakers are unbounded; the pool's request
  counter wraps at 2^64.
- Cancellation is modelled more freely than it happens: a caller may leave at any time while it waits, and the flight goes
  on in the hands of the others or, at worst, of nobody.
- `Proxy.ProxyState.Handle`: handles one request alone, without the in-flight map; interleaving is the pipeline's matter.
- The client library's `call` wrapper, per-method caches and flight maps: the same protocol without breaker and retries;
  of it only the key derivation is modelled.
- `LockReads.DecodesExactly`: a service written as a positional array instead of a table is taken as malformed.
- TOML text: documents are trees of keyed items with opaque formatting; parsing and printing are taken as faithful.
- The lock trait's default `write_if_changed`, directory creation and other I/O errors of the lock store.
- Spans, line numbers and wording of schema and section errors; of an error the path and reason, or whether it names an
  unknown key, is modelled.
- `SchemaWalker.CamelCase`: does not model upper-casing outside ASCII, because the schema's keys are ASCII.
- The concrete schemas of most sections: the walker is verified for every schema; only callers and egress are spelled out,
  for the agreement with their resolvers.
- Which texts are IP addresses is a parameter (`Ranges.Addresses`): the standard library decides it.
- The order `callers.sort()` sorts by within a plan is a parameter; the results hold for any order.
- `PipelineTheorems.OneFlightPerRequest`: a flight leaves the in-flight map and resolves in one step. In the code the map
  entry goes first (`crates/tonin-proxy/src/coalesce.rs:76-79`), so a new flight for the request can start just before the
  old one, its result already there, resolves.
- `PipelineTheorems.HitIsLastInsert`: a cache insert reads the clock in the same step. The code reads it just before
  (`crates/tonin-proxy/src/cache.rs:59-65`), so an entry can expire earlier by the time in between.
- Reading the file system when a workspace is loaded; plans arrive loaded.
- How helm parses `key=value` texts, and charts that compute image values: `--set-string` sets exactly the text it is given.
- The etcd watcher, authentication, telemetry, code generation and command-line plumbing.
- Remaining field validators of `tonin.toml` (workload, pod, stateful, config sections): one-branch checks.
