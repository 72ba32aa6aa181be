# icap-mock: a verified model

This project models the parts of icap-mock, a mock ICAP server, whose correctness is not visible from
any one function, and proves what they promise. `dafny verify dfyconfig.toml` checks all of it. Nothing
was executed.

## What is modelled

**Scenario registries.** `Scenarios` has scenarios, requests and the matching predicate; `LinearRegistry`
and `ScenarioRegistry` the linear registry, as list functions and as an object; `ShardedIndex` and
`ShardedRegistry` the sharded one, the same way; `MatchCache` and `CacheKeys` its match cache. Three layers
are proved: the index answers like the simple scan (`IndexInvariant`, `RegistryRuns`, `Refinement`), the
cache answers like the index (`CacheKeys`, `CachedAnswers`, `ShardedRegistry`), and the generation counter
makes both safe under concurrent mutation (`MatchProtocol`). `RefinementLimits` says exactly where the first
layer fails for received requests: `Refinement.IndexSafe` also asks that a scenario names no empty method,
but no received request has one (internal/server/protocol.go:88-90).

`MatchingLaws`, `RegistryLaws` and `MatchCacheRuns` say what all this means for a caller: which requests a
scenario matches, what files load as, which calls are refused, whom an added scenario gives way to, and what
the cache holds.

**Route cache and router.** `RouteCaching`, `RouteCacheLaws` and `Routing`: a linked list and a map with expiry
and occasional promotion, in front of a route table, with each public operation atomic.

**Array algorithms.** `EditDistance` for the command suggestion; `OrderStatistics` and `AdaptiveTimeouts`
for the latency percentile over a ring buffer.

**Line reader.** `LineReader`: a bulk scanner over a refillable buffer against byte-at-a-time reading.

**Step protocols.** `StorageShutdown` and `BatchFiles` for the file store, `Debounce` for the scenario
watcher, `TerminalAccounting` and `ConnectionHandler` for request accounting.

**Transformations.** `Substitution` for placeholders in responses, `RoutingResolution` for the routing
declarations of scenario files.

An object the source updates in place is a class whose methods are proved against a function of the old
state; what the source promises is then proved of that function, over every run. Goroutines are step
machines: a run is any sequence of possible steps.

## Where code and promise differ

The code is modelled as it is. Each difference below has its exact condition or a concrete run.

- A literal endpoint with one of `* ? [ ( + $ .` in it is indexed under a cut key that its own requests never
  search, so a lower-ranked scenario found through the index is answered instead
  (`RefinementLimits.CutEndpointIsShadowed`, `RefinementLimits.DottedEndpointIsMissed`).
- The default copies a fresh sharded registry starts with are not indexed, so they lose to any indexed
  scenario, also to one they outrank (`RefinementLimits.FreshDefaultIsShadowed`).
- For the same reason, adding the unchanged default to such a registry changes answers
  (`RegistryLaws.FreshDefaultAgainExactly`); adding any other registered scenario again does not
  (`RegistryLaws.AddAgainChangesNoAnswer`).
- The request parser takes the scheme `icap://` without regard to case (internal/server/protocol.go:92-93), but
  only the lower-case one is recognised when scenarios look for the path; otherwise the host stays in it
  (`Scenarios.PathNeedsLowerCaseScheme`).
- The match cache's key is ambiguous when a part contains `|`, and does not tell a missing HTTP part from one
  whose method and URI are both empty, which is received like any other (internal/server/protocol.go:336-345).
  The cached answer to a request is always right if and only if it contains no `|` and has an HTTP method or URI
  (`CacheKeys.KeyIdentifiesExactly`, `CachedAnswers.AnsweredRightlyExactly`).
- The route cache's key is ambiguous for verbs that contain `:/`. The request parser admits no such verb
  (`Routing.AmbiguousVerbMisroutes`).
- `ReadBoundedLine` on a closed buffer with a limit of zero or less reports the closed pipe, where the bytewise
  reader reports the short buffer (`LineReader.BulkIsBytewise`).
- A second `Close` of the file store returns nil before the queue is drained. A returned `Close` keeps the
  promise in every run if and only if it found the store open when it took the lock
  (`StorageShutdown.PromiseHoldsExactlyWhenOpen`, `StorageShutdown.ClosePromisesExactly`).
- Debounce numbers start again after a commit, so an overdue callback can reload for a newer event without its
  wait. That needs an event of the path while a fired callback of it still waits for the lock: without one the
  wait is always kept, and one such callback is enough to skip it
  (`Debounce.WaitIsKeptExactlyWithoutLateCallbacks`).
- A sample size below the minimum number of data points switches the adaptive timeout off
  (`AdaptiveTimeouts.AdaptsExactlyWithEnoughSamples`). The fallback is not clamped: the timeout in force always
  lies within the bounds if and only if the fallback does (`AdaptiveTimeouts.CurrentWithinBoundsExactly`).
- A file that has reached its record count has no rotation asked for between the release of the mutex and the
  signal; the rotation is late and not lost (`BatchFiles.DueRotationIsNotLost`).
- A captured value that contains the escape sentinel, or ends like the beginning of one, changes the response
  around it (`Substitution.SinglePassExactlyWhenClean`).

## Preconditions of the registry results

Scenario names are distinct within a file. Exact routes are valid and repeated in the endpoint list, as every
converted scenario's are (`RoutingResolution.ConvertedIsWellFormed`). `Refinement.SafeContents` is what a
caller can check on a registry: every scenario indexed by its single endpoint has an uncut one and names no
empty method, and the unindexed default copies, where there are any, are outranked. `CacheKeys.Identifying`
is the same for a request's cache key, and `CacheKeys.ToldApart` its weaker form against the requests asked so
far. `CachedAnswers.AnsweredRightlyExactly` takes it that the regular expression `.*` matches the empty URI.

## Model

| member | source | states |
|---|---|---|
| `Scenarios.LookupPath` | internal/storage/sharded_scenario.go:376-382 | The path a request is sharded by begins with a slash and holds no query and no fragment, for every URI |
| `Scenarios.PathOfUri` | internal/storage/scenario.go:1215-1226 | For every host, path and query or fragment, the path a request is sharded by and the one its endpoints are matched against are both what stands between the host and the query or fragment |
| `Scenarios.PathOfBareHost` | internal/storage/scenario.go:1458-1469 | A URI without a slash after the host asks for the root |
| `Scenarios.PathNeedsLowerCaseScheme` | internal/storage/scenario.go:1458-1469 | A URI whose scheme the parser takes without regard to case has its path found if and only if the scheme is in lower case; otherwise the host stays in it |
| `Scenarios.MatchedPathIsShardedPath` | internal/storage/scenario.go:1215-1243 | The path endpoints are matched against is the path the request was sharded by, although the two are cut in different ways |
| `Scenarios.ScanFindsBest` | internal/storage/sharded_scenario.go:597-633 | A scan in any order ends with a hit that nothing it saw outranks, or with nothing when nothing was hit |
| `Scenarios.BestIsUnique` | internal/storage/sharded_scenario.go:1194-1205 | With distinct orders, at most one scenario can be the best match of a registry |
| `Scenarios.ExtractPath` | internal/storage/scenario.go:1458-1469 | Every URI gives a path that begins with a slash |
| `MatchingLaws.MatchesExactly` | internal/storage/scenario.go:955-1075 | For every scenario, and a request for any path at any host with any query or fragment: it matches if and only if method and endpoint fit, as pairs or as a product, HTTP method and URL fit, and the other rules do |
| `MatchingLaws.LiteralEndpointMatches` | internal/storage/scenario.go:1176-1243 | A scenario for one method and one literal path is hit by every request for them, query or not, and by no other |
| `Text.HasCaptureExactly` | internal/storage/scenario.go:1176-1206 | An endpoint has a capture if and only if some stretch of it is a name in braces |
| `LinearRegistry.SortRanks` | internal/storage/sharded_scenario.go:1188-1192 | Sorting by priority descending and order ascending leaves no scenario behind one it outranks, and permutes the list |
| `LinearRegistry.FirstMatchIsBest` | internal/storage/scenario.go:912-948 | On a sorted list the first match is a best match of the whole list |
| `LinearRegistry.OrderForAddBySet` | internal/storage/sharded_scenario.go:1207-1224 | The order an added scenario gets depends only on which scenarios are registered, so both registries give the same one |
| `LinearRegistry.RemoveFirstElems` | internal/storage/scenario.go:1581-1593 | Removing the first scenario of a name removes that name and nothing else, when names are distinct |
| `LinearRegistry.TopologyBySet` | internal/storage/scenario.go:55-100 | The reload check depends only on which scenarios are registered, not on how they are listed |
| `RegistryLaws.AddOutcome` | internal/storage/scenario.go:1535-1578 | After an Add exactly the other names and the new scenario are listed, ranked; it has its namesake's order, or one above all others when its name is new |
| `RegistryLaws.NewNameRanksBehind` | internal/storage/sharded_scenario.go:1194-1224 | A scenario of a new name ranks behind everything of its priority or a higher one, and before the rest |
| `RegistryLaws.AnswerAfterAdd` | internal/storage/scenario.go:912-948 | Adding a new name takes over exactly the requests it matches whose answer had a lower priority, or that had none |
| `RegistryLaws.AddAgainChangesNoAnswer` | internal/storage/scenario.go:1535-1578 | After any run, adding a registered scenario again, unchanged, changes no answer of the linear registry, and none of the sharded one, save for the unindexed default of a fresh registry without safe contents |
| `RegistryLaws.FreshDefaultAgainExactly` | internal/storage/sharded_scenario.go:912-957 | The exception is exact: with one indexed scenario on a fresh registry, adding the default again leaves a matching request's answer alone if and only if the scenario outranks the default |
| `RegistryLaws.AnswerBySet` | internal/storage/sharded_scenario.go:571-695 | What the sharded search answers depends on which scenarios are registered alone, safe contents or not |
| `RegistryLaws.AddRefusedExactly` | internal/storage/scenario.go:623-660 | An Add is refused, and changes nothing, if and only if the scenario is nil, has no name, does not compile, or has exact routes with another method, no endpoint, a blank one or one twice |
| `RegistryLaws.ValidatesExactly` | internal/storage/scenario.go:623-660 | Validation passes exactly for a named scenario with valid pairs that compiles |
| `RegistryLaws.LoadsExactly` | internal/storage/scenario.go:455-513 | A file loads if and only if it can be read and all its scenarios validate; the list holds each with its place in the file, a default if the file names none, and nothing else |
| `RegistryLaws.FileOrderBreaksTies` | internal/storage/sharded_scenario.go:1194-1205 | Of two scenarios of a file the earlier ranks first, unless the later has the higher priority |
| `RegistryLaws.LoadedAnswersEverything` | internal/storage/scenario.go:455-513 | A loaded list answers every request, unless the file brings a default of its own |
| `RegistryLaws.LoadOutcome` | internal/storage/scenario.go:455-513 | A Load that fails changes nothing; one that succeeds puts list and path in force |
| `RegistryLaws.RemoveOutcome` | internal/storage/scenario.go:1581-1593 | A Remove is refused if and only if nobody has the name; else that scenario goes and no other |
| `RegistryLaws.ReloadRefusedExactly` | internal/storage/scenario.go:85-113 | A Reload of a file that loads is refused if and only if a scenario on either side has exact routes and some endpoint is declared on one side only; else it does what Load does |
| `RegistryLaws.ReloadsRefusedAlike` | internal/storage/sharded_scenario.go:806-823 | After any run the sharded registry refuses a reload for exactly the same reason |
| `RegistryLaws.ReloadAfterLoad` | internal/storage/scenario.go:1500-1521 | On both registries and after any run, a Reload after a Load is refused exactly for a changed endpoint, and otherwise in force |
| `RegistryLaws.ReloadUnchangedIsAdmitted` | internal/storage/scenario.go:1500-1521 | Reloading what was just loaded is admitted and changes nothing, on either registry |
| `RegistryLaws.CacheIsOffExactly` | internal/storage/sharded_scenario.go:714-747 | After any run the match cache is off if and only if some registered scenario looks at more than method, endpoint and HTTP method and URL, has branches, or captures |
| `ScenarioRegistry.LinearScenarioRegistry.ReadFile` | internal/storage/scenario.go:455-513 | Reading a file gives nothing if any scenario is invalid, else the list with a default added if missing, numbered by position, and ranked |
| `ScenarioRegistry.LinearScenarioRegistry.Load` | internal/storage/scenario.go:455-513 | Load does to the list and the path what the linear step says, and changes nothing on failure |
| `ScenarioRegistry.LinearScenarioRegistry.Reload` | internal/storage/scenario.go:1500-1521 | Reload without a path is a no-op; otherwise the list is replaced, unless loading fails or the exact-route topology changes |
| `ScenarioRegistry.LinearScenarioRegistry.Add` | internal/storage/scenario.go:1535-1578 | Add replaces the scenario of the same name and keeps its order, or appends with a fresh order, and keeps the list ranked; nil and invalid scenarios are refused |
| `ScenarioRegistry.LinearScenarioRegistry.Remove` | internal/storage/scenario.go:1581-1593 | Remove takes out the named scenario or reports that there is none |
| `ScenarioRegistry.LinearScenarioRegistry.Match` | internal/storage/scenario.go:912-948 | The loop returns the first match, which on a ranked list is a best match |
| `IndexInvariant.HomeOf` | internal/storage/sharded_scenario.go:271-304 | A scenario that is not global has a shard with keys for it |
| `IndexInvariant.PlaceRepresents` | internal/storage/sharded_scenario.go:271-327 | Placing one scenario keeps the index invariant: it is in the global list, or in exactly the shards of its literal paths and under exactly its keys |
| `IndexInvariant.PlaceAllRepresents` | internal/storage/sharded_scenario.go:228-268 | Placing a whole file into empty shards establishes the index invariant |
| `IndexInvariant.RemovedRepresents` | internal/storage/sharded_scenario.go:968-1014 | Removing a name restores the invariant for the remaining scenarios, in every shard, index entry and the global list |
| `IndexInvariant.HeldIsRegistered` | internal/storage/sharded_scenario.go:968-1014 | A name found anywhere in the shards or the global list is registered |
| `IndexInvariant.RegisteredIsHeld` | internal/storage/sharded_scenario.go:968-1014 | A registered name is found somewhere, so Remove reports it as removed |
| `IndexInvariant.DisabledFlagRecomputed` | internal/storage/sharded_scenario.go:1028-1054 | The flag recomputed after a removal is set exactly when some remaining scenario has dynamic rules, captures or branches |
| `IndexInvariant.ShardsHold` | internal/storage/sharded_scenario.go:271-304 | All shards together hold exactly the registered scenarios that are not global, and the default copies of a fresh registry |
| `IndexInvariant.ListIsFull` | internal/storage/sharded_scenario.go:867-909 | List holds every registered scenario once, although a scenario may sit in several shards |
| `RegistryRuns.LoadedRepresents` | internal/storage/sharded_scenario.go:228-268 | After Load the contents represent exactly the scenarios of the file |
| `RegistryRuns.AddedRepresents` | internal/storage/sharded_scenario.go:912-957 | After Add the contents represent the registered scenarios with the one of that name replaced |
| `RegistryRuns.Step` | internal/storage/sharded_scenario.go:806-966 | Load, Add, Remove and Reload, each done on both registries, keep the two equal in scenarios, and return the same error |
| `RegistryRuns.RunsAgree` | internal/storage/sharded_scenario.go:806-966 | After any run of operations the index invariant holds, both registries hold the same scenarios, and they have reported the same errors |
| `Refinement.IndexCovers` | internal/storage/sharded_scenario.go:597-662 | Any request a shard-resident, index-safe scenario matches searches one of its keys in a shard that holds it |
| `Refinement.IndexSearchIsBest` | internal/storage/sharded_scenario.go:597-633 | The index search returns a best match of exactly the registered scenarios the request searches for |
| `Refinement.AnswerIsBest` | internal/storage/sharded_scenario.go:571-683 | Index, full scan and global list together give a best match of everything registered, when the contents are safe |
| `Refinement.ShardedRefinesLinear` | internal/storage/sharded_scenario.go:571-683 | After any run, for every request, the sharded search returns exactly what the linear first-match scan returns, and nothing when that finds none |
| `RefinementLimits.SearchedExactlyWhenUncut` | internal/storage/sharded_scenario.go:442-463 | A matching scenario indexed by its single endpoint is searched for if and only if the endpoint contains none of the cut characters |
| `RefinementLimits.CutEndpointIsShadowed` | internal/storage/sharded_scenario.go:442-463 | Next to a lower-ranked exact route on its path, such a scenario is answered rightly if and only if its endpoint is uncut |
| `RefinementLimits.DottedEndpointIsMissed` | internal/storage/sharded_scenario.go:442-463 | A concrete failing input: an endpoint with a dot, a request for it at a host, and a lower-ranked scenario that is answered instead |
| `RefinementLimits.FreshDefaultIsShadowed` | internal/storage/sharded_scenario.go:188-193 | On a fresh registry one added scenario is answered rightly if and only if it outranks the unindexed default copies |
| `CacheKeys.AnswerByFields` | internal/storage/sharded_scenario.go:714-747 | While the cache is on, the answer depends only on ICAP method, URI, HTTP method and HTTP URI |
| `CacheKeys.KeyIdentifiesExactly` | internal/storage/sharded_scenario.go:695-712 | The joined key identifies those fields, against every other request, if and only if no part contains the separator and the HTTP method and URI are not both empty |
| `CacheKeys.PipeCollides` | internal/storage/sharded_scenario.go:695-712 | For every request with a separator in a part there is another with the same key and different fields |
| `CacheKeys.EmptyHttpCollides` | internal/storage/sharded_scenario.go:695-712 | A request with neither HTTP method nor HTTP URI shares its key with its twin that has an HTTP part where it has none, or none where it has an empty one |
| `CacheKeys.SharedKeySharedAnswer` | internal/storage/sharded_scenario.go:534-569 | While the cache is on, a request the caller can tell apart has the same answer as any earlier request of its key, so the entry of one may serve the other |
| `CacheKeys.NoPipesIdentifies` | internal/storage/sharded_scenario.go:695-712 | Among requests of one key, one of them without separators, the fields agree if and only if the HTTP part is named or both have it or both lack it |
| `CacheKeys.EnabledHitsByFields` | internal/storage/sharded_scenario.go:714-747 | A scenario that leaves the cache on is hit or not by the keyed fields alone |
| `CachedAnswers.AnsweredRightlyExactly` | internal/storage/sharded_scenario.go:467-569 | Match through the cache answers a request rightly, on every registry and after any requests served before, if and only if its own parts hold no separator and its HTTP method and URI are not both empty |
| `CachedAnswers.UnidentifiedIsAnsweredWrongly` | internal/storage/sharded_scenario.go:534-569 | For every other request, on a cache of any size: one loaded scenario and one request served first after which the cached answer is the wrong scenario |
| `CachedAnswers.ToldApartIsAnsweredRightly` | internal/storage/sharded_scenario.go:534-569 | On a given registry, after given requests, the answer through the cache is the one a search would give |
| `MatchCache.GetOnlyReturnsEntries` | internal/storage/sharded_scenario.go:1088-1104 | A hit is an entry of that key and that generation; a stale entry is never returned |
| `MatchCache.PutOnlyAddsOne` | internal/storage/sharded_scenario.go:1112-1140 | Storing adds at most the stored entry |
| `MatchCache.ScenarioMatchCache.Unlink` | internal/storage/sharded_scenario.go:1154-1161 | Taking a node out leaves a consistent doubly linked chain without it |
| `MatchCache.ScenarioMatchCache.AddToFront` | internal/storage/sharded_scenario.go:1164-1169 | Linking a node behind the sentinel head leaves a consistent chain with it in front |
| `MatchCache.ScenarioMatchCache.GetGeneration` | internal/storage/sharded_scenario.go:1088-1104 | The heap lookup is the list lookup, including the move to the front on a hit |
| `MatchCache.ScenarioMatchCache.PutGeneration` | internal/storage/sharded_scenario.go:1112-1140 | The heap store is the list store: update in place, or insert and evict the last when over capacity |
| `MatchCache.ScenarioMatchCache.Evict` | internal/storage/sharded_scenario.go:1172-1184 | Eviction drops the last entry of the chain and its key from the map, and nothing else |
| `MatchCache.ScenarioMatchCache.Clear` | internal/storage/sharded_scenario.go:1143-1151 | Clear leaves only the two sentinels |
| `MatchCache.ScenarioMatchCache.constructor` | internal/storage/sharded_scenario.go:212-225 | A new cache holds the two sentinels and no entry |
| `MatchCache.ScenarioMatchCache.MoveToFront` | internal/storage/sharded_scenario.go:1154-1169 | The entry becomes the first and the others keep their order |
| `MatchCacheRuns.HitExactly` | internal/storage/sharded_scenario.go:1082-1141 | A lookup after any run finds a scenario if and only if it was the last stored for the key, under the generation asked for, and the key is among those used last, as many as the cache has room for |
| `MatchCacheRuns.HoldsLastUsed` | internal/storage/sharded_scenario.go:1112-1184 | After any run the cache holds exactly the keys used last, as many as fit, the one used last in front, so the victim is the least recently used |
| `MatchCacheRuns.RecentIsByLastUse` | internal/storage/sharded_scenario.go:1154-1169 | The recent keys stand in the order of their last use |
| `MatchCacheRuns.EntryIsLastStored` | internal/storage/sharded_scenario.go:1112-1141 | What an entry holds is what was stored last for its key |
| `ShardedRegistry.RemoveNamed` | internal/storage/sharded_scenario.go:968-1014 | The in-place removal loop removes every scenario of the name and reports whether there was one |
| `ShardedRegistry.UniqueScenarioPointers` | internal/storage/sharded_scenario.go:888-909 | The loop keeps first occurrences, and of all default copies only the first |
| `ShardedRegistry.BuildSearchKeys` | internal/storage/sharded_scenario.go:637-662 | The keys are the exact, wildcard and every slash-bounded prefix key, longest prefix first |
| `ShardedRegistry.BuildIndexKeys` | internal/storage/sharded_scenario.go:400-438 | The keys are every method with every endpoint prefix, each once |
| `ShardedRegistry.RemoveFromIndex` | internal/storage/sharded_scenario.go:968-1014 | Every index entry loses the name, and entries left empty are deleted |
| `ShardedRegistry.ShardedScenarioRegistry.ExactRouteShardEntries` | internal/storage/sharded_scenario.go:306-327 | If all exact routes are literal, the entries list exactly the keys of each shard; otherwise the scenario is refused |
| `ShardedRegistry.ShardedScenarioRegistry.IndexScenario` | internal/storage/sharded_scenario.go:271-333 | Updating shards one at a time places the scenario as the pure placement does, and nowhere else |
| `ShardedRegistry.ShardedScenarioRegistry.Load` | internal/storage/sharded_scenario.go:228-268 | Load takes the state to the sharded step, keeps every cache entry right, and ends on an even generation |
| `ShardedRegistry.ShardedScenarioRegistry.Add` | internal/storage/sharded_scenario.go:912-957 | Add takes the state to the sharded step, errors included, and leaves no cache entry of the new generation wrong |
| `ShardedRegistry.ShardedScenarioRegistry.Remove` | internal/storage/sharded_scenario.go:960-1054 | Remove takes the state to the sharded step, and the cache-disabled flag to its recomputed value |
| `ShardedRegistry.ShardedScenarioRegistry.Reload` | internal/storage/sharded_scenario.go:806-856 | Reload takes the state to the sharded step: load aside, check the topology, then replace |
| `ShardedRegistry.ShardedScenarioRegistry.List` | internal/storage/sharded_scenario.go:867-886 | List returns the ranked list of everything held, duplicates removed |
| `ShardedRegistry.ShardedScenarioRegistry.MatchInShard` | internal/storage/sharded_scenario.go:597-633 | Collecting candidates key by key and scanning them gives the index search of that shard |
| `ShardedRegistry.ShardedScenarioRegistry.FallbackMatch` | internal/storage/sharded_scenario.go:751-798 | Scanning shard after shard with a shared seen-set gives the scan of all scenarios without repetitions |
| `ShardedRegistry.ShardedScenarioRegistry.Search` | internal/storage/sharded_scenario.go:571-594 | Index, then full scan, then the global candidate by rank, is the pure answer |
| `ShardedRegistry.ShardedScenarioRegistry.Match` | internal/storage/sharded_scenario.go:467-569 | Match returns what one lookup, search and store of the specification returns and leaves the entries it leaves, or searches when the cache is off; the answer is current for a served request of the same key, and every entry stays right |
| `ShardedRegistry.ShardedScenarioRegistry.MatchThroughCache` | internal/storage/sharded_scenario.go:534-569 | The cached way: a hit under the current generation, else the answer of a search, stored |
| `ShardedRegistry.ScanForBest` | internal/storage/sharded_scenario.go:597-633 | The scan loop gives the best match of its candidates |
| `ShardedRegistry.CrossKeys` | internal/storage/sharded_scenario.go:400-438 | One key per prefix and method, none twice although prefixes may repeat |
| `ShardedRegistry.BuildIndexPrefixes` | internal/storage/sharded_scenario.go:400-438 | The prefixes are those of all endpoints, or of the legacy path, or the wildcard |
| `ShardedRegistry.ScenarioShard.Append` | internal/storage/sharded_scenario.go:271-304 | The scenario joins the shard list and every index entry of its keys |
| `ShardedRegistry.ScenarioShard.RemoveName` | internal/storage/sharded_scenario.go:968-1014 | The name leaves the shard list and every index entry, and the result says whether it was there |
| `ShardedRegistry.ShardedScenarioRegistry.constructor` | internal/storage/sharded_scenario.go:158-201 | Every shard of a new registry starts with an unindexed default copy, at generation zero |
| `ShardedRegistry.ShardedScenarioRegistry.AddRouteEntries` | internal/storage/sharded_scenario.go:306-327 | One method's literal endpoints are added to the entries of their shards, each key once |
| `ShardedRegistry.ShardedScenarioRegistry.AppendEverywhere` | internal/storage/sharded_scenario.go:271-304 | Every shard with entries gets the scenario under exactly those keys, and no other shard changes |
| `ShardedRegistry.ShardedScenarioRegistry.RemoveEverywhere` | internal/storage/sharded_scenario.go:968-1014 | All shards and the global list lose the name, and the result says whether any had it |
| `ShardedRegistry.ShardedScenarioRegistry.RegistryDisablesMatchCache` | internal/storage/sharded_scenario.go:1035-1054 | The loop over shards and the global list finds a disabling scenario exactly when one is held |
| `ShardedRegistry.ShardedScenarioRegistry.BeginMutation` | internal/storage/sharded_scenario.go:228-268 | From the first step of a mutation no cache entry carries the generation in progress |
| `ShardedRegistry.ShardedScenarioRegistry.EndMutation` | internal/storage/sharded_scenario.go:228-268 | Ending a mutation on the next even generation makes the stale entries harmless |
| `ShardedRegistry.ShardedScenarioRegistry.LoadContents` | internal/storage/sharded_scenario.go:228-268 | Resetting all shards and placing the list gives the loaded contents |
| `ShardedRegistry.ShardedScenarioRegistry.AddContents` | internal/storage/sharded_scenario.go:912-957 | Removing the old scenario, placing the new one and updating the flag gives the added contents |
| `ShardedRegistry.ShardedScenarioRegistry.CopyContents` | internal/storage/sharded_scenario.go:825-864 | Copying another registry shard by shard gives its contents |
| `ShardedRegistry.ShardedScenarioRegistry.ReplaceValidated` | internal/storage/sharded_scenario.go:825-856 | The contents become those of the validated registry under a new generation, with every cache entry right |
| `ShardedRegistry.ShardedScenarioRegistry.FallbackShard` | internal/storage/sharded_scenario.go:751-798 | Scanning one more shard extends what has been seen and the best match of it |
| `ShardedRegistry.ShardedScenarioRegistry.CachedMatch` | internal/storage/sharded_scenario.go:534-544 | A hit is the current answer to some served request with the same key |
| `ShardedRegistry.ShardedScenarioRegistry.StoreMatchCache` | internal/storage/sharded_scenario.go:560-569 | Storing the current answer keeps every entry right |
| `MatchProtocol.NextKeeps` | internal/storage/sharded_scenario.go:467-569 | Every step of a Match call and of a mutation keeps the invariant: results, pending stores and cache entries are right for the generation they carry |
| `MatchProtocol.RunInv` | internal/storage/sharded_scenario.go:467-569 | The invariant holds after every interleaving of any number of calls with serialised mutations |
| `MatchProtocol.MatchIsAtomic` | internal/storage/sharded_scenario.go:467-569 | What a finished Match returns is the linear first match at one even generation, not before its begin and not after its end, provided those contents are safe and the caller's own request can be told apart by its key |
| `MatchProtocol.CacheStepRight` | internal/storage/sharded_scenario.go:534-544 | A cache hit under the generation read is the answer at that generation for the request that stored it |
| `MatchProtocol.StoreStepRight` | internal/storage/sharded_scenario.go:560-569 | A late store carries the generation it was searched at, for which it is right |
| `MatchProtocol.ScanStepRight` | internal/storage/sharded_scenario.go:751-798 | A scan read shard by shard is right if the generation has not moved |
| `MatchProtocol.MutatorKeeps` | internal/storage/sharded_scenario.go:228-268 | A mutation in progress may leave any contents without breaking the invariant |
| `MatchProtocol.CommitKeeps` | internal/storage/sharded_scenario.go:228-268 | A commit adds one generation whose contents correspond to the linear list after the same operation |
| `RouteCaching.EveryRunKeepsShape` | internal/router/cache.go:110-317 | After every run keys are distinct, the size is within the limit, entries made equal entries present plus evicted plus cleared, and the list is in order of last put or promotion |
| `RouteCaching.VictimIsLeastRecent` | internal/router/cache.go:167-204 | A put that has to make room evicts the entry least recently put or promoted, and no other |
| `RouteCaching.RouteCache.constructor` | internal/router/cache.go:78-89 | A new cache is empty, and a limit of zero or less means the default |
| `RouteCaching.RouteCache.AddToFront` | internal/router/cache.go:334-347 | Linking a node in front leaves a consistent null-terminated chain of exactly one more node |
| `RouteCaching.RouteCache.RemoveNode` | internal/router/cache.go:352-368 | Unlinking a node, at the head, the tail or between, leaves a consistent chain of the others in order |
| `RouteCaching.RouteCache.MoveToFront` | internal/router/cache.go:322-329 | The node becomes the first and the others keep their order |
| `RouteCaching.RouteCache.EvictKeyLocked` | internal/router/cache.go:308-317 | The key leaves chain and map together, and the bijection between them is kept |
| `RouteCaching.RouteCache.EvictLRU` | internal/router/cache.go:288-298 | The tail leaves chain and map together, or nothing happens on an empty cache |
| `RouteCaching.RouteCache.Get` | internal/router/cache.go:110-152 | The heap lookup is the list lookup: miss, expiry, or hit with promotion on each tenth access, and its counters |
| `RouteCaching.RouteCache.Put` | internal/router/cache.go:167-204 | The heap store is the list store: refresh in place and promote, or evict if full and insert |
| `RouteCaching.RouteCache.Delete` | internal/router/cache.go:215-220 | Delete drops the key if it is there and counts an eviction |
| `RouteCaching.RouteCache.Clear` | internal/router/cache.go:228-235 | Clear leaves no node and no key |
| `RouteCaching.PutKeeps` | internal/router/cache.go:167-204 | A put keeps keys, size, account and order of use |
| `RouteCaching.GetKeeps` | internal/router/cache.go:110-152 | A get keeps them too; only a promotion counts as use |
| `RouteCaching.RouteCache.Touch` | internal/router/cache.go:139-148 | Each access is counted, and each tenth one moves the node to the front |
| `RouteCaching.RouteCache.Insert` | internal/router/cache.go:190-203 | The new node joins chain and map together |
| `RouteCacheLaws.HitIsLastPutInTime` | internal/router/cache.go:110-152 | After any run a hit is the handler last put for the key, not deleted or cleared since, within its age limit |
| `RouteCacheLaws.FoundExactlyInTime` | internal/router/cache.go:118-130 | An entry that is there is found up to the very moment of its age limit and never after |
| `RouteCacheLaws.PutIsFoundAgain` | internal/router/cache.go:167-204 | What is put is found again after fewer than the limit of entries later operations, if none of them takes it away, exactly while it is in time |
| `RouteCacheLaws.EveryTenthUsePromotes` | internal/router/cache.go:139-148 | A lookup brings an entry to the front with every tenth use of it since it was made, and otherwise leaves the order alone |
| `RouteCacheLaws.UsesAreCounted` | internal/router/cache.go:139-180 | After any run an entry counts its puts and hits since it was made |
| `RouteCacheLaws.LookupsAreCounted` | internal/router/cache.go:110-152 | Hits and misses count the lookups that found something and those that did not |
| `Routing.RoutePath` | internal/router/router.go:294-330 | Every URI gives a path that begins with a slash and has no query |
| `Routing.PathOfUri` | internal/router/router.go:284-321 | For every scheme, host, path and query, the path is what stands between the host and the query |
| `Routing.PathOfBareHost` | internal/router/router.go:301-309 | A URI without a slash after the host asks for the root |
| `Routing.PathWithoutScheme` | internal/router/router.go:317-330 | Without a scheme, what stands before the query is the path, with a slash in front if it has none |
| `Routing.LastRegistrationServes` | internal/router/router.go:107-240 | After any run, a request for a path, with any scheme, host and query, goes to the handler last registered for that path |
| `Routing.FirstPatternServes` | internal/router/router.go:130-240 | A request for a path nobody registered goes to the first registered pattern that matches it, and is not found exactly when there is none |
| `Routing.KeyIsInjective` | internal/router/cache.go:371-373 | Keys of unambiguous verbs are equal only for equal verbs and paths |
| `Routing.CachedRoutingIsUncached` | internal/router/router.go:107-240 | After any run of registrations and requests, at any clock readings, a request goes to the handler last registered for its path, else to the first registered pattern that matches, else nowhere |
| `Routing.AmbiguousVerbMisroutes` | internal/router/cache.go:371-373 | The condition on verbs is exact: for every verb that can be read as a shorter verb and a longer path there is a run in which it is answered by the wrong handler |
| `Routing.Router.Handle` | internal/router/router.go:107-121 | An empty path or missing handler is refused and changes nothing; otherwise the route is replaced and the cache is empty |
| `Routing.Router.HandlePattern` | internal/router/router.go:130-142 | A missing pattern or handler is refused; otherwise the pattern is appended last and the cache is empty |
| `Routing.Router.LookupHandlerFunc` | internal/router/cache.go:418-438 | The cache-aware lookup is the pure one: a hit, or the table with the result stored |
| `Routing.Router.Serve` | internal/router/router.go:178-228 | Cache, exact route, then the first matching pattern, as the pure step says |
| `Routing.ServeIsUncached` | internal/router/router.go:178-228 | If every cached entry is a current route, one request is answered by the tables and leaves every entry a current route |
| `Routing.RunIsHonest` | internal/router/router.go:107-142 | After any run every cached entry is a current route, and the tables hold exactly the registrations |
| `Routing.Router.constructor` | internal/router/router.go:90-95 | A new router has no route, no pattern and an empty cache |
| `EditDistance.Levenshtein` | cmd/icap-mock/main.go:124-148 | The two-row program with swapped arrays computes the recurrence for all strings |
| `EditDistance.DistanceIsShortestScript` | cmd/icap-mock/main.go:123-148 | The distance is the least number of single-character insertions, deletions and replacements that turn one string into the other |
| `EditDistance.NoShorterScript` | cmd/icap-mock/main.go:123-148 | No script of single edits, applied anywhere, is shorter than the distance |
| `EditDistance.ScriptIsShort` | cmd/icap-mock/main.go:123-148 | One script is as short as the distance |
| `EditDistance.Symmetric` | cmd/icap-mock/main.go:124-148 | The distance is symmetric |
| `EditDistance.ZeroOnlyOnEqual` | cmd/icap-mock/main.go:124-148 | The distance is zero exactly on equal strings |
| `EditDistance.Triangle` | cmd/icap-mock/main.go:124-148 | The triangle inequality holds |
| `EditDistance.FindClosestCommand` | cmd/icap-mock/main.go:110-121 | The suggestion is the first of the nearest commands within three edits, and empty when there is none that near |
| `EditDistance.FillRow` | cmd/icap-mock/main.go:134-146 | The inner loop computes one row of the recurrence from the row above |
| `EditDistance.EditCostsOne` | cmd/icap-mock/main.go:124-148 | One edit anywhere in a string changes the distance by at most one |
| `OrderStatistics.SortedIsUnique` | internal/handler/adaptive_timeout.go:280-292 | A multiset has one sorted arrangement, so the order statistic is well defined with duplicates |
| `OrderStatistics.SelectedIsOrderStatistic` | internal/handler/adaptive_timeout.go:280-292 | In any arrangement, a position with nothing larger before it and nothing smaller after it holds the element of that rank |
| `OrderStatistics.SortedHasRank` | internal/handler/adaptive_timeout.go:255-292 | The element at a position after sorting has more than that many elements at most it, and all but that many at least it |
| `OrderStatistics.RankIsUnique` | internal/handler/adaptive_timeout.go:280-292 | Only one element has a given rank |
| `OrderStatistics.Partition` | internal/handler/adaptive_timeout.go:316-332 | Only the range is rearranged, the last element ends at the returned position, and it divides the range |
| `OrderStatistics.Quickselect` | internal/handler/adaptive_timeout.go:292-312 | Terminates, rearranges only the range, and returns the element of that rank in its sorted order |
| `OrderStatistics.Swap` | internal/handler/adaptive_timeout.go:316-332 | A swap rearranges only the range |
| `OrderStatistics.LeftSide` | internal/handler/adaptive_timeout.go:302-306 | Selecting in the part before the pivot divides the whole range |
| `OrderStatistics.RightSide` | internal/handler/adaptive_timeout.go:307-311 | Selecting in the part after the pivot divides the whole range |
| `AdaptiveTimeouts.EndpointStats.Insert` | internal/handler/adaptive_timeout.go:175-183 | The ring keeps exactly the last durations, each at its number modulo the size |
| `AdaptiveTimeouts.EndpointStats.CopyWindow` | internal/handler/adaptive_timeout.go:255-268 | The copy is the last durations in order, at most the sample size, whether or not the ring has wrapped |
| `AdaptiveTimeouts.AdaptiveTimeoutTracker.CalculateP95` | internal/handler/adaptive_timeout.go:255-278 | The result is the selected order statistic of the window, or the fallback without data |
| `AdaptiveTimeouts.AdaptiveTimeoutTracker.AdjustTimeout` | internal/handler/adaptive_timeout.go:227-241 | What is published is the clamped, truncated multiple of that statistic, for this endpoint only |
| `AdaptiveTimeouts.AdaptiveTimeoutTracker.RecordDuration` | internal/handler/adaptive_timeout.go:153-197 | A call takes its endpoint to the recording step and leaves every other endpoint as it was |
| `AdaptiveTimeouts.AdaptiveTimeoutTracker.GetTimeout` | internal/handler/adaptive_timeout.go:210-223 | The published timeout, or the fallback |
| `AdaptiveTimeouts.AdaptiveTimeoutTracker.constructor` | internal/handler/adaptive_timeout.go:107-142 | Missing or negative settings become defaults, and no endpoint is known |
| `AdaptiveTimeouts.PublishedIsExplained` | internal/handler/adaptive_timeout.go:153-251 | After any calls the history is all durations in order. Nothing is published while no call was due, by count or by time, with enough durations; otherwise the timeout is the ranked, multiplied and bounded one of the durations up to the last such call, and the time its time |
| `AdaptiveTimeouts.TimeoutForIs` | internal/handler/adaptive_timeout.go:227-241 | The timeout for a history is the element of the percentile's rank among the last durations, as many as a sample has, times the multiplier, the fraction dropped, held between the bounds |
| `AdaptiveTimeouts.CurrentIsExplained` | internal/handler/adaptive_timeout.go:199-241 | The timeout in force is that one for the durations up to the last adjusting call, and the fallback while no call has adjusted |
| `AdaptiveTimeouts.DefaultsFillIn` | internal/handler/adaptive_timeout.go:107-130 | Each setting that makes sense stays, each other gets its default; with none at all timeouts lie within the bounds |
| `AdaptiveTimeouts.PublishedWithinBounds` | internal/handler/adaptive_timeout.go:235-241 | A published timeout never exceeds the maximum, and reaches the minimum if and only if the minimum is not above the maximum |
| `AdaptiveTimeouts.CurrentWithinBoundsExactly` | internal/handler/adaptive_timeout.go:199-241 | The timeout in force lies within the bounds after all calls if and only if the fallback does |
| `AdaptiveTimeouts.AdaptsExactlyWithEnoughSamples` | internal/handler/adaptive_timeout.go:187-194 | A timeout can ever be published if and only if the sample size reaches the minimum number of data points |
| `AdaptiveTimeouts.AdaptiveTimeoutTracker.AddEndpoint` | internal/handler/adaptive_timeout.go:157-174 | A new endpoint starts with no history, and no other changes |
| `LineReader.BulkIsBytewise` | internal/server/lifecycle.go:181-197 | The two readers agree in line, error and everything they leave behind, if and only if the buffer is not both closed and without room |
| `LineReader.BulkLineIsLineOfEvents` | internal/server/connection.go:244-299 | The line is the first bytes met, in order; at most the limit is consumed; the newline ends it and stands nowhere else; it ends early only for the limit or at a failure |
| `LineReader.LineSeesOnlyEvents` | internal/server/connection.go:247-299 | The reader sees the bytes and failures of the source in order, and not the chunks, the buffer size, or which chunk an error came with |
| `LineReader.SplittingDoesNotMatter` | internal/server/connection.go:247-299 | Two sources that split the same data differently give the same lines and errors |
| `LineReader.SegmentsAreBytes` | internal/server/connection.go:247-299 | Scanning in whole segments is reading byte by byte: same line, same error, same buffer, positions, saved error and source, for every chunking and limit |
| `LineReader.TakeSegment` | internal/server/connection.go:276-293 | Taking a whole buffered segment equals taking its bytes one by one |
| `LineReader.PooledBuffer.Fill` | internal/server/connection.go:258-274 | The refill step of every reader: a saved error first, then one read, whose error is kept while there is data |
| `LineReader.PooledBuffer.ReadByte` | internal/server/connection.go:142-173 | One byte or one error, as the specification says, with the state it leaves |
| `LineReader.PooledBuffer.ReadBoundedLine` | internal/server/connection.go:247-299 | The bulk loop returns the bytewise line and leaves the same buffer, positions, saved error and source |
| `LineReader.PooledBuffer.ReadBytes` | internal/server/connection.go:303-354 | The unbounded loop reads as with any limit beyond what the source has |
| `LineReader.ReadBoundedLineBytes` | internal/server/lifecycle.go:181-197 | The byte-at-a-time loop over ReadByte returns the bytewise line and leaves the state the specification says |
| `LineReader.RefillEvents` | internal/server/connection.go:258-274 | Refilling loses, adds and reorders nothing; a failure is reported once and in its place |
| `LineReader.NextByteIsNextEvent` | internal/server/connection.go:142-173 | Each byte read is the next byte or failure of the source |
| `LineReader.PooledBuffer.SegmentLength` | internal/server/connection.go:276-280 | The segment ends with the first newline buffered, or with the buffer |
| `LineReader.PooledBuffer.TakeBuffered` | internal/server/connection.go:276-297 | One turn of the bulk loop takes what is buffered of the line, up to the limit |
| `LineReader.PooledBuffer.constructor` | internal/server/connection.go:61-72 | A new buffer is empty and reads on where its source stands |
| `StorageShutdown.EveryRunKeepsInv` | internal/storage/filesystem.go:154-225 | In every interleaving accepted is handled, then being written, then queued; the pending counter is exact; nobody is where the locks forbid; and one Close call wins, one that found the store open |
| `StorageShutdown.HandledInOrder` | internal/storage/filesystem.go:193-225 | Handled records are a prefix of the accepted ones: once each and in order |
| `StorageShutdown.CloseDrains` | internal/storage/filesystem.go:871-888 | From the moment a Close call stops waiting, every accepted record has been handled |
| `StorageShutdown.WinningCloseKeepsItsPromise` | internal/storage/filesystem.go:871-888 | The call that won the swap returns only when every accepted record has been handled, in every run |
| `StorageShutdown.ClosePromisesExactly` | internal/storage/filesystem.go:871-888 | A Close call that has just taken the lock returns drained in every continuation if and only if it found the store open, or there is nothing left to handle already |
| `StorageShutdown.PromiseHoldsExactlyWhenOpen` | internal/storage/filesystem.go:871-888 | The promise of a returned Close holds in every run for the calls that found the store open, and for those only |
| `StorageShutdown.LosingCloseReturnsAtOnce` | internal/storage/filesystem.go:876-882 | A call that finds the store marked returns by three steps of its own, whatever is still queued |
| `StorageShutdown.NoSendAfterClose` | internal/storage/filesystem.go:154-189 | No call can send once the store is marked closed, so none sends on the closed channel |
| `StorageShutdown.NothingAcceptedAfterClose` | internal/storage/filesystem.go:154-189 | After the mark, whatever happens, no further record is accepted, and handled records stay handled |
| `StorageShutdown.RefusedExactlyWhenFull` | internal/storage/filesystem.go:175-189 | In every run a record about to be sent is refused if and only if a full queue of accepted ones stands before it |
| `StorageShutdown.QueueIsBounded` | internal/storage/filesystem.go:175-189 | The queue never holds more than its capacity |
| `StorageShutdown.FlushDrains` | internal/storage/filesystem.go:923-950 | When Flush has seen nothing pending, everything accepted has been handled |
| `StorageShutdown.WaitersCanProceed` | internal/storage/filesystem.go:193-225 | While Flush or a Close call waits, a step of the goroutine it waits for, or its own next step, is possible |
| `StorageShutdown.SecondCloseReturnsEarly` | internal/storage/filesystem.go:876-882 | A run in which a second Close call has returned while an accepted record is still queued |
| `StorageShutdown.StepKeepsOrder` | internal/storage/filesystem.go:154-225 | Each step keeps every accepted record handled, in hand, or queued, in order |
| `StorageShutdown.StepKeepsCount` | internal/storage/filesystem.go:154-225 | Each step keeps the pending counter exact, also when the queue is full and a record is refused |
| `StorageShutdown.StepKeepsLocks` | internal/storage/filesystem.go:154-225 | Each step keeps the exclusions the lock, the closed flag and the wait group are for |
| `StorageShutdown.StepKeepsCloses` | internal/storage/filesystem.go:871-888 | Each step keeps one winner among the Close calls, the lock with its holder, and the flags with what the winner has done |
| `BatchFiles.FilesHoldKeptRecords` | internal/storage/filesystem.go:231-410 | With locked writes, signals and rotation interleaved anywhere, the files in creation order hold exactly the records that encode, fit and pass the disk check, in order, and none exceeds a positive size limit |
| `BatchFiles.DueRotationIsNotLost` | internal/storage/filesystem.go:301-410 | A file that has reached the record count always has a rotation under way, signalled, or about to be signalled by the writer that has just released the mutex |
| `BatchFiles.WriteOpensFileExactly` | internal/storage/filesystem.go:334-371 | After any run a kept record goes to the newest file, unless it would take that file, not empty, past the size limit: then alone into a new one; and a rotation is seen due if and only if the file has reached the count |
| `BatchFiles.RotationsAreEarned` | internal/storage/filesystem.go:231-410 | In every interleaving each rotation by count answers a write of its own that saw one due |
| `BatchFiles.NamesFollowCreation` | internal/storage/filesystem.go:414-477 | With a clock that does not go back, file names rise with creation |
| `BatchFiles.FileStorage.WriteRequest` | internal/storage/filesystem.go:286-410 | Each way out, error or not, leaves the directory and counters that the locked step and then the signal leave |
| `BatchFiles.FileStorage.SignalRotationIfNeeded` | internal/storage/filesystem.go:399-410 | A rotation seen due is signalled, unless the channel is full |
| `BatchFiles.FileStorage.WriteEncodedRequestLocked` | internal/storage/filesystem.go:334-379 | Open if needed, rotate for size, append and count; and whether a rotation is due |
| `BatchFiles.FileStorage.RotateFile` | internal/storage/filesystem.go:437-477 | The next file is opened under the next counter and its record count starts at zero |
| `BatchFiles.FileStorage.TakeRotationSignals` | internal/storage/filesystem.go:249-259 | The drain loop takes the waiting signals one by one until there is none, for one rotation |
| `BatchFiles.WrittenKeeps` | internal/storage/filesystem.go:286-398 | Writing one record appends exactly it, in the newest file, within the limit |
| `BatchFiles.FileStorage.constructor` | internal/storage/filesystem.go:91-125 | A new store has one open, empty file |
| `BatchFiles.FileStorage.InitBatchFile` | internal/storage/filesystem.go:414-431 | The file of the date and counter is opened for appending, created if it is not there |
| `BatchFiles.FileStorage.RotateFileLocked` | internal/storage/filesystem.go:443-477 | The counter rises by one and its file is opened |
| `BatchFiles.FileStorage.RotateForSizeIfNeededLocked` | internal/storage/filesystem.go:359-371 | A new file is opened only when the current one is not empty and the record would pass the limit |
| `Debounce.EveryRunKeepsPromises` | internal/storage/scenario_watcher.go:242-267 | In every interleaving each path with a number has a live callback that carries it, and callbacks, commits and reloads are bounded by events |
| `Debounce.NumberIsOwed` | internal/storage/scenario_watcher.go:246-262 | The current number of a path is the number of its events since its last commit or Stop |
| `Debounce.EventIsServedOrPending` | internal/storage/scenario_watcher.go:242-267 | No change is lost: each event is followed by a committed reload of its path or by Stop, or a callback with the current number is still to run |
| `Debounce.ReloadsNeverOutnumberEvents` | internal/storage/scenario_watcher.go:242-267 | Reloads never outnumber events, although numbers start again after each commit |
| `Debounce.OnlyTheLastReloads` | internal/storage/scenario_watcher.go:242-262 | While its path has not been served since, a callback reloads if and only if it is the one of the path's last event |
| `Debounce.ReloadsExactly` | internal/storage/scenario_watcher.go:254-262 | In every interleaving a callback reloads if and only if as many events are owed to its path as when it was armed |
| `Debounce.OverdueCallbackSkipsTheWait` | internal/storage/scenario_watcher.go:254-262 | A run, for any path, in which an overdue callback can commit while the newer event's own timer is still armed |
| `Debounce.WaitIsKeptExactlyWithoutLateCallbacks` | internal/storage/scenario_watcher.go:242-267 | After any run whose events found no fired callback of the path waiting for the lock, the wait can be skipped, with no other callback ever late, if and only if one waits now |
| `Debounce.UndisturbedKeepsTheWait` | internal/storage/scenario_watcher.go:242-267 | While no event of a path arrives between the firing of a timer of it and its callback getting the lock, only the path's own timer commits |
| `Debounce.LateCallbackSkipsTheWait` | internal/storage/scenario_watcher.go:246-262 | After any run, a late callback of number n skips the wait once one event has been served and n more have come |
| `Debounce.ScenarioWatcher.ScheduleReload` | internal/storage/scenario_watcher.go:242-267 | Scheduling advances the number, disarms the old timer if it has not fired, and arms one with the new number |
| `Debounce.ScenarioWatcher.RunCallback` | internal/storage/scenario_watcher.go:254-262 | A callback commits exactly when its number is current, and then forgets the path |
| `Debounce.ScenarioWatcher.Stop` | internal/storage/scenario_watcher.go:158-168 | Stop disarms every timer in the map and forgets its path; callbacks already fired remain |
| `Debounce.EventKeepsPromise` | internal/storage/scenario_watcher.go:242-252 | An event disarms at most the path's own timer and leaves the path a callback with the new number |
| `Debounce.CallbackKeepsPromise` | internal/storage/scenario_watcher.go:254-262 | A callback, committing or not, takes away no other path's callback |
| `TerminalAccounting.TimedRequest.constructor` | internal/server/terminal.go:51-67 | A metered account raises its in-flight gauge once |
| `TerminalAccounting.TimedRequest.StartAt` | internal/server/terminal.go:73-81 | Timing starts at most once and not after the end |
| `TerminalAccounting.TimedRequest.StartStreaming` | internal/server/terminal.go:83-93 | The streaming gauge rises at most once and not after the end |
| `TerminalAccounting.TimedRequest.Claim` | internal/server/terminal.go:116-136 | Only the first claim gets the account, with the flags it held |
| `TerminalAccounting.TimedRequest.Finalize` | internal/server/terminal.go:95-114 | Only the claiming call lowers the gauges it holds and counts the request, timed or untimed |
| `TerminalAccounting.EveryRunIsExact` | internal/server/terminal.go:51-136 | In every interleaving the in-flight gauge of a series is its metered, unfinished requests, and the streaming gauge those that stream, plus those claimed and not yet taken off; and each finished account is recorded once or about to be |
| `TerminalAccounting.FlagsFollowCalls` | internal/server/terminal.go:73-93 | An unfinished account is streaming, or timed, if and only if that has been asked for, in every interleaving |
| `TerminalAccounting.GaugesNeverNegative` | internal/server/terminal.go:95-114 | No gauge is ever negative, however often accounts are finalized |
| `TerminalAccounting.QuietMeansZero` | internal/server/terminal.go:95-114 | When all accounts are finished and all calls done, gauges are zero and each request was counted once |
| `TerminalAccounting.StepKeepsInFlight` | internal/server/terminal.go:51-114 | Each step keeps the in-flight gauge of a series exact |
| `TerminalAccounting.StepKeepsStreaming` | internal/server/terminal.go:83-114 | Each step keeps the streaming gauge of a server exact |
| `TerminalAccounting.StepKeepsRecord` | internal/server/terminal.go:95-136 | Each step keeps one record per finished account, made or on its way |
| `ConnectionHandler.EveryRunCounts` | internal/server/server.go:509-784 | At every point of the loop the counts and gauges are those of the requests parsed so far |
| `ConnectionHandler.ExactlyOnceOnEveryExit` | internal/server/server.go:509-784 | When the handler exits, on any path and with a panic anywhere, every parsed request has been counted exactly once and the gauges are back |
| `ConnectionHandler.NeverCountedTwice` | internal/server/server.go:509-553 | At no time has a request been counted twice |
| `ConnectionHandler.StepKeepsCount` | internal/server/server.go:554-784 | Each step of the loop keeps the counts of all requests parsed |
| `ConnectionHandler.StepKeepsPhase` | internal/server/server.go:509-784 | Each step keeps what the loop knows about the current request at each place |
| `Substitution.ThreePassesAreOne` | internal/processor/mock.go:689-700 | With a template without NUL and clean values, escape, expand and restore are one left-to-right pass |
| `Substitution.SinglePassExactlyWhenClean` | internal/processor/mock.go:689-700 | That holds for all templates without NUL if and only if no reachable value contains a sentinel or ends like the beginning of one |
| `Substitution.CapturedValueIsVerbatim` | internal/processor/mock.go:687-700 | A captured value without NUL is inserted as it is and never expanded again |
| `Substitution.UnknownNameIsEmpty` | internal/processor/mock.go:687-700 | A placeholder whose name has no value gives nothing |
| `Substitution.EscapedNameIsLiteral` | internal/processor/mock.go:687-700 | An escaped placeholder stands for itself, whatever its name would give |
| `Substitution.NulFreeIsClean` | internal/processor/mock.go:689-700 | A value without NUL is always clean |
| `Substitution.SentinelInValueSpoils` | internal/processor/mock.go:689-700 | A value that contains the sentinel does not come out of its own placeholder |
| `Substitution.SentinelStartSpoils` | internal/processor/mock.go:689-700 | A value that ends like the beginning of a sentinel swallows a following escape |
| `Substitution.TemplateOf` | internal/processor/mock.go:689-700 | A placeholder at the front gives its value, and the rest is processed on its own |
| `Substitution.HideKeepsBracedName` | internal/processor/mock.go:689-695 | Hiding escapes neither makes nor breaks a placeholder |
| `RoutingResolution.AcceptsExactlyTheTable` | internal/storage/scenario_v2.go:666-769 | For literal endpoints a resolved scenario accepts exactly the method and path pairs of the documented table row |
| `RoutingResolution.ResolvesExactlyWhenValid` | internal/storage/scenario_v2.go:693-818 | A declaration resolves if and only if both levels are well formed and the row can be applied |
| `RoutingResolution.NoAccidentalProduct` | internal/storage/scenario_v2.go:718-735 | Unless both lists are given or no routes exist, every accepted pair has a method the routes in force declare, and an endpoint declared for it or given by the scenario |
| `RoutingResolution.RouteMapAcceptsPairs` | internal/storage/scenario.go:959-989 | A compiled route map accepts exactly its pairs and never their cross product |
| `RoutingResolution.FlattenedLists` | internal/storage/scenario_v2.go:820-845 | Beside its map a routed scenario lists its methods, and each endpoint of the map once |
| `RoutingResolution.ConvertedIsWellFormed` | internal/storage/scenario_v2.go:856-924 | Every scenario that resolves satisfies what the registries assume of exact routes |
| `RoutingResolution.Select` | internal/storage/scenario_v2.go:737-754 | Selecting succeeds exactly when every method is in the defaults, and then keeps their endpoints unchanged |
| `RoutingResolution.ReplacementIsValid` | internal/storage/scenario_v2.go:756-769 | Replacing endpoints resolves exactly when the given endpoints are distinct and not blank |
| `RoutingResolution.ProductAcceptsProduct` | internal/storage/scenario_v2.go:802-818 | Legacy lists accept exactly their product |
| `ShardedIndex.HashString` | internal/storage/sharded_scenario.go:386-394 | Every path has a shard below the shard count, whatever the hash |

## Left out

- Matching by regular expression, header, body, address and branch rules: total functions of the scenario and the request in `Scenarios.Matcher`; only literal endpoints, methods and HTTP method and URL are concrete.
- What matching changes on the request (captures, selected branch), match errors and context cancellation: the sharded search evaluates more candidates than the linear one, so these effects are not part of the refinement.
- Identity of scenario objects: a scenario is an immutable value, and duplicates are recognised by value where the source compares addresses; with distinct names the two agree.
- Exact routes without a matching endpoint list, which only a direct call of Add or a version 1 file could register: outside the registry results.
- The hash of a path: any total function, taken modulo the shard count.
- The sort of the linear registry is the library's: `LinearRegistry.SortByRank` stands for it inside the methods.
- The sharded registry's counters, average and metrics, and response selection: they have no effect on what Match returns.
- MatchProtocol.MatchIsAtomic: a reload commits as the load of the file it read; its topology check runs before the commit and outside the mutation lock, so the check is not part of a step. A reader's reads of the cache-disabled flag, the cache, one shard and the global list are one step each.
- MatchProtocol.NextKeeps: the match cache's own lock makes each lookup and store one step; its heap form is proved in `MatchCache`.
- RouteCaching.RouteCache.Get: one atomic operation. The source reads under one lock and promotes or evicts under another, re-checking the key and not the node; finer interleavings are not claimed.
- RouteCaching.RouteCache.Put: its handler is never nil, as registration refuses nil handlers. `ResetMetrics` is not modelled, and the account of entries holds for runs without it.
- Routing.Router.Serve: says which handler the request goes to; the handler's own work, logging and the 404 response body are not modelled.
- The 64-bit width of counters and sequence numbers, and durations beyond 64 bits: they would wrap only after more operations than a process performs.
- The percentile index of `calculateP95` as floating point: any function of the window's length, clamped below it as in the source. The safety multiplier is a real number, and the product is truncated towards zero.
- LineReader.PooledBuffer.ReadBoundedLine: the source of a run is a finite script of answers that then reads as EOF; a bounded read makes finitely many reads, so every source has such a script for it. `Read`, `ReadLine` and `ReadString` follow the same refill and are not modelled.
- The deadline activation and metering wrappers around the readers.
- StorageShutdown.CloseDrains: writes do not panic; a panic ends the writer goroutine with records queued. Disabled storage, and the file operations of Close, are left out.
- BatchFiles.FilesHoldKeptRecords: the directory starts empty, file operations do not fail, nothing is deleted, and sizes are those of encoded records. Listing, deleting and reading records back are left out.
- BatchFiles.FileStorage.WriteRequest: the object's methods run one after another; a rotation between the locked part of a write and its signal is a run of the state machine, where the file results are proved.
- BatchFiles.NamesFollowCreation: compares names by date and number; their text sorts the same way up to a million files a run.
- Debounce.EventIsServedOrPending: an event counts once `scheduleReload` has the lock; whether the reload itself succeeds is the registry's matter.
- ConnectionHandler.ExactlyOnceOnEveryExit: the recording calls themselves do not panic, and the deferred function runs to its end.
- Which labels an outcome is recorded under, and the time measured.
- Substitution.ThreePassesAreOne: templates without NUL; a template that itself contains the sentinel is unescaped as if it were an escape.
- RoutingResolution.AcceptsExactlyTheTable: paths are not empty, as no request's path is; reserved service paths are part of the `compiles` oracle.
- The middleware's copy of the send and close protocol, the buffered writer, weighted response selection, label limiters, configuration merging, and the ICAP message parser: simpler copies, single-branch facts, or not part of this model.
