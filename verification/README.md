# A verified model of the self-healing cache

The system is a distributed in-memory cache: a consistent hash ring assigns each key to a primary
and a replica, a gateway writes to them and reads with failover, storage nodes replicate, promote hot
keys, recover and hand over keys, and a health monitor decides who counts as alive. This project
models the parts where those pieces have to fit together and proves what they guarantee, for every
input, every run and every interleaving.

`dafny verify dfyconfig.toml` checks everything.

## How the model is laid out

| file | what it holds |
|---|---|
| `Base.dfy` | `Option` and `Time` |
| `Ring.dfy` | the ring: one membership change and one lookup as functions, the invariant that needs no assumption on the hash, and the class `HashRing` with the program's fields and loops |
| `RingOrder.dfy` | lookup refines "all members by clockwise distance to their nearest token"; minimal disruption |
| `RingHistory.dfy` | sequences of adds and removes: invariants, history independence, agreement of node and gateway |
| `RingNames.dfy` | the names of virtual nodes, and when tokens collide |
| `RingAddresses.dfy` | who is a member after a history, and under which address lookups name it |
| `RingOrphans.dfy` | collisions: exactly when a removal leaves a token without owner and lookups name a node that does not exist |
| `Cache.dfy`, `CacheRuns.dfy`, `CacheThreads.dfy` | the TTL cache; runs against a timed map; `Get` split into its locked phases |
| `Detector.dfy`, `DetectorRuns.dfy` | the hot-key detector against the full access log |
| `Health.dfy` | the health monitor and its runs |
| `Router.dfy` | `RouteGet` and its counters |
| `Query.dfy` | a key pasted into the query string of a URL: what arrives, and which keys arrive unchanged |
| `Protocol.dfy` | the replication protocol as a state machine: caches, messages in flight, open gateway requests |
| `Handlers.dfy` | one request measured against its promise: values, lifetimes, versions and addressees |
| `Expiry.dfy` | sets with a TTL over whole runs: when owners, and when all nodes, stop answering |
| `Server.dfy`, `Gateway.dfy` | the handlers and the gateway in the program's imperative form, proved equal to the protocol's steps |
| `ProtocolSafety.dfy` | integrity and placement over every run |
| `Convergence.dfy`, `ConvergenceRuns.dfy` | one key while its last operation drains; refinement of a simple map; version drift |
| `ProtocolReads.dfy` | what a routed read returns, and that every operation can drain |
| `KeyCopies.dfy` | every copy of a key in a calm run, hot-key copies included |
| `Dumps.dfy` | the start-up loop over the dumps of all peers, and its outcome in every order |
| `ProtocolRecovery.dfy` | the restart of an owner: when the map's value comes back, and operation afterwards |
| `Rebalance.dfy`, `RebalanceRuns.dfy` | dumps, ingestion, adoption and migration, and what they move |
| `Fare.dfy`, `FareLaws.dfy`, `FareRuns.dfy` | the fare cascade; the laws of each field, which determine it; sequences of edits |

Objects that the program updates in place are classes here, and each of their methods is proved
against a function of the old state. The clock, the result of a network post and the digest are
parameters: every statement holds for all of them.

## What the proofs show

* **Ring.** For every hash, colliding or not, the token array stays sorted, no removed node owns a
  token and removal never computes a negative capacity. Without collisions, the ring after any
  history depends only on the final members, a lookup returns the members in clockwise order, and a
  membership change inserts or strikes out one node in every key's list and moves nothing else. A lookup
  gives each node the address of its last registration. When a
  primary leaves, the new primary is the replica that reads already fail over to.
* **Protocol.** Under loss, reordering, crashes, late answers, dumps, migrations and hot-key
  promotion, a stored value was always set by a client for that key and is only on the first three
  nodes of the key's list. When operations on a key do not overlap, the replica equals the last
  operation, the primary the last one that did not miss it, and the replica's version is at most one
  ahead. An operation misses the primary if it is diverted, or if its first post is lost and the gateway
  falls back to the replica. A primary that restarts recovers the map's value in every order of its peers
  if and only if the third node's hot-key copy is not stale, and operation goes on either way.
* **Lifetimes.** A set with a TTL is answered by each owner until the TTL has passed since it arrived
  there. A hot-key copy keeps to its source's expiry within a second. When every set of a key has a TTL and
  no copy is made in an item's last second, every node forgets the key in time, whatever is lost or crashes.
* **Cache, detector, monitor.** Purging is invisible to reads; inserts, deletions and expirations
  balance in every interleaving; pruned buckets report exact window counts and marks are those of the log; a
  failed ping leaves the state that the time since the last successful ping in the event log calls for.
* **Fares.** Each field of a trip has a law that relates the record before an edit to the record after it,
  and the laws determine what the cascade computes.
* **Rebalancing.** Exactly the listed keys whose new primary is the joining node are sent, they arrive
  with value and version, and every other key keeps its primary and address.

### Behaviour a reader may not expect

These follow from the code, and each has a lemma:

* When tokens collide, removing a node spoils every key's list, which then names a node that does not
  exist, if and only if the node owns a token that stands in the array twice (`RemovalSpoilsLookupsIff`);
  two nodes with a virtual node in common always bring that about (`CollisionLosesMember`).
* Registering a peer list is independent of its order if and only if no entry's address is the ID of
  another entry (`PeerOrderIrrelevantIff`).
* A copy of an item in its last second never expires (`CopyOutlivesSource`, `CopyChainLosesExpiry`,
  `HotCopyIsExact`).
* The report of a rebalancing splits the keys between the new node and this one only if they are two
  nodes (`ReportAddsUpIff`).
* Purges change versions if and only if a set without version follows a purge that took an item of its
  key (`PurgesKeepVersionsIff`, with `PurgeRestartsVersions` as an example).
* After a set that was diverted while the primary was marked FAILED, a read through the recovered
  primary returns the older value; after a delete whose first post was lost, a read through the primary
  returns the deleted value. `ReadReturnsTheMapIff` says exactly when (`StaleReadAfterDivertedSet`,
  `StaleReadAfterFallbackDelete`).
* A dump answer carries every live item to whoever asks, so it is the one message about a key that
  can reach a node outside the key's list (`DumpsReachAnyNode`); that node does not keep it.
* A successful ping lifts FAILED if and only if the last manual transition to ALIVE or FAILED was not to
  FAILED, even when the node left FAILED in between and failed again on its own (`SuccessRevivesIff`,
  with `StaleOverride` as an example).
* Reads and deletes paste the key into a query string. A key arrives as it was sent if and only if it has
  none of `&`, `;`, `+`, `%`, `#`, space and control characters (`ArrivesUnchangedIff`); any other text
  reads and deletes another key, or none (`TextsDeleteAndReadOtherKeys`). Escaping the key first would make
  every key of one-byte characters arrive (`EscapedKeyArrives`).
* A starting node adopts the dumps of all its peers in no particular order and compares no versions, so
  the last dump with a key wins (`LastDumpWins`). Hot-key copies are never renewed, so the third node's
  dump can bring an old value back (`StaleStartUp`). `PrimaryRecoversIff` and `ReplicaRecoversIff` say
  exactly when every order restores the map's value.
* A dump from the primary to the replica undoes an operation that missed the primary, and a dump the other
  way repairs it (`ReplicaRecoversIff`, `PrimaryRecovers`).
* Entering the same value twice equals entering it once for every field and every value, except for a
  distance whose lost fraction is worth half a cent or more of fare (`EditTwice`, with `FractionsDrift`
  as an example).

Where the repository's README or comments and its code disagree, the code is followed: the ring uses the
first four bytes of SHA-256 rather than FNV-1a, failure detection goes by elapsed time, not by counting
missed pings, and an edited distance keeps the amount of a tip, where the comment speaks of its ratio
(`TipRuleHolds`).

## Model

| member | source | states |
|---|---|---|
| Ring.HashRing.constructor | backend/internal/hashing/ring.go:57-74 | an empty valid ring; a non-positive vnode count becomes 50 |
| Ring.HashRing.AddNode | backend/internal/hashing/ring.go:76-104 | the ring becomes the value of `Add`: an address placeholder is dropped, a known node only gets a new address, a new one claims its tokens in a sorted array; the invariant is kept |
| Ring.HashRing.Register | backend/internal/hashing/ring.go:93-103 | registering an unknown node appends and claims all its tokens and re-sorts |
| Ring.HashRing.RemoveNode | backend/internal/hashing/ring.go:107-111 | the ring becomes the value of `Remove`; the invariant is kept |
| Ring.HashRing.InternalRemoveNode | backend/internal/hashing/ring.go:113-130 | the filtering loop computes `Remove`, including its effect on duplicate tokens |
| Ring.HashRing.RingCapacity | backend/internal/hashing/ring.go:121-121 | the capacity `len(ring) - vnodes` is a natural number whenever a member is removed |
| Ring.HashRing.Search | backend/internal/hashing/ring.go:143-145 | binary search finds the first token at or after the key |
| Ring.HashRing.GetPrimaryNode | backend/internal/hashing/ring.go:133-159 | the owner of that token, wrapping to the first; no result exactly on an empty ring |
| Ring.HashRing.GetNodes | backend/internal/hashing/ring.go:162-197 | the wrap-around walk returns the first `count` distinct owners from the key on |
| Ring.HashRing.Walk | backend/internal/hashing/ring.go:177-196 | the early-stopping loop equals cutting the full list of distinct owners |
| Ring.RemovalIsBounded | backend/internal/hashing/ring.go:113-129 | removal takes at most one token per virtual node, even when tokens collide |
| Ring.RemoveKeepsInv | backend/internal/hashing/ring.go:113-129 | for every hash: sorted tokens, owners are members with their own tokens, at least vnodes tokens per member |
| Ring.AddKeepsInv | backend/internal/hashing/ring.go:76-104 | the same after an addition |
| RingOrder.RemoveKeepsCanon | backend/internal/hashing/ring.go:113-130 | without collisions, removal leaves exactly the tokens of the remaining members, each owned |
| RingOrder.AddKeepsCanon | backend/internal/hashing/ring.go:76-104 | without collisions, addition leaves exactly the tokens of the new members, each owned |
| RingOrder.PreferenceIsClockwise | backend/internal/hashing/ring.go:162-197 | the walk lists all members by clockwise distance modulo 2^32 from the key's hash to their nearest token |
| RingOrder.GetNodesRefinesClockwiseOrder | backend/internal/hashing/ring.go:133-197 | `GetNodes` is any list in that order cut to `count` |
| RingOrder.GetNodesAnswers | backend/internal/hashing/ring.go:162-197 | min(count, members) nodes, no duplicates, only members |
| RingOrder.GetNodesPrefix | backend/internal/hashing/ring.go:162-197 | the answer for a count is a prefix of the answer for a larger one |
| RingOrder.WalkStartsAtPrimary | backend/internal/hashing/ring.go:133-197 | the list begins with the node that `GetPrimaryNode` returns |
| RingOrder.RemovalDisruption | backend/internal/hashing/ring.go:107-197 | removing a node strikes it out of every key's list and changes nothing else |
| RingOrder.RemovalDisruptionAtCount | backend/internal/hashing/ring.go:107-197 | the same for every requested count |
| RingOrder.RemovalKeepsAddresses | backend/internal/hashing/ring.go:113-130 | the remaining nodes keep their addresses |
| RingOrder.AdditionDisruption | backend/internal/hashing/ring.go:76-104 | adding a node inserts it into every key's list; a placeholder it replaces disappears; nothing else moves |
| RingOrder.AdditionDisruptionAtCount | backend/internal/hashing/ring.go:76-197 | the same for every requested count, for a fresh node |
| RingOrder.AdditionMovesKeysOnlyToNewNode | backend/internal/hashing/ring.go:76-197 | a key's primary changes only to the added node |
| RingOrder.ReplicaInheritsKeys | backend/internal/failover/router.go:79-116 | after removing a primary, the new primary is the replica reads fail over to |
| RingHistory.EveryRunKeepsInv | backend/internal/hashing/ring.go:76-130 | the hash-independent invariant over every sequence of adds and removes with non-empty IDs |
| RingHistory.RemovedNodeOwnsNothing | backend/internal/hashing/ring.go:107-130 | after a removal at the end of any run, no token is owned by the removed node |
| RingHistory.EveryRunIsCanon | backend/internal/hashing/ring.go:76-130 | every collision-free run ends in the canonical ring of its members |
| RingHistory.HistoryIndependence | backend/internal/hashing/ring.go:76-130 | two collision-free runs with the same final members have equal tokens, owners and routing |
| RingNames.HashIsTruncated | backend/internal/hashing/ring.go:133-141 | two hashes are equal if and only if the digests agree in their low 32 bits |
| RingNames.NameReadsBack | backend/internal/hashing/ring.go:93-95 | the name of a virtual node gives back its node, whatever the ID contains, and its number |
| RingNames.NamesDiffer | backend/internal/hashing/ring.go:93-95 | different virtual nodes have different names |
| RingNames.CollisionFreeIff | backend/internal/hashing/ring.go:93-98 | tokens are free of collisions if and only if the hash keeps the names of the virtual nodes apart |
| RingAddresses.RegistrationSetsAddress | backend/internal/hashing/ring.go:76-91 | after adding, known or new, the node is a member under the given address, a placeholder for it is gone, and every other member keeps its address |
| RingAddresses.RemovalKeepsOthers | backend/internal/hashing/ring.go:113-119 | a removal takes away that node and no other, and leaves the other addresses |
| RingAddresses.MembersAreTheJoined | backend/internal/hashing/ring.go:76-130 | after every history, for every hash: the members are the nodes whose last mention is a registration, each under the address that it gave |
| RingAddresses.LookupsGiveLastAddress | backend/internal/hashing/ring.go:184-192 | after every history each node of a `GetNodes` answer comes with the address of its last registration, an ownerless one with none |
| RingAddresses.PrimaryHasLastAddress | backend/internal/hashing/ring.go:150-158 | so does the answer of `GetPrimaryNode` |
| RingAddresses.RoutedAddresses | backend/internal/hashing/ring.go:162-197 | without collisions every node of an answer is a member under its last address |
| RingOrphans.RemovalOrphansIff | backend/internal/hashing/ring.go:122-127 | removal leaves every token owned if and only if it was so before and the node shares none of its tokens |
| RingOrphans.ListNamesMembersIff | backend/internal/hashing/ring.go:162-197 | for every key, the list names only members if and only if every token has an owner |
| RingOrphans.RemovalSpoilsLookupsIff | backend/internal/hashing/ring.go:113-130 | on a sound ring, removing a member spoils every key's list if and only if it shares a token |
| RingOrphans.LookupsNameMembers | backend/internal/hashing/ring.go:76-197 | with colliding tokens too: lookups of every run name members only, as long as no removed node shares a token at that moment |
| RingOrphans.CollisionLosesMember | backend/internal/hashing/ring.go:122-127 | for every hash: if two nodes have a virtual node in common, letting both join and the second leave makes every key's list name a node that does not exist |
| RingHistory.PeerOrderIrrelevantIff | backend/internal/server/server.go:199-203 | the members do not depend on the order of registration if and only if no address is another entry's ID |
| RingHistory.NodesAgreeWithGateway | backend/internal/gateway/gateway.go:95-103 | a node and the gateway whose placeholder-free lists name the same IDs, in any order and under any addresses, answer every lookup with the same IDs |
| Cache.CacheStore.constructor | backend/internal/cache/cache.go:67-80 | an empty cache with zero counters |
| Cache.CacheStore.SetWithMetadata | backend/internal/cache/cache.go:87-116 | the stored item, its expiry and its version, explicit or the successor modulo 2^64 |
| Cache.CacheStore.Get | backend/internal/cache/cache.go:119-144 | a hit is the stored unexpired item; an expired one is dropped and counted; hits and misses are counted |
| Cache.CacheStore.Delete | backend/internal/cache/cache.go:147-157 | the key is gone; it was counted if it existed |
| Cache.CacheStore.Keys | backend/internal/cache/cache.go:188-200 | lists each key strictly before its expiry once |
| Cache.CacheStore.PurgeExpired | backend/internal/cache/cache.go:225-236 | exactly the expired items are gone and counted |
| Cache.CopyExpiry | backend/internal/cache/cache.go:28-37 | a copy by dump, sync or promotion expires less than a second early and never late; it never expires exactly when the source had no expiry or less than a second left |
| Cache.CopyChainExpiry | backend/internal/rebalancing/rebalance.go:75-105 | through any chain of copies the value stays and each hop costs less than a second |
| Cache.CopyChainLosesExpiry | backend/internal/rebalancing/rebalance.go:141-145 | a chain loses the expiry if and only if some hop finds less than a second left |
| Cache.CopyOutlivesSource | backend/internal/rebalancing/rebalance.go:94-105 | a copy made in the last second outlives its source for ever |
| Cache.RemainingIsShown | backend/internal/cache/cache.go:28-37 | the remaining seconds that readers see: -1 without expiry, 0 from the expiry on, otherwise less than a second short |
| Cache.ListedIff | backend/internal/cache/cache.go:188-200 | a key is listed if and only if a read finds it and its expiry is not this very moment |
| Cache.ExpiredIsDropped | backend/internal/cache/cache.go:119-144 | a read drops its key, and a purge every key, exactly when expired |
| CacheRuns.AnswersMatchTimedMap | backend/internal/cache/cache.go:87-144 | every monotone run answers each `Get` like a timed map that never deletes expired entries |
| CacheRuns.PurgesAreInvisible | backend/internal/cache/cache.go:225-236 | inserting or dropping purges changes no answer |
| CacheRuns.PurgeChangesVersionIff | backend/internal/cache/cache.go:97-102 | a purge changes the version a later set assigns if and only if the set brings none and the purge took an item of its key with a version other than 0 |
| CacheRuns.PurgesKeepVersionsIff | backend/internal/cache/cache.go:87-116 | over every run: purges leave all items, versions included, alone throughout if and only if no such set occurs |
| CacheRuns.PurgesKeepAnswers | backend/internal/cache/cache.go:119-144 | then every read returns the same item as without purges |
| CacheRuns.PurgeRestartsVersions | backend/internal/cache/cache.go:97-102 | an instance: a purge between two writes restarts the version |
| CacheThreads.LiveItemSurvives | backend/internal/cache/cache.go:104-157 | in every interleaving of the locked phases, an unexpired item goes only by a delete or an overwrite of its key |
| CacheThreads.EveryRunConserves | backend/internal/cache/cache.go:104-157 | inserts of absent keys = current items + deletions + expirations, and hits + misses = finished reads |
| CacheThreads.UninterruptedGet | backend/internal/cache/cache.go:119-144 | the phases without interruption add up to `Get`: same answer, same cache, same counters |
| CacheThreads.LockedStepsAreAtomic | backend/internal/cache/cache.go:87-157 | sets, deletes and purges between the phases of reads do to the items what they do in a run without threads |
| CacheThreads.HitsReturnTheKeyAsked | backend/internal/cache/cache.go:119-144 | in every interleaving, the item of a hit has the key asked for and a value that was set for it, and was not expired when the call looked at the clock |
| Detector.HotKeyDetector.constructor | backend/internal/hotkey/detector.go:37-50 | an empty detector with defaulted window and threshold |
| Detector.HotKeyDetector.RecordAccess | backend/internal/hotkey/detector.go:53-87 | prunes, appends, counts and marks or unmarks the key |
| Detector.HotKeyDetector.IsHot | backend/internal/hotkey/detector.go:90-106 | the count in the window, without a change of state |
| Detector.HotKeyDetector.GetHotKeys | backend/internal/hotkey/detector.go:109-149 | lists each hot key once with its count and detection time; every key is pruned and re-marked |
| Detector.HotKeyDetector.Visit | backend/internal/hotkey/detector.go:116-146 | one turn of that loop |
| DetectorRuns.EveryRunTracks | backend/internal/hotkey/detector.go:53-149 | in every monotone run the pruned buckets count like the full log for every cutoff still in use, and every hot key is marked |
| DetectorRuns.ReportsMatchLog | backend/internal/hotkey/detector.go:53-149 | each reported count equals the accesses in the window of the full log; the list is exactly the keys at or above the threshold |
| DetectorRuns.DetectionTimeIsKnown | backend/internal/hotkey/detector.go:129-145 | the branch that invents a detection time is never taken for a listed key |
| DetectorRuns.MarkStep | backend/internal/hotkey/detector.go:77-84 | a mark goes exactly when a call re-evaluates the key and finds it cold |
| DetectorRuns.MarksFollowTheLog | backend/internal/hotkey/detector.go:77-84 | in every monotone run a key is marked with the time of the call that first found it hot, for as long as every call that looks at it finds it hot |
| DetectorRuns.DetectionTimeIsStable | backend/internal/hotkey/detector.go:129-145 | the detection time stays as long as each re-evaluation finds the key hot |
| Health.Monitor.constructor | backend/internal/health/monitor.go:68-111 | self and peers are registered as ALIVE, timeouts defaulted |
| Health.Monitor.AddNode | backend/internal/health/monitor.go:128-143 | a new member is ALIVE, a known one only gets a new address |
| Health.Monitor.GetNodeState | backend/internal/health/monitor.go:182-190 | the state of a known node |
| Health.Monitor.SetNodeStateManual | backend/internal/health/monitor.go:193-217 | the manual transition, and whether the node is known |
| Health.Monitor.PeersToPing | backend/internal/health/monitor.go:237-257 | everyone but the monitor's own node |
| Health.Monitor.RecordSuccess | backend/internal/health/monitor.go:300-329 | last contact is now; ALIVE unless the node is held down manually |
| Health.Monitor.RecordFailure | backend/internal/health/monitor.go:331-359 | the state follows the time since the last contact |
| Health.FieldsFollowTheLog | backend/internal/health/monitor.go:300-359 | over every run, manual transitions included: `lastSeen` is the time of the last successful ping or manual revival in the event log, `missedPings` the number of failed pings since, the address the one registered last |
| Health.RegisteredThen | backend/internal/health/monitor.go:128-143 | a member that a run registers is ALIVE without override under its address, last seen then; the others keep their state |
| Health.StateAfter | backend/internal/health/monitor.go:193-359 | after any run: a manual transition leaves exactly the requested state, a successful ping ALIVE unless FAILED under a forced mark, a failed ping what the time since the last contact calls for; nothing else changes state or error |
| Health.FailureDetection | backend/internal/health/monitor.go:300-359 | without overrides, after every failed ping the state is what the time since the last successful ping in the event log, or since the start, calls for, and only a successful ping lowers the severity |
| Health.NoDirectJump | backend/internal/health/monitor.go:331-359 | with failures close enough together in the event log no single step leads from ALIVE to FAILED |
| Health.SuspectedOnTheWay | backend/internal/health/monitor.go:331-359 | then every way from ALIVE to FAILED leads through SUSPECTED |
| Health.HeldDownStep | backend/internal/health/monitor.go:193-217 | one step lifts a manual FAILED if and only if it is another manual transition or a failed ping between the timeouts |
| Health.HeldDownRun | backend/internal/health/monitor.go:300-359 | the same over every run |
| Health.PingsDoNotRevive | backend/internal/health/monitor.go:300-329 | no run of successful pings lifts it |
| Health.OverrideFollowsManual | backend/internal/health/monitor.go:193-217 | over every run the override flag follows the manual transitions to ALIVE and FAILED alone |
| Health.SuccessRevivesIff | backend/internal/health/monitor.go:300-329 | after every run, a successful ping makes a node ALIVE if and only if it is not FAILED or the last such transition was not to FAILED |
| Health.ForcedStaysDown | backend/internal/health/monitor.go:300-329 | otherwise it stays FAILED for any number of successful pings |
| Health.StaleOverride | backend/internal/health/monitor.go:300-359 | an instance: a node marked FAILED that came back and failed again on its own is still forced |
| Health.SelfStaysAlive | backend/internal/health/monitor.go:237-257 | the monitor's own node stays ALIVE unless forced |
| Router.Router.RouteGet | backend/internal/failover/router.go:69-137 | the first candidate that answers serves the read; each request is counted once as direct hit, failover hit or failure |
| Router.RouteCases | backend/internal/failover/router.go:79-136 | the nested decision equals the search through the candidate list |
| Router.ReadsFollowTheMonitor | backend/internal/failover/router.go:69-137 | who serves a read, in the monitor's terms: a primary that is ALIVE or unknown and answers, else a replica that is not FAILED and answers; the reply is passed on with the primary's name and state |
| Router.FailsOnlyWithoutAnswer | backend/internal/failover/router.go:93-136 | a read fails if and only if no candidate answers a hit |
| Router.FailoverServesTheHeir | backend/internal/failover/router.go:79-116 | a failover is served by the node that would lead the key if its primary were removed |
| Server.Replicator.ReplicateSet | backend/internal/replication/replicator.go:56-100 | the payload in whole seconds with the sender's version; total = successes + failures |
| Handlers.SetIsStored | backend/internal/server/server.go:730-741 | a set is stored under its key with its value, blank values empty, the version given or the successor, time and flag; nothing else changes; blank keys are refused |
| Handlers.SetLives | backend/internal/server/server.go:735-741 | a stored set is answered if and only if it has no TTL or the TTL has not passed |
| Handlers.SetIsPassedOn | backend/internal/server/server.go:745-760 | it is passed on with stored value, version and the TTL of the request, to the second node exactly if that is another one with an address |
| Handlers.ReplicaIsStored | backend/internal/server/server.go:572-577 | a replicated set is stored as it came, as a replica, and answered for its TTL from its arrival on |
| Handlers.ReplicaOutlivesByItsDelay | backend/internal/replication/replicator.go:56-70 | the replica of a set outlives it by exactly the delay of the message |
| Handlers.ReadsChangeNoAnswer | backend/internal/server/server.go:791-849 | a read changes what no later read sees |
| Handlers.HotReadSends | backend/internal/server/server.go:818-833 | a read sends one copy, to the third node, if and only if it is a hot hit and that node is another one with an address |
| Handlers.HotCopyIsExact | backend/internal/server/server.go:823-831 | the receiver of a hot-key copy holds key, value and version of the item read; it never expires if and only if the source had no expiry or less than a second left, otherwise it expires less than a second early and never late, but for its delay |
| Handlers.DeleteErases | backend/internal/server/server.go:851-904 | a delete takes its key away and no other, and goes on to the second node exactly if that is another one with an address |
| Handlers.ReplicatedDeleteErases | backend/internal/server/server.go:591-605 | a replicated delete takes any key but the empty one away and sends nothing |
| Server.Server.HandleSet | backend/internal/server/server.go:710-774 | cache and messages are those of the protocol step; blank keys are refused, blank values stored empty; the answer gives the stored version and the replica's name |
| Server.Server.HandleGet | backend/internal/server/server.go:791-849 | a hit is recorded and, when hot, promoted to the third node; a miss records nothing |
| Server.Server.Promote | backend/internal/server/server.go:818-833 | the extra replica gets the item with its remaining whole seconds |
| Server.Server.HandleDelete | backend/internal/server/server.go:851-904 | cache and messages are those of the protocol step, whether or not the key existed |
| Server.Server.HandleInternalReplicate | backend/internal/server/server.go:560-588 | stores the replica with the given version and no comparison |
| Server.Server.HandleInternalReplicateDelete | backend/internal/server/server.go:591-605 | deletes, or refuses an empty key |
| Gateway.Gateway.ChooseTarget | backend/internal/gateway/gateway.go:249-263 | the replica exactly while the primary is marked FAILED and there is a replica |
| Gateway.Gateway.HandleAPISet | backend/internal/gateway/gateway.go:202-324 | posts exactly what the protocol's `Begin` and `End` post, in order; the answer names the node that took the set, which was posted to it, and is a failover exactly if that is the second node; it is an error exactly if no post was answered |
| Gateway.Gateway.HandleAPIDelete | backend/internal/gateway/gateway.go:415-451 | posts to the primary, and to the replica only when that fails |
| Handlers.FirstPostCarriesRequest | backend/internal/gateway/gateway.go:243-272 | the first post carries key, value and TTL of the request, to the primary or, if diverted, to the replica |
| Handlers.LaterPostsCarryRequest | backend/internal/gateway/gateway.go:272-312 | so do the copy after an answer and the fallback after an error, which go to the replica under exactly the program's conditions |
| Query.ArrivesUnchangedIff | backend/internal/failover/router.go:149-150 | a key pasted after `?key=` is read as it was sent if and only if it has no character with a meaning in a query |
| Query.CutKeyArrivesAsAnother | backend/internal/gateway/gateway.go:434-438 | an ampersand cuts a key short, so that it arrives as another key |
| Query.HashCutsKey | backend/internal/gateway/gateway.go:434-438 | a hash sign cuts a key short |
| Query.PlusArrivesAsSpace | backend/internal/gateway/gateway.go:434-438 | a plus sign arrives as a space |
| Query.SemicolonEmptiesKey | backend/internal/gateway/gateway.go:434-438 | a semicolon makes the key arrive empty |
| Query.LaterPairTakesOver | backend/internal/gateway/gateway.go:434-438 | a dropped pair gives way to a later one of the same name |
| Query.SpacesAreNotSent | backend/internal/gateway/gateway.go:434-438 | a request for a key with a space or a control character does not go out |
| Query.EscapedKeyArrives | backend/internal/failover/router.go:149-150 | round trip: any key of one-byte characters, escaped first, would arrive as it was meant |
| Protocol.NodesAreGetNodes | backend/internal/server/server.go:746-746 | the node lists of the protocol are what `GetNodes` of the shared ring returns |
| ProtocolSafety.HandleGood | backend/internal/server/server.go:746-760 | every handler keeps integrity and placement, in its cache and in what it sends |
| ProtocolSafety.GetGood | backend/internal/server/server.go:818-833 | hot promotion does too |
| ProtocolSafety.EveryRunGood | backend/internal/gateway/gateway.go:243-312 | the invariant over every run |
| ProtocolSafety.StoredValuesAreClientsOwn | backend/internal/rebalancing/rebalance.go:132-149 | every stored item was set by a client for its key and is on one of the key's first three nodes |
| ProtocolSafety.MessagesAreClientsOwn | backend/internal/gateway/gateway.go:243-312 | every value in flight was set by a client for its key; all but dump answers go to the key's first three nodes |
| ProtocolSafety.DumpsReachAnyNode | backend/internal/rebalancing/rebalance.go:75-91 | a dump answer can carry a key to any node |
| ProtocolSafety.OutsiderIgnoresDump | backend/internal/rebalancing/rebalance.go:132-149 | a node outside the key's list does not keep it |
| Convergence.PrimaryTakesSet | backend/internal/server/server.go:740-762 | the primary's delivery of a set keeps the phase of the key |
| Convergence.ReplicaTakesReplicate | backend/internal/server/server.go:577-577 | so does the replicated set with the primary's version |
| Convergence.ReplicaTakesCopy | backend/internal/gateway/gateway.go:302-311 | so does the gateway's own copy, whichever of the two comes first |
| Convergence.QuietValues | backend/internal/gateway/gateway.go:242-312 | a drained key holds the last operation at the replica, and at the primary what the operations that reached it left |
| Convergence.EndSetting | backend/internal/gateway/gateway.go:272-311 | for a set, an error of the first post has the effect of an answer: the gateway posts the set to the replica, and the phase is kept |
| Convergence.LoseSet | backend/internal/gateway/gateway.go:272-290 | a set whose first post is lost becomes a set that missed the primary, which keeps its value |
| Convergence.EndDeleting | backend/internal/gateway/gateway.go:433-440 | the error of a delete's first post sends the delete to the replica and keeps the phase; an answer does so once the primary has taken the delete |
| Convergence.LoseDelete | backend/internal/gateway/gateway.go:433-440 | a delete whose first post failed and is lost becomes one that missed the primary |
| ConvergenceRuns.HandleIsLocal | backend/internal/server/server.go:740-762 | a handler touches only the key it reads from its message, and sends only messages about that key |
| ConvergenceRuns.UndisturbedRunsIsolate | backend/internal/replication/replicator.go:103-104 | as long as no client deletes another text that can arrive as the key, here or where it is passed on, no delete of another text in flight can act on the key |
| ConvergenceRuns.CalmRunFollows | backend/internal/gateway/gateway.go:242-312 | from any state in which a key is in some phase, a calm run keeps it in the phase of its last operation |
| ConvergenceRuns.EveryCalmRunFollows | backend/internal/gateway/gateway.go:242-312 | in every run whose operations on a key do not overlap and whose deletes of other texts do not arrive as the key, with first posts lost or late as they may, the key is in the phase of its last operation |
| ConvergenceRuns.OwnersMatchTheMap | backend/internal/gateway/gateway.go:272-300 | once drained, the replica equals the map of all operations and the primary what the operations that reached it left; the two agree unless the last operation was diverted or lost on its way to the primary |
| ConvergenceRuns.OwnersMatchAfter | backend/internal/gateway/gateway.go:242-312 | the same from any phase on, for the map and the past continued from there |
| ConvergenceRuns.VersionDriftIsBounded | backend/internal/cache/cache.go:97-102 | after a drained set that reached the primary both owners hold its value and the replica's version is the primary's or one more, while fewer than 2^64 - 1 sets of the key have been issued |
| KeyCopies.CalmRunIsSound | backend/internal/server/server.go:818-833 | in every calm continuation, every copy of the key on any node and every hot-key copy in flight has no expiry and a version between 1 and one more than the number of sets |
| KeyCopies.EveryCalmRunIsSound | backend/internal/server/server.go:818-833 | the same for runs from the start |
| ProtocolReads.RoutedReadIsDetermined | backend/internal/failover/router.go:69-137 | what a read of a drained key returns, from the client operations, the lost first posts and the health states alone |
| ProtocolReads.ReadReturnsTheMapIff | backend/internal/failover/router.go:69-137 | while the replica has not failed, the read returns the map's value if and only if not (primary alive and left with another value by the operations that reached it) |
| ProtocolReads.ReadReturnsTheMap | backend/internal/failover/router.go:69-137 | in particular whenever the last operation did not miss the primary, or the primary is not alive |
| ProtocolReads.ReadsReturnClientValues | backend/internal/failover/router.go:69-137 | over every run, a read of any text returns only what a client set for the key as which the text arrives |
| ProtocolReads.ReadsAtOwners | backend/internal/failover/router.go:149-176 | in every state a routed read asks the owners of the text for the key as which it arrives |
| ProtocolReads.RepliesAreStored | backend/internal/failover/router.go:149-176 | a served read brings key, value, version and remaining seconds of what the serving node has stored |
| ProtocolReads.DeleteActsOnArrivedKey | backend/internal/gateway/gateway.go:433-435 | after every run, a delete of a text takes the key as which it arrives from the primary of the text |
| ProtocolReads.TextsDeleteAndReadOtherKeys | backend/internal/gateway/gateway.go:433-438 | so a text that arrives as another key deletes and reads that key, against the map |
| ProtocolReads.SetDrains | backend/internal/gateway/gateway.go:242-312 | from every drained state a set can be issued and drained; the map and the primary have its value, and nothing is left in flight |
| ProtocolReads.DivertedSetDrains | backend/internal/gateway/gateway.go:257-263 | the same for a diverted set, which leaves the primary alone |
| ProtocolReads.FallbackSetDrains | backend/internal/gateway/gateway.go:272-290 | the same for a set whose first post is lost and that falls back to the replica |
| ProtocolReads.DeleteDrains | backend/internal/gateway/gateway.go:427-440 | the same for a delete, which empties the primary |
| ProtocolReads.FallbackDeleteDrains | backend/internal/gateway/gateway.go:436-440 | the same for a delete whose first post is lost, which leaves the primary alone |
| ProtocolReads.StaleReadAfterDivertedSet | backend/internal/gateway/gateway.go:257-263 | on any cluster a set and a diverted set, both drained, make a read through the recovered primary return the first value |
| ProtocolReads.StaleReadAfterFallbackDelete | backend/internal/gateway/gateway.go:436-440 | on any cluster a set, and a delete that falls back to the replica, make a read through the primary return the deleted value |
| ProtocolReads.RingGivesPairs | backend/internal/hashing/ring.go:162-197 | on a collision-free ring of at least two addressed members, the statements about pairs apply to a non-blank key if and only if it arrives as it was sent |
| Dumps.StartUpRuns | backend/cmd/node/main.go:63-72 | the loop over the peers' dumps as a function of the state is what the protocol's steps compute |
| Dumps.LastDumpWins | backend/cmd/node/main.go:63-72 | for every key the node leads or seconds, in every state with items filed under their keys (as every run leaves them) and every order of the peers: it ends up with the value of the last peer that holds the key, or its own if none does; nothing else changes |
| Dumps.EveryOrderIff | backend/cmd/node/main.go:63-72 | every order of the peers leads to a given value if and only if all peers that hold the key hold that value, and the node itself does if none holds the key |
| ProtocolRecovery.RestResumes | backend/internal/gateway/gateway.go:242-312 | after any run that leaves a key at rest, later calm operations follow the map from what the owners hold, and leave the key at rest again |
| ProtocolRecovery.RestartRests | backend/cmd/node/main.go:56-75 | a restart of an owner, crashed or not, with any peers in any order, leaves a key at rest: nothing in flight, no expiry, versions within the same bound |
| ProtocolRecovery.PrimaryRecoversIff | backend/cmd/node/main.go:63-72 | from every settled run, with the replica among the peers: every order restores the map's value at the primary if and only if the third node is no peer, holds nothing or holds that value, and a primary that kept its cache holds nothing the map has no more |
| ProtocolRecovery.ReplicaRecoversIff | backend/internal/rebalancing/rebalance.go:132-149 | with the primary among the peers: every order restores the map's value at the replica if and only if neither the primary nor the third node holds another value, and somebody still holds it |
| ProtocolRecovery.PrimaryRecovers | backend/cmd/node/main.go:56-75 | under that condition both owners hold the map's value after the loop, operations that missed the primary included, and the key is at rest |
| ProtocolRecovery.OperationResumes | backend/cmd/node/main.go:56-75 | then calm operations follow the simple map as if nothing had happened |
| ProtocolRecovery.ReadsAfterRecovery | backend/internal/failover/router.go:69-137 | then a routed read returns the map's value as long as one owner may serve it |
| ProtocolRecovery.DriftAfterRestart | backend/internal/cache/cache.go:97-102 | after the restart of an owner, whatever it adopted, and a later drained set that reached the primary, the replica's version is the primary's or one more, and the primary's at most the number of sets plus one |
| ProtocolRecovery.StaleThirdCopy | backend/internal/server/server.go:818-833 | on any cluster with a third node, a set, a hot read and another set, all delivered, leave the first value at the third node |
| ProtocolRecovery.StaleStartUp | backend/cmd/node/main.go:63-72 | then the crashed primary that adopts the third node's dump last serves the first value, which the map and the replica have replaced |
| Expiry.DeliveredSetLives | backend/internal/server/server.go:735-741 | after every run: a set or replicated set that is delivered and then left alone is answered there until its TTL has passed since the delivery |
| Expiry.PrimaryPassesOn | backend/internal/server/server.go:745-760 | the primary puts a replicated set with that value and TTL on its way to the replica |
| Expiry.OwnersForget | backend/internal/replication/replicator.go:59-70 | both owners stop answering a set with a TTL, each when the TTL has passed since its own delivery |
| Expiry.BothForgetTogether | backend/internal/cache/cache.go:119-144 | on any cluster: a set that reaches both owners at once is answered by both up to the end of its TTL and by neither from then on |
| Expiry.HousekeepingDropsExpired | backend/internal/cache/cache.go:225-236 | after every run a node's purge takes away exactly its expired items and changes nothing else |
| Expiry.EveryCopyIsTimed | backend/internal/server/server.go:818-833 | if clients set a key only with TTLs of at most n seconds and no item is copied in its last second, no copy on any node or in flight lives for longer than n seconds, whatever is lost, crashed, promoted, dumped or migrated |
| Expiry.EverybodyForgets | backend/internal/cache/cache.go:119-144 | then n seconds after the last arrival no node answers the key |
| Rebalance.Manager.DumpLocalKeys | backend/internal/rebalancing/rebalance.go:75-91 | the dump of all listed keys; the cache keeps its items |
| Rebalance.Manager.IngestBulkKeys | backend/internal/rebalancing/rebalance.go:94-105 | stores the entries in order and counts them |
| Rebalance.Manager.SyncFromPeer | backend/internal/rebalancing/rebalance.go:108-154 | adopts the entries this node leads or seconds, and counts them; nothing on a failed request |
| Rebalance.Manager.RebalanceForNewNode | backend/internal/rebalancing/rebalance.go:156-227 | the ring gains the node, the keys it leads are sent, a report is kept unless the transfer fails |
| RebalanceRuns.DumpIsExact | backend/internal/rebalancing/rebalance.go:75-91 | each picked key exactly once, as a copy of the stored item |
| RebalanceRuns.IngestIsExact | backend/internal/rebalancing/rebalance.go:94-105 | after ingestion every entry is held, other keys are untouched |
| RebalanceRuns.DumpThenIngestRestores | backend/internal/rebalancing/rebalance.go:75-105 | round trip into an empty cache: exactly the listed keys with values, flags and non-zero versions; the expiry is that of a copy |
| RebalanceRuns.AdoptionIsExact | backend/internal/rebalancing/rebalance.go:132-149 | of a peer's dump exactly the keys the node leads or seconds are taken over, flagged accordingly; all else is untouched |
| RebalanceRuns.AdoptionIsCounted | backend/internal/rebalancing/rebalance.go:131-149 | the count it returns is the number of entries whose key the node leads or seconds |
| RebalanceRuns.OthersKeepTheirPrimary | backend/internal/rebalancing/rebalance.go:160-181 | a key the new node does not lead keeps its primary and its address |
| RebalanceRuns.RebalancingMovesExactlyTheNewKeys | backend/internal/rebalancing/rebalance.go:156-202 | a listed key is sent if and only if the new node leads it; then the new node holds its value and non-zero version, otherwise its primary and the new node's cache are unchanged |
| RebalanceRuns.OnlyListedKeysMove | backend/internal/rebalancing/rebalance.go:162-181 | nothing but listed keys of the sender is sent |
| RebalanceRuns.ReportAddsUpIff | backend/internal/rebalancing/rebalance.go:205-217 | the report's numbers add up to the keys evaluated, with the new node's that of the keys sent, if and only if the new node is another node or there were no keys |
| RebalanceRuns.DumpsAreSentByKey | backend/internal/rebalancing/rebalance.go:75-91 | the protocol's dump answer for a listed key is exactly that key's entry of the dump |
| RebalanceRuns.MigrationsAreSentByKey | backend/internal/rebalancing/rebalance.go:162-181 | its migration message for a key is exactly that key's entry of the migration, to the new node |
| RebalanceRuns.EntriesAreHandledAlike | backend/internal/rebalancing/rebalance.go:94-149 | and the receiver does with an entry what adoption and ingestion do |
| Fare.CalculateTripCascade | backend/internal/database/database.go:127-246 | the step-by-step update of the record equals the function `Cascade`; a nil record is left alone |
| FareLaws.CascadeObeysLaws | backend/internal/database/database.go:127-246 | for every record, field name and value: the entered amount is stored rounded and clamped, fare and distance follow at the old rate, the tip by the 18 percent rule, the total adds up with the old surcharge, routes are estimated from both locations, and all else is unchanged |
| FareLaws.LawsDetermineCascade | backend/internal/database/database.go:127-246 | a record obeys the law of the field if and only if it is what the cascade computes |
| FareLaws.TipRuleHolds | backend/internal/database/database.go:161-168 | after a new distance an old tip of at most half the new fare is kept, any other becomes 18 percent |
| Fare.DistanceAgain | backend/internal/database/database.go:170-181 | deriving the distance from a fare twice gives the same distance, rounding and rate clamp included |
| Fare.FareAgain | backend/internal/database/database.go:133-157 | deriving the fare from its own distance and rate gives it back |
| FareRuns.SurchargeStep | backend/internal/database/database.go:127-246 | one edit keeps a whole-cent record; one that recalculates the total keeps the surcharge, raised to 0.80, except that a total leaves at most the total less 2.50; others keep it; a recalculated distance is at least 0.10 |
| FareRuns.SurchargeNeverRises | backend/internal/database/database.go:127-246 | over any edits a surcharge of at least 0.80 stays so and never rises |
| FareRuns.SurchargeEstablished | backend/internal/database/database.go:127-246 | from the first edit that recalculates the total on, it is at least 0.80 |
| FareRuns.FareTwice | backend/internal/database/database.go:171-181 | entering any fare twice equals once: the distance read back is off by less than half a hundredth |
| FareRuns.TotalTwice | backend/internal/database/database.go:191-207 | entering any total twice equals once |
| FareRuns.DistanceTwice | backend/internal/database/database.go:150-169 | entering a distance twice equals once if and only if the fraction its rounding lost is worth less than half a cent of fare, with the minimum fare and the highest rate as the other cases |
| FareRuns.EditTwice | backend/internal/database/database.go:127-246 | for every field and every value, the same edit twice equals once, if and only if the field is not the distance or its fare settles |
| FareRuns.WholeEditTwice | backend/internal/database/database.go:127-246 | in particular for every value in whole cents |
| FareRuns.FractionsDrift | backend/internal/database/database.go:150-169 | an instance: a distance that does not settle charges a cent more the second time |

## Left out

- HTTP, JSON, CORS, timeouts and goroutine scheduling: replaced by steps that send, deliver, lose or answer, and by the outcome of a post as a parameter.
- SHA-256: the digest is an arbitrary function; only its truncation to 32 bits is modelled.
- The backing database: write-through on set, read-through and hydration on get, SQL drivers and row lookups; the protocol runs without one.
- The gateway's read handler, which reports a cached empty value as a miss.
- Query-parameter and form fallbacks of a set and the field extraction from malformed bodies: requests come from the gateway, which sends none of them.
- Query.ArrivesUnchangedIff: a percent escape of a byte above 0x7F is decoded to the character of that number instead of being assembled as UTF-8; no key with a percent sign arrives unchanged either way. The protocol is proved for every behaviour of the query string.
- ConvergenceRuns.OwnersMatchTheMap: speaks of keys that arrive as they were sent, in runs whose deletes of other texts do not arrive as the key; `ProtocolReads.TextsDeleteAndReadOtherKeys` shows what happens otherwise.
- Routing by address: a message carries the node it is for, so two nodes that share an address are told apart.
- Server.Server.HandleSet: the server and the gateway hold the lists their ring returns instead of the ring object itself, so the sharing of one ring by several objects is not captured.
- Rebalance.Manager.RebalanceForNewNode: the ring is held as the value that `HashRing` is proved to compute with, and one instant passes between the listing and the transfer.
- Rebalance reports keep no identifier, time or duration.
- Dumps and migrations in the protocol are sent item by item, and a migration goes to the primary of the key under the agreed ring; membership does not change during a protocol run.
- ProtocolReads.ReadReturnsTheMap: in a calm run only first posts to the primary are lost, and no owner crashes or adopts a dump before the key is delivered; a lost replication message or gateway copy leaves the owners apart until the next operation. Restarts with a delivered key are the subject of `ProtocolRecovery`.
- ProtocolRecovery.PrimaryRecovers: nothing else happens to the key while the start-up loop runs, and the clock stands still; peers that cannot be reached are no peers.
- Convergence of overlapping operations and globally increasing versions are not stated: a receiver never compares versions.
- Counters do not wrap at 64 bits; item versions do.
- Fare.CalculateTripCascade: amounts are exact reals, so float64 rounding is idealised, and the conversion of field values to numbers is not modelled.
- The locks of the detector, the monitor and the ring: their methods run one at a time; only the cache is split into its locked phases.
- Router counters are compared when a request has finished; requests in flight are not counted.
- Load balance of virtual nodes, latencies, rates, chaos experiments, the dashboard and its own ring, deployment files.
