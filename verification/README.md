# Quota library: verified protocols

The library admits work against limits. It keeps a fast cache of counters, a ledger of
activations, an outbox of money events, a ledger of handled deliveries and a few smaller
caches, all shared by many processes that can stop at any point. This project models those
parts in Dafny and proves what holds over whole runs: for every interleaving, every crash
point and every input.

`dafny verify dfyconfig.toml` checks everything.

| file | what it models |
|---|---|
| `CounterStore.dfy` | the counter store as a value (levels, latches, expiries) and each operation on it |
| `StoreMeaning.dfy` | what an acquire promises on the levels: who is admitted, who is denied and where, what is taken |
| `InMemoryStore.dfy` | the in-memory store: an object updated in place, each method proved against the value |
| `LuaLayout.dfy` | the Redis store: packed KEYS and ARGV, and the Lua scripts that unpack them |
| `DualRefinement.dfy`, `Frames.dfy` | one counter under two key shapes behaves as one counter |
| `Keyspace.dfy` | key builders, the v1 classifier, hash tags |
| `Migration.dfy`, `Migrator.dfy` | the migration as a step system, and the migrator's verbs |
| `Activations.dfy`, `Listing.dfy` | ledger rows under concurrent release and settle; ordered listings |
| `ActivationProtocol.dfy` | acquire and release by any number of processes, with crashes |
| `EngineAcquire.dfy` | one engine call on all its paths while others change the store |
| `Settlement.dfy`, `Outbox.dfy`, `OutboxMemory.dfy` | what may be charged; the outbox as a step system; the in-memory outbox and emitter |
| `HandlerLedger.dfy` | delivery dedup by lease and outcome, the retry loop |
| `Reconcile.dfy` | the reconciler |
| `TierCache.dfy` | the tier cache with its last-known-good answers |
| `RateWindow.dfy` | sliding-window rates |

Step systems are total functions on a state and an event; an event whose process is not
ready does nothing. A run is a sequence of events, so a statement about every sequence is
a statement about every interleaving, and a process that stops is one that gets no more
events. Clocks, network outcomes, the answers of other services and what other processes
do are parameters or events. Levels are real numbers.

Some promises turned out to hold only under a condition. Each is stated exactly, for all
inputs:

- A resource key without a dot is never seen by the migration scan (`Migrator.ScanSeesPairs`).
- After a v2-only add to an accumulator bucket, a dual-writing engine reads it right for ever
  exactly when its v1 copy holds nothing or expires with it (`Migration.BucketComesBackIff`).
- The in-memory and the Redis single acquire leave the same store exactly when no latch is
  newly claimed without a ttl: such a latch never expires in memory and lasts a day in Redis
  (`InMemoryStore.MemoryAgreesWithRedis`).
- A release undoes its acquire exactly when the bundle names no resource twice
  (`ActivationProtocol.ReleaseUndoesAcquire`).
- A settle that comes back empty leaves the row unsettled exactly when its first try found it
  open and a release landed before its last access (`Activations.SettleMissesExactlyAcrossARelease`).
- Money events are conserved over all runs exactly when nothing is dropped: the policy is not
  drop, or every event of the book is always put to billing and never refused for good
  (`Outbox.ConservationIsNothingDropped`).
- An event whose settlement landed is never voided exactly when it says when its resource
  stopped, or can never be put to billing (`Outbox.LandedNeverVoidedIff`).
- A reconcile pass counts right exactly when every open row spending the resource was listed;
  with 100001 rows it is short (`Reconcile.ListedCountVsTruth`, `Reconcile.LimitUndercounts`).
  A drifted twin of a correct gauge is not healed (`Reconcile.OtherShapeHealed`).
- A user and org are never served a downgraded tier over all runs exactly when neither name
  holds a bar (`TierCache.NeverDowngradedIffBarFree`).
- A rate count is exact exactly when no event of its window lies below the cutoff of an
  operation from its own on (`RateWindow.CountIsExactIff`).

## Model

| member | source | states |
|---|---|---|
| DualRefinement.DualRefinesSingle | counters/dual.go:181-187 | From a store without v2 keys, every run of spends, floored releases, accumulator adds, bundle acquires, reads and backfills by dual-writing engines, the primary switched at any point, gives the levels, decisions, denied indexes and dup answers of one single-shape store. |
| DualRefinement.ExecRel | counters/dual.go:368-509 | Every single operation keeps "v2 is absent or equal to v1 in value, latch and expiry" (after v2-final: "v2 holds the truth") and answers as the single store does; only a v2-only accumulator add needs something, the exact condition of `Migration.BucketComesBackIff` on the bucket it adds to. |
| DualRefinement.BackfillRel | counters/keyspace_migration.go:188-215 | Backfilling a key changes no reading, and leaves its twin present and equal, value and remaining time to live. |
| DualRefinement.SingleWriterBreaksDual | counters/dual.go:383-393 | The premise that all engines dual-write is needed: one v1-only spend makes the two primaries read differently. |
| Frames.ExecFrame | counters/dual.go:383-509 | An operation changes no bucket or latch pair but its own, and a latch pair only by being claimed, unlatched before, in the mode's shapes and with the right expiry. |
| Frames.ForeignFrame | counters/dual.go:383-509 | An operation on counters of another consistent universe changes no cell of this one. |
| Migration.MigrationEndToEnd | counters/keyspace_migration.go:228-328 | Over every run of engines and verbs, crashes, fresh migrators and anything done to counters outside the universe included, all engine answers equal the single store's; once v2-final is stored, however far deletion has come, a (2,false) engine reads every gauge and bucket at its true level. |
| Migration.FlipGateSound | counters/keyspace_migration.go:264-285 | Whenever the flip gate opens, every latch still alive has a v2 twin with the same expiry and every v1 level has an equal v2 level. |
| Migration.MarkerAdvances | counters/keyspace_migration.go:108-146 | Over any sequence of verbs the phase only advances, the start of the dual window is written once, and v2-final is never taken back. |
| Migration.NoEarlyDelete | counters/keyspace_migration.go:303-328 | At every point of every run, a level or latch that time has not taken disappears only when v2-final is stored. |
| Migration.FinalBoots | counters/keyspace_migration.go:400-445 | From v2-final on, at every later moment the boot guard accepts exactly version 2 without dual-write. |
| Migration.BootsExactly | counters/keyspace_migration.go:400-445 | At every point of every run a declaration boots exactly when it is version 2 without dual-write and v2-final is stored or no v1 counter exists, or it is any other and v2-final is not stored. |
| Migration.FinalWasEarned | counters/keyspace_migration.go:264-328 | Over every run: v2-final is stored only after a confirmed reap under a green verify, and a flip is recorded only under a green verify, at least a day and the longest rate window after dual-on. |
| Migration.VerifyIsPerInstance | counters/keyspace_migration.go:264-328 | Until a scan of this instance has ended, no flip and no reap moves the marker. |
| Migration.EngineStepMeans | counters/dual.go:383-509 | Before v2-final every dual-writing engine, afterwards every version 2 engine, is answered from the store without what has expired, and the store goes on from there; any other call is no step. |
| Migration.MigrationCanFinish | counters/keyspace_migration.go:188-328 | The gates can be passed from everywhere: from any starting store, with whatever gauges, buckets and latches, some legal run stores v2-final and leaves no v1 key, a day or the longest rate window after dual-on. |
| Migration.BucketComesBackIff | counters/keys_python.go:113-136 | After v2-final, for all stores, keys and times: a dual engine reads a bucket that a v2-only engine added to as the single store does at every later moment exactly when its v1 copy holds nothing or expires no later than the renewed bucket. |
| Migration.UndisciplinedBucketComesBack | counters/keys_python.go:113-136 | An instance: a bucket without ttl, copied and renewed by a v2-only engine, is read again after its period. |
| Migrator.ServiceMigration | counters/keyspace_migration.go:228-328 | Migration end to end on the real key strings: for every valid service, org and dotted, colon-free resource key, the v2 key reads what the single store reads once v2-final is stored, whatever engines do to undotted keys and to buckets left out. |
| Migrator.UncoveredIsElsewhere | counters/keyspace.go:162-171 | Any operation on counters the scan does not cover is one the migration run may contain. |
| Migrator.ScanSeesPairs | counters/keyspace_migration.go:148-186 | The scan sees a valid counter's v1 key exactly when its resource key has a dot; then its twin is the engine's v2 key, and value keys, latches and rates are told apart. |
| Migrator.FlipAndReap | counters/keyspace_migration.go:228-328 | Verify, Flip and Reap in a row leave every scanned gauge and bucket under its v2 key alone, within the tolerance of its old value, with v2-final stored; a refusal changes no counter. |
| Migrator.BackfilledMeans | counters/keyspace_migration.go:188-215 | For every listing: a level that is there is left alone; an absent one is copied, level and expiry, from a listed value key whose twin it is and that is held; nothing else changes. |
| Migrator.CompareIsMatches | counters/keyspace_migration.go:228-259 | A comparison step of the migration run judges a key as Verify does. |
| Migrator.CheckBoot | counters/keyspace_migration.go:400-445 | Without a service every declaration boots; otherwise after v2-final exactly version 2 without dual-write does, and before it such a declaration boots exactly when no scanned key is a v1 counter. Each refusal has its own code. |
| Migrator.Migrator.DualOn | counters/keyspace_migration.go:130-146 | Writes the marker once; a second call keeps it, and refuses after v2-final. |
| Migrator.Migrator.Backfill | counters/keyspace_migration.go:188-215 | Refuses exactly without dual-on or after reap; otherwise seeds exactly the absent twins of the value keys it reaches, stopping early only on its budget, and counts the value keys it met and the levels it added. |
| Migrator.Migrator.Verify | counters/keyspace_migration.go:228-259 | Green exactly when no key diverges; the divergent keys are exactly the scanned value keys without a v2 level, or whose v2 level is further than the tolerance from the v1 level, absent being zero. |
| Migrator.Migrator.RecordFlip | counters/keyspace_migration.go:289-301 | Records the flip exactly when the gate is open, and changes nothing otherwise. |
| Migrator.Migrator.Reap | counters/keyspace_migration.go:303-328 | Runs exactly after a recorded flip, a green verify in this run and a confirmation; then v2-final is stored, exactly the scanned v1 counter keys are deleted, and the answer is how many counters there are fewer. |
| Keyspace.ClassifyExact | counters/keyspace.go:162-171 | A key classifies exactly when it is a v1 counter key of a classifiable org and dotted resource. |
| Keyspace.ClassifyRecovers | counters/keyspace.go:162-171 | Classifying a built v1 key gives back its org, resource key and tail, colons in the tail included. |
| Keyspace.ClassifySound | counters/keyspace.go:162-171 | What the classifier returns rebuilds the key it was given. |
| Keyspace.OtherKeysNeverClassify | counters/keyspace.go:162-171 | No v2 key, marker, recent-activity or last-known-good key is ever taken for a v1 counter. |
| Keyspace.BuildersInjective | counters/keyspace.go:98-147 | Two built keys are equal exactly when shape and counter are the same, the empty idempotency key sharing `__unused__`. |
| Keyspace.HashTagIsScope | counters/keyspace.go:98-104 | The cluster hash tag of a v2 key is its service and org, whatever the resource and tail (section "Hash tags" of the Redis Cluster Specification). |
| Keyspace.HashTagsSeparate | counters/keyspace.go:24-37 | Different valid services or orgs have different hash tags. |
| Keyspace.UniverseConsistent | counters/keyspace.go:123-147 | The pairs of one service never share a key between counters or between shapes, which is what the refinement needs. |
| Keyspace.LegalDeclarationIsAMode | counters/keyspace.go:48-147 | In every legal (version, dual-write) declaration the built pairs are the pairs of the refinement in one of its modes, and v2 keys only occur with a valid service. |
| Keyspace.DeclarationIsExact | counters/keyspace.go:48-66 | The legal declarations are no service with version 1 alone, or a valid service with any version and dual-write. |
| Keyspace.ScopeIsExact | counters/keyspace.go:20-37 | A scope is refused exactly when it is empty, holds a brace, a slash or a colon, or is `v` followed by digits alone. |
| Keyspace.KeyStrings | counters/keyspace.go:98-147 | The key strings of every counter under both versions, written out. |
| CounterStore.DualAcquireSingle | counters/dual.go:449-509 | The dual acquire without a second shape is the single acquire with the one-day latch. |
| StoreMeaning.SingleAcquireJudges | counters/acquire.go:103-139 | A valid bundle with no live latch is admitted exactly when every level plus its delta is at most every limit that is present, org and, with a user, user share; otherwise it is denied with the index of the first spec that does not fit. A live latch answers dup and a negative delta is refused, whatever the levels. |
| StoreMeaning.DualAcquireJudges | counters/dual.go:449-509 | The same for the dual acquire, on the levels after seeding, with a latch live in either shape. |
| StoreMeaning.SingleAcquireTakes | counters/acquire.go:125-139 | An admitted bundle raises every level by the sum of the deltas of the specs that name its key, as org gauge, user share or sequence, and claims exactly its own latch, until the given time. |
| StoreMeaning.DualAcquireTakes | counters/dual.go:482-509 | The same for both shapes of the dual acquire, from the seeded levels; both latches are claimed for the given ttl, or for 86400 seconds. |
| StoreMeaning.OnlyAdmissionTakes | counters/acquire.go:103-139 | A refusal touches no key; a denial and a dup only clear what has expired. |
| StoreMeaning.SeedMeans | counters/dual.go:368-381 | Seeding copies the v1 level to the v2 key exactly when the v2 key has none, and touches nothing else. |
| StoreMeaning.ReferenceSpends | counters/dual.go:383-393 | What the reference of the refinement does for a spend: the level of that key goes up by the delta from what is alive, no other level, latch or expiry moves, and the answer is the new level. |
| StoreMeaning.ReferenceReleases | counters/store_memory.go:54-64 | The same for a release: down by the amount, not below zero. |
| StoreMeaning.ReferenceAccrues | counters/dual.go:431-447 | The same for a bucket, whose expiry becomes now plus its ttl when it has one. |
| StoreMeaning.ReferenceReads | counters/store_memory.go:66-72 | A read answers the level of a live key, else nothing. |
| InMemoryStore.MemoryAgreesWithRedis | counters/acquire.go:103-139 | The in-memory and the Redis single acquire always answer alike; they leave the same store exactly when no latch is newly claimed without a ttl. |
| InMemoryStore.CounterMaps.Sweep | counters/store_memory.go:33-42 | The deleting loop removes exactly the expired keys from all three maps. |
| InMemoryStore.CounterMaps.IncrByFloat | counters/store_memory.go:44-52 | The single-shape add after a sweep. |
| InMemoryStore.CounterMaps.GetFloat | counters/store_memory.go:66-72 | The level of a live key, if any. |
| InMemoryStore.CounterMaps.Set | counters/store_memory.go:74-82 | Overwrites the level without a sweep; a ttl of zero keeps whatever expiry the key had. |
| InMemoryStore.CounterMaps.Delete | counters/store_memory.go:84-93 | Blanks exactly the given keys in all three maps. |
| InMemoryStore.CounterMaps.DecrByFloorZero | counters/store_memory.go:54-64 | The single-shape floored decrement; never negative. |
| InMemoryStore.CounterMaps.SetIfAbsent | counters/store_memory.go:106-119 | Wins exactly when no live latch is there, and then claims it. |
| InMemoryStore.CounterMaps.AtomicAcquire | counters/acquire.go:103-139 | The loops over the maps perform the atomic bundle acquire: validate, dup, check all, claim, spend all. |
| InMemoryStore.CounterMaps.AcquireDual | counters/dual.go:449-509 | The loops over both shapes perform the dual acquire that the refinement is about. |
| InMemoryStore.CounterMaps.SpendUser | counters/dual.go:395-409 | Seeds three pairs and bumps two; the order of the four additions does not matter. |
| InMemoryStore.CounterMaps.DecrFloor | counters/dual.go:411-429 | Seeds, then floors both shapes independently. |
| InMemoryStore.CounterMaps.AccAdd | counters/dual.go:431-447 | Seeds, adds to both shapes and gives both the same expiry. |
| LuaLayout.PackKeys | counters/dual.go:276-298 | Where the packing loop puts every key: the latch, then three keys a gauge, placeholders for a gauge without a user. |
| LuaLayout.PackArgs | counters/dual.go:315-322 | Where the packing loop puts every argument: four a gauge. |
| LuaLayout.GaugeAt | counters/dual.go:119-165 | The script's index arithmetic lands on the pair, flag and delta of its gauge, in the primary block and in the block that starts at NK. |
| LuaLayout.RedisAtomicAcquire | counters/acquire.go:202-263 | For every spec list, packing, the script's strides and reading the reply give the outcome and the store of the single acquire whose latch lives the given ttl, or one day for a ttl of zero; where the in-memory store differs is `InMemoryStore.MemoryAgreesWithRedis`. The reply is always readable. |
| LuaLayout.ReplyMeans | counters/dual.go:344-366 | A reply is unreadable exactly when it is not an admission and its reason is neither dup nor ok nor a number; otherwise admission, dup and denied index are the ones it carries. |
| LuaLayout.AcquireScript | counters/acquire.go:151-193 | The script on well-packed arrays performs the single acquire. |
| LuaLayout.RedisDualAcquire | counters/dual.go:267-328 | The same for the dual acquire, for every paired spec list, in both directions of the primary. |
| LuaLayout.DualAcquireScript | counters/dual.go:119-165 | The dual script on well-packed arrays seeds, decides, claims both latches and spends both shapes as the in-memory store does. |
| LuaLayout.SpendOrderIrrelevant | counters/dual.go:152-163 | Alternating shapes key by key, as the script does, spends the same as finishing one shape before the other, as memory does, even when keys coincide. |
| LuaLayout.RedisSpendUser | counters/dual.go:218-238 | The per-user script with NK = 3 leaves the store of the in-memory per-user spend for any keys; each answer is the same exactly where no later bump hits its key. |
| LuaLayout.RedisSpendOrg | counters/dual.go:205-216 | The org script leaves the store of the in-memory spend for any keys; the answer is the same exactly when the two keys of the pair differ or nothing is added. |
| LuaLayout.RedisDecrFloor | counters/dual.go:240-251 | Increment, then SET on a negative result, gives the answer and levels of the in-memory floor; exactly the keys whose floor acted lose their expiry. |
| LuaLayout.RedisAccAdd | counters/dual.go:253-265 | The accumulator script leaves the store of the in-memory add, expiries included, for any keys; the answer is the same exactly when the two keys differ or nothing is added. |
| Activations.RowMovesForwardOnce | activations/ddb.go:181-230 | Over any interleaving of read and conditional put by release and two-try settle calls, with lost replies and row expiry: what lands is a release, a settle, or a release then a settle, each changing only its own fields, and no two calls return the same move. |
| Activations.CostNeverChanges | activations/activations.go:138-151 | Once a row is settled no later call writes it again. |
| Activations.CostIsTheCallers | activations/ddb.go:215-230 | A settled row records the cost of the very call that settled it. |
| Activations.SettleMissesExactlyAcrossARelease | activations/activations.go:293-305 | A settle that comes back empty with the row still kept leaves it unsettled exactly when its first try read open and, in the log of landed writes, a release follows that read and precedes its last access with no settle after it. |
| Activations.SettleCanMiss | activations/activations.go:293-305 | That last case happens: a run in which settle returns nothing and the row stays unsettled. |
| Activations.ReadThenPutIsTheScript | activations/activations.go:188-200 | Read and conditional put with nothing in between is the atomic transition script. |
| Activations.UninterruptedSettleIsAtomic | activations/activations.go:293-305 | The two tries with nothing in between settle exactly what the one-step in-memory settle does. |
| Activations.ActivationRows.PutOpen | activations/activations.go:103-111 | First writer wins. |
| Activations.ActivationRows.MarkReleased | activations/activations.go:124-136 | Returns the row exactly when this call moved it from open. |
| Activations.ActivationRows.MarkSettled | activations/activations.go:138-151 | Returns the row exactly when this call moved it from open or released. |
| Activations.ActivationRows.ListOpen | activations/activations.go:153-167 | Open rows of the org, none twice, oldest first; a limit keeps the oldest. |
| Activations.ActivationRows.CountOpen | activations/activations.go:169-180 | The number of open rows of the org. |
| ActivationProtocol.LevelIsAccountedFor | engine/activation.go:234-354 | In every reachable state, with crashes and lost replies between any two store calls and reconcile passes of quiet gauges in between, each org and user gauge is exactly the rows never released, plus spends not stored yet, plus rows marked released but not decremented yet, plus orphans, less what a pass has written off. |
| ActivationProtocol.FloorNeverFires | engine/activation.go:368-394 | Every decrement of a release finds at least what it gives back: the level drops by exactly 1. |
| ActivationProtocol.NoOverAdmission | counters/acquire.go:103-139 | In any interleaving the open activations on an org gauge or a user share, which for an org gauge are the rows listed as open for that org and resource, never exceed the level of the gauge nor its limit. |
| ActivationProtocol.PassLeavesTheOpen | reconcile/reconcile.go:200-225 | A ledger-only pass over a gauge nobody is in the middle of sets it to exactly the number of open rows that spend the resource, and the accounting goes on from there. |
| ActivationProtocol.DenialChangesNothing | counters/acquire.go:115-123 | A denied or invalid bundle leaves every key as it was, up to what had expired: no counter, no latch. |
| ActivationProtocol.SettledUnreleasedStays | activations/activations.go:124-151 | A row settled while open is never released by any later step; its unit stays taken until a reconcile pass writes it off. |
| ActivationProtocol.ReleaseUndoesAcquire | engine/activation.go:325-330 | Giving back what the row recorded restores every gauge exactly when the bundle names no resource twice. |
| ActivationProtocol.UntouchedIsOpen | engine/activation.go:331-348 | Over every run, a stored activation that no release and no settle has touched is open. |
| ActivationProtocol.PersistStores | engine/activation.go:331-348 | Storing a spend adds the row it is for: open, with its org, user and time, one unit of each resource, the store untouched. |
| ActivationProtocol.StoredThenReleasedGivesBack | engine/activation.go:331-394 | From every reachable spend: storing the row, releasing it and decrementing its gauges in any order leaves the row released and each of those gauges exactly one lower, and no other. |
| ActivationProtocol.RoomySpendLands | counters/acquire.go:103-139 | In every reachable state a request without a live token lands exactly when each limited gauge it wants has room for one more, and then takes one from each gauge it wants and nothing else. |
| ActivationProtocol.ReplayIsDup | counters/acquire.go:110-134 | After a spend landed under a token, for 86400 seconds, whatever else happens, a request with that token on the same org and first gauge is answered dup, takes nothing and stores nothing. |
| ActivationProtocol.SettleTryMeans | activations/ddb.go:215-230 | A settle try moves exactly a kept row in the state it expects, to settled with the cost and time it brought. |
| EngineAcquire.Engine.Acquire | engine/activation.go:84-357 | Whatever path is taken and whatever others do to the store in between: at most two atomic attempts, only the last can land, a first of two was a denial that spent and claimed nothing, each attempt starts from what others and a repair left, what landed is left alone. The first attempt runs under the limits of the tiers looked up, or under none when enforcement is off; the second is made exactly as the mode says; a denial names the gauge the first attempt failed on. A row is stored only for an own landed spend, and admitted, dup, denied and persist_failed are reported exactly so. |
| EngineAcquire.Engine.SpendPhase | engine/activation.go:223-307 | An admission is the last word; a denial is re-run without caps under shadow mode or an unreachable provider, re-run under the same limits after a repair, and stands otherwise. Without those there is one attempt; under shadow mode no denial stands; a standing denial is the reply of the first attempt. |
| EngineAcquire.Engine.SecondChance | engine/activation.go:238-307 | After a denial one more attempt is made exactly under shadow mode or an unreachable provider, then without caps, or after a repair that found a contradicted gauge, then under the same limits; otherwise the denial stands and nothing is done. |
| EngineAcquire.UncappedAdmits | engine/activation.go:243-256 | With the caps cleared an acquire lands or answers dup, never denies. |
| EngineAcquire.LandedHadRoom | engine/activation.go:149-180 | A landed spend had room for one more on every limited gauge, org and user, in the state it spent from. |
| EngineAcquire.GaugeLimitMeans | engine/activation.go:59-77 | A gauge runs under the limit the looked-up tier sets for its resource, and under its user limit exactly when the request has a user; with an unknown tier, or a resource the tier does not limit, under none. |
| EngineAcquire.TierAttemptJudged | engine/activation.go:149-180 | An attempt under the limits of the tiers is answered dup on a live token; otherwise it lands exactly when level plus one is within the tier limit on every gauge of the bundle, org and user, and is denied at the first gauge where it is not. |
| EngineAcquire.SpecMeans | engine/activation.go:160-180 | A spec asks for one unit under the given limits, in the org gauge and, with a user, in the user share and the sequence count, in both shapes during dual-write. |
| EngineAcquire.RowMeans | engine/activation.go:325-348 | The stored row is open, for this org, user, name and time, with one unit of each gauge and nothing settled or released. |
| EngineAcquire.RepairMeans | engine/activation.go:258-300 | A repair that nobody disturbs leaves no gauge of the bundle contradicting the provider, sets both shapes of the contradicted ones to its count, changes no other level, and reports exactly whether there was one. |
| EngineAcquire.PreambleOpens | engine/activation.go:90-142 | Work is considered exactly when the kill switch is off, a resolved tier is configured or enforcement is off, and the name is declared or leniency configured; an undeclared name gates nothing. |
| EngineAcquire.PreambleRefuses | engine/activation.go:90-142 | Each refusal with its reason, in order: nothing named, kill switch, a resolved tier that is not configured while enforcement is on, an undeclared name without leniency; what is gated otherwise is the declared bundle or the one resource. |
| EngineAcquire.BuildSpecs | engine/activation.go:149-180 | One spec a gauge resource of the bundle, in order, non-gauges skipped, each with the limits of the tier looked up for it. |
| EngineAcquire.Engine.ReleaseActivation | engine/activation.go:368-394 | True exactly for the call that moved the row from open; only that call gives back, each gauge of the row once, stopping with an error at the first decrement that fails, before or after acting, and giving back all of them otherwise. |
| EngineAcquire.GiveBackOnce | engine/activation.go:378-392 | Whatever the order of the spend map, under either shape of a key and in either direction of the primary: each gauge given back drops once by what the row spent on it, from its seeded level, floored at zero, and no other gauge changes. |
| EngineAcquire.Engine.Settle | engine/activation.go:398-420 | An invalid amount changes nothing; otherwise the first cost wins and a different later one is reported as a conflict. |
| Settlement.AskIsSound | outbox/settle.go:205-265 | Billing is only ever asked for a terminal event, under its own non-blank reservation id, for a lifetime that does not run backwards; the request of an event with a stop time never depends on when it is asked. |
| Settlement.PlanMeans | outbox/settle.go:205-256 | Exactly which events are put to billing, and for what: their own reservation, org, start and rate, up to their own stop time if it can be read, else the time the event entered the outbox if no stop is given, else now. |
| Settlement.PlanRefuses | outbox/settle.go:220-256 | Why a terminal event is not put to billing: the first cause that applies, in the order of the checks. |
| Settlement.AlwaysAsksIff | outbox/settle.go:205-256 | An event is put to billing at whatever time it comes up exactly when it is terminal, readable, complete, and its own stop time is not before its start. |
| Outbox.VoidedWasRefused | quota/settler.go:87-104 | With a settler wired, in any run, an event whose lifetime is in order is being voided only if billing answered it with a 400, a 422 or its missing-account 404. |
| Outbox.NoEventDisappears | outbox/emitter.go:68-158 | Over every run of emits, concurrent drains and crashes where nothing is dropped, racing read-then-put bumps and voids included: every stored intent is pending, voided with a reason, published or affirmed by billing. |
| Outbox.EmitDelivers | outbox/emitter.go:68-92 | From every state, an emit whose publish works, with nobody in between, stores the intent first and ends with the event published and its row gone. |
| Outbox.EmitPends | outbox/emitter.go:68-92 | When the publish fails the stored row stays with one attempt more. |
| Outbox.ConservationIsNothingDropped | outbox/emitter.go:95-112 | For every setting, conservation over all runs holds exactly when the policy is not drop, or every event of the book is always put to billing and none of its requests is refused for good. |
| Outbox.DropLosesEvents | outbox/emitter.go:95-101 | Under drop any event that does not surely settle, terminal ones with a settler wired included, is lost in some run without publish or settlement, with or without a publisher. |
| Outbox.ChargedExactlyOnce | outbox/settle.go:205-305 | Against billing that dedups on the settlement key, through lost replies, refusals, retries and both terminal events: each reservation is charged at most once, only for a terminal event of its own, never under a blank key, and every event billing accepted has had its reservation charged. |
| Outbox.LandedIsNeverVoided | outbox/settle.go:172-202 | Once billing accepted the settlement of an event with a stop time, it is not voided and no process is about to void it, then or later. |
| Outbox.UnstampedCanBeVoided | outbox/settle.go:241-244 | Every event that may be put to billing but does not say when it stopped breaks that in some run: a re-emit asks for another lifetime, whose refusal voids it. |
| Outbox.LandedNeverVoidedIff | outbox/settle.go:172-305 | For every key and content: over all settings and runs a landed event is never voided exactly when it says when its resource stopped or can never be put to billing. |
| OutboxMemory.Emitter.PutIntent | outbox/store.go:73-85 | A pending row keeps its first time and attempts across a re-emit; anything else is replaced. |
| OutboxMemory.Emitter.ListPending | outbox/store.go:109-123 | Pending rows only, none twice, oldest first; a limit keeps the oldest. |
| OutboxMemory.Emitter.SettleOrVoid | outbox/settle.go:172-202 | Settled retires the row and is mirrored, retry keeps it pending and counts, anything else voids it with its reason in the alert mirror. |
| OutboxMemory.Emitter.EmitViaOutbox | outbox/emitter.go:68-92 | The intent is stored before anything is sent; a failed publish leaves the stored row pending with one attempt more. |
| OutboxMemory.Emitter.Drain | outbox/emitter.go:116-158 | A pass lists the oldest pending records up to its budget, in order; every listed record meets its fate, no other row changes, and the count is the number published. |
| OutboxMemory.FateMeans | outbox/emitter.go:116-158 | A pending record is published and retired, or counted and kept, up to the horizon, the horizon itself included; past it, it is settled or voided and never published; without a publisher it waits. |
| OutboxMemory.ResolvedMeans | outbox/settle.go:172-202 | Settle-or-void: a 200 retires the row; any answer but a 400, a 422 or the missing-account 404 keeps it with one attempt more; one of those, or not being put to billing, voids it with a reason, or deletes it under drop. |
| OutboxMemory.SentCounts | outbox/emitter.go:116-158 | The count of a pass is the number of listed rows it published. |
| OutboxMemory.FateIsHonest | outbox/emitter.go:129-156 | A drained row is retired only by a publish that worked, an affirmative settlement or drop, is voided only past the horizon and with a reason, and keeps its key and first time. |
| OutboxMemory.FateIsARun | outbox/emitter.go:129-156 | What the drain loop does to a record is what the step system does when nothing comes in between. |
| HandlerLedger.ProceedsAreALeaseApart | handlerledger/memory.go:27-65 | Two attempts of one delivery that proceed with no recorded outcome between them are at least one lease apart. |
| HandlerLedger.OutcomeIsFinal | handlerledger/memory.go:67-84 | Whatever outcomes are recorded, the row is terminal exactly while the last of them is, and meanwhile every attempt is blocked. |
| HandlerLedger.ClosedStays | handlerledger/retry.go:154-198 | After a terminal outcome, the only kind a dispatch records, no later attempt proceeds until some other outcome is recorded. |
| HandlerLedger.RedisRefinesAtomic | handlerledger/redis_store.go:61-163 | Load, decide, commit if unchanged: the committed calls in commit order are a timely run of the atomic ledger with the same row; a process told to proceed, or that its outcome is recorded, has exactly one such call in it; a blocked one was blocked by the row its load found, and one told there is no row loaded a version at which the atomic run had none. |
| HandlerLedger.OutcomeFindsTheRow | handlerledger/redis_store.go:121-163 | Over every run: once an attempt has committed, a process that loads afterwards to record an outcome is never told there is no row; if it is answered, its outcome is recorded. |
| HandlerLedger.CallIsServed | handlerledger/redis_store.go:61-163 | After every run, load, decide and commit with nobody in between commit exactly that call, leave the row the atomic call leaves, and answer proceed, blocked, recorded or no row as it does. |
| HandlerLedger.ContendedIsBusy | handlerledger/redis_store.go:249-267 | A call is given up only after twenty commits by others. |
| HandlerLedger.NextMeans | handlerledger/memory.go:27-84 | What an attempt and an outcome leave of a row, field by field: the lease asked for, or sixty seconds; attempts counted; an outcome only on a row that is there. |
| HandlerLedger.BlocksMeans | handlerledger/memory.go:27-65 | A delivery is blocked exactly by a terminal row or one in progress whose lease has not run out. |
| HandlerLedger.RedisLeaseSafety | handlerledger/redis_store.go:249-267 | Two processes told to proceed with no outcome recorded between their calls are at least one lease apart. |
| HandlerLedger.RunWithRetry | handlerledger/retry.go:46-127 | The handler runs again only after a failure that was not cancelled, at most the configured times, and one terminal outcome with the right attempt count is reported. |
| HandlerLedger.MemoryLedger.RecordAttempt | handlerledger/memory.go:27-65 | Proceeds exactly when the row is neither terminal nor under a live lease, and then takes a new lease; otherwise nothing changes. |
| HandlerLedger.MemoryLedger.RecordOutcome | handlerledger/memory.go:67-84 | Ends the lease and records the outcome; a missing row stays missing. |
| HandlerLedger.MemoryLedger.Dispatch | handlerledger/retry.go:154-198 | The handler runs exactly when the delivery is not blocked, again only after uncancelled failures, and then the row ends terminal with the verdict of the last invocation. |
| Reconcile.PassRestoresTruth | reconcile/reconcile.go:124-233 | From any drift, one ledger-only pass over a complete listing makes every untouched gauge read the number of open rows that spend it, and the next pass changes nothing and raises no alert. |
| Reconcile.PassFrame | reconcile/reconcile.go:158-231 | A pass changes nothing but the untouched org gauges of that org: no user gauge, accumulator bucket, rate key, latch or other org. |
| Reconcile.PassReads | reconcile/reconcile.go:172-231 | Every gauge due reads afterwards the count of the ledger when no provider is wired, the count of the provider when it names the gauge, and what it read before when the provider does not name it or cannot be reached. |
| Reconcile.PassAlerts | reconcile/reconcile.go:158-231 | An alert is raised exactly for a gauge due that is unknown to the provider, cannot be observed, does not read its target or has live work without a row; it carries the level before, the target, its source and the number without a row. |
| Reconcile.ReadingIsTheDualGet | reconcile/reconcile.go:204-206 | What the pass compares is the fallback read of the store. |
| Reconcile.CleanPass | reconcile/reconcile.go:208-216 | A ledger-only pass is silent exactly when every gauge due already read its count, and a silent pass changes nothing. |
| Reconcile.UnreachableChangesNothing | reconcile/reconcile.go:146-170 | With the provider unreachable no counter changes. |
| Reconcile.ListedCountVsTruth | reconcile/reconcile.go:134-144 | The count of the listed rows never exceeds the truth and equals it exactly when every open row spending the resource was listed. |
| Reconcile.LimitUndercounts | reconcile/reconcile.go:134-144 | A ledger of 100001 open rows and a listing of its first 100000 that counts too few. |
| Reconcile.CountingIsSumming | reconcile/reconcile.go:139-144 | Counting rows is summing their spend, because every row spends 1. |
| Reconcile.OtherShapeHealed | reconcile/reconcile.go:208-225 | In dual-write the other shape ends correct exactly when the authoritative one had drifted or it was correct already. |
| Reconcile.Reconciler.ReconcileOrg | reconcile/reconcile.go:124-233 | Refuses exactly without a durable ledger or without a guard, changing nothing; otherwise performs the pass with counts that are complete up to the listing limit. |
| TierCache.NeverDowngrades | providers/cache.go:131-209 | With caching on and no maximum age, after the first success for a user and org without a bar in their names, every call for them is served without error the tier of the last successful lookup, through failures, expiries, invalidations and any other callers. |
| TierCache.NeverDowngradedIffBarFree | providers/cache.go:131-209 | For every user and org, that promise holds over all runs exactly when neither name holds a bar; otherwise another pair's success is served. |
| TierCache.RestartServesStoredTier | providers/cache.go:221-236 | After a restart, while every lookup for an org fails, each bar-free user of it is served the last tier stored for it, whatever other callers do. |
| TierCache.StreakIsExact | providers/cache.go:85-103 | For a bar-free pair the failure streak is exactly the number of failed lookups since its last success, whatever other callers do. |
| TierCache.CachedExactlyWithinTtl | providers/cache.go:131-153 | Over every history of calls: a call for a bar-free pair is answered without a lookup exactly when the last lookup of the pair that succeeded, since it was invalidated, lies less than the ttl back, and then with that tier; a lookup that succeeds is answered with its own tier. |
| TierCache.HeldUpToMaxAge | providers/cache.go:155-201 | A failing lookup is answered with the last tier that was looked up for the pair as long as it is no older than the maximum age, that age included, and for ever without one. |
| TierCache.ServedIsRecent | providers/cache.go:155-241 | The answer to a failing lookup is the default the provider gave, or a tier a lookup for this organisation returned no longer ago than the maximum age; an error only when neither is there. |
| TierCache.SuccessSurvivesRestart | providers/cache.go:183-209 | A success written through to the durable store is what every bar-free user of the org is served after a restart, for as long as lookups fail. |
| TierCache.CachingOff | providers/cache.go:131-148 | With caching off a failure is answered with the default of the provider if there is a usable one, and nothing but the streak is remembered. |
| TierCache.OwnEntryIffBarFree | providers/cache.go:149-149 | A user and org have a cache entry that no other pair has exactly when neither name holds a bar. |
| TierCache.SharedEntryDowngrades | providers/cache.go:149-155 | The pair that shares its entry is served the other pair's tier after its own success. |
| TierCache.Cache.GetTier | providers/cache.go:131-209 | The maps after a call and its answer are those of the model the promises are about. |
| RateWindow.TrimmedListIsExact | counters/rate.go:65-90 | For a clock that does not go back and a fixed window, the compacted list is exactly the part of the whole history inside the window, in order. |
| RateWindow.CountIsExactIff | counters/rate.go:65-90 | For any clock and window the count never exceeds the number of all events recorded in the final window, and equals it exactly when none of them lies below the cutoff of an operation from its own on. |
| RateWindow.BackwardClockMisses | counters/rate.go:65-75 | Every clock that trims late and then goes back within the window makes the count short, at any times and window. |
| RateWindow.Entries.Compact | counters/rate.go:65-75 | Compaction in place, through the same buffer it reads, keeps exactly the entries at or after the cutoff, in order. |
| RateWindow.Entries.CountAt | counters/rate.go:85-90 | The count is the number of all events ever recorded with a timestamp at or after now minus the window. |
| RateWindow.FlipGateRates | counters/keyspace_migration.go:264-285 | When the flip gate opens, a rate window no longer than the configured longest one counts exactly the events that happened in it, under v1 and under v2, because everything recorded before dual-write has aged out. |
| RateWindow.WithoutTheWait | counters/keyspace_migration.go:264-285 | The wait is needed: an event recorded before dual-write is counted alike under both shapes exactly when it has aged out. |

## Left out

- Float rounding, NaN and infinity, and number formatting in Lua: levels are exact reals; the boundary check refuses negative deltas here, and non-finite numbers do not exist.
- The Redis key namespace: a level and a latch never share a key (the builders keep them apart), so they are two maps.
- RedisStore of the outbox: its PutIntent is two writes; the crash claims are for the atomic PutIntent of the DynamoDB store.
- The DynamoDB handler ledger: its guard on the attempt count does not give the lease property under interleaving.
- ActivationProtocol.LevelIsAccountedFor: requests that name a resource twice do not run there, limits are fixed, a reconcile pass is a step only when no call is in flight on its gauge, and provider repairs are not steps of that system.
- Migration.MigrationEndToEnd: buckets without their ttl stay outside the universe, as `Migration.BucketComesBackIff` says they must; an acquire that mixes counters of the universe with others is not a step.
- Activations.SettleMissesExactlyAcrossARelease: says nothing of a call whose row's retention ended before its last access.
- Activations.RowMovesForwardOnce: the open-set index of the Redis store, which is updated after the row, is not modelled.
- Reconcile.PassRestoresTruth: for a pass with no operation in flight on the org; each gauge is set in both shapes as one step.
- EngineAcquire.Engine.Acquire: the values map, touch tracking and idempotency-key lint are not modelled; whether the provider's counts are right is not judged.
- TierCache.NeverDowngrades: calls do not overlap; with a maximum age the promise is `TierCache.HeldUpToMaxAge`, with caching off `TierCache.CachingOff`.
- Outbox.LandedIsNeverVoided: billing's final refusal is a fixed property of the request, and what an event says is fixed per key; the same holds for the other outbox results.
- HandlerLedger.ClosedStays: deletion of a user's rows and expiry of rows after 72 hours are not steps.
- Per-user limit fractions and period labels: a tier's limits and a bucket's label and ttl are inputs.
- Spend, Release and Check of the older engine surface: their store operations are covered by the refinement, their decision text is not.
- HTTP, SNS, Redis and DynamoDB clients, table provisioning, JSON, configuration parsing, alerts, middleware and the command-line tool: no protocol of their own.
