# Storefront: verified protocols

A Dafny model of the storefront service: the cache-aside reads of products, the transactional store with
idempotent order creation, the outbox and its relays, the relay's waiting, and the keyset pages.

Each protocol is a step machine: a state, labels for the single effects that can interleave (one SQL statement,
one cache command, one publish, one tick of the clock), an inductive invariant, and theorems about every run.
The loops and the statement sequences of the code are methods, proved against the same functions that the step
machines use.

| file | what it holds |
|---|---|
| `Domain.dfy`, `Sums.dfy` | domain values; sums over the rows of a table |
| `Cache.dfy` | cache values, TTL, NX / IFEQ guard, class `Valkey` |
| `CacheProtocol.dfy` | readers, flights, writers, lost invalidations and expiry of one product id, interleaved |
| `Service.dfy` | the service's calls one at a time: store first, then cache |
| `Store.dfy`, `Postgres.dfy` | tables and statements; each call run alone (`Atomic`); class `Postgres` |
| `Transactions.dfy` | the calls as concurrent transactions with pending writes and row locks |
| `CallEffects.dfy`, `CallsComplete.dfy` | tables, orders and event log read off the committed requests; unobstructed calls run to commit |
| `OrderGuarantees.dfy` | what that gives: serial equivalence, exactly-once, replay, event log, lock order |
| `StalledClaim.dfy` | exactly-once counted from a transaction's start: when it holds, and a run in which it does not |
| `OutboxDrain.dfy` | one drain: claim, publish, classify, settle; row by row and in bulk |
| `OutboxProtocol.dfy`, `DrainProgress.dfy` | any number of relays over one outbox; why re-draining ends |
| `Storefront.dfy` | store and relays over one database |
| `Relay.dfy` | the drain loop's actions and its backoff |
| `Wakeup.dfy` | one relay's loop over that outbox: LISTEN / NOTIFY, claim, wait |
| `Keyset.dfy`, `OrderPages.dfy` | pages over a table that changes between pages; order pages over a run of the store |

Findings where the code and a natural reading of it part:

- The cache fence holds in all reachable states if and only if `SERVICE_LOAD_TIMEOUT` is shorter than both cache
  TTLs, truncated to milliseconds (`FencedExactlyWhen`). The defaults satisfy this; start-up validation does not
  relate the settings (internal/config/validate.go:108-131).
- A read can return a row older than a write whose invalidation completed before the read began
  (`JoinedReadCanBeBehind`). With settings that keep the fence, it does so if and only if it is answered by a flight
  that, when the read began, had already loaded such a row (`ReadIsBehindExactlyWhen`); joining an older flight that
  had not loaded yet is harmless.
- A key row expires counted from its transaction's `now()`, and a purge deletes it after that. A transaction that
  began before the expiry, and claims after the purge, buys again under a key its twin already used; stalling for a
  single tick is enough (`LaterStartIsNotLate`). Counted from the moment of the claim, exactly-once always holds
  (`ExactlyOncePurchase`). Counted from the transactions' starts, it needs such a purge to fail
  (`StartWithinTTLNeedsPurge`), and it holds of a run if and only if no purge took a row away that had not expired
  when a later purchase under its key began (`StartsSeparatedExactlyWhen`).
- A drain's claim compares due times with its transaction's start, so it can pass over a row committed between
  its start and its claim. That row's notification is buffered all the same: events count as unseen from the
  start of the drain, not from its claim (`ClaimCanPassOver`, `NoLostWakeup`, `NextClaimTakesFreshRow`).
- The wait between two drains is bounded by one poll interval, but by two when the LISTEN connection breaks during
  the wait, since the fallback sleep starts anew (`WaitIsBounded`, `WaitCanTakeTwoIntervals`).
- Doubling a poll interval of more than half the `int64` range wraps to a negative pause
  (`BackoffExactlyWhen`).

Assumed of the outside: row locks are held to the end of the transaction, `ON CONFLICT DO UPDATE` locks the
conflicting row even when its `WHERE` is false, a blocked statement sees the newly committed row, and `now()` is
the transaction's start; a cache entry vanishes only by its TTL, and is gone from exactly its SET plus PX on (the
boundary of `FencedExactlyWhen` turns on it); a fill takes effect before its flight's deadline or not at all;
singleflight runs one call per key at a time; a notification arrives with the writer's commit; generated UUIDs and
tombstone texts are new; SHA-256 of a request is injective; timers fire on time, and acquiring the LISTEN
connection takes no time. Time, publish outcomes, cache and database failures, and the order of all steps are
arbitrary inputs.

## Model

| member | source | states |
|---|---|---|
| Cache.Px | internal/cache/cache.go:101-108 | PX sees a duration truncated to whole milliseconds |
| Cache.Valkey.Get | internal/cache/cache.go:65-74 | the classified visible value; an expired one reads as no key |
| Cache.Valkey.Set | internal/cache/cache.go:53-59 | a product is stored for the TTL only if the guard read before still holds; no other key changes |
| Cache.Valkey.SetMissing | internal/cache/cache.go:61-63 | likewise for an absence, under the negative TTL |
| Cache.Valkey.Invalidate | internal/cache/cache.go:76-85 | whatever was cached is replaced by a tombstone for the TTL; no other key changes |
| Cache.Valkey.Guarded | internal/cache/cache.go:91-108 | NX when the key was missing, IFEQ on the token otherwise; a refused set leaves the cell |
| Cache.AcceptedExactlyBehindMiss | internal/cache/cache.go:91-122 | a fill behind a miss that still stands is accepted; a hit is never overwritten |
| Cache.SetThenGet | internal/cache/cache.go:53-74 | an accepted product or absence is read back until its TTL is over, and then the key is gone |
| Cache.TombstoneFences | internal/cache/cache.go:76-108 | a tombstone is never served, and only a fill that read that very tombstone replaces it |
| CacheProtocol.StepKeepsInv | internal/service/service.go:81-170 | every step keeps what is known of history, cell, calls and flights, for all settings |
| CacheProtocol.AcceptedFillIsFresh | internal/service/service.go:144-159 | a fill the cache accepts carries a value that no completed invalidation has passed |
| CacheProtocol.StepKeepsFlightFence | internal/cache/cache.go:76-108 | a flight that loaded a fenced-off value stays unable to fill until its deadline, through writes, fills and expiry |
| CacheProtocol.StepKeepsReaderFence | internal/service/service.go:68-103 | a hit's result is a row the database held, at least as new as the reader's fence; a flight's result is older than the fence exactly when the flight held such a row as the read began |
| CacheProtocol.StepKeepsFence | internal/cache/cache.go:76-108 | the fencing invariant is kept by every step |
| CacheProtocol.ReachableInv | internal/service/service.go:62-170 | both invariants hold in every state of every run |
| CacheProtocol.CacheIsFenced | README.md:19-21 | in every run, what is served is at least as new as every write whose invalidation completed; with none pending or lost it is the database row |
| CacheProtocol.FencedExactlyWhen | internal/config/validate.go:108-131 | fencing holds in all runs if and only if the load timeout is below both truncated TTLs |
| CacheProtocol.ShortTTLBreaksFence | internal/cache/cache.go:76-85 | for any TTL within the load timeout, a run in which the tombstone expires and the old row is restored |
| CacheProtocol.ShortNegTTLBreaksFence | internal/cache/cache.go:61-63 | for any negative TTL within the load timeout, a run in which the cached absence expires and the deleted row is restored |
| CacheProtocol.StalenessIsBounded | internal/service/service.go:81-103 | even with every invalidation lost, a product served was in the database less than load timeout plus TTL ago, and an absence less than load timeout plus negative TTL |
| CacheProtocol.StalenessBoundIsTight | internal/service/service.go:161-170 | a run in which a lost invalidation leaves the old row served to the last moment of that bound |
| CacheProtocol.OnlyJoinedReadsAreBehind | internal/service/service.go:68-103 | every read, hit or loaded, returns a row the database held; one that is behind its fence did not lead its flight, which began before the invalidation completed and was the stale one |
| CacheProtocol.LoadedIsReturned | internal/service/service.go:81-103 | what a flight has loaded is what it returns, over any stretch of a run |
| CacheProtocol.ReadIsBehindExactlyWhen | internal/service/callgroup.go:16-28 | a read returns a row older than a write invalidated before it began if and only if its flight had already loaded such a row in the state in which the read began; a hit never does |
| CacheProtocol.JoinedReadCanBeBehind | internal/service/callgroup.go:16-28 | a run in which a joining read does so |
| CacheProtocol.ReadServesCache | internal/service/service.go:68-78 | a read answers at once exactly when the cache serves something, and with just that; a failing Get is a miss |
| CacheProtocol.OneFlightPerInstance | internal/service/callgroup.go:18-28 | as singleflight is assumed to work: an instance never has two unfinished flights of one key |
| ServiceCalls.OthersStillAgree | internal/service/service.go:161-170 | touching one key keeps the cache's answers for all others right |
| ServiceCalls.Service.Create | internal/service/service.go:62-66 | the store's save; a coherent cache stays coherent without an invalidation when the new id is not cached |
| ServiceCalls.Service.Fill | internal/service/service.go:144-159 | product or absence is stored under the guard and its own TTL; any other load error, and a failing SET, stores nothing |
| ServiceCalls.Service.LoadProduct | internal/service/service.go:81-103 | a hit, else the row, else the load's error is returned; the cache is filled only behind a clean read and a conclusive load, and serves what was returned if the SET succeeds |
| ServiceCalls.FlightIsLoadProduct | internal/service/service.go:81-103 | a flight of the cache protocol that nobody interrupts leaves the cell and returns the result that LoadProduct does, with the same TTLs |
| ServiceCalls.Service.FindByID | internal/service/service.go:68-78 | from a coherent cache the database row or the load's error is returned and the cache stays coherent, whichever cache reads, loads and SETs fail |
| ServiceCalls.Service.Invalidate | internal/service/service.go:161-170 | a tombstone, or an untouched cache when the command fails |
| ServiceCalls.Service.Update | internal/service/service.go:110-117 | the store's update; coherence is kept; a failed update leaves the cache |
| ServiceCalls.Service.Delete | internal/service/service.go:119-125 | the store's delete; coherence is kept; a failed delete leaves the cache |
| ServiceCalls.Service.CreateOrder | internal/service/service.go:127-142 | the store's order; a replay or failure changes neither store nor cache; otherwise coherence is kept |
| PostgresStore.Postgres.Save | internal/store/product_store.go:14-30 | row at version 1 and created event together, or nothing on a constraint violation |
| PostgresStore.Postgres.Update | internal/store/product_store.go:81-102 | name, price and version change with the updated event, or nothing |
| PostgresStore.Postgres.Delete | internal/store/product_store.go:104-120 | row removed with a deleted event at the next version, refused while orders reference it |
| PostgresStore.Postgres.ClaimKey | internal/store/queries.go:85-92 | the upsert affects a row exactly when the key is absent or expired before the transaction began |
| PostgresStore.Postgres.PurchaseTx | internal/store/product_store.go:130-166 | decrement, order at the price paid, and event, or the error that rolls back |
| PostgresStore.Postgres.Replay | internal/store/idempotency_store.go:52-78 | the stored order on an equal fingerprint, a mismatch otherwise |
| PostgresStore.Postgres.CreateOrder | internal/store/idempotency_store.go:23-50 | claim, purchase and link amount to one atomic order or replay; on any error the tables are as before |
| PostgresStore.Postgres.PurgeIdempotencyKeys | internal/store/idempotency_store.go:14-21 | exactly the expired rows go, and their number is returned |
| Store.HistoryAppend | internal/event/event.go:41-58 | an event with the next version and the folded stock continues a gapless history |
| Store.SoldAppend | internal/store/queries.go:65-68 | a new order adds its quantity to its own product's sold units and to no other's |
| Store.AtomicKeepsProduct | internal/store/product_store.go:14-153 | every call keeps row, events and orders of every product in agreement |
| Store.AtomicKeepsOrders | internal/store/idempotency_store.go:80-86 | every call keeps orders unchanged and referencing live products, and key rows replayable |
| Store.AtomicKeepsDbInv | internal/store/product_store.go:14-153 | every call keeps the whole table invariant |
| CallEffects.SaveAlone | internal/store/product_store.go:14-30 | a product is saved exactly when its id is new, its name has at most 100 characters, its price is positive and its stock an int32; as given, at version 1, with its created event |
| CallEffects.UpdateAlone | internal/store/queries.go:26-30 | exactly on an existing product with a valid name and price, the row gets that name and price, the next version and keeps its stock; with its updated event |
| CallEffects.DeleteAlone | internal/store/product_store.go:104-120 | not found, in use by an order, or removed with a deleted event at the next version |
| CallEffects.PurchaseAlone | internal/store/product_store.go:130-166 | under an open key: not found, stock below the quantity, or the decrement, the order at the row's price, the linked key and the event |
| CallEffects.ReplayAlone | internal/store/idempotency_store.go:52-78 | under a valid key nothing changes: the linked order on an equal product and quantity, a mismatch otherwise |
| CallEffects.PurgeAlone | internal/store/queries.go:102-104 | exactly the chosen rows that expired before the purge began go |
| CallEffects.ProductAsDescribed | internal/store/product_store.go:81-102 | in every run a product's name and price are those of the newest committed save or update of it |
| CallEffects.OrderAsRequested | internal/store/product_store.go:130-166 | in every run a purchase's order has the requested ids and quantity, its transaction's start, and the price set by the newest save or update before it |
| CallEffects.OrderHasPurchase | internal/store/queries.go:65-68 | no order is in the table that a committed purchase did not place |
| CallEffects.LogTellsOfChanges | internal/event/event.go:41-58 | in every run the log holds one event per committed change, in commit order, with its event id, kind, product and quantity |
| Transactions.CommitFrame | internal/store/postgres.go:45-59 | a commit changes only rows whose locks its transaction holds, and no order |
| Transactions.CommitKeepsOtherTx | internal/store/postgres.go:45-59 | what an open transaction read and wrote stays in agreement with the tables when another commits |
| Transactions.CommitIsAtomic | internal/store/idempotency_store.go:23-50 | at commit, the pending writes and the result are those of the call run alone on the committed tables |
| Transactions.StepKeepsLocks | internal/store/queries.go:26-39 | no key row and no product row is locked by two transactions |
| Transactions.StepKeepsClaimedLate | internal/store/queries.go:85-92 | a claim takes effect only after every earlier purchase under the key has expired |
| Transactions.CommitKeepsCovered | internal/store/queries.go:85-104 | a purchase's key row has expired or is still stored, through reclaims and purges |
| Transactions.CommitKeepsExactlyOnce | internal/store/idempotency_store.go:23-50 | a commit keeps exactly-once |
| Transactions.ReachableInv | internal/store/idempotency_store.go:14-86 | the invariant holds in every state of every run of concurrent calls, rollbacks and purges |
| OrderGuarantees.SerialEquivalence | internal/store/postgres.go:45-59 | in every run the tables and all results are those of the committed calls run alone in commit order |
| OrderGuarantees.ExactlyOncePurchase | internal/store/idempotency_store.go:23-50 | of two purchases under one key, the later was claimed strictly after the earlier row's expiry |
| CallsComplete.PurchaseCompletes | internal/store/idempotency_store.go:23-50 | an order that meets no lock, an absent or expired key and a stock of at least its quantity can run to a committed purchase, whatever else is open |
| CallsComplete.CallCompletes | internal/store/postgres.go:45-59 | any call that meets no lock and would succeed alone can run to commit with that result |
| CallsComplete.PurgeCompletes | internal/store/idempotency_store.go:14-21 | a purge can delete any expired rows that nobody holds |
| StalledClaim.LaterStartIsNotLate | internal/store/queries.go:85-104 | for any TTL, a run with two purchases under one key where the later transaction began no later than the earlier row's expiry and claimed one tick after it began |
| StalledClaim.KeptUntilPurged | internal/store/queries.go:85-104 | until a purge deletes it, a key's row expires no earlier than any purchase made under the key |
| StalledClaim.StartWithinTTLNeedsPurge | internal/store/idempotency_store.go:14-50 | two purchases under one key that began within the TTL have a purge of the key between them, begun after the earlier row's expiry |
| StalledClaim.StartsSeparatedExactlyWhen | internal/store/idempotency_store.go:14-50 | in a run, purchases under one key begin more than a TTL apart if and only if no purge deleted a row that had not expired when a later purchase under its key began |
| OrderGuarantees.CallOnKeyRow | internal/store/queries.go:85-104 | a key row is stored by a purchase under it and by nothing else |
| OrderGuarantees.KeyRowHasPurchase | internal/store/idempotency_store.go:80-86 | every stored key row belongs to the newest purchase under it |
| OrderGuarantees.RepeatReplaysFirstOrder | internal/store/idempotency_store.go:52-78 | an open repeat under an unexpired key can replay that purchase's order if and only if the payload is equal, and cannot commit otherwise |
| OrderGuarantees.ReplayReturnsPurchase | internal/store/idempotency_store.go:23-78 | every committed replay returned exactly the order of the newest purchase under its key, of equal payload and unexpired when the repeat began |
| OrderGuarantees.FailureCannotCommit | internal/store/postgres.go:45-59 | in every interleaving, a transaction whose call would fail alone on the committed tables cannot commit, however far it has come; its rollback leaves tables and results as they are |
| OrderGuarantees.OnlySuccessesCommit | internal/store/postgres.go:45-59 | no committed call returned a failure |
| OrderGuarantees.CallsTouchOneRow | internal/store/queries.go:26-39 | only the target row is written; updates keep stock, purchases keep name and price, orders keep the price paid |
| OrderGuarantees.LogAgreesWithTables | internal/store/product_store.go:14-153 | in every run: versions 1..n without gaps, the row equal to the folded events, stock never negative, created stock equal to stock plus units sold |
| OrderGuarantees.LogDeterminesProduct | internal/event/event.go:22-58 | equal events of a product mean equal existence, version, stock and units sold, across any two runs |
| OrderGuarantees.BlockedExactlyWhen | internal/store/queries.go:26-39 | a claim, and a row statement that the tables allow, can go ahead exactly when the transaction waits for nobody |
| OrderGuarantees.WaitRaisesRank | internal/store/idempotency_store.go:28-45 | a transaction waits only for one further along the lock order, purges aside |
| OrderGuarantees.NoDeadlock | internal/store/idempotency_store.go:28-45 | in every run a circle of lock waits consists of purges only |
| OutboxDrain.RetryDelays | internal/store/queries.go:57-61 | a rejected row is due 1, 2, 4, 8, 16 and from then on 30 seconds after the drain began |
| OutboxDrain.PublishBatch | internal/store/outbox.go:109-125 | sent and failed rows, in order, of the attempts up to the first transient failure |
| OutboxDrain.ClassifyFailures | internal/store/outbox.go:127-145 | rejections are bumped or, at the last attempt, buried; a transient error is returned and counts for neither |
| OutboxDrain.AttemptsInOrder | internal/store/outbox.go:109-125 | publishing stops at the first transient failure and nowhere else |
| OutboxDrain.BatchSplit | internal/store/outbox.go:109-145 | sent, bumped, dead, transient and unattempted rows are the batch, each row once |
| OutboxDrain.ListedAt | internal/store/outbox.go:127-145 | an attempted row is on exactly the list its own outcome asks for |
| OutboxDrain.ListsKeepOrder | internal/store/outbox.go:109-145 | each list keeps the batch's order |
| OutboxDrain.SettleAt | internal/store/outbox.go:50-61 | what becomes of a row depends on its own outcome alone |
| OutboxDrain.BulkSettles | internal/store/outbox.go:147-184 | the bulk delete, bump and dead-letter equal settling row by row |
| OutboxDrain.OutboxTables.DeadLetter | internal/store/outbox.go:169-184 | every poison row is buried with its error and one more attempt, and leaves the outbox |
| OutboxDrain.OutboxTables.ClaimOutbox | internal/store/outbox.go:84-107 | for the locks of one moment: the due rows that nobody else holds, smallest ids first, up to the limit; none is left out unless the batch is full of smaller ids |
| OutboxDrain.OutboxTables.DrainBatch | internal/store/outbox.go:29-66 | a claimed batch is settled row by row, or nothing changes when the begin, the claim, a later statement or the commit fails; count, full flag and error are returned |
| OutboxProtocol.CommitAttempted | internal/store/outbox.go:50-65 | a commit does to an attempted row what its own outcome asks for |
| OutboxProtocol.CommitKeepsDrains | internal/store/queries.go:47-53 | a commit leaves rows that other drains hold alone |
| OutboxProtocol.StepKeepsInv | internal/store/outbox.go:29-107 | every step of any relay or writer keeps the invariant; a claim locks row by row, while other drains end |
| OutboxProtocol.ReachableInv | internal/store/outbox.go:29-107 | it holds in every state of every run |
| OutboxProtocol.Conservation | internal/store/outbox.go:29-66 | in every run each committed event is in exactly one of outbox, dead letters or gone, unchanged, under one id, with its creation time, and due from then on until a first rejection; gone implies published |
| OutboxProtocol.AttemptsAccounting | internal/store/outbox.go:127-184 | attempts equal committed rejections; live rows stay below the maximum, dead rows are exactly at it |
| OutboxProtocol.DeadLettersTellWhy | internal/store/outbox.go:169-184 | in every run a dead letter holds its event, the time it was written, the maximum of attempts, and the error of its last committed rejection |
| OutboxProtocol.PublishedOncePlusRollbacks | internal/store/outbox.go:29-66 | a row is published as often as drains rolled back after publishing it, plus one exactly when it is gone or in flight |
| OutboxProtocol.ClaimExclusion | internal/store/queries.go:47-53 | no row is held by two open drains |
| OutboxProtocol.BatchInOrder | internal/store/queries.go:47-53 | in every run an open drain holds its rows in the order of their ids |
| OutboxProtocol.RollbackFreesRows | internal/store/outbox.go:36-42 | a drain can end at any point, leaving the tables alone and its rows unlocked |
| OutboxProtocol.TransientCostsNothing | internal/store/outbox.go:127-145 | a transient failure changes neither attempts nor due time |
| OutboxProtocol.ClaimRowByRow | internal/store/queries.go:47-53 | the batch that the query selects for the locks of one moment is one that row by row locking reaches |
| OutboxProtocol.DrainRunsAlone | internal/store/outbox.go:29-66 | a drain of the protocol that nobody interrupts settles the batch as DrainBatch does |
| DrainProgress.SpentIsSettled | internal/store/outbox.go:50-61 | the rows that spend an attempt are those sent, bumped and buried |
| DrainProgress.SettleSpends | internal/store/outbox.go:44-65 | a settlement lowers the attempts left by at least the rows sent, bumped and buried |
| DrainProgress.FullDrainsAgain | internal/outbox/relay.go:71-90 | the commits counted as full drains are exactly those after which Run drains again at once |
| DrainProgress.RedrainLoopEnds | internal/outbox/relay.go:58-91 | without new events, the full drains of all relays times the batch size are at most the attempts left |
| Storefront.CommitIsNeverBlocked | internal/store/outbox.go:68-82 | the combined machine loses no run of the store: a commit the store can make alone is enabled, with a new outbox id |
| Storefront.StepKeepsInv | internal/store/outbox.go:68-82 | store and outbox invariants hold together, and the outbox has received exactly the store's events in commit order |
| Storefront.EveryChangeIsAnnounced | internal/store/product_store.go:14-153 | in every run every version a product reached has an event that waits, is buried, or was published; the last one matches the row |
| Relay.Wrap64 | internal/outbox/relay.go:63-77 | the int64 congruent to the exact value |
| Relay.Run | internal/outbox/relay.go:58-91 | after a success: drain again if the claim was full, else wait; after k failures in a row since the last success or the start: pause min(poll·2^k, 30s) |
| Relay.BackoffClosedForm | internal/outbox/relay.go:63-80 | the doubled and capped backoff is that closed form |
| Relay.BackoffExactlyWhen | internal/outbox/relay.go:63-80 | it is so for all k if and only if doubling the poll interval does not overflow |
| Wakeup.Listener.Acquire | internal/pg/listener.go:67-84 | a held connection is kept with its buffer; otherwise a new empty one, or an error |
| Wakeup.Listener.Await | internal/pg/listener.go:28-49 | a notification is taken off the buffer, a poll tick leaves the connection, any failure drops it |
| Wakeup.FreshRowIsOld | internal/store/outbox.go:127-184 | no step of any relay makes a row look never attempted again |
| Wakeup.StepKeepsNoticed | internal/store/queries.go:47-53 | a never-attempted row committed before a drain began is due at its claim; after a drain that goes on to wait, only rows that other relays held when the claim reached them are left |
| Wakeup.ReachableInv | internal/outbox/relay.go:58-101 | that, and one buffered notification per event committed since the drain began while the connection is held, in every run among other relays and writers |
| Wakeup.RestsAsRunDoes | internal/outbox/relay.go:71-90 | the relay goes on to wait after exactly those drains after which Run waits |
| Wakeup.WaitEndsAsAwaitDoes | internal/pg/listener.go:28-49 | a wait of the protocol leaves of the connection what Await leaves of it |
| Wakeup.NoLostWakeup | internal/pg/listener.go:28-84 | with a connection held since before the last drain began, a wait returns at once while an event is unseen, or any never-attempted row is left that no other relay held when the claim reached it |
| Wakeup.NextClaimTakesFreshRow | internal/store/queries.go:47-53 | a completed claim holds every never-attempted row committed before its drain began, unless another relay held it when reached or a full batch of smaller ids came first |
| Wakeup.BeginDrainSeesAll | internal/outbox/relay.go:58-67 | every row in the outbox when a drain begins is one committed before it |
| Wakeup.NextRowIsLockedOrSkipped | internal/store/queries.go:47-53 | a claim never gets stuck: the next due row can be locked or is held by another relay |
| Wakeup.WaitIsBounded | internal/outbox/relay.go:93-118 | as timers are assumed to fire: a wait ends within one poll interval, or two when Await fails on the way, and the next drain can begin |
| Wakeup.ClaimCanPassOver | internal/store/queries.go:47-53 | a run in which a claim may come back empty although a row is live and unlocked, because it was written after the drain's transaction began |
| Wakeup.WaitCanTakeOneInterval | internal/pg/listener.go:28-49 | a run in which an event committed before the first LISTEN is left for one whole interval |
| Wakeup.WaitCanTakeTwoIntervals | internal/outbox/relay.go:93-118 | a run that takes two |
| Keyset.NormalizePageSize | internal/domain/pagination.go:27-33 | a page size within 1..200: unchanged, defaulted to 50 or capped at 200 |
| Keyset.CollectPage | internal/store/product_store.go:65-79 | the first limit rows; more exactly when there was one row beyond them |
| Keyset.CursorExactlyWhenMore | internal/domain/product.go:68-74 | a page has a next cursor exactly when the table holds a key after its last item; the cursor is that item's key, and no row before it is passed over |
| Keyset.ReturnedIncreases | internal/store/queries.go:20-25 | the keys of a walk increase strictly up to its cursor |
| Keyset.PresentIsReturned | internal/store/product_store.go:46-79 | a row present throughout has been returned exactly when the walk has passed it |
| Keyset.WalkIsComplete | internal/domain/product.go:68-74 | with any inserts and deletes between pages, a finished walk returns every row present throughout exactly once and none twice |
| Keyset.FixedTablePages | internal/store/product_store.go:189-198 | on a fixed table of n rows a finished walk has max(1, ceil(n/limit)) pages |
| Keyset.UnendedWalkIsShort | internal/store/product_store.go:189-198 | a walk of a fixed table that has not ended has returned fewer rows than there are |
| Keyset.OrderWalkIsComplete | internal/store/order_store.go:27-61 | a finished walk over orders returns each order the caller had at its start exactly once |
| Keyset.OrderWalkIsPrivate | internal/store/queries.go:73-84 | a walk over orders returns the caller's own only |
| OrderPages.OrdersOnlyGrow | migrations/00003_orders.sql:2-10 | over any stretch of any run, orders are added and never changed or deleted |
| OrderPages.PlacedOrderIsStored | internal/store/product_store.go:130-166 | the order a purchase returned stays in the table as returned |
| OrderPages.PlacedOrderIsListed | internal/store/order_store.go:27-61 | a finished walk over a working store returns every order its user had placed before the first page exactly once |
| OrderPages.ListedOrderIsOwn | internal/store/order_store.go:27-61 | what such a walk returns is the user's own, returned once, and still stored |

## Left out

- HTTP and gRPC transports, authentication, configuration loading, migrations tooling and command wiring: plumbing without a protocol of its own.
- JSON and UUID text encodings, SHA-256, AMQP publishing: foreign code, reduced to round trips, injectivity and a three-way outcome.
- Publish order per product: the design disclaims it; only the order within a batch is stated.
- CacheProtocol follows one product id; keys share no state besides the clock, and `Cache.Valkey` shows that a command leaves other keys alone.
- An invalidation or commit that takes effect although its error was returned: as a lost invalidation that may still arrive.
- The error kind of a failed purchase under concurrency: the code asks twice, so it reflects no single snapshot; run alone it is exact.
- Deadlocks among several concurrent purges: one DELETE locks rows in no stated order.
- Overflow of the BIGINT version column, and of POWER(2, attempts) at 1024 attempts: versions and attempts are unbounded here.
- The length of the back-off pause in `Wakeup`: a failed drain is followed by the next one after any time; `Relay` has the length.
- Acquiring the LISTEN connection takes no time here; the code puts no timeout on it.
- FindOrder, the janitor's timer loop and the health probes: single statements or trivial loops.
