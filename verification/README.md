# Bookit: proved models of the seat-booking protocols

Bookit sells seats. What can go wrong lies between its services: a gateway actor per show that is
entered and evicted without locks, seat locks spread over Redis nodes, a search index fed through an
outbox, payments fed through another, and a handful of exact algorithms that all of these rest on.
This project models those parts and proves what they keep in every run.

Each `.dfy` file holds one module.

| module | subject |
|---|---|
| `ActorLease` | lease counter and closing flag of a show actor: any number of request threads and evictors, one atomic access a step |
| `SeatRegistry` | concurrent `register_seat` calls on the two-way seat registry |
| `SeatGates` | the admission gates of an actor under interleaved `lock` requests and outside clearing |
| `ShowActor` | a show actor run by one request at a time: registration, admission gates, the `lock` request |
| `SeatLockStore` | one logical lock store: lock keys, context keys, sorted sets, cells, TTLs |
| `SeatLockCluster` | the same over several nodes, with the library's methods and the layout updater's pass |
| `Crc16`, `Keys` | the routing checksum and the key printers that make the two above faithful |
| `SeatBitmap` | the two-bit bitmap, its writer and both decoders |
| `ScheduleSeats` | seat numbering and lifecycle of schedules, up to the gateway's registrations |
| `SearchSync` | change stream, search outbox, checkpoint, drain, index; crashes anywhere |
| `OutboxWorkers` | claims, retries and dead-lettering by any number of outbox workers |
| `Payments` | payment requests, orders, cancellations and seat rows over that outbox, with redeliveries |
| `CheckoutReservation` | the reservation loops of concurrent payment requests |
| `SlidingWindow`, `FixedWindow`, `CircuitBreaker` | the three guards, against their histories |
| `Wrappers` | optional values, results, the elements of a list |

A protocol is a total `Step` function over a state; an event that is not enabled changes nothing,
so a statement over all event sequences covers all interleavings. Code that updates state in place
is a `class` whose methods are proved equal to those steps, and what the steps of one caller come to
when nothing interrupts them is stated by the lemmas whose names end in `Alone`. Every Lua script, transaction and single
command is one step, and interleavings are sequentially consistent.

## What the models found

- **Fixed window.** The limiter's text says 500 requests an hour. It allows 500 in one window, but 999
  in some hours, and never more (`FixedWindow.HourBound`, `HourBoundIsReached`). The hour before a request
  holds exactly the counter's passes and what earlier windows let through in it; all hours of a run keep
  to 500 if and only if that sum does at every request (`HourKeptIff`, `HoursKeptIff`).
- **Circuit breaker.** The text promises one probe in the half-open state. The code lets every request
  through until an outcome is recorded (`CircuitBreaker.HalfOpenAllowsAll`).
- **Context keys.** The library says `user_holds_lock` is true if and only if the user holds the lock. It
  reads the context key, which `acquire_lock` does not write. A yes is true as long as all callers use one
  TTL (`UserHoldsLockSound`; `ContextStepIff` says exactly when a call breaks it). A no is true
  as long as every live lock's owner has a context key that lasts as long as the lock, and that is kept
  in a run if and only if no bare acquisition succeeds for a user without one (`LockContextStepIff`,
  `LocksHaveContextsIff`). With Lua acquisitions alone the promise holds
  (`UserHoldsLockIff`); with bare ones alone, the path the services take, the answer is always no
  (`BareRunsHaveNoContexts`).
- **Gates.** Unlock and booking messages and the expiry worker clear gates whoever holds them. A gate
  belongs to one request in flight if and only if none is cleared from outside while held
  (`SeatGates.ExclusiveInRunsIff`, `ClearedGateIsShared`).
- **Closing mark.** An evictor that finds the actor busy stores `false` over the closing flag and can
  erase the mark of a closed schedule. `ActorLease.CloseIsFinalIff` gives the exact condition.
- **Gateway expiry worker.** It drops queue entries whose seat someone else owns, and can thereby leave a
  cell that reads locked with no entry to clean it (`DroppedEntryIff`, `OrphanedCell`).
- **Metadata.** `update_seat_metadata_lua` writes the seat's own node only, so nodes differ after it
  unless there is one node or nothing was news (`MetadataStepIff`).
- **Search stream.** Updates carry the document as looked up later, which does no harm
  (`QuietIndexIsProjection`), unless the show is gone, or neither searchable nor soft-deleted, when the
  worker reads the change: then it does not get past the change as long as that lasts (`RecordsIff`,
  `StuckAtUnmaterialised`, `DeletedUpdateSticks`). Without a stored checkpoint a run loses a change if and
  only if the worker is at some moment down with a change unrecorded and no checkpoint written
  (`StartSkipsIff`, `LosesIff`); otherwise all the theorems hold from there too.
- **Schedule creation.** The schedule row and its seats are two statements. `LateCopyIff` says when extra
  seats added in between leave holes in the numbering.
- **Refunds.** `commit_cancellation` frees seat rows unconditionally: a redelivered cancellation frees a
  seat that has been sold again (`RedeliveredRefundFreesSeat`). Booked seats are always exactly the
  claimed ones in a run if and only if no refund is booked for an order that shares a seat with another
  live one (`SeatsExactInRunsIff`), and no seat is sold twice if and only if no checkout is booked for a
  request that shares a seat with a live order (`SoldOnceInRunsIff`).
- **Reservations.** Two requests that share user and idempotency key share an owner text, and one can
  delete a key on which the other has passed (`SameOwnerLosesKey`). Passed requests own their seats in a
  run if and only if that never happens (`PastOwnedInRunsIff`), and it takes a shared owner
  (`HarmNeedsSharedOwner`).
- **Sliding window.** An admission that draws a member the sorted set still holds is not counted. The
  limiter decides like a log that forgets nothing if and only if there is no such admission
  (`CountsExactlyIff`), and spaced members suffice (`SpacedMembersCounted`).
- **Orders.** The unique index on `orders.payment_request_id`
  (`packages/db/migrations/20260831180000_harden_payment_outbox/up.sql`) makes "at most one order per
  request" hold for any number of handlers and even when `order_exists` cannot read the database.

## Assumptions

One clock in seconds serves lock TTLs and sorted-set scores; TTLs are positive. Seat ids are
non-negative where a bitmap cell is addressed by them. `FixedWindow` counts fewer than 2^32 requests,
`CircuitBreaker` a failure counter below 2^32. Clocks do not run backwards in the limiters, the breaker
and the lock store. Calls of the breaker are atomic although each issues several commands; what a late
HALF_OPEN write does is `LateHalfOpenIff`. `ClusterRefines` starts from nodes that are equal, here empty.

## Model

| member | source | states |
|---|---|---|
| ActorLease.InFlightCountsHolders | apps/gateway-keeper/src/state_active.rs:51-98 | in every interleaving `in_flight` is the number of threads between increment and decrement |
| ActorLease.EvictionIsSafe | apps/gateway-keeper/src/state_active.rs:85-116 | once an eviction has returned true no thread holds a lease, and none is ever granted again |
| ActorLease.OneEvictionOnly | apps/gateway-keeper/src/state_active.rs:100-116 | at most one evictor of an actor returns true |
| ActorLease.GrantedIff | apps/gateway-keeper/src/state_active.rs:85-98 | a step hands out a lease if and only if it is a counted request's second look and the flag is open |
| ActorLease.BeginRequestAlone | apps/gateway-keeper/src/state_active.rs:85-98 | an undisturbed request on an open actor ends with its lease, one more in the count and a fresh time stamp; on a closing one it leaves no trace |
| ActorLease.RefusedRequestUncounts | apps/gateway-keeper/src/state_active.rs:90-93 | a request that meets the flag between its looks takes its count back |
| ActorLease.DroppedLeaseReturns | apps/gateway-keeper/src/state_active.rs:51-56 | a dropped lease stamps the actor and gives its count back |
| ActorLease.EvictionAlone | apps/gateway-keeper/src/state_active.rs:100-116 | an undisturbed eviction succeeds if and only if the actor is open, idle for two hours and without requests, and otherwise leaves everything as it was |
| ActorLease.MarkedActorRefuses | apps/gateway-keeper/src/state_active.rs:743-751 | after the mark a request is turned away |
| ActorLease.CloseIsFinalIff | apps/gateway-keeper/src/state_active.rs:743-751 | marking a schedule closed ends leases for good if and only if no evictor can still store false over the mark |
| SeatRegistry.SlotsWriteOnce | apps/gateway-keeper/src/state_active.rs:152-158 | a slot keeps the first seat written into it, in any continuation |
| SeatRegistry.RegistryAgrees | apps/gateway-keeper/src/state_active.rs:126-164 | under every interleaving a filled slot is mapped back, and a pending call has its map entry unless another seat holds the slot |
| SeatRegistry.QuietRegistryInverse | apps/gateway-keeper/src/state_active.rs:126-164 | with no call under way, map and slots are exact inverses |
| SeatRegistry.ResultsStay | apps/gateway-keeper/src/state_active.rs:126-164 | a returned registration remains true of the registry for ever |
| SeatRegistry.RegisteredAsAsked | apps/gateway-keeper/src/state_active.rs:126-164 | under every interleaving a call that registers does so for the seat and the index it was entered with |
| SeatRegistry.CallAlone | apps/gateway-keeper/src/state_active.rs:126-164 | a call run alone registers if and only if its arguments are valid, the seat has no other index and the slot no other seat |
| SeatRegistry.RegisteredBijective | apps/gateway-keeper/src/state_active.rs:126-164 | successful calls of any two threads agree on the seat exactly when they agree on the slot |
| SeatRegistry.MetadataNeverRefused | apps/ws-server/src/hooks.rs:93-121 | registrations that carry a schedule's metadata succeed under every interleaving |
| SeatGates.ExclusiveStepIff | apps/gateway-keeper/src/state_active.rs:166-185 | a step keeps every gate with at most one request in flight, and taken, if and only if it does not clear from outside a gate that a request in flight holds |
| SeatGates.ExclusiveInRunsIff | apps/gateway-keeper/src/state_active.rs:271-313 | the same over every interleaving of requests, replies and clearings |
| SeatGates.TryWinsIff | apps/gateway-keeper/src/state_active.rs:166-176 | a try wins if and only if the gate stands open, and leaves it taken |
| SeatGates.ReplyAlone | apps/gateway-keeper/src/state_active.rs:287-312 | an undisturbed reply opens exactly the failed seats' gates |
| SeatGates.ClearedGateIsShared | apps/gateway-keeper/src/state_active.rs:753-774 | once a held gate is cleared, the next request to try it shares it |
| ShowActor.Actor.RegisterSeat | apps/gateway-keeper/src/state_active.rs:126-164 | run alone: which error is returned exactly when, what is entered on success, and nothing on refusal |
| ShowActor.Actor.RegisterAll | apps/gateway-keeper/src/state_active.rs:263-270 | accepted exactly if every pair fits the registry and the request repeats a seat exactly when it repeats the index; a refusal comes at the first pair that does not, with the ones before it entered |
| ShowActor.CompatibleOneMore | apps/gateway-keeper/src/state_active.rs:263-270 | fitting the registry left by the earlier seats of a request is fitting the one before it and those seats |
| ShowActor.Actor.TryAdmit | apps/gateway-keeper/src/state_active.rs:166-176 | a gate is won exactly when it stood open, and only that gate moves |
| ShowActor.Actor.ClearSeat | apps/gateway-keeper/src/state_active.rs:178-185 | opens the gate of a known seat and of no other |
| ShowActor.Actor.AdmitAll | apps/gateway-keeper/src/state_active.rs:271-279 | who is admitted, that admitted and failed are the request as multisets, and which gates are taken after |
| ShowActor.Actor.ClearAdmission | apps/gateway-keeper/src/state_active.rs:585-599 | exactly the named seats' gates are opened |
| ShowActor.Actor.Dispatch | apps/gateway-keeper/src/state_active.rs:287-312 | with a full queue, a lost reply or an answer: the reply partitions the seats and only locked seats keep their gates |
| ShowActor.Actor.Lock | apps/gateway-keeper/src/state_active.rs:247-313 | accepted under exact conditions; locked plus failed is the request as a multiset, gates taken after are those before and the locked ones, and a refusal moves no gate |
| ShowActor.AdmissionIs | apps/gateway-keeper/src/state_active.rs:271-279 | a seat is admitted exactly if asked for with its gate open, and once |
| ShowActor.AdmissionPartitions | apps/gateway-keeper/src/state_active.rs:271-279 | admitted and turned-away seats together are the request, with multiplicity |
| ShowActor.AcquiredIs | apps/gateway-keeper/src/state_active.rs:497-530 | the locked seats are exactly those whose acquisition succeeded |
| ShowActor.AcquisitionPartitions | apps/gateway-keeper/src/state_active.rs:497-530 | locked and failed seats together are the batch, with multiplicity |
| SeatLockStore.MutualExclusion | packages/redis-conn/src/single_node_lock.rs:120-167 | over both acquisition paths, between two users' acquisitions of a seat the first one's claim was removed or had lapsed |
| SeatLockStore.HeldForTheTtl | packages/redis-conn/src/single_node_lock.rs:295-306 | a seat that is not released stays its user's for the full TTL |
| SeatLockStore.OwnedUntil | packages/redis-conn/src/single_node_lock.rs:120-167 | after an acquisition the claim owns the key, by the latest of its acquisitions, until it is removed or one lapses |
| SeatLockStore.OthersLeaveLock | packages/redis-conn/src/single_node_lock.rs:434-449 | no call for another claim touches a user's live lock or the context key beside it |
| SeatLockStore.RemovalFrees | packages/redis-conn/src/single_node_lock.rs:434-449 | a release or booking whose claim may take the seat leaves neither lock nor context key, so that anyone may acquire it; any other leaves the keys alone |
| SeatLockStore.LiveLockIff | packages/redis-conn/src/single_node_lock.rs:120-167 | over every run a user's lock is live if and only if the user's latest successful acquisition has neither been removed nor lapsed |
| SeatLockStore.RefusedIff | packages/redis-conn/src/single_node_lock.rs:295-306 | an acquisition is refused if and only if another user's latest acquisition of the seat has neither been removed nor lapsed |
| SeatLockStore.ContextStepIff | packages/redis-conn/src/single_node_lock.rs:143-160 | a call keeps every visible context key backed by a lock at least as long, if and only if it is not a bare extension that ends before the context key |
| SeatLockStore.ContextsBackedInRuns | packages/redis-conn/src/single_node_lock.rs:295-306 | with one TTL, context keys are backed in every run |
| SeatLockStore.UserHoldsLockSound | packages/redis-conn/src/single_node_lock.rs:644-658 | in runs that mix both acquisition paths with one TTL, a yes of `user_holds_lock` is true of the lock key; the next rows are about a no |
| SeatLockStore.LockContextStepIff | packages/redis-conn/src/single_node_lock.rs:143-160 | a call keeps every live lock provided with a context key that lasts as long, if and only if it is not a bare acquisition by a user without one |
| SeatLockStore.LocksHaveContextsIff | packages/redis-conn/src/single_node_lock.rs:143-160 | over any run live locks always have their context keys if and only if no call was such an acquisition |
| SeatLockStore.BareLockHasNoContext | packages/redis-conn/src/keys.rs:103-113 | the least run in which a live lock has no context key |
| SeatLockStore.UserHoldsLockIff | packages/redis-conn/src/single_node_lock.rs:642-658 | with Lua acquisitions alone `user_holds_lock` is true if and only if the user owns the live lock, as promised |
| SeatLockStore.BareRunsHaveNoContexts | packages/redis-conn/src/single_node_lock.rs:120-167 | with bare acquisitions alone there is never a context key, so it is never true |
| SeatLockStore.FirstSeatNotHeld | apps/payment-processor/src/consumer.rs:214-259 | the processor's loop over the seats finds the first one of which the user lacks a key, or none exactly if all are held |
| SeatLockStore.CheckoutLookIs | apps/payment-processor/src/consumer.rs:214-259 | with Lua acquisitions alone that look agrees with the history of acquisitions; with bare ones alone it finds no seat held |
| SeatLockStore.SetsAreHistory | packages/redis-conn/src/single_node_lock.rs:295-341 | a claim is in all three sets if and only if the last call that wrote it locked it, with that call's expiry, and 15 seconds more in the queue |
| SeatLockStore.CellIsHistory | packages/redis-conn/src/single_node_lock.rs:750-781 | a cell reads as the last call that wrote it left it |
| SeatLockStore.QueueOutlastsStepIff | packages/redis-conn/src/single_node_lock.rs:295-341 | a call keeps queue entries due only after their owner's lock has lapsed, if and only if it is no bare extension past the entry and no metadata update that ends before the lock |
| SeatLockStore.DueEntriesLapsedInRuns | apps/lock-server/src/handlers_active.rs:139-145 | with Lua acquisitions alone and one TTL that holds over every run |
| SeatLockStore.DueEntryHasLapsed | apps/lock-server/src/handlers_active.rs:139-145 | and then a due entry's claim has no live lock |
| SeatLockStore.QueuedStep | packages/redis-conn/src/single_node_lock.rs:295-341 | every library call keeps each locked cell in the delayed queue |
| SeatLockStore.QueuedInRuns | packages/redis-conn/src/single_node_lock.rs:188-255 | in every run a cell that reads locked has a queue entry for its seat |
| SeatLockStore.DroppedEntryIff | apps/gateway-keeper/src/state_active.rs:791-798 | dropping one entry keeps that if and only if it is not a locked seat's only entry |
| SeatLockStore.OrphanedCell | apps/gateway-keeper/src/state_active.rs:791-798 | a run of the calls the services make in which the expiry worker drops the only entry of a locked cell |
| SeatLockCluster.RouteIs | packages/redis-conn/src/single_node_lock.rs:108-116 | the node of a seat is the number of the remainder, for the bytes of "schedule:seat", modulo how many nodes there are |
| SeatLockCluster.RouteDefined | packages/redis-conn/src/single_node_lock.rs:108-116 | such bytes, remainder and number always exist |
| SeatLockCluster.WordValueIsNumber | packages/redis-conn/src/single_node_lock.rs:91-104 | a word is turned into the number with its binary digits |
| SeatLockCluster.RoutedNodeDecides | packages/redis-conn/src/single_node_lock.rs:108-116 | the node a seat routes to decides about its lock as the logical store does |
| SeatLockCluster.KeysStep | packages/redis-conn/src/single_node_lock.rs:108-167 | every call keeps each seat's keys exactly on its node and answers like the logical store |
| SeatLockCluster.SharedStep | packages/redis-conn/src/single_node_lock.rs:261-341 | every Lua call keeps sets and bitmap equal on all nodes, and equal to the logical store's |
| SeatLockCluster.ReplicationCovers | packages/redis-conn/src/single_node_lock.rs:386-409 | the replicated writes leave the scripted node and the others alike, also after a refused expired release |
| SeatLockCluster.MetadataStepIff | packages/redis-conn/src/single_node_lock.rs:204-253 | a metadata update keeps nodes alike if and only if there is one node or nothing it writes is news |
| SeatLockCluster.ClusterKeysRefine | packages/redis-conn/src/single_node_lock.rs:120-167 | over all runs of all calls, lock and context keys and all answers are those of one logical store |
| SeatLockCluster.ClusterRefusedIff | packages/redis-conn/src/single_node_lock.rs:120-167 | on the cluster an acquisition is refused if and only if another user's latest acquisition has neither been removed nor lapsed |
| SeatLockCluster.ClusterRemovalFrees | packages/redis-conn/src/single_node_lock.rs:413-496 | after a release or booking that answered yes every user can acquire the seat |
| SeatLockCluster.ClusterRefines | packages/redis-conn/src/single_node_lock.rs:261-623 | over all runs of Lua calls the cluster is one logical store |
| SeatLockCluster.PassResult | apps/lock-server/src/handlers_active.rs:145-173 | what a pass over any due entries leaves: the queue without them, each processed cell by the database's word, other users' live locks untouched |
| SeatLockCluster.PassCleans | apps/lock-server/src/handlers_active.rs:145-173 | when all entries are due one pass empties the queue and leaves no locked cell, whatever the order |
| SeatLockCluster.NodeStep | packages/redis-conn/src/single_node_lock.rs:188-341 | what any call makes of the sets and cells of any node, whatever that node holds |
| SeatLockCluster.NodesQueuedInRuns | packages/redis-conn/src/single_node_lock.rs:188-255 | over every run, metadata updates included, each node's locked cells are queued on that node |
| SeatLockCluster.NodeCleanIff | apps/lock-server/src/handlers_active.rs:145-173 | a pass over all of one node's queue leaves a node without locked cells if and only if its locked cells are of seats queued there |
| SeatLockCluster.PassCleansCluster | apps/lock-server/src/handlers_active.rs:145-173 | after any run of any calls the pass cleans the node it reads, cleans each other node under exactly that condition, and sets every queued seat by the database's word on all nodes |
| SeatLockCluster.SingleNodeLock.AcquireLock | packages/redis-conn/src/single_node_lock.rs:120-167 | acts and answers as the cluster step for a bare acquisition |
| SeatLockCluster.SingleNodeLock.AcquireSeatLockLua | packages/redis-conn/src/single_node_lock.rs:261-341 | script on the seat's node, then the replicated writes: the cluster step |
| SeatLockCluster.SingleNodeLock.UpdateSeatMetadata | packages/redis-conn/src/single_node_lock.rs:188-255 | one node-local step for each seat, in order |
| SeatLockCluster.SingleNodeLock.ReleaseLock | packages/redis-conn/src/single_node_lock.rs:413-496 | acts and answers as the cluster step for a release |
| SeatLockCluster.SingleNodeLock.ReleaseExpiredLockLua | packages/redis-conn/src/single_node_lock.rs:346-409 | clears the cell on every node also when the script refused |
| SeatLockCluster.SingleNodeLock.BookSeatLua | packages/redis-conn/src/single_node_lock.rs:498-565 | acts and answers as the cluster step for a booking |
| SeatLockCluster.SingleNodeLock.ForceBookSeatLua | packages/redis-conn/src/single_node_lock.rs:567-623 | books the cell on every node; the lock is deleted only if the claim may |
| SeatLockCluster.SingleNodeLock.Replicate | packages/redis-conn/src/single_node_lock.rs:701-731 | one sorted-set or bitmap command reaches every node and changes nothing else |
| SeatLockCluster.SingleNodeLock.RunUpdaterPass | apps/lock-server/src/handlers_active.rs:145-173 | the loop over due entries is the run about which the pass theorems speak |
| Crc16.Compute | packages/redis-conn/src/single_node_lock.rs:91-104 | the shifting loops return the remainder of data(x) x^16 by the generator, over GF(2) |
| Crc16.RemainderUnique | packages/redis-conn/src/single_node_lock.rs:91-104 | division by a monic polynomial has one remainder, so the reference definition is one |
| Crc16.GeneratorIs | packages/redis-conn/src/single_node_lock.rs:91-104 | the generator is x^16 + x^12 + x^5 + 1 |
| Crc16.CrcIsRemainder | packages/redis-conn/src/single_node_lock.rs:91-104 | the byte-wise checksum is that remainder, for every byte string |
| Crc16.CrcCharacterised | packages/redis-conn/src/single_node_lock.rs:91-104 | a word is the checksum if and only if it is that remainder |
| Crc16.CrcLinear | packages/redis-conn/src/single_node_lock.rs:91-104 | XOR-linear on byte strings of equal length |
| Crc16.CrcOfFramed | packages/redis-conn/src/single_node_lock.rs:91-104 | data followed by its own checksum, high byte first, gives zero |
| Keys.PrintInjective | packages/redis-conn/src/keys.rs:92-131 | two keys print alike if and only if they are the same key, within and across families |
| Keys.OneHashTag | packages/redis-conn/src/keys.rs:103-113 | context keys, sets and bitmap of a schedule carry one hash tag, the schedule's number |
| Keys.NamesAre | packages/redis-conn/src/keys.rs:92-101 | names of the families, letter by letter |
| Keys.CheckoutOwnerInjective | apps/http-server/src/api/user/payments.rs:169 | the owner text of a reservation determines user and idempotency key |
| Keys.RoomChannelRoundTrip | packages/redis-conn/src/keys.rs:136-138 | the schedule read back from a room's channel name is the one printed |
| SeatBitmap.FieldAfterSet | packages/redis-conn/src/single_node_lock.rs:750-781 | a two-bit write changes its own field and no other, growing the string as needed |
| SeatBitmap.FieldIsLastWritten | apps/ws-server/src/locking.rs:52-74 | every field reads the state last written for its seat; negative ids write nothing |
| SeatBitmap.FieldIsTwoBits | apps/ws-server/src/locking.rs:52-74 | a seat's field is the two bits at offset `seat * 2` of the string, highest bit first |
| SeatBitmap.BitsAreState | packages/redis-conn/src/keys.rs:89-95 | they are 00, 01 or 10 as the seat was last written available, locked or booked |
| SeatBitmap.SnapshotsList | apps/ws-server/src/locking.rs:76-87 | what the snapshot of any bitmap lists, in ascending order |
| SeatBitmap.SnapshotIsLastWritten | apps/ws-server/src/locking.rs:34-87 | after any writes the snapshot lists exactly the seats last written locked or booked, ascending, once each |
| SeatBitmap.DecodersAgree | apps/http-server/src/api/user/schedules_v2.rs:31-43 | both decoders agree on every seat inside the bitmap, and the second answers only there |
| SeatBitmap.SeatNumbersFitIff | apps/ws-server/src/locking.rs:76-87 | the cast to i32 is exact if and only if the bitmap is within Redis's string limit |
| SeatBitmap.SizeBounded | packages/redis-conn/src/single_node_lock.rs:750-781 | i32 seat ids never take the bitmap over that limit |
| ScheduleSeats.CreatedWellNumbered | apps/http-server/src/api/admin/schedules_v2.rs:373-422 | a layout is copied whole, each key once, with indices 1..n |
| ScheduleSeats.ExtrasWellNumbered | apps/http-server/src/api/admin/schedules_v2.rs:464-517 | an accepted request keeps indices 1..n and adds exactly the keys asked for |
| ScheduleSeats.AcceptedIffPriced | apps/http-server/src/api/admin/schedules_v2.rs:483-504 | a request is accepted if and only if every seat that would be new has a valid price, while indices last |
| ScheduleSeats.AlwaysWellNumbered | apps/http-server/src/api/admin/schedules_v2.rs:439-523 | indices are 1..n and (row, number) pairs distinct after any sequence of operations |
| ScheduleSeats.SeatsFrozen | apps/http-server/src/api/admin/schedules_v2.rs:459-463 | once out of `scheduled` a schedule's seats never change and it never returns |
| ScheduleSeats.LifecycleIsHistory | apps/http-server/src/api/admin/schedules_v2.rs:653-763 | a schedule is open or closed as the last start, close or deletion left it; nothing reopens a closed one or moves a deleted one |
| ScheduleSeats.MetadataSound | apps/ws-server/src/hooks.rs:93-107 | the metadata of a well-numbered schedule maps seats one to one onto 1..n |
| ScheduleSeats.OpenScheduleRegisters | apps/ws-server/src/hooks.rs:85-121 | from layout to gateway: requests checked against an open schedule's metadata are never refused, under any interleaving and later changes |
| ScheduleSeats.LateCopyIff | apps/http-server/src/api/admin/schedules_v2.rs:354-422 | with extra seats between the two statements the numbering stays 1..n if and only if no base row survives behind a dropped one |
| ScheduleSeats.LateCopyLeavesGap | apps/http-server/src/api/admin/schedules_v2.rs:354-422 | one extra seat that leaves a hole |
| ScheduleSeats.ScheduleTable.CreateSeats | apps/http-server/src/api/admin/schedules_v2.rs:373-422 | the copying loop with its conflict clause is the step the theorems use |
| ScheduleSeats.ScheduleTable.CollectExtras | apps/http-server/src/api/admin/schedules_v2.rs:464-510 | the loop over the request's seats, with all its errors |
| ScheduleSeats.ScheduleTable.AddExtraSeats | apps/http-server/src/api/admin/schedules_v2.rs:439-523 | accepted under exact conditions, appends the new rows, changes nothing on error |
| ScheduleSeats.ScheduleTable.StartSchedule | apps/http-server/src/api/admin/schedules_v2.rs:653-686 | opens a schedule unless it is deleted or closed |
| ScheduleSeats.ScheduleTable.CloseSchedule | apps/http-server/src/api/admin/schedules_v2.rs:700-728 | closes any schedule that is not deleted |
| SearchSync.OutboxIsTheLog | apps/cdc-worker/src/outbox.rs:69-140 | through any crashes the outbox is the logged changes up to the checkpoint or one further, in order, once each, with rising sequence numbers |
| SearchSync.IndexIsTheFold | apps/search-server/src/stream.rs:21-98 | the index is always the fold of the marked events or of one more |
| SearchSync.FoldSettles | apps/cdc-worker/src/stream.rs:142-190 | the fold of a complete outbox agrees with the source for every show, although updates carry later documents |
| SearchSync.LastChangeSettles | apps/cdc-worker/src/stream.rs:142-190 | the event of a show's last change leaves the index right for it |
| SearchSync.QuietIndexIsProjection | apps/search-server/src/outbox.rs:48-83 | when both processes have caught up the index is exactly the search projection of the source |
| SearchSync.IndexedFields | apps/cdc-worker/src/stream.rs:142-190 | which shows a settled index holds, and every field of each, from the source show |
| SearchSync.RecordsIff | apps/cdc-worker/src/stream.rs:33-134 | the worker gets past a change if and only if it is a delete or its document, for an update the one the show has by then, is there and is searchable or soft-deleted |
| SearchSync.StuckAtUnmaterialised | apps/cdc-worker/src/stream.rs:33-134 | from any reachable state, while an unrecorded change has no such document, whatever it had when it was made, no continuation gets outbox or checkpoint past it |
| SearchSync.DeletedUpdateSticks | apps/cdc-worker/src/stream.rs:142-190 | an update whose show is deleted before it is read stops the worker until the show is put back |
| SearchSync.UntitledInsertSticks | apps/cdc-worker/src/stream.rs:142-190 | an inserted or replaced show without a title is such a change |
| SearchSync.StartSkipsIff | apps/cdc-worker/src/stream.rs:25-53 | a starting worker skips an unrecorded change if and only if there is one and no stored checkpoint |
| SearchSync.LostForever | apps/cdc-worker/src/stream.rs:25-134 | a change left out once is left out in every continuation |
| SearchSync.LosesIff | apps/cdc-worker/src/stream.rs:25-134 | without a stored checkpoint a run loses a change if and only if at some moment the worker is down with no checkpoint written and a change unrecorded |
| SearchSync.NoCheckpointSkips | apps/cdc-worker/src/stream.rs:25-53 | such a run, after which the index misses a show |
| SearchSync.Stores.RecordOutboxEvent | apps/cdc-worker/src/outbox.rs:69-126 | outbox first, checkpoint second: the worker's steps in their order |
| SearchSync.Stores.WatchStream | apps/cdc-worker/src/stream.rs:33-134 | the resume loop keeps the invariant and stops only at the log's end or at a change that does not materialise |
| SearchSync.Stores.DrainOnce | apps/search-server/src/stream.rs:21-64 | one turn claims, applies and marks the next event; a failed application changes nothing |
| SearchSync.Stores.DrainAll | apps/search-server/src/stream.rs:21-64 | while the index answers, the loop ends with every event marked |
| SearchSync.DrainAdvances | apps/search-server/src/outbox.rs:48-83 | a turn takes exactly the first unmarked event |
| OutboxWorkers.RetryDelayShape | apps/outbox-server/src/lib.rs:15-17 | the delay doubles from 2 to 256 seconds and stays; the cap of 300 is never met |
| OutboxWorkers.OutcomesExclusive | apps/outbox-server/src/store.rs:50-96 | no event is both published and dead-lettered, a routable one is never dead-lettered, a published one was accepted |
| OutboxWorkers.OutcomesFinal | apps/outbox-server/src/store.rs:50-96 | publication and dead-lettering are final |
| OutboxWorkers.ClaimableAgain | apps/outbox-server/src/store.rs:26-48 | any other event is eligible five minutes after its last claim and 256 seconds after its last failure |
| OutboxWorkers.ClaimableAfterFailure | apps/outbox-server/src/store.rs:66-96 | an event not in processing is eligible 256 seconds after its last failure |
| OutboxWorkers.ClaimsRowIff | apps/outbox-server/src/store.rs:26-48 | a free worker gets a row if and only if it is unpublished, not dead-lettered, due, not claimed within five minutes, and no older row is as free |
| OutboxWorkers.NoDoubleClaim | apps/outbox-server/src/store.rs:29-36 | over every run, between two claims of one event at most five minutes apart lies a failed attempt |
| OutboxWorkers.NoEarlyRetry | apps/outbox-server/src/store.rs:85-92 | over every run no claim comes before the event's last failure plus that attempt's delay |
| OutboxWorkers.AttemptsAreClaims | apps/outbox-server/src/store.rs:38-40 | a row's attempts are its claims so far |
| OutboxWorkers.RoutesAre | apps/outbox-server/src/routing.rs:7-19 | which events go to which destination, and that no other goes anywhere |
| OutboxWorkers.AttemptPublished | apps/outbox-server/src/lib.rs:30-57 | an acknowledged attempt ends accepted, published and out of reach |
| OutboxWorkers.AttemptFailed | apps/outbox-server/src/lib.rs:30-57 | a failed one is due again after its delay, or dead-lettered if it goes nowhere and was the tenth or later |
| OutboxWorkers.OutboxTable.ClaimNext | apps/outbox-server/src/store.rs:26-48 | takes the oldest eligible row, none exactly if there is none, and is the worker's claim step with its attempt count |
| OutboxWorkers.OutboxTable.MarkRowPublished | apps/outbox-server/src/store.rs:50-64 | is the step by which a worker with a confirmed publication marks its row |
| OutboxWorkers.OutboxTable.MarkRowFailed | apps/outbox-server/src/store.rs:66-96 | is the step by which a worker whose publication failed dead-letters or reschedules its row |
| Payments.RequestStatusRises | apps/outbox-server/src/store.rs:56-60 | status only rises in pending, processing, failed, succeeded, in every run |
| Payments.SucceededIffOneOrder | apps/payment-processor/src/repository.rs:51-115 | a request has succeeded if and only if it has an order, and never has two |
| Payments.EventsMatchRows | apps/payment-processor/src/repository.rs:89-115 | requests and `payment.requested` events, orders and `OrderCompleted` events match one to one |
| Payments.IdempotencyKeyUnique | apps/http-server/src/api/user/payments.rs:220-236 | a user's idempotency key names at most one request |
| Payments.OrderStatusRises | apps/payment-processor/src/repository.rs:125-127 | order status only rises in completed, cancelling, refunded |
| Payments.OneCancellationEvent | apps/http-server/src/api/user/payments.rs:627-643 | exactly one cancellation event once an order has left completed, none before, however requests race |
| Payments.OrdersWereAskedFor | apps/payment-processor/src/consumer.rs:152-274 | no order without an accepted payment message, no refund without an accepted cancellation message |
| Payments.OrdersHadLocks | apps/payment-processor/src/consumer.rs:207-274 | over every run an order exists only for a request whose seat locks a handler has found in place |
| Payments.FailedLackedLocks | apps/payment-processor/src/consumer.rs:262-274 | over every run a request is failed only if a handler has found one of its locks missing |
| Payments.FailingOnlyFails | apps/payment-processor/src/consumer.rs:262-290 | a handler that found a lock missing can only fail the request or stop |
| Payments.CheckoutAlone | apps/payment-processor/src/consumer.rs:190-330 | an uninterrupted checkout: when it does nothing, when the request fails, and when it gets order, seats and event |
| Payments.CancelAlone | apps/http-server/src/api/user/payments.rs:597-643 | an uninterrupted cancel request moves a completed order with its event and touches nothing else |
| Payments.RefundAlone | apps/payment-processor/src/consumer.rs:115-160 | an uninterrupted cancellation message refunds the order, frees its seats and announces it |
| Payments.RequestAlone | apps/http-server/src/api/user/payments.rs:220-236 | a payment request goes in with its event if and only if its key is unused |
| Payments.PublicationMarks | apps/outbox-server/src/store.rs:50-64 | publication marks a pending request as processing and no other |
| Payments.StatusTracksMessage | apps/outbox-server/src/store.rs:50-96 | a request is past pending only if the broker took its message, and always once its event is published |
| Payments.BookedSeatsHaveOrders | apps/payment-processor/src/repository.rs:56-58 | a booked seat is always claimed by an order that was not refunded |
| Payments.SeatsExactStepIff | apps/payment-processor/src/repository.rs:117-130 | booked seats stay exactly the claimed ones, unless a refund is booked for an order that shares a seat with a live one |
| Payments.SeatsExactInRunsIff | apps/payment-processor/src/repository.rs:117-130 | over every run they are so at all times if and only if there is no such refund |
| Payments.SoldOnceStepIff | apps/payment-processor/src/repository.rs:51-58 | a seat comes to be claimed by two live orders if and only if a checkout is booked for a request that shares a seat with one |
| Payments.SoldOnceInRunsIff | apps/payment-processor/src/repository.rs:51-58 | over every run no seat is claimed twice if and only if there is no such checkout |
| Payments.RedeliveredRefundFreesSeat | apps/payment-processor/src/repository.rs:122-124 | a run in which a redelivered cancellation frees a seat sold again |
| Payments.Database.InsertPaymentRequest | apps/http-server/src/api/user/payments.rs:220-237 | request and event together, or neither if the key is used |
| Payments.Database.FindOrder | apps/payment-processor/src/repository.rs:36-49 | answers whether an order for the request exists |
| Payments.Database.BookCheckout | apps/payment-processor/src/repository.rs:51-115 | seats, order, status and event in one transaction, rolled back if the request has an order |
| Payments.Database.MarkRequestFailed | apps/payment-processor/src/consumer.rs:269-274 | fails the request unless it has succeeded |
| Payments.Database.BookCancelRequest | apps/http-server/src/api/user/payments.rs:627-643 | moves a completed order to cancelling with its event, else nothing |
| Payments.Database.BookRefund | apps/payment-processor/src/repository.rs:117-169 | frees the seats, refunds the order and writes its event, or is rolled back if there is no such order |
| CheckoutReservation.PassedAreDisjoint | apps/http-server/src/api/user/payments.rs:169-208 | two requests that passed share no seat, under every interleaving |
| CheckoutReservation.OutcomeOwnership | apps/http-server/src/api/user/payments.rs:169-208 | a passed request owns every seat it asked for, a failed one no key at all |
| CheckoutReservation.OthersKeysUntouched | apps/http-server/src/api/user/payments.rs:176-208 | no step removes or changes another owner's key |
| CheckoutReservation.RequestAlone | apps/http-server/src/api/user/payments.rs:169-208 | the steps of an uninterrupted request pass with all seats if and only if none is another owner's, and otherwise leave the store as it was |
| CheckoutReservation.PastOwnedStepIff | apps/http-server/src/api/user/payments.rs:169-208 | with any owners, a step keeps the seats that requests have got past in their hands if and only if it does not delete one of them |
| CheckoutReservation.PastOwnedInRunsIff | apps/http-server/src/api/user/payments.rs:169-208 | over any run those seats are owned at all times if and only if no rollback deletes a key another request has got past |
| CheckoutReservation.HarmNeedsSharedOwner | apps/http-server/src/api/user/payments.rs:186-200 | the first request so robbed has the same owner text as the one rolling back |
| CheckoutReservation.SameOwnerLosesKey | apps/http-server/src/api/user/payments.rs:169-208 | a run in which it happens: two requests of one owner |
| CheckoutReservation.CheckoutKeys.Reserve | apps/http-server/src/api/user/payments.rs:169-208 | run alone: all seats or none, success exactly if no seat is another owner's |
| CheckoutReservation.CheckoutKeys.RollBack | apps/http-server/src/api/user/payments.rs:193-200 | deletes exactly the created keys |
| SlidingWindow.StepAgreesIff | apps/gateway-keeper/src/rate_limit_sliding.rs:18-53 | a check keeps the set counting like a full log if and only if it is not an admission whose member the set still holds |
| SlidingWindow.CountsExactlyIff | apps/gateway-keeper/src/rate_limit_sliding.rs:18-53 | over every run with a monotone clock the set counts the admissions of the window if and only if there is no such admission |
| SlidingWindow.DecidesLikeFullLog | apps/gateway-keeper/src/rate_limit_sliding.rs:18-53 | up to the first such admission a check passes if and only if fewer than the limit of all admissions lie in the window; trimming and expiry never change a decision |
| SlidingWindow.WindowNeverExceeds | apps/gateway-keeper/src/rate_limit_sliding.rs:18-53 | without such admissions no window of that length, wherever it starts, sees more checks pass than the limit |
| SlidingWindow.SpacedMembersCounted | apps/gateway-keeper/src/rate_limit_sliding.rs:18-53 | members that do not repeat within a window's length are all counted |
| SlidingWindow.RepeatedMemberAdmitsMore | apps/gateway-keeper/src/rate_limit_sliding.rs:18-53 | three checks, one of them uncounted, that pass under a limit of two |
| SlidingWindow.Limiter.CheckSlidingWindow | apps/gateway-keeper/src/rate_limit_sliding.rs:18-53 | the script's new set, decision, count and reset time |
| FixedWindow.HourBound | apps/http-server/src/middleware/rate_limit.rs:11-44 | at most 999 requests of a client pass in any 3600 seconds, to the nanosecond |
| FixedWindow.HourKeptIff | apps/http-server/src/middleware/rate_limit.rs:11-44 | the hour that ends with a request lets through what the counter says and what earlier windows let through in it, and keeps to 500 if and only if that sum does |
| FixedWindow.HoursKeptIff | apps/http-server/src/middleware/rate_limit.rs:11-44 | over every run all hours, wherever they start, keep to 500 if and only if that sum does at every request |
| FixedWindow.HourBoundIsReached | apps/http-server/src/middleware/rate_limit.rs:11-44 | a run with an hour of 999 |
| FixedWindow.InsideWindow | apps/http-server/src/middleware/rate_limit.rs:11-44 | within a window the entry counts exactly its requests |
| FixedWindow.OneWindowBound | apps/http-server/src/middleware/rate_limit.rs:11-44 | within one window at most 500 pass |
| FixedWindow.RateLimiter.Admit | apps/http-server/src/middleware/rate_limit.rs:11-44 | updates this client's entry only, and passes while its count is within the limit |
| CircuitBreaker.PhaseIsHistory | apps/gateway-keeper/src/circuit_breaker.rs:85-171 | counter, state and deadline are what the history of outcomes says |
| CircuitBreaker.HalfOpenIff | apps/gateway-keeper/src/circuit_breaker.rs:29-83 | half-open exactly when tripped and a request was admitted since |
| CircuitBreaker.OverflownCounter | apps/gateway-keeper/src/circuit_breaker.rs:144-149 | a counter that does not fit a u32 reads as one failure |
| CircuitBreaker.DeniesIff | apps/gateway-keeper/src/circuit_breaker.rs:29-83 | denied if and only if failures since the last success reach the threshold and the last is less than the TTL ago |
| CircuitBreaker.HalfOpenAllowsAll | apps/gateway-keeper/src/circuit_breaker.rs:29-83 | once a tripped breaker admits one request it admits every further one, however many, until an outcome is recorded |
| CircuitBreaker.LateHalfOpenIff | apps/gateway-keeper/src/circuit_breaker.rs:64-72 | a HALF_OPEN write that comes after other calls leaves the keys to the history if and only if the breaker is still tripped and its period over |
| CircuitBreaker.StrayHalfOpenDenies | apps/gateway-keeper/src/circuit_breaker.rs:143-163 | after such a write on a breaker that is not tripped one failure opens it, rightly only if it reaches the threshold |
| CircuitBreaker.Breaker.AllowRequest | apps/gateway-keeper/src/circuit_breaker.rs:29-83 | its answer and its one state change are those of the step |
| CircuitBreaker.Breaker.RecordSuccess | apps/gateway-keeper/src/circuit_breaker.rs:85-125 | resets the failure counter and the state; the deadline stays |
| CircuitBreaker.Breaker.RecordFailure | apps/gateway-keeper/src/circuit_breaker.rs:127-171 | counts, and opens at the threshold |

## Left out

- Web UI, seed and sync scripts, telemetry, PDF, mail, object storage, tokens, OAuth, connection pools: input and output or library wrappers.
- `ClusterLock`: another lock library with its own member formats; it would need a second, weaker model.
- Redis failures inside a call and the gap between GET and PEXPIRE in `acquire_lock` and the updater's leader lock: calls are atomic here. `request_payment` returns without rolling back when Redis itself fails.
- Weak memory, task scheduling, supervisors: steps are sequentially consistent. A panic in an actor appears as a lost reply.
- The gateway's queue and its replies: a queue that is full, a lost reply and an answer are the three outcomes of `Lock`; requests of one actor run one at a time in `ShowActor`, concurrently in `ActorLease`, `SeatRegistry` and `SeatGates`.
- The gateway's expiry worker as a whole: only its dropped queue entries are modelled. Its other branches repeat releases.
- `get_user_locked_seats`, `zrembyscore_cluster`, room snapshots of sorted sets, pub/sub messages: reads and notifications.
- The database's booked answer in the updater's pass is a parameter fixed for the pass.
- Several drainers or change-stream replicas, the admin handlers that write the search outbox with another counter, the seven-day TTL index: they break the ordering the search theorems rest on.
- The change stream's retry waits and the drain loop's back-off: time does not enter `SearchSync`.
- Razorpay calls and refund amounts: a foreign service and floating point. A failed refund is a handler that stops.
- `same_payment_intent`: compares sorted seat lists; what a repeated idempotency key is answered is not modelled.
- The checks of `request_payment` before its transaction (signature, prices, availability) and the processor's release of locks and checkout keys after its own: the transactions are modelled with any outcome of the checks.
- Payment message TTL, `user_audits`, tickets, failure reasons: rows nobody reads back.
- Expiry of checkout keys: `CheckoutReservation` runs within their five minutes.
- Pub/sub channels and the consumer group's name: they share no name space with the keys of `Keys`.
- The commands inside one call of the circuit breaker, except a late HALF_OPEN write.
- i32 overflow of `attempts` and i64 overflow of times and sequences.
- Negative seat ids in the lock library's bitmap write, where the offset arithmetic wraps or panics.
- The order in which layout seats are loaded: the numbering results hold for any order.
- JSON, BSON and SQL text: rows and events are datatypes.
