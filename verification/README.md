# Verified models of the database protocols

The repository's programs put PostgreSQL, Redis and Elasticsearch behind small protocols and data structures of
their own: a tenant move with fencing, an outbox relay, a hash ring, a range map, an event log, two writable
primaries, trigger-maintained columns, a projector, a watermark merge, a cache, an archiver. This project models
those protocols in Dafny and proves what they promise. A store is a map, a set or a log; a committed transaction or a
single statement is one atomic step; the step boundaries are those of the code.

A protocol that runs concurrently is a state machine: a total function `Next(s, step)` (a step that is not enabled,
or that blocks, changes nothing), and `Run` over a list of steps. Theorems quantify over every list of steps, so over
every interleaving, every number of routers, relays, writers or readers, and every crash point the steps allow. Code
that updates objects, tables or arrays in place is also written as classes and loops, and each method is proved
against the same specification functions that the theorems are about.

| file | what it covers |
|---|---|
| `Basics.dfy` | optional values, the largest id of a table, sums over the rows of a table |
| `DirectorySharding.dfy`, `DirectoryRuns.dfy`, `DirectoryRouter.dfy` | directory, stale router caches, fenced writes, the five-step tenant move |
| `PolyglotRelay.dfy`, `PolyglotStores.dfy` | outbox, any number of relays, partial effects, external versions, dedupe ids, reindex |
| `ConsistentHashing.dfy` | the ring: add, in-place compaction, binary search, history independence |
| `RangeSharding.dfy` | range map, pruning, split, spread |
| `EventSourcing.dfy`, `EventStore.dfy` | event log, snapshots, optimistic concurrency |
| `LastWriterWins.dfy`, `DisjointIdentities.dfy` | two primaries, last-writer-wins guard, identity sequences |
| `Cqrs.dfy` | commands, outbox, projector |
| `Denormalization.dfy`, `ShopTriggers.dfy` | delta triggers, drift, reconciliation |
| `IncrementalView.dfy` | watermark merge against full recomputation |
| `QueryCache.dfy`, `OverlappingCache.dfy` | cache-aside with TTL, write-through, invalidation, failures, overlapping calls |
| `Archiver.dfy` | batched archival, restore, two-query lookup |

## Where the code does less than it says

For each of these the exact condition is proved, and an input on the failing side.

- Every accepted onboarding of a tenant, and every mover that dies between the target commit and the source commit,
  leaves one more writable shard (`OneWriterExactly`). With more than one of them acknowledged orders can be split over
  two hosts (`AckedKeptExactly`). `simulate_directory_based_sharding/DOCUMENTATION.md:111` mentions the death.
- A mover that dies between the source commit and the flip leaves the directory naming a shard that hosts nothing, and
  no later move accepts the row; no order is acknowledged again, without a new onboarding, exactly if no router is left
  with a mapping that names a host (`NeverAcksExactly`, `FirstMoveStrands`). The documentation does not mention it.
- `RemoveNode` drops the owner of a point once and keeps its second copy, so with a hash collision keys lose their
  owner (`RemoveLeavesOwnersExactly`, `CollisionLosesOwner`), and the order of joining and leaving matters
  (`OrderFreeExactly`).
- `splitRange` deletes without an upper bound and from one shard only; rows stay where the map says exactly under
  `SplitFits` (`SplitPlacedExactly`, `SplitBeforeSpreadMisplaces`).
- `Deposit` checks no sign; the log's rules hold at every prefix exactly when no negative deposit exceeds the balance
  (`LogSoundExactly`, `NegativeDepositOverdraws`).
- Local writes are unguarded; a write whose clock is behind the row it overwrites makes the primaries diverge unless
  that row is about to be overtaken (`ConvergesExactly`, `SlowClockDiverges`).
- Write-through and invalidation keep reads current for calls that do not overlap (`AlwaysCurrentExactly`); a reader
  that stores late can bring an old row back for a whole TTL (`StaleAtMostTtlAndGap`, `OldRowServedThatLong`).
- An empty outbox means an exact read model for at most one projector only (`OneProjectorExactly`).
- `UpdateStatus` on a missing order leaves an event that stops every later `Project` run at that event
  (`Cqrs.Service.ProjectAll`, `OrphanBlocks`).
- The watermark skips a row that commits late with a lower id; the summary is short of exactly those rows
  (`SummaryExactly`, `LowerIdCommitsLate`). The comment at `simulate_materialized_views/main.go:234-237` says no row can
  be skipped; that holds for crashes, not for late rows.
- The reconcile statement repairs counts and totals of orders that have items, never names and never an emptied
  order (`RepairedExactly`, `EmptiedOrderStaysWrong`).
- `findOrder` reports an existing order as missing exactly when it was in the archive only at the first query and in
  the hot table only at the second, so if it was restored in between and not archived again (`FindOrderExactly`,
  `MissedExactly`, `RestoredInBetween`).

## Model

| member | source | states |
|---|---|---|
| `DirectorySharding.OneWriterExactly` | simulate_directory_based_sharding/main.go:88-196 | after any run of onboard, insert and move steps by any number of routers, the shards that accept a write for the tenant are as many as the accepted onboardings and the deaths between target and source commit, less a source that a move holds back; with no move in progress there is at most one exactly if at most one onboarding was accepted and no mover died there |
| `DirectorySharding.AckedOrdersSurvive` | simulate_directory_based_sharding/main.go:88-196 | in every run with at most one accepted onboarding and no such death, every acknowledged order is on every accepting shard and on the home shard: their rows have exactly the ids 1..N, and row i is the i-th acknowledged amount |
| `DirectorySharding.CachesStayCoherent` | simulate_directory_based_sharding/main.go:67-84 | in every run whatsoever no cache entry is newer than the directory, and equal versions name the same shard |
| `DirectorySharding.HostsCounted` | simulate_directory_based_sharding/main.go:106-189 | the committed hosts of a tenant are one per accepted onboarding and per death in the window, and one more inside the window |
| `DirectorySharding.FleetSafe` | simulate_directory_based_sharding/main.go:88-196 | the three results above for every tenant of a fleet whose steps interleave |
| `DirectorySharding.StepKeeps` | simulate_directory_based_sharding/main.go:149-196 | every step but a second accepted onboarding and a death in the commit window keeps the invariant that ties hosts, fence, rows, directory, caches and move phase together |
| `DirectorySharding.RunKeeps` | simulate_directory_based_sharding/main.go:88-196 | so does every run with at most one accepted onboarding and no such death |
| `DirectorySharding.ExecKeeps` | simulate_directory_based_sharding/main.go:117-129 | the fenced INSERT, blocked, accepted or refused, keeps that invariant |
| `DirectorySharding.CommitTargetKeeps` | simulate_directory_based_sharding/main.go:174-184 | committing the copy at the target keeps it |
| `DirectorySharding.CommitSourceKeeps` | simulate_directory_based_sharding/main.go:186-189 | committing the delete at the source keeps it |
| `DirectorySharding.FlipKeeps` | simulate_directory_based_sharding/main.go:191-194 | flipping the directory keeps it, also for stale caches elsewhere |
| `DirectorySharding.ExtendTable` | simulate_directory_based_sharding/main.go:118-121 | numbering from max(id) keeps ids dense: extending the table of a log is the table of the longer log |
| `DirectorySharding.ExtendAppends` | simulate_directory_based_sharding/main.go:118-121 | an INSERT keeps every old row and adds the amounts of the batch, in order, under the ids after the largest old one |
| `DirectorySharding.DeathInWindowHappens` | simulate_directory_based_sharding/main.go:174-189 | any move that has copied its rows splits the tenant if it stops after the target commit, and does not if it reaches the source commit |
| `DirectorySharding.CopyFitsExactly` | simulate_directory_based_sharding/main.go:174-181 | in every reachable state the copy can commit exactly when target and source differ |
| `DirectorySharding.OnboardingTwiceSplits` | simulate_directory_based_sharding/main.go:106-107 | onboarding a tenant twice on different shards makes two writers |
| `DirectorySharding.AttemptSettles` | simulate_directory_based_sharding/main.go:115-130 | with no move in progress, one attempt writes if the mapping it finds names the home shard, and else drops the mapping and writes nothing |
| `DirectorySharding.InsertSettlesExactly` | simulate_directory_based_sharding/main.go:114-133 | with no move in progress, whatever dead movers left behind and from any reachable cache, two attempts append the orders on the home shard, which then lists all acknowledged amounts in order, if and only if the directory or the cached mapping names it, and write nothing otherwise; with an active row they always do, and leave the directory's shard cached |
| `DirectoryRuns.AckedKeptExactly` | simulate_directory_based_sharding/main.go:88-196 | all runs with at most n accepted onboardings and d deaths in the window keep the acknowledged orders together on some host if and only if n is 1 and d is 0 |
| `DirectoryRuns.OnboardAgainLoses` | simulate_directory_based_sharding/main.go:106-107 | onboarding again on a shard that a router still has cached splits the acknowledged orders over two hosts |
| `DirectoryRuns.DieHalfwayLoses` | simulate_directory_based_sharding/main.go:174-189 | so does a mover that dies in the window of a move back to such a shard |
| `DirectoryRuns.NeverAcksExactly` | simulate_directory_based_sharding/main.go:114-196 | with the directory row left as moving by a dead mover, no order is acknowledged in any further run without a new onboarding, if and only if the row's shard is no host and no router is left with a mapping that names one |
| `DirectoryRuns.UnflippedMoveStrands` | simulate_directory_based_sharding/main.go:186-194 | a mover that dies between the source commit and the flip of any move leaves the tenant so if and only if no router is left with a mapping that names a host |
| `DirectoryRuns.FirstMoveStrands` | simulate_directory_based_sharding/main.go:186-194 | in the first move of a tenant it does, with one onboarding and no death in the window |
| `DirectoryRuns.UnreachableForEver` | simulate_directory_based_sharding/main.go:114-196 | the invariant behind it: once no router can find a host, none ever does |
| `DirectoryRuns.MoveRuns` | simulate_directory_based_sharding/main.go:149-196 | the six steps of a move with nobody in between leave the target as host, with all rows, in the directory under the next version |
| `DirectoryRuns.InsertRuns` | simulate_directory_based_sharding/main.go:114-128 | an insert with nobody in between lands on the shard that the lookup names, if it accepts |
| `DirectoryRouter.Router.Lookup` | simulate_directory_based_sharding/main.go:68-84 | the cached entry, or the directory's shard and version; caches only an active mapping; counts one hit or one miss |
| `DirectoryRouter.Router.Insert` | simulate_directory_based_sharding/main.go:117-126 | if the shard hosts the tenant, keeps its rows and adds the batch's amounts, in order, after the largest id; else changes nothing |
| `DirectoryRouter.Router.InsertOrders` | simulate_directory_based_sharding/main.go:114-133 | succeeds on a non-empty batch if and only if the shard of the first lookup hosts the tenant, or else the directory's does, and retries if and only if the first does not; the shard then has its old rows and the batch's amounts, in order, after them; at rest it always succeeds, on the directory's shard, and caches it; where it gives up no row has changed |
| `DirectoryRouter.Router.Onboard` | simulate_directory_based_sharding/main.go:88-109 | the first open shard with the fewest rows, summed over its tenants, becomes host and directory entry; a refused directory row leaves the host behind |
| `DirectoryRouter.LoadIsSum` | simulate_directory_based_sharding/main.go:99-104 | the row count of a shard is the sum of its tenants' rows |
| `DirectoryRouter.Router.MoveTenant` | simulate_directory_based_sharding/main.go:149-196 | moves exactly the tenant's rows and bumps the version, or rolls back and leaves the row marked as moving, and says exactly when; it takes every state of the step machine that the objects show, by the steps of a move, to one that they show afterwards |
| `DirectoryRouter.MoveTenantRefines` | simulate_directory_based_sharding/main.go:149-196 | the refinement behind it: a whole move, a move that dies behind its fence, or no step |
| `DirectoryRouter.MovedConserves` | simulate_directory_based_sharding/main.go:165-186 | the move keeps every row of both shards and touches no other tenant |
| `PolyglotRelay.IndexConverges` | simulate_polyglot_persistence/main.go:342-402 | in every run the index holds committed product versions only; with a drained outbox and no rebuild open it equals the products table |
| `PolyglotRelay.DroppedStaysEmpty` | simulate_polyglot_persistence/main.go:278-288 | a drained outbox alone is not enough: after a drop the index stays empty, and a reindex given up before its first document leaves everything as it was |
| `PolyglotRelay.VersionsOnlyGrow` | simulate_polyglot_persistence/main.go:470-502 | between index drops no document disappears or goes back in version, whatever is redelivered or reordered |
| `PolyglotRelay.LeaderboardExact` | simulate_polyglot_persistence/main.go:332-402 | the leaderboard is always the sum over the deduplicated event ids, and with a drained outbox the sum over the orders table, which is over the orders placed in the run |
| `PolyglotRelay.OrdersArePlaced` | simulate_polyglot_persistence/main.go:208-223 | the orders table of a run lists the placed orders of existing products, with their quantities, in order |
| `PolyglotRelay.ProductsAreWritten` | simulate_polyglot_persistence/main.go:167-205 | the products table of a run holds for each id the body last written, with the number of its writes as version, and nothing for an id never created |
| `PolyglotRelay.CommitKeeps` | simulate_polyglot_persistence/main.go:342-402 | what a relay marks as processed is safe in the index or will be put there by a later delivery |
| `PolyglotRelay.PutKeepsCurrent` | simulate_polyglot_persistence/main.go:470-502 | storing any committed document under its external version never displaces a product's newest one |
| `PolyglotRelay.StartReindexKeeps` | simulate_polyglot_persistence/main.go:278-288 | starting a rebuild from the products table, with relays running, loses no newest version |
| `PolyglotRelay.RunKeeps` | simulate_polyglot_persistence/main.go:195-402 | every run of writers, relays, drops and rebuilds keeps the search and the leaderboard invariant |
| `PolyglotStores.PutAllRetry` | simulate_polyglot_persistence/main.go:470-502 | delivering a batch again from the start after any prefix got in ends in the longer of the two prefixes |
| `PolyglotStores.PutAllCovers` | simulate_polyglot_persistence/main.go:470-502 | after a batch the index has at least each document's version |
| `PolyglotStores.CountAllRetry` | simulate_polyglot_persistence/main.go:332-336 | the same for the deduplicated increments |
| `PolyglotStores.CountAllCovers` | simulate_polyglot_persistence/main.go:332-336 | after a pipeline every event id in it is marked as counted |
| `PolyglotStores.PendingIsBatch` | simulate_polyglot_persistence/main.go:346-361 | a batch lists events that are neither processed nor locked, in order, each once, and stops early only at the limit |
| `PolyglotStores.Stores.UpdateProduct` | simulate_polyglot_persistence/main.go:195-206 | the next version of the row and its event commit together, or neither; a step of the step machine |
| `PolyglotStores.Stores.PlaceOrders` | simulate_polyglot_persistence/main.go:208-223 | a transaction of orders, each with its event, or nothing if a product is unknown; a step of the step machine for each |
| `PolyglotStores.Stores.BulkIndex` | simulate_polyglot_persistence/main.go:470-502 | the index after any accepted prefix of the request |
| `PolyglotStores.Stores.IncrOnce` | simulate_polyglot_persistence/main.go:332-336 | adds the quantity of an event to its product's score the first time only |
| `PolyglotStores.Stores.SelectBatch` | simulate_polyglot_persistence/main.go:346-361 | the loop yields that batch, past whatever other relays have locked |
| `PolyglotStores.Stores.Collect` | simulate_polyglot_persistence/main.go:364-388 | splits the batch into documents and orders, in order |
| `PolyglotStores.Stores.RunPipeline` | simulate_polyglot_persistence/main.go:385-396 | the tally after any executed prefix of the pipeline |
| `PolyglotStores.Stores.ProcessBatch` | simulate_polyglot_persistence/main.go:342-402 | past the locks of other relays, success applies and marks the whole batch; failure marks nothing and leaves a prefix of the documents, then of the orders; it takes every state of the step machine that the stores show, by one relay's steps from claim to commit or rollback, to one that they show afterwards |
| `PolyglotStores.BatchRefines` | simulate_polyglot_persistence/main.go:342-402 | the refinement behind it, other relays' locks included |
| `PolyglotStores.PendingClaimable` | simulate_polyglot_persistence/main.go:346-361 | what the batch query yields is a batch that the step machine lets a relay claim |
| `PolyglotStores.ReindexCovers` | simulate_polyglot_persistence/main.go:278-288 | a reindex with nobody in between leaves every product in the index at the table's version at least, and nothing due |
| `ConsistentHashing.HashRing.Get` | simulate_consistent_hashing/main.go:79-91 | the owner of a ring point whose distance ahead of the key's hash, modulo 2^32, is least |
| `ConsistentHashing.HashRing.BinarySearch` | simulate_consistent_hashing/main.go:85-86 | the first index whose point is not below the hash |
| `ConsistentHashing.SearchFindsNearest` | simulate_consistent_hashing/main.go:85-90 | that index, or index 0 past the end, is the clockwise nearest point |
| `ConsistentHashing.VnodeKeysDistinct` | simulate_consistent_hashing/main.go:39-42 | every virtual node of every node has a key of its own, whatever the names are |
| `ConsistentHashing.DistinctExactly` | simulate_consistent_hashing/main.go:35-55 | virtual nodes share a point if and only if the hash collides on their keys |
| `ConsistentHashing.HashRing.AddNode` | simulate_consistent_hashing/main.go:44-57 | append, sort and claim give the specified ring; a known node changes nothing |
| `ConsistentHashing.HashRing.AppendPoints` | simulate_consistent_hashing/main.go:51-55 | the loop appends the node's points and claims each |
| `ConsistentHashing.HashRing.CompactInPlace` | simulate_consistent_hashing/main.go:66-74 | the loop that overwrites the array it reads keeps the points and owners that the value-level compaction keeps |
| `ConsistentHashing.HashRing.RemoveNode` | simulate_consistent_hashing/main.go:59-75 | the ring after removal, still sorted |
| `ConsistentHashing.HashRing.PlaceKeys` | simulate_consistent_hashing/main.go:179-185 | the owner of every key |
| `ConsistentHashing.CountMoved` | simulate_consistent_hashing/main.go:195-203 | the number of keys whose node changed |
| `ConsistentHashing.AddKeepsOrTakes` | simulate_consistent_hashing/main.go:44-57 | after adding a node every key keeps its owner or moves to the new node, collisions or not |
| `ConsistentHashing.MovedIsTaken` | simulate_consistent_hashing/main.go:179-203 | the keys that moved are exactly the keys the new node owns |
| `ConsistentHashing.JoinMovesOnlyItsKeys` | simulate_consistent_hashing/main.go:44-75 | the same after any history of adds and removes, collisions included |
| `ConsistentHashing.RemoveLeavesOwnersExactly` | simulate_consistent_hashing/main.go:59-75 | every point has an owner after a removal if and only if no point of the removed node was on the ring twice |
| `ConsistentHashing.CollisionLosesOwner` | simulate_consistent_hashing/main.go:59-75 | adding and removing a node with a colliding point leaves the keys at that point without an owner |
| `ConsistentHashing.RemoveKeepsOthers` | simulate_consistent_hashing/main.go:59-75 | a removal moves only keys that the removed node owned, on any ring, collisions or not |
| `ConsistentHashing.AddCanonical` | simulate_consistent_hashing/main.go:44-57 | with distinct hashes, adding leads from the canonical ring of a node set to that of the larger set |
| `ConsistentHashing.RemoveCanonical` | simulate_consistent_hashing/main.go:59-75 | the same for removing |
| `ConsistentHashing.CanonicalUnique` | simulate_consistent_hashing/main.go:19-25 | two canonical rings of the same nodes are equal, owners included |
| `ConsistentHashing.HistoryDoesNotMatter` | simulate_consistent_hashing/main.go:44-75 | two histories that end in the same node set leave the same ring |
| `ConsistentHashing.OrderFreeExactly` | simulate_consistent_hashing/main.go:44-75 | over a set of nodes, all histories that end in the same nodes leave the same ring if and only if no two virtual nodes share a point |
| `ConsistentHashing.LastAddedOwns` | simulate_consistent_hashing/main.go:51-55 | a point of two nodes belongs to whichever was added last |
| `ConsistentHashing.DoubledPointStays` | simulate_consistent_hashing/main.go:66-74 | a node with one point twice leaves a point behind when it is removed |
| `ConsistentHashing.AddThenRemoveRestores` | simulate_consistent_hashing/main.go:44-75 | adding a node and removing it again restores the ring |
| `RangeSharding.TilingDisjoint` | simulate_range_based_sharding/main.go:26-33 | at most one range contains a time |
| `RangeSharding.TilingCovers` | simulate_range_based_sharding/main.go:53-61 | routing finds a range exactly for the times between the first start and the last end |
| `RangeSharding.PrunedEqualsScan` | simulate_range_based_sharding/main.go:65-77 | collecting a window from the named shards gives the same multiset as from all shards |
| `RangeSharding.CollectIsCopies` | simulate_range_based_sharding/main.go:182-189 | collecting a window from some shards finds every row of the window as often as they hold it |
| `RangeSharding.SplitTiling` | simulate_range_based_sharding/main.go:136-138 | the split map is a partition of the same time |
| `RangeSharding.SplitRoute` | simulate_range_based_sharding/main.go:136-138 | exactly the upper half of the range routes to the target, everything else as before |
| `RangeSharding.SplitPlacedExactly` | simulate_range_based_sharding/main.go:106-140 | whenever the copy goes through, every row is on its shard after the split if and only if `SplitFits` held before |
| `RangeSharding.SplitBeforeSpreadMisplaces` | simulate_range_based_sharding/main.go:106-140 | it fails after the spread step: splitting the range before the newest one takes rows of the newest one along |
| `RangeSharding.SplitKeepsAllExactly` | simulate_range_based_sharding/main.go:106-140 | a split keeps all rows in place, whatever rows there are, if and only if the range is on no third shard and, unless it stays where it is, its shard owns no later time |
| `RangeSharding.MapFitsSuffices` | simulate_range_based_sharding/main.go:106-140 | that condition on the map implies `SplitFits` for the rows there are |
| `RangeSharding.SplitConserves` | simulate_range_based_sharding/main.go:118-134 | a split keeps the number of copies of every row |
| `RangeSharding.SpreadKeeps` | simulate_range_based_sharding/main.go:208-212 | cutting the last range after all stored rows and spreading the rest keeps the partition and the placement |
| `RangeSharding.SpreadRoute` | simulate_range_based_sharding/main.go:208-212 | from the cut on rows go to the new shards in turn, before it as ever |
| `RangeSharding.InsertAllTables` | simulate_range_based_sharding/main.go:87-102 | each shard gets exactly its rows of a batch, in order |
| `RangeSharding.InsertKeepsPlaced` | simulate_range_based_sharding/main.go:87-102 | inserts keep every row on its shard |
| `RangeSharding.HistoryKeeps` | simulate_range_based_sharding/main.go:87-140 | any history of inserts, valid splits and spreads keeps partition and placement |
| `RangeSharding.HistoryConserves` | simulate_range_based_sharding/main.go:87-140 | after any such history every row is in the cluster as often as it came in |
| `RangeSharding.QueriesStayExact` | simulate_range_based_sharding/main.go:31-102 | the same after any history of inserts, valid splits and spreads |
| `RangeSharding.Cluster.RouteRow` | simulate_range_based_sharding/main.go:53-61 | the scan finds the route, or none |
| `RangeSharding.Cluster.ShardsFor` | simulate_range_based_sharding/main.go:65-77 | lists the shards of overlapping ranges, each once; for a window and ranges that are not empty, exactly the shards that own a time of the window |
| `RangeSharding.OverlapsExactly` | simulate_range_based_sharding/main.go:35-37 | a range overlaps a window if and only if they have a time in common |
| `RangeSharding.ShardsInTurn` | simulate_range_based_sharding/main.go:56 | within a range, customers take its shards in turn |
| `RangeSharding.Cluster.GroupByShard` | simulate_range_based_sharding/main.go:88-92 | groups a batch by route, or fails exactly when a row has none |
| `RangeSharding.Cluster.Insert` | simulate_range_based_sharding/main.go:87-102 | every shard's table grows by exactly its rows, or nothing changes |
| `RangeSharding.Cluster.SplitRange` | simulate_range_based_sharding/main.go:106-140 | the new map and tables, and how many rows moved; it cannot go through exactly if rows would be copied back onto the shard they are deleted from |
| `RangeSharding.Cluster.Query` | simulate_range_based_sharding/main.go:178-189 | finds every row as often as the cluster holds it if its time is in the window, and no other row, though it asks only the named shards |
| `EventSourcing.VersionsDense` | simulate_event_sourcing/main.go:101-121 | in every interleaving of loads and appends the versions of an aggregate are exactly 1..n |
| `EventSourcing.OneWinner` | simulate_event_sourcing/main.go:101-121 | of the appends that race for a version at most one succeeds |
| `EventSourcing.EventsGrow` | simulate_event_sourcing/init/01_schema.sql:8-28 | an event once written stays as it is |
| `EventSourcing.SnapshotsTransparent` | simulate_event_sourcing/main.go:58-99 | for every reachable snapshot table, and with writers between its two queries, a load returns the fold of the whole log at its second query |
| `EventSourcing.LoadIsFold` | simulate_event_sourcing/main.go:58-99 | from any snapshot of the log, replaying the rest is folding all of it |
| `EventSourcing.FoldSays` | simulate_event_sourcing/main.go:33-46 | the fold of a log has as balance the deposits less the withdrawals, as owner that of the last opening, is open if opened and not closed since, and has as version the number of events, all read off the log |
| `EventSourcing.StepKeeps` | simulate_event_sourcing/main.go:58-133 | every step keeps versions dense and every snapshot and loaded state the fold of its prefix |
| `EventSourcing.LogSoundExactly` | simulate_event_sourcing/main.go:137-171 | no prefix overdraws and every event is permitted by the prefix before it, if and only if no negative deposit exceeds the balance it meets |
| `EventSourcing.NegativeDepositOverdraws` | simulate_event_sourcing/main.go:148-157 | opening an account and depositing a negative amount is accepted and overdraws it |
| `EventSourcing.SessionRuns` | simulate_event_sourcing/main.go:137-171 | a command with nobody in between appends what the fold of the whole log allows |
| `EventSourcing.NonNegativeDepositsAreSound` | simulate_event_sourcing/main.go:137-171 | non-negative deposit amounts are enough for that |
| `EventStore.LiveAccount.ApplyEvent` | simulate_event_sourcing/main.go:33-46 | the in-place update is the fold step; balance, owner, open and version field by field |
| `EventStore.Store.Load` | simulate_event_sourcing/main.go:58-99 | returns the fold of the whole log, its balance the deposits less the withdrawals; replays exactly the events after the newest snapshot |
| `EventStore.Store.AppendEvent` | simulate_event_sourcing/main.go:104-121 | inserts unless the version is taken; for an expected version within the log it succeeds exactly at the end of the log and extends it by this event |
| `EventStore.Store.Snapshot` | simulate_event_sourcing/main.go:123-133 | a snapshot of any faithful state keeps every later load exact; an existing one is left alone |
| `EventStore.Store.OpenAccount` | simulate_event_sourcing/main.go:137-146 | alone, succeeds exactly on an account that is not open; then it is open under this owner with the balance it had |
| `EventStore.Store.Deposit` | simulate_event_sourcing/main.go:148-157 | alone, succeeds exactly on an open account; then the balance is higher by the amount and nothing else changed |
| `EventStore.Store.Withdraw` | simulate_event_sourcing/main.go:159-171 | alone, succeeds exactly on an open account with enough balance; then the balance is lower by the amount and nothing else changed |
| `LastWriterWins.Converges` | simulate_multi_primary_replication/init/01_schema.sh:31-45 | with the guard on, under any partitions and deliveries, if each local write is not behind the row it overwrites or that row is about to be overtaken: with both queues empty both nodes hold the same row, the initial one or one that was written; no write has a later time, and on equal times B's wins |
| `LastWriterWins.ConvergesExactly` | simulate_multi_primary_replication/init/01_schema.sh:31-45 | at every point of a run the nodes agree once drained, if and only if every write of the run meets that condition |
| `LastWriterWins.HealsExactly` | simulate_multi_primary_replication/main.go:138-143 | the nodes agree however and whenever the queues drain, if and only if the two rows they are heading for are equal; every state can drain |
| `LastWriterWins.StepExactly` | simulate_multi_primary_replication/main.go:121-168 | a step keeps the two rows that the nodes are heading for equal if and only if it is no write or meets the condition |
| `LastWriterWins.WriteCommutes` | simulate_multi_primary_replication/init/01_schema.sh:31-39 | writing before the queue drains is the same as receiving the write after it |
| `LastWriterWins.DrainedIsTop` | simulate_multi_primary_replication/init/01_schema.sh:31-39 | the guard leaves a row of greatest version among the held and the arriving ones |
| `LastWriterWins.LateWriteExactly` | simulate_multi_primary_replication/init/01_schema.sh:41-45 | one more write after such a run, written out in terms of the rows: equal once drained if and only if it is not behind the row it overwrites, or something in the queue reaches that row |
| `LastWriterWins.SlowClockDiverges` | simulate_multi_primary_replication/init/01_schema.sh:41-45 | any row overwritten under an older version stays on the peer: the nodes differ with nothing under way |
| `LastWriterWins.PartitionOutcome` | simulate_multi_primary_replication/main.go:121-144 | one write on each side of a partition: without the guard the rows change places, with it both nodes keep the one with the later time, and on a tie B's; they agree if and only if the guard is on |
| `LastWriterWins.Primary.Update` | simulate_multi_primary_replication/main.go:131-134 | the row changes at once and the change is queued for the peer |
| `LastWriterWins.Primary.CatchUp` | simulate_multi_primary_replication/main.go:143 | the apply loop empties the queue in order through the guard |
| `LastWriterWins.ConcurrentUpdates` | simulate_multi_primary_replication/main.go:124-144 | both rows after cut, two updates, reconnection and catch-up: with the guard the row with the later time on both nodes, without it each other's |
| `DisjointIdentities.IdentitiesDisjoint` | simulate_multi_primary_replication/init/01_schema.sh:8-12 | the identity sequences start at the node id, step by ten, and up to ten of them never meet and never repeat |
| `DisjointIdentities.NoInsertConflict` | simulate_multi_primary_replication/init/01_schema.sh:8-16 | in every run no insert, local or replicated, meets a row of the same id |
| `DisjointIdentities.InsertsConverge` | simulate_multi_primary_replication/main.go:61-76 | with empty queues both nodes hold the same rows: every item inserted anywhere, under its id |
| `DisjointIdentities.InsertsHeal` | simulate_multi_primary_replication/main.go:71-76 | from every run, delivering what is queued empties both queues, and both nodes then hold every item inserted so far, under its id, and the same rows |
| `Cqrs.StaleHasEvent` | simulate_cqrs/main.go:96-173 | with one projector that may die between any two statements, and commands in between, every order whose read row differs from the join and aggregate has an unprocessed event |
| `Cqrs.DrainedIsExact` | simulate_cqrs/main.go:96-173 | with one projector an empty outbox means the read model is the full projection |
| `Cqrs.OneProjectorExactly` | simulate_cqrs/main.go:96-173 | for a set of projectors, an empty outbox means an exact read model for all customers, commands and interleavings if and only if there is at most one |
| `Cqrs.StepKeeps` | simulate_cqrs/main.go:37-173 | every command and every projector statement keeps the invariant behind it |
| `Cqrs.CommandKeeps` | simulate_cqrs/main.go:37-78 | any write to one order that appends an event for it keeps it, wherever the projector is |
| `Cqrs.MarkKeeps` | simulate_cqrs/main.go:132-135 | marking an event after its upsert keeps it |
| `Cqrs.UpsertKeeps` | simulate_cqrs/main.go:160-172 | upserting a row read earlier keeps it |
| `Cqrs.TwoProjectorsLoseAnUpdate` | simulate_cqrs/main.go:96-139 | any two projectors can leave the outbox empty and the read model stale |
| `Cqrs.OrphanBlocks` | simulate_cqrs/main.go:64-78 | an UpdateStatus of a missing order leaves an event that no number of projectors gets past, in any run, until that order is placed |
| `Cqrs.Service.PlaceOrder` | simulate_cqrs/main.go:37-61 | order, items and event commit together under new ids, or, for an unknown customer, nothing; the order then projects to its customer, number of lines, worth and status, and no other projection changes |
| `Cqrs.Service.UpdateStatus` | simulate_cqrs/main.go:64-78 | changes the status in an existing order's projection and nothing else of it; appends the event in any case |
| `Cqrs.PlacedProjects` | simulate_cqrs/main.go:141-156 | the join and aggregate of a new order is what was ordered |
| `Cqrs.Service.ProjectAll` | simulate_cqrs/main.go:96-139 | drains the outbox into an exact read model if and only if no unprocessed event refers to a missing order; else stops at the first such event with exactly the events before it marked |
| `Denormalization.TriggersEqualRecompute` | simulate_denormalization/init/01_schema.sql:70-127 | after every sequence of item inserts, updates, moves and deletes, order inserts and cascaded deletes, renames, customer changes and app-level adds, each order's name, count and total are the recomputed ones |
| `Denormalization.StepConserves` | simulate_denormalization/init/01_schema.sql:94-116 | each statement leaves every order exactly as far off as it was, so triggers neither cause nor repair drift |
| `Denormalization.DeltasConserve` | simulate_denormalization/init/01_schema.sql:94-116 | grouped deltas of old and new rows move count and total as the recomputation moves |
| `Denormalization.SumReplaced` | simulate_denormalization/init/01_schema.sql:107-113 | the arithmetic behind the UPDATE branch, for rows that may change order |
| `Denormalization.DeleteOrderConserves` | simulate_denormalization/init/01_schema.sql:31 | the cascade leaves every other order as it was |
| `Denormalization.AddConserves` | simulate_denormalization/main.go:188-207 | a sequential appLevelAddItem keeps count and total as right as they were |
| `Denormalization.BypassDrifts` | simulate_denormalization/main.go:101-110 | after an insert with the trigger off the drift query names exactly the orders that got rows |
| `Denormalization.RepairedExactly` | simulate_denormalization/main.go:114-119 | an order is right after reconciliation if and only if its name was right and it has items or carries zeros |
| `Denormalization.EmptiedOrderStaysWrong` | simulate_denormalization/main.go:114-119 | an order that got a line while the trigger was off and lost it while it was on counts -1 lines, before and after reconciliation |
| `Denormalization.ReconcileHealsBypass` | simulate_denormalization/main.go:112-124 | one reconciliation repairs everything that bypassing inserts caused |
| `Denormalization.ReconcileTwice` | simulate_denormalization/main.go:114-119 | a second reconciliation changes nothing |
| `Denormalization.CountIsSize` | simulate_denormalization/init/01_schema.sql:98-99 | count(*) of a group is the number of its keys |
| `ShopTriggers.GroupInto` | simulate_denormalization/init/01_schema.sql:96-113 | GROUP BY over a transition table, in any row order, adds each order's count and sum |
| `ShopTriggers.Database.Recalc` | simulate_denormalization/init/01_schema.sql:94-116 | one grouped update adjusts every order by its deltas |
| `ShopTriggers.Database.InsertItems` | simulate_denormalization/init/01_schema.sql:96-100 | bulk insert with its trigger, or refused as a whole; keeps the copies right |
| `ShopTriggers.Database.DeleteItems` | simulate_denormalization/init/01_schema.sql:101-105 | bulk delete with its trigger; keeps the copies right |
| `ShopTriggers.Database.UpdateItems` | simulate_denormalization/init/01_schema.sql:106-113 | bulk update with its trigger, lines moving between orders included; keeps the copies right |
| `ShopTriggers.Database.DeleteOrder` | simulate_denormalization/init/01_schema.sql:30-36 | order, items and the trigger of the cascade; keeps the copies right |
| `ShopTriggers.Database.InsertOrder` | simulate_denormalization/init/01_schema.sql:70-76 | a new order with its customer's current name; keeps the copies right |
| `ShopTriggers.Database.ChangeCustomer` | simulate_denormalization/init/01_schema.sql:70-76 | the order takes the new customer's name; keeps the copies right |
| `ShopTriggers.Database.RenameCustomer` | simulate_denormalization/init/01_schema.sql:80-87 | the new name reaches every order of the customer; keeps the copies right |
| `ShopTriggers.Database.AppLevelAddItem` | simulate_denormalization/main.go:188-207 | line and copies change together, or nothing does; keeps the copies right |
| `ShopTriggers.Database.Reconcile` | simulate_denormalization/main.go:114-119 | the reconciled orders; the reported number is the number of rows changed |
| `IncrementalView.SummaryExactly` | simulate_materialized_views/main.go:238-271 | in every interleaving of inserts with the statements of refreshes, commits and aborts, the summary is the group-by of the rows up to the watermark without the late ones; it is that of all of them if and only if no row was late |
| `IncrementalView.LowerIdCommitsLate` | simulate_materialized_views/main.go:238-271 | a sale that commits after a refresh under a lower id is never counted |
| `IncrementalView.InsertedStays` | simulate_materialized_views/main.go:252-254 | a sale stays in the table as it was inserted |
| `IncrementalView.FullRecomputeExactly` | simulate_materialized_views/main.go:238-271 | it equals the full recomputation if and only if no row was late and none is above the watermark |
| `IncrementalView.RefreshGivesRecompute` | simulate_materialized_views/main.go:238-271 | with inserts above the watermark and outside refreshes, a committed refresh ends in the full recomputation |
| `IncrementalView.MergeIsGroupBy` | simulate_materialized_views/main.go:249-263 | merging the groups of new rows gives the groups of all rows |
| `IncrementalView.GroupByTellsPartsApart` | simulate_materialized_views/init/01_schema.sql:25-31 | grouping tells a table from any proper part of it |
| `IncrementalView.GroupRows` | simulate_materialized_views/main.go:251-255 | grouping row by row, in any order |
| `IncrementalView.Warehouse.IncrementalRefresh` | simulate_materialized_views/main.go:238-271 | merges the rows above the watermark and moves it to the largest id; from an exact summary it reaches the full recomputation |
| `IncrementalView.Warehouse.VerifyIncremental` | simulate_materialized_views/main.go:275-292 | the symmetric difference is empty if and only if the tables are equal |
| `QueryCache.StaleAtMostTtl` | simulate_query_caching/main.go:40-105 | whatever Redis calls fail and whoever else writes, a read returns a row the database held within the last TTL |
| `QueryCache.ReadsAreCurrent` | simulate_query_caching/main.go:40-105 | if no cache write of an update is refused and all writes use these methods, a read returns the current row, also when the cache cannot be read or filled |
| `QueryCache.AlwaysCurrentExactly` | simulate_query_caching/main.go:40-105 | reads are current at every point of a run if and only if no write from elsewhere, and no update whose cache write is refused, changes the row under a live entry |
| `QueryCache.RefusedWriteExactly` | simulate_query_caching/main.go:78-105 | an update whose cache write is refused leaves the next read right if and only if nothing was cached alive or the price did not change |
| `QueryCache.EveryReadCounts` | simulate_query_caching/main.go:40-56 | hits plus misses is the number of reads |
| `QueryCache.HitsForOneTtl` | simulate_query_caching/main.go:66-72 | a read that fills the cache is followed by hits on what it read for exactly one TTL |
| `QueryCache.EntriesBounded` | simulate_query_caching/main.go:68-72 | every entry holds a row that the database held less than a TTL before it expires |
| `OverlappingCache.StaleAtMostTtlAndGap` | simulate_query_caching/main.go:40-105 | with calls that overlap, any failures and any writers, a hit returns a row the database held within the last TTL plus the longest time from a call's database statement to its SET |
| `OverlappingCache.OldRowServedThatLong` | simulate_query_caching/main.go:55-72 | that bound is tight, even if no call fails: a row replaced by an invalidating update can be served for that long |
| `OverlappingCache.InTurnMatches` | simulate_query_caching/main.go:40-105 | calls made one after the other, as their single database and cache steps, have exactly the clock, table and cache of the run with whole calls, whatever fails |
| `QueryCache.Cache.GetProduct` | simulate_query_caching/main.go:40-74 | result and state of a read, hit, miss and failure alike; with a coherent cache it returns the current row and stays coherent |
| `QueryCache.Cache.UpdatePriceWriteThrough` | simulate_query_caching/main.go:78-96 | the database changes even when the cache error is returned, and says when it returns one; the cache stays coherent unless its write is refused |
| `QueryCache.Cache.UpdatePriceInvalidate` | simulate_query_caching/main.go:100-105 | the same for invalidation; an unknown id is no error |
| `Archiver.OnePlaceExactly` | simulate_data_archival/main.go:131-185 | after every run of batches, restores, updates and inserts each order is in one table only, if and only if no insert took the id of an archived order |
| `Archiver.NothingLost` | simulate_data_archival/main.go:131-185 | no run of batches, restores, updates and inserts, reused ids included, loses a row of an order or changes anything but its status |
| `Archiver.BothStays` | simulate_data_archival/main.go:135-146 | an order that got into both tables stays in both: every statement that would move it fails |
| `Archiver.FindOrderExactly` | simulate_data_archival/main.go:161-170 | in every run, an existing order is reported missing if and only if it was in the archive only at the first query and in the hot table only at the second, which takes a restore in between; other answers were true when given |
| `Archiver.MissedExactly` | simulate_data_archival/main.go:131-185 | in terms of what happened in between: an existing order is reported missing if and only if it was only in the archive at the first query and then was restored and not archived again |
| `Archiver.OutExactly` | simulate_data_archival/main.go:131-185 | an archived order is out of the archive later if and only if it was restored and has not been archived since |
| `Archiver.RestoredInBetween` | simulate_data_archival/main.go:161-185 | any archived order is reported missing if it is restored between the two queries |
| `Archiver.LifeOfAnOrder` | simulate_data_archival/main.go:131-185 | an order inserted, delivered, archived by a batch with room for all, and restored is back in the hot table with all but its status, which is then disputed; meanwhile the batch took exactly the qualifying rows |
| `Archiver.LowestBelow` | simulate_data_archival/main.go:139 | what a batch leaves has higher ids than what it takes |
| `Archiver.Lowest` | simulate_data_archival/main.go:139 | a batch takes the limit, or all there is |
| `Archiver.Orders.MoveBatch` | simulate_data_archival/main.go:135-146 | one statement moves, unchanged, delivered orders from before the cutoff that are not locked, lowest ids first, all of them if the limit allows; it fails exactly if a picked id is in the archive already, and then moves nothing |
| `Archiver.Orders.Archive` | simulate_data_archival/main.go:123-157 | alongside other traffic that makes no row qualify, and whatever is locked at each batch, the loop ends; it leaves what all those statements leave, counts what its batches moved, and unless a batch failed every delivered order from before the cutoff that is still hot was locked at the last batch; alone, it moves qualifying rows unchanged and touches nothing else |
| `Archiver.BatchProgress` | simulate_data_archival/main.go:134-152 | a batch that moves something leaves fewer rows that qualify; one that finds nothing leaves only locked ones |
| `Archiver.Orders.RestoreOrder` | simulate_data_archival/main.go:173-185 | an archived order comes back with its content under the status disputed, in the hot table only |
| `Archiver.Orders.Find` | simulate_data_archival/main.go:161-170 | with nothing in between: hot exactly for orders in the hot table, nowhere exactly for unknown ones, archive exactly for archived ones |

## Left out

- Connections, pools, DSNs, timeouts, sleeps, polling, timing, printing and the demo flow of every `main`.
- PostgreSQL, CockroachDB, HAProxy and PgBouncer internals, and the projects that only configure or observe them.
- The projects on read replicas, read-write splitting, failover, tiering, hash sharding and federation, and the NewSQL
  one, whose claims rest on the database's own serializability.
- Reads of a moving tenant (`CountOrders`): they are not fenced, and nothing is claimed about them.
- Cross-tenant row counts seen by concurrent `Onboard` calls; the state machine lets any shard be chosen.
- The product cache of the polyglot app under concurrent relays: only its TTL bounds its staleness.
- PolyglotRelay.LeaderboardExact: redelivery after the dedupe key's expiry (86400 s) is not modelled; ids are kept for good.
- The Redis pipeline's error reporting: which increments of a failed pipeline took effect is a prefix.
- Bits of CRC32 (an uninterpreted function to 32-bit values), JSON, floating-point prices, NUMERIC rounding and time
  zones (integers and opaque values).
- A node with the empty name on the hash ring: its points look like unowned ones.
- Rows of different tenants, aggregates, accounts or products never meet in these protocols; `EventSourcing` and
  `LastWriterWins` hold one aggregate or row, `EventStore` and `DirectorySharding.FleetSafe` many.
- Deletes of replicated rows on the two primaries, and more than two nodes for updates.
- Cqrs.Service.ProjectAll: runs without interleaving; `Cqrs.StepKeeps` covers the interleaved statements.
- PolyglotStores.Stores.ProcessBatch: other relays hold their locks but do nothing meanwhile; `PolyglotRelay.RunKeeps`
  covers the interleaved steps.
- Products' price changes, and updates of `orders.customer_name` or `customers.id` that bypass the triggers.
- QueryCache.StaleAtMostTtl: holds for calls that do not overlap; `OverlappingCache.StaleAtMostTtlAndGap` is for those that do.
- The gzip export of the archive: it writes a file outside the transaction.
