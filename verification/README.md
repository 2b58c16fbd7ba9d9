# Dispatch pipeline: verified model

This project models the order-dispatch pipeline of the repository in Dafny and proves its protocols and indexes.
`dafny verify dfyconfig.toml` checks everything.

The pipeline: nodes own shards under an epoch kept in etcd. A node tails a shard's order log, checks the ownership
fence, and applies each batch in one database transaction (inbox, order rows, outbox, checkpoint), checking the fence
again before the commit. Publishers move outbox rows to topics under leases, at least once. A matcher consumes match
requests the same way, reserving a rider found in an in-memory index of celled, sharded rider objects. A controller,
chosen by election, assigns shards, fails over dead owners and rebalances along a consistent-hash ring.

## How it is built

- Protocols are systems of steps: a `State`, a `Step` for everything one party can do at once, a function `Do` and runs
  `Exec(INIT, steps)`. Theorems speak of every sequence of steps. Reading etcd, each fence check, an append, a commit, a
  mark, a lease running out and a crash are steps of their own; a database transaction is one step.
  These are `OwnershipStore`, `FencedConsumer`, `OutboxPublisher`, `Pipeline`, `Runner`, `Replay`, `EtcdCheckpoint` and
  `Election`.
- Code that changes things in place is imperative: `OrderDatabase`, `MatchDatabase`, `OutboxStore`, `OwnershipKey`,
  `EtcdKey`, `EtcdElection`, `MemoryEventLog`, `ConsistentHash`, the controller's `Store`, `Node`, `Rider`, `GridIndex`
  and `Index`. Their methods are proved against functions on values, and the laws are lemmas about those functions. What
  such a function comes to is stated in plain terms as well, by a lemma or by the method's own contract.
- The index shares mutable `Rider` objects with its grids, as the source does, and writes a rider's position before it
  tells the grid. `GridIndex.ValidExcept` says what still holds then, and `AddRider` needs no more than that.
- `Holds` in `CandidateIndex` is the index invariant: each known rider is in exactly one shard's grid, as the same
  object, in exactly the cell of its current position, and no grid or cell holds anyone else. `AsTable` is the plain
  rider table the index stands for; searches are specified on that table alone, by when a rider's turn comes and what
  it costs (`ListsCheapest`). `IndexRuns` composes the calls: any sequence of events, loads, removals and counts that
  fits keeps the index sound and agreeing with the plain table.
- No protocol is safe by doing nothing: from every reachable state the owner gets through the log
  (`FencedConsumer.OwnerCatchesUp`), a claimable row gets published (`OutboxPublisher.ClaimableRowGetsPublished`), a
  restarted worker gets through (`Replay.RestartGetsThrough`), a refresh and a shutdown do (`Runner.RefreshGetsThrough`,
  `ShutdownGetsThrough`), a free key is won (`Election.AcquiresExactlyWhenFree`), and an undisturbed assignment or save
  takes effect (`OwnershipStore.UncontendedAssignment`, `EtcdCheckpoint.UndisturbedSave`).
- `OneOrder` is the argument behind crash recovery without transactions: `Recovering` says which fields of one order's row
  may be out of date while part of the log is being applied again, and every event brings the row one step nearer.
- Go's `/` truncates toward zero (`Quotient`); packed cell ids and `int32` columns wrap (`WrapInt32`); the ring's hash is
  a parameter, so every result about it holds for every hash.

## Where the code does less than its documentation

Each of these comes with the condition under which the code does what is expected, and a concrete case in which it does
not.

- `docs/design.md` line 43 says a node of an old epoch may not write. The commit comes after the second fence check, so
  it can (`FencedConsumer.StaleWorkerCanCommit`). A check that passed stays true exactly as long as no assignment of
  the shard is granted (`FenceHoldsExactlyWhen`), so an old owner commits exactly when one was granted after its second
  check (`CommitIsStaleExactlyWhen`). What it writes is harmless: `PrefixRefinement` includes stale workers.
- A matched order is not final. `MatchFinality.MatchSurvivesExactlyWhen` says, for every step of the pipeline, when the
  status, rider and score survive: order transactions read rows without a lock and overwrite them whole, so what one has
  seen decides as well as its events (`OneRecordKeepsMatchExactlyWhen` for one event). `LateMissEndsMatch` is a run in
  which the miss of an earlier request erases a later match; `OrderApplier.MatchesAreReopenedAndReplaced` shows the
  cases in which the row read was up to date.
- Loading a shard keeps the index sound exactly when none of the riders is known in another shard and the list does not
  name a rider with two objects (`ReplaceShard`). A rider that has moved away when its shard is started again breaks it
  (`IndexRuns.RestartDoesNotFit`, `RestartSpoils`); the matcher's own starts and stops never do (`HooksAlwaysFit`).
- The order store can be two events ahead of the place a restart resumes from. That happens exactly at a crash that finds
  no checkpoint saved and more than one event applied (`BoundBreaksExactlyWhen`, `DroppedFirstSaveFallsBehind`); it
  takes a stop that drops the very first save. Orders end right all the same: `RestartsEndAsOnePass` has no condition.
- Riders near an order are not always in its shard or a neighbouring one: `NearbyPositionsAreNeighbours` gives the exact
  condition, which only a last row that is not full can break (`RaggedGridsAreNotLocal`).
- Packed cell ids repeat every 2^32 cells, so a search takes distances modulo 2^32 (`SearchIsBruteForce`); the narrowest
  search visits a cell 2^32 columns away (`FarCellIsVisited`).
- A refresh leaves a desired shard unserved when its stream has closed: the entry stays without a worker, and no refresh
  that wants the shard under the same epoch starts it again (`Runner.RefreshSettles`, `ClosedStreamIsNotReopened`);
  `ClosedStreamStaysUnserved` is such a run.


## Model

| member | source | states |
|---|---|---|
| `OrderApplier.ApplyRecordInTransaction` | internal/applier/postgres.go:92-122 | The statements run for one record are the specification's one-record step: a known event id changes nothing, a new one enters the inbox, moves its order and may queue a match request, and each failure is the source's |
| `OrderApplier.ValidateRecordBatch` | internal/applier/postgres.go:124-140 | Accepts exactly the non-empty batches of identified events of the owned shard at consecutive offsets; otherwise the error names the defect of the first record that has one, and says which |
| `OrderApplier.OrderDatabase.ApplyRecordsWithFence` | internal/applier/postgres.go:38-90 | Commits if and only if the batch is in order, etcd answers both times with the worker's node and epoch and every record applies, and says which of these failed first; then the tables are the fold's, and the checkpoint is the end of the batch under the worker's epoch unless the stored one has a higher epoch; otherwise nothing changes |
| `OrderApplier.BatchFailsWithPrefix` | internal/applier/postgres.go:56-70 | A batch fails as soon as one of its prefixes fails, with the same error |
| `OrderApplier.BatchSplits` | internal/applier/postgres.go:56-70 | A batch equals any division of it into two batches, failures included |
| `OrderApplier.BatchingIsInvisible` | internal/applier/postgres.go:38-90 | Every division of a record sequence into batches ends in the tables of the one-record-at-a-time pass, or in the same error |
| `OrderApplier.RecordInbox` | internal/database/events.sql.go:178-192 | A successful record leaves its event id in the inbox under its first position |
| `OrderApplier.BatchInbox` | internal/database/events.sql.go:178-192 | After a successful batch the inbox holds, for every event id, the position where it first occurred |
| `OrderApplier.KnownRecordsChangeNothing` | internal/applier/postgres.go:92-106 | Replaying records whose event ids are in the inbox is a no-op |
| `OrderApplier.RecordOutcome` | internal/applier/postgres.go:92-197 | What a fresh record leaves: its inbox entry; no other order changed; its own order's whole row for each event type, field by field, on top of the old row or of an empty row of the event's shard, with the cases in which the state machine ignores the event; and for a created or retry event exactly one request row carrying the order's place and the retry's attempt |
| `OrderApplier.RecordFailsExactlyWhen` | internal/applier/applier.go:47-192 | Which records fail and how: no event id, a payload that does not decode, a type no order consumer handles, a retry of an unknown order, and no others; a known id never fails |
| `OrderApplier.MatchedSurvivesExactlyWhen` | internal/applier/postgres.go:92-122 | For a transaction that works from the row as it stands: a match, status, rider and score, survives a fresh event if and only if the event does not cancel, create or retry the order and does not match it to another rider or score; stale rows are `MatchFinality`'s |
| `OrderApplier.MatchesAreReopenedAndReplaced` | internal/applier/applier.go:101-173 | From empty tables: an order created and matched is match-pending again after a retry, and has another rider and score after a second match |
| `OwnershipStore.OwnershipKey.Assign` | internal/cluster/ownership/etcd_ownership.go:125-188 | The retry loop of read and compare-and-swap: every assignment, this one's and racing ones', counts exactly one epoch, success leaves this node as owner, and but for invalid ids failure means all eight attempts were overtaken |
| `OwnershipStore.EpochsRiseByOne` | internal/cluster/ownership/etcd_ownership.go:148-188 | Under any interleaving of assigners a step leaves a shard's ownership alone or replaces it under the next epoch |
| `OwnershipStore.UncontendedAssignment` | internal/cluster/ownership/etcd_ownership.go:125-188 | In every reachable state an assigner that reads and commits with nobody in between makes its node the owner under the next epoch if its ids are valid, and changes nothing else |
| `OwnershipStore.GrantedOnlyGrows` | internal/cluster/ownership/etcd_ownership.go:148-188 | The history of a shard's owners only grows, and while it does not grow the ownership is unchanged |
| `OwnershipStore.FenceWindow` | internal/applier/applier.go:76-98 | Between two moments with the same epoch the ownership was that one all along: (shard, epoch) names one node for ever |
| `OwnershipStore.EpochsNeverFall` | internal/cluster/ownership/etcd_ownership.go:148-188 | Along every run a shard's epoch never falls |
| `OwnershipStore.FenceWindowsAreDisjoint` | internal/applier/applier.go:76-98 | Fence windows of different epochs are disjoint in time, the lower epoch's first |
| `FencedConsumer.ReplayIsNoOp` | internal/applier/postgres.go:92-106 | Replaying any part of an applied prefix leaves the tables as they are |
| `FencedConsumer.BatchExtendsPrefix` | internal/applier/postgres.go:38-90 | A batch that starts inside the applied prefix, stale or not, moves the tables to the fold of the longer of the two prefixes |
| `FencedConsumer.PrefixRefinement` | internal/applier/postgres.go:38-140 | In every interleaving of fresh, restarted, crashed and stale workers, assignments and writes of the matcher there is one prefix of the shard's log, repeated ids skipped, whose inbox, existing orders and request rows the tables have, and the checkpoint lies inside it; while the matcher writes nothing the tables are its fold exactly |
| `FencedConsumer.CommittedPrefixOnlyGrows` | internal/applier/postgres.go:71-90 | Whatever a step of any run does, the tables after it are those of a prefix at least as long as before, of a log that only grew |
| `FencedConsumer.CheckpointEpochIsBounded` | internal/database/checkpoints.sql.go:40-50 | The checkpoint row never goes, its epoch never falls and never passes the ownership epoch |
| `FencedConsumer.CommitMovesCheckpoint` | internal/applier/postgres.go:71-90 | In every reachable state a worker that still passes the fence and commits leaves the checkpoint at the end of its batch under its own epoch; a batch that fails to apply changes neither tables nor checkpoint and ends the worker |
| `FencedConsumer.OwnerCatchesUp` | internal/applier/postgres.go:38-90 | From every reachable state, whatever other workers are about, a node that owns the shard starts, loads, checks twice and commits its way to the tables of the whole log, if the log's records apply at all |
| `FencedConsumer.FenceIsTheEpoch` | internal/applier/applier.go:76-98 | In every reachable state a worker passes the fence if and only if its epoch is still the shard's epoch |
| `FencedConsumer.TwoPassedChecksBoundAWindow` | internal/applier/postgres.go:45-77 | If a worker passes the fence at two moments of a run it would have passed at every moment in between |
| `FencedConsumer.FenceHoldsExactlyWhen` | internal/applier/applier.go:76-98 | A worker that passed the fence at one moment of a run would pass it at a later one if and only if no assignment of the shard was granted in between |
| `FencedConsumer.CommitFollowsTwoChecks` | internal/applier/postgres.go:45-77 | Nothing is committed unchecked: a worker about to commit has passed two fence checks, one after the other, and would have passed at every moment between them |
| `FencedConsumer.CommitIsStaleExactlyWhen` | internal/applier/postgres.go:71-86 | A worker about to commit has passed a second check, and it no longer owns the shard if and only if an assignment was granted after that check |
| `FencedConsumer.StaleWorkerCanCommit` | internal/applier/postgres.go:71-86 | For every first event of a log, a cancellation, a run commits it after the ownership has moved on: empty tables become the event's inbox entry and its cancelled order |
| `OutboxPublisher.PublishedIsInTopic` | internal/outbox/publisher.go:66-172 | With any number of publishers, crashes, expiring leases and failed appends, a row marked published has its event in its topic's partition |
| `OutboxPublisher.PublishedIsFinal` | internal/database/events.sql.go:154-169 | No step claims, resets or re-marks a published row |
| `OutboxPublisher.PublishedOnce` | internal/database/events.sql.go:154-169 | From its first publication on a row reads the same at every later moment of every run |
| `OutboxPublisher.UnpublishedBecomesClaimable` | internal/database/events.sql.go:14-30 | In every run, if no claim since a moment took an unpublished row and the clock has passed that moment by more than the lease, the row is claimable, whoever claimed it before and whatever else ran meanwhile |
| `OutboxPublisher.RunningClaimIsRespected` | internal/database/events.sql.go:14-30 | While a claim on an unpublished row runs, no step gives the row to another worker: it stays as it is until a publisher under the same worker id publishes or releases it |
| `OutboxPublisher.ClaimableRowGetsPublished` | internal/outbox/publisher.go:66-172 | Whenever a row is unpublished and under no running claim, an idle publisher that claims, appends and marks it gets it published: its event is the next of its partition and no other row or partition changes |
| `OutboxPublisher.FailedRowIsReleased` | internal/outbox/publisher.go:107-137 | A claimed row whose append fails is given back and is under no claim afterwards; no other row and no log changes |
| `OutboxPublisher.StepExtendsLogs` | internal/eventlog/eventlog.go:73-98 | Topics are append-only and publishing never changes the rows' contents |
| `PublishOnce.OutboxStore.Claim` | internal/database/events.sql.go:14-30 | The claim takes the oldest rows that are unpublished, under no running claim and locked by nobody, up to the batch size, none left out that is older, and marks exactly those with the worker and the lease's end |
| `PublishOnce.OutboxStore.MarkFailed` | internal/database/events.sql.go:113-120 | Releases one row, and only if this worker's claim is on it |
| `PublishOnce.OutboxStore.MarkPublished` | internal/outbox/publisher.go:159-172 | Publishes exactly the rows still claimed by this worker and fails if and only if some are not |
| `PublishOnce.OutboxStore.PublishTopic` | internal/outbox/publisher.go:107-137 | Batch and single appends: the ids returned are those whose append succeeded, every other row is released, and each partition is extended by exactly the events written, once each and in order |
| `PublishOnce.OutboxStore.PublishOnce` | internal/outbox/publisher.go:66-97 | An uninterrupted round claims the oldest free rows up to the batch size and leaves each published or released, others untouched; a topic whose appends succeed is extended, partition by partition, by exactly its claimed events, once each and in claim order, one with failing single appends by all but those, and one whose batch fails by those among the first few; the count is the number published |
| `PublishOnce.GroupPublished` | internal/outbox/publisher.go:99-105 | Grouping by topic loses and repeats nothing: the published rows of a topic are added to those of the topics before |
| `MatchWorker.ReserveFirst` | internal/matchworker/worker.go:150-211 | The candidate loop computes the specification's match: first reservable candidate, or a miss |
| `MatchWorker.ChosenIsReservable` | internal/database/riders.sql.go:31-38 | The chosen candidate is one of the candidates, online and below its limit |
| `MatchWorker.ChosenIsFirst` | internal/matchworker/worker.go:157-166 | Candidate order decides: everyone ahead of the chosen one could not be reserved |
| `MatchWorker.FailsExactlyWhen` | internal/matchworker/worker.go:97-125 | Which requests fail and how: an undecodable payload, a record that is no match request, a fresh request for an unknown order, and no others; the lost-pending error cannot arise once the row is locked |
| `MatchWorker.RequestOutcome` | internal/matchworker/worker.go:97-211 | What a fresh request leaves: for a pending order either the first candidate online and below the limit has one order more, the order's row names it with the score cut to 32 bits, the result event and the time, keeping place, shard, attempt and reasons, and one matched row says so; or no candidate is, the order is missed for want of a rider, keeping everything else, and one missed row says so; nothing else changes |
| `MatchWorker.MatchDatabase.ApplyRecordWithFence` | internal/matchworker/worker.go:68-148 | Commits if and only if etcd answers both times with the worker's node and epoch and the request applies; then the tables are the specification's, and the checkpoint is the record's end under the worker's epoch unless the stored one has a higher epoch; otherwise nothing changes |
| `Pipeline.SuffixesAreExclusive` | internal/matchworker/worker.go:236-246 | The three fixed id suffixes keep request, matched and missed ids apart |
| `Pipeline.ExactlyOneRequest` | internal/applier/postgres.go:146-197 | Over every run of publishers, order and matcher transactions, created and retry events in the inbox and request rows correspond one to one, and each request's order exists |
| `Pipeline.MatcherNeverFails` | internal/matchworker/worker.go:97-125 | However often requests are appended again, the matcher's not-found and no-longer-pending errors are unreachable for requests the pipeline queued |
| `Pipeline.AtMostOneResult` | internal/matchworker/worker.go:150-211 | A request has at most one result row, matched or missed, and only after it was processed |
| `Pipeline.ExactlyOneResult` | internal/matchworker/worker.go:97-211 | From the transaction that processes a request on, at every later moment of every run, it has exactly one result row if it found its order pending and none otherwise |
| `Pipeline.CapacityIsConserved` | internal/database/riders.sql.go:31-38 | A rider's count is its loaded count plus the matched rows naming it, and never passes the maximum if it started within it |
| `Pipeline.ReservationsNeedEvents` | internal/matchworker/worker.go:150-211 | Reservations for an order never outnumber the distinct created and retry events applied for it |
| `MatchFinality.BatchLeavesMatch` | internal/applier/postgres.go:92-122 | A batch leaves the match that its last new event about the order other than a miss makes, or else the match it found |
| `MatchFinality.MatchSurvivesExactlyWhen` | internal/database/orders.sql.go:166-189 | A match survives a step of the pipeline if and only if the step is not an order transaction that commits, writes the order's row, and either last decides otherwise or decides nothing and did not see the match |
| `MatchFinality.OneRecordKeepsMatchExactlyWhen` | internal/database/orders.sql.go:166-189 | For a transaction over one new event: the match is kept if and only if its row is not written, the event is this very match, or the transaction saw the match and the event does not cancel, create, retry or match the order |
| `MatchFinality.LateMissEndsMatch` | internal/applier/applier.go:159-192 | A run from empty tables in which the miss of an order's first request, applied from a row read while the order was pending, overwrites the match of its second request |
| `EventLog.ReadBackWhatWasAppended` | internal/eventlog/eventlog.go:73-129 | Reading a shard from its old end yields exactly the batch's events of that shard, in order, at consecutive offsets |
| `EventLog.AppendKeepsPositions` | internal/eventlog/eventlog.go:87-94 | Every stored record's position is where it stands |
| `EventLog.MemoryEventLog.AppendBatch` | internal/eventlog/eventlog.go:73-98 | Fails if and only if some event names an unknown shard, having appended exactly the events before it; on success each returned position holds its event |
| `EventLog.MemoryEventLog.ReadFrom` | internal/eventlog/eventlog.go:100-129 | Returns the suffix from the offset, an error exactly for an unknown shard or an offset past the end |
| `Decimal.AtoiInvertsItoa` | internal/cluster/rebalance/rebalance.go:162-167 | Node ids, negative ones included, survive the trip through their decimal text |
| `Decimal.ItoaIsPlain` | internal/tools/consistenthash.go:30-39 | Numbers that are not negative are written in digits alone, without a leading zero |
| `HashRing.ConsistentHash.Add` | internal/tools/consistenthash.go:30-39 | After adding keys the sorted ring holds exactly the points of the old ring and the keys' replicas, a colliding point going to the key added last |
| `HashRing.ConsistentHash.Get` | internal/tools/consistenthash.go:54-63 | The owner of the first point at or after the key's hash, wrapping around; empty for an empty ring |
| `HashRing.SuccessorIsUnique` | internal/tools/consistenthash.go:54-63 | A ring has one successor for each hash |
| `HashRing.SuccessorInSubset` | internal/tools/consistenthash.go:54-63 | Removing other points does not change a hash's successor |
| `HashRing.RingPoints` | internal/cluster/rebalance/rebalance.go:139-167 | The ring has exactly the points of its nodes' replicas 0 to 31, each belonging to the last node in the list that has it |
| `HashRing.TargetIsANode` | internal/cluster/rebalance/rebalance.go:139-167 | The ring's answer is one of the nodes |
| `HashRing.RingWithout` | internal/tools/consistenthash.go:30-39 | Dropping a node from the list changes only ring points it owned |
| `HashRing.MinimalMovement` | internal/cluster/rebalance/rebalance.go:139-167 | For every hash function, collisions included, dropping a node changes a shard's target if and only if that node was the target; read backwards, adding one moves shards only to it |
| `HashRing.TargetNodeID` | internal/cluster/rebalance/rebalance.go:139-167 | Succeeds exactly on a non-empty list of distinct positive nodes and a non-negative shard, with the ring's answer |
| `HashRing.ChooseFailoverTarget` | internal/cluster/failover/failover.go:129-145 | Succeeds exactly on a non-empty list, whatever its numbers, with the same ring's answer |
| `Controller.RemoveNodeID` | internal/cluster/failover/failover.go:119-127 | Drops one node and keeps the order of the rest |
| `Controller.Store.Assign` | internal/cluster/ownership/etcd_ownership.go:125-146 | Uncontended, an assignment replaces one entry under the next epoch or rejects its ids |
| `Controller.EnsureInitialOwnership` | internal/controllerapp/app.go:308-350 | Exactly the missing shards of the range get their ring target at epoch one |
| `Controller.FailoverDeadNode` | internal/cluster/failover/failover.go:26-65 | Moves exactly the node's shards, each to its target on the ring of the other live nodes and one epoch up; an error changes nothing |
| `Controller.FailoverMissingOwners` | internal/cluster/failover/failover.go:67-117 | Moves exactly the shards whose owner is not alive; with nobody alive it fails if and only if anything is owned |
| `Controller.Plan` | internal/cluster/rebalance/rebalance.go:121-134 | Finds the lowest misplaced shard, or none if and only if none is misplaced; with rows to look at it fails exactly when no ring can be built from the node list, and without rows never |
| `Controller.ValidateMove` | internal/cluster/rebalance/rebalance.go:170-210 | Accepts exactly moves between two different live nodes from the shard's current owner |
| `Controller.RebalanceOnce` | internal/cluster/rebalance/rebalance.go:64-118 | Moves the lowest misplaced shard to its target and nothing else; refuses if and only if that shard's owner is not alive |
| `Controller.Sweep` | internal/controllerapp/app.go:218-253 | The three stages in order compute one sweep of the specification, and fail exactly when the shard count is not positive or dead owners have nobody to take over |
| `Controller.SweepProgress` | internal/controllerapp/app.go:218-253 | One sweep leaves every row untouched or final and takes exactly one shard off the waiting list |
| `Controller.SweepsProgress` | internal/controllerapp/app.go:218-253 | After any number of sweeps each shard has been reassigned at most once and misplaced shards with live owners have fallen by exactly one per sweep |
| `Controller.SweepsConverge` | internal/controllerapp/app.go:218-253 | From any table, with the live nodes fixed, the sweeps reach the final table, which is settled, after as many sweeps as shards are waiting (at least one), no sooner, and never leave it |
| `Controller.SettledIsFixed` | internal/controllerapp/app.go:218-253 | A settled table is a fixpoint: later sweeps change no owner and no epoch |
| `Controller.FailoverSettles` | internal/cluster/failover/failover.go:67-117 | When nothing is waiting, failover alone settles the table |
| `Controller.NodeLossMovesOnlyItsShards` | internal/cluster/failover/failover.go:67-117 | From a settled table, losing a node moves exactly its shards in one sweep and leaves rebalancing nothing to do |
| `Controller.NodeJoinMovesOnlyToIt` | internal/controllerapp/app.go:218-253 | From a settled table, a joining node is given exactly the shards whose ring target it is, one per sweep and one epoch up each, nothing else moves, and the table is settled when all have moved |
| `ShardLayout.NewLayoutIsValid` | internal/shard/layout.go:25-63 | Every construction, defaults included, gives positive dimensions whose rows and columns just cover the shard count |
| `ShardLayout.NewLayoutJustCovers` | internal/shard/layout.go:36-51 | Columns are the ceiling square root of the shard count, and rows, cells, shard widths and shard heights are the least that cover what they divide |
| `ShardLayout.QuotientBounds` | internal/shard/layout.go:66-71 | Division truncates toward zero on both sides |
| `ShardLayout.ShardOfPosition` | internal/shard/layout.go:66-78 | Shards are the rectangles of a grid numbered along its rows: a position belongs to the one it lies in, to the last shard if the last row does not have that one, and outside the area to the shard of the nearest position inside |
| `ShardLayout.ShardSpansPosition` | internal/shard/layout.go:66-78 | Inside the area the row of a position's shard spans the position, and so does its column, unless the shard is the last one and the position lies beyond it in a short last row |
| `ShardLayout.NeighborShardIDs` | internal/shard/layout.go:81-106 | The double loop lists exactly the existing shards at most one column and one row away, none twice; nothing for an unknown shard |
| `ShardLayout.NeighboursAreReflexiveAndSymmetric` | internal/shard/layout.go:81-106 | Every shard is its own neighbour and being neighbours is mutual, for every shard count |
| `ShardLayout.NearbyPositionsAreNeighbours` | internal/shard/layout.go:66-106 | Positions whose cells are within one shard's width and height lie in the same or neighbouring shards if and only if it is not so that one of them is clamped to the last shard and the other one is in a column more than one beyond that shard's |
| `ShardLayout.CoordinatesOfShard` | internal/shard/layout.go:66-78 | The shard of a position is in the position's row, and in its column unless the last row does not have that column: then in the last shard's |
| `ShardLayout.FullGridsAreLocal` | internal/shard/layout.go:66-78 | With a full last row no position is clamped to the last shard, so nearby positions are always neighbours |
| `ShardLayout.RaggedGridsAreNotLocal` | internal/shard/layout.go:66-78 | Of seven shards in three columns, two vertically adjacent cells lie in shards 6 and 5, which are not neighbours |
| `Grid.PackedIdsCollideExactlyWhen` | internal/matcher/grid.go:165-167 | Two cells share a packed id if and only if both coordinates agree in their low 32 bits |
| `Grid.PackedIdsAreInjective` | internal/matcher/grid.go:165-167 | Packed ids are injective on 32-bit signed cell coordinates |
| `Grid.SearchVisitsTheRing` | internal/matcher/grid.go:61-71 | The nested loops visit exactly the offsets of the ring, each once |
| `Grid.SearchCellsAreDistinct` | internal/matcher/grid.go:61-71 | No packed cell is visited twice by a search narrower than the packed ids |
| `Grid.SearchIsBruteForce` | internal/matcher/grid.go:49-74 | A cell is visited if and only if its Chebyshev distance, on each axis modulo 2^32, is more than the inner and at most the outer radius; for cells less than 2^31 apart that is the plain distance |
| `Grid.FarCellIsVisited` | internal/matcher/grid.go:165-167 | The narrowest search around a cell visits the cell 2^32 columns away |
| `Grid.RingsPartitionRadiusEight` | internal/matching/index.go:115-122 | The rings (-1,1], (1,3] and (3,8] are disjoint and together are radius 8 |
| `Grid.GridIndex.AddRider` | internal/matcher/grid.go:76-94 | Files a new rider, or moves a known one's own object out of the cell it was filed under, even when its fields were already overwritten |
| `Grid.GridIndex.MoveRider` | internal/matcher/grid.go:96-118 | A known rider ends at the new position in that position's cell; an unknown one changes nothing |
| `Grid.GridIndex.DeleteRider` | internal/matcher/grid.go:133-145 | The rider leaves grid and cell, nobody else does |
| `Grid.GridIndex.CellCandidates` | internal/matcher/grid.go:177-189 | Whatever order the cell's map is gone through in, the result lists exactly the cell's riders, once each |
| `Grid.GridIndex.FindNearbyCandidatesInRange` | internal/matcher/grid.go:49-74 | Lists exactly the riders in the visited cells, with their current fields, each once |
| `TopK.BestIsUnique` | internal/matching/index.go:222-247 | There is one best-limit selection by (score, rider id) from a set of scored riders |
| `TopK.SortRanked` | internal/matching/index.go:237-242 | Sorting yields the strictly ranked listing of the same candidates |
| `TopK.FirstAreBest` | internal/matching/index.go:243-246 | The first entries of a ranked listing are the best |
| `Stages.GroupsPartitionTheShards` | internal/matching/index.go:152-175 | Home, neighbours and others cover every shard exactly once |
| `Stages.NeighbourGroup` | internal/matching/index.go:152-161 | Lists exactly the home shard's other neighbours, once each |
| `Stages.OtherGroup` | internal/matching/index.go:163-175 | Lists exactly the shards that are neither home nor neighbours, once each |
| `Stages.BestCandidates` | internal/matching/index.go:222-247 | Scoring, sorting and cutting returns the best of the stage's riders by (score, rider id), each scored by its whole units of distance plus its weighted load |
| `Stages.AnswerIsUnique` | internal/matching/index.go:105-125 | A search has one answer, so it does not depend on map iteration order |
| `CandidateIndex.Index.constructor` | internal/matching/index.go:30-47 | A new index is sound and empty, with no active shard, for every shard count, cell size and area |
| `CandidateIndex.Index.ReplaceShard` | internal/matching/index.go:53-73 | Loading a shard replaces its rows in the plain table by the loaded riders; the index stays sound if and only if none of them is known in another shard and no rider id comes with a first and a last object that differ; without repeated ids the riders stay where they are |
| `CandidateIndex.DistinctLoads` | internal/matching/index.go:53-73 | A list without repeated rider ids meets the second condition |
| `CandidateIndex.Index.RemoveShard` | internal/matching/index.go:75-89 | Giving up a shard removes exactly its rows and stops searches there |
| `CandidateIndex.Index.ApplyOnline` | internal/matching/index.go:177-191 | The rider is in exactly the grid and cell of its new position, as the same object, keeping its count; nobody else changes |
| `CandidateIndex.Index.ApplyMove` | internal/matching/index.go:193-209 | The same for a known rider's move, within its shard or across; an unknown rider is ignored |
| `CandidateIndex.Index.ApplyOffline` | internal/matching/index.go:211-220 | The rider leaves the index, its grid and its cell |
| `CandidateIndex.Index.ApplyRiderEvent` | internal/matching/index.go:91-103 | Every event keeps the index sound and does to it what it does to a plain rider table |
| `CandidateIndex.Index.SetRiderCount` | internal/matching/index.go:127-134 | Writes one shared count, seen by the grid, and nothing else |
| `CandidateIndex.Index.Collect` | internal/matching/index.go:136-150 | Lists exactly the riders of the active listed shards in the ring's cells, once each |
| `CandidateIndex.Index.FindCandidates` | internal/matching/index.go:105-125 | Of the riders of the plain table that have the first turn, home shard before neighbours before others and in each within one, three, eight cells, lists the cheapest up to the limit, cheapest first and then by id: the cost is the distance divided by the cell size plus the weighted order count; a rider left out comes after all that are listed |
| `CandidateIndex.AnswerListsCheapest` | internal/matching/index.go:105-125 | The nine stages' answer is that listing for every query and table |
| `CandidateIndex.NearerAndLessLoadedWin` | internal/matching/index.go:222-247 | A rider with the first turn that is left out although it is as near as a listed one and no more loaded has exactly the same score and a greater id |
| `CandidateIndex.GridAgrees` | internal/matching/index.go:136-150 | A shard's grid and the plain table say the same about the shard's riders |
| `CandidateIndex.StageIsBruteForce` | internal/matching/index.go:105-125 | A stage holds exactly the riders a scan of the plain table by group, activity and Chebyshev cell distance (modulo 2^32) picks |
| `CandidateIndex.EmptyExactlyWhen` | internal/matching/index.go:105-125 | A search comes back empty if and only if no rider of an active shard is within eight cells, in whatever shard |
| `IndexRuns.Perform` | internal/matching/index.go:53-134 | A call on the index, event, load, removal or count, leaves it sound if and only if it is no load that repeats a rider or names one known in another shard, and then does what it does to the plain table |
| `IndexRuns.Run` | internal/matching/index.go:53-134 | After any sequence of fitting calls on a new index each known rider is in exactly one grid and cell, as the same object, the plain table is the one the calls make of an empty table, and the active shards are those loaded and not given up since |
| `IndexRuns.OneEachIsDistinct` | internal/matching/index.go:66-71 | A list of different objects names no rider with two of them if and only if no rider id repeats |
| `IndexRuns.HooksAlwaysFit` | cmd/matcher-worker/main.go:96-133 | The matcher's shard starts, which load the generated riders living there, and its stops and counts fit in every order, so its index is always sound |
| `IndexRuns.RestartDoesNotFit` | cmd/matcher-worker/main.go:96-113 | A rider loaded with its shard moves to another one; starting the first shard again no longer fits |
| `IndexRuns.RestartSpoils` | internal/matching/index.go:53-73 | Performing those calls leaves an index that is not sound |
| `Batches.CollectRecordBatch` | internal/node/runner.go:294-328 | A batch is what was delivered since the last one, in order, one to batchSize records; the first tick that can end a collection does, a fired timer with something held or a closed channel among them, and a batch that is not full ends at one of those two |
| `Batches.RunBatchedShard` | internal/node/runner.go:272-292 | The committed batches concatenate to a prefix of the stream, nothing lost or repeated, the tables are those of one pass over it, and the loop ends only when no batch comes next or the next one cannot be committed: without an error for a closed stream, with the context's for a cancelled one, with an error for the batch |
| `Runner.HooksBalance` | internal/node/runner.go:381-459 | Whenever a shard is not in the middle of a start or stop and no exit of its worker is pending, in any run, failed refreshes and shutdowns included, start hooks minus stop hooks is one if it is active and zero if not |
| `Runner.RefreshSettles` | internal/node/runner.go:416-459 | After a successful refresh every entry's (shard, epoch) is desired, and every desired shard has a running worker unless its stream has closed or its worker lost the fence and left since the refresh began |
| `Runner.RefreshGetsThrough` | internal/node/runner.go:416-459 | From every reachable state at rest a refresh whose hooks and streams succeed and that nothing interrupts gets through, whatever runs and whatever is desired, and leaves exactly the desired entries |
| `Runner.FailedStartEndsRefresh` | internal/node/runner.go:172-232 | A refresh whose start hook or stream fails leaves the shard not started and its hooks as they were, and the node goes down |
| `Runner.ShutdownGetsThrough` | internal/node/runner.go:126-130 | From every reachable state at rest a shutdown that nothing interrupts gets through and leaves no entry |
| `Runner.ClosedStreamIsNotReopened` | internal/node/runner.go:215-230 | A shard whose stream has closed keeps its entry and is not served again until a refresh stops it, because the node goes down or does not want the shard under that epoch |
| `Runner.ClosedStreamStaysUnserved` | internal/node/runner.go:215-230 | A run in which a shard starts, its stream closes, and a later refresh that wants the shard succeeds without serving it |
| `Runner.OnlyItsOwnExitEvicts` | internal/node/runner.go:381-395 | A worker leaves only by its own exit, by a refresh that does not want it, or by shutdown; an older epoch's exit never evicts a newer worker |
| `Runner.LostWorkerLeaves` | internal/node/runner.go:381-395 | In every reachable state a running worker that finds its fence lost takes its own entry and hook with it, whatever the refresh is doing, and an exit under another epoch does nothing |
| `Runner.Node.RemoveActiveShard` | internal/node/runner.go:381-395 | Removes the entry if and only if it has the exiting worker's epoch |
| `Runner.Node.StopShard` | internal/node/runner.go:397-414 | Runs the stop hook exactly when there was a worker to remove |
| `Runner.Node.StartShard` | internal/node/runner.go:172-232 | A start that fails halfway leaves the hooks balanced and no worker |
| `Runner.Node.RefreshOnce` | internal/node/runner.go:416-459 | Undisturbed, a refresh succeeds if and only if every owned shard runs under its epoch already or can be started, and then leaves exactly the desired workers; a failed one has stopped no worker that ran as desired or is not desired at all and started none that is not desired; hooks change as membership does either way |
| `Replay.ApplyIsIdempotent` | internal/applier/applier.go:47-192 | Applying an event again right away changes nothing |
| `Replay.EventFailsExactlyWhen` | internal/applier/applier.go:47-192 | Which events fail and how: an undecodable payload, a type no order consumer handles, a retry of an unknown order, and no others |
| `Replay.GoingBackTwoCanDiffer` | internal/applier/applier.go:101-157 | After a log of four events, replaying its last two ends elsewhere, so idempotence alone would not carry a larger gap |
| `Replay.LingeringWorkerCanSpoil` | internal/node/runner.go:397-442 | After one pass over that log, an old worker still applying its third event changes the orders: why a stop must have finished before the next start |
| `Replay.PrefixEndsAtTheCheckpointOrOneAfter` | internal/node/runner.go:241-270 | For any stops, crashes and restarts, as long as no crash finds more than one event applied and no checkpoint saved: the store is one pass over a prefix of the log that ends at the checkpoint or one event after it |
| `Replay.RestartsEndAsOnePass` | internal/node/runner.go:241-270 | For any stops, crashes and restarts at any moments, with the checkpoint kept, behind or never saved, a worker that gets through the log leaves the orders of one uninterrupted pass |
| `Replay.EveryMomentRecovers` | internal/node/runner.go:241-270 | At every moment of every run, applying the events the pass in progress has not reached to what the store holds ends in the orders of one pass over everything ever applied |
| `Replay.RestartGetsThrough` | internal/node/runner.go:241-270 | From every reachable state a worker that is started and left alone gets through the log, if its events apply at all: the checkpoint ends at the log's end and the orders are those of one pass |
| `OneOrder.StepRecovers` | internal/applier/applier.go:101-192 | One event of a repeated pass keeps an order's row recoverable: what no later event of the pass will write is already right |
| `Replay.BoundBreaksExactlyWhen` | internal/node/runner.go:136-170 | While it has never been broken the store is at the place a restart resumes from or one event after it, and the next step breaks this if and only if it is a crash that finds no checkpoint saved and more than one event applied |
| `Replay.CrashesKeepTheBound` | internal/node/runner.go:241-270 | Any crashes and restarts, without stops, leave the store one pass over a prefix of the log that ends at the checkpoint or one event after it |
| `Replay.DroppedFirstSaveFallsBehind` | internal/node/runner.go:136-170 | Dropping the very first save, restarting in the same process and crashing leaves the store two events ahead, on every log whose first two events apply |
| `EtcdCheckpoint.CheckpointOnlyMovesForward` | internal/checkpoint/etcd.go:85-138 | For any number of racing savers the stored offset and epoch never fall along a run |
| `EtcdCheckpoint.SavedIsNeverLost` | internal/checkpoint/etcd.go:85-125 | After a save that reports success the stored checkpoint is never behind what it saved |
| `EtcdCheckpoint.CommitsExactlyWhenUnwritten` | internal/checkpoint/etcd.go:94-125 | The compare succeeds if and only if the key is exactly what the saver read |
| `EtcdCheckpoint.UndisturbedSave` | internal/checkpoint/etcd.go:85-138 | In every reachable state an undisturbed save stores its checkpoint if and only if it is well formed and neither its offset nor its epoch is below the stored ones, and changes nothing otherwise |
| `EtcdCheckpoint.EtcdKey.SaveShardCheckpoint` | internal/checkpoint/etcd.go:36-56 | The retry loop under arbitrary interference: never back, stored on success, stale only if behind, refused exactly when malformed, out of retries exactly when all eight attempts were raced, and, undisturbed, saved if and only if neither offset nor epoch is below the stored ones |
| `Election.EtcdElection.TryAcquire` | internal/cluster/election/etcd_election.go:51-88 | Leads afterwards if and only if it led before or all three calls succeeded, and hands back every lease it does not keep |
| `Election.EtcdElection.Resign` | internal/cluster/election/etcd_election.go:97-117 | Clears the term and revokes its lease if there was one |
| `Election.EtcdElection.LoseLeader` | internal/cluster/election/etcd_election.go:172-182 | Clears the term only if the lease is the current one |
| `Election.SingleLiveLeader` | internal/cluster/election/etcd_election.go:51-182 | In every run at most one controller both believes it leads and holds a live lease, and the key names it |
| `Election.AcquiresExactlyWhenFree` | internal/cluster/election/etcd_election.go:51-88 | In every reachable state a controller that goes through an acquisition leads under a new live lease named by the key if the key was free, and is left as it was if not |
| `Election.EveryLeaderIsWatched` | internal/cluster/election/etcd_election.go:155-182 | Whoever believes it leads has a pending watcher whose firing ends that belief |
| `Election.TermsHaveTheirOwnLeases` | internal/cluster/election/etcd_election.go:51-88 | A new term's lease was no earlier term's |
| `Election.LateWatcherIsHarmless` | internal/cluster/election/etcd_election.go:155-182 | The watcher of an earlier term changes nobody while a newer term lasts |

## Left out

- Kafka, etcd and PostgreSQL clients, connections, timeouts and contexts: only the meaning of their steps is kept. etcd is
  taken as linearizable and a topic partition as append-only.
- JSON encoding of events and payloads: payloads are typed values, with one value for a payload that does not decode.
- The file event log, the file order store and the other in-memory stores.
- Metrics, command-line programs, scripts, random producers and the automatic cell size.
- CandidateIndex.Index.FindCandidates: asks for a cell size other than zero, with which the source panics as soon as it has
  somebody to score. Negative sizes are modelled: the grids fall back to one and scores divide by the negative number.
- `ConsistentHash.Remove`: the controllers rebuild the ring each time.
- `GridIndex.RemoveRider`, `OnlineCount`, `Matcher.BestNearbyRiderInRange` and `BetterRider`: unused by the index. Every
  rider in a modelled grid is therefore online.
- Floating point: distances are integer absolute values and the ceiling square root of the shard count is an integer
  search. 64-bit overflow of scores, offsets, epochs and coordinates is not modelled.
- `Pipeline` treats each database transaction as one step, except that the order transaction may work from order rows read
  earlier; its workers are not fenced, which allows more runs than the source does. It keeps no rider reloads: counts are
  conserved between loads, as a shard start overwrites them.
- `OutboxPublisher` lets the claim statement take any claimable rows, which allows more runs than the source does; the
  statement's own choice, oldest first up to the batch size among rows nobody has locked, is `PublishOnce`'s `Claim`.
  The columns for last error, aggregate and message key are not kept.
- PublishOnce.OutboxStore.Claim: does not count attempts; no statement reads that column.
- `FencedConsumer` speaks of one shard and assumes that shards share no rows it reads. The tables do not enforce that: the
  inbox is keyed by consumer and event id and orders by order id, so it takes event ids and the events of one order to
  stay within one shard. `Pipeline` does not assume it. The matcher's writes are a step of it that may
  rewrite the order rows in any way and add result rows; what the matcher really writes is `MatchWorker`.
- `Controller` takes the membership list as sorted and without repetition, as the membership stores return it, and its
  store as uncontended; contention is `OwnershipStore`.
- The matcher's write of a reserved rider's count into the index after a commit is `Index.SetRiderCount`; it is not tied to
  the transaction that reserved the rider.
- `Runner` does not order a stopping worker's hook against the hook of a worker that replaces it: the source does not either.
- Progress under real clocks and under interference: what is proved is safety, convergence of the controller by a measure,
  and that each protocol gets through from every reachable state when it is left alone.
- `Replay` takes a stop to finish before the next start of the shard. In `internal/node/runner.go`, lines 397-414 only
  cancel the old worker and lines 437-442 start the next one without waiting for it, so for a moment two of them can be
  applying events of the shard; `LingeringWorkerCanSpoil` shows what that can do. The transactional workers, where it is
  harmless, are `FencedConsumer`.
- Replay.PrefixEndsAtTheCheckpointOrOneAfter: is stated for runs in which no crash finds more than one event applied and
  no checkpoint saved; by `BoundBreaksExactlyWhen` it is false right after such a crash.
- Grid.SearchIsBruteForce: radii below 2^31 only; the index searches up to radius eight.
- Batches.RunBatchedShard: batch sizes of at least one; a node takes no other.
