# A verified model of influxdb-cluster

This project models the parts of influxdb-cluster that keep data in order: the
hinted-handoff queue on disk and the node processor that empties it, the cluster
metadata with its nodes, shard groups and shards, the routing of points and the
lookup of shards, the replication of metadata to clients with its
authentication cache, and the bounded connection pool.  `dafny verify
dfyconfig.toml` checks all of it.

## How it is built

**Hinted handoff.**  Three layers.  `Segment.dfy` and `Queue.dfy` are the objects
of `hh/queue.go`, down to the bytes of the files and the offset of the file
handle.  Their methods are proved to compute functions on values
(`QueueModel.dfy`): segments with blocks and a head position.  The lemmas in
`QueueProofs.dfy`, `QueuePurge.dfy` and `QueueReopen.dfy` say what these
functions do to one abstract queue of unread blocks.  `Handoff.dfy` puts the
node processor on top as a state machine in which writers run between any two
steps of the sender; `NodeProcessor.dfy` has the methods that take those steps,
and `Stalls.dfy` says when the sender is told that there is no data although
there is.

**Metadata.**  `ClusterSpec.dfy` states each command as a relation between the
metadata before and after; sorting is the only source of choice.
`ClusterData.dfy` is the object with the loops of `meta/data.go`, proved to obey
the relations.  `NodeProofs`, `GroupProofs`, `ShardProofs`, `OwnerProofs`,
`DeleteProofs`, `ReplicaProofs` and `Routing` prove what whole runs of commands
keep.  `ShardRequests.dfy` and `PointsWriter.dfy` are the write path, with
commands of other clients between its requests and a client whose own copy of
the metadata lags behind, and `Queries.dfy` is the read path; they are joined in
`WriteThenRead`.

**Replication, authentication, pool.**  State machines over the lock-protected
steps, with runs of any length and any interleaving.

Conventions: no I/O error occurs.  Clocks, random salts, hash functions and the
answers of remote nodes are parameters.  Times are integers in nanoseconds, and
additions of 64-bit sizes are taken as exact.  Functions of libraries that are
not part of the repository are given plain definitions: a group contains `t`
when `start <= t < end`, it overlaps a range when `start <= max && end > min`,
and the shard for a hash is the one at `hash % len` (README.md:49).

## What the code does not do

Each point is proved as an exact condition or an exact bound, most with a
concrete run.

- An empty block at the head of a segment makes the next append cache a wrong
  length (`AppendCachesIff`, `EmptyBlockMisleads`), and the next advance does not
  land behind the head block (`Segment.MoveHead`).  Marshalled writes have at least 8
  bytes, so the node processor never gets there.
- A block that passes the test for space, reaches a live tail and is too large
  for a fresh segment is refused, but leaves an empty segment behind
  (`AppendGapIff`, `OversizedLeavesGap`).
- A full segment that is drained while it is the only one is not trimmed.  The
  next write opens a second segment, the reader is told EOF although data is
  waiting, and the sender never advances again (`StallReachable`,
  `StalledForever`).  A drained segment behind the head has the same effect once
  the sender gets to it (`GapStallReachable`).  `StallsIff` says for every step
  when the queue is stalled after it; in runs whose writes fit a segment and
  whose stalled queues are reopened only at one width of ids, the first way is
  the only one (`NoGapInRuns`, `StallsInRunsIff`).  Only a reopening, or a purge
  that drops the drained segments, can end a stall.
- Segment files are loaded in the order of their names, so a queue whose ids
  change width is read in the wrong order after a restart (`FoundInOrderIff`,
  `NineAndTenSwap`), and the drained head of a stalled queue can end up behind
  data (`ReopenGapIff`, `StalledReopenLeavesGap`).
- A purge of every segment leaves the tail on a removed segment.  From then on
  writes are answered with success and not stored (`PurgeRefines`,
  `StaleRunLoses`, `PurgeThenWriteIsLost`).
- A purge whose cutoff lies in the future makes and removes segments until the
  clock reaches the cutoff, and does not end if it never does (`PurgeEndsIff`,
  `PurgeEndsInTime`, `FutureCutoff`).
- The points of a stored write are told apart by newlines only, so a point whose
  text contains one is read back as several (`LinesRoundTripIff`).
- A long poll can miss a restore of the store, which is not signalled
  (`ServerStepIff`, `RestoreLosesWakeUp`).
- The pool's counter can exceed the capacity by one less than the number of
  threads, and does for every capacity (`Accounting`, `BoundReached`); one thread
  that marks nothing unusable never makes more (`AloneMakesAtMostCap`).
- `DeleteDataNode` leaves shard owners alone, whatever its comment says
  (meta/data.go:285-289), so shards can list a data node that does not exist
  (`DeleteDataNodeIff`, `StepOwnersIff`, `DeletedNodeStillOwns`); it is
  `DeleteMetaNode` that takes a node's shards away.
- A write crashes when a group it asked for is missing.  For a client that is
  alone, with an up-to-date copy at the start, this happens if and only if there
  are no data nodes and some point has no live group yet (`MapShards`,
  `CrashIff`, `WriteToBlank`).  With data nodes it
  happens when another client deletes the group between its creation and the
  second look (`DeletedMeanwhile`, `WriteWhileDeleting`).

## Model

| member | source | states |
|---|---|---|
| BigEndian.Uint64RoundTrip | hh/queue.go:674-686 | writing a 64-bit number and reading it back is the identity, in both directions |
| BigEndian.MostSignificantFirst | hh/queue.go:674-686 | the first byte that differs decides which number is larger |
| SegmentFormat.ParseEncode | hh/queue.go:388-406 | an independent reader recovers exactly the blocks that were written |
| SegmentFormat.EncodeParse | hh/queue.go:388-406 | whatever the reader accepts is the encoding of what it returns |
| SegmentFormat.ImageUnique | hh/queue.go:388-406 | the bytes of a segment file determine its blocks and its head position |
| Segments.Segment.constructor | hh/queue.go:419-487 | opening a new or an existing file yields fields that agree with its bytes, and the length of the head block |
| Segments.Segment.Create | hh/queue.go:443-459 | a new file becomes a segment without blocks whose footer is 0 |
| Segments.Segment.Load | hh/queue.go:461-486 | head position and head length are recovered from the bytes alone |
| Segments.Segment.WriteBlock | hh/queue.go:502-520 | three writes over the old footer leave the encoding of one more block and the same head |
| Segments.Segment.Append | hh/queue.go:490-529 | the block goes behind the others and bytes and fields keep agreeing; the cached length stays right exactly when the block was not put behind an unread empty block; closed and full segments are left alone |
| Segments.Segment.Current | hh/queue.go:532-561 | the block at the head; EOF exactly when all blocks were read; refreshes the cached length |
| Segments.Segment.Advance | hh/queue.go:564-608 | with the right length cached, the head moves past exactly one block, or not at all at the end, and the footer with it, and EOF is answered exactly when none is left; with a wrong one, the offset written, what is read there and the error that follows |
| Segments.Segment.MoveHead | hh/queue.go:578-590 | rewriting the footer alone moves the head, past exactly one block if and only if the right length is cached |
| Queues.Queue.constructor | hh/queue.go:85-92 | a closed queue on a directory with any segment files or none, with the default segment size |
| Queues.Queue.DiskUsage | hh/queue.go:237-243 | the cached sizes add up to the bytes on disk |
| Queues.Queue.NextSegmentID | hh/queue.go:293-318 | one more than the largest id in the directory |
| Queues.Queue.AddSegment | hh/queue.go:246-259 | an empty segment with a fresh id behind the others; nothing else changes |
| Queues.Queue.Append | hh/queue.go:321-344 | the object computes the model's Append in every case, errors included, and stays consistent with its files |
| Queues.Queue.TailAppend | hh/queue.go:335-343 | the tail takes the block, refuses it when full, or ignores it when it is a removed segment |
| Queues.Queue.Current | hh/queue.go:347-353 | the object computes the model's Current |
| Queues.Queue.Advance | hh/queue.go:356-371 | the object computes the model's Advance |
| Queues.Queue.TrimHead | hh/queue.go:373-386 | the head segment and its file go, unless it is the only one |
| Queues.Queue.Close | hh/queue.go:127-140 | all handles are given up and every file keeps its contents |
| Queues.Queue.ReadDir | hh/queue.go:262-268 | the ids of the directory, in the order of their names |
| Queues.Queue.LoadSegments | hh/queue.go:262-290 | a segment for every file, in listing order, showing what the file holds |
| Queues.Queue.Open | hh/queue.go:95-124 | the object computes the model's Open from the files alone |
| Queues.Queue.PurgeOlderThan | hh/queue.go:177-209 | with a clock that is read in every pass, the loop ends whenever PurgeEndsIff says so, and computes the model's Purge as of its last pass |
| QueueProofs.AppendRefines | hh/queue.go:321-344 | which of the three outcomes Append has; the abstract queue grows by exactly the block when it is stored and not otherwise |
| QueueProofs.AppendUsage | hh/queue.go:329-342 | what an Append costs on disk: 8 bytes beyond the block, 8 more for a new segment, which is opened exactly when there is space and the live tail has no room for the block |
| QueueProofs.AppendKeepsInv | hh/queue.go:321-344 | every append of a non-empty block, accepted or not, keeps shape, disk bounds and cached lengths |
| QueueProofs.AppendCachesIff | hh/queue.go:522-524 | the cached lengths stay right if and only if no block is put behind an unread empty block |
| QueueProofs.EmptyBlockMisleads | hh/queue.go:522-524 | two appends to a fresh queue after which the cached length is wrong |
| QueueProofs.AppendGapIff | hh/queue.go:329-342 | an empty segment is left behind the head if and only if there is space, the tail is live and the block is too large for any segment |
| QueueProofs.OversizedLeavesGap | hh/queue.go:335-342 | a concrete refused write that leaves a second empty segment |
| QueueProofs.CurrentRefines | hh/queue.go:347-353 | the first block of the abstract queue, or EOF exactly when the head segment is drained; EOF means empty exactly when not stalled; the record-size error cannot occur |
| QueueProofs.AdvanceRefines | hh/queue.go:356-386 | removes exactly the first block, or nothing when the head is drained; all invariants stay; stalled afterwards exactly when the next head is drained and data is left, so that without gaps one Advance ends a stall |
| QueuePurge.PurgeRefines | hh/queue.go:177-209 | the longest prefix of segments last modified before the cutoff goes and with it a prefix of the unread blocks; the tail is stale afterwards if and only if it was or all segments were that old |
| QueuePurge.PurgeKeepsInv | hh/queue.go:177-209 | a purge keeps shape, bounds, cached lengths, consecutive ids and the absence of gaps |
| QueuePurge.RecentWriteStays | hh/queue.go:177-209 | a block stored at or after the cutoff is still the last of the queue after the purge |
| QueuePurge.RecentReadStays | hh/queue.go:177-209 | a head segment that was read at or after the cutoff and has blocks left keeps everything |
| QueuePurge.PurgePassProgress | hh/queue.go:186-208 | one pass, whatever the clock shows in it, keeps the outcome of the loop and brings its end nearer |
| QueuePurge.PurgeEndsIff | hh/queue.go:186-208 | the loop reaches a recent head if and only if some segment is recent, or the clock reaches the cutoff in one of the passes that make a segment |
| QueuePurge.PurgeEndsInTime | hh/queue.go:186-208 | with a clock that passes every time, the loop ends for every cutoff |
| QueuePurge.FutureCutoff | hh/queue.go:186-208 | a cutoff two passes ahead of the clock: two new segments are removed again, the third stays |
| SegmentNames.ListedInOrderIffOneWidth | hh/queue.go:252-290 | consecutive ids are listed oldest first if and only if the first and the last have equally many digits |
| SegmentNames.SameWidthOrder | hh/queue.go:252-290 | at one width, the order of names is the order of numbers |
| SegmentNames.NameReadsBack | hh/queue.go:246-259 | an independent reader recovers the id from the name, which has no leading zero |
| QueueReopen.ByNameSorts | hh/queue.go:262-290 | loading loses and doubles no segment and yields the listing order |
| QueueReopen.FoundInOrderIff | hh/queue.go:95-124 | a queue is found again in its own order if and only if its ids have one width |
| QueueReopen.ReopenKeeps | hh/queue.go:95-140 | for any ids, closing and opening keeps every unread block, repairs cached lengths and gives a live tail |
| QueueReopen.ReopenPreserves | hh/queue.go:95-140 | at one width the abstract queue is unchanged, and without gaps a stall is over |
| QueueReopen.ReopenStallsIff | hh/queue.go:112-121 | for any ids, the queue is stalled after opening exactly when the first two segments found are drained and data is left |
| QueueReopen.ReopenGapIff | hh/queue.go:95-124 | without gaps before, there is none after opening if and only if the queue was not stalled or its drained head is listed first; it is not stalled in either case |
| QueueReopen.StalledReopenLeavesGap | hh/queue.go:262-290 | a drained segment 9 is found behind segment 10 |
| QueueReopen.NineAndTenSwap | hh/queue.go:262-290 | segments 9 and 10 change places |
| Handoff.MarshalWrite | hh/node_processor.go:278-286 | the shard id in eight bytes, then every point and a newline; an independent reader that cuts at newlines recovers the points if and only if none of them contains one |
| Handoff.MarshalRoundTrip | hh/node_processor.go:278-295 | the same of the bytes for any shard id and any points: their number, the id for every id of 64 bits, and the points |
| Handoff.LinesRoundTripIff | hh/node_processor.go:281-284 | cutting the lines at newlines gives the points back if and only if no point contains a newline |
| Handoff.WriteStep | hh/node_processor.go:130-143 | a write at any moment accounts for its block and leaves the block in the sender's hands first in the queue |
| Handoff.WriteKeepsFirst | hh/queue.go:321-344 | an append between the sender's two steps never changes which block is first |
| Handoff.ReadStep | hh/node_processor.go:219-223 | the sender gets the first block or EOF, and nothing else changes |
| Handoff.FinishStep | hh/node_processor.go:225-247 | exactly the block that the sender read leaves the queue, delivered or skipped |
| Handoff.FailStep | hh/node_processor.go:236-239 | a failed send changes nothing but the sender |
| Handoff.WriteOutcome | hh/node_processor.go:130-143 | the status by disk usage and block size; what is accepted, stored, or lost on a stale tail |
| Handoff.SendOutcome | hh/node_processor.go:207-248 | what each attempt to send does to the queue and to the log of blocks that left, with writes of others in between |
| Handoff.PurgeOutcome | hh/node_processor.go:169-172 | the unread blocks of the segments before the first recent one leave as purged |
| Handoff.StepAccounts | hh/node_processor.go:156-248 | every step of every participant keeps all blocks accounted for, in order unless ids change width |
| Handoff.Conservation | hh/node_processor.go:130-248 | over every interleaving, accepted blocks are those that left plus those in the queue |
| Handoff.ConservationInOrder | hh/node_processor.go:130-248 | the same in the order of acceptance: first in, first out |
| Handoff.DiskBounds | hh/queue.go:329-342 | over every run from an empty directory, a segment has at most maxSegmentSize + 8 bytes and the queue at most maxSize + 16, for the limits it was started with |
| Handoff.NothingLostWithoutPurge | hh/node_processor.go:156-248 | without a purge, whatever left the queue was delivered or unparseable |
| Handoff.StaleLoses | hh/queue.go:198-207 | with a stale tail an accepted write is lost, nothing else leaves, and only a reopening ends this |
| Handoff.StaleRunLoses | hh/queue.go:198-207 | over every run without a reopening, exactly the accepted blocks are lost |
| Handoff.PurgeThenWriteIsLost | hh/queue.go:177-209 | a purge of an idle queue and one write: accepted, and gone |
| Stalls.StallsIff | hh/queue.go:112-121 | for each of the six steps, in every reachable state, exactly when the queue is stalled after it |
| Stalls.GapsIff | hh/queue.go:335-386 | exactly which steps leave a drained segment behind the head |
| Stalls.NoGapInRuns | hh/queue.go:95-386 | in every run from an empty directory whose writes fit and whose stalled queues are reopened only at one width, only the head can be drained |
| Stalls.StallsInRunsIff | hh/queue.go:335-353 | in those runs a step stalls the queue if and only if it is a write that opens a second segment while the only one is drained |
| Stalls.StallReachable | hh/queue.go:335-353 | two blocks are enough to stall, for every segment size |
| Stalls.GapStallReachable | hh/queue.go:335-386 | two refused writes between two blocks stall the queue when the first block is delivered |
| Stalls.StalledForever | hh/node_processor.go:174-189 | in every run of writes and sends, a stalled queue stays stalled and delivers nothing |
| Stalls.Drains | hh/node_processor.go:174-199 | when no drained segment lies before data, successful sends alone empty the queue, in order |
| Stalls.DrainsIff | hh/node_processor.go:174-199 | the sender alone can empty a queue, with whatever outcomes, if and only if no drained segment lies before data |
| Stalls.DrainsInRuns | hh/node_processor.go:174-199 | in runs as in NoGapInRuns, successful sends empty every queue that is not stalled |
| NodeProcessors.NodeProcessor.WriteShard | hh/node_processor.go:130-143 | the block holds exactly the shard id and the points; the status by disk usage and block size; accepted exactly when the status is Ok, and then stored at the end of the queue unless the tail is stale |
| NodeProcessors.NodeProcessor.SendWrite | hh/node_processor.go:207-248 | exactly when each of the five results is returned; after a failed remote write the block is still first and nothing has left; a sent block leaves as delivered and an unparseable one as skipped; the writes of others are stored behind; otherwise nothing changes |
| NodeProcessors.NodeProcessor.Purge | hh/node_processor.go:169-172 | exactly the unread blocks of the segments before the first recent one leave, as purged; the state is that of the last pass of the queue's loop |
| NodeProcessors.NodeProcessor.Open | hh/node_processor.go:66-95 | the queue is opened, and what it holds counts as accepted; an open processor is left alone |
| NodeProcessors.NodeProcessor.Close | hh/node_processor.go:99-113 | the queue can be opened again at any time, in order and with the same blocks; a closed processor is left alone |
| Times.TruncateUnique | meta/data.go:406-407 | the start of a window is the only aligned instant within one duration before the time |
| Placement.GenerateShards | meta/data.go:435-444 | consecutive fresh ids without owners |
| Placement.AssignOwners | meta/data.go:410-420 | every shard gets exactly replicaN owners, dealt out round robin from a place given by the index |
| Placement.OwnersAllDifferent | meta/data.go:388-420 | over the whole group, all owners are different nodes, for every starting place |
| Placement.ShardCount | meta/data.go:396-399 | as many shards as fit without using a node twice, and at least one |
| Placement.OwnersAreNodes | meta/data.go:416-417 | every owner is a data node |
| Placement.PlacedReplicas | meta/data.go:388-420 | with a factor r between 1 and the number of nodes, every shard has r owners and there are as many shards as nodes allow; with more replicas than nodes one shard is owned by all nodes; without a factor there are as many shards as nodes, with one owner each |
| ClusterObject.ClusterData.CreateMetaNode | meta/data.go:82-118 | the object obeys the command's relation; an address that is a data node is refused |
| ClusterObject.ClusterData.CreateDataNode | meta/data.go:239-272 | the object obeys the command's relation; an address is accepted once |
| ClusterObject.ClusterData.DeleteDataNode | meta/data.go:290-306 | the node leaves the list and nothing else changes |
| ClusterObject.ClusterData.DeleteMetaNode | meta/data.go:143-226 | the nested loops take the node out of every shard and mark ownerless groups |
| ClusterObject.RelinquishOne | meta/data.go:172-188 | the last entry of the node goes, the rest stays in order |
| ClusterObject.RelinquishGroups | meta/data.go:162-202 | a group is marked when none of its shards has an owner left |
| ClusterObject.ClusterData.CreateShardGroup | meta/data.go:369-429 | the object obeys the command's relation, including its errors and its no-ops |
| ClusterObject.ClusterData.AddGroup | meta/data.go:388-426 | one group for the window of the timestamp is stored in sorted order, with fresh ids and round-robin owners |
| ClusterObject.MakeShards | meta/data.go:388-420 | the owners per shard and the number of shards that the replication factor asks for, in all three cases of the factor; fresh consecutive ids; owners one after the other from the node at the index |
| ClusterObject.ClusterData.Execute | meta/store_fsm.go:19-97 | each of the six commands of the model obeys its relation |
| ClusterObject.ClusterData.ShardLocation | meta/data.go:483-498 | a shard with the id if there is one, an error exactly when there is none |
| NodeProofs.StepNodes | meta/data.go:82-306 | every command keeps node identity, and the history of ids only grows |
| NodeProofs.CreatedNode | meta/data.go:82-272 | the new node is listed with the host and the address it was given, and no other entry changes |
| NodeProofs.NewIdIff | meta/data.go:90-104 | a new address gets the next id; the address of a meta node keeps that node's id and uses none up |
| NodeProofs.NodeIdentity | meta/data.go:82-272 | in every state of a run, same id if and only if same address, ids between 1 and the maximum, data nodes strictly sorted |
| NodeProofs.IdNeverReassigned | meta/data.go:90-104 | an id once given to one address is never given to another, over whole runs |
| GroupProofs.StepKeepsPolicies | meta/data.go:143-429 | every command keeps groups aligned, sorted by start, live groups apart, and owners of a shard distinct |
| GroupProofs.LiveDisjoint | meta/data.go:383-407 | no instant lies in two live groups |
| GroupProofs.InsertKeeps | meta/data.go:422-426 | adding the group of an uncovered instant keeps the policy in order |
| ShardProofs.StepKeepsUnique | meta/data.go:369-444 | shard ids stay unique over all databases |
| ShardProofs.RunKeepsInv | meta/store_fsm.go:19-97 | in every state of every run of commands, all invariants of nodes, groups and shards hold |
| OwnerProofs.GroupOwnersDistinct | meta/data.go:143-429 | in every state of every run, all owners of a group are different nodes, within a shard and between its shards |
| OwnerProofs.DeleteDataNodeIff | meta/data.go:290-306 | after a data node is deleted every owner is a data node if and only if that was so before and no shard listed the node |
| OwnerProofs.StepOwnersIff | meta/data.go:82-429 | every command keeps all owners data nodes, except the deletion of a data node that a shard lists |
| OwnerProofs.OwnersStayLive | meta/data.go:82-429 | in every run without such a deletion, every owner is a data node |
| OwnerProofs.DeletedNodeStillOwns | meta/data.go:285-306 | three commands from blank metadata to a shard whose owner does not exist |
| Routing.CreateCovers | meta/data.go:369-429 | with data nodes, the timestamp ends up in exactly one live group |
| Routing.CreatedGroup | meta/data.go:369-429 | the group found for the timestamp afterwards has the next id, spans one duration, and its shards have the owners that the policy's replication factor asks for, dealt out from the node at the metadata index |
| Routing.CreateAgain | meta/data.go:383-386 | a second request in the same window changes nothing and uses no ids |
| Routing.StepLater | meta/store_fsm.go:274-300 | no command removes a group or changes its window or its shards, and only two can delete it |
| Routing.HashesSpread | cluster/points_writer.go:181-185 | as many consecutive hashes as a group has shards go to each of them exactly once |
| Routing.RouteStable | cluster/points_writer.go:181-185 | same hash and same window mean the same shard in every later request while the group is not deleted |
| DeleteProofs.DeletedOwners | meta/data.go:172-188 | the node is still listed exactly where it was listed more than once; other owners keep their order |
| DeleteProofs.DeletedNodeIsGone | meta/data.go:159-195 | with the owners that placement gives, no shard lists the node any more |
| DeleteProofs.DeletedGroupIff | meta/data.go:197-202 | a group is deleted afterwards if and only if it was before or no shard has another owner, and then dated now; its id and window stay |
| ReplicaProofs.StepAgrees | meta/store_fsm.go:19-97 | every entry of the log keeps two replicas in agreement, whatever their clocks and the way they sort entries with equal keys |
| ReplicaProofs.ReplicasAgree | meta/store_fsm.go:19-97 | replicas that apply one log from blank metadata agree after every entry on everything but times of deletion and the order of entries with equal keys |
| ReplicaProofs.RoutesAgree | cluster/points_writer.go:181-185 | replicas that agree route every point alike |
| Metadata.OverlapsIff | meta/client.go:778-795 | a group overlaps a range exactly when some instant is in both |
| Queries.ShardGroupsByTimeRange | meta/client.go:778-795 | exactly the live groups that overlap the range, in order |
| Queries.AsksIff | meta/client.go:778-822 | a source asks for exactly the shards of the live groups of its policy that share an instant with the range |
| Queries.ShardsByTimeRange | meta/client.go:797-822 | each shard of those groups once, for sources that repeat or overlap too; an error exactly when a source is invalid, and then that of the first such source |
| Queries.ReadFindsRouted | meta/client.go:778-822 | a range that holds a point's time finds the point's shard at exactly one position |
| PointsWriter.ShardMapping.MapPoint | cluster/points_writer.go:108-116 | the point goes to the end of its shard's list and nothing else changes |
| ShardRequests.RequestGroup | meta/client.go:825-848 | what the two looks see, each in a state that can lag, the second after the client's own command; missing only without data nodes or after a deletion, and for an undisturbed question exactly when neither the copy nor the metadata has the group and there are no data nodes |
| ShardRequests.CreateGroups | cluster/points_writer.go:171-178 | in any order of the windows and with any commands of others in between, each recorded group was shown by some state |
| PointsWriter.MapShards | cluster/points_writer.go:154-187 | with any commands of others and any lag, every point goes, in request order, to where some state routes it, and unless groups were deleted to where the metadata afterwards routes it; points and shards have the same keys, and every shard, owners included, is as some state shows it; alone and with an up-to-date copy at the start, it crashes if and only if there are no data nodes and some point has no group yet |
| PointsWriter.CrashIff | cluster/points_writer.go:171-182 | a client that is alone misses a group if and only if there are no data nodes and some point has no group yet |
| PointsWriter.WriteToBlank | cluster/points_writer.go:180-182 | a call on a cluster without nodes and groups that crashes |
| PointsWriter.WriteWhileDeleting | meta/client.go:836-847 | a call that crashes in every cluster with data nodes, for a new window whose group another client deletes |
| PointsWriter.DeletedMeanwhile | meta/client.go:836-847 | a group that is deleted right after its creation is missing |
| PointsWriter.RouteStays | cluster/points_writer.go:180-186 | whatever commands follow, the group of a routed point stays with its window and shards, and until it is deleted the point is routed to the same shard |
| PointsWriter.RoutedCounts | cluster/points_writer.go:180-186 | every occurrence of a point is in its own shard's list and in no other |
| PointsWriter.RoutedInOrder | cluster/points_writer.go:108-116 | a shard's list has exactly the points sent there, in the order of the request |
| PointsWriter.MappedInWindow | cluster/points_writer.go:181-185 | a mapped point is in the list of a shard of the live group whose window holds its time |
| PointsWriter.WriteThenRead | cluster/points_writer.go:154-187 | a point that some state of the history routed to a shard is found at exactly one position of every later query whose range holds its time, while its group is not deleted |
| Replication.ServerStepIff | meta/store_fsm.go:88-97 | applying never loses a wake-up; restoring does exactly when it passes a blocked poll |
| Replication.RestoreLosesWakeUp | meta/store_fsm.go:565-584 | a poll that stays blocked although the store has moved on |
| Replication.NoLostPolls | meta/store.go:223-235 | in every run without a restore, a blocked long poll has an index that the store has not passed |
| Replication.NoLostWaiters | meta/client.go:1202-1235 | in every run, stale snapshots included, a blocked waiter waits for an index not reached |
| Replication.MetaStore.ApplyEntry | meta/store_fsm.go:88-94 | every long poll that was taken before is woken, the channels stay in order, and term and index are those of the entry |
| Replication.MetaStore.LongPoll | meta/store.go:223-235 | the channel is closed already exactly when the client is behind |
| Replication.MetaClient.InstallSnapshot | meta/client.go:1224-1233 | any snapshot is installed, also a stale one; a larger index wakes every blocked waiter and any other leaves the channel alone; no waiter stays blocked on an index that is reached |
| Replication.MetaClient.CheckIndex | meta/client.go:1202-1213 | returns exactly when the index is reached, and otherwise takes a channel that will be closed |
| Replication.StepKeepsWorldInv | meta/client.go:1093-1235 | every step keeps the joint invariant; a poll fetches the index the server has then, and each poll installs a strictly larger one; a command waits for the index the server has when it answers |
| Replication.ReadYourWrites | meta/client.go:1133-1140 | the cached index never decreases, and a command that returned is visible in the cache |
| Replication.ReadYourWritesFromOpen | meta/client.go:1093-1235 | the same in every run from the first snapshot on |
| ExecRetry.RetryUntilExec | meta/client.go:1093-1157 | at most 11 attempts; a success or a refused command is final at once, a redirect or failure only at attempt 11 or when the client is closed; the result is that of the last attempt; redirects are followed at once, and without them the servers are tried in turn; it crashes exactly when there are no servers and the client is open |
| Replication.NeverStuck | meta/handler.go:380-407 | a blocked command has a change to come, and while the server is ahead the poll loop can move |
| Progress.PollOnce | meta/client.go:1202-1235 | while the server is ahead, the poll loop alone installs a larger index and wakes all waiters |
| Progress.CommandReturns | meta/client.go:1093-1235 | from every state of every run, a command can return by its own steps and those of the poll loop alone, and is then visible in the cache |
| AuthCache.Client.Authenticate | meta/client.go:721-754 | the object computes the cached check; which user is granted, and exactly when each error is returned |
| AuthCache.Client.UpdateAuthCache | meta/client.go:1338-1351 | exactly the entries of users still present with the same hash are kept |
| AuthCache.RunKeepsInv | meta/client.go:721-754 | over every run, each entry carries its user's current hash and comes from a password that it accepts |
| AuthCache.CachedAgreesIff | meta/client.go:731-752 | in every state of a run the cached check has the outcome of the uncached one, except exactly for a collision with another password accepted before, and for an accepted password without a salt |
| AuthCache.GrantedThenHit | meta/client.go:731-752 | a granted login is a cache hit from then on, over every snapshot that leaves the user's hash alone |
| AuthCache.CacheIsTransparent | meta/client.go:721-754 | with an injective salted hash, every login in every run has the outcome of the check without a cache |
| Pool.StepTotal | cluster/pool.go:73-138 | the counter equals idle plus lent usable connections, and idle never exceeds the capacity |
| Pool.StepExclusive | cluster/pool.go:73-138 | no connection is in two places or lent twice |
| Pool.StepBound | cluster/pool.go:86-97 | counter plus threads about to create stays below capacity plus threads |
| Pool.StartInv | cluster/pool.go:37-61 | a newly filled pool has its initial connections idle and counted, and satisfies the accounting |
| Pool.Accounting | cluster/pool.go:73-189 | in every interleaving of k threads the accounting holds and the counter is at most cap + k - 1 |
| Pool.PutBackIff | cluster/pool.go:116-138 | a usable connection that is closed is idle afterwards if and only if fewer than cap were, behind the others; otherwise the counter drops |
| Pool.FirstBackFirstLent | cluster/pool.go:73-138 | over every run, idle connections are lent in the order in which they came back |
| Pool.NoneForgotten | cluster/pool.go:73-189 | over every run, every connection made is in exactly one place: idle, lent, or closed as unusable or for want of room |
| Pool.NoneForgottenFromStart | cluster/pool.go:37-189 | the same in every run from a newly filled pool |
| Pool.AloneMakesAtMostCap | cluster/pool.go:73-138 | one thread that marks nothing unusable never makes more than cap connections |
| Pool.BoundReached | cluster/pool.go:86-97 | for every capacity and every number of threads some interleaving reaches that bound |

## Left out

- I/O errors and crashes in the middle of a write: the footer is overwritten by separate unsynced writes, so there is no guarantee to prove.
- `SetMaxSegmentSize`, `Remove`, `Position` and `LastModified` of the queue.
- Files in the queue directory that are not segments: the directory of the model holds segment files only.
- The back-off interval, the rate limiter and the shutdown of the node processor.
- Parsing points: the text of a block is recovered, what the line protocol makes of it is a parameter.
- Creating and changing databases and retention policies: they stay as they are during a run, with a positive duration.
- ClusterObject.MakeShards: a replication factor is at least 0; below that the source crashes, or makes a group without shards when the factor is below minus the number of nodes.
- ClusterObject.ClusterData.Execute: the log's commands on databases, policies, users, subscriptions and queries are not among its six.
- Queues.Queue.Advance: the head's cached length must be right; otherwise the head can land inside a block, as Segment.Advance says, and the queue is no longer one of blocks.
- NodeProcessors.NodeProcessor.Open: the directory must hold what this code can have left there with the same limits; larger or empty blocks, or more bytes than the limit, are not considered.
- `SetMetaNode`, `UpdateDataNode`, pending shard owners, roles, privileges, and serialising metadata.
- The state machine of the meta store currently calls the shard group creation of an upstream library (meta/store_fsm.go:280), and its handler for the creation of data nodes is a stub (meta/store_fsm.go:488-497); the model is of this repository's own functions for both.
- `PrecreateShardGroups`, which returns after the first database.
- retryUntilSnapshot, which has no limit of attempts, and the pauses between attempts.
- Read-your-writes with several meta servers, where a lagging server can install an older snapshot.
- Closing the connection pool, and closing or marking one wrapper twice.
- HTTP handlers, raft, remote procedure calls, the write of points to remote shards, configuration and commands.
