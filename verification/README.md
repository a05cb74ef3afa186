# DIY: verified models of a block-parallel runtime

DIY splits a computation into blocks, spreads the blocks over processes, and moves queues of bytes between
them. This project models the parts of it whose correctness spans many functions and many processes, and
proves what they promise. A block is named by its global id (gid); a process holds it under a local id (lid).

* **Exchange protocols** (`IExchange*`, `Exchange*`, `Frame*`, `Framing`, `Proxy*`, `Queues`). Each protocol is a
  step relation over any number of processes and an abstract network; the main results hold in every state of
  every run. Of MPI only four facts are used, as guards of steps: a synchronous send completes only after the
  matching receive has started (MPI 3.1, section 3.4), messages from one source do not overtake each other
  (section 3.5), and a nonblocking barrier or all-reduce completes only after every process has entered it
  (section 5.12). `iexchange` decides termination from work counters, a dirty bit, barriers and all-reduces;
  `rcomm_exchange` is the NBX algorithm of Hoefler et al.; `flush` counts queues. `Framing` is the cutting of
  a queue into messages and its reassembly. In `FrameProtocol` a queue to another process is any number of
  messages, pieces and blobs, each with a request of its own; `FrameSafety` shows that its runs keep step with
  those of `ExchangeProtocol`, where a queue is one message, and so carries over what `ExchangeSafety` proves
  there. `IExchangeProgress` and `FrameProgress` say when a run can be continued to its end. `ProxyQueues` is the
  proxy of a callback as a class, and `ProxySteps` ties it to the steps of iexchange.
* **Reduction schedules** (`Coordinates`, `Factoring`, `Groups`, `Schedules`, `ReduceExchange`, `RoutedQueues`,
  `AllToAll`, `SortedOrder`, `SampleSort`). The group sizes and steps of `RegularPartners` are a mixed-radix system
  for any number of dimensions; merge, swap, broadcast and all-reduce are read off its digits, `all_to_all` routes
  along them, and sample sort is built from both. `ReduceExchange` puts the schedules on top of the exchange: on
  every run of messages that makes up a reduction, each round delivers one queue per partner, and in the end
  each block has what the schedule promises.
* **KD-tree construction** (`Kd*`, `Pools`, `WeightedSums`). The whole reduction: the interleaved schedule, the
  shortened all-reduce of histograms, the choice of splits, the trading of points, and the local rewriting of
  links from messages alone, up to the finished tree. Coordinates are reals.
* **Regular decomposition** (`GridAxis`, `PointToGids`, `Decompose`, `BlockNeighbors`, `FillDivisions`). Index
  arithmetic with truncating division made explicit, shared faces, ghosts, periodic axes, and the two odometer
  loops. `BlockNeighbors` reads the links of `Decompose` off the blocks' places in the domain.
* **Runtime state** (`LoadBalance`, `Dynamic*`, `Execution*`, `MasterBlocks`). Dynamic load balancing beside a
  concurrent executor that looks up and reads the master's arrays one access at a time; out-of-core execution by
  several threads; and the bookkeeping of blocks. `DynamicProtocol` is the step relation, `DynamicBalance` what
  every step keeps, `DynamicTurns` when a turn gets the right block, `DynamicRuns` and `DynamicSwap` the runs in which
  it does not, `DynamicDone` the composition with iexchange and `DynamicEnds` a run of both to the end.
  `ExecutionLimit` is about the number of blocks in memory while the threads of `Execution` work, and `ExecutionEnds`
  about when they stop.

`Arith`, `BagSums`, `Counting`, `Options`, `Pools` and `WeightedSums` hold shared lemmas and datatypes.

Code that changes objects step by step is a class or a method with loops, each proved against a specification
function; the lemmas then say what that function means. Exceptions and error returns are `None`.

## What the proofs found

* `dynamic_foreach` does not run every block exactly once. `dynamic_process_block` looks up the lid of the block
  it has grabbed and then reads block, gid and link by that lid, and the lock is given back in between; meanwhile
  the balancer's `release` may move the last block to a freed lid and its `add` may put another in its place. A
  read gets the block whose turn it is exactly when no release has moved that block since the lookup
  (`DynamicTurns.ReadIsRight`). With blocks 0, 1 and 2 on a process, the executor at lid 2 and block 0 leaving, the
  read is past the end of the arrays (`DynamicRuns.WrongRun`, a run for every setting in which anything may be
  sent); if block 3 comes in first, the command is handed block 3 twice and block 2 never, although everything
  then ends as it should (`DynamicSwap.BlockRunTwice`, a run to its end). No run goes wrong if and only if nothing
  can ever be sent: `sample_frac` times the number of other processes is below one, or the quantile is above one
  (`DynamicRuns.FaithfulIff`).
* `grab_heaviest_free_block` does not fill in `origin_proc`, so a block that is grabbed and put back loses where
  it came from (`LoadBalance.PutBack`).
* In `dynamic_send_block` the index of the destination is inside the samples exactly when the quantile is
  positive or the own work is at least that of the lightest sample (`LoadBalance.TargetInRange`; with quantile
  zero, work 3 and one sample of work 7 it is one past the end, `LoadBalance.TargetPastEnd`).
* The test in `dynamic_send_block` that a move improves the balance subtracts unsigned numbers. With work 3, samples
  of work 1 and 5 and a quantile of one half, the destination is the one with 5, and the difference wraps around so
  that any block passes (`LoadBalance.SentToHeavier`). Every block that passes improves the balance, for the loads
  the sender knows of, if and only if the quantile is above one half (`LoadBalance.ImprovesIff`).
* A queue for a block that does not exist keeps `iexchange` from ever ending, and one for a process that does not
  exist keeps its sender in a remote round. Nothing else does: from every state of a run without such queues the
  run can be continued to the end (`IExchangeProgress.CanFinishIff`, `FrameProgress.CanCompleteIff`).
* `fill_divisions` accepts divisions that are all given although their product only divides the number of
  blocks: two times two for eight blocks (`FillDivisions.GivenDivisionsUnchecked`, and the exact condition in
  `FillDivisions.FilledProduct`).
* `fill_divisions` can fail although there is a decomposition: twelve blocks on an unshared domain of four by three
  cells fit as four by three, but it throws (`FillDivisions.FitsButThrows`). It never fails when every open
  dimension has room for all the blocks to be distributed (`FillDivisions.EnoughRoom`). With one dimension open it
  succeeds exactly then (`FillDivisions.OneOpen`), and a prime number of blocks exactly if the longest open dimension
  alone has room for them (`FillDivisions.OnePrime`).
* A queue can be framed and read back exactly when its write position is at its end
  (`Framing.FramedBack`, and an input for which it cannot in `Framing.NotFramedBack`).
* With at least three bins every kd-tree split lies strictly inside its box. With two it does so exactly when
  the first bin alone holds more than half of the points (`KdPoints.SplitInterior`; a point in the upper half
  alone puts it on the face, `KdPoints.SplitOnFace`). With one bin it never does: the split is the upper face, or
  lies far beyond it when there are no points, because the index wraps around (`KdPoints.OneBin`).
* While its threads are working, `execute` may hold more blocks than the limit: with limit 2 and two threads, of
  three blocks two in memory, one thread can have finished block 0 and claimed block 1, and the other loaded
  block 2 (`ExecutionLimit.ThreeForTwo`). That starts with at most L blocks in memory, L being the limit. Then some
  interleaving of T threads goes over it if and only if T is at least L % T + 2, there are more than L blocks in
  memory or not skipped, and at least (L % T + 1) * (L / T + 1) are in memory at the start
  (`ExecutionLimit.OverLimitIff`): never with one thread. Once all threads have joined the limit is met again
  (`Execution.LoadedWithinLimit`).

## Model

| member | source | states |
|---|---|---|
| IExchangeControl.IExchangeInfoCollective.constructor | include/diy/detail/master/iexchange-collective.hpp:7-13 | no work, clean, not in a barrier |
| IExchangeControl.IExchangeInfoCollective.AllDone | include/diy/detail/master/iexchange-collective.hpp:33-38 | done is reported in state 3 and no other |
| IExchangeControl.IExchangeInfoCollective.AddWorkUnits | include/diy/detail/master/iexchange-collective.hpp:40-47 | the counter moves by the units and is dirty whenever it ends above zero |
| IExchangeControl.IExchangeInfoCollective.ControlOnce | include/diy/detail/master/iexchange-collective.hpp:49-87 | one call takes at most one transition: into the barrier only with no work and a clean bit, to the vote with the bit as it is then, to done only on a clean verdict; that it gets there is what VerdictDecides and CanFinishIff say |
| IExchangeSafety.LedgerStep | include/diy/master.hpp:968-1018 | under every step of the loop a process's counter stays the number of its not-done blocks, outgoing and incoming queues and unfinished sends, plus one in a callback or between receipt and filing |
| IExchangeSafety.NetInvStep | include/diy/master.hpp:1362-1390 | a queue on the way keeps its sender's synchronous send unfinished until it is received |
| IExchangeSafety.LastEntrantFindsQuiet | include/diy/detail/master/iexchange-collective.hpp:49-66 | if nobody has been dirtied since entering a barrier, the last process to enter it finds no work and no message anywhere |
| IExchangeSafety.StepInv | include/diy/master.hpp:945-1085 | every step of every process keeps the global invariant: ledgers, pending sends, common verdicts, quiet after a clean vote |
| IExchangeSafety.RunInv | include/diy/master.hpp:945-1085 | the global invariant holds in every state of every run from a quiet network |
| IExchangeSafety.DoneMeansQuiet | include/diy/detail/master/iexchange-collective.hpp:40-87 | when any process reaches state 3, no process has a not-done block, a queue or an unfinished send, and the network is empty |
| IExchangeSafety.VerdictIsShared | include/diy/detail/master/iexchange-collective.hpp:67-86 | when one process is done, every other has voted as often and can only be told the same |
| IExchangeSafety.VerdictDecides | include/diy/detail/master/iexchange-collective.hpp:75-86 | in every run, a process that hears the result of its vote is in state 3 then if and only if all votes were clean, and otherwise in state 0 |
| IExchangeSafety.DoneIffClean | include/diy/detail/master/iexchange-collective.hpp:75-86 | in every state of every run, a process that has heard the result of its last vote is done if and only if all those votes were clean |
| IExchangeProgress.StuckForGood | include/diy/proxy.hpp:73-94 | a queue under way to a block that does not exist stays under way for the rest of the run |
| IExchangeProgress.WorkOn | include/diy/master.hpp:978-1018 | as long as anything is left, some process can take a step that leaves less work: a callback, a send, a receive or the completion of a send |
| IExchangeProgress.ControlBrings | include/diy/detail/master/iexchange-collective.hpp:49-87 | when nothing is left, the process that is furthest behind can always go on, and each such step is one of boundedly many until all are done |
| IExchangeProgress.CanFinish | include/diy/master.hpp:945-1085 | from wherever a run has come to, it can be continued until every process is done, if all queues under way are for existing blocks |
| IExchangeProgress.CanFinishIff | include/diy/master.hpp:945-1085 | any run can be continued until every process is done if and only if everything under way in it is addressed to an existing block |
| IExchangeProgress.CanFinishFromStart | include/diy/master.hpp:945-1085 | every start has a run that ends with every process in state 3 |
| IExchangeSafety.StepConserves | include/diy/master.hpp:1253-1314 | what has been enqueued is, as a multiset, what has been delivered plus what is in a process's care or on the way, kept by every step |
| IExchangeSafety.DoneMeansDelivered | include/diy/master.hpp:945-1085 | when any process is done, exactly the queues enqueued have been delivered, each once |
| IExchangeSafety.DeliveredToAddressee | include/diy/proxy.hpp:73-94 | a queue is only ever dequeued on its addressee's process, by the block it is for, and first in, first out per sender |
| ProxyQueues.Proxy.constructor | include/diy/proxy.hpp:17-37 | takes the front of every incoming queue and, outside iexchange, the back of every outgoing one; each incoming one costs a unit of work under iexchange |
| ProxyQueues.Proxy.FillIncoming | include/diy/proxy.hpp:73-94 | takes the front of every nonempty queue, reports whether there was one, and gives up one unit of work for each |
| ProxyQueues.Proxy.Enqueue | include/diy/proxy.hpp:96-104 | appends to the buffer for the target, creating it if need be |
| ProxyQueues.Proxy.Close | include/diy/proxy.hpp:47-64 | hands every buffer to the back of its queue for one unit each and, outside iexchange, returns every lent queue to the front it came from |
| ProxyQueues.FrontsGoBack | include/diy/proxy.hpp:60-63 | returning the lent queues undoes taking them |
| ProxyQueues.BacksGoBack | include/diy/proxy.hpp:26-36 | copying out undoes taking the outgoing queues back in |
| ProxyQueues.OpenAndClose | include/diy/proxy.hpp:17-64 | outside iexchange a callback that touches nothing leaves queues and counter exactly as they were |
| ProxyQueues.AppendedBytes | include/diy/proxy.hpp:96-104 | after any sequence of enqueues the buffer of a target is what it was before, followed by all that was enqueued for it, in order |
| ProxyQueues.Callback | include/diy/proxy.hpp:17-64 | a callback that enqueues anything for any targets leaves at most one queue per target: the bytes that waited there, then the new ones |
| ProxyQueues.Round | include/diy/proxy.hpp:26-58 | over all callbacks of a round there is at most one queue per target, with all bytes of all callbacks in order, so sending only the front sends everything; incoming queues are as they were |
| ProxyQueues.IExchangeCallback | include/diy/proxy.hpp:17-64 | under iexchange a callback leaves one new queue for each target it wrote to, and moves the counter down by the queues it takes and up by those it copies out |
| ProxyQueues.IExchangeRound | include/diy/proxy.hpp:17-64 | any number of such callbacks: a queue per callback and target, and the counter moved by all queues taken and all targets written |
| ProxySteps.Pops | include/diy/proxy.hpp:73-94 | filling the proxy step by step takes the front of every queue for the block, once, for one unit each |
| ProxySteps.CopiesOut | include/diy/proxy.hpp:47-57 | copying out step by step, in any order, appends exactly one queue for every target, for one unit each |
| ProxySteps.CallbackAlike | include/diy/master.hpp:990-1014 | the steps of a callback in the iexchange protocol leave the queues and the counter that the proxy class leaves, apart from the unit for a change of the done status |
| FrameProtocol.MasterRounds.constructor | include/diy/master.hpp:1508-1520 | before its first round a process has no queues of any round |
| FrameProtocol.MasterRounds.BeginFlush | include/diy/master.hpp:1517-1527 | the round that was left is dropped, the next one begins, and queues that came early for it are kept |
| FrameProtocol.MasterRounds.PlaceIn | include/diy/detail/master/communication.hpp:158-178 | a received queue is filed and counted under the round it carries |
| FrameProtocol.MasterRounds.SendSameRank | include/diy/master.hpp:1316-1360 | a queue to the same process is filed and counted at once |
| FrameProtocol.MasterRounds.SendDifferentRank | include/diy/master.hpp:1362-1471 | the queue's one message, or its head and pieces, and its blobs leave with the sender's round, and every one of them has a request pending |
| FrameProtocol.MasterRounds.Nudge | include/diy/master.hpp:1551-1575 | only a completed request leaves the in-flight list, message by message |
| FrameProtocol.MasterRounds.CheckIncoming | include/diy/master.hpp:1473-1506 | a message extends the queue partly received from its source; a completed one is filed under the round it carries and the source's state reset |
| FrameProtocol.MasterRounds.RemoteTail | include/diy/master.hpp:1148-1160 | enters the barrier once, when all is sent and matched, and leaves only when it has completed |
| FrameProtocol.MasterRounds.CountedTail | include/diy/master.hpp:1528-1544 | leaves exactly when nothing is unsent or in flight and the expected number of queues has arrived |
| ExchangeSafety.ExchangeStep | include/diy/master.hpp:1129-1162 | every step of every process, in remote and counting rounds mixed freely, a queue being one message, keeps the global invariant |
| ExchangeSafety.LeavingRemote | include/diy/master.hpp:1148-1160 | a process that leaves NBX leaves no queue of that round unsent or on the way, anywhere |
| ExchangeSafety.LeavingCounted | include/diy/master.hpp:1528-1544 | a process that leaves a counting round leaves nothing of that round outstanding towards it |
| ExchangeSafety.EveryEdge | include/diy/master.hpp:1541 | as many queues as edges and at most one per edge means every edge is covered |
| FrameSafety.CarriesTaken | include/diy/detail/master/communication.hpp:99-156 | on a channel that keeps the order, the next message completes the oldest queue exactly if it is its last one, and otherwise leaves the receiver with one more of its messages |
| FrameSafety.NothingOpen | include/diy/master.hpp:1148-1160 | a process without open requests has no queue of its current remote round on the way, however many messages its queues are |
| FrameSafety.ActInStep | include/diy/master.hpp:1129-1162 | every act on messages is matched by none, one or several steps on whole queues |
| FrameSafety.RunInStep | include/diy/master.hpp:1508-1544 | every run of messages keeps step with one of whole queues |
| FrameSafety.RoundComplete | include/diy/master.hpp:1129-1162 | when a process has left a round, remote or counting, its incoming map of that round holds every queue posted to it, bytes and blobs, as often as it was posted, and no other; every process that can send to it has begun the round; queues of any number of pieces and blobs |
| FrameSafety.OneQueuePerNeighbor | include/diy/master.hpp:1508-1544 | after a counting round that is exactly one queue along every edge into the process |
| FrameSafety.AssertionHolds | include/diy/master.hpp:1483-1495 | on every run a message taken for the first of a queue is long enough to hold the header, and a completed queue is one its source posted, for the current round or a later one |
| FrameSafety.EarlyQueuesWait | include/diy/master.hpp:1494-1501 | queues of a faster sender's next rounds wait, counted, under their own round |
| FrameSafety.NothingStale | include/diy/master.hpp:1517-1527 | nothing is kept of a round once the next one has begun |
| FrameProgress.AllMatched | include/diy/master.hpp:1551-1575 | once active processes have taken in what there is, every open request of the process that is furthest behind is matched |
| FrameProgress.AllCounted | include/diy/master.hpp:1528-1544 | in a counting round the process that is furthest behind has, once active processes have sent and taken in what there is, received as many queues as it expects |
| FrameProgress.CanComplete | include/diy/master.hpp:1129-1162 | whatever has been posted to existing processes and however far the processes have come, the run can be continued until all have left all rounds up to any given one, remote and counting rounds mixed |
| FrameProgress.CanCompleteIff | include/diy/master.hpp:1129-1162 | any run can be continued until all have left all rounds up to any given one if and only if every queue posted so far is for an existing process |
| ExchangeSafety.LinksExpect | include/diy/master.hpp:735-754 | with symmetric links, the sum of unique neighbors over the local blocks is the number of edges into the process, which is what the counting round waits for |
| Framing.InfoRoundTrip | include/diy/detail/master/communication.hpp:3-9 | the header can be read back |
| Framing.MemoryBuffer.SaveBinary | include/diy/serialization.hpp:477-482 | bytes are written at the position, over what is there, growing the buffer past its end |
| Framing.MemoryBuffer.LoadBinary | include/diy/serialization.hpp:520-526 | reads from the position on and moves it |
| Framing.MemoryBuffer.LoadBinaryBack | include/diy/serialization.hpp:528-534 | takes bytes off the back, leaving the rest and the position alone |
| Framing.FramedBack | include/diy/master.hpp:1372-1379 | a header saved into a queue can be taken off its back, leaving the queue, if and only if the position was at the end |
| Framing.NotFramedBack | include/diy/master.hpp:1372-1379 | a byte saved at the beginning of two cannot be taken off the back |
| Framing.CutUp | include/diy/master.hpp:1423-1447 | the pieces are the buffer cut at every limit bytes |
| Framing.PieceCount | include/diy/master.hpp:1393-1394 | the announced number of pieces is the number sent |
| Framing.FramesFit | include/diy/master.hpp:1376-1447 | no message but a blob exceeds the limit, for any limit that fits a header |
| Framing.FrameCount | include/diy/master.hpp:1393-1394 | a queue that fits with its header is one message, a larger one a head and as few pieces as the limit allows, besides the blobs |
| Framing.SendDifferentRank | include/diy/master.hpp:1362-1471 | sends one message, or a head and its pieces, then the blobs |
| Framing.InFlightRecv.Recv | include/diy/detail/master/communication.hpp:99-156 | the first message sets up the state, pieces and blobs extend it, and it is done when none is missing |
| Framing.InFlightRecv.Reset | include/diy/detail/master/communication.hpp:29-34 | back to the initial state |
| Framing.InFlightRecv.Check | include/diy/master.hpp:1483-1502 | a completed queue is placed and the state reset |
| Framing.OneQueue | include/diy/detail/master/communication.hpp:99-178 | the messages of one queue give back exactly that queue and leave the receiver idle |
| Framing.NextFrame | include/diy/detail/master/communication.hpp:99-156 | each message but the last leaves the queue unplaced; the last one places it |
| Framing.RoundTrip | include/diy/detail/master/communication.hpp:99-178 | for any sequence of queues, single-part, multi-part and with blobs mixed, and any limit that fits a header, what is received is exactly what was sent, in order |
| Coordinates.GidOfCoords | include/diy/decomposition.hpp:483-508 | coordinates of a gid are in range and lead back to the gid |
| Coordinates.CoordsOfGid | include/diy/decomposition.hpp:483-508 | a gid of coordinates in range is a block and leads back to the coordinates |
| Coordinates.GidStride | include/diy/decomposition.hpp:496-508 | one block further along a dimension is as many gids further as there are blocks in the dimensions below it |
| Coordinates.GidOfOrigin | include/diy/decomposition.hpp:496-508 | the block at the origin is block 0, which with GidStride fixes all gids |
| Coordinates.GidToCoords | include/diy/decomposition.hpp:483-494 | computes the inverse of coords_to_gid, by the two lemmas above |
| Coordinates.CoordsToGid | include/diy/decomposition.hpp:496-508 | computes the inverse of gid_to_coords, by the two lemmas above |
| Factoring.NextFactor | include/diy/partners/common.hpp:174-199 | the largest divisor up to k, or all that is left if there is none |
| Factoring.Factor | include/diy/partners/common.hpp:166-201 | one group size per round until nothing is left |
| Factoring.FactorsMultiply | include/diy/partners/common.hpp:166-201 | group sizes are at least two and multiply to the divisions |
| Factoring.PushRound | include/diy/partners/common.hpp:151-162 | one sweep pushes the next factor of every dimension that has one and notices when none has |
| Factoring.FactorAll | include/diy/partners/common.hpp:139-164 | the rounds of all dimensions, interleaved |
| Factoring.AlongInterleave | include/diy/partners/common.hpp:148-163 | interleaving keeps every dimension's factors, all of them and in order |
| Factoring.FactoringTiles | include/diy/partners/common.hpp:139-201 | for every k of at least two, the sizes of the rounds along a dimension multiply to its divisions |
| Factoring.FillSteps | include/diy/partners/common.hpp:69-91 | the step of a round is the product of the earlier sizes along its dimension if contiguous, of the later ones if not |
| Groups.FromDivisions | include/diy/partners/common.hpp:30-38 | partners of any grid are well-formed |
| Groups.Fill | include/diy/partners/common.hpp:93-119 | appends the group of the block in that round, in order of position |
| Groups.GroupMember | include/diy/partners/common.hpp:93-137 | member v of a group is a block at position v that keeps its position in every other round, contiguous or not |
| Groups.DigitsIdentify | include/diy/partners/common.hpp:121-137 | the positions in all rounds identify a block: rounds and steps are a mixed-radix system |
| Groups.InGroup | include/diy/partners/common.hpp:93-137 | a group is exactly the blocks that differ in that one position at most |
| Schedules.IsMergeActive | include/diy/partners/merge.hpp:45-57 | active means being at position 0 in every earlier round |
| Schedules.IsActive | include/diy/partners/all-reduce.hpp:39-48 | activity in each of the four patterns, through the parent round |
| Schedules.FillIncoming | include/diy/partners/all-reduce.hpp:50-57 | the incoming partners of the four patterns, up and down |
| Schedules.FillOutgoing | include/diy/partners/all-reduce.hpp:59-65 | the outgoing partners of the four patterns, up and down |
| Schedules.MergeOutgoing | include/diy/partners/merge.hpp:39-40 | a block sends to the root of its group |
| Schedules.MergeDuality | include/diy/partners/merge.hpp:35-57 | the merge receives exactly from whom it is sent to |
| Schedules.Duality | include/diy/reduce.hpp:122-142 | in merge, swap, broadcast and all-reduce: b is active next round with a incoming if and only if a is active now with b outgoing |
| Schedules.IncomingDistinct | include/diy/partners/common.hpp:93-119 | partner lists name existing blocks, each once |
| Schedules.ExpectedQueues | include/diy/reduce.hpp:129-140 | the count reduce sets as expected is the number of queues other blocks send to the local ones in that round |
| Schedules.OnlyZeroSurvives | include/diy/partners/merge.hpp:45-57 | after the last merge round gid 0 alone is active |
| Schedules.HeldGoingUp | include/diy/partners/merge.hpp:35-41 | after r rounds a block holds, once each, the contributions of exactly the blocks that share its later positions |
| Schedules.MergeTotal | include/diy/partners/merge.hpp:11-41 | in the end gid 0 holds every block's contribution exactly once |
| Schedules.SwapTotal | include/diy/partners/swap.hpp:35-38 | used as an all-gather, swap gives every block every contribution exactly once |
| Schedules.AllReduceTotal | include/diy/partners/all-reduce.hpp:39-65 | from the turning point on every active block, and in the end every block, holds every contribution exactly once |
| Schedules.BroadcastTotal | include/diy/partners/broadcast.hpp:35-55 | an active block holds gid 0's value, once, and in the end all blocks are active |
| ReduceExchange.ExpectedCount | include/diy/reduce.hpp:129-141 | the count the counting round waits for is the number of queues the active blocks of the round send here |
| ReduceExchange.RoundDelivers | include/diy/reduce.hpp:122-142 | on every run of messages, when a process has left the exchange after a round, each of its blocks has exactly one queue from every block of its incoming link, the one that block's process posted, and no other queue |
| ReduceExchange.ReduceHolds | include/diy/reduce.hpp:122-142 | on every run of messages in which active blocks pass on what they have received, a block that is active in a round holds, when it begins the round, just the contributions the schedule says |
| ReduceExchange.ReduceTotal | include/diy/reduce.hpp:122-148 | at the end of a merge, swap or all-reduce run over messages every active block has every contribution exactly once, and at the end of a broadcast that of block 0 alone |
| RoutedQueues.FirstRound | include/diy/detail/reduce/all-to-all.hpp:52-73 | each partner gets a header and the block's queues for its run of targets |
| RoutedQueues.IntermediateRound | include/diy/detail/reduce/all-to-all.hpp:98-155 | every incoming queue goes, whole and in order, to the partner whose run holds its target, and the sizes reserved first are the sizes written |
| RoutedQueues.FinalRound | include/diy/detail/reduce/all-to-all.hpp:74-97 | every queue is put under its source |
| AllToAll.PartnerIsDigit | include/diy/detail/reduce/all-to-all.hpp:148 | the partner picked for a target is the target's position in that round |
| AllToAll.InFramesWellRouted | include/diy/detail/reduce/all-to-all.hpp:82-108 | all incoming buffers of a round carry the same range, and only targets in it |
| AllToAll.InCount | include/diy/detail/reduce/all-to-all.hpp:98-155 | in every round each queue is at exactly one block, the one sharing the earlier positions of its target and the later ones of its source, once |
| AllToAll.ArrivesOnce | include/diy/detail/reduce/all-to-all.hpp:74-97 | after the last round a block holds exactly the queues for it, one from each block |
| AllToAll.Delivered | include/diy/detail/reduce/all-to-all.hpp:74-97 | unpacking them gives from every source the bytes it enqueued |
| AllToAll.AllToAllExchange | include/diy/reduce-operations.hpp:16-29 | for any number of blocks, one included, and any fanout of at least two, block t's queue from f is what f enqueued for t |
| SortedOrder.Sort | include/diy/detail/algorithms/sort.hpp:109 | a sorted permutation; the order of equivalent elements is left open |
| SortedOrder.LowerBound | include/diy/detail/algorithms/sort.hpp:152 | the first position not less than the value |
| SortedOrder.SortedAlike | include/diy/detail/algorithms/sort.hpp:109 | two sorted arrangements of the same elements are equivalent at every position |
| SortedOrder.AlikeRoutes | include/diy/detail/algorithms/sort.hpp:152 | equivalent dividers send a value to the same block |
| SampleSort.DequeueValues | include/diy/detail/algorithms/sort.hpp:27-76 | appends what the partners sent, in link order |
| SampleSort.DrawSamples | include/diy/detail/algorithms/sort.hpp:97-103 | so many picks from the block's own values, none from an empty block |
| SampleSort.GatherRound | include/diy/detail/algorithms/sort.hpp:103-130 | after a round a block's samples are the draws of exactly the blocks the schedule says it holds |
| SampleSort.AllSamples | include/diy/algorithms.hpp:45-48 | after the last round every block holds the draws of all blocks, each once |
| SampleSort.PickDividers | include/diy/detail/algorithms/sort.hpp:106-122 | of S samples divider i is one of which at most (i+1) * (S / nblocks) are less and more than that are not greater, or min(i+1, S-1) if there are fewer samples than blocks; without samples all are the default value |
| SampleSort.PositionHasRank | include/diy/detail/algorithms/sort.hpp:116-120 | what stands at a position of the sorted samples has that rank among the unsorted ones |
| SampleSort.DividersAlike | include/diy/detail/algorithms/sort.hpp:106-122 | the same samples give sorted, equivalent dividers, whichever way they were sorted |
| SampleSort.AllDividers | include/diy/detail/algorithms/sort.hpp:90-131 | all blocks' dividers have these ranks among everybody's draws, and are sorted and equivalent |
| SampleSort.EnqueueValues | include/diy/detail/algorithms/sort.hpp:147-155 | every value goes to the block its lower bound picks, in order |
| SampleSort.ResultIsPermutation | include/diy/detail/algorithms/sort.hpp:145-161 | no value is lost or doubled |
| SampleSort.BlocksOrdered | include/diy/detail/algorithms/sort.hpp:145-161 | no value in an earlier block is greater than one in a later block |
| SampleSort.SortAcrossBlocks | include/diy/algorithms.hpp:28-55 | for any samples drawn, any strict weak order and any fanout, the blocks in gid order are a sorted permutation of all values, and every block's dividers, which have these ranks among all draws, are the boundaries between the blocks |
| KdSchedule.BuildRounds | include/diy/detail/algorithms/kdtree.hpp:64-90 | each iteration is the two ends of an all-reduce, a swap and a link round, all on one dimension |
| KdSchedule.PreviousDim | include/diy/detail/algorithms/kdtree.hpp:193-198 | links are updated along the dimension that was split one iteration before |
| KdSchedule.ScheduleFollows | include/diy/detail/algorithms/kdtree.hpp:71-89 | every round is followed by a legitimate successor; the last is a link round |
| KdSchedule.IterationsAt | include/diy/detail/algorithms/kdtree.hpp:71-89 | round m of iteration i stands in the list after all rounds of the iterations before, with the dimension i modulo the number of dimensions |
| KdSchedule.IncomingOfRound | include/diy/detail/algorithms/kdtree.hpp:111-128 | in every histogram and swap round the incoming partners are those of the shortened all-reduce |
| KdSchedule.IsKdActive | include/diy/detail/algorithms/kdtree.hpp:99-109 | who takes part in each kind of round |
| KdSchedule.FillKdIncoming | include/diy/detail/algorithms/kdtree.hpp:111-128 | the incoming partners across every kind of seam, the skipped rounds included |
| KdSchedule.KdDuality | include/diy/detail/algorithms/kdtree.hpp:99-140 | over every seam of the schedule, with symmetric links: b is active next with a incoming if and only if a is active now with b outgoing |
| KdSchedule.HistogramOfNode | include/diy/detail/algorithms/kdtree.hpp:71-89 | despite the skipped rounds, iteration i leaves every block with the histograms of exactly the blocks that share its leading i gid bits, once each |
| KdHistogram.AddHistograms | include/diy/detail/algorithms/kdtree.hpp:393-408 | bin by bin the sum over the incoming partners |
| KdHistogram.HistogramRound | include/diy/detail/algorithms/kdtree.hpp:201-213 | after a round every active block holds the sum the schedule promises |
| KdHistogram.SumsOfNodes | include/diy/detail/algorithms/kdtree.hpp:186-213 | when the swap round begins, the histogram of every block is the sum over the blocks of its node |
| KdPoints.LocalHistogram | include/diy/detail/algorithms/kdtree.hpp:364-391 | counts every point in its bin; throws exactly when a point lies below the block |
| KdPoints.HistogramCounts | include/diy/detail/algorithms/kdtree.hpp:374-388 | the first k bins hold exactly the points below the k-th boundary, and all bins all points |
| KdPoints.PickBin | include/diy/detail/algorithms/kdtree.hpp:443-464 | the bin in which the count passes half of the total, kept off both ends |
| KdPoints.PickSplit | include/diy/detail/algorithms/kdtree.hpp:442-467 | the split is that bin's lower boundary |
| KdPoints.SplitInterior | include/diy/detail/algorithms/kdtree.hpp:453-467 | for any number of bins the split is strictly inside the box if and only if there are three or more, or two of which the first holds more than half |
| KdPoints.OneBin | include/diy/detail/algorithms/kdtree.hpp:453-467 | with one bin the split is the upper face, or the index wraps around if there are no points |
| KdPoints.SplitOnFace | include/diy/detail/algorithms/kdtree.hpp:453-467 | two bins with the one point in the upper put the split on the lower face |
| KdExchange.EnqueueExchange | include/diy/detail/algorithms/kdtree.hpp:427-492 | a block keeps the points of its half, sends the others to its sibling, and shrinks its core to that half |
| KdExchange.DequeueExchange | include/diy/detail/algorithms/kdtree.hpp:494-518 | appends what the sibling sent; throws exactly when one of those points is outside the new core |
| KdExchange.PointsStayInside | include/diy/detail/algorithms/kdtree.hpp:427-518 | after an iteration every block's points are inside its new core |
| KdExchange.PointsConserved | include/diy/detail/algorithms/kdtree.hpp:469-516 | an iteration keeps the multiset of all points |
| KdExchange.TilingStep | include/diy/detail/algorithms/kdtree.hpp:488-491 | the cores of a class cover the domain and have disjoint interiors, before and after |
| KdGeometry.FindSplit | include/diy/detail/algorithms/kdtree.hpp:546-560 | the first coordinate in which the boxes differ |
| KdGeometry.SplitRecovered | include/diy/detail/algorithms/kdtree.hpp:546-560 | for a strictly interior split that coordinate is the split |
| KdGeometry.SplitToNeighbors | include/diy/detail/algorithms/kdtree.hpp:346-362 | every neighbor gets the split with the direction of each entry that names it |
| KdGeometry.ReadSplits | include/diy/detail/algorithms/kdtree.hpp:238-262 | matching the reversed directions against the link assigns every entry its own neighbor's split |
| KdLinks.DivideIsGroup | include/diy/detail/algorithms/kdtree.hpp:216-226 | clearing or setting a gid bit picks a member of the swap group |
| KdLinks.DivideSpec | include/diy/detail/algorithms/kdtree.hpp:216-226 | it changes that position of the block and no other |
| KdLinks.UpdateLinks | include/diy/detail/algorithms/kdtree.hpp:264-343 | each old entry becomes none, one or both halves of that neighbor, and the sibling is added last; where the entries' directions point is what EntryAtEnd says |
| KdAdjacency.KeptOnly | include/diy/detail/algorithms/kdtree.hpp:268-315 | old entries only become entries for the halves of their block, with the true new bounds |
| KdAdjacency.KeptIffTouch | include/diy/detail/algorithms/kdtree.hpp:273-314 | of a neighbor's halves exactly those whose closed boxes touch the new box are kept, facing the same way |
| KdStep.CompleteStep | include/diy/detail/algorithms/kdtree.hpp:264-343 | every block of the new class that touches is named |
| KdStep.SymmetricStep | include/diy/detail/algorithms/kdtree.hpp:264-343 | links stay symmetric with opposite directions |
| KdStep.IterationKeepsInv | include/diy/detail/algorithms/kdtree.hpp:216-344 | within each class of gids sharing their low bits, an iteration keeps links symmetric, with true bounds, and naming exactly the blocks whose closed boxes touch |
| KdStep.FinalLinks | include/diy/detail/algorithms/kdtree.hpp:216-344 | in the end two different blocks are linked if and only if their closed boxes touch, in opposite directions |
| KdRun.LocalHistograms | include/diy/detail/algorithms/kdtree.hpp:191-201 | with all points inside their cores no block throws |
| KdRun.SplitsAgree | include/diy/detail/algorithms/kdtree.hpp:427-467 | the blocks of a node pick the same split, strictly inside |
| KdRun.SwapRounds | include/diy/detail/algorithms/kdtree.hpp:186-190 | every block has chosen by its histogram and sorted its points |
| KdRun.DequeueRounds | include/diy/detail/algorithms/kdtree.hpp:181-185 | the throw for a stray point is not reached and every block holds its half of its pair's points |
| KdRun.LinkRounds | include/diy/detail/algorithms/kdtree.hpp:181-185 | every block has announced its split to everyone in its link |
| KdRun.UpdateRounds | include/diy/detail/algorithms/kdtree.hpp:193-199 | from messages alone every block computes the link the global invariant speaks about |
| KdTree.SplitIsMedian | include/diy/detail/algorithms/kdtree.hpp:442-467 | the split is next to the node's median: unless it is kept off an end, at most half of the node's points are in the bins below it and more than half once its own bin is added |
| KdTree.RunRound | include/diy/detail/algorithms/kdtree.hpp:168-214 | one round of the list, by its kind: nothing throws, and histograms, points and links are where the next round needs them |
| KdTree.UpdateAll | include/diy/detail/algorithms/kdtree.hpp:193-199 | the links that a round later are computed from the splits alone carry the invariant to the next iteration |
| KdTree.SplitRound | include/diy/detail/algorithms/kdtree.hpp:186-190 | the histogram that has come down splits every node next to its median |
| KdTree.Reduce | include/diy/detail/algorithms/kdtree.hpp:64-214 | running the list of rounds that the constructor built, one after another, and the last update, keeps the invariant through all iterations |
| KdTree.KdInvStep | include/diy/detail/algorithms/kdtree.hpp:168-214 | an iteration keeps adjacency, tiling, containment and the multiset of points together |
| KdTree.FactorsOfPow2 | include/diy/detail/algorithms/kdtree.hpp:64-67 | a power of two factors into twos, so there is one swap round per bit |
| KdTree.MakePartners | include/diy/detail/algorithms/kdtree.hpp:64-69 | the contiguous histogram partners and the non-contiguous swap partners |
| KdTree.EntryAtEnd | include/diy/detail/algorithms/kdtree.hpp:323-338 | every entry of a finished link has the neighbor's true bounds and as direction a step of one along exactly one dimension, where the neighbor begins at the block's upper face or ends at its lower face as the sign says |
| KdTree.Construct | include/diy/algorithms.hpp:78-132 | whatever the points: nothing throws; cores tile the domain with disjoint interiors, hold their points, together exactly the given ones, and links are the true adjacency with true bounds and true directions |
| GridAxis.EvenBlocks | include/diy/decomposition.hpp:37-44 | the blocks begin at the lower end of the domain, all steps from one to the next are equal, the last ends at the upper end, and it is wider than the others by fewer cells than there are blocks |
| GridAxis.NextBlock | include/diy/decomposition.hpp:37-44 | a block begins where the one before it ends: at the same face with shared faces, otherwise one past it |
| GridAxis.CoresCover | include/diy/decomposition.hpp:37-44 | the cells of the blocks are the cells of the domain |
| GridAxis.CoresApart | include/diy/decomposition.hpp:37-44 | two blocks share at most a face, and that only as neighbors with shared faces |
| GridAxis.GhostsAround | include/diy/decomposition.hpp:510-540 | the bounds with ghosts hold the cells at most so many away from one of the block, cut off at the domain unless the axis is periodic |
| GridAxis.FloorDiv | include/diy/decomposition.hpp:28-35 | truncating division corrected to the floor |
| GridAxis.NormalizeWrap | include/diy/decomposition.hpp:113-122 | the copy of the coordinate inside the domain |
| GridAxis.WrapShift | include/diy/decomposition.hpp:94-104 | how many periods away it is |
| GridAxis.NormalizeCoord | include/diy/decomposition.hpp:135-141 | the remainder, never negative |
| GridAxis.Lower | include/diy/decomposition.hpp:46-55 | computes the index LowerSpec is about |
| GridAxis.Upper | include/diy/decomposition.hpp:56-64 | computes the index UpperSpec is about |
| GridAxis.LowerSpec | include/diy/decomposition.hpp:46-55 | the blocks that end at x or later are exactly those from this index on, shared faces included |
| GridAxis.UpperSpec | include/diy/decomposition.hpp:56-64 | the blocks that start at x or earlier are exactly those below this index, shared faces included |
| GridAxis.WrapHolds | include/diy/decomposition.hpp:788-803 | on a periodic axis a block holds the point if and only if one of its copies is in the range |
| GridAxis.TopBottom | include/diy/decomposition.hpp:769-811 | the range stands, each once, for exactly the blocks whose ghosted bounds contain the point |
| PointToGids.Turn | include/diy/decomposition.hpp:716-723 | the odometer moves to the next number |
| PointToGids.CombosDiffer | include/diy/decomposition.hpp:704-715 | different combinations are different blocks |
| PointToGids.ComboFor | include/diy/decomposition.hpp:704-715 | every block that holds the point is some combination |
| PointToGids.Combine | include/diy/decomposition.hpp:704-724 | the loop terminates and lists every combination once |
| PointToGids.GidsOfPoint | include/diy/decomposition.hpp:688-725 | without duplicates, exactly the blocks whose bounds with ghosts contain the point, by whole periods on periodic axes, in any dimension |
| PointToGids.OwnerOfPoint | include/diy/decomposition.hpp:727-751 | -1 exactly for points outside the domain, otherwise the block that along every axis is the first whose bounds without ghosts contain the point |
| Decompose.All | include/diy/decomposition.hpp:472-481 | whether all entries are the given one |
| Decompose.NextOffset | include/diy/decomposition.hpp:390-397 | from one number in base three to the next |
| Decompose.NeighborAt | include/diy/decomposition.hpp:401-438 | the neighbor the offset leads to, wrapped on periodic axes, or none exactly when it leaves the domain |
| Decompose.BuildLink | include/diy/decomposition.hpp:384-451 | the odometer terminates, and the link lists every neighbor once per direction and nothing else |
| BlockNeighbors.AlongSide | include/diy/decomposition.hpp:401-434 | along an axis, direction 1 says that the neighbor, moved by as many periods as the wrap says, begins where the block ends, -1 that it ends where the block begins, and 0 that it has the same cells, each if and only if |
| BlockNeighbors.AlongIffSomebody | include/diy/decomposition.hpp:407-435 | an offset leads out of the domain exactly if there is no block on that side |
| BlockNeighbors.LinkGeometry | include/diy/decomposition.hpp:401-450 | that holds of every entry of a built link, on every axis |
| BlockNeighbors.EveryDirection | include/diy/decomposition.hpp:384-451 | the link has an entry for a direction if and only if on every axis there is a block on that side |
| Decompose.LinksSymmetric | include/diy/decomposition.hpp:401-438 | going back by the opposite offset leads back with the opposite wrap, also for one or two divisions |
| Decompose.BuiltLinksSymmetric | include/diy/decomposition.hpp:384-451 | (h, d, w) is in the link of g if and only if (g, -d, -w) is in the link of h |
| FillDivisions.Factor | include/diy/decomposition.hpp:669-684 | the factors PrimesSpec is about |
| FillDivisions.PrimesSpec | include/diy/decomposition.hpp:669-684 | primes, ascending, whose product is the number |
| FillDivisions.LeadingIs | include/diy/decomposition.hpp:563-585 | the next factor goes to one of the dimensions with the longest blocks, of those to one with the fewest, and of those to the first |
| FillDivisions.Distribute | include/diy/decomposition.hpp:624-662 | each factor, largest first, goes to the dimension whose blocks are largest by then; fails exactly when that empties a block |
| FillDivisions.DealSpec | include/diy/decomposition.hpp:624-662 | dealing multiplies the number of blocks by the factors and leaves no block empty |
| FillDivisions.Fill | include/diy/decomposition.hpp:585-667 | succeeds exactly when the fixed divisions divide the number of blocks and the rest can be dealt |
| FillDivisions.EnoughRoom | include/diy/decomposition.hpp:624-662 | it succeeds whenever every open dimension has shared faces or room for all the blocks to be distributed |
| FillDivisions.OneOpen | include/diy/decomposition.hpp:624-662 | with a single dimension open it succeeds if and only if that holds |
| FillDivisions.OnePrime | include/diy/decomposition.hpp:624-662 | if what is to be distributed is a prime number, it succeeds if and only if the longest open dimension, the first of equally long ones, has room for all of it |
| FillDivisions.FitsButThrows | include/diy/decomposition.hpp:624-662 | twelve blocks on four by three unshared cells: a decomposition exists and it fails |
| FillDivisions.FilledKeeps | include/diy/decomposition.hpp:585-667 | what the caller fixed is kept and every open dimension is filled |
| FillDivisions.FilledProduct | include/diy/decomposition.hpp:598-602 | the result multiplies to the number of blocks if and only if a division was left open or the given ones already did |
| FillDivisions.FilledEven | include/diy/decomposition.hpp:627-662 | the blocks are as even as cutting the longest one each time makes them: an open dimension that was divided would, with one prime factor less, have blocks at least as long as those along every open dimension |
| FillDivisions.GivenDivisionsUnchecked | include/diy/decomposition.hpp:598-602 | two times two divisions are accepted for eight blocks |
| LoadBalance.HeaviestIsMax | include/diy/detail/algorithms/load-balance.hpp:122-130 | the first of the heaviest free blocks |
| LoadBalance.AuxBlock.constructor | include/diy/detail/algorithms/load-balance.hpp:68-69 | no free blocks and no work |
| LoadBalance.AuxBlock.InitFreeBlocks | include/diy/detail/algorithms/load-balance.hpp:71-91 | every block of the process is free, at home, and its work is in the total |
| LoadBalance.AuxBlock.AnyFreeBlocks | include/diy/detail/algorithms/load-balance.hpp:103-108 | whether there are any |
| LoadBalance.AuxBlock.GrabHeaviest | include/diy/detail/algorithms/load-balance.hpp:110-149 | takes out the heaviest block and its work, or reports that there is none; where it came from first is not filled in |
| LoadBalance.AuxBlock.AddFreeBlock | include/diy/detail/algorithms/load-balance.hpp:151-157 | adds the block and its work |
| LoadBalance.AuxBlock.UpdateMyWorkInfo | include/diy/detail/algorithms/load-balance.hpp:159-179 | the heaviest free block, the total and the count |
| LoadBalance.AuxBlock.UpdateSampleWorkInfo | include/diy/detail/algorithms/load-balance.hpp:181-198 | the info replaces the one of its process or is added, and the samples are sorted by work again |
| LoadBalance.MergedSpec | include/diy/detail/algorithms/load-balance.hpp:181-198 | afterwards the process has the new info and no other, every other process has its info as before, and there is one more info exactly if the process had none |
| LoadBalance.SwapOutSpec | include/diy/detail/algorithms/load-balance.hpp:139-146 | exactly the one block is gone, and exactly its work from the total |
| LoadBalance.ChooseTarget | include/diy/detail/master/dynamic.hpp:160-176 | computes the index TargetInRange and MirrorImage are about |
| LoadBalance.MirrorImage | include/diy/detail/master/dynamic.hpp:160-176 | work is given away if and only if enough samples are no heavier than this process, and their number plus the index is the number of samples |
| LoadBalance.TargetInRange | include/diy/detail/master/dynamic.hpp:160-176 | the index is inside the samples if and only if the quantile is positive or the own work is at least the lightest sample's |
| LoadBalance.TargetPastEnd | include/diy/detail/master/dynamic.hpp:160-176 | quantile zero on the lighter of two processes: the index is the number of samples |
| LoadBalance.SentToLighter | include/diy/detail/master/dynamic.hpp:160-182 | with a quantile above one half the destination is no heavier, and the unsigned test passes if and only if the destination with the block stays lighter than the sender was |
| LoadBalance.SentToHeavier | include/diy/detail/master/dynamic.hpp:175-182 | a concrete setting in which a block goes to a heavier process |
| LoadBalance.ImprovesIff | include/diy/detail/master/dynamic.hpp:160-182 | every block that passes the test improves the balance if and only if the quantile is above one half |
| LoadBalance.PutBack | include/diy/detail/master/dynamic.hpp:180-231 | grabbing and putting back keeps blocks and work but forgets the origin |
| DynamicBalance.PlacesKept | include/diy/detail/master/dynamic.hpp:149-316 | every step of executor and balancer, on any process, keeps the number of places a block is in |
| DynamicBalance.InvStep | include/diy/detail/master/dynamic.hpp:149-370 | every step keeps the global invariant |
| DynamicBalance.NeverTwice | include/diy/detail/master/dynamic.hpp:149-316 | under any interleaving of grabs, lookups, reads, releases and adds a block is in one place at most, has one turn at most, and where it has its turn its master keeps it |
| DynamicBalance.WorkIsSum | include/diy/detail/algorithms/load-balance.hpp:110-157 | at every moment the work total is the sum over the free blocks, in 32-bit arithmetic |
| DynamicBalance.EveryTurnOnce | include/diy/master.hpp:839-888 | when balancing has stopped and the executors are idle, every block has had exactly one turn, on exactly one process |
| DynamicTurns.LidStep | include/diy/master.hpp:735-784 | the lid of a block that is not leaving changes exactly when a release lets it take the freed lid, and then goes down |
| DynamicTurns.HitIffStill | include/diy/master.hpp:232-286 | a read by lid gets the block if and only if that is still its lid |
| DynamicTurns.ReadIsRight | include/diy/detail/master/execution.hpp:166-178 | a read by a looked-up lid gets the block that was looked up if and only if no release has moved it in between, on every run |
| DynamicTurns.RunCalls | include/diy/detail/master/execution.hpp:176-177 | in every turn each command is called exactly once |
| DynamicTurns.NothingSentNothingWrong | include/diy/detail/master/dynamic.hpp:338-357 | in a setting in which nothing can be sent, every command gets the block whose turn it is, its proxy included |
| DynamicTurns.EveryBlockOnce | include/diy/detail/master/execution.hpp:180-199 | when all calls were right, balancing has stopped and the executors are idle, every command has run exactly once on every block, on exactly one process |
| DynamicRuns.WrongRun | include/diy/detail/master/execution.hpp:166-178 | for every setting in which something can be sent there is a run in which a command gets a read past the end of the arrays |
| DynamicRuns.FaithfulIff | include/diy/detail/master/execution.hpp:166-178 | all runs hand every command its own block if and only if nothing can be sent, which the caller can tell from the sample fraction, the number of processes and the quantile |
| DynamicSwap.BlockRunTwice | include/diy/detail/master/execution.hpp:166-178 | a whole run, from five free blocks on two processes until both have stopped with nothing left, in which a block is sent and one received between lookup and read: one block is handed out twice, another never |
| DynamicDone.JointStep | include/diy/detail/master/dynamic.hpp:318-370 | every move of load balancing and iexchange together keeps track of every block under way: in a proxy's buffers, in a queue, or taken in and not dequeued yet |
| DynamicDone.DoneMeansStopped | include/diy/detail/master/dynamic.hpp:373-386 | when iexchange reports done anywhere, no block is under way and every process is between callbacks, the last of which had no free block left |
| DynamicDone.OnceDone | include/diy/master.hpp:839-888 | then, with the executors idle, every block has had exactly one turn, and every command exactly one call with it if all calls were right |
| DynamicEnds.CanEnd | include/diy/master.hpp:839-888 | every start has a joint run after which every process is done, the executors are idle and load balancing has stopped |
| Execution.OrderBlocks | include/diy/detail/master/execution.hpp:117-123 | a permutation of the blocks with the loaded ones first |
| Execution.PlanThreads | include/diy/detail/master/execution.hpp:125-137 | with a limit, as many threads as allowed and the most blocks each such that together they stay within it |
| Execution.InvStep | include/diy/detail/master/execution.hpp:18-75 | every step of every thread keeps the invariant: no two threads care for the same block |
| Execution.EveryCommandOnce | include/diy/detail/master/execution.hpp:18-75 | under any interleaving every command runs at most once on every block, and exactly once when all threads have joined |
| Execution.NullOnlyIfSkipped | include/diy/detail/master/execution.hpp:61-66 | a block that is not skipped is loaded whenever a command runs on it |
| Execution.LoadedWithinLimit | include/diy/detail/master/execution.hpp:34-59 | after joining, no more blocks are loaded than all threads may keep |
| Execution.NoFatal | include/diy/detail/master/execution.hpp:159-160 | so the fatal error is not reached |
| ExecutionEnds.EveryRunEnds | include/diy/detail/master/execution.hpp:18-75 | under every interleaving: no run has more acts than one a thread, and for every block four and one a command |
| ExecutionEnds.GoesOnUntilJoined | include/diy/detail/master/execution.hpp:139-152 | a run can go on if and only if not all threads have joined |
| ExecutionLimit.TwoParts | include/diy/detail/master/execution.hpp:34-59 | once a block not in memory at the start has been claimed, with c threads between claiming a loaded block and putting it on their lists: what is loaded is at most the blocks in memory at the start plus what the other threads may keep, and at most what all may keep and c more |
| ExecutionLimit.NeverOver | include/diy/detail/master/execution.hpp:18-75 | unless the condition of OverLimitIff holds, no state of any interleaving has more blocks loaded than the limit |
| ExecutionLimit.OverRun | include/diy/detail/master/execution.hpp:18-75 | if it holds, a run from the ordered blocks that ends with more blocks loaded than the limit |
| ExecutionLimit.OverLimitIff | include/diy/detail/master/execution.hpp:117-137 | for any limit, number of threads, blocks, skips and number of blocks in memory at the start: whether some interleaving goes over the limit, by a condition on these numbers alone |
| ExecutionLimit.ThreeForTwo | include/diy/detail/master/execution.hpp:41-58 | a concrete run that holds three blocks with limit two |
| MasterBlocks.Collection.constructor | include/diy/collection.hpp:28-38 | no elements, none in memory |
| MasterBlocks.Collection.Add | include/diy/collection.hpp:50 | appends the element, in memory |
| MasterBlocks.Collection.Unload | include/diy/collection.hpp:116-130 | moves an element out of memory without changing its contents |
| MasterBlocks.Collection.Load | include/diy/collection.hpp:132-145 | what was unloaded comes back |
| MasterBlocks.Collection.Get | include/diy/collection.hpp:55 | hands out the element, loading it only if need be |
| MasterBlocks.Collection.Release | include/diy/collection.hpp:99-114 | hands out the element, in memory or not, and lets the last one take its index |
| MasterBlocks.SizeUnique | include/diy/link.hpp:365-372 | the number of different blocks a link names |
| MasterBlocks.Master.constructor | include/diy/master.hpp:514-556 | no blocks |
| MasterBlocks.Master.UnloadAll | include/diy/master.hpp:257-262 | nothing is in memory and no content has changed |
| MasterBlocks.Master.Add | include/diy/master.hpp:735-754 | appended to all parallel arrays, with room made first, so a positive limit that held still holds |
| MasterBlocks.Master.Release | include/diy/master.hpp:756-784 | hands out the block and lets the last one take its lid in all parallel arrays at once |
| MasterBlocks.Master.ReplaceLink | include/diy/master.hpp:418-425 | one link changes and the expected count follows |
| MasterBlocks.Master.Load | include/diy/master.hpp:643-651 | keeps all bookkeeping and contents |
| MasterBlocks.Master.Unload | include/diy/master.hpp:580-588 | keeps all bookkeeping and contents |
| MasterBlocks.SumUniqueSwapOut | include/diy/master.hpp:767-772 | taking out a link lowers the expected count by its unique neighbors |
| MasterBlocks.InverseSwapOut | include/diy/master.hpp:774-781 | the two maps stay inverse when the last block moves to the freed lid, the released block being the last included |
| MasterBlocks.AddThenRelease | include/diy/master.hpp:735-784 | adding a block and releasing it gives it back and leaves ids, links, contents and expected count as they were |

## Left out

- IExchangeSafety.DoneMeansQuiet: one run from a quiet network with a single thread per process and non-empty queues without blobs that fit one message; multi-part queues and blobs are counted differently by the sender and the receiver (include/diy/master.hpp:1409, 1439, 1456 and 1566), and the variant with a worker thread and the overlap of two runs are not modelled.
- IExchangeSafety.RunInv: the actions of the loop may come in any order, which allows more runs than the program has; a process that has left its loop takes no more steps.
- FrameProgress.CanComplete: processes that have not begun a round may post empty queues along their edges, or nothing in a remote round, to let the others leave it.
- FrameSafety.RoundComplete: posting the messages of one queue is one step, as nothing in the sender happens in between; the bound on the number of sends in flight and the order of the outgoing queues are left open, which allows more runs than the program has; a queue's position is at its end, as the proxy leaves it.
- ExchangeSafety.ExchangeStep: messages may arrive in any order and a request is named by the queue it carries, which allows more runs than the program has.
- Framing.InfoRoundTrip: how an int becomes four bytes is left open, as long as it can be read back.
- Framing.RoundTrip: one first-in-first-out channel; the limit is a parameter.
- AllToAll.AllToAllExchange: the exchange between two rounds hands each queue to its addressee, one per partner, as ReduceExchange.RoundDelivers shows of the messages; a buffer is a sequence of tokens (pairs, sizes, bytes) with their widths. A fanout below two does not terminate in the factoring and is excluded.
- ReduceExchange.ReduceHolds: what a payload stands for is a function that is given, and that a callback posts what stands for what it received is the assumption on it; the queues of blocks that are skipped besides the inactive ones are left out.
- SampleSort.SortAcrossBlocks: a value is one integer under an arbitrary strict weak order, with its serialization left out; the random picks are arbitrary.
- KdTree.Construct: coordinates are reals, the boundaries are not periodic, the domain is not degenerate, there are at least two blocks and three bins; the test for a power of two is the precondition. Blocks that are inactive in a histogram round carry no histogram. The last loop of the driver, which sets the expected count, is what ExchangeSafety.LinksExpect is about.
- DynamicBalance.NeverTwice: the incoming queues that travel with a block are not modelled, nor are fix_links and fix_queues.
- DynamicTurns.ReadIsRight: of the two arguments of a command the block is evaluated first, an order the language leaves open; what a read outside the arrays yields is undefined in the source and here a value no block has.
- DynamicDone.DoneMeansStopped: a message to another process is a number, told apart from all others, and what it is serialized to is left out; requests and work infos may be taken in at any time.
- Execution.EveryCommandOnce: the queues loaded and unloaded along with a block are not modelled.
- Execution.PlanThreads: a limit of 0 divides by zero in the source and is excluded.
- MasterBlocks.Master.Add: gids are new, as the uniqueness of global ids demands; with a gid that is already present the two maps would stop being inverse.
- MasterBlocks.Collection.Load: external storage is a map from id to bytes, and what save writes load reads back.
- Decompose.BuildLink: of a link only the neighbor, direction and wrap are kept; the cores and bounds stored beside them are not.
- PointToGids.GidsOfPoint: discrete bounds only, with blocks at least one wide on every axis.
- Fairness: that a run can be continued to its end is proved, not that every scheduler does so.
- Integer overflow, except in the work total of load balancing, which is 32 bits wide.
- Floating-point rounding, and the variants of the bounds helper for continuous bounds.
- The kd-tree variant that splits by samples: its split may fall on a face of the block.
- LoadBalance.ImprovesIff: about the loads the sender knows of, which may be stale.
- Collectives through the proxy, coroutines, profiling, logging, link factories, static assigners, files and file storage, NumPy and Python bindings, MPI wrappers and examples: plumbing or input and output.
