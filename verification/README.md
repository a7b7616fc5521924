# A verified model of UNR's notified RDMA

UNR splits every RDMA message over several channels and reports completion through one 64-bit
counter, a *signal*. This project models, in Dafny, the parts of the library where that can go wrong,
and proves what they keep in every run:

* **Split, Signal, Plan, Transfer**: a message is cut into pieces with a round-robin cursor, each piece
  carries a signed increment, pieces land and are counted in any order. The counter is zero exactly
  when every piece of every expected message has been counted, and then the whole memory is what one
  contiguous copy per message would have made of it. The builder of a plan is proved to put every
  byte on exactly one list entry, and a plan that is created too early and built at its first start
  has the lists it would have had at once.
* **Delivery, EntryRun, PlanRun, PlanMeaning, VerbsEvents**: the same end to end. The lists of a plan send every
  signal exactly one event per message; however the entries of those lists are carried out and counted,
  PUTs and GETs, both classes of channels, the run is a run of Transfer, so a triggered signal means
  that the messages of the plan have been delivered. PlanMeaning says all of this in the caller's own terms:
  for every list entry its direction, memories, addresses and flags, for every flag its events, and for
  every byte where it stands, spelled out in the fields of the caller's blocks and arrays. VerbsEvents says
  which plans verbs channels accept.
* **IntPool, SlotTable, CtrlProtocol, TagMatch, Grouping, ReqTable**: the MPI channel. Sender and
  receiver exchange create, start, destroy and execute messages under recycled ids, tags are recycled
  after local completion only, requests are completed and removed by swapping while other threads
  append.
* **VerbsFlow**: the send-queue gate of the verbs channel against the daemon that counts completions
  and posts follow-up writes without looking at the gate.
* **RingQueue, SigPool**: signal pools over a ring of one cell more than signals.
* **MemLayout, MemSync**: the layout of memory handles, the growing registration table, the exchange
  of handles between ranks. MemSync runs on the cells of handles, from registration through gathering to
  reading a header back, and provides the growing registries that late building of plans needs.

`Arith` and `Pigeonhole` hold facts about integers and finite sets.

Code that the library runs step by step on arrays and fields is written here as methods and classes
(`Split.Divide`, `Signal.FillSigAdd`, `Transfer.Poll`, `Transfer.Rearm`, `Transfer.Progress`, `Plan.BuildLists`, `Plan.Planned`,
`IntPool.PoolCells`, `SlotTable.Slots`, `ReqTable.Requests`, `Grouping.FormBatches`, `RingQueue.Ring`,
`SigPool.Pool`, `VerbsEvents.FillEvents`, `MemLayout.Combine`, `MemLayout.LayOut`, `MemSync.Registered`, `MemSync.Sync`), proved
against functions on values. Where threads or ranks interleave, a state machine has one step per
atomic action, and the theorems range over all its runs.

## Rules of the environment

They are stated as guards of steps or as `requires`, and nowhere else:

* Control messages of one sender arrive in order, and the k-th send meets the k-th receive of the
  same source, destination and tag (non-overtaking, section 3.5 of the MPI 3.1 standard).
* A signal is created for fewer than 2^31 events, at most as many messages as it expects are started
  between two resets, the destinations of those that arrive do not overlap, and fewer than 2^31 pieces
  beyond the first of each message are under way (documented layout, `src/unr/base/unr_blk.c:360-363`).
* The bytes of a message are fixed from its start on: its source is not written until the message is
  complete.
* The program's assertions are those of a build with `URU_ENABLE_ASSERT`; a failing one stops the
  program.
* All ranks use the same channels in the same order, so the layout of handles is the same everywhere.
* The channels of a class have one positive block size (`src/unr/base/unr_channel.c:198-204`).
* Completed indices are strictly increasing (`src/uri/mpi/uri_mpi_channel.c:227-231`).
* A plan is not restarted before its last round is over locally; pooled signals are re-armed by detect
  only.
* A channel that registers a memory fills its own part of the handle and nothing else; the gather
  calls put each rank's buffer at the given displacement.

## Where the code and its promises part

* `src/unr/base/unr_sig.c:35`: `1<<31` is an `int`, so the mask extends over the high half and the
  check stops the program whenever the piece count is not zero, not only on an overflow. Both checks
  are modelled. `Signal.ChecksDiffer` says on which counters they differ, `Transfer.ReadingsInRun` when
  this happens in a run, and `Transfer.NoFalseAlarmIff` that it never happens for messages up to a size
  exactly if every class in use has one channel or blocks longer than half of that size.
* `src/uri/mpi/uri_mpi_channel.c:238` asserts `counter >= 0`. A later piece that completes before the
  first makes the counter negative in a correct run; the same lemmas give the exact condition.
* `src/unr/base/unr_sig.c:17`: the bound is compared as an unsigned number of 64 bits, so up to
  2^64 - 2^31 - 1 events are accepted. `Signal.CreateUsable`: creation gives a signal that works if and
  only if the intended bounds hold.
* `src/unr/base/unr_blk.c:309`: an empty message has no piece and produces no event, so a signal that
  counts on it is never triggered (`Transfer.EmptyNeverTriggers`; `Transfer.EmptyRun` is such a run).
* A rank that both writes to itself and reads from itself can have a message matched with the wrong
  operation, because the tag is given back after local completion
  (`src/uri/mpi/uri_mpi_channel.c:251-253`). `TagMatch.MatchedIff` gives the exact condition.
* `src/uri/verbs/uri_verbs_rdma.c:5` accepts the increment -1 only, wherever an end of a piece has a
  flag. No piece of a message in several pieces carries it (`VerbsEvents.TwoPiecesRefused` is the
  smallest case), so `VerbsEvents.PlanTaken`: verbs channels accept a plan if and only if each message of
  the class is empty, has no flag at either end, is shorter than two blocks, or there is one channel.
* `src/uri/mpi/uri_mpi_channel.c:111-121`: the destroy branch has no assertion; a missing slot is a
  null dereference. Both count as a crash in the model, and `CtrlProtocol.ReceiverReplaysSender` shows
  that neither happens.

## Model

| member | source | states |
|---|---|---|
| Split.Divide | src/unr/base/unr_blk.c:325-358 | the loops leave the shares of the specification, their offsets and the new cursor |
| Split.DealRest | src/unr/base/unr_blk.c:332-344 | the remainder loop, step by step, terminates and deals what the specification deals |
| Split.DealClosed | src/unr/base/unr_blk.c:332-344 | what channel j receives, from its distance to the cursor alone, and the number of visits |
| Split.DealingEnds | src/unr/base/unr_blk.c:332-344 | the remainder loop stops within as many visits as there are channels |
| Split.SharesSum | src/unr/base/unr_blk.c:345-351 | the shares sum to the size: the program's own assertion never fails |
| Split.SharesBalanced | src/unr/base/unr_blk.c:329-344 | all shares but at most one are whole blocks, any two differ by less than two blocks |
| Split.PieceCount | src/unr/base/unr_blk.c:329-344 | a message that is not empty has exactly max(1, min(n, size / B)) pieces |
| Split.SinglePiece | src/unr/base/unr_blk.c:329-344 | a message stays in one piece if and only if there is one channel or it is shorter than two blocks |
| Split.PieceOfByte | src/unr/base/unr_blk.c:354-358 | every byte of the message lies in a piece |
| Split.OnlyPieceOfByte | src/unr/base/unr_blk.c:354-358 | and in no other |
| Split.DividedWalks | src/unr/base/unr_blk.c:332 | the visits of one message continue the cyclic walk of the cursor |
| Split.WalkFair | src/unr/base/unr_blk.c:328-344 | a cyclic walk visits any two channels equally often, up to one |
| Signal.FillSigAdd | src/unr/base/unr_blk.c:364-394 | the three loops with their early exits give every piece the increment of the layout |
| Signal.IncrementsSpelledOut | src/unr/base/unr_blk.c:360-394 | the layout in numbers: a lone piece carries -1, the first of several announces the others in the high half, each other piece takes one off it |
| Signal.MessageContribution | src/unr/base/unr_blk.c:360-394 | whatever pieces of a message are counted: their sum, its two halves, and complete if and only if counted with balance zero |
| Signal.RunResidue | src/unr/base/unr_blk.c:360-394 | after any increments the low half is num_event less the messages counted, even past 64 bits |
| Signal.OverflowBit | src/unr/base/unr_blk.c:361-363 | bit 31 is set if and only if more messages than num_event were counted (excess at most 2^31), whatever pieces are in flight |
| Signal.OverflowBitLimit | src/unr/base/unr_blk.c:361-363 | one message more and the bit is clear again: the bound is tight |
| Signal.OverflowBitOfParts | src/unr/base/unr_blk.c:361-394 | the same for the increments the builder gives: any pieces of any messages in any order |
| Signal.ChecksDiffer | src/unr/base/unr_sig.c:35-44 | when the check as written and the check of the layout disagree, and how |
| Signal.SigCreate | src/unr/base/unr_sig.c:14-28 | 1 to 2^31 - 1 events give a signal that counts them down, zero gives none, and of the numbers above only the last 2^31 of 64 bits are refused |
| Signal.CreateUsable | src/unr/base/unr_sig.c:16-24 | a signal is made, waits when fresh and resets to its fresh value if and only if num_event is from 1 to 2^31 - 1 |
| Signal.CreateTooLarge | src/unr/base/unr_sig.c:17 | 2^31 events are accepted and the fresh signal reads overflow |
| Transfer.TriggeredIffAllCounted | src/unr/base/unr_blk.c:360-394 | in every run, messages of any mix of classes, arriving or leaving: the counter is zero if and only if num_event messages were started and every piece of each is counted |
| Transfer.TriggeredMeansDelivered | src/unr/base/unr_blk.c:329-448 | in every run a triggered signal means every message that arrives is in place and memory equals one contiguous copy per message |
| Transfer.CountIsExactAndCurrent | src/uri/mpi/uri_mpi_channel.c:236-242 | no addition wraps, and every completion counts for the current round |
| Transfer.ResetLeavesNothing | src/unr/base/unr_sig.c:63-70 | at a reset every piece of this and of all earlier rounds has landed and been counted |
| Transfer.ReadingsInRun | src/unr/base/unr_sig.c:30-45 | the overflow bit stays clear in every run; when the written check reports overflow and when the counter is negative |
| Transfer.EmptyMessageBlocksTrigger | src/unr/base/unr_blk.c:309-311 | with all messages asked for and counted, triggered if and only if none was empty |
| Transfer.EmptyNeverTriggers | src/unr/base/unr_blk.c:309-311 | in every state after an empty message was started the signal is not triggered |
| Transfer.EmptyRun | src/unr/base/unr_blk.c:309-311 | a run that starts one |
| Transfer.Progress | src/uri/mpi/uri_mpi_channel.c:236-242 | the addition to the flag follows the run |
| Transfer.Poll | src/unr/base/unr_sig.c:30-45 | what a check reads at any moment of any run: triggered if and only if all expected messages are counted, and then memory is right; the program stops if and only if the pieces are out of balance |
| Transfer.Rearm | src/unr/base/unr_sig.c:63-70 | a reset succeeds exactly where the run can go into the next round, and leaves the flag there |
| Transfer.FalseAlarmRun | src/uri/mpi/uri_mpi_channel.c:237-238 | in any class of two channels or more, a legal run with one message of two blocks that makes the counter negative and the written check stop |
| Transfer.NoFalseAlarmIff | src/unr/base/unr_sig.c:35-38 | written check and assertion are right in every run with messages up to a size if and only if every class in use has one channel or blocks longer than half of it |
| Transfer.NoFalseAlarmIffOneChannel | src/unr/base/unr_sig.c:35-38 | for messages of any size: if and only if every class in use has one channel |
| Plan.PutPieces | src/unr/base/unr_blk.c:398-449 | every list of a class gets the piece of the message if it has one there, and no other list changes |
| Plan.AddMessage | src/unr/base/unr_blk.c:305-450 | one message extends all lists and the cursor of its class only |
| Plan.BuildLists | src/unr/base/unr_blk.c:239-450 | builds exactly the specified list of every channel, and stops if and only if a message is not admissible |
| Plan.ListFits | src/unr/base/unr_blk.c:267-278 | no list outgrows its num_sends entries |
| Plan.PieceInOrder | src/unr/base/unr_blk.c:405-407 | lists are in message order, and a piece stands behind all earlier messages |
| Plan.PiecesMakeMessage | src/unr/base/unr_blk.c:354-394 | the pieces of a message cover it and their increments sum to one event |
| Plan.ByteCarried | src/unr/base/unr_blk.c:398-421 | every byte is carried by a piece on its channel's list, between corresponding places |
| Plan.ByteCarriedOnce | src/unr/base/unr_blk.c:398-421 | and by no second piece of the message |
| Plan.PieceInBounds | src/uri/mpi/uri_mpi_rdma.c:35-41 | the channel's bounds assertions hold if the part is in its block and the block in its memory |
| Plan.ClassWalks | src/unr/base/unr_blk.c:250-344 | each class has its own cursor, which messages of the other class do not move |
| Plan.ClassFair | src/unr/base/unr_blk.c:250-344 | over a batch of messages of any sizes, visits to two channels of a class differ by at most one |
| Plan.MemSynced | src/unr/base/unr_blk.c:175-182 | the loop decides whether every remote block lies within what its rank's last synchronised table has |
| Plan.SnapshotIsCopy | src/unr/base/unr_blk.c:191-232 | what is saved is each of the caller's arrays, null where that is null, and the caller's direction |
| Plan.CreateFrom | src/unr/base/unr_blk.c:155-241 | the decision on the values of the arrays: build, save or stop |
| Plan.Create | src/unr/base/unr_blk.c:147-241 | with all remote blocks known the plan is built at once, also under once-now, unless an assertion fails; with one unknown it is saved as status 1, and stops if and only if once-now is set |
| Plan.Planned.Start | src/unr/base/unr_blk.c:528-535 | the first start builds from the saved copy, later starts leave the lists alone |
| Plan.SameLists | src/unr/base/unr_blk.c:395-400 | more registered memory does not change the list of a channel |
| Plan.DeferredIsImmediate | src/unr/base/unr_blk.c:155-241 | over any history of registrations and synchronisations, late lists equal those built at once, and the late build succeeds |
| Delivery.MessageAdds | src/unr/base/unr_blk.c:398-449 | one message adds one event to the lists of its own class if it reports to the signal, and nothing to the other class |
| Delivery.OneEventPerMessage | src/unr/base/unr_blk.c:360-449 | over all lists of a plan as built, the increments for a flag of a rank, at either end, sum to minus the number of messages that report to it |
| EntryRun.Simulated | src/uri/mpi/uri_mpi_channel.c:233-242 | carrying out and counting list entries in any order is a run of Transfer for the messages the entries belong to |
| EntryRun.TriggeredInRun | src/uri/mpi/uri_mpi_channel.c:233-242 | in every such run, triggered if and only if all messages are expected and all their entries counted, and then all that arrive are in place |
| PlanRun.OwnerOf | src/unr/base/unr_blk.c:398-421 | every list entry is the piece of one message, and stands where the earlier messages end |
| PlanRun.PieceInMessage | src/unr/base/unr_blk.c:398-448 | it moves its share of the bytes, PUT or GET, to its place, for the same signals as the message |
| PlanRun.BookIsKept | src/unr/base/unr_blk.c:395-462 | the lists of a plan as built carry exactly the pieces of its messages, and entries of other signals stay clear of them |
| PlanRun.TriggeredMeansPlanDelivered | src/unr/base/unr_blk.c:305-462 | a plan as built, entries in any order, PUTs and GETs over both classes: the signal is triggered if and only if as many ends report as expected and all their entries are counted, and then every message that arrives under it is delivered byte for byte |
| PlanRun.EntryCanBeCarried | src/uri/mpi/uri_mpi_rdma.c:35-41 | nothing stops an entry of such a plan |
| PlanMeaning.MessageAccepted | src/unr/base/unr_blk.c:284-449 | which single message passes the assertions, in the fields of its blocks |
| PlanMeaning.AdmissibleMeans | src/unr/base/unr_blk.c:239-449 | the arguments on which no assertion fails, in the fields of the blocks |
| PlanMeaning.EntryMeans | src/unr/base/unr_blk.c:289-449 | every list entry is a part of one message: its direction from the dma argument, class from the target's node, memories, channel part, addresses and flags from the caller's blocks, offsets and signals |
| PlanMeaning.ByteHasEntry | src/unr/base/unr_blk.c:289-449 | and every byte of every message is in such a part |
| PlanMeaning.EntriesOfMessage | src/unr/base/unr_blk.c:250-344 | a message gets one entry per whole block of its class, at least one and at most one per channel |
| PlanMeaning.EventsMean | src/unr/base/unr_blk.c:360-449 | over all lists, a flag of a rank gets one event for each message whose local, or remote, end is for it by the caller's signals and blocks |
| PlanMeaning.PutBatchEvents | src/unr/base/unr_blk.c:424-449 | PUTs without signal arrays: one event off the receive flag of each remote block and off the send flag of each local one |
| PlanMeaning.GetBatchEvents | src/unr/base/unr_blk.c:424-449 | GETs without signal arrays: off the send flag of each remote block and the receive flag of each local one |
| PlanMeaning.TriggeredForCaller | src/unr/base/unr_blk.c:305-462 | in every run over the entries, the flag is triggered if and only if as many of the caller's message ends are for it as expected and every entry that names it is counted |
| PlanMeaning.PutByteDelivered | src/uri/mpi/uri_mpi_rdma.c:41-63 | then byte b of each PUT for it stands at address plus block offset plus given offset plus b of the remote memory, and is the byte at the like place of the local one |
| PlanMeaning.GetByteDelivered | src/uri/mpi/uri_mpi_rdma.c:41-63 | and byte b of each GET for it the other way round |
| VerbsEvents.FillEvents | src/uri/verbs/uri_verbs_rdma.c:76-91 | the loop accepts the pieces of a channel if and only if each carries -1 or has no flag at either end |
| VerbsEvents.PlainEvents | src/uri/verbs/uri_verbs_rdma.c:4-10 | all increments of a message are -1 if and only if there is one channel or it is shorter than two blocks |
| VerbsEvents.TwoPiecesRefused | src/uri/verbs/uri_verbs_rdma.c:5 | two channels and two blocks: neither increment is -1 |
| VerbsEvents.PlanTaken | src/uri/verbs/uri_verbs_rdma.c:76-91 | verbs channels accept all lists of a plan if and only if each message of the class is empty, unflagged, shorter than two blocks, or the class has one channel |
| IntPool.DecodeEncode | src/uri/mpi/uri_mpi_utils.c:16-22 | returning undoes the rank encoding of getting |
| IntPool.EncodeDecode | src/uri/mpi/uri_mpi_utils.c:16-22 | and the other way round for ids of the rank |
| IntPool.EncodeBelowLimit | src/uri/mpi/uri_mpi_utils.c:12-16 | ids stay below 2100000000 |
| IntPool.EndsDisjoint | src/uri/mpi/uri_mpi_utils.c:16 | ids of two ranks never coincide |
| IntPool.HeldDistinct | src/uri/mpi/uri_mpi_utils.c:4-32 | over any gets and returns of held numbers, no number is held twice and none is lost |
| IntPool.IdsOfAPairDistinct | src/uri/mpi/uri_mpi_utils.c:4-32 | ids held at one time by the two ends of a pair are distinct |
| IntPool.PoolCells.Get | src/uri/mpi/uri_mpi_utils.c:4-18 | takes the top of the stack, or the next number when it is empty, and encodes it; stops exactly when the number, or the next one, reaches 2100000000 / size |
| IntPool.StopsWhenUsedUp | src/uri/mpi/uri_mpi_utils.c:6-14 | with returns of held ids only, a get stops the program exactly when nothing has come back and the numbers are used up |
| IntPool.PoolCells.Return | src/uri/mpi/uri_mpi_utils.c:20-32 | pushes the decoded number, through reallocation, and stops exactly for an id of another rank |
| SlotTable.Slots.Grow | src/uri/mpi/uri_mpi_channel.c:84-91 | a table too short for the id grows to 2 * id + 16 slots and keeps every slot |
| SlotTable.Slots.ProcessMessage | src/uri/mpi/uri_mpi_channel.c:79-165 | what each kind of message does to the slot array, what it posts, and when it stops; the same as the table value |
| CtrlProtocol.ReceiverReplaysSender | src/uri/mpi/uri_mpi_channel.c:79-165 | in every run the receiver does not stop and its table is the replay of the consumed part of the history |
| CtrlProtocol.NextMessageFinds | src/uri/mpi/uri_mpi_channel.c:93-126 | a create meets a free slot, a start or destroy exactly the batch its sender meant |
| CtrlProtocol.CaughtUp | src/uri/mpi/uri_mpi_rdma.c:115-136 | with all messages processed the table holds exactly the sender's live batches |
| CtrlProtocol.ReceiverPostsWhatWasMeant | src/uri/mpi/uri_mpi_channel.c:122-158 | the operations posted are, message by message, those the sender meant |
| CtrlProtocol.TakenIdNotInUse | src/uri/mpi/uri_mpi_rdma.c:121 | an id taken from the pool has no other holder, though ids return before the receiver sees the destroy |
| TagMatch.WhoPosts | src/uri/mpi/uri_mpi_rdma.c:52-85 | the initiator of a PUT sends and its target receives, for a GET the reverse, and nothing else posts |
| TagMatch.AlwaysAligned | src/uri/mpi/uri_mpi_rdma.c:63-77 | per tag, local posts and control messages are one use apart at most |
| TagMatch.RemoteFollowsCtrl | src/uri/mpi/uri_mpi_channel.c:137-158 | remote posts follow the order of the control messages |
| TagMatch.StreamsAgree | src/uri/mpi/uri_mpi_channel.c:251-258 | per tag, local and remote posts are in the same order although the tag is recycled early |
| TagMatch.MatchedInRun | src/uri/mpi/uri_mpi_rdma.c:63-77 | every message meets the operation its own control message described |
| TagMatch.SelfMismatch | src/uri/mpi/uri_mpi_rdma.c:33-34 | the run in which a rank's read from itself takes the message of its write |
| TagMatch.MatchedIff | src/uri/mpi/uri_mpi_channel.c:251-253 | all runs match if and only if the ranks differ or a rank talks to itself in one direction at most |
| Grouping.FormBatches | src/uri/mpi/uri_mpi_rdma.c:90-113 | the two loops as they run: as many batches as counted, and those of the specification |
| Grouping.CountAgrees | src/uri/mpi/uri_mpi_rdma.c:91-103 | the counting loop and the batch-forming loop agree |
| Grouping.BatchesTile | src/uri/mpi/uri_mpi_rdma.c:103-113 | the batches tile the sorted array |
| Grouping.BatchIsRank | src/uri/mpi/uri_mpi_rdma.c:103-113 | a batch holds exactly the operations of one rank |
| Grouping.RanksIncrease | src/uri/mpi/uri_mpi_rdma.c:103-113 | ranks strictly increase from batch to batch |
| Grouping.OneBatchPerReceiver | src/uri/mpi/uri_mpi_rdma.c:90-113 | every receiver that occurs has one batch and no second one, with precisely its operations, each as often as before sorting |
| Grouping.BatchHoldsReceiver | src/uri/mpi/uri_mpi_rdma.c:103-113 | and every batch is such a batch |
| ReqTable.Requests.Append | src/uri/mpi/uri_mpi_utils.c:40-56 | appends in order, through reallocation, arrays paired |
| ReqTable.Requests.Compact | src/uri/mpi/uri_mpi_channel.c:261-296 | leaves the old requests less the completed ones as a multiset, arrays paired, tail lower by their number |
| ReqTable.Requests.CutCompleted | src/uri/mpi/uri_mpi_channel.c:267-270 | the inner loop removes completed requests at the tail |
| ReqTable.Requests.MoveLast | src/uri/mpi/uri_mpi_channel.c:271-276 | the last request takes the place of a completed one |
| ReqTable.NothingLost | src/uri/mpi/uri_mpi_channel.c:198-296 | at every moment of every run: appended + processed and not yet removed = in the table + processed |
| ReqTable.InHandInTable | src/uri/mpi/uri_mpi_channel.c:206-211 | what is processed and not yet removed is still in the table, in spite of appends |
| ReqTable.ProcessedAtMostOnce | src/uri/mpi/uri_mpi_channel.c:233-242 | an operation applies its increment at most as often as it was appended |
| VerbsFlow.QueueNeverOverflows | src/uri/verbs/uri_verbs_rdma.c:122-132 | in every run at most 256 requests are in a send queue, at most 257 reserved |
| VerbsFlow.FollowUpHasRoom | src/uri/verbs/uri_verbs_rdma.c:161-179 | the daemon's ungated follow-up always finds room |
| VerbsFlow.SubmitCoversFinish | src/uri/verbs/uri_verbs_rdma.c:121-140 | the sender's assertion holds whenever it is evaluated, and the two counters differ by what is reserved |
| VerbsFlow.OneFollowUpPerRead | src/uri/verbs/uri_verbs_channel.c:129-135 | once drained, every notified READ had exactly one follow-up |
| VerbsFlow.BoundsAreTight | src/uri/verbs/uri_verbs.h:10 | runs reach 256 requests in the queue and 257 reserved |
| RingQueue.Ring.constructor | src/uru/type/queue.c:6-13 | an empty ring of queue_size + 1 cells |
| RingQueue.Ring.Push | src/uru/type/queue.c:15-26 | appends, and fails if and only if queue_size entries are held |
| RingQueue.Ring.Pop | src/uru/type/queue.c:28-48 | takes the oldest entry, or -1 |
| SigPool.Pool.Complete | src/uri/mpi/uri_mpi_channel.c:236-242 | adds, and pushes the index exactly when the counter reaches zero |
| SigPool.Pool.Detect | src/unr/base/unr_sig.c:91-101 | pops and re-arms one signal, or -1 |
| SigPool.QueueSound | src/unr/base/unr_sig.c:77-101 | in every run the ring is not full on push and no index is queued twice |
| SigPool.NoDetectionLost | src/unr/base/unr_sig.c:91-101 | zero crossings = detections + entries on the way, per signal |
| SigPool.TriggeredIsQueued | src/uri/mpi/uri_mpi_channel.c:239-241 | zero if and only if all announced pieces are counted, and then the signal is on its way to detect |
| MemLayout.Combine | src/unr/base/unr_channel.c:126-145 | the loops build the combined list within its table, and the reuse map |
| MemLayout.AvailIsUnion | src/unr/base/unr_channel.c:126-150 | the combined list holds every channel of both lists once, so channel ids are distinct |
| MemLayout.AvailFits | src/unr/base/unr_channel.c:61-64 | it fits the table of all known channels |
| MemLayout.LayOut | src/unr/base/unr_channel.c:153-171 | every channel is opened once, in list order, and both offset arrays name its place; reused channels share it |
| MemLayout.PartsDisjoint | src/unr/base/unr_channel.c:153-171 | the parts of two channels do not overlap and lie between header and end |
| MemLayout.PartsFill | src/unr/base/unr_channel.c:153-171 | every cell behind the header belongs to a channel |
| MemSync.Initialise | src/unr/base/unr_channel.c:126-171 | the two steps together give a valid layout |
| MemSync.NewHandle | src/unr/base/unr_mem.c:17-39 | the new handle has its header and every channel's registration in its part, none overwriting another |
| MemSync.ChannelFindsKey | src/unr/base/unr_mem.c:25-36 | through either list, reused or not, a channel finds what it wrote |
| MemSync.Registered.Append | src/unr/base/unr_mem.c:9-18 | the table grows by 128 entries when full and keeps every handle |
| MemSync.SendBuffer | src/unr/base/unr_mem.c:49-57 | the handles of a rank lie one after the other |
| MemSync.Displacements | src/unr/base/unr_mem.c:44-49 | displacements are the sums of the lengths before |
| MemSync.GatherPossible | src/unr/base/unr_mem.c:44-60 | they leave room for every rank, whatever is sent |
| MemSync.Sync | src/unr/base/unr_mem.c:44-69 | entry k of rank r is a copy of rank r's k-th handle |
| MemSync.FromAnyPart | src/uri/base/uri_mem.c:17-31 | from any channel's part of any copy, the subtraction finds the header of that handle, and the part its owner's registration |
| MemSync.EntriesReadBack | src/unr/base/unr_mem.c:5-71 | in every run of registrations and synchronisations, on cells: from any channel's part of entry k of rank r, now and later, the header read back is address, size, rank and index of r's k-th registration, and the part is what that channel wrote there |
| MemSync.SyncBringsAll | src/unr/base/unr_mem.c:41-69 | right after a synchronisation every rank has an entry for every registration |
| MemSync.SyncIsPossible | src/unr/base/unr_mem.c:41-69 | at every moment of every run there are buffers and entries as a synchronisation leaves them |
| MemSync.RegistryMeans | src/unr/base/unr_mem.c:5-71 | in every run the m-th handle a rank reads of itself or of another is address, size and rank of that rank's m-th registration |
| MemSync.RegistriesGrow | src/unr/base/unr_mem.c:5-71 | in every run what a rank reads in handles and copies only grows, and every handle names the rank that registered it |

## Left out

- MPI and verbs calls themselves, connection set-up, addresses and keys: foreign code. They appear as
  ordered delivery, completion steps and gather results.
- Heap lifetimes, pointer casts and struct packing: memories, flags and requests are numbers and
  sequences. The once-only path of `src/unr/base/unr_blk.c:494-502` reads a field of a plan it has freed.
- Draining in `src/uri/mpi/uri_mpi_channel.c:303-309`: it looks at local completion, which does not
  decide delivery.
- The thread bodies of VerbsFlow, of Transfer's daemon and of ReqTable's daemon are steps of a machine
  and not methods: what matters there is how they interleave.
- The daemon's receive reposting chain and the switch over completion kinds in
  `src/uri/verbs/uri_verbs_channel.c:119-151`, beyond counting and follow-ups.
- Filling of work requests in `src/uri/verbs/uri_verbs_rdma.c:27-113`, except their events.
- The addition to a counter is one step: one daemon thread makes the additions of all channels
  (`src/unr/base/unr_channel.c:31-41`), and a reset writes the counter only while it is zero.
- C `int` overflow of `batch_id * 2 + 16` in `src/uri/mpi/uri_mpi_channel.c:86`: numbers are unbounded
  here, which describes the code for ids below 2^30 - 8.
- `qsort` is any permutation that sorts by the comparison of `src/uri/mpi/uri_mpi_utils.c:34-38`.
- Environment variables, channel lookup, logging, time-outs, status strings, thread start and stop,
  forwarding wrappers.
- Plan.Synced: a rank outside the job counts as not synchronised, where the program reads past a
  table.
- SigPool.Pool: keeps the fields of the pooled flags as two arrays indexed like the pool, not as
  separate objects.
- PlanRun.TriggeredMeansPlanDelivered: one plan, started once, is all that reports to the signal; several
  plans, restarts and rounds are Transfer's.
- Transfer.TriggeredMeansDelivered: a piece lands as one step; copying inside MPI is not modelled.
- MemSync.Registered.Append: takes the finished handle, which MemSync.NewHandle makes.
