# Verification of the c-trpc runtime core

This project models the single-owner runtime of c-trpc in Dafny and proves what its bounded queues, slot
tables and multi-step protocols guarantee over every run. Each critical section, each compare-and-swap and each
owner turn is one atomic step; threads, the kernel, callbacks, failing calls and arriving connections are the
environment, and every theorem quantifies over all of its behaviours.

The project has two layers. Value-level state machines (`CommandQueue`, `SendPath`, `TxQueue`, `Timers`, `Tasks`,
`Group`, `TlsRotation`, `MemoryBudget`, `PoolThreads`) carry the theorems over whole runs. Classes are proved to compute
exactly those machines. `CommandRing`, `TimerQueue`, `TaskExecutor` and `ProbeTable` have the source's arrays, index
links, counters and loops. `Pipeline`, `Registry`, `LifecycleTx`, `Connection` and `BufferPool` have its fields, counters
and loops, with lists and slot tables as sequences. `TlsServer` keeps the server as one value and contributes the loops
over the shards and the order of the rollback branches.

Main results:

- **Acceptance to wire.** In every run of the reactor with its TX queues, the octets sent on a connection are the
  fragments of the accepted items in acceptance order, up to header-only control overtaking DATA; once nothing is
  outstanding every accepted item is out completely (`Wire.WireIsAcceptanceOrder`, from the next three).
- **Send path.** In every run, what enters a connection's TX FIFO over the three routes (direct owner sends, queued
  SEND commands, reserved GOAWAY and RESET items) is a prefix of what was accepted, in acceptance order
  (`SendOrder.TxFifoIsAcceptanceOrder`). What was accepted is exactly what callers were promised
  (`SendEffects.PromisesAreKept`), and the owner's turns alone deliver all of it (`SendEffects.CommandsDrain`).
- **TX scheduling.** The only reordering on the wire is a header-only control frame overtaking DATA with no fence
  between them (`TxOrder.OnlyControlOvertakesData`); a DATA head is overtaken by at most eight control
  frames (`TxOrder.BurstIsBounded`). It is overtaken exactly when that is allowed (`TxProgress.OvertakingIsExact`),
  and writes drain the queue (`TxProgress.WritesDrain`).
- **Framing.** Whatever the kernel accepts per write, the octet stream is whole frames plus one proper prefix, and the
  frames of each message are its reference fragmentation (`TxStream.StreamIsWholeFrames`,
  `TxStream.FramesAreTheFragments`). Frames name their message, so a receiver that sorts by stream and message id
  recovers it byte for byte (`TxStream.ReceiverRecoversMessage`).
- **TLS rotation.** Whatever calls fail, a rotation that does not latch failure happens on all shards or on none
  (`TlsSafety.RotationIsAllOrNothing`), and so for any number of rotations. Profile references match their holders
  throughout, the listener's borrowed profile included, and the losing profile is kept by exactly its remaining
  connections and control sessions (`TlsSafety.LosingProfileIsLetGo`). It succeeds if and only if every call on its way
  forward gets through, and which call fails first decides status and latch (`TlsProgress.RotationSucceedsExactly`,
  `TlsProgress.RotationMeetsItsFate`).
- **Reference models.** Three slot tables with generations and free lists refine models that know only calls and their
  answers: a board of tasks (`TaskBoard.ExecutorKeepsBoard`), a ledger of timers under callbacks that do anything
  (`TimerEffects.RunDueEnters`), a roster of connections (`GroupRoster.GroupKeepsRoster`).
- **Buffer pools.** However threads interleave inside their acquires, the budget is what others hold plus the pool's
  charge plus the growth in flight, and destroy succeeds exactly when no buffer is checked out
  (`PoolThreads.PoolIsConserved`).
- **Memory budget, command ring, CRC32C** and the rest: see the table.

The hash functions, header encoding, allocation outcomes and callbacks are parameters or symbolic values: the
theorems hold for all of them. A payload checksum is a parameter of the framing theorems; `Crc32c.Crc` is the one
the classes compute.

## Model

| member | source | states |
|---|---|---|
| CommandSequence.NextIsSuccessor | src/execution/command_queue.c:120-124 | stepping a 64-bit sequence that skips zero yields the sequence of the next issue index |
| CommandSequence.AfterEqIsIssueOrder | src/execution/command_queue.h:153-162 | the modular comparison agrees with true issue order across the wrap for any two commands fewer than 2^63-1 issues apart |
| CommandSequence.AfterEqBoundIsTight | src/execution/command_queue.h:153-162 | at distance 2^63-1 across the wrap the comparison gives the wrong answer, so the bound cannot be raised |
| CommandQueue.FifoDelivery | src/execution/command_queue.c:112-161 | in every run, popped commands followed by pending ones are exactly the accepted commands, once each, in acceptance order with consecutive sequences |
| CommandQueue.WakeIsRaisedExactlyOnEmpty | src/execution/command_queue.c:129-136 | a wake is requested exactly when pending work goes from none to some |
| CommandQueue.StopNeedsNoRoom | src/execution/command_queue.c:249-287 | STOP is accepted on a full ring and comes out last in its round |
| CommandQueue.NothingAcceptedUntilOpen | src/execution/command_queue.c:139-161 | after STOP nothing is accepted until the next open |
| CommandQueue.StaleWaiterIsTurnedAway | src/execution/command_queue.c:209-247 | a waiter from an older admission generation never gets in |
| CommandQueue.PopTakesPrefix | src/execution/command_queue.c:315-349 | a batch is the oldest pending commands and leaves the others |
| CommandQueue.ReopeningStepsGeneration | src/execution/command_queue.c:163-194 | closing and reopening moves to another admission generation |
| CommandAnswers.AnswersAreExact | src/execution/command_queue.c:139-287 | in every run each push, waiting push, STOP and opening is answered as the calls before it say: a push is refused only by a full ring or behind STOP, a waiter gets in exactly in its own round and sleeps only on a full ring, an opening fails only while STOP is undelivered; a refused or sleeping call changes nothing |
| CommandAnswers.RunTells | src/execution/command_queue.c:163-207 | whether producers are shut out and whether waiters are admitted follows from the openings, closings and STOPs of the run; behind STOP nothing enters |
| CommandRing.CommandRing.constructor | src/execution/command_queue.c:12-35 | an empty ring with the given capacity |
| CommandRing.CommandRing.EnqueueLocked | src/execution/command_queue.c:112-137 | the ring array implements the abstract append, with sequence and wake |
| CommandRing.CommandRing.PushCommand | src/execution/command_queue.c:139-161 | push on the ring array is push on the queue, with the same status and wake |
| CommandRing.CommandRing.PushCommandWait | src/execution/command_queue.c:209-247 | one admission attempt of a waiting producer |
| CommandRing.CommandRing.PushStopCommand | src/execution/command_queue.c:249-287 | STOP goes into its reserved slot |
| CommandRing.CommandRing.Open | src/execution/command_queue.c:163-180 | opening a round on the fields |
| CommandRing.CommandRing.Close | src/execution/command_queue.c:182-194 | closing a round on the fields |
| CommandRing.CommandRing.IsEmpty | src/execution/command_queue.c:289-300 | empty exactly when nothing is pending, STOP included |
| CommandRing.CommandRing.Pop | src/execution/command_queue.c:315-349 | the copy loop takes exactly the abstract batch |
| SendOrder.TxFifoIsAcceptanceOrder | src/execution/reactor.c:2629-2684 | in every run the items that entered a connection's FIFO are a prefix of those accepted, over direct, queued and reserved routes, and all of them once nothing is outstanding |
| SendOrder.SendKeepsInv | src/execution/reactor.c:4932-4991 | the admission tail of a send keeps every connection's acceptance order |
| SendOrder.LateSendKeepsInv | src/execution/reactor.c:4971-4982 | a queued send whose connection is closed between the test and the push keeps it |
| SendOrder.GoawayKeepsInv | src/execution/reactor.c:4698-4749 | holding GOAWAY behind the recorded frontier keeps it |
| SendOrder.TerminalKeepsInv | src/execution/reactor.c:4813-4855 | holding RESET or REFUSED behind the frontier keeps it, with their mutual order |
| SendOrder.DispatchKeepsInv | src/execution/reactor.c:2923-2957 | dispatching one command keeps it, callbacks included |
| SendOrder.FinishKeepsInv | src/execution/reactor.c:2958-2968 | advancing the processed sequence and flushing keeps it |
| SendOrder.AdoptKeepsInv | src/execution/reactor.c:4627-4696 | adopting a connection, on the owner or by command, keeps it |
| SendOrder.CloseKeepsInv | src/execution/reactor.c:964-1078 | closing a connection keeps it for all others |
| SendOrder.CompleteKeepsInv | src/execution/reactor.c:1723-1764 | completing an item and freeing a reserved slot keeps it |
| SendEffects.SendDoesWhatItSays | src/execution/reactor.c:4932-4991 | a send is answered Ok exactly if the reactor accepts, the connection is active or live and the ring has room; then exactly its frame is accepted for exactly its connection and is in the FIFO or outstanding; any other answer changes nothing |
| SendEffects.GoawayDoesWhatItSays | src/execution/reactor.c:4698-4749 | the same for GOAWAY, with the answers to a repeated and to a different one |
| SendEffects.TerminalDoesWhatItSays | src/execution/reactor.c:4813-4855 | the same for RESET and REFUSED |
| SendEffects.PromisesAreKept | src/execution/reactor.c:4932-4991 | in every run what was accepted for a connection is exactly what callers were promised by Ok answers, in that order, and nothing of it is lost on the way to the FIFO |
| SendEffects.CommandsDrain | src/execution/reactor.c:2905-2980 | from every state of every run the owner's turns alone work off all outstanding commands; then every active connection's FIFO has received all that was accepted for it |
| SendEffects.DispatchActs | src/execution/reactor.c:2923-2957 | dispatching a command does to the connection it names what the command asks, and to no other |
| SendEffects.AdoptYieldsConnection | src/execution/reactor.c:4643-4669 | adoption on the owner yields a fresh active connection under its own generation exactly when the reactor accepts and a slot is free |
| SendEffects.AdoptReservesSlot | src/execution/reactor.c:4671-4696 | adoption from elsewhere reserves a slot under its next generation and queues the command that activates it, exactly when there is a slot and room |
| SendEffects.FindFreeFinds | src/execution/reactor.c:643-677 | the slot scan fails only if no slot with a generation left is free |
| SendEffects.LateSendIsQueued | src/execution/reactor.c:4971-4982 | a send whose connection closed after its test is queued or refused like any command and changes no connection |
| SendReserved.ReservedItemsAreLinkedOnce | src/execution/reactor.c:2629-2672 | in every run each embedded GOAWAY or terminal item is in the FIFO exactly once while queued and not at all otherwise, so completing it frees it for the next; none is left waiting once its frontier is processed |
| SendReserved.EmptyBatchFlushIsIdle | src/execution/reactor.c:2969-2972 | in every run the flush after an empty batch finds nothing to do |
| LifecycleTx.NothingToFlush | src/execution/reactor.c:2674-2684 | with a zero pending counter a flush would change nothing |
| LifecycleTx.LifecycleTx.TryGoawayAt | src/execution/reactor.c:2629-2649 | the GOAWAY item enters exactly when its frontier is processed; the counter assertion holds |
| LifecycleTx.LifecycleTx.TryResetAt | src/execution/reactor.c:2629-2649 | the same for RESET and REFUSED |
| LifecycleTx.LifecycleTx.TryLifecycleAt | src/execution/reactor.c:2651-2672 | both items in their recorded mutual order |
| LifecycleTx.LifecycleTx.FlushLifecycle | src/execution/reactor.c:2674-2684 | the loop with its early exit equals flushing every connection; the counter stays the number of held-back items |
| LifecycleTx.LifecycleTx.Processed | src/execution/reactor.c:2958-2968 | one processed command advances the frontier and flushes |
| LifecycleTx.LifecycleTx.GoawayOnOwner | src/execution/reactor.c:4698-4749 | status and new state are those of the abstract GOAWAY step |
| LifecycleTx.LifecycleTx.TerminalOnOwner | src/execution/reactor.c:4813-4855 | status and new state are those of the abstract terminal step |
| LifecycleTx.LifecycleTx.CloseAt | src/execution/reactor.c:1050-1066 | closing drops held-back items and the counter follows |
| TxFrames.FragmentsCoverMessage | src/execution/reactor.c:1593-1641 | the payloads of a message's frames concatenate to exactly its slices |
| TxFrames.FragmentsAreWellFormed | src/execution/reactor.c:1606-1633 | each frame names its message (type, stream, message id and lane flag), is within the limit and carries its own checksum; all but the last are full; only the first is FIRST, only the last LAST; control is one frame with its own flags |
| TxQueue.SelectIsSchedulable | src/execution/reactor.c:1705-1721 | the scheduler picks the head, or the oldest control item if it may overtake a DATA head, and no other item is half sent |
| TxOrder.RunKeepsShape | src/execution/reactor.c:1705-1764 | in every run the FIFO, the control list and the pinned item stay consistent |
| TxOrder.OnlyControlOvertakesData | src/execution/reactor.c:1694-1721 | any two writes out of enqueue order are a header-only control item overtaking DATA with no fence between |
| TxOrder.EarlierMessagesAreDone | src/execution/reactor.c:1694-1721 | once any octet of a message is out, every earlier message has left the queue, unless it is DATA it may overtake |
| TxOrder.ControlHeadAssertionHolds | src/execution/reactor.c:1738-1743 | a selected control item is always the head of the control list |
| TxOrder.BurstIsBounded | src/execution/reactor.c:2034-2054 | while the head is DATA, at most eight minus the streak control frames complete before the next DATA frame |
| TxStream.StreamIsWholeFrames | src/execution/reactor.c:2024-2056 | the octet stream is whole frames plus a proper prefix of the next frame of one queued message |
| TxStream.FramesAreTheFragments | src/execution/reactor.c:1593-1641 | the frames of a message on the wire are a prefix of its reference fragmentation, and all of it once it left the queue |
| TxStream.SentMessageIsWhole | src/execution/reactor.c:2034-2048 | a message that left the queue was sent byte for byte |
| TxStream.FramesNameTheirMessage | src/execution/reactor.c:1606-1633 | in every run every frame on the wire names the type, stream, message id and lane of the message it belongs to, with the checksum of its own payload |
| TxStream.ReceiverRecoversMessage | src/execution/reactor.c:1593-1641 | a receiver that collects payloads by stream and message id gets exactly the octets of the message sent under them, however frames of other messages lie between |
| TxProgress.SelectIsExact | src/execution/reactor.c:1705-1721 | the scheduler selects the half-sent item if there is one, else the oldest control item exactly when it may overtake the DATA head and the streak is below eight, else the head |
| TxProgress.OvertakersAreBareHeaders | src/execution/reactor.c:1694-1703 | a control message may overtake exactly if what reaches the wire is a bare header without flags: WINDOW_UPDATE of a stream, or PING or PONG of the connection |
| TxProgress.StreakIsCounted | src/execution/reactor.c:2034-2054 | in every run the streak is the number of overtaking frames completed since the last DATA frame, up to eight |
| TxProgress.OvertakingIsExact | src/execution/reactor.c:1705-1721 | in every run, with no frame half sent, a DATA head is overtaken exactly when the oldest control item may overtake and fewer than eight have since the last DATA frame |
| TxProgress.WriteHandsOver | src/execution/reactor.c:2024-2034 | a write hands over exactly what the kernel takes, up to the end of the frame |
| TxProgress.FullWriteSendsFrame | src/execution/reactor.c:2034-2055 | a write that takes the rest of a frame leaves one frame less to send |
| TxProgress.WritesDrain | src/execution/reactor.c:1912-2077 | from every state of every run, as many writes as frames are left empty the queue |
| Wire.WireIsAcceptanceOrder | src/execution/reactor.c:1912-2077 | in every run of reactor and TX queues, a connection's octets are whole frames plus what is half sent; the frames are the fragments of the accepted items, of each a prefix and all unless it waits, each naming its item's type, stream and message id, in acceptance order up to header-only control overtaking DATA; with nothing outstanding all of them are out |
| Wire.StepEvolves | src/execution/reactor.c:2600-2627 | every reactor step leaves a connection's FIFO alone, appends what it entered, or starts a new connection empty |
| Wire.QueueKeepsInv | src/execution/reactor.c:1723-1764 | the item a write completes is the one the reactor's FIFO holds at that place |
| TxSlices.CrcRange | src/execution/reactor.c:1562-1591 | the slice walk computes the checksum of exactly the given range |
| TxSlices.GatherPayload | src/execution/reactor.c:1663-1688 | the slice walk gathers exactly the given range, in at most one piece per slice |
| TxSlices.BuildIov | src/execution/reactor.c:1643-1692 | the scatter list is exactly the unsent octets of the frame and never overruns its array |
| TxSlices.Clip | src/execution/reactor.c:1949-1962 | the cap cuts the gathered octets at the budget |
| TxConnection.PrepareFrame | src/execution/reactor.c:1593-1641 | the prepared header is that of the reference frame, which names its message as TxFrames.FragmentsAreWellFormed states |
| TxConnection.Offer | src/execution/reactor.c:1940-1962 | what is offered to the kernel is a nonempty prefix of the unsent octets within the budget |
| TxConnection.Connection.EnqueueTx | src/execution/reactor.c:2600-2627 | appends to the FIFO and, for control, to the control list |
| TxConnection.Connection.NextTx | src/execution/reactor.c:1705-1721 | selects what the abstract scheduler selects and pins it |
| TxConnection.Connection.CompleteTx | src/execution/reactor.c:1723-1743 | removes the item from both lists; its assertion holds |
| TxConnection.Connection.FinishFrame | src/execution/reactor.c:2030-2055 | the frame end: streak, continuation or completion |
| TxConnection.Connection.SendOnce | src/execution/reactor.c:1912-2060 | one loop iteration is one abstract write or stall, within the budget |
| TxConnection.Connection.FlushTx | src/execution/reactor.c:1912-2077 | the send loop is a run of the abstract queue for every kernel behaviour and spends exactly the octets it sent |
| TlsSafety.RotationIsAllOrNothing | src/server.c:1813-1921 | unless failure is latched: success puts the new profile on all shards with gates open and under REVOKE_OLD no older TLS connection; error leaves the old profile everywhere, gates open and no candidate connection; latched or not, every profile has exactly the references of server, recovery field, shards, connections and control sessions, and none was retained or released after its last reference was gone |
| TlsSafety.LosingProfileIsLetGo | src/server.c:1886-1893 | after a success the old profile is referenced by exactly its remaining connections and control sessions, under REVOKE_OLD by the sessions alone; after an unlatched error the candidate by exactly its sessions |
| TlsSafety.CreatedIsSteady | src/server.c:1440-1573 | a created server is steady: one profile held by the server and each shard, lent to the listener |
| TlsSafety.RotationsStaySteady | src/server.c:1923-1940 | after any number of rotations references are sound, and the server is steady unless failure is latched |
| TlsProgress.RotationSucceedsExactly | src/server.c:1813-1921 | from a steady server a rotation succeeds if and only if every call of its way forward gets through: closing the gates, installing, under REVOKE_OLD closing older connections, reopening; then the candidate is in force on every shard |
| TlsProgress.RotationMeetsItsFate | src/server.c:1813-1921 | a rotation is refused without effect exactly when failure is latched, the server is unpublished or without shards, or no generation is left; otherwise its status and whether it latches are a function of which calls got through, whatever connections do meanwhile |
| TlsProgress.FateIsOk | src/server.c:1843-1917 | of those fates Ok means all calls forward got through, and STATE is given only with failure latched |
| TlsProgress.SurvivorsAreExact | src/server.c:1774-1804 | closing by generation leaves exactly the connections of other generations |
| TlsProgress.GracefulClosesNothing | src/server.c:1813-1921 | a graceful rotation closes no connection, whatever calls fail |
| TlsProgress.AdmissionFollowsRotation | src/execution/reactor.c:1398-1399 | after a success every running shard admits again and every new connection carries the candidate, through the listener too |
| TlsProgress.DropIsExact | src/execution/reactor.c:964-1078 | a closed connection is gone together with exactly its own reference |
| TlsProgress.SessionsAreExact | src/transport/group/pipeline_listener.c:410-412 | a control session retains the profile of its connection and gives exactly that back |
| TlsSafety.GateAllKeeps | src/server.c:1760-1772 | gating all shards touches no profile, and a full success sets every gate |
| TlsSafety.CloseAllKeeps | src/server.c:1774-1804 | behind closed gates, a full success leaves no connection of the given generations |
| TlsSafety.InstallAllKeeps | src/server.c:1729-1758 | a full success puts the profile on every shard in either visiting order |
| TlsSafety.InstallAllIsSound | src/server.c:1697-1727 | installing a profile that is kept alive, on any number of shards in either order and with any failure, keeps references exact and the listener with its shard |
| TlsReferences.InstallIsSound | src/server.c:1697-1727 | one installation retains for the shard alone, releases what the shard held, and lends to the listener |
| TlsReferences.ListenerIsBacked | src/transport/group/pipeline_listener.c:588-598 | the profile the listener borrows has a reference: shard 0's |
| TlsReferences.HappenIsSound | src/execution/reactor.c:1294-1334 | adopting a connection, by its shard or by the listener, closing one, stopping a reactor, opening and closing a control session keep references exact and use no freed profile |
| TlsReferences.PurgeIsSound | src/execution/reactor.c:4457-4488 | closing connections by generation releases exactly what they retained |
| TlsSafety.RollBackInstallIsSafe | src/server.c:1860-1871 | a rollback after a failed installation restores the steady state or latches failure, with references sound either way |
| TlsSafety.RollBackOpenIsSafe | src/server.c:1895-1917 | a rollback after a failed reopening purges the candidate's connections and restores the steady state or latches failure, with references sound either way |
| TlsSafety.PublishIsSafe | src/server.c:1873-1893 | publishing, revoking and reopening ends steady on one of the two profiles or latches failure, with references sound either way |
| TlsRotation.ArriveKeeps | src/execution/reactor.c:1398-1399 | between calls only connections and sessions change; behind a closed gate connections only go away |
| TlsServer.TlsServer.SetGates | src/server.c:1760-1772 | the loop goes on after a failure and reports it |
| TlsServer.TlsServer.CloseGenerations | src/server.c:1774-1804 | the loops over all shards for one generation or all older ones |
| TlsServer.TlsServer.InstallEverywhere | src/server.c:1729-1758 | the loop stops at the first failure |
| TlsServer.TlsServer.UndoPublish | src/server.c:1895-1917 | the late rollback branch |
| TlsServer.TlsServer.PublishCandidate | src/server.c:1873-1893 | the commit branch |
| TlsServer.TlsServer.ReplaceEverywhere | src/server.c:1859-1871 | the installation branch with its rollback |
| TlsServer.TlsServer.UpdateProfile | src/server.c:1813-1921 | the whole call computes the abstract rotation, branch for branch; TlsProgress.RotationMeetsItsFate says which branch |
| TlsServer.TlsServer.RotateSafely | src/server.c:1813-1921 | on a steady server the call succeeds if and only if every call forward gets through, is all or nothing unless failure is latched, and leaves references sound either way |
| TaskOrder.TasksRunOnceInOrder | src/execution/task_executor.c:95-142 | workers take tasks in submission order, none completes twice, callbacks run in completion order, and with nothing outstanding every accepted task was delivered |
| TaskOrder.SlotsArePartitioned | src/execution/task_executor.c:73-93 | free, pending, running, complete and delivering hold every slot exactly once by its state |
| TaskOrder.CancelShowsInResult | src/execution/task_executor.c:122-133 | a result says cancelled exactly when a cancellation of that task was accepted |
| TaskOrder.CancelOutcomeTellsPhase | src/execution/task_executor.c:323-350 | by its handle a task can be cancelled exactly while queued or running, is refused while its result waits or is delivered, and is stale for ever after |
| TaskOrder.StopDrains | src/execution/task_executor.c:397-420 | after stop, in every run and whatever follows: nothing more is accepted, at most 4 queued + 3 running + 2 completed + delivering further task steps happen, and when none is possible every accepted task was delivered exactly once |
| TaskOrder.DrainIsPossible | src/execution/task_executor.c:106-111 | from every stopped state workers and owner can finish all the work |
| TaskBoard.ExecutorKeepsBoard | src/execution/task_executor.c:95-420 | in every run the executor stands exactly as a board of tasks kept from the calls and their answers alone, without slots, generations or links: what is queued, running, waiting, being called, finished, cancelled |
| TaskBoard.ResultsAreReturned | src/execution/task_executor.c:119-128 | in every run the k-th result carries the status that the k-th completed task returned |
| TaskBoard.CallbacksAreHandedResults | src/execution/task_executor.c:367-389 | in every run callbacks are handed the outcomes of completed tasks in that order, and the slot a callback reads holds its own task and the result that task returned |
| TaskBoard.CancelFinds | src/execution/task_executor.c:323-350 | cancellation succeeds exactly for the handle of a queued or running task, and marks that task |
| TaskBoard.SubmissionIsAnswered | src/execution/task_executor.c:275-315 | in every run a submission is accepted exactly when the executor is open, fewer tasks than its capacity are outstanding and the next slot has a generation left; its handle was never given before |
| TaskBoard.FreedSlotIsReusedFirst | src/execution/task_executor.c:380-389 | the slot freed last is given to the next task, under a new generation |
| TaskExecutor.TaskExecutor.constructor | src/execution/task_executor.c:195-210 | all slots chained free |
| TaskExecutor.TaskExecutor.Enqueue | src/execution/task_executor.c:73-82 | appends to a threaded list and relinks nothing else |
| TaskExecutor.TaskExecutor.Dequeue | src/execution/task_executor.c:84-93 | takes the head of a threaded list |
| TaskExecutor.TaskExecutor.SubmitTask | src/execution/task_executor.c:275-315 | status and state of the abstract submission; the handle names the new task; counters match the lists |
| TaskExecutor.TaskExecutor.WorkerTake | src/execution/task_executor.c:112-117 | takes the oldest pending task |
| TaskExecutor.TaskExecutor.WorkerFinish | src/execution/task_executor.c:122-133 | writes exactly the returned status and the cancellation seen at completion into the task's slot, and nothing into any other |
| TaskExecutor.TaskExecutor.CancelTask | src/execution/task_executor.c:323-350 | status and state of the abstract cancellation |
| TaskExecutor.TaskExecutor.BeginDelivery | src/execution/task_executor.c:367-378 | hands the oldest completed task to its callback |
| TaskExecutor.TaskExecutor.EndDelivery | src/execution/task_executor.c:380-389 | returns the slot to the free list |
| TaskExecutor.TaskExecutor.RequestAll | src/execution/task_executor.c:406-416 | marks exactly the queued and running tasks |
| TaskExecutor.TaskExecutor.StopExecutor | src/execution/task_executor.c:397-420 | stop in either mode |
| TimerHeap.RootIsLeast | src/execution/timer_queue.c:31-40 | in an ordered heap the root is earliest by (deadline, slot) |
| TimerHeap.UpStep | src/execution/timer_queue.c:53-64 | one lift confines the disorder to the next parent |
| TimerHeap.DownStep | src/execution/timer_queue.c:66-86 | one sink confines the disorder to the chosen child |
| TimerHeap.RetimedIsAlmostOrdered | src/execution/timer_queue.c:208-212 | an earlier deadline disturbs only upwards, a later one only downwards |
| TimerHeap.NeverFull | src/execution/timer_queue.c:198-200 | a heap that misses a slot is not full: the TR_AGAIN branch of arm is unreachable |
| TimerHeap.ChildIndexIsExact | src/execution/timer_queue.c:66-76 | with 32-bit indices, what sift-down takes for children are children if and only if there are fewer than 2^31 items |
| TimerHeap.RootSinksIntoLeaf | src/execution/timer_queue.c:69-83 | at 2^31 items sift-down of the last takes the root for its right child and destroys the order |
| TimerQueue.RootIsEarliest | src/execution/timer_queue.c:238-243 | the heap's root is the earliest armed timer of the table |
| TimerQueue.TimerQueue.constructor | src/execution/timer_queue.c:109-133 | all slots chained free, heap empty, for fewer than 2^31 timers |
| TimerQueue.TimerQueue.HeapSwap | src/execution/timer_queue.c:42-51 | swaps two items and keeps positions exact |
| TimerQueue.TimerQueue.HeapUp | src/execution/timer_queue.c:53-64 | restores the order above, same members, positions exact |
| TimerQueue.TimerQueue.HeapDown | src/execution/timer_queue.c:66-86 | restores the order below, same members, positions exact |
| TimerQueue.TimerQueue.HeapRemove | src/execution/timer_queue.c:88-107 | removes exactly one member and leaves an ordered heap |
| TimerQueue.TimerQueue.RegisterTimer | src/execution/timer_queue.c:144-174 | the abstract registration; fails exactly when no slot is free, otherwise the token is new and live, its timer unarmed, and no other slot changes |
| TimerQueue.TimerQueue.ArmTimer | src/execution/timer_queue.c:176-214 | the abstract arming; only a stale token fails and then nothing changes, otherwise the slot has exactly the given deadline and no other slot changes |
| TimerQueue.TimerQueue.UnregisterTimer | src/execution/timer_queue.c:216-236 | the abstract unregistration; the token is dead, no other slot changes, a stale token changes nothing |
| TimerQueue.TimerQueue.NextDeadline | src/execution/timer_queue.c:238-243 | the true minimum deadline, or zero |
| TimerQueue.TimerQueue.SettleTimer | src/execution/timer_queue.c:282-290 | applies a callback's return value |
| TimerQueue.TimerQueue.RunDueTimers | src/execution/timer_queue.c:245-300 | computes the abstract run for any re-entrant callbacks; has_more_due is exact |
| Timers.DoKeepsValid | src/execution/timer_queue.c:144-236 | every operation keeps the free slots exactly the unused, unarmed ones |
| Timers.EarliestDecidesDue | src/execution/timer_queue.c:294-298 | something is due exactly when the earliest timer is |
| Timers.DueTimersFireOnceInOrder | src/execution/timer_queue.c:256-292 | if callbacks touch no other timer and re-arm only past now, due timers fire once each in (deadline, slot) order, none is skipped, and the run stops early only when nothing is due |
| Timers.ExplicitOperationWins | src/execution/timer_queue.c:283-290 | a callback's return value takes effect exactly when the callback neither armed nor unregistered its timer |
| TimerEffects.ArmIs | src/execution/timer_queue.c:176-214 | with a live token the deadline becomes exactly the argument, armed exactly if nonzero, and registration, running mark, free list and all other slots stay; with any other token nothing changes |
| TimerEffects.RegisterIs | src/execution/timer_queue.c:144-174 | succeeds exactly while a slot is free, with a fresh token under the next generation and an unarmed timer; all other slots stay |
| TimerEffects.UnregisterIs | src/execution/timer_queue.c:216-236 | ends exactly the registration of a live token and puts its slot first on the free list; with any other token nothing changes |
| TimerEffects.EndedTokenStaysStale | src/execution/timer_queue.c:144-174 | the token of an ended registration is live again exactly when its slot is registered and was granted a multiple of 2^32-1 times since, so never within fewer calls |
| TimerEffects.CallsAreEntered | src/execution/timer_queue.c:144-236 | after every run of calls the live registrations and their deadlines are those of a ledger kept from the calls and their answers alone |
| TimerEffects.FireEnters | src/execution/timer_queue.c:256-290 | firing unarms the timer, enters what its callback called, and arms it with the return value unless the callback mentioned its token |
| TimerEffects.RunDueEnters | src/execution/timer_queue.c:245-300 | a run of due timers with callbacks that do anything runs each callback for the registration next due in the ledger at that moment, and ends with the ledger the firings and calls lead to |
| TimerEffects.RunDueEndsRunning | src/execution/timer_queue.c:267-287 | no timer is marked running once run_due has returned |
| ProbeTable.ProbeTable.Find | src/group/pipeline.c:745-783 | with 32-bit index sums, finds a key exactly when it was inserted and not removed; otherwise offers a reachable free entry unless the probe sequence meets none |
| ProbeTable.ProbeTable.Put | src/group/pipeline.c:812-816 | stores a new key: the table refines the map with it added |
| ProbeTable.ProbeTable.Bury | src/group/pipeline_registry.c:279-282 | leaves a tombstone: the table refines the map without the key |
| ProbeTable.ProbeTable.Insert | src/group/pipeline.c:806-816 | a new key is refused exactly when its probe sequence meets no free entry, up to 2^31 entries exactly when every entry is in use: tombstones cost no capacity |
| ProbeTable.ProbeTable.Delete | src/group/pipeline.c:966-971 | removes a key exactly when present |
| ProbeTable.ProbeTable.BuryValue | src/group/pipeline.c:589-599 | the sweep removes exactly the keys bound to one value |
| ProbeTable.SearchIsConclusive | src/group/pipeline_registry.c:50-79 | stopping at an empty entry, or coming full circle, proves a key absent |
| ProbeTable.CapacityIsExact | src/group/pipeline.c:753-782 | that a search for a new key finds no room only in a full table holds for every well-probed table and hash if and only if there are at most 2^31 entries |
| ProbeTable.RoomIsMissed | src/group/pipeline.c:756 | beyond 2^31 entries the sum wraps: a well-probed table with a free entry and a new key that cannot get it |
| Ring.ProbingIsComplete | src/group/pipeline_registry.c:50-52 | probing with a 32-bit sum visits every entry from every start if and only if there are at most 2^31 |
| Group.RunKeepsInv | src/group/pipeline.c:208-973 | every run keeps affinities live, connections distinct and reservations under a bound control connection |
| GroupTheorems.StaleBindingIsNeverSeen | src/group/pipeline.c:925-930 | after any run a bound stream's slot is attached with the same generation: the stale branch is dead |
| GroupTheorems.MembersAreDistinct | src/group/pipeline.c:370-395 | after any run attached connections are pairwise distinct and none is control |
| GroupTheorems.ReserveFindsASlot | src/group/pipeline.c:328-348 | the reservation scan never falls through |
| GroupTheorems.SelectFindsASlot | src/group/pipeline.c:710-729 | up to 2^31 slots selection succeeds exactly when some slot is attached |
| GroupTheorems.SelectionIsExact | src/group/pipeline.c:710-729 | that holds in every run of a group with n slots if and only if n is at most 2^31 |
| GroupTheorems.MemberIsMissed | src/group/pipeline.c:713-716 | beyond 2^31 slots the sum wraps: a run from creation after which the only member is not selected |
| GroupTheorems.RoundRobinIsFair | src/group/pipeline.c:703-730 | with unchanged membership of at most 2^31 slots, as many successful selections as members pick each exactly once, select_data and prepare_transfer mixed |
| GroupTheorems.AbortCompletes | src/group/pipeline_control.c:356-392 | after any run, aborting with the bound control connection completes and meets every assertion of tr_pipeline_destroy |
| GroupRoster.GroupKeepsRoster | src/group/pipeline.c:208-973 | in every run from creation the slot table is exactly the roster of control connection, offers, members and stream affinities kept from the calls that succeeded, and the next call is answered, returns and changes exactly what that roster says |
| GroupRoster.UnbindIsFaithful | src/group/pipeline.c:957-973 | unbinding succeeds exactly for a bound stream and removes exactly its affinity |
| GroupRoster.AttachIsFaithful | src/group/pipeline.c:370-395 | attaching succeeds exactly for an open offer and a connection that is the owner's and not yet in the group; the offer becomes a member |
| GroupRoster.ReserveIsFaithful | src/group/pipeline.c:319-349 | reserving succeeds exactly with a control connection and a vacant slot, and offers that slot under its next generation |
| GroupRoster.RemoveIsFaithful | src/group/pipeline.c:570-602 | removing succeeds exactly for a member and drops it with exactly its affinities |
| Pipeline.Pipeline.constructor | src/group/pipeline.c:121-160 | an empty group |
| Pipeline.Pipeline.ConnectionIsData | src/group/pipeline.c:67-78 | the scan finds exactly the attached connections |
| Pipeline.Pipeline.BindControl | src/group/pipeline.c:208-223 | status and state of the abstract operation |
| Pipeline.Pipeline.UnbindControl | src/group/pipeline.c:238-270 | clears control and every reservation, or nothing |
| Pipeline.Pipeline.ReserveData | src/group/pipeline.c:319-349 | reserves the first free slot with a new generation |
| Pipeline.Pipeline.AttachData | src/group/pipeline.c:370-395 | consumes exactly a matching reservation |
| Pipeline.Pipeline.CancelDataOffer | src/group/pipeline.c:462-489 | idempotent cancellation of one issued generation |
| Pipeline.Pipeline.RemoveData | src/group/pipeline.c:570-602 | frees the slot and every affinity to it |
| Pipeline.Pipeline.Scan | src/group/pipeline.c:713-727 | the first attached slot met from the cursor with a 32-bit index sum |
| Pipeline.Pipeline.SelectData | src/group/pipeline.c:703-730 | the abstract selection and cursor |
| Pipeline.Pipeline.BindStream | src/group/pipeline.c:793-818 | the abstract binding with all its refusals, for want of room exactly when probing meets no free entry |
| Pipeline.Pipeline.RoomIsByCount | src/group/pipeline.c:806-810 | up to 2^31 affinities there is room exactly when the table is not full |
| Pipeline.Pipeline.PrepareTransfer | src/group/pipeline.c:826-878 | selects and binds in one step, or changes nothing |
| Pipeline.Pipeline.FindStream | src/group/pipeline.c:911-938 | looks a stream up without ever dropping a binding |
| Pipeline.Pipeline.UnbindStream | src/group/pipeline.c:957-973 | the abstract unbinding |
| Pipeline.Registry.RegisterControl | src/group/pipeline_registry.c:199-235 | registers and binds control together, or changes nothing, with the exact status |
| Pipeline.Registry.AdmissionIsByCount | src/group/pipeline_registry.c:219-223 | up to 2^31 entries registration lacks room exactly when the registry is full |
| Pipeline.Registry.CloseControl | src/group/pipeline_registry.c:306-347 | clears control and withdraws the entry together, or changes nothing, with the exact status |
| Pipeline.TakeSnapshot | src/group/pipeline.c:653-678 | the attached slots in table order, refused exactly when the caller's array is too small, never overrunning it |
| Pipeline.RemoveMembers | src/group/pipeline_control.c:375-380 | every removal of the teardown loop succeeds |
| Pipeline.Abort | src/group/pipeline_control.c:356-410 | always completes for the registered pipeline with its bound control connection; the pipeline may be destroyed and is no longer registered |
| MemoryBudget.BudgetsAreConserved | src/memory_budget.h:53-149 | under every interleaving no budget exceeds its limit, and each equals what is held plus what is in flight, the root plus its children |
| MemoryBudget.ReleaseNeverFails | src/memory_budget.h:116-149 | rollback and parent release never fail when callers release only what they hold |
| MemoryBudget.QuiescentBudgets | src/memory_budget.h:84-90 | at quiescence nothing is in flight and every peak is the highest value reached |
| MemoryBudget.TopIsHistoricalMaximum | src/memory_budget.h:84-90 | that highest value is the maximum of the current value over all moments of the run |
| BudgetAnswers.ReservationIsDecided | src/memory_budget.h:53-134 | an undisturbed reservation returns; it is granted exactly when the amount fits the root and the child, zero meaning no limit, then both are charged and it is held; a refusal changes at most one rejection count and, if only the child refused, the root's peak |
| BudgetAnswers.ReleaseIsDone | src/memory_budget.h:136-149 | an undisturbed release of what is held takes exactly the amount off the budget and its parent |
| BudgetAnswers.UnlimitedNeverRejects | src/memory_budget.h:69-77 | under every interleaving an unlimited budget rejects nothing |
| BufferPool.InitIsAllOrNothing | src/execution/buffer.c:27-155 | on a zeroed or destroyed pool, a failed initialisation leaves the budget as it was; a successful one charges descriptors plus storage and opens the pool |
| PoolThreads.PoolIsConserved | src/execution/buffer.c:165-348 | in every interleaving of the locked sections, reservations, refunds and repayments of any number of threads with other users of the budget: current is others plus charge plus growth in flight plus what destroy still owes, buffers in flight are distinct and checked out, as many are free as are not out; destroy succeeds exactly when none is checked out, then nothing is in flight and only others and the dues remain, else it only closes admission |
| PoolThreads.ReleaseKeepsInv | src/execution/buffer.c:312-348 | a release keeps all that exactly when the buffer is in no acquire's hands |
| PoolThreads.GrowthIsVisible | src/execution/buffer.c:285-305 | between reservation and store the budget holds more than others and charge |
| PoolThreads.ClosedOnlyDrains | src/execution/buffer.c:254-257 | once closed, in every interleaving no buffer is checked out and no acquire begins that was not under way |
| PoolThreads.AcquireIsItsSteps | src/execution/buffer.c:243-310 | run in a row, the sections of an acquire compute the whole call |
| PoolThreads.FailedDestroyCanBeRetried | src/execution/buffer.c:185-197 | after a failed destroy, in every interleaving, only acquires already under way can return a buffer, and destroy succeeds exactly when all buffers are back, with nothing in flight and the whole charge due |
| PoolThreads.DuesAreRepaid | src/execution/buffer.c:224-238 | whatever a destroyed pool owes is repaid step by step, and the budget falls by exactly that |
| PoolAnswers.AcquireIsExact | src/execution/buffer.c:243-310 | a buffer is handed out exactly when the size fits, the pool is open, a buffer is in and the growth it needs is affordable and possible; otherwise the first of these that fails names the error |
| PoolAnswers.AcquireHandsOut | src/execution/buffer.c:243-310 | a failed acquire leaves pool and budget as they were; a successful one hands out a buffer that was in and is large enough, pays exactly its growth and changes no other |
| PoolAnswers.ReleaseUndoesAcquire | src/execution/buffer.c:312-348 | releasing what was handed out restores the pool, and the next acquire gets the same buffer |
| BufferPool.BufferPool.CreateFixed | src/execution/buffer.c:27-102 | the two-phase reservation with rollback |
| BufferPool.BufferPool.CreateDynamic | src/execution/buffer.c:111-155 | the descriptor reservation with rollback |
| BufferPool.BufferPool.TakeBuffer | src/execution/buffer.c:253-283 | the locked section: refusals in order, or the newest free buffer checked out |
| BufferPool.BufferPool.AcquireBuffer | src/execution/buffer.c:243-310 | with nothing in between, takes the newest free buffer and grows it within budget, or puts it back |
| BufferPool.BufferPool.ReleaseBuffer | src/execution/buffer.c:312-348 | returns a buffer that is out; otherwise nothing |
| BufferPool.BufferPool.DestroyPool | src/execution/buffer.c:165-241 | the abstract destroy, storage returned buffer by buffer |
| Crc32cTable.TableIsEightSteps | src/crc32c.c:14-77 | every table entry is eight shift steps of the Castagnoli polynomial |
| Crc32c.FoldSplits | src/crc32c.c:165-178 | the state splits over any segmentation of the input |
| Crc32c.UpdatePortable | src/crc32c.c:79-90 | the table loop computes the bitwise recurrence |
| CrcAlgebra.WordIsBytes | src/crc32c.c:101-108 | adding a word and stepping once per byte is adding and stepping byte by byte |
| CrcChunks.InstructionIsBytes | src/crc32c.c:101-125 | the instruction on one to eight bytes is the byte recurrence |
| CrcChunks.UpdateSse42 | src/crc32c.c:95-127 | the 8/4/2/1 cascade computes the same state |
| CrcChunks.BurstIsDetected | src/crc32c.c:179-181 | equal-length strings that differ only within four consecutive bytes have different checksums |
| CrcMeaning.BeginIsComplement | src/crc32c.c:154-157 | starting from all ones is starting from zero with the first four bytes complemented (section 12.1 of RFC 3720) |
| CrcMeaning.ChecksumLeavesResidue | src/crc32c.c:174-182 | a message followed by its checksum in little-endian order has the same checksum whatever the message |
| CrcMeaning.CheckValue | tests/test_crc32c.c:128 | the published check value of the digits 1 to 9 |

## Left out

- Fatal epoll exit: `tr_reactor_abort_pending_commands` pops commands without advancing the processed sequence; the
  ordering theorems are about runs without it.
- TLS byte endpoints: the framing theorems are about the `sendmsg` branch of the send loop; handshakes, prefaces and
  OpenSSL writes are not modelled.
- Sockets, epoll, eventfd, clocks, pthread waiting and malloc: outcomes are arbitrary inputs of the steps.
- The 40 header octets are symbolic (`HeaderOctet(header, k)`); the wire codec, the parser and its error paths would add
  easy members only.
- Stream flow control, channels, RPC records, route prefaces, the control wire messages, and the pipeline listener
  except for the TLS profiles it borrows and its control sessions retain.
- Completion queue and reactor tokens: the completion ring repeats the command ring's argument, and the token layout is
  a bit-field codec.
- Task dispatch is modelled as its locked sections, not as one method around the unlocked callbacks, since other
  threads act between them. Worker start-up and thread joins are single events.
- The class models keep the doubly linked TX FIFO, the control list and the buffer free list as sequences; link
  updates inside them are not modelled. A timer entry is split into its record and its link.
- Statistics that nothing else depends on (full events, push counts, high-water marks of queues and pools).
- MemoryBudget.BudgetsAreConserved: a two-level tree with one root, as the code permits; zero-byte calls, which return
  at once, take no step.
- Timers.ExplicitOperationWins: for callbacks of fewer than 2^32-1 operations, because generations are 32-bit and wrap.
- TimerEffects.FireEnters: for callbacks of fewer than 2^32-1 operations, for the same reason.
- TimerEffects.RunDueEnters: for callbacks of fewer than 2^32-1 operations each, for the same reason.
- BudgetAnswers.ReservationIsDecided: for a call that no other thread interrupts; MemoryBudget.BudgetsAreConserved has
  all interleavings.
- PoolAnswers.AcquireIsExact: one call without interference; PoolThreads has its sections interleaved.
- TlsRotation.ArriveKeeps: control sessions open on a live connection of shard 0 and close at any moment; that closing a
  control connection starts the end of its session is not modelled. A reference count that cannot grow any more is a
  call that fails.
- TimerQueue.TimerQueue.constructor: fewer than 2^31 timers, the exact bound of TimerHeap.ChildIndexIsExact. The source
  sets none; at 2^31 the heap order is lost, as TimerHeap.RootSinksIntoLeaf shows.
- PoolThreads.PoolIsConserved: for callers that do not release a buffer while an acquire of it is under way, the exact
  condition of PoolThreads.ReleaseKeepsInv. A reservation is one step on one account; MemoryBudget has its
  compare-and-swap steps and its parent.
- BufferPool.BufferPool.AcquireBuffer: one call without interference; PoolThreads has its sections interleaved.
- GroupTheorems.RoundRobinIsFair: at most 2^31 slots, the exact bound of GroupTheorems.SelectionIsExact.
- Wire.WireIsAcceptanceOrder: for items that pass the argument checks of a send; the octets of an item are any function
  of it.
- TxConnection.PrepareFrame: a header the codec refuses is not modelled.
- TxConnection.Connection.EnqueueTx: the doubly linked FIFO and the control list are sequences.
- TxConnection.Connection.CompleteTx: unlinking from both lists is removal from two sequences.
- Pipeline.Abort: closing the members' sockets after the teardown is not modelled.
- CommandRing.CommandRing.PushCommandWait: one admission attempt; blocking and waking of producers is not modelled.
- CrcChunks.InstructionIsBytes: the CRC32 instruction is given as byte steps of the reflected polynomial on a 64-bit
  register, and operands are loaded in little-endian order.
