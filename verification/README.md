# dtmc_linux_library: verified protocol, task and codec models

A Dafny model of the concurrent protocols, stream readers and codecs of the Linux library, with proofs.
`dafny verify dfyconfig.toml` checks everything.

Protocols are state machines: an `Event` datatype, a total `Step` in which an event that is not enabled changes
nothing, and `Run` over event sequences, so that every theorem over `Run` speaks about every interleaving. Code that
works step by step on fields and buffers is a class or a method with the code's loops, proved equal to the function
the theorems are about.

- **Modbus mailbox** (`ModbusRegisters`, `ModbusSlave`, `ModbusMaster`, `RxPort`, `ModbusSession`, `ModbusDelivery`,
  `ModbusEndToEnd`, `ModbusProgress`): master and slave applications and rx tasks, one event per register call. Blobs
  are delivered in order and exactly once, and every write that is due to be taken is taken and arrives; after a
  failure what arrived is a prefix.
- **Buffer queue, semaphore, CoAP publishing** (`Threads`, `BufferQueue`, `BufferQueueWaiters`, `BufferQueueService`,
  `Semaphore`, `CoapPubwork`, `CoapPublish`, `CoapDrain`, `CoapService`): the ring is a bounded FIFO, exactly when no
  wakeup is lost, no published message is stranded, and every publish call reaches the network side.
- **Task life cycle** (`Tasker`, `TaskerGuarantees`, `TaskerObject`) and the **HTTP server's client slots**
  (`HttpSlots`, `HttpServer`, `HttpServerGuarantees`, `HttpServerClients`,
  `HttpServerShutdown`, `HttpServerLateClients`, `HttpServerRuns`): exactly when a start is accepted, one ready post per
  run, one join per thread, an exact slot counter, who is served and who is turned away, the exact condition of
  deadlock, and the exact condition under which a shutdown needs no peer's help.
- **HTTP request reader** (`HttpText`, `HttpLines`, `Arrivals`, `HttpRequest`, `HttpRequestReader`,
  `HttpRequestChunks`, `HttpRequestLines`): the request as a function of the byte stream, exactly when that holds, and
  what a request written line by line is read as.
- **SHA-1, base64, WebSocket** (`Word32`, `Sha1Spec`, `Sha1`, `Base64`, `WebSocketFrames`, `WebSocketWrites`,
  `WebSocketUpgrade`, `WebSocketHandshake`, `WebSocketRequests`): FIPS 180-4, RFC 4648 section 4, RFC 6455 sections 4.2.2 and 5.2.
- **HTTP client accumulator** (`Accumulator`): doubling within int32, and exactly how far its cost is amortised.

Where the code does less than one would expect, the model follows the code and the exact condition is proved:

- An empty slave write is accepted but never released by a poll, and blocks all later writes
  (dtmc_linux_library/src/dtiox_linux_modbus_tcp_slave__helpers.c:81): `EmptyWriteWedges`, `PollReleasesSender`.
- A CoAP publish with empty topic and empty payload ends the I/O loop: the decoder refuses its one-byte buffer and the
  loop treats that as fatal: `LoopExitsIff`, `NothingAfterExit`, `ExitIsReached`.
- A master whose rx task has ended fails every read, and still pops the bytes it could have returned
  (dtmc_linux_library/src/dtiox_linux_modbus_tcp_master.c:391-399): `EveryReadFailsAtEnd`, `FailingReadsDrain`.
- A queue waiter that was signalled but returns ETIMEDOUT leaves without looking at the count
  (dtmc_linux_library/src/dtbufferqueue_linux.c:173-181, 269-273). A wakeup can be lost exactly if three or more threads
  use the queue and one that waits with a timeout shares its side with another that waits: `NoLostWakeupIff`.
- A task that returns without an error and without calling ready leaves start waiting forever: `StartHangsIff`,
  `HangIsReached`. A failing pthread_create after a run that was not joined leaves the task unusable:
  `CreateFailureWedgesIff`, `WedgeIsReached`.
- When the info callback fails in a client task's ready call, nothing is posted: the accept task waits for the signal
  holding the server lock, which the client thread needs to finish: `DeadlockIff`, `FailedCallbackDeadlocks`,
  `DeadlockIsReached`.
- The server's header search does not stop at the blank line, so without Content-Length in the head it may read
  body bytes, as many as happened to arrive: `IndependentIff`, `SplitMatters`.
- A Content-Length beyond int is converted to whatever the platform's atoi makes of it, so the body read is of the
  announced length exactly if the number fits: `PostBody`, `PostBodyThatFits`.
- Stop shuts down the clients active while it holds the lock. A client accepted before and started after is missed; if
  its peer does not read, the send has no timeout and an untimed join never returns: `JoinNeedsNoPeerIff`,
  `LateClientBlocks`.
- The accumulator's amortised bound ends at 2^30 + 1 bytes, since the capacity can no longer double: `CopyingBoundIff`.

## Model

| member | source | states |
|---|---|---|
| ModbusEndToEnd.OrderedExactlyOnce | dtmc_linux_library/src/dtiox_linux_modbus_tcp_master__rxtask.c:80-147 | in every interleaving of the four threads from an attached session, until a call fails: the blobs the slave's write accepted are those pushed to the master's fifo, then at most one staged in the registers, then at most one pending, in order, none lost or doubled; only the master's own, smaller limit may cut a blob |
| ModbusEndToEnd.PushedIsAlwaysPrefix | dtmc_linux_library/src/dtiox_linux_modbus_tcp_master__rxtask.c:88-155 | failures at any point or not, the blobs pushed so far are a prefix of the blobs accepted, so header and payload are always of the same blob |
| ModbusEndToEnd.NothingPushedAfterFailure | dtmc_linux_library/src/dtiox_linux_modbus_tcp_master__rxtask.c:149-159 | once a call has failed nothing is ever pushed again: the task ends instead of polling anew |
| ModbusEndToEnd.PutBlobConsumedOnce | dtmc_linux_library/src/dtiox_linux_modbus_tcp_slave__rxtask.c:141-169 | in every run the command cell is NONE whenever the slave is about to receive, and until a failure the blobs the master's write sent are those consumed, then the one in the map, then the one in transit |
| ModbusEndToEnd.SlaveBytesReachMaster | dtmc_linux_library/src/dtiox_linux_modbus_tcp_slave__helpers.c:74-107 | byte for byte, without overflow and with the slave's limit within the master's: what the slave's writes sent is what the master's reads handed out, then its fifo, then what is staged and pending |
| ModbusEndToEnd.MasterBytesReachSlave | dtmc_linux_library/src/dtiox_linux_modbus_tcp_slave__helpers.c:113-161 | the same from the master's writes to the slave's reads, its fifo, the map and the request in transit |
| ModbusProgress.SlaveWriteArrives | dtmc_linux_library/src/dtiox_linux_modbus_tcp_slave.c:377-416 | at any point of a session without a failure, with nothing pending: a non-empty write of up to the limit is taken, and by the threads' own steps comes out of the master's port as the last blob, behind all taken before, cut at the master's own limit only |
| ModbusProgress.MasterWriteArrives | dtmc_linux_library/src/dtiox_linux_modbus_tcp_master.c:265-344 | at any such point with no call under way: a write of the master comes to the slave's port as the last blob, behind all sent before, cut by the two limits only |
| ModbusProgress.EverythingArrives | dtmc_linux_library/src/dtiox_linux_modbus_tcp_master__rxtask.c:63-159 | from every state without a failure and without an empty write pending, a run of own steps and one poll delivers all that either side took |
| ModbusProgress.SlaveTakesWrite | dtmc_linux_library/src/dtiox_linux_modbus_tcp_slave.c:384-412 | at any point of any session, failures or not: a write is taken, whole, exactly if it is not longer than the limit and nothing is pending; refused it changes nothing |
| ModbusProgress.MasterSendsWrite | dtmc_linux_library/src/dtiox_linux_modbus_tcp_master.c:284-318 | a write of the master sends its buffer, or as much of it as one blob holds |
| ModbusProgress.OwnStepLives | dtmc_linux_library/src/dtiox_linux_modbus_tcp_slave__rxtask.c:121-200 | each step of a call under way goes on without failing and lowers a measure, so every schedule of them ends |
| ModbusProgress.CalmOrStep | dtmc_linux_library/src/dtiox_linux_modbus_tcp_slave__rxtask.c:121-200 | and until the session is calm there is such a step |
| ModbusEndToEnd.MasterPortFollowsOps | dtmc_linux_library/src/dtiox_linux_modbus_tcp_master__rxtask.c:136-147 | the master's fifo and flags in a session are those of the history of its pushes, reads and link failures, and its pushes are the blobs of that history |
| ModbusEndToEnd.SlavePortFollowsOps | dtmc_linux_library/src/dtiox_linux_modbus_tcp_slave__helpers.c:135-155 | the same for the slave's fifo and the blobs it consumed |
| ModbusEndToEnd.PollReleasesSender | dtmc_linux_library/src/dtiox_linux_modbus_tcp_slave__helpers.c:81-107 | a poll clears the pending flag exactly when the pending write was not empty |
| ModbusEndToEnd.EmptyWriteWedges | dtmc_linux_library/src/dtiox_linux_modbus_tcp_slave.c:391-412 | an accepted empty write stays pending in every continuation of the session, and every later write is refused |
| ModbusEndToEnd.EmptyWriteIsAccepted | dtmc_linux_library/src/dtiox_linux_modbus_tcp_slave.c:384-412 | an empty write is accepted in a fresh session, so that state is reached |
| ModbusDelivery.StepKeeps | dtmc_linux_library/src/dtiox_linux_modbus_tcp_slave__rxtask.c:121-200 | each of the twelve events of a session keeps the mailbox, channel and delivery invariants |
| ModbusDelivery.RunKeeps | dtmc_linux_library/src/dtiox_linux_modbus_tcp_slave.c:163-258 | so does every run from the state attach leaves |
| ModbusDelivery.HeaderTellsStaged | dtmc_linux_library/src/dtiox_linux_modbus_tcp_master__rxtask.c:88-114 | an answered header announces a payload exactly when a blob is staged, of its length cut at the master's limit |
| ModbusDelivery.PayloadIsStaged | dtmc_linux_library/src/dtiox_linux_modbus_tcp_master__rxtask.c:116-137 | an answered payload, unpacked, is the staged blob cut at the master's limit |
| ModbusDelivery.SessionPollIsMasterPoll | dtmc_linux_library/src/dtiox_linux_modbus_tcp_master__rxtask.c:80-147 | a poll cycle of the state machine, given three answers, does to the port what one pass of the rx task's code does |
| ModbusMaster.Master.PollOnce | dtmc_linux_library/src/dtiox_linux_modbus_rtu_master__rxtask.c:63-159 | one pass of the rx task, statement by statement, is the poll function; it ends the task exactly if a call failed |
| ModbusMaster.FailedPollThenRead | dtmc_linux_library/src/dtiox_linux_modbus_tcp_master__rxtask.c:71-159 | a failed poll leaves fifo and overflow flag alone; what the next read returns and pops, whether the task has ended by then or not: a slave timeout always on the RTU master and on the TCP master if the poll write failed, else the overflow flag, else bytes together with the task's state |
| ModbusMaster.EveryReadFailsAtEnd | dtmc_linux_library/src/dtiox_linux_modbus_tcp_master.c:368-399 | once the task has ended no read ever succeeds again: each pending flag is reported once, and from then on every read fails with the task's state |
| ModbusMaster.FailingReadsDrain | dtmc_linux_library/src/dtiox_linux_modbus_tcp_master.c:391-399 | and yet those reads put the fifo's bytes into the callers' buffers, in order, each once |
| ModbusMaster.SendChunks | dtmc_linux_library/src/dtiox_linux_modbus_rtu_master.c:353-411 | a chunked write puts whole blobs of the maximum size on the wire, in order, a shorter one last; when retries are permitted and succeed their concatenation is the buffer, otherwise a prefix of it |
| ModbusMaster.Master.Write | dtmc_linux_library/src/dtiox_linux_modbus_tcp_master.c:265-344 | one PUT_BLOB with at most the configured bytes, the count returned, a reconnect before and a disconnect after a failure |
| ModbusMaster.Master.WriteChunked | dtmc_linux_library/src/dtiox_linux_modbus_rtu_master.c:328-426 | the object's calls grow by exactly the requests of a chunked write |
| ModbusMaster.Master.Read | dtmc_linux_library/src/dtiox_linux_modbus_tcp_master.c:348-403 | dead-slave flag, then overflow flag, each reported once, then fifo bytes; whole new state; an ended rx task turns success into an error after the bytes were popped |
| ModbusMaster.Master.Enable | dtmc_linux_library/src/dtiox_linux_modbus_tcp_master.c:243-258 | fifo and flags cleared, nothing else changed |
| ModbusSlave.Slave.constructor | dtmc_linux_library/src/dtiox_linux_modbus_tcp_slave.c:163-258 | the state attach leaves: nothing staged, pending or received |
| ModbusSlave.Slave.Write | dtmc_linux_library/src/dtiox_linux_modbus_tcp_slave.c:377-416 | too long exactly if over the limit, else ignored exactly if disabled, else busy exactly if one is pending, else accepted with the count of the whole buffer; whole new state |
| ModbusSlave.Slave.Read | dtmc_linux_library/src/dtiox_linux_modbus_tcp_slave.c:335-370 | overflow reported once, then fifo bytes; whole new state |
| ModbusSlave.Slave.Enable | dtmc_linux_library/src/dtiox_linux_modbus_tcp_slave.c:303-329 | staging, fifo and flags cleared |
| ModbusSlave.Slave.PreparePollResponse | dtmc_linux_library/src/dtiox_linux_modbus_tcp_slave__helpers.c:74-107 | register image and pending state after staging |
| ModbusSlave.Slave.ConsumePutBlob | dtmc_linux_library/src/dtiox_linux_modbus_tcp_slave__helpers.c:113-161 | fifo, overflow flag and cleared command cells after consuming |
| ModbusSlave.Slave.Reply | dtmc_linux_library/src/dtiox_linux_modbus_tcp_slave__rxtask.c:150-155 | a request is applied to the map and answered, or refused whole |
| ModbusSlave.Slave.ServeOne | dtmc_linux_library/src/dtiox_linux_modbus_tcp_slave__rxtask.c:141-169 | reply first, then interpret the command cell: the loop body is that composition |
| ModbusSlave.InterpretPoll | dtmc_linux_library/src/dtiox_linux_modbus_tcp_slave__helpers.c:74-107 | interpreting a poll moves the pending blob whole into the map, clears the command cell and touches no fifo |
| ModbusSlave.StagingABlob | dtmc_linux_library/src/dtiox_linux_modbus_tcp_slave__helpers.c:81-100 | reading the staged registers back yields the blob that was written |
| ModbusSlave.PutLandsInMap | dtmc_linux_library/src/dtiox_linux_modbus_tcp_master.c:284-318 | a PUT_BLOB written by the master is read from the slave's registers as the same blob, the slave-to-master area untouched |
| ModbusRegisters.UnpackPack | dtmc_linux_library/src/dtiox_linux_modbus_tcp_master__rxtask.c:116-137 | unpacking any leading part of a packed blob gives that part, whatever follows in the registers |
| RxPort.OverflowFlagExact | dtmc_linux_library/src/dtiox_linux_modbus_tcp_master__rxtask.c:136-147 | after any history of pushes, reads and enables the overflow flag is set exactly if some drop is still unreported |
| RxPort.NoSilentGap | dtmc_linux_library/src/dtiox_linux_modbus_tcp_slave.c:349-366 | if bytes were dropped and a later read hands bytes out, an overflow error or a clear lies between |
| RxPort.HandsOutInOrder | dtmc_linux_library/src/dtiox_linux_modbus_tcp_master.c:368-394 | between two enables the port neither reorders, repeats nor invents a byte |
| RxPort.PushKeeps | dtmc_linux_library/src/dtiox_linux_modbus_tcp_master__rxtask.c:136-147 | after any such history a push keeps as many bytes as there is room for beside those kept and not yet handed out, from the beginning, and raises the overflow flag exactly if that is not all |
| RxPort.ReadHandsOut | dtmc_linux_library/src/dtiox_linux_modbus_tcp_master.c:368-394 | and with no flag set a read hands out as many of those bytes as it is asked for, or all |
| BufferQueue.EnqueueAppends | dtmc_linux_library/src/dtbufferqueue_linux.c:203-206 | below capacity a put appends to the queued items and keeps the ring consistent: nothing accepted is overwritten |
| BufferQueue.DequeueTakesOldest | dtmc_linux_library/src/dtbufferqueue_linux.c:283-287 | a get removes exactly the oldest item and keeps the ring consistent |
| BufferQueue.Queue.constructor | dtmc_linux_library/src/dtbufferqueue_linux.c:64-128 | an empty ring of the requested capacity, at least 1 |
| BufferQueue.Queue.Put | dtmc_linux_library/src/dtbufferqueue_linux.c:134-209 | times out on a full queue leaving it alone, otherwise appends |
| BufferQueue.Queue.Get | dtmc_linux_library/src/dtbufferqueue_linux.c:220-300 | times out on an empty queue leaving it alone, otherwise takes the oldest item |
| BufferQueueWaiters.StepKeeps | dtmc_linux_library/src/dtbufferqueue_linux.c:159-209 | every step of any number of threads but the giving up of a signalled waiter, with barging and spurious wakeups and any choice of the woken thread, keeps the ring and its history, and that a parked getter means at most as many items as woken getters not yet run, symmetrically for putters and free places |
| BufferQueueWaiters.FifoOrder | dtmc_linux_library/src/dtbufferqueue_linux.c:134-300 | in every interleaving, timeouts included, the items accepted are those handed out, in that order, then those queued |
| BufferQueueService.PutIsAccepted | dtmc_linux_library/src/dtbufferqueue_linux.c:134-209 | at any point of any run: while fewer items than the capacity are accepted and not yet handed out, a put is accepted at once, however it may wait; otherwise it times out, changing nothing, or waits with its item |
| BufferQueueService.WokenPutIsAccepted | dtmc_linux_library/src/dtbufferqueue_linux.c:159-206 | and a woken putter puts the item it came with |
| BufferQueueService.GetIsServed | dtmc_linux_library/src/dtbufferqueue_linux.c:220-300 | with an item waiting a get, arriving or woken, is given the oldest at once; otherwise it times out, changing nothing, or waits |
| BufferQueueWaiters.NoLostWakeup | dtmc_linux_library/src/dtbufferqueue_linux.c:159-209 | if whoever waits with a timeout waits alone on its side, in every run, timeouts included: a parked getter with items queued means a woken getter whose next step takes one, the same for putters and free places, and getters and putters never all sleep |
| BufferQueueWaiters.NoLostWakeupIff | dtmc_linux_library/src/dtbufferqueue_linux.c:159-206 | given for each thread how it may wait to put and to get: that condition holds after every run of theirs exactly if nobody who waits with a timeout shares its side with another waiter, or there are at most two threads |
| BufferQueueWaiters.GetterStrands | dtmc_linux_library/src/dtbufferqueue_linux.c:237-273 | the run of three threads in which it fails: an item queued, a getter parked, no getter on its way |
| BufferQueueWaiters.PutterStrands | dtmc_linux_library/src/dtbufferqueue_linux.c:159-206 | and its counterpart: a free place, a putter parked, none on its way |
| BufferQueueWaiters.TwoAreServed | dtmc_linux_library/src/dtbufferqueue_linux.c:134-300 | with two threads it holds after every run, whatever their timeouts |
| Semaphore.StepKeeps | dtmc_linux_library/src/dtsemaphore_linux.c:122-162 | units are conserved and no wakeup is lost in every step, although only posts below the cap signal |
| Semaphore.NoLostWakeup | dtmc_linux_library/src/dtsemaphore_linux.c:122-162 | in every run initial and counted posts are the units left plus those taken, and a parked waiter with units on hand means a woken one whose next step takes one, although posts at the cap do not signal |
| Semaphore.PostsAddUp | dtmc_linux_library/src/dtsemaphore_linux.c:108-133 | with nobody waiting n posts add n units, up to the cap |
| Semaphore.WaitsUseUp | dtmc_linux_library/src/dtsemaphore_linux.c:137-176 | and n waits that do not block take n units, or as many as there are |
| Semaphore.Semaphore.constructor | dtmc_linux_library/src/dtsemaphore_linux.c:54-84 | the code of the initial state: initial count and cap, a cap of 0 meaning none |
| Semaphore.Semaphore.Post | dtmc_linux_library/src/dtsemaphore_linux.c:108-133 | the code of the post step: below the cap the count grows by one, at the cap nothing changes |
| Semaphore.Semaphore.WaitNoWait | dtmc_linux_library/src/dtsemaphore_linux.c:137-176 | the code of the step of a wait that does not block: a unit is taken or a timeout reported, exactly when the count is 0 |
| CoapPubwork.RoundTripIff | dtmc_linux_library/src/dtnetportal_coap__pubwork.c:16-69 | decoding an encoded request yields it exactly if topic and payload are not both empty, and is refused exactly if they are |
| CoapPubwork.EncodeInto | dtmc_linux_library/src/dtnetportal_coap__pubwork.c:16-40 | the buffer holds topic, NUL, payload |
| CoapPublish.StepKeeps | dtmc_linux_library/src/dtnetportal_coap__ioloop.c:94-187 | every step of publishers and loop keeps wake-up safety and the record of what was published |
| CoapPublish.PutStepKeeps | dtmc_linux_library/src/dtnetportal_coap.c:237-244 | a publisher's put leaves it owing the wake byte, which covers its message |
| CoapPublish.LoopGetKeeps | dtmc_linux_library/src/dtnetportal_coap__ioloop.c:150-187 | each message the loop takes is decoded to the request that was put |
| CoapService.PublishArrives | dtmc_linux_library/src/dtnetportal_coap.c:231-244 | from every reachable state with sendable requests: a publish call, with any topic and payload not both empty, is published behind all that was put before, once the threads under way have gone on |
| CoapDrain.NothingStranded | dtmc_linux_library/src/dtnetportal_coap__ioloop.c:94-135 | in every reachable state a queued message means a byte in the pipe, a publisher about to write one, or a loop pass that has not found the queue empty, unless the loop has exited; what was published is a prefix of what was put, and while the loop runs the rest is what is queued |
| CoapDrain.SystemEventDecreases | dtmc_linux_library/src/dtnetportal_coap__ioloop.c:94-187 | without new requests every step that does anything lowers a well-founded measure |
| CoapDrain.QuietMeansDelivered | dtmc_linux_library/src/dtnetportal_coap__ioloop.c:94-187 | when no such step is left, the queue is empty, no publisher is blocked and everything put was published |
| CoapDrain.RunsToDelivery | dtmc_linux_library/src/dtnetportal_coap__ioloop.c:94-187 | from every reachable state with sendable requests the system on its own reaches that state |
| CoapDrain.LoopExitsIff | dtmc_linux_library/src/dtnetportal_coap__ioloop.c:155-183 | taking a message ends the loop exactly if its topic and payload are both empty |
| CoapDrain.NothingAfterExit | dtmc_linux_library/src/dtnetportal_coap__ioloop.c:124-135 | after that nothing is ever published |
| CoapDrain.ExitNeedsAllEmpty | dtmc_linux_library/src/dtnetportal_coap__ioloop.c:155-183 | the loop has ended only if some request put was all empty |
| CoapDrain.ExitIsReached | dtmc_linux_library/src/dtnetportal_coap__ioloop.c:94-187 | and one such request to a fresh system is enough: the run into the exited loop |
| Tasker.StepKeeps | dtmc_linux_library/src/dttasker_linux.c:217-445 | every step of the controller and of the run's thread keeps the latch, signal, life and join invariants |
| TaskerGuarantees.OnePostPerRun | dtmc_linux_library/src/dttasker_linux.c:72-103 | in every run from dttasker_create each thread posts ready at most once, and a finished one has posted exactly if it reported ready or ended with an error |
| TaskerGuarantees.NoStaleSignal | dtmc_linux_library/src/dttasker_linux.c:250-274 | in every such run the semaphore is 0 outside start, and a start that sees a signal sees that of its own run |
| TaskerGuarantees.StartAcceptedIff | dtmc_linux_library/src/dttasker_linux.c:217-232 | at rest in any run from dttasker_create a start is accepted exactly if no thread runs and the task is not in the unusable state below; refused it changes nothing |
| TaskerGuarantees.StartRuns | dtmc_linux_library/src/dttasker_linux.c:217-274 | an accepted start whose thread is created and reports ready returns with a new thread running, the status READY and no stop requested |
| TaskerGuarantees.StartHangsIff | dtmc_linux_library/src/dttasker_linux.c:170-194 | once its run is over, a waiting start finds no signal exactly if the run returned without error and never reported ready |
| TaskerGuarantees.HangIsForever | dtmc_linux_library/src/dttasker_linux.c:270-274 | such a start never returns, whatever happens |
| TaskerGuarantees.HangIsReached | dtmc_linux_library/src/dttasker_linux.c:170-274 | a run from dttasker_create into it |
| TaskerGuarantees.JoinGoesThrough | dtmc_linux_library/src/dttasker_linux.c:330-437 | a join after the end of an unjoined run goes through and joins its thread once |
| TaskerGuarantees.JoinedMeansStopped | dtmc_linux_library/src/dttasker_linux.c:366-437 | a join that waited a run out returns with the status STOPPED and its thread joined once |
| TaskerGuarantees.StopIsSeen | dtmc_linux_library/src/dttasker_linux.c:315-325 | beside it: a stop called at rest is not lost, its request stays set in every run up to the reset of the next start |
| TaskerGuarantees.OneJoinPerThread | dtmc_linux_library/src/dttasker_linux.c:404-437 | in every run from dttasker_create in which every start comes after a completed join, each thread but the current one has been joined exactly once, the current one at most once |
| TaskerGuarantees.CreateFailureWedgesIff | dtmc_linux_library/src/dttasker_linux.c:227-262 | a failing thread creation leaves a task that refuses every start and never sees a join end exactly if the run before was not joined |
| TaskerGuarantees.WedgeIsForever | dtmc_linux_library/src/dttasker_linux.c:227-232 | that state is never left |
| TaskerGuarantees.WedgeIsReached | dtmc_linux_library/src/dttasker_linux.c:217-274 | a run from dttasker_create into it |
| TaskerGuarantees.JoiningPreventsWedge | dtmc_linux_library/src/dttasker_linux.c:227-262 | a controller that joins before it starts again never reaches it |
| TaskerObject.Task.PostReadyOnce | dtmc_linux_library/src/dttasker_linux.c:72-103 | the code's latch and post are the two latch steps of the life cycle |
| TaskerObject.Task.ReportReady | dtmc_linux_library/src/dttasker_linux.c:293-310 | ready updates the status, and posts only if the info callback succeeded |
| TaskerObject.Task.ResetForStart | dtmc_linux_library/src/dttasker_linux.c:250-259 | the section that prepares a run is the reset step |
| TaskerObject.Task.MayStart | dtmc_linux_library/src/dttasker_linux.c:226-232 | start is refused exactly while a thread is created and has not exited, as in the start step |
| TaskerObject.Task.RequestStop | dtmc_linux_library/src/dttasker_linux.c:315-325 | stop is the stop step |
| TaskerObject.Task.MarkJoined | dtmc_linux_library/src/dttasker_linux.c:428-437 | the end of join is the marking step |
| HttpServer.StepKeeps | dtmc_linux_library/src/dthttpd_linux_socket.c:1096-1273 | step of the theorems below: every step of accept task, client threads and controller keeps the invariants of lock, slots, connections and counter |
| HttpServer.MarkKeeps | dtmc_linux_library/src/dthttpd_linux_socket.c:790-823 | a finishing thread's slot is active and counted, so the guard on the counter never bites |
| HttpSlots.FirstFree | dtmc_linux_library/src/dthttpd_linux_socket.c:886-909 | the first slot that is inactive and has no task, if there is one |
| HttpSlots.Pool.FindFreeSlot | dtmc_linux_library/src/dthttpd_linux_socket.c:886-909 | the search loop finds it |
| HttpSlots.Pool.ReapFinishedSlots | dtmc_linux_library/src/dthttpd_linux_socket.c:829-880 | exactly the inactive slots whose thread has returned lose their task |
| HttpSlots.Pool.MarkSlotFinished | dtmc_linux_library/src/dthttpd_linux_socket.c:790-823 | the slot becomes inactive and the counter stays the number of active slots |
| HttpServerClients.ConnectingClientIsServed | dtmc_linux_library/src/dthttpd_linux_socket.c:1096-1241 | from every state in which the accept task waits for a connection and some slot has no thread, or one that has returned: a client that connects gets its thread and is served, by the server's own steps, whoever holds the lock and however many others are served |
| HttpServerClients.ClosedUnservedWasRefused | dtmc_linux_library/src/dthttpd_linux_socket.c:1141-1273 | in every run: a connection closed without ever having had a thread met the end of a reaping pass with every slot taken, or its thread could not be created |
| HttpServerClients.QuietServerServesAgain | dtmc_linux_library/src/dthttpd_linux_socket.c:1411-1443 | a server that is new or joined can be started and serves the next client |
| HttpServerGuarantees.CounterIsExact | dtmc_linux_library/src/dthttpd_linux_socket.c:1136-1241 | in every run the counter is at most the maximum, and the number of active slots whenever the lock is free |
| HttpServerGuarantees.OneThreadPerSlot | dtmc_linux_library/src/dthttpd_linux_socket.c:1186-1241 | no two threads still to be joined share a slot |
| HttpServerGuarantees.HandedOutOnlyWhenJoined | dtmc_linux_library/src/dthttpd_linux_socket.c:829-858 | a slot handed to a new client is blank and all its earlier threads have been joined |
| HttpServerGuarantees.DeadlockIff | dtmc_linux_library/src/dthttpd_linux_socket.c:1141-1236 | threads wait for each other in a circle exactly if the accept task, holding the lock, awaits the signal of a client thread that could not report ready and wants the lock |
| HttpServerGuarantees.FailedCallbackDeadlocks | dtmc_linux_library/src/dthttpd_linux_socket.c:914-988 | this follows from every state in which the info callback of a new client's task fails |
| HttpServerGuarantees.DoomIsForever | dtmc_linux_library/src/dthttpd_linux_socket.c:1219-1236 | and then the lock is never released again |
| HttpServerRuns.DeadlockIsReached | dtmc_linux_library/src/dthttpd_linux_socket.c:1141-1236 | a run of a fresh server of one slot into it |
| HttpServerGuarantees.NoDeadlock | dtmc_linux_library/src/dthttpd_linux_socket.c:1141-1236 | in every run in which no info callback fails no circle of waiting threads is reached |
| HttpServerGuarantees.WaitsEndAtABusyThread | dtmc_linux_library/src/dttasker_linux.c:369-388 | behind every waiting thread stands, along the waits, a busy one that waits for none |
| HttpServerGuarantees.BusyThreadMoves | dtmc_linux_library/src/dthttpd_linux_socket.c:1096-1273 | and that thread has a step of its own that changes the state, with nothing failing in it, unless it awaits the network: a new client on the open listener, or a peer that does not read and whose socket is not shut down |
| HttpServerGuarantees.JoinLeavesQuiet | dtmc_linux_library/src/dthttpd_linux_socket.c:1510-1555 | a join that has gone through leaves every slot inactive and without task, every connection ever accepted closed exactly once, the counter it resets already 0, and happens only after stop |
| HttpServerGuarantees.NeverClosedTwice | dtmc_linux_library/src/dthttpd_linux_socket.c:975-988 | at no time has a connection been closed twice, also one accepted while stop ran |
| HttpServerClients.StopAndJoinClose | dtmc_linux_library/src/dthttpd_linux_socket.c:1451-1555 | from every reachable state at rest, with the lock free and no failed callback: a stop and a join lead into the state the theorems below start from, with every client that is being served shut down |
| HttpServerShutdown.EveryStepCounts | dtmc_linux_library/src/dthttpd_linux_socket.c:1510-1555 | after stop, during an untimed join, every step that changes anything, a peer's reading included, lowers a measure and keeps the server closing, or leaves it quiet |
| HttpServerShutdown.ShutdownCompletes | dtmc_linux_library/src/dthttpd_linux_socket.c:1510-1555 | so the join can always be completed by the server's own steps, nothing failing in them, if peers read what they are sent |
| HttpServerShutdown.ShutdownCannotStall | dtmc_linux_library/src/dthttpd_linux_socket.c:1510-1555 | and every run with more effective steps than the measure has reached the quiet state |
| HttpServerLateClients.JoinNeedsNoPeerIff | dtmc_linux_library/src/dthttpd_linux_socket.c:1451-1555 | during an untimed join after stop: whatever steps the server takes, it never comes to wait for a peer's reading exactly if every client still being served has been shut down and the accept task can start no further one, that is, has no client in hand or no slot for it |
| HttpServerShutdown.NoneStartedAllShut | dtmc_linux_library/src/dthttpd_linux_socket.c:1471-1488 | every client being served has been shut down after every run from the end of stop's pass in which no client thread is started |
| HttpServerRuns.LateClientBlocks | dtmc_linux_library/src/dthttpd_linux_socket.c:1141-1236 | a run of a fresh server in which one is started: accepted before stop, started after its pass, its peer not reading; nothing the server does then changes anything and the join is not through |
| HttpServerShutdown.PassShutsAll | dtmc_linux_library/src/dthttpd_linux_socket.c:1471-1488 | step of NoneStartedAllShut: at the end of stop's pass every client being served has been shut down |
| HttpServerShutdown.StopShuts | dtmc_linux_library/src/dthttpd_linux_socket.c:1459-1468 | step of ShutdownCompletes: where the state it starts from comes from; stop leaves the request set and the listener closed |
| HttpServerShutdown.ShutStays | dtmc_linux_library/src/dthttpd_linux_socket.c:1411-1443 | step of ShutdownCompletes: that state lasts until a join has gone through and the server is started anew |
| HttpRequestLines.ReadsRequest | dtmc_linux_library/src/dthttpd_linux_socket.c:526-733 | a request written as lines, one of them Content-Length with n in decimal: however the stream is split, the server reads method, path without query and fragment and, for a POST, exactly the next n bytes; or reports the first of: line or method or path too long, field too long, body too large, stream ended |
| HttpRequestLines.ReadsRequestWithoutLength | dtmc_linux_library/src/dthttpd_linux_socket.c:526-733 | the same for a request without the field and nothing behind its blank line; a POST is refused |
| HttpRequestLines.LongHeadRefused | dtmc_linux_library/src/dthttpd_linux_socket.c:567-608 | lines that do not fit the buffer are refused as too large |
| HttpRequestLines.NumberIsDecimal | dtmc_linux_library/src/dthttpd_linux_socket.c:671-676 | the number read is the one printed in decimal, whatever space is before and whatever but a digit behind it, with its sign |
| HttpRequestLines.PathIsBeforeQuery | dtmc_linux_library/src/dthttpd_linux_socket.c:490-521 | the path is what comes before query and fragment, refused exactly if empty or too long |
| HttpRequestLines.FewerWordsRefused | dtmc_linux_library/src/dthttpd_linux_socket.c:640-644 | a line of one or two words is refused |
| HttpLines.HeadOfLines | dtmc_linux_library/src/dthttpd_linux_socket.c:567-610 | the head of a stream that begins with lines is their text |
| HttpLines.FieldHas | dtmc_linux_library/src/dthttpd_linux_socket.c:453-481 | a line with the name in any case, a colon, blanks and a value is a field with that value |
| HttpRequestReader.ReadRequest | dtmc_linux_library/src/dthttpd_linux_socket.c:526-733 | the reader with its buffers and loops computes the read function of the network's chunks |
| HttpRequestReader.ReceiveHead | dtmc_linux_library/src/dthttpd_linux_socket.c:567-608 | the head loop: bytes up to the chunk that completes the blank line, or the error |
| HttpRequestReader.FindLength | dtmc_linux_library/src/dthttpd_linux_socket.c:430-486 | the header search with its 64-byte result |
| HttpRequestReader.NormalizeTarget | dtmc_linux_library/src/dthttpd_linux_socket.c:490-521 | the target up to query or fragment, spelled out: non-empty, shorter than the buffer, ended by one of the two characters; or the reason it is not |
| HttpRequestReader.ReceiveBody | dtmc_linux_library/src/dthttpd_linux_socket.c:681-729 | early bytes first, then received ones, up to the length |
| HttpRequest.ReadHeadOutcome | dtmc_linux_library/src/dthttpd_linux_socket.c:567-610 | how the head loop ends and which head it finds depends on the whole stream alone; no byte is lost |
| HttpRequest.ReadBodyOutcome | dtmc_linux_library/src/dthttpd_linux_socket.c:692-729 | the body is the next n bytes of the stream, or the stream ended before |
| HttpRequest.ScanInverts | dtmc_linux_library/src/dthttpd_linux_socket.c:640-644 | a line of method, target and version within the scan widths is taken apart again |
| HttpRequestChunks.ReadIsExpected | dtmc_linux_library/src/dthttpd_linux_socket.c:526-733 | for a head with Content-Length the result, errors included, is a function of the byte stream and its ending, on a platform whose atoi is a function of the text |
| HttpRequestChunks.AnySplitSameRequest | dtmc_linux_library/src/dthttpd_linux_socket.c:567-729 | two ways of splitting the same stream yield the same method, path and body |
| HttpRequestChunks.PostBodyThatFits | dtmc_linux_library/src/dthttpd_linux_socket.c:660-729 | a POST whose Content-Length fits an int and the limit: on every platform its body is exactly that many bytes behind the first blank line, or the stream ended before |
| HttpRequestChunks.PostBody | dtmc_linux_library/src/dthttpd_linux_socket.c:660-729 | any accepted POST: as many bytes as atoi makes of the field, which is the number given exactly if that fits an int |
| HttpRequestChunks.IndependentIff | dtmc_linux_library/src/dthttpd_linux_socket.c:453-481 | for every acceptable head: all streams that begin with it give the same result however split, exactly if it has a Content-Length line |
| HttpRequestChunks.SplitMatters | dtmc_linux_library/src/dthttpd_linux_socket.c:453-481 | without one, body bytes that look like the field are found or not depending on the split |
| Sha1.ComputeChunked | dtmc_linux_library/src/dtsha1.c:116-194 | however a message is cut into update calls, final returns the FIPS 180-4 digest of the whole, below 2^61 bytes the standard one |
| Sha1.Compute | dtmc_linux_library/src/dtsha1.c:199-204 | the one-call form returns the standard digest |
| Sha1.Ctx.constructor | dtmc_linux_library/src/dtsha1.c:116-129 | the initial hash value of section 5.3.1 and an empty buffer |
| Sha1.Ctx.Update | dtmc_linux_library/src/dtsha1.c:133-160 | the context stays that of the message fed so far, extended by the data |
| Sha1.Ctx.ProcessBlock | dtmc_linux_library/src/dtsha1.c:52-111 | schedule, eighty rounds in or-forms and the final additions are the compression of section 6.1.2 |
| Sha1.Ctx.Final | dtmc_linux_library/src/dtsha1.c:164-194 | 0x80, zeros and the 64-bit length are the padding of section 5.1.1; the digest of the padded message is returned |
| Sha1.Ctx.FeedZeros | dtmc_linux_library/src/dtsha1.c:178-182 | the padding loop ends, after exactly the specified number of zeros |
| Sha1.AbsorbInParts | dtmc_linux_library/src/dtsha1.c:143-160 | absorbing in two parts is absorbing at once |
| Sha1.AbsorbIsBlockIteration | dtmc_linux_library/src/dtsha1.c:143-160 | absorbing whole blocks is the standard's block iteration |
| Sha1.ZerosStopInTime | dtmc_linux_library/src/dtsha1.c:178-182 | 56 buffered bytes are reached at that number of zeros and not before |
| Sha1.BitsOfBytes | dtmc_linux_library/src/dtsha1.c:174-175 | byte and bit counters wrap at 64 bits and agree with the message length below 2^61 bytes |
| Sha1Spec.PaddingIsMinimal | dtmc_linux_library/src/dtsha1.c:177-185 | the zero bits are the least number that makes the length 448 modulo 512 |
| Sha1Spec.OrForms | dtmc_linux_library/src/dtsha1.c:77-95 | the or-forms of Ch and Maj equal those of section 4.1.1 |
| Sha1Spec.RotlMoves | dtmc_linux_library/src/dtsha1.c:63-104 | the rotation moves the upper n bits of a word below the others |
| Sha1Spec.ConstantsAreRoots | dtmc_linux_library/src/dtsha1.c:77-96 | the four constants are the integer parts of 2^30 times the roots of 2, 3, 5 and 10 |
| Word32.LoadIsBigEndian | dtmc_linux_library/src/dtsha1.c:17-21 | the shifted and or-ed bytes are their big-endian value |
| Word32.StoreIsBigEndian | dtmc_linux_library/src/dtsha1.c:40-47 | the stored bytes are the big-endian digits |
| Word32.LoadStore | dtmc_linux_library/src/dtsha1.c:17-47 | loading and storing a word are inverse |
| WebSocketWrites.PeerSeesReported | dtmc_linux_library/src/dtiox_linux_websocket.c:736-783 | in any run from an attach, whatever the sends do: an RFC 6455 section 5.2 decoder reads from all bytes sent exactly the messages of those writes that returned success |
| WebSocketWrites.ResultIsSeen | dtmc_linux_library/src/dtiox_linux_websocket.c:736-783 | each write that returns success gives the decoder exactly its message more, every other none |
| WebSocketWrites.WriteResults | dtmc_linux_library/src/dtiox_linux_websocket.c:736-783 | the result of every write: on an enabled, attached, quiet connection it is success with the whole count exactly if the sends in a row take header and payload, otherwise a failure that closes the connection |
| WebSocketWrites.SendAllIff | dtmc_linux_library/src/dtiox_linux_websocket.c:117-145 | a buffer is sent exactly if the first sends, none failing, take its length, and no further send is used |
| WebSocketFrames.DecoderSeesWritten | dtmc_linux_library/src/dtiox_linux_websocket.c:736-783 | step of PeerSeesReported: a decoder that insists on shortest lengths reads the messages recorded as written, then a torn beginning of one frame, which is empty while the connection is open |
| WebSocketFrames.RunKeeps | dtmc_linux_library/src/dtiox_linux_websocket.c:736-783 | the bytes sent are whole frames of the written messages, then at most one torn frame |
| WebSocketFrames.DecodesFrames | dtmc_linux_library/src/dtiox_linux_websocket.c:507-551 | decoding a sequence of frames and a torn one gives the messages back |
| WebSocketFrames.ParsesFrame | dtmc_linux_library/src/dtiox_linux_websocket.c:507-551 | each frame parses, in its shortest length form, to its payload |
| WebSocketFrames.WebSocket.SendAllBytes | dtmc_linux_library/src/dtiox_linux_websocket.c:117-145 | the send loop pushes a prefix out, all of it exactly on success |
| WebSocketFrames.WebSocket.SendBinaryFrame | dtmc_linux_library/src/dtiox_linux_websocket.c:507-551 | header bytes as the code stores them, then the payload unless empty |
| WebSocketFrames.WebSocket.WriteMessage | dtmc_linux_library/src/dtiox_linux_websocket.c:736-783 | ignored, not attached, peer closed, failed or written; whole new state; success reports the whole count and has sent exactly the frame, a failure a proper beginning of it, the others nothing |
| Base64.DecodeEncode | dtmc_linux_library/src/dtiox_linux_websocket.c:151-178 | RFC 4648 section 4 encoding of any bytes decodes to them |
| Base64.TestVectors | dtmc_linux_library/src/dtiox_linux_websocket.c:151-178 | the vectors of section 10 for one, two, three and six bytes |
| Base64.CharsAreTheAlphabet | dtmc_linux_library/src/dtiox_linux_websocket.c:151-178 | the characters are those of table 1 |
| Base64.Encode20 | dtmc_linux_library/src/dtiox_linux_websocket.c:151-178 | the 20-byte encoder writes the standard's 28 characters and a NUL |
| WebSocketRequests.AcceptsKey | dtmc_linux_library/src/dtiox_linux_websocket.c:249-388 | a GET request of at most 8191 bytes whose first Upgrade line lists websocket and first Connection line Upgrade: for every key of 1 to 255 bytes without blanks at its ends the reply accepts with base64 of SHA-1 of the whole key and the GUID, however the request is split and whatever follows it |
| WebSocketRequests.ReplyToLines | dtmc_linux_library/src/dtiox_linux_websocket.c:314-388 | which of the five replies a request gets, in terms of its lines: refused exactly without GET, without an Upgrade or Connection line listing the token, or without a key line |
| WebSocketRequests.LongRequestRefused | dtmc_linux_library/src/dtiox_linux_websocket.c:257-310 | a request of more than 8191 bytes is given up |
| WebSocketRequests.ListsJoined | dtmc_linux_library/src/dtiox_linux_websocket.c:215-245 | a list of elements joined by commas has a token exactly if one of them names it |
| WebSocketRequests.NamesPadded | dtmc_linux_library/src/dtiox_linux_websocket.c:215-245 | an element with blanks around it names what it would without them, case aside |
| WebSocketUpgrade.SplitDoesNotMatter | dtmc_linux_library/src/dtiox_linux_websocket.c:249-310 | however a stream is split, the receive loop ends alike, with the same text up to the first blank line |
| WebSocketUpgrade.ReceiveOutcome | dtmc_linux_library/src/dtiox_linux_websocket.c:257-310 | found, too large or ended is decided by the part of the stream that fits, up to its first NUL |
| WebSocketUpgrade.HeaderInHead | dtmc_linux_library/src/dtiox_linux_websocket.c:182-211 | a header's text depends on nothing behind the first blank line |
| WebSocketUpgrade.ContainsToken | dtmc_linux_library/src/dtiox_linux_websocket.c:215-245 | the scan finds a token exactly if, splitting the line on commas and trimming, some element equals it without regard to case |
| WebSocketHandshake.DoHandshake | dtmc_linux_library/src/dtiox_linux_websocket.c:314-388 | the handshake code computes the reply function of the theorems above, SHA-1 and base64 included |
| WebSocketHandshake.SameReplyForAnySplit | dtmc_linux_library/src/dtiox_linux_websocket.c:249-388 | however the request is split, the peer gets the same reply |
| WebSocketHandshake.TailDoesNotMatter | dtmc_linux_library/src/dtiox_linux_websocket.c:249-388 | streams that agree up to the first blank line get the same reply, and do get one |
| WebSocketHandshake.AcceptFor | dtmc_linux_library/src/dtiox_linux_websocket.c:368-374 | the accept text is base64 of SHA-1 of key and GUID, as RFC 6455 section 4.2.2 requires |
| WebSocketHandshake.AcceptDecodes | dtmc_linux_library/src/dtiox_linux_websocket.c:368-374 | it decodes to that digest |
| WebSocketHandshake.TrimmedKey | dtmc_linux_library/src/dtiox_linux_websocket.c:349-363 | the key is the header's line, cut at 255 bytes, without blanks at the end, spelled out |
| WebSocketHandshake.ReceiveRequest | dtmc_linux_library/src/dtiox_linux_websocket.c:249-310 | the loop with its buffer computes the receive function |
| WebSocketHandshake.FindHeaderValue | dtmc_linux_library/src/dtiox_linux_websocket.c:182-211 | the search loop computes the position of a header's value |
| Accumulator.TransferBounds | dtmc_linux_library/src/dthttpclient_linux.c:48-120 | after any run of body writes the buffer holds the concatenation of the chunks taken, capacity is at most max(4096, 2 length) and within int32, and up to 2^30 + 1 bytes reallocation has moved fewer than 2 length bytes |
| Accumulator.TransferTakesAll | dtmc_linux_library/src/dthttpclient_linux.c:48-120 | if memory suffices, a body of up to INT32_MAX bytes is taken whole, whatever its chunks |
| Accumulator.RefusedIff | dtmc_linux_library/src/dthttpclient_linux.c:48-87 | a chunk is refused, and nothing changed, exactly if it would pass INT32_MAX or needs memory that is not to be had |
| Accumulator.AppendKeepsFrugal | dtmc_linux_library/src/dthttpclient_linux.c:56-85 | each append keeps those bounds |
| Accumulator.GrownBounds | dtmc_linux_library/src/dthttpclient_linux.c:60-70 | doubling stops within int32 and below twice what is required |
| Accumulator.GrownCapacity | dtmc_linux_library/src/dthttpclient_linux.c:60-70 | the doubling loop ends and no int32 operation in it overflows |
| Accumulator.CopyingBoundIff | dtmc_linux_library/src/dthttpclient_linux.c:56-85 | for every length n up to INT32_MAX: all runs that end with n bytes moved fewer than 2 n exactly if n is at most 2^30 + 1 |
| Accumulator.TrickleCopies | dtmc_linux_library/src/dthttpclient_linux.c:56-85 | the runs that break it: 2^30 bytes and then k single ones move at least 2^30 k bytes |
| Accumulator.Accumulator.Accumulate | dtmc_linux_library/src/dthttpclient_linux.c:48-87 | success exactly if length and allocation allow, and the whole new state |
| Accumulator.Accumulator.WriteBody | dtmc_linux_library/src/dthttpclient_linux.c:92-120 | the callback returns the byte count exactly if the chunk was taken |

## Left out

- Foreign code: libmodbus, libcoap, libcurl, pthreads and the socket calls. A register call is one atomic apply-and-answer step, a mutex and a condition variable have their POSIX meaning, recv and send are scripted.
- The Modbus constants, the register packing helper and the ring fifo come from a submodule that is not part of this model: the cells are contiguous and the areas disjoint, the command and status values are stand-ins, the high byte comes first, a fifo push stores what fits.
- ModbusEndToEnd.OrderedExactlyOnce: covers one session with both ends enabled; `enable` clears everything and begins a new history, and is modelled on the objects only. Transaction ids do not wrap.
- ModbusEndToEnd.MasterBytesReachSlave: speaks of what the register calls carry; the TCP master's write sends at most the configured bytes of a longer buffer and returns that count.
- ModbusProgress.EverythingArrives: while the slave's rx task runs; a session whose slave has ended is over.
- ModbusMaster.Master.PollOnce: takes the outcomes of the three calls as parameters; stop tests and sleeps between polls are not modelled.
- BufferQueue.Queue.Put: models the calls that do not wait; waiting is in `BufferQueueWaiters`. The queue's `should_overwrite` is stored and never read.
- BufferQueueWaiters.NoLostWakeup: a timed wait may return ETIMEDOUT at any moment, before its deadline too; time itself is not modelled.
- Semaphore.Semaphore.WaitNoWait: timed waits are not modelled.
- CoapPubwork.DecodeFrom: a buffer without a NUL is refused here, while strlen would read on; encoded buffers always have one.
- CoapPublish.StepKeeps: select and the sends of libcoap succeed. An error of select other than EAGAIN, an interrupt included, ends the loop in the code. The loop's other exit, the flag `ioloop_should_stop` tested at dtnetportal_coap__ioloop.c:94 and 113, is not modelled: the theorems speak about a portal that is not being closed.
- Tasker.StepKeeps: one controller; concurrent starters or joiners, failing locks and the task registry are not modelled. Ready is called from the task itself.
- HttpServer.StepKeeps: no lock or pthread_join failures; `loop` succeeds and its accept task reports ready. The two stop flags, set one after the other, are one. The reply to a refused client is a short send on a fresh connection and does not block; reconfiguring a running server and dispose are not modelled.
- HttpServerShutdown.ShutdownCompletes: a serving thread's receives end by their ten-second timeout and its application callback returns; only its send may wait for the peer, until the peer reads or the socket is shut down.
- HttpRequest.Atoi: for a number beyond int, which C leaves undefined, the value is an arbitrary function of the text, the same at every call. The four buffer sizes are parameters; their values are not part of this model.
- HttpRequestLines.ReadsRequest: request lines of exactly three words within the scan widths 31 and 1023; a longer word is cut by the scan as in the code.
- HttpRequestChunks.IndependentIff: assumes at least 81 bytes of room behind the head, for the bytes that tell two splits apart.
- Serving a request: static files, MIME types, callbacks and responses.
- Sha1.Ctx.Update: null pointers are not modelled; the buffers given are sequences.
- WebSocketFrames.DecoderSeesWritten: one connection after its handshake; accept, reconnects, the listening socket and negative lengths are not modelled.
- WebSocketUpgrade.ReceiveOutcome: bytes of a chunk that no longer fit are dropped, as the loop ends there without another recv.
- WebSocketHandshake.TrimmedKey: a key line over 255 bytes is cut, as in the code; the "key too long" branch behind it cannot be reached. The fixed text around the accept value in the response and the send of it are not modelled.
- Accumulator.Accumulator.WriteBody: the product of size and count is one length; its SIZE_MAX test is subsumed by the int32 test.
- The Mosquitto backend, the CAN, TTY and TCP backends, user interface and generated files, command-line parsing, error chaining, logging, allocation failure outside the accumulator, vtables and formatting.
