# A verified model of the V2X framework

The framework of this repository is a small stack in C: a circular doubly linked list, a thread pool
that queues its jobs on it, and a message router that hands messages to the pool.  Beside the stack
stand a log cache with file rotation and a table of timer slots.  This project models the five in
Dafny and proves what they promise; where the code does not keep a promise, it proves exactly when
it does, or gives a run in which it does not.

| files | what they model |
|---|---|
| `Wrappers.dfy` | the option type |
| `LinkedList.dfy`, `JobQueue.dfy` | the sentinel ring over the heap, with what malloc and free may touch; the pool's job list on it, with its payloads |
| `ThreadPool.dfy`, `PoolInvariants.dfy`, `PoolRuns.dfy`, `PoolResults.dfy`, `PoolProgress.dfy`, `PoolShutdown.dfy`, `PoolSections.dfy` | the pool as a transition system over its threads, its invariants, its progress, its shutdown, and the critical sections over the real ring |
| `Scheduler.dfy`, `RouterPool.dfy` | what a pool is to its users; the pool and the router as one run, in step with it |
| `RouteTable.dfy`, `RouteServer.dfy`, `RouteClient.dfy`, `RouteHistory.dfy` | the routing table in place, framing, the client library, and the table as a reading of its history |
| `Router.dfy`, `RouterInvariants.dfy`, `RouterAcceptance.dfy`, `RouterDelivery.dfy`, `RouterAgreement.dfy`, `RouterFds.dfy`, `RouterProgress.dfy`, `RouterScenarios.dfy` | clients, connections, epoll thread and jobs as one system |
| `RouterJob.dfy`, `RouterSections.dfy` | the system against the code in place: a job by itself, and the epoll thread's handling of an event |
| `LogCache.dfy`, `LogArchive.dfy` | the log cache, rotation and the archive thread |
| `TimerTable.dfy`, `TimerRuns.dfy` | the timer slots, over all sequences of calls |

How the concurrent parts are modelled:

- In the thread pool each look at `isRunning`, lock, semaphore operation, list operation and join is a step
  of its own, and steps of all threads interleave freely.  Only the counters are not: they are read and
  written under the pool's lock alone, so the decrement of line 66 is one step with the lock before it, and
  the updates of lines 58-60, 72 and 188 are one step with the unlock after them.  Init, Deinit and AddJob
  hold `g_initMutex` from start to end, so one `control` component stands for whoever is inside.  `policy`
  chooses between the join of the source (of a thread that was never created), that join with its index
  corrected, and all posts before all joins.
- In the router each of the three loads of the live table in `MsgRouteCoreJobFunc` (the fd, the flag, and the
  fd again as the argument of send) and the send itself is its own step; updates of the table happen under
  its lock and are single steps.  Erasing a client and closing its fd are two steps.  A connection is an
  ordered lossless channel of packets.  The send of a subscribe call and its local update are two steps.
  A connection starts with the table of callbacks that its process has, whatever that is.
- In the log each `WriteLogToCache` call is a step (it holds the log lock), the archive thread takes a token,
  renames and packs in three, and the live file can be removed at any time.

Where the code does not do what it is meant to:

- `linked_list.c:160` stores `node2` where the back link needs `node1`.  `SwapDoublyLinkedListNode` is the
  source's swap: it leaves a ring if and only if the two nodes are the same or neighbours.
  `SwapDoublyLinkedListNodeCorrected` is the intended one.
- `thread_pool.c:44` joins `threadId[num]`.  `StrayJoinWaitsIff`: that ThreadPoolExitHandle has returned means
  that the created workers have exited if and only if there are none; `StrayJoinReturnsEarly` gives, for every
  number of threads, a run in which it returns while a job runs.  `JoinEachDeadlockIff`: correcting only the
  index deadlocks if and only if the pool has more than one thread.  `ShutdownCompletes` is the order that works.
- `thread_pool.c:58-60` can count a thread idle too often, if and only if there is more than one (`OverCountIff`).
  `IdleExactIff` says in which runs the counter is exact throughout, and `ExactWhenWakesLate` how to stay in them.
- `msg_route_core.c:114-117` takes a snapshot that lines 127-139 do not use.  The send of lines 128 and 140 can go
  to fd -1 (`StaleSend`; exactly when: `SendsToNobodyIff`) or to another connection that has got the fd's number
  since it was loaded (`MisdirectedSend`).  `SendReachesClientIff` says exactly when the fd is still the client's,
  and exactly when it is another connection's.  `UnchangedSlotMatchesSnapshot` says when the snapshot would have
  made no difference.
- `msg_route_core.c:84` takes any byte as the index of a flag.  `UpdateClientSubscribeInfo` and both `HandleMsg`
  methods answer whether the flag exists, and promise a new table exactly then.
- `msg_route_core.c:122` sends an answer back to the answerer (`AnswersGoBackToTheirSender`), because
  `msg_route_server.c:96` has overwritten `src`.
- `msg_route_core.c:100` stops at the first slot of an fd: `EraseForgetsIff`, `InheritedSubscription`.
- `msg_route_server.c:66-69` keeps an fd that epoll refused: `RefusedConnectionIsStranded`; a connection can ever be
  closed if and only if epoll took it (`ClosableIff`).
- `msg_route_client.c:88-133` leaves the process's callbacks in place when it closes a connection and makes another,
  and the server has none of them: `LostSubscription`.  `SubscriptionAgreement`: the server's flags are the client's
  callbacks if and only if no callback is older than the connection and unchanged on it.
- Two connections for one appId: `SecondConnectionLosesOut`; exactly which disconnects end a subscription:
  `DisconnectClearsIff`.
- `my_log.c:88` renames over a rotated file that is still waiting: `LostGeneration`; exactly when generations are
  lost in a run: `GenerationsKeptIff`.
- `my_log.c:149-161` passes on the untruncated length of vsnprintf.  `LineFitsIff`: a line is safe after every run
  of lines that fit the line buffer if and only if it has at most 1024 bytes; `WriteLogToCache` answers for each
  line whether it stays inside the cache.
- `timer_event_manage.c:248` accepts the heartbeat's fd: `HeartbeatStep`, `OneTooMany`.

## Model

| member | source | states |
|---|---|---|
| LinkedList.InitDoublyLinkedListNode | framework/linked_list/linked_list.c:5-13 | a node becomes a ring of one; NULL is refused |
| LinkedList.CreateDoublyLinkedListNode | framework/linked_list/linked_list.c:35-50 | a fresh live one-element ring with the payload, or NULL for a NULL payload or no memory |
| LinkedList.InsertHeadDoublyLinkedListNode | framework/linked_list/linked_list.c:52-64 | on rings of every length the node comes directly after the sentinel and both chains stay cycles |
| LinkedList.InsertTailDoublyLinkedListNode | framework/linked_list/linked_list.c:66-78 | the node comes last, both chains stay cycles |
| LinkedList.DeleteHeadDoublyLinkedListNode | framework/linked_list/linked_list.c:80-97 | fails exactly on the empty ring or NULL; otherwise hands out the first payload, frees that node once and drops it from the ring |
| LinkedList.DeleteTailDoublyLinkedListNode | framework/linked_list/linked_list.c:99-116 | the same at the tail |
| LinkedList.SwapDoublyLinkedListNextNode | framework/linked_list/linked_list.c:118-130 | exchanges two neighbours, also next to the sentinel |
| LinkedList.SwapDoublyLinkedListAdjacentNode | framework/linked_list/linked_list.c:132-139 | the same for neighbours in either order |
| LinkedList.SwapDoublyLinkedListNode | framework/linked_list/linked_list.c:141-162 | the swap as written: forward chain exchanged, exactly one back link wrong, a ring if and only if the nodes are equal or neighbours |
| LinkedList.SwapDoublyLinkedListNodeCorrected | framework/linked_list/linked_list.c:141-162 | with the right back link: a transposition of any two data nodes, neighbours or sharing one |
| LinkedList.SwapTwice | framework/linked_list/linked_list.c:141-162 | the corrected swap is its own inverse on every link |
| LinkedList.RelinkedIsExchange | framework/linked_list/linked_list.c:153-161 | the eight assignments give a ring exactly when the value stored in the last back link is the first node |
| LinkedList.FreeDataNodes | framework/linked_list/linked_list.c:22-30 | the teardown loop terminates, frees payload and node of each data node in order, never touches a freed node and never frees the sentinel |
| LinkedList.DeInitDoublyLinkedListNode | framework/linked_list/linked_list.c:15-33 | teardown leaves the empty ring and exactly the other storage live |
| LinkedList.FreeOrderIsStorage | framework/linked_list/linked_list.c:22-30 | every data node and payload is freed exactly once |
| JobQueue.JobList.AddJob | framework/thread_pool/thread_pool.c:170-187 | inserting at the head appends to the queue; without memory the queue is unchanged and nothing stays allocated |
| JobQueue.JobList.TakeJob | framework/thread_pool/thread_pool.c:67-74 | deleting at the tail hands the worker the oldest job's payload, still live; fails exactly when the queue is empty |
| JobQueue.JobList.FreeJob | framework/thread_pool/thread_pool.c:77 | a worker frees its own payload, which nobody else has or has freed |
| JobQueue.JobList.Deinit | framework/thread_pool/thread_pool.c:150 | teardown frees every waiting payload: each payload ever allocated has been freed exactly once, or is the one a worker will free |
| PoolSections.Pool.CountIdle | framework/thread_pool/thread_pool.c:57-61 | the section over the real fields is the worker's two steps of the transition system |
| PoolSections.Pool.TakeJob | framework/thread_pool/thread_pool.c:64-73 | the section over the real ring is the worker's two or three steps, with the same job |
| PoolSections.Pool.AddJob | framework/thread_pool/thread_pool.c:154-194 | return codes for NULL, uninitialised and no memory; otherwise the four steps of an AddJob call |
| PoolSections.Pool.RunJob | framework/thread_pool/thread_pool.c:74-78 | the job is read from a live payload, run, and the payload freed: the worker's step |
| PoolSections.Pool.Deinit | framework/thread_pool/thread_pool.c:145-150 | after ThreadPoolExitHandle: when all workers have exited, every payload ever allocated has been freed and none twice |
| PoolSections.ThreadPoolInit | framework/thread_pool/thread_pool.c:85-105 | takes 1 to 6 threads, and starts as the transition system does |
| PoolInvariants.InvStep | framework/thread_pool/thread_pool.c:35-194 | every step of every thread keeps mutual exclusion, token and counter accounting, FIFO order, conservation of jobs and the idle bounds |
| PoolResults.SemaphoreAccounting | framework/thread_pool/thread_pool.c:63-73 | tokens + woken workers + unposted jobs = queue + exit posts - empty wake-ups in every reachable state; before shutdown a woken worker finds a job |
| PoolResults.CounterExact | framework/thread_pool/thread_pool.c:72-73 | curJobNum is the queue length whenever the lock is free |
| PoolResults.ExactlyOnceInOrder | framework/thread_pool/thread_pool.c:64-80 | jobs start in the order of acceptance; each accepted job is exactly once waiting, with a worker or completed |
| PoolResults.IdleBounds | framework/thread_pool/thread_pool.c:56-66 | maxThreadNum - busy <= idleThreadNum <= maxThreadNum over all interleavings |
| PoolResults.IdleExactIff | framework/thread_pool/thread_pool.c:56-66 | the counter is exact all along a run if and only if no first pass meets a busy worker |
| PoolResults.ExactWhenWakesLate | framework/thread_pool/thread_pool.c:56-66 | it is exact along every run that accepts no job and starts no shutdown before each worker has reached its first sem_wait |
| PoolResults.OverCountIff | framework/thread_pool/thread_pool.c:58-60 | the counter can be wrong if and only if the pool has more than one thread |
| PoolResults.RefinesScheduler | framework/thread_pool/thread_pool.c:35-194 | each pool step is an accept, start or finish of the abstract FIFO scheduler, or none |
| PoolProgress.WorkersStay | framework/thread_pool/thread_pool.c:56-80 | while the pool is running no worker leaves its loop |
| PoolProgress.WorkGoesOn | framework/thread_pool/thread_pool.c:51-194 | while it is running some thread can take a step unless all are at rest, and so as long as an accepted job is not completed |
| PoolProgress.EveryJobCompletes | framework/thread_pool/thread_pool.c:51-194 | without further calls every run is bounded, and where it cannot go on every accepted job has been completed |
| PoolShutdown.MeasureDecreases | framework/thread_pool/thread_pool.c:35-49 | once isRunning is false every step of any thread lowers a natural number |
| PoolShutdown.RunsAreBounded | framework/thread_pool/thread_pool.c:35-49 | so shutdown runs have a bounded length, under every policy |
| PoolShutdown.ShutdownCompletes | framework/thread_pool/thread_pool.c:35-49 | with all posts first a run can stop exactly where all workers have exited and the handler has returned |
| PoolShutdown.OneMoreRound | framework/thread_pool/thread_pool.c:56-80 | after shutdown began each worker waits at most once more and runs at most one more job |
| PoolShutdown.JoinEachDeadlockIff | framework/thread_pool/thread_pool.c:40-46 | joining right after each post has a reachable deadlock if and only if there is more than one thread |
| PoolShutdown.StrayJoinWaitsIff | framework/thread_pool/thread_pool.c:44 | with the join as written, having returned means that the k created workers have exited if and only if k is 0 |
| PoolShutdown.StrayJoinReturnsEarly | framework/thread_pool/thread_pool.c:44 | for every number of threads, a run in which shutdown returns while a job runs |
| RouteTable.ClientTable.constructor | framework/msg_route/msg_route_server/msg_route_core.c:21-30 | every slot starts without client and flags |
| RouteTable.ClientTable.Deinit | framework/msg_route/msg_route_server/msg_route_core.c:32-45 | closes each fd once for each of its slots, and so twice when it has two; empties the table |
| RouteTable.ClientTable.UpdateClientSubscribeInfo | framework/msg_route/msg_route_server/msg_route_core.c:78-86 | if the flag exists: the first sender takes the slot, the flag is set or cleared, nothing else changes |
| RouteTable.ClientTable.EraseClientInfo | framework/msg_route/msg_route_server/msg_route_core.c:88-104 | clears the first slot of the fd only |
| RouteTable.DeliversIff | framework/msg_route/msg_route_server/msg_route_core.c:121-149 | the sends that the branches lead to are the only sequence that goes once to each addressed subscribed slot, in order, and to nobody else |
| RouteTable.ClientTable.JobFunc | framework/msg_route/msg_route_server/msg_route_core.c:106-151 | undisturbed, sends exactly once to each addressed subscribed slot, in order, and to nobody else |
| RouterJob.JobAlone | framework/msg_route/msg_route_server/msg_route_core.c:106-151 | a job's steps with nothing in between send what JobFunc sends, in its order |
| RouteTable.ClientTable.HandleMsg | framework/msg_route/msg_route_server/msg_route_core.c:64-76 | invalid messages are dropped, changes of existing flags handled in place, and every other message, to one appId or all, handed to the pool |
| RouteHistory.TableIsHistory | framework/msg_route/msg_route_server/msg_route_core.c:78-104 | for every history, a slot's owner is the first sender since its last reset and each flag the last change since then |
| RouteHistory.EraseForgetsIff | framework/msg_route/msg_route_server/msg_route_core.c:95-102 | erasing removes the fd from the table if and only if it had at most one slot |
| RouteHistory.DisconnectClearsIff | framework/msg_route/msg_route_server/msg_route_core.c:78-104 | for every history, the disconnect of an fd ends a subscription if and only if the fd is the slot's first sender since its last reset and owns no earlier slot |
| RouteHistory.SecondConnectionLosesOut | framework/msg_route/msg_route_server/msg_route_core.c:81-83 | after every history in which a slot has an owner, a second connection's subscription ends with the owner's disconnect and not with its own |
| RouterFds.RefusedConnectionIsStranded | framework/msg_route/msg_route_server/msg_route_server.c:57-71 | a connection that epoll refused stays open for good: never received from, never in the table, never erased or closed |
| RouterFds.ClosableIff | framework/msg_route/msg_route_server/msg_route_server.c:57-85 | some continuation closes a connection that the server holds if and only if epoll took it |
| RouterSections.HandleEvent | framework/msg_route/msg_route_server/msg_route_server.c:101-115 | handling an event on the real table and fds is the router's step for it |
| RouteServer.Server.HandleMsg | framework/msg_route/msg_route_server/msg_route_server.c:74-99 | framing, sender stamping, and erase with close on a disconnect |
| RouteServer.HandedOnIff | framework/msg_route/msg_route_server/msg_route_core.c:168-189 | what is handed to the pool is exactly what has data of the stated length, an existing appId, and an existing type other than subscribe and unsubscribe |
| RouteServer.TableChangesIff | framework/msg_route/msg_route_server/msg_route_core.c:78-86 | a subscribe or unsubscribe changes the one flag it names and takes a free slot; no other packet changes the table |
| RouteServer.ChangeInRangeIff | framework/msg_route/msg_route_server/msg_route_core.c:84 | a subscribe or unsubscribe message with any byte for data names a flag that exists if and only if the byte is less than 7 |
| RouteClient.Client.Init | framework/msg_route/msg_route_client/msg_route_client.c:88-121 | connects and takes the appId, or fails; the callbacks stay as they are |
| RouteClient.Client.Deinit | framework/msg_route/msg_route_client/msg_route_client.c:123-133 | drops connection and appId; the callbacks stay as they are |
| RouteClient.Client.SendMsg | framework/msg_route/msg_route_client/msg_route_client.c:135-159 | sends any message, to all appIds when asked; the server frames what has data and fits |
| RouteClient.Client.SubscribeMsg | framework/msg_route/msg_route_client/msg_route_client.c:161-195 | refused or failed calls send and change nothing; otherwise one packet and one local entry |
| RouteClient.Client.UnsubscribeMsg | framework/msg_route/msg_route_client/msg_route_client.c:197-226 | the same for unsubscribing |
| RouteClient.Client.Dispatch | framework/msg_route/msg_route_client/msg_route_client.c:55-82 | a callback is called exactly for a packet with data whose type has one |
| RouterInvariants.InvStep | framework/msg_route/msg_route_server/msg_route_core.c:78-189 | every step of the system keeps the table tidy and equal to the fold of its history, and jobs apart |
| RouterAcceptance.ReceiveAcceptsIff | framework/msg_route/msg_route_server/msg_route_server.c:86-97 | receiving a packet makes it a job, under the next number and with the connection as its sender, if and only if it qualifies |
| RouterAcceptance.NothingLostBeforeThePool | framework/msg_route/msg_route_server/msg_route_core.c:153-189 | in every run, what was accepted from an fd followed by the qualifying packets in flight grows by just the qualifying packets sent on it, in order |
| RouterProgress.EveryJobCanFinish | framework/msg_route/msg_route_server/msg_route_core.c:106-151 | from every moment all jobs can be finished, a waiting one sending what its message is meant to lead to |
| RouterProgress.MessageGetsThrough | framework/msg_route/msg_route_server/msg_route_core.c:106-189 | a client can send any qualifying message, and the router can take it in, run it and deliver it |
| RouterProgress.NewClientGetsThrough | framework/msg_route/msg_route_server/msg_route_server.c:57-71 | so can any process that connects, under any free fd |
| RouterProgress.CallTakesEffect | framework/msg_route/msg_route_client/msg_route_client.c:161-226 | a subscribe or unsubscribe call can be made where nothing is under way, and then holds on both sides |
| RouterInvariants.RefinesScheduler | framework/msg_route/msg_route_server/msg_route_core.c:153-166 | the router uses its workers only as the pool's scheduler allows |
| RouterPool.PoolStepIff | framework/thread_pool/thread_pool.c:51-194 | the pool can take each of its steps together with the router, except that the end of a job waits for its function to return and an acceptance for the next message |
| RouterPool.DeliveryOverPool | framework/msg_route/msg_route_server/msg_route_core.c:153-166 | in every run of pool and router together, a job that the pool has completed since a moment at which it had not dequeued it has sent what Delivery says |
| RouterDelivery.Delivery | framework/msg_route/msg_route_server/msg_route_core.c:106-151 | over any run, an addressed slot that stayed subscribed with one fd is sent the message exactly once to that fd; one unsubscribed throughout or not addressed is sent nothing; none twice |
| RouterDelivery.AnswersGoBackToTheirSender | framework/msg_route/msg_route_server/msg_route_core.c:121-125 | only answers are sent back, and to the fd on which the answer was received |
| RouterAgreement.NoInheritedSubscriptions | framework/msg_route/msg_route_server/msg_route_server.c:80-84 | if clients keep to their appId, every fd in the table is an open connection in one slot, so a reused fd number starts without subscriptions |
| RouterAgreement.SubscriptionAgreement | framework/msg_route/msg_route_client/msg_route_client.c:178-225 | replaying what is in flight gives the callbacks set on the connection; settled, the server has it down for a type if and only if there is a callback that is not stale, and its flags are the callbacks if and only if none is stale |
| RouterAgreement.OneConnectionIsCalm | framework/msg_route/msg_route_server/msg_route_core.c:81-83 | where no two connections have one appId, no change is handled in another connection's slot |
| RouterAgreement.EndToEnd | framework/msg_route/msg_route_client/msg_route_client.c:66-80 | a settled client with a callback set on its connection is sent an addressed message exactly once, counting every send to its fd, and would hand it to that callback; one with none or a stale one, or not addressed, is sent nothing |
| RouterScenarios.UnchangedSlotMatchesSnapshot | framework/msg_route/msg_route_server/msg_route_core.c:114-117 | a slot whose fd and flag for the message do not change during a job is served as the snapshot says |
| RouterFds.SendsToNobodyIff | framework/msg_route/msg_route_server/msg_route_core.c:127-140 | a send goes to fd -1 if and only if the client left between the look at the flag and the load of the fd and nobody took the slot since |
| RouterFds.SendReachesClientIff | framework/msg_route/msg_route_server/msg_route_core.c:128-140 | at the send the loaded fd is still the client's connection if and only if it was not closed since the load, and another connection if and only if it was accepted again since and not closed after that |
| RouterScenarios.StaleSend | framework/msg_route/msg_route_server/msg_route_core.c:127-128 | a run in which the snapshot names a subscriber and the send goes to fd -1 |
| RouterScenarios.MisdirectedSend | framework/msg_route/msg_route_server/msg_route_core.c:128 | a run in which the send reaches a client of another appId that has got the fd |
| RouterScenarios.InheritedSubscription | framework/msg_route/msg_route_server/msg_route_core.c:96-101 | a run in which a new connection inherits a subscription, after a client sent another's appId |
| RouterScenarios.LostSubscription | framework/msg_route/msg_route_client/msg_route_client.c:88-133 | a run in which a process connects again, still has its callback, and the server sends it nothing |
| LogCache.StrNCpy | framework/log/my_log.c:105 | copies up to the NUL and pads with zeros, inside the given range |
| LogCache.ContributesIff | framework/log/my_log.c:104-107 | a call logs exactly the line up to its NUL, with zeros for the rest of what it counts, and nothing for NULL |
| LogCache.WriteFlushesIff | framework/log/my_log.c:109-113 | a call empties the cache exactly when more than 7168 bytes are waiting or more than 3 seconds have gone by; otherwise the files stay |
| LogCache.NextFlushFiles | framework/log/my_log.c:67-90 | whatever a flush has met, a removed file included, the next one files its data |
| LogCache.Logger.WriteLogToFile | framework/log/my_log.c:63-91 | every branch of the flush, with rotation when the file exceeds the size |
| LogCache.Logger.WriteLogToCache | framework/log/my_log.c:93-115 | answers whether the line stays inside the 8192 bytes, which every line of at most 1024 does; then appends it, or empties the cache when it is full or old |
| LogArchive.LineFitsIff | framework/log/my_log.c:93-112 | a line is safe after every run of lines of at most 1024 bytes if and only if it is no longer than that |
| LogCache.FlushConservesIff | framework/log/my_log.c:67-82 | a flush files exactly its data if and only if the file is there or can be opened and the write is whole |
| LogArchive.BoundedAlways | framework/log/my_log.c:82-90 | the live file is at most `size` after every flush, each rotated generation above it by at most 8192 bytes |
| LogArchive.StepConservesIff | framework/log/my_log.c:93-115 | a step keeps the stream if and only if its flush, if any, can do its work and nobody removes filed text |
| LogArchive.LineIsLogged | framework/log/my_log.c:93-115 | a call whose text fits can be made, and adds just that text to the stream when its flush, if any, can do its work |
| LogArchive.StreamConserved | framework/log/my_log.c:93-115 | rotated generations, live file and cache together are the texts of all calls in order |
| LogArchive.NoneLostIff | framework/log/my_log.c:85-89 | a step loses a generation exactly when it rotates over one still waiting |
| LogArchive.GenerationsKeptIff | framework/log/my_log.c:85-89 | after a run all generations are packed or on the way if and only if no rotation found the previous one waiting |
| LogArchive.LostGeneration | framework/log/my_log.c:85-89 | for every size and number of archives, a run that loses a generation and skips an archive number |
| LogArchive.IndexCountsTokens | framework/log/my_log.c:446-458 | in every run the index is below maxFileNum and counts the tokens used, modulo it |
| LogArchive.ArchivesAreTheLast | framework/log/my_log.c:446-458 | with prompt archiving the archives are exactly the last min(k, maxFileNum) of k generations |
| LogArchive.ArchiveSurvives | framework/log/my_log.c:446-458 | an archive survives until maxFileNum further tokens are used |
| TimerTable.Manager.InitTimerEventManage | framework/timer/timer_event_manage.c:113-164 | starts with the heartbeat alone, or undoes everything; succeeds exactly when all parts do |
| TimerTable.Manager.AddTimerEvent | framework/timer/timer_event_manage.c:192-230 | the fd and its callback go into the first free slot, or the fd is closed again |
| TimerTable.Manager.DeleteTimerEvent | framework/timer/timer_event_manage.c:231-261 | closes and frees the fd's slot; 0 also for an unknown fd |
| TimerTable.Manager.DeinitTimerEventManage | framework/timer/timer_event_manage.c:166-190 | closes every timer and empties the table |
| TimerTable.Manager.HandleEvent | framework/timer/timer_event_manage.c:33-55 | each ready event of a timer leads to one call of its callback, in event order, with the count read last; nothing else is called |
| TimerTable.DispatchIff | framework/timer/timer_event_manage.c:43-53 | the lookups in the fd-to-callback map are the one sequence of calls that does that |
| TimerTable.CallbacksLookup | framework/timer/timer_event_manage.c:46-53 | first match in the slots and lookup in the map are the same for unique fds |
| TimerRuns.AgreeAlways | framework/timer/timer_event_manage.c:113-261 | over all call sequences used slots, open timer fds and epoll set are one duplicate-free set |
| TimerRuns.InitIff | framework/timer/timer_event_manage.c:113-164 | init succeeds exactly for 1 to 10 timers when all four system calls do, with the heartbeat as the only timer; otherwise nothing stays open |
| TimerRuns.DeinitClosesAll | framework/timer/timer_event_manage.c:166-190 | deinit closes every timer and frees every slot |
| TimerRuns.InitAfterDeinit | framework/timer/timer_event_manage.c:113-190 | after a deinit, init gives what it gives at the start of the process |
| TimerRuns.AddFailsIff | framework/timer/timer_event_manage.c:213-227 | with an fd in hand, add fails exactly when every slot is used; otherwise only that fd gets a callback |
| TimerRuns.DeleteUndoesAdd | framework/timer/timer_event_manage.c:192-261 | deleting a just added timer restores the table |
| TimerRuns.DeleteForgets | framework/timer/timer_event_manage.c:245-256 | delete closes that fd and removes it from the map, and nothing else |
| TimerRuns.HeartbeatStep | framework/timer/timer_event_manage.c:247-255 | a call keeps the heartbeat in slot 0 if and only if it is not a delete of its fd |
| TimerRuns.AtMostMaxUserTimers | framework/timer/timer_event_manage.c:113-261 | while the heartbeat is spared there are at most as many user timers as asked for |
| TimerRuns.OneTooMany | framework/timer/timer_event_manage.c:248 | for every number asked for, deleting the heartbeat's fd makes room for one user timer more |

## Left out

- Sockets, epoll_wait, open, write, rename, tar, timerfd and pthread calls: they are steps or parameters that say how each call turned out; rename, tar and later epoll registrations of a timer are taken to succeed.
- Malloc failures in the router and the receive loops; `AddJob` of the pool and the list's create have theirs as parameters.
- Calls after ThreadPoolDeinit: `g_isInit` is never reset, so AddJob would lock a destroyed mutex; the model ends where ThreadPoolExitHandle returns.
- Jobs and callbacks that call back into the pool or the timer API; a job is one step of its worker.
- `InitDoublyLinkedListNode` and `DeInitDoublyLinkedListNode` have no return statement on success, so no value is promised there.
- LinkedList.DeInitDoublyLinkedListNode: requires that payloads are owned by one node each and are not list nodes, which the source leaves to its callers; JobQueue.JobList keeps it.
- PoolSections.Pool.Deinit: requires that no worker is inside the lock, which the join as written does not ensure.
- RouteTable.ClientTable.UpdateClientSubscribeInfo: promises no table when `data[0]` is not a message type, because a store outside the flags has no meaning in C.
- Router assumes that callers of MsgRouteClientSendMsg send no subscribe or unsubscribe message whose `data[0]` is not a message type: the client library checks the type only in its own subscribe and unsubscribe calls, and RouteServer.ChangeInRangeIff says which messages are meant.
- Packets without any byte, which recv reports like the end of a connection; the client library always sends a header.
- RouteTable.ClientTable.JobFunc: says what the job does when nothing interferes; Router and RouterDelivery have the interleaved job, and RouterJob.JobAlone joins the two.
- RouterAgreement.SubscriptionAgreement: requires that changes are only sent by the subscribe and unsubscribe calls and that none is handled while its slot belongs to another connection.
- What becomes of a connection when the client's Init is called again without a Deinit: `g_isInit` is never set, so it opens a second one and forgets the first.
- That pthread_join of an id that was never created returns at once, and that sem_wait is not interrupted by a signal, is assumed of the thread library.
- LogCache.Logger.WriteLogToCache: promises nothing more than its answer for a line that does not fit, because the copy then leaves the array.
- Log formatting, levels, JSON configuration, path names and the index file, which is truncated before it is read; the archives are those written by one process.
- Clocks are parameters; SetTimerEvent and the kernel's timers are not modelled.
- PrintDoublyLinkedListNode and debug output.
