# Verified model of the server toolkit

The repository is a small C++ server toolkit. Its substance is a handful of hand-written monitors, an
HTTP/1.1 request reader under an epoll loop, and a connection pool. This project models them in Dafny
and proves what they guarantee over every run, and, where they do not guarantee what they are meant
to, exactly when they do.

Each component that several threads or many events work on comes in three parts:

- a **specification**: a value for the whole state, the events that can happen to it, and what each
  event does. A run is any sequence of enabled events, so barging threads, spurious wake-ups, time-outs,
  failing connects and arbitrary chunking are all in it;
- the **theorems** about all runs of the specification. What was put in, taken out or counted is read off
  the events of the run there, not off what the steps record;
- a **class** with the source's fields, updated in place by the source's statements and loops. Each of
  its methods is proved to take exactly the corresponding step.

| component | specification | theorems | class |
|---|---|---|---|
| bounded blocking queue | `SyncQueueSpec` | `SyncQueueTheorems` | `SyncQueueMonitor` |
| worker pool on top of it | `ThreadPoolSpec` | `ThreadPoolTheorems`, `ThreadPoolStop`, `ThreadPoolRest` | `ThreadPoolMonitor` |
| queue that signals after unlocking | `ConditionQueueSpec` | `ConditionQueueTheorems` | `ConditionQueueMonitor` |
| request parser | `HttpParser` | `HttpParserTheorems` | `HttpReader` |
| receive buffer and connection | `HttpReaderSpec` | `HttpReaderTheorems`, `HttpPauses`, `HttpCuts` | `HttpReader` |
| event loop | `EventLoopSpec` | `EventLoopTheorems` | `EventLoopMonitor` |
| message pool | `MessagePoolSpec` | `MessagePoolTheorems`, `MessagePoolLiveness`, `MessagePoolDestruction`, `MessagePoolCompletion` | `MessagePoolMonitor` |
| connection pool | `ConnPoolSpec` | `ConnPoolTheorems` | `ConnPoolMonitor` |

`Threads`, `Sums` and `Sequences` hold what the monitors share. A condition variable there is two sets: the threads asleep
that nobody has woken, and those woken that do not have the mutex back yet (section 30.5 of
ISO/IEC 14882:2011).

In the first three components a step is a whole stretch of code under the mutex. What such a stretch
reads and writes is touched by others only with the mutex held, except condition variables, on which a
stretch acts at most once, and the counter behind `wait_size()`, which others may read at any time. The
notifications that are sent without the mutex are steps of their own, and so are the reads and the
write of `m_running`. In the message pool, whose shutdown flag is written without the
mutex, every statement is a step and the mutex is part of the state.

`dafny verify dfyconfig.toml` checks the whole project.

## Where the code does less than it is meant to

- A bounded queue of capacity zero deadlocks with one producer and one consumer; every other one is
  free of deadlock (`DeadlockFreeIff`).
- The batch `Take` frees every slot and wakes one producer, so producers can stay asleep beside free
  slots in every queue of capacity two or more (`BatchKeepsProducersCoveredIff`). While a put and a take
  are both open somebody can still finish (`SomebodyCanComplete`).
- A worker pool whose processing function calls `AddData` can deadlock: with the queue full, every worker
  sleeps in `AddData`. That is the only way in which items are left lying before a stop
  (`RestBeforeStop`), and it can happen in every pool that has a worker (`CanClogIff`).
- While the worker pool stops, workers can call the processing function on a default value and can drop
  a real item each. Both can happen in every pool that has a worker (`OnlyAddedProcessedIff`,
  `NothingDroppedIff`), and `SecondTestOutcome` says exactly when.
- `wait_size()` of the condition queue drifts and wraps (`WaitSizeExactIff`, `WaitSizeWraps`).
- A well-formed request that arrives in two parts is read as it should be only if the cut comes no later
  than the end of its method, or after its head (`RequestCutIff`). A cut before the end of the first line
  makes the reader take one part of the line for another, or wait on; a cut inside the head takes it
  outside the language's rules (`HeadCutUndefined`), because the head loop does not look whether it has
  found a newline. `PauseMattersIff` says of any data after which bytes a pause can matter, and
  `CutsDoNotMatter` that no other pause does.
- `pool_destory` can hang in a join in every pool that has a worker (`DestroyCanHangIff`,
  `JoinCanHangIff`, `JoinMustHangIff`); `CompletesIff` says exactly when it completes. And its clean-up
  loop frees half of what is left (`FreeMessages`).
- A client that gives a connection back which it does not hold upsets the connection pool for good
  (`AccountsIff`); one that gives it back twice lets two others share it (`DoubleReleaseShares`).

## Model

| member | source | states |
|---|---|---|
| SyncQueueMonitor.SyncQueue.constructor | include/SyncQueue.hpp:24 | An empty queue that is not stopped; a negative size is taken as the enormous bound that the unsigned comparison makes of it. |
| SyncQueueMonitor.SyncQueue.Add | include/SyncQueue.hpp:88-96 | One turn of Put under the mutex: asleep if full; else the item at the end of the queue, unless stopped, and exactly one sleeping consumer woken, if there is one; the step of the transition system. |
| SyncQueueMonitor.SyncQueue.TakeList | include/SyncQueue.hpp:30-37 | One turn of the batch Take: the whole queue in order, one producer woken; after a stop the caller's list is left alone. |
| SyncQueueMonitor.SyncQueue.TakeFront | include/SyncQueue.hpp:39-47 | One turn of the single Take: exactly the front item, one producer woken; after a stop the caller's variable is left alone. |
| SyncQueueMonitor.SyncQueue.StopSetFlag | include/SyncQueue.hpp:49-53 | Stop under the mutex: the flag goes up and both notifications are still to come. |
| SyncQueueMonitor.SyncQueue.StopNotifyNotFull | include/SyncQueue.hpp:54 | The first notification of Stop, sent without the mutex, wakes every producer asleep at that moment. |
| SyncQueueMonitor.SyncQueue.StopNotifyNotEmpty | include/SyncQueue.hpp:55 | The second one wakes every consumer asleep at that moment, and the call is over. |
| SyncQueueMonitor.SyncQueue.Full | include/SyncQueue.hpp:63-66 | In every reachable state the equality test for fullness is the negation of the test that Put waits on. |
| SyncQueueMonitor.SyncQueue.Size | include/SyncQueue.hpp:68-71 | The number of items accepted and not yet delivered. |
| SyncQueueSpec.InvStep | include/SyncQueue.hpp:30-96 | Every step of any thread keeps: each open call is in one place, order and bound, nobody asleep without somebody on the way, and after a stop a notification still to come for whoever sleeps. |
| SyncQueueTheorems.FifoOverRuns | include/SyncQueue.hpp:30-96 | Over every run, what the Puts put, read off the events in the order in which they got the mutex, is what the Takes were handed, batches concatenated, followed by the queue; the bound holds. |
| SyncQueueTheorems.NoLostWakeUpSingle | include/SyncQueue.hpp:39-47 | With single takes, over every run with barging and spurious wake-ups: a sleeping producer means items plus woken producers reach the capacity, a sleeping consumer means woken consumers reach the items. |
| SyncQueueTheorems.SomebodyCanComplete | include/SyncQueue.hpp:30-96 | With batch and single takes mixed and capacity at least one: whenever a put and a take are both open before a stop, some awake thread can finish its call. |
| SyncQueueTheorems.DeadlockFreeIff | include/SyncQueue.hpp:30-96 | No run reaches a state with a producer and a consumer and everybody asleep if and only if the capacity is at least one. |
| SyncQueueTheorems.ZeroCapacityDeadlocks | include/SyncQueue.hpp:76-96 | The run that puts a queue of capacity zero to sleep. |
| SyncQueueTheorems.BatchKeepsProducersCoveredIff | include/SyncQueue.hpp:30-37 | The producers' bound of the single-take queue survives batch takes if and only if the capacity is at most one: a batch frees every slot and wakes one producer. |
| SyncQueueTheorems.BatchStrandsProducer | include/SyncQueue.hpp:35-36 | The run that leaves a producer asleep beside free slots, for every capacity of two or more. |
| SyncQueueTheorems.RunsSettle | include/SyncQueue.hpp:30-96 | Open calls left to themselves take at most as many steps as a weight of the state says; after a stop even with spurious wake-ups. |
| SyncQueueTheorems.RestOutcome | include/SyncQueue.hpp:30-96 | Where they come to rest: after a stop every call has returned; before it only consumers sleep at an empty queue, or only producers at one that is not empty, and full when takes are single. |
| SyncQueueTheorems.StopFreezes | include/SyncQueue.hpp:33-56 | Once the flag is up the contents never change and nobody newly goes to sleep. |
| SyncQueueTheorems.NobodySleepsAfterStop | include/SyncQueue.hpp:49-56 | From the moment any one call of Stop has sent both its notifications both sleeper sets are empty for ever, however many other calls of Stop are half-way and whatever calls follow. |
| ThreadPoolMonitor.ThreadPool.constructor | include/ThreadPool.hpp:26-29 | The number of threads is cut down to 99 from above, and is none below zero; every worker starts at its loop test; the queue holds up to 99. |
| ThreadPoolMonitor.ThreadPool.LoopTest | include/ThreadPool.hpp:123 | The first read of m_running decides between the next Take and the exit. |
| ThreadPoolMonitor.ThreadPool.TakeReturns | include/ThreadPool.hpp:139-141 | The turn in which a worker's Take returns: the front item, or the default value after a stop. |
| ThreadPoolMonitor.ThreadPool.SecondTest | include/ThreadPool.hpp:143-147 | The second read of m_running: the item is passed to the processing function, or dropped with the exit. |
| ThreadPoolMonitor.ThreadPool.ClearRunning | include/ThreadPool.hpp:160-161 | m_running is cleared only after the Stop of the queue has returned. |
| ThreadPoolMonitor.ThreadPool.Join | include/ThreadPool.hpp:163-166 | The joins go through the group in order, each waiting for its worker's exit. |
| ThreadPoolTheorems.InvStep | include/ThreadPool.hpp:123-168 | Every step keeps the joint invariant of queue, workers, stop phase and item ledger. |
| ThreadPoolTheorems.ItemsAreThoseAdded | include/ThreadPool.hpp:51-147 | Over every run, the items that workers have taken, followed by the queue, are those that the calls of AddData put, item for item and in the order in which they got the mutex. |
| ThreadPoolTheorems.Conservation | include/ThreadPool.hpp:123-168 | Over every run, through a stop or not: accepted = queued + held by a worker + passed + dropped; each delivered item is in exactly one of the last three places, once; at most one drop per worker and none before m_running is cleared. |
| ThreadPoolStop.DefaultsInWindow | include/ThreadPool.hpp:139-161 | Over every run, a value nobody added reaches the processing function only through a read at line 143 that fell between the write of the stop flag and the clearing of m_running. |
| ThreadPoolStop.SecondTestOutcome | include/ThreadPool.hpp:143-147 | In every reachable state: the next step drops an item if and only if it is a second test after the clearing of m_running by a worker whose Take returned before the stop flag was written; it passes a value nobody added if and only if it is one before the clearing, with a Take that returned after the write. |
| ThreadPoolStop.OnlyAddedProcessedIff | include/ThreadPool.hpp:123-161 | Only added values are processed, in every run, if and only if the pool has no workers. |
| ThreadPoolStop.NothingDroppedIff | include/ThreadPool.hpp:123-168 | No taken item is thrown away, in any run, if and only if the pool has no workers. |
| ThreadPoolStop.ItemCanBeDropped | include/ThreadPool.hpp:141-161 | For every pool with a worker, the run that adds an item and throws it away. |
| ThreadPoolStop.DefaultReachesTask | include/ThreadPool.hpp:139-161 | For every pool with a worker, the run in which nothing is ever added and the function is called all the same. |
| ThreadPoolTheorems.StopperCanMove | include/ThreadPool.hpp:158-161 | The stopping thread always has a step to take on its way to clearing m_running. |
| ThreadPoolTheorems.ShutdownBounded | include/ThreadPool.hpp:158-168 | Once m_running is cleared the workers and the joining thread take boundedly many steps, even if clients keep calling AddData. |
| ThreadPoolTheorems.ShutdownCompletes | include/ThreadPool.hpp:158-168 | And they wait for nothing: the pool comes to rest only with every worker exited, every join done and every queue call returned. |
| ThreadPoolTheorems.QueuedItemsHaveWorkers | include/ThreadPool.hpp:123-147 | Before a stop a worker that sleeps for want of an item means that at least as many workers have been woken from that sleep as items are queued. |
| ThreadPoolRest.RestBeforeStop | include/ThreadPool.hpp:51-147 | Before a stop a pool with a worker comes to rest in one of two ways: the queue is empty and every worker waits for an item; or, if and only if items are left, the queue holds 99 and every worker sleeps in AddData, called from its own processing. |
| ThreadPoolRest.RunsSettle | include/ThreadPool.hpp:51-147 | And it comes to that: no run without new calls and spurious wake-ups is longer than a weight of the state. |
| ThreadPoolRest.CloggedForever | include/ThreadPool.hpp:51-147 | Once the queue is full and every worker is in AddData, nothing is taken or processed until somebody stops the pool, in any run, whoever calls and whoever wakes. |
| ThreadPoolRest.CanClogIff | include/ThreadPool.hpp:51-147 | A run to such a deadlock exists if and only if the pool has a worker. |
| ConditionQueueMonitor.ConditionQueue.size | include/conditionqueue.h:47-53 | The in-use count plus the queue's length, modulo 2^32. |
| ConditionQueueMonitor.ConditionQueue.decrease | include/conditionqueue.h:55-62 | Takes one off the in-use count, if there is one to take. |
| ConditionQueueMonitor.ConditionQueue.Push | include/conditionqueue.h:106-109 | The element goes to the end of the queue under the mutex; the signal is still to come. |
| ConditionQueueMonitor.ConditionQueue.Signal | include/conditionqueue.h:110 | The signal, sent without the mutex, wakes one sleeper if there is one. |
| ConditionQueueMonitor.ConditionQueue.try_pop | include/conditionqueue.h:113-123 | The head and its move into the in-use count, or null from an empty queue. |
| ConditionQueueMonitor.ConditionQueue.WaitPop | include/conditionqueue.h:125-143 | From the call to the first wait or the return; the counter of waiting threads is counted down even when nobody waited. |
| ConditionQueueMonitor.ConditionQueue.ResumeWaitPop | include/conditionqueue.h:128-143 | After a wake-up: pop, or count up once more and sleep again. |
| ConditionQueueMonitor.ConditionQueue.TimedPop | include/conditionqueue.h:145-166 | From the call to the first wait or the return, without touching the counter of waiting threads. |
| ConditionQueueMonitor.ConditionQueue.Expire | include/conditionqueue.h:153-155 | A wait that ran out gives null whatever the queue holds by then. |
| ConditionQueueMonitor.ConditionQueue.Drain | include/conditionqueue.h:74-80 | The cleaning loop hands over every element that is not null, once and in queue order, and empties the queue. |
| ConditionQueueMonitor.NonNullInOrder | include/conditionqueue.h:76-80 | What a cleaning hands over are exactly the elements that are not null, in queue order. |
| ConditionQueueMonitor.ConditionQueue.Broadcast | include/conditionqueue.h:86 | Every sleeper is woken. |
| ConditionQueueMonitor.ConditionQueue.CleanQueue | include/conditionqueue.h:85-96 | And clears the in-use count. |
| ConditionQueueTheorems.InvStep | include/conditionqueue.h:47-166 | Every step keeps places, cover, counts and order. |
| ConditionQueueTheorems.NoLostSignal | include/conditionqueue.h:73-166 | Over every interleaving, with signals sent after unlocking, time-outs and spurious wake-ups: a sleeping thread means that woken threads plus signals to come reach the queue's length. |
| ConditionQueueTheorems.FifoOverRuns | include/conditionqueue.h:73-166 | Over every run, the elements of the Push events in event order are what left the queue, to pops and to cleanings, followed by the queue. |
| ConditionQueueTheorems.InUseAccounting | include/conditionqueue.h:47-71 | size() over every run, modulo 2^32, read off the events since the last cleaning: one more for each push and each increase, one less for each decrease that finds an element in use; pops of any kind do not show. |
| ConditionQueueTheorems.PopKeepsSize | include/conditionqueue.h:113-166 | A successful pop takes exactly the head into the in-use count and leaves size() alone; an unsuccessful one changes neither. |
| ConditionQueueTheorems.WaitSizeExactIff | include/conditionqueue.h:128-135 | wait_size() is the number of threads inside wait_pop's wait if and only if, modulo 2^32 and read off the events, waits begun again balance pops that never waited. |
| ConditionQueueTheorems.WaitSizeWraps | include/conditionqueue.h:135 | One push and one pop: nobody ever waited, and wait_size() is 2^32 - 1. |
| ConditionQueueTheorems.RunsSettle | include/conditionqueue.h:106-166 | Signals to come and waiting threads come to rest within a weight of the state. |
| ConditionQueueTheorems.RestOutcome | include/conditionqueue.h:106-166 | At rest nobody sleeps beside a queued element. |
| HttpParserTheorems.HeadRefinesLines | src/epoll_server.cpp:225-275 | The head loop equals a recursive line splitter: it is defined if and only if there is a line of exactly one byte and every recognised line before it can be copied; it stops just past that line, and each field holds the copy from the last line that matches it in any case. |
| HttpParserTheorems.LowerIsCaseless | src/epoll_server.cpp:245-260 | The comparison identifies two characters if and only if they are the same, or the same letter of the alphabet in either case. |
| HttpParserTheorems.AnyCaseRecovered | src/epoll_server.cpp:245-263 | In whatever mixture of capitals and small letters a header of a well-formed request is called Host, Accept or Connection, the value of the last of that name is recovered. |
| HttpParserTheorems.RoundTrip | src/epoll_server.cpp:177-274 | Rendering any well-formed request and parsing it gives back method, URI, version and the last Host, Accept and Connection value, the last four with their carriage return, with the cursor on the first byte of the body. |
| HttpParserTheorems.RequestLineRoundTrip | src/epoll_server.cpp:177-218 | The same for the request line, with any text after it. |
| HttpParserTheorems.AcceptsIff | src/epoll_server.cpp:177-274 | By positions and without the parser, from any cursor, first or resumed: a request is parsed if and only if method, blank, URI, blank and, up to the first newline, version follow, each fitting its field, and then a head that can be taken apart; the parser waits for more if and only if what has arrived fits so far and lacks a second blank or a newline. |
| HttpParserTheorems.SplitGivesParts | src/epoll_server.cpp:177-218 | And then the fields are exactly the parts of that line, and the parser goes on to the lines after it. |
| HttpParserTheorems.FindIsFirst | src/epoll_server.cpp:179 | The search gives the first position at or after the start that holds one of the characters, and nothing if and only if there is none. |
| HttpReader.WebConnection.constructor | src/epoll_server.cpp:88-102 | A connection in the ACCEPT state with no handler set and 1024 bytes free. |
| HttpReader.WebConnection.TryToEnlargeBuffer | src/epoll_server.cpp:350-356 | The buffer grows when fewer than 512 bytes are free and keeps its bytes. |
| HttpReader.WebConnection.ReceiveAll | src/epoll_server.cpp:146-167 | The receive loop, on the array: the buffer ends up with exactly the chunks received, and it reports the peer's closing. |
| HttpReader.WebConnection.Strpbrk | src/epoll_server.cpp:179 | The search loop on the array finds the first of the characters. |
| HttpReader.WebConnection.Strncasecmp | src/epoll_server.cpp:245-260 | The comparison loop on the array: equal if and only if every byte is the same letter up to case. |
| HttpReader.WebConnection.CopyHeader | src/epoll_server.cpp:244-268 | One header line is compared and copied in place. |
| HttpReader.WebConnection.ProcessHead | src/epoll_server.cpp:225-275 | The head loop with its moving cursor terminates, advances on every turn within the received bytes, and has the outcome of the recursive parser. |
| HttpReader.WebConnection.ProcessRequestLine | src/epoll_server.cpp:177-223 | The request line is taken apart in place, going on to the head and the body, with the outcome of the parser on the buffer's contents. |
| HttpReader.WebConnection.ProcessBody | src/epoll_server.cpp:276-293 | The body is not looked at, the buffer is emptied, the connection turns to sending. |
| HttpReader.WebConnection.ReadRequest | src/epoll_server.cpp:141-176 | One notification, from the first recv to the parse or to the peer's closing. |
| HttpReaderSpec.FillKeeps | src/epoll_server.cpp:146-167 | At every recv of a notification the buffer holds what it held plus exactly the bytes received so far, and nothing else of the connection has changed. |
| HttpReaderTheorems.GrowthAtRecv | src/epoll_server.cpp:146-158 | At every recv, over any chunks: the space offered is what is left of the allocation, between 512 and 1024 bytes; capacity never shrinks, is at most bytes received + 1024, and 513 times the reallocations is at most the bytes received. |
| HttpReaderTheorems.SizedOverNotifications | src/epoll_server.cpp:141-176 | The buffer arithmetic carries over from one notification to the next while the connection reads. |
| HttpReaderTheorems.PauseHarmlessIff | src/epoll_server.cpp:177-185 | A pause in the data leaves cursor and fields alone if and only if no space or tab has arrived. |
| HttpReaderTheorems.ChunkingIrrelevant | src/epoll_server.cpp:141-185 | However the bytes are cut into notifications and chunks, the outcome is the one of having them in the buffer at once, provided every pause but the last came before the first space or tab. |
| HttpReaderTheorems.TwoCutsAgree | src/epoll_server.cpp:141-185 | Two such ways of cutting the same bytes cannot be told apart. |
| HttpReaderTheorems.RequestIsServed | src/epoll_server.cpp:141-293 | A well-formed request cut up in such a way leaves the connection in SEND_DATA with the right handlers and with everything the request said in its fields. |
| HttpPauses.PauseMattersIff | src/epoll_server.cpp:177-275 | A pause after given bytes admits a continuation whose outcome differs from that of all the data at once if and only if either the parser waits, with the method complete and the URI either complete or still possibly fitting, or the bytes are a complete first line and a head that has not ended and of which every line so far can be copied. |
| HttpPauses.CutsDoNotMatter | src/epoll_server.cpp:141-275 | For any number of pieces: if no pause between them is such, the parser makes of them exactly what it makes of the whole. |
| HttpPauses.StoppedStays | src/epoll_server.cpp:186-275 | Where the parser has stopped, by accepting or outside the rules, and the head is not an open one, no further data would have changed what it did. |
| HttpCuts.HeadCutUndefined | src/epoll_server.cpp:233-234 | Every well-formed request of which only a part of the head has come, after its first line, takes the head loop outside the language's rules: it does not look whether there is a newline. |
| HttpCuts.RequestCutIff | src/epoll_server.cpp:177-275 | For every well-formed request and every cut in two: the parser makes of the two parts what it makes of the whole if and only if the cut comes no later than the end of the method, or after the head. |
| HttpCuts.RequestInTwoIff | src/epoll_server.cpp:141-293 | The same for the connection that receives the two parts in two notifications, in any chunks, with the buffer growing anywhere. |
| HttpCuts.NotificationsDoNotMatter | src/epoll_server.cpp:141-293 | A new connection whose data comes in any number of notifications without a harmful pause ends up as if all the data had come at once. |
| HttpCuts.PauseOfConnectionMattersIff | src/epoll_server.cpp:141-293 | The first pause of a connection can make a difference, by what recv gives next, if and only if the bytes before it are harmful. |
| HttpReaderTheorems.PauseAfterSpaceMisreads | src/epoll_server.cpp:186-202 | A concrete well-formed request, cut just after its first space, whose URI is taken for the method. |
| EventLoopMonitor.EventLoop.ProcessEvents | src/epoll_event.cpp:53-66 | The dispatch loop, calling handlers that update connections and interest set in place, runs any batch of distinct registered connections to its end and keeps the life-cycle invariant. |
| EventLoopMonitor.EventLoop.WebAcceptHandler | src/epoll_server.cpp:112-138 | A new connection in READ, with its reader, watched for input; or nothing when accept fails. |
| EventLoopMonitor.EventLoop.ReadRequestHandler | src/epoll_server.cpp:141-176 | When the peer closes, exactly this connection is deregistered and freed; otherwise it is read, and watched for output once the request is complete. |
| EventLoopMonitor.EventLoop.SendResponseHandler | src/epoll_server.cpp:295-348 | Deregistered and freed after the answer; left as it is when the header cannot be sent. |
| EventLoopTheorems.DispatchOutcome | src/epoll_event.cpp:53-65 | Which of four things a turn on a watched connection does, by what it finds: it ends it, and then it is neither allocated nor watched any more; or it adds exactly one connection, reading and watched for input; or it reads on, watched for output once the request is complete; or it does nothing. All other connections stay as they are. |
| EventLoopTheorems.FreedExactly | src/epoll_event.cpp:46-66 | Over every run in which the parser keeps to the rules, the connections freed are exactly those that some entry ended, by the peer's closing or by a sent answer, in that order; and there were as many connections as entries accepted. |
| EventLoopTheorems.DispatchInv | src/epoll_event.cpp:53-65 | Each turn of the dispatch loop on a watched connection keeps the invariant. |
| EventLoopTheorems.WaitedBatchRuns | src/epoll_event.cpp:46-66 | Whatever distinct batch epoll_wait returns can be dispatched to its end: no entry of it goes stale before its turn. |
| EventLoopTheorems.LifeCycle | src/epoll_server.cpp:88-175 | Over every run: no unset handler is called and no freed connection is touched; while the parser keeps to the rules, stage, both handlers and interest agree for every connection, and every connection ever accepted is allocated or was freed exactly once. |
| EventLoopTheorems.FaultIffUnparsable | src/epoll_event.cpp:53-65 | A batch goes wrong if and only if one of its connections, with what it has just received, has data that is neither a complete request nor an unfinished first line, by positions and from wherever its cursor is. |
| EventLoopTheorems.DuplicateEventFaults | src/epoll_event.cpp:61-62 | Distinctness is needed: two writable events for one connection in one batch touch it after it was freed. |
| MessagePoolMonitor.MessagePool.WaitForMessage | src/thread_pool.cpp:94-102 | Each statement of the worker up to the end of its wait loop: lock, test, wait, mutex back. |
| MessagePoolMonitor.MessagePool.LeaveOrCount | src/thread_pool.cpp:104-119 | The tests of the flag and of the counter: unlock and leave, count down, or, if the counter were not positive, go round without unlocking. |
| MessagePoolMonitor.MessagePool.TakeMessage | src/thread_pool.cpp:121-124 | The front message is taken, then the mutex is given up. |
| MessagePoolMonitor.MessagePool.HandleMessage | src/thread_pool.cpp:125-129 | The message's function is called and returns, and then the message is freed. |
| MessagePoolMonitor.MessagePool.PoolAddWorker | src/thread_pool.cpp:53-57 | Each statement of adding a message under the mutex: lock, push, count, unlock. |
| MessagePoolMonitor.MessagePool.SignalReady | src/thread_pool.cpp:58 | The signal after it, which wakes one sleeper if there is one. |
| MessagePoolMonitor.MessagePool.TestShutdown | src/thread_pool.cpp:63 | A destruction that finds the flag up is turned away with -1 and changes nothing; one that finds it down goes on to raise it. |
| MessagePoolMonitor.MessagePool.PoolDestory | src/thread_pool.cpp:64-71 | The unlocked write of the flag; each broadcast, after which nobody is asleep and all who slept are awake; each join, which has waited for its worker's exit. |
| MessagePoolMonitor.MessagePool.FreeMessages | src/thread_pool.cpp:75-78 | For every n the loop frees exactly the first ceil(n/2) messages, in order, and leaves the other floor(n/2); it frees all if and only if there is at most one. |
| MessagePoolMonitor.MessagePool.DrainMessages | src/thread_pool.cpp:75-78 | The form that goes on until the queue is empty frees them all, in order. |
| MessagePoolTheorems.InvStep | src/thread_pool.cpp:48-131 | Every step of any thread keeps: one holder of the mutex, the counter one behind the queue exactly inside push and pop, order, and the message ledger. |
| MessagePoolTheorems.CounterMirrorsQueue | src/thread_pool.cpp:48-131 | Whenever the mutex is free the counter is the length of the queue; front() is never asked of an empty queue; the false case at line 118, which would not unlock, is never taken, and a worker at the top of its loop does not hold the mutex. |
| MessagePoolTheorems.FifoOverRuns | src/thread_pool.cpp:53-124 | Over every run, the messages pushed, read off the events in the order in which their callers got the mutex, are those that workers took from the front, followed by the queue. |
| MessagePoolTheorems.MessagesHandledOnce | src/thread_pool.cpp:48-131 | Every message ever added is queued, in exactly one worker's hands, or done; they are dequeued in order, and each is processed once and, after its processing returned, freed once. |
| MessagePoolDestruction.UnstuckRun | src/thread_pool.cpp:64-111 | Once the flag is up a worker that is not asleep, nor committed to sleep, never is again and takes boundedly many more turns, also under spurious wake-ups. |
| MessagePoolDestruction.UnstuckExits | src/thread_pool.cpp:64-111 | And where nothing can move any more it has exited. |
| MessagePoolDestruction.RunsEnd | src/thread_pool.cpp:64-111 | Once the flag is up a pool left to itself takes boundedly many more turns, whether its destruction completes or hangs. |
| MessagePoolDestruction.JoinMustHangIff | src/thread_pool.cpp:67-71 | No way on completes the join in progress if and only if its worker sleeps or has decided to, and nobody is adding a message. |
| MessagePoolDestruction.JoinCanHangIff | src/thread_pool.cpp:53-71 | With calls of pool_add_worker in flight or not: some way on leaves the join hanging for ever if and only if its worker sleeps or has decided to, and more workers are like that than calls are still to signal, or it has yet to fall asleep and all those calls have unlocked. |
| MessagePoolDestruction.DestroyCanHangIff | src/thread_pool.cpp:62-71 | pool_destory can hang for ever, in some run, if and only if the pool has a worker. |
| MessagePoolCompletion.CompletesIff | src/thread_pool.cpp:67-71 | From the first broadcast on, calls of pool_add_worker in flight or not: every way on ends with all joins done if and only if the join in progress cannot hang and no worker that has decided to sleep can be overlooked, that is, none whose join the destroying thread reaches without waiting while all calls in flight have unlocked. |
| MessagePoolCompletion.NobodyDecidingCompletes | src/thread_pool.cpp:67-71 | A destruction that comes to its first broadcast while no worker has decided to sleep always completes: all joins done and all workers exited, also those that were asleep. |
| MessagePoolLiveness.NoLostMessage | src/thread_pool.cpp:48-131 | Before destruction a sleeping worker means that woken workers, signals to come and the worker about to look suffice for the messages. |
| MessagePoolLiveness.AddedAreBegun | src/thread_pool.cpp:48-60 | Where nobody is adding, the messages added are exactly those of the calls of pool_add_worker that began, each as often. |
| MessagePoolLiveness.RestMeansAllDone | src/thread_pool.cpp:48-131 | Where the workers and adders of a pool with at least one worker cannot move before its destruction begins, every message ever passed to pool_add_worker has been taken, processed once and freed once. |
| MessagePoolLiveness.RunsSettle | src/thread_pool.cpp:48-131 | And they come to that: before destruction no run without new calls and spurious wake-ups is longer than a weight of the state. |
| MessagePoolLiveness.AllGetDone | src/thread_pool.cpp:48-131 | So every run in which the flag is down has a continuation without new calls that ends with all its messages done. |
| MessagePoolLiveness.OneMessageGetsDone | src/thread_pool.cpp:48-131 | For instance every pool with a worker has a run from its start that adds one given message, finishes exactly that, and comes to rest. |
| ConnPoolMonitor.ConnPool.constructor | src/connection_pool.cpp:21-35 | Half of the cap, rounded down, is attempted up front; none below zero. |
| ConnPoolTheorems.HalfIs | src/connection_pool.cpp:34 | The division by two rounds towards zero, for negative caps as well. |
| ConnPoolMonitor.ConnPool.InitConnection | src/connection_pool.cpp:47-60 | The loop keeps the connections whose attempt succeeded, in order, and counts exactly those. |
| ConnPoolMonitor.ConnPool.GetConnection | src/connection_pool.cpp:79-112 | The front connection, replaced if dead, or a new one below the cap, or none; with the counter of every branch. |
| ConnPoolMonitor.ConnPool.ReleaseConnection | src/connection_pool.cpp:115-121 | Null is ignored; anything else goes to the end of the list. |
| ConnPoolMonitor.ConnPool.DestoryConnPool | src/connection_pool.cpp:124-137 | What the destructor does: every listed connection is deleted, once and in order; it is the last thing that happens to a pool. |
| ConnPoolTheorems.AccountsKeptIff | src/connection_pool.cpp:79-121 | From books in order, a request or a release leaves them in order if and only if it is proper: whatever the database does, only a client that gives back what it does not hold upsets them. |
| ConnPoolTheorems.AccountsIff | src/connection_pool.cpp:47-121 | Over every run of a living pool, the books are in order at its end if and only if every client has only ever given back what it held; one stray release upsets them for good. |
| ConnPoolTheorems.NothingLeaks | src/connection_pool.cpp:47-137 | Over every run, proper or not and through the destruction: what was opened and what strayed in is in the list, out, or deleted, as often as it came in; after the destruction of a pool into which nothing strayed, exactly what is out is left. |
| ConnPoolTheorems.DoubleReleaseShares | src/connection_pool.cpp:115-121 | In every pool with a positive cap: a run in which a client gets a connection and gives it back twice, after which two others hold it at once. |
| ConnPoolTheorems.PoolAccounting | src/connection_pool.cpp:47-121 | Over every proper run, with any failures and dead connections: the counter is idle + out, within the cap; no connection is idle twice, out twice, or both. |
| ConnPoolTheorems.RefusedIffAllOut | src/connection_pool.cpp:79-112 | Over every proper run a request is refused without a connect attempt if and only if exactly the cap is out; one whose attempt would succeed comes back empty only then, so failures never cost capacity. |
| ConnPoolTheorems.HeldByOne | src/connection_pool.cpp:79-112 | Whoever gets a connection is its only holder, and it has left the list. |
| ConnPoolTheorems.FirstBackFirstOut | src/connection_pool.cpp:83-121 | Over every run of a living pool, proper or not: the connections made up front and then those given back, in the order in which they came, are those that requests took from the list, followed by the list. |
| ConnPoolTheorems.SuccessesInOrder | src/connection_pool.cpp:47-60 | Of the attempts made up front exactly those that succeeded give a connection, in order. |
| ConnPoolTheorems.DeletesOnlyItsOwn | src/connection_pool.cpp:86-137 | With the books in order, what the pool deletes is held by nobody, is deleted once, and is not left in the list. |
| ConnPoolTheorems.ExcessCountsStrays | src/connection_pool.cpp:79-121 | The exact accounting of every run of a living pool, proper or not: the counter falls behind the entries, in the list and out, by one for each stray release and for nothing else. |

## Left out

- Pausing workers (`Pause`, `Continues`, the flag map and `sigwait`, include/ThreadPool.hpp:56-99 and 125-135): no worker is paused; the flag map is not synchronised and the signal is sent before the flag is cleared, so prompt resumption does not hold.
- `m_running` is used in include/ThreadPool.hpp (lines 62, 123, 143, 161) but declared nowhere; it is taken as a shared boolean.
- `Stop` of the worker pool goes through `call_once`: one thread, none of the workers, runs the stopping code; other callers, which only wait for it, are not modelled. Destructors and the processing function's own work are not modelled beyond its being called and returning.
- A list moved from by the batch `Take` is taken to be empty, as `std::list` leaves it.
- `Count()` of the bounded queue and `empty()` of the condition queue read the same length as the modelled sizes.
- Time: the `sleep(3)` of `pool_destory` is no step, and a time-out is something that may happen to any thread in a timed wait that nobody has woken.
- The release build of src/thread_pool.cpp, in which the wait at lines 99-101 is compiled out and the worker spins with the mutex held; the wait is modelled as with DEBUG defined.
- What becomes of threads that use the message pool after it was deleted (src/thread_pool.cpp:80-84).
- Failure of memory allocation, everywhere.
- Sockets, `epoll`, `fork` and the files: `recv` gives any chunk that fits, no more data, or the end of the stream; `epoll_wait` gives any batch of distinct registered connections, each with events it is watched for or an error; hang-ups on their own are not modelled; a failed `epoll_ctl` is not modelled.
- The bytes of the answer that `send_response` sends are a constant and not modelled; its first `send` fails or does not, the result of its second one is ignored as in the code.
- Received bytes are free of NULs, and the text of the buffer ends at query_end_index, which is what `strlen` at src/epoll_server.cpp:352 and the searches are meant to see.
- A field of a connection is the sequence of bytes last copied into it; what an earlier, longer copy left behind it in the array is not modelled.
- Copies that do not fit a field, negative lengths, and a header line without an end are outside the rules of the language; the parser's outcome there is `Undefined` and nothing is said about what follows.
- Buffer indices are unbounded here; `GrowthAtRecv` shows that the capacity fits 32 bits as long as the bytes received do, with 1024 to spare.
- HttpReaderTheorems.ChunkingIrrelevant: holds under its proviso only; `HttpPauses` and `HttpCuts` prove exactly when a pause matters.
- MessagePoolMonitor.MessagePool.TestShutdown: a second caller may pass the test between the first one's test and its write; what it does after that is not modelled, only the first caller is followed.
- HttpReader.WebConnection.ReadRequest: after an undefined step nothing is said about the connection's fields, because nothing is known about them.
- EventLoopMonitor.EventLoop.ReadRequestHandler: updates a map of connection values instead of `WebConnection` objects; the object-level effect of reading is proved in `HttpReader`.
- Identities of connections of the event loop are never reused; the connection pool's may be, once deleted.
- ConnPoolMonitor.ConnPool.GetConnection: takes the answers of the database (connection closed or not, connect attempt successful or not) as parameters, and which client calls; the driver, its exceptions and the singleton accessor are not modelled, nor is the mutex, which every operation holds from start to end.
- What clients do with connections that are still out when the connection pool is destroyed, and exceptions that `close` throws, which the code catches.
- src/DBOperation.cpp, src/http_requests.cpp, src/http_server.cpp, src/config.cpp, src/common.cpp, include/logging.hpp and include/aocsingleton.hpp: wrappers, getters and setters.
