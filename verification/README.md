# caio: the submission and completion engines, verified

caio runs file operations asynchronously through one of four backends: io_uring,
Linux AIO, a C thread pool and a pure-Python thread pool. In each of them a caller
*claims* one-shot Operations, hands them through a bounded ring or queue, and is
called back once per Operation. This project models those engines and proves
what they keep over every run: exactly-once delivery under re-entrant callbacks,
lossless wakeups, graceful shutdown, exact partial acceptance, conservation of
slots and references, and the bookkeeping of the asyncio adapters on top.

Each engine comes in two layers. A *protocol* module describes what may happen,
step by step, under any interleaving of threads, callbacks, kernel and workers;
its invariants and theorems are about every run. A *class* module follows the
code - rings in arrays with wrapping 32-bit counters, a circular queue, claim and
rollback loops - with the protocol state as a ghost field (`s` in UringContext,
ThreadPool and LinuxAio, `c` in ThreadAio, `l` in PythonAio), and its methods
state which protocol steps they perform and what else they change. The two
asyncio adapters hold such a Context and call its methods. How the other modules
relate to code: FdLocks, RollbackRace, HandoverRace and the `*Pressure` modules
are about interleavings of several threads or tasks and are step machines on
values.

| file | what it holds |
|---|---|
| `Words.dfy` | 32-bit words, masks, and a ring that holds a window of an endless log |
| `Wrappers.dfy`, `Bags.dfy`, `Claims.dfy`, `Frames.dfy` | an option; lists as bags; the claims of a batch; the stack of batches being delivered |
| `UringProtocol.dfy`, `UringMemory.dfy`, `UringContext.dfy` | io_uring: protocol; rings and Operations as values; the Context |
| `UringAdapter.dfy` | its asyncio adapter: deferred flush and the eventfd read handler |
| `PoolProtocol.dfy`, `ThreadPool.dfy` | the C thread pool: protocol and circular queue |
| `CloseProtocol.dfy`, `ThreadSteps.dfy`, `ThreadAio.dfy` | the pool-backed Context: close against submit; its Operations against that protocol; batches, workers, callbacks, close |
| `Outcomes.dfy`, `HandoverRace.dfy` | the worker's stores against a reader's loads; a claim against another Context's rollback |
| `AioProtocol.dfy`, `LinuxAio.dfy`, `RollbackRace.dfy` | Linux AIO: protocol, Context, and a rollback overtaken by another claim |
| `AioAdapter.dfy` | its asyncio adapter: deferred submission and futures |
| `LockProtocol.dfy`, `PythonSteps.dfy`, `PythonAio.dfy`, `FdLocks.dfy` | the pure-Python Contexts: two-level locking; their Operations against that protocol; their methods among other threads; emulated positional I/O |
| `Backpressure.dfy`, `Lanes.dfy` | the adapters' semaphore, for any backend; what fills a backend from the front to the back |
| `AioPressure.dfy`, `PoolPressure.dfy`, `PythonPressure.dfy`, `UringPressure.dfy` | the semaphore and each backend, step by step together |
| `TimedWait.dfy` | the timed wait of the io_uring backend |

## Properties that hold only under a condition

* A second `close()` that finds the pool pointer gone returns at once
  (`caio/thread_aio.c:112-117`), so "when close returns, everything accepted is
  done" is true of the close that swapped the pointer (`CloseReturnsDone`) and not
  of the other one (`LosingCloseFails`, `LosingCloseReturnsAtOnce`);
  `LosingCloseExact` says when it is.
* A rollback clears the claim flag before it drops the Operation's Context
  (`caio/linux_aio.c:351-352`, `caio/linux_aio.c:367-368`), and a claim drops the old
  Context before it stores its own (`caio/linux_aio.c:325-326`). Without an
  interpreter lock they may interleave; references are conserved over a run if and
  only if no claim drops the old Context while a rollback has cleared the flag and not
  yet stored NULL (`RunExact`). `OvertakenRollbackDropsTheOther` and
  `OvertakenRollbackDropsTwice` are the two ways in which it goes wrong.
* The pool backend's rollback clears the flag and then stores NULL over the
  Operation's Context (`caio/thread_aio.c:409-410`), and another Context may claim,
  store and queue the Operation in between. Its worker finds its own Context if and
  only if no such late NULL falls between the store of its claim and its load
  (`WorkerFindsOwnExact`); otherwise it loads NULL and never drops the claim's
  reference (`ReferencesExact`) - the code decrements what it loaded without a check
  (`caio/thread_aio.c:289`).
* `_on_read_event` clears the eventfd counter before it drains, and each drain
  allocates its batch anew. It leaves a completion in the ring with nothing to
  announce it exactly when one of its drains could not, and the kernel has announced
  nothing since: `FailureStrandsExactly` tells the runs that end so, the clauses of
  `UringAdapter.AsyncioContext.OnReadEvent` the calls of the handler, and
  `AllocationFailureStrands` makes it happen. A handler that never fails strands
  nothing (`NoStrandedCompletion`).
* The value gate (`GateExact`): for every schedule of its loads against the stores
  of claim and worker, a reader is turned away, is told what the call gave or reads
  the fresh Operation, except exactly when the call fails, the claim flag was loaded
  before the claim, the error code before its store, and the length or count after
  its own (`Tears`); `OvertakenReaderTears` shows it for reads and writes.
* A backend is asked for more than there are permits only if some Operation is
  *loose*: the backend has it, it was not called back, and its task gave the permit
  back already, by being cancelled or by a submit that raised after staging. If one
  is loose, a run that overfills exists; if none is, no run does, until another task
  leaves early (`OverfillExact`, `HeldNeverOverfills`). Each real backend has a
  condition of its own, which is exact in every state of every run:
  * Linux AIO (`AskTooMuchExact`): a loose request is with the kernel; or it is
    finished, and the permits are not all held for requests that finished after it.
  * The C pool (`RefusalExact`): the Context is not being closed and a loose Operation
    is queued; one that a worker has taken fills nothing.
  * io_uring (`OverflowExact`): more entries are stray - loose, or the cancel entries
    of tasks that were cancelled - than the ring has entries beyond the permits
    (`caio/linux_uring.c:708`). Cancel entries alone are enough, with nothing loose
    (`CancelEntriesOverfill`).
  * The Python pool (`LimitExact`): a loose Operation has a slot of the open Context,
    no thread is inside the Context's lock to give that slot back or to close the
    Context, and some thread can go on without either.
* The timed wait gives up before the deadline exactly in the last millisecond of a
  remainder that borrows no second (`BudgetExact`).

## Model

| member | source | states |
|---|---|---|
| Words.SlotOfWord | caio/linux_uring.c:1001-1002 | masking a free-running 32-bit counter names the same slot as the unbounded position it stands for, across wraparound |
| Words.Distance | caio/linux_uring.c:990 | `tail - head` in 32-bit arithmetic is the true number of pending entries |
| Words.WordsDiffer | caio/linux_uring.c:886 | two ring counters compare equal only when the positions are equal, although the words wrap |
| Words.RingPut | caio/linux_uring.c:1001-1036 | writing the slot at the tail of a ring that is not full leaves every unconsumed entry in place |
| Claims.FirstClaimsExact | caio/linux_aio.c:319-336 | a batch claims exactly the free arguments, each once, in the order of their first occurrences |
| Claims.FirstClaimsUnique | caio/linux_aio.c:319-336 | that description determines the claims: no other list satisfies it |
| Claims.WalkStops | caio/thread_aio.c:398-416 | wherever a submit loop stops, what it accepted is a prefix of the batch's claims, a proper one in front of a free Operation |
| UringProtocol.StepKeeps | caio/linux_uring.c:858-943 | every step of submit, cancel, kernel, drain, callback and eventfd keeps the conservation invariant |
| UringProtocol.ExactlyOnce | caio/linux_uring.c:858-943 | in every run, any re-entrancy depth: the accepted Operations are the disjoint union of staged, in-kernel, posted, collected and called, and none is called twice |
| UringProtocol.QuietMeansDelivered | caio/linux_uring.c:858-943 | once every stage is empty, exactly the accepted Operations were called and no reference on the Context is left |
| UringProtocol.ContextOutlivesItsOperations | caio/linux_uring.c:1038-1047 | references on the Context equal the Operations not yet collected, so it lives while the kernel may touch it |
| UringProtocol.NoStrandedCompletion | caio/linux_uring_asyncio.py:70-75 | in every run whose handlers all drain to the end, completions landing at any moment, nothing is ever stranded: a completion in the ring has a handler awake, a non-zero counter or a signal to come |
| UringProtocol.FailureStrandsExactly | caio/linux_uring.c:873-880 | of all runs exactly those end with a completion stranded in which, after the counter was cleared with no signal owed, a handler fails, nothing is posted or signalled, no handler reads the counter again, and the ring is not emptied |
| UringMemory.Describe | caio/linux_uring.c:1003-1032 | read as the kernel reads it, the entry is the request of its Operation: a read or a write into or from its own buffer of the low 32 bits of its size, or a sync of all or of the data only, on its signed descriptor at its offset, tagged with it; exactly unknown opcodes are refused |
| UringMemory.RequestExact | caio/linux_uring.c:1003-1032 | that description leaves nothing open: any two entries that ask for what an Operation is about are the same request with the same tag |
| UringMemory.OverflowExact | caio/linux_uring.c:988-999 | where a submit stops is determined: at the first argument that is free when its turn comes and finds the ring used up |
| UringMemory.PublishAgrees | caio/linux_uring.c:1034-1052 | publishing a staged batch keeps flags, contexts and references of all Operations in agreement with the protocol |
| UringMemory.CompletedResult | caio/linux_uring.c:897-905 | after any run of completions each of their Operations has the result of its own; a negative one its negation as error, any other one the old error and, for a read only, the length read; and `get_value` says accordingly that it raises, or the bytes, count or nothing |
| UringMemory.DrainPrefixUnique | caio/linux_uring.c:886-888 | how much of the ring a drain consumes is determined by the visible entries and its limit |
| UringMemory.ZeroMeansDrained | caio/linux_uring.c:886-891 | a drain with a positive limit that returns 0 consumed everything it could see, all of it cancel sentinels |
| UringMemory.CollectAgrees | caio/linux_uring.c:893-905 | collecting any number of completions releases the Context once for each of their Operations and for no other |
| UringContext.Context.constructor | caio/linux_uring.c:730-797 | a fresh Context implements the empty protocol state |
| UringContext.Context.EverythingAccounted | caio/linux_uring.c:858-943 | between calls each accepted Operation is in exactly one place, none was called twice, each callback was told the result of its own completion, called ones are done and released, and the reference count is that of the uncollected ones |
| UringContext.Context.KernelConsume | caio/linux_uring.c:1034-1036 | the kernel sees the oldest published entry, with or without the index array |
| UringContext.Context.KernelPost | caio/linux_uring.c:861-875 | a posted completion overwrites no uncollected one |
| UringContext.Context.StageOne | caio/linux_uring.c:981-1050 | one turn claims and stages, with the entry in the ring asking for the Operation's own request, or leaves the Operation exactly as it was: busy, ring full, unknown opcode |
| UringContext.Context.Submit | caio/linux_uring.c:950-1061 | type errors touch nothing; otherwise exactly the first claims that fit are published, in order, each entry asking for the request of its own Operation, and marked, given this Context and referenced, with nothing else changed - also when the ring overflows half way, whatever the kernel consumes meanwhile |
| UringContext.Context.Flush | caio/linux_uring.c:1071-1133 | the kernel answers each enter call anew; it raises exactly when one is refused, with what the calls before took handed over; otherwise, outside SQPOLL mode, everything up to the tail it read is, and every completion visible then is collected and counted |
| UringContext.Context.HandOver | caio/linux_uring.c:1113-1121 | the enter loop terminates: its whole snapshot is handed over in order, or what the calls before the first failing one took |
| UringContext.Context.Cancel | caio/linux_uring.c:1140-1175 | one entry more, which asks to withdraw the Operation named and completes with the sentinel; when the enter succeeds, the oldest one is handed over; a full ring changes nothing |
| UringContext.Context.Collect | caio/linux_uring.c:859-918 | the batch is collected and the head committed before any callback; every Operation of the consumed prefix has result, error and length of its own completion, all other fields and Operations as before, and `get_value` says what that completion gave; the arrays hold min(available, max) and are filled with the batch in order |
| UringContext.Context.DeliverAll | caio/linux_uring.c:920-938 | every Operation of the batch is called back by this loop with its own result, although callbacks re-enter the Context |
| UringContext.Context.DrainCq | caio/linux_uring.c:858-943 | returns exactly the number of real completions in the consumed prefix, each called back once with its own result, or fails without consuming anything |
| UringContext.Context.ReadersAreTold | caio/linux_uring.c:379-421 | at any time between calls: `get_value` of every collected Operation says what its completion gave, and that of every accepted one not yet collected refuses |
| UringContext.Context.Callback | caio/linux_uring.c:920-938 | any re-entrant submit, cancel, poll or drain and any kernel activity leave older batches and delivered Operations alone |
| UringContext.Context.ProcessEvents | caio/linux_uring.c:1189-1324 | each error exactly in its case, with 512 for a limit of 0, out of memory only with completions visible; otherwise the count is that of the real completions in the prefix it consumed, and 0 means that everything visible was consumed |
| UringContext.Context.Poll | caio/linux_uring.c:1331-1341 | the eventfd counter is returned and cleared, or found zero |
| UringAdapter.AsyncioContext.SubmitOp | caio/asyncio_base.py:64-69 | refused, with nothing changed, exactly for a claimed Operation, a full ring or an unknown opcode; otherwise an entry that asks for its own request is staged, and flushed at once or by the one scheduled flush |
| UringAdapter.AsyncioContext.OnSubmitted | caio/linux_uring_asyncio.py:27-49 | outside deferred mode the ring is empty afterwards; in it one flush handle is scheduled however many submissions |
| UringAdapter.AsyncioContext.DeferredFlush | caio/linux_uring_asyncio.py:51-53 | unless the kernel refuses, the submission ring is empty afterwards |
| UringAdapter.AsyncioContext.CancelOp | caio/asyncio_base.py:54-61 | the number of unsubmitted entries stays when the enter succeeds; a flush still comes exactly if it succeeded, changed nothing or one was scheduled |
| UringAdapter.AsyncioContext.OnReadEvent | caio/linux_uring_asyncio.py:55-75 | terminates with the kernel going on between clear and drains, each drain allocating anew; ends well exactly if the last drain has memory or finds the ring empty, and then all that was posted was called back; else it strands exactly if nothing is announced, and what earlier drains collected was called back; with the kernel still, both are told by the visible entries and the memory of each turn |
| UringAdapter.AsyncioContext.Meanwhile | caio/linux_uring_asyncio.py:27-53 | whatever the kernel does between handlers, a flush stays scheduled and completions stay announced |
| UringAdapter.AsyncioContext.AsleepIsSafe | caio/linux_uring_asyncio.py:55-75 | between handlers, unless one has failed, no completion lies in the ring unannounced |
| UringAdapter.AllocationFailureStrands | caio/linux_uring.c:873-880 | submit, completion, signal and a handler without memory, run on the classes, end with a stranded completion |
| PoolProtocol.StepKeeps | caio/src/threadpool/threadpool.c:266-305 | every step of adding, working, waking and shutting down keeps the pool's invariant |
| PoolProtocol.NoLostWakeup | caio/src/threadpool/threadpool.c:180-188 | a blocked worker means no more queued tasks than signalled workers, and a non-empty queue always has a worker on its way |
| PoolProtocol.Fifo | caio/src/threadpool/threadpool.c:287-291 | dispatched tasks followed by queued tasks are the accepted tasks in order; dispatched ones are running or finished |
| PoolProtocol.ShutdownEnds | caio/src/threadpool/threadpool.c:217-233 | after shutdown no run has more steps than twice the queue plus the workers' remaining effort |
| PoolProtocol.StuckMeansStopped | caio/src/threadpool/threadpool.c:281-300 | a pool that is shutting down can stop moving only with every worker gone, which is when `started` is 0 |
| PoolProtocol.GracefulDrain | caio/src/threadpool/threadpool.c:199-241 | from any reachable state a graceful shutdown ends with every accepted task run exactly once and the queue empty |
| PoolProtocol.ImmediateDrops | caio/src/threadpool/threadpool.c:281-285 | from any reachable state an immediate shutdown begins no further task, and ends with exactly the tasks begun before it run and the rest in the queue |
| ThreadPool.Pool.constructor | caio/src/threadpool/threadpool.c:96-140 | a new pool implements the initial protocol state |
| ThreadPool.Pool.Add | caio/src/threadpool/threadpool.c:149-197 | full is reported before shutdown; otherwise the task is appended across the wrap of the array and a blocked worker, if any, is signalled |
| ThreadPool.Pool.TakeLock | caio/src/threadpool/threadpool.c:271-302 | a worker's critical section waits, exits or takes the oldest task, as the protocol says |
| ThreadPool.Pool.JoinAll | caio/src/threadpool/threadpool.c:228-233 | the join loop terminates for every order in which the workers move, with all of them exited |
| ThreadPool.Pool.Destroy | caio/src/threadpool/threadpool.c:199-241 | frees only with no thread left; graceful: all accepted tasks ran once, count 0; immediate: exactly those begun before it ran, the others are still queued; a second shutdown is refused |
| CloseProtocol.StepKeeps | caio/thread_aio.c:108-125 | every step of submitters, closers, workers and lock holders keeps the invariant |
| CloseProtocol.SubmitAndCloseNeverMeet | caio/thread_aio.c:387-419 | nobody submits to a pool that is shutting down, a pool is destroyed at most once, and the joiner does not hold the lock |
| CloseProtocol.NothingAddedAfterSwap | caio/thread_aio.c:112-115 | after the pointer was swapped out no run adds a task |
| CloseProtocol.CloseReturnsDone | caio/thread_aio.c:119-124 | in every run, once the close that swapped the pointer has joined: everything accepted is done, was called back once, and holds the Context no more, a rollback elsewhere being one step |
| CloseProtocol.JoinCannotDeadlock | caio/thread_aio.c:119-124 | while a worker is left, a step that needs nothing from the joiner is possible |
| CloseProtocol.JoinFinishes | caio/thread_aio.c:119-124 | such steps bring the join to its end: there are no more of them than the measure of pool, unpublished work and lock, and when none is left the join returns |
| CloseProtocol.LosingCloseExact | caio/thread_aio.c:112-117 | at any moment everything accepted is done if and only if the queue is empty and no busy worker has yet to publish |
| CloseProtocol.LosingCloseReturnsAtOnce | caio/thread_aio.c:112-117 | whatever is pending, the second of two concurrent closes returns before any of it is done |
| CloseProtocol.LosingCloseFails | caio/thread_aio.c:112-117 | a reachable state with an accepted Operation that is not done, to which that applies |
| ThreadAio.Context.Submit | caio/thread_aio.c:340-424 | type errors and a closed pool touch nothing; otherwise the pool gets a prefix of the batch's claims in order, all of them unless it is full; those have the flag and one reference more, and nothing else has changed, while workers take tasks |
| ThreadAio.Context.HandOne | caio/thread_aio.c:398-416 | a refused Operation has flag and references as before, and ends the call |
| ThreadAio.Context.SystemCall | caio/thread_aio.c:232-257 | pread exactly for a read, pwrite for a write, fsync or fdatasync for the syncs, with descriptor and size as C `int`s and the own offset |
| ThreadAio.Context.RunTask | caio/thread_aio.c:215-292 | the worker makes the call of the Operation; then the Operation has result and error of that call, a read its length, a write no Python buffer any more; `get_value` raises exactly for a negative result and otherwise gives length, count or nothing; done is published, the callback told the result - it may submit again - and each reference dropped, once; no other claimed Operation was touched |
| ThreadAio.Context.Callback | caio/thread_aio.c:278-287 | a callback that submits, beside workers that go on, leaves claimed Operations, older results and the own worker's task alone |
| ThreadAio.Context.Close | caio/thread_aio.c:108-125 | afterwards everything ever accepted is done, was called back once with the result it holds, and is not referenced by the engine; no Operation holds the Context, and the pool is freed; a second call changes nothing |
| ThreadAio.Context.Join | caio/src/threadpool/threadpool.c:228-233 | with the interpreter lock given up the join terminates, whatever the callbacks of the remaining tasks do and in whatever order the workers move |
| ThreadAio.Context.Switch | caio/thread_aio.c:210-292 | between two calls of a thread the workers may run any number of tasks with their callbacks: what was accepted and called stays so, claims stay taken, and what other threads are doing is left alone |
| Outcomes.GateExact | caio/thread_aio.c:857-900 | for every schedule of the loads: in flight, what the call gave, or the fresh fields if and only if the loads do not tear, a negative length or count if they do; with the claim seen, what the call gave exactly if done was seen |
| Outcomes.OvertakenReaderTears | caio/thread_aio.c:857-900 | a failing read or write whose reader is overtaken by claim and worker is reported as a success |
| AioProtocol.StepKeeps | caio/linux_aio.c:323-370 | submission with rollback, completion, collection, release and cancel keep the invariant |
| AioProtocol.EachClaimReleasedOnce | caio/linux_aio.c:555-582 | in every run each claim is rolled back, still held, or released - once; the Context's references count the held ones |
| AioProtocol.ContextOutlivesItsOperations | caio/linux_aio.c:416-441 | the Context is referenced if and only if something is held, in particular while the kernel has a request |
| LinuxAio.RollbackOne | caio/linux_aio.c:349-354 | one rollback step restores flag, context and reference of its Operation, leaving only the eventfd in the iocb |
| LinuxAio.SubmitAgrees | caio/linux_aio.c:319-375 | after partial acceptance flags, contexts and references of all Operations agree with the protocol |
| LinuxAio.OutcomeFields | caio/linux_aio.c:325-331 | the first k claims are in progress, belong to the Context, hold a reference and ask for its eventfd; the others keep of their claim only the eventfd; no other field or Operation has changed |
| LinuxAio.Context.Submit | caio/linux_aio.c:271-376 | for every argument list and kernel answer: exactly the first k claims are in flight and ask for the eventfd of this Context, the rest given back, nothing else touched, k returned; a refusal raises the exception of its errno |
| LinuxAio.Context.InKernel | caio/linux_aio.c:330-331 | at any time between calls everything the kernel has will signal the eventfd of this Context, belongs to it, and cannot be read yet |
| LinuxAio.Context.ClaimAll | caio/linux_aio.c:319-336 | the claiming loop collects the batch's claims in order, and marks exactly those as in progress, this Context's and signalling its eventfd |
| LinuxAio.Context.RollBack | caio/linux_aio.c:363-370 | the rollback loop gives back exactly the claims from `from` on |
| LinuxAio.Context.Cancel | caio/linux_aio.c:383-445 | a successful cancel releases the Operation once with its result, also when the callback raises; a failing one changes nothing and raises the exception of its errno |
| LinuxAio.Context.Deliver | caio/linux_aio.c:553-586 | every event taken from the kernel is released by this loop with its own result, which is what `get_value` says from then on, although callbacks re-enter the Context |
| LinuxAio.Context.ProcessEvents | caio/linux_aio.c:454-590 | limits and errors in the order the code checks them; otherwise exactly the oldest events within limit and answer are released, each with its own result; with callbacks that call nothing, those and no others |
| RollbackRace.StepExact | caio/linux_aio.c:325-326 | a step conserves references exactly when it does not drop the old Context in the middle of a rollback |
| RollbackRace.RunExact | caio/linux_aio.c:323-354 | a run conserves references throughout if and only if no claim does that |
| RollbackRace.OvertakenRollbackDropsTheOther | caio/linux_aio.c:363-370 | a run in which the overtaken rollback drops the reference of the claim that stands |
| RollbackRace.OvertakenRollbackDropsTwice | caio/linux_aio.c:363-370 | a run in which claim and rollback drop the same reference, before the claim stores its own |
| HandoverRace.WorkerFindsOwnExact | caio/thread_aio.c:400-411 | in every run of submits, rollbacks and worker the worker loads its own Context if and only if no late NULL fell between the store of its claim and its load, and NULL otherwise |
| HandoverRace.ReferencesExact | caio/thread_aio.c:217-219 | the references of all claims are conserved up to the worker's end if and only if none fell there; otherwise exactly the accepted claim's reference is never dropped |
| HandoverRace.OverwrittenExact | caio/thread_aio.c:409-410 | the condition in terms of the run alone: a late NULL with no store of a Context after it |
| HandoverRace.OverwrittenClaim | caio/thread_aio.c:409-410 | a run in which the worker of an accepted claim finds NULL |
| AioAdapter.AsyncioContext.Submit | caio/linux_aio_asyncio.py:16-27 | deferred: pending with one submit scheduled; otherwise with the kernel, or refused by it and claimable |
| AioAdapter.WantedExact | caio/linux_aio_asyncio.py:34-38 | what the filter keeps of the pending list: exactly the waiting ones, each once, in the order of the list |
| AioAdapter.WantedUnique | caio/linux_aio_asyncio.py:34-38 | no other list has these properties |
| AioAdapter.AsyncioContext.DeferredSubmit | caio/linux_aio_asyncio.py:29-55 | of the futures still waiting exactly the accepted prefix goes to the kernel, in the order of their submission - nobody who still waits has an older one ahead that was turned away; each other one has the exception that tells why and a claimable Operation; done ones are filtered out and untouched |
| AioAdapter.AsyncioContext.FailFrom | caio/linux_aio_asyncio.py:47-55 | exactly the futures of the rejected suffix get the exception, once each |
| AioAdapter.AsyncioContext.OnReadEvent | caio/linux_aio_asyncio.py:69-87 | terminates with the kernel going on, each turn with an allocation and an answer of its own; ends well exactly if no turn it makes fails, and then, from a kernel that gives events while it has some, no event is left, whatever had completed is done, and everything else accepted is still with the kernel; when a turn fails, everything released by the turns before has its future done, and a failing first turn changed nothing |
| AioAdapter.AsyncioContext.CancelTask | caio/asyncio_base.py:54-61 | resolves only the future of the cancelled task; its Operation is released, alone and with its result, exactly if the kernel has the request and yields it |
| AioAdapter.AsyncioContext.NobodyIsForgotten | caio/linux_aio_asyncio.py:16-64 | between handlers each unresolved future is pending with a submit scheduled, with the kernel or waiting to be collected; failed ones are claimable, successful ones done, none is resolved twice |
| LockProtocol.StepKeeps | caio/python_aio.py:97-170 | every step at lock granularity keeps exclusion, slot counts and stages |
| LockProtocol.SlotsConserved | caio/python_aio.py:97-170 | `_in_progress` equals the claimed but unreleased Operations of the Context and stays within the limit; each Operation is scheduled and called at most once across Contexts |
| LockProtocol.NothingLeaks | caio/python_aio.py:113-170 | whenever no thread is in a call, the occupied slots of a Context are exactly its jobs in the pool, and whatever was ever scheduled is such a job or had its callback |
| LockProtocol.RollbackRestores | caio/python_aio.py:101-111 | by the time a failed scheduling is undone the claim is untouched, and the undo gives back exactly that claim and slot |
| LockProtocol.NoClaimAfterClose | caio/python_aio.py:145-154 | once a Context is closed no run claims anything for it |
| LockProtocol.NoDeadlock | caio/python_aio.py:141 | with the Operation's lock taken before the Context's, some thread can always go on |
| PythonAio.Process.ClaimSection | caio/python_aio.py:141-154 | under both locks: in progress, closed, full in the order the code tests them; only a claim that succeeds changes flag and slot |
| PythonAio.Process.Await | caio/python_aio.py:141 | waiting for a lock ends, whatever the other threads do: its holders can leave, and the waiter's own Operation stays untouched |
| PythonAio.Process.Execute | caio/python_aio.py:113-170 | with other threads submitting, closing and finishing between its steps: scheduled once and for this Context, or refused for a reason that holds, with nothing left of the attempt; alone, each outcome exactly in its case |
| PythonAio.Process.Submit | caio/python_aio.py:232-242 | among other threads: each Operation counted was scheduled by this call and no other; alone: the batch's claims in order up to the first refusal, with nothing changed in any Operation but the flag of those |
| PythonAio.Process.Finish | caio/python_aio.py:126-135 | the slot is given back and the callback comes once; `get_value` raises exactly what the handler raised, and otherwise gives what it returned for a write, the buffer for a read and nothing for a sync; the claim stays |
| PythonAio.Process.Close | caio/python_aio.py:254-261 | the Context is closed afterwards, whoever closed it |
| FdLocks.StepKeeps | caio/python_aio.py:179-203 | with the registry dropping unreferenced entries, everybody working on a descriptor shares one lock |
| FdLocks.StepRefines | caio/python_aio.py:193-203 | the transfer under the lock does one operation at the offset asked for, and returns its result; no other step touches a file or returns anything |
| FdLocks.PositionalExact | caio/python_aio.py:193-203 | such an operation gets the bytes of the file from the offset on as far as it goes, or puts its bytes there, keeping every other byte and filling a gap with zeros; no other file changes |
| FdLocks.ReadBack | caio/python_aio.py:193-203 | what was written at an offset is what is read there |
| FdLocks.EmulatedIsPositional | caio/python_aio.py:179-203 | every interleaving has the files and results of atomic positional operations, and no two threads are between lock and unlock on one descriptor |
| Backpressure.OverfillExact | caio/asyncio_base.py:43-62 | from any state, a run without further early leavers in which the backend is asked for more than the permits exists if and only if some Operation is loose |
| Backpressure.HeldNeverOverfills | caio/asyncio_base.py:50-62 | while every outstanding Operation has its holder, no such run asks for too much, deferred batches included |
| AioPressure.NeverTooMuch | caio/linux_aio_asyncio.py:29-55 | in every run of adapter and Context, while each kernel request and each uncollected event has its holder: these and the batch asked for fit into the permits |
| AioPressure.AskTooMuchExact | caio/linux_aio.c:344 | in every state of every run: a run without further early leavers asks the kernel for more than the permits if and only if a loose request is with it, or is finished with the permits not all held for later finished ones |
| AioPressure.NoneLooseUnlessLoosened | caio/asyncio_base.py:50-62 | in every such run in which no task leaves early no Operation is loose |
| AioPressure.EveryAdapterRunHappens | caio/asyncio_base.py:50-62 | whatever tasks, submissions and callbacks the adapter can go through, it can go through with this backend |
| AioPressure.LooseOverfillsTheKernel | caio/asyncio_base.py:54-61 | from any reachable state with a loose Operation in the kernel, a run of both without further early leavers asks the kernel for more than the permits |
| AioPressure.CancelledTaskOverfills | caio/asyncio_base.py:54-61 | one permit: the cancelled task's request fills the kernel while the next is asked for |
| PoolPressure.NeverFull | caio/src/threadpool/threadpool.c:168-183 | in every run of adapter, Context, pool and workers, while each queued Operation has its holder, a submitting holder finds a place in the queue, whatever is loose with the workers |
| PoolPressure.RefusalExact | caio/src/threadpool/threadpool.c:168-183 | in every state of every run: a run without further early leavers ends with a holder's submit refused by a full queue if and only if the Context is not being closed and a loose Operation is queued |
| PoolPressure.LooseGetsRefused | caio/asyncio_base.py:54-61 | from any reachable state with a loose Operation in the queue and the Context not being closed such a run exists |
| PoolPressure.NoneLooseUnlessLoosened | caio/asyncio_base.py:50-62 | in every run in which no task leaves early no Operation is loose |
| PoolPressure.CancelledTaskOverfills | caio/asyncio_base.py:54-61 | one permit: the cancelled task's Operation fills the queue, and the next submit is refused |
| PythonPressure.NeverFull | caio/python_aio.py:126-154 | in every run of adapter, threads and Contexts, while each slot's Operation has its holder, a claiming holder finds a slot |
| PythonPressure.LimitExact | caio/python_aio.py:149-152 | in every state of every run: a run without further early leavers ends with a holder's claim meeting the limit if and only if a loose Operation's slot can stay and some thread can go on meanwhile |
| PythonPressure.LooseJobOverfills | caio/asyncio_base.py:54-61 | from any reachable state with no thread in a call, the Context open and a loose Operation's job in the pool, such a run exists |
| PythonPressure.NoneLooseUnlessLoosened | caio/asyncio_base.py:50-62 | in every run in which no task leaves early no Operation is loose |
| PythonPressure.CancelledTaskOverfills | caio/python_aio.py:149-152 | one permit: the cancelled task's job keeps the slot, and the next claim meets the limit |
| UringPressure.NeverFull | caio/linux_uring.c:988-999 | in every run of adapter, Context and kernel what holders stage fits into a ring with an entry for each permit, next to the stray entries in it |
| UringPressure.NeverFullUnlessLoosened | caio/asyncio_base.py:50-62 | in every run in which no task leaves early it fits without more, and no Operation is loose |
| UringPressure.OverflowExact | caio/linux_uring.c:988-999 | in every state of every run: a run without further early leavers ends with a holder finding the ring full if and only if more stray entries are staged than the ring has entries beyond the permits |
| UringPressure.CancelEntriesOverfill | caio/linux_uring.c:1150-1171 | three permits and a ring of four: with every Operation called back and none ever loose, two cancel entries are enough for that |
| UringPressure.RaisedSubmitOverfills | caio/asyncio_base.py:50-52 | one permit and a ring of two: two submits that raise after staging leave their entries, and the next task finds the ring full |
| TimedWait.BudgetExact | caio/linux_uring.c:1268-1272 | the truncated budget is at most 0 once the deadline has passed, is off by less than a millisecond, and exactly when it ends early |
| TimedWait.Wait | caio/linux_uring.c:1235-1309 | it leaves at the first turn with a reason - enough completions, a failing call, a deadline that has passed or is less than a millisecond away; every poll before it sleeps for good exactly without a deadline, and else for the time left to within a millisecond, or INT_MAX |
| TimedWait.LeavesByDeadline | caio/linux_uring.c:1264-1296 | with a deadline every sleep is positive and ends less than a millisecond before or after it, or lasts INT_MAX milliseconds; it leaves no later than the first clock check at or past the deadline |

## Left out

- Operation structs are records in a map from address to record that the methods update, not separate heap objects; an Operation's buffer, repr and constructor checks are not part of this model: a fresh Operation has a zero error code, and for Linux AIO its iocb names its request already.
- Which handler the Python engine runs for an opcode; a platform without fdatasync, where the pool calls fsync instead.
- Weak memory ordering: atomic loads, stores and exchanges are steps of one order.
- mmap layout, ring setup and its flag fallback, kernel probes: the entry count is a power of two and the counters start at zero.
- File contents and kernel scheduling, except in FdLocks: a result is whatever the kernel answers.
- Failing pthread calls, a second destroy of one pool, and a Context whose last reference is dropped by its own worker.
- Two threads flushing one ring at once; a blocking process_events beside an eventfd reader; the `min_requests` of a wait counts raw entries, as the code does.
- CloseProtocol.CloseReturnsDone: without an interpreter lock another Context's rollback has a late store of NULL; there it is the one step `GiveBackElsewhere`, so the reference clause leaves out what HandoverRace says of an Operation that two Contexts share.
- Several Contexts sharing Operations: in the protocol modules (steps `ClaimElsewhere` and `GiveBackElsewhere`), in RollbackRace and HandoverRace, and in LockProtocol and PythonAio; the methods of the other classes run with no foreign claim in between.
- UringAdapter.AsyncioContext.CancelOp: says when a flush still comes, but the code ignores a failing enter, and so does the caller.
- UringAdapter.AsyncioContext.DeferredFlush: a failing enter raises in a bare loop callback and leaves the entries in the ring with no flush scheduled.
- UringContext.Context.KernelSignal: how the kernel coalesces signals is free; it owes one after the last completion it posted.
- ThreadAio.Context.RunTask: an opcode that the Python API cannot construct (THAIO_NOOP) returns without publishing or calling back; readers that run between two of the worker's stores are in Outcomes.
- ThreadAio.Context.Submit: the class is a build with an interpreter lock, which only its holder's thread and its callbacks use; free-threaded builds are in CloseProtocol (`gil` false) and HandoverRace.
- ThreadAio.Context.Close: called from a worker's callback it would join itself; CloseProtocol lets only Python threads close.
- FdLocks.EmulatedIsPositional: descriptors duplicated from each other share an offset in the kernel; every descriptor has its own here. `__fd_lock` and the transfers are steps on values, since the property spans threads.
- UringPressure.OverflowExact: the ring has any number of entries from the permits on; the code asks the kernel for one more than the permits, which rounds up to a power of two.
- PythonPressure.LimitExact: a task does not leave while its own `submit` is in the middle of a claim, since that call is synchronous.
- Backpressure.OverfillExact: the coroutine `submit` is a sequence of steps on values, since the property is about tasks interleaving between its awaits; the future itself is resolved in AioAdapter only.
- PythonAio.Process.Execute: the locks are not objects; `threads` tells who is where, and a `with` block is one step, taken as its lock is left. Contexts are records in a map, as Operations are.
- AioAdapter.AsyncioContext.OnReadEvent: the eventfd counter of Linux AIO and its `poll` are not modelled; the callbacks of a `process_events` call resolve their futures right after it, in the order of the events.
- TimedWait.Wait: the eventfd read inside the loop has no effect on when it leaves.
- LinuxAio.Context.KernelGetEvents: blocking for a timeout; what it returns is any prefix of the finished requests.
- The asyncio adapters of the two thread-pool backends beyond the semaphore; resubmitting one Operation through an adapter.
- `caio/__init__.py`, abstract classes, stubs, benchmarks and setup scripts.
