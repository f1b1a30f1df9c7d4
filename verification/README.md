# Verification of the two-core OCaml layer

This project models the concurrent and arithmetic core of a small operating layer that runs OCaml 5 on a two-core
microcontroller, and proves what that core is relied on for. The whole project can be checked with

    dafny verify dfyconfig.toml

The program text is modelled at its own grain: the same branches, error paths and constants. Where the source updates
state in place, a class does so here and every method is tied to a specification function; where several activities
interleave, there is a step relation with one shared access per step, and the theorems quantify over every run of it.

## What is modelled

**The Pio fiber scheduler** (`pio.ml`): `Promises`, `Pio`, `PioSafety`, `PioOutcomes`, `PioLiveness`, `PioPolling`,
`PioScheduler`. The scheduler is a step relation. A turn polls the I/O waiters and runs the first closure of the queue;
a running fiber performs one effect per step until it suspends, returns or raises. Nested calls of the scheduler take
the same turns as the outer loop, so the relation is flat. A fiber body is any sequence of effects within its budget,
chosen step by step, where a fork hands part of the budget to the child; socket answers are arbitrary.
`PioScheduler.Scheduler` is the same system as an object with a mutable queue, a table of mutable promise objects, a
waiter list and switch counters. The main theorems: each suspended continuation has exactly one holder and `Tcp_close`
is the only way to lose one; a resumed fiber is told the outcome of the very poll, read, fork, resolve or fail that
ended its wait, over any run in between; the run queue is served in order; an I/O wait that nothing serves lasts through
a thousand polls and no longer than one more; every run comes to rest in a bounded number of steps; what is left at rest
is characterised exactly; programs that await along a well-founded order complete.

**The pthread layer** (`ocaml_stubs.c`): `Locks`, `LocksProof`, `LocksCalls`, `MutexLayer`, `CondVar`, `Lifecycle`,
`LifecycleRuns`, `Heap`, `Memalign`. The mutex routines, the release and reacquire inside `pthread_cond_wait`, the
clean-up of core 1 and stop-the-world servicing share one machine in which each core has a stack of activations at an
instruction each; the handler may call any of these routines again. `LocksProof` says what holds at every instant,
`LocksCalls` what each call has done when it is back, whatever the other core and the handlers did meanwhile. Condition
variables are modelled for any number of threads. Launching and relaunching core 1 is a third machine, with the first
lines of `core1_wrapper` as separate steps. The heap machine interleaves `_sbrk` sections and the bytes of `memset` from
both cores. The SDK's mutexes are atomic primitives with an owner and a depth that an exit lowers whoever calls it, and
memory is sequentially consistent; the barriers in the source are there to provide that.

**The network buffers** (`net_stubs.c`) and the HTTP client that reads them (`hello.ml`): `EventRing`, `TcpStream`,
`Http`. An event is copied into and out of the ring word by word. The receive buffer is compacted in place.

**Integer arithmetic** (`hello.ml`, `clock.ml`): `OCamlInt`, `Primes`, `Clock`. OCaml integers have 31 bits here and
wrap; division truncates.

`Sums`, `Lists` and `Arithmetic` hold general facts.

## Where the source does not do what it says

- The fiber count of a switch counts the main fiber once, but each resumed segment of the main fiber is wrapped in
  `main_handler` again, so its `retc` decrements the count one extra time per segment (`pio.ml:499-511`).
  `PioSafety.MainSwitchCountExactIff` says exactly when the count is right.
- `pthread_join` can return before the new body has begun: `core1_wrapper` announces itself before it clears the
  `core1_finished` of the previous job (`ocaml_stubs.c:541-542`). `Lifecycle.JoinWaitsForLatestBodyIff` gives the exact
  condition, `LifecycleRuns.JoinOvertakesStart` a run from power-on. In the same window a further create can replace the
  job: `Lifecycle.LaunchIsSafeIff` gives the exact condition and `LifecycleRuns.JobLost` a run, and this is why the
  other results assume that no launching create begins in the window.
- The read probe of the scheduler passes a maximum length of 0 (`pio.ml:186`), so data that has arrived never makes it
  positive; a reader is woken by closure or timeout only (`TcpStream.ProbeSeesClosureOnly`,
  `TcpStream.DataDoesNotWakeReader`).
- The table that tracks held mutexes is described as being for `pthread_cond_wait` (`ocaml_stubs.c:230`); it is core 1's
  clean-up that uses it, and `pthread_cond_wait` releases the one mutex it was passed.
- The elapsed time of the clock is exact for less than 2^30 ms only (`Clock.ElapsedExactIff`); beyond that it can be
  negative and leave the digit table, exactly as `Clock.FrameInTableIff` says (`Clock.CounterWrapLeavesTable` is an
  instance).
- In `count_primes_up_to` the products `d * d` wrap for arguments from 32767 * 32767 on, yet the count stays right for
  every argument below the largest integer, on which the loop does not end (`Primes.CountPrimesUpTo`,
  `Primes.LoopLeavesIff`).
- `mmap` of more than 0x7FFFFFF8 bytes becomes a negative increment (`ocaml_stubs.c:669-670`); `Heap.MmapServesIff` says
  which lengths are served.

## Model

| member | source | states |
|---|---|---|
| Promises.WakersConserved | pio.ml:105-122 | over any sequence of resolve, fail and add_waiter: wakers stored before plus wakers added = wakers stored after plus wakers enqueued, as multisets |
| Promises.SettledNeverChanges | pio.ml:105-122 | a settled promise keeps its state through every later history, and every waker added later is enqueued at once, in order |
| Promises.FirstSettleWins | pio.ml:105-117 | a pending promise ends up with the payload of the first resolve or fail of its history, or is still pending if there is none |
| Promises.WakersRunNewestFirst | pio.ml:105-122 | settling enqueues the wakers newest first, each exactly once |
| Promises.Promise.Resolve | pio.ml:105-110 | the mutable promise and the run queue end up as the specification says: settled and wakers enqueued, or nothing at all |
| Promises.Promise.Fail | pio.ml:112-117 | likewise for the exception |
| Promises.Promise.AddWaiter | pio.ml:119-122 | a pending promise gains one waker at the head of its list; a settled one enqueues it |
| Promises.RunQueue.TakeOpt | pio.ml:444 | takes the oldest element, or reports an empty queue and changes nothing |
| PioSafety.StepKeepsInv | pio.ml:179-448 | every step keeps: one holder per live continuation, closures that agree with the fibers and promises they mention, exact counts |
| PioSafety.ContinuationLinearity | pio.ml:119-122 | in every reachable state the continuation of a fiber that has neither ended nor been dropped is held exactly once by the queue, an I/O waiter, a pending promise or the running context; that of an ended or dropped fiber nowhere |
| PioSafety.ResumeIsOneShot | pio.ml:372-387 | a resumed fiber was suspended, runs with the outcome of its promise, with unit, or with one of the outcomes its socket operation can have (`PioOutcomes.WaiterGetsItsOutcome` says which), and its number of resumptions grows by one |
| PioSafety.OnlyCloseDrops | pio.ml:293-297 | a step loses a fiber's continuation if and only if it is a Tcp_close on a socket that an I/O waiter of that fiber names |
| PioSafety.WakersSeeSettledPromises | pio.ml:378-382 | in every reachable state each queued promise waker belongs to a settled promise, so failwith "Promise still pending" is unreachable |
| PioSafety.SettledForever | pio.ml:105-117 | no step of any run changes a settled promise |
| PioSafety.AwaiterGetsOutcome | pio.ml:372-405 | from the end of a Fork_promise fiber to whoever awaits it, over any run in between: a fiber resumed from that promise gets Ok of what the owner returned or Error of what it raised |
| PioSafety.FiberCountsExact | pio.ml:353-371 | in every reachable state the count of each switch is its base plus its forked fibers that have neither returned nor raised, minus what the main fiber has spent |
| PioSafety.MainSwitchCountExactIff | pio.ml:471-511 | the count of the main switch equals unfinished forked fibers plus the unfinished main fiber if and only if no resumed segment of the main fiber has ended |
| PioOutcomes.WaiterGetsItsOutcome | pio.ml:179-292 | from the poll that takes a waiter off the list, over any run, to the turn that ends its wait: ready gives a connect its socket and a read what its closure then reads (n > 0 the bytes, -2 Socket_closed, else Network_error); not ready gives a connect Connection_timeout and a read Network_error |
| PioOutcomes.NetworkAnswers | pio.ml:225-292 | which connects and reads go on at once and with which value or exception; every other one waits, at the head of the list and with 1000 polls to go |
| PioOutcomes.AwaitAnswers | pio.ml:372-383 | awaiting a promise goes on at once with its value or its exception if it was ever settled, and otherwise suspends the fiber with its waker stored |
| PioOutcomes.SettlesNamedPromise | pio.ml:105-117 | resolve and fail settle the promise they name, if it is pending, with the given payload, enqueue its wakers, change no other promise and answer with unit |
| PioOutcomes.SettlingReachesAwaiter | pio.ml:105-122 | from a resolve or fail, over any run, to whoever is resumed from awaiting that promise: it gets that value or that exception |
| PioOutcomes.ForkAnswersChildsPromise | pio.ml:366-371 | Fork_promise answers with a fresh pending promise, which is that of the child it queues for ever after |
| PioOutcomes.ForkAwaitRoundTrip | pio.ml:366-405 | from the fork over any run to the child's end and over any run to an awaiter: it gets Ok of what the child returned or Error of what it raised, unless somebody else settled the promise first |
| PioOutcomes.OtherAnswers | pio.ml:293-387 | Promise.create answers with a fresh pending promise, Fork with unit and its child on the queue, Yield goes to the end of the queue to be continued with unit, Tcp_close with unit and exactly its socket's waiters off the list |
| PioPolling.PollPartitions | pio.ml:179-202 | one poll sends every waiter to exactly one place: kept one poll older, woken, or timed out with readiness winning; the result lists come out in reversed order |
| PioPolling.WaitsAreBounded | pio.ml:189-200 | after more than 1000 polls a waiter of the same wait is gone, whatever the sockets answered and the other fibers did |
| PioPolling.WaitsLastThousandPolls | pio.ml:189-200 | a waiter that no poll finds ready and whose socket is not closed is still on the list, as many polls older, through its first 1000 polls, over any run |
| PioPolling.ServedInOrder | pio.ml:442-447 | first come, first served: what is queued is executed before anything queued later, in queue order, and all of it within as many turns as there are closures |
| PioLiveness.StepPays | pio.ml:179-448 | every step of a system not at rest strictly lowers a natural measure of effects left, queued closures, stored wakers and polls left per waiter |
| PioLiveness.RunsAreBounded | pio.ml:442-453 | a run that has not come to rest before its end is at most as long as the measure of its first state |
| PioLiveness.NeverStuck | pio.ml:442-453 | in every state of the invariant some step is enabled, whatever the sockets answer |
| PioLiveness.RestLasts | pio.ml:448-453 | a system at rest stays exactly as it is through every further run |
| PioLiveness.AtRest | pio.ml:119-122 | at rest an unfinished fiber was dropped by a close or its waker is in the list of a pending promise |
| PioLiveness.RestIsCompleteIff | pio.ml:366-383 | at rest every forked fiber has finished if and only if none was dropped and some rank decreases along "awaits the Fork_promise promise of" |
| PioLiveness.DisciplinedProgramsComplete | pio.ml:366-383 | if forked fibers await only promises of lower-ranked fibers and no close hits a waiting one, then at rest every forked fiber has finished, normally or by an exception, and its promise is settled |
| PioScheduler.Scheduler.CheckIoCompletions | pio.ml:179-202 | the fold over the waiter list, in place, is one poll of the specification |
| PioScheduler.Scheduler.TakeTurn | pio.ml:442-447 | poll, take and run one closure, in place, is one scheduler turn of the step relation |
| PioScheduler.Scheduler.HandlePromise | pio.ml:372-387 | the Await and Yield handlers and the promise operations take the abstract state where the step relation says |
| PioScheduler.Scheduler.HandleForkPromise | pio.ml:366-371 | a fresh promise, one count, one Start closure, and the promise as the answer |
| PioScheduler.Scheduler.HandleFork | pio.ml:361-365 | one count and one Start closure; or a fresh promise |
| PioScheduler.Scheduler.HandleNet | pio.ml:225-297 | the connect, read and close handlers with every error branch |
| PioScheduler.Scheduler.EndFiber | pio.ml:397-405 | retc and exnc: own promise settled, count lowered once, back to the scheduler |
| PioScheduler.Scheduler.Step | pio.ml:351-453 | any enabled action, in place, is a step of the relation, and only this object's own footprint changes |
| PioScheduler.Scheduler.RunUntilRest | pio.ml:442-453 | for any answers of the world and any effects, returns and exceptions of the fibers the loop ends, at rest, by a run of the relation of at most as many steps as the measure |
| PioScheduler.Scheduler.NextAction | pio.ml:351-358 | the action taken is the scheduler's turn or what the running fiber chose: its effect, its return or its exception |
| LocksProof.StepKeepsInv | ocaml_stubs.c:62-87 | every instruction of either core, the handler's own calls included, keeps the bookkeeping and service invariant of both |
| LocksProof.BooksRefineOwnership | ocaml_stubs.c:257-303 | over all interleavings held_counts equals the recursion depth, off by exactly one between the SDK call and the update, and the held_mutexes bit is set if and only if the count is positive, except where the code is updating it and in the slots the clean-up has reached |
| LocksProof.ExitsAreByOwner | ocaml_stubs.c:293 | in every reachable state a core about to call recursive_mutex_exit, in unlock, pthread_cond_wait, a service call or the clean-up, owns that mutex |
| LocksProof.NeverBothCounted | ocaml_stubs.c:257-303 | both cores record the same mutex only while one is between releasing it and taking it off its books |
| LocksProof.DecrementGuardHolds | ocaml_stubs.c:295-299 | the guard before the decrement never fails for an owner |
| LocksProof.StepSparesOtherCore | ocaml_stubs.c:257-303 | no instruction of one core changes the other core's books or what it owns, because exits, which the SDK does not check, are by owners |
| LocksProof.CleanUpReleasesEverything | ocaml_stubs.c:546-553 | when core 1's clean-up is done core 1 owns no mutex and its counts and mask are empty |
| LocksProof.OneHandlerUnderItsLock | ocaml_stubs.c:62-87 | each core has at most one handler frame, exactly while handling_stw is set, and holds its domain lock then |
| LocksProof.ServiceRestores | ocaml_stubs.c:62-87 | at every instant of any run of both cores with a balanced handler a service call is under way or has returned with everything restored |
| LocksProof.ServiceCallRestores | ocaml_stubs.c:62-87 | a whole service call, from the queued interrupt to its return through any run of both cores, leaves caml_state, the flag and the depth of the domain lock as it found them; what it does in between is in `LocksCalls.ServiceServesIff` |
| LocksCalls.ServiceServesIff | ocaml_stubs.c:62-87 | on every run from a queued interrupt to the return of the service call the handler runs, with the flag set and caml_state set to the domain's state, if and only if the trylock found the domain lock free or the core's own |
| LocksCalls.ServiceBeginsIff | ocaml_stubs.c:62-73 | a service call gets as far as the trylock if and only if an interrupt is queued, no handler is running on the core and there is a domain lock; otherwise it changes nothing |
| LocksCalls.EnterTakesIff | ocaml_stubs.c:263 | an enter takes the mutex if and only if it is free or the core's own when the instruction runs; otherwise lock stays at its loop, trylock returns, and nothing else changes |
| LocksCalls.LockReturns | ocaml_stubs.c:257-272 | pthread_mutex_lock, over any interleaving and any handlers: back at the caller the core owns the mutex with exact books, one deeper than before if the handlers left that depth alone |
| LocksCalls.TryLockReturns | ocaml_stubs.c:273-286 | pthread_mutex_trylock, over any interleaving: back at the caller the depth is one higher if the mutex was free or the core's own at the enter instruction and unchanged otherwise, the books exact |
| LocksCalls.UnlockReturns | ocaml_stubs.c:288-303 | pthread_mutex_unlock, over any interleaving: back at the caller the depth is one lower and the books are exact |
| LocksCalls.WaitReturns | ocaml_stubs.c:429-489 | pthread_cond_wait, over any interleaving and any handlers: it comes to its loop with the mutex one less deep, returns only after it has seen the generation changed, and then owns the mutex with exact books, as deeply as at the call if the handlers left that depth alone |
| LocksCalls.CallsProgress | ocaml_stubs.c:62-87 | outside the loop of cond_wait and the handler itself, each instruction of a call brings it nearer to its end or ends it, unless the call is blocked by the other core |
| LocksCalls.WaitsEnd | ocaml_stubs.c:79-80 | a handler that has returned lets its service call go on to restore the saved state, and a waiting call that sees the generation changed goes on to reacquire its mutex, each one instruction nearer to its end |
| MutexLayer.TryLockRun | ocaml_stubs.c:273-286 | an undisturbed trylock is a run of the two-core machine: mutex entered, bit set and count raised, or nothing changed |
| MutexLayer.UnlockRun | ocaml_stubs.c:288-303 | an undisturbed unlock is a run of the machine: mutex exited, count lowered, bit cleared when it reaches zero |
| MutexLayer.Mutexes.TryLock | ocaml_stubs.c:273-286 | over the static arrays: succeeds if and only if the mutex is free or the caller's, and ends where that run ends |
| MutexLayer.Mutexes.Unlock | ocaml_stubs.c:288-303 | over the static arrays: the depth falls by one, and the state ends where that run ends |
| MutexLayer.Mutexes.CleanUpCore1 | ocaml_stubs.c:546-553 | from any state of the invariant the nested clean-up loops are a run of the machine, leave core 1 owning nothing with empty books, and leave core 0's books and all it owns untouched |
| MutexLayer.RestingBooks | ocaml_stubs.c:231-232 | between calls the books are exact: count equals depth, bit set if and only if owned |
| CondVar.WakesIffSignalled | ocaml_stubs.c:439-464 | the exit test of a registered thread is true if and only if some signal or broadcast ran its locked section since it registered, for any number of threads |
| CondVar.TestLeavesIff | ocaml_stubs.c:455-464 | the test that a waiting thread makes after any run takes it out of the loop if and only if a signal or broadcast ran since it registered, and otherwise leaves everything as it is |
| CondVar.LeavingReturns | ocaml_stubs.c:458-488 | a signalled thread is back in its own code after three moves of its own at most, one per stage it has left, whatever the others do in between, owning the mutex as deeply as at its call |
| CondVar.LeavingCanMove | ocaml_stubs.c:458-488 | such a thread can make its next move at once, except that the last waits until the mutex can be entered |
| CondVar.SignalledThreadReturns | ocaml_stubs.c:429-489 | end to end: registered, signalled since, three more moves of its own, and it is out of pthread_cond_wait with the depth it came with |
| CondVar.EverySignalCounts | ocaml_stubs.c:490-512 | while a thread is registered each signal and broadcast raises the generation by exactly one |
| CondVar.ReadyStaysReady | ocaml_stubs.c:458 | once true the exit test stays true |
| CondVar.SignalUnderMutexWakes | ocaml_stubs.c:429-512 | a signal by a thread that holds the mutex finds every thread inside pthread_cond_wait registered, and makes its exit test true, or already past its loop, as POSIX.1-2017 requires; `CondVar.LeavingReturns` takes it from there |
| CondVar.WaitersExact | ocaml_stubs.c:441-461 | waiters always equals the number of threads registered and not yet deregistered |
| CondVar.WaitRestoresDepth | ocaml_stubs.c:474-486 | a thread leaves pthread_cond_wait owning the mutex exactly as deeply as when it called |
| CondVar.OneCheckPerHundred | ocaml_stubs.c:454-472 | any 100 consecutive iterations service interrupts exactly once, across the counter reset too |
| CondVar.WaitLoop | ocaml_stubs.c:454-472 | the loop counter and the number of checks after n iterations |
| CondVar.Record.Register | ocaml_stubs.c:440-443 | reads the generation and raises waiters in one locked section |
| CondVar.Record.Signal | ocaml_stubs.c:495-498 | raises the generation only if someone waits |
| CondVar.Record.Broadcast | ocaml_stubs.c:506-509 | raises the generation |
| Lifecycle.StepKeepsInv | ocaml_stubs.c:539-617 | every step of either core keeps the launch protocol's invariant |
| Lifecycle.ResetHitsParkedCore | ocaml_stubs.c:584-588 | a reset hits only a core 1 that is parked and owns no mutex |
| Lifecycle.EachJobRunsOnce | ocaml_stubs.c:563-604 | the k-th body core 1 enters is the job of the k-th even-numbered create; none is skipped or entered twice |
| Lifecycle.JobStartsClean | ocaml_stubs.c:539-593 | each body starts with core 1 owning no mutex and all its TLS slots NULL, and is the job of the call that launched it |
| Lifecycle.JoinWaitsForLatestBodyIff | ocaml_stubs.c:605-617 | a whole join of thread 2, begun in any reachable state, returns only with the latest body returned, cleaned up and owning nothing, if and only if it is not begun while core1_finished is set although the latest body has not begun |
| Lifecycle.JoinAfterEntry | ocaml_stubs.c:605-617 | a join begun after the latest body has begun, or while the flag is clear, returns only when that body is done |
| Lifecycle.JoinCanOvertakeStart | ocaml_stubs.c:539-545 | at every relaunch there is a run in which a join returns before the new body begins |
| LifecycleRuns.JoinOvertakesStart | ocaml_stubs.c:539-617 | such a run from power-on, for any two jobs |
| Lifecycle.LaunchIsSafeIff | ocaml_stubs.c:578-581 | a launching create in a reachable state keeps every later body the job of its own call if and only if it is not begun in the start window |
| LifecycleRuns.WindowReached | ocaml_stubs.c:540-545 | both halves of the start window are reached from power-on with a launching create next |
| LifecycleRuns.JobLost | ocaml_stubs.c:578-581 | a run from power-on, for any two different jobs, on which the first body core 1 enters is the second job |
| Lifecycle.Core1SparesCore0 | ocaml_stubs.c:546-553 | in every reachable state nothing core 1 does, its clean-up by counts included, changes what core 0 owns |
| Lifecycle.CleanUpIsBounded | ocaml_stubs.c:546-560 | over every run without a reset core 1 takes at most as many further steps as the measure of its clean-up, is never stuck before, and is parked with its flag set after that many, whatever core 0 does |
| Lifecycle.WaitersReturn | ocaml_stubs.c:584-611 | after that many steps of core 1 a waiting join returns and a waiting create goes on at core 0's next step |
| EventRing.DeliversInOrder | net_stubs.c:60-90 | in every interleaving dequeued events are a prefix of the accepted ones, whole and in order, and at most size - 1 are pending |
| EventRing.NeverTheSameSlot | net_stubs.c:69-85 | the slot being written is never the slot being read |
| EventRing.ChecksAreExact | net_stubs.c:65-83 | an enqueue is refused if and only if size - 1 events are pending when it checks, and a get finds nothing if and only if none is |
| EventRing.PublishesTheEvent | net_stubs.c:69-87 | each side publishes exactly the event it was given, respectively the oldest pending one |
| EventRing.MaskIsRemainder | net_stubs.h:62-63 | the index mask is the remainder by the queue size, for every 32-bit index |
| EventRing.Ring.Enqueue | net_stubs.c:60-74 | undisturbed: one more pending event, or -1 and nothing changed, exactly when the ring is full |
| EventRing.Ring.Get | net_stubs.c:77-90 | undisturbed: the oldest pending event, or 0 and nothing changed, exactly when there is none |
| TcpStream.StreamLaw | net_stubs.c:231-239 | for every interleaving of segments and reads: buffered and accepted bytes = returned bytes followed by what is still buffered |
| TcpStream.ReceiveKeepsPrefix | net_stubs.c:231-239 | a segment extends the buffer by its first bytes, to the length of both together or to 4096 |
| TcpStream.ReadTakesAllItCan | net_stubs.c:369-394 | a read takes the first bytes, as many as there are and fit; -2 stands for none of a closed socket |
| TcpStream.DeliveredIsPrefixOfSent | net_stubs.c:231-239 | up to and including the first segment that did not fit, the bytes returned followed by those buffered are a prefix of the bytes sent |
| TcpStream.NothingLostIff | net_stubs.c:233-238 | accepted equals sent if and only if every segment fitted in the room there was |
| TcpStream.EndOfStreamExact | net_stubs.c:388-393 | a read with room returns -2 if and only if the socket is closed and every accepted byte has been returned |
| TcpStream.ProbeSeesClosureOnly | pio.ml:185-187 | the zero-length probe consumes nothing and reports ready if and only if the socket is closed |
| TcpStream.DataDoesNotWakeReader | pio.ml:185-187 | after any history the probe is ready if and only if the connection events alone have left the socket closed, whatever data arrived and is buffered |
| TcpStream.MoveDown | net_stubs.c:380-382 | memmove of the rest to the front of the same buffer |
| TcpStream.Connection.ReceiveSegment | net_stubs.c:231-239 | the array gains the first bytes of the segment, as many as there is room for (`TcpStream.ReceiveKeepsPrefix`) |
| TcpStream.Connection.Read | net_stubs.c:369-394 | copies out, compacts the buffer in place and returns the count or -2 |
| Http.SessionKeepsBytes | hello.ml:16-27 | chunks read so far followed by the buffer are the bytes there were followed by the bytes accepted, through direct reads, suspended reads and timeouts |
| Http.ReadOutcome | hello.ml:16-27 | a read of the client adds a chunk of all that is buffered, up to 4096 bytes, whenever something is; otherwise it ends with Socket_closed if and only if the socket is closed, and on an open one waits, or fails if it had been woken or timed out |
| Http.ReadAllIsTheStream | hello.ml:16-27 | a read_all ended by Socket_closed returns, concatenated, exactly the accepted bytes, and the socket is closed then; however it ended, a prefix of them |
| Http.ConcatChunks | hello.ml:30-38 | the blits into one buffer produce the concatenation of the chunks |
| Http.FindsFirst | hello.ml:43-48 | the search finds the end of the first separator at or after its start, or the end of the text |
| Http.BodyFollowsFirstSeparator | hello.ml:41-51 | the body is exactly what follows the first CR LF CR LF |
| Http.NoSeparatorNoBody | hello.ml:41-51 | without a separator the body is empty |
| Heap.BlocksNeverOverlap | ocaml_stubs.c:168-200 | over every interleaving of both cores, every block ever granted lies in the heap, any two are disjoint, and the lengths of all add up to how far the break has moved |
| Heap.ZeroingTouchesNoOtherBlock | ocaml_stubs.c:670-673 | zeroing a mapped block changes no byte of any other granted block |
| Heap.MappedMemoryIsZero | ocaml_stubs.c:670-673 | when the memset ends every byte of the block is zero, whatever the other core and the owners of other blocks did meanwhile |
| Heap.RefusedIffNoRoom | ocaml_stubs.c:174-199 | in every reachable state a request is refused, and changes nothing, if and only if it does not fit below the heap limit; otherwise it grants exactly one block of the size asked for, at the break |
| Heap.MmapServesIff | ocaml_stubs.c:667-675 | of the lengths that are not refused, the block has room for the request if and only if the length is at most 0x7FFFFFF8 |
| Heap.OversizedMmapMovesBreakBack | ocaml_stubs.c:667-675 | a length beyond that for which the break moves backwards |
| Heap.Allocator.Sbrk | ocaml_stubs.c:168-200 | for every increment: previous break and new break, or -1 and an unmoved break |
| Heap.Allocator.Mmap | ocaml_stubs.c:661-676 | MAP_FIXED is echoed; otherwise the new block is zero and every other byte of RAM is as before, or nothing changed |
| Memalign.MaskRoundsDownIff | ocaml_stubs.c:653 | masking with ~(a - 1) rounds every word down to a multiple of a if and only if a is a power of two |
| Memalign.AlignedBlockInside | ocaml_stubs.c:646-657 | for every power-of-two alignment that does not wrap the address is a multiple of the caller's alignment and of a word, and the stored pointer and the caller's bytes lie inside the malloc block without overlapping |
| Memalign.RoomIff | ocaml_stubs.c:648 | for every alignment that is a power of two or below a word, the malloc request is at least the caller's size if and only if it did not wrap |
| Memalign.PosixMemalign | ocaml_stubs.c:646-657 | ENOMEM and untouched memory, or a pointer that is a multiple of the caller's alignment and of a word, inside the malloc block, with exactly one word of memory changed, to the malloc pointer |
| Primes.Check | hello.ml:87-91 | trial division is sound and complete and ends, although d * d leaves the 31-bit range |
| Primes.CountPrimesUpTo | hello.ml:83-98 | the count equals the number of primes at most n, for every n below the largest integer |
| Primes.LoopLeavesIff | hello.ml:94-98 | the counting loop ends if and only if n is not the largest integer |
| Clock.RawIsTimeOfDay | clock.ml:57-62 | 15616 in place of 2^24 keeps every intermediate value in 31 bits and the remainder modulo a day intact, for all 2^32 timestamps |
| Clock.DecodeIsCorrect | clock.ml:57-64 | the decoded time of day, recombined, is the timestamp plus the offset modulo a day |
| Clock.SplitRecombine | clock.ml:64 | splitting a second of the day gives a time of day that recombines to it |
| Clock.RecombineSplit | clock.ml:213 | and conversely |
| Clock.TimeMsWraps | pico_main.c:98-101 | the counter OCaml sees is the millisecond clock wrapped to 31 bits |
| Clock.ElapsedExactIff | clock.ml:151 | the wrapped difference is the true elapsed time if and only if that is below 2^30 ms |
| Clock.DaySecsExact | clock.ml:149-152 | within that bound the second shown is base plus elapsed seconds modulo a day |
| Clock.FrameIsExact | clock.ml:148-152 | over every interleaving of the sync loop and the display, a frame shows the base of some synchronisation plus the time since one that is at most one older, for torn pairs too |
| Clock.TornFrameStaysInTable | clock.ml:154-164 | even a torn pair keeps every table index and both seconds characters in range |
| Clock.IndicesInTableIff | clock.ml:111-122 | every table access of a frame is in range if and only if the time shown is later than 60 seconds before midnight |
| Clock.DigitsSpellTime | clock.ml:154-164 | for every second of the day the four digits and the two seconds characters, read as hours, minutes and seconds, are that second |
| Clock.GlyphShowsPattern | clock.ml:87-122 | row r, column c of a digit shows entry 3r + c of that digit's pattern, the blank entry as a space |
| Clock.FramesTellTheTime | clock.ml:148-164 | two frames with the same cells, whatever they were drawn over and with or without the colon, show the same second of the day |
| Clock.DaySecsShown | clock.ml:149-152 | the second shown for every base in the day, synchronisation and time, however often the counter has wrapped |
| Clock.FrameInTableIff | clock.ml:111-164 | the exact condition on base, synchronisation and time under which every table access of a frame is in range |
| Clock.TornPairsReached | clock.ml:149-214 | runs from power-on to a base read with the moment before its own and to a base read with a later moment |
| Clock.SharedTime.Publish | clock.ml:209-214 | an answered query publishes the timestamp's second of the day and the moment |
| Clock.Display.DrawDigit | clock.ml:111-122 | the loops draw the digit's twelve cells and no other |
| Clock.Display.ShowTime | clock.ml:154-164 | a frame writes the digits, the colon and the seconds to exactly their cells and no other |

## Left out

- Switch.run: its clean-up functions, its exit and `main_scheduler` are not modelled; the scheduler's decision to stop when `fibers` is 0 and no waiter is left is not either, so a run goes on until nothing can change.
- Fiber.both and Fiber.all, and nested `Switch.run`: their tasks run outside any handler.
- Wi-Fi, TCP write, UDP and DNS effects answer at once; they appear as effects with an arbitrary immediate answer, and their sleeps and polls are left out.
- Wakers added by user code through `Promise.add_waiter` directly; only the wakers of `Await` are modelled in the scheduler, while the promise theorems hold for any wakers.
- Names of switches, `on_release`, `finished` and text payloads of exceptions.
- The closing of a socket by the timeout of a connect; socket numbers are arbitrary integers, so reuse of a number is allowed in the scheduler and excluded in `TcpStream`, which follows one open connection.
- PioSafety.FiberCountsExact: keeps the main fiber's share of the count separate, because its extra decrements make it wrong; `PioSafety.MainSwitchCountExactIff` says when it is right.
- PioLiveness.RunsAreBounded: counts an effect budget per fiber; a fiber that performs effects for ever never comes to rest, and time inside an effect is not counted.
- LocksProof.BooksRefineOwnership: takes `held_mutexes` as the set of its one bits and mutex handles as valid and initialised; initialising and running out of handles (`ocaml_stubs.c:234-256`) is left out. Unlock and `pthread_cond_wait` are called by an owner.
- LocksCalls.LockReturns: a handler that runs while a lock spins, or in `pthread_cond_wait`, may change the depth of any mutex but the domain lock, so the exact depth at the return is stated for handlers that leave the depth of the mutex being taken alone.
- LocksProof.ServiceRestores: assumes that the handler returns the domain lock as deep as it found it; what it does to the OCaml heap is outside the model, and each core's domain lock and domain state are fixed.
- CondVar.WakesIffSignalled: takes the generation as an unbounded integer; 2^32 signals during one wait are not modelled.
- CondVar, Lifecycle and the interleavings of Locks are machines on values, because their point is interleaving; what each routine does to the real fields is in CondVar.Record and MutexLayer.Mutexes. A blocking lock exists in the machine only, since undisturbed it either enters at once or spins.
- Lifecycle.EachJobRunsOnce: assumes that creates are called on core 0 and that no even-numbered one begins while core 1 is between announcing itself and reading its job; `Lifecycle.LaunchIsSafeIff` shows that the assumption is exact. There the body locks and unlocks in one step, update of the count included; the instants in between are in Locks.
- Heap.BlocksNeverOverlap: covers non-negative increments, and mmap lengths up to 0x7FFFFFF8, after the mutex is initialised; beyond these the break can move backwards (`Heap.OversizedMmapMovesBreakBack`). An allocator that shrinks the heap is not modelled.
- Memalign.PosixMemalign: takes malloc's answer as given, a block inside the address space or NULL; newlib's malloc is not part of this model.
- EventRing: one producer and one consumer, with sequentially consistent memory in place of the barriers; what the event types mean is left out.
- TcpStream: pbuf chains are byte sequences, and the lock around the copies makes each of them one step; reads after `socket_free` and several sockets are left out.
- UDP receive, whose datagrams coalesce, and the conversion of IP addresses through 31-bit integers, which loses the top bit.
- `net.ml`, `lcd.ml`, the backlight, the custom characters, printing, system call stubs, linker script and build files; the display has its twenty columns and four rows but not its controller.
- Sleeping, wall-clock speed and fairness between the cores.
