# Concurrency models for the example collection

This project models the concurrent and hand-written runtime parts of the
repository in Dafny and proves what they promise. Run `dafny verify dfyconfig.toml`
to check everything. Constants of the demos (limit 30, two workers, six jobs,
four producers, 250 messages, mailbox capacity 16) are parameters here, so every
statement covers all of their values.

| file | what it models |
|---|---|
| `Primes.dfy`, `Sieve.dfy`, `SieveRuns.dfy` | the concurrent prime sieve: generator, a filter chain that grows at run time, the tail that reads and extends it, and the close cascade |
| `Task.dfy` | `task<T>`: coroutine frames, continuation pointers, symmetric transfer, frame counting, against a plain recursive evaluator |
| `EventLoop.dfy` | trees of tasks that also sleep and yield, started and then run by the scheduler |
| `Ownership.dfy` | who owns which frame when wrappers are created, moved, assigned and destroyed, with wrappers living inside frames |
| `Clocks.dfy`, `Scheduler.dfy` | the event loop: ready queue, timer queue, sleep and yield, and the round-robin demo |
| `Delegates.dfy`, `DelegateLaws.dfy` | the multicast delegate with listeners that add, remove, expire objects and broadcast again during a broadcast; what that means for a single listener |
| `Workers.dfy`, `WorkerPool.dfy`, `FanIn.dfy` | the write-all-then-read-all worker pool, and fan-out/fan-in with a closer |
| `Sums.dfy`, `Mpsc.dfy`, `GenServer.dfy` | many producers with a counting consumer, and the counter server with calls and casts |
| `Chat.dfy`, `ChatNetwork.dfy` | the chat room actor and what each session should see; room, sessions and writers as processes over bounded channels |
| `Framing.dfy` | newline framing between the counter client and server |
| `Options.dfy` | a value that may be missing |
| `Fibonacci.dfy` | the wrapping C++ generator and the saturating Rust loop |

## How to read the models

- **Networks of processes** (sieve, pool, fan-in, producers, counter server, chat network) are
  step relations: `Enabled` says which steps the suspended processes allow,
  `Apply` what a step does, and a run is any sequence of enabled steps. Where a
  send and a receive meet on an unbuffered channel that is one step. Theorems
  speak about all runs; the methods named `Run` follow one run under an
  arbitrary scheduler, chosen with `:|`.
- **Objects that update their fields** (`task`, the delegate, the scheduler, the
  room, the generator, the wrappers) are classes whose methods are proved
  against specification functions over their state.
- **Channels** are bounded FIFO queues: a full send and an empty receive
  suspend, capacity 0 is a rendezvous, and closing leaves buffered values
  readable and then fails receives
  (boost-asio-example/source/modules/csp_channel/csp_channel.cpp:26-39 and 121-143).
- **Task trees** are code values: a finite tree of computation, branching,
  return, throw, sleep, yield and await, where an await carries both what
  follows a value and what catches an exception. Loops in a coroutine body
  appear unrolled. A sleep may find its time already come and go on at once.
- **Listeners** are any finite execution: a broadcast comes with what each
  listener does if it is called, nested broadcasts included, so nesting needs no bound.

## What turned out to need a condition

- *Moving wrappers.* Move assignment `dst = std::move(src)` works for every
  pair except when one wrapper lives inside the tree of the other's frame
  (`Ownership.MoveAssignSafeIff`). If `src` lives in `dst`'s tree, `destroy()`
  has already destroyed it when its handle is read; if `dst` lives in `src`'s
  tree, a frame ends up owning itself and is never freed. So the rule "each
  frame is freed exactly once" holds for exactly the assignments that
  `Ownership.Safe` describes. Two coroutine calls are enough to fail
  (`Ownership.MakeNested`, `Ownership.MoveAssignCanFail`). Move construction
  has the second half of that condition (`Ownership.MoveConstructSafeIff`).
- *Resetting the counters.* `frame_stats::reset()` leaves them right exactly
  when no frame is alive (`Ownership.Runtime.Reset`).
- *Results capacity.* The worker pool finishes in every run if and only if there
  is nothing to do, or there is a worker and jobs <= capacity + workers
  (`WorkerPool.FinishesIffFits`); the comment at
  cobalt-example/source/spawn_channel.cpp:278 asks for more than is needed.
- *No worker.* Fan-in with jobs but no worker closes the merged channel at once
  and its dispatcher waits for ever (`FanIn.EveryRunDelivers` states both cases).
- *Commands over the wire.* A command reaches the server unchanged exactly when
  it has no newline, does not end in a carriage return and is not `quit`
  (`Framing.CommandArrives`).
- *RemoveAll.* The comment says it removes every binding of the object
  (delegate-example/source/delegate.hpp:498); the code asks `IsBoundToObject`,
  which is false for a binding whose target has expired, so such bindings stay
  until the next broadcast. The model follows the code
  (`Delegates.WithoutObjectMembers`). The documented promise is kept exactly
  when none of the object's bindings has expired
  (`Delegates.RemoveAllIsCompleteIff`), and a single expired one breaks it
  (`Delegates.RemoveAllCanMiss`).
- *Empty chat room.* With no expected sessions the room still waits for a first
  message, which nobody sends (`Chat.NobodyExpected`), so it never returns
  (`Chat.RoomActor`, and the same for the whole network in
  `ChatNetwork.EveryRunFinishes`).
- *Waiting tasks.* `sync_wait` is meant for tasks that never wait for the
  scheduler. It gives the right outcome whenever its assertion holds, and the
  assertion can fail only for a tree that sleeps for a positive time or yields
  (`Task.SyncWait`).

## Model

| member | source | states |
|---|---|---|
| SieveRuns.AlwaysPrintsFirstPrimes | boost-asio-example/source/modules/csp_sieve/csp_sieve.cpp:86-99 | at every moment of every interleaving the printed numbers are exactly the first primes, ascending, with one filter spawned per prime |
| SieveRuns.EveryRunCompletes | boost-asio-example/source/modules/csp_sieve/csp_sieve.cpp:53-103 | no run is longer than a bound in the limit; a run that cannot go on has reached the one final state, and all complete runs take the same number of steps |
| SieveRuns.FinalPrintsAllPrimes | boost-asio-example/source/modules/csp_sieve/csp_sieve.cpp:101-102 | when everyone has returned the printed list is all primes up to the limit |
| SieveRuns.FinalIsOutcome | boost-asio-example/source/modules/csp_sieve/csp_sieve.cpp:53-103 | the network is confluent: whatever the schedule it ends in one state, with every channel closed once and every stream fixed |
| Sieve.StuckOnlyWhenFinal | boost-asio-example/source/modules/csp_sieve/csp_sieve.cpp:66-71 | no deadlock: some step is possible if and only if some process has not returned |
| Sieve.StepKeepsInv | boost-asio-example/source/modules/csp_sieve/csp_sieve.cpp:53-100 | sends, receives, growing the chain and closing keep: each filter's output plus the value in its hands is its input without multiples, every channel closes when its writer returns |
| Sieve.TailReadsLeastSurvivor | boost-asio-example/source/modules/csp_sieve/csp_sieve.cpp:88-98 | what reaches the tail is the least number no earlier filter stops |
| Sieve.StreamPrefix | boost-asio-example/source/modules/csp_sieve/csp_sieve.cpp:63-76 | what has crossed the i-th channel is a prefix of the numbers the first i primes do not divide, in order |
| SieveRuns.NeverSendsOnClosed | boost-asio-example/source/modules/csp_sieve/csp_sieve.cpp:58-74 | no process is ever about to send on a closed channel |
| SieveRuns.OneWriterOneReader | boost-asio-example/source/modules/csp_sieve/csp_sieve.cpp:83-99 | every channel has one writer and one reader at all times, although the reader of the chain's end changes from the tail to a filter |
| SieveRuns.DiscardedByLeastFactor | boost-asio-example/source/modules/csp_sieve/csp_sieve.cpp:72-74 | what the i-th filter receives after its prime and does not forward is exactly the numbers up to the limit whose least divisor >= 2 is that prime |
| SieveRuns.EveryCompositeDiscarded | boost-asio-example/source/modules/csp_sieve/csp_sieve.cpp:63-76 | every composite up to the limit is discarded by some filter |
| SieveRuns.DiscardedByOne | boost-asio-example/source/modules/csp_sieve/csp_sieve.cpp:63-76 | no two filters discard the same number |
| SieveRuns.StreamsNeverRepeat | boost-asio-example/source/modules/csp_sieve/csp_sieve.cpp:63-76 | no number crosses a channel twice, so its filter discards it once |
| SieveRuns.OutcomeStreams | boost-asio-example/source/modules/csp_sieve/csp_sieve.cpp:63-76 | which numbers each filter reads over a complete run |
| SieveRuns.StepDoesOneUnit | boost-asio-example/source/modules/csp_sieve/csp_sieve.cpp:53-100 | each step moves one value, closes one channel or ends the tail |
| SieveRuns.WorkIsBounded | boost-asio-example/source/modules/csp_sieve/csp_sieve.cpp:53-100 | a reachable state has done at most a bounded amount of work |
| SieveRuns.Run | boost-asio-example/source/modules/csp_sieve/csp_sieve.cpp:79-112 | under an arbitrary scheduler the sieve prints, ascending, exactly the numbers from 2 to the limit that are no product of two numbers >= 2, and counts them |
| Primes.SieveOrderIsPrimes | boost-asio-example/source/modules/csp_sieve/csp_sieve.cpp:72-98 | always taking the least number that earlier filters let through enumerates the primes without gap |
| Primes.LeastSurvivorIsPrime | boost-asio-example/source/modules/csp_sieve/csp_sieve.cpp:72 | such a number is no product of two numbers >= 2 |
| Primes.PassesIffNoMultiple | boost-asio-example/source/modules/csp_sieve/csp_sieve.cpp:72 | the remainder test keeps back exactly the multiples of the filter's number |
| Primes.PrimeIffPassesAllBelow | boost-asio-example/source/modules/csp_sieve/csp_sieve.cpp:72 | a number is prime exactly if it passes the test of every smaller number >= 2 |
| Primes.NothingLeftIsComplete | boost-asio-example/source/modules/csp_sieve/csp_sieve.cpp:90-103 | once the generator's range is used up, no prime in it was missed |
| Task.SyncWait | stackless-coroutine/source/coro/task.hpp:214-220 | for every finite tree of tasks, if the root is done after starting it, the caller gets the value or exception plain calls would give, no frame is left, nothing yielded and at least the time it sleeps has passed; it is done whenever the tree neither yields nor sleeps for a positive time, and a task done before gives its stored outcome |
| Task.Resume | stackless-coroutine/source/coro/task.hpp:93-150 | control comes back to whoever resumed with the root done and its outcome right, or with one coroutine of the tree paused at the end of an intact chain; transfers, frames, allocations and yields are counted exactly, and no sleep is cut short |
| Task.Slice | stackless-coroutine/source/coro/task.hpp:93-147 | one transfer pushes a fresh child on the chain of continuations, takes the finished task off, or pauses the running one, and keeps the chain from the root to the running task |
| Task.PauseIn | stackless-coroutine/source/coro/scheduler.hpp:37-73 | a coroutine that hands itself to the scheduler leaves the chain of its waiters as it was |
| Task.PauseIsAhead | stackless-coroutine/source/coro/scheduler.hpp:46-49 | a tree without sleeps and yields never ends up paused |
| Task.RunToSuspension | stackless-coroutine/source/coro/scheduler.hpp:42-43 | plain code, and a sleep that is already due, change nothing about the outcome still to come |
| Task.SleepReady | stackless-coroutine/source/coro/scheduler.hpp:43-58 | the due time is a clock reading plus the duration, and the sleep goes on without suspending exactly if a later reading has reached it |
| Task.AwaitSuspend | stackless-coroutine/source/coro/task.hpp:142-147 | awaiting makes the child remember its waiter and transfers control to the child |
| Task.AwaitResume | stackless-coroutine/source/coro/task.hpp:149 | the waiter gets its child's value or rethrown exception and lets go of the child's frame |
| Task.Finish | stackless-coroutine/source/coro/task.hpp:97-103 | the outcome is stored and control goes to the waiter, or to nobody for the root |
| Task.Pushed | stackless-coroutine/source/coro/task.hpp:142-147 | a chain extended by a fresh child is a chain again, whose tasks compute what their waiters expect |
| Task.Popped | stackless-coroutine/source/coro/task.hpp:97-103 | when the last task is done the rest is a chain again, with its waiter next to run |
| Task.WaitersLeadToRoot | stackless-coroutine/source/coro/task.hpp:97-146 | the chain is acyclic: continuation pointers lead from any live task through each of its waiters once to the root and end there |
| Task.DeepChain | stackless-coroutine/source/coro/task.hpp:77-80 | a value or exception passes unchanged through a chain of awaits of any depth |
| Task.CatchRuns | stackless-coroutine/source/coro/task.hpp:31-38 | an exception that comes out of an await chain of any depth enters the catch block, which sees the frame's values and the exception |
| Task.NextRuns | stackless-coroutine/source/coro/task.hpp:149 | a value that comes out of an await chain of any depth goes on after the await beside the frame's values |
| Task.PlainStatements | stackless-coroutine/source/coro/task.hpp:26-29 | what return, throw, branching and waiting do to the outcome |
| Task.PauseNeeds | stackless-coroutine/source/coro/scheduler.hpp:42-68 | a yield always suspends, a sleep for exactly its duration if that is positive |
| Task.RetryGives | stackless-coroutine/source/coro/task.hpp:31-38 | a body that awaits attempts in nested catch blocks delivers the first that succeeds, or the last failure |
| Task.RetryNow | stackless-coroutine/source/coro/task.hpp:214-220 | the coroutine machine delivers the same for that body and leaves no frame |
| Task.AsyncSumAdds | stackless-coroutine/source/examples.cpp:39-53 | the demo coroutine returns the sum after awaiting two children |
| Task.Task.Start | stackless-coroutine/source/coro/task.hpp:183-188 | starting runs an unstarted task to its end in 1 + 2 * (tasks created) transfers, or to a pause of one of its coroutines if it has any; an empty or done one is left alone |
| EventLoop.RunTasks | stackless-coroutine/source/examples.cpp:71-118 | any number of tasks with any trees of awaits, sleeps and yields, started in order and run by the scheduler: each ends with the outcome of plain calls without waiting, not before the time it sleeps in all; sleepers are resumed in (due, registration) order, each by its own timer, never early; every round resumes one coroutine, at least once for every yield; nobody is left waiting and no child frame is left |
| EventLoop.Loop.Advance | stackless-coroutine/source/coro/task.hpp:93-147 | a task that runs again leaves every other task's chain, outcome and account untouched, and does not get ahead of its sleeps |
| EventLoop.FirstHasRested | stackless-coroutine/source/coro/scheduler.hpp:89-97 | whoever is first in the ready queue has slept until its due time |
| EventLoop.Loop.StartAll | stackless-coroutine/source/examples.cpp:82-83 | every started task is done or has exactly its last coroutine in the queues, once |
| EventLoop.Loop.Park | stackless-coroutine/source/coro/scheduler.hpp:45-73 | a paused coroutine goes into the timer queue under the due time it computed, or to the back of the ready queue |
| EventLoop.Loop.Proceed | stackless-coroutine/source/coro/task.hpp:93-147 | a task that runs on from its last coroutine is done or back in the queues once; all others keep their place |
| EventLoop.Loop.ResumeFirst | stackless-coroutine/source/coro/scheduler.hpp:93-97 | the front of the ready queue runs on, and one pause is used up |
| EventLoop.Loop.AwaitReady | stackless-coroutine/source/coro/scheduler.hpp:84-92 | with nobody ready the loop sleeps until the earliest timer and then somebody is |
| EventLoop.Loop.Run | stackless-coroutine/source/coro/scheduler.hpp:81-99 | the loop ends with both queues empty after one resumption per round |
| Task.Task.Destroy | stackless-coroutine/source/coro/task.hpp:196-202 | the frame is released once and the wrapper is empty |
| Ownership.MoveAssignSafeIff | stackless-coroutine/source/coro/task.hpp:168-175 | move assignment keeps the ownership forest if and only if neither wrapper lives in the tree of the other's frame (self-assignment is fine); it reads a destroyed wrapper exactly if the source lives in the target's tree |
| Ownership.MoveAssignCanFail | stackless-coroutine/source/coro/task.hpp:168-175 | both failures happen: with a wrapper inside another's frame, one direction reads a destroyed wrapper, the other makes a frame unreachable |
| Ownership.MakeNested | stackless-coroutine/source/coro/task.hpp:155-158 | two coroutine calls produce that pair |
| Ownership.MoveConstructSafeIff | stackless-coroutine/source/coro/task.hpp:163-166 | move construction keeps the forest if and only if the new wrapper is outside the tree of the source's frame |
| Ownership.TakenIsForest | stackless-coroutine/source/coro/task.hpp:163-174 | exchanging a handle into an empty wrapper keeps every frame reachable from outside unless the receiver lives in that frame's tree |
| Ownership.NothingLeaks | stackless-coroutine/source/coro/task.hpp:155-177 | when no wrapper is left outside the frames no frame is left |
| Ownership.DestroyedIsForest | stackless-coroutine/source/coro/task.hpp:196-202 | what destroying a frame leaves is an ownership forest, and the wrapper survives, empty |
| Ownership.Runtime.Create | stackless-coroutine/source/coro/frame_stats.hpp:46-52 | a coroutine call allocates one new frame, owned by the returned wrapper, and counts it |
| Ownership.Runtime.Destroy | stackless-coroutine/source/coro/task.hpp:196-202 | exactly the frames in the tree are freed, with the wrappers living in them, whatever the order |
| Ownership.Runtime.Delete | stackless-coroutine/source/coro/frame_stats.hpp:54-58 | a frame is freed and counted once |
| Ownership.Runtime.Drop | stackless-coroutine/source/coro/generator.hpp:104 | a destructor releases the wrapper's whole tree |
| Ownership.Runtime.MoveConstruct | stackless-coroutine/source/coro/generator.hpp:90-93 | the new wrapper has the frame, the old one none, nothing is freed or allocated |
| Ownership.Runtime.MoveAssign | stackless-coroutine/source/coro/generator.hpp:95-102 | a safe assignment frees the target's tree and moves the source's frame; wrappers keep distinct live frames and the counter stays exact |
| Ownership.Runtime.EndScopes | stackless-coroutine/source/coro/frame_stats.hpp:20-26 | once all outside wrappers are gone every frame ever allocated has been freed exactly once and the live count is 0 |
| Ownership.Runtime.Reset | stackless-coroutine/source/coro/frame_stats.hpp:29-34 | the counters stay right if and only if no frame is alive |
| Scheduler.TimersWakeInOrder | stackless-coroutine/source/coro/scheduler.hpp:43-49 | over any whole run of any coroutines, the coroutines resumed after sleeping are resumed in ascending (due, registration) order of their own timers and never early |
| Scheduler.StepIsFifo | stackless-coroutine/source/coro/scheduler.hpp:70-97 | the ready queue is first in, first out: due handles and yielding ones go to the back, the front is resumed |
| Scheduler.RunIsFifo | stackless-coroutine/source/coro/scheduler.hpp:70-97 | over any run, what became ready earlier is resumed earlier |
| Scheduler.RegisterKeepsOrder | stackless-coroutine/source/coro/scheduler.hpp:43-49 | a timer registered while not yet due comes after all that have fired: the guard is what makes the order global |
| Scheduler.StepKeeps | stackless-coroutine/source/coro/scheduler.hpp:81-117 | every event keeps fired and pending timers sorted as one list and the reasons in the ready queue right |
| Scheduler.InsertSorted | stackless-coroutine/source/coro/scheduler.hpp:108-117 | adding a timer keeps (due, seq) order and loses nothing |
| Scheduler.Scheduler.Run | stackless-coroutine/source/coro/scheduler.hpp:81-99 | every round of the loop resumes exactly one coroutine; it ends with both queues empty, all coroutines finished, all timers fired in order, and every coroutine having logged all its rounds in order |
| Scheduler.Scheduler.Drain | stackless-coroutine/source/coro/scheduler.hpp:89-92 | every due timer moves over and no other; their handles follow the ready ones in (due, registration) order |
| Scheduler.Scheduler.Resume | stackless-coroutine/source/examples.cpp:65-100 | a resumed coroutine does its operations in order up to its next suspension: it logs what they log, passes no yield and no sleep before its time, and waits in the right queue with the right due time |
| Scheduler.Scheduler.ResumeFirst | stackless-coroutine/source/coro/scheduler.hpp:93-97 | resuming the front either finishes that coroutine or leaves it waiting in a queue, and total work drops |
| Scheduler.Scheduler.AddTimer | stackless-coroutine/source/coro/scheduler.hpp:114-117 | a timer not yet due is queued in (due, seq) order under the next sequence number |
| Scheduler.Scheduler.SleepAwait | stackless-coroutine/source/coro/scheduler.hpp:42-49 | a coroutine suspends on a registered timer exactly when the clock is still before its due time |
| Scheduler.StepCountsHandles | stackless-coroutine/source/coro/scheduler.hpp:81-117 | registering and yielding add a handle once, resuming takes one out, firing and time change none |
| Scheduler.Scheduler.SleepFor | stackless-coroutine/source/coro/scheduler.hpp:55-58 | the due time is a first clock reading plus the duration; the coroutine suspends on a timer for that time exactly when a later reading is still before it |
| Scheduler.Scheduler.RunOp | stackless-coroutine/source/examples.cpp:65-68 | a sleep, yield or log line of a coroutine has exactly its effect on the queues and the log |
| Scheduler.Scheduler.YieldAwait | stackless-coroutine/source/coro/scheduler.hpp:70-73 | a yielding coroutine goes to the back of the ready queue |
| Scheduler.RotationIsRoundRobin | stackless-coroutine/source/examples.cpp:92-118 | rotating a ready queue of workers yields the rounds one after the other, for any round counts |
| Scheduler.LogMembers | stackless-coroutine/source/examples.cpp:92-118 | that log has every round of every worker once, sorted by (round, start index) |
| Scheduler.RoundMembers | stackless-coroutine/source/examples.cpp:97-100 | a round has each worker that reaches it once, in start order |
| Scheduler.RestOfRound | stackless-coroutine/source/examples.cpp:97-100 | within a round the workers that reach it log in start order |
| Scheduler.RoundRobin | stackless-coroutine/source/examples.cpp:105-118 | N started workers run by the loop log every round of every worker, exactly sorted by (round, start index) |
| Delegates.BroadcastCalls | delegate-example/source/delegate.hpp:536-544 | a broadcast's own calls are, ascending and without repetition, exactly the snapshot slots still registered and bound at their turn |
| Delegates.GoneMeansNotCalled | delegate-example/source/delegate.hpp:399-400 | a listener removed or expired before its turn is not called |
| DelegateLaws.CalledIff | delegate-example/source/delegate.hpp:539-544 | a slot is called exactly if at its turn it is registered, something is bound in it, and the object it watches, if any, is alive |
| DelegateLaws.DeadFromTheStart | delegate-example/source/delegate.hpp:300-303 | an unbound slot, or one whose object is dead when the broadcast starts, is not called |
| DelegateLaws.SilencedListener | delegate-example/source/delegate.hpp:399-400 | a called listener that removes, clears or expires a later one keeps it from being called |
| DelegateLaws.UndisturbedIsCalled | delegate-example/source/delegate.hpp:536-544 | a listener no earlier one interferes with is called exactly if it could be called at the start |
| DelegateLaws.AddedIsCalled | delegate-example/source/delegate.hpp:409-415 | an added delegate is registered under the next handle beside the others, and the next broadcast calls it if it can be called |
| DelegateLaws.ClearSilences | delegate-example/source/delegate.hpp:511 | after Clear a broadcast calls nobody |
| DelegateLaws.NestedIsFull | delegate-example/source/delegate.hpp:536-548 | a broadcast started by a listener calls whom any other broadcast would |
| DelegateLaws.KeptIff | delegate-example/source/delegate.hpp:546-547 | after the last turn exactly the slots stay that can still be called |
| DelegateLaws.RemovedByObjectIff | delegate-example/source/delegate.hpp:306-309 | which slots RemoveAll takes out, bindings and lifetimes spelled out; none for a null object |
| Delegates.AfterBroadcast | delegate-example/source/delegate.hpp:545-548 | on return all slots are bound, handles ascend, and a remaining slot was called exactly if it was there at the start |
| Delegates.PresentEarlier | delegate-example/source/delegate.hpp:541 | a slot present and bound at a later turn was so at every earlier turn |
| Delegates.CallsAreDueHandles | delegate-example/source/delegate.hpp:539-544 | after i positions the calls made at this depth are the due handles among them; nested broadcasts log deeper |
| Delegates.BroadcastKeeps | delegate-example/source/delegate.hpp:536-548 | a broadcast, with anything its listeners do, never reuses a handle, brings back a slot or revives a target |
| Delegates.PerformKeeps | delegate-example/source/delegate.hpp:409-511 | so does every other operation: handles are unique and ascending |
| Delegates.WithoutHandleMembers | delegate-example/source/delegate.hpp:484-495 | removing by handle takes out that slot and no other |
| Delegates.WithoutObjectMembers | delegate-example/source/delegate.hpp:501-508 | removing by object takes out its live bindings and no other |
| Delegates.RemoveAllIsCompleteIff | delegate-example/source/delegate.hpp:497-508 | no binding of the object is left if and only if none of its bindings has expired |
| Delegates.RemoveAllCanMiss | delegate-example/source/delegate.hpp:306-309 | an expired binding stays |
| Delegates.OnlyBoundMembers | delegate-example/source/delegate.hpp:546-547 | cleaning up keeps exactly the bound slots, in order |
| Delegates.OnlyBoundTwice | delegate-example/source/delegate.hpp:523-529 | after a clean-up the count of bound slots is the count of slots |
| Delegates.MulticastDelegate.BroadcastNow | delegate-example/source/delegate.hpp:536-548 | the loop over the snapshot, with listeners changing the slots meanwhile, has the specified effect |
| Delegates.MulticastDelegate.Do | delegate-example/source/delegate.hpp:409-548 | each action of a running listener, nested broadcast included, has its specified effect |
| Delegates.MulticastDelegate.AddDelegate | delegate-example/source/delegate.hpp:409-415 | a new slot at the end under a fresh global handle |
| Delegates.MulticastDelegate.RemoveHandle | delegate-example/source/delegate.hpp:484-495 | the slot with that handle is erased; tells whether there was one |
| Delegates.MulticastDelegate.RemoveAllBoundTo | delegate-example/source/delegate.hpp:501-508 | live bindings of the object are erased; returns how many |
| Delegates.MulticastDelegate.Num | delegate-example/source/delegate.hpp:523-529 | expired bindings are not counted |
| Delegates.MulticastDelegate.HasHandle | delegate-example/source/delegate.hpp:559-565 | the any_of scan finds a handle exactly if a slot has it |
| WorkerPool.FinishesIffFits | cobalt-example/source/spawn_channel.cpp:274-297 | every run ends; it has collected every result once if there is room for all jobs (or none to do), and is stuck otherwise, whatever the schedule |
| WorkerPool.StuckStates | cobalt-example/source/spawn_channel.cpp:284-296 | a state nothing leaves is the finished one, or has the driver in its first loop and every worker blocked on a full results channel |
| WorkerPool.EnoughCapacityIsSafe | cobalt-example/source/spawn_channel.cpp:278 | the code's choice, capacity at least the number of jobs, is always safe |
| WorkerPool.OneWorkerInOrder | cobalt-example/source/spawn_channel.cpp:261-294 | results leave the channel first in, first out: a single worker's are collected in job order |
| WorkerPool.StepTally | cobalt-example/source/spawn_channel.cpp:261-286 | every job handed out is in one worker's hands, buffered or collected, once |
| WorkerPool.StepKeepsInv | cobalt-example/source/spawn_channel.cpp:257-297 | each step of driver and workers keeps that tally, the phases of the driver and the order of shutdown |
| WorkerPool.StepProgresses | cobalt-example/source/spawn_channel.cpp:257-297 | every step is progress towards a fixed bound |
| WorkerPool.Run | cobalt-example/source/spawn_channel.cpp:274-297 | under an arbitrary scheduler the demo finishes with all results exactly when they fit |
| FanIn.EveryRunDelivers | boost-asio-example/source/modules/csp_fanin/csp_fanin.cpp:58-112 | every run is bounded, and one that cannot go on has everyone finished and each job reported once, by the worker that took it; with jobs and no worker the dispatcher waits for ever |
| FanIn.StepKeepsSigned | boost-asio-example/source/modules/csp_fanin/csp_fanin.cpp:74-85 | every job is held, and reported, by the worker that took it |
| FanIn.NeverSendsOnClosed | boost-asio-example/source/modules/csp_fanin/csp_fanin.cpp:88-97 | the merged channel is closed once, after every worker has returned, and nobody sends on it afterwards |
| FanIn.StepConserves | boost-asio-example/source/modules/csp_fanin/csp_fanin.cpp:74-85 | every job handed out is in one worker's hands or reported, once |
| FanIn.StepKeepsInv | boost-asio-example/source/modules/csp_fanin/csp_fanin.cpp:58-112 | every step keeps that and the order of shutdown |
| FanIn.CanMove | boost-asio-example/source/modules/csp_fanin/csp_fanin.cpp:58-112 | no deadlock before everyone has finished |
| Workers.JobsOnce | cobalt-example/source/spawn_channel.cpp:284-286 | the jobs handed out are 1 to n, each once and nothing else |
| Workers.FullHands | cobalt-example/source/spawn_channel.cpp:261-270 | all workers hold a job exactly when as many jobs are held as there are workers |
| Mpsc.Run | boost-asio-example/source/modules/csp_mpsc/csp_mpsc.cpp:141-178 | for any producers, message count, capacity and schedule the consumer stops with no violation and every last number and count equal to the message count |
| Mpsc.NoViolationMeansInOrder | boost-asio-example/source/modules/csp_mpsc/csp_mpsc.cpp:159-164 | the consumer's check is exact: no violation is counted if and only if each producer's messages arrived as 1, 2, 3, ... |
| Mpsc.Consume | boost-asio-example/source/modules/csp_mpsc/csp_mpsc.cpp:149-165 | the arrays hold each producer's last number and message count, the counter the violations, for any input |
| Mpsc.StepKeepsInv | boost-asio-example/source/modules/csp_mpsc/csp_mpsc.cpp:141-158 | received and buffered messages together are what was sent, each producer's part in order |
| Mpsc.CanMove | boost-asio-example/source/modules/csp_mpsc/csp_mpsc.cpp:155-158 | no capacity, not even 0, gets the network stuck before the count is full |
| Mpsc.CompleteMeansAll | boost-asio-example/source/modules/csp_mpsc/csp_mpsc.cpp:147-158 | when the consumer has counted to the end nothing is left in the channel and no producer is still sending |
| Mpsc.StepAdvances | boost-asio-example/source/modules/csp_mpsc/csp_mpsc.cpp:141-158 | each step is progress towards a bound |
| GenServer.EveryRunFinishes | boost-asio-example/source/modules/actor_genserver/actor_genserver.cpp:69-127 | every run is bounded, and one that cannot go on has the server stopped, no message left, each midway value in range and the final value clients * total |
| GenServer.RepliesAreSums | boost-asio-example/source/modules/actor_genserver/actor_genserver.cpp:69-99 | each reply is the sum of the increments ahead of its call in mailbox order |
| GenServer.MidwayRange | boost-asio-example/source/modules/actor_genserver/actor_genserver.cpp:102-113 | a midway value counts the client's own first half and at most all increments of the others |
| GenServer.FinalValue | boost-asio-example/source/modules/actor_genserver/actor_genserver.cpp:116-125 | the orchestrator's reply counts every increment of every client |
| GenServer.CanMove | boost-asio-example/source/modules/actor_genserver/actor_genserver.cpp:69-127 | no deadlock for any mailbox capacity |
| GenServer.StepKeepsInv | boost-asio-example/source/modules/actor_genserver/actor_genserver.cpp:69-127 | every step keeps each client's messages in program order and the server's value and replies true to what it has handled |
| GenServer.StepAdvances | boost-asio-example/source/modules/actor_genserver/actor_genserver.cpp:69-127 | every step is progress towards a bound |
| GenServer.CounterServer | boost-asio-example/source/modules/actor_genserver/actor_genserver.cpp:69-90 | the loop handles everything up to the first stop, or all of it if the mailbox closes, and answers every call with the sum ahead of it |
| GenServer.ReplyIsAnswer | boost-asio-example/source/modules/actor_genserver/actor_genserver.cpp:83-84 | what the network model puts in a reply channel is what the loop sends |
| GenServer.TotalAdds | boost-asio-example/source/modules/actor_genserver/actor_genserver.cpp:81-82 | what a mailbox adds up to is the sum over its parts |
| GenServer.TotalOfOne | boost-asio-example/source/modules/actor_genserver/actor_genserver.cpp:81-82 | an increment counts its amount, a call or stop nothing |
| GenServer.AnswerAt | boost-asio-example/source/modules/actor_genserver/actor_genserver.cpp:83-84 | the n-th call is answered n-th, to its sender, with the sum ahead of it |
| GenServer.OneAnswerPerCall | boost-asio-example/source/modules/actor_genserver/actor_genserver.cpp:83-84 | there are as many answers as calls |
| Chat.OnlyMembersPost | boost-asio-example/source/modules/actor_chat/actor_chat.cpp:157-204 | sessions that join once, chat and leave once make the room hear leaves and chat lines only from current members, and only such sessions do |
| Chat.PostsTellMembership | boost-asio-example/source/modules/actor_chat/actor_chat.cpp:157-204 | a session is in the member table exactly between its join and its leave |
| Chat.SameOrderEverywhere | boost-asio-example/source/modules/actor_chat/actor_chat.cpp:87-135 | two messages that reach two members appear in the same order, and a chat line with the same text, at both |
| Chat.InboxIsRestriction | boost-asio-example/source/modules/actor_chat/actor_chat.cpp:98-134 | an inbox is the mailbox history restricted to what is addressed to its owner, in mailbox order |
| Chat.HearsInSendingOrder | boost-asio-example/source/modules/actor_chat/actor_chat.cpp:125-168 | what one session hears from another is an unbroken run of that session's lines, in its sending order |
| Chat.PositionsAreAddressed | boost-asio-example/source/modules/actor_chat/actor_chat.cpp:98-134 | nothing addressed to a member is missing |
| Chat.WhoHears | boost-asio-example/source/modules/actor_chat/actor_chat.cpp:125-134 | a chat line reaches exactly the current members other than its sender |
| Chat.NextLine | boost-asio-example/source/modules/actor_chat/actor_chat.cpp:98-134 | what each session is sent for a join, a leave and a chat line, word for word, and that nobody else is sent anything |
| Chat.ServedIsFinal | boost-asio-example/source/modules/actor_chat/actor_chat.cpp:137-140 | when everyone has joined and left no session can send anything more |
| Chat.ExitsWithEmptyMailbox | boost-asio-example/source/modules/actor_chat/actor_chat.cpp:137-140 | the room returns only with an empty mailbox |
| Chat.NobodyExpected | boost-asio-example/source/modules/actor_chat/actor_chat.cpp:87-96 | with no session expected nobody ever writes to the room |
| Chat.RoomActor | boost-asio-example/source/modules/actor_chat/actor_chat.cpp:87-142 | fed by any interleaving of sessions the room handles every message in order and returns exactly when all have come and gone |
| ChatNetwork.EveryRunFinishes | boost-asio-example/source/modules/actor_chat/actor_chat.cpp:87-204 | for any mailbox and inbox sizes every run of room, sessions and writers is bounded, and one that cannot go on has the room returned, every inbox closed and empty, every session having sent its peer's lines in order and written exactly the lines it should have seen |
| ChatNetwork.ScriptSays | boost-asio-example/source/modules/actor_chat/actor_chat.cpp:157-204 | a session joins, says its peer's lines in the order typed, and leaves |
| ChatNetwork.StepKeepsInv | boost-asio-example/source/modules/actor_chat/actor_chat.cpp:87-204 | every send, receive, close and return keeps: sessions follow their scripts, the room's table matches its history, what a session has got, will get and is being sent is what it should see |
| ChatNetwork.CanMove | boost-asio-example/source/modules/actor_chat/actor_chat.cpp:87-190 | no deadlock until everyone has finished, even with channels of size 0 |
| ChatNetwork.ReturnedMeansAllSent | boost-asio-example/source/modules/actor_chat/actor_chat.cpp:137-140 | once the room has returned its mailbox is empty, nobody has anything left to send and every inbox is closed |
| ChatNetwork.NeverSendsToClosed | boost-asio-example/source/modules/actor_chat/actor_chat.cpp:98-134 | at no moment is the room about to send to an inbox it has closed |
| ChatNetwork.NextIsLegal | boost-asio-example/source/modules/actor_chat/actor_chat.cpp:157-204 | whatever a session may send next is a join of a stranger or comes from a current member |
| ChatNetwork.StepAdvances | boost-asio-example/source/modules/actor_chat/actor_chat.cpp:87-204 | every step is progress |
| Chat.Room.Send | boost-asio-example/source/modules/actor_chat/actor_chat.cpp:100-110 | a line is appended to an inbox, which must not have been closed |
| Chat.Room.SendToAll | boost-asio-example/source/modules/actor_chat/actor_chat.cpp:127-134 | each member but the excepted one gets the line once |
| Chat.Room.OnJoin | boost-asio-example/source/modules/actor_chat/actor_chat.cpp:98-112 | the newcomer is welcomed, the members are told, and the inboxes match the history again |
| Chat.Room.OnLeave | boost-asio-example/source/modules/actor_chat/actor_chat.cpp:113-124 | the leaver is in the table, its inbox is closed once, the others are told |
| Chat.Room.OnSay | boost-asio-example/source/modules/actor_chat/actor_chat.cpp:125-135 | the line goes to the other members and nowhere else |
| Chat.Room.Handle | boost-asio-example/source/modules/actor_chat/actor_chat.cpp:91-140 | one round of the loop, and when it is the last |
| Framing.ServeConnection | raft-rpc/source/counter_server.cpp:190-219 | however recv splits the stream, the commands handled are the lines received before the peer is done or the stop flag is seen, up to the first quit or failed send, and only the unterminated tail stays pending |
| Framing.BeforeStopIsPrefix | raft-rpc/source/counter_server.cpp:194-198 | what is received is the chunks up to the first reading of the flag that says stop |
| Framing.HandleLines | raft-rpc/source/counter_server.cpp:201-216 | the inner loop handles every complete line in the buffer and leaves the rest |
| Framing.ServeMeaning | raft-rpc/source/counter_server.cpp:202-211 | the handled commands are the first lines, one trailing carriage return dropped, none of them quit |
| Framing.WhyServeStops | raft-rpc/source/counter_server.cpp:196-216 | it stops at quit, at a reply it cannot send, or when the lines are used up, and for no other reason |
| Framing.Conversation | raft-rpc/source/counter_server.cpp:199-216 | commands sent with LF or CR LF are exactly the commands handled: one carriage return goes, nothing else |
| Framing.QuitEnds | raft-rpc/source/counter_server.cpp:204-210 | quit, with LF or CR LF, ends the session, and nothing after it is handled |
| Framing.ReceivedInOrder | raft-rpc/source/counter_server.cpp:195-199 | the stream is the chunks one after the other, up to the first empty one |
| Framing.ReceivedWhole | raft-rpc/source/counter_server.cpp:195-199 | a chunk arrives as it is |
| Framing.LinesOfFramed | raft-rpc/source/counter_server.cpp:201-203 | framing and splitting are inverse for newline-free lines and tail |
| Framing.LinesCoverStream | raft-rpc/source/counter_server.cpp:199-203 | lines and tail together are the stream |
| Framing.LinesAreLines | raft-rpc/source/counter_server.cpp:201-203 | no line and no tail contains a newline |
| Framing.ReadReply | raft-rpc/source/counter_client.cpp:95-106 | the client returns what precedes the first newline however it is split, or nothing if none comes |
| Framing.ReplySurvives | raft-rpc/source/counter_client.cpp:95-106 | a newline-free reply is recovered exactly |
| Framing.CommandArrives | raft-rpc/source/counter_client.cpp:90-91 | a command is handled unchanged if and only if it has no newline, no trailing carriage return and is not quit |
| Fibonacci.Drain | stackless-coroutine/source/examples.cpp:16-27 | draining the generator gives Fib(k) modulo 2^64 for every k below the count, then false |
| Fibonacci.Generator.Next | stackless-coroutine/source/coro/generator.hpp:110-123 | true with the next value while there is one, false from then on |
| Fibonacci.Generator.Resume | stackless-coroutine/source/examples.cpp:21-27 | one resumption reaches the next yield or the end |
| Fibonacci.WrappedSum | stackless-coroutine/source/examples.cpp:25 | wrapping sums stay the true Fibonacci numbers modulo 2^64 |
| Fibonacci.RustFibonacci | rust-ffi/rust/src/lib.rs:30-38 | the saturating loop returns min(Fib(n), 2^64 - 1) |
| Fibonacci.ExactUpTo93 | rust-ffi/rust/src/lib.rs:30-38 | both implementations are exact if and only if n <= 93 |

## Left out

- Sieve.Apply: a filter's test of a received value happens in the same step as the receive, and a freshly spawned process counts as already suspended in its first receive or send; neither touches a channel.
- Sieve.Init: values are unbounded integers, so the overflow of `value` for a limit of INT_MAX is not modelled.
- Task.SyncWait: None stands for the failed assertion, without what a build that ignores assertions would do next; awaiting a task that is already done, awaiting a stored or shared task and loops that never end are not modelled: every await creates its child.
- Task.AwaitResume: `take()` moves the value out, so a second `result()` would see a moved-from value; one take per task is modelled. The void specialisation differs only in having no value.
- EventLoop.RunTasks: all tasks are started before the loop runs, a task is not started inside another coroutine, and a handle is the position of its task, which has one waiting coroutine at a time.
- Ownership.Runtime.Create: frame identities are never reused, while real addresses are; suspended code inside a frame is not modelled here, only the wrappers that live in it.
- Ownership.Runtime.MoveAssign: unsafe assignments are shown on values only; the method requires a safe one.
- Ownership.Runtime.MoveConstruct: likewise requires a home outside the tree of the source's frame; the other case makes a frame own itself.
- Scheduler.Scheduler.Run: the priority queue is kept as a sorted sequence and not as a heap, the sequence counter is unbounded, and coroutines do not start others while running. The clock is any non-decreasing sequence of readings, and a sleep may overshoot by any amount.
- Scheduler.TimersWakeInOrder: one thread only, as in the source.
- Delegates.BroadcastCalls: listeners do not throw, argument values and payloads are not modelled, and a delegate is not rebound with Bind or Unbind after it was added.
- Delegates.MulticastDelegate.Do: listeners act on the delegate that is broadcasting; another multicast delegate would only advance the shared counter.
- Delegates.PerformKeeps: the 64-bit handle counter does not wrap.
- WorkerPool.Run: the workers' sleeps are arbitrary delays, and result texts are represented by their job.
- FanIn.EveryRunDelivers: working time is an arbitrary delay, and a line is represented by its worker and job.
- Mpsc.Run: threads appear as arbitrary interleavings of sends and receives; memory effects inside the channel are assumed atomic. The first demo, which closes the channel after joining its producers, repeats the fan-in shutdown.
- GenServer.EveryRunFinishes: 64-bit overflow of the value is not modelled. A reply channel has room for its one reply, so the server's send on it never suspends.
- Chat.RoomActor: handles a message as one step; the room's waiting for a full inbox is in the network model.
- ChatNetwork.EveryRunFinishes: every peer types finitely many lines and disconnects, and every socket write completes; a peer that stalls for ever would stop its writer and, through a full inbox, the room.
- Chat.OnlyMembersPost: a session whose socket fails with an error other than end of file never posts its leave; it counts as one that has not left yet.
- Framing.ServeConnection: recv is an arbitrary list of chunks, the stop flag an arbitrary sequence of readings, and send succeeds or fails arbitrarily per reply; the state machine behind each command is not part of the model.
- Fibonacci.Generator.Next: exceptions from the coroutine body and the iterator on top of `next` are not modelled.
- Bounded retries, redirects and back-off in the counter client, and everything NuRaft does.
- Races between two awaitables (`csp_select`, the cobalt select demo), whose outcome depends on library cancellation details.
- The pipeline, ping-pong, supervisor, duo, actor-pool, CAF and oneTBB demos: easier instances of the protocols above.
- Sockets, DNS, accept loops, signals and printing.
