# A verified model of lua-resty-ffi

lua-resty-ffi lets a Lua coroutine inside nginx call a library written in another language.
The worker process wraps the call in a task, appends it to a queue and yields the coroutine.
Threads of the foreign runtime poll the queue and answer in any order; each answer goes into
nginx's own list of finished tasks, whose handler resumes the coroutine that asked.  This
project models that exchange, the gate that decides whether the module may attach to a
running nginx, and the parser of the Python loader's configuration line, and proves what they
promise for every input, every run and every interleaving.

Check everything with `dafny verify dfyconfig.toml`.

## How it is organised

The exchange is modelled twice, and the two meet in the same functions on values.

*In place.*  `TaskLists`, `TaskExchange` and `LuaRuntimes` are the functions of
`ngx_http_lua_ffi.c` and `resty_ffi.lua` as methods that mutate classes: task nodes linked
through one shared `next` field, a tail pointer that is a slot (`Head` or `NextOf(node)`), the
Lua table of runtimes.  Each method is the code between a lock and its unlock.

*As state machines.*  One action per atomic piece of code, in any interleaving.

- `RequestQueue`: mutex holder and wait set are explicit, so that signalling before appending
  is visible.  Lock, Refuse, Signal, Append and Unlock are the worker in `ngx_task_post`
  (ngx_http_lua_ffi.c lines 432, 436-443, 450, 455-458, 460); Enter, Sleep, Wake, Relock,
  Unlink, Return and Destroy are a poller in `ngx_http_lua_ffi_task_poll` (505-510, 512-519,
  521-526, 528-534, 536-538).  Wake is a spurious wakeup, always allowed.
- `DoneQueue`: Inject is lines 115-124, Notify line 126; Consume, Swap, Take and Finish are
  nginx's thread-pool handler.
- `Calls`: the life of a call and of its coroutine.  Create is lines 391-420, Refuse and Accept
  475-479, Yield `resty_ffi.lua` line 73, Answer lines 175-184, Handle 269-341, Abort 344-350.
- `Exchange` puts them together with the registry of runtimes: one `World`, in which an action
  that met a task or coroutine elsewhere than it assumes would set `misplaced`.
  `ExchangeInvariant` proves that no step does.

`BoundedFifo.Append`, `Enter`, `Unlink` and `Refuses` are what `RequestQueue` steps by and what
the methods of `TaskLists.TaskQueue` are proved to do; `Registries` plays the same part for Lua's
table, `Replies` for the values pushed to a coroutine.

`OutstandingCalls` is the independent reference: a map of outstanding calls with five
operations, which the whole exchange refines.  `Linearizability` gives one for the request queue
alone: an atomic bounded queue.

What the exchange promises is in `ExchangeTheorems` (refinement, resumptions), `Ownership`,
`Conservation`, `CleanupHooks`, `Shutdown` and `Outcomes` (delivery, the value of an echo).
`Coroutines` and `Histories` tell the state of coroutines, queues, registry and sentinels from the
actions of a run, both ways; `FullRound` is one run in which everything happens.  `QueueSets` says
what the methods leave alone when Lua keeps several queues, and `Roundtrip` puts the methods of all
sides together.

## What is assumed of the surroundings

- pthread, eventfd and allocation calls succeed; the request and module contexts exist.
- A runtime answers a task that poll returned at most once and does not touch it afterwards;
  it may answer from any thread, in any order, or never.
- The worker's own code (posting, unloading, draining, aborting) runs on one thread.
- nginx's thread-pool handler, which is not part of the repository: clear the notification, swap
  the whole list out, read `next` before calling each handler.
- nginx runs the cleanup hook of a coroutine at most once, clears it, and does so before the
  coroutine's request goes away.
- A queue may have any number of polling threads; where a theorem needs a single one it says so.
- A task's identity is not reused.  Address reuse is thus abstracted from; a write
  through a dangling pointer is recorded as such instead of as damage to some later task.
- ELF words are little-endian and 32 bits wide, `size_t` has 64 bits; Lua strings are shorter
  than 2 GB, so that their length fits a C `int`.
- The Python loader is built against Python 3.8 or later, where the `?` flag has an effect.

`unload` is one action followed by the post of the sentinel, and the yield after a post is taken
together with the release of the mutex: what is in between is only ever seen by the single worker
thread.

## What the code does not promise

Each of these is proved, with the exact condition.

- The overflow branch of a post frees the task and leaves the coroutine's cleanup hook pointing
  at it (lines 413-414, 475-478).  An abort writes to the freed task exactly if its coroutine
  has not posted again since.  `HooksStayLiveIffNotRefused`, `StaleWriteIffRefused`,
  `StaleWriteHappens`.
- Unload with two polling threads lets the second one use the freed queue.
  `SafeShutdownIffSinglePoller`.
- The note walk compares a signed remaining length with a `size_t`; it leaves the segment exactly
  when a header overshoots before a build-id note was found.  `WalkMeaning`, and
  `WalkCanLeave` for a segment of 16 bytes.
- The hex buffer's size `len*2+100` is computed in 32 bits; it is too small exactly for
  `len > 0x7FFFFFCD`.  `PrintHex`.
- The Python loader reads the byte before its buffer exactly for a line that is empty or begins
  with a comma.  `BeforeBufferIff`.
- The length-carrying echo is an echo exactly for non-empty requests, the C-string echo exactly
  for those without a NUL.  `GoEchoValue`, `RustEchoValue`.
- The registry's key tells a library name apart from the others exactly if it contains no `&`.  The
  repository's README gives the key as `lib .. '&' .. cfg` always; the code, which the model
  follows, uses `lib` alone when no configuration is given.  `KeyInjectiveIffNoAmpersand`.

## Model

| member | source | states |
|---|---|---|
| `ExchangeTheorems.RunRefines` | ngx_http_lua_ffi.c:269-539 | Every run of the whole exchange, with all its queues, pollers, responders and the done list, is a run of a map of outstanding calls: issue, respond, cancel, deliver, drop |
| `ExchangeTheorems.StepRefines` | ngx_http_lua_ffi.c:269-539 | Each single step is an enabled step of that map, or leaves it alone |
| `OutstandingCalls.StepRefines` | ngx_http_lua_ffi.c:391-480 | A call is issued where its task is appended, answered where its runtime responds, cancelled where its coroutine is aborted, and delivered or dropped where its task is handled; nothing else changes what is outstanding |
| `OutstandingCalls.DeliveredOnceWithItsOwnAnswer` | ngx_http_lua_ffi.c:269-341 | In every run of the map a call is delivered at most once, never after a cancel or a drop, only to the coroutine that issued it and with the answer given to that very call |
| `OutstandingCalls.RunRemembers` | ngx_http_lua_ffi.c:132-140 | The map records exactly what was done: a call is outstanding if and only if it was issued and neither delivered nor dropped, and its coroutine, request, answer and abort flag are the ones issued, responded and cancelled, no more and no less |
| `ExchangeTheorems.RecordIsThePost` | ngx_http_lua_ffi.c:391-420 | In every run, a coroutine posted a task with a request if and only if the task's record says so: each task is posted at most once, and its coroutine and request never change |
| `ExchangeTheorems.ResumedOnceWithItsOwnAnswer` | ngx_http_lua_ffi.c:269-341 | When the handler resumes a call, a coroutine had posted that task and some thread had responded to it, the coroutine that posted it gets the values for that response, the call was not resumed before, and that coroutine was never aborted: answers never cross |
| `ExchangeTheorems.DeadStaysDead` | ngx_http_lua_ffi.c:344-350 | A coroutine that ended stays ended for the rest of every run |
| `Coroutines.DeadIffAborted` | ngx_http_lua_ffi.c:318-350 | In every run, the coroutines there are are those spawned, and those that ended are exactly those aborted: a resumption, a refusal or an answer ends none |
| `Coroutines.CanPostIff` | resty_ffi.lua:54-74 | In every run and for any usable runtime, a coroutine can make a call if and only if it was spawned, was never aborted and has no call of its own outstanding |
| `Coroutines.ResumedCanPostAgain` | ngx_http_lua_ffi.c:318-331 | Right after a resumption the coroutine that had posted the call runs without a hook and can post again to any usable runtime |
| `FullRound.CallGoesRound` | ngx_http_lua_ffi.c:269-539 | A run from the initial state in which a call is posted, polled, answered, notified, swapped and resumed with `true`, "hi", nil, its coroutine running on, and the runtime is unloaded and its queue freed |
| `ExchangeTheorems.RunKeepsInv` | ngx_http_lua_ffi.c:143-539 | In every reachable state every task is in exactly the container its place says, every queue keeps its own invariant, and no action ever met a task or coroutine that was not where it belongs |
| `ExchangeInvariant.StepKeepsInv` | ngx_http_lua_ffi.c:110-539 | Every action of worker, pollers, responders and nginx's handler keeps that invariant |
| `ExchangeInvariant.StepIsDisciplined` | resty_ffi.lua:54-85 | The Lua side keeps its promise to the C side: no post of a call or of a sentinel starts on a queue whose sentinel is already in |
| `ExchangeInvariant.HandleGuard` | ngx_http_lua_ffi.c:278-319 | The handler finds a call that was not aborted answered, and its coroutine waiting for that very call |
| `Calls.StepKeepsInv` | ngx_http_lua_ffi.c:269-480 | Per call and coroutine: answered exactly from respond on; a waiting coroutine waits for its own outstanding call, which its hook points at; an aborted call belongs to an ended coroutine; the log holds exactly the resumed calls; node, request and response are freed together |
| `Calls.DeadStaysDead` | ngx_http_lua_ffi.c:344-350 | No step in the life of any call revives an ended coroutine |
| `Ownership.ExactlyOnePlace` | ngx_http_lua_ffi.c:187-220 | A created task is with exactly one owner, read off the containers themselves: the posting worker, a request queue, a poller, the runtime, the done list, the batch being drained, or freed; in no more than one queue, in the hands of no more than one queue's poller, and no more than once in any list; a task never created has none |
| `Ownership.FreedTogetherOnce` | ngx_http_lua_ffi.c:209-220 | The node, the request if there is one and the response if there is one are freed at most once each, all of them or none, on the refused, the aborted and the normal path |
| `Conservation.Conservation` | ngx_http_lua_ffi.c:269-539 | In every run, the posts made = the call about to be appended + the calls in the lists of all queues + those in pollers' hands + held + done list + batch + nodes freed; the nodes freed = refusals + resumptions + discards made; and the log has one entry for each resumption |
| `Conservation.RunIsTallied` | ngx_http_lua_ffi.c:269-480 | The tasks there are, and those refused, resumed and discarded, are as many as the actions that did so |
| `Conservation.QueuedCount` | ngx_http_lua_ffi.c:455-458 | The queued tasks are as many as the calls in the lists, summed over all queues |
| `Conservation.PolledCount` | ngx_http_lua_ffi.c:521-530 | The tasks in pollers' hands are as many as the queues whose mutex holder has unlinked a call |
| `Conservation.FreedCount` | ngx_http_lua_ffi.c:209-220 | The nodes freed are the tasks refused, resumed and discarded |
| `Outcomes.NothingLeftMeansDelivered` | ngx_http_lua_ffi.c:269-341 | When the idle worker has no delivery step left, every answered call was handled: resumed and logged exactly if its coroutine was not aborted, discarded if it was |
| `Outcomes.DeliveryIsBounded` | ngx_http_lua_ffi.c:110-127 | While no runtime answers, the drain takes at most as many steps as a measure of the done list says, whatever posts, polls and aborts happen in between |
| `Outcomes.DeliveryStep` | ngx_http_lua_ffi.c:110-127 | Every delivery step makes the measure smaller, and no other step but a response touches the done list |
| `Outcomes.IdleWorkerCanDeliver` | ngx_http_lua_ffi.c:110-127 | As long as an injected task is not handled, an idle worker or a pending notify has an enabled delivery step |
| `CleanupHooks.HooksStayLiveIffNotRefused` | ngx_http_lua_ffi.c:409-417 | If every installed hook points at a live task of its own coroutine, then after a step they all do exactly if the step is not the overflow branch of a post, and no step writes to a freed task |
| `CleanupHooks.NoStaleWriteWithoutRefusal` | ngx_http_lua_ffi.c:344-350 | In every run without a refused post all hooks are live and no abort has ever written to a freed task |
| `CleanupHooks.StaleWriteIffRefused` | ngx_http_lua_ffi.c:344-350 | In every run and at every step, an action writes to a freed task exactly if it aborts a coroutine that had a call refused and has not posted again since |
| `CleanupHooks.DanglesIffLeft` | ngx_http_lua_ffi.c:409-417 | In every run, a coroutine's hook points at a refused, freed task exactly if it had a call refused and has neither posted again nor ended since |
| `CleanupHooks.RefusedHookWritesStale` | ngx_http_lua_ffi.c:466-480 | The overflow branch is taken only at `waiting >= max_queue`; it frees the task, leaves the coroutine running and its hook in place, and an abort coming next writes to the freed task |
| `CleanupHooks.StaleWriteHappens` | ngx_http_lua_ffi.c:466-480 | A concrete run from the initial state that gets there: a queue of limit 0 refuses the first call, whose coroutine then ends |
| `Shutdown.NoUseAfterFree` | ngx_http_lua_ffi.c:378-388 | In the whole exchange, once the queue of a single-poller runtime is freed no action of anybody on it is enabled, everything accepted was returned, and no task of it is still being posted, queued or in a poller's hands |
| `Shutdown.RegisteredRuntimeIsUsable` | resty_ffi.lua:129-160 | A registered runtime is unfinished, is stored under its own key, and owns a queue that is not freed, holds no sentinel and is no other runtime's |
| `Histories.RegisteredIffStillLoaded` | resty_ffi.lua:76-160 | In every run, the table holds under a key exactly the runtime successfully loaded under it and not unloaded since, with the queue it was loaded with |
| `Histories.UsableIffStillLoaded` | resty_ffi.lua:54-85 | A runtime can be posted to and unloaded if and only if it is still loaded and the worker is not inside a post |
| `Histories.QueueIsTheLoad` | ngx_http_lua_ffi.c:353-375 | In every run, a queue has exactly the limit and the polling threads it was loaded with |
| `Histories.SentinelIffUnloaded` | ngx_http_lua_ffi.c:483-497 | In every run, the sentinel of a queue is on its way or accepted if and only if a runtime that owned the queue was unloaded |
| `Shutdown.DrainedToTheLast` | ngx_http_lua_ffi.c:483-539 | In the whole exchange: when, after unload of a single-poller runtime that has answered what it held, neither its queue nor the worker's drain can go on, the queue was freed with everything accepted returned in order, and each call posted to it was refused, or resumed and logged, or discarded because it had been aborted |
| `Shutdown.UnloadedQueueIsBounded` | ngx_http_lua_ffi.c:483-539 | From the sentinel on, whatever else the exchange does, that queue accepts nothing and sees at most as many steps as its measure says |
| `Shutdown.QueueIsThePosts` | resty_ffi.lua:54-74 | In every run, a task belongs to a queue if and only if it was posted to a runtime that owned that queue at the time |
| `Outcomes.GoEchoEndToEnd` | examples/go/echo.go:20-30 | In every run whose answers are those of length-carrying echoes, each resumption is of a coroutine that posted that task, and if what it posted was a non-empty string it got exactly `true`, that string and `nil` |
| `Outcomes.RustEchoEndToEnd` | examples/rust/echo/src/lib.rs:30-40 | In every run whose answers are those of C-string echoes, each resumption is of a coroutine that posted that task, and if what it posted was a string it got `true`, what precedes its first NUL, and `nil` |
| `Calls.StepPersists` | ngx_http_lua_ffi.c:163-184 | Only its post creates a task; nothing changes its coroutine, queue or request afterwards, and nothing but respond on that very task its answer |
| `RequestQueue.StepKeepsInv` | ngx_http_lua_ffi.c:423-539 | Every atomic piece of post and poll keeps the queue's whole invariant, with any number of pollers |
| `RequestQueue.StepKeepsApart` | ngx_http_lua_ffi.c:500-539 | Every polling thread is in at most one place: asleep, woken, holding the mutex, freeing the queue, or gone |
| `RequestQueue.StepKeepsOrder` | ngx_http_lua_ffi.c:455-456 | What was accepted is what was returned, then the item in a poller's hand, then the list, in this order |
| `RequestQueue.StepKeepsCounter` | ngx_http_lua_ffi.c:509-519 | `waiting` is the length of the list minus the pollers that entered poll and have not unlinked yet, negative values included |
| `RequestQueue.WaitersChange` | ngx_http_lua_ffi.c:509-526 | Those pollers grow by one where poll is entered and shrink by one where the head is unlinked, and by nothing else: not by a signal, a wakeup or a sleep |
| `RequestQueue.StepKeepsBound` | ngx_http_lua_ffi.c:436-458 | `waiting` never exceeds the limit by more than the sentinels accepted, although the test and the increment are apart |
| `RequestQueue.StepKeepsWakeups` | ngx_http_lua_ffi.c:450-460 | While a poller sleeps unsignalled, the items in the list, and the one a signal already went out for, are matched by pollers on their way to the list, although the signal comes before the append |
| `RequestQueue.StepKeepsClosing` | ngx_http_lua_ffi.c:532-538 | The queue is freed, and poll returns NULL, only after the sentinel was unlinked |
| `QueueTheorems.RunKeepsInv` | ngx_http_lua_ffi.c:423-539 | All of these hold in every state of every run |
| `Linearizability.RunIsAtomic` | ngx_http_lua_ffi.c:432-530 | Every run of posts and polls is, step by step, a run of an atomic bounded queue with operations enqueue, reject, arrive and dequeue, whose reject is possible exactly when it is full: as many items as `max_queue` plus the pollers that have arrived |
| `Linearizability.StepIsAtomic` | ngx_http_lua_ffi.c:436-458 | Each atomic piece of post and poll is one enabled operation of that queue or none; the room tested for at the start of a post is still there at the append |
| `Linearizability.PostTakesEffectOnce` | ngx_http_lua_ffi.c:432-462 | Between the call and the return of a post there is exactly one operation of it: the enqueue of its own item if it returns OK, its rejection if it returns an error |
| `Linearizability.EffectIsOfAPost` | ngx_http_lua_ffi.c:432-462 | Nothing is enqueued or rejected but inside an open post of that item |
| `Linearizability.PollTakesEffectOnce` | ngx_http_lua_ffi.c:505-530 | Between a thread's call of poll and its return there is exactly one dequeue by that thread, of the very item that poll hands out |
| `Linearizability.EffectIsOfAPoll` | ngx_http_lua_ffi.c:505-530 | Nothing is dequeued but inside an open poll of that thread |
| `Linearizability.RunIsFifo` | ngx_http_lua_ffi.c:455-530 | The items polls obtain, in lock order, are a prefix of those appended, the rest is the list, and what polls have handed out is a prefix of what they obtained |
| `Linearizability.HistoriesAreTheOperations` | ngx_http_lua_ffi.c:455-530 | The accepted and returned histories are exactly the enqueues and dequeues at the linearization points |
| `QueueTheorems.AcceptanceAndBound` | ngx_http_lua_ffi.c:436-443 | In every reachable state a call is refused exactly if the list has at least `max_queue` plus the pollers inside poll, the sentinel never, and the list is no longer than that plus the sentinels |
| `QueueTheorems.NoWakeupIsLost` | ngx_http_lua_ffi.c:505-519 | In every reachable state with an item in the list and a poller inside poll, somebody can step without any new post, poll call or spurious wakeup, and if the mutex is free it is a woken poller |
| `QueueTheorems.SleepsAgain` | ngx_http_lua_ffi.c:505-519 | For any limit and any poller there is a run in which it finds nothing, sleeps, is woken for nothing, looks again and sleeps again, the counter being charged once |
| `QueueTheorems.SleeperIsServed` | ngx_http_lua_ffi.c:450-530 | And one in which the next post, even at a limit of 0, is accepted, signals it and is returned by it |
| `QueueTheorems.HolderCanStep` | ngx_http_lua_ffi.c:432-530 | Whoever has the mutex is never blocked |
| `QueueTheorems.GracefulShutdown` | ngx_http_lua_ffi.c:378-388 | Single poller, nothing posted after the sentinel: when the queue is freed it was freed once, the list is empty, everything accepted was returned in order, the sentinel was last, and no action can touch the queue any more |
| `QueueTheorems.SafeShutdownIffSinglePoller` | ngx_http_lua_ffi.c:532-538 | The free is safe in all runs exactly for queues with at most one polling thread |
| `QueueTheorems.SecondPollerTouchesFreedQueue` | ngx_http_lua_ffi.c:532-538 | For any two pollers, a run in which one frees the queue and the other can still enter poll |
| `QueueTheorems.StepKeepsShutdown` | ngx_http_lua_ffi.c:483-539 | The shutdown invariant: sentinel last and only once, the queue closed only when drained and idle, frees counted by exits |
| `QueueTheorems.NothingTouchesAClosedQueue` | ngx_http_lua_ffi.c:528-538 | Once the lone poller has returned the sentinel, its own free is the only action left |
| `QueueTheorems.DrainTerminates` | ngx_http_lua_ffi.c:483-539 | From the moment the sentinel is in, a single-poller run has at most as many steps as a measure of the list says, and one that cannot go on has freed the queue with everything accepted returned |
| `QueueTheorems.DrainStep` | ngx_http_lua_ffi.c:500-539 | After unload every step, spurious wakeups included, makes the measure smaller and accepts nothing |
| `QueueTheorems.DrainCanStep` | ngx_http_lua_ffi.c:500-539 | Until the queue is freed somebody can step |
| `DoneQueue.StepKeepsInv` | ngx_http_lua_ffi.c:110-127 | A non-empty done list always has a pending notification, an injector about to notify, or a worker about to swap the list, although notifications fold; and injected = handled, batch, list, in order |
| `DoneQueue.EveryResponseIsDelivered` | benchmark.md:22-23 | Once injections stop at most `Measure` steps are left, and when none is possible every injected task was handled, in the order of injection |
| `DoneQueue.DeliveryStep` | ngx_http_lua_ffi.c:117-126 | Every step but an injection makes the measure smaller |
| `DoneQueue.DeliveryCanStep` | ngx_http_lua_ffi.c:117-126 | As long as something injected is not handled, some step but an injection is enabled |
| `Replies.CallReturns` | ngx_http_lua_ffi.c:298-316 | The handler leaves exactly three values: true, response, nil, or false, rc, response, the response being nil for NULL, the measured bytes, or the text up to the first NUL; undefined exactly if the runtime's length or missing NUL leads out of its buffer |
| `Replies.GoEchoValue` | examples/go/echo.go:25-29 | The length-carrying echo gives back the request, NULs included, exactly if it is not empty |
| `Replies.GoEchoOfNothing` | examples/go/echo.go:25-29 | Without a request or with an empty one it gives nil if malloc(0) gave NULL, and otherwise makes the handler read beyond an empty block |
| `Replies.RustEchoValue` | examples/rust/echo/src/lib.rs:36-38 | The C-string echo gives back the text before the first NUL, which is the request exactly if it has no NUL |
| `CStrings.BeforeNul` | ngx_http_lua_ffi.c:308-308 | The C string in a block: the prefix without NUL that a NUL follows if it is not the whole |
| `TaskLists.TaskList.Append` | ngx_http_lua_ffi.c:455-456 | Through the slot, a node whose `next` is reset goes to the end of the list, the others staying as they are |
| `TaskLists.TaskList.Unlink` | ngx_http_lua_ffi.c:521-526 | Takes the head, repairs the slot when the list gets empty, and leaves the stale `next` on the task |
| `TaskLists.TaskList.Inject` | ngx_http_lua_ffi.c:111-124 | Whatever the task's `next` still points at, it becomes the last node of the done list, and no other node comes along |
| `TaskLists.TaskList.TakeAll` | ngx_http_lua_ffi.c:123-126 | nginx's swap of the whole list |
| `TaskLists.TaskQueue.constructor` | ngx_http_lua_ffi.c:353-375 | A fresh queue is the empty bounded queue with its limit |
| `TaskLists.TaskQueue.Post` | ngx_http_lua_ffi.c:423-463 | Refines append on the sequence with `waiting + 1`; refused exactly if the task is active already or is a call that finds `waiting >= max_queue`, and then nothing changed |
| `TaskLists.TaskQueue.Poll` | ngx_http_lua_ffi.c:509-539 | Refines enter and unlink on the sequence; a call is returned with no field of it changed; for the sentinel the node and the queue are freed, once each, and NULL is returned |
| `TaskLists.Task.Free` | ngx_http_lua_ffi.c:209-220 | The node is freed once, the request once if there is one, the response once if there is one, and neither can be used again |
| `TaskLists.Task.FreeNode` | ngx_http_lua_ffi.c:536-536 | The sentinel's node is freed, and no buffer |
| `TaskExchange.CreateTask` | ngx_http_lua_ffi.c:391-420 | A fresh, inactive task of the current coroutine, whose hook now points at it |
| `TaskExchange.TaskPost` | ngx_http_lua_ffi.c:466-480 | Refused exactly at `waiting >= max_queue`; accepted, the new task with its request is last in the queue; the hook points at the new task either way, and its node and request are freed exactly if refused |
| `TaskExchange.TaskFinish` | ngx_http_lua_ffi.c:483-497 | The sentinel goes to the end of the queue, however full |
| `TaskExchange.Respond` | ngx_http_lua_ffi.c:174-184 | The task goes to the end of the done list carrying exactly the given answer |
| `TaskExchange.Cleanup` | ngx_http_lua_ffi.c:344-350 | Marks the task its coroutine's data points at as aborted, and nothing else |
| `TaskExchange.EventHandler` | ngx_http_lua_ffi.c:269-341 | An aborted task is freed without touching any coroutine; any other leaves on its own coroutine's stack exactly the values of its answer, uninstalls the hook, and is freed with its request and response |
| `TaskExchange.Drain` | ngx_http_lua_ffi.c:268-341 | Walking the batch with `next` read first, every injected task is met once, in order, by the real handler, which frees it; its node, request and response are freed once, each coroutine gets exactly the answers to its own unaborted calls, in the order of the batch, and no other coroutine is touched |
| `TaskExchange.EchoTurn` | examples/go/echo.go:20-29 | One turn takes the head of the queue over to the done list with the echo's answer, or ends the loop at the sentinel, freeing the queue; the two lists stay disjoint |
| `TaskExchange.EchoLoop` | examples/go/echo.go:20-30 | After unload with n calls queued an echo answers exactly these n, in post order, each with the echo of its own request, coroutine and abort flag untouched; the next poll returns NULL, the queue is freed once, the loop ends |
| `Roundtrip.ServeAndDrain` | examples/go/echo.go:20-30 | An echo's loop and the worker's drain after it: every caller not aborted meanwhile finds the echoes of its own requests on its stack, in the order of its posts, and no hook |
| `Roundtrip.CallAndReturn` | resty_ffi.lua:54-74 | Lua's post, an echo's turn and the drain in one: on the stack of the very coroutine that posted a string there are now `true`, the string (up to its first NUL for the C-string echo) and nil |
| `QueueSets.PostAmong` | ngx_http_lua_ffi.c:466-480 | A post to one of several queues that share no list and no node leaves every other as it was, and them sharing none |
| `QueueSets.FinishAmong` | ngx_http_lua_ffi.c:483-497 | So does the sentinel |
| `QueueSets.CreateAmong` | ngx_http_lua_ffi.c:353-375 | A new queue is empty and shares nothing with those there are |
| `LuaRuntimes.Post` | resty_ffi.lua:54-74 | A finished runtime refuses without touching anything; otherwise a fresh task that waits for the calling coroutine, not aborted and without an answer, is queued with the copied request, its terminator and its length, or "queue full" is returned exactly at the limit; the caller's stack, every other task, the table and every queue stay as they are |
| `LuaRuntimes.Loader.LoadFfi` | resty_ffi.lua:106-161 | The same key gives the same runtime and changes nothing; a new key whose init succeeds registers a fresh runtime with a fresh empty queue of the requested limit, 65536 by default, that shares nothing with the others; a failing init returns its code and registers nothing |
| `LuaRuntimes.Loader.Unload` | resty_ffi.lua:76-85 | The first unload sends the sentinel to the end of that runtime's queue, marks it and unregisters it; any other does nothing |
| `LuaRuntimes.Loader.FirstUnload` | resty_ffi.lua:77-84 | The body of the first unload, keeping the registry's invariant and the queues of all other runtimes sound |
| `Registries.RegisterKeepsInv` | resty_ffi.lua:133-158 | Registering under a free key keeps: every registered runtime is unfinished, stored under its own key and sole owner of its queue, and every unfinished one is registered |
| `Registries.UnloadKeepsInv` | resty_ffi.lua:76-85 | So does unloading any runtime, finished or not |
| `Registries.StaleUnloadKeepsSuccessor` | resty_ffi.lua:76-85 | After an unload the key is free; a second unload of the stale runtime does not unregister the successor loaded under the same key |
| `Registries.KeyInjectiveIffNoAmpersand` | resty_ffi.lua:129-132 | The key determines library and configuration among names without `&`, exactly if the library's name has none |
| `BuildId.AlignRoundsUp` | build-id.c:41-41 | For 32-bit values up to 2^32 - 4 the mask expression is the least multiple of 4 that is not smaller; beyond, it wraps to 0 |
| `BuildId.MaskClearsLowBits` | build-id.c:41-41 | The bitwise and with the mask takes away the remainder by 4 |
| `BuildId.FindInSegment` | build-id.c:92-110 | The loop with its signed length, its unsigned comparison and its 64-bit step computes the walk over the notes, and reads a header outside the segment only where that says `Outside` |
| `BuildId.MatchesAt` | build-id.c:97-103 | The test of a header in place is the build-id test of the note that begins there |
| `BuildId.WordDigits` | build-id.c:97-107 | The header words are little-endian: their base-256 digits, lowest first, are the bytes |
| `BuildId.FoundAtHead` | build-id.c:97-103 | The walk stops at the head of a segment exactly if its first 16 bytes are 4, a descriptor size that is not 0, 3 and "GNU", each size and type a little-endian word |
| `BuildId.UsualProgram` | build-id.c:96-110 | Given by its bytes, an ABI note of 32 followed by a build-id: found at 32 |
| `BuildId.WalkMeaning` | build-id.c:96-110 | Any segment splits into non-matching notes and a stopping point; the walk finds a note exactly if it is a build-id on a note boundary with only such notes before it, and leaves the segment exactly if a header overshoots there |
| `BuildId.WalkFollowsSplit` | build-id.c:96-110 | For every such split the walk stops at its end |
| `BuildId.WalkCanLeave` | build-id.c:96-110 | A segment it leaves: 16 bytes whose first header claims a name of 100 |
| `BuildId.WalkFindsFirstBuildId` | build-id.c:88-113 | Of every segment that encodes a list of notes with non-wrapping sizes the walk finds the first GNU build-id note, or nothing if there is none, and never leaves the segment |
| `BuildId.HeaderDecodes` | build-id.c:97-107 | What is read of an encoded note is what was encoded, and the loop's step is the encoder's padded size |
| `BuildId.AccessorsReadDescriptor` | build-id.c:154-164 | Length and data of a found note are its descriptor, all of it and inside the segment |
| `HexGate.FindNhdr` | build-id.c:63-152 | By name or by symbol: the first searched note segment, in the order of objects and segments, that has a build-id note, and none exactly if all searched ones have none; or an earlier walk leaves its segment |
| `HexGate.MapStart` | build-id.c:76-82 | The address of the first loaded segment, whatever follows it, and 0 if there is none |
| `HexGate.SelectedMeans` | build-id.c:68-86 | By name an object needs that very name; by symbol its first loaded segment begins at the symbol's base |
| `HexGate.IdentifierBytes` | build-id.c:154-164 | The identifier is what follows the 16 bytes of header and name, as long as the second header word, byte by byte, says |
| `HexGate.IdentifierIsDescriptor` | build-id.c:154-164 | Of an encoded build-id note, wherever it is in its segment, the identifier is the descriptor |
| `HexGate.HexDigits` | ngx_http_lua_ffi.c:82-82 | Two lower-case digits a byte, the high one first |
| `HexGate.PrintHex` | ngx_http_lua_ffi.c:76-83 | In place, turn by turn, the zeroed buffer holds the hex of the bytes so far with a NUL behind it; it is overrun exactly for lengths above 0x7FFFFFCD |
| `HexGate.HexNext` | ngx_http_lua_ffi.c:81-83 | The hex of one byte more is the hex so far and two digits, none of them a NUL |
| `HexGate.SizeSuffices` | ngx_http_lua_ffi.c:80-80 | The 32-bit size expression has room for the digits and the NUL exactly up to that length |
| `HexGate.DecodeOfHex` | ngx_http_lua_ffi.c:81-83 | Printing gives lower-case hex that decodes to the bytes |
| `HexGate.HexOfDecode` | ngx_http_lua_ffi.c:81-83 | Every lower-case hex string of whole bytes is the print of what it decodes to |
| `HexGate.HexEqualIffBytesEqual` | ngx_http_lua_ffi.c:85-85 | The strings are equal exactly if the expected one is lower-case hex of whole bytes and decodes to the identifier |
| `HexGate.StrLen` | ngx_http_lua_ffi.c:82-82 | `strlen` of the buffer is the number of digits printed |
| `HexGate.Equals` | ngx_http_lua_ffi.c:85-85 | `strcmp` of the buffer with the expected string is zero exactly if they are the same text |
| `HexGate.Gate` | ngx_http_lua_ffi.c:68-108 | Whenever the main program's note segments encode notes, the result is 0 exactly if the expected string is the lower-case hex of the first build-id's descriptor, and -2 otherwise; -1 only if no note segment of the main program has a build-id; memory outside is touched only on a segment whose walk leaves it, a descriptor longer than its segment, or one too long for the buffer |
| `ConfigLine.RoundTripIff` | examples/python/loader.c:153-159 | The loader recovers exactly the parts a line was printed from, absent and empty configuration kept apart, if and only if no comma is in directory, module or function, no slash in the module, a configuration comes with a function, and a module without reload flag neither ends in `?` nor is empty without a directory |
| `ConfigLine.PrintParsed` | examples/python/loader.c:56-71 | The other way round: every line that is parsed at all is the print of its parts |
| `ConfigLine.LineShapes` | examples/python/loader.c:153-159 | Spelled out: what each of the shapes `[dir/]module[?][,func[,cfg]]` gives |
| `ConfigLine.ParsedIsCarried` | examples/python/loader.c:56-71 | Whatever the loader makes of any line can be carried by a line |
| `ConfigLine.BeforeBufferIff` | examples/python/loader.c:65-66 | The byte before the buffer is read exactly for a line that is empty or begins with a comma |
| `ConfigLine.StrSep` | examples/python/loader.c:157-158 | One NUL is written, where the first comma is; the token stays, the rest begins behind it |
| `ConfigLine.StrRChr` | examples/python/loader.c:56-56 | Finds the last slash of the C string |
| `ConfigLine.SplitFields` | examples/python/loader.c:156-159 | After the two splits module, function and configuration are C strings in the one buffer, the configuration with all its commas |
| `ConfigLine.SplitModule` | examples/python/loader.c:53-71 | The directory is what precedes the last slash, the module what follows it, less a final `?`, which is overwritten in place; function and configuration behind it stay readable |
| `ConfigLine.Split` | examples/python/loader.c:144-166 | For every NUL-free line the C strings left in the buffer are the parts of that line |

## Left out

- Resuming inside nginx and its Lua module (ngx_http_lua_ffi.c lines 223-265, 323-333): library behaviour; a resumption is "this coroutine gets these values".
- Failures of pthread, eventfd and allocation calls, and the branches for a missing request or module context: assumed not to happen.
- The message printed on a build-id mismatch (line 86), which shows the two identifiers under each other's label: output only.
- The symbol arithmetic at the end of the gate (lines 91-103), `dladdr` and `dlopen` handles, pinning and garbage collection of libraries: linker and system behaviour.
- What a library's `libffi_init` does with its queue when it fails: the code does not free that queue, and in the model nobody owns it.
- The other language loaders and demo runtimes, CPython calls and Java class loading: behaviour of virtual machines; any responder is covered by the nondeterministic one.
- The unix-socket benchmark, build files, nginx configurations: no logic of the exchange.
- A NULL configuration for the Python loader, whose `strrchr` would be given NULL: the model starts at a string.
- A configuration with an embedded NUL reaches the Python loader only up to it: the model's lines are C strings.
- The Rust echo on an absent request (`strdup` of NULL): outside `CanEcho`.
- Method calls on a runtime by an arbitrary name (`__index`, `__call`) are all `post`; the wrapper argument of `post` is not modelled.
- Blocking on the condition variable inside the heap methods: `TaskLists.TaskQueue.Poll` is poll from the moment the list is not empty; waiting, waking and interleaving are in `RequestQueue`.
- TaskExchange.EventHandler: requires that the runtime's response is readable as its length says; what happens otherwise is the runtime's fault and `Undefined` in `Replies.CallReturns`.
- HexGate.Gate: does not say which of the undefined cases is which memory access, only that one of them is there.
