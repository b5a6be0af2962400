# Verification of the Fluent Bit inline logic and the directory scripts

This project models the logic that this repository ships as code: the inline bodies in the Fluent
Bit and Monkey headers, and the directory provisioning in two PowerShell scripts.  It verifies with
`dafny verify dfyconfig.toml`.

- **Priority event scheduler.**  Three layers, each refining a simpler one.  `mk_list.dfy` is the
  intrusive circular list on the heap.  `bucket_queue.dfy` is the bucket queue built on it, measured
  against `stable_queue.dfy`, a stable priority queue that knows only arrivals.  `event_loop.dfy`
  runs the live loop over links and buckets and is proved to compute `live_loop.dfy`, whose runs are
  the subject of `queue_trace.dfy` and `live_loop_runs.dfy`.  `plugins.dfy` is the other user of the
  list, with five loops that delete while they iterate.
- **Flush coroutines.**  `flush_protocol.dfy` has the creations, switches, locking, route changes,
  drops, returns and signals of any number of coroutines and threads as atomic steps, and
  `flush_steps.dfy` says what each of them touches; `flush_invariants.dfy` and `flush_safety.dfy` prove what each step keeps, `flush_runs.dfy` what
  therefore holds in every run, `flush_nested.dfy` when a return finishes the wrong flush, and
  `flush_progress.dfy` that everybody who can be expected to go on can.
  `task_routes.dfy`, `task_lifetime.dfy` and `signals.dfy` are the task's own functions and the
  message encoding; `collect_handoff.dfy` is the hand-off on the input side.
- **UTF-8.**  `utf8.dfy` has the tables and the bit operations of the source, on the operators of
  `bits.dfy`; `utf8_rfc3629.dfy` has sections 3 and 4 of RFC 3629 and the proof that they agree.
- **Re-serialisation.**  `serialization_buffer.dfy` is the growing buffer of the metrics and traces
  branches, on real arrays.
- **Directory.**  `ou_names.dfy` has distinguished names as text, and what trimming does to them;
  `ou_builder.dfy` and `unique_names.dfy` are OUsearch, Create and SName, with the main loop's
  renames and creations.  What several modules share is in `prelude.dfy`.

A list entry is identified with the node it embeds (mk_list_entry goes back and forth), so events
and plugins are list nodes.  A call into code that is not in the repository is a step that may do
anything its callers see: mk_event_inject appends to the ready array, mk_event_wait_2 replaces it,
flb_task_destroy ends the task, the processor, encoder and allocator results are inputs.

## What came out

- When coroutines resume coroutines, `flb_output_return_do` can finish the wrong flush, because
  flb_coro_get names the one last resumed.  It finishes its own if and only if that is the one;
  under the engine's discipline it always is.
- Matching every users_dec to a users_inc does not keep a task from being destroyed twice: two users
  who leave without a check and then both call users_release do it.  The task is destroyed once for
  each check that finds it without users and retries, so at most once if and only if there is at most
  one; and there is at most one when references are passed on by those who have one.
- The input side makes a new thread-specific key for every collect, in one variable shared by all
  threads.  A callback gets its arguments if and only if that variable has not changed since its
  block was registered, which holds when one thread collects.
- `Create` trims `OU=` as a set of characters, from both ends, so an organizational unit is made
  under its own name if and only if that neither begins nor ends with O, U or = (nor, in adduser.ps1,
  with a blank): CEO is made as CE.  Below a unit made under another name nothing is made.
- An active account whose name is taken by another is renamed on every run, as its own padded name counts
  as in use.
- When the budget stops the live loop, the event already popped is dropped without being
  dispatched.
- The rebuilt chunk has the size of the buffer, not of what was written: a chunk of four bytes whose
  context is serialised to one is handed on with three bytes nobody wrote.  The two sizes agree if and
  only if the contexts that fit fill the original size.
- flb_output.h says FLB_OK is 0 and FLB_ERROR 1, flb_macros.h defines them as 1 and 0; the model
  follows the definitions.  The comment in flb_engine_macros.h says engine messages set the left 32
  bits to ones; the code puts the number 1 there.
- `mk_list_add_after` with the head for `prev` puts the node first, except in a list of one entry,
  where it goes last.

## Model

| member | source | states |
|---|---|---|
| MkList.RingUnique | agents/Fluentbit/fluentbit/include/monkey/mk_core/mk_list.h:43-46 | the links in the heap determine the list of a head: two rings with one head are equal |
| MkList.Init | agents/Fluentbit/fluentbit/include/monkey/mk_core/mk_list.h:48-52 | an initialised node is a ring of its own |
| MkList.LinkBetween | agents/Fluentbit/fluentbit/include/monkey/mk_core/mk_list.h:54-61 | linking a node between two neighbours inserts it at that place of the ring, both directions rewired, no node outside the three touched |
| MkList.Add | agents/Fluentbit/fluentbit/include/monkey/mk_core/mk_list.h:63-66 | the node becomes the last entry, also of an empty list |
| MkList.AddAfter | agents/Fluentbit/fluentbit/include/monkey/mk_core/mk_list.h:68-84 | the node goes right after `prev`; with exactly one entry it goes last whatever `prev` is, which differs when `prev` is the head |
| MkList.IsEmpty | agents/Fluentbit/fluentbit/include/monkey/mk_core/mk_list.h:86-90 | 0 exactly when the list has no entries, -1 otherwise |
| MkList.AddBefore | agents/Fluentbit/fluentbit/include/monkey/mk_core/mk_list.h:92-113 | the node goes right before `next`; before the head means last; nothing changes on a null argument |
| MkList.Append | agents/Fluentbit/fluentbit/include/monkey/mk_core/mk_list.h:115-125 | the node becomes the last entry, whichever branch is taken |
| MkList.Prepend | agents/Fluentbit/fluentbit/include/monkey/mk_core/mk_list.h:127-137 | the node becomes the first entry, whichever branch is taken |
| MkList.Del | agents/Fluentbit/fluentbit/include/monkey/mk_core/mk_list.h:139-150 | the ring loses exactly that node, whose links are cleared; nodes other than it and its two neighbours are untouched |
| MkList.Size | agents/Fluentbit/fluentbit/include/monkey/mk_core/mk_list.h:161-167 | the number of entries; the walk terminates |
| MkList.Cat | agents/Fluentbit/fluentbit/include/monkey/mk_core/mk_list.h:194-203 | `head` holds its old entries and then those of `list`, whose sentinel stays outside, also when `list` was empty |
| MkList.Forward | agents/Fluentbit/fluentbit/include/monkey/mk_core/mk_list.h:205 | the forward traversal sees exactly the entries, in order |
| MkList.Backward | agents/Fluentbit/fluentbit/include/monkey/mk_core/mk_list.h:210 | the backward traversal sees the mirror image of the forward one |
| StableQueue.MinIndex | agents/Fluentbit/fluentbit/include/fluent-bit/flb_bucket_queue.h:98-105 | the entry to serve: least priority number, and the oldest among equals |
| StableQueue.FrontIsMin | agents/Fluentbit/fluentbit/include/fluent-bit/flb_bucket_queue.h:73-78 | when every bucket below `p` is empty, the front of bucket `p` is the first-arrived of the most urgent entries of the whole history |
| StableQueue.BucketRemove | agents/Fluentbit/fluentbit/include/fluent-bit/flb_bucket_queue.h:107-116 | taking out one entry of the history takes out one place of one bucket and leaves every other bucket as it is |
| BucketQueues.BucketQueue.constructor | agents/Fluentbit/fluentbit/include/fluent-bit/flb_bucket_queue.h:43-66 | a new queue is valid and stands for the empty history |
| BucketQueues.BucketQueue.Seek | agents/Fluentbit/fluentbit/include/fluent-bit/flb_bucket_queue.h:73-78 | `top` ends at the bucket whose front is the next to serve, or past the last exactly when nothing waits; contents unchanged; steps counted |
| BucketQueues.BucketQueue.SeekCost | agents/Fluentbit/fluentbit/include/fluent-bit/flb_bucket_queue.h:73-95 | over the whole life of a queue the seek loop turns at most as often as adds moved `top` down, so at most `n_buckets` times per add |
| BucketQueues.BucketQueue.Add | agents/Fluentbit/fluentbit/include/fluent-bit/flb_bucket_queue.h:80-95 | an item in range becomes the newest arrival; out of range -1 is returned and nothing at all changes |
| BucketQueues.BucketQueue.FindMin | agents/Fluentbit/fluentbit/include/fluent-bit/flb_bucket_queue.h:98-105 | the oldest of the most urgent items, null exactly when nothing waits |
| BucketQueues.BucketQueue.DeleteMin | agents/Fluentbit/fluentbit/include/fluent-bit/flb_bucket_queue.h:107-116 | exactly that item leaves, unlinked, and the count falls by one without wrapping; nothing happens on an empty queue |
| BucketQueues.BucketQueue.PopMin | agents/Fluentbit/fluentbit/include/fluent-bit/flb_bucket_queue.h:118-124 | returns what find_min shows and removes exactly that |
| BucketQueues.BucketQueue.Unlink | agents/Fluentbit/fluentbit/include/fluent-bit/flb_bucket_queue.h:21-25 | direct mk_list_del of any waiting item: it leaves the history, everything else stays in order, and the count is off by one more |
| BucketQueues.BucketQueue.Destroy | agents/Fluentbit/fluentbit/include/fluent-bit/flb_bucket_queue.h:126-138 | refused with -1 exactly while anything waits, whatever the count says |
| EventLoops.EventLoop.LoadEvent | agents/Fluentbit/fluentbit/include/fluent-bit/flb_event_loop.h:28-34 | the link of an event tells whether it waits, so a waiting event is not queued again; the heap does what the specification says |
| EventLoops.EventLoop.LoadBucketQueue | agents/Fluentbit/fluentbit/include/fluent-bit/flb_event_loop.h:37-46 | every ready event that is not deleted is offered to the queue, in order |
| EventLoops.EventLoop.LoadInjectedEvents | agents/Fluentbit/fluentbit/include/fluent-bit/flb_event_loop.h:49-72 | exactly the events behind the snapshot are offered, deleted or not; none when the array shrank |
| EventLoops.EventLoop.PopNext | agents/Fluentbit/fluentbit/include/fluent-bit/flb_event_loop.h:80-83 | find_min and pop_min together pop the specification's next event |
| EventLoops.EventLoop.OneRound | agents/Fluentbit/fluentbit/include/fluent-bit/flb_event_loop.h:90-99 | a loop body with injections, removals and status changes, then the update expression, take the heap to the specification's next state |
| EventLoops.EventLoop.PriorityLiveForeach | agents/Fluentbit/fluentbit/include/fluent-bit/flb_event_loop.h:74-100 | for every script of bodies and waits the loop over links and buckets ends in the state, event in hand and iteration count of the specification |
| QueueTrace.ServedInOrder | agents/Fluentbit/fluentbit/include/fluent-bit/flb_event_loop.h:28-46 | read off the log alone: whoever is popped was waiting, nobody waiting was more urgent, and nobody as urgent had waited longer |
| QueueTrace.WaitingIsQueued | agents/Fluentbit/fluentbit/include/fluent-bit/flb_event_loop.h:28-34 | who waits by the log is who is queued, and nobody is queued twice |
| QueueTrace.Conservation | agents/Fluentbit/fluentbit/include/fluent-bit/flb_event_loop.h:28-72 | every enqueue of an event was answered by a pop or a removal, or the event still waits |
| LiveLoopRuns.EventConservation | agents/Fluentbit/fluentbit/include/fluent-bit/flb_event_loop.h:74-100 | at every point of every run, for each event: enqueues = dispatches + direct removals + queued + in hand (+ what earlier runs left in hand), and no event is queued twice |
| LiveLoopRuns.Budget | agents/Fluentbit/fluentbit/include/fluent-bit/flb_event_loop.h:86-90 | at most `max_iter` dispatches unless it is -1; when the loop has stopped either nothing waits, or the budget stopped it and the one event already popped is dropped undispatched |
| LiveLoopRuns.ServesExactly | agents/Fluentbit/fluentbit/include/fluent-bit/flb_event_loop.h:49-100 | at every point of every run, exactly these are the next event or wait behind it: who waited and was not unlinked by the body, who is in range and was left behind the events the last wait reported, and who is in range, reported by the next wait and not deleted; and the next event is the most urgent of them |
| LiveLoopRuns.InjectionNotLost | agents/Fluentbit/fluentbit/include/fluent-bit/flb_event_loop.h:59-71 | whatever a body injects in range is the next event or waits behind it |
| LiveLoopRuns.EntryServesExactly | agents/Fluentbit/fluentbit/include/fluent-bit/flb_event_loop.h:80-83 | on entry exactly those who waited already and the ready events in range that are not deleted are the first event or wait behind it, each new one enqueued once |
| LiveLoopRuns.EnqueuesExplained | agents/Fluentbit/fluentbit/include/fluent-bit/flb_event_loop.h:37-72 | a round enqueues nobody but those due, and each of them once; who has waited all along is not enqueued again |
| LiveLoopRuns.LoadedInOrder | agents/Fluentbit/fluentbit/include/fluent-bit/flb_event_loop.h:37-46 | new arrivals wait behind everybody, in the order of the ready array |
| LiveLoopRuns.InjectedInOrder | agents/Fluentbit/fluentbit/include/fluent-bit/flb_event_loop.h:60-71 | so do injected events |
| LiveLoopRuns.BodyLeavesReady | agents/Fluentbit/fluentbit/include/fluent-bit/flb_event_loop.h:49-72 | behind what was reported, or last put there, stand after a body exactly the events it has injected |
| LiveLoopRuns.InRangeIff | agents/Fluentbit/fluentbit/include/fluent-bit/flb_event_loop.h:28-34 | an event can be queued if and only if its priority is not negative and below the number of buckets |
| Plugins.Drain | agents/Fluentbit/fluentbit/include/fluent-bit/flb_plugins.h:861-868 | a delete-while-iterating loop visits every entry once in order, calls cb_destroy where there is one right before unlinking, and leaves an empty list and cleared links |
| Plugins.DrainOrder | agents/Fluentbit/fluentbit/include/fluent-bit/flb_plugins.h:861-868 | plugins are freed in the order of the list, each cb_destroy called right before its plugin is freed |
| Plugins.OncePerPlugin | agents/Fluentbit/fluentbit/include/fluent-bit/flb_plugins.h:861-877 | each entry is freed exactly once and its cb_destroy called exactly once if it has one |
| Plugins.Unregister | agents/Fluentbit/fluentbit/include/fluent-bit/flb_plugins.h:845-889 | the five lists are drained one after the other, each in its own order; all are empty afterwards and every plugin's links are cleared |
| Plugins.UnregisterOncePerPlugin | agents/Fluentbit/fluentbit/include/fluent-bit/flb_plugins.h:845-889 | over all five lists each plugin is freed exactly once, and cb_destroy is called exactly once for the input plugins and the output plugins that have one, and for no plugin of the other three lists |
| FlushInvariants.StacksStep | agents/Fluentbit/fluentbit/include/fluent-bit/flb_coro.h:82-85 | every step of every coroutine keeps the active contexts of a thread a stack linked by `caller`, with the busy coroutine on top |
| FlushRuns.EveryRunSafe | agents/Fluentbit/fluentbit/include/fluent-bit/flb_output.h:507-595 | all invariants hold at every point of every interleaving of creations, resumes, yields, returns and drops on any number of threads, up to and including the first return that finishes another flush |
| FlushRuns.EngineRunFlat | agents/Fluentbit/fluentbit/include/fluent-bit/flb_coro.h:111-116 | runs in which coroutines are resumed from the thread's own stack only never come to such a return, so for them the invariants hold without end |
| FlushRuns.ParameterIsolation | agents/Fluentbit/fluentbit/include/fluent-bit/flb_output.h:507-594 | every flush runs with exactly the arguments of its own creation, although all coroutines of a thread come through one slot that each creation overwrites |
| FlushRuns.SwitchesLand | agents/Fluentbit/fluentbit/include/fluent-bit/flb_coro.h:82-116 | a flush that parks, yields or ends gives control to its last resumer, who is there to take it |
| FlushRuns.RouteSafety | agents/Fluentbit/fluentbit/include/fluent-bit/flb_output.h:544-595 | an ACTIVE route is that of a flush between activation and return; in between the route is not INACTIVE; a flush that saw DROPPED is never in cb_flush and returns FLB_ERROR |
| FlushRuns.ReturnLeavesInactive | agents/Fluentbit/fluentbit/include/fluent-bit/flb_output.h:937-941 | every return leaves its route INACTIVE until the lock is given up |
| FlushRuns.NoDeadlock | agents/Fluentbit/fluentbit/include/fluent-bit/flb_output.h:573-588 | a flush about to lock its task never waits for itself or its own thread, and the holder can always take its next step towards unlocking |
| FlushRuns.SignalsFaithful | agents/Fluentbit/fluentbit/include/fluent-bit/flb_output.h:962-990 | each finished flush has sent exactly one message, and decoding gives back its own return code, task and output |
| FlushProgress.RunningGoesOn | agents/Fluentbit/fluentbit/include/fluent-bit/flb_output.h:544-595 | in every reachable state the flush a thread runs can take its next step, except while the lock it wants is held; inside its callback it can yield or return any code |
| FlushProgress.LeisureServes | agents/Fluentbit/fluentbit/include/fluent-bit/flb_coro.h:111-116 | a thread on its own stack or in a callback can resume each of its flushes that is parked or has yielded, and create one for any route without one under way |
| FlushProgress.CreatorGoesOn | agents/Fluentbit/fluentbit/include/fluent-bit/flb_output.h:507-543 | a thread that is creating a flush can fill the slot or switch to it |
| FlushProgress.Enters | agents/Fluentbit/fluentbit/include/fluent-bit/flb_output.h:570-595 | a parked flush gets by its own steps into its callback with its route ACTIVE, or past it if the route is DROPPED |
| FlushProgress.Finishes | agents/Fluentbit/fluentbit/include/fluent-bit/flb_output.h:923-990 | from its callback it gets by its own steps to its end, with its message sent, its route INACTIVE, its task unlocked and control with its caller |
| FlushProgress.DroppedReportsError | agents/Fluentbit/fluentbit/include/fluent-bit/flb_output.h:573-592 | when the route is dropped before the flush is resumed, an FLB_ERROR is reported for it |
| FlushProgress.YieldsAndFinishes | agents/Fluentbit/fluentbit/include/fluent-bit/flb_coro.h:82-116 | a run in which a flush is created, yields in its callback, is resumed, returns and has sent its one message |
| FlushProgress.MessageIsReturned | agents/Fluentbit/fluentbit/include/fluent-bit/flb_output.h:952-963 | the code in every message is one its flush returned in the run |
| FlushProgress.ActiveUnlessDropped | agents/Fluentbit/fluentbit/include/fluent-bit/flb_output.h:573-588 | between activation and return a flush's route is ACTIVE unless it has been dropped in the run |
| FlushNested.ReturnFinishesItsOwn | agents/Fluentbit/fluentbit/include/fluent-bit/flb_output.h:1012-1023 | a return finishes the flush that called it if and only if that flush is the one last resumed on its thread |
| FlushNested.EngineReturnsFinishTheirOwn | agents/Fluentbit/fluentbit/include/fluent-bit/flb_coro.h:111-116 | when coroutines are resumed from the thread's own stack only, every return finishes its own flush |
| FlushNested.NestedReturnGoesAstray | agents/Fluentbit/fluentbit/include/fluent-bit/flb_output.h:1012-1023 | a run with a nested resume in which the return of flush 1 finishes flush 2 |
| CollectHandoff.OwnArgumentsIffKeyUnchanged | agents/Fluentbit/fluentbit/include/fluent-bit/flb_input.h:469-515 | a collect callback gets its own arguments if and only if the shared key is the one its block was registered under, whether or not keys could be made; otherwise none, never somebody else's |
| CollectHandoff.SingleThreadIsolation | agents/Fluentbit/fluentbit/include/fluent-bit/flb_input.h:530-561 | with one collecting thread every callback gets its own arguments |
| CollectHandoff.ThreadsGoOn | agents/Fluentbit/fluentbit/include/fluent-bit/flb_input.h:469-515 | in every reachable state each thread can take its next step, with the arguments it began with |
| CollectHandoff.KeyIsLastMade | agents/Fluentbit/fluentbit/include/fluent-bit/flb_input.h:542 | the key variable holds the last key that could be made |
| CollectHandoff.NoBlockLost | agents/Fluentbit/fluentbit/include/fluent-bit/flb_input.h:476-484 | every block is registered for some thread or about to be: a block found under the key is used again |
| CollectHandoff.TwoThreadsCanLose | agents/Fluentbit/fluentbit/include/fluent-bit/flb_input.h:542 | a run of two threads in which a callback finds no arguments |
| TaskRoutes.SetThenGet | agents/Fluentbit/fluentbit/include/fluent-bit/flb_task.h:217-255 | setting a route's status changes what is read for that output and for no other, also with repeated outputs; an output without route reads INACTIVE |
| TaskRoutes.Task.GetActiveRouteCount | agents/Fluentbit/fluentbit/include/fluent-bit/flb_task.h:197-215 | the number of positions whose status is ACTIVE |
| TaskRoutes.Task.GetRouteStatus | agents/Fluentbit/fluentbit/include/fluent-bit/flb_task.h:217-237 | the status of the first route to the output, INACTIVE without one |
| TaskRoutes.Task.SetRouteStatus | agents/Fluentbit/fluentbit/include/fluent-bit/flb_task.h:239-277 | the first route to the output gets the status, nothing else changes |
| TaskRoutes.ActiveCountSet | agents/Fluentbit/fluentbit/include/fluent-bit/flb_task.h:197-255 | setting a status moves the active count by the change of what is read for that output, and not at all without a route |
| TaskLifetime.DestroyedPerZeroCheck | agents/Fluentbit/fluentbit/include/fluent-bit/flb_task.h:162-185 | over every run in which decrements match increments the counters are what is outstanding and the task is destroyed once for each check that finds nobody and no retry; at most once if and only if there is at most one such check |
| TaskLifetime.NextDestroysIff | agents/Fluentbit/fluentbit/include/fluent-bit/flb_task.h:162-185 | the next operation destroys the task if and only if no retry is linked and it is a release without users or the checked decrement of the last user; so never under a holder, and a checked decrement to zero spares it exactly when a retry is linked |
| TaskLifetime.DestroyedTwice | agents/Fluentbit/fluentbit/include/fluent-bit/flb_task.h:162-167 | a matched run that destroys the task twice |
| TaskLifetime.PassedOnDestroysOnce | agents/Fluentbit/fluentbit/include/fluent-bit/flb_task.h:162-185 | when whoever takes the task gets it from a holder or a retry, and whoever releases it still has company or has just let go, it is destroyed at most once and nobody is left who could act on it |
| TaskLifetime.TaskUsers.UsersDec | agents/Fluentbit/fluentbit/include/fluent-bit/flb_task.h:179-185 | fields and list of retries stay what the whole history says; a checked decrement destroys the task exactly if it gives up the last hold and the list has no entry |
| Signals.FieldsKept | agents/Fluentbit/fluentbit/include/fluent-bit/flb_task.h:47-51 | packing and unpacking give back return code, task and output if and only if they fit their 4, 14 and 14 bits |
| Signals.FlushMessageDecodes | agents/Fluentbit/fluentbit/include/fluent-bit/flb_output.h:952-963 | the whole 64-bit message decodes to its type and its three fields |
| Signals.KindsDiffer | agents/Fluentbit/fluentbit/include/fluent-bit/flb_engine_macros.h:40-54 | a flush's message is never an input coroutine's or an engine message |
| Signals.Layout | agents/Fluentbit/fluentbit/include/fluent-bit/flb_task.h:32-51 | the messages as numbers: code from bit 28, task from bit 14, output from bit 0, kind from bit 32 on |
| Signals.FieldsRead | agents/Fluentbit/fluentbit/include/fluent-bit/flb_task.h:47-49 | what the three reading macros give for any 32-bit value |
| Signals.HalvesKept | agents/Fluentbit/fluentbit/include/fluent-bit/flb_bits.h:23-25 | the two 32-bit halves of a message are kept apart |
| Utf8Rfc3629.AcceptsExactlyWellFormed | agents/Fluentbit/fluentbit/include/fluent-bit/flb_utf8.h:58-86 | the tables end in ACCEPT exactly on the strings that are well-formed by section 4 of RFC 3629, which are the encodings of section 3, for every byte string and every initial code point cell |
| Utf8Rfc3629.DecodeInvertsEncode | agents/Fluentbit/fluentbit/include/fluent-bit/flb_utf8.h:75-86 | decoding the encoding of any sequence of scalar values gives back that sequence |
| Utf8Rfc3629.EncodeInvertsDecode | agents/Fluentbit/fluentbit/include/fluent-bit/flb_utf8.h:75-86 | a well-formed string decodes to scalar values whose encoding by section 3 of RFC 3629 is the string |
| Utf8Rfc3629.CharRuns | agents/Fluentbit/fluentbit/include/fluent-bit/flb_utf8.h:58-86 | one character takes the tables from ACCEPT to ACCEPT and yields its value |
| Utf8Rfc3629.RejectAbsorbs | agents/Fluentbit/fluentbit/include/fluent-bit/flb_utf8.h:69 | once REJECT, always REJECT, and nothing more is produced |
| Utf8Rfc3629.DecodesLongest | agents/Fluentbit/fluentbit/include/fluent-bit/flb_utf8.h:75-101 | of any string, well-formed or not, come exactly the scalar values of its longest beginning that is an encoding |
| Utf8Rfc3629.LenIsLeadingOnes | agents/Fluentbit/fluentbit/include/fluent-bit/flb_utf8.h:29-44 | of any byte flb_utf8_len is the number of ones it begins with, but 1 for those below 0xC0 and 6 for 0xFE and 0xFF |
| Utf8Rfc3629.LenAgrees | agents/Fluentbit/fluentbit/include/fluent-bit/flb_utf8.h:29-44 | flb_utf8_len of the first byte is the length of the character it starts |
| Utf8Rfc3629.CheckIsNotTail | agents/Fluentbit/fluentbit/include/fluent-bit/flb_utf8.h:27 | flb_utf8_check holds of every byte but the continuation octets |
| Utf8Rfc3629.StartsCountCodePoints | agents/Fluentbit/fluentbit/include/fluent-bit/flb_utf8.h:27 | in a well-formed string the bytes passing flb_utf8_check number exactly its code points |
| Utf8Rfc3629.Print | agents/Fluentbit/fluentbit/include/fluent-bit/flb_utf8.h:89-101 | prints the scalar values of the longest beginning of its NUL-terminated input that is an encoding, and complains exactly when that is not all of it, which is when it is not well-formed |
| SerializationBuffer.Rebuild | agents/Fluentbit/fluentbit/include/fluent-bit/flb_output.h:684-780 | every copy is in bounds, each context whose processor run returned 0 is in its place behind those before it, the chunk is longer than what was written by exactly the slack, and there is no result exactly when something fails or nothing was written |
| SerializationBuffer.InOrder | agents/Fluentbit/fluentbit/include/fluent-bit/flb_output.h:747-753 | the bytes of a context begin where those of the contexts before it end and are its own; one whose processor run failed adds none |
| SerializationBuffer.BreaksExactly | agents/Fluentbit/fluentbit/include/fluent-bit/flb_output.h:715-746 | a context makes the flush fail exactly when it cannot be encoded, or does not fit and cannot have more room |
| SerializationBuffer.Memcpy | agents/Fluentbit/fluentbit/include/fluent-bit/flb_output.h:747-751 | a copy extends what was written by the bytes copied |
| SerializationBuffer.SlackIsRoomLeft | agents/Fluentbit/fluentbit/include/fluent-bit/flb_output.h:724-746 | the slack is what the contexts that fit, in order, leave of the original size |
| SerializationBuffer.ExactIffFilled | agents/Fluentbit/fluentbit/include/fluent-bit/flb_output.h:765-771 | the chunk is exactly the concatenation if and only if the contexts that fit fill the original size |
| SerializationBuffer.ThreeBytesTooMany | agents/Fluentbit/fluentbit/include/fluent-bit/flb_output.h:765-771 | a chunk of four bytes, one of them written |
| SerializationBuffer.SlackWhenAllFits | agents/Fluentbit/fluentbit/include/fluent-bit/flb_output.h:781-877 | when everything fits the chunk keeps its original size; the traces branch is the same loop |
| SerializationBuffer.SizeBound | agents/Fluentbit/fluentbit/include/fluent-bit/flb_output.h:729-745 | the chunk is never longer than the original size plus what was serialised |
| OuBuilder.CreateCorrect | PS/adduser.ps1:138-155 | for every name under the base: the directory stays a tree, the unit is present afterwards if and only if every component whose unit is missing is clean, then exactly the units of the endings of the name were added, and a second call changes nothing |
| OuBuilder.CreateStuck | PS/adduser.ps1:145-153 | otherwise: outside the outermost missing unit with an unclean component the units are made, in its place one named by what trimming leaves, and below it nothing |
| OuBuilder.MadeIsNew | PS/adduser.ps1:145-153 | clean or not, what is made is what the directory has more afterwards, each unit once and outer ones first |
| OuBuilder.MadeIsMissing | PS/adduser.ps1:145-153 | the units are made outermost first, exactly the missing ones |
| OuBuilder.BuiltIsTree | PS/adduser.ps1:145-153 | after every level each unit under the base has its parent |
| OuBuilder.SecondCallCreatesNothing | AD/functionCreateOU.ps1:13-29 | repeating the call creates nothing, clean or not |
| OuBuilder.CleanIff | PS/adduser.ps1:148-150 | OU=name is clean if and only if the name is not empty and neither begins nor ends with O, U or =, nor, where blanks are trimmed, with a blank |
| OuNames.TextTrims | PS/adduser.ps1:148-150 | any component is trimmed to what is left of it when these characters are taken off both ends |
| OuNames.TextInside | PS/adduser.ps1:148-150 | the name a unit is made under is what is left when the characters O, U and =, and then blanks where those are trimmed, are taken off both ends |
| OuNames.InsideUnique | PS/adduser.ps1:148 | there is only one such rest |
| OuNames.CeoIsTrimmed | AD/functionCreateOU.ps1:20 | the unit CEO would be made as CE |
| OuNames.SameNameSameComponents | PS/adduser.ps1:133 | whole names are equal up to case if and only if their components are, one by one |
| OuBuilder.Directory.OUsearch | PS/adduser.ps1:131-136 | the loop over the listing, comparing whole names, returns 1 exactly when the name's components are those of a listed unit, and 0 otherwise |
| OuBuilder.Directory.Create | PS/adduser.ps1:138-155 | the loop, on names put together as strings, leaves the directory of the specification, with the created units behind the old ones in the order of the specification |
| UniqueNames.FreeNameIsFirst | PS/adduser.ps1:157-164 | the name returned is not in use and has the fewest underscores of all that are not |
| UniqueNames.SName | PS/adduser.ps1:157-164 | the loop terminates for every finite directory and returns that name |
| UniqueNames.AllUnique | PS/adduser.ps1:233-234 | no two accounts ever share a name, whatever rows are processed |
| UniqueNames.RowEffect | PS/adduser.ps1:222-275 | a row that is not active changes no name; one that is gives its own account, up to case, the row's name or that with the fewest underscores nobody had; every other account stays as it was |
| UniqueNames.RepeatedRow | PS/adduser.ps1:233-234 | processing a row again changes nothing if and only if it is not active or no other account has the name |
| UniqueNames.AccountDirectory.ProcessAll | PS/adduser.ps1:226-285 | the loop over rows, accounts found without regard to case and inactive rows renaming nothing, leaves the accounts of the specification, of which AllUnique speaks |

## Left out

- Allocation failure, other than in the re-serialisation loop; a `size_t` or `int` counter running over: the counters are unbounded.
- The logs branch of flb_output_flush_create, and the codecs and processors themselves: one call of code that is not in the repository.
- FlushRuns.EveryRunSafe: says nothing of what happens after a return has finished the wrong flush; the model stops there.
- A flush that starts on a route that has another under way: the engine, which is not in the repository, is taken to start one at a time.
- FlushRuns.RouteSafety: is about the route found first for an output, which is the one every status function reads and writes.
- FlushRuns.SignalsFaithful: assumes that the pipe write succeeds, and ids below 2^14 as the source's comment promises; Signals.FieldsKept says what larger ids do.
- LiveLoopRuns.EventConservation: counts the events that enter the queue; an event whose priority is out of range never does, and its status field is a table of the loop, not a field of a record.
- CollectHandoff.OwnArgumentsIffKeyUnchanged: takes what the key variable holds before the first key is made for a key, and a key that is made to be new.
- FlushInvariants.StacksStep: the processor's registers and stacks; a switch is a change of the active context.
- OuBuilder.CreateCorrect: letters whose folding is a comma; names with characters that distinguished names escape, and failures of the directory other than an empty name, a missing parent or an existing unit.
- UniqueNames.SName: names with wildcards, which `-like` would match as patterns; and where in the directory an account lies.
- Plugins.Unregister: a cb_destroy is taken to leave the lists alone.
- TaskLifetime.DestroyedPerZeroCheck: what an operation on a task already destroyed does to freed memory; the counters are taken to stay readable, as for the second destruction.
- Utf8.LeadCodep: bytes are numbers and the operators `&`, `<<` and `>>` are defined on them bit by bit; only the 32-bit truncation is a remainder.
- flb_time_from_uint64, byte swaps, configuration maps, flb_plugins_register, and every other script and configuration file: nothing there that the properties above need, or only easy members.
