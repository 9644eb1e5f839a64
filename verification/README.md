# Verified model of a 3DS emulator core's self-contained algorithms

A Dafny 4.11 project that models the algorithms of the emulator core whose correctness does not show from one
function body, and proves what they are for. `dafny verify dfyconfig.toml` checks everything.

| file | models |
|---|---|
| `event_spec.dfy`, `node_lists.dfy`, `core_timing.dfy` | the event scheduler: a value-level meaning, single pointer changes on linked lists, and the class on the heap |
| `timing_steps.dfy`, `timing_runs.dfy` | whole runs of the scheduler: the CPU thread and any number of other threads, each access to flag, clock and lock a step |
| `due_times.dfy` | in which of these runs events fire in nondecreasing due time, and what a step and a caller can check |
| `placement_steps.dfy`, `placement_runs.dfy` | where every event node is, in runs whose steps are single pointer writes of the CPU thread and of the holder of the lock |
| `queue_steps.dfy`, `queue_runs.dfy` | the same pointer writes on nodes with payloads, as a refinement of the runs of `TimingRuns` |
| `timing_refinement.dfy` | the two views of the scheduler agree where no other thread interferes |
| `object_forms.dfy`, `object_limits.dfy`, `pointer_wrap.dfy`, `event_state.dfy` | the one-routine serializer: the meaning of its modes on objects of any size, the class itself, and saving and loading the scheduler's linked lists with it |
| `ring_buffer.dfy` | the single-producer single-consumer ring, as an object and as two interleaved threads |
| `thread_worker.dfy`, `thread_worker_runs.dfy` | the worker pool with its two condition variables, as a step system |
| `thread_queue_list.dfy` | the 128-level priority queue of two-ended arrays, chained by pointer |
| `lzss.dfy`, `reloc3dsx.dfy` | the loader's backward LZSS decoder and 3DSX relocation engine |
| `hash.dfy`, `cmac.dfy`, `utf8.dfy`, `uri.dfy` | checksums with deferred reduction, AES-CMAC over any cipher, UTF-8, percent-encoding |
| `disk_cache.dfy`, `lru_cache.dfy` | the append-only disk cache and the LRU slot cache |
| `arith.dfy`, `bytes.dfy`, `seqs.dfy`, `wrappers.dfy` | arithmetic, fixed-width numbers, sequences and options the others share |

How the pieces fit:

- The scheduler's methods are proved on the heap against functions on values (`EventSpec`), so the list shape
  (four acyclic, disjoint lists and one place for every node) and the meaning are separate proofs. The
  interleaving machine of `TimingRuns` is tied to the same functions, step by step and for whole uninterrupted
  operations (`TimingRefinement`). `QueueRuns` refines it by single pointer writes on nodes with payloads: each
  operation takes effect at one of its writes. A callback is a finite batch of requests, one per firing, given by a
  script; every script is covered.
- The serializer is specified for objects of any size: what it moves and what it makes of the object, with every
  conversion of a size or count to `u32` or `int`. For the objects that fit those types that is a stream form that
  determines the object, and for the others it is not: both directions are proved.
- The relocation engine is stated without its own loops, by the words that a relocation table declares.
- The functions on values that the code is proved against have meanings of their own, stated in numbers, bytes or
  bits and without those functions: how long Idle waits, what the two bytes of a back-reference copy, when a program
  loads, the bits of a CMAC subkey, and every stored form byte by byte.
- Thread systems are explicit step systems. Their theorems are about every sequence of enabled steps from an
  initial state.

What turned out false of the code, with the exact condition:

- Events do not always fire in nondecreasing due time. A hand-off from another thread reads the clock, and the
  CPU thread may idle past that time before the flag is up (`DueTimes.LateHandOff`). `DueTimes.DueOrderIff`
  says exactly when the order holds, `DueTimes.InTimeIff` gives the guard that a step can check (nothing it enters
  is due earlier than the event fired last), and `DueTimes.CalmRunsFireInOrder` a condition on callers.
- Clock plus delay wraps at 2^63 and the event is then due at once; `DueTimes.DueInFuture` is the exact bound.
- The serializer loses large objects. A vector's count and byte size go through an `int`, every other count through
  a `u32`. `ObjectForms.Fits` is the bound: below 2^31 bytes for a vector of trivial elements, below 2^31 elements
  for any other vector, below 2^32 for deques, lists, maps and sets, all the way down. The measured size is the true
  size exactly then (`ObjectForms.SizeIff`), and an object whose strings have no NULs, and whose maps and
  sets have parts that fit, comes back exactly then (`ObjectLimits.ComesBackIff`). Inputs that fail:
  `ObjectLimits.FourGigabytes`, `TwoGigabytes`, `NegativeCount`.
- A string with a NUL in it is loaded as its characters up to there, so it does not come back
  (`ObjectLimits.ComesBackIff`).
- Saving, measuring and verifying a vector, deque or list resize it to its 32-bit count; `ObjectForms.KeepsIff`
  says when that changes nothing, and `PointerWrap.MeasureElements` what it leaves.
- A callback is told how late it is in an `int`; `TimingRuns.LateIff` says when that is right.
- With no workers, `WaitForRequests` returns with tasks queued (`ThreadWorkerRuns.NoWorkersNoWait`).

Where the code fixes what its comments leave open, the model follows the code: a removal returns the cycles of the
last event removed; loading a scheduler's state leaves `hasTsEvents` as it was (`DoState` does not write it); the
checksum loops read whole 16-bit words; the right-hand side of the decoder's byte copy is evaluated before its
left-hand side, as C++17 orders it, so the copy distance is one more than the offset.

## Model

| member | source | states |
|---|---|---|
| EventSpec.InsertStable | core/core_timing.cpp:231-247 | In a sorted queue the new event goes behind every event due no later and before every event due later; the others keep their order, and the queue stays sorted. |
| EventSpec.SpotSplits | core/core_timing.cpp:235-246 | In a sorted queue, every event from the place where the walk stops is strictly later, so one scan finds the only place. |
| EventSpec.WithoutCounts | core/core_timing.cpp:262-304 | A removal takes out every event it looks for and no other one, counted with multiplicity. |
| EventSpec.WithoutConcat | core/core_timing.cpp:262-304 | A removal works on the pieces of a queue independently, so what stays keeps its order. |
| EventSpec.CyclesLeftOfLast | core/core_timing.cpp:264-303 | The returned cycles are those of the last event removed, and 0 when none was. |
| EventSpec.SweptEnd | core/core_timing.cpp:267-301 | A sweep that has reached the end has computed exactly the removal and its result, whichever mix of head and inner removals it went through. |
| EventSpec.InsertAllSorted | core/core_timing.cpp:485-497 | Moving the whole thread-safe queue over keeps the main queue sorted and loses or invents no event. |
| EventSpec.RunFifoEnds | core/core_timing.cpp:465-483 | For every script of callbacks the firing loop ends, with the queue sorted and nothing due left; it only appends to the log, and only events due by the clock. |
| EventSpec.FireShrinks | core/core_timing.cpp:467-477 | With finitely many requests by callbacks, each round of the firing loop lowers the events queued plus the requests to come, so the loop ends. |
| EventSpec.CatchupLeavesNothingDue | core/core_timing.cpp:515-517 | After the move and the firing loop, every event of the main queue is due after the clock. |
| EventSpec.IdleStopsAtNext | core/core_timing.cpp:533-548 | Idle moves the clock up to the next event of the main queue and never past it, and stands still exactly when that event is due. |
| EventSpec.IdleCyclesAre | core/core_timing.cpp:533-548 | In numbers: with want the given maximum, or 1 if that is not positive, idling lasts want cycles when there is no event or the next one is at least want away, as long as the next event is away when that is less, and no time when it is due. |
| EventSpec.DueAfterDelay | core/core_timing.cpp:252-259 | Scheduling adds exactly the event due at clock plus delay to the main queue, or behind the thread-safe queue with the flag up, and changes nothing else. |
| EventSpec.RemovedAre | core/core_timing.cpp:262-304 | A removal by type takes the events of that type, and one by type and user data those that have both. |
| EventSpec.DueOnesFire | core/core_timing.cpp:465-483 | Where callbacks ask for nothing, the events due by now fire, in queue order and at the time now, and the others stay. |
| EventSpec.CatchupTakesAll | core/core_timing.cpp:485-517 | Where callbacks ask for nothing, every event of the main queue, and of the thread-safe queue exactly if the flag is up, has fired or waits in the main queue, once: what fired was due, and what waits is not. With the flag down the thread-safe queue stays as it is. |
| NodeLists.PlacedOnce | core/core_timing.cpp:83-116 | A node at some position of one of the four lists is at no other position of any of them. |
| NodeLists.PlacedTake | core/core_timing.cpp:83-103 | Taking a node off a list keeps every other node in its one place and leaves the taken one on no list. |
| NodeLists.PlacedPut | core/core_timing.cpp:105-116 | Putting a held node on a list keeps every node in exactly one place. |
| NodeLists.HangIn | core/core_timing.cpp:231-247 | The pointer writes that hang a node in between two neighbours turn the chain of the list into the chain with that node inserted. |
| NodeLists.Bypass | core/core_timing.cpp:286-294 | The pointer write that skips a node turns the chain into the chain without it, still ended by null. |
| CoreTiming.Scheduler.constructor | core/core_timing.cpp:145-152 | Four empty lists, no thread-safe events, and the clock at 0. |
| CoreTiming.Scheduler.GetNewEvent | core/core_timing.cpp:83-91 | Takes the top node of the pool, or a new one only when the pool is empty; the node is then on no list. |
| CoreTiming.Scheduler.GetNewTsEvent | core/core_timing.cpp:93-103 | The same for the thread-safe pool, counting one more allocated node. |
| CoreTiming.Scheduler.FreeEvent | core/core_timing.cpp:105-109 | A node on no list becomes the top of the pool; nothing else moves. |
| CoreTiming.Scheduler.FreeTsEvent | core/core_timing.cpp:111-116 | The same for the thread-safe pool, counting one fewer; the count never falls below the length of the queue. |
| CoreTiming.Scheduler.AddEventToQueue | core/core_timing.cpp:231-247 | The heap walk performs the value-level insertion and keeps every node in exactly one place. |
| CoreTiming.Scheduler.ScheduleEvent | core/core_timing.cpp:252-259 | The main queue gains the event at clock plus delay in 64-bit arithmetic; all lists stay intact and no existing node is lost. |
| CoreTiming.Scheduler.ScheduleEventThreadsafe | core/core_timing.cpp:191-206 | The event goes to the end of the thread-safe queue, tsLast is the last node again, and the flag is up. |
| CoreTiming.Scheduler.Unschedule | core/core_timing.cpp:262-304 | Both loops together remove exactly the events looked for, return the cycles of the last one, and leave every removed node in the pool and the thread-safe side as it was (RemoveEvent is the match by type alone). |
| CoreTiming.Scheduler.UnscheduleThreadsafe | core/core_timing.cpp:306-355 | The same for the thread-safe queue and its pool, with tsLast its last node again, null exactly when it is empty. |
| CoreTiming.Scheduler.ClearPendingEvents | core/core_timing.cpp:221-229 | The main queue is empty and all its nodes are in the pool. |
| CoreTiming.Scheduler.FireFirst | core/core_timing.cpp:469-477 | One round of the firing loop: during the callback the fired node is on no list, whatever the callback schedules or removes, and it ends on top of the pool. |
| CoreTiming.Scheduler.ProcessFifoWaitEvents | core/core_timing.cpp:465-483 | The loop over the heap is the value-level firing loop, for every finite script of what callbacks ask. |
| CoreTiming.Scheduler.MoveEvents | core/core_timing.cpp:485-508 | Every thread-safe event is inserted in hand-off order, the flag is down, tsLast is null and its nodes are in the main queue; then the allocation count drops by the number of nodes that go, one by one, from the top of the pool to the top of the thread-safe pool, until the count or the pool runs out. |
| CoreTiming.Scheduler.Advance | core/core_timing.cpp:510-521 | One cycle, then the move if the flag is up, then the firing loop, then the advance callback. |
| CoreTiming.Scheduler.Idle | core/core_timing.cpp:533-553 | The clock and the idle count each move by want cycles (the given maximum, or 1) when there is no event or the next one is at least want away, by the distance of the next event when that is less, and not at all when it is due; then as Advance. |
| CoreTiming.Scheduler.IsScheduled | core/core_timing.cpp:363-374 | True exactly when the main queue has an event of the type. |
| CoreTiming.Scheduler.Shutdown | core/core_timing.cpp:154-174 | With no concurrent scheduling, every node that exists is deleted, each exactly once. |
| TimingRuns.NoHandOffStranded | core/core_timing.cpp:191-206 | In every interleaving of the CPU thread with any number of others, a non-empty thread-safe queue has the flag up whenever the lock is free and the CPU thread is not between clearing the flag and taking the lock. |
| TimingRuns.HandedOffOnce | core/core_timing.cpp:485-497 | In every interleaving each hand-off is, exactly once, moved, waiting or unscheduled, and hand-offs move in the order they were made. |
| TimingRuns.FiresInTurn | core/core_timing.cpp:465-483 | In every interleaving no event fires early, and events with equal due time fire in the order they entered the main queue. |
| TimingRuns.LateIff | core/core_timing.cpp:475-475 | In every interleaving the int that a callback is told equals how late it is, and so is not negative, if and only if that is below 2^31 cycles. |
| TimingRuns.NothingDueOnReturn | core/core_timing.cpp:510-521 | In every interleaving, when the firing loop ends every event left in the main queue is due after the clock. |
| TimingSteps.IdleWaits | core/core_timing.cpp:533-548 | The same of the Idle step of a run: want cycles, the distance of the next event, or none. |
| DueTimes.DueOrderIff | core/core_timing.cpp:231-247 | Events fire in nondecreasing due time if and only if every step that enters events in the main queue, a schedule or a move, enters those that fire later no earlier than the event fired last. |
| DueTimes.InTimeKeepsOrder | core/core_timing.cpp:231-247 | A run whose every schedule or move enters no event due earlier than the event fired last, a guard on the step alone, fires in nondecreasing due time. |
| DueTimes.InTimeIff | core/core_timing.cpp:252-259 | After steps that meet this guard, the next step meets it if and only if events keep firing in nondecreasing due time in every continuation that enters no further event. |
| DueTimes.CalmRunsFireInOrder | core/core_timing.cpp:191-206 | With nonnegative delays that fit the clock, and the clock at rest while another thread is between reading it and raising the flag, events fire in nondecreasing due time. |
| DueTimes.LateHandOff | core/core_timing.cpp:533-553 | A run with nonnegative delays only that fires out of due order: the CPU thread idles past a hand-off that has read the clock and not raised the flag. |
| DueTimes.DueInFuture | core/core_timing.cpp:257-257 | A nonnegative delay gives a due time that is not in the past exactly when clock plus delay fits 64 signed bits. |
| TimingRefinement.ErasesSchedule | core/core_timing.cpp:252-259 | A scheduling step of a run does to queue, flag, clock and log what the scheduler class does. |
| TimingRefinement.ErasesMove | core/core_timing.cpp:489-497 | A move step of a run does to both queues what the scheduler class does. |
| TimingRefinement.ErasesFire | core/core_timing.cpp:469-475 | A firing step of a run does to queue and log what the scheduler class does before the callback. |
| TimingRefinement.ErasesDo | core/core_timing.cpp:191-206 | Each request of a callback, as the fine steps it consists of with no other thread interfering, has the effect it is specified to have. |
| TimingRefinement.ErasesLoop | core/core_timing.cpp:465-483 | The firing loop in fine steps, with every script of callbacks in fine steps too, is the value-level firing loop. |
| TimingRefinement.UninterruptedOperations | core/core_timing.cpp:510-553 | An uninterrupted Advance or Idle of the step system ends in the state that the scheduler class is proved to end in. |
| TimingRefinement.UninterruptedCalls | core/core_timing.cpp:465-508 | Uninterrupted direct calls of MoveEvents and of the firing loop are the move and the firing loop of the scheduler class, and go back to guest code. |
| PlacementRuns.OnePlace | core/core_timing.cpp:83-116 | However the pointer writes of the CPU thread, which works on the main queue and its pool without the lock, interleave with those of the lock's holder, each existing node is on one list once or in one thread's hands, and no other node is anywhere. |
| PlacementRuns.PointersFollow | core/core_timing.cpp:191-508 | In every such interleaving, between two operations of the CPU thread first and eventPool lead through the main queue and its pool, and with the lock free tsFirst and eventTsPool lead through theirs, tsLast being the last node. |
| PlacementSteps.InvStep | core/core_timing.cpp:221-508 | Every pointer write of a schedule, a removal, a firing, a hand-off or a move, with what each thread keeps in local variables, keeps four disjoint chains and one holder for every other node. |
| QueueRuns.RefinesTiming | core/core_timing.cpp:83-508 | However the pointer writes on nodes with payloads interleave, the steps that take effect are a run of TimingRuns, where moves and removals are single steps: the same callbacks are called in the same order, and first, between two operations of the CPU thread, and tsFirst, with the lock free, lead through nodes that hold just its two queues. |
| QueueSteps.StepAgrees | core/core_timing.cpp:231-508 | Every single pointer write, clock read or flag access keeps the pointers and payloads in agreement with TimingRuns, which takes at most one step, and that one enabled. |
| QueueRuns.NodesInOrder | core/core_timing.cpp:231-247 | In every such interleaving first leads through nodes in due order when the CPU thread is between two operations, and with the lock free no hand-off is left without the flag unless a move is about to take it. |
| QueueRuns.QueuesUnread | core/core_timing.cpp:231-508 | The pointer machine is one of its own: no step looks at the queues or the logs of TimingRuns. |
| ObjectForms.EncInjective | common/chunk_file.h:213-521 | No object's stream form is a prefix of another's of the same shape, so the form determines the object. |
| ObjectLimits.SmallForms | common/chunk_file.h:213-521 | The form of small objects in literal bytes: counts in four bytes, least significant first, parts one after the other, a key before its value, a string behind its length, NUL included. |
| ObjectForms.PutKeyLast | common/chunk_file.h:255-264 | Assigning the largest key yet appends to the map, so loading in key order restores it. |
| ObjectForms.VectorBytesIs | common/chunk_file.h:124-127 | The size_t product of sizeof and an int count, handed over as an int, is the product wrapped to 32 bits, and never more than the true size. |
| ObjectForms.OutIsEnc | common/chunk_file.h:213-521 | What is moved for an object that fits (counts and byte sizes within the types they go through) is its whole stream form. |
| ObjectForms.LoadedIs | common/chunk_file.h:213-521 | Loading an object that fits, its strings without NULs, gives it back, whatever object there was before, for every nesting of vectors, deques, lists, maps, sets, strings and classes. |
| ObjectForms.SizeIff | common/chunk_file.h:213-521 | For an object of any size and nesting, the size that is measured never passes its true size, and is the true size if and only if it fits. |
| ObjectLimits.ComesBackIff | common/chunk_file.h:373-381 | An object of any nesting of vectors, deques, lists, maps, sets, strings, pods and classes, and of any size, with the parts of its maps and sets within the limits, comes back over every other object, without a block of negative size, if and only if it fits and no string has a NUL in it. |
| ObjectLimits.MapComesBackIff | common/chunk_file.h:247-264 | A map of any size whose parts fit, with no NULs in strings, is loaded as its first size modulo 2^32 entries, so it comes back if and only if it has fewer than 2^32. |
| ObjectLimits.SetComesBackIff | common/chunk_file.h:474-492 | The same for sets. |
| ObjectForms.KeepsIff | common/chunk_file.h:373-381 | Saving, measuring and verifying leave an object of any size and nesting unchanged if and only if no vector, deque or list the loops get to has 2^32 elements or more. |
| ObjectForms.CountKeepsIff | common/chunk_file.h:376-378 | A vector, deque or list of such elements is cut to its size modulo 2^32 in the modes that do not load, and so keeps its elements if and only if there are fewer than 2^32. |
| ObjectLimits.FourGigabytes | common/chunk_file.h:124-127 | An input that fails: of 2^30 elements of four bytes only the count is measured and saved, 4 bytes of 4 + 2^32, and loading over an empty vector gives zeros. |
| ObjectLimits.TwoGigabytes | common/chunk_file.h:213-223 | An input that fails: 2^31 elements of one byte make a block of negative size, and measuring takes the cursor back by 2^31. |
| ObjectLimits.NegativeCount | common/chunk_file.h:109-113 | Inputs that fail: of 2^31 to 2^32 - 1 elements that are not trivial, none is moved in any mode, only their number. |
| PointerWrap.PointerWrap.SetError | common/chunk_file.h:192-198 | The worse error is kept, and a failure switches the mode to measuring. |
| PointerWrap.PointerWrap.DoVoid | common/chunk_file.h:213-223 | With an int size: each mode moves exactly that many bytes; loading copies them out, saving in, verifying reports exactly a difference, measuring nothing; the cursor moves by the size, back if it is negative. |
| PointerWrap.PointerWrap.DoVector | common/chunk_file.h:373-381 | For vectors of any size: the count goes through a u32, the vector is resized to it, and the elements move as one block of an int size, or one by one up to an int count. |
| PointerWrap.PointerWrap.DoSeq | common/chunk_file.h:409-460 | For deques and lists of any size: the count goes through a u32, the container is resized to it, and as many elements move one by one. |
| PointerWrap.PointerWrap.DoMap | common/chunk_file.h:247-283 | Loading rebuilds the map key by key from as many entries as the u32 count says; the other modes copy each key and do the value in place. |
| PointerWrap.PointerWrap.DoSet | common/chunk_file.h:474-506 | Loading rebuilds the set by insertion of as many elements as the u32 count says; the other modes leave it unchanged. |
| PointerWrap.PointerWrap.DoString | common/chunk_file.h:509-521 | A string is loaded as its characters up to the first NUL, and is unchanged in the other modes; measuring and saving go by the int length. |
| PointerWrap.PointerWrap.Do | common/chunk_file.h:558-561 | For every nesting and size, the object after the call and the bytes moved are those of the value-level meaning, which OutIsEnc, LoadedIs, KeepsIff and SizeIff of ObjectForms and ObjectLimits.ComesBackIff tie to the stream form and the saved object. |
| PointerWrap.SaveAndLoad | common/chunk_file.h:213-521 | Measured, saved to a buffer of that size and loaded over any other object of the shape, an object that fits and has no NULs in its strings comes back; the measured size is the written size, and the image its stream form. |
| PointerWrap.Measure | common/chunk_file.h:213-521 | Measuring an object of any size gives at most its true size, exactly that if and only if it fits, and changes the object if and only if a container in it has 2^32 elements or more. |
| PointerWrap.MeasureElements | common/chunk_file.h:376-378 | Measuring a vector, deque or list of any size cuts it to its size modulo 2^32. |
| PointerWrap.DoAfterFailure | common/chunk_file.h:192-198 | After a failure no load changes the buffer, nor an object unless a container in it has 2^32 elements or more: the mode is measuring, and moving objects never changes the mode. |
| PointerWrap.VerifyFindsDifference | common/chunk_file.h:213-223 | Verifying an object that fits against the saved form of another reports a difference exactly when they differ. |
| EventState.ImageBack | core/core_timing.cpp:576-579 | The bytes of a BaseEvent determine the event, whatever is in the padding. |
| EventState.ImageBytes | core/core_timing.cpp:576-579 | Where each field lies in the 24 bytes: the time in the first eight, the user data in the next eight, the type in four, each least significant byte first and in two's complement, then the padding. |
| EventState.ListFormBytes | common/chunk_file.h:583-634 | A byte 1 before the image of each node and a byte 0 at the end. |
| EventState.ListFormSize | common/chunk_file.h:583-634 | A saved event list takes 25 bytes an event and one more. |
| EventState.DoList | common/chunk_file.h:577-635 | Loading turns any queue into the saved one: existing nodes are reused from the front, missing ones come from the pool or are new, surplus ones go to the pool, and tsLast is the last node; the other modes change nothing. |
| EventState.FreeSurplus | common/chunk_file.h:611-629 | The list is cut off behind prev and every node after it is in the pool, with the allocation count kept for the thread-safe list. |
| EventState.LoadNew | common/chunk_file.h:589-601 | A missing node is taken, filled from the stream and linked behind the last one. |
| EventState.SaveAndLoad | core/core_timing.cpp:594-595 | Measuring, saving and loading an event queue over any queue of any other scheduler gives it the same events in the same order. |
| RingBuffer.WrapKeepsSlot | common/ring_buffer.h:47-47 | Indices that wrap at 2^64 still count slots modulo the capacity, because it is a power of two. |
| RingBuffer.CountsExact | common/ring_buffer.h:44-45 | The wrapped subtractions give exactly the filled and free slots. |
| RingBuffer.RingBuffer.Push | common/ring_buffer.h:42-59 | Appends to the contents as many of the new slots as there is room for, through the two copies. |
| RingBuffer.RingBuffer.Pop | common/ring_buffer.h:69-86 | Takes from the front of the contents as many slots as there are and are wanted. |
| RingBuffer.RingBuffer.Size | common/ring_buffer.h:96-98 | The number of slots in the buffer. |
| RingBuffer.SlotIs | common/ring_buffer.h:47-54 | The k-th slot of the first copy followed by the second is slot (index + k) modulo the capacity, for the unwrapped index. |
| RingBuffer.InvStep | common/ring_buffer.h:42-86 | Every load, copy of one slot, and store of either side keeps the indices, the array and both sides' local copies consistent. |
| RingBuffer.PoppedIsPrefixOfPushed | common/ring_buffer.h:42-86 | In every interleaving of one producer and one consumer what was popped, and is being popped, is a prefix of what was pushed; write minus read is exactly the slots in between, at most the capacity. |
| RingBuffer.PushTakesWhatFits | common/ring_buffer.h:42-59 | In every interleaving, a call of Push pushes as many of its slots as there was room for when it loaded the read index, whatever the consumer does between its steps. |
| RingBuffer.PopTakesWhatIsThere | common/ring_buffer.h:69-86 | In every interleaving, a call of Pop pops as many slots as were wanted and there when it loaded the write index, whatever the producer does between its steps. |
| RingBuffer.CopiesApart | common/ring_buffer.h:50-54 | In every interleaving no slot being copied in is a slot being copied out. |
| RingBuffer.NeitherBlocks | common/ring_buffer.h:42-86 | In every reachable state each side has a step to take, and no copy leaves the array. |
| ThreadWorker.InvStep | common/thread_worker.h:42-103 | Every step of every worker, producer and waiter keeps the lock exclusive, the counters balanced, each task with one owner, and a pending wake-up behind every sleeper that needs one. |
| ThreadWorkerRuns.ScheduledIsAccountedFor | common/thread_worker.h:46-67 | Whenever the lock is free, scheduled equals queued plus running plus done. |
| ThreadWorkerRuns.TasksRunOnce | common/thread_worker.h:58-66 | Each task is started at most once, and only tasks that were queued are. |
| ThreadWorkerRuns.TakenInOrder | common/thread_worker.h:58-66 | Of two tasks, the one that a worker took off the queue first was put on it first. |
| ThreadWorkerRuns.WaitReturnsWhenDone | common/thread_worker.h:93-103 | With at least one worker, WaitForRequests returns only when every task scheduled by then has run. |
| ThreadWorkerRuns.NoWakeUpLost | common/thread_worker.h:48-67 | A waiter asleep though its predicate holds has a worker between counting its task and looking at the queue under the lock. |
| ThreadWorkerRuns.NoWorkersNoWait | common/thread_worker.h:100-102 | Without workers WaitForRequests can return with a task still queued. |
| ThreadWorkerRuns.RestMeansDone | common/thread_worker.h:42-103 | Where no thread can go on by itself, the queue is empty, every task has run and every caller has returned: no deadlock and no lost wake-up. |
| ThreadWorkerRuns.EveryCallReturns | common/thread_worker.h:42-103 | From any reachable state, without new calls and spurious wake-ups, at most a computed number of steps remain, and then every task has run and every caller has returned. |
| ThreadQueueList.ChainVisitsPrepared | common/thread_queue_list.h:180-188 | The chain from first visits exactly the prepared levels, in increasing priority number. |
| ThreadQueueList.ChainAfter | common/thread_queue_list.h:177-185 | Linking behind the nearest better prepared level keeps the chain. |
| ThreadQueueList.ChainFirst | common/thread_queue_list.h:187-188 | Linking before all prepared levels keeps the chain. |
| ThreadQueueList.Queue.Rebalance | common/thread_queue_list.h:191-208 | Recentring and doubling keep the contents and leave room at both ends. |
| ThreadQueueList.Queue.PushFront | common/thread_queue_list.h:89-94 | The id comes before the contents, and there is room at both ends again. |
| ThreadQueueList.Queue.PushBack | common/thread_queue_list.h:96-101 | The id comes after the contents, and there is room at both ends again. |
| ThreadQueueList.Queue.Rotate | common/thread_queue_list.h:121-131 | The first id becomes the last when there is more than one. |
| ThreadQueueList.Queue.Remove | common/thread_queue_list.h:103-119 | The first occurrence of the id is gone and the others close up. |
| ThreadQueueList.ThreadQueueList.PopFirst | common/thread_queue_list.h:63-74 | Takes the front of the best non-empty level and leaves all else, or returns 0 and changes nothing. |
| ThreadQueueList.ThreadQueueList.PopFirstBetter | common/thread_queue_list.h:76-87 | The same among the strictly better levels only. |
| ThreadQueueList.ThreadQueueList.PushFront | common/thread_queue_list.h:89-94 | On the map of levels: one level changes, at its front. |
| ThreadQueueList.ThreadQueueList.PushBack | common/thread_queue_list.h:96-101 | On the map of levels: one level changes, at its end. |
| ThreadQueueList.ThreadQueueList.Remove | common/thread_queue_list.h:103-119 | On the map of levels: one occurrence goes from one level; an unprepared level stays unprepared. |
| ThreadQueueList.ThreadQueueList.Rotate | common/thread_queue_list.h:121-131 | On the map of levels: one level rotates; an unprepared level stays unprepared. |
| ThreadQueueList.ThreadQueueList.Prepare | common/thread_queue_list.h:148-152 | A level that was not prepared is, and is empty; nothing else changes. |
| ThreadQueueList.ThreadQueueList.Link | common/thread_queue_list.h:159-189 | A new level of at least the wanted capacity joins the chain at its place. |
| ThreadQueueList.ThreadQueueList.Contains | common/thread_queue_list.h:46-61 | The best level holding the id, or -1 exactly when none does. |
| ThreadQueueList.ThreadQueueList.Empty | common/thread_queue_list.h:143-146 | True exactly when the level is unprepared or has no id. |
| ThreadQueueList.ThreadQueueList.Clear | common/thread_queue_list.h:133-141 | No level is prepared any more. |
| ThreadQueueList.BestIs | common/thread_queue_list.h:63-87 | What the pops call best: the level is non-empty and every better one is empty or unprepared. |
| ThreadQueueList.PoppedIs | common/thread_queue_list.h:63-87 | A pop returns 0 and changes nothing when no level in its range has an id, and otherwise takes the front of the first level that has one. |
| ThreadQueueList.RotationIsFair | common/thread_queue_list.h:121-131 | Rotating a level once for each id in it gives every id its turn at the front and restores the order. |
| Lzss.Decompress | core/loader.cpp:252-309 | Succeeds exactly when the stream has a meaning in the buffer, with that meaning at the buffer's end; every byte below it still is the input, then zeros; all accesses in bounds. |
| Lzss.CopySegment | core/loader.cpp:292-297 | A back-reference reads only bytes decoded already, each before it is needed, and fails exactly when the first of them is past the end. |
| Lzss.DecodeGroup | core/loader.cpp:268-306 | The loop over one control byte consumes the tokens of that group and leaves the meaning of the rest. |
| Lzss.FooterBytes | core/loader.cpp:243-263 | In byte values: from the end of the input, the stop index lies the first three bytes of the footer back, the start index its fourth, and the last four give how much the output is longer. |
| Lzss.ControlOnTop | core/loader.cpp:272-274 | A control byte stands on top of the eight tokens it is for; at or below the stop index there are none. |
| Lzss.LiteralBytes | core/loader.cpp:299-305 | Under a clear top bit of the control byte the next byte down is put out as it is, and the bits move up by one. |
| Lzss.BackBytes | core/loader.cpp:279-298 | Under a set top bit, the next two bytes down, high above low, put out high / 16 + 3 bytes, each equal to the one (high % 16) * 256 + low + 3 places after it; decoding fails exactly where the first of those is not there or the room is too small. |
| Lzss.BackAlone | core/loader.cpp:280-282 | A back-reference with only one byte left above the start of the input fails. |
| Lzss.FourTwice | core/loader.cpp:252-309 | A stream in literal bytes, four literals and a copy of them, and what it decodes to. |
| Lzss.CopyBackRepeats | core/loader.cpp:292-297 | A copied segment equals, byte for byte, what lies off + 1 places after it, overlapping or not, and what was there stays. |
| Lzss.ExpandKeeps | core/loader.cpp:266-308 | Decoded bytes are never changed again and never exceed the buffer. |
| Lzss.WriteParses | core/loader.cpp:266-306 | Reading the stream written for any token list gives that list back, wherever in a file it lies and whatever surrounds it. |
| Lzss.FileDecodes | core/loader.cpp:243-309 | A text whose tail some tokens expand to is decoded from its file, with the size the footer gives. |
| Lzss.Restore | core/loader.cpp:243-309 | Decoding the file into a buffer of the computed size gives the whole text, untouched head and decoded tail. |
| Reloc3dsx.SegSizeIs | core/loader.cpp:729-736 | The overflow check fails exactly above 0xFFFFF000, and below that the size is rounded up to whole pages. |
| Reloc3dsx.TranslateAddsBase | core/loader.cpp:694-702 | Under the contiguous layout every address translates to base plus itself modulo 2^32, also where the second offset has wrapped. |
| Reloc3dsx.PatchedIs | core/loader.cpp:800-822 | An absolute word becomes base plus its low 28 bits; a relative one its target minus its own address, modulo 2^32 or, for subtype 1, modulo 2^31. |
| Reloc3dsx.RelocateChunk | core/loader.cpp:794-825 | A chunk patches exactly the words its entries declare in the segment, each once, and fails exactly when one of them has a bad subtype. |
| Reloc3dsx.RelocateTable | core/loader.cpp:781-826 | The chunked loop does what the whole table declares, independent of the chunk size, and fails exactly when it runs past the file or a declared word has a bad subtype. |
| Reloc3dsx.TableConcat | core/loader.cpp:785-825 | Two stretches of a table, one after the other, patch what the whole table does. |
| Reloc3dsx.SplitDeclared | core/loader.cpp:794-825 | No word is declared by two stretches of a table: each word is patched at most once per table. |
| Reloc3dsx.Relocate | core/loader.cpp:771-827 | Succeeds exactly when every nonempty absolute and relative table ends within the file and every word they declare has a good subtype; the image is then that of the table-by-table meaning, tables beyond the second being skipped. |
| Reloc3dsx.LoadsIff | core/loader.cpp:771-827 | A program loads if and only if each of the first two tables of every segment is empty or ends within the file, every word declared absolute has top nibble 0, and every word declared only relative has top nibble 0 or 1. |
| Reloc3dsx.DeclaredIff | core/loader.cpp:794-821 | A table declares the words that lie, for some entry, behind its skip words and all words of the entries before it, as many as its patch count. |
| Reloc3dsx.Places | core/loader.cpp:771-784 | Segments lie one behind the other, and so do the tables in the file: those of a segment after those of the segments before it, absolute before relative. |
| Reloc3dsx.EntriesThere | core/loader.cpp:785-792 | The entries of a table that is in the file are as many as its count, the stretch of the file at its place. |
| Reloc3dsx.LoadedWords | core/loader.cpp:771-827 | In a loaded image each word went through the two tables of its own segment where they declare it, and every other word is as in the file. |
| Reloc3dsx.LoadedValues | core/loader.cpp:771-827 | The same in numbers, for words that one table, both, or none declares: base plus the word, the word minus its address, or both one after the other; a word that none declares is as in the file. |
| Hash.HashAdler32 | common/hash.cpp:45-80 | Equals the Adler-32 checksum of section 2.2 of RFC 1950 on every byte string, with no 32-bit overflow. |
| Hash.AdlerMore | common/hash.cpp:45-80 | The checksum of nothing is 1, and one byte more is added to the low half, and that to the high half, both modulo 65521. |
| Hash.AdlerBlock | common/hash.cpp:54-59 | Within 5550 bytes both sums stay in 32 bits and congruent to the unreduced ones. |
| Hash.AdlerFolds | common/hash.cpp:61-65 | The bounds 0x1013A and 0xFFF87 hold again after every block. |
| Hash.AdlerEnds | common/hash.cpp:65-77 | After the last block one subtraction for each sum reduces it fully. |
| Hash.HashFletcher | common/hash.cpp:13-38 | Both sums modulo 65535 as representatives in 1..65535, over 16-bit words, the last of which has the byte after odd-length data; no overflow. |
| Hash.FletcherMore | common/hash.cpp:17-37 | The checksum of nothing is 0xFFFFFFFF, and one word more is added to the low half, and that to the high half, modulo 65535, both in 1..65535. |
| Hash.WordsMore | common/hash.cpp:15-16 | One more word is that of the next two bytes, the lower one first. |
| Hash.FletcherBlock | common/hash.cpp:24-28 | Within 360 words both sums stay in 32 bits and congruent to the unreduced ones. |
| Cmac.IncrementCtr | common/commoncrypto_aes.h:24-32 | Adds the number of blocks to the big-endian counter modulo 2^128. |
| Cmac.IncIs | common/commoncrypto_aes.h:26-30 | The carry loop adds one modulo 256^n to a counter of n bytes. |
| Cmac.LeftShiftOne | common/commoncrypto_aes.h:146-155 | The block whose big-endian number is twice the input's modulo 2^128. |
| Cmac.XorBits | common/commoncrypto_aes.h:138-144 | Each bit of the exclusive or is set exactly when it is set in one of the two. |
| Cmac.XorBlock | common/commoncrypto_aes.h:138-144 | Byte by byte exclusive or. |
| Cmac.AesCmac | common/commoncrypto_aes.h:181-237 | The MAC of sections 2.3 and 2.4 of RFC 4493 for every message length and every block cipher, failing exactly when the cipher does. |
| Cmac.SubkeyBits | common/commoncrypto_aes.h:192-199 | Bit k of a subkey is bit k - 1 of the block it is made from, 0 for k = 0, flipped exactly when that block's top bit is set and k is 0, 1, 2 or 7. |
| Cmac.MacIs | common/commoncrypto_aes.h:201-231 | The last cipher input is the chain's value, the last block and a subkey: the last 16 bytes under the first subkey for a positive multiple of 16, otherwise the rest, a byte 0x80 and zeros under the second. |
| Utf8.FollowsLayout | common/utf8.cpp:154-179 | The bytes of a code point follow the table of section 3 of RFC 3629: as few as do, lead byte with their number, continuation bytes, and the code point in the rest. |
| Utf8.LayoutNumbers | common/utf8.cpp:113-148 | The same in numbers, byte by byte; what is not below 0x110000 has no bytes. |
| Utf8.GatherReads | common/utf8.cpp:89-97 | Adding up the bytes of a character and subtracting the offset gives its code point. |
| Utf8.ToUcs | common/utf8.cpp:68-102 | Decodes encoded text to its code points, as many as fit, always ended by 0. |
| Utf8.ToUtf8 | common/utf8.cpp:113-152 | Writes whole characters as far as they fit, and a NUL when everything fits with room to spare. |
| Utf8.FittingIs | common/utf8.cpp:119-148 | The number written is the most that fits: one character more would not. |
| Utf8.RoundTrip | common/utf8.cpp:68-152 | Encoding then decoding, with large enough buffers, gives back every sequence of code points below 0x110000. |
| Utf8.Offset | common/utf8.cpp:182-192 | The byte where a character starts, or where the text ends. |
| Utf8.CharNum | common/utf8.cpp:195-205 | The number of characters that start before a byte offset. |
| Utf8.CharNumOfOffset | common/utf8.cpp:182-205 | The character number of the offset of character k is k, for every k up to the number of characters. |
| DiskCache.Format.TruncationReadsPrefix | common/linear_disk_cache.h:53-119 | Any truncation of a file made by the header and any appends is read as exactly the entries that are whole in it, in order; the file itself as all of them. |
| DiskCache.Format.TakeWrites | common/linear_disk_cache.h:81-103 | On any file whatever, an entry that is taken is there byte for byte, with its number. |
| DiskCache.Format.TakenIff | common/linear_disk_cache.h:81-104 | On any file whatever: an entry is taken if and only if all of it is in the file and its number is the next one, and then with the count in its first four bytes, the key, and the value behind it. |
| DiskCache.Format.AppendedBytes | common/linear_disk_cache.h:135-143 | What an append adds, in bytes: the count in four, the key, the value, and the number of the entry in four, counted from 1. |
| DiskCache.LinearDiskCache.OpenAndRead | common/linear_disk_cache.h:53-119 | Hands over the entries of the file, and nothing that is not in it from the header on, or starts the file afresh when the header is not ours. |
| DiskCache.LinearDiskCache.Append | common/linear_disk_cache.h:135-143 | The file of the entries so far becomes the file of those and one more. |
| DiskCache.LinearDiskCache.Reopen | common/linear_disk_cache.h:53-119 | Reopening reads back every append of all sessions, and the next append goes on behind them. |
| DiskCache.SameNumber | common/linear_disk_cache.h:94-104 | Counting entries in 32 bits, on both sides, makes no difference to what is read. |
| LruCache.StaticLRUCache.Request | common/static_lru_cache.h:59-89 | Hits exactly the keys among the most recently requested Size distinct ones and returns the slot the key's last miss did; a miss gives a slot no other key in the cache has. |
| LruCache.AmongMostRecent | common/static_lru_cache.h:59-89 | A key is among the n most recent exactly when fewer than n distinct other keys were requested after it. |
| LruCache.SlotsAreAll | common/static_lru_cache.h:63-70 | The slots in use are exactly 0 to size - 1. |
| LruCache.RecentIs | common/static_lru_cache.h:74-84 | The recency list has each requested key exactly once. |
| LruCache.StaticLRUCache.Evict | common/static_lru_cache.h:101-107 | The least recent key goes, and its slot is handed on. |
| LruCache.StaticLRUCache.Find | common/static_lru_cache.h:96-99 | The first place of the key, or the end exactly when it is not there. |
| Uri.DecodeEncode | common/string_util.cpp:358-383 | Decoding what was encoded gives every byte string back. |
| Uri.EncodedForm | common/string_util.cpp:358-383 | Encoded text is letters, digits and complete escapes with upper-case digits, in the form of section 2.4.1 of RFC 2396, at most three bytes a byte. |
| Uri.UriEncode | common/string_util.cpp:358-383 | The pointer loop computes the escape form within its buffer. |
| Uri.UriDecode | common/string_util.cpp:293-331 | Both loops together decode every complete escape and keep everything else, within a buffer as long as the input. |
| Uri.DecodeFileUrlPath | core_adapter.cpp:99-116 | Decodes exactly as UriDecode does on every input, malformed and trailing escapes included. |
| Uri.NibblesAgree | core_adapter.cpp:92-97 | The two readers of hexadecimal digits agree on every byte. |
| Uri.EscapeValue | common/string_util.cpp:293-331 | A percent sign and two of the digits 0 to 9, A to F and a to f stand for the byte of that value. |
| Uri.NoEscape | common/string_util.cpp:293-331 | Every other byte stands for itself, a percent sign without two such digits after it too. |
| Uri.EncodedBytes | common/string_util.cpp:358-383 | Digits and letters are encoded as themselves, every other byte as a percent sign and two upper-case digits. |
| Uri.RoundTrip | common/string_util.cpp:293-383 | UriDecode of UriEncode is the identity. |

## Left out

- CoreTiming.Scheduler.Advance: requires the clock to stay below 2^63, since signed overflow is undefined in the source; the same holds for Idle.
- CoreTiming.Scheduler.Shutdown: does not check that callbacks schedule nothing meanwhile and that no node is in use; both are required. The registry of event types is not modelled.
- CoreTiming.Scheduler.GetNewTsEvent: allocatedTsEvents is an int in the source and unbounded here.
- PlacementRuns.OnePlace: which events the walks stop at and the removals take is left open, so that every choice is covered; QueueRuns adds the payloads, the clock and the flag. The allocation count is in neither. Loading a state and the shutdown are not steps.
- QueueRuns.RefinesTiming: the payload of a node is written in one step, with the pool write that takes it or, in a hand-off, with the clock read; the cycles that a removal returns are not kept.
- TimingRuns.FiresInTurn: a callback that itself advances the clock, moves events or runs the firing loop is not a step there.
- TimingRuns.NoHandOffStranded: does not cover state loads, which restore the thread-safe queue and not the flag. The move under the lock is one step there, as is the critical section of a removal; QueueRuns takes them apart.
- PointerWrap.PointerWrap.Do: loading is stated for buffers that hold the stream form of some object of the shape; containers of raw pointers, multimaps, wide strings, section markers and version checks are not modelled.
- PointerWrap.PointerWrap.DoVoid: a block of negative size is modelled when measuring. The other modes hand it to memcpy, which is undefined, or in MODE_VERIFY step back over what was compared; Room excludes it there.
- PointerWrap.PointerWrap.DoString: the overflow of the int length at 2^31 - 1 characters is taken to wrap. Loading and verifying are stated for strings below that length, since the NUL of a longer one is not in the stream; verifying also for strings without NULs only.
- ObjectLimits.ComesBackIff: not for maps and sets whose parts do not fit or have NULs in strings: their values are loaded into default ones and may come back when they are zeros. Types of no bytes at all are excluded.
- PointerWrap.PointerWrap.DoSet: only for elements of trivial type, since the source's DoSet passes a constant element and does not compile for others.
- EventState.DoList: padding bytes of a node are a parameter, because the source writes whatever is there. The scheduler's other saved fields are plain values and add nothing.
- RingBuffer.RingBuffer.Push: a slot of several elements is one value; a capacity of 0, which the source's checks admit and its code would divide by, is excluded; atomics are sequentially consistent, as the source uses them. Size from a third thread is not modelled.
- ThreadWorkerRuns.EveryCallReturns: counters are unbounded, so a wrap after 2^64 tasks is not modelled; a requested stop and the shutdown path are not modelled; CondvarWait, whose file is not part of this model, is taken to test its predicate under the lock and to sleep and release it in one step; tasks end.
- ThreadQueueList.Queue.Rebalance: malloc and realloc succeed, capacities do not overflow an int, and freed arrays are just dropped. Pushing to a level that was never prepared is required not to happen, as in the source.
- Lzss.Decompress: requires a buffer at least as long as the input, as the size function gives it.
- Lzss.FileDecodes: the encoder is part of the model only, to state what decoding undoes; the source has none.
- Reloc3dsx.Relocate: reading the header, the segments and the table lengths, and the copy to emulated memory, are file and memory plumbing; error texts are one failure, and the image after a failure is unspecified.
- Hash.HashFletcher: the buffer is readable one byte past odd-length data, as the source warns; words are little-endian as on its targets.
- Cmac.AesCmac: the cipher is any function that may fail; the key and the foreign crypto calls behind it are not modelled, nor is the build without them, in which every call fails.
- Utf8.ToUcs: on well-formed text only, with the byte after it readable, which the source reads; 5- and 6-byte sequences, u8_strlen and u8_nextchar at the terminator are not modelled.
- Utf8.Offset: offsets and character numbers are ints in the source and unbounded here.
- Utf8.CharNum: the same.
- DiskCache.LinearDiskCache.Append: after opening a damaged file the stream position of the next append is not modelled; opening, closing and flushing files is I/O.
- LruCache.StaticLRUCache.Request: returns the slot number; the values in the array belong to the caller. A capacity of 0 is excluded: the source would evict from an empty list.
- Uri.DecodeFileUrlPath: tolower in the C locale.
- NCCH key derivation, archive and file-system backends, the GPU front end, networking and windowing: glue, foreign calls or code whose intent nothing fixes.
- Colour conversion, vectors, fixed-size and lock-free queues other than the ring: they would only add easier members.
