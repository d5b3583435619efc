# Verified model of the lock-free containers and their atomics

A Dafny model of the lock-free fifo, stack and ringbuffer of this library, of the freelist and the
tagged pointers below them, and of the templates that synthesise atomic operations from a weak
compare-exchange. Everything is proved for any number of threads, any interleaving of their atomic
accesses, any spurious failures of weak compare-exchanges and any contents of fresh memory.

## How it is built

The concurrent code is modelled as labelled transition systems with one transition per atomic load,
store or compare-exchange. Memory is a map from addresses to nodes, so that a stale pointer may lead to
a node that has meanwhile been dequeued, freed, taken again and linked elsewhere; nothing protects
against this except the tags. The state of the machine holds only what the program has. What the proof
knows besides (who owns a node, the order of the chain) lives in a companion that is updated next to it.
The invariant is stated per thread, with a rely condition for what the steps of others may change.

The forms for one thread (`_unsafe`, construction, destruction, bulk operations, retry loops) are
classes and methods with the loops of the code, proved against the same abstract state.

| files | source |
|---|---|
| `TaggedPtr`, `PackedPtr` | `boost/lockfree/detail/tagged_ptr_ptrcompression.hpp`, `boost/lockfree/detail/tagged_ptr_dcas.hpp` |
| `NodeList`, `Freelist`, `FreelistSequential`, `FreelistTags` | `boost/lockfree/detail/freelist.hpp` |
| `FifoMachine` (the transitions), `FifoInvariant`, `FifoSafety`, `FifoSpec`, `FifoRuns`, `FifoTheorems`, `FifoProgress`, `FifoAlone`, `FifoTags`, `FifoWindow`, `FifoSequential` | `boost/lockfree/fifo.hpp` |
| `StackMachine` (the transitions), `StackSafety`, `StackSpec`, `StackRuns`, `StackProgress`, `StackAlone`, `StackTags`, `StackWindow`, `StackOverrun`, `StackSequential` | `boost/lockfree/stack.hpp` |
| `RingIndex`, `RingSpec`, `RingBuffer`, `RingProtocol` (the transitions), `RingRuns` | `boost/lockfree/ringbuffer.hpp` |
| `SubWord`, `SubWordMachine` (the transitions), `AtomicMachine` (the transitions), `AtomicRuns`, `AtomicArithmetic`, `AtomicCell`, `SubWordAtomics` (the transitions of the two together) | `boost/atomic/detail/builder.hpp` |
| `Residues` | remainders by a variable, used by ringbuffer and atomics |

`Width` chooses between tags that count without bound and the 16-bit tags of the compressed layout. The
theorems are first proved for the former and then carried over to the latter for prompt runs, in which no
cell changes 2^16 times between a thread's load and its comparison (`StackWindow.Prompt`; for the fifo,
within the iteration of the loop that compares, `FifoWindow.Prompt`). Without such a condition the result
is false: `StackOverrun.NotLinearizable` is a run of the 16-bit stack that no abstract stack can follow.

## Where code and documentation differ

- `dequeue` of the fifo writes its out-parameter before its compare-exchange (`boost/lockfree/fifo.hpp:236`),
  so the value of the out-parameter after a failing concurrent call is left open.
- The bulk dequeue to an output iterator (`boost/lockfree/ringbuffer.hpp:224-225`) passes the iterator by
  value to both copies. It delivers the contents to every appending sink (`RingBuffer.RingBuffer.DequeueToSink`);
  for an iterator that is a position, `RingSpec.PositionalIterator` shows that it does so exactly when the
  contents do not wrap around.
- The check in `dequeue` that the code marks as an addition to the published algorithm never fires under
  sequential consistency (`FifoTheorems.DefensiveCheckIsDead`).

## Model

| member | source | states |
|---|---|---|
| FifoRuns.RunRefines | boost/lockfree/fifo.hpp:149-244 | Linearizability: in every run from the constructed fifo, by any number of threads with node reuse, the abstract states (queue contents, number of spare nodes, pending operations) form a run of the abstract queue with the same calls, returns and results; each operation takes effect at one of its own steps and takes or gives back at most one spare node |
| FifoRuns.RunIsFifo | boost/lockfree/fifo.hpp:149-244 | At every point of every run: initial contents followed by all linked values equals all removed values followed by the present contents |
| FifoRuns.FirstInFirstOut | boost/lockfree/fifo.hpp:149-244 | From the constructed fifo: the values linked so far are, in order, the values removed and then the values inside |
| FifoRuns.EnqueueRefusalIsTrue | boost/lockfree/detail/freelist.hpp:117-137 | An enqueue answers false only with a static freelist, and only if a load of the pool by that thread inside the call found it null |
| FifoRuns.DequeueRefusalIsTrue | boost/lockfree/fifo.hpp:217-226 | A dequeue answers false only if it looked at the queue inside the call and the queue was empty at its last load of `head->next` |
| FifoRuns.RefusalsAreTrue | boost/lockfree/fifo.hpp:217-226 | Of the abstract queue by itself: false is answered only if it was empty, or had no spare node and may not allocate, at an instant within that call |
| FifoRuns.RunKeepsInv | boost/lockfree/fifo.hpp:149-244 | The invariant holds in every state of every run |
| FifoRuns.InitialInv | boost/lockfree/fifo.hpp:72-107 | The state that the constructor leaves satisfies the invariant and represents the empty queue |
| FifoSafety.StepKeepsInv | boost/lockfree/fifo.hpp:149-244 | Every atomic access keeps the invariant and touches only allocated memory |
| FifoSpec.QueueEffect | boost/lockfree/fifo.hpp:164-237 | Only a successful link compare-exchange appends (the value of its enqueuer), only a successful head compare-exchange removes (the front, which is the value read before it), every other step leaves the queue |
| FifoSpec.StepRefines | boost/lockfree/fifo.hpp:149-244 | Every step of the machine is a step of the abstract queue or leaves it unchanged |
| FifoInvariant.LocalIsSafe | boost/lockfree/fifo.hpp:157-236 | No thread dereferences null or unallocated memory through a stale pointer |
| FifoTheorems.ReachableStates | boost/lockfree/fifo.hpp:137-244 | In every state of every run from the constructed fifo: queue, freelist and hands partition the nodes, the tail is last or last but one, and with nobody inside `empty` is exact and no node is missing |
| FifoTheorems.NodesArePartitioned | boost/lockfree/fifo.hpp:151-238 | Every allocated node is in exactly one of: queue with dummy, freelist, hands of one thread; no two threads hold the same node |
| FifoTheorems.QuiescentAccounting | boost/lockfree/fifo.hpp:103-107 | With no operation in progress the queue chain and the freelist together are exactly the allocated nodes, also in number |
| FifoTheorems.MemoryOnlyGrows | boost/lockfree/detail/freelist.hpp:117-137 | No node is returned to the system while the fifo lives; memory grows only by allocation |
| FifoTheorems.StaticTotal | boost/lockfree/fifo.hpp:103-107 | With a static freelist and no reservation the set of nodes stays that of the constructor for the whole run |
| FifoTheorems.LinkHitsTheLastNode | boost/lockfree/fifo.hpp:157-164 | A link compare-exchange that succeeds acts on the last node, which the tail still points to, however often that node was recycled since it was read |
| FifoTheorems.HeadSwingIsExact | boost/lockfree/fifo.hpp:217-238 | A head compare-exchange that succeeds removes the front, installs its true successor, and never frees the node that the tail points to |
| FifoTheorems.AllocateIsExact | boost/lockfree/detail/freelist.hpp:117-137 | A successful allocate installs the true successor of the removed node, and nobody holds that node |
| FifoTheorems.DefensiveCheckIsDead | boost/lockfree/fifo.hpp:223-235 | After the head is confirmed and differs from the tail, the loaded link is not null |
| FifoTheorems.AlwaysCanMove | boost/lockfree/fifo.hpp:149-244 | A thread inside an operation always has a safe next step |
| FifoTheorems.LinkTagsRise | boost/lockfree/fifo.hpp:46-53 | No step lowers the tag of any node: not linking, not freeing, not taking, not constructing |
| FifoTheorems.NullLinkNeverComesBack | boost/lockfree/fifo.hpp:157-164 | A (null, tag) pair seen in the last node stays there until passed for good: once the node is no longer last its tag is strictly greater, through all recycling |
| FifoTheorems.TailIsClose | boost/lockfree/fifo.hpp:162-170 | The tail is always the last or the last but one node of the queue |
| FifoTheorems.EmptyIsExact | boost/lockfree/fifo.hpp:137-140 | With no operation in progress the tail is the last node, `empty` is exact and the tags of tail and head differ by the size |
| FifoProgress.RetriesAreBounded | boost/lockfree/fifo.hpp:156-243 | Lock-freedom with a count, a retry being any move back to the top of the loop of enqueue or dequeue: from any instant at which a thread is outside, its retries are at most its spurious failures plus twice the links plus the removals by everybody since (and one more if others are inside at that instant) |
| FifoProgress.LockFreedom | boost/lockfree/fifo.hpp:156-243 | The same bound from the constructed fifo, whatever the other threads do |
| FifoProgress.RetryCosts | boost/lockfree/fifo.hpp:156-243 | A move back to the top of the loop is a spurious failure, or comes after a link or a move of head or tail since the thread was last there |
| FifoProgress.WorkIsCounted | boost/lockfree/fifo.hpp:164-237 | The tag of the head counts the removals, and the length of the chain is the initial one plus links minus removals |
| FifoProgress.PoolRetriesAreBounded | boost/lockfree/detail/freelist.hpp:117-171 | Steps in allocate and deallocate that bring the operation no nearer to its end are at most the spurious failures of the thread plus the changes of the pool cell |
| FifoProgress.StepsAreBounded | boost/lockfree/fifo.hpp:149-244 | Every call of enqueue, dequeue or reserve ends: as long as it has no result its own steps, freelist included, stay below a constant (for reserve: linear in the count) plus fixed multiples of its spurious failures and of the links, removals and pool changes of everybody since the call |
| FifoAlone.AloneEnds | boost/lockfree/fifo.hpp:149-244 | While nobody else moves, wherever the others have stopped, and without spurious failures, an enqueue has its result after 17 steps and a dequeue after 16 |
| FifoAlone.AloneAnswers | boost/lockfree/fifo.hpp:149-244 | Such an enqueue appends and answers true, or answers false exactly when the pool was null and the freelist static; such a dequeue removes and returns the front, or answers false exactly on an empty queue; such a reserve adds exactly its count of spare nodes |
| FifoAlone.CallReturns | boost/lockfree/fifo.hpp:149-244 | From every state that satisfies the invariant such a run to the result exists |
| FifoTags.WrapAdvance | boost/lockfree/fifo.hpp:149-244 | Truncating all tags to 16 bits commutes with every atomic step whose comparison has the same answer |
| FifoTags.ComparedInOrder | boost/lockfree/fifo.hpp:157-237 | What a thread loaded from a cell never carries a later tag than the cell |
| FifoTags.Bits16RunIsShadowed | boost/lockfree/detail/tagged_ptr_ptrcompression.hpp:40-60 | Every run of the machine with 16-bit tags is the truncation of an unbounded run, up to its end or its first move outside the window |
| FifoTags.Bits16RunRefines | boost/lockfree/fifo.hpp:149-244 | Every run of the fifo with 16-bit tags whose comparisons stay in the window is the truncation of an unbounded run with the same moves, and is linearizable |
| FifoWindow.PromptMoveInWindow | boost/lockfree/detail/tagged_ptr_ptrcompression.hpp:91-99 | Fewer than 2^16 changes of the compared cell since the iteration began, counted on the 16-bit run itself, keep a comparison in the window |
| FifoWindow.PromptRunRefines | boost/lockfree/fifo.hpp:149-244 | The fifo with 16-bit tags is linearizable over every run in which every comparison is that prompt, and such a run is an unbounded run truncated |
| FifoWindow.ShortRunIsPrompt | boost/lockfree/fifo.hpp:149-244 | In particular over every run of fewer than 2^16 accesses |
| FifoSequential.RestingInv | boost/lockfree/fifo.hpp:182-282 | A sequential representation is a state of the concurrent machine with nobody inside |
| FifoSequential.InvResting | boost/lockfree/fifo.hpp:182-282 | And every such state is a sequential representation |
| FifoSequential.MixedUse | boost/lockfree/fifo.hpp:182-282 | Concurrent runs may start from an object used sequentially, and whenever nobody is working the representation is back |
| FifoSequential.SnapshotIsResting | boost/lockfree/fifo.hpp:182-282 | An object is a resting state of the machine with the same abstract queue |
| FifoSequential.Fifo.constructor | boost/lockfree/fifo.hpp:103-107 | `fifo(n)` yields an empty queue, n spare nodes and exactly n + 1 nodes of memory, in the initial state of the machine |
| FifoSequential.Fifo.Construct | boost/lockfree/fifo.hpp:46-53 | The node constructor ends the node in null with a tag one above the tag already in memory |
| FifoSequential.Fifo.ConstructUnsafe | boost/lockfree/detail/freelist.hpp:95-102 | Fails only when dry and static; otherwise the node was spare or new, the queue is untouched |
| FifoSequential.Fifo.EnqueueUnsafe | boost/lockfree/fifo.hpp:182-203 | Appends the value, or fails without effect exactly when no node is available; terminates |
| FifoSequential.Fifo.DequeueUnsafe | boost/lockfree/fifo.hpp:255-282 | Removes and returns the front, or fails without effect exactly when the queue is empty; the null-link continue is never taken and the loop terminates |
| FifoSequential.Fifo.Empty | boost/lockfree/fifo.hpp:137-140 | Exact when the tail is not behind; in any case true on an empty queue |
| FifoSequential.Fifo.ReserveUnsafe | boost/lockfree/fifo.hpp:116-119 | Adds exactly the new blocks to memory and leaves the queue |
| FifoSequential.Fifo.Destroy | boost/lockfree/fifo.hpp:123-131 | Teardown: drains, frees the dummy and returns every node ever obtained exactly once |
| Freelist.TopReadStable | boost/lockfree/detail/freelist.hpp:117-171 | What a thread remembers of the top cell stays true under every step of others: an unchanged tag means nothing was popped |
| Freelist.PopIsExact | boost/lockfree/detail/freelist.hpp:129-134 | ABA-freedom: an unchanged cell means that the successor read earlier is the successor now |
| Freelist.TopPushed | boost/lockfree/detail/freelist.hpp:164-169 | Pushing may keep the tag because what was in the list stays in the list |
| FreelistSequential.FreelistStack.AllocateUnsafe | boost/lockfree/detail/freelist.hpp:139-156 | Takes the first node and raises the tag; a dry list allocates or yields null depending on the mode |
| FreelistSequential.FreelistStack.DeallocateUnsafe | boost/lockfree/detail/freelist.hpp:173-183 | Puts the node in front, keeps the tag of the pool and the tag in the node |
| FreelistSequential.FreelistStack.Deallocate | boost/lockfree/detail/freelist.hpp:158-171 | The concurrent form without competitors has the same effect after any number of spurious failures |
| FreelistSequential.FreelistStack.ReserveUnsafe | boost/lockfree/detail/freelist.hpp:62-68 | Adds exactly the allocated blocks to the list and disturbs no other node |
| FreelistSequential.FreelistStack.Destroy | boost/lockfree/detail/freelist.hpp:185-195 | Terminates having returned each node of the list exactly once and nothing else |
| FreelistTags.WrapAllocAdvance | boost/lockfree/detail/freelist.hpp:117-137 | The steps of allocate commute with truncation of tags |
| FreelistTags.WrapFreeAdvance | boost/lockfree/detail/freelist.hpp:158-171 | The steps of deallocate commute with truncation of tags |
| NodeList.ListUnique | boost/lockfree/detail/freelist.hpp:185-195 | Memory and first pointer determine the list |
| NodeList.ListPop | boost/lockfree/detail/freelist.hpp:129-132 | Removing the first node leaves a list of the others |
| NodeList.ListPush | boost/lockfree/detail/freelist.hpp:164-168 | Linking a node in front of a list gives a list of all |
| StackRuns.RunRefines | boost/lockfree/stack.hpp:128-196 | Linearizability: in every run with node reuse the abstract states (contents, number of spare nodes, pending operations) form a run of the abstract stack with the same calls, returns and results; each operation takes or gives back at most one spare node |
| StackRuns.RunConserves | boost/lockfree/stack.hpp:128-196 | At every point of every run the initial and pushed values are, with multiplicity, the popped and present values |
| StackRuns.PushRefusalIsTrue | boost/lockfree/stack.hpp:130-133 | A push answers false only with a static freelist, and only if a load of the pool by that thread inside the call found it null |
| StackRuns.PopRefusalIsTrue | boost/lockfree/stack.hpp:184-185 | A pop answers false only if its load of `tos` inside the call found it null, and the stack was empty then |
| StackRuns.RefusalsAreTrue | boost/lockfree/stack.hpp:184-185 | Of the abstract stack by itself: false is answered only if it was empty, or had no spare node and may not allocate, at an instant within that call |
| StackRuns.RunKeepsInv | boost/lockfree/stack.hpp:128-196 | The invariant holds in every state of every run |
| StackRuns.PopInstallsSuccessor | boost/lockfree/stack.hpp:187-190 | If the compare-exchange of a pop finds the cell unchanged, no pop intervened: the link read earlier is the true successor, although pushes keep the tag and the read may have hit a freed node |
| StackRuns.NodesArePartitioned | boost/lockfree/stack.hpp:128-196 | Every node is on the stack, in the freelist or in the hands of exactly one thread |
| StackSafety.StepKeepsInv | boost/lockfree/stack.hpp:128-196 | Every atomic access keeps the invariant and touches only allocated memory |
| StackSpec.StackEffect | boost/lockfree/stack.hpp:139-193 | Only a successful push step puts its value on top, only a successful pop step removes the top; other steps leave the stack |
| StackSpec.StepRefines | boost/lockfree/stack.hpp:128-196 | Every step is a step of the abstract stack or leaves it; the value read after the pop is the abstract top |
| StackProgress.RetriesAreBounded | boost/lockfree/stack.hpp:137-195 | A retry being any step that brings the operation no nearer to its end: the retries of a thread in push, pop and the freelist are at most its spurious failures plus the changes of the two cells |
| StackProgress.LockFreedom | boost/lockfree/stack.hpp:137-195 | The same in operations: at most its spurious failures plus the values pushed and popped and the nodes taken from and given to the freelist by everybody |
| StackProgress.StepsAreBounded | boost/lockfree/stack.hpp:128-196 | Every call of push, pop or reserve ends: as long as it has no result its own steps, freelist included, stay below eight (for reserve: five per node and one) plus three for each of its spurious failures and each such operation of everybody since the call |
| StackAlone.AloneEnds | boost/lockfree/stack.hpp:128-196 | While nobody else moves, wherever the others have stopped, and without spurious failures, a push or a pop has its result after eight steps |
| StackAlone.AloneAnswers | boost/lockfree/stack.hpp:128-196 | Such a push puts its value on top, or answers false exactly when the pool was null and the freelist static; such a pop removes and returns the top, or answers false exactly when `tos` was null; such a reserve adds exactly its count of spare nodes |
| StackAlone.CallReturns | boost/lockfree/stack.hpp:128-196 | From every state that satisfies the invariant such a run to the result exists |
| StackTags.WrapAdvance | boost/lockfree/stack.hpp:128-196 | Truncation to 16 bits commutes with every step whose comparison has the same answer |
| StackTags.Bits16RunIsShadowed | boost/lockfree/stack.hpp:188-190 | Every 16-bit run is the truncation of an unbounded one until it leaves the window |
| StackTags.Bits16RunRefines | boost/lockfree/stack.hpp:128-196 | Every run of the stack with 16-bit tags whose comparisons stay in the window is the truncation of an unbounded run with the same moves, and is linearizable |
| StackWindow.PromptMoveInWindow | boost/lockfree/detail/tagged_ptr_ptrcompression.hpp:91-99 | Fewer than 2^16 changes of the cell since its load, counted on the 16-bit run itself, keep a comparison in the window |
| StackWindow.PromptRunRefines | boost/lockfree/stack.hpp:128-196 | The stack with 16-bit tags is linearizable over every run in which every comparison is that prompt, and such a run is an unbounded run truncated |
| StackWindow.ShortRunIsPrompt | boost/lockfree/stack.hpp:128-196 | In particular over every run of fewer than 2^16 accesses |
| StackOverrun.StaleSwing | boost/lockfree/stack.hpp:187-190 | A run with 16-bit tags, from a constructed stack, that ends with a pop whose compare-exchange succeeds on a word loaded 2^16 pops ago and installs a node that is not the successor |
| StackOverrun.NotLinearizable | boost/lockfree/stack.hpp:187-190 | And one, going on from there, whose calls and results no run of the abstract stack has: the condition on the run cannot be dropped |
| StackSequential.MixedUse | boost/lockfree/stack.hpp:153-221 | Sequential and concurrent use may alternate |
| StackSequential.Stack.constructor | boost/lockfree/stack.hpp:85-89 | An empty stack with n spare nodes, in the initial state of the machine |
| StackSequential.Stack.PushUnsafe | boost/lockfree/stack.hpp:153-167 | Puts the value on top, or fails without effect exactly when no node is available |
| StackSequential.Stack.PopUnsafe | boost/lockfree/stack.hpp:207-221 | Removes and returns the top, or fails without effect exactly when empty |
| StackSequential.Stack.Empty | boost/lockfree/stack.hpp:231-234 | Exact |
| StackSequential.Stack.Destroy | boost/lockfree/stack.hpp:112-119 | Teardown returns every node ever obtained exactly once |
| TaggedPtr.WrapCompare | boost/lockfree/detail/tagged_ptr_ptrcompression.hpp:91-99 | Truncated words compare like full ones if and only if the tags do not differ by a positive multiple of 2^16 under the same pointer |
| TaggedPtr.WindowIsTight | boost/lockfree/detail/tagged_ptr_ptrcompression.hpp:91-99 | Two words under the same pointer, 2^16 increments apart, compare equal although they differ |
| TaggedPtr.WrapNext | boost/lockfree/detail/tagged_ptr_ptrcompression.hpp:54-60 | Incrementing commutes with truncation |
| PackedPtr.PackRoundTrip | boost/lockfree/detail/tagged_ptr_ptrcompression.hpp:42-60 | A pointer survives packing exactly when its upper 16 bits are zero; the tag survives up to its width |
| PackedPtr.UnpackRoundTrip | boost/lockfree/detail/tagged_ptr_ptrcompression.hpp:42-60 | Every word is the packing of what it unpacks to |
| PackedPtr.WordEquality | boost/lockfree/detail/tagged_ptr_ptrcompression.hpp:91-94 | Equality of words is equality of both fields |
| PackedPtr.CompressionRefines | boost/lockfree/detail/tagged_ptr_ptrcompression.hpp:83-127 | After any history of updates the compressed form is the plain pair with the tag cut to 16 bits |
| PackedPtr.CompressedComparison | boost/lockfree/detail/tagged_ptr_dcas.hpp:56-64 | The compressed comparison answers like the plain one if and only if the pairs do not differ by a multiple of 2^16 in the tag alone |
| PackedPtr.CompressedPtr.SetPtr | boost/lockfree/detail/tagged_ptr_ptrcompression.hpp:109-113 | Replaces the pointer and keeps the tag |
| PackedPtr.CompressedPtr.SetTag | boost/lockfree/detail/tagged_ptr_ptrcompression.hpp:123-127 | Replaces the tag and keeps the pointer |
| PackedPtr.CompressedPtr.Equals | boost/lockfree/detail/tagged_ptr_ptrcompression.hpp:91-94 | True exactly when pointer and tag agree |
| PackedPtr.PlainPtr.Set | boost/lockfree/detail/tagged_ptr_dcas.hpp:47-51 | Replaces both, the whole pointer and the whole tag |
| PackedPtr.PlainPtr.SetPtr | boost/lockfree/detail/tagged_ptr_dcas.hpp:74-77 | Replaces the pointer and keeps the tag |
| RingIndex.NextIndex | boost/lockfree/ringbuffer.hpp:50-56 | The subtracting loop ends with the successor modulo the size, for every start word |
| RingIndex.Available | boost/lockfree/ringbuffer.hpp:58-73 | With wrap-around arithmetic the two counts are exact and always add up to the size minus one, for every size a word can hold |
| RingIndex.BulkSumIsExact | boost/lockfree/ringbuffer.hpp:101-103 | The sums of the bulk operations never wrap the machine word if and only if the size is at most 2^63 |
| RingSpec.EnqueueOneAppends | boost/lockfree/ringbuffer.hpp:75-88 | A single enqueue appends, and fails exactly when one slot is left |
| RingSpec.DequeueOneRemoves | boost/lockfree/ringbuffer.hpp:161-172 | A single dequeue removes the oldest item, and fails exactly when there is none |
| RingSpec.EnqueueAllIsBulk | boost/lockfree/ringbuffer.hpp:90-119 | Repeating the single enqueue lays out the longest fitting prefix around the circle and moves the index past it |
| RingSpec.DequeueManyIsBulk | boost/lockfree/ringbuffer.hpp:174-205 | Repeating the single dequeue yields the oldest items and moves the index past them |
| RingSpec.EnqueueAllAppends | boost/lockfree/ringbuffer.hpp:90-119 | The contents grow by exactly the longest prefix that fits |
| RingSpec.PublishedIndex | boost/lockfree/ringbuffer.hpp:101-117 | Every published index is the old one plus the count modulo the size, and stays below the size |
| RingSpec.InOrder | boost/lockfree/ringbuffer.hpp:90-236 | An emptied buffer has handed over its old contents and then the accepted items, in order |
| RingSpec.PositionalIterator | boost/lockfree/ringbuffer.hpp:207-236 | The output-iterator form fills an array correctly for all contents if and only if they do not wrap around |
| RingBuffer.RingBuffer.Enqueue | boost/lockfree/ringbuffer.hpp:75-88 | The whole new state, on buffer, indices and contents |
| RingBuffer.RingBuffer.Dequeue | boost/lockfree/ringbuffer.hpp:161-172 | The oldest item comes out and the rest stays; nothing changes on empty |
| RingBuffer.RingBuffer.EnqueueArray | boost/lockfree/ringbuffer.hpp:90-119 | Same slots, indices and count as repeating the single enqueue until done or full, over the wrap, no-wrap and exactly-at-end branches |
| RingBuffer.RingBuffer.EnqueueRange | boost/lockfree/ringbuffer.hpp:121-159 | The same for iterators; the result is the position of the first item not accepted |
| RingBuffer.RingBuffer.DequeueArray | boost/lockfree/ringbuffer.hpp:174-205 | Same state and output as repeating the single dequeue; the rest of the output array is untouched |
| RingBuffer.RingBuffer.DequeueToSink | boost/lockfree/ringbuffer.hpp:207-236 | An appending sink receives the whole contents in order and the buffer is empty |
| RingProtocol.SlotsAreDisjoint | boost/lockfree/ringbuffer.hpp:90-119 | A slot that the producer is about to fill is none of those that the consumer may read |
| RingProtocol.InvIsSafe | boost/lockfree/ringbuffer.hpp:103-114 | No copy of either side leaves the buffer |
| RingProtocol.PutCountIsTrue | boost/lockfree/ringbuffer.hpp:92-99 | At the load of the consumer index the full answer is true and the accepted count is the smaller of what is offered and what there is room for |
| RingProtocol.TakeCountIsTrue | boost/lockfree/ringbuffer.hpp:163-184 | At the load of the producer index, although it may be stale when used, the empty answer is true and the count is one, or the smaller of what is asked for and what is there, or all that is there |
| RingRuns.RunKeepsInv | boost/lockfree/ringbuffer.hpp:75-236 | Slots, indices and stale copies agree with the history in every state of every interleaving |
| RingRuns.OutputIsPrefix | boost/lockfree/ringbuffer.hpp:75-236 | At every instant what the consumer copied out is a prefix of what the producer published, and never more than size minus one items lie between |
| RingRuns.CopiesNeverCollide | boost/lockfree/ringbuffer.hpp:107-194 | While both sides copy, the slots written and the slots read are different |
| RingRuns.EnqueueDelivers | boost/lockfree/ringbuffer.hpp:75-159 | A call publishes exactly the first n items of its input, in order, n being what there was room for at some instant of the call |
| RingRuns.DequeueDelivers | boost/lockfree/ringbuffer.hpp:161-236 | A call takes out exactly the next items in order; their number is one, or as many as were asked for or as there are, whichever is smaller, or all, of those present at some instant of the call |
| RingRuns.EnqueueIsWaitFree | boost/lockfree/ringbuffer.hpp:75-159 | A call with n items needs at most n + 3 own steps, whatever the consumer does |
| RingRuns.DequeueIsWaitFree | boost/lockfree/ringbuffer.hpp:161-236 | A call needs at most three own steps more than the items that it asks for and that the buffer can hold, whatever the producer does |
| SubWord.ExtractReadsMemory | boost/atomic/detail/builder.hpp:347-361 | For either byte order and signed or unsigned types, extraction reads exactly the bytes that the object occupies in memory |
| SubWord.InsertBit | boost/atomic/detail/builder.hpp:363-376 | Insertion replaces the bits of the object and no others, whatever sign extension put above them |
| SubWord.InsertKeepsOtherBytes | boost/atomic/detail/builder.hpp:363-376 | No byte of memory outside the object changes |
| SubWord.InsertThenExtract | boost/atomic/detail/builder.hpp:358-376 | Reading back what was inserted |
| SubWord.ExtractThenInsert | boost/atomic/detail/builder.hpp:358-376 | Writing back what was read changes nothing |
| SubWord.InsertKeepsOtherLanes | boost/atomic/detail/builder.hpp:358-376 | Neighbouring objects keep their value |
| SubWord.InsertsCommute | boost/atomic/detail/builder.hpp:363-376 | Insertions into disjoint objects commute |
| SubWordMachine.AdvanceWritesOneLane | boost/atomic/detail/builder.hpp:296-319 | Every access leaves all bits outside its own object as they are at that instant |
| SubWordMachine.StepRefines | boost/atomic/detail/builder.hpp:291-319 | Every access is one effect on one independent cell, or none |
| SubWordMachine.RunRefines | boost/atomic/detail/builder.hpp:291-319 | Any interleaving of loads, stores and weak compare-exchanges of objects sharing a word is a run of independent cells with the same results |
| SubWordMachine.CasAnswers | boost/atomic/detail/builder.hpp:296-310 | A compare-exchange of an object succeeds if and only if the word at its comparison is the one it loaded with the expected value in the object, and no spurious failure happens; so always if the object held the expected value and the word has not changed |
| SubWordMachine.StepsAreBounded | boost/atomic/detail/builder.hpp:291-319 | A load ends after one access, a compare-exchange after two, a store after two and one more for each of its spurious failures and each change of the word meanwhile |
| AtomicMachine.CellIsFold | boost/atomic/detail/builder.hpp:45-181 | At every instant of every run the cell is its start value with all completed operations applied in the order of their success |
| AtomicRuns.WritesAreInvoked | boost/atomic/detail/builder.hpp:33-181 | Every write to the cell is that of a call made before, or a plain store |
| AtomicRuns.ResultIsJustified | boost/atomic/detail/builder.hpp:33-181 | Each completed operation wrote exactly once, over the value it returns: exchange its operand, a fetch operation its function of that value, a strong compare-exchange the desired value over the expected one; a strong compare-exchange that fails did not write and saw a value different from the original expected one |
| AtomicRuns.ExchangesHandOver | boost/atomic/detail/builder.hpp:48-53 | In a run of exchanges each finds what the one before it left, the first finds the start value, and the operand of the last is in the cell |
| AtomicRuns.StepsAreBounded | boost/atomic/detail/builder.hpp:33-53 | Every call ends: after two accesses (a strong compare-exchange: one) and one more for each of its spurious failures and each write to the cell meanwhile it has its result |
| AtomicRuns.RetriesAreBounded | boost/atomic/detail/builder.hpp:40-52 | A retry being any access after the first load that leaves the thread at work: at most one per own spurious failure and one per write to the cell in the meantime |
| AtomicArithmetic.AdditionsSum | boost/atomic/detail/builder.hpp:111-142 | Any number of fetch_add and fetch_sub leave the sum modulo the range of the type |
| AtomicArithmetic.CounterRun | boost/atomic/detail/builder.hpp:111-142 | In a run in which all calls are fetch_add or fetch_sub, and nothing else stores, the cell is at every instant its start value plus the operands of the completed calls, modulo the range |
| AtomicArithmetic.LogicFold | boost/atomic/detail/builder.hpp:164-181 | Bit by bit, what any number of fetch_or, fetch_and or fetch_xor leave, independently of their order |
| AtomicArithmetic.FlagsRun | boost/atomic/detail/builder.hpp:164-181 | The same for the cell of a run in which all calls are of one of the three kinds |
| AtomicCell.AtomicCell.CompareExchangeStrong | boost/atomic/detail/builder.hpp:33-46 | The loop ends; success is exactly one write, over the expected value; failure writes nothing and reports a current value other than the expected one |
| AtomicCell.AtomicCell.Exchange | boost/atomic/detail/builder.hpp:48-53 | The loop ends with one write over the returned value |
| AtomicCell.AtomicCell.Fetch | boost/atomic/detail/builder.hpp:111-117 | The loop ends with one write of the function of the returned value over that value |
| AtomicCell.FetchSub | boost/atomic/detail/builder.hpp:137-142 | Subtraction modulo the range, by adding the negated operand |
| AtomicCell.LoadLane | boost/atomic/detail/builder.hpp:291-295 | The value of the object in a word that the cell holds at that instant |
| AtomicCell.CompareExchangeWeakLane | boost/atomic/detail/builder.hpp:296-310 | Success is exactly one write, of only the object over the word of that instant; failure writes nothing and reports what the object held. It succeeds if and only if the word is still the loaded one with the expected value in the object and the compare-exchange of the word does not fail spuriously |
| AtomicCell.StoreLane | boost/atomic/detail/builder.hpp:311-319 | The loop ends with one write of only the object over the word of that instant |
| SubWordAtomics.StepSimulates | boost/atomic/detail/builder.hpp:390-399 | The retry loops stacked on the sub-word compare-exchange: each access to the word is, seen at the object, an access of the same loop to a cell of its own, or a write of what it holds |
| SubWordAtomics.NeighboursSeeNeighbours | boost/atomic/detail/builder.hpp:296-319 | To any other object in the word, every such access is a write that leaves it alone |
| SubWordAtomics.RunSimulates | boost/atomic/detail/builder.hpp:390-399 | Every run on the shared word, whatever is written around the object, projects to a run on a cell of its own |
| SubWordAtomics.ObjectIsFold | boost/atomic/detail/builder.hpp:390-399 | At every instant the object holds its start value with all its own completed operations applied in the order of their success |
| SubWordAtomics.ObjectResultIsJustified | boost/atomic/detail/builder.hpp:390-399 | Each completed operation wrote the object exactly once, its operand, function or desired value over the value it returns; a strong compare-exchange that fails did not write and saw another value |
| SubWordAtomics.StepsAreBounded | boost/atomic/detail/builder.hpp:390-399 | Every call ends: after three accesses to the word (a strong compare-exchange: two) and two more for each of its spurious failures and each change of the word meanwhile |

## Left out

- Memory orders, fences and weak memory: the machines interleave sequentially consistent accesses.
- The platform back ends: a weak compare-exchange is an atomic step that may fail spuriously.
- Failure of the system allocator and exceptions: allocation yields an address not in use, with arbitrary bits.
- Nodes as objects: memory is a map from addresses to nodes, also in the classes for sequential use, because freed and recycled addresses have to stay readable; aliasing is equality of addresses.
- `reset` of the ringbuffer, and `empty` of fifo and ringbuffer while others work: documented as not safe.
- The constructor `node(void)` is modelled where it is reached, in `FifoSequential.Prepare`.
- The dequeue overloads for smart pointers, the selection of the freelist by template, padding, branch hints and `is_lock_free`.
- `build_const_fetch_add` and `build_atomic_from_typical`: they forward to operations of the platform.
- Promptness of 16-bit runs is an assumption; nothing in the code enforces it, and `StackOverrun.NotLinearizable` shows that one is needed.
- The `_unsafe` forms on 16-bit tags: only the concurrent forms are carried over to truncated tags.
- A ringbuffer of size 0: the loop of `next_index` does not end for it; the sizes from 1 on are modelled.
- The positional output iterator as a method: its effect is the function `RingSpec.LaidAtPosition`.
- A small type as large as its word: the shift by the full width is undefined in the source and never instantiated.
