# GAM in Dafny: coherence, transport, memory, ordering and transactions

GAM is a distributed shared memory. Every block of memory has a home worker with a
directory entry; the other workers keep cached copies of it. This project models the
directory-based coherence protocol for one block, any set of workers and any run, and
proves it coherent. Around it, it models the RDMA send ring and the message format, the
slab allocator, the LRU lists, the growable global array, the per-thread fence,
multi-block requests, the two-phase-locking transaction manager and the cluster barrier,
and proves of each what it is for.

`dafny verify dfyconfig.toml` checks everything.

## How the model is organised

**Coherence.** `Protocol` is a state machine: the home worker's directory entry, memory,
pending work and parked requests; each worker's cache line, pending write, parked demands
and channels. A handler runs under the block's lock and is one step. Channels between a
worker and the home worker are FIFO; a one-sided RDMA write is a message of its own in
the same channel. Every branch the source logs as unexpected and every `epicAssert`
clears the state's `ok` flag. A ghost-like component `latest` is the block after all
writes completed so far. `Invariant` splits the invariant by worker: what the home worker
records about a worker, and what is in the worker's line and channels. `NodeCases`
(one worker), `HomeProofs`, `ReplyProofs`, `NodeProofs`, `Streams`, `StepProofs`,
`NodeSteps` and `SystemProofs` show that every step keeps it, and `Coherence` draws the
theorems about all reachable states. `WriteHistory` ties what is written to the write
steps of a run, and `Responses` says what is answered to reads, evictions and demands.
`StaleRead` is a run in which a read is stale, and says when such reads are.
`Directory`, `HomeWorker` and `CacheWorker` are the same handlers as they run: classes
whose methods update the entry, the buffers, the queues and the channels in place, each
proved equal to the step function of `Protocol`; `Readiness` shows that every reached
state meets their preconditions. A `Block` has `BLOCK_SIZE` bytes by its type, in memory,
in lines and in messages.

One reading of the source matters: the polling thread serves the parked requests of a
block after a transition has ended and before it takes the next message for it
(`Worker::ProcessToServeRequest` is called by the handler that ends the transition), so
in the model a home worker with parked requests and no transition serves these first.

**The other components** are a few modules each: `SendRing`, `Codec`, `RequestFields` and
`Delivery`; `SlabClasses` and `Slabs`; `LruLists` and `LruCache`; `Radix`, `BucketTrees`
and `GlobalArray`; `Fences`; `MultiBlock`; `LockTable`, `TwoPhaseLocking`,
`Serializability` and `TransactionScripts`; `ClusterBarrier`, `BarrierProofs` and
`BarrierProgress`. Objects the source updates in place are classes; protocols between threads or nodes are state machines over their
steps, with theorems about every run. `Basics`, `Blocks` and `CacheStates` hold what
several of them share.

A try-lock is decided per address by the worker that asks, but per block where another
worker has to give way. `LockTable` makes that decision a parameter (which locks other
workers keep); `TwoPhaseLocking` lets any lock be refused at any time and only forbids
granting a conflicting one.

Integers are unbounded. Where a width matters (`wr_id`, the encoded fields, the lock tag
255) it is written out. Logarithms and the factor 1.25, computed in floating point by the
source, are exact here.

## Model

| member | source | states |
|---|---|---|
| Coherence.NothingUnexpected | src/remote_request_cache.cc:3-695 | in every state reached by any run, no handler has met a branch the source calls unexpected, nor a failing assertion, and no message went to an unknown worker |
| Coherence.SingleWriter | src/remote_request_cache.cc:278-695 | in every reached state a dirty line excludes every other dirty or shared line |
| Coherence.DataValue | src/remote_request_cache.cc:390-428 | in every reached state each shared or dirty line holds the result of all completed writes, and so does home memory whenever the directory is stably unshared or shared, also across write-back races |
| Coherence.ReadsReturnLatest | src/cache.cc:34-122 | whatever a step returns to a reader is the result of all writes completed by then, except for a read served by a line in CACHE_TO_INVALID, which returns what that line holds |
| StaleRead.LeavingLineIsStale | src/cache.cc:52-68 | the exception is real: a reached state in which a read from a line in CACHE_TO_INVALID misses a completed write |
| StaleRead.LeavingServes | src/cache.cc:52-68 | over any run, a line in CACHE_TO_INVALID serves exactly what the block was when the line started to leave, so such a read is stale if and only if the block has changed since |
| StaleRead.EvictedStillFresh | src/cache.cc:828-859 | a line being evicted is up to date as long as the directory is stably dirty and lists its worker |
| Coherence.OwnerHasTheCopy | src/remote_request_cache.cc:98-124 | whenever a demand for the owner's copy is in a channel or parked, the line exists and is dirty, becoming dirty, or being evicted, and in the first and last case holds the latest bytes |
| Coherence.TransferCounter | src/pending_request.cc:185-191 | during an ownership transfer the counter is the number of acknowledgements received minus the owner's data messages received: both messages exist once, in either order, until they are consumed |
| Coherence.WriteTakesEffect | src/pending_request.cc:288-350 | the step that turns a line dirty leaves the writer's bytes over the result of all earlier writes, however the request was served |
| WriteHistory.WritesTakeEffect | src/cache.cc:136-246 | over every run the block is the first block with the bytes of the accepted write steps laid over it in the order of their completion; every accepted write, and nothing else, is completed once or waits at one place with its bytes |
| WriteHistory.StepAccounted | src/pending_request.cc:288-350 | in every reached state a write to a dirty line or an unshared block changes the block by its own bytes at once, any other accepted write starts to wait with its bytes and changes the block by them when it gets the block to itself, no other step changes the block, and none touches a write that waits elsewhere |
| Responses.ReadHit | src/cache.cc:104-127 | in every reached state a read of a shared or dirty line returns the latest block at once and changes nothing |
| Responses.ReadMiss | src/cache.cc:252-330 | in every reached state a read without a line sends one request for it, no other being on its way, and waits |
| Responses.ReadWaits | src/cache.cc:88-102 | a read of a line that waits for its block is put off and changes nothing |
| Responses.ReadArrives | src/pending_request.cc:51-86 | the step that brings a reader its block returns the latest block and leaves it in the line |
| Responses.HomeReadHit | src/local_request_cache.cc:73-79 | a local read of an unshared or shared block returns the latest block at once |
| Responses.HomeReadMiss | src/local_request_cache.cc:53-72 | a local read of a dirty block asks its one owner, and nobody else, for it |
| Responses.HomeReadArrives | src/pending_request.cc:51-86 | the step that ends this fetch returns the latest block and leaves it in memory |
| Responses.EvictsLine | src/cache.cc:828-859 | an evicted clean line goes at once with a notice, a dirty one is written back with the latest bytes and waits, a line in transition stays |
| Responses.PassedLineGoes | src/worker.cc:581-607 | a line that was passed on goes when its last message has left, and no other line does |
| Responses.DemandAnswered | src/remote_request_cache.cc:89-695 | in every reached state a demand, new or parked, is answered with the latest block, to the home worker and to the worker that asked, and leaves a copy behind exactly for a reader; it is parked only if the line waits for the block itself |
| Coherence.CollectorCounts | src/pending_request.cc:502-644 | during an invalidation the counter is the number of listed sharers other than the requester, each of these has exactly one demand, parked demand or reply, and nobody else has any |
| Coherence.CollectorEnds | src/pending_request.cc:276-345 | an answer ends the collection exactly when the counter was one, and otherwise lowers the counter and removes its sender from the list |
| Coherence.SilentListExact | src/directory.cc:80-101 | with nothing in flight or parked, the directory lists exactly the workers that hold the block, with the addresses of their lines |
| SystemProofs.StepKeeps | src/pending_request.cc:646-684 | every step of every worker keeps the coherence invariant and returns up-to-date reads |
| SystemProofs.InitKeeps | src/directory.cc:7-13 | the invariant holds of a system without cached copies |
| HomeProofs.ServeReadClean | src/remote_request_cache.cc:41-60 | serving a read of a clean block sends the reader the latest bytes, lists it with its line, leaves everybody else listed as before, and keeps the invariant |
| HomeProofs.ServeReadDirty | src/remote_request_cache.cc:61-86 | a read of a dirty block sends its one owner, who is not the reader, a forwarded read and nothing else, and keeps the invariant |
| HomeProofs.ServeWriteShared | src/remote_request_cache.cc:323-366 | a write of a block with other sharers sends each of them, and nobody else, one invalidation on behalf of the writer, and keeps the invariant |
| HomeProofs.ServeUpgrade | src/remote_request_cache.cc:362-428 | a write by the only sharer is an upgrade of the listed line; it becomes the owner at once and gets the reply without bytes |
| HomeProofs.ServeWriteUnshared | src/remote_request_cache.cc:373-428 | a write of an unshared block sends the latest bytes, then the reply, makes the writer the only entry and the owner, and keeps the invariant |
| HomeProofs.ServeWriteDirty | src/remote_request_cache.cc:430-466 | a write of a dirty block sends its one owner, who is not the writer, the transfer demand and nothing else, and keeps the invariant |
| HomeProofs.ServeWriteBack | src/remote_request.cc:196-213 | a write-back is acknowledged; it takes its worker off the list, changes nothing if the evicted line is not the one listed, and leaves everybody else listed as before |
| HomeProofs.ServeActiveInvalidate | src/remote_request.cc:179-194 | the eviction of a shared line takes its worker off the list, changes nothing if that line is not the one listed, and leaves everybody else listed as before |
| Directories.Directory.ToShared | src/directory.cc:29-57 | appends the reader and keeps every entry well-formed (dirty: one sharer and no lock; shared: distinct sharers; unshared: only while locked; an exclusive lock only while unshared) |
| Directories.Directory.FinishShared | src/directory.cc:29-57 | ends a transition to shared and keeps every entry well-formed |
| Directories.Directory.ToDirty | src/directory.cc:158-182 | leaves the writer as the only sharer and keeps every entry well-formed |
| Directories.Directory.ToToShared | src/directory.cc:203-208 | starts a transition from dirty and keeps every entry well-formed |
| Directories.Directory.ToToUnShared | src/directory.cc:223-227 | starts an invalidation and keeps every entry well-formed |
| Directories.Directory.ToToDirty | include/directory.h:116-119 | starts a transfer of an unlocked block and keeps every entry well-formed |
| Directories.Directory.Remove | src/directory.cc:80-101 | erases exactly the worker's address, and the entry with its last one unless it is locked |
| Directories.EraseFirst | src/directory.cc:80-95 | the scan erases the first address of the worker and nothing else |
| Directories.RemoveAll | src/directory.cc:432-461 | erases every occurrence of one address |
| Directories.Directory.ToUnShared | src/directory.cc:130-148 | leaves an unshared entry exactly if a lock is held |
| Directories.Directory.Clear | src/directory.cc:432-461 | drops the evicted address only, and the entry with its last one |
| Directories.Directory.RLock | src/directory.cc:264-296 | fails exactly if the address is locked exclusively, otherwise counts one more reader |
| Directories.Directory.WLock | src/directory.cc:298-328 | fails exactly if the address is locked at all |
| Directories.Directory.UnLock | src/directory.cc:403-430 | undoes one lock; an unshared entry goes with its last lock |
| Sharers.RemoveWidEntry | src/directory.cc:80-101 | removing a worker from a list of distinct workers changes nobody else's address |
| Sharers.RemoveAddrEntry | src/directory.cc:432-461 | removing an address affects a worker only if it is the one listed for it |
| HomeWorkers.HomeWorker.ProcessRemoteRead | src/remote_request_cache.cc:3-87 | the handler that changes entry, pending work and channels in place does what the protocol's step says |
| HomeWorkers.HomeWorker.ProcessRemoteWrite | src/remote_request_cache.cc:278-469 | the same for a remote write, in all directory states |
| HomeWorkers.HomeWorker.FanOut | src/remote_request_cache.cc:323-352 | the loop over the sharer list tells every worker but the requester exactly once and counts them |
| HomeWorkers.TellOnce | src/remote_request_cache.cc:323-352 | in a list of distinct workers nobody is told twice |
| HomeWorkers.HomeWorker.ProcessRemoteEvict | src/remote_request.cc:179-213 | eviction notices clear the entry and acknowledge a write-back |
| HomeWorkers.HomeWorker.ProcessRequest | src/remote_request_cache.cc:8-19 | a request is parked in a transition and served otherwise |
| HomeWorkers.HomeWorker.ProcessToServeRequest | src/worker.cc:344-431 | copying the parked queue and serving all of it leaves what serving it from the head until a transition starts would leave |
| HomeWorkers.ReplayIsDrain | src/worker.cc:381-430 | the same equality on values: same entry, same messages in order, unserved requests parked in order |
| HomeWorkers.HomeWorker.ProcessPendingWrite | src/pending_request.cc:276-345 | one answer to the home worker's own write: remove, count down, and at zero copy the bytes |
| HomeWorkers.HomeWorker.ProcessPendingInvalidateForward | src/pending_request.cc:502-644 | one answer to a forwarded invalidation; at zero the requester becomes the owner and gets the bytes unless it still has a copy |
| HomeWorkers.HomeWorker.ProcessPendingRead | src/pending_request.cc:22-156 | the owner's copy ends a fetch or a forwarded read |
| HomeWorkers.HomeWorker.ProcessPendingWriteForward | src/pending_request.cc:434-487 | the new owner is entered and told |
| HomeWorkers.HomeWorker.ProcessLocalRead | src/local_request_cache.cc:26-85 | a local read copies memory or fetches from the owner |
| HomeWorkers.HomeWorker.ProcessLocalWrite | src/local_request_cache.cc:198-313 | a local write copies into memory or starts an invalidation |
| CacheWorkers.CacheWorker.ProcessRemoteReadCache | src/remote_request_cache.cc:89-202 | the owner's handler of a fetch or forwarded read, in place, does what the protocol's step says |
| CacheWorkers.CacheWorker.ProcessInvalidate | src/remote_request_cache.cc:478-640 | the same for invalidations |
| CacheWorkers.CacheWorker.ProcessRemoteWriteCache | src/remote_request_cache.cc:501-695 | the same for a fetch for writing or a transfer |
| CacheWorkers.CacheWorker.ProcessPendingRead | src/pending_request.cc:22-130 | the reply fills the line and is what the reader gets |
| CacheWorkers.CacheWorker.ProcessPendingWrite | src/pending_request.cc:158-350 | counts the messages of a write; at zero copies the bytes again and makes the line dirty |
| CacheWorkers.CacheWorker.ReceiveOwnership | src/pending_request.cc:158-191 | the old owner's data lands and is counted |
| CacheWorkers.CacheWorker.Read | src/cache.cc:46-135 | in place what the protocol's step says of a read: a hit, a miss, or a wait, including hits on lines on their way out |
| CacheWorkers.CacheWorker.Write | src/cache.cc:136-246 | in place what the protocol's step says of a write: a hit, an upgrade that writes into the line at once, a miss, or a wait |
| CacheWorkers.CacheWorker.EvictLine | src/cache.cc:828-859 | a clean line goes with a notice, a dirty one is written back first and waits |
| CacheWorkers.CacheWorker.ProcessPendingEvictDirty | src/pending_request.cc:489-500 | the acknowledgement frees the line |
| CacheWorkers.CacheWorker.CompletionCheck | src/worker.cc:581-607 | a line that was passed on is freed when its last message has left |
| Readiness.RequestReady | src/remote_request_cache.cc:3-469 | in every reached state the next request of a channel meets the precondition of the home worker's handler |
| Readiness.DrainReady | src/worker.cc:381-430 | in every reached state so do the parked requests, one after the other |
| Readiness.LocalReady | src/local_request_cache.cc:3-313 | in every reached state the requests of local threads meet the precondition of their handlers |
| Readiness.ReplyReady | src/pending_request.cc:646-684 | in every reached state a reply meets the pending work and directory state its handler requires |
| Readiness.CacheReady | src/remote_request_cache.cc:89-695 | in every reached state a message for a cache worker, from the home worker, from an owner or parked, meets the precondition of its handler |
| SendRing.RdmaContext.GetFreeSlot | src/rdma.cc:598-614 | hands out a slot no message in flight occupies, and fails exactly when the maximum of messages is pending |
| SendRing.RdmaContext.Signal | src/rdma.cc:707-737 | signals when the unsignalled messages reach the maximum or on demand, with exactly their counts in the wr_id |
| SendRing.RdmaContext.Post | src/rdma.cc:655-751 | posts one request in its slot and keeps ring and counters exact |
| SendRing.RdmaContext.Rdma | src/rdma.cc:630-751 | a request is posted at once, or queued behind the others exactly when the maximum is pending; all requests stay in call order |
| SendRing.RdmaContext.Submit | src/worker.cc:546-579 | the slot-filling path of a message keeps all invariants |
| SendRing.RdmaContext.MergeFront | src/rdma.cc:957-968 | a queued message joins the last one behind a zero byte if it fits, and stays in order |
| SendRing.RdmaContext.ProcessPendingRequests | src/rdma.cc:945-1114 | posts at most as many new work requests as completed, exactly as many if requests still wait, merges into none posted before and wherever a message fits the one before; afterwards a non-empty queue means the ring is full, and nothing is lost, duplicated or reordered |
| SendRing.RdmaContext.SendComp | src/rdma.cc:1124-1152 | a completion releases exactly the messages and slots of the oldest signalled batch, as many as its wr_id counts |
| SendRing.RdmaContext.FullHasSignal | src/rdma.cc:711-712 | a full ring has a signalled batch outstanding |
| SendRing.SlotsDiffer | src/rdma.cc:598-614 | messages in flight occupy different slots |
| SendRing.WrIdRoundTrip | src/rdma.cc:734-736 | the counts and the id come back out of a wr_id unchanged |
| Codec.IntegerRoundTrip | include/chars.h:11-23 | reading an integer of a width undoes writing it |
| Codec.LayoutsAgree | src/workrequest.cc:13-289 | Ser and Deser use the same fields in the same order for every operation |
| Codec.RoundTrip | src/workrequest.cc:146-289 | Deser undoes Ser for every encodable request and consumes exactly the bytes Ser wrote, whatever follows, if that is the end of the buffer or a zero byte |
| RequestFields.Arrives | src/workrequest.cc:146-289 | a received request has its operation and every field that the handler of the operation looks at, and its data, as they were sent; which fields these are is listed field by field, apart from the layouts |
| RequestFields.EncodingsDiffer | src/workrequest.cc:13-144 | requests of one operation that differ in such a field or in their data have different encodings |
| RequestFields.HandledEncodable | src/workrequest.cc:13-144 | every operation with a handler can be sent |
| RequestFields.GetReplyStatus | src/remote_request.cc:155-177 | the one exception: the answer to a GET carries no status, although its handler looks at one |
| Codec.JoinAppend | src/rdma.cc:960-968 | merging one more request appends a zero byte and its encoding |
| Codec.ReceiveLoop | src/server.cc:86-114 | splitting a merged message yields the requests that were merged, in order, never meets a missing separator, and writes no byte but the one behind the message |
| Delivery.ReceivePosted | src/server.cc:84-114 | the receive loop over all posted messages, merged or not and up to the full slot size, yields the requests they carry, in order |
| Delivery.ReceiveCalls | src/rdma.cc:945-1114 | both ends together: what is received is what was submitted, in call order, up to the requests that still wait in the overflow queue |
| SlabClasses.BuildTable | src/slabs.cc:126-149 | the table for factor 1.25 starts at 48, is strictly increasing and 8-byte aligned, grows by at most a quarter and the alignment from class to class up to the last, which is the maximum, has at most 200 classes and passes no block boundary without a class on it |
| SlabClasses.RoundsLog | src/slabs.cc:126-149 | the table loop makes at most four rounds for each doubling of the size |
| SlabClasses.FindClass | src/slabs.cc:39-49 | finds the smallest class that holds the size, and none exactly for zero and for sizes beyond the maximum |
| SlabClasses.AlignedClass | src/slabs.cc:126-149 | the smallest class that holds a multiple of the block size is a multiple of the block size |
| Slabs.SlabAllocator.SplitSlab | src/slabs.cc:232-240 | cuts a page into as many chunks as it holds, one after the other, all free and apart from each other and from all others, each on its free list once |
| Slabs.PageFilled | src/slabs.cc:134-145 | that many chunks fill a page up to less than one more |
| Slabs.SlabAllocator.NewSlab | src/slabs.cc:242-265 | succeeds exactly if a page is left, cuts it up for the class, and keeps the partition and the counts |
| Slabs.SlabAllocator.DoSlabsAlloc | src/slabs.cc:268-318 | fails exactly if the class has no free chunk and no page is left; otherwise one chunk that was not allocated changes hands and no other |
| Slabs.SlabAllocator.DoSlabsFree | src/slabs.cc:320-354 | pushes the chunk and counts its bytes; a class out of range breaks the assertion and is otherwise ignored |
| Slabs.SlabAllocator.SbMalloc | src/slabs.cc:359-395 | gives a chunk of the smallest class that fits, and fails exactly if the pages of that class have all their chunks allocated and no page is left; free bytes plus the sizes of allocated chunks stay the limit |
| Slabs.SlabAllocator.SbAlignedMalloc | src/slabs.cc:397-437 | every successful result is on a block boundary and holds the size; fails under the same condition |
| Slabs.SlabAllocator.SbFree | src/slabs.cc:554-588 | gives the chunk back to its class and its bytes to the count; exactly for a chunk that is already free an assertion breaks, and without assertions nothing changes |
| Slabs.SlabAllocator.Preallocate | src/slabs.cc:168-189 | one more page for every class, exactly if the arena has room for all of them |
| Slabs.AddChunk | src/slabs.cc:232-240 | a chunk behind all others keeps the partition and the totals |
| Slabs.TakeChunk | src/slabs.cc:288-306 | allocating the first free chunk keeps the lists exact and adds its bytes to the total in use |
| Slabs.GiveChunk | src/slabs.cc:331-352 | freeing an allocated chunk keeps the lists exact and subtracts its bytes |
| LruCache.Cache.LinkLRU | src/cache.cc:634-695 | puts the line first in its list, leaves the order of all others, and keeps all lists well-formed and disjoint |
| LruCache.Cache.UnLinkFrom | src/cache.cc:699-718 | takes the line out of its list and leaves the order of all others, keeps all lists well-formed, and changes nothing if the line is on no list |
| LruCache.Cache.UnLinkLRU | src/cache.cc:720-731 | afterwards the line is on no list and every other line is where it was |
| LruLists.LinkKeeps | src/cache.cc:644-651 | the pointer updates of linking keep heads, tails and neighbours of all lists right |
| LruLists.UnlinkKeeps | src/cache.cc:699-718 | the pointer updates of unlinking do the same |
| LruLists.UnlinkTwice | src/cache.cc:699-731 | unlinking twice is harmless, whatever list the line remembers |
| LruCache.Cache.SetCLine | src/cache.cc:862-895 | a new line adds a block to the bytes in use |
| LruCache.Cache.ToShared | include/cache.h:203-217 | a line that gets its copy is put first in a list, once |
| LruCache.Cache.ToDirty | include/cache.h:220-226 | the same for a written line |
| LruCache.Cache.ToToDirty | src/cache.cc:185-196 | an upgraded line is unlinked while it waits |
| LruCache.Cache.ToToInvalid | include/cache.h:229-234 | a line given up counts as leaving |
| LruCache.Cache.ToInvalid | src/cache.cc:935-961 | a line that goes takes its bytes, its link and its leaving count along |
| LruCache.Cache.Touch | src/cache.cc:129-132 | a hit takes the line out of its list and puts it first in the one picked, and changes no state |
| LruCache.Cache.EvictLine | src/cache.cc:828-859 | a clean line goes at once, a dirty one counts as leaving; the live bytes fall by one block |
| LruCache.Cache.EvictFrom | src/cache.cc:790-822 | takes the last line of the list, and no other, unless it is busy |
| LruCache.Cache.Evict | src/cache.cc:757-825 | never takes the live bytes below eight tenths of the allowed memory, and evicts nothing at or below that; with nothing in its way it evicts as many lines as asked for and allowed, from the ends of the lists picked |
| LruCache.LimitLargest | src/cache.cc:757-779 | as many as allowed: the largest number that is asked for, leaves eight tenths, and is at most 128 |
| Radix.LayersIsLog | include/garray.h:89-93 | the number of layers is one more than the rounded-up logarithm of the array's length in buckets |
| Radix.LayersPositive | include/garray.h:89-93 | the array has a layer at all exactly when its length times the addresses per bucket exceeds the items per bucket |
| Radix.ShrinkTooFar | include/garray.h:236-243 | shrinking to one item with 128 items and 64 addresses per bucket asks for no layers |
| Radix.LayersIsDepth | include/garray.h:89-93 | otherwise the number of layers is the depth of the tree over the buckets |
| Radix.DepthTop | include/garray.h:99-108 | the top layer of that tree is a single bucket |
| GlobalArrays.GArray.constructor | include/garray.h:145-171 | a new array of any length, zero included, is a complete tree of fresh buckets and touches nothing else |
| GlobalArrays.GArray.Walk | include/garray.h:26-40 | following the digits of a bucket number leads to that bucket, and the leading digit is zero |
| GlobalArrays.GArray.Locate | include/garray.h:23-42 | gives the address of an item |
| GlobalArrays.GArray.LocateInternal | include/garray.h:46-74 | gives the address of a slot of any layer |
| GlobalArrays.GArray.CalLayers | include/garray.h:99-108 | gives the bucket counts of all layers |
| GlobalArrays.GArray.InsertBlock | include/garray.h:112-116 | writes exactly the slot that belongs to the new bucket |
| GlobalArrays.GArray.Read | include/garray.h:303-311 | returns the item of the flat sequence |
| GlobalArrays.GArray.Write | include/garray.h:313-320 | changes that item of the flat sequence and no other |
| GlobalArrays.DistinctAddresses | include/garray.h:23-42 | distinct indices have distinct addresses |
| GlobalArrays.GArray.Grow | include/garray.h:182-233 | growth, with or without new layers, adds fresh buckets only and moves no item; it breaks the assertion on the top layer exactly if the array was empty |
| GlobalArrays.GArray.Shrink | include/garray.h:236-281 | shrinking frees exactly the buckets the smaller array does not need, each once, and keeps the rest |
| GlobalArrays.GArray.Release | include/garray.h:268-278 | the bottom-up loops free each bucket beyond the new counts once, finding it through its parent |
| GlobalArrays.GArray.Resize | include/garray.h:176-288 | indices below both sizes keep their values, no bucket is lost or freed twice, nothing else in memory changes, and an assertion breaks exactly when an empty array outgrows its bucket |
| GlobalArrays.GArray.Run | include/garray.h:176-320 | after any run of resizes and writes the array holds every value a flat array would be known to hold |
| BucketTrees.AddBucket | include/garray.h:112-116 | linking a fresh bucket behind a layer keeps the tree |
| BucketTrees.PutOnTop | include/garray.h:191-212 | a new root with new layers takes over the old tree |
| BucketTrees.CutTree | include/garray.h:268-281 | what remains after the release is the smaller tree |
| Fences.StartInOrder | src/worker.cc:609-705 | in every run the requests started, in the order of their starts, followed by the queue are all requests in the order of issue; a non-empty queue means the fence is set |
| Fences.FenceOrder | src/local_request.cc:189-222 | no request issued after a memory fence was started while a write issued before it was pending |
| Fences.LocksWait | src/local_request_cache.cc:394-411 | every lock or unlock request was started with no write pending |
| Fences.PendingExact | src/local_request_cache.cc:194-197 | in every run the pending writes are exactly the asynchronous writes that have started and not completed |
| Fences.StartsAtOnce | src/local_request_cache.cc:180-197 | with the fence open a request starts when it is issued, unless it is a lock operation and writes are pending; a fence closes exactly if writes are pending |
| Fences.FrontStarts | src/worker.cc:622-699 | while the queue is served its first request starts under the same condition, and with nothing queued the fence opens |
| Fences.NothingQueued | include/worker.h:350-377 | in a run without fences, locks and unlocks every request has started |
| Fences.StepKeeps | include/worker.h:350-377 | every step of the fence keeps its invariant |
| MultiBlock.Tiling | src/cache.cc:58-63 | every byte of a request is in the piece of exactly one of its blocks |
| MultiBlock.Request.ServeBlock | src/cache.cc:37-350 | one block is copied, copied in advance and requested, requested, or parked on, and counted, for reads and for writes |
| MultiBlock.Request.Serve | src/local_request_cache.cc:26-85 | the counter is the outstanding sub-requests plus one while parked, through every re-serve; a pass starts over from the first block, copies and requests up to the first block in transition, and the application is told exactly when the counter is zero |
| MultiBlock.Request.Reply | src/pending_request.cc:288-370 | a reply copies its piece, again where it was copied in advance, counts down, and tells the application if it was the last |
| MultiBlock.Request.CopyPiece | src/pending_request.cc:51-59 | moves exactly the bytes of the block that belong to the request, to the buffer or to the line, and disturbs no piece copied before |
| MultiBlock.Request.Change | src/cache.cc:34-369 | a change of any block by anybody else, at any time between two steps of the request, keeps all of this true |
| MultiBlock.Request.Complete | src/cache.cc:34-369 | once told, the application was told once; every block was copied, and each byte of the buffer is that of its line at the moment of the last copy: found there by a read, left there by a write |
| MultiBlock.OutsideUntouched | src/cache.cc:200-246 | whatever others do meanwhile, a request changes no byte outside its range |
| MultiBlock.ReadsChangeNothing | src/cache.cc:109-122 | a read changes no line |
| MultiBlock.AgainHarmless | src/cache.cc:30-36 | writing a block again in a re-serve changes nothing if and only if the piece is still there |
| MultiBlock.StillThere | src/cache.cc:30-36 | and it is, as long as nobody else changed the line since |
| MultiBlock.WrittenAgain | src/cache.cc:30-99 | otherwise what somebody else wrote is lost: a run in which a parked write starts over and overwrites another write to a block it had already written |
| LockTables.GAlloc.Lock | src/gallocator.cc:199-263 | a multi-block try-lock takes all locks, or none and leaves the table as it was; it succeeds exactly if each block grants its lock, and then no lock conflicts |
| LockTables.GrantedBounds | src/remote_request_cache.cc:302-320 | no granted lock conflicts with a held one, a block without conflicting locks is never refused, and where no other worker keeps locks a lock is granted exactly if its address is free |
| LockTables.ConflictRefused | src/remote_request_cache.cc:302-320 | a lock is refused for a conflicting lock on its address and for one another worker keeps anywhere in the block; a write conflicts with every lock |
| LockTables.FreeYetRefused | src/remote_request_cache.cc:22-38 | a free address can be refused to another worker because of a lock elsewhere in its block |
| LockTables.GAlloc.UnLock | src/gallocator.cc:213-231 | gives back one lock in every block of the range and touches no other |
| LockTables.UnlockUndoesLock | src/gallocator.cc:199-263 | unlocking a range undoes locking it |
| LockTables.OneKeyPerBlock | src/gallocator.cc:213-231 | every byte of the range lies in the block of exactly one of its locks |
| Serializability.Serializable | database/txn/TransactionManager2PL.cpp:68-104 | for every interleaving and every choice of refused locks, each committed transaction read what it reads in the serial run in the order commits started, and with no commit in progress memory is what that run leaves |
| TransactionScripts.FinalValues | database/txn/TransactionManager2PL.cpp:68-104 | with no commit in progress every record has the value its last committed update or deletion gave it, and its first value if there was none |
| TransactionScripts.CommittedAsAsked | database/txn/TransactionManager2PL.cpp:25-104 | every committed access is the one its thread selected or inserted, with the value of the thread's last modification of it, or else the record as read, or as marked deleted or made |
| TransactionScripts.AbortedOnlyReleases | database/txn/TransactionManager2PL.cpp:57-65 | a transaction that aborted, by itself or for want of a lock, takes no more steps than those that give back its locks and end it |
| TransactionScripts.NeverStuck | database/txn/TransactionManager2PL.cpp:25-127 | in every run every thread can take a step |
| Serializability.OnlyCommitsShow | database/txn/TransactionManager2PL.cpp:106-127 | at every moment each record has the value of some prefix of the serial run: running and aborted transactions leave no trace |
| Serializability.LocksAreHeld | database/txn/TransactionManager2PL.cpp:106-127 | every lock in the table, those of inserted records included, is held by a thread that still has to give it back |
| Serializability.AllReleased | database/txn/TransactionManager2PL.cpp:68-127 | with all transactions finished no lock is left, of inserted records neither |
| Serializability.LocksKept | database/txn/TransactionManager.h:73-105 | every step, lock by lock, granted or refused, keeps the table equal to what the threads hold |
| Serializability.FetchKeeps | database/txn/TransactionManager2PL.cpp:25-65 | a record read under its lock has the serial value, and a thread never has a record for writing and otherwise too |
| Serializability.CommitKeeps | database/txn/TransactionManager2PL.cpp:68-92 | the start of a commit extends the serial run without invalidating what others have read |
| TwoPhaseLocking.Exclusion | src/directory.cc:298-308 | a key held exclusively by one thread is held by no other |
| ClusterBarrier.NumberUnique | database/utils/ClusterSync.h:25-63 | different calls or partitions never use the same key number |
| BarrierProofs.Barrier | database/utils/ClusterSync.h:14-23 | in every run no node leaves a fence before every node has entered it |
| BarrierProofs.AnsweredOnce | src/master.cc:195-221 | in every run, while a node waits its GET is at exactly one place: the last message of its channel, parked once under its key, which is missing from the store, or answered by one reply with the value contributed to that call; a node that does not wait has none |
| BarrierProgress.NoDeadlock | database/utils/ClusterSync.h:14-63 | in every run, either every node has made all its calls or some step can be taken |
| BarrierProgress.EveryRunEnds | database/utils/ClusterSync.h:14-63 | whatever the schedule, a run has at most a number of steps fixed by the calls and the number of nodes, it can go on exactly if it has fewer, and at the end every node has made all its calls |
| BarrierProgress.StepLeft | src/master.cc:173-221 | every step is exactly one of the steps its node still has to go, also where a PUT answers parked GETs of others |
| BarrierProofs.PutOnce | src/master.cc:173-194 | no key is put twice |
| BarrierProofs.StepKeeps | src/master.cc:173-221 | every step of nodes and store keeps the barrier's invariant |

## Left out

- Coherence under held cache locks and TRY_LOCK: the undo paths and lock-held lines are not in the coherence model, so cross-node lock exclusion is not claimed there.
- Deadlock freedom and liveness of the protocol and of the fence.
- Work ids, request copies and the pending-work table of the workers: a reply meets the pending work of its block directly.
- Several blocks in one coherence run: blocks do not interact in the protocol except through multi-block requests, which `MultiBlock` covers.
- ReadsReturnLatest: reads from a line in CACHE_TO_INVALID are excepted, because the code serves them on purpose although they can be stale.
- WritesTakeEffect: a write that finds its line or the directory in transition waits outside the block's state and comes back as another step; the order of such waiting requests is not modelled.
- Request.Serve: an asynchronous write continues in a copy of its request; the copy is the same request here. A request with a remote function instead of bytes is not modelled.
- ReceiveLoop: the terminator needs one byte behind the message; the source has none behind the last receive slot if a message fills it.
- Lock: one call takes its locks with no other call in between; in `TwoPhaseLocking` they are taken one by one. Which worker keeps which lock is a parameter and does not follow from the coherence model.
- RLock: the source asserts at most 254 readers of one address and does not handle more; the same is required here.
- Resize: header locking and synchronisation between nodes, the delay before freeing, and the floating-point evaluation of the logarithm are not modelled; shrinking below the length for which the code computes a layer is excluded by the stated condition.
- A bucket of the global array is either items or addresses in the model; the two views of the same bytes are not related.
- Signal: atomic counters are updated under the connection's lock, as in the default build; failed posts are not modelled.
- Serializable: records are identified by address and size; the freeing of deleted and of aborted new records and lookups of missing keys are not modelled; the source asserts that the lock of a new record is granted in the end, which a lock elsewhere in its block can prevent (`FreeYetRefused`), and runs in which that assertion breaks are left out; reader counts are unbounded; the limit on lock attempts may have any value.
- SbFree: the byte count of requested memory per class and the zeroing of freed memory are not modelled.
- Evict: which list is picked and which locks are obtained are parameters; held locks on a line count as a refused lock; the thresholds 0.8 and 0.9 are exact, and the periodic caller with 0.9 is not modelled.
- Store fences, the SELECTIVE_CACHING, NOCACHE and DHT variants, the profiling copies of the handlers, sb_realloc, libverbs, sockets, the event loop, logging and statistics.
- The TPC-C workload, its schemas and the optimistic and timestamp transaction managers.
