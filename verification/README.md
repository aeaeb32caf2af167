# Proofs about the block cache, the devices under it and the transfer engine

A Dafny model of the parts of this library where a mistake would be silent: the block
cache, whose entries must never be staler than a finished write; the devices under it,
whose declared sizes must never promise more than they hold; and the transfer engine,
which must publish whole files or nothing, lose no acknowledged ledger entry, and account
for every entry of a tree.

`dafny verify dfyconfig.toml` checks everything.

| file | what it models |
|---|---|
| `Recency.dfy`, `Lru.dfy` | the least-recently-used store: a most-recent-first sequence, and the slab of linked nodes that refines it |
| `CachingDevice.dfy` | the cache as one thread uses it: stitched reads, bypasses, sweeps around writes and resizes |
| `CacheProtocol.dfy`, `CacheHistory.dfy`, `CacheFills.dfy`, `CacheLiveness.dfy`, `CacheOverlap.dfy` | the cache as any number of threads use it, one lock region or device byte at a time: coherence, where answers come from, which fetches are kept, freedom from deadlock, accounting, and what overlapping resizes break |
| `FileDevice.dfy`, `Slices.dfy` | the file-backed device and its lock; nested windows |
| `Streams.dfy`, `Copying.dfy`, `StagingNames.dfy`, `Exporting.dfy`, `Importing.dfy` | bounded copies, sparse output, staging names, publication by rename or link, staged imports |
| `Ledger.dfy` | the ledger of verified files: recovery, appending, crashes, the resume decision |
| `TreeReport.dfy`, `TreeWalk.dfy`, `SafeNames.dfy`, `TreeExport.dfy`, `TreeImport.dfy` | tree transfers: the explicit stack, which entries come and in what order, the report and the exit code |
| `JsonPrint.dfy`, `JsonLayout.dfy` | the JSON printer, against a reader for RFC 8259 and a layout in lines |
| `Closure.dfy` | which devices change when one does |

Calls into the operating system, drivers, signals and other processes are arbitrary: a
parameter or a nondeterministic choice stands for each answer, which positions of a device
can be read may change between any two calls, and other processes may change a directory
between any two. A failed write to the device under a cache may land any part of its bytes;
a failed file write lands a prefix, since it writes in order. Numbers are unbounded with
the 64-bit limits written out where the code checks, saturates or could overflow. Digests
are an arbitrary function of the bytes; the ledger's encoding is any that decodes what it
encodes and emits no newline.

Assumptions the code makes and the model shares: fewer than 2^64 invalidations happen during
one fetch, so the cache's generation is a natural number; no process outside changes a file
under a `FileDevice`; other processes leave a staging file alone. What the code needs of
resizes of one cache is stated as the last point below.

Five things turned out not to hold everywhere, and are stated with their exact condition
and a concrete run:

- A cached read does not always answer as the device would. It succeeds if and only if each
  of its blocks is held or can be read whole (`CachingDevice.ReadAt`, `CachedAgrees`). So an
  unreadable position beside the range makes it fail where the device answers
  (`NeighbourSpoils`), and a held block makes it answer where the device fails
  (`HeldOutlastsTheDevice`).
- An export touches the destination before it publishes if and only if the directory counts
  the first 100 characters of its name as full stops alone, and the rest as one more and the
  suffix of the staging attempt (`TouchedEarly`, `ApartIs`); it is then an empty file while
  the copy fills it. That is 101 full stops and the suffix (`CollidesExactly`,
  `DottedNameCollides`), and where case is folded the same in capitals
  (`CapitalNameCollides`).
- A file write checks its bound before it holds the lock. It lengthens the file if and only
  if the file ends before the write does when the lock is taken, which takes a truncation in
  between (`WriteExtends`, `ShortMeansCut`), as in `LateWriteExtends`. The declared size is
  still never more than the file holds (`DeclaredIsHeld`).
- The empty read of an empty slice is refused when the slice starts past the end of another
  slice (`EmptyRead`, `EmptyReadRefused`).
- A resize sweeps from the smaller of the new size and the size it asked first. What it
  leaves alone stays exact, whatever the resize does, if and only if no block of it ends past
  the device as the resize finds it (`SparedIsExact`). So held entries are exact in every
  run in which no resize finds the device shorter than where it sweeps from (`RunCoherent`),
  as when resizes take turns or only grow (`AloneIsTimely`); one that does can leave a
  short block (`LateResizeLeavesAShortBlock`, `OverlappingResizesLeaveAShortBlock`).

## Model

| member | source | states |
|---|---|---|
| Recency.Inclusion | src/caching_device.rs:197-287 | For any trace of lookups and removals, the order kept at a smaller capacity is a prefix of the one kept at a larger, and hits never decrease with capacity; a capacity of zero acts as one |
| Recency.Retained | src/caching_device.rs:231-266 | A held block stays held, with its data, through any trace as long as the blocks more recent than it and those the trace looks up are fewer than the capacity: eviction takes only the least recently used |
| Recency.RunKeepsShape | src/caching_device.rs:231-266 | Over any trace the held blocks stay distinct and within the capacity, zero acting as one |
| Recency.DropIsWithout | src/caching_device.rs:212-229 | Removing one block is filtering by it, whatever the order |
| Recency.RetainTwice | src/caching_device.rs:513-523 | Sweeping twice by the same range is sweeping once: what the second sweep of a write finds to do comes only from fetches in between |
| LruStore.Lru.Unlink | src/caching_device.rs:160-177 | The node leaves the doubly linked list, whose forward and backward walks stay each other's reverse, and no node's block or data changes |
| LruStore.Lru.LinkNewest | src/caching_device.rs:179-194 | The node becomes the head of the list, and the rest keeps its order |
| LruStore.Lru.Get | src/caching_device.rs:197-209 | A hit returns the held data and promotes the block to the front of the sequence; a miss changes nothing; no slot is used |
| LruStore.Lru.Remove | src/caching_device.rs:212-229 | The block leaves the sequence, its slot goes to the free list, and the answer says whether it was held |
| LruStore.Lru.Insert | src/caching_device.rs:231-267 | The slab refines the plain sequence: old copy dropped, last element evicted at capacity, new entry first; and the slab never outgrows one slot or the capacity |
| LruStore.Lru.RetainBlocks | src/caching_device.rs:282-287 | Exactly the entries that pass the test stay, in their order, in whatever order the index yields the others |
| LruStore.Lru.Clear | src/caching_device.rs:269-275 | Nothing is held and no slot is kept |
| LruStore.Lru.RecencyOrder | src/caching_device.rs:292-301 | Following the older links from the head visits the blocks in recency order |
| LruStore.Lru.RecencyOrderReversed | src/caching_device.rs:308-317 | Following the newer links from the tail visits the same blocks in reverse |
| CacheProtocol.StepCoherent | src/caching_device.rs:592-735 | Every step of any thread keeps coherence: held bytes and bytes being fetched agree with the device except where a write or resize is between its two sweeps. Of a resize it is assumed only that the device it reaches is no shorter than where its sweeps begin |
| CacheProtocol.RunCoherent | src/caching_device.rs:592-735 | Coherence holds at every moment of every run whose resizes are timely in that sense |
| CacheProtocol.HeldIsExact | src/caching_device.rs:912-964 | In such a run, once no write or resize over a block is between its sweeps, a held copy of it is exactly the device's bytes, also after writes that failed part way |
| CacheProtocol.AnswerIsCurrent | src/caching_device.rs:592-735 | In such a run, what a lookup answers agrees, position by position, with the device unless a change to that position was under way at some time since the lookup began; undisturbed, it is the device's bytes for the block |
| CacheHistory.AnswerWasThere | src/caching_device.rs:592-735 | In such a run every byte a lookup answers, disturbed or not, is one the device held at that position: at some moment since the lookup began, or at one from which a single write or resize was between its sweeps until it began |
| CacheFills.KeptUnlessSwept | src/caching_device.rs:665-734 | In every run, what a fetch brings is held when it lands exactly if another fetch had it held already or no sweep came since its lookup looked; then it is the newest entry, with the bytes fetched; the lookup answers what was held, and else what it fetched |
| CacheFills.LookMeans | src/caching_device.rs:665-701 | A lookup is answered from the cache exactly when the block is held, sleeps exactly when another call fetches it and its own thread fetches nothing, and else fetches it under a marker |
| CacheProtocol.HeldLengthIsExact | src/caching_device.rs:1064-1077 | In such a run, with no resize between its sweeps every held block has the block size or what the device has left, after growing, shrinking or failing, misses in between included |
| CacheProtocol.AloneIsTimely | src/caching_device.rs:1064-1077 | Every resize of a run is timely if each that makes the device shorter is alone past asking the size: so with resizes that take turns, and with any that only grow, however they overlap |
| CacheProtocol.SerialLengthIsExact | src/caching_device.rs:1064-1077 | So held lengths are exact in every run whose resizes take turns, whatever else overlaps them |
| CacheProtocol.SparedIsExact | src/caching_device.rs:1064-1077 | A block that a resize's sweeps leave alone stays what the device has, whatever the resize makes of the device, if and only if it ends within the device as the resize finds it; a timely resize spares no other |
| CacheProtocol.LateResizeLeavesAShortBlock | src/caching_device.rs:1064-1077 | The other half: a held block that ends past the device a late resize finds, but below where it sweeps from, outlives both sweeps and is shorter than what the device then has |
| CacheProtocol.Sweep2Coherent | src/caching_device.rs:513-523 | The second sweep closes a change: everything it leaves agrees with the device without it |
| CacheProtocol.SweepDropsOverlap | src/caching_device.rs:513-523 | A sweep of a range drops a block exactly when some position lies in both: a block that ends where the range begins, or begins where it ends, stays |
| CacheProtocol.LandCoherent | src/caching_device.rs:708-734 | A fetch is kept only if no sweep ran since it began, so keeping it cannot bring back bytes from before a write |
| CacheOverlap.OverlappingResizesLeaveAShortBlock | src/caching_device.rs:1064-1077 | From a new cache such a late resize is reached: a run of two overlapping resizes ends with a held block shorter than what the device holds for it and nobody between sweeps |
| CacheLiveness.StepOrderly | src/caching_device.rs:1100-1124 | Every step keeps the fetch accounts: markers, sleepers, first fetches and counters |
| CacheLiveness.RunOrderly | src/caching_device.rs:592-735 | The accounts hold at every moment of every run, any number of threads and any depth of re-entrant calls |
| CacheLiveness.MarkersAreGuards | src/caching_device.rs:1094-1124 | The in-flight markers are exactly the fetch guards alive on the threads' stacks, as a multiset, errors included |
| CacheLiveness.CountsConserved | src/caching_device.rs:665-733 | Hits and misses are the lookups answered plus those charged and not yet answered, and misses the fetches under way plus those retired; with no call under way, hits and misses are the lookups answered and nothing is in flight |
| CacheLiveness.DuplicateFetchIsReentrant | src/caching_device.rs:665-701 | Two fetches of one block at once exist only if one of the two threads began another fetch before |
| CacheLiveness.NobodyWaitsForASleeper | src/caching_device.rs:665-701 | A thread that sleeps owns no fetch, so what anybody waits for is owned by a thread that does not sleep |
| CacheLiveness.SomeoneCanStep | src/caching_device.rs:665-701 | While any call is unfinished some thread can take a step towards its end: no deadlock and no lost wake-up |
| CacheLiveness.StopsOnlyIdle | src/caching_device.rs:665-733 | However the threads are scheduled, steps that begin no new call can stop only when every call has returned, with the counters balanced and nothing in flight |
| CacheLiveness.NeverForwardForever | src/caching_device.rs:665-733 | And they do stop: no infinite history, however scheduled, consists of such steps from any moment on; waking, finding the block gone and sleeping again cannot go on for ever |
| CacheLiveness.EveryCallCanFinish | src/caching_device.rs:665-733 | After any run there is a continuation in which every call returns |
| CachingDevices.CachingDevice.Block | src/caching_device.rs:592-735 | One block is served exactly when it is held or can be read whole now, as the device's bytes for it clamped to the end; it counts one hit or one miss, and a failure leaves the entries alone |
| CachingDevices.CachingDevice.ReadAt | src/caching_device.rs:765-876 | A read through blocks succeeds if and only if each of its blocks is held when its turn comes or can be read now, and then returns the device's bytes for exactly the range asked and leaves its last block held; it leaves the trace of lookups of its blocks in order, and where it goes past the cache it leaves the cache alone |
| CachingDevices.CachingDevice.BypassMeans | src/caching_device.rs:800-824 | A read goes past the cache exactly when it runs past the device's end or falls in several blocks that are more than half the capacity: a read within one block never does, however small the cache |
| CachingDevices.CachingDevice.Stitch | src/caching_device.rs:826-876 | The loop fills the whole buffer with the range's bytes; its short-fill error is unreachable while the size stands still |
| CachingDevices.TakeFills | src/caching_device.rs:827-840 | What one clamped block contributes is the range's bytes in it, and always takes the fill to the next block |
| CachingDevices.IndexIs | src/caching_device.rs:805-808 | The block index used in the proofs is the code's division |
| CachingDevices.CachedAgrees | src/caching_device.rs:827-876 | That condition position by position: the read fails exactly when an unreadable position lies in one of the blocks, within the range or beside it, and that block is not held at its turn |
| CachingDevices.HeldUntilItsTurn | src/caching_device.rs:231-266 | Held at its turn implies held when the read begins, and follows from it whenever the read's blocks fit beside those held |
| CachingDevices.NeighbourSpoils | src/caching_device.rs:827-876 | One direction at work: beside an unreadable neighbour of the same block the device's own read answers and the cached read fails |
| CachingDevices.HeldOutlastsTheDevice | src/caching_device.rs:827-876 | The other: a block fetched before its position became unreadable is still served, right, where the device's own read fails |
| CachingDevices.CachingDevice.WriteAt | src/caching_device.rs:912-964 | The device gets the write, whole or whatever part of it landed, and exactly the blocks it could touch are dropped, so every entry left is still exact |
| CachingDevices.CachingDevice.SetLen | src/caching_device.rs:1064-1077 | The device is resized, or left as a failure leaves it, and every entry left is exact for the new size |
| CachingDevices.CachingDevice.Invalidate | src/caching_device.rs:513-523 | Exactly the entries that overlap the range go, and the generation moves on |
| CachingDevices.CachingDevice.InvalidateAll | src/caching_device.rs:507-511 | Nothing is held and the generation moves on |
| CachingDevices.WriteApart | src/caching_device.rs:513-523 | A block outside the swept range holds the same device bytes before and after the write, saturated range ends included |
| CachingDevices.ResizeApart | src/caching_device.rs:1064-1077 | A block that ends below both lengths holds the same device bytes before and after a resize |
| FileDevices.StepKeeps | src/file_device.rs:654-690 | Every step of every call keeps the declared size within the file, and the lock's exclusions |
| FileDevices.DeclaredIsHeld | src/file_device.rs:525-530 | At every moment of every run of reads, writes, grows, shrinks and failed truncations, the declared size is at most the file's length |
| FileDevices.ResizeDeclares | src/file_device.rs:654-690 | Once a resize has worked, or has at least measured what it left, the declared size is just the file's length, which is the one asked for if it worked |
| FileDevices.ReadsWhole | src/file_device.rs:479-522 | While a read holds the lock nothing changes under it: what it has is one state of the file, and it cannot fall short inside the declared size |
| FileDevices.WriteAlone | src/file_device.rs:558-590 | From its lock to its last byte a write is alone: the file is the file at the lock with what has been written so far, no longer and no shorter than that makes it, partial writes included |
| FileDevices.BoundHolds | src/file_device.rs:558-590 | Once a write has passed its bound the file reaches the write's end at every later moment that no shorter truncation precedes |
| FileDevices.ShortMeansCut | src/file_device.rs:558-590 | A file found shorter than the end of a checked write was truncated to less than it after the check |
| FileDevices.WriteExtends | src/file_device.rs:558-590 | A complete write lengthens the file if and only if the file was shorter than its end when the lock was taken, which takes a truncation to less than that end since the bound was checked; then the file ends where the write does, else its length stands |
| FileDevices.LateWriteExtends | src/file_device.rs:558-590 | That truncation happens: a run in which a write bounded before a shrink lands after it and leaves the file longer than declared |
| FileDevices.FileDevice.ReadAt | src/file_device.rs:479-522 | All the bytes asked for, however many reads it takes, exactly when no read fails and the file holds them; else an error naming how many there were, or that a read failed |
| FileDevices.FileDevice.WriteAt | src/file_device.rs:558-590 | A write within the declared size changes its range and nothing else; any other is refused whole, 64-bit overflow included |
| FileDevices.FileDevice.SetLen | src/file_device.rs:654-690 | The file and the declared size move together, zeros filling growth; after a failure the size is the one measured, or at most the smaller length |
| Slices.InsideBase | src/slice.rs:106-139 | A nest of slices of any depth is one window wholly inside the base, no larger than any of its parents |
| Slices.RebaseFits | src/slice.rs:168-179 | A request within a slice never overflows on its way to the parent, and lands within it |
| Slices.ReadIsWindow | src/slice.rs:181-191 | A nonempty read succeeds exactly within the size and returns the base's bytes at that place of the window; any other is refused with nothing delivered |
| Slices.EmptyRead | src/slice.rs:168-191 | When an empty read succeeds: always on a base, else within the size and with no slice starting past the end of another |
| Slices.EmptyReadRefused | src/slice.rs:168-191 | A slice of size zero whose empty read fails with its parent's error |
| Slices.EmptyWrite | src/slice.rs:334-346 | An empty write changes nothing and succeeds exactly on a writable nest whose slices all start within their parents |
| Slices.WriteIsWindow | src/slice.rs:334-346 | A nonempty write succeeds exactly within the size of a nest writable to its base; it changes those bytes of the base and no others |
| Slices.DisjointNeverMeet | src/slice.rs:334-346 | What is written through one slice never shows through another whose window it does not meet |
| Slices.WriteReadsBack | src/slice.rs:323-346 | What is written through a slice reads back through it |
| Slices.NestedIsOne | src/slice.rs:106-139 | A slice of a slice is one slice of the base, same place and size |
| Copying.Pump | src/cli/transfer.rs:322-380 | Whatever the source and sink do piecemeal, the sink has received exactly a prefix of the source, as long as any error says; success, exactly when nothing went wrong, means all of it and its digest; an error says what went wrong, and is a cancellation exactly when a signal came, which is looked for before every read, after every interruption and once more after the flush |
| Copying.PumpChunk | src/cli/transfer.rs:355-369 | One chunk is delivered in order, each byte once, over partial, interrupted and failed writes |
| Copying.Output.Write | src/cli/transfer_sparse.rs:50-64 | Written or sought over, the output stands for its old bytes and the part of the chunk taken; a sparse output seeks over just the chunks that are all zeros |
| Copying.SparseIsDense | src/cli/transfer_sparse.rs:50-64 | However the bytes split into chunks, a sparse copy with its length set and a dense copy hold the same bytes |
| StagingNames.StagingIsName | src/cli/transfer.rs:588-600 | Whatever the directory folds, it takes a staging name for the destination's own exactly when what the stem keeps of the name counts as nothing but full stops and the rest as one more followed by the suffix |
| StagingNames.ApartIs | src/cli/transfer.rs:588-600 | So the staging names keep clear of the destination's name exactly unless it has that form for one of the attempts |
| StagingNames.CollidesMeans | src/cli/transfer.rs:588-600 | Where only a full stop counts as one and no character as nothing, those are the names the directory takes for 101 full stops and the suffix |
| StagingNames.CollidesExactly | src/cli/transfer.rs:588-600 | Where names are told apart exactly, that is one name for each attempt |
| Exporting.TouchedEarly | src/cli/transfer.rs:588-615 | Of the changes an export makes before it publishes, some change moves the destination's name if and only if that name has the form above for the attempt used; it is then the first, which gives the name to an empty file |
| Exporting.DottedNameCollides | src/cli/transfer.rs:588-615 | Such names exist for every process and every directory: creating the first staging file creates the destination itself, empty |
| Exporting.CapitalNameCollides | src/cli/transfer.rs:588-615 | On a directory that folds case another does: it differs from every staging name, and the first one is created as it |
| Exporting.CreateStaging | src/cli/transfer.rs:588-615 | A new empty file under the first free staging name, in one change, which moves the destination's name exactly when that name has the form above; or an error and no change, only when a creation fails or all thousand names are taken |
| Exporting.VerifyStaging | src/cli/transfer.rs:536-576 | Passes exactly when what is read back to the end has the copied length and digest; from a file that reads faithfully, what is read back is all it holds |
| Exporting.StageContent | src/cli/transfer.rs:443-459 | Success, exactly when nothing went wrong, means the staging file holds the whole source durably, dense or sparse; an error says what went wrong |
| Exporting.Publish | src/cli/transfer.rs:618-638 | One step gives the destination's name to the complete file, never over a name somebody has unless replacing; an error says whether that step was taken, and comes only from a call that failed or met the name taken, or as a folder when replacing; a signal was looked for just before |
| Exporting.Export | src/cli/transfer.rs:404-483 | An export succeeds if and only if it has a directory to export into, no call fails, no signal comes, nothing it meets has the name but a file to replace, a staging name is free, and what is to be verified reads back, as from a disk that reads back what it holds; each error means that what it says was met. Success and the two after-publication errors mean the name went once, in one step, to a new durable file with all the source's bytes, before the directory was synced; any other error means it was never touched except as a staging name, which happens exactly for the form above |
| Exporting.AllOrNothing | src/cli/transfer.rs:404-483 | Where the staging name is another, the destination stands at every change the export makes where it stood or for the whole new file |
| Importing.OrderMeans | src/cli/transfer_import.rs:404-476 | In every accepted order of sink calls publication comes at most once, last, after one persist and two validations, and the abort exactly once, last, when nothing was published |
| Importing.StagedFirstVerifiedLast | src/cli/transfer_import.rs:404-476 | Staging comes first unless a signal does; nothing is read back before the second validation, and a verified file is read back to its length before it is published |
| Importing.WritesGoForward | src/cli/transfer_import.rs:404-442 | Writes to the staged file never overlap and never go back |
| Importing.WritesFit | src/cli/transfer_import.rs:407-440 | Before every write the sink was asked, with success, for room up to the write's end or more |
| Importing.LookedFirst | src/cli/transfer_import.rs:404-476 | Nothing is staged, written, validated, read back or published but after a look for a signal that found none, with at most the question for room in between |
| Importing.ValidatedAround | src/cli/transfer_import.rs:445-456 | What is read back or published was validated, then persisted, then validated again, both times for just its length |
| Importing.Put | src/cli/transfer_import.rs:433-440 | One chunk is written where it belongs, or left as a hole without any call exactly when it is all zeros and the import sparse, within the space asked for |
| Importing.Fill | src/cli/transfer_import.rs:410-442 | The staged file stands for exactly the bytes of a stream read to its clean end, within the known size; it fails only for a signal, a call that failed, an input that failed, or one that delivers more than 64 bits count, than its size or than was asked for at a time |
| Importing.VerifyStaged | src/cli/transfer_import.rs:490-529 | Passes only on a read-back of the sent length and digest, read in order from the start; a sink that reads back what it holds never disagrees about a file that holds what was sent |
| Importing.Settle | src/cli/transfer_import.rs:442-451 | Validated, sized, persisted and validated again, the staged file is the bytes read |
| Importing.Import | src/cli/transfer_import.rs:371-485 | Refusals make no calls; otherwise the calls are in order and end in publication of exactly the bytes read, or in one abort. It publishes if and only if no call fails, no signal comes, the stream ends cleanly within its size, and what is to be verified reads back, as from a sink that reads back what it holds; each error says what was met: that the source changed, only where a validation failed or the stream outgrew its bounds |
| Ledger.ParseLines | src/cli/transfer_manifest.rs:551-584 | Recovery accepts whatever appending can leave, cut at any byte, and returns the whole lines |
| Ledger.RecordableMeans | src/cli/transfer_manifest.rs:591-615 | An entry can be recorded exactly when its digest is 64 lowercase hexadecimal digits, all its times have less than a thousand million nanoseconds, and its encoded line, newline included, is at most 65536 bytes |
| Ledger.ParsedSplits | src/cli/transfer_manifest.rs:551-584 | What recovery accepts is whole acceptable lines, one per entry, and an unterminated rest |
| Ledger.SplitsParse | src/cli/transfer_manifest.rs:551-584 | Conversely every such file is accepted as just those entries |
| Ledger.LongLineRejected | src/cli/transfer_manifest.rs:591-615 | The first line length that appending refuses is the first that recovery refuses |
| Ledger.Manifest.ReadLine | src/cli/transfer_manifest.rs:559-563 | A bounded read up to a newline |
| Ledger.Manifest.Scan | src/cli/transfer_manifest.rs:551-579 | The reading loop returns what the file's form alone decides, or fails |
| Ledger.Manifest.Open | src/cli/transfer_manifest.rs:511-584 | The file always parses; a handle comes back exactly when no call on the way fails, and then with the whole lines of the file and the rest cut off |
| Ledger.Manifest.Append | src/cli/transfer_manifest.rs:591-615 | True means the line is written and synced; an unverified or refused entry changes nothing; a failure leaves part of the line and poisons the handle |
| Ledger.AppendMeans | src/cli/transfer_manifest.rs:591-615 | Acknowledged exactly when verified, recordable, on a sound handle and with no call failing; then the file ends durably with the line; a failed call poisons the handle and leaves at least what was there; any other answer changes nothing |
| Ledger.StepKeeps | src/cli/transfer_manifest.rs:511-615 | Every open, append, close and crash, with any call failing, leaves a file recovery accepts, whose entries are the handles' acknowledged ones plus at most one each |
| Ledger.SessionsRecord | src/cli/transfer_manifest.rs:591-615 | The bookkeeping of the proof is the answers given: same entries acknowledged, one session per handle |
| Ledger.NothingAcknowledgedIsLost | src/cli/transfer_manifest.rs:551-615 | After any history and a crash back to any byte since the last sync, recovery returns every acknowledged entry in order and at most one more per handle |
| Ledger.OpensWhen | src/cli/transfer_manifest.rs:511-584 | After any history the file can be opened: it is refused only for a call that fails on the way, to read a line there is, to cut off a torn one durably, or to seek to the end |
| Ledger.OpenLeavesWholeLines | src/cli/transfer_manifest.rs:580-584 | After a successful open the file is the lines of the entries returned and nothing else, durably so where a torn line was cut off |
| Ledger.CheckResume | src/cli/transfer_manifest.rs:302-361 | A file is skipped exactly when the latest evidence for its destination is valid, records the source and the destination just as they are now but for access times, agrees with the size of each that is a local file, and the source reads to its end with the recorded length and digest; and exactly when checking is an error |
| Ledger.IdentityIs | src/cli/transfer_manifest.rs:363-414 | Two identities count as the same exactly when they are equal once access times are erased, and as in the same place exactly when their paths, and for images the image's path and the offset, are equal |
| Ledger.LatestOfPlace | src/cli/transfer_manifest.rs:302-316 | The evidence found is the same whichever identity of the place asks |
| Ledger.LatestIs | src/cli/transfer_manifest.rs:302-316 | It is the last entry for the place; there is none exactly when no entry is for it |
| TreeReport.TallyMeans | src/cli/transfer_tree.rs:878-895 | The counts sum to the items, and each is zero exactly when no item has its status |
| TreeReport.ExitMeans | src/cli/transfer_tree.rs:972-981 | The exit code is 0 exactly when every item is there, partial exactly when some are and some are not, failed exactly when there are items and none is |
| TreeReport.SetTimes | src/cli/transfer_tree.rs:901-924 | The deferred pass tries just the completed directories put off, the last visited first, fails those whose times cannot be set, and the counts stay those of the items |
| TreeWalk.PopWalks | src/cli/transfer_tree.rs:631-839 | Popping an entry and pushing what it leads to, last first, continues the recursive walk of the stack |
| TreeWalk.PopShrinks | src/cli/transfer_tree.rs:631-839 | Every turn of the loop makes progress, so the walk ends |
| TreeWalk.StepAccounted | src/cli/transfer_tree.rs:800-895 | Every queued entry is visited or waits, once, under a path of its own, and the items report the visited ones in order |
| TreeWalk.AncestorsFirst | src/cli/transfer_tree.rs:631-839 | Of two entries visited of which one lies above the other, the one above is visited first |
| TreeWalk.StepDepthFirst | src/cli/transfer_tree.rs:631-839 | Every turn keeps what is visited and what waits depth first: whatever comes between an entry and one below it lies below it too |
| TreeWalk.BackwardsIsBelowFirst | src/cli/transfer_tree.rs:901-924 | So going back through the items sets times on everything below a directory before the directory, whose own time the work below would spoil |
| TreeExport.WalkDescends | src/cli/transfer_tree.rs:778-782 | On a source whose directories form cycles the walk still ends |
| TreeExport.EveryChildComes | src/cli/transfer_tree.rs:798-839 | Of every directory whose listing is gone through, each child that is the first safe spelling of its name and can be reserved is visited or left by a signal, under its name, one level down, unless the reservations cannot be removed; any other is in the report, failed where its reservation failed and else refused |
| TreeExport.SiblingsInOrder | src/cli/transfer_tree.rs:836-839 | Children of one directory come in listing order |
| TreeExport.NothingElseComes | src/cli/transfer_tree.rs:631-839 | Whatever is visited or left is the root or a child that a visited directory led to |
| TreeExport.GoesDepthFirst | src/cli/transfer_tree.rs:631-839 | What lies below an entry comes right after it, with nothing else in between |
| TreeExport.CompletesWhen | src/cli/transfer_tree.rs:640-877 | An entry completes exactly when nothing stops it or goes wrong and, for a file or link, its name is free, or a file's when replacing, both at first and when it is to be given |
| TreeExport.WalkMeans | src/cli/transfer_tree.rs:621-924 | Of every entry of every walk, by kind: it completed, was skipped, refused or cancelled, and was copied, linked to which path, entered or left unsynced, if and only if what the world answered to it and to the entries before it says so. Queued were the root and just the children each directory led to; reported were just the entries and the children refused, in order; merged were just the directories found there; and times wait for just the directories that completed |
| TreeExport.EnteredOnce | src/cli/transfer_tree.rs:778-782 | No walk enters a directory inode twice, whatever cycles the source has |
| TreeExport.CopiedOnce | src/cli/transfer_tree.rs:663-700 | With links kept, a further name of a file already copied is never copied again, and if it completes it is a hard link |
| TreeExport.LinkedToACopy | src/cli/transfer_tree.rs:663-700 | Every hard link made points to the very path where a copy of the same file went earlier in the same walk |
| TreeExport.NothingLost | src/cli/transfer_tree.rs:258-290 | In every walk, whatever is given a name at the destination, durably or not, takes the place of nothing, or of something that is no directory when replacing, as things stand at the moment it gets the name |
| TreeExport.StopsAtASignal | src/cli/transfer_tree.rs:856-898 | A walk stops exactly when a signal cancels an entry, which is then the last it visits |
| TreeExport.SiftMeans | src/cli/transfer_tree.rs:800-839 | Every child is queued or refused; those queued have safe names that the destination tells apart |
| SafeNames.SafeNameLeadsThere | src/cli/transfer_tree.rs:342-357 | A name is safe exactly when, followed from whatever directory, it leads to the entry of that name right there: not back up, not further down, not to another |
| TreeExport.FirstSpellingWins | src/cli/transfer_tree.rs:384-407 | A child is queued exactly when its name is safe, reserving it works, and no earlier safe name that left a marker folds to the same; any other is reported, as failed where its reservation fails and else as refused |
| TreeExport.Traversal.SiftChildren | src/cli/transfer_tree.rs:798-835 | The listing loop reports each refused child at once and keeps the counts |
| TreeExport.Traversal.Step | src/cli/transfer_tree.rs:631-897 | One turn of the loop is one visit of the walk, with its counts |
| TreeExport.Export | src/cli/transfer_tree.rs:621-963 | The loop visits what the recursive walk visits, in its order, stops where a signal stops it, reports every entry as what it came to or leaves it pending, counts the directories merged, sets times on just the directories that completed, what lies below a directory before the directory, and exits 0 exactly when uncancelled and every item is there |
| TreeExport.TargetEscapes | src/cli/transfer_tree.rs:313-325 | A link target escapes exactly when it is absolute somewhere or some part of it climbs above the destination |
| TreeImport.WalkDescends | src/cli/transfer_import_tree.rs:224-335 | On a finite host tree the walk ends |
| TreeImport.WalkAccounts | src/cli/transfer_import_tree.rs:224-379 | Of a tree whose directories hold each name once, every name queued is visited or left, once, under a path of its own, and what lies below a name comes right after it, with nothing else in between |
| TreeImport.WalkMeans | src/cli/transfer_import_tree.rs:215-404 | Of every name of every walk, by kind: it completed, was skipped, refused or cancelled, and was copied, found, linked to which path or entered, if and only if what the world answered to it and to the names before it says so. Queued were the root and just the names each directory held; each visited was reported once, in order; merged were just the directories that were there; and times wait for just the directories entered |
| TreeImport.CopiedOnce | src/cli/transfer_import_tree.rs:227-300 | With links kept, a further name of a file already in place is neither copied nor skipped, and if it completes it is a hard link |
| TreeImport.LinkedToACopy | src/cli/transfer_import_tree.rs:227-300 | Every hard link made points to the very path where the same file was copied, or found in place, earlier in the same walk |
| TreeImport.StopsAtASignal | src/cli/transfer_import_tree.rs:337-378 | A walk stops exactly when a signal cancels a name, which is then the last it visits |
| TreeImport.FirstKeyWins | src/cli/transfer_import_tree.rs:314-335 | Each name is queued in its place, one level down; it goes ahead exactly when the sink has a key for it that no earlier name of the directory took, and else carries the sink's refusal, or that it is not supported |
| TreeImport.EveryNameComes | src/cli/transfer_import_tree.rs:308-335 | Of every directory entered and listed, each name is visited or left by a signal, with that check |
| TreeImport.SiblingsInOrder | src/cli/transfer_import_tree.rs:308-335 | The names of one directory come in listing order |
| TreeImport.NothingElseComes | src/cli/transfer_import_tree.rs:224-335 | Whatever is visited or left is the root or a name that a visited directory held |
| TreeImport.Traversal.Children | src/cli/transfer_import_tree.rs:308-334 | The children queued, each with its check, in listing order |
| TreeImport.Traversal.Step | src/cli/transfer_import_tree.rs:224-379 | One turn of the loop is one visit of the walk, with its counts |
| TreeImport.Import | src/cli/transfer_import_tree.rs:215-454 | The loop visits what the recursive walk visits, in its order, stops where a signal stops it, reports every name as what it came to or leaves it pending, counts the directories merged, sets times on just the directories entered whose items are complete, what lies below a directory before the directory, and exits 0 exactly when uncancelled and every item is there |
| JsonPrint.RoundTrip | src/cli/output.rs:64-134 | What is printed in either style reads back, by RFC 8259, as the value printed, up to which integer variant held it |
| JsonPrint.PrintedApart | src/cli/output.rs:64-134 | Two values print alike, in whatever styles, only if they stand for the same value |
| JsonLayout.CompactOneLine | src/cli/output.rs:94-134 | The compact text is on one line and holds no control character, whatever is in the strings |
| JsonLayout.PrettyIsLines | src/cli/output.rs:58-91 | The indented text is the value's lines one under the other: two spaces a level, one element a line, a comma after each but the last, and no trailing newline |
| JsonLayout.LinesAreWhole | src/cli/output.rs:58-91 | None of those lines is broken, or holds a control character, because of what is in a string |
| JsonPrint.CharsRead | src/cli/output.rs:191-207 | An escaped string reads back, up to its closing quote |
| JsonPrint.CharRead | src/cli/output.rs:191-207 | Every character's escape reads back as that character and nothing after it |
| JsonPrint.NumberRead | src/cli/output.rs:104-109 | Every integer's digits read back as that integer, by the grammar of section 6 |
| JsonPrint.Out.WriteString | src/cli/output.rs:191-207 | Appends the quoted, escaped string |
| JsonPrint.Out.WriteCompact | src/cli/output.rs:100-134 | Appends the value's one-line text |
| JsonPrint.Out.WritePretty | src/cli/output.rs:64-91 | Appends the value's indented text |
| JsonPrint.ToCompact | src/cli/output.rs:94-98 | The one-line text, which reads back as the value |
| JsonPrint.ToPretty | src/cli/output.rs:58-62 | The indented text, which reads back as the value |
| Closure.Collector.Collect | src/cli/transfer_mount_linux.rs:293-312 | On links that may form cycles it ends with everything reachable added, nothing more; it fails only where no readable closed set holds the device |
| Closure.LeastClosure | src/cli/transfer_mount_linux.rs:293-312 | Started from a closed set, the result is the least closed set that holds it and the device |
| Closure.LeastIsUnique | src/cli/transfer_mount_linux.rs:293-312 | So the order of listings does not matter |
| Closure.CollectFrom | src/cli/transfer_mount_linux.rs:34-58 | Over several devices in turn: the least closed set with all of them, or a failure exactly when there is none |
| Closure.Pass | src/cli/transfer_mount_macos.rs:137-158 | One pass adds only what it must, and adds nothing only to a closed set |
| Closure.Synthesized | src/cli/transfer_mount_macos.rs:137-160 | The least set of disks that holds the known ones and every disk with a physical store on a slice of one in it |
| Closure.ListingOrder | src/cli/transfer_mount_macos.rs:137-160 | Listings that say the same in another order give the same set |

## Left out

- `src/ffi.rs`, `src/callback_device.rs`, forwarding wrappers and streams: no behaviour of their own to prove.
- Lock poisoning and panics; a fetch that unwinds is modelled as one that fails.
- The generation counter's wrap-around at 2^64, as assumed above.
- CachingDevices.CachingDevice.ReadAt: with a device whose size or readable positions change during the call; the protocol model covers lookups under concurrent resizes, not the stitching of several.
- CacheProtocol.AnswerIsCurrent: is about one block; a read of several blocks may mix moments.
- Capacity and the slab of `Lru` in the protocol model, which holds the plain sequence the slab is proved to refine.
- Exporting.StageContent: records the staging file's contents after the copy and after its length is set; the partial contents while it fills, visible only under the staging name, are not separate steps.
- Exporting.Export: takes a directory to fold names character by character, so not one that reorders combining marks or drops trailing full stops; takes the destination's directory as fixed and leaves out refusing a destination that is the image itself; the alias check asks the host.
- Exporting.Export: does not model the name of an object the host reuses after its last name is gone.
- Ledger.Manifest.Open: does not model creating a missing file and syncing its directory entry, the file lock, or the checks that the ledger is not the image or a transferred file.
- Ledger.NothingAcknowledgedIsLost: a crash keeps some prefix, cut at any byte, of the changes since the last sync; writes reaching the disk out of order are not modelled.
- Importing.Import: identities of local sources, the validation's outcome being arbitrary; capturing the published file's identity for the ledger is one arbitrary outcome.
- TreeExport.Export: takes a directory's listing to depend on its inode; counting totals beforehand, progress, and the abort of the whole transfer when a ledger append fails are left out.
- TreeImport.Import: takes each directory's entries in name order, each name once, as the host lists and the code sorts them; the abort of the whole transfer when a ledger append fails is left out.
- SafeNames.SafeNameLeadsThere: the further names refused on Windows alone, those with a colon or ending in a full stop or a space.
- What files hold after a tree transfer: one file's copy is the subject of `Copying`, `Exporting` and `Importing`; in the trees its outcome is an answer of the world.
- Parsing of `diskutil`, `hdiutil`, mount tables and sysfs text; the closure algorithms start from what the text says.
- Text output for people, command lines, help, locks on images, progress, extended attributes and signal handlers.
- SHA-256 and serde: an arbitrary digest function, and any encoding that decodes.
