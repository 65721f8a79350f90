# A verified model of dlmalloc, with tal, an echo server and a proximity driver's handles

The main part models the allocator in `malloc.c` (dlmalloc 2.8.6) in one configuration: `size_t` of 64 bits, 16-byte
alignment, no footers, no locks, RTCHECKs on, the portable bit tricks, and the `dl` entry points. All memory, the
allocator's own state included, is one memory of words. Heads, prev_foot words, links and bin headers are words of that
memory; the chunks, the tries and the queues are ghost state that the invariant ties to the words. Every RTCHECK is
modelled, and its failing branch (`CORRUPTION_ERROR_ACTION`, `USAGE_ERROR_ACTION`) is proved unreachable.

The layers, from below:

- arithmetic: `Words`, `BinMap`, `TreeIndex`, `Requests`;
- the trees: `Trie` and `BestFit` (tries of sizes), `ChunkMemory`, `Lists`, `TreeLinks`, `TreeState` and `TreeBins`
  (their words, and the macros and searches that change and read them); `SmallBins`; `AllBins` (both together);
- the heap: `Chunks` (boundary tags and regions), `HeapState`, `Recuts`, `HeapBins`, `TagWrites`, `HeapInvariant` (the
  invariant, and what recutting a run of chunks does to it), `Carving`, `Freeing`, `Resizing`, `HeapFacts`;
  `HeapModel` says what each operation does without words, `Tiling` is the interval model, and class `Heap` holds the
  operations; `ReuseOrder` speaks of histories of the bins, and the invariant of class `Heap` says that its bins are what
  the history of all binning and unbinning so far makes of empty ones;
- the space: `System` (sbrk, mmap, munmap and mremap with undetermined outcomes, and a ghost record of all calls with
  their answers), `Refusals` (the calls that must be on record before a request is refused), `Segments`, `Regions`,
  `Payloads`, `SpaceSteps`, `Spaces`, `Installing`, `Prepending`, `MappedChunks`, `Releasing`, `Alignments`,
  `BulkFreeing`, `Ownership`; class `Allocator` holds the operations and entry points;
- about the whole: `Runs` (any program, any system, any number of calls), and `Finding` and `Checking` (the
  allocator's own debugging checks, and that they succeed in every state the invariant allows).

The smaller parts: `TalTrailer`, `TalOutput` and `TalTabs` model `tal-1.9/tal.c`; `EchoConn` and `EchoServer` model
`eports.c` with any number of threads; `ListRing`, `HandleModel`, `HandleSteps`, `HandleRuns` and `FileContext` model
`CFileContext` and the lists of the Near-Field Proximity sample driver.

`Heap.Valid` and `Allocator.Valid` are the invariants. `Owner()` are the chunks of the program with the bytes each of
them holds. `Kept(m, u, m', u', X)` says that all chunks of `u` but those of `X` are there afterwards, with the same
size and the same contents. `Refuses` says which calls of the system, with which answers, come before a null of
sys_alloc, and `RefusesRequest`, `RefusesResize` and `RefusesMemalign` say the same for malloc, realloc and memalign.
`Tame` says the same of one heap, and that no word outside its regions changes.

## Model

| member | source | states |
|---|---|---|
| Runs.Run | malloc.c:840-923 | For every well-behaved program, every behaviour of the system that keeps the break at multiples of 8, and any number of calls of malloc, free, realloc, realloc_in_place, memalign, bulk_free and stores: the invariant holds at the end, the program has exactly the chunks that its calls gave it and did not free, every value it stored reads back (also after moves by realloc, as far as the sizes asked for go), no two payloads overlap, and footprint is the sum of the segments and of the mappings not yet unmapped, and at most max_footprint; a call is refused only if no free chunk had room for it and the calls of the system made in it, all of them on record, are all that sys_alloc may try and all in vain |
| Runs.HoldsChanged | malloc.c:872-893 | After realloc what the program stored is found at the same offsets of the new chunk, up to the smaller of the old and the requested size, and everything else where it was |
| Runs.Separate | malloc.c:2153-2156 | In every valid state two payloads share no byte, and the footprint is conserved |
| Checking.CheckMallocState | malloc.c:3450-3476 | In every valid state all debugging checks succeed, and the total of the traversal is at most footprint, which is at most max_footprint |
| Checking.TraverseAndCheck | malloc.c:3418-3447 | All checks of the traversal succeed in every valid state, and it returns the sizes of top, of TOP_FOOT_SIZE and of all chunks up to top or the first fencepost of each segment |
| Checking.InusePasses | malloc.c:3248-3257 | Every chunk of the heap in use passes what do_check_inuse_chunk tests of its words and of the chunks before and behind it; for mapped chunks do_check_mmapped_chunk is left out |
| Checking.FreePasses | malloc.c:3259-3279 | Every free chunk other than top passes what do_check_free_chunk tests, the links of its list included |
| Checking.CheckTree | malloc.c:3296-3344 | All checks of a tree and its subtrees succeed: indices, sizes, links of rings, parents and children, left sizes below right sizes |
| Checking.CheckSmallbin | malloc.c:3358-3379 | All checks of a smallbin succeed |
| Finding.BinFind | malloc.c:3382-3415 | bin_find returns true exactly for the chunks that are in a bin |
| Allocator.Allocator.Malloc | malloc.c:4539-4675 | null with nothing changed for the program, and only if no free chunk has room (`NoneFits`) and sys_alloc asked in vain (`Refuses`); or a new chunk of at least the bytes asked for, less than 32 bytes more than needed unless mapped, with all other chunks kept; the system is asked only if no free chunk has room; the heap is in order afterwards if, and only if, the size of top is a multiple of 8; the footprint limit is obeyed |
| Allocator.Allocator.SysAlloc | malloc.c:4032-4238 | It serves the request from whatever memory it got; null only if the recorded calls are exactly these, failed: MMAP for the request if it may be mapped; then, unless the padded size wraps around or is above the limit, MORECORE for what top lacks (again for the rest if the break had moved) while contiguous, MMAP of the rounded size, and MORECORE of it where its sign allows; the footprint stays then. The request has its own mapping, or the calls begin with a vain try of one. The heap stays in order exactly if top gets a multiple of 8 bytes, which a break kept at multiples of 8 ensures |
| HeapFacts.NothingFits | malloc.c:4570-4663 | If dv, top and the bins from the size on have nothing, no free chunk at all has room (top may just have the size, since it must not be used up) |
| Allocator.Allocator.Install | malloc.c:4166-4234 | Memory that was obtained always satisfies the request, never null, and keeps the heap in order if the size of top is a multiple of 8 then, which is so if, and only if, the memory ends at a multiple of 8 or right before a segment of its kind; otherwise the invariant fails, and `Misread` says how the code reads the head of top: CINUSE set for sizes of 2 or 3 modulo 4, the size of do_check_top_chunk wrong unless it is a multiple of 4, and the segment ends where a fencepost will cross its end |
| Allocator.Allocator.Contiguous | malloc.c:4078-4137 | What MORECORE gives, in one or two calls and with other users of the break in between, is new memory, enough for the request, and within the footprint limit; or the allocator turns noncontiguous |
| Allocator.Allocator.AddSegment | malloc.c:3977-4027 | The old top becomes a free chunk of its size rounded down to a multiple of 16, in its bin, or, below MIN_CHUNK_SIZE, the record itself; behind the record of 48 bytes every word up to the end of the segment is a fencepost; the new segment comes first and is all top; all chunks are kept |
| Allocator.Allocator.PrependAlloc | malloc.c:3935-3974 | New memory in front of a segment gives the chunk asked for at its start; the rest becomes part of top if that was the first chunk of the segment, else of dv, else it is binned, with the size of a free first chunk added to its own |
| Allocator.Allocator.MmapAlloc | malloc.c:3821-3850 | A request is served by its own mapping, within the footprint limit, or nothing changes |
| Allocator.Allocator.MmapResize | malloc.c:3853-3885 | Small requests are refused without a call, a chunk that is large enough but not too large stays without one, and otherwise one MREMAP decides; where there is room behind the offset, the result holds the contents and the size asked for; where there is none, the process has the new mapping, but the payload reaches its fencepost or leaves it, and no mapping with a chunk of that size fits the tags written |
| Allocator.Allocator.SysTrim | malloc.c:4290-4352 | Trimming keeps all chunks in use and the invariant, and reports whether the footprint fell. The most units that leave top more than the pad are offered: by MREMAP, then MUNMAP, if the segment is mapped; by MORECORE if the break is its end; and then every unused segment. What is gone is what the system took |
| Releasing.ExtraUnits | malloc.c:4296-4300 | What sys_trim offers of top is the most whole units that leave it more than the pad |
| Allocator.Allocator.ReleaseUnusedSegments | malloc.c:4243-4287 | Every mmapped segment behind the first that has one free chunk up to its record is offered to the system, and goes if, and only if, the system takes it; no other goes, and exactly the bytes reported leave the footprint; all chunks in use are kept |
| Allocator.Allocator.Free | malloc.c:4677-4784 | Just the chunk freed leaves the program's chunks, all others are kept, and the footprint does not grow; a mapped chunk is offered to the system whole, top beyond the trim threshold is trimmed, unused segments are offered when the counter of large chunks runs out, and no other call of the system is made |
| Allocator.Allocator.Realloc | malloc.c:5180-5223 | null with everything as before, and for a chunk only if it cannot be resized where it is (`CanGrow` fails, or MREMAP did, or the size is too small for a mapped chunk) and a malloc of the bytes was refused as above, or if the request is too large; or a chunk with the contents of the old one up to the smaller size, in its place or elsewhere; the only other outcome is the misplaced chunk of mmap_resize, without room behind its offset |
| HeapFacts.ResizesWhen | malloc.c:4806-4883 | A chunk can be resized in place if, and only if, it is large enough, or the chunk behind is free and makes up for the rest, top with something to spare |
| Allocator.Allocator.ReallocInPlace | malloc.c:5225-5254 | The same without moving: a chunk of the heap is resized exactly when `CanGrow` holds, and then as `Resizes` says; a mapped chunk never to a small size, always if it may stay as it is, and else as the one MREMAP decides |
| Allocator.Allocator.Memalign | malloc.c:5256-5261 | The result is aligned to the alignment rounded up to a power of two, large enough, at most 32 bytes larger than needed unless mapped, and all other chunks are kept; null only if the request is too large for the alignment, or a malloc of the padded request was refused |
| Allocator.Allocator.AlignMapped | malloc.c:4907-4928 | In a mapped chunk the aligned chunk keeps the end of the mapping, which stays accounted for |
| Allocator.Allocator.BulkFreeEntries | malloc.c:5092-5126 | Every chunk listed leaves the program's chunks, whatever neighbours were joined first; regions and the other chunks in use are as before |
| Allocator.Allocator.BulkFree | malloc.c:5092-5132 | The same with trimming behind it: top is within the threshold afterwards or the footprint fell; the array holds only null pointers |
| Allocator.Allocator.Dispose | malloc.c:4358-4424 | The chunk becomes free space as the interval model says, or its mapping goes; all other chunks are kept |
| BulkFreeing.OneByOne | malloc.c:5084-5126 | Whatever order the entries are freed in one by one, the heap ends with the same chunks as after bulk free |
| Installing.PostsKeepWithin | malloc.c:4005-4015 | The fenceposts of add_segment keep within the old segment if, and only if, its end is a multiple of 8; there are at least two |
| Installing.FreedBeforeTop | malloc.c:4728-4769 | Before a top of 2 or 3 modulo 4 bytes, a freed chunk takes the branch for a next chunk in use, which clears the PINUSE bit that do_check_top_chunk asks for |
| MappedChunks.Misplaces | malloc.c:3863-3881 | Where mmap_resize remaps and the offset leaves no room: the fencepost and the head it writes, wrapped below zero if need be, and that the payload asked for reaches the fencepost or leaves the mapping, and no other memory changes |
| MappedChunks.NoRoom | malloc.c:3853-3885 | memalign of 1 MB at 1 MB, served by a mapping, and then realloc to 400000 bytes: the chunk begins behind the end of its new mapping |
| MappedChunks.SmallOffset | malloc.c:3821-3850 | Chunks with the offsets of mmap_alloc always have room |
| Alignments.DoublingEnds | malloc.c:4889-4893 | The loop that rounds an alignment up ends if, and only if, the alignment is at most 2^63 |
| Alignments.RoundAlignment | malloc.c:4887-4893 | It ends with the least power of two, from 32 on, that is not below the alignment |
| Ownership.PayloadsApart | malloc.c:2153-2156 | A byte belongs to the payload of at most one chunk, in the heap or mapped, the last word of a payload included |
| ReuseOrder.InOrder | malloc.c:2353-2356 | In every history of binning and unbinning, chunks taken from the middle included, each list holds exactly the chunks that wait, in the order in which they were binned |
| ReuseOrder.RecordPut | malloc.c:3643-3692 | In every state of the heap, binning a chunk that may be binned is a step that a history may take, and the lists are what the longer history says |
| ReuseOrder.RecordTake | malloc.c:3711-3780 | The same for taking a binned chunk |
| ReuseOrder.LargeInTurn | malloc.c:4429-4497 | Whatever was binned and unbinned before, a large request that a bin serves gets the chunk of the least sufficient size that waited longest |
| ReuseOrder.SmallInTurn | malloc.c:4570-4621 | A small request that a bin serves gets the youngest chunk of the least sufficient small size, or the oldest of the least size in the trees |
| ReuseOrder.TreeServesOldest | malloc.c:3714-3719 | Of a large size, the chunk used next is the one that has waited longest, and no sufficient smaller size waits |
| ReuseOrder.SmallbinServesYoungest | malloc.c:4576-4613 | Of a small size, the chunk used next is the one binned last, and no sufficient smaller small size waits |
| Heap.Heap.TmallocLarge | malloc.c:4429-4497 | It takes the oldest chunk of the least sufficient size in all trees, if dv does not fit at least as well; it returns 0 only if no tree chunk fits or dv fits as well |
| Heap.Heap.TmallocSmall | malloc.c:4500-4535 | It takes the oldest chunk of the least size in all trees, and the rest becomes dv |
| Heap.Heap.SmallRequest | malloc.c:4570-4621 | The bitmap search serves a small request as `ServesSmall` says: same or next bin, else the least non-empty larger bin, else the least tree chunk, unless dv fits |
| Heap.Heap.Malloc | malloc.c:4539-4663 | Which chunk serves a request, and what becomes of the rest, dv, top and the bins; null only if neither dv nor top nor, for what is asked, a bin has room; a binned chunk is used in its turn, by the history of the heap |
| Heap.Heap.ReplaceDv | malloc.c:3629-3638 | The old dv, always small here, goes into its bin, and the new chunk is dv |
| Heap.Heap.DisposeChunk | malloc.c:4358-4424 | Freeing, in all cases for the chunk before and behind, is the one step `Freed` of the model; both checks on the next chunk succeed |
| Heap.Heap.TryRealloc | malloc.c:4806-4883 | Resizing in place shrinks, or grows into top, dv or a free chunk, exactly when `Resizes` says; contents are preserved, and the new size is less than 32 bytes above the one asked for |
| Heap.Heap.AlignWithin | malloc.c:4907-4947 | Carving always succeeds: aligned, large enough, any leader at least MIN_CHUNK_SIZE, the end given back so that at most MIN_CHUNK_SIZE bytes are too many |
| Heap.Heap.JoinNext | malloc.c:5111-5117 | Two neighbours in use become one chunk in use |
| HeapModel.FreedUse | malloc.c:4677-4784 | Whichever way freeing goes, exactly the freed chunk leaves the chunks in use and the regions stay |
| Tiling.UsedDetermineAll | malloc.c:2145-2151 | The chunks in use and the regions determine all chunks, free ones and top included: between chunks in use lies one free chunk or nothing |
| TreeBins.TreeBins.Insert | malloc.c:3643-3692 | The trie invariant is kept, the chunk is the youngest of its size, all other sizes keep their queues, and only link words of binned chunks and the treebin words change |
| TreeBins.TreeBins.Unlink | malloc.c:3711-3780 | The trie invariant is kept, also when a leaf takes the place of an inner node; just the chunk leaves the queue of its size |
| TreeBins.TreeBins.FindBestFit | malloc.c:4429-4476 | Descent, untaken right subtree, next treebin and leftmost walk together find the least sufficient size in all trees, or that there is none |
| TreeState.PathStep | malloc.c:3657-3673 | The sign bit of the shifted size is the turn of the trie, each step goes one level down of at most one per size bit, and a null child means that the size is absent |
| Trie.SubstituteOk | malloc.c:3728-3775 | Putting a leaf from below in the place of a node keeps the trie invariant |
| SmallBins.SmallBins.Insert | malloc.c:3565-3581 | The chunk goes to the front of its bin, whose stale header words are not relied on while the map bit is clear |
| SmallBins.SmallBins.Unlink | malloc.c:3584-3607 | Just the chunk leaves, the order of the others stays, and the map bit is cleared with the last |
| SmallBins.SmallBins.UnlinkFirst | malloc.c:3610-3625 | The front chunk leaves |
| TreeIndex.TreeIndexBrackets | malloc.c:2875-2907 | Every large size lies between the least size of its bin and that of the next bin, the last bin being open |
| TreeIndex.TreeIndexMonotone | malloc.c:2875-2892 | The portable index computation is monotone over all large sizes of 64 bits |
| TreeIndex.LeftShiftFindsFirstOpenBit | malloc.c:2899-2902 | The shift puts the first bit that a bin leaves open into the sign position: the bits above are the same for the bin, both values of it occur |
| BinMap.LeftBitsSelects | malloc.c:2928 | left_bits of a bin's bit selects exactly the marked bins to its left |
| BinMap.LeftSmallBitsSelects | malloc.c:4595-4597 | The search above a small index sees exactly the marked bins above it |
| BinMap.Bit2IdxInverts | malloc.c:2963-2974 | compute_bit2idx inverts idx2bit |
| TalTrailer.FindAGoodTrailer | tal-1.9/tal.c:868-1081 | The trailer is the most frequent suffix of its length; with no preferred length the early stop loses nothing: no suffix of any length is more frequent, before shortening it is a longest one of that frequency if two lines share it, and it does not begin with a blank unless it is one character; a preferred length is met if forced and possible, and else shortened only to the longest of the most frequent suffixes |
| TalTrailer.Texist | tal-1.9/tal.c:815-846 | The candidate with the wanted text, if there is one |
| TalTrailer.SameMeans | tal-1.9/tal.c:815-846 | Texts are the same if their characters are, pairwise, or differ only as a capital and its small letter with -i |
| TalOutput.Tal | tal-1.9/tal.c:1086-1267 | A line is aligned if, and only if, it is considered, ends with the trailer, and its text without trailer and trailing blanks, with trailer and padding, is at most what -m allows (`Aligns`). Such lines come out as their own text without trailing blanks, fill characters and the trailer, of the length that -k asks for or of the longest remaining text with trailer and padding, longer only if the text does not fit -k; all other lines come out as they were |
| TalTabs.ExpandTabsInto | tal-1.9/tal.c:556-599 | The text is the line with every tab filled up to its tab stop |
| TalTabs.ToTabStop | tal-1.9/tal.c:556-599 | A tab reaches to the next multiple of the tab width |
| TalTabs.CutAlike | tal-1.9/tal.c:1139-1188 | What is left of the line as read looks like what is left of its expanded text if, and only if, there are only blanks in the text between the two cuts |
| TalTabs.LooksAligned | tal-1.9/tal.c:1244-1264 | A line whose cut is right comes out, tabs expanded, as its text, the fill and the trailer in the common column |
| TalTabs.TextLost | tal-1.9/tal.c:1173-1188 | A line `foo }`, tab, `x` with the trailer `}   x` loses a letter of its text |
| TalOutput.OutputAlignedLines | tal-1.9/tal.c:1201-1267 | Cutting one fill buffer and restoring it for every line gives every line its own fill |
| TalOutput.SharedIsFound | tal-1.9/tal.c:914-1058 | A trailer shared by two lines is found if, and only if, two active lines share their last character |
| EchoConn.Connection.Echo | eports.c:86-168 | What is read is exactly what the socket delivered, in its order, if nothing was pending; the output grows by the first bytes pending, as many as the socket took, or by none; what remains pending moves to the front of the buffer, and nothing is lost, repeated or reordered |
| EchoServer.StepHolds | eports.c:46-220 | Every step of every thread keeps the invariant of the server |
| EchoServer.Safety | eports.c:46-220 | In every run of any number of threads, with the bytes that read delivered on a connection since its accept collected from the run alone: the output is a prefix of them as long as what write took, the rest is pending, cn_total counts the output, a connection is held by one thread or registered once, for output just if something is pending |
| EchoServer.PrintIsSafe | eports.c:171-220 | The last statement of listen_func never reads a freed connection if, and only if, there is at most one thread |
| HandleRuns.EveryRun | Near-Field Proximity Sample Driver (UMDF Version 1)/C++/driver/FileContext.cpp:157-713 | In every run each request is completed at most once; delivered messages are received ones, in order and none twice; transmissions and events are completions plus the ready count |
| HandleRuns.SmallBuffer | Near-Field Proximity Sample Driver (UMDF Version 1)/C++/driver/FileContext.cpp:157-217 | A request with too small a buffer leaves the queue as it is and is completed with an error |
| HandleRuns.SizedAfter | Near-Field Proximity Sample Driver (UMDF Version 1)/C++/driver/FileContext.cpp:56-92 | A step keeps m_dwQueueSize equal to the queue's length if, and only if, it is not one of those that upset it |
| HandleRuns.PlaceLost | Near-Field Proximity Sample Driver (UMDF Version 1)/C++/driver/FileContext.cpp:56-92 | Publish, disable, enable: an empty queue counts as one message |
| HandleSteps.ReceiveDoes | Near-Field Proximity Sample Driver (UMDF Version 1)/C++/driver/FileContext.cpp:566-652 | A received message completes the pended request if it fits and was not withdrawn, else it joins the queue unless that is full or memory is short |
| HandleSteps.NextDoes | Near-Field Proximity Sample Driver (UMDF Version 1)/C++/driver/FileContext.cpp:157-296 | A request for the next message is refused, aborted, pended or served: with the oldest message, or the flags of an event, or the error of a buffer that is too small |
| HandleSteps.LostAfter | Near-Field Proximity Sample Driver (UMDF Version 1)/C++/driver/FileContext.cpp:56-652 | After a step every message received is delivered or queued, in order, if, and only if, the step is neither switching off with messages queued nor receiving one that the pended request does not get when the queue counts as full or there is no memory |
| HandleSteps.NothingLost | Near-Field Proximity Sample Driver (UMDF Version 1)/C++/driver/FileContext.cpp:56-713 | In every run without such steps the messages delivered followed by the queue are the messages received, and no request waits while a message is queued |
| FileContext.FileContext.CompleteRequest | Near-Field Proximity Sample Driver (UMDF Version 1)/C++/driver/FileContext.cpp:683-713 | The pended request is completed, or marked as cancelled and kept, as the model says |
| FileContext.FileContext.GetNextSubscribedMessage | Near-Field Proximity Sample Driver (UMDF Version 1)/C++/driver/FileContext.cpp:218-296 | A request is refused, pended or served with the oldest message, as the model says; the list stays linked |
| FileContext.WantedIs | Near-Field Proximity Sample Driver (UMDF Version 1)/C++/driver/FileContext.cpp:566-610 | A general WindowsMime subscription gets every published type of it with an ASCII MIME type of at most 256 characters: the message is the type from its 12th character on, zeros up to 256 bytes, and the payload; other subscriptions get exactly their own type, and the payload alone |
| FileContext.FileContext.HandleReceivedPublication | Near-Field Proximity Sample Driver (UMDF Version 1)/C++/driver/FileContext.cpp:566-652 | Exactly the types that `Matches` says are taken; what is delivered to the pended request or queued is the payload, for a general WindowsMime subscription behind the 256 bytes of the MIME type; or the message is dropped when the queue is full |
| FileContext.FileContext.GetNextTransmittedMessage | Near-Field Proximity Sample Driver (UMDF Version 1)/C++/driver/FileContext.cpp:352-415 | A request is served from the ready count, or pended, as the model says |
| FileContext.FileContext.HandleMessageTransmitted | Near-Field Proximity Sample Driver (UMDF Version 1)/C++/driver/FileContext.cpp:654-671 | A transmission completes the pended request, or is counted |
| FileContext.FileContext.Disable | Near-Field Proximity Sample Driver (UMDF Version 1)/C++/driver/FileContext.cpp:56-92 | The pended request is completed and the queue is emptied, but its counter is not |
| ListRing.InsertTailList | Near-Field Proximity Sample Driver (UMDF Version 1)/C++/driver/list.h:73-88 | The circle of entries with the new one at its end |
| ListRing.RemoveHeadList | Near-Field Proximity Sample Driver (UMDF Version 1)/C++/driver/list.h:38-54 | The circle without its first entry, which is returned; of an empty list the head, and the list stays empty |
| ListRing.RemoveEntryList | Near-Field Proximity Sample Driver (UMDF Version 1)/C++/driver/list.h:22-36 | The circle without the entry, and whether it is empty then |
| ListRing.AppendTailList | Near-Field Proximity Sample Driver (UMDF Version 1)/C++/driver/list.h:106-119 | Two circles become one |

## Findings

Properties that the code does not have, with the input and the exact condition:

- `mmap_resize` (malloc.c:3853-3885) keeps the offset of the chunk in its mapping, but computes the new size of the
  mapping without it. After memalign the offset can be large, and the resized chunk is then too small, or begins behind
  its mapping (`MappedChunks.NoRoom`). The condition is `MayRemap`. If it holds, all
  is well; if it fails and MREMAP succeeds, `MappedChunks.Misplaced` describes what the caller gets.
- `sys_alloc` relies on memory that ends at a multiple of 8. Other users of sbrk may leave the break at any address, and
  top then gets any size. Multiples of 8 that are not multiples of 16 do no harm: the part that add_segment cannot use
  goes to the fenceposts. `Allocator.Install` states exactly when the heap stays in order. With a size of 2 or 3 modulo
  4 the head of top reads as a chunk in use, so that a free before it does not merge and marks top wrongly
  (`Installing.FreedBeforeTop`); with a size that is no multiple of 4 do_check_top_chunk reads another size; and with
  4 modulo 8 all goes well until add_segment writes a fencepost across the end of the segment
  (`Installing.PostsKeepWithin`).
- `internal_memalign` (malloc.c:4889-4893) never ends for an alignment above 2^63 (`Alignments.DoublingEnds`).
- `listen_func` (eports.c:171-220) prints the descriptor of a connection that another thread may already have closed
  and freed (`EchoServer.PrintIsSafe`).
- `do_stuff_to_lines` (tal-1.9/tal.c:1173-1188) cuts the length that the trailer has with its tabs expanded from the line
  as read. If a tab lies within the trailer that is too much, and text is lost (`TalTabs.TextLost`); `TalTabs.CutAlike`
  says exactly when nothing but blanks is.
- `m_dwQueueSize` drifts from the length of the queue: `Disable` empties the queue without it, and it falls before a
  completion that may fail (`HandleRuns.SizedAfter`, `HandleRuns.PlaceLost`).

## Left out

- Allocator.Allocator.Memalign: alignments above 2^63 are excluded, because the call does not end.
- Runs.Run: the rest of the program keeps the break at multiples of 8, and resizes no mapped chunk without room behind its offset; the findings say why.
- Allocator.Allocator.Malloc: between sys_alloc making a top of 4 modulo 8 bytes and add_segment closing its segment the code works, but words of the heap overlap words at multiples of 8 then, which the memory of the model cannot tell.
- Checking.InusePasses: mapped chunks, which do_check_inuse_chunk hands to do_check_mmapped_chunk.
- Checking.CheckMallocState: do_check_mmapped_chunk is not modelled; the traversal never meets a mapped chunk.
- Locks, forks, mspaces, footers, PROCEED_ON_ERROR, Win32 emulation, external segments, mallopt, statistics, inspect_all, calloc, valloc, independent_calloc and posix_memalign.
- After sys_alloc has made a top whose size is no multiple of 8 inside realloc or memalign, the rest of that call is not described.
- A footprint bound through mmap_resize, which does not look at the limit; footprint is an unbounded number.
- The memory has one cell for each address, read and written by words at aligned distances; it is total, so that reading outside of the mapped memory is not an error by itself. What is mapped is tracked as a set of addresses.
- Segment records are values in a list; their place and size in the heap are modelled, their words are not.
- The power-of-two test of memalign is a predicate, not the bit trick; small requests, bitmaps and tree indices are computed as the source does.
- The GNUC form of compute_tree_index, which narrows sizes above 2^40.
- Memory above 2^62, pages and granularity below 4096 bytes; sbrk(0) fails nowhere where there is a break, and nobody moves the break while the lock is held.
- TalTabs.LooksAligned: a tab as the fill character is excluded, because its width depends on the column.
- tal: option parsing, files and lines above the limit.
- eports: a failing port_associate ends the program; signals and the printing itself.
- FileContext: SetType, SetPayload, the life of connections and the threads of the framework; MIME types are ASCII.
- HandleRuns: payloads are sequences of bytes, and the message of an event is known only by its count.
