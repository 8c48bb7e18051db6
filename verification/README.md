# crtsys: models and proofs

crtsys lets kernel drivers use the C++ runtime and the standard library. This project models the parts of it that
keep state or speak a binary format, and proves what they promise over every input, every run and every
interleaving:

* **the zpp serializer** (`ZppFormat`, `ZppRoundTrip`, `ZppLoading`, `ZppLayout`, `ZppArchive`, with `Bytes` and
  `Arithmetic`): the typed binary format as
  a pair of functions over a universe of types and values, and the archives as classes that refine them;
* **type identifiers** (`Sha1`, `MakeId`): `make_id`, which works on byte-swapped words, against SHA-1 of FIPS 180-4;
* **shared compiler TLS** (`SlotTable`, `SharedTls`, `SharedTlsProof`, `SharedTlsRuns`): the protocol by which driver images share one
  named section, its canonical mapping, its slot bitmap and the pointer on every processor;
* **runtime lifecycle** (`RuntimeLifecycle`): initialization with all its failure points, and teardown;
* **the PDB reader** (`Msf`, `MsfDirectory`, `MsfImage`, `LineTable`, `LineEncoding`): block-mapped streams, the stream directory, line
  subsections and line lookup;
* **the KMDF reference queue** (`KmdfOperation`, `KmdfQueue`): dispatch, cancel and timer callbacks over one request;
* **the WFP inspection queue** (`AsyncInspection`): rundown, admission and fail-closed reauthorization;
* **the swap-buffers minifilter** (`SwapFilter`, `SwapCallbacks`): XOR on the way down and up, and buffer ownership;
* **the operation-log ring** (`RecordQueue`) and **the chunked decoder** (`Chunked`).

Code that only computes is a function. Code that updates fields, buffers or cursors is a class or a method with loops,
proved against a specification. Concurrent protocols are state machines whose steps are the atomic actions of the
source; their theorems quantify over all runs. `dafny verify dfyconfig.toml` checks everything.

## Findings

Seven properties hold only under a condition. Each has the exact condition and a concrete input or run that fails.

* Saving casts a container's size to its size type. A value comes back exactly when all its sizes fit
  (`ZppLoading.RoundTrip`), and no bytes load as one that does not (`ZppLoading.OversizedIsLost`); 256 bytes counted by
  one byte come back as an empty container (`ZppLoading.OversizedBecomesEmpty`).
* `make_id` sign-extends characters. It hashes the padded message of FIPS 180-4 exactly when every byte of `0x80` or
  more is preceded only by `0xFF` within its group of four (`MakeId.MessageIsPadding`); the name of the bytes `0x41 0x80`
  is not hashed that way (`MakeId.SpilledName`), 7-bit names always are.
* `may_reauthorize` loads `failed_` and `admissions_` separately. It can permit exactly when `failed_` is not set at the
  first load, even if the executor has refused an operation by then (`AsyncInspection.TwoLoadsExactly`,
  `AsyncInspection.RefusalThenPermission`). Evaluated in one step it never permits after a refusal. A rejection
  because of shutdown does not close the queue at all (`AsyncInspection.RejectionThenPermission`).
* The KMDF counters account for the sequence numbers issued exactly when the number of operations of the run whose
  marking or unmarking failed for another reason than cancellation is zero modulo 2^32
  (`KmdfOperation.SequencesAccountedFor`); one refused mark breaks the balance (`KmdfOperation.UncountedFailure`).
* The chunked decoder takes white space before the semicolon of a chunk extension, which RFC 9112 allows, for part of
  the size. A body within the limit is decoded exactly when no size line has such white space and is rejected otherwise
  (`Chunked.DecodedUnlessSpaced`, `Chunked.SpacedBodyIsRejected`).
* A read that is drained after the file system answered keeps its successful status and its byte count although nothing
  is copied to the caller. A successful read gives its caller what it reports exactly when it was not drained or
  reports nothing (`SwapFilter.ReadReturnsWritten`, `SwapFilter.DrainedRead`).
* Line ranges are 32-bit addresses. A recorded range is non-empty exactly when it does not wrap around
  (`LineTable.SubsectionInCode`); one that wraps contains no address, and lookup never finds its line
  (`LineTable.WrappedLineIsLost`).

## Model

| member | source | states |
|---|---|---|
| ZppLoading.RoundTrip | include/ntl/deps/zpp/serializer.h:1950-2879 | for every type and value, loading the saved bytes between any prefix and any suffix gives the value back, stops at the suffix and spends exactly the value's storage, if and only if every container size fits its size field |
| ZppLoading.OversizedIsLost | include/ntl/deps/zpp/serializer.h:1950-2403 | a value with a container that does not fit its size field is never the result of a load, from any bytes |
| ZppLoading.OversizedBecomesEmpty | include/ntl/deps/zpp/serializer.h:2215-2266 | 256 bytes counted by one byte are saved as, and load as, an empty container |
| ZppLoading.PrefixFree | include/ntl/deps/zpp/serializer.h:1950-2879 | no encoding of a type is a proper prefix of another encoding of it, and equal encodings are of equal values |
| ZppLoading.SaveLoaded | include/ntl/deps/zpp/serializer.h:1950-2879 | for types with one encoding per value, saving what was loaded from arbitrary bytes writes exactly the bytes consumed |
| ZppLoading.SpentIsStorage | include/ntl/deps/zpp/serializer.h:1534-1548 | for those types the budget spent by a successful load from arbitrary bytes equals the element storage of the value |
| ZppLoading.LoadIsPaid | include/ntl/deps/zpp/serializer.h:1529-1622 | loading any type from arbitrary bytes, successful or not, keeps the offset inside the input, the initial budget equals the budget left plus all charges, and no more element storage is created than was charged; what it returns is well typed, fits and can be saved |
| ZppLoading.VecIsPaid | include/ntl/deps/zpp/serializer.h:1950-2014 | the same for resizable containers, whose whole storage is charged before it is created |
| ZppLoading.AssocIsPaid | include/ntl/deps/zpp/serializer.h:2334-2403 | the same for sets and maps, which charge for all announced entries and create one per new key |
| ZppRoundTrip.LoadSaved | include/ntl/deps/zpp/serializer.h:1950-2879 | if the input holds the encoding of a fitting value at the offset, loading recovers it and advances by its length |
| ZppRoundTrip.LoadSavedVec | include/ntl/deps/zpp/serializer.h:1950-2266 | the same for containers, whether loaded item by item or as one block |
| ZppRoundTrip.LoadSavedAssoc | include/ntl/deps/zpp/serializer.h:2334-2403 | the same for associative containers, whose saved keys are distinct so that no insertion is dropped |
| ZppRoundTrip.LoadSavedVariant | include/ntl/deps/zpp/serializer.h:2767-2879 | the same for variants, by the alternative's index |
| ZppRoundTrip.ImageIsSaveAll | include/ntl/deps/zpp/serializer.h:2135-2266 | the memory image of a block of scalars is the concatenation of their encodings, so the block path and the item path write the same bytes |
| ZppLayout.ScalarBytes | include/ntl/deps/zpp/serializer.h:1163-1196 | byte k of an integer or enumeration of width w is digit k, base 256, of its value modulo 256^w |
| ZppLayout.OptionalLayout | include/ntl/deps/zpp/serializer.h:2747-2765 | an optional is written as the pair of the one-byte integer 1 and its value, an empty one as the one-byte integer 0 |
| ZppLayout.VariantLayout | include/ntl/deps/zpp/serializer.h:2845-2879 | a variant is written as the pair of its one-byte index and its alternative, and a valueless one cannot be saved |
| ZppLayout.TupleLayout | include/ntl/deps/zpp/serializer.h:2589-2674 | a tuple or pair is written as its components one after the other |
| ZppLayout.ArrayLayout | include/ntl/deps/zpp/serializer.h:2451-2587 | an array is written as its elements one after the other, block or not |
| ZppLayout.ContainerLayout | include/ntl/deps/zpp/serializer.h:2017-2266 | a container is written as its element count modulo 256^w as an unsigned integer and then its elements, as a block only as many as the field says |
| ZppLayout.AssociativeLayout | include/ntl/deps/zpp/serializer.h:2017-2067 | a set or map is written as its size field and then its entries in order |
| ZppLayout.LoadExactly | include/ntl/deps/zpp/serializer.h:1950-2879 | for types with one encoding per value, loading succeeds with a value if and only if its encoding stands at the offset, it is sound and the budget covers its storage |
| ZppLayout.AnyFlag | include/ntl/deps/zpp/serializer.h:2676-2745 | the flag of an optional may be any byte: zero is empty, every other one announces a value |
| ZppLayout.FirstEntriesKept | include/ntl/deps/zpp/serializer.h:2334-2403 | of the entries in the input an associative container keeps the first with each key, in order |
| ZppLayout.UnknownAlternative | include/ntl/deps/zpp/serializer.h:2767-2843 | an index without an alternative is refused as such |
| ZppLayout.ShortInput | include/ntl/deps/zpp/serializer.h:1568-1596 | an integer beyond the end of the input is out of range and moves nothing |
| ZppLayout.BudgetExceeded | include/ntl/deps/zpp/serializer.h:1972-2403 | a count whose storage exceeds the budget is out of range, behind the size field and uncharged |
| ZppArchive.InputArchive.ConsumeAllocation | include/ntl/deps/zpp/serializer.h:1539-1548 | charging succeeds exactly when the storage fits the budget left, and a refusal changes nothing |
| ZppArchive.InputArchive.Serialize | include/ntl/deps/zpp/serializer.h:1601-1622 | reading bytes advances by exactly their number or fails without moving |
| ZppArchive.InputArchive.LoadItem | include/ntl/deps/zpp/serializer.h:1950-2839 | loading through the archive is the loading function, in its result and in the offset and budget left behind, on success and on failure |
| ZppArchive.InputArchive.LoadVec | include/ntl/deps/zpp/serializer.h:1950-2213 | the container loops refine the recursive definition |
| ZppArchive.InputArchive.LoadAssoc | include/ntl/deps/zpp/serializer.h:2334-2403 | the insertion loop refines the recursive definition |
| ZppArchive.OutputArchive.Serialize | include/ntl/deps/zpp/serializer.h:1163-1246 | growth by three halves always covers the next item, earlier bytes survive it, the capacity is exactly that, and the contents are the old ones followed by the item; a view refuses what does not fit and writes nothing past its capacity |
| ZppArchive.OutputArchive.SaveItem | include/ntl/deps/zpp/serializer.h:2017-2879 | saving through the archive appends exactly the encoding, and fails only at a value that cannot be saved or at a full view |
| ZppArchive.OutputArchive.SaveToView | include/ntl/deps/zpp/serializer.h:1345-1366 | a call on a view saves all its items if and only if they can be saved and fit, and otherwise restores the offset |
| ZppArchive.OutputArchive.SaveToVector | include/ntl/deps/zpp/serializer.h:1410-1437 | a successful call leaves the vector's old contents followed by the encodings and nothing else |
| MakeId.MakeId | include/ntl/deps/zpp/serializer.h:3293-3395 | the identifier is the little-endian integer of the first eight digest bytes; for clean names of the SHA-1 digest of FIPS 180-4 |
| MakeId.MessageIsPadding | include/ntl/deps/zpp/serializer.h:3303-3330 | the message built from byte-swapped words is the padding of section 5.1.1 of FIPS 180-4 if and only if the name is clean |
| MakeId.SpilledName | include/ntl/deps/zpp/serializer.h:3313-3317 | a two-byte name whose message is not the standard's padding |
| MakeId.SevenBitIsClean | include/ntl/deps/zpp/serializer.h:3293-3395 | every 7-bit name is clean |
| MakeId.SpoiledWord | include/ntl/deps/zpp/serializer.h:3313-3317 | a spilled sign bit changes the word it falls into |
| MakeId.Preprocess | include/ntl/deps/zpp/serializer.h:3303-3330 | the padding loop leaves the swapped message words |
| MakeId.Extended | include/ntl/deps/zpp/serializer.h:3336-3349 | the extension loop on swapped words is the message schedule of section 6.1.2 |
| MakeId.RoundFunction | include/ntl/deps/zpp/serializer.h:3360-3374 | the four round functions and constants agree with sections 4.1.1 and 4.2.1 |
| MakeId.MainLoop | include/ntl/deps/zpp/serializer.h:3351-3383 | eighty rounds on swapped words are eighty rounds of the standard |
| MakeId.ProcessBlock | include/ntl/deps/zpp/serializer.h:3336-3390 | one block is one compression of the standard |
| MakeId.HashBlocks | include/ntl/deps/zpp/serializer.h:3297-3391 | the loop over blocks is the hash of the whole message from the standard's initial value |
| MakeId.SwapIsLittle64 | include/ntl/deps/zpp/serializer.h:3393-3394 | swapping the first two hash words reads the first eight digest bytes as a little-endian integer |
| MakeId.SwapReverses | include/ntl/deps/zpp/serializer.h:548-583 | swapping byte order reverses the bytes |
| SlotTable.Section.AllocateSlot | src/main.cpp:385-424 | the bitmap loops take the lowest free slot and set both its bit and its pointer, or change nothing when none is free; bits and slots stay consistent |
| SlotTable.Section.ReleaseSlot | src/main.cpp:426-449 | a slot is released only while it holds the image's own buffer, with its bit |
| SlotTable.FreeFrom | src/main.cpp:398-419 | the slot found is the first free one, and none is found only if all are taken |
| SlotTable.TakeDrop | src/main.cpp:385-449 | allocating and releasing change one slot and its bit and keep bits and slots consistent |
| SlotTable.TakeThenDrop | src/main.cpp:385-449 | releasing the slot that was just allocated restores bitmap and slots |
| SharedTlsProof.RunKeeps | src/main.cpp:236-507 | the protocol invariant holds in every state of every interleaving of loads and unloads, with every service failing anywhere |
| SharedTlsProof.StepKeeps | src/main.cpp:236-706 | every single step keeps it |
| SharedTlsProof.OwnSlotEverywhere | src/main.cpp:556-706 | a loaded image finds its own buffer at its index through the pointer installed on every processor, in a live mapping, and no other image has that index |
| SharedTlsProof.SlotsHeldOnce | src/main.cpp:385-449 | a bit is set if and only if an image has that slot as its index; the slot then holds that image, and no two images have the same index, in whatever phase they are |
| SharedTlsProof.AllocationFailsOnlyWhenFull | src/main.cpp:398-424 | allocation fails if and only if all 1024 slots are taken |
| SharedTlsProof.ReferenceCounted | src/main.cpp:373-382 | with the gate free, the attached images are those with an open section handle, and the reference count is their number |
| SharedTlsProof.CanonicalOutlivesCreator | src/main.cpp:471-493 | while any image is attached the canonical view and MDL are alive, also after their creator detached |
| SharedTlsProof.ReleasedExactlyOnce | src/main.cpp:451-507 | no view, MDL or handle is ever released twice, and when all images have unloaded none is left |
| SharedTlsProof.FirstAttacherInitializes | src/main.cpp:341-355 | an image finds the section uninitialized if and only if nobody is attached, and then succeeds in publishing |
| SharedTlsProof.PublishSucceeds | src/main.cpp:341-371 | the revision check never fails between images of one version |
| SharedTlsRuns.LoadSucceeds | src/main.cpp:556-706 | from every reachable world with the gate free and a slot left, an unloaded image can load: the run is enabled step by step and ends with it loaded, its index the lowest slot that was free, that slot holding it, every processor at the canonical vector and no other image moved |
| SharedTlsRuns.UnloadSucceeds | src/main.cpp:426-516 | with the gate free every loaded image can unload: its slot is free again and no other changed, its handle is closed and the gate is free |
| SharedTlsRuns.TornDownFor | src/main.cpp:556-682 | a step sends its image into teardown if and only if the image is malformed, the broadcast cannot start, the image is unloaded, or a slot is wanted and all 1024 are taken |
| RuntimeLifecycle.Runtime.Initialize | src/main.cpp:753-852 | for every combination of failures, everything set up before the first failure is undone once and nothing else is, or all of it stays set up; nothing is undone while something live needs it |
| RuntimeLifecycle.Runtime.Uninitialize | src/main.cpp:854-896 | everything live is undone, in an order that respects dependencies, and the exit tables run only if they were available |
| RuntimeLifecycle.Runtime.TearDownTls | src/main.cpp:509-516 | slot and reference are released if held, and a second call changes nothing |
| RuntimeLifecycle.Runtime.InitializeTlsImage | src/main.cpp:556-622 | succeeds exactly on images without TLS data or with a well-formed directory that fits the buffer and gets a slot; otherwise the reference is dropped again |
| RuntimeLifecycle.Runtime.InitializeTls | src/main.cpp:656-682 | the same with the DPC allocation, whose failure also rolls back |
| RuntimeLifecycle.Runtime.StartRuntime | src/main.cpp:812-852 | the exit tables run during roll-back once if the C initializers had succeeded and not otherwise |
| RuntimeLifecycle.LoadAndUnload | src/main.cpp:753-896 | over a whole life every resource reached is set up once and undone once, and `_cexit` runs once or not at all |
| Msf.ReadStreamBytes | src/custom/misc/stacktrace_abi.cpp:425-466 | succeeds exactly when every byte of the range is inside the stream and the file, and copies exactly those bytes; the rest of the buffer is untouched |
| Msf.GatherIsSlice | src/custom/misc/stacktrace_abi.cpp:425-466 | when the blocks are in the file, any range read is that slice of the blocks' concatenation |
| Msf.ConcatenationAt | src/custom/misc/stacktrace_abi.cpp:439-448 | byte k of the concatenation is at the address computed from k / block size and k % block size |
| MsfDirectory.ParseStreams | src/custom/misc/stacktrace_abi.cpp:548-588 | the streams returned are the only ones whose encoding the directory starts with, and there are none when parsing fails |
| MsfDirectory.Determined | src/custom/misc/stacktrace_abi.cpp:548-588 | two stream lists that a directory starts with are the same: number, sizes and block lists |
| MsfDirectory.BlocksOfStream | src/custom/misc/stacktrace_abi.cpp:548-586 | a stream of size zero or 0xFFFFFFFF has no blocks, any other as many as its size needs, and they are the words behind those of the streams before it |
| MsfImage.CollectDirectory | src/custom/misc/stacktrace_abi.cpp:525-546 | the directory is gathered block by block exactly when all its bytes are in the file |
| MsfImage.ReadStreamDirectory | src/custom/misc/stacktrace_abi.cpp:484-589 | on arbitrary bytes it succeeds if and only if the file is an image, and returns that image's block size and streams |
| MsfImage.HeaderRead | src/custom/misc/stacktrace_abi.cpp:490-523 | a header written as the signature and six words is recognized and read back field by field, and accepted if and only if it is within the limits on block size, block count, directory size and block map |
| MsfImage.LaidOutIsImage | src/custom/misc/stacktrace_abi.cpp:484-589 | a directory laid out over any assignment of blocks is read back as it was written |
| MsfImage.CopyStream | src/custom/misc/stacktrace_abi.cpp:591-607 | copies exactly the stream's bytes, and fails exactly for absent, empty or deleted streams and ones not in the file |
| MsfImage.StreamContents | src/custom/misc/stacktrace_abi.cpp:591-607 | a stream whose blocks are in the file is the start of their concatenation |
| LineTable.ParseLineSubsection | src/custom/misc/stacktrace_abi.cpp:931-1006 | the cursor loops append exactly the lines the subsection's bytes define, which LineEncoding.SubsectionRead gives field by field |
| LineEncoding.SubsectionRead | src/custom/misc/stacktrace_abi.cpp:931-1006 | a subsection encoded from any header and any blocks of entries, with any flags and trailing block data, is parsed into exactly one line per entry with a number inside the code, in order: that number, the block's file, the entry's address and that of the next entry, one byte on or the end of the code; or into none when its segment or code size is unusable |
| LineTable.FindChecksumFile | src/custom/misc/stacktrace_abi.cpp:895-904 | returns the file of the first checksum with the offset, and none if and only if no checksum has it |
| LineTable.SubsectionInCode | src/custom/misc/stacktrace_abi.cpp:931-1006 | from arbitrary bytes, every line recorded has a number and a file and covers a non-empty range of its code, whose 32-bit addresses are in order if and only if they do not wrap |
| LineTable.RangeInRvas | src/custom/misc/stacktrace_abi.cpp:990-1002 | as 32-bit addresses the range is non-empty if and only if it does not wrap |
| LineTable.WrappedLineIsLost | src/custom/misc/stacktrace_abi.cpp:998-999 | a code range that wraps yields a line that lookup never finds |
| LineTable.LinesAreRecorded | src/custom/misc/stacktrace_abi.cpp:976-1002 | a line is among those of a block if and only if it has number, file, start and end of an entry with a number inside the code |
| LineTable.ContainsIff | src/custom/misc/stacktrace_abi.cpp:976-1002 | in a block with increasing offsets an address is in the range of exactly the last entry not above it |
| LineTable.Disjoint | src/custom/misc/stacktrace_abi.cpp:976-1002 | the ranges of such a block do not overlap |
| LineTable.FindLine | src/custom/misc/stacktrace_abi.cpp:1486-1499 | finds the first of the containing lines with the greatest start, or none if none contains the address |
| LineEncoding.LookupOverBlocks | src/custom/misc/stacktrace_abi.cpp:1486-1499 | lookup over all blocks of a subsection, interleaved or not: each block offers its last entry not above the address, if that has a line, and the one that starts furthest on is found, the first of equals |
| LineEncoding.SubsectionLookup | src/custom/misc/stacktrace_abi.cpp:931-1499 | the same from the encoded bytes of the subsection; the line found has number, file and start of an entry as written |
| LineTable.LookupFindsLastEntry | src/custom/misc/stacktrace_abi.cpp:1486-1499 | looking up such a block returns number, file and range of the entry with the greatest offset not above the address, or none if its line is zero |
| KmdfOperation.CompletedOnce | examples/kmdf/reference/driver/main.cpp:88-305 | in every interleaving no request is completed twice, and an accepted request is incomplete if and only if it is the current one |
| KmdfOperation.NeverBusy | examples/kmdf/reference/driver/main.cpp:267-271 | whenever a request is presented there is no current one, so the DEVICE_BUSY branch is never taken |
| KmdfOperation.SequencesAccountedFor | examples/kmdf/reference/driver/main.cpp:88-146 | sequence numbers issued equal completed plus cancelled plus pending modulo 2^32 if and only if the other mark and unmark failures counted over the run's events vanish modulo 2^32; runs with only success or CANCELLED have none |
| KmdfOperation.UncountedFailure | examples/kmdf/reference/driver/main.cpp:279-288 | from every initial state, a run that breaks the equation |
| KmdfOperation.RepliesAnswerTheirRequest | examples/kmdf/reference/driver/main.cpp:101-110 | the k-th accepted operation has sequence k + 1, and a reply to it carries its own 3 * value + 1, session and sequence |
| KmdfOperation.AcceptedExactly | examples/kmdf/reference/driver/main.cpp:238-305 | a request is accepted if and only if it is a valid operation and the device is ready, stays pending if and only if it could also be marked, and is otherwise completed once before its callback returns, with the status of the first check it fails, the reply to a query, or the reason it could not be marked; only a mark that reports CANCELLED counts as cancelled |
| KmdfOperation.CancellationWins | examples/kmdf/reference/driver/main.cpp:118-137 | once cancellation has begun only the cancel callback completes the request, with CANCELLED, whatever timer callbacks arrive |
| KmdfOperation.TimerExactly | examples/kmdf/reference/driver/main.cpp:129-146 | after any run a timer callback completes the pending request once unless its cancellation has begun: with the failure of unmarking, else of the output, else with the reply to its own operation; the completed counter advances exactly without an unmark failure; at any other time nothing changes |
| KmdfOperation.StepKeeps | examples/kmdf/reference/driver/main.cpp:88-305 | every callback keeps the invariant, a timer callback at any time included |
| KmdfQueue.Queue.DeviceControl | examples/kmdf/reference/driver/main.cpp:293-305 | the dispatch callback refines the dispatch step and keeps the invariant |
| KmdfQueue.Queue.BeginOperation | examples/kmdf/reference/driver/main.cpp:238-291 | a valid operation for a ready device is appended to the accepted ones and stays pending if it could be marked; anything else adds exactly one completion of this request |
| KmdfQueue.Queue.CompleteQuery | examples/kmdf/reference/driver/main.cpp:202-236 | a query adds exactly one completion, with the status of the first check that fails or a reply, and accepts nothing |
| KmdfQueue.Queue.CancelRequest | examples/kmdf/reference/driver/main.cpp:118-127 | the cancel callback clears the current request, adds one completion with CANCELLED, advances the cancelled counter alone and keeps the invariant |
| KmdfQueue.Queue.TimerExpired | examples/kmdf/reference/driver/main.cpp:129-146 | the timer callback keeps the invariant and does exactly what TimerExactly states |
| KmdfQueue.Queue.CompleteOperation | examples/kmdf/reference/driver/main.cpp:88-116 | exactly one completion, with the reply of the stored operation or with the failure of the output buffer or of formatting, and the counter advanced in either case |
| AsyncInspection.ReleasedAndCompletedOnce | examples/wfp/kernel/async-inspection/driver/main.cpp:28-53 | in every interleaving each operation takes and releases the rundown reference at most once and is completed at most once; when it is finished, exactly as often as taken, and completed |
| AsyncInspection.NothingAfterShutdown | examples/wfp/kernel/async-inspection/driver/main.cpp:60-64 | after shutdown returned, in every later state no work item is outstanding and the executor cannot be called |
| AsyncInspection.Quiescent | examples/wfp/kernel/async-inspection/driver/main.cpp:28-53 | at quiescence as many operations were pended as completed, and no admission or reference is held |
| AsyncInspection.RefusalFailsClosed | examples/wfp/kernel/async-inspection/driver/main.cpp:32-58 | after a refusal every later state is inside an admission or failed, failed_ is never lowered, and one-step evaluation never permits |
| AsyncInspection.PermittedExactly | examples/wfp/kernel/async-inspection/driver/main.cpp:55-58 | in one step reauthorization is permitted if and only if nothing was ever refused and no thread is in an admission |
| AsyncInspection.PostSucceeds | examples/wfp/kernel/async-inspection/driver/main.cpp:28-53 | while the queue accepts, an operation the executor takes can be pended, completed and released, each once, and nothing else changes |
| AsyncInspection.RefusedPost | examples/wfp/kernel/async-inspection/driver/main.cpp:45-52 | one the executor refuses fails the queue, is completed once and holds nothing |
| AsyncInspection.RejectedPost | examples/wfp/kernel/async-inspection/driver/main.cpp:29-30 | once shutdown has begun an operation is rejected at the flag or at the rundown reference, and completed |
| AsyncInspection.ShutdownCompletes | examples/wfp/kernel/async-inspection/driver/main.cpp:60-64 | from every reachable state some run ends with shutdown returned |
| AsyncInspection.TwoLoadsExactly | examples/wfp/kernel/async-inspection/driver/main.cpp:55-58 | from a reachable state, the two loads can permit if and only if failed_ is not set at the first |
| AsyncInspection.RefusalThenPermission | examples/wfp/kernel/async-inspection/driver/main.cpp:45-58 | a run in which a reauthorization that starts after a refusal is permitted |
| AsyncInspection.RejectionThenPermission | examples/wfp/kernel/async-inspection/driver/main.cpp:29-30 | a run in which an operation rejected by shutdown is completed and reauthorization then permits |
| AsyncInspection.RunKeeps | examples/wfp/kernel/async-inspection/driver/main.cpp:24-64 | rundown, admission, pended and completed counters equal what the threads and work items contribute, in every run |
| SwapFilter.ReadReturnsWritten | examples/minifilter/swap-buffers/driver/xor_filter.cpp:47-270 | a byte last written through the filter and later read is delivered as it was written, for any offsets, lengths, short transfers, failures and interleavings; a successful read delivers all bytes it reports if and only if it was not drained or reports none |
| SwapFilter.DrainedRead | examples/minifilter/swap-buffers/driver/xor_filter.cpp:250-253 | a run that ends with a successful, drained read that reports a byte and delivered none |
| SwapFilter.SwapCompletedOnce | examples/minifilter/swap-buffers/driver/xor_filter.cpp:59-270 | on every passive, deferred, draining and failing path a replacement buffer is completed exactly once, when its operation finishes |
| SwapFilter.StepKeeps | examples/minifilter/swap-buffers/driver/xor_filter.cpp:59-270 | every callback, file-system action and foreign write keeps the file the encoding of what was written |
| SwapFilter.FinishReadKeeps | examples/minifilter/swap-buffers/driver/xor_filter.cpp:181-214 | finishing a read keeps the invariant: delivered bytes are decoded ones and the buffer is given up on all exits |
| SwapFilter.ReadPostExactly | examples/minifilter/swap-buffers/driver/xor_filter.cpp:246-270 | a read that succeeded below ends successfully with the same byte count and delivers it if and only if view, copy preparation, the whole copy and, above passive level, queueing succeed; drained it keeps its result and delivers nothing |
| SwapFilter.DeferredPostExactly | examples/minifilter/swap-buffers/driver/xor_filter.cpp:181-220 | the same for the worker that finishes a waiting read |
| SwapFilter.OtherPostExactly | examples/minifilter/swap-buffers/driver/xor_filter.cpp:229-253 | the post-operation of a write, or of a read that failed below, changes neither status nor byte count |
| SwapFilter.PrepareExactly | examples/minifilter/swap-buffers/driver/xor_filter.cpp:59-126 | an operation is passed on, encoded if it is a protected write, if and only if the name, the replacement buffer, its view, its installation and its release succeed, and fails otherwise |
| SwapFilter.PreExactly | examples/minifilter/swap-buffers/driver/xor_filter.cpp:146-171 | when a new operation is passed on untouched, disallowed, prepared, queued or failed |
| SwapFilter.LowerExactly | examples/minifilter/swap-buffers/driver/xor_filter.cpp:189-196 | status and byte count of the file system are what the post-operation finds |
| SwapFilter.StoredEncoded | examples/minifilter/swap-buffers/driver/xor_filter.cpp:47-51 | a protected file holds the written byte XORed with 0xA7 at every address last written through the filter |
| SwapFilter.LowerWriteKeeps | examples/minifilter/swap-buffers/driver/xor_filter.cpp:59-92 | what reaches the file is the encoding of the caller's bytes |
| SwapCallbacks.XorBytes | examples/minifilter/swap-buffers/driver/xor_filter.cpp:47-51 | the loop XORs the first bytes in place and leaves the rest |
| SwapCallbacks.Operation.PrepareWrite | examples/minifilter/swap-buffers/driver/xor_filter.cpp:59-92 | refines the pre-operation step: swapped and encoded, or failed with the buffer completed |
| SwapCallbacks.Operation.PrepareRead | examples/minifilter/swap-buffers/driver/xor_filter.cpp:94-126 | the same without encoding |
| SwapCallbacks.Operation.QueuePre | examples/minifilter/swap-buffers/driver/xor_filter.cpp:146-171 | refines the choice between passing on, disallowing fast I/O, preparing, deferring and failing |
| SwapCallbacks.Operation.FinishRead | examples/minifilter/swap-buffers/driver/xor_filter.cpp:181-214 | refines the read completion on the buffers in place, whose outcome SwapFilter.DeferredPostExactly gives |
| SwapCallbacks.Operation.WritePost | examples/minifilter/swap-buffers/driver/xor_filter.cpp:229-237 | refines the post-write step |
| SwapCallbacks.Operation.ReadPost | examples/minifilter/swap-buffers/driver/xor_filter.cpp:246-270 | refines the post-read step |
| RecordQueue.OpenRun | examples/minifilter/operation-log/driver/record_queue.cpp:34-75 | over any run of pushes and reads after a reset the batches concatenate to pushed records in increasing order, delivered plus dropped plus stored is pushed, and every undelivered record among the last 64 is still stored |
| RecordQueue.NextBatch | examples/minifilter/operation-log/driver/record_queue.cpp:58-75 | after such a run a read returns the oldest min(16, stored) records with their numbers, what then remains and what was dropped, stored being pushed less delivered less dropped |
| RecordQueue.SequencesIncrease | examples/minifilter/operation-log/driver/record_queue.cpp:51-54 | delivered sequence numbers strictly increase while fewer than 2^64 records were pushed |
| RecordQueue.ClosedStays | examples/minifilter/operation-log/driver/record_queue.cpp:25-43 | after a close pushes are ignored and reads return nothing |
| RecordQueue.Queue.PushRecord | examples/minifilter/operation-log/driver/record_queue.cpp:34-56 | the ring stays the tail of the log, dropping its oldest record when full |
| RecordQueue.Queue.ReadBatch | examples/minifilter/operation-log/driver/record_queue.cpp:58-75 | returns the oldest records in order, with what remains and what was dropped |
| RecordQueue.Queue.Reset | examples/minifilter/operation-log/driver/record_queue.cpp:14-23 | starts an empty log numbered from one |
| RecordQueue.Queue.Shut | examples/minifilter/operation-log/driver/record_queue.cpp:25-32 | discards what is stored |
| Chunked.Decode | examples/wfp/shared/http1_support.hpp:64-105 | on arbitrary text returns a body if and only if the text begins with chunks, any hex size and any CRLF-free extension directly behind it, up to a zero-size line and within the limit, and then their data |
| Chunked.DecodedUnlessSpaced | examples/wfp/shared/http1_support.hpp:76-89 | of the bodies that may also have white space before an extension, as in section 7.1 of RFC 9112, exactly those without are decoded and all others rejected |
| Chunked.SpacedBodyIsRejected | examples/wfp/shared/http1_support.hpp:76-89 | a body with one space before an extension that is rejected |
| Chunked.ParseRejects | examples/wfp/shared/http1_support.hpp:76-89 | white space before any extension, of whichever chunk, rejects the whole body |
| Chunked.SpacedIsUnread | examples/wfp/shared/http1_support.hpp:76-89 | a size line with white space before its extension is not read |
| Chunked.ParseComplete | examples/wfp/shared/http1_support.hpp:64-105 | any list of non-empty chunks within the limit, with any hex spelling of sizes and any CRLF-free extensions directly behind them, is decoded to those chunks whatever follows |
| Chunked.ParseSound | examples/wfp/shared/http1_support.hpp:64-105 | everything accepted has that form up to its zero-size line |
| Chunked.ReadSpelled | examples/wfp/shared/http1_support.hpp:72-89 | a size line without white space is read back exactly as spelled |
| Chunked.ReadIsSpelled | examples/wfp/shared/http1_support.hpp:72-89 | whatever is read as a size line has the form of one |
| Chunked.HexInvertsPrint | examples/wfp/shared/http1_support.hpp:83-89 | a size is the number whose base-16 form, in capital or small letters, its digits are |
| Chunked.LeadingZero | examples/wfp/shared/http1_support.hpp:83-89 | a leading zero does not change it |

## Assumptions

* Serializer: the C++17 build with exceptions, little-endian memory, loading into fresh targets. Associative containers
  are listed in iteration order, and `insert` keeps the first of equal keys. `make_id` assumes a signed `char`.
* Shared TLS: waits on the gate succeed, a new section reads as zero, the section exists while a handle to it is open,
  and the processor count is fixed. Publishing and detaching are single steps, since they happen under the gate.
* KMDF: a queue's callbacks run one at a time, a sequential queue presents a request only after the previous one was
  completed, and unmarking reports CANCELLED exactly while the cancel callback is due. Request names are never reused.
* Runtime lifecycle: what must be gone before a resource is undone is this model's reading of the source: the slot
  before the TLS reference (`src/main.cpp:509-516`), the cleanup domain and the exit tables while the CRT is up
  (`src/main.cpp:863-874`), and the CRT, whose teardown frees pool through LDK, before the lookaside lists and LDK
  (`src/main.cpp:880-895`).
* WFP: the rundown reference refuses acquisition once waiting has begun and waits for all holders.
* Swap buffers: the file system transfers a prefix of the buffer and reports its length; post-operation callbacks run only for
  operations passed down with one, at or below DISPATCH_LEVEL, and replacement buffers have no user mapping.

## Left out

- Serializer: freestanding mode, the polymorphic registry, smart pointers, view containers, `std::vector<bool>`, and what a target holds after a failed load.
- Serializer: overflow of `size_t` when a buffer grows and failure to allocate memory.
- ZppArchive.OutputArchive.SaveToVector: after a failed call only the offset and the old contents are stated, because the source resets nothing else.
- SharedTls: revision mismatch between crtsys versions, failing gate waits, the FLS index and the TLS image data copied into the buffer.
- RuntimeLifecycle: what the services brought up do; only whether each is up.
- PDB reader: the module, symbol, name-table and checksum parsers, the raw_pdb path, file reading and text formatting.
- KmdfOperation: delays and other times, the message text of replies and what the file-object and power callbacks do beyond the readiness they set.
- AsyncInspection: the shared counters are mathematical integers, so 2^32 simultaneous admissions are not modelled, nor is the executor's release of a finished work item's memory. The queue is a state machine on values, not a class, because its threads interleave inside `post`.
- SwapFilter: name queries, MDL handling and paging I/O, which the filter skips; writes below the filter appear as foreign writes.
- RecordQueue: the spin lock; each call is one step.
- Chunked: trailer fields after the zero-size line, which the source does not read.
- The remaining samples, drivers, math and floating-point code, applications and packaging.
