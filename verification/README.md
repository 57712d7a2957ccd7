# redcli, modelled in Dafny

redcli benchmarks the RLE4K block codec against other codecs: it rasterizes a layout block by block, encodes and decodes
the blocks on several threads, and reports sizes, times and an integrity verdict. This project models the parts of
redcli that orchestrate such a run and proves what they guarantee. The codecs and the rasterizer appear as arbitrary
deterministic functions.

| file | contents |
|---|---|
| `Fnv.dfy` | the FNV-1a hash (64-bit variant of draft-eastlake-fnv, section 2), its inverse, and the damage it is bound to detect |
| `BlockPipeline.dfy` | the ticket queue, and a machine that runs the workers of a phase in every possible interleaving |
| `Blocks.dfy` | block digests, the decoder dispatch, the integrity verdict |
| `Phases.dfy` | the raster, encode and decode phases: classes whose workers take their steps in arbitrary order, proved against the machine |
| `Bench.dfy` | format, strip column, window of rows and repeat loops, the range checks, and what the report depends on |
| `Tiling.dfy` | strip width, columns, windows and slots |
| `BufferPool.dfy` | the thread-cached buffer pool as a machine: allocations, frees from any thread, thread exits, the compare-and-swap loop |
| `BufferManager.dfy` | the same pool as the code of one thread: classes with mutable fields |
| `Text.dfy`, `IntScanner.dfy` | substring search, `atoi`, the digit-run scanner for lists, the splitter of `--formats` |
| `Config.dfy` | the configuration lookups, printed documents, and texts cut at their quotes |
| `AnyText.dfy` | what the lookups return on text of any origin, character by character |
| `RoundTrip.dfy`, `ConfigLoader.dfy` | what the lookups return on printed documents, exactly when they do, and what loading one does to the settings |
| `Formats.dfy` | the formats a configuration selects |
| `Basics.dfy` | options, sums, minima |

How the concurrent parts are modelled. The only words the workers share while they run are single atomics (the ticket
counter, the verdict flag, the published buffer size); every vector slot is written by the one worker that drew it and
read after the join. A sequentially consistent interleaving of atomic steps is therefore enough. In `Phases.dfy` the
worker that moves next is an arbitrary choice (`:|`), so each contract holds for every schedule; `BlockPipeline.dfy`
states the same over explicit schedules.

Where the code and its documentation disagree, the model follows the code.

- The configuration guide allows `//` comments anywhere, and the comment on `skip_comment` promises the position of the
  next line. The code returns the position of the newline itself, so a comment between a colon and its value makes the
  value read as 0 (`RoundTrip.SurvivesUnlessCommented` gives the exact condition, `RoundTrip.CommentedValueIsLost` an example).
- The guide documents a default for every key. Loading a file that leaves out a key sets twelve of them to 0 instead
  (`ConfigLoader.UnmentionedSetting` says which).
- A key is looked up as quoted text. A string value or a quoted word in a comment that reads like a key is taken for
  that key (`RoundTrip.KeyFoundAtItsEntry` gives the exact condition, `RoundTrip.CloudedKeyMisreads` an example).
- The header of the row queue says that a worker encodes and decodes a block before it draws the next one. In the code
  the phases follow one another, each with its own queue.
- `get_memory_buffer_size` computes in 32 bits and can wrap around (`BufferManager.MemoryBufferSizeExact` says when).

## Model

| member | source | states |
|---|---|---|
| Fnv.XorIsBitwise | redcli/main.cpp:253 | bit k of the exclusive or is set exactly when bit k of one of the two operands is, for every k |
| Fnv.PublishedDigests | redcli/main.cpp:250-257 | the digests of the empty string and of "a" are the published ones, CBF29CE484222325 and AF63DC4C8601EC8C |
| Fnv.MultiplyUndone | redcli/main.cpp:254 | multiplying by the FNV prime modulo 2^64 is undone by multiplying by 0xCE965057AFF6957B, and the other way round |
| Fnv.RoundIsBijection | redcli/main.cpp:253-254 | for every byte one hash round permutes the 64-bit states; the inverse is given |
| Fnv.Fnv1a64 | redcli/main.cpp:250-257 | the loop returns the digest of the first n bytes of the buffer |
| Fnv.HashIsBijection | redcli/main.cpp:250-257 | for every fixed byte string the whole hash permutes the starting states |
| Fnv.HashConcat | redcli/main.cpp:250-257 | hashing a concatenation is hashing its parts one after the other |
| Fnv.NoSmallCancellation | redcli/main.cpp:250-257 | the drifts that four neighbouring bytes cause cannot cancel modulo 2^64 unless the first is zero |
| Fnv.ShortStringsCollideNever | redcli/main.cpp:250-257 | from any one state, two strings of equal length up to four bytes with equal hashes are equal |
| Fnv.BurstIsDetected | redcli/main.cpp:250-257 | two strings of equal length that differ only within four neighbouring bytes have equal digests if and only if they are equal |
| Fnv.EqualDigests | redcli/main.cpp:250-257 | equal digests of strings of equal length: the strings are equal or differ in two places at least four bytes apart |
| BlockPipeline.RowBlockQueue.Pop | redcli/rle4k_block_pipeline.h:20-23 | one fetch-and-add: the counter grows by one, the caller gets the old value while it is below the total, then -1 |
| BlockPipeline.InitHasInv | redcli/main.cpp:289-294 | the state in which the workers are spawned satisfies the invariant |
| BlockPipeline.StepKeepsInv | redcli/main.cpp:295-309 | every step of every worker keeps it: no slot is held twice, every write is in place, times and verdict are accounted for |
| BlockPipeline.RunKeepsInv | redcli/main.cpp:293-311 | so every state any schedule can reach satisfies it |
| BlockPipeline.HolderSees | redcli/main.cpp:297-307 | a worker that holds a slot finds there only what it has written itself, whatever the others have done |
| BlockPipeline.EveryScheduleIsSequential | redcli/main.cpp:293-314 | for any number of workers and any schedule: after the join the slots, the summed time, the verdict and the set of slots worked on are those of a left-to-right pass, and the counter stands at slots plus workers |
| BlockPipeline.TicketsBounded | redcli/rle4k_block_pipeline.h:20-23 | the counter never exceeds slots plus workers, so with ten workers it never overflows an int for up to INT_MAX - 10 slots |
| BlockPipeline.StepMakesProgress | redcli/main.cpp:295-309 | every step of a worker that has not returned brings the join nearer by exactly one |
| BlockPipeline.NoWorkLeft | redcli/main.cpp:293-311 | no work is left exactly when all workers have returned |
| BlockPipeline.RunLength | redcli/main.cpp:293-311 | every schedule without idle turns joins after the same number of steps, neither earlier nor later |
| Blocks.MakeDigest | redcli/main.cpp:268-280 | a digest is valid exactly for a bitmap with data, nonzero width and nonzero height; it then carries width, height, stride and byte count in this order, and the hash of the bytes in use if asked for, otherwise 0 |
| Blocks.DecodePayload | redcli/main.cpp:355-379 | the buffer keeps its length; Brotli passes without touching it; unknown formats fail without touching it; what the five real codecs do is stated by the lemmas that follow |
| Blocks.Rle4kDecodes | redcli/main.cpp:357-361 | format 0x4: the decoder is given the bytes in use, width, height and stride; success is exactly a status from 0 up; the buffer starts with what the decoder wrote and keeps the rest |
| Blocks.GzipDecodes | redcli/main.cpp:362-365 | format 0x7: the decoder is given the bytes in use and the capacity; success is exactly status 0; the buffer likewise |
| Blocks.Lzo2Decodes | redcli/main.cpp:366-370 | format 0xB: the same with the LZO decoder |
| Blocks.SnappyDecodes | redcli/main.cpp:371-372 | format 0xA: the decoder is given the bytes in use, and its answer is the success; the buffer likewise |
| Blocks.ZstdDecodes | redcli/main.cpp:373-376 | format 0x8: the decoder is given the bytes in use and the capacity; success is exactly a status that is no error; the buffer likewise |
| Blocks.OnlyItsLibrary | redcli/main.cpp:355-379 | changing any library other than that of the format changes neither outcome nor buffer |
| Blocks.NothingToDecode | redcli/main.cpp:355 | without an encoding or without capacity decoding fails and leaves the buffer alone |
| Blocks.BlockDecodes | redcli/main.cpp:411-422 | for the encoding of a block, each decoder is given the geometry of that block, or the capacity of a zeroed buffer 4096 bytes larger than the block, which keeps its zeros behind the bytes written |
| Blocks.AcceptedBlocksAreClose | redcli/main.cpp:433-450 | a true verdict on a window with the check on: every valid block has an encoding that decodes to its bytes, or to bytes that differ from them in two places at least four apart |
| Blocks.NearbyDamageIsReported | redcli/main.cpp:433-450 | damage to a decoded block that stays within four neighbouring bytes makes the verdict of its window false |
| Phases.WorkerCount | redcli/main.cpp:290 | a phase starts the largest number of workers that exceeds neither the configured number, nor the slots, nor ten, and one worker if there is no such number |
| Phases.TotalBytes | redcli/main.cpp:314 | the bytes reported are the sum of the data lengths of the blocks that are there |
| Phases.RasterPhase.WorkerStep | redcli/main.cpp:295-309 | one step of a raster worker on the shared vectors is one step of the machine |
| Phases.RasterPhase.RunToJoin | redcli/main.cpp:293-311 | after the join every slot holds the rasterized block and its digest, the times add up, and each block was rasterized once; in a window that starts empty, at the spawn and after every step, no more blocks are alive than slots |
| Phases.RasterWindow | redcli/main.cpp:283-316 | for every schedule: blocks, digests, cpu time and source bytes are those of a sequential pass, the rasterize calls are exactly the rows of the window, once each, and the logged numbers of live blocks stay within the window |
| Phases.LiveBlocksBounded | redcli/main.cpp:299-307 | in every state of a raster phase that satisfies the invariant, the blocks stored and the blocks in the workers' hands are together no more than the slots of the window |
| Phases.EncodePhase.WorkerStep | redcli/main.cpp:331-342 | one step of an encode worker is one step of the machine; missing blocks are passed over |
| Phases.EncodeWindow | redcli/main.cpp:319-349 | for every schedule: each block that is there is handed to the encoder exactly once, and no other slot is; its encoding is in its slot, other slots keep their contents, cpu time counts exactly the blocks encoded, and the bytes are summed |
| Phases.DecodePhase.WorkerStep | redcli/main.cpp:404-429 | one step of a decode worker is one step of the machine |
| Phases.DecodePhase.Decode | redcli/main.cpp:411-422 | with the check on the result is that of decoding into a cleared buffer; with the check off it is that of decoding into the worker's own buffer if that holds nbytes + 4096 bytes, otherwise into a zeroed one of that size, and the buffer decoded into becomes the worker's; either way the call is logged |
| Phases.DecodePhase.RunToJoin | redcli/main.cpp:402-432 | after the join every slot with a valid digest and an encoding has been decoded exactly once, and no other, with the check on or off; the flag is the conjunction of the decode results, and the slots record each result and each decoded buffer; at the spawn and after every step no more decode buffers are alive than slots, or than ten with the check off |
| Phases.VerifyWindow | redcli/main.cpp:435-452 | the integrity pass keeps the flag exactly when, unless the format is Brotli, every valid block was decoded and re-hashes to its digest |
| Phases.DecodeWindow | redcli/main.cpp:383-457 | for every schedule each slot with a valid digest and an encoding is decoded exactly once and no other is; the verdict is exact: with the check on and a format other than Brotli it is true iff every valid digest has an encoding that decodes and re-hashes to it; otherwise it is true; cpu time counts exactly the blocks decoded |
| Bench.ClampSettings | redcli/main.cpp:553-563 | the sequence of range checks clamps every thread count and orders the two cache bounds |
| Bench.SettingsInRange | redcli/main.cpp:645-654 | the window is the largest of 1, cache_blocks_min and cache_blocks_max; the repeats are the configured ones but at least 1; encoding is on iff encode_enabled is not 0, decoding iff decode_enabled is not 0 either, the check iff check_enabled is not 0; clamping twice changes nothing |
| Bench.ThreadsInRange | redcli/main.cpp:553-560 | every phase gets 1 to 10 threads: a number within range is kept, a larger one becomes 10, a raster count below 1 becomes 1, and an encode or decode count below 1 becomes the raster count |
| Bench.EncodeRepeatedly | redcli/main.cpp:707-715 | any number of repeats encodes each block that is there that many times, and leaves it encoded once in the cache; bytes and times accumulate over the repeats |
| Bench.DecodeRepeatedly | redcli/main.cpp:722-730 | every slot with a valid digest and an encoding is decoded once per repeat and no other ever; the verdict over all repeats is the verdict of one, times accumulate, and the decode buffers alive stay within bounds throughout |
| Bench.Window.Rasterize | redcli/main.cpp:699-704 | fills an empty window with its blocks and digests; the log of what is alive is carried on and stays within bounds |
| Bench.Window.DropBitmaps | redcli/main.cpp:717-720 | afterwards no uncompressed bitmap of the window is alive |
| Bench.Window.Decode | redcli/main.cpp:722-733 | may start only on a window none of whose bitmaps is alive; verdict, time and log are as stated for the repeats |
| Bench.RunWindow | redcli/main.cpp:697-734 | the totals of a window are those of its blocks taken in order, each rasterized once; its log starts and ends with nothing alive, shows all blocks of the window once they have been rasterized, never more than its slots, and never bitmaps together with decode buffers |
| Bench.TotalsConcat | redcli/main.cpp:697-734 | the totals of two adjoining groups of rows add up to the totals of both together: cutting into windows changes nothing |
| Bench.RunColumn | redcli/main.cpp:697-734 | whatever the window size, a strip column reports the totals of its rows and rasterizes each of them once; its windows adjoin from the top row to the last, each logged as above |
| Bench.RunFormat | redcli/main.cpp:687-771 | a format accumulates the columns' averages, the multiset of its rasterize calls is columns times rows, each once, and every column is logged |
| Bench.FormatIsSummed | redcli/main.cpp:736-768 | a format's source and encoded bytes are sums over all blocks of the grid, each counted once; its encode and decode times, taken as often as there are repeats, are the sums of the elapsed times of all calls on all blocks worked on; a phase that is off contributes 0 |
| Bench.ReportIsExact | redcli/main.cpp:645-769 | the plan made from any settings leads to the report described at `Bench.RunFile` |
| Bench.RunFile | redcli/main.cpp:636-771 | for any settings, said of the settings alone: source bytes, encoded bytes and, times the repeats (1 if fewer are set), encode and decode times are the sums over the blocks of the grid and the repeats, 0 for a phase switched off; OK is false iff the format has an encoder, is not Brotli, encode_enabled, decode_enabled and check_enabled are not 0 and some block with pixels fails to decode or re-hashes differently; a format without an encoder contributes nothing; every other makes its own full set of rasterize calls and leaves a log of every window |
| Bench.FootprintBounded | redcli/main.cpp:697-733 | at no moment of a format's run are more than cache_blocks uncompressed blocks alive, nor more decode buffers than that (than ten with the check off), and bitmaps and decode buffers are never alive together |
| Bench.FileFootprint | redcli/main.cpp:652-733 | the same said of the settings: at no moment more bitmaps than any bound on 1, cache_blocks_min and cache_blocks_max, nor more decode buffers than that, or than ten when check_enabled is 0, and never both kinds at once |
| Bench.BlocksCoded | redcli/main.cpp:707-731 | in every window of a file each block there is is encoded, and each block with pixels decoded, once per repeat (1 if fewer are set) and never more; none is when the switches are off |
| Bench.WindowIsIssued | redcli/main.cpp:697-698 | the windows a column runs are those of the tiling: a slot is run exactly when it is issued |
| Bench.EveryPixelOnce | redcli/main.cpp:636-704 | every pixel of the image lies in the block of exactly one rasterize call of each format, and that call is made once |
| Bench.InputIdentity | redcli/main.cpp:697-768 | source bytes are the same for any two plans that rasterize alike, whatever their codec, switches, repeats, threads and window size |
| Bench.EncodedBytesIgnoreRepeat | redcli/main.cpp:739-767 | the averaged encoded size is the size of encoding every block once, for any number of repeats |
| Bench.FormatVerdict | redcli/main.cpp:729-769 | the OK flag of a format is exact: with decoding and the check on, and unless Brotli, it says that every block of the file with pixels decodes and re-hashes to its digest |
| Bench.OkMeansClose | redcli/main.cpp:433-450 | for such a format OK means that every block was reproduced, or differs in two places at least four bytes apart |
| Bench.FaithfulCodecIsOk | redcli/main.cpp:352-457 | a codec that undoes itself on every block of the file is reported OK under every setting |
| Tiling.AutoStripWidthIsLeast | redcli/main.cpp:579-582 | the automatic strip width is the least multiple of align_mode that is no less than cols times N plus rows |
| Tiling.BlockCountCovers | redcli/main.cpp:636-637 | block q exists exactly when its first pixel lies inside the image |
| Tiling.PixelHasOneSlot | redcli/main.cpp:692-699 | every pixel lies in exactly one column and one issued slot of one window, and they are named |
| Tiling.NoEmptyBlock | redcli/main.cpp:692-699 | every issued block contains a pixel of the image |
| BufferPool.PopReusableFindsTopmost | redcli/rle4k_buffer_mgr.cpp:27-35 | the buffer returned is the topmost that fits; what stays is the stack below it; what is deleted are exactly the smaller ones above, from the top down |
| BufferPool.PopReusableConserves | redcli/rle4k_buffer_mgr.cpp:27-35 | every buffer of the stack is returned, kept or deleted, exactly one of them |
| BufferPool.StepBalances | redcli/rle4k_buffer_mgr.cpp:17-95 | what a step adds to the places of a buffer (held, cached, deleted) it adds to the buffers made |
| BufferPool.StepKeepsInv | redcli/rle4k_buffer_mgr.cpp:10-111 | every step of any thread keeps conservation, cache discipline and the facts about the published size |
| BufferPool.RunKeepsInv | redcli/rle4k_buffer_mgr.cpp:10-111 | every run from a state that satisfies the invariant stays within it |
| BufferPool.EveryRunIsSound | redcli/rle4k_buffer_mgr.cpp:10-111 | every run from the start does: at most 4 normal and 2 big buffers per cache, kinds kept apart, every grant at least as large as asked, every new normal buffer no larger than the published size |
| BufferPool.CachesStaySmall | redcli/rle4k_buffer_mgr.cpp:10-12 | in every run no thread's cache holds more than 4 normal and 2 big buffers, and every buffer handed out is of the kind and at least the size asked for |
| BufferPool.FreedIsKeptOrDeleted | redcli/rle4k_buffer_mgr.cpp:37-40 | a freed buffer goes on top of the freeing thread's stack of its kind; with 4 normal or 2 big ones there already, the freed buffer itself is deleted and no cache changes |
| BufferPool.InitializeAndClear | redcli/rle4k_buffer_mgr.cpp:97-111 | a first initialization takes the size as it is, a further one only raises it, a clear sets it to 0, and neither moves a buffer |
| BufferPool.OnePlaceEach | redcli/rle4k_buffer_mgr.cpp:17-40 | a buffer that was made is in exactly one place, once; none is deleted twice, or while held or cached |
| BufferPool.NothingLeaks | redcli/rle4k_buffer_mgr.cpp:17-20 | once clients have freed everything and all threads have exited, what was deleted is exactly what was made |
| BufferPool.PublishedIsMaximum | redcli/rle4k_buffer_mgr.cpp:43-49 | when no allocation is under way the published size is the maximum of the size last set and all sizes it was to be raised to since, for every interleaving and any spurious failures |
| BufferPool.PublishedGrows | redcli/rle4k_buffer_mgr.cpp:43-111 | over every run without a clear an initialized pool stays initialized and its published size never falls |
| BufferPool.FailedSwapNarrows | redcli/rle4k_buffer_mgr.cpp:45-48 | a compare-and-swap that fails for a reason strictly narrows the distance left to raise |
| BufferPool.FreeThenAllocUndoes | redcli/rle4k_buffer_mgr.cpp:64-95 | while the cache has room, freeing a buffer and asking for no more than its size returns that very buffer and restores caches, clients' holdings and deletions |
| BufferPool.SoloNormalAlloc | redcli/rle4k_buffer_mgr.cpp:64-74 | undisturbed, a thread gets the topmost fitting buffer, or a new one of the published size after raising it; so the machine does what the sequential code does |
| BufferPool.SoloBigAlloc | redcli/rle4k_buffer_mgr.cpp:76-81 | a big allocation gets the topmost fitting big buffer, or a new one of exactly the size asked, whatever the published size is |
| BufferManager.TlsBufferCache.PopFitting | redcli/rle4k_buffer_mgr.cpp:27-35 | the loop pops and deletes exactly as the pool machine's stack function says |
| BufferManager.TlsBufferCache.Destroy | redcli/rle4k_buffer_mgr.cpp:17-20 | a thread's exit deletes every cached buffer once and empties both caches |
| BufferManager.GlobalBufferManager.AtomicRaiseSize | redcli/rle4k_buffer_mgr.cpp:43-49 | the retry loop terminates while other threads go on raising the size for ever, as long as only finitely many attempts fail for no reason, and ends with the maximum of the request and what the others have raised the size to meanwhile |
| BufferManager.GlobalBufferManager.NormalAlloc | redcli/rle4k_buffer_mgr.cpp:64-74 | result, cache, deletions, new buffers and published size after an allocation; a buffer returned is at least as large as asked |
| BufferManager.GlobalBufferManager.BigAlloc | redcli/rle4k_buffer_mgr.cpp:76-81 | the same for big buffers, which are made in exactly the size asked and leave the published size alone |
| BufferManager.GlobalBufferManager.Free | redcli/rle4k_buffer_mgr.cpp:87-95 | a freed buffer goes on top of the freeing thread's stack of its kind while that holds fewer than 4 normal or 2 big ones, otherwise it is itself deleted and the stack is left alone; null does nothing |
| BufferManager.GlobalBufferManager.Initialize | redcli/rle4k_buffer_mgr.cpp:104-111 | afterwards the pool is initialized, and an initialized pool's published size is never lowered |
| BufferManager.MemoryBufferSizeIs | redcli/rle4k_buffer_mgr.h:57-59 | the 32-bit computation gives the padded size of a block modulo 2^32, or 0 when the rounded width does not fit 32 bits |
| BufferManager.MemoryBufferSizeExact | redcli/rle4k_buffer_mgr.h:57-59 | so it gives the padded size exactly when that size and the rounded width fit 32 bits |
| BufferManager.PaddedRowIsLeast | redcli/rle4k_buffer_mgr.h:57-59 | the padded size is the height times the shortest row of whole 64-byte units that holds one bit per pixel |
| Text.NumberIsPlaceValue | redcli/rle4k_config.h:127 | any text reads as the sum of its leading digits, each (its character code less that of 0) times the power of ten of its place, behind any white space and with the sign in front of them; without digits as 0 |
| Text.AtoiIsPlaceValue | redcli/rle4k_config.h:127 | the same for atoi, which is defined exactly from -2147483648 to 2147483647 |
| Text.AtoiShowInt | redcli/rle4k_config.h:127 | atoi reads a printed integer back, whatever follows it that is no digit, exactly when it fits an int |
| IntScanner.ScanInts | redcli/rle4k_config.h:79-88 | the nested loops terminate and collect the values of the digit runs in order; the result is undefined exactly when a value does not fit an int |
| IntScanner.SpansAreMaximalRuns | redcli/rle4k_config.h:79-88 | the runs collected are exactly the maximal digit runs of the text |
| IntScanner.SpansFromLeftToRight | redcli/rle4k_config.h:79-88 | they are collected from left to right, with something between any two |
| IntScanner.SpansSpellValues | redcli/rle4k_config.h:86 | each value is the place value of its run: the sum of its digits times their powers of ten |
| IntScanner.ListRoundTrip | redcli/rle4k_config.h:79-88 | any list of naturals, printed with any non-empty digit-free separators, reads back, exactly when all of them fit an int |
| IntScanner.ParseFormats | redcli/main.cpp:522-531 | the splitter loop returns the numbers of the non-empty tokens, or nothing where `stoi` throws |
| IntScanner.FormatsAgree | redcli/main.cpp:522-531 | on comma-joined naturals, empty tokens allowed, the option is read exactly as the JSON array would be, and refused just when a number does not fit an int |
| IntScanner.StoiIsPlaceValue | redcli/main.cpp:529 | on any token stoi gives the place value of the digits behind white space and a sign, and throws exactly when there is no digit or the value is outside -2147483648 to 2147483647 |
| IntScanner.FormatsAreTokens | redcli/main.cpp:526-530 | whatever the comma-free tokens are, the option is cut at the commas that join them, and each non-empty token is read in turn |
| IntScanner.FormatsBehindBlanks | redcli/main.cpp:526-530 | the option `0, 1` selects the ids 0 and 1 |
| IntScanner.FormatNameIsRefused | redcli/main.cpp:526-530 | the option `gzip` is refused |
| Config.GetIntArray | redcli/rle4k_config.h:70-90 | the method computes the list that the two lemmas below characterize |
| Config.ArrayListsRuns | redcli/rle4k_config.h:70-90 | on any text: the list behind a key holds exactly the place values of the maximal digit runs between the first opening bracket behind the key and the next closing one, each once, from left to right |
| Config.NoBracketsNoList | redcli/rle4k_config.h:74-78 | without the key, or without such brackets behind it, the list is empty |
| Config.RunsOutOfText | redcli/rle4k_config.h:116-128 | a lookup indexes past the text exactly when the key is found, a colon follows it, and nothing but blanks follows the first one |
| Config.FoundUnlessMentioned | redcli/rle4k_config.h:118-119 | in any text at all, the search stops at an occurrence of a quoted key exactly when the text in front of it does not mention the key between quotes |
| Config.UnmentionedIsMissing | redcli/rle4k_config.h:118-119 | a key that a text does not mention is not found |
| AnyText.IntIsAtoi | redcli/rle4k_config.h:116-128 | on any text: behind a key not mentioned before, and the blanks (space, tab, return, newline) behind its colon, exactly the text up to the next comma, closing brace, return or newline is handed to atoi |
| AnyText.IntIsPlaceValue | redcli/rle4k_config.h:116-128 | so the lookup gives the signed place value of the digits there, leading zeros and trailing text allowed, or the overflow outcome outside -2147483648 to 2147483647 |
| AnyText.StripWidthIsRead | redcli/rle4k_config.h:116-128 | in the document `{"strip_width": 61952}` the key reads as 61952 |
| AnyText.StrIsQuoted | redcli/rle4k_config.h:100-115 | a quoted value reads as the text up to the next quote |
| AnyText.StrIsNotQuoted | redcli/rle4k_config.h:110-113 | a value that does not begin with a quote, or whose quote is never closed, reads as the empty string |
| AnyText.NoColonNoValue | redcli/rle4k_config.h:121-122 | without a colon behind the key the lookups give the default and the empty string |
| AnyText.CommentToTheEnd | redcli/rle4k_config.h:93-125 | so they do when a comment in front of the value runs to the end of the text |
| AnyText.ListIsRead | redcli/rle4k_config.h:70-90 | a list is read from what stands between its brackets on any text behind the key |
| AnyText.FormatsAreRead | redcli/rle4k_config.h:70-90 | in the document `{"formats": [5, 12]}` the list reads as 5 and 12 |
| RoundTrip.MentionsPrint | redcli/rle4k_config.h:118-119 | a printed document mentions a key exactly when an entry has that key, a string value reads like it, or a comment quotes it |
| RoundTrip.KeyFoundAtItsEntry | redcli/rle4k_config.h:118-119 | a key is found at its own entry, and never inside a longer key, a value or a comment, if and only if nothing printed in front of it spells the key |
| RoundTrip.LookupRoundTrip | redcli/rle4k_config.h:70-128 | every key not spelled in front of its entry reads back what was printed for it, in documents with any comments and layout: integers, which must fit an int, decimals truncated, strings and lists |
| RoundTrip.MissingKey | redcli/rle4k_config.h:100-128 | a key that nothing spells reads as the default, the empty string or the empty list |
| RoundTrip.ListInDocumentRoundTrip | redcli/rle4k_config.h:70-90 | a list printed with any separators reads back from within any document, exactly when its numbers fit an int |
| RoundTrip.MentionReadsNext | redcli/rle4k_config.h:118-127 | a comment that quotes a key in front of an entry makes the lookups of that key answer with that entry's value, whatever its key is |
| RoundTrip.ValueReadsNext | redcli/rle4k_config.h:118-127 | a string value that reads like a key makes them answer with the next entry's value |
| RoundTrip.CloudedKeyMisreads | redcli/rle4k_config.h:118-127 | a document in which `repeat` is printed as 5 and read as 1 |
| RoundTrip.CommentBeforeValueReadsZero | redcli/rle4k_config.h:93-97 | behind a comment between colon and value the value reads as 0, or as the empty string |
| RoundTrip.CommentedLookups | redcli/rle4k_config.h:93-128 | what the lookups answer in a document that puts any number of indented line comments between a colon and its value |
| RoundTrip.SurvivesUnlessCommented | redcli/rle4k_config.h:93-128 | in a document a value is read back if and only if no comment stands between it and its colon, or it is 0 (for strings, empty) |
| RoundTrip.CommentedValueIsLost | redcli/rle4k_config.h:93-128 | a document in which `repeat` is printed as 3 behind a comment and read as 0 |
| ConfigLoader.LookupIsValueFor | redcli/rle4k_config.h:116-128 | in a document whose comments and strings do not read like the key, a lookup gives the value of the first entry with the key, if it fits an int, or the default |
| ConfigLoader.EditChangesOneKey | redcli/rle4k_config.h:116-128 | rewriting one entry leaves the lookups of all other keys alone |
| ConfigLoader.LoadedIsPrinted | redcli/rle4k_config.h:149-174 | loading a document gives each of the 22 integer settings the value printed for it, if it fits an int, or the default of its lookup |
| ConfigLoader.UnmentionedSetting | redcli/rle4k_config.h:149-174 | a key the document leaves out keeps its documented default exactly when it is not one of twelve, which become 0 |
| ConfigLoader.EmptyDocument | redcli/rle4k_config.h:149-174 | the document `{}` sets encode_enabled and decode_enabled to 1, the cache bounds to 32 and 128, and each other integer setting to 0 |
| Formats.SelectFormats | redcli/main.cpp:586-588 | the loop maps the known ids in order and falls back to 0x4, 0x7, 0xB, 0xA, 0x8, 0xF when none is left |
| Formats.FormatOfId | redcli/rle4k_config.h:56-67 | ids 0 to 5 select 0x4, 0x7, 0xB, 0xA, 0x8 and 0xF, every other id is unknown |
| Formats.MappedInOrder | redcli/main.cpp:587 | the formats of two lists joined are those of the first followed by those of the second |
| Formats.MappedCounts | redcli/rle4k_config.h:56-67 | each known id is measured as often as it is listed, in a format no other id selects |
| Formats.NothingMapped | redcli/main.cpp:587-588 | the fallback is used exactly when no listed id is known |

## Left out

- The codecs and the rasterizer: only their headers are in the repository. `Blocks.Libraries` and the `rasterize` and
  `encode` parameters stand for them, as total deterministic functions; that decoding undoes encoding is assumed only
  where a lemma says so (`Blocks.RoundTrips`). Rasterizing gives nothing or a bitmap, and encoding gives a bitmap.
- Blocks.DecodePayload: a decompressor that would write past the end of its buffer is cut off there; in C++ that is
  undefined. The codec's own use of the buffer capacity is not modelled.
- Bench.RunFile: the decoder is chosen by the format under which the encoder is registered; the code asks the encoder
  for its format, and that the two agree is not modelled. Image sizes are naturals and block sizes positive, so layouts
  of negative extent, zero block sizes and window starts past INT_MAX are left out.
- Phases.RasterPhase.RasterizeSlot: rasterizing, charging the time and storing the digest are one atomic step. Only the
  worker itself touches these words before the join, so no other worker could tell the difference.
- Bench.Window: in the code the vectors of a window are local variables of the loop body; the model puts them into an
  object that keeps a log of what is alive, and moves the tests for the encode and decode switches into its methods.
  Encoded blocks are not counted.
- Wall-clock times, throughput and compression ratios, the console report and the CSV file. Elapsed times of single
  calls are arbitrary naturals; averages are exact reals.
- Exceptions thrown inside workers, which end the program.
- Reorderings of a weak memory model beyond the atomicity of single words.
- `initialize` and `clear` while allocations are under way: the code says they run between joins, and the machine lets
  them happen only then.
- Addresses: `get_object` and the step from a data pointer to its header. A buffer is a value with an identity, and
  `SystemHeap` numbers buffers in the order of creation; a foreign pointer passed to `free` is not modelled.
- BufferManager.GlobalBufferManager.AtomicRaiseSize: other threads only raise the size, as they do between joins; an
  attempt that fails for no reason for ever is excluded.
- Lookups of numbers that do not fit an int, where C leaves the result of `atoi` undefined, end in the outcome `Overflow`
  (in lists, in no result); what a platform does then is not modelled.
- RoundTrip.LookupRoundTrip: keys are letters, digits and underscores; string values hold no quote, lists no quote and no
  closing bracket; between a key and its colon stands no quote, colon or opening bracket; what follows a value starts with
  neither a letter, a digit nor an underscore. Comments between entries are free to hold anything else, quotes included.
  Nested objects are not among the documents.
- Lookups that index past the end of the text end in the outcome `OutOfText`; what the code finds there is not modelled.
- `json_get_double` and the one setting it reads, the string settings and the list of formats in `load_config`, which
  use the lookups modelled here; reading files, the search for a configuration file, the command line other than
  `--formats`, environment variables, loading layouts, scanning directories.
- The format factory and the wrappers around the compression libraries, which would only add easy members.
