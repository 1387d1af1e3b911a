# Kernel components of GeekOS and Kitten, modelled and proved in Dafny

The repository holds two small kernels, GeekOS (the guest and host environment of the
Palacios VMM) and Kitten (a lightweight kernel). This project models the parts of them
that keep state across calls and have a short abstract meaning, and proves that the code
has that meaning.

| part | files | main results |
|---|---|---|
| Inflate | `Bits`, `HuffmanCode`, `HuftTables`, `HuftInvariant`, `HuftPlacement`, `HuffmanLengths`, `HuftCorrect`, `HuftBuild`, `HuftUses`, `Deflate`, `DeflateTables`, `DeflateSteps`, `DeflateEncoding`, `InflateLookahead`, `InflateState`, `Inflate`, `InflateRoundTrip` | the linked lookup tables decode the canonical Huffman code of section 3.2.2 of RFC 1951, exactly when no table opens too wide; the whole decoder refines a reference decoder for RFC 1951, and fails where that succeeds exactly if a lookup runs past the input; whatever is written by the rules of RFC 1951 is read back |
| Buddy allocator | `BuddyHeap`, `BuddySteps`, `Buddy` | tiling, tags and lists in every reachable state; allocation fails only when no aligned free span exists; freeing undoes it |
| Symbol tables | `TokenTable`, `PairCounts`, `TokenRun`, `SymbolCompressor`, `KallsymsTool`, `SymbolImage`, `KernelSymbols`, `KallsymsRoundTrip` | the kernel's reader gives back every name that the build tool compressed |
| BGET heap | `BgetHeap`, `BgetMemory`, `BgetState`, `Bget` | boundary tags, free ring and pools in every reachable state; best fit; the allocated blocks determine the heap |
| Threads | `Threads`, `ThreadPlaces`, `ThreadInvariant`, `ThreadLocks`, `ThreadRefs`, `ThreadSteps`, `ThreadRuns`, `ThreadEnds`, `ThreadMoves`, `ThreadWaits`, `ThreadReturns` | mutual exclusion, no lost and no spurious wake-up, calls return with what they promise, one place for each thread, no failing assertion, in every run |
| Address spaces | `Aspaces`, `AspaceInvariant`, `AspaceSteps`, `AspaceRuns`, `AspaceRegions`, `AspaceEffects`, `AspaceCalls`, `AspaceLeaks` | the effect of every call; every SMARTMAP source outlives its mappings, when reference counts are exact, and no deadlock, in every interleaving |
| Resource tree | `ResourceTree`, `Resources` | order, nesting and links under request, release, insert and adjust |
| Physical memory | `Alignment`, `PmemMap`, `Pmem` | the region list as a map from addresses to attributes, with a canonical form; what allocation grants and when it fails, address by address |
| Boot memory | `Bootmem` | disjoint and aligned byte ranges below the limit, by first fit, over every run of allocations |
| Bitmaps | `Bitmaps`, `DecimalText`, `BitmapList`, `BitmapSyntax`, `BitmapRemap` | which texts are accepted and what they mean; parsing undoes printing, but for the empty bitmap; remapping is an order-preserving bijection |

State that the C code updates in place is a class (`Inflater`, `Mempool`, `Compressor`,
`Allocator`, `ResourceMap`, `PhysicalMemory`, `BootAllocator`), and its loops are methods
proved against functions on values. The two concurrent parts are systems of atomic steps.
Their runs range over all interleavings of callers that keep to the interface: a thread locks
only a mutex that it does not hold, releases or waits with one that it holds, and joins a
thread that it owns once; an aspace is released only after it was acquired.
Pointers into linked structures are numbers that index the fields; a linked list is a
sequence together with the links that represent it (BGET's ring, the resource tree) or a
sequence alone (thread queues, the buddy lists, the physical memory list).

## Where a property fails, and exactly when it holds

- `huft_build`: the tables decode the canonical code if and only if no table is opened for
  a code that needs more than `l` further bits (`HuftCorrect.DecodesIffNotWide`). With
  code lengths 1, 3, 3, 3, 3 and one-bit tables they do not (`HuftUses.WideExample`). None
  of the decoder's own calls can reach such a case (`HuftUses.CallSites`).
- The fast copy in `inflate_codes` calls `memcpy` on overlapping regions exactly when the
  distance is less than the window size by less than the chunk
  (`Inflate.FastCopyOverlap`). With distances up to 32768 and chunks up to 258 bytes, this
  is possible exactly for windows below 33026 bytes, the smallest being 32768
  (`Inflate.FastCopyWindows`). The only program that includes the decoder has a window of
  2^31 bytes, where it never happens (`Inflate.FastCopyApart`).
- The decoder looks ahead and can fail on input that ends too early for that, although the
  data are complete. It does so exactly if some code, of a block with its own codes, is looked
  up with fewer bits left than the tables look at, which the code lengths determine
  (`Inflate.Inflater.Run`, `HuftTables.WalkLooks`). With a one-bit code for the end of block,
  two codes of two bits and one bit left it fails (`InflateLookahead.EndsTooEarly`). Blocks in
  the fixed codes never fail for this (`InflateLookahead.FixedFed`), and neither does input
  with 16 bits behind the last block (`InflateLookahead.AmpleFeeds`).
- The decoder reports missing input, by returning 4, exactly if it is missing in a header, in code
  lengths or in stored bytes. In data in Huffman codes it reports bad data
  (`Inflate.Inflater.Run`, `Inflate.Inflater.InflateFixed`).
- The symbol compressor picks the pair (0, 0) when no pair occurs any more. Slot 0 then
  refers to itself and writing the table never ends. It ends exactly when some compressed
  symbol uses code 0 (`TokenRun.FinishedIff`). That is so whenever there are 256 different
  names (`TokenRun.ManyNames`), and never so if the names have no more characters in all than
  there are codes which no name uses (`TokenRun.FewCharacters`), for instance for the single
  name "ab" (`KallsymsRoundTrip.OneNameRunsDry`).
- `aspace_del_region` deletes a SMARTMAP region without dropping the reference on its
  source. A count is the number of acquires, mappings and such deletions, and so it is exact
  if and only if no deletion took out a mapping of that aspace (`AspaceLeaks.ExactIff`). A run
  that maps and then deletes ends with a count of 1 and nothing that refers to the aspace
  (`AspaceLeaks.LeakRun`). From then on no destroy of it succeeds
  (`AspaceLeaks.LeakedForever`).
- `bget` computes the block size in a 32-bit word. The size is right exactly for requests up to
  2^31 - 12; beyond that it is negative, and every free block counts as large enough
  (`Bget.MachineNeedIs`, `Bget.MachineNeedExample`).
- `adjust_resource` accepts a size of 0, or a size that wraps around, and then leaves a
  resource that ends before it starts (`Resources.AdjustToNothing`). The tree stays in order
  if and only if the call fails or the computed end is not below the start.
- `merge_pmem_list` merges neighbours with different names and not those with equal names.
  It keeps the map if and only if no two neighbours to be merged are named
  (`PmemMap.MergeKeepsIff`). `PmemMap.NamesExample` has two regions of either kind. All but
  the names is kept in any case (`PmemMap.MergeKeepsRest`).
- `__pmem_alloc` makes no progress after a candidate that is empty once its start is
  aligned, and it can trip its own assertion when the candidates run up to the end of the
  constraint. `Pmem.PhysicalMemory.Alloc` says exactly when: the first matching entry that has
  room or has no aligned address decides between success and no end, and without such an
  entry the assertion fires exactly if matching memory goes on to the end of the constraint.
  `Pmem.BugExample` and `Pmem.StuckExample` are requests of either kind.
- `__pmem_alloc` rounds up in 64-bit arithmetic. What it grants lies in the constraint and has
  the attributes that were asked for if and only if rounding up the start of the entry found
  does not wrap around (`Pmem.OutcomeMeans`). `Pmem.WrapExample` asks for memory in the last
  2 KB of the address space and gets the first page.
- The page scan of `__alloc_bootmem_core` goes on one increment behind the aligned end of a
  run that is too short, and so passes over a candidate. It misses nothing if the increment
  or the area is one page (`Bootmem.ScanComplete`); for all others there is a bitmap whose
  only fitting area it misses (`Bootmem.ScanSkips`).
- `__alloc_bootmem_core` with alignment 0 hands out bytes twice when it joins a range to the
  last page; `Bootmem.ZeroAlignmentOverlaps` makes two such calls. The new range is apart from
  all others if and only if the alignment is not 0 or the page found is not the one behind the
  page in use, or that page has no rest.
- `__alloc_bootmem_core` drops a limit of less than a page; memory is below the limit for every
  other one (`Bootmem.LastPageIs`, `Bootmem.BootAllocator.Alloc`). `Bootmem.SmallLimitIgnored` is
  a call.
- `bitmap_parselist` takes numbers modulo 2^32. A number that is too large for the mask is
  reported if and only if it is below 2^32 or still too large modulo 2^32
  (`BitmapSyntax.TooLargeReported`); 2^32 itself is accepted as bit 0
  (`BitmapSyntax.HugeAccepted`).
- `bitmap_parselist` does not accept what `bitmap_scnlistprintf` prints for the empty bitmap. For
  all others it gives the bitmap back (`BitmapList.PrintThenParse`).

## Model

| member | source | states |
|---|---|---|
| HuffmanCode.StartIsNextCode | kitten/lib/inflate.c:400-419 | the interval in which the codes of length k begin starts at the next_code of section 3.2.2 of RFC 1951, shifted to full width |
| HuffmanCode.CodeInterval | kitten/lib/inflate.c:400-419 | a code of length k owns an interval of bit patterns, and every pattern in it has that length and that rank |
| HuftTables.WalkDecodes | kitten/lib/inflate.c:574-583 | walking finished tables, none of them wide, gives on every bit stream the symbol and the number of bits of the canonical code |
| HuftTables.LooksBound | kitten/lib/inflate.c:574-583 | the tables look at no less than the code and at most 16 bits beyond it |
| HuftTables.WalkLooks | kitten/lib/inflate.c:426-442 | finished tables, none of them wide, look at exactly as many bits as the code lengths determine: to the end of the longest code behind the same bits, or of a full table |
| HuftBuild.LookBitsBound | kitten/lib/inflate.c:426-442 | that is no less than the code, less than a table beyond it, and no more than the longest code |
| HuftCorrect.DecodesIffNotWide | kitten/lib/inflate.c:419-471 | the tables decode every stream correctly if and only if no table is opened for a code longer than its width allows |
| HuftPlacement.TableBits | kitten/lib/inflate.c:426-442 | the width of a new table is the smallest that holds all codes under the prefix, or l bits, unless the code at hand needs more |
| HuftPlacement.FillEntries | kitten/lib/inflate.c:491-494 | exactly the entries whose low bits are the code get the entry |
| HuftPlacement.BackIncrement | kitten/lib/inflate.c:496-499 | adds one to the code read with its first bit as the most significant |
| HuftPlacement.OpenTables | kitten/lib/inflate.c:419-471 | opens and links tables until the code fits, keeping the invariant on finished entries |
| HuftPlacement.BackUp | kitten/lib/inflate.c:501-506 | leaves the finished tables, and the tables that remain are those of the next code |
| HuftPlacement.PlaceCode | kitten/lib/inflate.c:415-508 | after one code all patterns up to the next code are served |
| HuftPlacement.BuildTables | kitten/lib/inflate.c:400-510 | every entry of every table is right: it names the code that owns its patterns or links to the table for exactly these patterns |
| HuftBuild.CountLengths | kitten/lib/inflate.c:330-338 | the number of codes of each length |
| HuftBuild.FindWidths | kitten/lib/inflate.c:349-363 | the shortest and the longest length in use, and the requested table width or the nearer of the two |
| HuftBuild.FillOut | kitten/lib/inflate.c:367-377 | fails if and only if there are more codes than patterns; otherwise the counts are filled to a complete code, and nothing is added exactly for a complete one |
| HuftBuild.Offsets | kitten/lib/inflate.c:381-386 | offsets into the sorted values are sums of counts |
| HuftBuild.SortValues | kitten/lib/inflate.c:390-396 | the symbols that have a code, sorted by length and then by number |
| HuftBuild.Build | kitten/lib/inflate.c:279-520 | returns 2 exactly for no codes or too many, 1 exactly for an incomplete code of more than one bit; otherwise the tables decode every stream canonically if and only if no table opens too wide, and then look at exactly the bits that the lengths determine |
| HuftUses.TwoLevelsNotWide | kitten/lib/inflate.c:419-471 | with a longest code of at most 2 l bits no table opens too wide |
| HuftUses.SmallCompleteNotWide | kitten/lib/inflate.c:419-471 | a complete code of fewer than 2^(want+1) symbols opens no table too wide |
| HuftUses.CallSites | kitten/lib/inflate.c:855-944 | complete codes of at most 286 lengths with 9 bits, 30 with 6 bits and 19 with 7 bits open no table too wide |
| HuftUses.WideExample | kitten/lib/inflate.c:419-471 | lengths 1, 3, 3, 3, 3 with one-bit tables are a complete code that opens a table too wide |
| InflateState.FetchByte | kitten/lib/inflate.c:229-231 | moving a byte into the bit buffer keeps the stream of unread bits |
| InflateState.PeekBits | kitten/lib/inflate.c:229-231 | looking at buffered bits and dumping them is looking at the stream and advancing it |
| Bits.ShiftIsDivision | kitten/lib/inflate.c:229-231 | shifts and masks, which the model defines bit by bit, are quotient, product and remainder by powers of two |
| Inflate.Inflater.NeedBits | kitten/lib/inflate.c:229-231 | keeps the unread bits, and succeeds exactly if there are that many |
| Inflate.Inflater.NextCode | kitten/lib/inflate.c:574-583 | reads one code through the linked tables; reports missing input if and only if fewer bits are left than the tables look at, and otherwise an invalid code only for one |
| Inflate.Inflater.Memcpy | kitten/arch/x86_64/boot/compressed/misc.c:287-294 | copies bytes upwards, overlaps included |
| InflateState.CopyUpIsMatch | kitten/lib/inflate.c:621-642 | copying upwards inside the window is out[i] = out[i - distance] |
| Inflate.Inflater.CopyChunk | kitten/lib/inflate.c:622-641 | one chunk, fast or slow, extends the output by the next bytes of the back reference, with a flush at the end of the window |
| Inflate.Inflater.CopyString | kitten/lib/inflate.c:617-642 | the chunked copy equals byte-by-byte copying for every length and every distance up to 32768, across overlaps, wrap and flushes |
| Inflate.FastCopyOverlap | kitten/lib/inflate.c:622-630 | the unsigned test lets memcpy run on overlapping regions if and only if n - e < distance < n for window size n and chunk e |
| Inflate.FastCopyWindows | kitten/lib/inflate.c:622-630 | a copy that the decoder can ask for runs memcpy on overlapping regions for some position if and only if the window has fewer than 33026 bytes |
| Inflate.FastCopyApart | kitten/arch/x86_64/boot/compressed/misc.c:116 | in the window of 2^31 bytes the fast copy never overlaps |
| Inflate.Inflater.ReadMatch | kitten/lib/inflate.c:600-618 | length and distance with their extra bits, as the reference decoder reads them; missing input if and only if the reference lacks bits or the distance lookup does |
| Inflate.Inflater.InflateCodes | kitten/lib/inflate.c:546-657 | succeeds if and only if the reference decoder does and no lookup runs past the input; then the output and the unread bits are those of the reference; returns 4 exactly for missing input, such a lookup included, and 1 otherwise |
| InflateLookahead.AmpleFeeds | kitten/lib/inflate.c:1039-1084 | with 16 bits left behind the last block no lookup runs past the input |
| InflateLookahead.FixedTight | kitten/lib/inflate.c:740-759 | the tables of the fixed codes look at no more than the code itself |
| InflateLookahead.FixedFed | kitten/lib/inflate.c:722-780 | where the reference decodes a block in the fixed codes, no lookup runs past the input |
| InflateLookahead.EndsTooEarly | kitten/lib/inflate.c:574-583 | lengths and a stream of one bit that the reference decodes and on which the decoder looks for a second bit |
| Inflate.Inflater.InflateStored | kitten/lib/inflate.c:661-716 | succeeds if and only if the reference copies a stored block, with its output and its unread bits; returns 4 exactly for missing input and 1 for a wrong complement |
| Inflate.Inflater.InflateFixed | kitten/lib/inflate.c:722-780 | succeeds if and only if the reference decodes a block in the fixed codes, with its output; returns 1 for every failure |
| DeflateSteps.FixedCodesUsable | kitten/lib/inflate.c:740-759 | the fixed literal code is complete, the distance code is not, and neither opens a table too wide |
| Inflate.Inflater.ReadCodeLengths | kitten/lib/inflate.c:841-849 | the code length lengths in their fixed order, zero for those not sent |
| Inflate.Inflater.ReadLengthList | kitten/lib/inflate.c:865-915 | succeeds if and only if the reference does and no code length is looked up with fewer bits left than the longest code has; then the lengths and the unread bits are those of the reference; 4 exactly for missing input |
| Inflate.UsableNotWide | kitten/lib/inflate.c:930-959 | a literal code with 9 bits or a distance code with 6 bits that the decoder accepts opens no table too wide |
| DeflateTables.LengthTable | kitten/lib/inflate.c:172-178 | base and extra bits of every length code by the rule behind the table: groups of four with one more extra bit from group to group, 258 by itself, two unused |
| DeflateTables.DistanceTable | kitten/lib/inflate.c:179-186 | the same for distance codes, in groups of two |
| DeflateTables.LengthCode | kitten/lib/inflate.c:172-178 | every length from 3 to 258 has exactly one code below 285 |
| DeflateTables.DistanceCodeOf | kitten/lib/inflate.c:179-186 | every distance from 1 to 32768 has exactly one code |
| DeflateTables.RepeatTable | kitten/lib/inflate.c:881-909 | symbol 16 repeats 3 to 6 times, and 17 and 18 tile the runs of zeros from 3 to 138 |
| DeflateTables.OrderTable | kitten/lib/inflate.c:170-171 | the order of the code length codes: the repeat symbols, 0, then outwards from 8 |
| DeflateTables.FixedCode | kitten/lib/inflate.c:740-752 | the lengths and the codes of all literals and lengths in the fixed code as section 3.2.6 of RFC 1951 lists them |
| DeflateTables.FixedDistance | kitten/lib/inflate.c:755-761 | the fixed distance codes are the numbers in five bits |
| DeflateEncoding.SymbolRead | kitten/lib/inflate.c:574-583 | a code written first bit first is the only code that the bits begin with |
| DeflateEncoding.CopyOf | kitten/lib/inflate.c:600-618 | every length and distance can be written |
| DeflateEncoding.TokensRead | kitten/lib/inflate.c:546-657 | bytes and copies written in any two codes, and the end of block, are decoded to exactly what they stand for |
| DeflateEncoding.LengthsRead | kitten/lib/inflate.c:865-915 | code lengths, repeats and runs of zeros written in any code are read back |
| DeflateEncoding.DynamicRead | kitten/lib/inflate.c:786-984 | a block with its own codes, written with its header, is decoded to what it stands for |
| DeflateEncoding.StoredRead | kitten/lib/inflate.c:661-716 | a stored block is read back |
| DeflateEncoding.BlocksRead | kitten/lib/inflate.c:1039-1084 | every sequence of blocks of any kind is decoded to exactly what it stands for, and the bits behind it are left |
| Inflate.Inflater.InflateDynamic | kitten/lib/inflate.c:786-984 | succeeds if and only if the reference decodes a block with its own codes and no lookup runs past the input; the output is then that of the reference; returns 4 exactly if input is missing in the header or the code lengths, 2 exactly if a code is empty or has too many codes, and 1 for the rest |
| Inflate.Inflater.InflateBlock | kitten/lib/inflate.c:988-1035 | the final flag and the block: succeeds if and only if the reference does and no lookup runs past the input; the output is then that of the reference; 4 exactly for missing input outside of Huffman codes, 2 exactly for a block of type 3 or such a code |
| Inflate.Inflater.Run | kitten/lib/inflate.c:1039-1084 | succeeds if and only if the reference decodes all blocks and no lookup runs past the input; the output is then exactly that of the reference, and unused bytes are given back; returns 4 exactly if input is missing outside of the data in Huffman codes, and 2 exactly for a block of type 3 or a code that is empty or has too many codes |
| InflateRoundTrip.InflateWritten | kitten/lib/inflate.c:1039-1084 | on blocks written by these rules, with 16 bits behind them, the decoder succeeds, gives back their bytes and hands back the input behind them |
| BuddyHeap.BuddyPair | kitten/mm/buddy.c:67-83 | find_buddy is its own inverse and gives the other half of the block of the next order |
| BuddyHeap.BuddyStartsBlock | kitten/mm/buddy.c:226-239 | in every tiled pool the buddy's address starts a block of at most the same order |
| Buddy.BuddyTag | kitten/mm/buddy.c:33-65 | the tag at the buddy's address is set exactly if a free block starts there, in spite of stale tags inside merged blocks |
| BuddyHeap.FreeSpanInOneBlock | kitten/mm/buddy.c:226-247 | without two free buddies of equal order, an aligned span of free memory lies inside one free block |
| BuddyHeap.FreeBlocksUnique | kitten/mm/buddy.c:226-247 | in pools without two free buddies the free bytes determine the free blocks |
| BuddySteps.SplitTiled | kitten/mm/buddy.c:183-192 | splitting a block keeps the pool tiled by aligned, disjoint blocks |
| BuddySteps.MergeTiled | kitten/mm/buddy.c:240-244 | merging two free buddies keeps the pool tiled |
| BuddySteps.GiveCoalesced | kitten/mm/buddy.c:246-247 | a block whose buddy is not free in the same order leaves no two free buddies |
| Buddy.Init | kitten/mm/buddy.c:104-145 | fails exactly if the smallest block does not fit the pool; a new pool has no free memory |
| Buddy.Mempool.OwnerWrites | kitten/mm/buddy.c:33-65 | any change of memory that keeps the headers of free blocks keeps the allocator valid |
| Buddy.Mempool.Alloc | kitten/mm/buddy.c:159-197 | succeeds if and only if an aligned free span of that order exists; the block was free and exactly its bytes stop being free |
| Buddy.Mempool.Free | kitten/mm/buddy.c:208-248 | for an aligned range of whole owned blocks: exactly its bytes become free, its tag is clear as BUG_ON demands, and no two free buddies remain |
| Buddy.AllocThenFree | kitten/mm/buddy.c:159-248 | freeing what was just allocated gives back the same free and owned blocks |
| TokenTable.GoodStable | kitten/scripts/kallsyms.c:430-446 | filling an empty slot changes the expansion of no code that can be expanded |
| TokenTable.PairIsGood | kitten/scripts/kallsyms.c:439-442 | a pair of expandable codes in the next slot can be expanded, to the two expansions in order |
| TokenTable.ReplaceExpands | kitten/scripts/kallsyms.c:365-404 | replacing a pair by its code keeps what a symbol stands for |
| PairCounts.CountedIffPresent | kitten/scripts/kallsyms.c:329-344 | a pair is counted exactly if it occurs |
| SymbolCompressor.FindPair | kitten/scripts/kallsyms.c:375-395 | the first occurrence of the pair in the bytes searched |
| SymbolCompressor.ReplaceInPlace | kitten/scripts/kallsyms.c:382-399 | the loop over memmem and memmove replaces all occurrences from left to right, although the count of remaining bytes runs past the end of the symbol |
| SymbolCompressor.LearnSymbol | kitten/scripts/kallsyms.c:329-335 | adds the symbol's pair counts to the profit table |
| SymbolCompressor.ForgetSymbol | kitten/scripts/kallsyms.c:338-344 | subtracts them |
| KallsymsTool.FindBestToken | kitten/scripts/kallsyms.c:407-421 | the first of the most frequent pairs |
| KallsymsTool.Compressor.CompressSymbols | kitten/scripts/kallsyms.c:365-404 | the pair is replaced in every symbol, and the profit table is again the exact count of all pairs |
| KallsymsTool.Compressor.InsertRealSymbols | kitten/scripts/kallsyms.c:451-465 | exactly the codes that occur in symbols stand for themselves |
| KallsymsTool.Compressor.OptimizeResult | kitten/scripts/kallsyms.c:424-448 | every compressed symbol expands to its name; either every slot expands, to no more than the longest name, or no pair was left and slot 0 is the pair (0, 0) |
| KallsymsTool.Compressor.OptimizeTokenTable | kitten/scripts/kallsyms.c:467-480 | fails exactly without symbols; otherwise the finished table and symbols are as stated for the previous row |
| TokenRun.FinishedIff | kitten/scripts/kallsyms.c:225-248 | all slots of the finished table expand if and only if some compressed symbol uses code 0, and otherwise the expansion of code 0 never ends |
| TokenRun.ManyNames | kitten/scripts/kallsyms.c:424-448 | with at least 256 different names the compressor never runs out of pairs |
| TokenRun.FewCharacters | kitten/scripts/kallsyms.c:424-448 | if the names have no more characters in all than there are codes which no name uses, slot 0 gets the pair (0, 0) |
| SymbolImage.ExpandSymbol | kitten/scripts/kallsyms.c:225-248 | the recursive expansion gives the characters that the codes stand for |
| SymbolImage.WriteNames | kitten/scripts/kallsyms.c:287-305 | length bytes and codes of all symbols, and a marker with the offset of every 256th |
| SymbolImage.WriteTokens | kitten/scripts/kallsyms.c:309-322 | the expansion of every code ended by a zero, and its offset in 16 bits |
| SymbolImage.TokensFit | kitten/scripts/kallsyms.c:309-322 | with names of at most 255 characters no offset overflows 16 bits |
| SymbolImage.WriteSource | kitten/scripts/kallsyms.c:250-323 | with names of at most 255 characters and code 0 in use, the tables that are written encode the symbols |
| KernelSymbols.ExpandAt | kitten/kernel/kallsyms.c:73-108 | at the offset of symbol i: its expanded name without the first character, and the offset of symbol i + 1 |
| KernelSymbols.GetSymbolOffset | kitten/kernel/kallsyms.c:114-131 | the offset of symbol i |
| KernelSymbols.NameRead | kitten/kernel/kallsyms.c:73-131 | a table entry that expands to a name gives that name without its type character; used by the next row |
| KallsymsRoundTrip.NameRoundTrip | kitten/kernel/kallsyms.c:73-131 | compressing, writing, finding the offset and expanding in a row: if writing ends, the kernel reports name i of the input without its type character; it ends if and only if code 0 is used, always for 256 different names and never for few characters |
| KallsymsRoundTrip.OneNameRunsDry | kitten/scripts/kallsyms.c:424-448 | for the single name "ab" the tool ends with slot 0 standing for itself twice |
| KernelSymbols.LookupName | kitten/kernel/kallsyms.c:136-149 | the address of the first symbol with that name, 0 if there is none |
| KernelSymbols.FindSymbol | kitten/kernel/kallsyms.c:172-186 | the first of the symbols at the greatest address not above the given one; symbol 0 if all are above |
| KernelSymbols.FindEnd | kitten/kernel/kallsyms.c:191-197 | the next greater address, or 0 if there is none |
| KernelSymbols.Lookup | kitten/kernel/kallsyms.c:154-216 | finds a symbol exactly between the bounds of the kernel or of one of its three text sections; its name, its size up to the next symbol or to the end of the section, and the offset in 64-bit arithmetic |
| KernelSymbols.LookupInside | kitten/kernel/kallsyms.c:182-211 | an address between two symbols lies inside the one that is reported |
| BgetHeap.Covered | geekos/src/geekos/bget.c:1035-1053 | every byte of a pool up to its sentinel lies in a block |
| BgetHeap.Determined | geekos/src/geekos/bget.c:877-943 | two heaps without adjacent free blocks that have the same pools and allocated blocks are equal |
| BgetMemory.SetPrev | geekos/src/geekos/bget.c:940-943 | writing the back link behind a block makes all back links right again |
| BgetMemory.UnlinkRing | geekos/src/geekos/bget.c:673-676 | both neighbours of a listed block link to it, and dechaining it leaves the ring of the others |
| BgetMemory.AppendRing | geekos/src/geekos/bget.c:898-903 | chaining a block at the end keeps the ring |
| Bget.Allocator.FindBest | geekos/src/geekos/bget.c:610-629 | the first in the ring of the smallest free blocks that are large enough, or the list head exactly if none is |
| Bget.MachineNeedIs | geekos/src/geekos/bget.c:589-601 | the block size in 32-bit words is right if and only if the request is at most 2^31 - 12; beyond that it is negative and every free block passes the test |
| Bget.MachineNeedExample | geekos/src/geekos/bget.c:589-613 | for a request of 2^31 - 11 bytes a block of 24 bytes passes |
| Bget.Allocator.Get | geekos/src/geekos/bget.c:576-756 | overflows exactly for requests above 2^31 - 12; otherwise null exactly if no free block is large enough, or else the end of a best-fitting block, or all of it, is allocated; no assertion fails and the contents of all allocated blocks stay |
| Bget.Allocator.Release | geekos/src/geekos/bget.c:827-970 | exactly the block stops being allocated, no two free blocks are adjacent, no assertion fails, and the contents of all other blocks stay |
| Bget.Allocator.AddPool | geekos/src/geekos/bget.c:991-1054 | the new pool is one free block and a sentinel, and the rest of the heap stays |
| Bget.Allocator.Resize | geekos/src/geekos/bget.c:792-823 | overflows as above; otherwise null, without any change, exactly if there is no room, or else the new block holds the first bytes of the old one, which is released, and the contents of all others stay |
| Bget.Allocator.OwnerWrites | geekos/src/geekos/bget.c:503-526 | writing into an allocated block touches no header and no link |
| Bget.ReleaseUndoesGet | geekos/src/geekos/bget.c:576-970 | releasing what was just allocated gives back the same blocks |
| Threads.FindBest | geekos/src/geekos/kthread.c:365-375 | the first thread of the highest priority |
| ThreadInvariant.SomebodyRunnable | geekos/src/geekos/kthread.c:522-566 | the run queue is not empty when the scheduler selects |
| ThreadSteps.LocalStep | geekos/src/geekos/synch.c:38-98 | every statement that changes only the flags and the program point keeps the invariant |
| ThreadSteps.StepKeeps | geekos/src/geekos/synch.c:38-98 | every statement of every thread and every interrupt keeps the invariant on places, switches, mutexes, waiters and references |
| ThreadRuns.RunKeeps | geekos/src/geekos/kthread.c:427-452 | the invariant holds in every state of every run from the initial one |
| ThreadRuns.MutualExclusion | geekos/src/geekos/synch.c:54-98 | at most one thread is between taking and giving up a mutex, and for running code IS_HELD is true exactly if it is that thread |
| ThreadRuns.FreeMutexTested | geekos/src/geekos/synch.c:61-64 | if a mutex is free and has waiters, a woken thread will test it again, or the running thread is about to test it or to wake a waiter |
| ThreadRuns.NoLostSignal | geekos/src/geekos/synch.c:167-203 | from the release of the mutex in Cond_Wait on, no other thread runs before the waiting thread is on the condition's queue |
| ThreadRuns.OnePlace | geekos/src/geekos/kthread.c:492-749 | no thread is on two queues or twice on one, destroyed threads are on none, and every live thread that is not running is on the queue that its place names |
| ThreadEnds.ReapedOnce | geekos/src/geekos/kthread.c:162-200 | a thread is destroyed at most once, after it has exited and, if it has an owner, was joined, and it is never the running one, so no stack in use is freed |
| ThreadEnds.ExitedPlace | geekos/src/geekos/kthread.c:584-616 | an exited thread that does not run is runnable in its destructors, awaits its join, is in the graveyard or with the reaper, or is destroyed |
| ThreadMoves.SignalWakes | geekos/src/geekos/synch.c:285-291 | a signal takes exactly the first waiter of the highest priority off the queue and puts it behind all runnable threads; all else stays |
| ThreadMoves.BroadcastWakes | geekos/src/geekos/synch.c:297-303 | a broadcast, or an event, makes all waiters runnable in their order |
| ThreadMoves.UnlockWakes | geekos/src/geekos/synch.c:86-97 | giving up a mutex with waiters does the same for one of them |
| ThreadMoves.ScheduleRuns | geekos/src/geekos/kthread.c:522-566 | the scheduler switches to the first runnable thread of the highest priority |
| ThreadMoves.ParkQueues | geekos/src/geekos/kthread.c:572-582 | a waiting or yielding thread goes to the end of its queue |
| ThreadMoves.PreemptRuns | geekos/src/geekos/kthread.c:492-566 | a preempted thread goes behind all runnable ones before the next is chosen |
| ThreadMoves.StartRuns | geekos/src/geekos/kthread.c:78-147 | a new thread is the last runnable one, with one reference, or two if it has an owner |
| ThreadMoves.ExitWakes | geekos/src/geekos/kthread.c:584-616 | exit makes all joining threads runnable, drops a reference, and with the last one buries the thread and wakes the reaper |
| ThreadMoves.JoinDetaches | geekos/src/geekos/kthread.c:623-648 | join waits exactly while the thread is alive, and then drops the reference of the owner |
| ThreadMoves.ReaperMoves | geekos/src/geekos/kthread.c:318-359 | the reaper takes the whole graveyard, destroys the threads in order, and waits only for an empty one |
| ThreadWaits.WaitsUntilWoken | geekos/src/geekos/kthread.c:692-749 | a waiting thread stays on its queue until the one kind of step that wakes it: there are no spurious wake-ups |
| ThreadWaits.SignalReaches | geekos/src/geekos/synch.c:167-203 | from the release of the mutex in Cond_Wait on, the next broadcast, or signal to a single waiter, makes the thread runnable |
| ThreadWaits.NoLostJoin | geekos/src/geekos/kthread.c:584-648 | whoever waits for the end of a thread waits for one that is alive or is still to wake its waiters |
| ThreadWaits.NoLostReap | geekos/src/geekos/kthread.c:181-187 | the reaper never waits while there is a thread in the graveyard |
| ThreadReturns.CallPromises | geekos/src/geekos/synch.c:117-203 | what each call promises from its entry on |
| ThreadReturns.ReturnsWith | geekos/src/geekos/synch.c:117-203 | Mutex_Lock and Cond_Wait return with the mutex held, Mutex_Unlock without it, and Join after the thread has exited, whatever others do in between |
| ThreadReturns.OwnProgress | geekos/src/geekos/synch.c:38-98 | every statement brings the running thread nearer to its return or its next wait |
| ThreadRuns.ChecksNeverFail | geekos/src/geekos/synch.c:38-98 | wherever the assertions on interrupts, preemption, ownership of mutexes and threads, reference counts and the run queue are evaluated they hold, and an exited thread never resumes |
| AspaceInvariant.NoDeadlock | kitten/mm/aspace.c:110-158 | if a processor waits for a lock, one that holds a lock can go on |
| AspaceRuns.RunKeeps | kitten/mm/aspace.c:306-400 | in every state of every interleaving: lock ownership, the hash table, and each count equal to acquires, mappings and leaked references |
| AspaceRuns.SourceOutlives | kitten/mm/aspace.c:839-878 | the source of every SMARTMAP region, half-destroyed aspaces included, is in the table, and its count is exactly its acquires, mappings and leaked references |
| AspaceLeaks.ExactIff | kitten/mm/aspace.c:602-629 | in every state of every run a count exceeds acquires and mappings by the number of deletions that took out a mapping of the aspace, and so it is exact if and only if there was none |
| AspaceLeaks.LeakRun | kitten/mm/aspace.c:602-629 | a run that maps one aspace into another and deletes the region: the count is 1 and nothing refers to the aspace |
| AspaceLeaks.LeakedForever | kitten/mm/aspace.c:318-327 | after such a deletion the aspace stays in the table with a positive count for ever, and every destroy that tests it is refused |
| AspaceRegions.RegionsApart | kitten/mm/aspace.c:471-559 | in every state of every run the regions of every aspace are sorted and do not overlap |
| AspaceRegions.CutIsUnmap | kitten/mm/aspace.c:602-629 | in a sorted list, deleting by the bounds of the first mapping of an aspace takes out that mapping and nothing else |
| AspaceRegions.UnmapDeletes | kitten/mm/aspace.c:913-931 | in every run, unmapping deletes the region that it found, so the BUG_ON does not fire |
| AspaceEffects.CutDeletes | kitten/mm/aspace.c:602-629 | in every sorted list, deleting takes out the region with exactly these bounds if it is not the kernel's, and otherwise changes nothing |
| AspaceEffects.OpEffect | kitten/mm/aspace.c:471-629 | acquire, add and delete: a region is entered, in its place, exactly if it has a start, a size and no overlap |
| AspaceEffects.TwoEffect | kitten/mm/aspace.c:839-931 | mapping is refused exactly for a second mapping, an empty, misaligned or overlapping range, or address 0; otherwise the region and one reference are added; unmapping takes both away |
| AspaceEffects.WorkEffect | kitten/mm/aspace.c:471-629 | in every run, the step under the lock has exactly this effect on this aspace and none on others |
| AspaceEffects.WorkTwoEffect | kitten/mm/aspace.c:839-931 | the same for the step under two locks |
| AspaceCalls.OpAlone | kitten/mm/aspace.c:110-130 | a call that is not interrupted finishes and has its effect on the aspace of that name, or none if there is none; all locks are given back |
| AspaceCalls.TwoAlone | kitten/mm/aspace.c:131-158 | the same for mapping and unmapping |
| AspaceCalls.ReleaseAlone | kitten/mm/aspace.c:393-400 | releasing drops one reference |
| AspaceCalls.CreateAlone | kitten/mm/aspace.c:216-304 | a new aspace holds the kernel's region and is found under its name |
| AspaceCalls.DestroyAlone | kitten/mm/aspace.c:306-372 | destroying is refused exactly with references left; otherwise the name is free, all regions are gone, and every source of a mapping has lost one reference for each |
| AspaceRuns.LookupFinds | kitten/mm/aspace.c:338-350 | the lookup of a mapping's source during destruction never fails |
| AspaceRuns.AcquiredStays | kitten/mm/aspace.c:374-400 | an acquired aspace stays in the table, with a positive count, until its release is done |
| AspaceRuns.NeverDeadlocked | kitten/mm/aspace.c:306-350 | in every state of every run in which a processor waits for a lock, one that holds a lock can make a step |
| AspaceRuns.LockOrder | kitten/mm/aspace.c:131-158 | a processor that waits for the table's lock is the holder of no lock, none waits for a lock that it holds, and one that waits for an aspace's lock while it holds another holds the table's lock |
| AspaceSteps.WorkTwoStep | kitten/mm/aspace.c:839-931 | mapping and unmapping keep the invariant: the count of the source moves with its mappings |
| AspaceSteps.LockingStep | kitten/mm/aspace.c:110-158 | every statement that only takes or gives back a lock keeps the invariant |
| AspaceSteps.RemoveStep | kitten/mm/aspace.c:322-335 | taking an aspace with count 0 out of the table keeps the invariant, so nothing still refers to it |
| ResourceTree.SpliceOk | kitten/kernel/resource.c:225-242 | putting a resource between a parent and a run of its children keeps the tree sorted, disjoint, nested and linked |
| ResourceTree.WithoutOk | kitten/kernel/resource.c:61-80 | taking a childless resource out keeps the tree in order |
| Resources.ResourceMap.Request | kitten/kernel/resource.c:33-59 | enters the resource if and only if it lies inside the parent and touches no child; otherwise the parent, or the first child that it touches, is reported and nothing changes |
| Resources.ResourceMap.Release | kitten/kernel/resource.c:61-80 | finds the resource among its parent's children and removes exactly it |
| Resources.ResourceMap.Descend | kitten/kernel/resource.c:199-213 | the descent terminates at the deepest resource at or below the given one that properly holds the new one |
| Resources.ResourceMap.Insert | kitten/kernel/resource.c:192-247 | refused, with nothing changed, exactly if the resource is outside or overlaps a child in part; otherwise it is entered at the deepest resource that properly holds it, and adopts precisely the children that it contains, one of the same range included |
| Resources.ResourceMap.Adjust | kitten/kernel/resource.c:254-288 | succeeds exactly if the checks on parent, children and neighbours pass; the tree stays in order if and only if it fails or the end is not below the start |
| Resources.AdjustToNothing | kitten/kernel/resource.c:254-288 | a concrete tree and resource for which size 0 passes all checks |
| PmemMap.SumIsCover | kitten/mm/pmem.c:85-101 | the overlaps with disjoint regions add up to the size of a range if and only if every address of it is covered |
| PmemMap.ApplyLookup | kitten/mm/pmem.c:257-293 | splitting and rewriting entries overrides exactly the known addresses of the range |
| PmemMap.MergeKeepsIff | kitten/mm/pmem.c:118-187 | merging gives a sorted, fully merged list; it keeps the map if and only if no two neighbours to be merged have different names |
| PmemMap.MergeKeepsRest | kitten/mm/pmem.c:172-187 | whatever the names are, merging keeps the type, the group and the allocation of every address |
| PmemMap.NamesExample | kitten/mm/pmem.c:118-145 | two touching regions with different names become one and a name is lost; with equal names they stay two |
| PmemMap.Canonical | kitten/mm/pmem.c:172-187 | a sorted, disjoint, fully merged list without names is the only one for its map |
| Pmem.PhysicalMemory.IsKnown | kitten/mm/pmem.c:85-101 | true if and only if every address of the range is covered |
| Pmem.AgreesIff | kitten/mm/pmem.c:147-170 | an entry matches if and only if it has every value that the query sets |
| Pmem.OverlapMeans | kitten/mm/pmem.c:31-62 | a region overlaps an entry if and only if they share an address |
| Pmem.PhysicalMemory.MergeList | kitten/mm/pmem.c:172-187 | the pass in place computes the merged list |
| Pmem.PhysicalMemory.Add | kitten/mm/pmem.c:196-216 | refused exactly for an empty region or one with an address that is known already; otherwise exactly its addresses are added, but for names, and with names for unnamed regions |
| Pmem.PhysicalMemory.Update | kitten/mm/pmem.c:245-298 | refused exactly for an empty or partly unknown range, and for user space exactly if the update or some address of it is not of the user type; success overrides exactly the range, but for names, and with names for unnamed regions; a refusal for user space leaves the entries in front updated |
| Pmem.PhysicalMemory.Query | kitten/mm/pmem.c:333-356 | a range in which every address has every value that the query sets, and in front of which no address of the query has them; not found exactly if no address has them |
| Pmem.PhysicalMemory.Alloc | kitten/mm/pmem.c:393-440 | the exact outcome for all arguments: the first entry that matches and has room or has no aligned address decides between success, BUG_ON and no end, and without one BUG_ON fires exactly if matching memory goes on to the end of the constraint; unless rounding wraps around, every address granted had every value that the constraint sets; lack of memory means that no range could be granted; failure changes nothing |
| Pmem.OutcomeMeans | kitten/mm/pmem.c:393-440 | success grants an aligned range of the size inside the constraint if and only if rounding does not wrap around; lack of memory, or BUG_ON behind the last entry, means that no range could be granted; the loop does not end exactly at an entry without an aligned address, or after a wrap |
| Pmem.NoMemoryMeans | kitten/mm/pmem.c:393-440 | in a merged list without names, lack of memory means that no aligned range of the size in the constraint has, all along, one set of attributes that meets it |
| Pmem.WrapExample | kitten/mm/pmem.c:414-430 | a request in the last 2 KB of the address space that is granted the first page |
| Pmem.BugExample | kitten/mm/pmem.c:414-437 | a free page and a request for two pages in it: BUG_ON fires |
| Pmem.StuckExample | kitten/mm/pmem.c:414-421 | a free range without a page boundary and a request for one: the loop does not end |
| Pmem.GrantedWas | kitten/mm/pmem.c:393-433 | every address of a granted range was known and had every value that the constraint sets |
| Pmem.AllocationsDisjoint | kitten/mm/pmem.c:393-433 | ranges allocated from unallocated memory are pairwise disjoint in every run of allocations, whatever the names are; Alloc promises such a step |
| Bootmem.BootAllocator.FindArea | kitten/mm/bootmem.c:260-285 | computes the scan, whose results are characterised by the next three rows |
| Bootmem.ScanFits | kitten/mm/bootmem.c:260-285 | what the scan finds is an area of clear pages below the limit that starts at a multiple of the increment |
| Bootmem.ScanComplete | kitten/mm/bootmem.c:260-279 | for an increment of one page, or an area of one page, the scan finds an area no later than the first that fits |
| Bootmem.ScanSkips | kitten/mm/bootmem.c:260-279 | for every larger increment and area there is a bitmap with room in which the scan finds nothing |
| Bootmem.BootAllocator.Search | kitten/mm/bootmem.c:260-285 | finds the page of the scan from the preferred page and then from the first; for small sizes or alignments it fails only if there is no room |
| Bootmem.BootAllocator.Reserve | kitten/mm/bootmem.c:322-327 | sets exactly the bits of the area; no bit was set before, so the BUG is not reached |
| Bootmem.BootAllocator.Alloc | kitten/mm/bootmem.c:205-330 | succeeds exactly if the scan finds a page, and for sizes up to a page or alignments below two pages exactly if there is room, and then by first fit from the preferred page and next from page 0; below any limit of at least a page; the whole new state in both cases; the range is aligned, in reserved pages, and apart from all earlier ones if and only if the alignment is not 0 or the guard of the join is false |
| Bootmem.RoomMeans | kitten/mm/bootmem.c:257-276 | there is room at a page if and only if every page that the request touches exists, is clear and ends below the limit, and the page has the alignment |
| Bootmem.PreferredIs | kitten/mm/bootmem.c:245-255 | the scan starts at the page of the first aligned address from the goal on, or from the last success on if that is behind it and, as a page number, below the limit; at page 0 without a goal in range or without an alignment |
| Bootmem.LastPageIs | kitten/mm/bootmem.c:227-234 | whole pages below the limit; a limit of less than a page is none |
| Bootmem.SmallLimitIgnored | kitten/mm/bootmem.c:227-234 | an allocation of 200 bytes with a limit of 100 succeeds |
| Bootmem.ZeroAlignmentOverlaps | kitten/mm/bootmem.c:296-306 | two allocations with alignment 0 on a fresh allocator return the same address |
| DecimalText.Number | kitten/lib/vsprintf.c:180-230 | the decimal digits of the number |
| DecimalText.StrToUl | kitten/lib/vsprintf.c:53-60 | the value of the digits modulo 2^64, and where they end |
| DecimalText.DecimalValue | kitten/lib/vsprintf.c:35-237 | reading the printed digits gives the number |
| BitmapList.PrintList | kitten/lib/bitmap.c:436-453 | the text of the runs of set bits, in order and with a clear bit between any two |
| BitmapList.RunsUnique | kitten/lib/bitmap.c:436-453 | such runs are determined by the bitmap, and so is the text |
| BitmapList.ParseList | kitten/lib/bitmap.c:472-499 | computes the parser of the next rows |
| BitmapSyntax.AcceptsIff | kitten/lib/bitmap.c:472-499 | a mask is the answer if and only if the text up to the first newline is a list of numbers and ranges in order and in range, with commas between them and perhaps one behind; the bits set are exactly those that an item names |
| BitmapSyntax.RefusesIff | kitten/lib/bitmap.c:472-499 | each error is the answer if and only if, behind items in order, the text breaks in its way: no number where one should be, a reversed range or a foreign character for an invalid list, and a number too large for the other |
| BitmapSyntax.NewlineEnds | kitten/lib/bitmap.c:497 | text behind a newline changes nothing |
| BitmapSyntax.SingleNumber | kitten/lib/bitmap.c:480-494 | a number is taken modulo 2^32 |
| BitmapSyntax.TooLargeReported | kitten/lib/bitmap.c:489-490 | a number too large for the mask is reported if and only if it is below 2^32 or too large also modulo 2^32 |
| BitmapSyntax.HugeAccepted | kitten/lib/bitmap.c:480-494 | 2^32 is accepted as bit 0 |
| BitmapList.RoundTrip | kitten/lib/bitmap.c:408-499 | parsing the printed list of a non-empty bitmap of at most 2^32 bits rebuilds it |
| BitmapList.PrintThenParse | kitten/lib/bitmap.c:408-499 | the two calls in a row give the bitmap back; for an empty one the parser reports an invalid list |
| BitmapRemap.PosToOrd | kitten/lib/bitmap.c:520-536 | the number of set bits in front of a set bit, or -1 |
| BitmapRemap.OrdToPos | kitten/lib/bitmap.c:556-572 | the position of the n-th set bit, or 0 if there are not as many |
| BitmapRemap.BitRemap | kitten/lib/bitmap.c:655-664 | set bit number n of one map goes to set bit number n modulo the weight of the other; a bit that is not set stays, and all stay if the other map is empty |
| BitmapRemap.RemapBack | kitten/lib/bitmap.c:655-664 | for equal weights the map goes to set bits and the map back undoes it |
| BitmapRemap.RemapMonotone | kitten/lib/bitmap.c:655-664 | for equal weights it keeps the order of set bits |
| BitmapRemap.RemapOnto | kitten/lib/bitmap.c:655-664 | for equal weights every set bit of the other map is reached |

## Left out

- Inflate: memory exhaustion, `huft_free`, the gzip header and the CRC; tables from `malloc` are a sequence of tables in which unwritten entries are marked as such; the window size is a parameter (2^15 to 2^31).
- Inflate: three points in which the decoder is more liberal or stricter than RFC 1951 are part of the reference: the unused pattern of a single one-bit code length code stands for that code, a distance code without any code is refused, and a distance may reach into the window from before the output began.
- Buddy allocator: memory contents other than block headers; the statistics; address arithmetic is unbounded.
- Symbol tables: the filter on symbols (`symbol_valid`), reading the map, string escapes of the assembler output, and the fixed name buffers.
- BGET heap: expansion by `bectl` and the statistics, which the configuration switches off, and `bgetz`; header fields are single cells at their addresses.
- Bget.Allocator.Get: stops where the block size overflows; what the code then does to the heap is not modelled.
- Bget.Allocator.Resize: the same.
- Threads: callers that break the rules for mutexes and joins above; thread-local destructors only run and may be preempted; timers and `Cond_Wait_Timeout`; the memory of a destroyed thread is not used again; queue links are sequences; context switching is one step.
- Address spaces: what regions hold besides their bounds and their SMARTMAP source, mapping of pages, architecture hooks, `aspace_find_hole`; VM_SMARTMAP regions come only from `__aspace_smartmap`; page size and alignment checks of `__aspace_add_region` are calls that change nothing.
- Resource tree: `find_resource` and `allocate_resource`, the lock, names and flags.
- Physical memory: failure to allocate list entries, zeroing of allocated memory, the terminator check on names.
- Boot memory: freeing and reserving in between, a start other than address 0, and wrap-around of addresses.
- Bitmaps: the layout in words, shifting, buffers that are too small, and the formats of `vsprintf` other than plain decimal.
- Everything else in the repository: drivers, port input and output, assembly, page tables, user copies, the VMM interface, file systems and networking.
