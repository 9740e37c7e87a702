# KOS allocator, debugger stub, benaphore and ELF writer in Dafny

This project models four pieces of KOS and proves what they are for.

**The allocator, dlmalloc 2.8.6** (`src/extern/dlmalloc/malloc.c`), in the configuration KOS builds: 64-bit sizes,
no footers, no `MORECORE`, no `mremap`, every operation atomic. The heap is one flat memory of 64-bit words
(`Words`), in which chunk heads, feet, list links and tree links lie where the C structures put them. Class
`State.MState` has the fields of `malloc_state`. Its ghost fields are what the words stand for: the layout `L` of the
segments (which addresses start a chunk, how large it is, whether it is in use), the index `g` of binned chunks and
the directly mapped chunks `mm`. The system allocator is class `Kernel.System`, whose `Mmap` and `Munmap` answer as
they like within the rules; it counts, in ghost fields, how often each has been refused.

- `Words`, `Rings`, `Bits`, `Binmaps`, `Sizes`: words, circular lists, size and bit arithmetic with its wrap-around.
- `Bins`, `SmallBins`, `TreeBins`, `BestFit`: small bins, bitwise tries with chains of equal sizes, the searches.
- `Layout`, `LayoutFacts`, `Heap`: tilings of segments by chunks, boundary tags, the heap invariant.
- `Merging`, `Freeing`, `Carving`, `Malloc`, `Splitting`, `Resizing`: how layout, tags and index change together.
- `Kernel`, `Accounts`, `Books`, `Regions`, `Extending`, `Direct`, `Growing`, `Trimming`: memory from and back to the
  system.
- `Checks`: the source's own check routines, as methods and predicates on the words.
- `Dlmalloc`, `Realloc`, `Memalign`, `BulkFree`, `Clients`, `Sessions`: the operations, their callers, whole runs.

The invariant `MState.Valid` says: chunks tile every segment without gap or overlap; each head word gives the chunk's
size, whether it is in use and whether the one before is; a free chunk other than top repeats its size in its foot; no
two free chunks are adjacent; every free chunk is exactly one of top, dv or a member of the bin for its size; every
ring and tree link agrees with the index; a bit of a bin map is set just when its bin is not empty; past the chunks of
the top segment comes a head with clear in-use bits, and past those of every other one, as past a directly mapped
chunk, come fenceposts; directly mapped chunks are intact, not small, and overlap nothing; and the footprint is the
number of bytes the system has mapped. The check routines that the source has for debugging are modelled too, down to
their loops (`Checks`): on a heap that satisfies `Valid` every assertion they make holds, with one exception, the size
range of a tree bin, which holds exactly of the sizes for which the bin index does (`CheckMallocState`).

**The debugger stub** (`src/gdb/Gdb.cc`): the ticket protocol by which cores take turns (`Tickets`), as a step
relation over any number of cores, and the serial packet layer (`Packets`), which follows the "Overview" section of
the "GDB Remote Serial Protocol" appendix of the GDB manual.

**The benaphore** (`src/include/pthread.h`, module `Benaphore`): an atomic counter in front of a kernel semaphore,
under every interleaving of any number of threads.

**The ELF writer's layout pass** (`src/extern/elfio/elfio.hpp`, modules `ElfLayout`, `ElfWriter` and `ElfResult`): where
headers, tables, segments and sections go in the file. `ElfResult` says what comes out without naming how the pass
computes it.

Four promises turn out not to hold as stated. Each has a member with the input that shows it and one that says exactly
when the promise holds: tree indices from 2^40 bytes on, and with them the tree check (`TreeIndexWraps`,
`TreeIndexBrackets`, `CheckMallocState`), `tryP` (`TryPDoublesPermit`, `SlipOverdraws`, `PermitsSafe`), that the table
entry of a section leads into every segment that lists it (`ListedTwice`, `HeldByLastListing`; each of those segments
does hold all of the section's data, see `SegmentHoldsData`), and a footprint limit of 0 bytes (`NoLimitAtZero`).

## Model

| member | source | states |
|---|---|---|
| `Bits.TreeIndexBelow40` | src/extern/dlmalloc/malloc.c:2832-2846 | every size from 256 to 2^40 gets the tree bin whose least size is at most it and, but for the last bin, whose successor's least size is above it |
| `Bits.TreeIndexBrackets` | src/extern/dlmalloc/malloc.c:2832-2846 | for sizes of any width: the bin is right if and only if the size is below 2^40 or the 32 bits above its lowest eight, all that X keeps of it, are at least 0xC000 |
| `Bits.TreeIndexWraps` | src/extern/dlmalloc/malloc.c:2835 | 2^40 is the size that shows it: it gets a bin it does not belong to |
| `Bits.TreeIndexForms` | src/extern/dlmalloc/malloc.c:2874-2891 | the form with a count of leading zeros and the portable one agree on a size if and only if the same condition holds of it |
| `Bits.PortableLog2Is` | src/extern/dlmalloc/malloc.c:2883-2888 | the branch-free shifts and borrows find the highest set bit of every 16-bit value but 0 |
| `Bits.SizeBitsOrder` | src/extern/dlmalloc/malloc.c:2899-2902 | within a bin, sizes are ordered as the words, shifted left until only their offset in the bin is left, that steer the walk through its tree |
| `Bits.FirstDifferenceOrders` | src/extern/dlmalloc/malloc.c:2353-2388 | two words that agree on their first bits are ordered by the first bit in which they differ, so left subtrees hold smaller sizes |
| `Binmaps.LeastBitIsolates` | src/extern/dlmalloc/malloc.c:2925 | x & -x is the lowest bit of x alone |
| `Binmaps.LeftBitsMask` | src/extern/dlmalloc/malloc.c:2928 | left_bits of a single bit is the mask of all bits above it |
| `Binmaps.NextAbove` | src/extern/dlmalloc/malloc.c:2924-2941 | masking, isolating and counting find the next non-empty bin above i, or nothing exactly when there is none |
| `Sizes.RequestFits` | src/extern/dlmalloc/malloc.c:2225-2231 | a padded request is a multiple of 16, has room for the request and a word and fewer than 16 bytes more, or is the least chunk, and is small just for requests up to the small limit |
| `Sizes.PaddingExact` | src/extern/dlmalloc/malloc.c:4047-4049 | the wrap-around test is exact: the rounded size exceeds the request if and only if nothing wrapped, and then it has the whole padding over true integers |
| `Accounts.LimitExact` | src/extern/dlmalloc/malloc.c:4050-4054 | the footprint test passes exactly when there is no limit or the true sum stays within it |
| `Rings.RingInsert` | src/extern/dlmalloc/malloc.c:3565-3581 | two stores and two links turn a ring into the ring with the new member behind the first |
| `Rings.RingRemove` | src/extern/dlmalloc/malloc.c:3584-3607 | joining a member's neighbours takes exactly that member out of the ring |
| `SmallBins.InsertSmallChunk` | src/extern/dlmalloc/malloc.c:3565-3581 | bins, links and map bits stay in order, the index gains exactly the chunk, and only words in bodies of binned chunks are written |
| `SmallBins.UnlinkSmallChunk` | src/extern/dlmalloc/malloc.c:3584-3626 | bins, links and map bits stay in order and the index loses exactly the chunk |
| `SmallBins.SmallPosition` | src/extern/dlmalloc/malloc.c:3591-3603 | the runtime checks of the list links cannot fail on a binned chunk |
| `TreeBins.InsertLargeChunk` | src/extern/dlmalloc/malloc.c:3643-3692 | the trie invariant is kept whether the chunk becomes a root, a leaf or a chain member, and the index gains exactly it |
| `TreeBins.UnlinkLargeChunk` | src/extern/dlmalloc/malloc.c:3711-3780 | the trie invariant is kept, also when the rightmost leaf or a chain member takes an inner node's place, and the index loses exactly the chunk |
| `TreeBins.RingPosition` | src/extern/dlmalloc/malloc.c:3711-3724 | a tree chunk has its place on the ring of its node; the checks of the ring links in unlinking it pass; it is alone just if its back link leads to itself, and is a tree node just if it has a parent |
| `TreeBins.FindSlot` | src/extern/dlmalloc/malloc.c:3656-3682 | the walk ends at the node of the same size or at the node whose free child slot the size belongs in |
| `TreeBins.RightmostLeaf` | src/extern/dlmalloc/malloc.c:3725-3739 | following the right child, or the left for want of one, ends at a leaf below the node, with the word that points at it |
| `BestFit.WalkToSize` | src/extern/dlmalloc/malloc.c:4435-4457 | the walk towards the request's own size keeps the best fit passed and the least untaken subtree of larger sizes, and nothing else in the bin can be better |
| `BestFit.WalkLeftmost` | src/extern/dlmalloc/malloc.c:4468-4475 | the leftmost path of a subtree whose chunks all fit passes its smallest chunk |
| `BestFit.SearchLarge` | src/extern/dlmalloc/malloc.c:4429-4475 | the search yields a tree chunk of least size from the request up over all tree bins, or none exactly if none fits, when all sizes are below 2^40 |
| `BestFit.SearchSmall` | src/extern/dlmalloc/malloc.c:4500-4515 | the leftmost path of the first used tree bin yields the smallest tree chunk of all |
| `LayoutFacts.Covered` | src/extern/dlmalloc/malloc.c:3418-3447 | every address of a segment below its limit belongs to exactly one chunk |
| `LayoutFacts.CoalescedUnique` | src/extern/dlmalloc/malloc.c:4358-4424 | two coalesced layouts of the same segments with the same chunks in use are equal |
| `Layout.FuseTiled` | src/extern/dlmalloc/malloc.c:4358-4424 | replacing a run of adjacent chunks by one keeps the tiling |
| `Layout.SplitTiled` | src/extern/dlmalloc/malloc.c:4818-4823 | cutting a chunk in two keeps the tiling |
| `Heap.LinkingKeepsTags` | src/extern/dlmalloc/malloc.c:2067-2114 | link words lie strictly inside free chunks, so no list or tree operation touches a head or foot |
| `Heap.PrevFree` | src/extern/dlmalloc/malloc.c:4360-4371 | where the previous-in-use bit is clear, the previous foot leads to the free chunk right before |
| `Checks.TopChecked` | src/extern/dlmalloc/malloc.c:3220-3231 | the check of top passes: the segment found holds it, size and end agree with the segment, and the head past it has the previous-in-use bit clear |
| `Checks.InuseChecked` | src/extern/dlmalloc/malloc.c:3248-3256 | the check of chunks in use passes on every one, segment records in front of fenceposts included |
| `Checks.DirectChecked` | src/extern/dlmalloc/malloc.c:3234-3256 | it passes on every directly mapped chunk: large, whole pages, two fenceposts behind it |
| `Checks.FreeChecked` | src/extern/dlmalloc/malloc.c:3259-3279 | the check of free chunks passes on every one but top, dv included |
| `Checks.CheckSmallBin` | src/extern/dlmalloc/malloc.c:3358-3379 | the walk of a small bin passes all its assertions, whichever bin |
| `Checks.CheckTree` | src/extern/dlmalloc/malloc.c:3296-3344 | the recursion through a subtree and the chains of its nodes passes if and only if every chunk in it has a size for which the bin index is right |
| `Checks.CheckTreeBin` | src/extern/dlmalloc/malloc.c:3347-3355 | the same for a whole tree bin |
| `Checks.BinFind` | src/extern/dlmalloc/malloc.c:3382-3415 | of any chunk of the heap it tells exactly whether the chunk is in the bins |
| `Checks.CheckSegment` | src/extern/dlmalloc/malloc.c:3424-3444 | walking a segment from its base, head by head, meets its chunks up to top or the fenceposts, all in order, with sizes that add up to the walk's length |
| `Checks.TraverseAndCheck` | src/extern/dlmalloc/malloc.c:3418-3447 | the walk through all segments passes, and its sum is all of the segments but the space from fenceposts on |
| `Checks.CoveredFits` | src/extern/dlmalloc/malloc.c:3473-3474 | that sum is at most the footprint |
| `Checks.CheckMallocState` | src/extern/dlmalloc/malloc.c:3450-3476 | the check of the whole state passes if and only if every large free chunk has a size for which the bin index is right |
| `Checks.LargeChecked` | src/extern/dlmalloc/malloc.c:3711-3780 | the runtime checks on addresses and links in searching, splitting and unlinking a tree chunk cannot fail |
| `State.MState.constructor` | src/extern/dlmalloc/malloc.c:2577-2600 | an allocator that has got nothing from the system yet is in order |
| `Freeing.Consolidate` | src/extern/dlmalloc/malloc.c:4387-4420 | the freed run and a free chunk after it become one chunk that is top, dv or binned, in every combination; which of the three is decided by the neighbours alone; no other payload is touched |
| `Freeing.DisposeChunk` | src/extern/dlmalloc/malloc.c:4358-4424 | exactly the given chunk goes out of use: it and its free neighbours become one chunk, which is top if top was among them, else dv if dv was; all other payloads keep their words |
| `Malloc.ReplaceDv` | src/extern/dlmalloc/malloc.c:3629-3638 | the remainder becomes dv and the old dv, which is small there, is binned |
| `Malloc.DvTest` | src/extern/dlmalloc/malloc.c:4477-4478 | the unsigned comparison with dvsize - nb, which wraps when dv is too small, says whether dv fits at least as well |
| `Malloc.TmallocLarge` | src/extern/dlmalloc/malloc.c:4429-4497 | it takes a best fit over all tree bins, and yields nothing exactly if none fits or dv fits at least as well; a remainder that can be a chunk is binned and dv stays |
| `Malloc.TmallocSmall` | src/extern/dlmalloc/malloc.c:4500-4535 | it takes the smallest of all tree chunks and leaves the remainder as dv |
| `Malloc.SmallBest` | src/extern/dlmalloc/malloc.c:4590-4601 | the first chunk of the first used small bin from the request up is the smallest binned chunk that fits |
| `Malloc.MallocSmall` | src/extern/dlmalloc/malloc.c:4570-4622 | a small request is met from the smallest binned chunk that fits, at once if a bin has just its size and otherwise only if dv is too small; the remainder becomes dv; nothing is found only if dv is big enough or no binned chunk is, and no binned chunk has just the size |
| `Malloc.MallocFromDv` | src/extern/dlmalloc/malloc.c:4633-4651 | dv is split, or used up if the remainder could not be a chunk |
| `Malloc.MallocFromTop` | src/extern/dlmalloc/malloc.c:4653-4663 | top is split and stays a chunk |
| `Dlmalloc.MallocFree` | src/extern/dlmalloc/malloc.c:4570-4663 | bins, dv and top together fail only if no free chunk is large enough, where top must stay non-empty, for heaps without tree chunks of 2^40 bytes and more; what they yield is the chunk the policy names, with what is left of it where the policy puts it |
| `Dlmalloc.ServedBy` | src/extern/dlmalloc/malloc.c:4570-4663 | the policy, said of the layout alone: the smallest binned chunk that fits serves, unless dv fits and is preferred, by a small request if the binned chunk is not exact and by a large one if dv is no larger; top serves only if no other free chunk fits |
| `Direct.MmapAlloc` | src/extern/dlmalloc/malloc.c:3821-3850 | fresh pages join the directly mapped chunks, the fewest that have room for the request and its overhead, with a head, an offset of 0 and the two fenceposts behind; footprint, its peak and the lowest address follow; it fails if and only if the padded request passes 2^64, the limit would be passed or the system refuses, and then nothing has changed |
| `Direct.ReleaseDirect` | src/extern/dlmalloc/malloc.c:4700-4707 | the pages of a directly mapped chunk go back and leave the footprint, unless the system refuses; then nothing changes |
| `Growing.InitFirst` | src/extern/dlmalloc/malloc.c:4171-4190 | the first grant becomes the only segment, all top, and sets trimming threshold and release counter |
| `Growing.AppendTop` | src/extern/dlmalloc/malloc.c:4192-4204 | a grant that continues the top segment makes top larger by just its size |
| `Growing.AddSegment` | src/extern/dlmalloc/malloc.c:3977-4027 | a separate grant becomes the new top with its end mark; the old top segment is left with its record and with fenceposts up to its end, and what remains of the old top is binned; live chunks are the same |
| `Growing.PrependAlloc` | src/extern/dlmalloc/malloc.c:3935-3974 | a grant in front of a segment serves the request, and the rest merges with the old first chunk if that is top, dv or free |
| `Growing.UseGrant` | src/extern/dlmalloc/malloc.c:4166-4233 | once the system has granted the padded size, the request always succeeds; a grant that continues the top segment or ends where a segment starts becomes part of it, and only another one a segment of its own; top is set up anew, with its trimming threshold, unless the grant went in front |
| `Growing.ExtendHeap` | src/extern/dlmalloc/malloc.c:4047-4233 | it fails if and only if the padded request passes 2^64, the footprint would pass its limit or the system refuses; otherwise it asks for the least multiple of the granularity that has room, and segments, footprint, peak and lowest address are as the grant makes them |
| `Growing.SysAlloc` | src/extern/dlmalloc/malloc.c:4032-4238 | it adds exactly one live chunk or one directly mapped one, the latter if and only if the request reaches the threshold, top is not empty, and neither limit nor system stands against it; it fails only where the padded request passes 2^64, the footprint would pass its limit or the system refuses, with nothing changed; no limit is passed |
| `Trimming.ExtraFits` | src/extern/dlmalloc/malloc.c:4296-4300 | what sys_trim gives back is whole units, and leaves more than pad bytes of top and at most a unit more |
| `Trimming.ExtraExact` | src/extern/dlmalloc/malloc.c:4298-4300 | the 64-bit formula, whose sum may wrap around, gives the same for every unit that is a power of two |
| `Trimming.HasSegmentLink` | src/extern/dlmalloc/malloc.c:2707-2716 | it finds out whether a segment's record lies in the given segment |
| `Trimming.TopUnpinned` | src/extern/dlmalloc/malloc.c:4301-4307 | the top segment never holds another segment's record |
| `Trimming.LooksUnusedExact` | src/extern/dlmalloc/malloc.c:4253-4257 | the test on the first chunk's words holds exactly for segments wholly covered by one free chunk and overhead, but for those whose record is placed lower than the test expects |
| `Trimming.TryRelease` | src/extern/dlmalloc/malloc.c:4253-4278 | a segment is unmapped only if it is wholly unused; if the system refuses, its chunk is binned again and the heap is as before |
| `Trimming.ReleaseUnusedSegments` | src/extern/dlmalloc/malloc.c:4243-4288 | live chunks and payloads stay; unless the system refused, no segment the test recognises is left; the counter starts again from the number of segments seen, or the rate if that is more |
| `Trimming.SysTrim` | src/extern/dlmalloc/malloc.c:4290-4353 | top falls to more than pad and its foot and at most a unit more, unless the system refused, and no unused segment is left, unless it refused; the result says whether the footprint fell; the threshold is set anew if top shrank and to its maximum after a vain attempt; live chunks and payloads stay |
| `Dlmalloc.DlMalloc` | src/extern/dlmalloc/malloc.c:4539-4671 | while a free chunk fits, the system is not asked, nothing is mapped and the chunk the policy names serves (tree chunks below 2^40); a result is 16-byte aligned, was held by nobody, has room for the request and, if not mapped directly, fewer than 32 bytes more, and passes the check of malloced chunks; all payloads keep their words; a failure changes nothing, and comes about only if no free chunk fits and the padded request passes 2^64, the limit forbids more memory or the system refuses it; what is asked of the system is the least multiple of page or granularity with room |
| `Dlmalloc.ChecksPass` | src/extern/dlmalloc/malloc.c:4697-4730 | the runtime checks of free and of realloc (line 4811) cannot fail on a chunk that a client holds, in a segment or mapped directly |
| `Dlmalloc.HeadTells` | src/extern/dlmalloc/malloc.c:4700-4708 | the two clear in-use bits tell directly mapped chunks from all others |
| `Dlmalloc.DlFree` | src/extern/dlmalloc/malloc.c:4677-4784 | exactly the given chunk ceases to be live; a directly mapped one is unmapped and leaves the footprint, unless the system refuses; freeing into top past the threshold gives whole units back, unless it refuses; a large chunk that is binned counts towards looking for unused segments, of which none is left when the count runs out; all other payloads keep their words |
| `Dlmalloc.FreeAndTrim` | src/extern/dlmalloc/malloc.c:4727-4774 | the same for a chunk of a segment, with what follows from merging into top and from binning |
| `Realloc.TryReallocChunk` | src/extern/dlmalloc/malloc.c:4806-4883 | it succeeds if and only if the chunk is large enough or the chunk after it is free and the two together are, with something left if that is top; the chunk then has the size needed, or both whole if less than a chunk would be left; dv is cut or used up; a failure changes nothing |
| `Realloc.ReallocInPlace` | src/extern/dlmalloc/malloc.c:4806-4883 | it succeeds if and only if that condition holds, or for a directly mapped chunk if the request is not small, fits and wastes at most two units; contents up to the smaller size and all other payloads are kept |
| `Realloc.CopyOver` | src/extern/dlmalloc/malloc.c:5213-5218 | copying as many bytes as both chunks hold brings exactly the old contents over and writes nobody else's payload |
| `Realloc.DlRealloc` | src/extern/dlmalloc/malloc.c:5180-5223 | the pointer stays the same if and only if the chunk can be resized in place, and then the system is not asked and no other chunk changes; otherwise exactly the old chunk makes way for one new one; the first min(old usable, new) bytes are those of the old payload; all other payloads keep their words; a failure leaves the old chunk as it was, and has one of the causes a failing malloc has; no limit is passed |
| `Memalign.RoundAlignment` | src/extern/dlmalloc/malloc.c:4886-4893 | for alignments up to 2^63 the loop ends with the least power of two from the alignment and 32 up |
| `Memalign.RoundingStuck` | src/extern/dlmalloc/malloc.c:4889-4893 | beyond 2^63 it never ends: doubling 32 in 64 bits never reaches the alignment |
| `Memalign.AlignedPlace` | src/extern/dlmalloc/malloc.c:4916-4923 | the aligned spot leaves a leader that can be a chunk |
| `Memalign.AlignHeap` | src/extern/dlmalloc/malloc.c:4907-4947 | leader and tail go back as chunks, the payload is aligned and its chunk has the request's size and at most 32 bytes more |
| `Memalign.AlignDirect` | src/extern/dlmalloc/malloc.c:4925-4928 | a directly mapped chunk moves its offset within the same pages, so the footprint still counts them |
| `Memalign.DlMemalign` | src/extern/dlmalloc/malloc.c:4885-4957 | the result is aligned to the least power of two from the alignment and 32 up, has room for the request and is one new chunk; while a free chunk fits the widened request the system is not asked; all payloads keep their words; a failure changes nothing and has one of the causes a failing malloc has |
| `BulkFree.BulkFreeLoop` | src/extern/dlmalloc/malloc.c:5095-5126 | joining neighbours in the array before disposing of them frees exactly the chunks named, and clears the array |
| `BulkFree.BulkFree` | src/extern/dlmalloc/malloc.c:5092-5132 | the same after trimming what top has beyond the threshold; directly mapped chunks named are unmapped, unless the system refuses; every payload not named keeps its words |
| `BulkFree.DisposeOne` | src/extern/dlmalloc/malloc.c:4358-4424 | one chunk of the array goes, a directly mapped one with its pages unless the system refuses |
| `BulkFree.FreedInAnyOrder` | src/extern/dlmalloc/malloc.c:5085-5132 | the same live chunks in the same segments mean the same layout |
| `BulkFree.FreeEach` | src/extern/dlmalloc/malloc.c:1185-1192 | freeing the chunks of the array one by one frees exactly those |
| `BulkFree.BulkLikeEach` | src/extern/dlmalloc/malloc.c:5095-5126 | from the same layout, the loop of bulk_free and freeing one by one lead to the same layout |
| `Clients.PayloadsDisjoint` | src/extern/dlmalloc/malloc.c:2067-2114 | no word is held by two callers, although a payload runs into the next chunk's first word |
| `Clients.ClientsHarmless` | src/extern/dlmalloc/malloc.c:2067-2114 | whatever callers write into what they hold, the heap stays in order |
| `Sessions.Session.Malloc` | src/extern/dlmalloc/malloc.c:4539-4671 | seen from outside: a new empty block, or no change; while a free chunk fits it is a block and the system is not asked; no block only for one of the causes of a failing malloc |
| `Sessions.Session.Free` | src/extern/dlmalloc/malloc.c:4677-4784 | seen from outside: one block less, and a directly mapped one is unmapped unless the system refuses |
| `Sessions.Session.Realloc` | src/extern/dlmalloc/malloc.c:5180-5223 | seen from outside: a block with the prefix of the old contents in its place, at the same address just if it can be resized there; or no change, for one of the causes of a failing malloc |
| `Sessions.Session.Memalign` | src/extern/dlmalloc/malloc.c:4885-4957 | seen from outside: a new empty block at an address aligned to the rounded alignment, or no change, for one of the causes of a failing malloc |
| `Sessions.Session.Trim` | src/extern/dlmalloc/malloc.c:5329-5337 | seen from outside: no block changes, the result says whether the footprint fell, and no unused segment is left unless the system refused |
| `Sessions.Session.Read` | src/extern/dlmalloc/malloc.c:4539-4784 | what is read is what was written last into that word of that block |
| `Sessions.Session.SetFootprintLimit` | src/extern/dlmalloc/malloc.c:5352-5361 | the limit changes and nothing else |
| `Sessions.NoLimitAtZero` | src/extern/dlmalloc/malloc.c:5352-5361 | a limit of 0 bytes, meant as the least there is, turns the limit off, because its value is overwritten; limits are off exactly there, at the maximal value and where rounding up wraps, and any other is the least multiple of the granularity from the value up |
| `Sessions.Run` | src/extern/dlmalloc/malloc.c:4539-5361 | every run of malloc, free, realloc, memalign, trim, limit changes and callers' writes keeps the heap invariant, every block's room and all its contents, and a footprint within a set limit stays within it |
| `Tickets.OneServed` | src/gdb/Gdb.cc:779-852 | in every reachable state at most one core is between seeing its turn and passing it on |
| `Tickets.EachTicketHeldOnce` | src/gdb/Gdb.cc:779-852 | every ticket from the one served up to the counter is held by exactly one core, which is waiting or being served |
| `Tickets.ServedInOrder` | src/gdb/Gdb.cc:812-852 | cores are served in the order in which they drew their tickets |
| `Tickets.NothingAbandoned` | src/gdb/Gdb.cc:812-852 | a core that goes on because the stop is over has no ticket left that anybody waits for |
| `Tickets.HolderAdvances` | src/gdb/Gdb.cc:812-852 | each step of the core whose turn it is brings it closer to passing the turn on |
| `Tickets.NeverStuck` | src/gdb/Gdb.cc:779-852 | while a ticket is outstanding, some core can take a step |
| `Tickets.AnyCoreStopsAll` | src/gdb/Gdb.cc:775-809 | from every reachable state the run can go on until an exception on any given core has stopped all: that core has its turn and every other one is in the loop |
| `Tickets.StepsAlone` | src/gdb/Gdb.cc:825-849 | a single step resumes just the core it is for and passes the turn on, while the stop stays and no other core moves |
| `Tickets.ContinueWakesAll` | src/gdb/Gdb.cc:834-856 | after a continue every core in the loop can leave it for running without a turn of its own |
| `Tickets.AllResume` | src/gdb/Gdb.cc:812-856 | from every reachable state the run can go on until all cores run again |
| `Packets.GetPacket` | src/gdb/Gdb.cc:70-103 | on every input, what is left in the buffer, where the packet starts, what is answered and what is left unread are as the receiver's automaton has it |
| `Packets.ReceiveFrame` | src/gdb/Gdb.cc:70-103 | a frame is taken from any phase of the receiver, and its checksum alone decides between '+' and '-' |
| `Packets.PutPacket` | src/gdb/Gdb.cc:106-119 | the frame of the string is sent once for every answer up to the first '+' |
| `Packets.DigitCharacters` | src/gdb/Gdb.cc:52-59 | as characters: the sixteen digits have their values, letters in either case, every other byte has none, and the digits written are the lower-case ones |
| `Packets.FrameOfOK` | src/gdb/Gdb.cc:106-119 | as characters: the frame of OK is $OK#9a |
| `Packets.RoundTrip` | src/gdb/Gdb.cc:70-119 | after noise without '$', a text without NUL, '$' and '#' that fits arrives as it was sent, and is returned whole unless byte 2 of the buffer is then a ':'; in that case it is returned from byte 3 on and its first two bytes are echoed |
| `Packets.TooLongIgnored` | src/gdb/Gdb.cc:70-84 | a packet too long for the buffer is passed over without an answer, up to the next '$' |
| `Packets.GarbledRefused` | src/gdb/Gdb.cc:86-91 | a frame with one data byte changed to any other but '$' and '#' is refused |
| `Packets.EventuallyDelivered` | src/gdb/Gdb.cc:70-119 | after any number of such frames, each answered '-', the text is delivered once and answered '+' |
| `Packets.Exchange` | src/gdb/Gdb.cc:70-119 | both ends together: the sender, reading the receiver's answers, sends exactly one frame more than were garbled, and the receiver's buffer then holds the text |
| `Packets.Mem2Hex` | src/gdb/Gdb.cc:122-134 | the buffer gets two digits for each byte up to the first that faults, and an end mark if none does |
| `Packets.Hex2Mem` | src/gdb/Gdb.cc:137-148 | memory gets the byte of each pair of digits up to the first store that faults |
| `Packets.HexRoundTrip` | src/gdb/Gdb.cc:122-148 | reading back what was written as digits gives the bytes |
| `Packets.MemoryArrives` | src/gdb/Gdb.cc:70-148 | memory written as digits, framed, garbled any number of times, received and read back is unchanged |
| `Benaphore.RunBalanced` | src/include/pthread.h:12-41 | in every state of every run, waiters, undos and slips together are the tokens, posts and deficit, and all permits are accounted for, where successes, calls of V and slips are counted over the actions of the run |
| `Benaphore.CounterCounts` | src/include/pthread.h:12-41 | in every state of every run the counter is the permits and the increments of V and of undos less the decrements of P and tryP, and the tokens are posts less waits |
| `Benaphore.Enabled` | src/include/pthread.h:26-40 | a thread outside can begin P, V or tryP whatever the state; only waiting needs a token |
| `Benaphore.PermitsSafe` | src/include/pthread.h:12-41 | while nothing has slipped, waiters minus tokens and posts under way is the deficit, and no more calls have succeeded than there were permits and calls of V |
| `Benaphore.NoStuckWaiter` | src/include/pthread.h:31-40 | a waiter can go on while a permit is free and no post and no undo is under way |
| `Benaphore.PVNeverSlips` | src/include/pthread.h:31-40 | without tryP nothing slips, so the two properties above hold of all runs of P and V |
| `Benaphore.SlipOverdraws` | src/include/pthread.h:26-30 | after every undo of tryP that found the counter not negative, the run can go on until more calls have succeeded than there are permits, by at most the number of such undos |
| `Benaphore.Overrun` | src/include/pthread.h:12-41 | success outruns the permits by at most the number of slips, and by just that once tokens and surplus are used up |
| `Benaphore.TryPDoublesPermit` | src/include/pthread.h:26-30 | such a run exists: two threads, no initial permit, one call of V, two successes |
| `ElfLayout.SpotsApart` | src/extern/elfio/elfio.hpp:389-420 | header, table entries and data beyond the tables do not overlap |
| `ElfWriter.Writer.FillFinalAttributes` | src/extern/elfio/elfio.hpp:389-402 | counts and offsets of the two tables are those of a file header, a program header table and a section header table in a row |
| `ElfWriter.Writer.SetCurrentFilePosition` | src/extern/elfio/elfio.hpp:412-417 | data start where the tables end |
| `ElfWriter.Writer.IsSectionWithoutSegment` | src/extern/elfio/elfio.hpp:421-431 | true just for sections that no segment lists |
| `ElfWriter.Writer.SaveSection` | src/extern/elfio/elfio_section.hpp:225-260 | the file gains the section's entry and its data and stays without overlap; section 0 keeps its offset |
| `ElfWriter.Writer.SaveSectionsWithoutSegments` | src/extern/elfio/elfio.hpp:435-459 | each such section gets the first aligned place after the one before, and no other section changes |
| `ElfWriter.Writer.SaveSegment` | src/extern/elfio/elfio.hpp:466-503 | a segment starts at the first aligned place, its file size is what its sections take from there, its memory size adds those without data, and inside it the data of all its sections are written |
| `ElfWriter.Writer.SaveSegmentsAndTheirSections` | src/extern/elfio/elfio.hpp:462-507 | all segments so, one after the other, each with a copy of the data of every section it lists; each section's entry in the end leads into the last segment that lists it, and has the address of the first, unless it had one |
| `ElfWriter.Writer.Save` | src/extern/elfio/elfio.hpp:141-160 | the whole pass: every section is saved, the entries in the file are those of the final sections and segments, and every segment holds the data of all sections it lists |
| `ElfWriter.FileInOrder` | src/extern/elfio/elfio.hpp:389-507 | no write hits another but the rewriting of a section's own entry; data are written exactly of sections that have bits, a size and loaded contents, each time whole and at a place aligned for it; every section's data lie at the offset in its entry, aligned, clear of the tables and of all other sections' data |
| `ElfWriter.SegmentsInOrder` | src/extern/elfio/elfio.hpp:462-507 | segments are aligned, do not overlap in the file and take at least as much memory as file |
| `ElfResult.SegmentSizes` | src/extern/elfio/elfio.hpp:474-503 | a segment's memory size exceeds its file size by the sum of the sizes of the sections it lists that have no data in the file, its file size is what the others take one after the other, and its entry in the file has both |
| `ElfResult.SegmentsPacked` | src/extern/elfio/elfio.hpp:462-503 | each segment starts at the first place aligned for it after the one before, the first after the sections in no segment |
| `ElfResult.LoosePacked` | src/extern/elfio/elfio.hpp:435-459 | the sections in no segment follow one another from the end of the tables without any gap but for alignment, in their order |
| `ElfResult.AddressGiven` | src/extern/elfio/elfio.hpp:479-483 | a section keeps an address it had, and otherwise gets that of the first segment that lists it |
| `ElfWriter.SegmentHoldsData` | src/extern/elfio/elfio.hpp:476-491 | every segment holds the data of each section it lists, whole, in one piece and aligned, whatever other segments list it |
| `ElfWriter.HeldByLastListing` | src/extern/elfio/elfio.hpp:476-491 | the place that a section's table entry gives lies inside a segment that lists it if and only if no later segment lists it too |
| `ElfWriter.ListedTwice` | src/extern/elfio/elfio.hpp:476-491 | the file that shows it: two segments that both list one section of four bytes, whose entry leads outside the first |

## Left out

- Windows, `MORECORE`, `mremap`, footers, locks, error recovery and the mspace functions: not in KOS's configuration,
  or copies of what is modelled.
- calloc, the independent_ functions, inspection, statistics and option setting: easy members on top of the
  operations modelled.
- The words of segment records: segments are a sequence in the model, not a list in memory; the room their records
  take is modelled.
- Byte granularity: memory is made of aligned words, so memcpy copies the whole words that hold the bytes asked for,
  and contents are compared word by word.
- `Growing.PrependAlloc`: the order in which the remainder's head is written and merged is not modelled.
- `Realloc.TryReallocChunk`: growing into a free chunk takes it whole and gives the tail back, where the code splits
  the two at once; the result is the same.
- `Checks.DirectChecked`: the flag by which direct mapping can be switched off at run time; it is on.
- `Sizes.PaddingExact`: masking with a negated power of two is modelled as dropping the remainder of a division.
- `Memalign.RoundAlignment`: the test of x & (x - 1) is modelled as being a power of two.
- `Memalign.DlMemalign`: alignments above 2^63, for which the code does not return.
- `Malloc.TmallocLarge`: best fit is stated for heaps without chunks of 2^40 bytes and more, where tree indices wrap.
- `Dlmalloc.DlMalloc`: for the same reason which chunk serves is stated for such heaps, and that one is found too where
  a request of 256 bytes and more may have to come from the trees.
- `Benaphore.RunBalanced`: the counter is unbounded; init and destroy are one initial state.
- `Tickets.NeverStuck`: the loop in which a core that stops the others waits for each to report is not modelled.
- `Tickets.OneServed`: that all other cores are stopped while one is served, which the code does not decide: a core
  passes its turn on before it is marked as running.
- Registers, breakpoints, fault handlers and interrupts of the stub: hardware effects.
- `Packets.GetPacket`: a line that has nothing more to say ends the call, where the code would wait.
- `ElfWriter.Writer.Save`: positions are unbounded, and streams are modelled as a sequence of writes; at most 65535
  sections, whose count the file can hold.
- ELF reading, dumping, string and symbol tables, notes.
- Drivers, ACPI, network glue and unit tests.
