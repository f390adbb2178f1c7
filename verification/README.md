# Verified models of the kernel's memory code

The Dafny modules here model six files of the repository and prove what they are for:

- `kernel/src/pmm.c`: the two-level physical memory allocator. A heap free list hands out 64 KiB pages from
  the front of a node and huge blocks from the tail of the highest node; each page serves one size class from
  a free list inside the page; both levels merge what is freed.
- `abstract-machine/klib/src/int64.c`: 64-bit division and bit counting from 32-bit halves.
- `abstract-machine/am/src/x86/qemu/vme.c`: page tables for any number of levels, lazily built and torn down,
  and the tables that `start64.S` beside it builds with large pages.
- `abstract-machine/klib/src/stdio.c` and `stdlib.c`: `vsprintf`, `vsnprintf` and `atoi`.

`dafny verify dfyconfig.toml` checks everything.

## Layout

| files | what they hold |
|---|---|
| Words | words as natural numbers, `&`, `\|`, `^` and shifts defined bit by bit |
| Int64, SignedDivision, BitCount | int64.c |
| Memory, Tilings, FreeLists | memory as records by address, linked lists in it; a range cut into blocks; free lists over it |
| HeapModel, HeapCode | the heap as a state and its transitions; the code on memory, proved to be those transitions |
| PageModel, PageCode | the same for one page |
| Allocator, AllocatorRuns, PageAccounting, Witnesses | heap, pages, lists and live blocks together; whole runs; states that runs reach |
| HugeAlignment, Misaligned | when blocks are multiples of their size |
| Pmm, FullPageDamage | the class `Pmm`: pmm.c on memory, refining AllocatorRuns one call at a time; what a free into a full page does to memory |
| LockProtocol | the locks and page lists of any number of CPUs, one shared access at a time |
| ConcurrentAllocator, Linearization, Halting, ForeignFree | the lock protocol moving heap, pages and live blocks: all interleavings; that they amount to one call after another; when a CPU stops; frees on a CPU that does not own the page |
| Paging, PageTree, Vme, MapCode, Teardown, KernelSpace, TableCount, KernelInit, AddressSpaces | vme.c: index arithmetic, the radix tree and its flat map, the functions, how many pages they take, and the class `Vme` with all address spaces |
| BootTables | the page tables of start64.S, with large pages |
| Format, Parse, Printing | stdio.c and stdlib.c |

A page that a CPU has carved and not yet published is entered in ConcurrentAllocator as it will be published;
until then only that CPU can reach it.

## Findings

What the code does differs from what its comments and README.md promise in these places. Each is stated as
an exact condition; the lemma or method named last is a run, a call or a memory that fails it.

- pmm.c:149 asks a node for `size` bytes only, not for the 16 bytes of the header and those of the node
  itself. The heap stays sound exactly when there are 32 bytes more (`HeapCode.HugeSoundIffFits`); a heap of
  32 KiB and a request of 32 KiB fail it (`Witnesses.NoRoomForHeader`).
- pmm.c:206 stops the machine where line 293 returns NULL, exactly on a CPU's first small request when no
  free node holds a page (`Witnesses.HaltsExactly`, and among several CPUs `Halting.HaltsOnlyThen` and
  `Halting.NoFirstPageExactly`; `Witnesses.HaltsAtOnce`, `Halting.HaltedRun`).
- pmm.c:313 locks the list of the calling CPU, not that of the page. Frees on the owning CPU never race
  (`LockProtocol.OwnerFreesNeverRace`, `ConcurrentAllocator.EveryInterleavingIsSafe`); a free on another CPU
  can meet the owner inside the page whenever the owner's search would find it
  (`ForeignFree.ForeignFreeMeetsOwner`, `ForeignFree.RaceFromStart`).
- pmm.c:341 and 409 take index 0, which line 221 means as "full", for the page header itself. A free leaves a
  sound page exactly when the index is not 0 (`PageCode.FreeInPage`). Freeing block 1 of a full page doubles
  the class in the header, or clears it for class 16384, and unless it was cleared line 338 clears a live
  block next (`FullPageDamage.FullPageClears`, `FullPageDamage.FullPageRun`).
- pmm.c:376 makes `before` the head of the list and forgets the nodes between `after` and `before`. A free
  returns its bytes exactly when there are none (`PageModel.GiveBackBytes`), and nothing else is ever lost
  inside a page (`PageAccounting.RunsLoseNothing`); a short run reaches a page where there is one
  (`Witnesses.ForgettingRun`).
- pmm.c:469 and 483 return a huge block without its 16 header bytes, exactly when no free node ends where it
  starts (`HeapModel.ReleaseUnmergedBytes`, `HeapModel.ReleaseMergedBytes`, `Misaligned.LostHeaderRun`).
- pmm.c:499 stores the size of the heap in an int. Memory holds the heap exactly when it is smaller than 2 GiB
  (`PmmCode.InitHoldsIffInt`); from 2 to 4 GiB page requests fail, and huge requests compute an address 4 GiB
  too low, which lies in front of the heap on a 64-bit build (`PmmCode.TooLargeHeap`).
- The comment "address is n times powval" (pmm.c:183 and 194) holds for a huge block exactly when its node ends
  on a multiple of the size, never for two in succession (`HugeAlignment.SecondHugeBlockMisaligned`,
  `Misaligned.MisalignedHugeRun`), and for a small block exactly when its page is aligned to the class
  (`Misaligned.SmallBlockAligned`). Pages are as long as huge frees merge (`AllocatorRuns.RunsAreAligned`); a run
  with one that does not merge gives a small block 16 bytes off (`Misaligned.MisalignedRun`).
- stdio.c:258 and 367 assign instead of compare: the assertion fails exactly when the output is empty or begins
  with a NUL, and the result is the number of characters exactly when there is output without a NUL
  (`Format.FinalIsRight`, `Format.NulFirst`). stdio.c:366 writes one byte behind a buffer of n bytes exactly when
  the output has n characters (`Format.NulPastBuffer`, `Format.OneByteTooFar`).
- stdlib.c:25 knows no sign: `atoi` inverts `%d` exactly on the non-negative numbers (`Parse.RoundTrip`).

## Model

| member | source | states |
|---|---|---|
| ConcurrentAllocator.EveryInterleavingIsSafe | kernel/src/pmm.c:174-490 | for any number of CPUs and any interleaving of their accesses, with blocks freed on the CPU that owns their page: live blocks lie in the heap and, small ones, in their page and never overlap, every page is sound, the page lists in memory are those of the model, every byte is accounted for, and the accesses that change heap or page contents exclude each other |
| ConcurrentAllocator.StepInv | kernel/src/pmm.c:174-490 | one access of one CPU keeps heap, pages, live blocks, page lists, locks and the calls in progress consistent, whatever the other CPUs are in the middle of |
| ConcurrentAllocator.StartInv | kernel/src/pmm.c:493-508 | the state after pmm_init satisfies the invariant of the interleavings |
| ConcurrentAllocator.ChoiceAllowed | kernel/src/pmm.c:202-289 | the page a CPU finds, re-types or carves is one the lock protocol may give it: published on its own list, or not given out yet |
| ConcurrentAllocator.WipeIsPrivate | kernel/src/pmm.c:258-260 | the memset after the list lock is released touches a live block that no other CPU works on and that overlaps no other live block |
| Linearization.EveryRunLinearizes | kernel/src/pmm.c:174-490 | for any number of CPUs and any interleaving with frees on the owning CPU: there is a run of whole calls, one after the other, in which each CPU's calls are those issued to it, in order, but for at most one that is in progress and has not taken effect; when all CPUs are idle heap, pages and live blocks are exactly those of that run |
| Linearization.StepLinear | kernel/src/pmm.c:174-490 | each access makes none or one of the calls take effect, between the beginning and the end of that call |
| Linearization.AccessEffect | kernel/src/pmm.c:174-490 | what each access does to the live blocks: a free removes the block it was given, a request adds one new block of its class or there is no node that holds it, every other access adds and removes nothing |
| Halting.HaltsOnlyThen | kernel/src/pmm.c:204-206 | a CPU is stopped by the access after it failed to carve its first page, by no other, and for good |
| Halting.NoFirstPageExactly | kernel/src/pmm.c:79-138 | it fails to carve its first page exactly when no free node holds 64 KiB at that time |
| Halting.HaltsAsKalloc | kernel/src/pmm.c:202-206 | and then the same call by itself would stop at line 206 too |
| Halting.HaltedRun | kernel/src/pmm.c:206 | a run of one CPU on a heap of 32 KiB that ends stopped |
| LockProtocol.LocksSafeInEveryRun | kernel/src/pmm.c:11-22 | in every interleaving the assertion of line 17 passes, heap_lock has one holder, a CPU asks for its list lock only while holding no lock, and an unlocked scan reads NULL or a linked page of the list it is on |
| LockProtocol.StepInv | kernel/src/pmm.c:79-420 | every shared access keeps the lock values, the NULL-terminated page lists, the pages in flight and the positions of scans consistent |
| LockProtocol.NoDeadlock | kernel/src/pmm.c:13-22 | if some CPU is in the middle of a call, some CPU can take its own call further |
| LockProtocol.SomeoneRuns | kernel/src/pmm.c:13-22 | the holder of heap_lock never waits, and if nobody holds it nobody waits |
| LockProtocol.ScanEnds | kernel/src/pmm.c:319-333 | the unlocked scan of kfree comes closer to its end with each of its steps and no step of another CPU takes it further away, although pages are prepended meanwhile |
| LockProtocol.PagePassed | kernel/src/pmm.c:320-328 | following a link never passes the page that is looked for |
| LockProtocol.ScanArrives | kernel/src/pmm.c:319-333 | left alone, the scan for a block of a published page arrives at that page |
| LockProtocol.OwnerFreesNeverRace | kernel/src/pmm.c:313-414 | if every free is issued on the CPU that owns the page, no two CPUs ever work on the same page |
| LockProtocol.ForeignFreeRaces | kernel/src/pmm.c:313 | in the lock protocol alone, where a search may find any page of its list: from every consistent state a free on another CPU than the owner has an interleaving in which both CPUs work inside the same page |
| ForeignFree.ForeignFreeMeetsOwner | kernel/src/pmm.c:217-340 | with the contents deciding the search: whenever the owner's search for a request would find the page of a live block, returning that block on another CPU has an interleaving in which both CPUs work inside the page, each holding its own list lock |
| ForeignFree.RaceFromStart | kernel/src/pmm.c:174-340 | a run of two CPUs from pmm_init that ends so: CPU 1 frees CPU 0's only block while CPU 0 asks for another |
| ForeignFree.StepIsAny | kernel/src/pmm.c:313 | the accesses of that run are those of ConcurrentAllocator, but that a block may be returned on any CPU |
| AllocatorRuns.RunsAreSafe | kernel/src/pmm.c:76-490 | in every run of kalloc and kfree from pmm_init on a heap whose size is an int: no two live blocks overlap, all lie inside the heap, and free nodes, pages, huge blocks with headers and 16 bytes per unmerged huge free make up the heap |
| AllocatorRuns.KallocInv | kernel/src/pmm.c:174-308 | a non-NULL result is a block of the rounded size that nobody held, small requests get blocks in pages and larger ones do not, and no other live block changes |
| AllocatorRuns.KallocNull | kernel/src/pmm.c:174-308 | the result is NULL exactly above 16 MiB, for a huge request that no free node holds, and for a small one of a CPU that has pages, none of the class with room and none empty, when no free node holds 64 KiB |
| AllocatorRuns.SmallBlockFrom | kernel/src/pmm.c:218-306 | a small block comes from the head of the free list of the first page with room in the class, else from the first empty page, else from a new page in front of the list |
| AllocatorRuns.KfreeInv | kernel/src/pmm.c:310-490 | a free removes exactly the freed block from the live blocks and keeps the invariant |
| AllocatorRuns.LeastPower | kernel/src/pmm.c:182-197 | the rounding loops give the least power of two that is at least 32 and holds the request |
| AllocatorRuns.RunsAreAligned | kernel/src/pmm.c:95-127 | from a 64 KiB aligned heap, in every run whose huge frees all merge into a predecessor, live small blocks are aligned to their size |
| AllocatorRuns.InitialInv | kernel/src/pmm.c:493-508 | the state after pmm_init satisfies the invariant |
| Allocator.LiveDisjoint | kernel/src/pmm.c:76-490 | two live allocations never overlap and both lie inside the heap |
| Allocator.LiveInside | kernel/src/pmm.c:160-164 | a live block lies strictly inside its page, or right behind its own header |
| Allocator.DispatchExact | kernel/src/pmm.c:315-335 | the test of line 324 holds for exactly one page when the block is small, and for none when it is huge |
| Allocator.Conservation | kernel/src/pmm.c:93-166 | free nodes, 64 KiB per page, each huge block with its header and 16 bytes per huge free without a predecessor always add up to the heap |
| Allocator.SmallBlockIndex | kernel/src/pmm.c:230-306 | a small block starts k classes behind its page base, 1 <= k < 65536 / class |
| Allocator.SizesAreInts | kernel/src/pmm.c:499 | every size kept in a heap node or a huge header fits a 32-bit int |
| Allocator.PageSizesAreInts | kernel/src/pmm.c:208-214 | so does every size kept inside a page, and an index is less than 65536 |
| Allocator.AddPageInv | kernel/src/pmm.c:205-289 | a page carved and put on a list keeps the invariant and has room |
| Allocator.RetypeInv | kernel/src/pmm.c:271-280 | an empty page may take any other size class |
| Allocator.TakeFromInv | kernel/src/pmm.c:227-260 | a block taken from a page was nobody's and becomes live; nothing else changes |
| Allocator.AllocHugeInv | kernel/src/pmm.c:142-173 | a huge block was nobody's and becomes live; pages and lists do not notice |
| Allocator.FreeHugeInv | kernel/src/pmm.c:417-490 | freeing a live huge block finds its header intact and keeps the invariant |
| Allocator.FreeSmallInv | kernel/src/pmm.c:335-416 | freeing a live small block keeps the invariant and removes just that block |
| PmmCode.Pmm.constructor | kernel/src/pmm.c:493-508 | pmm_init sets up the model's initial state when the size of the heap is an int |
| PmmCode.Pmm.Kalloc | kernel/src/pmm.c:174-308 | kalloc on memory is the transition of the model, or stops at line 206, when the node chosen for a huge request has room for the header; otherwise the tail of the node is handed out all the same and no sound heap is represented; a small block is handed out zeroed |
| PmmCode.Pmm.Kfree | kernel/src/pmm.c:310-490 | kfree on memory is the transition of the model when the page has a nonzero index, and then only leaves a sound page holding the freed block |
| PmmCode.InitHoldsIffInt | kernel/src/pmm.c:497-500 | memory after pmm_init holds the whole heap as one free node exactly when its size is less than 2^31 |
| PmmCode.TooLargeHeap | kernel/src/pmm.c:83-160 | the searches run on a heap of 2 to 4 GiB: no page is found, while a huge request finds the node and computes an address 4 GiB too low |
| PmmCode.FindOwner | kernel/src/pmm.c:315-333 | the scan over all lists returns the page that holds the block, NULL for a huge block |
| PmmCode.FindUsable | kernel/src/pmm.c:218-226 | the search returns the first page of the list that serves the class |
| PmmCode.FindEmpty | kernel/src/pmm.c:271-280 | the search returns the first empty page of the list |
| PmmCode.NewPage | kernel/src/pmm.c:281-306 | carving, initialising and linking a page and taking its first block is the model's transition |
| HeapCode.AllocKPage | kernel/src/pmm.c:76-141 | allockpage unlinks or splits the first node that fits as the model says and keeps the memory representation |
| HeapCode.KallocHuge | kernel/src/pmm.c:142-173 | the writes of kallocHugeMemory, and that they are the model's transition when the node has room for the header |
| HeapCode.FindHighest | kernel/src/pmm.c:145-157 | the loop returns the highest node that holds the size |
| HeapCode.HugeSoundIffFits | kernel/src/pmm.c:149-164 | a huge allocation leaves a sound heap, whatever one takes it to be, exactly when the chosen node is 32 bytes larger than the block |
| HeapCode.FreeHuge | kernel/src/pmm.c:417-489 | the three merge shapes of a huge free on memory are the model's release |
| HeapModel.PageFrom | kernel/src/pmm.c:81-131 | a page is the front of the first node of the list that holds one |
| HeapModel.HugeFrom | kernel/src/pmm.c:146-160 | a huge block is the tail of the highest free node that holds it |
| HeapModel.CarvePageFinds | kernel/src/pmm.c:81-138 | a page is found unless no free node holds one |
| HeapModel.CarveHugeFinds | kernel/src/pmm.c:146-171 | a huge block is found unless no free node holds it |
| HeapModel.FreedNodeFirst | kernel/src/pmm.c:467-486 | a freed huge block that does not join the node in front of it heads the list |
| HeapModel.CarvePageSound | kernel/src/pmm.c:81-131 | carving a page keeps the heap a tiling with its list of free nodes |
| HeapModel.CarveHugeSound | kernel/src/pmm.c:144-165 | carving a huge block with its header keeps the heap sound |
| HeapModel.ReleaseSound | kernel/src/pmm.c:446-486 | each merge shape of a huge free keeps the heap sound |
| HeapModel.MergesMeanAdjacency | kernel/src/pmm.c:430-451 | the address searches of kfree find a neighbour exactly when a free block is adjacent |
| HeapModel.ReleaseCoalesces | kernel/src/pmm.c:446-486 | after a huge free no two free nodes are adjacent |
| HeapModel.ReleaseMergedBytes | kernel/src/pmm.c:448-466 | a huge free that merges into a predecessor returns block and header |
| HeapModel.ReleaseUnmergedBytes | kernel/src/pmm.c:467-486 | a huge free without a predecessor returns all but the 16 header bytes |
| Misaligned.SmallBlockAligned | kernel/src/pmm.c:183-197 | a small block is a multiple of its size exactly when its page is |
| Misaligned.MisalignedRun | kernel/src/pmm.c:193-197 | a run of four calls after which a live block of 32 bytes is 16 bytes off |
| Misaligned.MisalignedHugeRun | kernel/src/pmm.c:183-188 | two huge requests after which a live block is no multiple of its size |
| Misaligned.LostHeaderRun | kernel/src/pmm.c:467-486 | a run after which 16 bytes belong to nobody |
| HugeAlignment.HugeBlockAligned | kernel/src/pmm.c:160 | a huge block is aligned to its size exactly when the node it is cut from ends on a multiple of it |
| HugeAlignment.SecondHugeBlockMisaligned | kernel/src/pmm.c:158-164 | of two blocks of one size cut from one node in succession, not both are aligned |
| PageCode.AllocInPage | kernel/src/pmm.c:229-260 | taking a block from the head node on memory is the model's transition, the assertions at 236, 244, 255 and 256 hold, and the block is zeroed |
| PageCode.StartPage | kernel/src/pmm.c:297-304 | the first block of a page started afresh, zeroed |
| PageCode.FreeInPage | kernel/src/pmm.c:335-413 | a free into a page leaves a sound page with the block in its free space exactly when pagefreehead_index was not 0; block 1 of a full page doubles or clears the class in the header |
| PageCode.FullFreeBroken | kernel/src/pmm.c:341-411 | after a free into a full page no sound page with the block free is represented |
| PageModel.TakeSound | kernel/src/pmm.c:229-257 | taking a block keeps the page sound |
| PageModel.GiveBackSound | kernel/src/pmm.c:360-413 | each merge shape of a small free keeps the page sound |
| PageModel.JoinsMeanAdjacency | kernel/src/pmm.c:342-360 | the in-page searches find a neighbour exactly when a free block is adjacent |
| PageModel.EmptyPageIsReusable | kernel/src/pmm.c:378-402 | a page marked empty has index 1, one free node for all the rest and no live block |
| PageModel.GiveBackBytes | kernel/src/pmm.c:361-377 | a small free gives its bytes back exactly when line 376 skips no node |
| PageAccounting.GiveBackLoses | kernel/src/pmm.c:361-377 | a small free loses nothing exactly when line 376 skips no node |
| PageAccounting.LastFreeEmpties | kernel/src/pmm.c:378-402 | when nothing was or is forgotten, a page is marked empty exactly by the free of its last live block |
| PageAccounting.FreedFirst | kernel/src/pmm.c:383-411 | a freed block that does not join the node in front of it is the next one handed out |
| PageAccounting.RunsLoseNothing | kernel/src/pmm.c:229-413 | in every run in which line 376 skips no node each page is header, free blocks and live blocks to the last byte |
| Witnesses.HaltsExactly | kernel/src/pmm.c:202-206 | kalloc stops at line 206 exactly when it is a CPU's first small request and no free node holds 64 KiB |
| Witnesses.HaltsAtOnce | kernel/src/pmm.c:206 | a heap of 32 KiB stops at the first small request |
| Witnesses.NoRoomForHeader | kernel/src/pmm.c:149 | a heap of 32 KiB and a request for 32 KiB: the node is chosen and has no room for the header |
| Witnesses.FullPage | kernel/src/pmm.c:236-240 | a run that fills a page: none of its seven live blocks can be freed properly |
| FullPageDamage.FullPageClears | kernel/src/pmm.c:338-341 | in memory that holds any full page of a class below 16384: freeing block 1 and then block 2 clears block 3, which the first free left as it was, while the page lists stay intact |
| FullPageDamage.FullPageRun | kernel/src/pmm.c:338-341 | a run reaches such a page with blocks 1 to 3 held by clients |
| PageCode.FullFirstFree | kernel/src/pmm.c:338-382 | all that the first of these frees writes: it clears block 1 and doubles the class in the header, or sets it to 0 for class 16384 |
| Witnesses.ForgettingRun | kernel/src/pmm.c:376 | a run that never fills its page and whose next free forgets a listed node |
| Int64.Udivmoddi4 | abstract-machine/klib/src/int64.c:426-634 | for all a and all b != 0: a == quot * b + rem and rem < b, through every special case |
| Int64.ShiftSubtract | abstract-machine/klib/src/int64.c:611-633 | the loop turns a normalised state into quotient and remainder |
| Int64.LoopStep | abstract-machine/klib/src/int64.c:613-629 | r < d before each shift, the shifted remainder fits or the divisor is at least 2^63, and one turn keeps the partial quotient |
| Int64.CodeStep | abstract-machine/klib/src/int64.c:615-629 | the same for the shifts and masks of the code |
| Int64.BranchlessCompare | abstract-machine/klib/src/int64.c:624-628 | the sign of d - r - 1 is set exactly when r >= d, so the mask subtracts d and sets the carry exactly then |
| Int64.NormaliseShort | abstract-machine/klib/src/int64.c:557-563 | normalisation by less than a word, all shift counts inside the word |
| Int64.NormaliseWord | abstract-machine/klib/src/int64.c:550-556 | normalisation by exactly a word |
| Int64.NormaliseLong | abstract-machine/klib/src/int64.c:564-571 | normalisation by more than a word |
| Int64.PowerOfTwoHigh | abstract-machine/klib/src/int64.c:491-500 | the test for a power of two is right, and the high word is then divided by a shift and a mask |
| Int64.PowerOfTwoLow | abstract-machine/klib/src/int64.c:530-540 | shifting the two words divides by a power of two other than 1, without overlap of the two parts |
| Int64.LowRemainder | abstract-machine/klib/src/int64.c:532-533 | the mask of the low word is the remainder of all 64 bits |
| Int64.DivideByHighWord | abstract-machine/klib/src/int64.c:460-521 | the cases in which the low word of the divisor is 0 |
| Int64.DivideByLowWord | abstract-machine/klib/src/int64.c:524-572 | the cases in which the high word of the divisor is 0 |
| Int64.DivideByBothWords | abstract-machine/klib/src/int64.c:573-603 | the case of a divisor with both words |
| SignedDivision.Divdi3 | abstract-machine/klib/src/int64.c:369-379 | truncating signed division as in section 6.5.5 of ISO/IEC 9899:2011, except the quotient that does not fit, which wraps |
| SignedDivision.Moddi3 | abstract-machine/klib/src/int64.c:393-404 | the remainder has the sign of the dividend and completes a truncated quotient, for every nonzero divisor |
| SignedDivision.Divmoddi4 | abstract-machine/klib/src/int64.c:383-389 | quotient and remainder agree with the two functions above |
| SignedDivision.QuotientUnique | abstract-machine/klib/src/int64.c:369-379 | the conditions of the standard determine the quotient |
| SignedDivision.RemainderUnique | abstract-machine/klib/src/int64.c:393-404 | and the remainder |
| SignedDivision.OnlyOverflow | abstract-machine/klib/src/int64.c:375-379 | INT64_MIN / -1 is the only quotient that does not fit |
| SignedDivision.WrappedRemainder | abstract-machine/klib/src/int64.c:386-387 | the wrapping multiply and subtract compute the remainder |
| BitCount.Clzsi2 | abstract-machine/klib/src/int64.c:640-669 | the number of leading zero bits of every nonzero word |
| BitCount.Ctzsi2 | abstract-machine/klib/src/int64.c:675-709 | the number of trailing zero bits of every nonzero word |
| BitCount.Clzdi2 | abstract-machine/klib/src/int64.c:725-731 | the same for 64 bits, from the 32-bit routine |
| BitCount.Ctzdi2 | abstract-machine/klib/src/int64.c:717-723 | the same for 64 bits, from the 32-bit routine |
| AddressSpaces.Vme.VmeInit | abstract-machine/am/src/x86/qemu/vme.c:89-115 | vme_init succeeds exactly when the tables of all kernel pages find a page each; then every page of a kernel area translates to itself and no other page translates |
| AddressSpaces.Vme.Booted64 | abstract-machine/am/src/x86/qemu/vme.c:93-95 | vme_init on x86_64: after the boot code the kernel's pages translate to themselves and the module's invariant holds |
| AddressSpaces.Vme.Preset | abstract-machine/am/src/x86/qemu/vme.c:93-95 | vme_init with any closed kernel tables that are there already |
| BootTables.BuildTables | abstract-machine/am/src/x86/qemu/start64.S:7-29 | the 32-bit stores of the loop leave one PML4 entry and 512 entries of 1 GiB pages; on the other CPUs nothing changes |
| BootTables.BootWalk | abstract-machine/am/src/x86/qemu/start64.S:7-29 | with these tables pages below 512 GiB translate to themselves and no other page translates |
| BootTables.BootReady | abstract-machine/am/src/x86/qemu/vme.c:93-95 | the tables adopted are closed and mean what the ones built in the other branch mean |
| TableCount.TablesOfI386 | abstract-machine/am/src/x86/qemu/vme.c:24-33 | on x86 the kernel's tables take 269 pages |
| TableCount.WalkAdds | abstract-machine/am/src/x86/qemu/vme.c:60-73 | a walk allocates exactly the tables of its path that were not there |
| AddressSpaces.Vme.Protect | abstract-machine/am/src/x86/qemu/vme.c:117-135 | a new space translates exactly what the kernel's tables translate in kernel slots; other spaces are untouched; fails only without a free page |
| AddressSpaces.Vme.Map | abstract-machine/am/src/x86/qemu/vme.c:141-156 | map succeeds exactly for a page-aligned address of the user area, with pages enough, that is mapped if it is to be unmapped and not mapped otherwise; then va has no translation, or translates to pa for user code and is writable exactly if MMAP_WRITE is set; no other page, space or kernel translation changes and no page is lost |
| AddressSpaces.ReadOnlyAndWritable | abstract-machine/am/src/x86/qemu/vme.c:141-156 | two calls: a page mapped with MMAP_READ is read-only, one with MMAP_READ and MMAP_WRITE is writable |
| AddressSpaces.Vme.Unprotect | abstract-machine/am/src/x86/qemu/vme.c:137-139 | every table of the space goes back to the allocator exactly once and nothing else does |
| AddressSpaces.MapWorld | abstract-machine/am/src/x86/qemu/vme.c:141-156 | a map in one space keeps the trees of all spaces and their disjointness |
| AddressSpaces.ProtectWorld | abstract-machine/am/src/x86/qemu/vme.c:117-135 | a new space keeps the trees of all spaces and their disjointness |
| AddressSpaces.UnprotectWorld | abstract-machine/am/src/x86/qemu/vme.c:137-139 | returning a space's tables keeps the other spaces and the pool consistent |
| MapCode.MapPage | abstract-machine/am/src/x86/qemu/vme.c:141-156 | the same for one space, with the panic of each failure |
| VmeCode.PtWalk | abstract-machine/am/src/x86/qemu/vme.c:57-75 | finds or allocates the tables of an address; fails exactly when the pages missing exceed the pages free |
| VmeCode.PgAllocZ | abstract-machine/am/src/x86/qemu/vme.c:40-47 | a fresh page with all entries 0, or failure when there is none |
| VmeCode.LinkWordParts | abstract-machine/am/src/x86/qemu/vme.c:68 | the entry for a new table has the bits asked for and the table's base |
| VmeCode.PageWordParts | abstract-machine/am/src/x86/qemu/vme.c:152 | the entry for a page maps the frame, for user code, with the write bit asked for |
| PageTree.LinkKeepsTree | abstract-machine/am/src/x86/qemu/vme.c:66-68 | linking a cleared page keeps the tree free of sharing |
| PageTree.LinkKeepsFlat | abstract-machine/am/src/x86/qemu/vme.c:66-68 | allocating an intermediate table changes no translation |
| PageTree.LeafChangesFlat | abstract-machine/am/src/x86/qemu/vme.c:149-153 | writing the leaf entry of va changes the translation of va and of no other page |
| PageTree.WalkToLeaf | abstract-machine/am/src/x86/qemu/vme.c:57-75 | a walk through a space's own tables ends in the leaf entry with the permissions of the tree |
| PageTree.KernelWalkSame | abstract-machine/am/src/x86/qemu/vme.c:124-128 | translations below shared kernel tables depend on those tables only |
| TeardownCode.Teardown | abstract-machine/am/src/x86/qemu/vme.c:77-87 | each table below the cell is freed once, after the tables below it, none is read after it was freed, and neither kernel tables nor data frames are freed |
| TeardownCode.SlotsApart | abstract-machine/am/src/x86/qemu/vme.c:79-83 | tables that hang off different slots are different tables |
| KernelSpace.ProtectSpace | abstract-machine/am/src/x86/qemu/vme.c:117-135 | the kernel slots are copied, for areas that wrap around to address 0 too |
| KernelSpace.CopyArea | abstract-machine/am/src/x86/qemu/vme.c:124-129 | the loop with the test cur != end copies the slots of the area and ends |
| KernelInit.BuildKernel | abstract-machine/am/src/x86/qemu/vme.c:93-109 | succeeds exactly when the pages suffice, takes one page per table, and maps every kernel page to itself and nothing else |
| KernelInit.MapArea | abstract-machine/am/src/x86/qemu/vme.c:100-105 | the loop over the pages of an area, also when it ends at address 0; it succeeds exactly when the tables not yet there find a page each |
| KernelInit.FreshSpaceMeans | abstract-machine/am/src/x86/qemu/vme.c:117-135 | in a new space kernel pages translate to themselves for the kernel only and no user page translates |
| Paging.ConfigsValid | abstract-machine/am/src/x86/qemu/vme.c:3-32 | both configurations of the repository are instances of the model |
| Paging.IndexVectorUnique | abstract-machine/am/src/x86/qemu/vme.c:49-51 | the index vector determines a page-aligned address |
| Paging.IndexField | abstract-machine/am/src/x86/qemu/vme.c:49-51 | mask and shift extract the index field and it fits the table |
| Paging.WordParts | abstract-machine/am/src/x86/qemu/vme.c:53-55 | the masks extract the page base and the present and user bits |
| Paging.UserSlot | abstract-machine/am/src/x86/qemu/vme.c:24-34 | user addresses share no level-1 entry with the kernel |
| Format.VSPrintf | abstract-machine/klib/src/stdio.c:178-260 | the buffer holds what the format stands for and a NUL; the result is strlen of it, or the assertion of line 258 fails; nothing behind is written |
| Format.FinalIsRight | abstract-machine/klib/src/stdio.c:257-259 | the assertion fails exactly when the output is empty or begins with a NUL; the result is the number of characters exactly when there is output and no NUL in it |
| Format.NulFirst | abstract-machine/klib/src/stdio.c:258 | %c with 0 prints one character and fails the assertion |
| Format.VSNPrintf | abstract-machine/klib/src/stdio.c:275-370 | the buffer holds the first n characters of what vsprintf prints; the NUL only if nothing was cut |
| Printing.StringPrinted | abstract-machine/klib/src/stdio.c:239-246 | %s prints the string |
| Printing.CharPrinted | abstract-machine/klib/src/stdio.c:234-238 | %c prints the character |
| Printing.PercentPrinted | abstract-machine/klib/src/stdio.c:200-203 | %% prints a percent sign |
| Printing.NumberPrinted | abstract-machine/klib/src/stdio.c:204-233 | %d prints the decimal digits of the number without leading zeros, after a minus sign if it is negative |
| Printing.UnknownPrinted | abstract-machine/klib/src/stdio.c:247-248 | any other directive prints nothing |
| Printing.PlainPrinted | abstract-machine/klib/src/stdio.c:251-254 | a format without % prints itself |
| Printing.FormatsJoined | abstract-machine/klib/src/stdio.c:192-256 | one format after another prints one output after the other, each with its own arguments |
| Format.NulPastBuffer | abstract-machine/klib/src/stdio.c:366 | the byte behind the n bytes offered becomes NUL exactly when the output has n characters |
| Format.OneByteTooFar | abstract-machine/klib/src/stdio.c:366 | snprintf of "a" into one byte overwrites the byte behind it |
| Format.MPowN | abstract-machine/klib/src/stdio.c:7-17 | powers of ten that fit a word are exact |
| Format.NextDigit | abstract-machine/klib/src/stdio.c:228-231 | each turn prints the next decimal digit |
| Format.PaddedTop | abstract-machine/klib/src/stdio.c:226-232 | dividing by the power of ten below gives the top digit and the rest |
| Format.PutDigits | abstract-machine/klib/src/stdio.c:212-232 | the digits of the number, without leading zeros |
| Format.PutDigitsN | abstract-machine/klib/src/stdio.c:313-335 | the same cut at n characters |
| Parse.Atoi | abstract-machine/klib/src/stdlib.c:22-30 | the value, modulo 2^32, of the digits after leading spaces |
| Printing.AtoiReads | abstract-machine/klib/src/stdlib.c:24-28 | after any number of spaces atoi reads the digits and ignores what follows them |
| Printing.AtoiReadsNumber | abstract-machine/klib/src/stdlib.c:22-30 | a number that fits an int is read back, whatever spaces precede it and whatever text follows it |
| Parse.WrapDigit | abstract-machine/klib/src/stdlib.c:26 | adding the character before subtracting '0' gives the right word although it may overflow |
| Parse.RoundTrip | abstract-machine/klib/src/stdlib.c:22-30 | atoi of what %d prints is the number again exactly when the number is not negative |

## Left out

- PmmCode.Pmm.Kalloc: after a huge request without the room that line 149 fails to ask for, the class is no longer in a valid state and nothing is said of later calls.
- PmmCode.Pmm.Kfree: likewise after a free into a full page, but for what FullPageDamage.FullPageClears says of the next free.
- ConcurrentAllocator.EveryInterleavingIsSafe: assumes frees on the owning CPU, the room of line 149 and a nonzero index at the free, since the code is wrong without each of them; the work inside one page or on the heap free list is one step, which the exclusion proved beside it justifies.
- Format.VSPrintf: excludes INT_MIN for `%d`, whose negation does not exist, formats that end in a lone `%`, and outputs of 2^31 characters or more.
- Weak memory: accesses are sequentially consistent and `atomic_xchg` is atomic.
- Sizes inside records are unbounded integers in the model; Allocator.SizesAreInts and PageSizesAreInts show that none leaves the range of an int once the heap fits one.
- pmm.c's `TEST` variant with pthread locks and `thread_alloc_list_t`, which the shipped paths do not use.
- The release of surplus empty pages that README.md:162-164 describes: pmm.c has no such code.
- The NULL `rem` argument of `__udivmoddi4`: the model always returns both results.
- ForeignFree.RaceFromStart: ends where both CPUs are about to write; the damage done by interleaving writes inside one page is not modelled.
- BootTables.BuildTables: takes the PML4 page to be zero before the first CPU boots, since start64.S clears nothing; the rest of the boot code is not part of this model.
- `set_cr0`, `set_cr3`, `ucontext` and the check of `cpu_current()` in vme.c: register and context plumbing.
- TLB effects, reserved bits of table entries, and large pages on i386, where CR4.PSE is never set.
- `printf` in stdio.c: console output, and its `%` case falls through into the default case.
- `rand`, `srand`, `abs`, `malloc` and `free` in stdlib.c and the string functions of string.c; `strlen` and `memset` appear as specifications.
- Devices, interrupts, boot code, the native and nemu platforms and libco.
