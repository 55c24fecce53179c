# JOS kernel memory management, verified in Dafny

This project models the parts of a small x86 teaching kernel that are hardest
to get right, and proves them correct for every input, run and interleaving:

- the physical page allocator and the two-level page tables of `kern/pmap.c`,
  whose free list, page tables and data all live in the same pages
  (`Mmu`, `PageState`, `Allocator`, `PageTables`, `Pmap`);
- what that code keeps over whole runs, and while the processor fills its TLB
  between any two of its writes (`Runs`, `Tlb`, `HwRuns`, `SelfMap`, `Examples`);
- the boot path of `mem_init`: `boot_alloc`, `page_init`, the kernel's own
  checking code, the static kernel mappings, and what of it stays below 4 MB
  (`BootAlloc`, `FreeList`, `PageInit`, `Transcripts`, `CheckAlloc`,
  `CheckTables`, `BootMap`, `CheckMap`, `LowMemory`, `CheckInstalled`, `MemInit`);
- the symbol-table search of `kern/kdebug.c` (`StabSearch`, `DebugInfo`);
- the formatter and the number parser of `lib/printfmt.c` and `lib/string.c`,
  and `memmove` (`Numbers`, `Printf`, `Formats`, `Parsing`, `RoundTrip`, `MemMove`);
- the boot loader of `boot/main.c` (`BootLoader`, `ElfImage`) and the text screen
  of `kern/console.c` (`Screen`).

`dafny verify dfyconfig.toml` checks the whole project.

## How the memory model works

`PageState.State` is the machine as a value: reference counts, list links, the
list head, the 1024 words of every physical page, the page directory's page
number and the TLB. Page tables are not separate objects: `Pde`, `Pte` and
`Translate` read them out of the page words, and `Translate` is the processor's
32-bit paging (Intel SDM volume 3A, sections 4.3 and 4.6). `Inv` is the
invariant: the free list is an acyclic duplicate-free chain of unreferenced
pages and every other link is NULL; the self-map entry is in place and no two
directory entries share a table; every count is exactly the number of slots
that name the page, plus one for pages taken at boot; and every cached
translation agrees with the tables. `Space` is the abstract address space, a
map from virtual pages to physical page and rights.

`Pmap.Machine` is the same machine as arrays and fields updated in place, one
method for each C function in the order the C code does it. Each method is
proved against a function on states, and the lemmas about those functions carry
the meaning. `Own` is bookkeeping the kernel does not store (the list as a
sequence, a list set aside by the checking code, the boot pages).

The checking routines are compared with transcripts (`Transcripts`): a list of
every call, write and read of the routine with what each gave.
`Transcript(s, t, s')` says that from state s these calls, made one after the
other, give these answers and end in s'.

The kernel reads and writes a page at `page2kva`, physical address plus KERNBASE
in 32 bits; for pages from 65536 on (256 MB) that sum wraps. Every operation
that goes through a kernel address is stated for machines of at most 65536 pages
(`Machine.InReach`), which is all mem_init lets through. The boot path up to the
check that fails on larger machines (`PageInit`, `MemInit.BootStructures`) is
stated for every size up to 4 GB.

## Main results

- Over every legal run of allocation, freeing, walking, inserting, removing and
  hardware TLB fills, the whole invariant holds and the page tables implement
  the abstract address space (`Runs.RunRefines`); the same when the hardware
  fills or evicts TLB entries between any two writes of every call
  (`HwRuns.RunCallsRefine`). page_insert keeps the invariant if and only if the
  16-bit count has room (`PageTables.InsertKeepsInvIff`).
- From reset, mem_init with all its own checking code runs to its end if and only
  if boot_alloc grants both requests, the machine has at most 256 MB, and it has
  more than 4 MB or more than 66 pages past the boot allocations. It then has
  exactly the intended kernel map, although one mapping call overruns, and a
  free list that is known page by page, contents included (`MemInit.MemInit`,
  `BootMap.KernelMapIsIntended`, `CheckMap.KernelMapRights`). Until the directory
  is loaded it writes no frame at or above 4 MB, and its tables lie below
  (`MemInit.BeforeLoad`).
- Each checking routine passes from every valid state, not only the one at boot
  (`CheckAlloc.CheckPageAlloc`, `CheckTables.CheckPage`,
  `CheckInstalled.CheckPageInstalled`), with the whole transcript of what it calls
  and sees, or exactly when a stated condition holds:
  check_page_free_list exactly when the list has pages below and above the I/O
  hole and none at or above 256 MB (`PageInit.CheckPageFreeList`), and
  `CheckMap.CheckKernPgdir`.
- A format string prints its pieces in order, each escape its own argument, with
  every flag, width and precision, given in digits or by `*`
  (`Formats.PiecesRender`, `Formats.FieldsInOrder`); strtol reads every spelling of
  a number (`Parsing.StrtolReads`).
- bootmain puts the segments of an ELF image laid out as in inc/elf.h in their
  places and jumps to its entry point (`ElfImage.BootImage`).
- debuginfo_eip reports the file, function, line and number of arguments that the
  table has for an enclosed address (`DebugInfo.EnclosingPlaceIsReported`).
- Printing a number with vsnprintf and reading it with strtol gives it back to
  the last character, if and only if it fits a long and the padding is harmless
  (`RoundTrip.PrintThenParse`, `Numbers.PrintedReadsBackIff`).
- Exactly when boot_map_region, the symbol search, its fallback, boot_alloc, the
  boot loader and check_kern_pgdir do what they promise (`BootMap.DocumentedIff`,
  `StabSearch.BracketsIff`, `DebugInfo.FallbackIff`,
  `BootAlloc.GrantsWellPlacedIff`, `BootLoader.BootsRightIff`,
  `BootLoader.OrderedConsistentIff`, `CheckMap.KernelMapPassesIff`).

## Where the code and its comments differ

The model follows the code.

- `boot_map_region` says `size` is in bytes; the loop counts pages
  (kern/pmap.c:487-490). It has the documented effect exactly when the pages on
  which the two part were so mapped before, and so, where they are unmapped, only
  for size 0 (`BootMap.DocumentedIff`, `BootMap.DocumentedOnlyEmpty`). The
  kernel-stack call maps 32768 pages, 32760 of them past KERNBASE
  (`BootMap.StackCallOverruns`); `BootMap.KernelMapIsIntended` shows that the
  third call repairs this.
- `check_page_free_list` asserts that a free page's kernel address is past the
  boot allocations; for pages from 65536 on that address wraps, so mem_init's
  first check panics on every machine with more than 256 MB (kern/pmap.c:700,
  kern/pmap.h:39-45, `PageInit.FreeReachedIff`, and a 512 MB machine in
  `PageInit.LargeMachineFails`).
- `check_page_installed_pgdir` and `check_page` clear a directory entry without
  invalidating anything; a cached translation of the window page that showed the
  table would be left stale (kern/pmap.c:982, 1048,
  `CheckTables.TakenBackCoherentIff`).
- `page_lookup` says it returns NULL when nothing is mapped; it returns page 0
  for an absent entry inside an existing table (kern/pmap.c:571-583,
  `PageTables.LookupIsMappingIff`, and a state in `Examples.LookupReturnsPageZero`).
- `page_free` means to refuse a page that is on the list; it accepts the list's
  last page (kern/pmap.c:388, `Allocator.FreePanicsIff`,
  `Allocator.TailDoubleFree`).
- `stab_binsearch` promises the entry that contains the address; when an entry
  with exactly that value is met and another entry has the next value inside
  the interval, it returns the later one (kern/kdebug.c:75-81,
  `StabSearch.BracketsIff`).
- `debuginfo_eip` means to look in the whole file when there is no enclosing
  function; when the file has functions but all start later, it takes the file's
  own entry for the function and searches before the first function only
  (kern/kdebug.c:149-168, `DebugInfo.FallbackIff`, and a table on which it
  returns a wrong line in `DebugInfo.MissedFallback`).
- `debuginfo_eip` takes the index 0 for a miss, but when entry 0 is a main-file
  entry later than the address the first search returns -1, and the second reads
  before the table (kern/kdebug.c:140-151, `DebugInfo.DebugInfoEip`, and a table
  in `DebugInfo.BeforeFirstFile`).
- `inc/memlayout.h:157-159` gives the directory's own address as
  UVPT + (UVPT >> PGSHIFT); that is an index into an array of words, which
  `SelfMap.UvpdReads` makes precise.
- `boot_alloc` should panic when memory runs out; if the kernel image itself
  ended past 4 MB, its subtraction would wrap and the panic would never come
  (`BootAlloc.GrantsWellPlacedIff`).
- `check_kern_pgdir` compares all `npages` pages. Taken by itself, on a correct
  map of more than 256 MB its address sum wraps and it fails too, except that its
  32-bit bound is 0 for exactly 4 GB (`CheckMap.KernelMapPassesIff`).
- The second `check_page_free_list` asks for free pages above 1 MB; on a machine
  of at most 4 MB with at most 66 of them the mappings have used them all
  (kern/pmap.c:250, 709, `LowMemory.ExtendedLeftIff`).
- `%e` accepts error codes of either sign; the smallest int has no positive
  counterpart and indexes before the table of messages (lib/printfmt.c:163-170,
  `Printf.StrayIndexIff`).

## Model

| member | source | states |
|---|---|---|
| `Mmu.AddressSplit` | inc/mmu.h:30-42 | PGADDR rebuilds every address from its directory index, table index and offset, and the page number is the two indices side by side |
| `Mmu.AddressJoin` | inc/mmu.h:30-42 | the three selectors return what PGADDR was given |
| `Mmu.LayoutIndices` | inc/memlayout.h:111-125 | the window at UVPT is exactly directory entry 957 and UTOP starts entry 955 |
| `Mmu.Page2KvaReachesIff` | kern/pmap.h:39-45 | page2kva, a 32-bit sum, is the page's kernel address exactly for the first 65536 pages, and wraps below KERNBASE for every other |
| `Mmu.AddressesBelowIff` | kern/pmap.c:743-745 | every page's address is below npages*PGSIZE as a 32-bit product exactly when the machine has less than 4 GB |
| `PageState.Retarget` | inc/memlayout.h:177-184 | changing what one slot names moves exactly one reference between pages, for every page |
| `PageState.TablesCarry` | kern/pmap.c:430-467 | states with the same directory and entry words have the same translations, the same named pages and the same table validity |
| `PageState.OffTableWrite` | kern/pmap.c:368-371 | overwriting any page that is neither the directory nor a table changes no entry |
| `PageState.TableIsReferenced` | kern/pmap.c:453-458 | the directory and every page table have a count of at least one, so they can never be on a free list |
| `Allocator.AllocKeepsInv` | kern/pmap.c:354-375 | page_alloc hands out the list's first page, unreferenced, keeps the whole invariant and changes no page-table entry even when it clears the page |
| `Allocator.FreeKeepsInv` | kern/pmap.c:381-395 | page_free of an unlisted unreferenced page cannot panic and pushes it, keeping the invariant |
| `Allocator.FreePanicsIff` | kern/pmap.c:388-390 | among unreferenced pages, page_free panics exactly on listed pages other than a list's last |
| `Allocator.TailDoubleFree` | kern/pmap.c:381-395 | freeing the tail again is accepted and afterwards no duplicate-free sequence is the free list |
| `Allocator.WriteKeepsInv` | kern/pmap.c:682-686 | writing any contents to any unreferenced page keeps the invariant |
| `Allocator.ListPosition` | kern/pmap.c:354-375 | walking the links from the head visits the free list in order and ends at its end |
| `PageTables.NewTableKeepsInv` | kern/pmap.c:441-458 | building a page table keeps lists, tables, counts and TLB valid and changes no translation |
| `PageTables.WalkedKeepsInv` | kern/pmap.c:430-467 | pgdir_walk with creation keeps the invariant, leaves a table in place, changes no entry word and no other directory entry |
| `PageTables.RewrittenKeepsInv` | kern/pmap.c:523-552 | setting one entry below UTOP to any storable word, with counts and TLB moved accordingly, keeps the whole invariant |
| `PageTables.MappedPage` | kern/pmap.c:615-626 | a mapped page exists, is referenced, is on no list with a NULL link, and page_decref of it cannot panic |
| `PageTables.RemoveKeepsInv` | kern/pmap.c:601-634 | page_remove of a mapped page cannot panic and keeps every count, list, table and cached translation right |
| `PageTables.RemovedReads` | kern/pmap.c:615-626 | page_remove zeroes exactly the entry for va, in every directory and table word |
| `PageTables.RemoveRefines` | kern/pmap.c:601-634 | on the abstract address space, page_remove deletes exactly va |
| `PageTables.GrantedKeepsInv` | kern/pmap.c:535-549 | entering a page at an unmapped address keeps the invariant while the 16-bit count has room |
| `PageTables.GrantedWraps` | inc/memlayout.h:184 | at 65535 references the count wraps and no bookkeeping makes the result valid |
| `PageTables.InstallKeepsInvIff` | kern/pmap.c:523-552 | with the table in place, page_insert keeps the invariant if and only if the count does not overflow |
| `PageTables.InsertKeepsInvIff` | kern/pmap.c:498-552 | the same for the whole of page_insert, for every page, address and permission, including re-entering a page where it is |
| `PageTables.InsertedRefs` | kern/pmap.c:535-549 | conservation, with the table in place: one reference more for the new entry, one less for the old one, for every page |
| `PageTables.InstalledReads` | kern/pmap.c:523-552 | page_insert sets exactly the entry for va and no other word of any table |
| `PageTables.InsertRefines` | kern/pmap.c:498-552 | on the abstract address space, page_insert sets exactly va, to the page with exactly the requested rights, also when a table was built or the displaced page was freed |
| `PageTables.InsertStepsAreInstalled` | kern/pmap.c:535-549 | the code's own order (count up, remove old, write) has the net effect of the specification whatever was mapped before |
| `PageTables.LookupIsMappingIff` | kern/pmap.c:554-584 | page_lookup meets its documentation exactly when va is mapped or has no table; otherwise it returns page 0 |
| `Examples.LookupReturnsPageZero` | kern/pmap.c:571-583 | a valid state with a table and an unmapped address for which page_lookup returns page 0 |
| `Pmap.CountedRemoveSafe` | kern/pmap.c:535-547 | inside page_insert the removal cannot panic and leaves the entry where pgdir_walk found it |
| `Pmap.InsertIsSafe` | kern/pmap.c:498-552 | on valid states, for a page the caller holds and an address below UTOP, page_insert meets no panic and leaves exactly the specified state |
| `Pmap.Machine.PageAlloc` | kern/pmap.c:354-375 | in place: NULL and nothing changed on an empty list, otherwise the popped state |
| `Pmap.Machine.PageFree` | kern/pmap.c:381-395 | in place: the pushed state, whenever the panic check passes |
| `Pmap.Machine.PageDecref` | kern/pmap.c:401-406 | in place: one reference less with uint16_t wrap-around, and the page freed at zero |
| `Pmap.Machine.PgdirWalk` | kern/pmap.c:430-467 | in place: NULL with nothing changed when it fails, otherwise the walked state and a pointer to the entry of va |
| `Pmap.Machine.PageInsert` | kern/pmap.c:523-552 | in place, for any page and any address for which no panic is met: -E_NO_MEM exactly when no table can be built and then nothing at all changes, otherwise the entry found before the removal is the one written |
| `Pmap.Machine.PageLookup` | kern/pmap.c:565-584 | changes nothing, returns the looked-up page and stores the entry pointer |
| `Pmap.Machine.PageRemove` | kern/pmap.c:601-634 | in place: the removed state |
| `Pmap.Machine.TlbInvalidate` | kern/pmap.c:640-646 | drops exactly the cached translation of va |
| `Runs.StepKeepsInv` | kern/pmap.c:354-634 | each operation, and each hardware TLB fill, keeps the invariant and acts on the address space as its mapping events say |
| `Runs.RunRefines` | kern/pmap.c:354-634 | in every state reachable by any legal sequence of operations and TLB fills the whole invariant holds and the page tables implement the replayed address space |
| `Tlb.HwRunCoherent` | kern/pmap.c:636-646 | no sequence of hardware fills and evictions breaks coherence or revives an entry that is gone |
| `Tlb.PublishCoherent` | kern/pmap.c:453-458 | publishing a new page table contradicts nothing the TLB holds |
| `Tlb.RemoveInterleavedSafe` | kern/pmap.c:615-626 | page_remove with hardware steps in every gap between its writes has its sequential effect and ends with the whole invariant, TLB coherence included |
| `Tlb.InsertInterleavedSafe` | kern/pmap.c:529-549 | the same for page_insert with ten gaps, through its table creation, count, removal and final write |
| `HwRuns.CallKeepsInv` | kern/pmap.c:354-634 | every call, with hardware steps in all its gaps, has its sequential effect on everything but the TLB and ends in a valid state |
| `HwRuns.RunCallsRefine` | kern/pmap.c:354-634 | in every state reachable by legal calls with hardware steps between any two of their writes, the whole invariant holds and the page tables implement the replayed address space |
| `SelfMap.UvptReads` | inc/memlayout.h:148-155 | in every valid state uvpt[N] reads the entry of page N when it has a table and faults otherwise, for every N |
| `SelfMap.UvpdReads` | inc/memlayout.h:157-162 | entry (UVPT >> PGSHIFT) + d of the same array reads directory entry d, for every d |
| `SelfMap.WindowIsReadOnly` | kern/pmap.c:160-163 | nothing in the window can be written through it |
| `BootAlloc.BootAllocator.Alloc` | kern/pmap.c:84-128 | one call in place, with the static variable, both panics and 32-bit wrap-around |
| `BootAlloc.ServedInside` | kern/pmap.c:98-127 | inside the mapped 4 MB a request is refused exactly when the block would not fit, and then changes nothing; otherwise it starts on the first free page boundary, and the next free address is the first page boundary at or past its end |
| `BootAlloc.GrantsInside` | kern/pmap.c:84-128 | over any list of requests the blocks are page-aligned, pairwise disjoint, past the kernel and inside the 4 MB |
| `BootAlloc.GrantsWellPlacedIff` | kern/pmap.c:115-125 | that holds for every list of requests if and only if the kernel image ends inside the 4 MB |
| `BootAlloc.LeftIsPastEveryGrant` | kern/pmap.c:106-109 | boot_alloc(0) returns the end of everything granted |
| `BootAlloc.PagesArrayFits` | kern/pmap.c:153-174 | when the directory and the pages array are granted, every page's physical address fits in 31 bits and the array fits in the window at UPAGES |
| `PageInit.PageInit` | kern/pmap.c:275-340 | in place, through a pointer to a pointer: for boot allocations that end on a page boundary past 1 MB the list runs from the last page down to their end and then from page 159 down to 1, with count 0; every other page has count 1 and a NULL link |
| `PageInit.FreePagesExact` | kern/pmap.c:295-338 | the list holds exactly the pages that are neither page 0 nor between the I/O hole and the end of the boot allocations, in descending order, for any end |
| `PageInit.FreePagesAre` | kern/pmap.c:295-338 | as a list and as a set: exactly the pages 1 to 159 and those from the end of the boot allocations on |
| `PageInit.InitialStateIsValid` | kern/pmap.c:142-183 | with the self-mapped empty directory, the state page_init leaves satisfies the whole invariant |
| `PageInit.PartitionMembers` | kern/pmap.c:667-680 | the partition has the same members and no duplicates |
| `PageInit.MoveLowPagesFirst` | kern/pmap.c:667-680 | the two-tail-pointer rewiring turns the list in place into its stable partition, low pages first, also with an empty class, and writes no link off the list |
| `PageInit.CountFree` | kern/pmap.c:688-703 | the loop passes exactly when every listed page is below 65536, where its wrapped page2kva still compares rightly; then each counter is positive exactly when the list has a page of its kind |
| `PageInit.CheckPageFreeList` | kern/pmap.c:656-712 | on any valid state whose list avoids the reserved pages it passes if and only if every listed page is below 65536 and the list has pages below and above the I/O hole; it changes no table, count or translation, and then exactly the listed pages (below 4 MB, with only_low_memory) have their first 128 bytes set to 0x97 |
| `PageInit.FreeReachedIff` | kern/pmap.c:700 | on the list page_init leaves, every page's kernel address is its own if and only if the machine has at most 65536 pages |
| `PageInit.LargeMachineFails` | kern/pmap.c:700 | a 512 MB machine whose list avoids the reserved pages and has pages of both kinds, among them page 65536 with kernel address 0 |
| `FreeList.Cut` | kern/pmap.c:318-326 | taking a page out through the cursor that reaches it leaves the chain of the others |
| `FreeList.Splice` | kern/pmap.c:677-679 | closing one chain onto another gives the chain of both |
| `FreeList.FilterKeepsOrder` | kern/pmap.c:295-338 | filtering keeps the order of what remains |
| `CheckAlloc.StealKeepsInv` | kern/pmap.c:747-749 | setting the free list aside keeps the invariant |
| `CheckAlloc.GiveBackKeepsInv` | kern/pmap.c:776-777 | and so does giving it back |
| `Transcripts.Joined` | kern/pmap.c:718-1056 | transcripts follow one another: what two stretches of calls do and see, the two together do and see |
| `Transcripts.Translates` | kern/pmap.c:848-860 | check_va2pa as the checks call it, in place: its answer is what the tables say, and is put on the transcript |
| `CheckAlloc.CheckPageAlloc` | kern/pmap.c:718-790 | from every valid state with three free pages: its transcript, each page_alloc with the page it returned or NULL, each page_free, both list lengths, the three address comparisons and the cleared page; the free list ends as it was, in order, and only the third page's frame changes, to zero |
| `CheckTables.BenchInsert` | kern/pmap.c:905-953 | a page_insert on the table under test succeeds and has exactly the expected entries, counts and free list |
| `CheckTables.BenchRemove` | kern/pmap.c:955-978 | the same for page_remove |
| `CheckTables.BenchBuilt` | kern/pmap.c:986-991 | pgdir_walk turns the first free page into the cleared table |
| `CheckTables.BenchDismantled` | kern/pmap.c:981-984 | taking the emptied table back by hand restores tables, counts and TLB exactly |
| `CheckTables.TakenBackCoherentIff` | kern/pmap.c:1046-1050 | in any state with valid tables and TLB, clearing the directory entry of an emptied table without invalidating leaves the TLB right if and only if the window page showing that table is not cached |
| `CheckTables.CheckPage` | kern/pmap.c:864-1014 | from every valid state, whatever the TLB holds, with three free pages and directory entries 0 and 1 absent: its whole transcript, each call with its return value and each translation, count, link, permission and directory entry it asserts; every table, count and translation is restored, the free set too, its first three pages reversed, and the first of them ends all zero, every other frame unchanged |
| `BootMap.StaticWriteKeepsInvIff` | kern/pmap.c:475-490 | a static mapping changes no counted slot, and keeps the invariant if and only if the TLB holds no other translation of its address |
| `BootMap.RegionMaps` | kern/pmap.c:469-496 | mapping k uncached pages takes exactly one page from the front of the list for each missing table, keeps the invariant and sets exactly the k entries |
| `BootMap.BootMapRegion` | kern/pmap.c:480-496 | the loop, with its 32-bit bound, terminates; it succeeds exactly when the list has a page for every missing table, and then has exactly that effect |
| `BootMap.RegionExtends` | kern/pmap.c:487-490 | the loop's front-to-back order equals the recursive description |
| `BootMap.DocumentedIff` | kern/pmap.c:469-490 | for every aligned static request the entries left are those the header documents, size in bytes, if and only if the pages past the bytes (all pages, when the 32-bit bound wraps to 0) had the entries of the mapping before |
| `BootMap.DocumentedOnlyEmpty` | kern/pmap.c:469-490 | where those pages are unmapped, if and only if size is 0 |
| `BootMap.StackCallOverruns` | kern/pmap.c:219 | the stack call does not have the documented effect: 32760 pages from KERNBASE, unmapped before, get what follows the boot stack |
| `BootMap.KernelMapIsIntended` | kern/pmap.c:187-234 | from an empty directory and 66 free pages the three calls give exactly the intended entry for every page outside the window and exactly the intended directory, although the stack call overruns |
| `CheckMap.KernelMapRights` | kern/pmap.c:187-236 | outside the window the processor then translates exactly the pages array, readable by user and kernel and writable by neither, and the stack and all of physical memory, writable and for the kernel only |
| `CheckMap.ChecksPagesArray` | kern/pmap.c:808-811 | on the intended map check_kern_pgdir finds the pages array at UPAGES |
| `CheckMap.ChecksStack` | kern/pmap.c:818-820 | and the kernel stack at its pages |
| `CheckMap.ChecksDirectory` | kern/pmap.c:823-839 | and each directory entry present, writable or zero as it demands |
| `CheckMap.GuardIsUnmapped` | kern/pmap.c:205-214 | no page of the stack guard is mapped |
| `CheckMap.Va2Pa` | kern/pmap.c:848-860 | reads the page address through both levels, or ~0 |
| `CheckMap.CheckKernPgdir` | kern/pmap.c:800-841 | with its 32-bit loops, on any valid tables: passes exactly when all its assertions hold of the tables |
| `CheckMap.CheckMeans` | kern/pmap.c:800-841 | on at most 256 MB the check passes if and only if the processor takes the pages at 0xEF000000, 0xF0000000 and 0xEFFF8000 to the pages array, to physical memory and to the boot stack, does not translate the guard's first page, and the directory entries are present, writable or zero as listed |
| `CheckMap.KernelMapPassesIff` | kern/pmap.c:800-841 | the intended map passes the whole check if and only if the number of pages modulo 2^20 is at most 65536 |
| `MemInit.BootStructures` | kern/pmap.c:153-174 | the two boot allocations give the directory, mapping itself and nothing else, and the array, or panic exactly when they do not fit; no frame at or above 4 MB is written |
| `MemInit.RunChecks` | kern/pmap.c:185-187 | the three checks pass if and only if a page past the boot allocations is free and the machine has at most 65536 pages; then the first 66 pages of the list are below 4 MB, no frame at or above it was written, and every frame outside those 66 is known |
| `MemInit.MapKernel` | kern/pmap.c:201-234 | the three mapping calls take exactly the first 66 pages of the list, give the intended map, write no frame at or above 4 MB and leave every table below |
| `MemInit.BeforeLoad` | kern/pmap.c:139-248 | everything up to lcr3 passes if and only if boot_alloc grants both requests, a page past them is free and the machine has at most 65536 pages, all of it within the 4 MB the entry page directory maps |
| `CheckInstalled.ReadWord` | kern/pmap.c:1036 | a read through a virtual address, from the TLB or by a walk that may be cached, gives what the tables say or faults, in any valid state |
| `CheckInstalled.BenchWritten` | kern/pmap.c:1041 | writing a page that was unreferenced leaves the table under test and everything known of it in place |
| `CheckInstalled.CheckPageInstalled` | kern/pmap.c:1017-1056 | from every valid state with three free pages and directory entry 0 absent: its whole transcript, with the words read and written through the new mapping, cached or not; tables, counts, translations and the free set are restored, and the frames of exactly the three pages end as stated |
| `MemInit.MemInit` | kern/pmap.c:139-261 | from the reset machine to its last check: runs to its end if and only if boot_alloc grants both requests, the machine has at most 65536 pages, and more than 1024 or more than 66 past the boot allocations; then the state is valid, its tables are the intended kernel map, and the free list is the stated list without its first 66 pages, its second and third swapped, with every page's contents |
| `LowMemory.RegionWrites` | kern/pmap.c:480-496 | for any set of pages: a mapping whose directory, tables and new tables are in it writes no frame outside it |
| `LowMemory.KernelMapLow` | kern/pmap.c:201-234 | the three mappings of mem_init, with tables from low pages, write nothing at or above 4 MB and keep every table low |
| `LowMemory.KernelMapFrames` | kern/pmap.c:201-234 | in any case they write no frame but the directory's and those of the first 66 pages of the list |
| `LowMemory.PartitionedAre` | kern/pmap.c:667-680 | the whole list after the reordering: from 4 MB down to the end of the boot allocations, from page 159 down to 1, then from the end of memory down to 4 MB |
| `LowMemory.PartitionedFront` | kern/pmap.c:667-680 | after the reordering the first 66 pages of page_init's list are below 4 MB, and a page below 1 MB is left behind them |
| `LowMemory.ExtendedLeftIff` | kern/pmap.c:706-709 | with those 66 gone a page above 1 MB is left if and only if the machine has more than 1024 pages or more than 66 past the boot allocations |
| `StabSearch.StabBinsearch` | kern/kdebug.c:50-94 | terminates on every table; returns left > right exactly when the region has no entry of the type; on sorted regions brackets the address up to the overshoot it reports |
| `StabSearch.BracketsIff` | kern/kdebug.c:24-48 | the documented bracketing is returned if and only if the search does not overshoot, for every sorted region with an entry at or below the address |
| `StabSearch.OvershootNeedsBoth` | kern/kdebug.c:75-81 | overshooting needs entries with exactly the address and the address plus one |
| `StabSearch.BracketsUnique` | kern/kdebug.c:30-36 | at most one pair of indices brackets an address |
| `StabSearch.OvershootExample` | kern/kdebug.c:75-81 | a two-entry table on which the search overshoots |
| `DebugInfo.Search` | kern/kdebug.c:50-94 | one search by its exact result, bracketing, empty or all later; it returns an index before the region exactly when its first entry is of the type and later than the address |
| `DebugInfo.DebugInfoEip` | kern/kdebug.c:104-212 | on any table: the result is exactly what the three nested searches determine; an enclosed address is reported with its own file, function, line and arguments; it fails when the file search ends at index 0 or no line is found; with main-file entries in order it reads before the table if and only if the first entry is one and later than the address |
| `DebugInfo.EnclosingPlaceIsReported` | kern/kdebug.c:140-212 | an address with an enclosing file past the first, function and line is reported with that function, its address and that line, with the last file name given at or before the line by an N_SOL entry or an N_SO entry with an address, and with the number of N_PSYM entries that directly follow the function |
| `DebugInfo.WholeFileIff` | kern/kdebug.c:162-187 | the search of the whole file is made if and only if the file has no function entry; then no function and no arguments are reported, the address is kept, and line and file name are those of the file search, or the call fails exactly when the file has no line |
| `DebugInfo.FallbackIff` | kern/kdebug.c:149-168 | with no function at or below the address, the documented fallback happens if and only if the file has no function; otherwise the file's own entry is reported as the function |
| `DebugInfo.MissedFallback` | kern/kdebug.c:149-187 | a table on which the code returns the main-file entry's n_desc as the line where the whole-file search finds line 70 |
| `DebugInfo.BeforeFirstFile` | kern/kdebug.c:140-151 | a table and an address for which the second search starts before the table |
| `DebugInfo.FileEntry` | kern/kdebug.c:195-200 | the nearest entry that names a file, searching back, with nothing naming one in between |
| `DebugInfo.Parameters` | kern/kdebug.c:205-210 | the length of the maximal run of parameter entries |
| `Numbers.ValueOfDigits` | lib/printfmt.c:35-50 | the digits printnum prints denote the number, for every number and base |
| `Numbers.Strtol` | lib/string.c:239-284 | in place: value and end of the longest digit run after blanks, sign and prefix, wrapping at each step as once |
| `Numbers.ReadsBack` | lib/string.c:239-284 | any digit string after blanks and an optional minus is read back whole, modulo 2^32 |
| `Parsing.StrtolReads` | lib/string.c:239-284 | any blanks and tabs, '+', '-' or no sign, the prefix that the base allows, also base 0, digits in either case and a character that is no digit: the number with its sign modulo 2^32, and the place where the digits end |
| `Numbers.PrintedReadsBackIff` | lib/printfmt.c:35-50 | for every number, base 8, 10 or 16, width and padding character: the printed text is read back to its end as the number exactly when it fits a long and the padding is harmless |
| `Printf.NumTextLength` | lib/printfmt.c:35-50 | printnum prints exactly the larger of the width and the number of digits |
| `Printf.SprintBuf.Putch` | lib/printfmt.c:261-267 | the buffer holds what fits of the text so far and the count is the length of all of it |
| `Printf.SprintBuf.Printnum` | lib/printfmt.c:35-50 | the recursion by side effect appends the padded digits |
| `Printf.SprintBuf.ScanEscape` | lib/printfmt.c:104-153 | the flag loop leaves the variables and position of the scanner function, never passing a '%' or the terminator |
| `Printf.SprintBuf.BackUp` | lib/printfmt.c:236-240 | backing up from an unknown escape ends just after its '%' |
| `Printf.SprintBuf.Vprintfmt` | lib/printfmt.c:82-243 | terminates on every format string without reading past its end and appends exactly its rendering; reports a read outside the message table exactly when some %e reached makes one |
| `Printf.Vsnprintf` | lib/printfmt.c:269-284 | the buffer gets the first n-1 characters at most, then NUL, nothing else; the result counts the whole text |
| `Printf.StrayIndexIff` | lib/printfmt.c:163-170 | %e indexes before the table of messages if and only if its argument is the smallest int |
| `Printf.ErrorTextIs` | lib/printfmt.c:21-29 | %e prints the same message for a code and its negative, the one the table has for it, or the code as a number |
| `Printf.StrTextIs` | lib/printfmt.c:175-188 | %s character by character: cut off at the precision, padded to the width on the side and with the character the flag says, unprintable characters as '?' with '#', "(null)" for NULL |
| `Printf.UnknownEscapeIsVerbatim` | lib/printfmt.c:236-240 | an unrecognised escape, also one cut off by the end, comes out as written |
| `Printf.PlainTextIsVerbatim` | lib/printfmt.c:91-96 | text without escapes is printed as it is |
| `Printf.ConversionRoundTripIff` | lib/printfmt.c:190-228 | %d, %u, %o and %x of any argument, long long included, with any width and padding: read back by strtol as the argument to the end exactly when it fits a long and the padding is harmless |
| `Printf.PadIsOneOfThree` | lib/printfmt.c:104-120 | no escape sets a padding character other than blank, 0 and - |
| `Formats.EscapeScans` | lib/printfmt.c:98-153 | every escape, with '#', a padding flag, a width and a precision in digits below 2^31 or as '*', and any number of 'l', is scanned as that and nothing else |
| `Formats.ConvertIsText` | lib/printfmt.c:54-234 | its text is that of its own argument, counted past the stars: the 32-bit or, with two 'l', 64-bit number, signed for %d, in the base of the conversion; and it uses up one argument, except %% |
| `Formats.PiecesRender` | lib/printfmt.c:82-243 | a format string of texts and escapes prints them in order, every escape with the next arguments |
| `Formats.FieldsInOrder` | lib/printfmt.c:82-243 | with numeric fields between texts, the i-th field prints the i-th argument |
| `RoundTrip.PrintThenParse` | lib/printfmt.c:269-284 | vsnprintf with such a field into any buffer that holds the text, then strtol: the first argument, as an int or unsigned, comes back to the last character exactly when it fits a long and the padding is harmless |
| `MemMove.CopiedUpwards` | lib/string.c:159-167 | copying the low part first is a snapshot copy when the destination does not lie ahead inside the source |
| `MemMove.CopiedDownwards` | lib/string.c:148-158 | copying the high part first is one when the destination is not below the source |
| `MemMove.Memmove` | lib/string.c:141-169 | the assembly version equals a copy from a snapshot for every overlap, length and alignment, in bytes or words and either direction |
| `MemMove.MemmoveC` | lib/string.c:187-205 | the C version meets the same contract |
| `MemMove.Memset` | lib/string.c:121-139 | sets exactly the n bytes, in words or bytes |
| `MemMove.MoveThereAndBack` | lib/string.c:141-169 | moving a block away and back restores it, for every overlap |
| `BootLoader.ReadSeg` | boot/main.c:69-96 | memory gets whole sectors from the one below pa to the end, and nothing else changes |
| `BootLoader.ReadSegEndsIff` | boot/main.c:87-95 | some sector address reaches the end, so that the loop can stop, if and only if ReadSeg's requirement holds |
| `BootLoader.BootMain` | boot/main.c:38-67 | on any disk for which every readseg stops: a bad magic number ends it; otherwise memory and entry point are what the loop leaves, reading each header from memory as it then is |
| `BootLoader.BootableBoots` | boot/main.c:38-60 | when no segment reaches the header page, that is exactly the segments of the table on the disk, and the entry point there |
| `BootLoader.LoadedByLast` | boot/main.c:84-85 | each byte is decided by the last segment whose sectors cover it |
| `BootLoader.BootsRightIff` | boot/main.c:38-67 | for every bootable disk: bootmain leaves every segment as the image has it on all disks with the same first 4096 bytes of image, if and only if each byte's last covering segment takes it from the right place, or from one in those 4096 bytes that holds the same byte |
| `BootLoader.SettledIsConsistent` | boot/main.c:51-56 | when no segment starts in those 4096 bytes, if and only if it takes it from the right place |
| `BootLoader.OrderedConsistentIff` | boot/main.c:83-85 | for increasing disjoint nonempty segments that condition holds if and only if each sits at its file offset modulo 512 and any two that share a sector are equally displaced |
| `BootLoader.BootLoadsImage` | boot/main.c:38-67 | for such an image bootmain stops and leaves every byte of every segment as the image has it, despite sector over-copy |
| `ElfImage.HeadersAreRecords` | inc/elf.h:6-33 | on a disk that holds an Elf record and a table of Proghdr records, laid out field by field as little-endian integers, the loader finds the entry point and each segment's p_pa, p_memsz and p_offset |
| `ElfImage.BootImage` | boot/main.c:38-67 | bootmain on such a disk, with loadable segments: p_memsz bytes from p_offset end at p_pa, for every program header, and it jumps to e_entry |
| `Screen.Cga.Putc` | kern/console.c:162-209 | for every character the buffer stays the 25-row window of an unbounded screen, and the cursor and all writes stay in bounds |
| `Screen.Cga.Scroll` | kern/console.c:194-202 | the text moves up one row and the last row is blank |
| `Screen.TextIsKept` | kern/console.c:189-202 | any printed text, however long, appears cell after cell on the unbounded screen: wrapping and scrolling lose nothing |
| `Screen.CellsAre` | kern/console.c:165-167 | a character without an attribute is printed light grey on black, one with an attribute as it is |
| `Screen.NewlineStartsRow` | kern/console.c:176-181 | a newline goes to the start of the next row and changes nothing on the screen; a row it adds is blank |
| `Screen.ReturnStartsRow` | kern/console.c:179-181 | a return goes to the start of the same row and changes nothing |
| `Screen.TabIsFiveBlanks` | kern/console.c:182-188 | a tab prints five blanks, wherever the cursor is, across wraps and scrolls |
| `Screen.BackspaceUndoes` | kern/console.c:170-175 | a backspace takes back exactly the last printed character, also across a scroll |

## Left out

- Accessed and dirty bits, large pages, several address spaces and several processors: this code has one processor and one directory.
- Panics: a call that would panic is excluded by a precondition that is exactly the panic's test (`FreePanics`, `DecrefPanics`, `KaddrPanics`, `InsertSafe`), or is a result (`BootAlloc`, `PageInit`, `CheckMap`, `MemInit`); printing and the monitor loop after a panic are not modelled.
- i386_detect_memory: the number of pages is a parameter; CMOS reads are not modelled.
- The control-register writes at the end of mem_init (kern/pmap.c:252-257).
- Reads above 4 MB before the directory is loaded: `MemInit.BeforeLoad` shows that no such frame is written and that the directory, all tables and the pages the checks clear and read lie below; a fault on a read is not itself an event of the model.
- PageInfo and page words as one memory: counts, links and page words are three arrays, so a stray write from a page to the array is not expressible.
- The checking code while hardware fills the TLB with other addresses: `HwRuns` covers the five operations; check_page_installed_pgdir's own accesses may be cached or not, and `CheckTables.TakenBackCoherentIff` says what a cached window page would do.
- Machines with more than 65536 pages past mem_init's first check, which panics on them: methods that go through a kernel address require at most 65536; the lemmas about states speak of the model's functions for any number.
- BootMap.BootMapRegion: requires page-aligned addresses, as its header demands, pages that stay in the static area, and no cached translation in the region, which `BootMap.StaticWriteKeepsInvIff` shows to be what the code needs; a false result stands for the write through the NULL that pgdir_walk returned.
- Pmap.Machine.PageLookup: requires the entry's page number to exist, which is pa2page's panic test.
- Runs.RunRefines: the run may not free or enter a page its caller does not hold, may not enter one at or above UTOP, where entries are not counted, and may not exceed 65535 references; `InsertKeepsInvIff` and `TailDoubleFree` say what happens otherwise.
- StabSearch.StabBinsearch: the bracketing is stated for regions whose entries of the type are in order and below the last address; nothing but termination, bounds and the empty case is stated for others.
- DebugInfo.DebugInfoEip: the string table's contents, eip_fn_namelen, what a failed call has stored in the structure, and the panic for user addresses are not modelled; the exact result is stated for searches that are in order and do not overshoot.
- Printf.SprintBuf.Vprintfmt: the count of characters and the running width are unbounded integers; nothing is said of a call after a read outside the message table.
- ElfImage.BootImage: stated for images whose program headers lie in the first 4096 bytes and whose segments are in increasing order, clear of the header page and placed at their file offsets modulo 512; `BootLoader.BootMain` and `BootLoader.BootsRightIff` speak of the others.
- Formats.PiecesRender: a width or precision written in digits does not start with 0, which is the padding flag; `Printf.SprintBuf.Vprintfmt` is for every format string.
- Numbers.Strtol: signed overflow, undefined in C, wraps at 32 bits here as the compiled code does.
- MemMove.Memmove: one flat memory without address wrap-around; the pointer returned is not modelled.
- BootLoader.ReadSeg: requires that the end is not in the last 512 bytes of the address space, where the loop does not stop (`ReadSegEndsIff`); the disk is a function from byte position to byte.
- BootLoader.BootMain: the loader's own code and stack are not part of the memory that segments may overwrite.
- Screen.Cga.Putc: the cursor registers, the serial and parallel ports and cga_init are not modelled.
- runcmd's tokenizer and command lookup (kern/monitor.c:96-132), strlen, strcpy, strcmp, strchr and the other string loops are out of scope.
- The console input ring and readline, the keyboard, printf's wrappers, the backtrace command and kern/entrypgdir.c.
