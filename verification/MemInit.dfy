// mem_init of kern/pmap.c, from its first allocation to its last check.
module MemInit {
  import opened Mmu
  import opened PageState
  import opened Pmap
  import opened BootAlloc
  import opened PageInit
  import opened CheckAlloc
  import opened CheckTables
  import opened BootMap
  import opened CheckMap
  import opened CheckInstalled
  import opened Transcripts
  import opened LowMemory

  // boot_alloc's two requests: the page directory and the array of PageInfo.
  function Requests(npages: nat): (ns: seq<Word>)
    requires npages <= MAXPAGES
  {
    [PGSIZE, npages * 8]
  }

  predicate Granted2(kernelEnd: Word, npages: nat)
    requires npages <= MAXPAGES
  {
    |Grants(0, kernelEnd, Requests(npages))| == 2
  }

  // The physical address boot_alloc(0) stands for after both.
  function BootEnd(kernelEnd: Word, npages: nat): (end: Word)
    requires KERNBASE <= kernelEnd <= LIMIT && npages <= MAXPAGES
    requires |Grants(0, kernelEnd, Requests(npages))| == 2
    ensures kernelEnd - KERNBASE <= end <= 0x40_0000 && end % PGSIZE == 0
  {
    LeftIsPastEveryGrant(0, kernelEnd, Requests(npages));
    Left(0, kernelEnd, Requests(npages)) - KERNBASE
  }

  // The machine as the boot loader leaves it.
  ghost predicate Reset(m: Machine, a: BootAllocator)
    reads m, m.ref, m.link, m.mem, a
  {
    && m.WellFormed() && m.head == None && m.tlb == map[]
    && a.nextfree == 0 && KERNBASE + EXTPHYSMEM < a.end <= LIMIT
    && 0 < m.mem.Length && m.pgdir * PGSIZE == RoundUp32(a.end) - KERNBASE
  }

  // memset(kern_pgdir, 0, PGSIZE) and the self-map entry.
  method ClearDirectory(m: Machine)
    requires m.WellFormed() && m.pgdir < REACH
    modifies m.mem
    ensures m.WellFormed() && EmptyDirectory(m.St()) && Pde(m.St(), SELF) == Pack(m.pgdir, 5)
    ensures forall p :: 0 <= p < m.mem.Length && p != m.pgdir ==> m.mem[p] == old(m.mem[p])
  {
    m.ClearPage(m.pgdir);
    m.mem[m.pgdir] := m.mem[m.pgdir][SELF := Pack(m.pgdir, 5)];
  }

  // memset(pages, 0, npages * sizeof(struct PageInfo))
  method ClearInfo(m: Machine)
    requires m.WellFormed()
    modifies m.ref, m.link
    ensures m.WellFormed() && SameTables(old(m.St()), m.St())
  {
    ghost var s := m.St();
    forall p | 0 <= p < m.ref.Length { m.ref[p] := 0; }
    forall p | 0 <= p < m.link.Length { m.link[p] := None; }
    SameMemory(s, m.St());
  }

  lemma StoreIsPaged(end: Word, ns: seq<Word>)
    requires KERNBASE <= end <= LIMIT && |ns| == 2 && |Grants(0, end, ns)| == 2
    ensures var got := Grants(0, end, ns);
            && KERNBASE <= got[1] && (got[1] - KERNBASE) % PGSIZE == 0
            && got[0] == RoundUp32(end) && got[0] + ns[0] <= Left(0, end, ns) <= LIMIT
            && Served(Left(0, end, ns), end, 0) == (Left(0, end, ns), Some(Left(0, end, ns)))
  {
    hide RoundUp32;
    ServedInside(0, end, ns[0]);
    GrantsInside(0, end, ns);
    LeftIsPastEveryGrant(0, end, ns);
    GrantsOfTwo(end, ns);
  }

  // kern/pmap.c:153-174: the directory, with itself as a page table, and the
  // PageInfo array. false is boot_alloc's panic.
  method BootStructures(m: Machine, a: BootAllocator) returns (ok: bool, pages: nat, end: Word)
    requires Reset(m, a)
    modifies a, m.mem, m.ref, m.link
    ensures m.WellFormed() && m.mem.Length <= MAXPAGES
    ensures ok <==> |Grants(0, a.end, Requests(m.mem.Length))| == 2
    ensures ok ==> end == BootEnd(a.end, m.mem.Length)
                   && pages * PGSIZE == Grants(0, a.end, Requests(m.mem.Length))[1] - KERNBASE
    ensures ok ==> m.head == None && m.tlb == map[] && Reserved(m.pgdir, end) && 160 <= m.pgdir < LOW_PAGES
    ensures ok ==> HighSame(old(m.St()), m.St()) && SameOutside(old(m.St()), m.St(), {m.pgdir})
    ensures ok ==> EmptyDirectory(m.St()) && Pde(m.St(), SELF) == Pack(m.pgdir, 5)
  {
    hide RoundUp32, Served, Grants, Left, Pde, Pte;
    MaxPages(m);
    ghost var ns, end0 := Requests(m.mem.Length), a.end;
    ServedInside(0, end0, PGSIZE);
    GrantsOfTwo(end0, ns);
    ok, pages, end := false, 0, 0;
    var dir := a.Alloc(PGSIZE);
    if dir == None {
      return;
    }
    ServedInside(a.nextfree, end0, m.mem.Length * 8);
    ClearDirectory(m);
    var store := a.Alloc(m.mem.Length * 8);
    if store == None {
      return;
    }
    ClearInfo(m);
    StoreIsPaged(end0, ns);
    ok := true;
    pages := (store.value - KERNBASE) / PGSIZE;
    var next := a.Alloc(0);
    end := next.value - KERNBASE;
  }

  lemma GrantsOfTwo(end: Word, ns: seq<Word>)
    requires |ns| == 2
    ensures var (n1, r1) := Served(0, end, ns[0]);
            var (n2, r2) := Served(n1, end, ns[1]);
            && (|Grants(0, end, ns)| == 2 <==> r1 != None && r2 != None)
            && (r1 != None && r2 != None ==> Grants(0, end, ns) == [r1.value, r2.value] && Left(0, end, ns) == n2)
  {
    hide Served;
    var tail := ns[1..];
    assert tail[1..] == [];
    var (n1, r1) := Served(0, end, ns[0]);
    if r1 != None {
      var (n2, r2) := Served(n1, end, tail[0]);
      assert r2 != None ==> Left(n1, end, tail) == Left(n2, end, tail[1..]);
    }
  }

  // ---------- the steps before the directory is loaded ----------

  // page_init on the new directory.
  method InitLists(m: Machine, end: Word) returns (ghost o: Own)
    requires m.WellFormed() && m.head == None && m.tlb == map[]
    requires EXTPHYSMEM < end <= 0x40_0000 && Reserved(m.pgdir, end)
    requires EmptyDirectory(m.St()) && Pde(m.St(), SELF) == Pack(m.pgdir, 5)
    modifies m`head, m.ref, m.link
    ensures m.Sound(o) && EmptyDirectory(m.St())
    ensures o.free == FreePages(m.mem.Length, end) && o.held == [] && Unreserved(o.free, end)
    ensures HighSame(old(m.St()), m.St()) && m.mem[..] == old(m.mem[..])
  {
    hide Inv, Swept, FreePages, Reserved, Unclaimed;
    ghost var s := m.St();
    PageInit.PageInit(m, end);
    SameMemory(s, m.St());
    InitialStateIsValid(m.St(), end);
    MaxPages(m);
    FreePagesExact(m.mem.Length, end);
    o := Own(FreePages(m.mem.Length, end), [], set p | 0 <= p < m.mem.Length && Reserved(p, end));
  }

  // kern/pmap.c:185-187. The first check fails exactly when nothing is free past
  // the boot allocations or the machine has more than 256 MB; else all three
  // pass, the list is partitioned but for its first three pages, nothing at or
  // above 4 MB was written, and below it exactly the listed pages were filled.
  method RunChecks(m: Machine, end: Word, ghost o: Own) returns (ok: bool, ghost o': Own)
    requires m.Sound(o) && EmptyDirectory(m.St()) && o.held == [] && m.pgdir < LOW_PAGES
    requires o.free == FreePages(m.mem.Length, end) && Unreserved(o.free, end) && m.mem.Length >= 160
    modifies m, m.ref, m.link, m.mem
    ensures ok <==> HasExtended(o.free) && m.mem.Length <= REACH
    ensures ok ==> m.Valid(o') && EmptyDirectory(m.St()) && FrontLow(o'.free, 66)
    ensures ok ==> |Partitioned(o.free)| >= 66 && o'.free[66..] == Partitioned(o.free)[66..]
    ensures ok ==> HighSame(old(m.St()), m.St())
    ensures ok ==> forall p: nat :: p < m.mem.Length && p !in o'.free[..66] ==> m.mem[p] == FilledLow(old(m.mem[p]), p, o.free)
  {
    hide Inv, Partitioned, FreePages, HasExtended, HasBase, Reached, Reserved, Pde, Pte, FrontLow, HighSame, Poisoned, AllocChecks, PageChecks, Transcript;
    ghost var n, s0 := m.mem.Length, m.St();
    MaxPages(m);
    FreeReachedIff(n, end);
    PartitionedFront(n, end);
    BaseIsFree(o.free, n, end);
    ok, o' := CheckPageFreeList(m, true, end, o);
    if !ok {
      return;
    }
    ghost var q, s1 := o'.free, m.St();
    FrontThree(q);
    CheckPageAlloc(m, o');
    ghost var s2 := m.St();
    o' := CheckPage(m, o');
    ReorderedFront(q, o'.free);
    assert m.St().mem == s1.mem[q[2] := ZeroFrame()][q[0] := ZeroFrame()];
    FilledThenCleared(s0, s1, m.St(), o.free, q, o'.free);
  }

  // A frame after the first check_page_free_list.
  function FilledLow(f: Frame, p: nat, free: seq<nat>): Frame
  {
    if p in free && p < LOW_PAGES then Poisoned(f) else f
  }

  lemma FilledThenCleared(s0: State, s1: State, s2: State, free: seq<nat>, q: seq<nat>, r: seq<nat>)
    requires NPages(s1) == NPages(s0) && forall p: nat :: p < NPages(s0) ==> s1.mem[p] == FilledLow(s0.mem[p], p, free)
    requires |q| >= 66 && q[0] < NPages(s1) && q[2] < NPages(s1) && q[0] < LOW_PAGES && q[2] < LOW_PAGES
    requires s2.mem == s1.mem[q[2] := ZeroFrame()][q[0] := ZeroFrame()]
    requires r == [q[2], q[1], q[0]] + q[3..]
    ensures HighSame(s0, s2)
    ensures forall p: nat :: p < NPages(s2) && p !in r[..66] ==> s2.mem[p] == FilledLow(s0.mem[p], p, free)
  {
    hide Poisoned;
    assert r[..66][0] == q[2] && r[..66][2] == q[0];
  }

  lemma BaseIsFree(free: seq<nat>, n: nat, end: Word)
    requires free == FreePages(n, end) && n >= 160
    ensures HasBase(free)
  {
    FreePagesExact(n, end);
    hide FreePages;
    assert !Reserved(1, end) && 1 in free && 1 * PGSIZE < EXTPHYSMEM;
  }

  lemma FrontThree(q: seq<nat>)
    requires FrontLow(q, 66)
    ensures forall p :: p in q[..3] ==> p < LOW_PAGES
    ensures |q| >= 66 && q[0] < LOW_PAGES && q[1] < LOW_PAGES && q[2] < LOW_PAGES
  {
  }

  lemma ReorderedFront(q: seq<nat>, r: seq<nat>)
    requires FrontLow(q, 66) && r == [q[2], q[1], q[0]] + q[3..]
    ensures FrontLow(r, 66) && r[66..] == q[66..]
    ensures forall p :: p in r[..66] <==> p in q[..66]
  {
    assert q[..66] == [q[0], q[1], q[2]] + q[3..66] && r[..66] == [q[2], q[1], q[0]] + q[3..66];
  }

  // kern/pmap.c:201, 219 and 234, which take the first 66 pages of the list.
  method MapKernel(m: Machine, pages: nat, np: nat, stack: nat, ghost o: Own) returns (ghost o': Own)
    requires m.Valid(o) && EmptyDirectory(m.St()) && FrontLow(o.free, 66) && m.pgdir < LOW_PAGES
    requires 1 <= np <= 1024 && pages + np <= MAXPAGES && stack + KSTKSIZE <= MAXPAGES
    modifies m, m.ref, m.link, m.mem
    ensures m.Valid(o') && o' == o.(free := o.free[66..]) && IsKernelMap(m.St(), pages, np, stack)
    ensures TablesLow(m.St()) && HighSame(old(m.St()), m.St())
    ensures forall p: nat :: p < m.mem.Length && p != m.pgdir && p !in o.free[..66] ==> m.mem[p] == old(m.mem[p])
  {
    hide ListsValid, TablesValid, CountsValid, TlbValid, RegionSound, Region, OwnMapped, Missing, TablesLow, HighSame, EmptyDirectory, Pde, Pte, Intended;
    ghost var s := m.St();
    EmptyTablesLow(s, o);
    MapStages(s, o, pages, np, stack);
    KernelMapLow(s, o, pages, np, stack);
    KernelMapFrames(s, o, pages, np, stack);
    MappedAddresses();
    var ok;
    ghost var o1;
    ok, o1 := BootMapRegion(m, UPAGES, np, pages * PGSIZE, PTE_U + PTE_P, o);
    ok, o1 := BootMapRegion(m, KSTACKTOP - KSTKSIZE, KSTKSIZE, stack * PGSIZE, PTE_W + PTE_P, o1);
    ok, o' := BootMapRegion(m, KERNBASE, 0x1_0000, 0, PTE_W + PTE_P, o1);
    assert m.St() == KernelMapped(s, pages, np, stack);
    KernelMapIsIntended(s, o, pages, np, stack);
  }

  lemma EmptyTablesLow(s: State, o: Own)
    requires Inv(s, o) && EmptyDirectory(s) && s.pgdir < LOW_PAGES
    ensures TablesLow(s)
  {
    hide ListsValid, CountsValid, TlbValid;
  }

  // ---------- the whole ----------

  lemma FlushKeepsInv(s: State, o: Own)
    requires Inv(s, o)
    ensures Inv(s.(tlb := map[]), o) && SameTables(s, s.(tlb := map[]))
  {
    var s' := s.(tlb := map[]);
    SameMemory(s, s');
    TablesCarry(s, s');
    hide TablesValid, Pde, Pte;
  }

  // The boot allocations, page_init and the three checks, kern/pmap.c:153-187.
  method BootAndCheck(m: Machine, a: BootAllocator) returns (ok: bool, pages: nat, end: Word, ghost o: Own)
    requires Reset(m, a)
    modifies a, m, m.mem, m.ref, m.link
    ensures m.mem.Length <= MAXPAGES
    ensures ok <==> Granted2(a.end, m.mem.Length)
                    && HasExtended(FreePages(m.mem.Length, BootEnd(a.end, m.mem.Length)))
                    && m.mem.Length <= REACH
    ensures ok ==> end == BootEnd(a.end, m.mem.Length) && m.mem.Length >= 160
                   && pages * PGSIZE == Grants(0, a.end, Requests(m.mem.Length))[1] - KERNBASE
    ensures ok ==> m.Valid(o) && EmptyDirectory(m.St()) && m.pgdir < LOW_PAGES
    ensures ok ==> Front(o.free, Partitioned(FreePages(m.mem.Length, end)))
    ensures ok ==> HighSame(old(m.St()), m.St())
    ensures ok ==> forall p: nat :: p < m.mem.Length && p != m.pgdir && p !in o.free[..66] ==>
                     m.mem[p] == FilledLow(old(m.mem[p]), p, FreePages(m.mem.Length, end))
  {
    hide RoundUp32, Inv, Pde, Pte, Grants, FreePages, Partitioned, HasExtended, Unreserved, EmptyDirectory, HighSame, Reserved, FrontLow, FilledLow;
    ghost var s0 := m.St();
    o := Own([], [], {});
    ok, pages, end := BootStructures(m, a);
    if !ok {
      return;
    }
    ghost var s1, n := m.St(), m.mem.Length;
    MaxPages(m);
    o := InitLists(m, end);
    ghost var s2 := m.St();
    ok, o := RunChecks(m, end, o);
    HighTrans(s0, s1, s2);
    if ok {
      HighTrans(s0, s2, m.St());
    }
  }

  // free is list but for the order of its first 66 pages, which are low.
  predicate Front(free: seq<nat>, list: seq<nat>)
  {
    FrontLow(free, 66) && |list| >= 66 && free[66..] == list[66..]
  }

  // The mappings and check_kern_pgdir, kern/pmap.c:201-239.
  method MapAndCheck(m: Machine, pages: nat, n: Word, stack: nat, ghost o: Own) returns (ok: bool, ghost o': Own)
    requires m.Valid(o) && EmptyDirectory(m.St()) && FrontLow(o.free, 66) && m.pgdir < LOW_PAGES
    requires n % PGSIZE == 0 && 1 <= n / PGSIZE <= 1024 && pages + n / PGSIZE <= MAXPAGES && stack + KSTKSIZE <= MAXPAGES
    modifies m, m.ref, m.link, m.mem
    ensures ok
    ensures m.Valid(o') && o' == o.(free := o.free[66..]) && IsKernelMap(m.St(), pages, n / PGSIZE, stack)
    ensures TablesLow(m.St()) && HighSame(old(m.St()), m.St())
    ensures forall p: nat :: p < m.mem.Length && p != m.pgdir && p !in o.free[..66] ==> m.mem[p] == old(m.mem[p])
  {
    hide Inv, Pde, Pte, IsKernelMap, TablesLow, HighSame, PgdirPasses, EmptyDirectory;
    MaxPages(m);
    o' := MapKernel(m, pages, n / PGSIZE, stack, o);
    KernelTables(m.St(), pages, n / PGSIZE, stack);
    LowTablesReached(m.St());
    ok := CheckKernPgdir(m, pages, n, m.mem.Length, stack);
    KernelMapPassesIff(m.St(), pages, n / PGSIZE, stack, m.mem.Length);
  }

  lemma LowTablesReached(s: State)
    requires TablesLow(s)
    ensures TablesReached(s)
  {
  }

  // From the reset machine to lcr3. All of it runs on the entry page directory,
  // so no frame at or above 4 MB may be touched: none is written, and the
  // directory and every table lie below.
  method BeforeLoad(m: Machine, a: BootAllocator, stack: nat) returns (ok: bool, pages: nat, end: Word, ghost o: Own)
    requires Reset(m, a) && stack < 1024
    modifies a, m, m.mem, m.ref, m.link
    ensures m.mem.Length <= MAXPAGES
    ensures ok <==> Granted2(a.end, m.mem.Length)
                    && HasExtended(FreePages(m.mem.Length, BootEnd(a.end, m.mem.Length)))
                    && m.mem.Length <= 0x1_0000
    ensures ok ==> m.Valid(o) && end == BootEnd(a.end, m.mem.Length) && m.mem.Length >= 160
    ensures ok ==> pages * PGSIZE == Grants(0, a.end, Requests(m.mem.Length))[1] - KERNBASE
    ensures ok ==> IsKernelMap(m.St(), pages, RoundUp32(m.mem.Length * 8) / PGSIZE, stack)
    ensures ok ==> |Partitioned(FreePages(m.mem.Length, end))| >= 66
                   && o.free == Partitioned(FreePages(m.mem.Length, end))[66..]
    ensures ok ==> TablesLow(m.St()) && HighSame(old(m.St()), m.St())
    ensures ok ==> forall p: nat :: p in o.free ==>
                     p < m.mem.Length && m.mem[p] == FilledLow(old(m.mem[p]), p, FreePages(m.mem.Length, end))
  {
    hide FilledLow, RoundUp32, Inv, Pde, Pte, Grants, BootEnd, FreePages, Partitioned, HasExtended, IsKernelMap, TablesLow, HighSame, EmptyDirectory;
    ghost var s0 := m.St();
    ok, pages, end, o := BootAndCheck(m, a);
    if !ok {
      return;
    }
    ghost var s1 := m.St();
    ArrayBounds(a.end, m.mem.Length, pages);
    ghost var o1 := o;
    ok, o := MapAndCheck(m, pages, RoundUp32(m.mem.Length * 8), stack, o);
    HighTrans(s0, s1, m.St());
    forall p: nat | p in o.free ensures p < m.mem.Length && p != m.pgdir && p !in o1.free[..66] {
      ListedApart(s1, o1, p);
    }
  }

  // A page behind the first 66 is none of them, nor the directory.
  lemma ListedApart(s: State, o: Own, p: nat)
    requires Inv(s, o) && |o.free| >= 66 && p in o.free[66..]
    ensures p < NPages(s) && p != s.pgdir && p !in o.free[..66]
  {
    hide TablesValid, CountsValid, TlbValid;
    assert p in o.free;
    NotDirectory(s, o, p);
  }

  lemma ArrayBounds(kernelEnd: Word, npages: nat, pages: nat)
    requires KERNBASE <= kernelEnd <= LIMIT && 0 < npages <= MAXPAGES && Granted2(kernelEnd, npages)
    requires pages * PGSIZE == Grants(0, kernelEnd, Requests(npages))[1] - KERNBASE
    ensures RoundUp32(npages * 8) % PGSIZE == 0 && 1 <= RoundUp32(npages * 8) / PGSIZE <= 1024
    ensures pages + RoundUp32(npages * 8) / PGSIZE <= MAXPAGES && npages < MAXPAGES
  {
    PagesArrayFits(kernelEnd, npages);
    GrantsInside(0, kernelEnd, Requests(npages));
    hide Grants;
    RoundUpExact(npages * 8);
  }

  lemma KernelTables(s: State, pages: nat, np: nat, stack: nat)
    requires IsKernelMap(s, pages, np, stack)
    ensures TablesValid(s)
  {
  }

  lemma PartitionUnreserved(n: nat, end: Word, k: nat)
    requires n <= MAXPAGES && EXTPHYSMEM < end <= 0x40_0000 && k <= |Partitioned(FreePages(n, end))|
    ensures Unreserved(Partitioned(FreePages(n, end))[k..], end)
    ensures n <= REACH ==> Reached(Partitioned(FreePages(n, end))[k..])
  {
    FreePagesExact(n, end);
    PartitionMembers(FreePages(n, end));
    hide FreePages, Partitioned, Reserved;
    var q := Partitioned(FreePages(n, end));
    forall p: nat | p in q[k..] ensures p < MAXPAGES && !Reserved(p, end) {
      assert p in q;
    }
  }

  // The machine has a page free past the boot allocations when all else is done.
  predicate RoomLeft(npages: nat, end: Word) { npages > LOW_PAGES || npages > end / PGSIZE + 66 }

  // The whole of mem_init from the reset machine, with all its checking code; the
  // writes to cr0 are not modelled. It runs to the end exactly when boot_alloc grants both
  // requests, the machine has at most 256 MB, and either more than 4 MB or more
  // than 66 pages past the boot allocations; then the state is valid, its page
  // tables are the intended kernel map, and the free list and every page on it
  // are exactly as LeftFree says.
  method MemInit(m: Machine, a: BootAllocator, stack: nat) returns (ok: bool, pages: nat, ghost o: Own)
    requires Reset(m, a) && stack < 1024
    modifies a, m, m.mem, m.ref, m.link
    ensures m.mem.Length <= MAXPAGES
    ensures ok <==> Granted2(a.end, m.mem.Length) && m.mem.Length <= 0x1_0000
                    && RoomLeft(m.mem.Length, BootEnd(a.end, m.mem.Length))
    ensures ok ==> m.Valid(o) && m.tlb == map[]
                   && pages * PGSIZE == Grants(0, a.end, Requests(m.mem.Length))[1] - KERNBASE
    ensures ok ==> IsKernelMap(m.St(), pages, RoundUp32(m.mem.Length * 8) / PGSIZE, stack)
    ensures ok ==> var list := BootList(m.mem.Length, BootEnd(a.end, m.mem.Length) / PGSIZE);
                   |list| >= 69 && LeftFree(list[66..], o.free, old(m.mem[..]), m.mem[..])
  {
    hide RoundUp32, Inv, Pde, Pte, Grants, BootEnd, FreePages, Partitioned, HasExtended, HasBase, Unreserved, Reached, IsKernelMap, TablesLow, HighSame, FilledLow, Poisoned, LeftFree, BootList, Transcript;
    var end: Word;
    ghost var n, mem0 := m.mem.Length, m.mem[..];
    ok, pages, end, o := BeforeLoad(m, a, stack);
    if !ok {
      if Granted2(a.end, n) && RoomLeft(n, BootEnd(a.end, n)) {
        RoomNeeded(a.end, n);
      }
      return;
    }
    ghost var s := m.St();
    FreeIsDistinct(s, o);
    FlushKeepsInv(s, o);
    m.LoadCr3();
    PartitionUnreserved(n, end, 66);
    PartitionedFront(n, end);
    ExtendedLeftIff(n, end);
    ghost var q, mem1 := o.free, m.mem[..];
    ok, o := CheckPageFreeList(m, false, end, o);
    ghost var mem2 := m.mem[..];
    SameTablesTrans(s, s.(tlb := map[]), m.St());
    KernelMapCarries(s, m.St(), pages, RoundUp32(m.mem.Length * 8) / PGSIZE, stack);
    if !ok {
      return;
    }
    ghost var s1 := m.St();
    LowHalfEmpty(s1, pages, RoundUp32(m.mem.Length * 8) / PGSIZE, stack);
    FilledTwice(q, mem0, mem1, mem2, FreePages(n, end));
    o := CheckPageInstalled(m, o);
    PartitionedAre(n, end);
    LeftFreeHolds(q, o.free, mem0, mem2, m.mem[..]);
    KernelMapCarries(s1, m.St(), pages, RoundUp32(m.mem.Length * 8) / PGSIZE, stack);
  }

  // What is left on the list q: in its order but for the second and third page,
  // which check_page_installed_pgdir put back the other way round; those three
  // pages as that check left them, all others filled by check_page_free_list.
  ghost predicate LeftFree(q: seq<nat>, free: seq<nat>, was: seq<Frame>, now: seq<Frame>)
  {
    && |q| >= 3 && free == [q[0], q[2], q[1]] + q[3..] && |now| == |was| && (forall i :: 0 <= i < |q| ==> q[i] < |now|)
    && now[q[0]] == ZeroFrame() && now[q[1]] == Fill(0x0101_0101) && now[q[2]] == Fill(0x0202_0202)[0 := 0x0303_0303]
    && forall i :: 3 <= i < |q| ==> now[q[i]] == Poisoned(was[q[i]])
  }

  lemma LeftFreeHolds(q: seq<nat>, free: seq<nat>, was: seq<Frame>, mid: seq<Frame>, now: seq<Frame>)
    requires Distinct(q) && |q| >= 3 && |mid| == |was| && forall p: nat :: p in q ==> p < |was| && mid[p] == Poisoned(was[p])
    requires free == [q[0], q[2], q[1]] + q[3..]
    requires q[0] < |mid| && q[1] < |mid| && q[2] < |mid|
    requires now == mid[q[1] := Fill(0x0101_0101)][q[2] := Fill(0x0202_0202)[0 := 0x0303_0303]][q[0] := ZeroFrame()]
    ensures LeftFree(q, free, was, now)
  {
    hide Poisoned;
    forall i | 0 <= i < |q| ensures q[i] < |now| && (i >= 3 ==> now[q[i]] == Poisoned(was[q[i]])) {
      assert q[i] in q;
    }
  }

  lemma FilledTwice(q: seq<nat>, was: seq<Frame>, mid: seq<Frame>, now: seq<Frame>, free: seq<nat>)
    requires |mid| == |was| == |now| && forall p: nat :: p in q ==> p < |was| && mid[p] == FilledLow(was[p], p, free)
    requires forall p: nat :: p < |mid| && p in q ==> now[p] == Poisoned(mid[p])
    ensures forall p: nat :: p in q ==> p < |was| && now[p] == Poisoned(was[p])
  {
    hide Poisoned;
    forall p: nat | p in q ensures now[p] == Poisoned(was[p]) {
      PoisonedTwice(was[p]);
    }
  }

  lemma PoisonedTwice(f: Frame)
    ensures Poisoned(Poisoned(f)) == Poisoned(f)
  {
    assert forall i :: 0 <= i < 1024 ==> Poisoned(Poisoned(f))[i] == Poisoned(f)[i];
  }

  lemma LowHalfEmpty(s: State, pages: nat, np: nat, stack: nat)
    requires IsKernelMap(s, pages, np, stack)
    ensures Pde(s, 0) == 0
  {
  }

  // With room left at the end, there is a page past the boot allocations at first.
  lemma RoomNeeded(kernelEnd: Word, n: nat)
    requires KERNBASE + EXTPHYSMEM < kernelEnd <= LIMIT && n <= MAXPAGES && Granted2(kernelEnd, n)
    requires RoomLeft(n, BootEnd(kernelEnd, n))
    ensures HasExtended(FreePages(n, BootEnd(kernelEnd, n)))
  {
    var end := BootEnd(kernelEnd, n);
    FreePagesExact(n, end);
    hide FreePages, BootEnd;
    assert end / PGSIZE * PGSIZE == end;
    assert !Reserved(n - 1, end) && n - 1 in FreePages(n, end) && (n - 1) * PGSIZE >= EXTPHYSMEM;
  }

  lemma KernelMapCarries(s: State, s': State, pages: nat, np: nat, stack: nat)
    requires IsKernelMap(s, pages, np, stack) && SameTables(s, s')
    ensures IsKernelMap(s', pages, np, stack)
  {
    TablesCarry(s, s');
    hide TablesValid, Pde, Pte, Intended;
  }
}
