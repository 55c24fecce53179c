// check_va2pa and check_kern_pgdir (kern/pmap.c): the kernel's own test of its
// static mappings.
module CheckMap {
  import opened Mmu
  import opened PageState
  import opened Pmap
  import opened BootMap

  const NO_PAGE: Word := 0xFFFF_FFFF   // check_va2pa's ~0

  function CheckVa2Pa(s: State, va: Word): Word
  {
    if Mapped(s, VpnOf(va)) then Ppn(Pte(s, VpnOf(va))) * PGSIZE else NO_PAGE
  }

  // Every page table has a kernel address of its own.
  ghost predicate TablesReached(s: State) { forall d: Index :: HasTable(s, d) ==> TableOf(s, d) < REACH }

  method Va2Pa(m: Machine, va: Word) returns (pa: Word)
    requires m.WellFormed() && !KaddrPanics(m.St(), Pdx(va)) && TablesReached(m.St())
    ensures pa == CheckVa2Pa(m.St(), va)
  {
    var pde := m.mem[m.pgdir][Pdx(va)];
    if !Present(pde) {
      return NO_PAGE;
    }
    var pte := m.mem[Ppn(pde)][Ptx(va)];
    if !Present(pte) {
      return NO_PAGE;
    }
    return Ppn(pte) * PGSIZE;
  }

  // ---------- what check_kern_pgdir asserts ----------

  predicate MapsTo(s: State, va: Word, pa: Word, i: nat)
  {
    CheckVa2Pa(s, Add32(va, Bytes32(i))) == Add32(pa, Bytes32(i))
  }

  // One of its loops: for (i = 0; i < n; i += PGSIZE), n a number of bytes.
  ghost predicate RangeMapsTo(s: State, va: Word, pa: Word, n: Word)
  {
    forall i: nat :: i * PGSIZE < n ==> MapsTo(s, va, pa, i)
  }

  predicate EntryPasses(pde: Word, d: Index)
  {
    if d == Pdx(UVPT) || d == Pdx(KSTACKTOP - 1) || d == Pdx(UPAGES) then Present(pde)
    else if d >= Pdx(KERNBASE) then Present(pde) && Writable(pde)
    else pde == 0
  }

  // All its assertions; pages and stack are the physical page numbers of the
  // PageInfo array and of the boot stack, n the array's size rounded up.
  ghost predicate PgdirPasses(s: State, pages: nat, n: Word, npages: Word, stack: nat)
    requires pages < MAXPAGES && stack < MAXPAGES
  {
    && RangeMapsTo(s, UPAGES, pages * PGSIZE, n)
    && RangeMapsTo(s, KERNBASE, 0, Bytes32(npages))
    && RangeMapsTo(s, KSTACKTOP - KSTKSIZE, stack * PGSIZE, KSTKSIZE)
    && CheckVa2Pa(s, KSTACKTOP - PTSIZE) == NO_PAGE
    && forall d: Index :: EntryPasses(Pde(s, d), d)
  }

  // ---------- the routine ----------

  lemma NoPanic(s: State, d: Index)
    requires TablesValid(s)
    ensures !KaddrPanics(s, d)
  {
  }

  method CheckRange(m: Machine, va: Word, pa: Word, n: Word) returns (ok: bool)
    requires m.WellFormed() && TablesValid(m.St()) && TablesReached(m.St()) && n % PGSIZE == 0
    ensures ok <==> RangeMapsTo(m.St(), va, pa, n)
  {
    hide TablesValid, TablesReached, CheckVa2Pa, KaddrPanics, Add32;
    var i: Word := 0;
    ghost var k := 0;
    while i < n
      invariant i == k * PGSIZE <= n
      invariant forall j: nat :: j < k ==> MapsTo(m.St(), va, pa, j)
    {
      NoPanic(m.St(), Pdx(Add32(va, i)));
      assert Bytes32(k) == i;
      var got := Va2Pa(m, Add32(va, i));
      if got != Add32(pa, i) {
        assert !MapsTo(m.St(), va, pa, k);
        return false;
      }
      assert MapsTo(m.St(), va, pa, k);
      i := i + PGSIZE;
      k := k + 1;
    }
    ok := true;
  }

  method CheckEntries(m: Machine) returns (ok: bool)
    requires m.WellFormed()
    ensures ok <==> forall d: Index :: EntryPasses(Pde(m.St(), d), d)
  {
    hide EntryPasses;
    for d := 0 to NENTRIES
      invariant forall e: Index :: e < d ==> EntryPasses(Pde(m.St(), e), e)
    {
      assert m.mem[m.pgdir][d] == Pde(m.St(), d);
      if !EntryPasses(m.mem[m.pgdir][d], d) {
        return false;
      }
    }
    ok := true;
  }

  // check_kern_pgdir in any state with valid tables; false is a failed assertion.
  method CheckKernPgdir(m: Machine, pages: nat, n: Word, npages: Word, stack: nat) returns (ok: bool)
    requires m.WellFormed() && TablesValid(m.St()) && TablesReached(m.St())
    requires n % PGSIZE == 0 && pages < MAXPAGES && stack < MAXPAGES
    ensures ok <==> PgdirPasses(m.St(), pages, n, npages, stack)
  {
    hide TablesValid, TablesReached, RangeMapsTo, EntryPasses, CheckVa2Pa, KaddrPanics, Pdx;
    ok := CheckRange(m, UPAGES, pages * PGSIZE, n);
    if !ok {
      return;
    }
    ok := CheckRange(m, KERNBASE, 0, Bytes32(npages));
    if !ok {
      return;
    }
    ok := CheckRange(m, KSTACKTOP - KSTKSIZE, stack * PGSIZE, KSTKSIZE);
    if !ok {
      return;
    }
    NoPanic(m.St(), Pdx(KSTACKTOP - PTSIZE));
    var guard := Va2Pa(m, KSTACKTOP - PTSIZE);
    if guard != NO_PAGE {
      return false;
    }
    ok := CheckEntries(m);
  }

  // ---------- the kernel map passes it ----------

  lemma Va2PaOfPage(s: State, pages: nat, np: nat, stack: nat, n: nat)
    requires IsKernelMap(s, pages, np, stack) && n < MAXPAGES && n / 1024 != SELF
    ensures CheckVa2Pa(s, n * PGSIZE) ==
            var w := Intended(n, pages, np, stack); if Present(w) then Ppn(w) * PGSIZE else NO_PAGE
  {
    hide IsKernelMap, Intended, Pte, VpnOf;
    PageVpn(n);
    EntryIntended(s, pages, np, stack, VpnAt(n));
    assert Number(VpnAt(n)) == n;
  }

  lemma PageVpn(n: nat)
    requires n < MAXPAGES
    ensures VpnOf(n * PGSIZE) == VpnAt(n)
  {
  }

  lemma EntryIntended(s: State, pages: nat, np: nat, stack: nat, u: Vpn)
    requires IsKernelMap(s, pages, np, stack) && u.pdx != SELF
    ensures np <= 1024 && pages + np <= MAXPAGES && stack + KSTKSIZE <= MAXPAGES
    ensures Pte(s, u) == Intended(Number(u), pages, np, stack)
  {
    hide Pte, Intended;
  }

  lemma PageSum(p: nat, i: nat)
    requires p + i < MAXPAGES
    ensures p * PGSIZE < 0x1_0000_0000 && Add32(p * PGSIZE, Bytes32(i)) == (p + i) * PGSIZE
  {
  }

  lemma ChecksPagesArray(s: State, pages: nat, np: nat, stack: nat, i: nat)
    requires IsKernelMap(s, pages, np, stack) && i < np
    ensures MapsTo(s, UPAGES, pages * PGSIZE, i)
  {
    hide IsKernelMap, CheckVa2Pa, Add32, Bytes32;
    NpBound(s, pages, np, stack);
    Va2PaOfPage(s, pages, np, stack, UPAGES_VPN + i);
    PageSum(UPAGES_VPN, i);
    PageSum(pages, i);
  }

  lemma NpBound(s: State, pages: nat, np: nat, stack: nat)
    requires IsKernelMap(s, pages, np, stack)
    ensures np <= 1024 && pages + np <= MAXPAGES && stack + 8 <= MAXPAGES
  {
  }

  lemma ChecksStack(s: State, pages: nat, np: nat, stack: nat, i: nat)
    requires IsKernelMap(s, pages, np, stack) && i < 8
    ensures MapsTo(s, KSTACKTOP - KSTKSIZE, stack * PGSIZE, i)
  {
    hide IsKernelMap, CheckVa2Pa, Add32, Bytes32;
    NpBound(s, pages, np, stack);
    Va2PaOfPage(s, pages, np, stack, STACK_VPN + i);
    PageSum(STACK_VPN, i);
    PageSum(stack, i);
  }

  lemma ChecksDirectory(s: State, pages: nat, np: nat, stack: nat, d: Index)
    requires IsKernelMap(s, pages, np, stack)
    ensures EntryPasses(Pde(s, d), d)
  {
    hide TablesValid, Pte, Pdx, Intended;
    MappedIndices();
    if d == SELF {
      SelfPresent(s);
    }
  }

  lemma MappedIndices()
    ensures Pdx(UVPT) == SELF && Pdx(KSTACKTOP - 1) == 959 && Pdx(UPAGES) == 956 && Pdx(KERNBASE) == 960
  {
  }

  lemma SelfPresent(s: State)
    requires TablesValid(s)
    ensures Present(Pde(s, SELF))
  {
  }

  // The stack guard is not mapped at all.
  lemma GuardIsUnmapped(s: State, pages: nat, np: nat, stack: nat, n: nat)
    requires IsKernelMap(s, pages, np, stack) && (KSTACKTOP - PTSIZE) / PGSIZE <= n < STACK_VPN
    ensures Translate(s, VpnAt(n)) == None
  {
  }

  lemma ChecksPhysicalPage(s: State, pages: nat, np: nat, stack: nat, i: nat)
    requires IsKernelMap(s, pages, np, stack) && i < 0x1_0000
    ensures MapsTo(s, KERNBASE, 0, i)
  {
    hide IsKernelMap, CheckVa2Pa, Add32, Bytes32;
    NpBound(s, pages, np, stack);
    Va2PaOfPage(s, pages, np, stack, KERN_VPN + i);
    PageSum(KERN_VPN, i);
    PageSum(0, i);
  }

  lemma PhysicalCheckWraps(s: State, pages: nat, np: nat, stack: nat)
    requires IsKernelMap(s, pages, np, stack)
    ensures !MapsTo(s, KERNBASE, 0, 0x1_0000)
  {
    hide IsKernelMap, CheckVa2Pa;
    NpBound(s, pages, np, stack);
    Va2PaOfPage(s, pages, np, stack, 0);
    assert Add32(KERNBASE, 0x1_0000 * PGSIZE) == 0 * PGSIZE;
  }

  lemma GuardChecks(s: State, pages: nat, np: nat, stack: nat)
    requires IsKernelMap(s, pages, np, stack)
    ensures CheckVa2Pa(s, KSTACKTOP - PTSIZE) == NO_PAGE
  {
    GuardIsUnmapped(s, pages, np, stack, (KSTACKTOP - PTSIZE) / PGSIZE);
    assert VpnOf(KSTACKTOP - PTSIZE) == VpnAt((KSTACKTOP - PTSIZE) / PGSIZE);
  }

  // The intended map passes the whole check exactly when the number of pages,
  // modulo 2^20 as the loop's 32-bit bound takes it, is at most 65536: past
  // 256 MB KERNBASE + i wraps round to unmapped user addresses.
  lemma KernelMapPassesIff(s: State, pages: nat, np: nat, stack: nat, npages: Word)
    requires IsKernelMap(s, pages, np, stack) && pages < MAXPAGES
    ensures PgdirPasses(s, pages, np * PGSIZE, npages, stack) <==> npages % 0x10_0000 <= 0x1_0000
  {
    hide IsKernelMap, MapsTo, EntryPasses, CheckVa2Pa, Pdx;
    NpBound(s, pages, np, stack);
    forall i: nat | i * PGSIZE < np * PGSIZE ensures MapsTo(s, UPAGES, pages * PGSIZE, i) {
      ChecksPagesArray(s, pages, np, stack, i);
    }
    forall i: nat | i * PGSIZE < KSTKSIZE ensures MapsTo(s, KSTACKTOP - KSTKSIZE, stack * PGSIZE, i) {
      ChecksStack(s, pages, np, stack, i);
    }
    forall d: Index ensures EntryPasses(Pde(s, d), d) {
      ChecksDirectory(s, pages, np, stack, d);
    }
    GuardChecks(s, pages, np, stack);
    PhysicalPassesIff(s, pages, np, stack, npages);
  }

  lemma PhysicalPassesIff(s: State, pages: nat, np: nat, stack: nat, npages: Word)
    requires IsKernelMap(s, pages, np, stack)
    ensures RangeMapsTo(s, KERNBASE, 0, Bytes32(npages)) <==> npages % 0x10_0000 <= 0x1_0000
  {
    hide IsKernelMap, MapsTo;
    var k := npages % 0x10_0000;
    assert Bytes32(npages) == k * PGSIZE;
    if k > 0x1_0000 {
      PhysicalCheckWraps(s, pages, np, stack);
    } else {
      forall i: nat | i * PGSIZE < Bytes32(npages) ensures MapsTo(s, KERNBASE, 0, i) {
        ChecksPhysicalPage(s, pages, np, stack, i);
      }
    }
  }

  // ---------- what passing means ----------

  // The processor takes the i-th page from page n on to the i-th physical page
  // from p on.
  predicate Shows(s: State, n: nat, p: nat, i: nat)
    requires n + i < MAXPAGES
  {
    var x := Translate(s, VpnAt(n + i));
    x.Some? && x.value.ppn == p + i
  }

  lemma ShowsIff(s: State, n: nat, p: nat, i: nat)
    requires n + i < MAXPAGES && p + i < MAXPAGES
    ensures n * PGSIZE < 0x1_0000_0000 && p * PGSIZE < 0x1_0000_0000
    ensures MapsTo(s, n * PGSIZE, p * PGSIZE, i) <==> Shows(s, n, p, i)
  {
    hide VpnOf, VpnAt, Pte, Add32, Bytes32;
    PageSum(n, i);
    PageSum(p, i);
    PageVpn(n + i);
  }

  lemma RangeShowsIff(s: State, n: nat, p: nat, k: nat)
    requires n + k <= MAXPAGES && p + k <= MAXPAGES && n < MAXPAGES && p < MAXPAGES && k < MAXPAGES
    ensures n * PGSIZE < 0x1_0000_0000 && p * PGSIZE < 0x1_0000_0000 && k * PGSIZE < 0x1_0000_0000
    ensures RangeMapsTo(s, n * PGSIZE, p * PGSIZE, k * PGSIZE) <==> forall i: nat :: i < k ==> Shows(s, n, p, i)
  {
    hide MapsTo, Shows;
    forall i: nat | i < k ensures MapsTo(s, n * PGSIZE, p * PGSIZE, i) <==> Shows(s, n, p, i) {
      ShowsIff(s, n, p, i);
    }
    assert forall i: nat :: i * PGSIZE < k * PGSIZE <==> i < k;
  }

  // On a machine of at most 256 MB the check passes exactly when the processor
  // takes the np pages at 0xEF000000 to the pages array, every page from
  // 0xF0000000 on to the physical page of its number, and the eight pages below
  // that to the boot stack, does not translate the page at 0xEFC00000, and the
  // directory is present, writable or zero where it should be.
  lemma CheckMeans(s: State, pages: nat, np: nat, npages: Word, stack: nat)
    requires np <= 1024 && pages < MAXPAGES && pages + np <= MAXPAGES && npages <= 0x1_0000 && stack + 8 <= MAXPAGES
    ensures PgdirPasses(s, pages, np * PGSIZE, npages, stack) <==>
            && (forall i: nat :: i < np ==> Shows(s, 0xEF000, pages, i))
            && (forall i: nat :: i < npages ==> Shows(s, 0xF0000, 0, i))
            && (forall i: nat :: i < 8 ==> Shows(s, 0xEFFF8, stack, i))
            && Translate(s, Vpn(959, 0)) == None
            && (forall d: Index ::
                  if d >= 960 then Present(Pde(s, d)) && Writable(Pde(s, d))
                  else if d == 956 || d == 957 || d == 959 then Present(Pde(s, d)) else Pde(s, d) == 0)
  {
    hide RangeMapsTo, Shows, CheckVa2Pa, Pdx, Translate;
    RangeShowsIff(s, 0xEF000, pages, np);
    RangeShowsIff(s, 0xF0000, 0, npages);
    RangeShowsIff(s, 0xEFFF8, stack, 8);
    assert Bytes32(npages) == npages * PGSIZE && KSTKSIZE == 8 * PGSIZE;
    MappedAddresses();
    MappedIndices();
    GuardIff(s);
  }

  lemma GuardIff(s: State)
    ensures CheckVa2Pa(s, KSTACKTOP - PTSIZE) == NO_PAGE <==> Translate(s, Vpn(959, 0)) == None
  {
    hide Pte;
    assert VpnOf(KSTACKTOP - PTSIZE) == Vpn(959, 0);
  }

  // The kernel map as the processor sees it: the pages array readable by all and
  // writable by none, the stack and all of physical memory for the kernel only,
  // and nothing else outside the window.
  lemma KernelMapRights(s: State, pages: nat, np: nat, stack: nat, u: Vpn)
    requires IsKernelMap(s, pages, np, stack) && u.pdx != 957
    ensures var n := u.pdx * 1024 + u.ptx;
            Translate(s, u) ==
              if 0xEF000 <= n < 0xEF000 + np then Some(Xlat(pages + (n - 0xEF000), false, true))
              else if 0xEFFF8 <= n < 0xF0000 then Some(Xlat(stack + (n - 0xEFFF8), true, false))
              else if 0xF0000 <= n then Some(Xlat(n - 0xF0000, true, false))
              else None
  {
    hide TablesValid, Pte, Pde, Pack, Ppn, FlagsOf;
    NpBound(s, pages, np, stack);
    EntryIntended(s, pages, np, stack, u);
    EntryRights(s, pages, np, stack, u);
  }

  lemma EntryRights(s: State, pages: nat, np: nat, stack: nat, u: Vpn)
    requires IsKernelMap(s, pages, np, stack) && u.pdx != 957
    ensures Mapped(s, u) ==> FlagsOf(Pde(s, u.pdx)) == 7
    ensures FlagsOf(0) == 0
  {
    hide TablesValid, Pack;
  }
}
