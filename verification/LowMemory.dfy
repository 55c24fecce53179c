// Until mem_init loads kern_pgdir the entry page directory is in use, and it maps
// only the first 4 MB of physical memory (kern/entrypgdir.c): which pages are
// touched before, and which are left after.
module LowMemory {
  import opened Mmu
  import opened PageState
  import opened PageTables
  import opened FreeList
  import opened PageInit
  import opened BootMap

  // The directory and every table are among the pages x.
  ghost predicate TablesIn(s: State, x: set<nat>)
  {
    s.pgdir in x && forall d: Index :: HasTable(s, d) ==> TableOf(s, d) in x
  }

  // No frame but those of x is written.
  ghost predicate SameOutside(s: State, s': State, x: set<nat>)
  {
    NPages(s') == NPages(s) && forall p: nat :: p < NPages(s) && p !in x ==> s'.mem[p] == s.mem[p]
  }

  // The first k pages of the list are among x.
  predicate FrontIn(free: seq<nat>, k: nat, x: set<nat>)
  {
    k <= |free| && forall i :: 0 <= i < k ==> free[i] in x
  }

  // The pages below 4 MB.
  function LowSet(): (x: set<nat>)
    ensures forall p: nat :: p in x <==> p < LOW_PAGES
  {
    RunMembers(0, LOW_PAGES);
    set p | p in Run(0, LOW_PAGES)
  }

  ghost predicate TablesLow(s: State) { TablesIn(s, LowSet()) }

  ghost predicate HighSame(s: State, s': State) { SameOutside(s, s', LowSet()) }

  predicate FrontLow(free: seq<nat>, k: nat) { FrontIn(free, k, LowSet()) }

  lemma SameTransitive(a: State, b: State, c: State, x: set<nat>)
    requires SameOutside(a, b, x) && SameOutside(b, c, x)
    ensures SameOutside(a, c, x)
  {
  }

  lemma HighTrans(a: State, b: State, c: State)
    requires HighSame(a, b) && HighSame(b, c)
    ensures HighSame(a, c)
  {
  }

  // ---------- the mappings ----------

  lemma WalkedIn(s: State, o: Own, d: Index, x: set<nat>)
    requires Inv(s, o) && d != SELF && !WalkFails(s, d, true) && TablesIn(s, x)
    requires !Present(Pde(s, d)) ==> FrontIn(o.free, 1, x)
    ensures TablesIn(Walked(s, d), x) && SameOutside(s, Walked(s, d), x)
  {
    if !Present(Pde(s, d)) {
      NewTableReads(s, o, d);
      assert s.head == Some(o.free[0]) by { hide TablesValid, CountsValid, TlbValid, Pde, Pte; }
      hide Inv, Pde, Pte;
    }
  }

  lemma MapPageIn(s: State, o: Own, v: Vpn, w: Word, x: set<nat>)
    requires Inv(s, o) && v.pdx != SELF && !WalkFails(s, v.pdx, true) && TablesIn(s, x)
    requires !Present(Pde(s, v.pdx)) ==> FrontIn(o.free, 1, x)
    ensures TablesIn(MapPage(s, v, w), x) && SameOutside(s, MapPage(s, v, w), x)
  {
    hide ListsValid, TablesValid, CountsValid, TlbValid, Walked, SetPte, TablesIn, Pte;
    WalkedIn(s, o, v.pdx, x);
    WalkedKeepsInv(s, o, v.pdx);
    SetPteIn(Walked(s, v.pdx), v, w, x);
    SameTransitive(s, Walked(s, v.pdx), MapPage(s, v, w), x);
  }

  lemma SetPteIn(s: State, v: Vpn, w: Word, x: set<nat>)
    requires TablesValid(s) && HasTable(s, v.pdx) && v.pdx != SELF && TablesIn(s, x)
    ensures TablesIn(SetPte(s, v, w), x) && SameOutside(s, SetPte(s, v, w), x)
  {
    SetPteReads(s, v, w);
    hide TablesValid, Pte, Pde;
    forall d: Index | HasTable(SetPte(s, v, w), d) ensures TableOf(SetPte(s, v, w), d) in x {
      assert Pde(SetPte(s, v, w), d) == Pde(s, d);
      assert HasTable(s, d);
    }
  }

  lemma {:induction false} RegionWrites(s: State, o: Own, n: nat, ppn: nat, flags: Flags, k: nat, x: set<nat>)
    requires RegionReady(s, o, n, k) && ppn + k <= MAXPAGES && TablesIn(s, x)
    requires FrontIn(o.free, |Missing(s, n, n + k)|, x)
    ensures n + k <= MAXPAGES && TablesIn(Region(s, n, ppn, flags, k), x) && SameOutside(s, Region(s, n, ppn, flags, k), x)
    decreases k
  {
    hide Inv, RegionReady, MapPage, Missing, OwnWalked, Pte, Pde, TablesIn, SameOutside, Pack, VpnAt, FrontIn;
    ReadyBound(s, o, n, k);
    if k == 0 {
      RegionEmpty(s, n, ppn, flags);
      SameReflexive(s, x);
    } else {
      var v, w := VpnAt(n), Pack(ppn, flags);
      var s1, o1 := MapPage(s, v, w), OwnWalked(s, o, v.pdx);
      RegionStep(s, o, n, k, w, x);
      RegionWrites(s1, o1, n + 1, ppn + 1, flags, k - 1, x);
      SameTransitive(s, s1, Region(s, n, ppn, flags, k), x);
    }
  }

  lemma ReadyBound(s: State, o: Own, n: nat, k: nat)
    requires RegionReady(s, o, n, k)
    ensures n + k <= MAXPAGES
  {
  }

  lemma RegionStep(s: State, o: Own, n: nat, k: nat, w: Word, x: set<nat>)
    requires RegionReady(s, o, n, k) && k > 0 && TablesIn(s, x) && n < MAXPAGES
    requires FrontIn(o.free, |Missing(s, n, n + k)|, x)
    ensures var s1, o1 := MapPage(s, VpnAt(n), w), OwnWalked(s, o, VpnAt(n).pdx);
            && RegionReady(s1, o1, n + 1, k - 1) && TablesIn(s1, x) && SameOutside(s, s1, x)
            && FrontIn(o1.free, |Missing(s1, n + 1, n + 1 + (k - 1))|, x)
  {
    hide ListsValid, TablesValid, CountsValid, TlbValid, MapPage, Missing, OwnWalked, Pte, Pde, TablesIn, SameOutside;
    var v := VpnAt(n);
    assert v.pdx == n / 1024 && Number(v) == n;
    RegionIteration(s, o, n, k, w);
    AbsentIsMissing(s, n, n + k);
    MapPageIn(s, o, v, w, x);
    MissingNext(s, MapPage(s, v, w), n, n + k, v, w, o);
    FrontAfter(s, o, n, n + k, x);
  }

  lemma SameReflexive(s: State, x: set<nat>)
    ensures SameOutside(s, s, x)
  {
  }

  lemma AbsentIsMissing(s: State, n: nat, m: nat)
    requires n < m <= MAXPAGES
    ensures !Present(Pde(s, n / 1024)) ==> n / 1024 in Missing(s, n, m) && |Missing(s, n, m)| >= 1
  {
    hide Pde;
    if !Present(Pde(s, n / 1024)) {
      assert Missing(s, n, m) == {n / 1024} + (Missing(s, n, m) - {n / 1024});
    }
  }

  lemma MissingNext(s: State, s1: State, n: nat, m: nat, v: Vpn, w: Word, o: Own)
    requires n < m <= MAXPAGES && v == VpnAt(n) && s1 == MapPage(s, v, w)
    requires Inv(s, o) && v !in s.tlb && USERTOP <= v.pdx && v.pdx != SELF && !WalkFails(s, v.pdx, true)
    ensures Missing(s1, n + 1, m) == Missing(s, n, m) - {n / 1024}
  {
    hide Inv, MapPage, Missing, Pde, Pte;
    MapPageKeepsInv(s, o, v, w);
    MissingAfter(s, s1, n, m);
  }

  lemma FrontAfter(s: State, o: Own, n: nat, m: nat, x: set<nat>)
    requires n < m <= MAXPAGES && FrontIn(o.free, |Missing(s, n, m)|, x)
    ensures FrontIn(OwnWalked(s, o, n / 1024).free, |Missing(s, n, m) - {n / 1024}|, x)
  {
    AbsentIsMissing(s, n, m);
    hide Missing, Pde;
    if Present(Pde(s, n / 1024)) {
      PresentIsNotMissing(s, n, m);
    }
  }

  lemma PresentIsNotMissing(s: State, n: nat, m: nat)
    requires n < m <= MAXPAGES && Present(Pde(s, n / 1024))
    ensures Missing(s, n, m) - {n / 1024} == Missing(s, n, m)
  {
  }

  // The three mappings of mem_init take their 66 tables from the front of the
  // list: besides those pages and the directory no frame is written.
  lemma KernelMapWrites(s: State, o: Own, pages: nat, np: nat, stack: nat, x: set<nat>)
    requires Inv(s, o) && EmptyDirectory(s) && TablesIn(s, x) && FrontIn(o.free, 66, x)
    requires 1 <= np <= 1024 && pages + np <= MAXPAGES && stack + KSTKSIZE <= MAXPAGES
    ensures TablesIn(KernelMapped(s, pages, np, stack), x) && SameOutside(s, KernelMapped(s, pages, np, stack), x)
  {
    hide Inv, EmptyDirectory, TablesIn, SameOutside, Missing, Region;
    var s1 := Region(s, UPAGES_VPN, pages, 5, np);
    var s2 := Region(s1, STACK_VPN, stack, 3, KSTKSIZE);
    var o1, o2 := o.(free := o.free[1..]), o.(free := o.free[34..]);
    MapStages(s, o, pages, np, stack);
    RegionWrites(s, o, UPAGES_VPN, pages, 5, np, x);
    RegionWrites(s1, o1, STACK_VPN, stack, 3, KSTKSIZE, x);
    RegionWrites(s2, o2, KERN_VPN, 0, 3, 0x1_0000, x);
    SameTransitive(s, s1, s2, x);
    SameTransitive(s, s2, KernelMapped(s, pages, np, stack), x);
  }

  // When those pages are low, nothing at or above 4 MB is touched.
  lemma KernelMapLow(s: State, o: Own, pages: nat, np: nat, stack: nat)
    requires Inv(s, o) && EmptyDirectory(s) && TablesLow(s) && FrontLow(o.free, 66)
    requires 1 <= np <= 1024 && pages + np <= MAXPAGES && stack + KSTKSIZE <= MAXPAGES
    ensures TablesLow(KernelMapped(s, pages, np, stack)) && HighSame(s, KernelMapped(s, pages, np, stack))
  {
    hide Inv, EmptyDirectory, KernelMapped, Pde;
    KernelMapWrites(s, o, pages, np, stack, LowSet());
  }

  // In any case nothing but the directory and those pages.
  lemma KernelMapFrames(s: State, o: Own, pages: nat, np: nat, stack: nat)
    requires Inv(s, o) && EmptyDirectory(s) && |o.free| >= 66
    requires 1 <= np <= 1024 && pages + np <= MAXPAGES && stack + KSTKSIZE <= MAXPAGES
    ensures var r := KernelMapped(s, pages, np, stack);
            NPages(r) == NPages(s)
            && forall p: nat :: p < NPages(s) && p != s.pgdir && p !in o.free[..66] ==> r.mem[p] == s.mem[p]
  {
    hide Inv, EmptyDirectory, KernelMapped, TablesIn, FrontIn;
    var x := WrittenSet(s, o);
    KernelMapWrites(s, o, pages, np, stack, x);
  }

  lemma WrittenSet(s: State, o: Own) returns (x: set<nat>)
    requires Inv(s, o) && EmptyDirectory(s) && |o.free| >= 66
    ensures TablesIn(s, x) && FrontIn(o.free, 66, x)
    ensures forall p: nat :: p in x ==> p == s.pgdir || p in o.free[..66]
  {
    OnlyDirectory(s, o);
    hide Inv, EmptyDirectory, HasTable;
    x := (set p | p in o.free[..66]) + {s.pgdir};
    forall i | 0 <= i < 66 ensures o.free[i] in x {
      assert o.free[..66][i] == o.free[i];
    }
  }

  lemma OnlyDirectory(s: State, o: Own)
    requires Inv(s, o) && EmptyDirectory(s)
    ensures forall d: Index :: HasTable(s, d) ==> TableOf(s, d) == s.pgdir
  {
    hide ListsValid, CountsValid, TlbValid;
  }

  // ---------- the list page_init and the reordering leave ----------

  ghost predicate Descending(q: seq<nat>) { forall i, j :: 0 <= i < j < |q| ==> q[i] > q[j] }

  // In a descending list that holds p, p + 1, ..., p + k, at least k pages come
  // before p.
  lemma {:induction false} ManyBefore(q: seq<nat>, i: nat, k: nat)
    requires Descending(q) && i < |q| && forall p: nat :: q[i] < p <= q[i] + k ==> p in q
    ensures i >= k
    decreases k
  {
    if k > 0 {
      assert q[i] + 1 in q;
      var j :| 0 <= j < |q| && q[j] == q[i] + 1;
      assert j < i;
      ManyBefore(q, j, k - 1);
    }
  }

  // And the entry at i is at least i below any bound on the list.
  lemma {:induction false} FarBelow(q: seq<nat>, i: nat, n: nat)
    requires Descending(q) && i < |q| && forall p :: p in q ==> p < n
    ensures q[i] + i < n
    decreases i
  {
    assert q[i] in q;
    if i > 0 {
      FarBelow(q, i - 1, n);
      assert q[i - 1] > q[i];
    }
  }

  // The low half of page_init's list.
  function LowFree(n: nat, end: Word): seq<nat> { Filter(Low(), FreePages(n, end)) }

  lemma LowFreeExact(n: nat, end: Word)
    ensures forall p: nat :: p in LowFree(n, end) <==> p < n && p < LOW_PAGES && !Reserved(p, end)
    ensures Descending(LowFree(n, end))
  {
    var q, r := FreePages(n, end), LowFree(n, end);
    FreePagesExact(n, end);
    forall p: nat ensures p in r <==> p < n && p < LOW_PAGES && !Reserved(p, end) {
      FilterMembers(Low(), q, p);
    }
    forall i, j | 0 <= i < j < |r| ensures r[i] > r[j] {
      FilterKeepsOrder(Low(), q, i, j);
    }
  }

  // Page 1 is on it, behind pages 2 to 159; so the list starts with more than 66
  // low pages.
  lemma LowFreeLong(n: nat, end: Word) returns (i: nat)
    requires n >= 160
    ensures 158 <= i < |LowFree(n, end)| && LowFree(n, end)[i] == 1
  {
    LowFreeExact(n, end);
    var q := LowFree(n, end);
    assert !Reserved(1, end) && 1 in q;
    i :| 0 <= i < |q| && q[i] == 1;
    forall p: nat | 1 < p <= 159 ensures p in q {
      assert !Reserved(p, end);
    }
    ManyBefore(q, i, 158);
  }

  lemma PartitionedFront(n: nat, end: Word)
    requires n >= 160
    ensures FrontLow(Partitioned(FreePages(n, end)), 66)
    ensures HasBase(Partitioned(FreePages(n, end))[66..]) && |Partitioned(FreePages(n, end))| >= 159
  {
    var q, r := LowFree(n, end), Partitioned(FreePages(n, end));
    var i := LowFreeLong(n, end);
    LowFreeExact(n, end);
    assert r[..|q|] == q;
    forall j | 0 <= j < 66 ensures r[j] < LOW_PAGES {
      assert r[j] == q[j] && q[j] in q;
    }
    assert r[66..][i - 66] == r[i] == q[i] == 1;
    assert 1 in r[66..] && 1 * PGSIZE < EXTPHYSMEM;
  }

  // The whole list after the reordering, when the boot allocations end on page e:
  // from 4 MB (or the end of memory) down to e, from 640 KB down to page 1, and
  // then from the end of memory down to 4 MB.
  function BootList(n: nat, e: nat): seq<nat>
  {
    Run(e, Min(n, LOW_PAGES)) + Run(1, Min(n, 160)) + Run(LOW_PAGES, n)
  }

  lemma PartitionedAre(n: nat, end: Word)
    requires EXTPHYSMEM <= end <= LOW_PAGES * PGSIZE && end % PGSIZE == 0
    ensures Partitioned(FreePages(n, end)) == BootList(n, end / PGSIZE)
  {
    LowFreeAre(n, end);
    var q, h := FreePages(n, end), Filter(High(), FreePages(n, end));
    FreePagesAre(n, end);
    FreePagesExact(n, end);
    hide FreePages, Reserved;
    assert end / PGSIZE * PGSIZE == end;
    RunMembers(LOW_PAGES, n);
    forall p: nat ensures p in h <==> LOW_PAGES <= p < n {
      FilterMembers(High(), q, p);
    }
    forall i, j | 0 <= i < j < |h| ensures h[i] > h[j] {
      FilterKeepsOrder(High(), q, i, j);
    }
    DescendingEqual(h, Run(LOW_PAGES, n));
  }

  lemma LowFreeAre(n: nat, end: Word)
    requires EXTPHYSMEM <= end <= LOW_PAGES * PGSIZE && end % PGSIZE == 0
    ensures LowFree(n, end) == Run(end / PGSIZE, Min(n, LOW_PAGES)) + Run(1, Min(n, 160))
  {
    hide LowFree, FreePages, Reserved, Unclaimed;
    LowFreeExact(n, end);
    FreePagesAre(n, end);
    FreePagesExact(n, end);
    var q, u := LowFree(n, end), Run(end / PGSIZE, Min(n, LOW_PAGES)) + Run(1, Min(n, 160));
    RunsDescend(end / PGSIZE, n, u);
    forall p: nat ensures p in q <==> p in u {
      assert p in FreePages(n, end) <==> p < n && !Reserved(p, end);
    }
    DescendingEqual(q, u);
  }

  lemma RunsDescend(e: nat, n: nat, u: seq<nat>)
    requires 256 <= e <= LOW_PAGES && u == Run(e, Min(n, LOW_PAGES)) + Run(1, Min(n, 160))
    ensures forall p: nat :: p in u <==> p < n && p < LOW_PAGES && (1 <= p <= 159 || e <= p)
    ensures forall i, j :: 0 <= i < j < |u| ==> u[i] > u[j]
  {
    var a, b := Run(e, Min(n, LOW_PAGES)), Run(1, Min(n, 160));
    RunMembers(e, Min(n, LOW_PAGES));
    RunMembers(1, Min(n, 160));
    assert forall p: nat :: p in a + b <==> p in a || p in b;
  }

  // After 66 pages are gone from its front, the list still has a page above the
  // I/O hole exactly when the machine has more than 4 MB or more than 66 pages
  // past the boot allocations.
  lemma ExtendedLeftIff(n: nat, end: Word)
    requires n >= 160 && EXTPHYSMEM < end <= LOW_PAGES * PGSIZE && end % PGSIZE == 0
    ensures |Partitioned(FreePages(n, end))| >= 66
    ensures HasExtended(Partitioned(FreePages(n, end))[66..]) <==> n > LOW_PAGES || n > end / PGSIZE + 66
  {
    PartitionedFront(n, end);
    if n > LOW_PAGES {
      HighIsLeft(n, end);
    } else {
      LowLeftIff(n, end);
    }
  }

  lemma HighIsLeft(n: nat, end: Word)
    requires n > LOW_PAGES && end <= LOW_PAGES * PGSIZE
    ensures |Partitioned(FreePages(n, end))| >= 66
    ensures HasExtended(Partitioned(FreePages(n, end))[66..])
  {
    var q, h := LowFree(n, end), Filter(High(), FreePages(n, end));
    var r := Partitioned(FreePages(n, end));
    var i := LowFreeLong(n, end);
    FreePagesExact(n, end);
    assert !Reserved(LOW_PAGES, end);
    FilterMembers(High(), FreePages(n, end), LOW_PAGES);
    var j :| 0 <= j < |h| && h[j] == LOW_PAGES;
    assert r == q + h;
    assert r[66..][|q| - 66 + j] == LOW_PAGES;
    assert LOW_PAGES in r[66..];
  }

  lemma NoHigh(n: nat, end: Word)
    requires n <= LOW_PAGES
    ensures Partitioned(FreePages(n, end)) == LowFree(n, end)
  {
    var h := Filter(High(), FreePages(n, end));
    FreePagesExact(n, end);
    if h != [] {
      FilterMembers(High(), FreePages(n, end), h[0]);
    }
  }

  lemma LowLeftIff(n: nat, end: Word)
    requires 160 <= n <= LOW_PAGES && EXTPHYSMEM < end && end % PGSIZE == 0
    requires |Partitioned(FreePages(n, end))| >= 66
    ensures HasExtended(Partitioned(FreePages(n, end))[66..]) <==> n > end / PGSIZE + 66
  {
    var q, e := LowFree(n, end), end / PGSIZE;
    NoHigh(n, end);
    LowFreeExact(n, end);
    assert e * PGSIZE == end;
    hide LowFree, Partitioned, FreePages;
    if n > e + 66 {
      var p := n - 67;
      assert p in q;
      var i :| 0 <= i < |q| && q[i] == p;
      ManyBefore(q, i, 66);
      assert q[66..][i - 66] == p;
      assert p in q[66..];
    } else if HasExtended(q[66..]) {
      var p: nat :| p in q[66..] && p * PGSIZE >= EXTPHYSMEM;
      var i :| 0 <= i < |q[66..]| && q[66..][i] == p;
      assert q[66 + i] == p && p in q;
      FarBelow(q, 66 + i, n);
      assert false;
    }
  }
}
