// boot_map_region and the static kernel mappings of mem_init (kern/pmap.c).
module BootMap {
  import opened Mmu
  import opened PageState
  import opened PageTables
  import opened Pmap

  function VpnAt(n: nat): (v: Vpn)
    requires n < MAXPAGES
    ensures Number(v) == n
  {
    Vpn(n / 1024, n % 1024)
  }

  // One iteration: walk with creation, then write the entry. No count, no TLB.
  function MapPage(s: State, v: Vpn, w: Word): State
  {
    if WalkFails(s, v.pdx, true) then s else SetPte(Walked(s, v.pdx), v, w)
  }

  // k pages from page number n onto physical pages ppn, ppn+1, ...
  function Region(s: State, n: nat, ppn: nat, flags: Flags, k: nat): State
    requires n + k <= MAXPAGES && ppn + k <= MAXPAGES
    decreases k
  {
    if k == 0 then s
    else Region(MapPage(s, VpnAt(n), Pack(ppn, flags)), n + 1, ppn + 1, flags, k - 1)
  }

  // The directory entries that [n, m) needs and that are still absent.
  function Missing(s: State, n: nat, m: nat): set<int>
  {
    set d: int | 0 <= d < 1024 && n < d * 1024 + 1024 && d * 1024 < m && n < m && !Present(Pde(s, d))
  }

  // A static mapping changes one entry and nothing that is counted. It keeps the
  // invariant exactly when the TLB holds no other translation of its address.
  lemma StaticWriteKeepsInvIff(s: State, o: Own, v: Vpn, w: Word)
    requires Inv(s, o) && USERTOP <= v.pdx && v.pdx != SELF && HasTable(s, v.pdx)
    ensures Inv(SetPte(s, v, w), o) <==> (v in s.tlb ==> Translate(SetPte(s, v, w), v) == Translate(s, v))
  {
    var s' := SetPte(s, v, w);
    SetPteReads(s, v, w);
    StaticTables(s, v, w);
    assert forall u: Vpn :: u != v ==> Translate(s', u) == Translate(s, u) by { hide ListsValid, TablesValid, SetPte; }
    hide ListsValid, TablesValid, Pte, Pde, SetPte, Translate;
    assert forall x :: Target(s', x) == Target(s, x) by { StaticTargets(s, v, w); }
    forall p: nat ensures NamedBy(s', p) == NamedBy(s, p) { }
    StaticLists(s, o, v, w);
  }

  lemma StaticLists(s: State, o: Own, v: Vpn, w: Word)
    ensures ListsValid(s, o) ==> ListsValid(SetPte(s, v, w), o)
    ensures SetPte(s, v, w).refs == s.refs && SetPte(s, v, w).tlb == s.tlb && SetPte(s, v, w).pgdir == s.pgdir
  {
  }

  lemma StaticTables(s: State, v: Vpn, w: Word)
    requires TablesValid(s) && USERTOP <= v.pdx && v.pdx != SELF && HasTable(s, v.pdx)
    ensures TablesValid(SetPte(s, v, w))
  {
    SetPteReads(s, v, w);
  }

  lemma StaticTargets(s: State, v: Vpn, w: Word)
    requires TablesValid(s) && USERTOP <= v.pdx && v.pdx != SELF && HasTable(s, v.pdx)
    ensures forall x :: Target(SetPte(s, v, w), x) == Target(s, x)
  {
    SetPteReads(s, v, w);
  }

  lemma MapPageKeepsInv(s: State, o: Own, v: Vpn, w: Word)
    requires Inv(s, o) && v !in s.tlb && USERTOP <= v.pdx && v.pdx != SELF && !WalkFails(s, v.pdx, true)
    ensures Inv(MapPage(s, v, w), OwnWalked(s, o, v.pdx)) && MapPage(s, v, w).tlb == s.tlb
    ensures NPages(MapPage(s, v, w)) == NPages(s)
    ensures forall u: Vpn :: u.pdx != SELF ==> Pte(MapPage(s, v, w), u) == if u == v then w else Pte(s, u)
    ensures forall d: Index :: d != v.pdx ==> Pde(MapPage(s, v, w), d) == Pde(s, d)
    ensures HasTable(MapPage(s, v, w), v.pdx)
    ensures Present(Pde(s, v.pdx)) ==> Pde(MapPage(s, v, w), v.pdx) == Pde(s, v.pdx)
  {
    hide ListsValid, CountsValid, TlbValid;
    assert Present(Pde(s, v.pdx)) ==> Walked(s, v.pdx) == s;
    hide Walked;
    WalkedKeepsInv(s, o, v.pdx);
    WalkedTlb(s, v.pdx);
    var s1 := Walked(s, v.pdx);
    SetPteReads(s1, v, w);
    StaticWriteKeepsInvIff(s1, OwnWalked(s, o, v.pdx), v, w);
  }

  lemma WalkedTlb(s: State, d: Index)
    requires !WalkFails(s, d, true)
    ensures Walked(s, d).tlb == s.tlb && NPages(Walked(s, d)) == NPages(s)
  {
  }

  // The static area: above UTOP and clear of the self-map window.
  predicate Static(n: nat, k: nat)
  {
    USERTOP * 1024 <= n && n + k <= MAXPAGES && (n + k <= SELF * 1024 || (SELF + 1) * 1024 <= n)
  }

  lemma MissingAfter(s: State, s': State, n: nat, m: nat)
    requires n < m <= MAXPAGES
    requires forall d: Index :: d != n / 1024 ==> Pde(s', d) == Pde(s, d)
    requires Present(Pde(s', n / 1024))
    ensures Missing(s', n + 1, m) == Missing(s, n, m) - {n / 1024}
  {
    forall d | 0 <= d < 1024 && d != n / 1024
      ensures d in Missing(s', n + 1, m) <==> d in Missing(s, n, m)
    {
      assert Pde(s', d) == Pde(s, d);
    }
  }

  // What a run of boot_map_region leaves behind: the entries ...
  ghost predicate Entries(s: State, r: State, n: nat, ppn: nat, flags: Flags, k: nat)
    requires ppn + k <= MAXPAGES
  {
    forall u: Vpn :: u.pdx != SELF ==>
      Pte(r, u) == if n <= Number(u) < n + k then Pack(ppn + Number(u) - n, flags) else Pte(s, u)
  }

  // ... and the directory: exactly the missing tables have been added.
  ghost predicate Tables(s: State, r: State, n: nat, m: nat)
  {
    forall d: Index :: if d in Missing(s, n, m) then Present(Pde(r, d)) else Pde(r, d) == Pde(s, d)
  }

  lemma EntriesStep(s: State, s1: State, r: State, n: nat, ppn: nat, flags: Flags, k: nat)
    requires k > 0 && n + k <= MAXPAGES && ppn + k <= MAXPAGES
    requires forall u: Vpn :: u.pdx != SELF ==> Pte(s1, u) == if u == VpnAt(n) then Pack(ppn, flags) else Pte(s, u)
    requires Entries(s1, r, n + 1, ppn + 1, flags, k - 1)
    ensures Entries(s, r, n, ppn, flags, k)
  {
    hide Pte, VpnAt;
    forall u: Vpn | u.pdx != SELF
      ensures Pte(r, u) == if n <= Number(u) < n + k then Pack(ppn + Number(u) - n, flags) else Pte(s, u)
    {
      NumberAt(u, n);
    }
  }

  lemma NumberAt(u: Vpn, n: nat)
    requires n < MAXPAGES
    ensures Number(u) == n <==> u == VpnAt(n)
  {
  }

  lemma TablesStep(s: State, s1: State, r: State, n: nat, m: nat)
    requires n < m <= MAXPAGES
    requires forall d: Index :: d != n / 1024 ==> Pde(s1, d) == Pde(s, d)
    requires Present(Pde(s, n / 1024)) ==> Pde(s1, n / 1024) == Pde(s, n / 1024)
    requires Present(Pde(s1, n / 1024)) && Tables(s1, r, n + 1, m)
    ensures Tables(s, r, n, m)
  {
    MissingAfter(s, s1, n, m);
    hide Pde;
  }

  lemma RegionEmpty(s: State, n: nat, ppn: nat, flags: Flags)
    requires ppn <= MAXPAGES
    ensures n <= MAXPAGES ==> Region(s, n, ppn, flags, 0) == s
    ensures Missing(s, n, n) == {} && Entries(s, s, n, ppn, flags, 0) && Tables(s, s, n, n)
  {
  }

  lemma RoomForTable(s: State, o: Own, n: nat, m: nat)
    requires ListsValid(s, o) && n < m <= MAXPAGES
    ensures WalkFails(s, n / 1024, true) ==> |Missing(s, n, m)| > |o.free|
    ensures !WalkFails(s, n / 1024, true) ==>
              |OwnWalked(s, o, n / 1024).free| - |Missing(s, n, m) - {n / 1024}| == |o.free| - |Missing(s, n, m)|
    ensures |Missing(s, n, m)| <= |o.free| ==>
              && |Missing(s, n, m) - {n / 1024}| <= |OwnWalked(s, o, n / 1024).free|
              && OwnWalked(s, o, n / 1024).free[|Missing(s, n, m) - {n / 1024}|..] == o.free[|Missing(s, n, m)|..]
    ensures OwnWalked(s, o, n / 1024).held == o.held && OwnWalked(s, o, n / 1024).boot == o.boot
  {
    var e: Index := n / 1024;
    if !Present(Pde(s, e)) {
      assert e in Missing(s, n, m);
      assert Missing(s, n, m) == (Missing(s, n, m) - {e}) + {e};
    } else {
      assert Missing(s, n, m) - {e} == Missing(s, n, m);
    }
  }

  // The TLB holds nothing for the k pages from n on.
  ghost predicate NotCached(s: State, n: nat, k: nat) { forall u :: u in s.tlb ==> !(n <= Number(u) < n + k) }

  // The bookkeeping after mapping [n, m): a page from the list's front for every
  // missing table.
  ghost function OwnMapped(s: State, o: Own, n: nat, m: nat): Own
    requires |Missing(s, n, m)| <= |o.free|
  {
    o.(free := o.free[|Missing(s, n, m)|..])
  }

  // Mapping k pages of the static area succeeds whenever the free list has a
  // page for every missing table, takes exactly that many from its front, keeps
  // the invariant, and sets exactly the k entries.
  lemma {:induction false} RegionMaps(s: State, o: Own, n: nat, ppn: nat, flags: Flags, k: nat)
    requires Inv(s, o) && NotCached(s, n, k)
    requires Static(n, k) && ppn + k <= MAXPAGES && flags % 2 == 1
    requires |Missing(s, n, n + k)| <= |o.free|
    ensures var r := Region(s, n, ppn, flags, k);
            && Inv(r, OwnMapped(s, o, n, n + k)) && r.tlb == s.tlb && NPages(r) == NPages(s)
            && Entries(s, r, n, ppn, flags, k) && Tables(s, r, n, n + k)
    decreases k
  {
    hide ListsValid, TablesValid, CountsValid, TlbValid, MapPage, Missing, OwnWalked, Entries, Tables, Pte, Pde, NPages;
    if k == 0 {
      RegionEmpty(s, n, ppn, flags);
    } else {
      var v := VpnAt(n);
      RoomForTable(s, o, n, n + k);
      assert Number(v) == n;
      var s1, o1 := MapPage(s, v, Pack(ppn, flags)), OwnWalked(s, o, v.pdx);
      var r := Region(s, n, ppn, flags, k);
      assert r == Region(s1, n + 1, ppn + 1, flags, k - 1);
      MapPageKeepsInv(s, o, v, Pack(ppn, flags));
      MissingAfter(s, s1, n, n + k);
      RegionMaps(s1, o1, n + 1, ppn + 1, flags, k - 1);
      EntriesStep(s, s1, r, n, ppn, flags, k);
      TablesStep(s, s1, r, n, n + k);
    }
  }

  // What holds at the head of boot_map_region's loop; and when it will not run
  // out of pages.
  ghost predicate RegionSound(s: State, o: Own, n: nat, k: nat)
  {
    Inv(s, o) && NotCached(s, n, k) && Static(n, k)
  }

  ghost predicate RegionReady(s: State, o: Own, n: nat, k: nat)
  {
    RegionSound(s, o, n, k) && |Missing(s, n, n + k)| <= |o.free|
  }

  lemma RegionIteration(s: State, o: Own, n: nat, k: nat, w: Word)
    requires RegionSound(s, o, n, k) && k > 0
    ensures !KaddrPanics(s, VpnAt(n).pdx)
    ensures WalkFails(s, VpnAt(n).pdx, true) ==> !RegionReady(s, o, n, k)
    ensures var s1, o1 := MapPage(s, VpnAt(n), w), OwnWalked(s, o, VpnAt(n).pdx);
            !WalkFails(s, VpnAt(n).pdx, true) ==>
              && HasTable(Walked(s, VpnAt(n).pdx), VpnAt(n).pdx)
              && RegionSound(s1, o1, n + 1, k - 1)
              && (RegionReady(s1, o1, n + 1, k - 1) <==> RegionReady(s, o, n, k))
  {
    hide ListsValid, TablesValid, CountsValid, TlbValid, MapPage, Missing, OwnWalked, Pte, Pde;
    var v := VpnAt(n);
    assert Number(v) == n && n / 1024 == v.pdx;
    NoKaddrPanic(s, o, v.pdx);
    RoomForTable(s, o, n, n + k);
    if !WalkFails(s, v.pdx, true) {
      MapPageKeepsInv(s, o, v, w);
      MissingAfter(s, MapPage(s, v, w), n, n + k);
      WalkedKeepsInv(s, o, n / 1024);
      assert n + 1 + (k - 1) == n + k;
    }
  }

  lemma NoKaddrPanic(s: State, o: Own, d: Index)
    requires Inv(s, o)
    ensures !KaddrPanics(s, d)
  {
  }

  // The pages boot_map_region maps: size is a count of pages, and the loop bound
  // va + size is a 32-bit sum.
  function PagesMapped(va: Word, size: Word): nat
  {
    if va + size < 0x1_0000_0000 then size else 0
  }

  // The body of boot_map_region's loop; false when pgdir_walk returned NULL, and
  // the code writes through it.
  method MapOne(m: Machine, at: Word, w: Word) returns (ok: bool)
    requires m.WellFormed() && m.InReach() && !KaddrPanics(m.St(), VpnOf(at).pdx)
    modifies m, m.ref, m.link, m.mem
    ensures m.WellFormed() && m.St() == MapPage(old(m.St()), VpnOf(at), w)
    ensures ok <==> !WalkFails(old(m.St()), VpnOf(at).pdx, true)
  {
    hide Walked;
    WalkedTable(m.St(), VpnOf(at).pdx);
    var pte := m.PgdirWalk(at, true);
    if pte == None {
      return false;
    }
    var f, x := pte.value.frame, pte.value.index;
    m.mem[f] := m.mem[f][x := w];
    ok := true;
  }

  lemma AddressOfPage(va: Word, i: nat)
    requires va % PGSIZE == 0 && va / PGSIZE + i < MAXPAGES
    ensures va + i * PGSIZE < 0x1_0000_0000 && VpnOf(va + i * PGSIZE) == VpnAt(va / PGSIZE + i)
  {
    assert (va + i * PGSIZE) / 4096 == va / 4096 + i;
  }

  // The loop runs front to back, one more page at the end.
  lemma {:induction false} RegionExtends(s: State, n: nat, ppn: nat, flags: Flags, k: nat)
    requires n + k < MAXPAGES && ppn + k < MAXPAGES
    ensures Region(s, n, ppn, flags, k + 1) ==
            MapPage(Region(s, n, ppn, flags, k), VpnAt(n + k), Pack(ppn + k, flags))
    decreases k
  {
    hide MapPage, VpnAt, Pack;
    var s1 := MapPage(s, VpnAt(n), Pack(ppn, flags));
    if k == 0 {
      assert Region(s, n, ppn, flags, 1) == Region(s1, n + 1, ppn + 1, flags, 0) == s1;
    } else {
      RegionExtends(s1, n + 1, ppn + 1, flags, k - 1);
      assert n + 1 + (k - 1) == n + k && ppn + 1 + (k - 1) == ppn + k;
    }
  }

  lemma LoopGuard(va: Word, size: Word, i: Word)
    requires i <= PagesMapped(va, size)
    ensures Add32(va, i) < Add32(va, size) <==> i < PagesMapped(va, size)
  {
  }

  // boot_map_region succeeds exactly when the list has a page for every missing
  // table.
  method BootMapRegion(m: Machine, va: Word, size: Word, pa: Word, perm: Flags, ghost o: Own) returns (ok: bool, ghost o': Own)
    requires m.WellFormed() && m.InReach() && va % PGSIZE == 0 && pa % PGSIZE == 0
    requires RegionSound(m.St(), o, va / PGSIZE, PagesMapped(va, size))
    requires pa / PGSIZE + PagesMapped(va, size) <= MAXPAGES
    modifies m, m.ref, m.link, m.mem
    ensures ok <==> RegionReady(old(m.St()), o, va / PGSIZE, PagesMapped(va, size))
    ensures var n := va / PGSIZE;
            ok ==> m.Valid(o') && o' == OwnMapped(old(m.St()), o, n, n + PagesMapped(va, size))
    ensures ok ==> m.St() == Region(old(m.St()), va / PGSIZE, pa / PGSIZE, WithPresent(perm), PagesMapped(va, size))
  {
    hide ListsValid, TablesValid, CountsValid, TlbValid, RegionReady, RegionSound, Walked, MapPage, WalkFails, KaddrPanics, HasTable, VpnOf, Add32, PagesMapped, Pack, WithPresent, VpnAt, Region;
    var i: Word := 0;
    LoopGuard(va, size, i);
    ghost var n, ppn, flags, k := va / PGSIZE, pa / PGSIZE, WithPresent(perm), PagesMapped(va, size);
    ghost var oi, s0 := o, m.St();
    SoundBound(s0, o, n, k);
    assert m.St() == Region(m.St(), n, ppn, flags, i) by { RegionEmpty(m.St(), n, ppn, flags); }
    while Add32(va, i) < Add32(va, size)
      invariant i <= k && m.WellFormed() && (Add32(va, i) < Add32(va, size) <==> i < k)
      invariant RegionSound(m.St(), oi, n + i, k - i)
      invariant RegionReady(m.St(), oi, n + i, k - i) <==> RegionReady(s0, o, n, k)
      invariant m.St() == Region(s0, n, ppn, flags, i)
      decreases k - i
    {
      ghost var s := m.St();
      var w := Pack(pa / PGSIZE + i, WithPresent(perm));
      RegionIteration(s, oi, n + i, k - i, w);
      RegionExtends(s0, n, ppn, flags, i);
      var at := va + i * PGSIZE;
      AddressOfPage(va, i);
      ok := MapOne(m, at, w);
      if !ok {
        return false, oi;
      }
      oi := OwnWalked(s, oi, VpnAt(n + i).pdx);
      i := i + 1;
      LoopGuard(va, size, i);
    }
    ok := true;
    NothingLeft(m.St(), oi, n + i);
    RegionInv(s0, o, n, ppn, flags, k);
    o' := OwnMapped(s0, o, n, n + k);
  }

  lemma SoundBound(s: State, o: Own, n: nat, k: nat)
    requires RegionSound(s, o, n, k)
    ensures n + k <= MAXPAGES
  {
  }

  lemma NothingLeft(s: State, o: Own, n: nat)
    requires RegionSound(s, o, n, 0)
    ensures RegionReady(s, o, n, 0)
  {
    assert Missing(s, n, n) == {};
  }

  lemma RegionInv(s: State, o: Own, n: nat, ppn: nat, flags: Flags, k: nat)
    requires RegionReady(s, o, n, k) && ppn + k <= MAXPAGES && flags % 2 == 1
    ensures n + k <= MAXPAGES && |Missing(s, n, n + k)| <= |o.free|
    ensures Inv(Region(s, n, ppn, flags, k), OwnMapped(s, o, n, n + k))
  {
    RegionMaps(s, o, n, ppn, flags, k);
  }

  // ---------- bytes against pages ----------

  // The pages on which the code and its header, which counts size in bytes,
  // part: those past the bytes, or all of them when the loop bound wraps to 0.
  predicate Parted(va: Word, size: Word, n: nat)
  {
    if va + size < 0x1_0000_0000 then va / PGSIZE + size / PGSIZE <= n < va / PGSIZE + size
    else va / PGSIZE <= n < va / PGSIZE + size / PGSIZE
  }

  // The longer of the two ranges, in pages.
  function Span(va: Word, size: Word): nat { if va + size < 0x1_0000_0000 then size else size / PGSIZE }

  // In s those pages have the entries of the mapping from page n to page ppn.
  ghost predicate PartedSoMapped(s: State, va: Word, size: Word, ppn: nat, flags: Flags)
    requires ppn + Span(va, size) <= MAXPAGES
  {
    forall u: Vpn :: Parted(va, size, Number(u)) ==> Pte(s, u) == Pack(ppn + Number(u) - va / PGSIZE, flags)
  }

  // For every aligned request whose pages stay in the static area, bytes or
  // pages: boot_map_region leaves the entries its header promises exactly when
  // the pages on which the two part had the entries of the mapping before.
  lemma DocumentedIff(s: State, o: Own, va: Word, size: Word, ppn: nat, flags: Flags)
    requires va % PGSIZE == 0 && size % PGSIZE == 0 && va + size <= 0x1_0000_0000 && flags % 2 == 1
    requires RegionReady(s, o, va / PGSIZE, PagesMapped(va, size)) && Static(va / PGSIZE, size / PGSIZE)
    requires ppn + Span(va, size) <= MAXPAGES
    ensures var r := Region(s, va / PGSIZE, ppn, flags, PagesMapped(va, size));
            Entries(s, r, va / PGSIZE, ppn, flags, size / PGSIZE) <==> PartedSoMapped(s, va, size, ppn, flags)
  {
    var n, k := va / PGSIZE, PagesMapped(va, size);
    RegionMaps(s, o, n, ppn, flags, k);
    StaticHere(s, o, n, k);
    hide Inv, Region, Pte, Missing, Tables, NotCached, RegionReady, Entries, PartedSoMapped;
    EntriesParted(s, Region(s, n, ppn, flags, k), va, size, ppn, flags);
  }

  lemma StaticHere(s: State, o: Own, n: nat, k: nat)
    requires RegionReady(s, o, n, k)
    ensures Static(n, k)
  {
  }

  lemma EntriesParted(s: State, r: State, va: Word, size: Word, ppn: nat, flags: Flags)
    requires va % PGSIZE == 0 && size % PGSIZE == 0 && va + size <= 0x1_0000_0000
    requires Static(va / PGSIZE, PagesMapped(va, size)) && Static(va / PGSIZE, size / PGSIZE)
    requires ppn + Span(va, size) <= MAXPAGES && Entries(s, r, va / PGSIZE, ppn, flags, PagesMapped(va, size))
    ensures Entries(s, r, va / PGSIZE, ppn, flags, size / PGSIZE) <==> PartedSoMapped(s, va, size, ppn, flags)
  {
    hide Pte, Pack;
    var n, k, d := va / PGSIZE, PagesMapped(va, size), size / PGSIZE;
    forall u: Vpn
      ensures Parted(va, size, Number(u)) <==> (n <= Number(u) < n + k) != (n <= Number(u) < n + d)
      ensures Parted(va, size, Number(u)) ==> u.pdx != SELF
    {
    }
  }

  // So where those pages are unmapped, only an empty request has the documented
  // effect.
  lemma DocumentedOnlyEmpty(s: State, o: Own, va: Word, size: Word, ppn: nat, flags: Flags)
    requires va % PGSIZE == 0 && size % PGSIZE == 0 && va + size <= 0x1_0000_0000 && flags % 2 == 1
    requires RegionReady(s, o, va / PGSIZE, PagesMapped(va, size)) && Static(va / PGSIZE, size / PGSIZE)
    requires ppn + Span(va, size) <= MAXPAGES
    requires forall u: Vpn :: Parted(va, size, Number(u)) ==> Pte(s, u) == 0
    ensures Entries(s, Region(s, va / PGSIZE, ppn, flags, PagesMapped(va, size)), va / PGSIZE, ppn, flags, size / PGSIZE)
            <==> size == 0
  {
    hide Inv, Region, Entries, Pte, Missing, PartedSoMapped, Parted, RegionReady;
    DocumentedIff(s, o, va, size, ppn, flags);
    StaticHere(s, o, va / PGSIZE, PagesMapped(va, size));
    UnmappedParted(s, va, size, ppn, flags);
  }

  lemma UnmappedParted(s: State, va: Word, size: Word, ppn: nat, flags: Flags)
    requires va % PGSIZE == 0 && size % PGSIZE == 0 && va + size <= 0x1_0000_0000 && flags % 2 == 1
    requires Static(va / PGSIZE, size / PGSIZE) && ppn + Span(va, size) <= MAXPAGES
    requires va + size < 0x1_0000_0000 ==> va / PGSIZE + size <= MAXPAGES
    requires forall u: Vpn :: Parted(va, size, Number(u)) ==> Pte(s, u) == 0
    ensures PartedSoMapped(s, va, size, ppn, flags) <==> size == 0
  {
    hide Pte, Parted, Pack, Static, Number, VpnAt, Span;
    PartedBounds(va, size);
    if size > 0 {
      var n := PartedPage(va, size);
      NonzeroEntry(ppn + n - va / PGSIZE, flags);
      assert Number(VpnAt(n)) == n;
    }
  }

  lemma PartedBounds(va: Word, size: Word)
    ensures forall n: nat :: Parted(va, size, n) ==> size > 0 && va / PGSIZE <= n < va / PGSIZE + Span(va, size)
  {
  }

  lemma PartedPage(va: Word, size: Word) returns (n: nat)
    requires size > 0 && size % PGSIZE == 0
    requires Static(va / PGSIZE, size / PGSIZE)
    requires va + size < 0x1_0000_0000 ==> va / PGSIZE + size <= MAXPAGES
    ensures Parted(va, size, n) && n < MAXPAGES
  {
    n := if va + size < 0x1_0000_0000 then va / PGSIZE + size / PGSIZE else va / PGSIZE;
  }

  lemma NonzeroEntry(p: nat, flags: Flags)
    requires p < MAXPAGES && flags % 2 == 1
    ensures Pack(p, flags) != 0
  {
    hide Pack, Ppn;
    assert FlagsOf(Pack(p, flags)) == flags && FlagsOf(0) == 0;
  }

  // ---------- the three calls of mem_init ----------

  const UPAGES_VPN := 0xEF000   // UPAGES / PGSIZE
  const STACK_VPN := 0xEFFF8    // (KSTACKTOP - KSTKSIZE) / PGSIZE
  const KERN_VPN := 0xF0000     // KERNBASE / PGSIZE

  lemma MappedAddresses()
    ensures UPAGES == UPAGES_VPN * PGSIZE && KSTACKTOP - KSTKSIZE == STACK_VPN * PGSIZE
    ensures KERNBASE == KERN_VPN * PGSIZE
  {
  }

  // kern/pmap.c:201, 219 and 234: the pages array (np pages from physical page
  // pages), KSTKSIZE pages from the boot stack, and 2^16 pages from zero.
  function KernelMapped(s: State, pages: nat, np: nat, stack: nat): State
    requires np <= 1024 && pages + np <= MAXPAGES && stack + KSTKSIZE <= MAXPAGES
  {
    var s1 := Region(s, UPAGES_VPN, pages, 5, np);
    var s2 := Region(s1, STACK_VPN, stack, 3, KSTKSIZE);
    Region(s2, KERN_VPN, 0, 3, 0x1_0000)
  }

  // The intended entry for a page of the kernel's half (kern/pmap.c:192-236).
  function Intended(n: nat, pages: nat, np: nat, stack: nat): Word
    requires n < MAXPAGES && pages + np <= MAXPAGES && stack + 8 <= MAXPAGES
  {
    if UPAGES_VPN <= n < UPAGES_VPN + np then Pack(pages + n - UPAGES_VPN, 5)
    else if STACK_VPN <= n < KERN_VPN then Pack(stack + n - STACK_VPN, 3)
    else if KERN_VPN <= n then Pack(n - KERN_VPN, 3)
    else 0
  }

  predicate EmptyDirectory(s: State) { forall d: Index :: d != SELF ==> Pde(s, d) == 0 }

  lemma {:induction false} IntervalSize(q: set<int>, lo: int, hi: int)
    requires lo <= hi && forall d :: d in q <==> lo <= d < hi
    ensures |q| == hi - lo
    decreases hi - lo
  {
    if lo < hi {
      IntervalSize(q - {hi - 1}, lo, hi - 1);
    } else {
      forall d ensures d !in q { }
    }
  }

  // The tables the three calls need: one, then 33 (the overrun of the stack call
  // reaches 32 tables into KERNBASE), then the remaining 32.
  lemma FirstTable(s: State, np: nat)
    requires EmptyDirectory(s) && 1 <= np <= 1024
    ensures Missing(s, UPAGES_VPN, UPAGES_VPN + np) == {956}
  {
  }

  lemma SecondTables(s: State, s1: State, np: nat)
    requires EmptyDirectory(s) && 1 <= np <= 1024
    requires Tables(s, s1, UPAGES_VPN, UPAGES_VPN + np)
    ensures |Missing(s1, STACK_VPN, STACK_VPN + KSTKSIZE)| == 33
    ensures forall d: Index :: d != SELF && d != 956 ==> Pde(s1, d) == 0
    ensures Present(Pde(s1, 956))
  {
    FirstTable(s, np);
    IntervalSize(Missing(s1, STACK_VPN, STACK_VPN + KSTKSIZE), 959, 992);
  }

  lemma ThirdTables(s: State, s1: State, s2: State, np: nat)
    requires EmptyDirectory(s) && 1 <= np <= 1024
    requires Tables(s, s1, UPAGES_VPN, UPAGES_VPN + np)
    requires Tables(s1, s2, STACK_VPN, STACK_VPN + KSTKSIZE)
    ensures |Missing(s2, KERN_VPN, KERN_VPN + 0x1_0000)| == 32
    ensures forall d: Index :: d != SELF && d != 956 && !(959 <= d < 992) ==> Pde(s2, d) == 0
    ensures forall d: Index :: d == 956 || 959 <= d < 992 ==> Present(Pde(s2, d))
  {
    SecondTables(s, s1, np);
    IntervalSize(Missing(s2, KERN_VPN, KERN_VPN + 0x1_0000), 992, 1024);
  }

  lemma IntendedTables(s: State, s1: State, s2: State, r: State, np: nat)
    requires EmptyDirectory(s) && 1 <= np <= 1024 && TablesValid(r)
    requires Tables(s, s1, UPAGES_VPN, UPAGES_VPN + np)
    requires Tables(s1, s2, STACK_VPN, STACK_VPN + KSTKSIZE)
    requires Tables(s2, r, KERN_VPN, KERN_VPN + 0x1_0000)
    ensures forall d: Index :: d != SELF ==>
              if d == 956 || d >= 959 then Present(Pde(r, d)) && FlagsOf(Pde(r, d)) == 7 else Pde(r, d) == 0
  {
    ThirdTables(s, s1, s2, np);
  }

  lemma EmptyEntries(s: State)
    requires EmptyDirectory(s)
    ensures forall u: Vpn :: u.pdx != SELF ==> Pte(s, u) == 0
  {
  }

  lemma IntendedEntries(s: State, s1: State, s2: State, r: State, pages: nat, np: nat, stack: nat)
    requires np <= 1024 && pages + np <= MAXPAGES && stack + KSTKSIZE <= MAXPAGES
    requires forall u: Vpn :: u.pdx != SELF ==> Pte(s, u) == 0
    requires Entries(s, s1, UPAGES_VPN, pages, 5, np)
    requires Entries(s1, s2, STACK_VPN, stack, 3, KSTKSIZE)
    requires Entries(s2, r, KERN_VPN, 0, 3, 0x1_0000)
    ensures forall u: Vpn :: u.pdx != SELF ==> Pte(r, u) == Intended(Number(u), pages, np, stack)
  {
    hide Pte;
  }

  // With an empty directory the TLB can hold nothing outside the window.
  ghost predicate CachesWindow(s: State) { forall u :: u in s.tlb ==> u.pdx == SELF }

  lemma EmptyCachesWindow(s: State)
    requires EmptyDirectory(s) && TlbValid(s)
    ensures CachesWindow(s)
  {
    forall u | u in s.tlb ensures u.pdx == SELF {
      assert Translate(s, u) != None;
    }
  }

  lemma WindowNotCached(s: State, n: nat, k: nat)
    requires CachesWindow(s) && Static(n, k)
    ensures NotCached(s, n, k)
  {
  }

  // From an empty directory and 66 free pages, the three calls give exactly the
  // intended kernel map, although the second maps 32768 pages and runs 32760
  // pages past KERNBASE: the third call overwrites the overrun.
  lemma KernelMapIsIntended(s: State, o: Own, pages: nat, np: nat, stack: nat)
    requires Inv(s, o) && EmptyDirectory(s) && |o.free| >= 66
    requires 1 <= np <= 1024 && pages + np <= MAXPAGES && stack + KSTKSIZE <= MAXPAGES
    ensures var r := KernelMapped(s, pages, np, stack);
            && Inv(r, o.(free := o.free[66..])) && r.tlb == s.tlb
            && (forall u: Vpn :: u.pdx != SELF ==> Pte(r, u) == Intended(Number(u), pages, np, stack))
            && (forall d: Index :: d != SELF ==>
                  if d == 956 || d >= 959 then Present(Pde(r, d)) && FlagsOf(Pde(r, d)) == 7 else Pde(r, d) == 0)
  {
    hide ListsValid, TablesValid, CountsValid, TlbValid, Missing, Entries, Tables, Region, CachesWindow, NotCached, OwnMapped;
    EmptyEntries(s);
    var s1 := Region(s, UPAGES_VPN, pages, 5, np);
    var s2 := Region(s1, STACK_VPN, stack, 3, KSTKSIZE);
    var r := KernelMapped(s, pages, np, stack);
    MapStages(s, o, pages, np, stack);
    var o1, o2 := o.(free := o.free[1..]), o.(free := o.free[34..]);
    RegionMaps(s, o, UPAGES_VPN, pages, 5, np);
    RegionMaps(s1, o1, STACK_VPN, stack, 3, KSTKSIZE);
    RegionMaps(s2, o2, KERN_VPN, 0, 3, 0x1_0000);
    IntendedEntries(s, s1, s2, r, pages, np, stack);
    IntendedTables(s, s1, s2, r, np);
  }

  // The three calls one after the other: each finds what it needs, and takes 1,
  // 33 and 32 pages from the front of the list.
  lemma MapStages(s: State, o: Own, pages: nat, np: nat, stack: nat)
    requires Inv(s, o) && EmptyDirectory(s) && |o.free| >= 66
    requires 1 <= np <= 1024 && pages + np <= MAXPAGES && stack + KSTKSIZE <= MAXPAGES
    ensures var o1, o2 := o.(free := o.free[1..]), o.(free := o.free[34..]);
            var s1 := Region(s, UPAGES_VPN, pages, 5, np);
            var s2 := Region(s1, STACK_VPN, stack, 3, KSTKSIZE);
            && |Missing(s, UPAGES_VPN, UPAGES_VPN + np)| == 1 && |Missing(s1, STACK_VPN, STACK_VPN + KSTKSIZE)| == 33
            && |Missing(s2, KERN_VPN, KERN_VPN + 0x1_0000)| == 32
            && RegionReady(s, o, UPAGES_VPN, np) && OwnMapped(s, o, UPAGES_VPN, UPAGES_VPN + np) == o1
            && RegionReady(s1, o1, STACK_VPN, KSTKSIZE) && OwnMapped(s1, o1, STACK_VPN, STACK_VPN + KSTKSIZE) == o2
            && RegionReady(s2, o2, KERN_VPN, 0x1_0000)
            && OwnMapped(s2, o2, KERN_VPN, KERN_VPN + 0x1_0000) == o.(free := o.free[66..])
  {
    hide ListsValid, TablesValid, CountsValid, TlbValid, Missing, Entries, Tables, Region, CachesWindow, NotCached;
    var s1 := Region(s, UPAGES_VPN, pages, 5, np);
    var s2 := Region(s1, STACK_VPN, stack, 3, KSTKSIZE);
    EmptyCachesWindow(s);
    WindowNotCached(s, UPAGES_VPN, np);
    assert |Missing(s, UPAGES_VPN, UPAGES_VPN + np)| == 1 by { FirstTable(s, np); }
    RegionMaps(s, o, UPAGES_VPN, pages, 5, np);
    SecondTables(s, s1, np);
    SameCached(s, s1);
    WindowNotCached(s1, STACK_VPN, KSTKSIZE);
    var o1, o2 := o.(free := o.free[1..]), o.(free := o.free[34..]);
    assert o1.free[33..] == o2.free && o2.free[32..] == o.free[66..];
    RegionMaps(s1, o1, STACK_VPN, stack, 3, KSTKSIZE);
    ThirdTables(s, s1, s2, np);
    SameCached(s1, s2);
    WindowNotCached(s2, KERN_VPN, 0x1_0000);
  }

  // The stack call, with KSTKSIZE given in bytes, maps 32760 pages too many: the
  // first 32760 pages from KERNBASE get what follows the boot stack.
  lemma StackCallOverruns(s: State, o: Own, pages: nat, np: nat, stack: nat)
    requires Inv(s, o) && EmptyDirectory(s) && |o.free| >= 66
    requires 1 <= np <= 1024 && pages + np <= MAXPAGES && stack + KSTKSIZE <= MAXPAGES
    ensures var s1 := Region(s, UPAGES_VPN, pages, 5, np);
            var s2 := Region(s1, STACK_VPN, stack, 3, KSTKSIZE);
            && !Entries(s1, s2, STACK_VPN, stack, 3, KSTKSIZE / PGSIZE)
            && forall u: Vpn :: KERN_VPN <= Number(u) < KERN_VPN + 32760 ==>
                 Pte(s1, u) == 0 && Pte(s2, u) == Pack(stack + 8 + Number(u) - KERN_VPN, 3)
  {
    hide Inv, Missing, Tables, Region, OwnMapped, Pte, RegionReady;
    MapStages(s, o, pages, np, stack);
    StackStage(s, o, pages, np, stack);
    var s1, o1 := Region(s, UPAGES_VPN, pages, 5, np), o.(free := o.free[1..]);
    EmptyEntries(s);
    MappedAddresses();
    DocumentedOnlyEmpty(s1, o1, KSTACKTOP - KSTKSIZE, KSTKSIZE, stack, 3);
  }

  lemma StackStage(s: State, o: Own, pages: nat, np: nat, stack: nat)
    requires Inv(s, o) && EmptyDirectory(s) && |o.free| >= 66
    requires 1 <= np <= 1024 && pages + np <= MAXPAGES && stack + KSTKSIZE <= MAXPAGES
    ensures var s1 := Region(s, UPAGES_VPN, pages, 5, np);
            Entries(s, s1, UPAGES_VPN, pages, 5, np)
            && Entries(s1, Region(s1, STACK_VPN, stack, 3, KSTKSIZE), STACK_VPN, stack, 3, KSTKSIZE)
  {
    hide Inv, Missing, Tables, Region, Entries;
    MapStages(s, o, pages, np, stack);
    RegionMaps(s, o, UPAGES_VPN, pages, 5, np);
    RegionMaps(Region(s, UPAGES_VPN, pages, 5, np), o.(free := o.free[1..]), STACK_VPN, stack, 3, KSTKSIZE);
  }

  lemma SameCached(s: State, s': State)
    requires s'.tlb == s.tlb && CachesWindow(s)
    ensures CachesWindow(s')
  {
  }

  // What the three calls leave of the tables.
  ghost predicate IsKernelMap(s: State, pages: nat, np: nat, stack: nat)
  {
    && np <= 1024 && pages + np <= MAXPAGES && stack + KSTKSIZE <= MAXPAGES && TablesValid(s)
    && (forall u: Vpn :: u.pdx != SELF ==> Pte(s, u) == Intended(Number(u), pages, np, stack))
    && (forall d: Index :: d != SELF ==>
          if d == 956 || d >= 959 then Present(Pde(s, d)) && FlagsOf(Pde(s, d)) == 7 else Pde(s, d) == 0)
  }
}
