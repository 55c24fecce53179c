// check_page (kern/pmap.c:864-1014), step by step over the one page table it
// builds.
module CheckTables {
  import opened Mmu
  import opened PageState
  import opened Allocator
  import opened PageTables
  import opened Pmap
  import opened CheckAlloc
  import opened CheckMap
  import opened Transcripts

  // The directory entry under test, its table page, the table's first two
  // entries (the others are zero), and the free list.
  datatype Bench = Bench(dir: Index, table: nat, e0: Word, e1: Word, free: seq<nat>)

  function Entry(k: Bench, t: Index): Word
  {
    if t == 0 then k.e0 else if t == 1 then k.e1 else 0
  }

  // Outside directory entry dir, and the window, nothing changed since s0.
  ghost predicate Elsewhere(s0: State, s: State, dir: Index)
  {
    && NPages(s) == NPages(s0) && s.pgdir == s0.pgdir
    && (forall d: Index :: d != dir ==> Pde(s, d) == Pde(s0, d))
    && (forall u: Vpn :: u.pdx != dir && u.pdx != SELF ==> Pte(s, u) == Pte(s0, u))
  }

  // The counts, from those of s0 and the entries of the bench.
  ghost predicate Tally(s0: State, s: State, k: Bench)
    requires NPages(s) == NPages(s0)
  {
    forall p :: 0 <= p < |s.refs| ==>
      s.refs[p] == s0.refs[p] + (if p == k.table then 1 else 0) + Names(k.e0, p) + Names(k.e1, p)
  }

  ghost predicate BenchEntries(s: State, k: Bench)
  {
    && k.table < MAXPAGES && k.dir < USERTOP && HasTable(s, k.dir) && Pde(s, k.dir) == Pack(k.table, 7)
    && forall u: Vpn :: u.pdx == k.dir ==> Pte(s, u) == Entry(k, u.ptx)
  }

  // The TLB holds nothing for directory entry d.
  ghost predicate Uncached(s: State, d: Index) { forall u :: u in s.tlb ==> u.pdx != d }

  // Since s0 the TLB has changed for directory entry d only, for which it held
  // nothing.
  ghost predicate SameCached(s0: State, s: State, d: Index)
  {
    && Uncached(s0, d)
    && (forall u :: u in s.tlb && u.pdx != d ==> u in s0.tlb && s0.tlb[u] == s.tlb[u])
    && (forall u :: u in s0.tlb ==> u in s.tlb)
  }

  // Only the directory and page table are written.
  ghost predicate SameFrames(s0: State, s: State, table: nat)
  {
    && NPages(s) == NPages(s0) && s.pgdir == s0.pgdir
    && forall p :: 0 <= p < NPages(s) && p != s.pgdir && p != table ==> s.mem[p] == s0.mem[p]
  }

  ghost predicate OnBench(s0: State, s: State, o: Own, k: Bench)
  {
    && Inv(s, o) && o.free == k.free && SameCached(s0, s, k.dir) && SameFrames(s0, s, k.table)
    && Elsewhere(s0, s, k.dir) && Tally(s0, s, k) && BenchEntries(s, k)
  }

  function WithEntry(k: Bench, t: Index, w: Word): Bench
  {
    if t == 0 then k.(e0 := w) else if t == 1 then k.(e1 := w) else k
  }

  // The list after the page named by entry word w lost that name.
  function FreedBy(s: State, w: Word, free: seq<nat>): seq<nat>
  {
    if Present(w) && Ppn(w) < NPages(s) && s.refs[Ppn(w)] == 1 then [Ppn(w)] + free else free
  }

  lemma InstallTally(s0: State, s: State, o: Own, k: Bench, pp: nat, t: Index, perm: Flags)
    requires OnBench(s0, s, o, k) && t < 2 && Insertable(s, o, pp) && !Overflows(s, pp, Vpn(k.dir, t))
    ensures NPages(Installed(s, pp, Vpn(k.dir, t), perm)) == NPages(s0)
    ensures Tally(s0, Installed(s, pp, Vpn(k.dir, t), perm), WithEntry(k, t, Pack(pp, WithPresent(perm))))
  {
    hide ListsValid, TablesValid, CountsValid, TlbValid, Installed, WithPresent;
    var v, w := Vpn(k.dir, t), Pack(pp, WithPresent(perm));
    assert Pte(s, v) == Entry(k, t);
    InstalledSizes(s, pp, v, perm);
    forall p: nat | p < NPages(s)
      ensures Installed(s, pp, v, perm).refs[p] + Names(Entry(k, t), p) == s.refs[p] + Names(w, p)
    {
      InsertedRefs(s, o, pp, v, perm, p);
    }
    hide BenchEntries, Elsewhere, Inv;
  }

  lemma InstalledSizes(s: State, pp: nat, v: Vpn, perm: Flags)
    requires pp < NPages(s)
    ensures NPages(Installed(s, pp, v, perm)) == NPages(s) && Installed(s, pp, v, perm).pgdir == s.pgdir
    ensures Installed(s, pp, v, perm).tlb == s.tlb || Installed(s, pp, v, perm).tlb == s.tlb - {v}
  {
    hide Pack, WithPresent, Pte;
  }

  // Entering a page writes no frame but the table's.
  lemma InstalledFrames(s: State, pp: nat, v: Vpn, perm: Flags, p: nat)
    requires TablesValid(s) && v.pdx < USERTOP && HasTable(s, v.pdx) && pp < NPages(s)
    requires p < NPages(s) && p != TableOf(s, v.pdx)
    ensures Installed(s, pp, v, perm).mem[p] == s.mem[p]
  {
    hide WithPresent, Pack;
    if Mapped(s, v) && Ppn(Pte(s, v)) != pp {
      MappedNamesPage(s, v);
      RemovedReads(s, v);
    }
    hide TablesValid, Pte;
  }

  lemma InstallEntries(s0: State, s: State, k: Bench, pp: nat, t: Index, perm: Flags)
    requires TablesValid(s) && Elsewhere(s0, s, k.dir) && BenchEntries(s, k) && t < 2 && pp < NPages(s)
    ensures var s' := Installed(s, pp, Vpn(k.dir, t), perm);
            Elsewhere(s0, s', k.dir) && BenchEntries(s', WithEntry(k, t, Pack(pp, WithPresent(perm))))
    ensures SameFrames(s0, s, k.table) ==> SameFrames(s0, Installed(s, pp, Vpn(k.dir, t), perm), k.table)
    ensures SameCached(s0, s, k.dir) ==> SameCached(s0, Installed(s, pp, Vpn(k.dir, t), perm), k.dir)
  {
    InstalledReads(s, pp, Vpn(k.dir, t), perm);
    forall p: nat | p < NPages(s) && p != k.table
      ensures Installed(s, pp, Vpn(k.dir, t), perm).mem[p] == s.mem[p]
    {
      InstalledFrames(s, pp, Vpn(k.dir, t), perm, p);
    }
    InstalledSizes(s, pp, Vpn(k.dir, t), perm);
    hide TablesValid, Installed, Pte, Pde;
  }

  // A page_insert on the bench.
  lemma BenchInsert(s0: State, s: State, o: Own, k: Bench, pp: nat, t: Index, perm: Flags)
    requires OnBench(s0, s, o, k) && t < 2 && Insertable(s, o, pp) && s0.refs[pp] == 0
    ensures !InsertFails(s, Vpn(k.dir, t))
    ensures var w, was := Pack(pp, WithPresent(perm)), Entry(k, t);
            var free := if Present(was) && Ppn(was) != pp then FreedBy(s, was, k.free) else k.free;
            OnBench(s0, Inserted(s, pp, Vpn(k.dir, t), perm), OwnInserted(s, o, pp, Vpn(k.dir, t)), WithEntry(k, t, w).(free := free))
  {
    hide ListsValid, TablesValid, CountsValid, TlbValid, Installed, OwnInstalled, BenchEntries, Elsewhere, Tally, Pte, Pde, FreedBy;
    var v, w, was := Vpn(k.dir, t), Pack(pp, WithPresent(perm)), Entry(k, t);
    BenchBasics(s0, s, o, k);
    assert Walked(s, k.dir) == s && OwnWalked(s, o, k.dir) == o;
    assert !Overflows(s, pp, v);
    InsertKeepsInvIff(s, o, pp, v, perm);
    InstallEntries(s0, s, k, pp, t, perm);
    InstallTally(s0, s, o, k, pp, t, perm);
    InstalledSizes(s, pp, v, perm);
    BenchOwn(s, o, k, pp, t);
    BenchList(s0, Installed(s, pp, v, perm), WithEntry(k, t, w),
              if Present(was) && Ppn(was) != pp then FreedBy(s, was, k.free) else k.free);
  }

  lemma BenchOwn(s: State, o: Own, k: Bench, pp: nat, t: Index)
    requires BenchEntries(s, k) && o.free == k.free
    ensures var was, o' := Entry(k, t), OwnInstalled(s, o, pp, Vpn(k.dir, t));
            && o'.free == (if Present(was) && Ppn(was) != pp then FreedBy(s, was, k.free) else k.free)
            && o'.held == o.held && o'.boot == o.boot
  {
    assert Pte(s, Vpn(k.dir, t)) == Entry(k, t);
    hide Pte;
  }

  // ---------- page_remove on the bench ----------

  lemma RemoveTally(s0: State, s: State, o: Own, k: Bench, t: Index)
    requires OnBench(s0, s, o, k) && t < 2 && Present(Entry(k, t))
    ensures NPages(Removed(s, Vpn(k.dir, t))) == NPages(s0)
    ensures Tally(s0, Removed(s, Vpn(k.dir, t)), WithEntry(k, t, 0))
  {
    hide ListsValid, TablesValid, CountsValid, TlbValid, BenchEntries;
    BenchPte(s, k, t);
    MappedPage(s, o, Vpn(k.dir, t));
    hide Pte;
  }

  lemma BenchPte(s: State, k: Bench, t: Index)
    requires BenchEntries(s, k)
    ensures Pte(s, Vpn(k.dir, t)) == Entry(k, t) && k.dir < USERTOP
  {
  }

  lemma RemoveEntries(s0: State, s: State, k: Bench, t: Index)
    requires TablesValid(s) && Elsewhere(s0, s, k.dir) && BenchEntries(s, k) && t < 2 && MapsPage(s, Vpn(k.dir, t))
    ensures Elsewhere(s0, Removed(s, Vpn(k.dir, t)), k.dir) && BenchEntries(Removed(s, Vpn(k.dir, t)), WithEntry(k, t, 0))
    ensures SameCached(s0, s, k.dir) ==> SameCached(s0, Removed(s, Vpn(k.dir, t)), k.dir)
    ensures SameFrames(s0, s, k.table) ==> SameFrames(s0, Removed(s, Vpn(k.dir, t)), k.table)
  {
    RemovedReads(s, Vpn(k.dir, t));
    hide TablesValid, Pte, Pde;
  }

  lemma BenchRemove(s0: State, s: State, o: Own, k: Bench, t: Index)
    requires OnBench(s0, s, o, k) && t < 2 && Present(Entry(k, t))
    ensures RemoveSafe(s, Vpn(k.dir, t))
    ensures OnBench(s0, Removed(s, Vpn(k.dir, t)), OwnRemoved(s, o, Vpn(k.dir, t)),
                    WithEntry(k, t, 0).(free := FreedBy(s, Entry(k, t), k.free)))
    ensures OwnRemoved(s, o, Vpn(k.dir, t)).held == o.held && OwnRemoved(s, o, Vpn(k.dir, t)).boot == o.boot
  {
    hide ListsValid, TablesValid, CountsValid, TlbValid, Elsewhere, Tally, Removed;
    BenchPte(s, k, t);
    MappedPage(s, o, Vpn(k.dir, t));
    RemoveKeepsInv(s, o, Vpn(k.dir, t));
    RemoveEntries(s0, s, k, t);
    RemoveTally(s0, s, o, k, t);
    BenchList(s0, Removed(s, Vpn(k.dir, t)), WithEntry(k, t, 0), FreedBy(s, Entry(k, t), k.free));
    hide BenchEntries;
  }

  lemma BenchList(s0: State, s: State, k: Bench, free: seq<nat>)
    requires NPages(s) == NPages(s0) && Tally(s0, s, k) && BenchEntries(s, k)
    ensures Tally(s0, s, k.(free := free)) && BenchEntries(s, k.(free := free))
  {
  }

  // ---------- building and dismantling the bench ----------

  // pgdir_walk with creation takes the first free page for the new table.
  lemma BenchBuilt(s: State, o: Own, d: Index)
    requires Inv(s, o) && |o.free| >= 1 && !Present(Pde(s, d)) && d < USERTOP
    ensures !WalkFails(s, d, true) && o.free[0] < NPages(s) && s.refs[o.free[0]] == 0
    ensures OnBench(s, Walked(s, d), OwnWalked(s, o, d), Bench(d, o.free[0], 0, 0, o.free[1..]))
    ensures OwnWalked(s, o, d).held == o.held && OwnWalked(s, o, d).boot == o.boot
  {
    hide ListsValid, TablesValid, CountsValid, TlbValid;
    HeadIsFirst(s, o);
    AllocKeepsInv(s, o, true);
    WalkedKeepsInv(s, o, d);
    NewTableReads(s, o, d);
    AbsentUncached(s, d);
    assert forall u: Vpn :: u.pdx == d ==> Pte(s, u) == 0;
    hide Pte;
  }

  // Nothing is cached for an absent directory entry.
  lemma AbsentUncached(s: State, d: Index)
    requires TlbValid(s) && !Present(Pde(s, d))
    ensures Uncached(s, d)
  {
    forall u | u in s.tlb ensures u.pdx != d {
      assert Translate(s, u) != None;
    }
  }

  lemma HeadIsFirst(s: State, o: Own)
    requires ListsValid(s, o) && o.free != []
    ensures s.head == Some(o.free[0]) && o.free[0] < NPages(s)
  {
  }

  // "Forcibly take pp0 back": clear the directory entry and the count.
  function TakenBack(s: State, d: Index, table: nat): State
    requires table < NPages(s)
  {
    s.(mem := s.mem[s.pgdir := s.mem[s.pgdir][d := 0]], refs := s.refs[table := 0])
  }

  lemma TakenBackReads(s0: State, s: State, k: Bench)
    requires TablesValid(s) && BenchEntries(s, k) && k.e0 == 0 && k.e1 == 0
    ensures k.table < NPages(s)
    ensures var s' := TakenBack(s, k.dir, k.table);
            && (forall d: Index :: Pde(s', d) == if d == k.dir then 0 else Pde(s, d))
            && (forall u: Vpn :: u.pdx != SELF ==> Pte(s', u) == Pte(s, u))
            && (forall t: Index :: Pte(s', Vpn(SELF, t)) == Pde(s', t))
  {
    var s' := TakenBack(s, k.dir, k.table);
    assert forall d: Index :: Pde(s', d) == if d == k.dir then 0 else Pde(s, d);
    assert forall u: Vpn :: u.pdx == k.dir ==> Pte(s, u) == 0;
    forall u: Vpn | u.pdx != SELF ensures Pte(s', u) == Pte(s, u) {
      assert Pde(s', u.pdx) == if u.pdx == k.dir then 0 else Pde(s, u.pdx);
    }
    assert Pde(s', SELF) == Pde(s, SELF) == Pack(s.pgdir, 5);
  }

  lemma WindowReads(s: State)
    requires TablesValid(s)
    ensures forall t: Index :: Pte(s, Vpn(SELF, t)) == Pde(s, t)
  {
  }

  lemma TakenBackTables(s0: State, s: State, k: Bench)
    requires TablesValid(s0) && TablesValid(s) && Elsewhere(s0, s, k.dir) && BenchEntries(s, k)
    requires k.e0 == 0 && k.e1 == 0 && Pde(s0, k.dir) == 0
    ensures k.table < NPages(s) && SameTables(s0, TakenBack(s, k.dir, k.table))
  {
    TakenBackReads(s0, s, k);
    WindowReads(s0);
    var s' := TakenBack(s, k.dir, k.table);
    assert forall u: Vpn :: u.pdx == k.dir ==> Pte(s0, u) == 0;
    hide TablesValid, Pte;
    forall u: Vpn ensures Pte(s', u) == Pte(s0, u) {
      if u.pdx == SELF { assert u == Vpn(SELF, u.ptx); }
    }
  }

  // Taking an emptied table back by hand restores the tables and the counts of
  // the state before it was built.
  lemma BenchDismantled(s0: State, o0: Own, s: State, o: Own, k: Bench)
    requires OnBench(s0, s, o, k) && Inv(s0, o0) && o.boot == o0.boot
    requires k.e0 == 0 && k.e1 == 0 && Pde(s0, k.dir) == 0 && k.table < NPages(s) && s0.refs[k.table] == 0
    ensures Inv(TakenBack(s, k.dir, k.table), o)
    ensures SameTables(s0, TakenBack(s, k.dir, k.table)) && TakenBack(s, k.dir, k.table).refs == s0.refs
    ensures TakenBack(s, k.dir, k.table).tlb == s0.tlb
    ensures k.table !in o.free && k.table !in o.held
  {
    hide TablesValid, Pde, Pte, SameCached, SameFrames, BenchEntries, Elsewhere, ListsValid, CountsValid, TlbValid;
    var s' := TakenBack(s, k.dir, k.table);
    TakenBackTables(s0, s, k);
    assert s.refs[k.table] == 1;
    assert s'.refs == s0.refs;
    NothingCached(s0, s, k);
    UncountedAgain(s0, o0, s, o, s', k.table);
  }

  // With the table empty nothing of it is cached any more.
  lemma NothingCached(s0: State, s: State, k: Bench)
    requires SameCached(s0, s, k.dir) && TlbValid(s) && BenchEntries(s, k) && k.e0 == 0 && k.e1 == 0
    ensures s.tlb == s0.tlb
  {
    BenchUncached(s, k);
    hide BenchEntries;
  }

  // In any state with valid tables and TLB: clearing the directory entry without
  // invalidating anything leaves the TLB right exactly when the window page that
  // shows the table was not cached.
  lemma TakenBackCoherentIff(s: State, k: Bench)
    requires TablesValid(s) && TlbValid(s) && BenchEntries(s, k) && k.e0 == 0 && k.e1 == 0
    ensures k.table < NPages(s)
    ensures TlbValid(TakenBack(s, k.dir, k.table)) <==> Vpn(SELF, k.dir) !in s.tlb
  {
    TakenBackReads(s, s, k);
    var s', w := TakenBack(s, k.dir, k.table), Vpn(SELF, k.dir);
    assert Pte(s', w) == 0;
    BenchUncached(s, k);
    hide BenchEntries, Pte, Pde, TablesValid, TakenBack;
    forall u: Vpn | u in s.tlb && u != w ensures Translate(s', u) == Translate(s, u) {
      WindowReads(s);
      SameTranslation(s, s', k, u);
    }
    assert Translate(s', w) == None;
    TakenBackTlb(s, k);
  }

  lemma TakenBackTlb(s: State, k: Bench)
    requires k.table < NPages(s)
    ensures TakenBack(s, k.dir, k.table).tlb == s.tlb
  {
  }

  lemma BenchUncached(s: State, k: Bench)
    requires TlbValid(s) && BenchEntries(s, k) && k.e0 == 0 && k.e1 == 0
    ensures Uncached(s, k.dir)
  {
    forall u | u in s.tlb ensures u.pdx != k.dir {
      assert Translate(s, u) != None;
      assert u.pdx == k.dir ==> Pte(s, u) == Entry(k, u.ptx) == 0;
    }
  }

  lemma SameTranslation(s: State, s': State, k: Bench, u: Vpn)
    requires forall d: Index :: Pde(s', d) == if d == k.dir then 0 else Pde(s, d)
    requires forall v: Vpn :: v.pdx != SELF ==> Pte(s', v) == Pte(s, v)
    requires forall t: Index :: Pte(s', Vpn(SELF, t)) == Pde(s', t) && Pte(s, Vpn(SELF, t)) == Pde(s, t)
    requires u != Vpn(SELF, k.dir) && u.pdx != k.dir
    ensures Translate(s', u) == Translate(s, u)
  {
    hide Pte, Pde;
    if u.pdx == SELF {
      assert u == Vpn(SELF, u.ptx);
    }
  }

  lemma UncountedAgain(s0: State, o0: Own, s: State, o: Own, s': State, table: nat)
    requires Inv(s0, o0) && Inv(s, o) && o.boot == o0.boot && SameTables(s0, s') && table < NPages(s)
    requires s'.refs == s0.refs == s.refs[table := 0] && s'.tlb == s0.tlb && s.refs[table] == 1
    requires s'.links == s.links && s'.head == s.head
    ensures Inv(s', o) && table !in o.free && table !in o.held
  {
    hide TablesValid, Pde, Pte, ListsValid;
    TablesCarry(s0, s');
    assert CountsValid(s', o);
    hide CountsValid, TlbValid;
    UncountedLists(s, o, s', table);
  }

  lemma UncountedLists(s: State, o: Own, s': State, table: nat)
    requires ListsValid(s, o) && table < NPages(s) && s.refs[table] == 1
    requires s'.refs == s.refs[table := 0] && s'.links == s.links && s'.head == s.head
    ensures ListsValid(s', o) && table !in o.free && table !in o.held
  {
  }

  lemma BenchLists(s0: State, s: State, o: Own, k: Bench, s': State, o': Own)
    requires OnBench(s0, s, o, k) && SameButLists(s, s') && s'.mem == s.mem && Inv(s', o')
    ensures OnBench(s0, s', o', k.(free := o'.free))
  {
    hide ListsValid, TablesValid, CountsValid, TlbValid, Pde, Pte;
  }

  // ---------- the steps of check_page as methods ----------

  // The virtual address of entry t of directory entry d.
  function At(d: Index, t: Index): (va: Word)
    ensures VpnOf(va) == Vpn(d, t)
  {
    AddressJoin(d, t, 0);
    PgAddr(d, t, 0)
  }

  ghost predicate Ready(m: Machine, s0: State, o: Own, k: Bench)
    reads m, m.ref, m.link, m.mem
  {
    m.WellFormed() && m.InReach() && OnBench(s0, m.St(), o, k)
  }

  // page_insert of a page counted zero in s0, with the assertions that follow
  // it: it succeeds, and the entry translates to the page.
  method InsertStep(m: Machine, pp: nat, va: Word, perm: Flags, ghost s0: State, ghost o: Own, ghost k: Bench)
    returns (ghost o': Own, ghost k': Bench)
    requires Ready(m, s0, o, k) && Pdx(va) == k.dir && Ptx(va) < 2
    requires Insertable(m.St(), o, pp) && s0.refs[pp] == 0
    modifies m, m.ref, m.link, m.mem
    ensures Ready(m, s0, o', k') && o'.held == o.held && o'.boot == o.boot
    ensures var w, was := Pack(pp, WithPresent(perm)), Entry(k, Ptx(va));
            k' == WithEntry(k, Ptx(va), w).(free :=
              if Present(was) && Ppn(was) != pp then FreedBy(old(m.St()), was, k.free) else k.free)
    ensures Pte(m.St(), VpnOf(va)) == Pack(pp, WithPresent(perm))
    ensures CheckVa2Pa(m.St(), va) == pp * PGSIZE
    ensures Took(old(m.St()), Said(PageInsert(pp, va, perm), Value(0)), m.St())
  {
    hide OnBench, ListsValid, TablesValid, CountsValid, TlbValid, Inserted, OwnInserted, Pte, Pde;
    ghost var s, t := m.St(), Ptx(va);
    BenchInsert(s0, s, o, k, pp, t, perm);
    BenchBasics(s0, s, o, k);
    InsertIsSafe(s, o, pp, VpnOf(va), perm);
    var rc := m.PageInsert(pp, va, perm);
    assert rc == 0;
    o' := OwnInserted(s, o, pp, VpnOf(va));
    var was := Entry(k, t);
    k' := WithEntry(k, t, Pack(pp, WithPresent(perm))).(free :=
            if Present(was) && Ppn(was) != pp then FreedBy(s, was, k.free) else k.free);
    InsertedOwn(s, o, pp, VpnOf(va));
    BenchRead(s0, m.St(), o', k', va);
  }

  lemma InsertedOwn(s: State, o: Own, pp: nat, v: Vpn)
    requires !InsertFails(s, v)
    ensures OwnInserted(s, o, pp, v).held == o.held && OwnInserted(s, o, pp, v).boot == o.boot
  {
  }

  lemma BenchBasics(s0: State, s: State, o: Own, k: Bench)
    requires OnBench(s0, s, o, k)
    ensures Inv(s, o) && o.free == k.free && k.dir < USERTOP && NPages(s) == NPages(s0)
    ensures SameCached(s0, s, k.dir) && SameFrames(s0, s, k.table)
    ensures HasTable(s, k.dir) && Pde(s, k.dir) == Pack(k.table, 7) && k.table < NPages(s)
    ensures forall p: nat :: p < NPages(s) ==>
              s.refs[p] == s0.refs[p] + (if p == k.table then 1 else 0) + Names(k.e0, p) + Names(k.e1, p)
    ensures forall d: Index :: d != k.dir ==> Pde(s, d) == Pde(s0, d)
    ensures forall t: Index :: Pte(s, Vpn(k.dir, t)) == Entry(k, t)
  {
    hide ListsValid, CountsValid, TlbValid, Pte;
  }

  lemma BenchRead(s0: State, s: State, o: Own, k: Bench, va: Word)
    requires OnBench(s0, s, o, k) && Pdx(va) == k.dir
    ensures Pte(s, VpnOf(va)) == Entry(k, Ptx(va))
    ensures CheckVa2Pa(s, va) == if Present(Entry(k, Ptx(va))) then Ppn(Entry(k, Ptx(va))) * PGSIZE else NO_PAGE
  {
    assert VpnOf(va).pdx == k.dir;
  }

  // page_remove of a mapped entry: nothing is mapped there any more.
  method RemoveStep(m: Machine, va: Word, ghost s0: State, ghost o: Own, ghost k: Bench)
    returns (ghost o': Own, ghost k': Bench)
    requires Ready(m, s0, o, k) && Pdx(va) == k.dir && Ptx(va) < 2 && Present(Entry(k, Ptx(va)))
    modifies m, m.ref, m.link, m.mem
    ensures Ready(m, s0, o', k') && o'.held == o.held && o'.boot == o.boot
    ensures k' == WithEntry(k, Ptx(va), 0).(free := FreedBy(old(m.St()), Entry(k, Ptx(va)), k.free))
    ensures CheckVa2Pa(m.St(), va) == NO_PAGE && Took(old(m.St()), Said(PageRemove(va), Done), m.St())
  {
    hide OnBench, ListsValid, TablesValid, CountsValid, TlbValid, Removed, OwnRemoved, Pte, Pde;
    ghost var s, t := m.St(), Ptx(va);
    BenchRemove(s0, s, o, k, t);
    m.PageRemove(va);
    o' := OwnRemoved(s, o, VpnOf(va));
    k' := WithEntry(k, t, 0).(free := FreedBy(s, Entry(k, t), k.free));
    BenchRead(s0, m.St(), o', k', va);
  }

  method AllocStep(m: Machine, ghost s0: State, ghost o: Own, ghost k: Bench)
    returns (r: Option<nat>, ghost o': Own, ghost k': Bench)
    requires Ready(m, s0, o, k)
    modifies m, m.link, m.mem
    ensures Ready(m, s0, o', k') && o'.held == o.held && o'.boot == o.boot
    ensures r == First(k.free) && k' == k.(free := if k.free == [] then [] else k.free[1..])
    ensures Took(old(m.St()), Said(PageAlloc(false), Page(r)), m.St())
  {
    hide OnBench, ListsValid, TablesValid, CountsValid, TlbValid, SameButLists, Took;
    ghost var s := m.St();
    BenchBasics(s0, s, o, k);
    r, o' := Alloc(m, false, o);
    BenchLists(s0, s, o, k, m.St(), o');
    k' := k.(free := o'.free);
  }

  // pgdir_walk(va, 1): the first free page becomes the cleared table.
  method BuildStep(m: Machine, va: Word, ghost o: Own) returns (pte: Option<Ptr>, ghost o': Own, ghost k: Bench)
    requires m.Valid(o) && |o.free| >= 1 && Pdx(va) < USERTOP && !Present(Pde(m.St(), Pdx(va)))
    modifies m, m.ref, m.link, m.mem
    ensures Ready(m, old(m.St()), o', k) && o'.held == o.held && o'.boot == o.boot
    ensures k == Bench(Pdx(va), o.free[0], 0, 0, o.free[1..]) && old(m.ref[..])[o.free[0]] == 0
    ensures pte == Some(Ptr(TableOf(m.St(), Pdx(va)), Ptx(va))) && TableOf(m.St(), Pdx(va)) == o.free[0]
    ensures Took(old(m.St()), Said(PgdirWalk(va, true), Pointer(pte)), m.St())
  {
    hide OnBench, ListsValid, TablesValid, CountsValid, TlbValid, Walked, OwnWalked, Pte;
    ghost var s := m.St();
    BenchBuilt(s, o, Pdx(va));
    pte := m.PgdirWalk(va, true);
    o', k := OwnWalked(s, o, Pdx(va)), Bench(Pdx(va), o.free[0], 0, 0, o.free[1..]);
    BenchBasics(s, m.St(), o', k);
  }

  // "Forcibly take pp0 back": kern_pgdir[d] = 0; pp0->pp_ref = 0.
  method TakeBackStep(m: Machine, d: Index, pp0: nat, ghost s0: State, ghost o0: Own, ghost o: Own, ghost k: Bench)
    requires Ready(m, s0, o, k) && k.dir == d && k.table == pp0 && k.e0 == 0 && k.e1 == 0
    requires Inv(s0, o0) && o.boot == o0.boot && Pde(s0, d) == 0
    requires pp0 < |s0.refs| && s0.refs[pp0] == 0
    modifies m.ref, m.mem
    ensures m.Valid(o) && SameButLists(s0, m.St()) && pp0 !in o.free && pp0 !in o.held
    ensures pp0 < m.mem.Length && SameFrames(s0, m.St(), pp0)
    ensures forall p :: 0 <= p < m.mem.Length && p != m.pgdir ==> m.mem[p] == old(m.mem[p])
    ensures Transcript(old(m.St()), TakesBack(d, pp0), m.St()) && Transcript(old(m.St()), AssertsBack(d, pp0), m.St())
  {
    hide OnBench, ListsValid, TablesValid, CountsValid, TlbValid, SameTables, Pte, Kept, Took, Transcript;
    BenchBasics(s0, m.St(), o, k);
    assert Ppn(m.mem[m.pgdir][d]) == pp0;
    BenchDismantled(s0, o0, m.St(), o, k);
    ghost var s := m.St();
    m.mem[m.pgdir] := m.mem[m.pgdir][d := 0];
    assert m.ref[pp0] == 1;
    m.ref[pp0] := 0;
    assert m.Raw() == TakenBack(s, d, pp0);
    BackTranscript(s, d, pp0);
  }

  // kern/pmap.c:992-993 and 1002-1003; and with the assertions of 981 and 983.
  function TakesBack(d: Index, p: nat): seq<Said>
  {
    [Said(SetDirectory(d, 0), Done), Said(SetRef(p, 0), Done)]
  }

  function AssertsBack(d: Index, p: nat): seq<Said>
  {
    [Said(TableAt(d), Page(Some(p))), Said(SetDirectory(d, 0), Done), Said(RefOf(p), Value(1)), Said(SetRef(p, 0), Done)]
  }

  lemma BackTranscript(s: State, d: Index, p: nat)
    requires p < NPages(s) && s.refs[p] == 1 && TableOf(s, d) == p
    ensures Transcript(s, TakesBack(d, p), TakenBack(s, d, p)) && Transcript(s, AssertsBack(d, p), TakenBack(s, d, p))
  {
    hide Kept, Transcript, Pde;
    var s1, s2 := s.(mem := s.mem[s.pgdir := s.mem[s.pgdir][d := 0]]), TakenBack(s, d, p);
    var r := Begin(s);
    r := Note(r, s, Said(SetDirectory(d, 0), Done), s1);
    r := Note(r, s1, Said(SetRef(p, 0), Done), s2);
    assert r.said == TakesBack(d, p);
    KeptIs(r, s2);
    r := Begin(s);
    r := See(r, s, Said(TableAt(d), Page(Some(p))));
    r := Note(r, s, Said(SetDirectory(d, 0), Done), s1);
    r := See(r, s1, Said(RefOf(p), Value(1)));
    r := Note(r, s1, Said(SetRef(p, 0), Done), s2);
    assert r.said == AssertsBack(d, p);
    KeptIs(r, s2);
  }

  // Inserting where no table is yet is inserting after the table was built.
  lemma BuildThenInsert(s: State, o: Own, pp: nat, v: Vpn, perm: Flags)
    requires !InsertFails(s, v) && pp < NPages(s) && HasTable(Walked(s, v.pdx), v.pdx) && NPages(Walked(s, v.pdx)) == NPages(s)
    ensures !InsertFails(Walked(s, v.pdx), v)
    ensures Inserted(Walked(s, v.pdx), pp, v, perm) == Inserted(s, pp, v, perm)
    ensures OwnInserted(Walked(s, v.pdx), OwnWalked(s, o, v.pdx), pp, v) == OwnInserted(s, o, pp, v)
  {
    hide NewTable, Installed, OwnInstalled;
  }

  lemma FirstInsertBench(s: State, o: Own, pp0: nat, pp1: nat, v: Vpn)
    requires Inv(s, o) && o.free != [] && o.free[0] == pp0 && v.pdx < USERTOP && v.ptx < 2 && Pde(s, v.pdx) == 0
    requires Insertable(s, o, pp1) && s.refs[pp1] == 0
    ensures !InsertFails(s, v) && pp0 < NPages(s) && s.refs[pp0] == 0
    ensures var o' := OwnInserted(s, o, pp1, v);
            && OnBench(s, Inserted(s, pp1, v, PTE_W), o', WithEntry(Bench(v.pdx, pp0, 0, 0, o.free[1..]), v.ptx, Pack(pp1, 3)))
            && o'.held == o.held && o'.boot == o.boot
  {
    hide OnBench, ListsValid, TablesValid, CountsValid, TlbValid, Walked, OwnWalked, Pte, Inserted, OwnInserted;
    BenchBuilt(s, o, v.pdx);
    var s1, o1, k0 := Walked(s, v.pdx), OwnWalked(s, o, v.pdx), Bench(v.pdx, pp0, 0, 0, o.free[1..]);
    BenchBasics(s, s1, o1, k0);
    BenchInsert(s, s1, o1, k0, pp1, v.ptx, PTE_W);
    BuildThenInsert(s, o, pp1, v, PTE_W);
    assert WithPresent(PTE_W) == 3;
    InsertedOwn(s1, o1, pp1, v);
    assert v == Vpn(v.pdx, v.ptx);
  }

  // The page freed just before becomes the table: kern/pmap.c:898-903 and 1034.
  method FirstInsert(m: Machine, pp0: nat, pp1: nat, va: Word, ghost o: Own) returns (ghost o': Own, ghost k: Bench)
    requires m.Valid(o) && o.free != [] && o.free[0] == pp0 && Pdx(va) < USERTOP && Ptx(va) < 2 && Pde(m.St(), Pdx(va)) == 0
    requires Insertable(m.St(), o, pp1) && m.ref[pp1] == 0
    modifies m, m.ref, m.link, m.mem
    ensures Ready(m, old(m.St()), o', k) && o'.held == o.held && o'.boot == o.boot
    ensures k == WithEntry(Bench(Pdx(va), pp0, 0, 0, o.free[1..]), Ptx(va), Pack(pp1, 3))
    ensures pp0 < m.mem.Length && old(m.ref[..])[pp0] == 0
    ensures Ppn(Pde(m.St(), Pdx(va))) == pp0 && CheckVa2Pa(m.St(), va) == pp1 * PGSIZE
    ensures Took(old(m.St()), Said(PageInsert(pp1, va, PTE_W), Value(0)), m.St())
  {
    hide OnBench, ListsValid, TablesValid, CountsValid, TlbValid, Pte, Pde, Inserted, OwnInserted, InsertFails, Pack;
    ghost var s, v := m.St(), VpnOf(va);
    FirstInsertBench(s, o, pp0, pp1, v);
    InsertIsSafe(s, o, pp1, v, PTE_W);
    var rc := m.PageInsert(pp1, va, PTE_W);
    assert rc == 0;
    o', k := OwnInserted(s, o, pp1, v), WithEntry(Bench(Pdx(va), pp0, 0, 0, o.free[1..]), Ptx(va), Pack(pp1, 3));
    BenchBasics(s, m.St(), o', k);
    BenchRead(s, m.St(), o', k, va);
  }

  // Three pages the checking code holds: distinct, uncounted and off the lists.
  ghost predicate Holding(m: Machine, s0: State, o: Own, k: Bench, pp0: nat, pp1: nat, pp2: nat)
    reads m, m.ref, m.link, m.mem
  {
    && Ready(m, s0, o, k) && k.dir == 0 && k.table == pp0
    && pp0 != pp1 && pp0 != pp2 && pp1 != pp2
    && pp0 < |s0.refs| && pp1 < |s0.refs| && pp2 < |s0.refs|
    && s0.refs[pp0] == 0 && s0.refs[pp1] == 0 && s0.refs[pp2] == 0
    && pp0 !in o.held && pp1 !in o.held && pp2 !in o.held
    && !Present(Pde(s0, 1))
  }

  lemma HoldingBasics(m: Machine, s0: State, o: Own, k: Bench, pp0: nat, pp1: nat, pp2: nat)
    requires Holding(m, s0, o, k, pp0, pp1, pp2)
    ensures pp0 != pp1 && pp0 != pp2 && pp1 != pp2
    ensures pp0 < |s0.refs| <= MAXPAGES && pp1 < |s0.refs| && pp2 < |s0.refs|
    ensures m.Valid(o) && o.free == k.free && m.ref.Length == m.link.Length == m.mem.Length == |s0.refs|
    ensures Pde(m.St(), 0) == Pack(pp0, 7) && Pde(m.St(), 1) == Pde(s0, 1) && HasTable(m.St(), 0)
    ensures m.ref[pp0] == 1 + Names(k.e0, pp0) + Names(k.e1, pp0)
    ensures m.ref[pp1] == Names(k.e0, pp1) + Names(k.e1, pp1)
    ensures m.ref[pp2] == Names(k.e0, pp2) + Names(k.e1, pp2)
  {
    hide OnBench, ListsValid, TablesValid, CountsValid, TlbValid, Pte;
    BenchBasics(s0, m.St(), o, k);
  }

  lemma HoldingReads(m: Machine, s0: State, o: Own, k: Bench, pp0: nat, pp1: nat, pp2: nat)
    requires Holding(m, s0, o, k, pp0, pp1, pp2)
    ensures CheckVa2Pa(m.St(), 0) == if Present(k.e0) then Ppn(k.e0) * PGSIZE else NO_PAGE
    ensures CheckVa2Pa(m.St(), PGSIZE) == if Present(k.e1) then Ppn(k.e1) * PGSIZE else NO_PAGE
  {
    hide OnBench, Inv, CheckVa2Pa;
    BenchRead(s0, m.St(), o, k, 0);
    BenchRead(s0, m.St(), o, k, PGSIZE);
  }

  // page_insert at PGSIZE, where nothing or the same page is mapped.
  method HoldInsert(m: Machine, pp: nat, perm: Flags, pp0: nat, pp1: nat, pp2: nat, ghost s0: State, ghost o: Own, ghost k: Bench)
    returns (ghost o': Own)
    requires Holding(m, s0, o, k, pp0, pp1, pp2) && (pp == pp1 || pp == pp2) && pp !in k.free
    requires k.e1 == 0 || Ppn(k.e1) == pp
    modifies m, m.ref, m.link, m.mem
    ensures Holding(m, s0, o', k.(e1 := Pack(pp, WithPresent(perm))), pp0, pp1, pp2)
    ensures o'.held == o.held && o'.boot == o.boot
    ensures Pte(m.St(), VpnOf(PGSIZE)) == Pack(pp, WithPresent(perm)) && CheckVa2Pa(m.St(), PGSIZE) == pp * PGSIZE
    ensures Took(old(m.St()), Said(PageInsert(pp, PGSIZE, perm), Value(0)), m.St())
  {
    hide OnBench, Inv, CheckVa2Pa, Pte, Pde, FreedBy, Pack, WithPresent, Took;
    assert Present(k.e1) ==> Ppn(k.e1) == pp;
    HoldingBasics(m, s0, o, k, pp0, pp1, pp2);
    ghost var k';
    o', k' := InsertStep(m, pp, PGSIZE, perm, s0, o, k);
  }

  method HoldAlloc(m: Machine, pp0: nat, pp1: nat, pp2: nat, ghost s0: State, ghost o: Own, ghost k: Bench)
    returns (r: Option<nat>, ghost o': Own)
    requires Holding(m, s0, o, k, pp0, pp1, pp2)
    modifies m, m.link, m.mem
    ensures Holding(m, s0, o', k.(free := if k.free == [] then [] else k.free[1..]), pp0, pp1, pp2)
    ensures r == First(k.free) && o'.held == o.held && o'.boot == o.boot
    ensures Took(old(m.St()), Said(PageAlloc(false), Page(r)), m.St())
  {
    hide OnBench, ListsValid, TablesValid, CountsValid, TlbValid, Pte, Pde, Took;
    ghost var k';
    r, o', k' := AllocStep(m, s0, o, k);
  }

  // kern/pmap.c:906-911 and again 914-920.
  function MapsOnce(pp2: nat): seq<Said>
  {
    [Said(PageInsert(pp2, PGSIZE, PTE_W), Value(0)), Said(Translation(PGSIZE), Value(pp2 * PGSIZE)),
     Said(RefOf(pp2), Value(1)), NoneLeft]
  }

  // pp2 goes in at PGSIZE, where nothing is yet or pp2 itself.
  method MapOnce(m: Machine, pp0: nat, pp1: nat, pp2: nat, ghost s0: State, ghost o: Own, ghost k: Bench)
    returns (ghost o': Own)
    requires Holding(m, s0, o, k, pp0, pp1, pp2) && k.free == []
    requires pp1 < MAXPAGES && pp2 < MAXPAGES && k.e0 == Pack(pp1, 3) && (k.e1 == 0 || k.e1 == Pack(pp2, 3))
    modifies m, m.ref, m.link, m.mem
    ensures Holding(m, s0, o', k.(e1 := Pack(pp2, 3)), pp0, pp1, pp2) && o'.held == o.held && o'.boot == o.boot
    ensures Transcript(old(m.St()), MapsOnce(pp2), m.St())
  {
    hide Holding, Inv, Pte, Pde, Pack, Ppn, FlagsOf, VpnOf, CheckVa2Pa, WithPresent, Took, Transcript, Kept;
    HoldingBasics(m, s0, o, k, pp0, pp1, pp2);
    ghost var k2 := k.(e1 := Pack(pp2, 3));
    PermissionBits();
    ghost var r := Begin(m.St());
    ghost var s := m.St();
    o' := HoldInsert(m, pp2, PTE_W, pp0, pp1, pp2, s0, o, k);
    r := Note(r, s, Said(PageInsert(pp2, PGSIZE, PTE_W), Value(0)), m.St());
    HoldingBasics(m, s0, o', k2, pp0, pp1, pp2);
    var pa;
    pa, r := Translates(m, PGSIZE, o', r);
    assert pa == pp2 * PGSIZE && m.ref[pp2] == 1;
    r := See(r, m.St(), Said(RefOf(pp2), Value(1)));
    s := m.St();
    var none;
    none, o' := HoldAlloc(m, pp0, pp1, pp2, s0, o', k2);
    assert none == None;
    r := Note(r, s, NoneLeft, m.St());
    assert r.said == MapsOnce(pp2);
    KeptIs(r, m.St());
  }

  // kern/pmap.c:905-939: pp2 goes in at PGSIZE, again, with other permissions,
  // with fewer; inserting where a table would be needed fails.
  method RemapPhase(m: Machine, pp0: nat, pp1: nat, pp2: nat, ghost s0: State, ghost o: Own, ghost k: Bench)
    returns (ghost o': Own)
    requires Holding(m, s0, o, k, pp0, pp1, pp2) && pp1 < MAXPAGES && pp2 < MAXPAGES && k == Bench(0, pp0, Pack(pp1, 3), 0, [])
    modifies m, m.ref, m.link, m.mem
    ensures Holding(m, s0, o', k.(e1 := Pack(pp2, 3)), pp0, pp1, pp2) && o'.held == o.held && o'.boot == o.boot
    ensures Transcript(old(m.St()), MapsOnce(pp2) + MapsOnce(pp2) + Permissions(pp0, pp2), m.St())
  {
    hide Holding, Inv, Pack, Transcript;
    HoldingBasics(m, s0, o, k, pp0, pp1, pp2);
    ghost var s, k2 := m.St(), k.(e1 := Pack(pp2, 3));
    o' := MapOnce(m, pp0, pp1, pp2, s0, o, k);
    HoldingBasics(m, s0, o', k2, pp0, pp1, pp2);
    ghost var s1 := m.St();
    o' := MapOnce(m, pp0, pp1, pp2, s0, o', k2);
    assert k2.(e1 := Pack(pp2, 3)) == k2;
    HoldingBasics(m, s0, o', k2, pp0, pp1, pp2);
    ghost var s2 := m.St();
    Joined(s, MapsOnce(pp2), s1, MapsOnce(pp2), s2);
    o' := PermissionPhase(m, pp0, pp1, pp2, s0, o', k2);
    HoldingBasics(m, s0, o', k2, pp0, pp1, pp2);
    Joined(s, MapsOnce(pp2) + MapsOnce(pp2), s2, Permissions(pp0, pp2), m.St());
  }

  lemma PermissionBits()
    ensures WithPresent(0) == 1 && WithPresent(PTE_W) == 3 && WithPresent(PTE_W + PTE_U) == 7
  {
  }

  // kern/pmap.c:923-939.
  function Permissions(pp0: nat, pp2: nat): seq<Said>
  {
    [Said(TableAt(0), Page(Some(pp0))), Said(PgdirWalk(PGSIZE, false), Pointer(Some(Ptr(pp0, 1)))),
     Said(PageInsert(pp2, PGSIZE, PTE_W + PTE_U), Value(0)), Said(Translation(PGSIZE), Value(pp2 * PGSIZE)),
     Said(RefOf(pp2), Value(1)), Said(EntryIsUser(PGSIZE), Truth(true)), Said(TableIsUser(0), Truth(true)),
     Said(PageInsert(pp2, PGSIZE, PTE_W), Value(0)), Said(EntryIsWritable(PGSIZE), Truth(true)),
     Said(EntryIsUser(PGSIZE), Truth(false)), Said(PageInsert(pp0, PTSIZE, PTE_W), Value(-E_NO_MEM))]
  }

  method PermissionPhase(m: Machine, pp0: nat, pp1: nat, pp2: nat, ghost s0: State, ghost o: Own, ghost k: Bench)
    returns (ghost o': Own)
    requires Holding(m, s0, o, k, pp0, pp1, pp2) && pp1 < MAXPAGES && pp2 < MAXPAGES
    requires k == Bench(0, pp0, Pack(pp1, 3), Pack(pp2, 3), [])
    modifies m, m.ref, m.link, m.mem
    ensures Holding(m, s0, o', k, pp0, pp1, pp2) && o'.held == o.held && o'.boot == o.boot
    ensures Transcript(old(m.St()), Permissions(pp0, pp2), m.St())
  {
    hide Holding, Inv, Pte, Pde, Pack, Ppn, FlagsOf, VpnOf, CheckVa2Pa, WithPresent, User, Writable, Took, Transcript, Kept;
    PermissionBits();
    HoldingBasics(m, s0, o, k, pp0, pp1, pp2);
    ghost var s, k7 := m.St(), k.(e1 := Pack(pp2, 7));
    ghost var r := HoldWalk(m, pp0, pp1, pp2, s0, o, k);
    HoldingBasics(m, s0, o, k, pp0, pp1, pp2);
    ghost var s1 := m.St();
    o' := HoldInsert(m, pp2, PTE_W + PTE_U, pp0, pp1, pp2, s0, o, k);
    r := Note(r, s1, Said(PageInsert(pp2, PGSIZE, PTE_W + PTE_U), Value(0)), m.St());
    r := UserChecks(m, s0, o', k7, pp0, pp1, pp2, r);
    ghost var s2 := m.St();
    o' := HoldInsert(m, pp2, PTE_W, pp0, pp1, pp2, s0, o', k7);
    assert k7.(e1 := Pack(pp2, 3)) == k;
    r := Note(r, s2, Said(PageInsert(pp2, PGSIZE, PTE_W), Value(0)), m.St());
    HoldingBasics(m, s0, o', k, pp0, pp1, pp2);
    r := KernelChecks(m, pp2, r);
    ghost var s3 := m.St();
    HoldFail(m, pp0, pp1, pp2, s0, o', k);
    HoldingBasics(m, s0, o', k, pp0, pp1, pp2);
    r := Note(r, s3, Said(PageInsert(pp0, PTSIZE, PTE_W), Value(-E_NO_MEM)), m.St());
    assert r.said == Permissions(pp0, pp2);
    KeptIs(r, m.St());
  }

  method UserChecks(m: Machine, ghost s0: State, ghost o: Own, ghost k: Bench, pp0: nat, pp1: nat, pp2: nat, ghost r: Log)
    returns (ghost r': Log)
    requires Holding(m, s0, o, k, pp0, pp1, pp2) && pp1 < MAXPAGES && pp2 < MAXPAGES && k.e0 == Pack(pp1, 3) && k.e1 == Pack(pp2, 7)
    requires Pte(m.St(), VpnOf(PGSIZE)) == Pack(pp2, 7) && CheckVa2Pa(m.St(), PGSIZE) == pp2 * PGSIZE && Kept(r, m.St())
    ensures Kept(r', m.St()) && r'.start == r.start
    ensures r'.said == r.said + [Said(Translation(PGSIZE), Value(pp2 * PGSIZE)), Said(RefOf(pp2), Value(1)),
                                 Said(EntryIsUser(PGSIZE), Truth(true)), Said(TableIsUser(0), Truth(true))]
  {
    hide Holding, Inv, Pte, Pde, Pack, Ppn, FlagsOf, VpnOf, CheckVa2Pa, Kept;
    HoldingBasics(m, s0, o, k, pp0, pp1, pp2);
    AtPgsize();
    var pa;
    pa, r' := Translates(m, PGSIZE, o, r);
    assert pa == pp2 * PGSIZE && m.ref[pp2] == 1;
    assert User(Pack(pp2, 7)) && User(Pack(pp0, 7));
    r' := See(r', m.St(), Said(RefOf(pp2), Value(1)));
    r' := See(r', m.St(), Said(EntryIsUser(PGSIZE), Truth(true)));
    r' := See(r', m.St(), Said(TableIsUser(0), Truth(true)));
  }

  lemma AtPgsize()
    ensures VpnOf(PGSIZE) == Vpn(0, 1) && Pdx(PGSIZE) == 0 && Ptx(PGSIZE) == 1 && PgOff(PGSIZE) == 0
  {
  }

  lemma KernelChecks(m: Machine, pp: nat, r: Log) returns (r': Log)
    requires m.WellFormed() && pp < MAXPAGES && Pte(m.St(), VpnOf(PGSIZE)) == Pack(pp, 3) && HasTable(m.St(), 0) && Kept(r, m.St())
    ensures Kept(r', m.St()) && r'.start == r.start
    ensures r'.said == r.said + [Said(EntryIsWritable(PGSIZE), Truth(true)), Said(EntryIsUser(PGSIZE), Truth(false))]
  {
    hide Pte, Pack, Ppn, FlagsOf, VpnOf, Kept;
    AtPgsize();
    assert Writable(Pack(pp, 3)) && !User(Pack(pp, 3));
    r' := See(r, m.St(), Said(EntryIsWritable(PGSIZE), Truth(true)));
    r' := See(r', m.St(), Said(EntryIsUser(PGSIZE), Truth(false)));
  }

  // kern/pmap.c:923-924.
  method HoldWalk(m: Machine, pp0: nat, pp1: nat, pp2: nat, ghost s0: State, ghost o: Own, ghost k: Bench) returns (ghost r: Log)
    requires Holding(m, s0, o, k, pp0, pp1, pp2)
    modifies m, m.ref, m.link, m.mem
    ensures Holding(m, s0, o, k, pp0, pp1, pp2) && Kept(r, m.St())
    ensures r == Log(old(m.St()), [Said(TableAt(0), Page(Some(pp0))), Said(PgdirWalk(PGSIZE, false), Pointer(Some(Ptr(pp0, 1))))])
  {
    hide OnBench, Inv, Pte, Pack, Kept, Took;
    HoldingBasics(m, s0, o, k, pp0, pp1, pp2);
    AtPgsize();
    ghost var s := m.St();
    r := Begin(s);
    var ptab := Ppn(m.mem[m.pgdir][0]);
    r := See(r, s, Said(TableAt(0), Page(Some(pp0))));
    var pte := WalkStep(m, PGSIZE, s0, o, k);
    assert pte == Some(Ptr(ptab, 1));
    r := Note(r, s, Said(PgdirWalk(PGSIZE, false), Pointer(pte)), m.St());
  }

  method HoldFail(m: Machine, pp0: nat, pp1: nat, pp2: nat, ghost s0: State, ghost o: Own, ghost k: Bench)
    requires Holding(m, s0, o, k, pp0, pp1, pp2) && k.free == []
    modifies m, m.ref, m.link, m.mem
    ensures Holding(m, s0, o, k, pp0, pp1, pp2)
    ensures Took(old(m.St()), Said(PageInsert(pp0, PTSIZE, PTE_W), Value(-E_NO_MEM)), m.St())
  {
    hide OnBench, ListsValid, TablesValid, CountsValid, TlbValid, Pte, Took;
    HoldingBasics(m, s0, o, k, pp0, pp1, pp2);
    FailStep(m, pp0, PTSIZE, s0, o, k);
  }

  // pgdir_walk(va, 0) on the bench points into the table.
  method WalkStep(m: Machine, va: Word, ghost s0: State, ghost o: Own, ghost k: Bench) returns (pte: Option<Ptr>)
    requires Ready(m, s0, o, k) && Pdx(va) == k.dir
    modifies m, m.ref, m.link, m.mem
    ensures m.WellFormed() && m.St() == old(m.St()) && pte == Some(Ptr(k.table, Ptx(va)))
    ensures Took(old(m.St()), Said(PgdirWalk(va, false), Pointer(pte)), m.St())
  {
    hide OnBench, ListsValid, TablesValid, CountsValid, TlbValid, Pte;
    BenchBasics(s0, m.St(), o, k);
    pte := m.PgdirWalk(va, false);
  }

  // Inserting under another directory entry with nothing free: -E_NO_MEM, and
  // nothing changes.
  method FailStep(m: Machine, pp: nat, va: Word, ghost s0: State, ghost o: Own, ghost k: Bench)
    requires Ready(m, s0, o, k) && k.free == [] && Pdx(va) != k.dir && Pdx(va) < USERTOP && !Present(Pde(s0, Pdx(va)))
    requires Insertable(m.St(), o, pp)
    modifies m, m.ref, m.link, m.mem
    ensures m.WellFormed() && m.St() == old(m.St())
    ensures Took(old(m.St()), Said(PageInsert(pp, va, PTE_W), Value(-E_NO_MEM)), m.St())
  {
    hide OnBench, TablesValid, CountsValid, TlbValid, Pte;
    BenchBasics(s0, m.St(), o, k);
    InsertIsSafe(m.St(), o, pp, VpnOf(va), PTE_W);
    var rc := m.PageInsert(pp, va, PTE_W);
    assert rc < 0;
  }

  // page_insert of pp1 at PGSIZE over pp2, whose only reference it was.
  method HoldReplace(m: Machine, pp0: nat, pp1: nat, pp2: nat, ghost s0: State, ghost o: Own, ghost k: Bench)
    returns (ghost o': Own)
    requires Holding(m, s0, o, k, pp0, pp1, pp2) && k == Bench(0, pp0, Pack(pp1, 3), Pack(pp2, 3), [])
    modifies m, m.ref, m.link, m.mem
    ensures Holding(m, s0, o', Bench(0, pp0, Pack(pp1, 3), Pack(pp1, 3), [pp2]), pp0, pp1, pp2)
    ensures o'.held == o.held && o'.boot == o.boot
    ensures CheckVa2Pa(m.St(), 0) == pp1 * PGSIZE && CheckVa2Pa(m.St(), PGSIZE) == pp1 * PGSIZE
    ensures Pte(m.St(), VpnOf(PGSIZE)) == Pack(pp1, 3)
    ensures Took(old(m.St()), Said(PageInsert(pp1, PGSIZE, PTE_W), Value(0)), m.St())
  {
    hide OnBench, Inv, Pte, Pde, Took, Pack, Ppn, FlagsOf, WithPresent, VpnOf, CheckVa2Pa;
    HoldingBasics(m, s0, o, k, pp0, pp1, pp2);
    PermissionBits();
    assert FreedBy(m.St(), k.e1, []) == [pp2];
    ghost var k';
    o', k' := InsertStep(m, pp1, PGSIZE, PTE_W, s0, o, k);
    AtPgsize();
    assert k' == Bench(0, pp0, Pack(pp1, 3), Pack(pp1, 3), [pp2]);
    HoldingReads(m, s0, o', k', pp0, pp1, pp2);
  }

  // page_remove at entry t, which holds pp1.
  method HoldRemove(m: Machine, va: Word, pp0: nat, pp1: nat, pp2: nat, ghost s0: State, ghost o: Own, ghost k: Bench)
    returns (ghost o': Own)
    requires Holding(m, s0, o, k, pp0, pp1, pp2) && Pdx(va) == 0 && Ptx(va) < 2
    requires Present(Entry(k, Ptx(va))) && Ppn(Entry(k, Ptx(va))) == pp1
    modifies m, m.ref, m.link, m.mem
    ensures Holding(m, s0, o', WithEntry(k, Ptx(va), 0).(free := if old(m.ref[pp1]) == 1 then [pp1] + k.free else k.free), pp0, pp1, pp2)
    ensures o'.held == o.held && o'.boot == o.boot && CheckVa2Pa(m.St(), va) == NO_PAGE
    ensures Took(old(m.St()), Said(PageRemove(va), Done), m.St())
  {
    hide OnBench, ListsValid, TablesValid, CountsValid, TlbValid, Pte, Pde, Took;
    HoldingBasics(m, s0, o, k, pp0, pp1, pp2);
    ghost var k';
    o', k' := RemoveStep(m, va, s0, o, k);
  }

  // kern/pmap.c:941-953.
  function Replaces(pp1: nat, pp2: nat): seq<Said>
  {
    [Said(PageInsert(pp1, PGSIZE, PTE_W), Value(0)), Said(EntryIsUser(PGSIZE), Truth(false)),
     Said(Translation(0), Value(pp1 * PGSIZE)), Said(Translation(PGSIZE), Value(pp1 * PGSIZE)),
     Said(RefOf(pp1), Value(2)), Said(RefOf(pp2), Value(0)), Said(PageAlloc(false), Page(Some(pp2)))]
  }

  method ReplacePhase(m: Machine, pp0: nat, pp1: nat, pp2: nat, ghost s0: State, ghost o: Own, ghost k: Bench)
    returns (ghost o': Own)
    requires Holding(m, s0, o, k, pp0, pp1, pp2) && pp1 < MAXPAGES && pp2 < MAXPAGES
    requires k == Bench(0, pp0, Pack(pp1, 3), Pack(pp2, 3), [])
    modifies m, m.ref, m.link, m.mem
    ensures Holding(m, s0, o', k.(e1 := Pack(pp1, 3)), pp0, pp1, pp2) && o'.held == o.held && o'.boot == o.boot
    ensures Transcript(old(m.St()), Replaces(pp1, pp2), m.St())
  {
    hide Holding, Inv, Pte, Pde, Pack, Ppn, FlagsOf, VpnOf, CheckVa2Pa, Took, Transcript, Kept;
    HoldingBasics(m, s0, o, k, pp0, pp1, pp2);
    ghost var s := m.St();
    ghost var r := Begin(s);
    o' := HoldReplace(m, pp0, pp1, pp2, s0, o, k);
    r := Note(r, s, Said(PageInsert(pp1, PGSIZE, PTE_W), Value(0)), m.St());
    ghost var k2 := Bench(0, pp0, Pack(pp1, 3), Pack(pp1, 3), [pp2]);
    HoldingBasics(m, s0, o', k2, pp0, pp1, pp2);
    AtPgsize();
    assert !User(Pack(pp1, 3));
    r := See(r, m.St(), Said(EntryIsUser(PGSIZE), Truth(false)));
    r := TwoTranslations(m, pp1 * PGSIZE, pp1 * PGSIZE, o', r);
    assert m.ref[pp1] == 2 && m.ref[pp2] == 0;
    r := See(r, m.St(), Said(RefOf(pp1), Value(2)));
    r := See(r, m.St(), Said(RefOf(pp2), Value(0)));
    ghost var s2 := m.St();
    var pp;
    pp, o' := HoldAlloc(m, pp0, pp1, pp2, s0, o', k2);
    assert pp == Some(pp2);
    HoldingBasics(m, s0, o', k.(e1 := Pack(pp1, 3)), pp0, pp1, pp2) by {
      assert k2.(free := if k2.free == [] then [] else k2.free[1..]) == k.(e1 := Pack(pp1, 3));
    }
    r := Note(r, s2, Said(PageAlloc(false), Page(Some(pp2))), m.St());
    assert r.said == Replaces(pp1, pp2);
    KeptIs(r, m.St());
  }

  // check_va2pa at 0 and at PGSIZE.
  method TwoTranslations(m: Machine, pa0: Word, pa1: Word, ghost o: Own, ghost r: Log) returns (ghost r': Log)
    requires m.Valid(o) && Kept(r, m.St()) && CheckVa2Pa(m.St(), 0) == pa0 && CheckVa2Pa(m.St(), PGSIZE) == pa1
    ensures Kept(r', m.St()) && r' == Log(r.start, r.said + [Said(Translation(0), Value(pa0)), Said(Translation(PGSIZE), Value(pa1))])
  {
    hide Inv, Kept, CheckVa2Pa;
    var pa;
    pa, r' := Translates(m, 0, o, r);
    assert pa == pa0;
    pa, r' := Translates(m, PGSIZE, o, r');
    assert pa == pa1;
  }

  // kern/pmap.c:955-960.
  function Unmaps(pp1: nat, pp2: nat): seq<Said>
  {
    [Said(PageRemove(0), Done), Said(Translation(0), Value(NO_PAGE)), Said(Translation(PGSIZE), Value(pp1 * PGSIZE)),
     Said(RefOf(pp1), Value(1)), Said(RefOf(pp2), Value(0))]
  }

  method UnmapPhase(m: Machine, pp0: nat, pp1: nat, pp2: nat, ghost s0: State, ghost o: Own, ghost k: Bench)
    returns (ghost o': Own)
    requires Holding(m, s0, o, k, pp0, pp1, pp2) && pp1 < MAXPAGES && k == Bench(0, pp0, Pack(pp1, 3), Pack(pp1, 3), [])
    modifies m, m.ref, m.link, m.mem
    ensures Holding(m, s0, o', Bench(0, pp0, 0, Pack(pp1, 3), []), pp0, pp1, pp2) && o'.held == o.held && o'.boot == o.boot
    ensures Transcript(old(m.St()), Unmaps(pp1, pp2), m.St())
  {
    hide Holding, Inv, Pte, Pde, Pack, Ppn, FlagsOf, VpnOf, CheckVa2Pa, Took, Transcript, Kept;
    HoldingBasics(m, s0, o, k, pp0, pp1, pp2);
    ghost var k1 := Bench(0, pp0, 0, Pack(pp1, 3), []);
    ghost var s := m.St();
    ghost var r := Begin(s);
    o' := HoldRemove(m, 0, pp0, pp1, pp2, s0, o, k);
    HoldingBasics(m, s0, o', k1, pp0, pp1, pp2);
    r := Note(r, s, Said(PageRemove(0), Done), m.St());
    HoldingReads(m, s0, o', k1, pp0, pp1, pp2);
    AbsentZero();
    r := TwoTranslations(m, NO_PAGE, pp1 * PGSIZE, o', r);
    assert m.ref[pp1] == 1 && m.ref[pp2] == 0;
    r := See(r, m.St(), Said(RefOf(pp1), Value(1)));
    r := See(r, m.St(), Said(RefOf(pp2), Value(0)));
    assert r.said == Unmaps(pp1, pp2);
    KeptIs(r, m.St());
  }

  // kern/pmap.c:962-965.
  function Reenters(pp1: nat): seq<Said>
  {
    [Said(PageInsert(pp1, PGSIZE, 0), Value(0)), Said(RefOf(pp1), Value(1)), Said(LinkOf(pp1), Page(None))]
  }

  method ReenterPhase(m: Machine, pp0: nat, pp1: nat, pp2: nat, ghost s0: State, ghost o: Own, ghost k: Bench)
    returns (ghost o': Own)
    requires Holding(m, s0, o, k, pp0, pp1, pp2) && pp1 < MAXPAGES && k == Bench(0, pp0, 0, Pack(pp1, 3), [])
    modifies m, m.ref, m.link, m.mem
    ensures Holding(m, s0, o', Bench(0, pp0, 0, Pack(pp1, 1), []), pp0, pp1, pp2) && o'.held == o.held && o'.boot == o.boot
    ensures Transcript(old(m.St()), Reenters(pp1), m.St())
  {
    hide Holding, Inv, Pte, Pde, Pack, Ppn, FlagsOf, VpnOf, CheckVa2Pa, WithPresent, Took, Transcript, Kept;
    HoldingBasics(m, s0, o, k, pp0, pp1, pp2);
    ghost var k2 := Bench(0, pp0, 0, Pack(pp1, 1), []);
    PermissionBits();
    ghost var s := m.St();
    ghost var r := Begin(s);
    o' := HoldInsert(m, pp1, 0, pp0, pp1, pp2, s0, o, k);
    HoldingBasics(m, s0, o', k2, pp0, pp1, pp2);
    r := Note(r, s, Said(PageInsert(pp1, PGSIZE, 0), Value(0)), m.St());
    LinkIsNull(m, s0, o', k2, pp0, pp1, pp2);
    assert m.ref[pp1] == 1 && m.link[pp1] == None;
    r := See(r, m.St(), Said(RefOf(pp1), Value(1)));
    r := See(r, m.St(), Said(LinkOf(pp1), Page(None)));
    assert r.said == Reenters(pp1);
    KeptIs(r, m.St());
  }

  lemma AbsentZero()
    ensures !Present(0)
  {
  }

  // kern/pmap.c:967-978.
  function Drains(pp1: nat, pp2: nat): seq<Said>
  {
    [Said(PageRemove(PGSIZE), Done), Said(Translation(0), Value(NO_PAGE)), Said(Translation(PGSIZE), Value(NO_PAGE)),
     Said(RefOf(pp1), Value(0)), Said(RefOf(pp2), Value(0)), Said(PageAlloc(false), Page(Some(pp1))), NoneLeft]
  }

  method DrainPhase(m: Machine, pp0: nat, pp1: nat, pp2: nat, ghost s0: State, ghost o: Own, ghost k: Bench)
    returns (ghost o': Own)
    requires Holding(m, s0, o, k, pp0, pp1, pp2) && pp1 < MAXPAGES && k == Bench(0, pp0, 0, Pack(pp1, 1), [])
    modifies m, m.ref, m.link, m.mem
    ensures Holding(m, s0, o', Bench(0, pp0, 0, 0, []), pp0, pp1, pp2) && o'.held == o.held && o'.boot == o.boot
    ensures Transcript(old(m.St()), Drains(pp1, pp2), m.St())
  {
    hide Holding, Inv, Pte, Pde, Pack, Ppn, FlagsOf, VpnOf, CheckVa2Pa, Took, Transcript, Kept;
    HoldingBasics(m, s0, o, k, pp0, pp1, pp2);
    AbsentZero();
    AtPgsize();
    ghost var k3, k4 := Bench(0, pp0, 0, 0, [pp1]), Bench(0, pp0, 0, 0, []);
    ghost var s := m.St();
    ghost var r := Begin(s);
    o' := HoldRemove(m, PGSIZE, pp0, pp1, pp2, s0, o, k);
    assert [pp1] + [] == [pp1] && [pp1][1..] == [];
    HoldingBasics(m, s0, o', k3, pp0, pp1, pp2);
    r := Note(r, s, Said(PageRemove(PGSIZE), Done), m.St());
    HoldingReads(m, s0, o', k3, pp0, pp1, pp2);
    r := TwoTranslations(m, NO_PAGE, NO_PAGE, o', r);
    assert m.ref[pp1] == 0 && m.ref[pp2] == 0;
    r := See(r, m.St(), Said(RefOf(pp1), Value(0)));
    r := See(r, m.St(), Said(RefOf(pp2), Value(0)));
    var pp;
    ghost var s1 := m.St();
    pp, o' := HoldAlloc(m, pp0, pp1, pp2, s0, o', k3);
    assert pp == Some(pp1);
    HoldingBasics(m, s0, o', k4, pp0, pp1, pp2);
    ghost var s2 := m.St();
    r := Note(r, s1, Said(PageAlloc(false), Page(Some(pp1))), s2);
    pp, o' := HoldAlloc(m, pp0, pp1, pp2, s0, o', k4);
    assert pp == None;
    HoldingBasics(m, s0, o', k4, pp0, pp1, pp2);
    r := Note(r, s2, NoneLeft, m.St());
    assert r.said == Drains(pp1, pp2);
    KeptIs(r, m.St());
  }

  lemma ZeroNamesNothing(p: nat)
    ensures Names(0, p) == 0
  {
  }

  lemma LinkIsNull(m: Machine, s0: State, o: Own, k: Bench, pp0: nat, pp1: nat, pp2: nat)
    requires Holding(m, s0, o, k, pp0, pp1, pp2) && k == Bench(0, pp0, 0, Pack(pp1, 1), []) && pp1 < MAXPAGES
    ensures pp1 < m.ref.Length == m.link.Length && m.ref[pp1] == 1 && m.link[pp1] == None
  {
    hide OnBench, Inv, Pte, Pde, Pack;
    HoldingBasics(m, s0, o, k, pp0, pp1, pp2);
    OffListLink(m.St(), o, pp1);
    assert Names(0, pp1) == 0 by { ZeroNamesNothing(pp1); }
  }

  lemma OffListLink(s: State, o: Own, p: nat)
    requires Inv(s, o) && p < NPages(s) && p !in o.free && p !in o.held
    ensures s.links[p] == None
  {
    hide TablesValid, CountsValid, TlbValid;
  }

  // Between the experiments: nothing is free, the three pages are held, and the
  // first two directory entries are empty.
  ghost predicate Idle(m: Machine, o: Own, pp0: nat, pp1: nat, pp2: nat)
    reads m, m.ref, m.link, m.mem
  {
    && m.Valid(o) && o.free == []
    && Pde(m.St(), 0) == 0 && Pde(m.St(), 1) == 0
    && pp0 != pp1 && pp0 != pp2 && pp1 != pp2
    && (forall p :: p in [pp0, pp1, pp2] ==> p < m.mem.Length && m.ref[p] == 0 && p !in o.held)
  }

  lemma IdleAgain(m: Machine, s: State, o: Own, o': Own, pp0: nat, pp1: nat, pp2: nat)
    requires m.Valid(o') && SameButLists(s, m.St()) && o' == o && o.free == []
    requires Pde(s, 0) == 0 && Pde(s, 1) == 0 && pp0 != pp1 && pp0 != pp2 && pp1 != pp2
    requires forall p :: p in [pp0, pp1, pp2] ==> p < |s.refs| && s.refs[p] == 0 && p !in o.held
    ensures Idle(m, o, pp0, pp1, pp2)
  {
    hide ListsValid, TablesValid, CountsValid, TlbValid, Pte, Pde;
  }

  // kern/pmap.c:897-903.
  function FirstChecks(pp0: nat, pp1: nat): seq<Said>
  {
    [Said(PageFree(pp0), Done), Said(PageInsert(pp1, 0, PTE_W), Value(0)), Said(TableAt(0), Page(Some(pp0))),
     Said(Translation(0), Value(pp1 * PGSIZE)), Said(RefOf(pp1), Value(1)), Said(RefOf(pp0), Value(1))]
  }

  // kern/pmap.c:905-978, on the table that is now there.
  function Experiments(pp0: nat, pp1: nat, pp2: nat): seq<Said>
  {
    MapsOnce(pp2) + MapsOnce(pp2) + Permissions(pp0, pp2)
    + Replaces(pp1, pp2) + (Unmaps(pp1, pp2) + Reenters(pp1) + Drains(pp1, pp2))
  }

  method FirstPhase(m: Machine, pp0: nat, pp1: nat, pp2: nat, ghost o: Own) returns (ghost s0: State, ghost o0: Own, ghost o1: Own)
    requires Idle(m, o, pp0, pp1, pp2)
    modifies m, m.ref, m.link, m.mem
    ensures pp1 < MAXPAGES && pp2 < MAXPAGES && Holding(m, s0, o1, Bench(0, pp0, Pack(pp1, 3), 0, []), pp0, pp1, pp2)
    ensures Inv(s0, o0) && SameButLists(old(m.St()), s0) && s0.mem == old(m.mem[..])
    ensures o0.boot == o1.boot == o.boot && o1.held == o.held
    ensures Transcript(old(m.St()), FirstChecks(pp0, pp1), m.St())
  {
    hide Inv, OnBench, SameTables, Pte, Pde, Took, Transcript, Kept, CheckVa2Pa;
    assert pp0 in [pp0, pp1, pp2] && pp1 in [pp0, pp1, pp2] && pp2 in [pp0, pp1, pp2];
    ghost var s := m.St();
    ghost var r := Begin(s);
    o0 := Free(m, pp0, o);
    assert o0.free == [pp0];
    s0 := m.St();
    r := Note(r, s, Said(PageFree(pp0), Done), s0);
    EntriesSame(s, s0);
    ghost var k;
    o1, k := FirstInsert(m, pp0, pp1, 0, o0);
    r := Note(r, s0, Said(PageInsert(pp1, 0, PTE_W), Value(0)), m.St());
    assert o0.free[1..] == [] && k == Bench(0, pp0, Pack(pp1, 3), 0, []);
    r := FirstSeen(m, pp0, pp1, pp2, s0, o1, k, r);
    assert r.said == FirstChecks(pp0, pp1);
    KeptIs(r, m.St());
  }

  method FirstSeen(m: Machine, pp0: nat, pp1: nat, pp2: nat, ghost s0: State, ghost o: Own, ghost k: Bench, ghost r: Log)
    returns (ghost r': Log)
    requires Holding(m, s0, o, k, pp0, pp1, pp2) && pp1 < MAXPAGES && k == Bench(0, pp0, Pack(pp1, 3), 0, []) && Kept(r, m.St())
    ensures Kept(r', m.St()) && r'.start == r.start
    ensures r'.said == r.said + [Said(TableAt(0), Page(Some(pp0))), Said(Translation(0), Value(pp1 * PGSIZE)),
                                 Said(RefOf(pp1), Value(1)), Said(RefOf(pp0), Value(1))]
  {
    hide Holding, Inv, Pte, Pde, Pack, Ppn, FlagsOf, CheckVa2Pa, Kept;
    HoldingBasics(m, s0, o, k, pp0, pp1, pp2);
    HoldingReads(m, s0, o, k, pp0, pp1, pp2);
    AbsentZero();
    r' := See(r, m.St(), Said(TableAt(0), Page(Some(pp0))));
    var pa;
    pa, r' := Translates(m, 0, o, r');
    assert pa == pp1 * PGSIZE && m.ref[pp1] == 1 && m.ref[pp0] == 1;
    r' := See(r', m.St(), Said(RefOf(pp1), Value(1)));
    r' := See(r', m.St(), Said(RefOf(pp0), Value(1)));
  }

  method ExperimentPhase(m: Machine, pp0: nat, pp1: nat, pp2: nat, ghost s0: State, ghost o: Own) returns (ghost o': Own)
    requires pp1 < MAXPAGES && pp2 < MAXPAGES && Holding(m, s0, o, Bench(0, pp0, Pack(pp1, 3), 0, []), pp0, pp1, pp2)
    modifies m, m.ref, m.link, m.mem
    ensures Holding(m, s0, o', Bench(0, pp0, 0, 0, []), pp0, pp1, pp2) && o'.held == o.held && o'.boot == o.boot
    ensures Transcript(old(m.St()), Experiments(pp0, pp1, pp2), m.St())
  {
    hide Holding, Inv, Pack, Transcript, Kept, MapsOnce, Permissions, Replaces, Unmaps, Reenters, Drains;
    ghost var k := Bench(0, pp0, Pack(pp1, 3), 0, []);
    HoldingBasics(m, s0, o, k, pp0, pp1, pp2);
    ghost var r := Begin(m.St());
    ghost var s := m.St();
    o' := RemapPhase(m, pp0, pp1, pp2, s0, o, k);
    HoldingBasics(m, s0, o', k.(e1 := Pack(pp2, 3)), pp0, pp1, pp2);
    r := NoteAll(r, s, MapsOnce(pp2) + MapsOnce(pp2) + Permissions(pp0, pp2), m.St());
    s := m.St();
    o' := ReplacePhase(m, pp0, pp1, pp2, s0, o', k.(e1 := Pack(pp2, 3)));
    HoldingBasics(m, s0, o', k.(e1 := Pack(pp1, 3)), pp0, pp1, pp2);
    r := NoteAll(r, s, Replaces(pp1, pp2), m.St());
    s := m.St();
    o' := UnmapExperiments(m, pp0, pp1, pp2, s0, o');
    HoldingBasics(m, s0, o', Bench(0, pp0, 0, 0, []), pp0, pp1, pp2);
    r := NoteAll(r, s, Unmaps(pp1, pp2) + Reenters(pp1) + Drains(pp1, pp2), m.St());
    assert r.said == Experiments(pp0, pp1, pp2);
    KeptIs(r, m.St());
  }

  method UnmapExperiments(m: Machine, pp0: nat, pp1: nat, pp2: nat, ghost s0: State, ghost o: Own) returns (ghost o': Own)
    requires pp1 < MAXPAGES && pp2 < MAXPAGES && Holding(m, s0, o, Bench(0, pp0, Pack(pp1, 3), Pack(pp1, 3), []), pp0, pp1, pp2)
    modifies m, m.ref, m.link, m.mem
    ensures Holding(m, s0, o', Bench(0, pp0, 0, 0, []), pp0, pp1, pp2) && o'.held == o.held && o'.boot == o.boot
    ensures Transcript(old(m.St()), Unmaps(pp1, pp2) + Reenters(pp1) + Drains(pp1, pp2), m.St())
  {
    hide Holding, Inv, Pack, Transcript, Kept, Unmaps, Reenters, Drains;
    HoldingBasics(m, s0, o, Bench(0, pp0, Pack(pp1, 3), Pack(pp1, 3), []), pp0, pp1, pp2);
    ghost var r := Begin(m.St());
    ghost var s := m.St();
    o' := UnmapPhase(m, pp0, pp1, pp2, s0, o, Bench(0, pp0, Pack(pp1, 3), Pack(pp1, 3), []));
    HoldingBasics(m, s0, o', Bench(0, pp0, 0, Pack(pp1, 3), []), pp0, pp1, pp2);
    r := NoteAll(r, s, Unmaps(pp1, pp2), m.St());
    s := m.St();
    o' := ReenterPhase(m, pp0, pp1, pp2, s0, o', Bench(0, pp0, 0, Pack(pp1, 3), []));
    HoldingBasics(m, s0, o', Bench(0, pp0, 0, Pack(pp1, 1), []), pp0, pp1, pp2);
    r := NoteAll(r, s, Reenters(pp1), m.St());
    s := m.St();
    o' := DrainPhase(m, pp0, pp1, pp2, s0, o', Bench(0, pp0, 0, Pack(pp1, 1), []));
    HoldingBasics(m, s0, o', Bench(0, pp0, 0, 0, []), pp0, pp1, pp2);
    r := NoteAll(r, s, Drains(pp1, pp2), m.St());
    assert r.said == Unmaps(pp1, pp2) + Reenters(pp1) + Drains(pp1, pp2);
    KeptIs(r, m.St());
  }

  // kern/pmap.c:897-984.
  function TableChecks(pp0: nat, pp1: nat, pp2: nat): seq<Said>
  {
    FirstChecks(pp0, pp1) + Experiments(pp0, pp1, pp2) + AssertsBack(0, pp0)
  }

  method TablePhase(m: Machine, pp0: nat, pp1: nat, pp2: nat, ghost o: Own)
    requires Idle(m, o, pp0, pp1, pp2)
    modifies m, m.ref, m.link, m.mem
    ensures Idle(m, o, pp0, pp1, pp2) && SameButLists(old(m.St()), m.St()) && SameFrames(old(m.St()), m.St(), pp0)
    ensures Transcript(old(m.St()), TableChecks(pp0, pp1, pp2), m.St())
  {
    hide Inv, Holding, OnBench, SameTables, SameFrames, Pte, Pde, Pack, Transcript, Kept, FirstChecks, Experiments, AssertsBack, TakesBack;
    assert pp0 in [pp0, pp1, pp2] && pp1 in [pp0, pp1, pp2] && pp2 in [pp0, pp1, pp2];
    ghost var s, k := m.St(), Bench(0, pp0, 0, 0, []);
    ghost var r := Begin(s);
    ghost var s0, o0, o1 := FirstPhase(m, pp0, pp1, pp2, o);
    EntriesSame(s, s0);
    HoldingBasics(m, s0, o1, Bench(0, pp0, Pack(pp1, 3), 0, []), pp0, pp1, pp2);
    r := NoteAll(r, s, FirstChecks(pp0, pp1), m.St());
    ghost var s1 := m.St();
    o1 := ExperimentPhase(m, pp0, pp1, pp2, s0, o1);
    OwnAgain(m, s0, o1, o, pp0, pp1, pp2);
    r := NoteAll(r, s1, Experiments(pp0, pp1, pp2), m.St());
    ghost var s2 := m.St();
    ReadyHere(m, s0, o1, k, pp0, pp1, pp2);
    TakeBackStep(m, 0, pp0, s0, o0, o1, k);
    r := NoteAll(r, s2, AssertsBack(0, pp0), m.St());
    assert r.said == TableChecks(pp0, pp1, pp2);
    KeptIs(r, m.St());
    SameTrans(s, s0, m.St());
    FramesFrom(s, s0, m.St(), pp0);
    IdleAgain(m, s, o, o1, pp0, pp1, pp2);
  }

  lemma FramesFrom(s: State, s0: State, s': State, p: nat)
    requires s0.mem == s.mem && SameButLists(s, s0) && SameFrames(s0, s', p)
    ensures SameFrames(s, s', p)
  {
  }

  lemma ReadyHere(m: Machine, s0: State, o: Own, k: Bench, pp0: nat, pp1: nat, pp2: nat)
    requires Holding(m, s0, o, k, pp0, pp1, pp2)
    ensures Ready(m, s0, o, k) && k.dir == 0 && k.table == pp0 && pp0 < |s0.refs| && s0.refs[pp0] == 0
  {
    hide OnBench;
  }

  lemma EntriesSame(s: State, s': State)
    requires SameButLists(s, s')
    ensures Pde(s', 0) == Pde(s, 0) && Pde(s', 1) == Pde(s, 1) && NPages(s') == NPages(s)
  {
  }

  lemma OwnAgain(m: Machine, s0: State, o1: Own, o: Own, pp0: nat, pp1: nat, pp2: nat)
    requires Holding(m, s0, o1, Bench(0, pp0, 0, 0, []), pp0, pp1, pp2)
    requires o1.held == o.held && o1.boot == o.boot && o.free == []
    ensures o1 == o && m.WellFormed()
  {
    hide OnBench;
    BenchBasics(s0, m.St(), o1, Bench(0, pp0, 0, 0, []));
  }

  // kern/pmap.c:987-993: the table is where pgdir_walk points; and 997-1003: it
  // starts out empty.
  function WalksTo(va: Word, p: nat): seq<Said>
  {
    [Said(PageFree(p), Done), Said(PgdirWalk(va, true), Pointer(Some(Ptr(p, Ptx(va))))), Said(TableAt(Pdx(va)), Page(Some(p)))]
    + TakesBack(Pdx(va), p)
  }

  function WalksClear(va: Word, p: nat): seq<Said>
  {
    [Said(PageFree(p), Done), Said(PgdirWalk(va, true), Pointer(Some(Ptr(p, Ptx(va))))), Said(Contents(p), Words(ZeroFrame()))]
    + TakesBack(Pdx(va), p)
  }

  // kern/pmap.c:986-1003: a table is built from pp0, is where pgdir_walk points,
  // starts out empty, and is taken back.
  method WalkPhase(m: Machine, va: Word, pp0: nat, pp1: nat, pp2: nat, ghost o: Own)
    requires Idle(m, o, pp0, pp1, pp2) && Pdx(va) < 2
    modifies m, m.ref, m.link, m.mem
    ensures Idle(m, o, pp0, pp1, pp2) && SameButLists(old(m.St()), m.St()) && SameFrames(old(m.St()), m.St(), pp0)
    ensures pp0 < m.mem.Length && m.mem[pp0] == ZeroFrame()
    ensures Transcript(old(m.St()), WalksTo(va, pp0), m.St()) && Transcript(old(m.St()), WalksClear(va, pp0), m.St())
  {
    hide Inv, OnBench, SameTables, Pte, Pde, Took, Transcript, Kept;
    assert pp0 in [pp0, pp1, pp2] && pp1 in [pp0, pp1, pp2] && pp2 in [pp0, pp1, pp2];
    ghost var s := m.St();
    ghost var o0 := Free(m, pp0, o);
    assert o0.free == [pp0];
    ghost var s0 := m.St();
    EntriesSame(s, s0);
    var pte;
    ghost var o1, k;
    pte, o1, k := BuildStep(m, va, o0);
    assert o0.free[1..] == [];
    ghost var s1 := m.St();
    assert pte == Some(Ptr(Ppn(m.mem[m.pgdir][Pdx(va)]), Ptx(va))) by { ReadDirectory(m, Pdx(va)); }
    BenchIsClear(m, s0, o1, k);
    assert m.mem[pp0] == ZeroFrame();
    BenchBasics(s0, s1, o1, k);
    TakeBackStep(m, Pdx(va), pp0, s0, o0, o1, k);
    assert m.mem[pp0] == ZeroFrame() by { NotDirectory(s0, o0, pp0); }
    WalkTranscripts(s, s0, s1, m.St(), va, pp0);
    SameTrans(s, s0, m.St());
    IdleAgain(m, s, o, o1, pp0, pp1, pp2);
  }

  lemma ReadDirectory(m: Machine, d: Index)
    requires m.WellFormed()
    ensures TableOf(m.St(), d) == Ppn(m.mem[m.pgdir][d])
  {
  }

  lemma NotDirectory(s: State, o: Own, p: nat)
    requires Inv(s, o) && p < NPages(s) && s.refs[p] == 0
    ensures p != s.pgdir
  {
    TableIsReferenced(s, o, 0);
  }

  lemma WalkTranscripts(s: State, s0: State, s1: State, s2: State, va: Word, p: nat)
    requires Took(s, Said(PageFree(p), Done), s0)
    requires Took(s0, Said(PgdirWalk(va, true), Pointer(Some(Ptr(p, Ptx(va))))), s1)
    requires p < NPages(s1) && TableOf(s1, Pdx(va)) == p && s1.mem[p] == ZeroFrame() && Transcript(s1, TakesBack(Pdx(va), p), s2)
    ensures Transcript(s, WalksTo(va, p), s2) && Transcript(s, WalksClear(va, p), s2)
  {
    hide Took, Transcript, Kept, Pdx, Ptx;
    var r := Begin(s);
    r := Note(r, s, Said(PageFree(p), Done), s0);
    r := Note(r, s0, Said(PgdirWalk(va, true), Pointer(Some(Ptr(p, Ptx(va))))), s1);
    var q := See(r, s1, Said(TableAt(Pdx(va)), Page(Some(p))));
    q := NoteAll(q, s1, TakesBack(Pdx(va), p), s2);
    assert q.said == WalksTo(va, p);
    KeptIs(q, s2);
    q := See(r, s1, Said(Contents(p), Words(ZeroFrame())));
    q := NoteAll(q, s1, TakesBack(Pdx(va), p), s2);
    assert q.said == WalksClear(va, p);
    KeptIs(q, s2);
  }

  lemma BenchIsClear(m: Machine, s0: State, o: Own, k: Bench)
    requires Ready(m, s0, o, k) && k.e0 == 0 && k.e1 == 0
    ensures k.table < m.mem.Length && forall i :: 0 <= i < 1024 ==> m.mem[k.table][i] == 0
  {
    hide OnBench, Inv;
    BenchBasics(s0, m.St(), o, k);
    forall i: Index ensures m.mem[k.table][i] == 0 {
      assert Pte(m.St(), Vpn(k.dir, i)) == Entry(k, i) == 0;
    }
  }

  // kern/pmap.c:875-895.
  function PageOpens(a: nat, b: nat, c: nat, rest: Option<nat>): seq<Said>
  {
    TakesThree(a, b, c)
    + [Said(FreeList, Page(rest)), Said(SetFreeList(None), Done), NoneLeft, Said(PageLookup(0), Page(None)),
       Said(PageInsert(b, 0, PTE_W), Value(-E_NO_MEM))]
  }

  method OpenPhase(m: Machine, ghost o: Own) returns (pp0: nat, pp1: nat, pp2: nat, fl: Option<nat>, ghost o': Own)
    requires m.Valid(o) && |o.free| >= 3 && o.held == []
    requires Pde(m.St(), 0) == 0 && Pde(m.St(), 1) == 0
    modifies m, m.ref, m.link, m.mem
    ensures Idle(m, o', pp0, pp1, pp2) && SameButLists(old(m.St()), m.St()) && m.mem[..] == old(m.mem[..])
    ensures o.free == [pp0, pp1, pp2] + o'.held && fl == First(o'.held) && o'.boot == o.boot
    ensures Transcript(old(m.St()), PageOpens(pp0, pp1, pp2, fl), m.St())
  {
    hide Inv, SameTables, Pte, Pde, Took, Transcript, Kept;
    ghost var s0 := m.St();
    ghost var r := Begin(s0);
    pp0, pp1, pp2, o' := TakeThree(m, o);
    ghost var s1 := m.St();
    r := NoteAll(r, s0, TakesThree(pp0, pp1, pp2), s1);
    assert pp0 in [pp0, pp1, pp2] && pp1 in [pp0, pp1, pp2] && pp2 in [pp0, pp1, pp2];
    fl, o' := Steal(m, o');
    ghost var s2 := m.St();
    r := See(r, s1, Said(FreeList, Page(fl)));
    r := Note(r, s1, Said(SetFreeList(None), Done), s2);
    SameTrans(s0, s1, s2);
    EntriesSame(s0, s2);
    EmptyPhase(m, pp1, o');
    r := NoteAll(r, s2, Empties(pp1), m.St());
    assert r.said == PageOpens(pp0, pp1, pp2, fl);
    KeptIs(r, m.St());
    SameTrans(s0, s2, m.St());
    EntriesSame(s0, m.St());
  }

  function Empties(pp1: nat): seq<Said>
  {
    [NoneLeft, Said(PageLookup(0), Page(None)), Said(PageInsert(pp1, 0, PTE_W), Value(-E_NO_MEM))]
  }

  // kern/pmap.c:888-895, with nothing free and no table for address 0.
  method EmptyPhase(m: Machine, pp1: nat, ghost o: Own)
    requires m.Valid(o) && o.free == [] && Pde(m.St(), 0) == 0 && Insertable(m.St(), o, pp1)
    modifies m, m.ref, m.link, m.mem
    ensures m.Valid(o) && SameButLists(old(m.St()), m.St()) && m.mem[..] == old(m.mem[..])
    ensures Transcript(old(m.St()), Empties(pp1), m.St())
  {
    hide ListsValid, TablesValid, CountsValid, TlbValid, SameTables, Pte, Transcript;
    ghost var s := m.St();
    var none, at;
    ghost var o1;
    none, o1 := Alloc(m, false, o);
    assert none == None && o1 == o;
    ghost var s1 := m.St();
    EntriesSame(s, s1);
    none, at := m.PageLookup(0);
    assert none == None;
    NothingFree(s1, o);
    InsertIsSafe(s1, o, pp1, VpnOf(0), PTE_W);
    var rc := m.PageInsert(pp1, 0, PTE_W);
    assert rc < 0;
    assert Took(s1, Said(PageLookup(0), Page(None)), s1);
    assert Took(s1, Said(PageInsert(pp1, 0, PTE_W), Value(-E_NO_MEM)), m.St());
    hide Took;
    ThreeCalls(s, NoneLeft, s1, Said(PageLookup(0), Page(None)), s1, Said(PageInsert(pp1, 0, PTE_W), Value(-E_NO_MEM)), m.St());
  }

  lemma NothingFree(s: State, o: Own)
    requires ListsValid(s, o) && o.free == []
    ensures s.head == None
  {
  }

  // kern/pmap.c:995-996.
  method DirtyPhase(m: Machine, pp0: nat, pp1: nat, pp2: nat, ghost o: Own)
    requires Idle(m, o, pp0, pp1, pp2)
    modifies m.mem
    ensures Idle(m, o, pp0, pp1, pp2) && SameButLists(old(m.St()), m.St()) && SameFrames(old(m.St()), m.St(), pp0)
    ensures Took(old(m.St()), Said(Fills(pp0, 0xFFFF_FFFF), Done), m.St())
  {
    hide ListsValid, TablesValid, CountsValid, TlbValid, SameTables, Pte, Took;
    assert pp0 in [pp0, pp1, pp2];
    ghost var s := m.St();
    Memset(m, pp0, 0xFFFF_FFFF, o);
    IdleAgain(m, s, o, o, pp0, pp1, pp2);
  }

  // kern/pmap.c:1005-1011.
  function PageCloses(a: nat, b: nat, c: nat, rest: Option<nat>): seq<Said>
  {
    [Said(SetFreeList(rest), Done)] + FreesThree(a, b, c)
  }

  method ClosePhase(m: Machine, pp0: nat, pp1: nat, pp2: nat, fl: Option<nat>, ghost o: Own) returns (ghost o': Own)
    requires Idle(m, o, pp0, pp1, pp2) && fl == First(o.held)
    modifies m`head, m.link
    ensures m.Valid(o') && SameButLists(old(m.St()), m.St())
    ensures o' == Own([pp2, pp1, pp0] + o.held, [], o.boot)
    ensures Transcript(old(m.St()), PageCloses(pp0, pp1, pp2, fl), m.St())
  {
    hide Inv, SameTables, Pte, Pde, Took, Transcript, Kept;
    assert pp0 in [pp0, pp1, pp2] && pp1 in [pp0, pp1, pp2] && pp2 in [pp0, pp1, pp2];
    ghost var s := m.St();
    ghost var r := Begin(s);
    o' := GiveBack(m, fl, o);
    ghost var s1 := m.St();
    r := Note(r, s, Said(SetFreeList(fl), Done), s1);
    o' := FreeThree(m, pp0, pp1, pp2, o');
    r := NoteAll(r, s1, FreesThree(pp0, pp1, pp2), m.St());
    assert r.said == PageCloses(pp0, pp1, pp2, fl);
    KeptIs(r, m.St());
    SameTrans(s, s1, m.St());
  }

  const WALK_VA: Word := PGSIZE * NENTRIES + PGSIZE

  // All of check_page: what it calls, writes and asserts, from the three pages
  // and the head of the rest of the list.
  function PageChecks(a: nat, b: nat, c: nat, rest: Option<nat>): seq<Said>
  {
    PageOpens(a, b, c, rest) + Middle(a, b, c) + PageCloses(a, b, c, rest)
  }

  // kern/pmap.c:897-1003.
  function Middle(a: nat, b: nat, c: nat): seq<Said>
  {
    TableChecks(a, b, c) + WalksTo(WALK_VA, a) + [Said(Fills(a, 0xFFFF_FFFF), Done)] + WalksClear(0, a)
  }

  method MiddlePhase(m: Machine, pp0: nat, pp1: nat, pp2: nat, ghost o: Own)
    requires Idle(m, o, pp0, pp1, pp2)
    modifies m, m.ref, m.link, m.mem
    ensures Idle(m, o, pp0, pp1, pp2) && SameButLists(old(m.St()), m.St()) && SameFrames(old(m.St()), m.St(), pp0)
    ensures pp0 < m.mem.Length && m.mem[pp0] == ZeroFrame()
    ensures Transcript(old(m.St()), Middle(pp0, pp1, pp2), m.St())
  {
    hide Idle, SameButLists, SameFrames, Took, Transcript, Kept, TableChecks, WalksTo, WalksClear;
    IdleShaped(m, o, pp0, pp1, pp2);
    ghost var s1 := m.St();
    ghost var r := Begin(s1);
    TablePhase(m, pp0, pp1, pp2, o);
    IdleShaped(m, o, pp0, pp1, pp2);
    ghost var s2 := m.St();
    r := NoteAll(r, s1, TableChecks(pp0, pp1, pp2), s2);
    WalkPhase(m, WALK_VA, pp0, pp1, pp2, o);
    IdleShaped(m, o, pp0, pp1, pp2);
    ghost var s3 := m.St();
    r := NoteAll(r, s2, WalksTo(WALK_VA, pp0), s3);
    DirtyPhase(m, pp0, pp1, pp2, o);
    IdleShaped(m, o, pp0, pp1, pp2);
    ghost var s4 := m.St();
    r := Note(r, s3, Said(Fills(pp0, 0xFFFF_FFFF), Done), s4);
    WalkPhase(m, 0, pp0, pp1, pp2, o);
    IdleShaped(m, o, pp0, pp1, pp2);
    r := NoteAll(r, s4, WalksClear(0, pp0), m.St());
    assert r.said == Middle(pp0, pp1, pp2);
    KeptIs(r, m.St());
    FrameTrans(s1, s2, s3, pp0);
    FrameTrans(s1, s3, s4, pp0);
    FrameTrans(s1, s4, m.St(), pp0);
  }

  lemma IdleShaped(m: Machine, o: Own, pp0: nat, pp1: nat, pp2: nat)
    requires Idle(m, o, pp0, pp1, pp2)
    ensures m.WellFormed() && Pdx(0) < 2 && Pdx(WALK_VA) < 2
  {
    hide Inv;
  }

  lemma FrameTrans(a: State, b: State, c: State, p: nat)
    requires SameButLists(a, b) && SameButLists(b, c) && SameFrames(a, b, p) && SameFrames(b, c, p)
    ensures SameButLists(a, c) && SameFrames(a, c, p)
  {
    SameTrans(a, b, c);
    hide SameButLists;
  }

  // check_page runs to its end from every valid state with three free pages and
  // empty directory entries 0 and 1, whatever else is mapped or cached: every
  // call and every read gives what it asserts. It restores every table, count and
  // translation and the set of free pages, and leaves the page that was first on
  // the list cleared and every other frame as it was.
  method CheckPage(m: Machine, ghost o: Own) returns (ghost o': Own)
    requires m.Valid(o) && |o.free| >= 3 && o.held == []
    requires Pde(m.St(), 0) == 0 && Pde(m.St(), 1) == 0
    modifies m, m.ref, m.link, m.mem
    ensures m.Valid(o') && SameButLists(old(m.St()), m.St())
    ensures o' == o.(free := [o.free[2], o.free[1], o.free[0]] + o.free[3..])
    ensures o.free[0] < m.mem.Length && m.mem[..] == old(m.mem[..])[o.free[0] := ZeroFrame()]
    ensures Transcript(old(m.St()), PageChecks(o.free[0], o.free[1], o.free[2], First(o.free[3..])), m.St())
  {
    hide Inv, Idle, SameButLists, SameFrames, Transcript, Kept, Pte, Pde, PageOpens, Middle, PageCloses;
    ghost var s0 := m.St();
    ghost var r := Begin(s0);
    var pp0, pp1, pp2, fl;
    pp0, pp1, pp2, fl, o' := OpenPhase(m, o);
    IdleShaped(m, o', pp0, pp1, pp2);
    ghost var s1, o1 := m.St(), o';
    r := NoteAll(r, s0, PageOpens(pp0, pp1, pp2, fl), s1);
    MiddlePhase(m, pp0, pp1, pp2, o');
    IdleShaped(m, o', pp0, pp1, pp2);
    ghost var s2 := m.St();
    r := NoteAll(r, s1, Middle(pp0, pp1, pp2), s2);
    SameTrans(s0, s1, s2);
    o' := ClosePhase(m, pp0, pp1, pp2, fl, o');
    r := NoteAll(r, s2, PageCloses(pp0, pp1, pp2, fl), m.St());
    SameTrans(s0, s2, m.St());
    ReversedThree(o.free, pp0, pp1, pp2, o1.held);
    assert r.said == PageChecks(pp0, pp1, pp2, fl);
    KeptIs(r, m.St());
    assert s1.mem == s0.mem && m.St().mem == s2.mem;
    OnlyFrame(s0, s1, s2, pp0);
  }

  lemma OnlyFrame(s0: State, s1: State, s2: State, p: nat)
    requires s1.mem == s0.mem && SameButLists(s0, s2) && SameFrames(s1, s2, p) && p < NPages(s2) && s2.mem[p] == ZeroFrame()
    ensures s2.mem == s0.mem[p := ZeroFrame()]
  {
    hide Pte;
    if p != s2.pgdir {
      forall d: Index ensures s2.mem[s2.pgdir][d] == s0.mem[s0.pgdir][d] {
        assert Pde(s2, d) == Pde(s0, d);
      }
      assert s2.mem[s2.pgdir] == s0.mem[s0.pgdir];
    }
  }

  lemma ReversedThree(q: seq<nat>, a: nat, b: nat, c: nat, rest: seq<nat>)
    requires q == [a, b, c] + rest
    ensures |q| >= 3 && [q[2], q[1], q[0]] + q[3..] == [c, b, a] + rest
    ensures q[0] == a && q[1] == b && q[2] == c && q[3..] == rest
  {
    assert q[3..] == rest;
  }
}
