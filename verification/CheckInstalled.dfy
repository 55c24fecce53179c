// check_page_installed_pgdir (kern/pmap.c:1017-1056): the directory is in use,
// and memory is read and written through virtual addresses with the TLB live.
module CheckInstalled {
  import opened Mmu
  import opened PageState
  import opened Allocator
  import opened PageTables
  import opened Pmap
  import opened Runs
  import opened SelfMap
  import opened CheckAlloc
  import opened CheckTables
  import opened Transcripts

  // ---------- virtual accesses ----------

  // The hardware's walk of the two levels.
  method Walk(m: Machine, v: Vpn) returns (x: Option<Xlat>)
    requires m.WellFormed()
    ensures x == Translate(m.St(), v)
  {
    var pde := m.mem[m.pgdir][v.pdx];
    if !Present(pde) || Ppn(pde) >= m.mem.Length {
      return None;
    }
    var pte := m.mem[Ppn(pde)][v.ptx];
    if !Present(pte) {
      return None;
    }
    return Some(Xlat(Ppn(pte), Writable(pte) && Writable(pde), User(pte) && User(pde)));
  }

  // Its translation of v, from the TLB or by a walk, which it may or may not
  // cache.
  method Lookup(m: Machine, v: Vpn, ghost o: Own) returns (x: Option<Xlat>)
    requires m.Valid(o)
    modifies m`tlb
    ensures m.Valid(o) && x == Translate(old(m.St()), v)
    ensures m.St() == old(m.St()) || m.St() == Filled(old(m.St()), v)
  {
    hide ListsValid, TablesValid, CountsValid, Translate;
    FilledKeepsInv(m.St(), o, v);
    if v in m.tlb {
      return Some(m.tlb[v]);
    }
    x := Walk(m, v);
    hide TlbValid;
    var caches: bool := *;
    if caches && x != None {
      m.tlb := m.tlb[v := x.value];
    }
  }

  // *(uint32_t *)va; None is a fault.
  method ReadWord(m: Machine, va: Word, ghost o: Own) returns (w: Option<Word>)
    requires m.Valid(o)
    modifies m`tlb
    ensures m.Valid(o) && w == ReadVirtual(old(m.St()), va)
    ensures m.St() == old(m.St()) || m.St() == Filled(old(m.St()), VpnOf(va))
  {
    hide Inv, Translate, Filled;
    var x := Lookup(m, VpnOf(va), o);
    if x == None || x.value.ppn >= m.mem.Length {
      return None;
    }
    return Some(m.mem[x.value.ppn][PgOff(va) / 4]);
  }

  // *(uint32_t *)va = w, with CR0_WP set; false is a fault.
  method WriteWord(m: Machine, va: Word, w: Word, ghost o: Own) returns (ok: bool)
    requires m.Valid(o)
    modifies m`tlb, m.mem
    ensures m.WellFormed() && ok == WritableAt(old(m.St()), va)
    ensures var s := old(m.St());
            ok ==> m.St() == s.(mem := AfterWrite(s, va, w)) || m.St() == Filled(s, VpnOf(va)).(mem := AfterWrite(s, va, w))
  {
    hide Inv, Translate, Filled;
    ghost var s := m.St();
    var x := Lookup(m, VpnOf(va), o);
    if x == None || !x.value.writable || x.value.ppn >= m.mem.Length {
      return false;
    }
    ghost var t := m.St();
    var p := x.value.ppn;
    m.mem[p] := m.mem[p][PgOff(va) / 4 := w];
    assert m.St() == t.(mem := AfterWrite(s, va, w));
    return true;
  }

  // ---------- the bench under such accesses ----------

  lemma BenchFilled(s0: State, s: State, o: Own, k: Bench, v: Vpn)
    requires OnBench(s0, s, o, k) && v.pdx == k.dir
    ensures OnBench(s0, Filled(s, v), o, k)
  {
    hide Inv, OnBench;
    BenchBasics(s0, s, o, k);
    FilledKeepsInv(s, o, v);
    BenchTlb(s0, s, Filled(s, v), o, k);
  }

  // The bench does not mind what is cached for its own directory entry.
  lemma BenchTlb(s0: State, s: State, r: State, o: Own, k: Bench)
    requires OnBench(s0, s, o, k) && Inv(r, o) && r == s.(tlb := r.tlb) && SameTables(s, r)
    requires forall u :: u in r.tlb && u.pdx != k.dir ==> u in s.tlb && s.tlb[u] == r.tlb[u]
    requires forall u :: u in s.tlb ==> u in r.tlb
    ensures OnBench(s0, r, o, k)
  {
    hide Inv, Pte, Pde;
  }

  // Writing a page that was unreferenced when the bench was set up.
  lemma BenchWritten(s0: State, o0: Own, s: State, o: Own, k: Bench, p: nat, f: Frame)
    requires OnBench(s0, s, o, k) && Inv(s0, o0) && p < NPages(s0) && s0.refs[p] == 0 && p != k.table
    ensures OnBench(s0.(mem := s0.mem[p := f]), s.(mem := s.mem[p := f]), o, k)
    ensures Inv(s0.(mem := s0.mem[p := f]), o0) && SameTables(s0, s0.(mem := s0.mem[p := f]))
    ensures SameTables(s, s.(mem := s.mem[p := f]))
  {
    hide ListsValid, CountsValid, Translate, Pte;
    var r0, r := s0.(mem := s0.mem[p := f]), s.(mem := s.mem[p := f]);
    WriteKeepsInv(s0, o0, p, f);
    BenchBasics(s0, s, o, k);
    forall d: Index | HasTable(s, d) ensures TableOf(s, d) != p {
      assert d != k.dir ==> Pde(s, d) == Pde(s0, d);
      if d != k.dir { TableIsReferenced(s0, o0, d); }
    }
    TableIsReferenced(s0, o0, 0);
    OffTableWrite(s, r, p, f);
    TablesCarry(s, r);
    FrameWritten(s0, s, r0, r, o, k);
  }

  lemma FrameWritten(s0: State, s: State, r0: State, r: State, o: Own, k: Bench)
    requires OnBench(s0, s, o, k) && SameTables(s0, r0) && SameTables(s, r)
    requires r0 == s0.(mem := r0.mem) && r == s.(mem := r.mem)
    requires forall p :: 0 <= p < NPages(s) && p != s.pgdir && p != k.table ==> s.mem[p] == s0.mem[p] ==> r.mem[p] == r0.mem[p]
    requires forall q: nat :: NamedBy(r, q) == NamedBy(s, q)
    requires TablesValid(r) && TlbValid(r)
    ensures OnBench(r0, r, o, k)
  {
    hide TablesValid, TlbValid, Pte, Pde;
    assert ListsValid(r, o) && CountsValid(r, o);
  }

  // ---------- the routine ----------

  // A read at PGSIZE, where page pp is mapped and untouched since s0.
  method ReadStep(m: Machine, pp: nat, ghost s0: State, ghost o: Own, ghost k: Bench) returns (w: Option<Word>)
    requires Ready(m, s0, o, k) && k.dir == 0 && Present(k.e1) && Ppn(k.e1) == pp && pp < NPages(s0)
    requires pp != k.table && pp != s0.pgdir
    modifies m`tlb
    ensures Ready(m, s0, o, k) && w == Some(s0.mem[pp][0])
    ensures Took(old(m.St()), Said(Load(PGSIZE), Value(s0.mem[pp][0])), m.St())
  {
    hide OnBench, Inv, Pte, Filled;
    ghost var s, v := m.St(), VpnOf(PGSIZE);
    BenchBasics(s0, s, o, k);
    MappedAt(s, v, k);
    w := ReadWord(m, PGSIZE, o);
    BenchFilled(s0, s, o, k, v);
  }

  lemma MappedAt(s: State, v: Vpn, k: Bench)
    requires k.table < MAXPAGES && HasTable(s, k.dir) && v.pdx == k.dir && Pde(s, k.dir) == Pack(k.table, 7) && Pte(s, v) == Entry(k, v.ptx)
    ensures Present(Entry(k, v.ptx)) ==>
              Translate(s, v) == Some(Xlat(Ppn(Entry(k, v.ptx)), Writable(Entry(k, v.ptx)), User(Entry(k, v.ptx))))
    ensures !Present(Entry(k, v.ptx)) ==> Translate(s, v) == None
  {
    hide Pte, Pde;
  }

  // The state in which page p begins with word w.
  function Rewritten0(s: State, p: nat, w: Word): State
    requires p < NPages(s)
  {
    s.(mem := s.mem[p := s.mem[p][0 := w]])
  }

  // A write at PGSIZE, where page pp is mapped writable.
  method WriteStep(m: Machine, pp: nat, w: Word, ghost s0: State, ghost o0: Own, ghost o: Own, ghost k: Bench) returns (ok: bool)
    requires Ready(m, s0, o, k) && k.dir == 0 && pp < NPages(s0) <= MAXPAGES && k.e1 == Pack(pp, 3)
    requires Inv(s0, o0) && s0.refs[pp] == 0 && pp != k.table && pp != s0.pgdir
    modifies m`tlb, m.mem
    ensures ok && pp < m.mem.Length && m.mem[pp][0] == w && Took(old(m.St()), Said(Store(PGSIZE, w), Done), m.St())
    ensures Inv(Rewritten0(s0, pp, w), o0) && SameTables(s0, Rewritten0(s0, pp, w))
    ensures Ready(m, Rewritten0(s0, pp, w), o, k)
  {
    hide OnBench, Inv, Pte, Filled, SameTables, VpnOf, PgOff, Pack, Ppn, FlagsOf, Translate;
    ghost var s, v := m.St(), VpnOf(PGSIZE);
    AtPgsize();
    BenchBasics(s0, s, o, k);
    MappedAt(s, v, k);
    assert Present(k.e1) && Writable(k.e1) && Ppn(k.e1) == pp;
    ok := WriteWord(m, PGSIZE, w, o);
    ghost var f := s.mem[pp][0 := w];
    assert AfterWrite(s, PGSIZE, w) == s.mem[pp := f];
    BenchWritten(s0, o0, s, o, k, pp, f);
    ghost var r := s.(mem := s.mem[pp := f]);
    BenchFilled(s0.(mem := s0.mem[pp := f]), r, o, k, v);
    FilledWritten(s, r, v);
  }

  // Caching before or after a write that changes no entry is the same.
  lemma FilledWritten(s: State, r: State, v: Vpn)
    requires SameTables(s, r) && r == s.(mem := r.mem)
    ensures Filled(r, v) == Filled(s, v).(mem := r.mem)
  {
    TablesCarry(s, r);
  }

  // The three pages: pp0 is free again and first on the list, the other two are
  // held and filled (kern/pmap.c:1028-1033).
  method FillPhase(m: Machine, ghost o: Own) returns (pp0: nat, pp1: nat, pp2: nat, ghost o': Own)
    requires m.Valid(o) && |o.free| >= 3
    modifies m, m.link, m.mem
    ensures m.Valid(o') && SameButLists(old(m.St()), m.St())
    ensures pp0 != pp1 && pp0 != pp2 && pp1 != pp2 && o.free == [pp0, pp1, pp2] + o.free[3..]
    ensures o' == o.(free := [pp0] + o.free[3..])
    ensures forall p :: p in [pp0, pp1, pp2] ==> p < m.mem.Length && m.ref[p] == 0 && p !in o.free[3..] && p !in o.held
    ensures pp1 < m.mem.Length && pp2 < m.mem.Length
    ensures m.mem[..] == old(m.mem[..])[pp1 := Fill(0x0101_0101)][pp2 := Fill(0x0202_0202)]
    ensures Transcript(old(m.St()), InstalledOpens(pp0, pp1, pp2), m.St())
  {
    hide Inv, SameButLists, Took, Transcript;
    ghost var s0 := m.St();
    pp0, pp1, pp2, o' := TakeThree(m, o);
    assert pp0 in [pp0, pp1, pp2] && pp1 in [pp0, pp1, pp2] && pp2 in [pp0, pp1, pp2];
    assert o'.free == o.free[3..];
    ghost var s1 := m.St();
    o' := Free(m, pp0, o');
    ghost var s2 := m.St();
    SameTrans(s0, s1, s2);
    Memset(m, pp1, 0x0101_0101, o');
    ghost var s3 := m.St();
    SameTrans(s0, s2, s3);
    Memset(m, pp2, 0x0202_0202, o');
    SameTrans(s0, s3, m.St());
    ThreeCalls(s1, Said(PageFree(pp0), Done), s2, Said(Fills(pp1, 0x0101_0101), Done), s3, Said(Fills(pp2, 0x0202_0202), Done), m.St());
    Joined(s0, TakesThree(pp0, pp1, pp2), s1,
           [Said(PageFree(pp0), Done), Said(Fills(pp1, 0x0101_0101), Done), Said(Fills(pp2, 0x0202_0202), Done)], m.St());
  }

  // kern/pmap.c:1027-1033.
  function InstalledOpens(a: nat, b: nat, c: nat): seq<Said>
  {
    TakesThree(a, b, c)
    + [Said(PageFree(a), Done), Said(Fills(b, 0x0101_0101), Done), Said(Fills(c, 0x0202_0202), Done)]
  }

  // kern/pmap.c:1034-1036.
  function FirstMapped(b: nat): seq<Said>
  {
    [Said(PageInsert(b, PGSIZE, PTE_W), Value(0)), Said(RefOf(b), Value(1)), Said(Load(PGSIZE), Value(0x0101_0101))]
  }

  // kern/pmap.c:1037-1040.
  function SecondMapped(b: nat, c: nat): seq<Said>
  {
    [Said(PageInsert(c, PGSIZE, PTE_W), Value(0)), Said(Load(PGSIZE), Value(0x0202_0202)),
     Said(RefOf(c), Value(1)), Said(RefOf(b), Value(0))]
  }

  // kern/pmap.c:1041-1044.
  function WrittenAndRemoved(c: nat): seq<Said>
  {
    [Said(Store(PGSIZE, 0x0303_0303), Done), Said(WordAt(c, 0), Value(0x0303_0303)),
     Said(PageRemove(PGSIZE), Done), Said(RefOf(c), Value(0))]
  }

  // All of check_page_installed_pgdir, from the three pages.
  function InstalledChecks(a: nat, b: nat, c: nat): seq<Said>
  {
    InstalledOpens(a, b, c) + InstalledUses(a, b, c) + [Said(PageFree(a), Done)]
  }

  // kern/pmap.c:1034-1050.
  function InstalledUses(a: nat, b: nat, c: nat): seq<Said>
  {
    FirstMapped(b) + SecondMapped(b, c) + WrittenAndRemoved(c) + AssertsBack(0, a)
  }

  // pp1 goes in at PGSIZE and is read there (kern/pmap.c:1034-1036).
  method FirstPhase(m: Machine, pp0: nat, pp1: nat, ghost o: Own) returns (ghost o': Own, ghost k: Bench)
    requires m.Valid(o) && o.free != [] && o.free[0] == pp0 && Pde(m.St(), 0) == 0 && pp0 != pp1
    requires Insertable(m.St(), o, pp1) && m.ref[pp1] == 0 && pp1 < m.mem.Length && m.mem[pp1][0] == 0x0101_0101
    modifies m, m.ref, m.link, m.mem
    ensures Ready(m, old(m.St()), o', k) && o'.held == o.held && o'.boot == o.boot
    ensures pp1 < MAXPAGES && k == Bench(0, pp0, 0, Pack(pp1, 3), o.free[1..])
    ensures pp0 < m.mem.Length && old(m.ref[..])[pp0] == 0
    ensures Transcript(old(m.St()), FirstMapped(pp1), m.St())
  {
    hide OnBench, Inv, Pte, Pde, Pack, Took, Transcript, Kept;
    ghost var s := m.St();
    ghost var r := Begin(s);
    NotDirectory(s, o, pp1);
    o', k := FirstInsert(m, pp0, pp1, PGSIZE, o);
    r := Note(r, s, Said(PageInsert(pp1, PGSIZE, PTE_W), Value(0)), m.St());
    BenchBasics(s, m.St(), o', k);
    ZeroNamesNothing(pp1);
    NamesItself(pp1, 3);
    assert m.ref[pp1] == 1;
    r := See(r, m.St(), Said(RefOf(pp1), Value(1)));
    ghost var s1 := m.St();
    var w := ReadStep(m, pp1, s, o', k);
    assert w == Some(0x0101_0101);
    r := Note(r, s1, Said(Load(PGSIZE), Value(0x0101_0101)), m.St());
    assert r.said == FirstMapped(pp1);
    KeptIs(r, m.St());
  }

  lemma NamesItself(p: nat, f: Flags)
    requires p < MAXPAGES && f % 2 == 1
    ensures Names(Pack(p, f), p) == 1 && Present(Pack(p, f)) && Ppn(Pack(p, f)) == p
    ensures forall q: nat :: q != p ==> Names(Pack(p, f), q) == 0
  {
  }

  // pp2 replaces pp1 at PGSIZE and is read there (kern/pmap.c:1037-1040).
  method SecondPhase(m: Machine, pp0: nat, pp1: nat, pp2: nat, ghost s0: State, ghost o0: Own, ghost o: Own, ghost rest: seq<nat>)
    returns (ghost o': Own)
    requires pp1 < MAXPAGES && Ready(m, s0, o, Bench(0, pp0, 0, Pack(pp1, 3), rest)) && Inv(s0, o0)
    requires pp0 != pp1 && pp0 != pp2 && pp1 != pp2 && pp1 < |s0.refs| && pp2 < |s0.refs|
    requires s0.refs[pp1] == 0 && s0.refs[pp2] == 0 && pp2 !in rest && pp2 !in o.held
    requires s0.mem[pp2][0] == 0x0202_0202
    modifies m, m.ref, m.link, m.mem
    ensures pp2 < MAXPAGES && Ready(m, s0, o', Bench(0, pp0, 0, Pack(pp2, 3), [pp1] + rest)) && o'.held == o.held && o'.boot == o.boot
    ensures Transcript(old(m.St()), SecondMapped(pp1, pp2), m.St())
  {
    hide OnBench, Inv, Pte, Pde, Pack, Names, Took, Transcript, Kept;
    ghost var s, k, k' := m.St(), Bench(0, pp0, 0, Pack(pp1, 3), rest), Bench(0, pp0, 0, Pack(pp2, 3), [pp1] + rest);
    NotDirectory(s0, o0, pp2);
    BenchBasics(s0, s, o, k);
    NamesItself(pp1, 3);
    NamesItself(pp2, 3);
    ZeroNamesNothing(pp1);
    ZeroNamesNothing(pp2);
    assert WithPresent(PTE_W) == 3;
    assert FreedBy(s, Pack(pp1, 3), rest) == [pp1] + rest;
    ghost var k1;
    ghost var r := Begin(s);
    o', k1 := InsertStep(m, pp2, PGSIZE, PTE_W, s0, o, k);
    assert k1 == k';
    r := Note(r, s, Said(PageInsert(pp2, PGSIZE, PTE_W), Value(0)), m.St());
    BenchBasics(s0, m.St(), o', k');
    ghost var s1 := m.St();
    var w := ReadStep(m, pp2, s0, o', k');
    assert w == Some(0x0202_0202) && m.ref[pp2] == 1 && m.ref[pp1] == 0;
    r := Note(r, s1, Said(Load(PGSIZE), Value(0x0202_0202)), m.St());
    r := See(r, m.St(), Said(RefOf(pp2), Value(1)));
    r := See(r, m.St(), Said(RefOf(pp1), Value(0)));
    assert r.said == SecondMapped(pp1, pp2);
    KeptIs(r, m.St());
  }

  // pp2 is written through PGSIZE and removed (kern/pmap.c:1041-1044).
  method ThirdPhase(m: Machine, pp0: nat, pp2: nat, ghost s0: State, ghost o0: Own, ghost o: Own, ghost free: seq<nat>)
    returns (ghost o': Own)
    requires pp2 < MAXPAGES && Ready(m, s0, o, Bench(0, pp0, 0, Pack(pp2, 3), free)) && Inv(s0, o0)
    requires pp0 != pp2 && pp2 < |s0.refs| && s0.refs[pp2] == 0
    modifies m, m.ref, m.link, m.mem
    ensures Inv(Rewritten0(s0, pp2, 0x0303_0303), o0) && SameTables(s0, Rewritten0(s0, pp2, 0x0303_0303))
    ensures Ready(m, Rewritten0(s0, pp2, 0x0303_0303), o', Bench(0, pp0, 0, 0, [pp2] + free))
    ensures o'.held == o.held && o'.boot == o.boot
    ensures Transcript(old(m.St()), WrittenAndRemoved(pp2), m.St())
  {
    hide OnBench, Inv, Pte, Pde, Pack, Names, SameTables, Took, Transcript, Kept;
    ghost var k, s1 := Bench(0, pp0, 0, Pack(pp2, 3), free), Rewritten0(s0, pp2, 0x0303_0303);
    NotDirectory(s0, o0, pp2);
    BenchBasics(s0, m.St(), o, k);
    NamesItself(pp2, 3);
    ZeroNamesNothing(pp2);
    ghost var s := m.St();
    ghost var r := Begin(s);
    var ok := WriteStep(m, pp2, 0x0303_0303, s0, o0, o, k);
    assert ok && m.mem[pp2][0] == 0x0303_0303;
    r := Note(r, s, Said(Store(PGSIZE, 0x0303_0303), Done), m.St());
    ghost var s2 := m.St();
    r := See(r, s2, Said(WordAt(pp2, 0), Value(0x0303_0303)));
    BenchBasics(s1, m.St(), o, k);
    assert FreedBy(m.St(), Pack(pp2, 3), free) == [pp2] + free;
    ghost var k1;
    o', k1 := RemoveStep(m, PGSIZE, s1, o, k);
    assert k1 == Bench(0, pp0, 0, 0, [pp2] + free);
    r := Note(r, s2, Said(PageRemove(PGSIZE), Done), m.St());
    BenchBasics(s1, m.St(), o', k1);
    assert m.ref[pp2] == 0;
    r := See(r, m.St(), Said(RefOf(pp2), Value(0)));
    assert r.said == WrittenAndRemoved(pp2);
    KeptIs(r, m.St());
  }

  // The emptied table is taken back (kern/pmap.c:1046-1050).
  method LastPhase(m: Machine, pp0: nat, pp2: nat, ghost s0: State, ghost o0: Own, ghost o: Own, ghost free: seq<nat>)
    requires pp2 < NPages(s0) && SameTables(s0, Rewritten0(s0, pp2, 0x0303_0303)) && Inv(Rewritten0(s0, pp2, 0x0303_0303), o0)
    requires Ready(m, Rewritten0(s0, pp2, 0x0303_0303), o, Bench(0, pp0, 0, 0, free)) && o.boot == o0.boot
    requires pp0 < NPages(s0) && pp0 < |s0.refs| && s0.refs[pp0] == 0 && Pde(s0, 0) == 0
    modifies m.ref, m.mem
    ensures m.Valid(o) && SameButLists(s0, m.St()) && o.free == free && pp0 !in o.free && pp0 !in o.held
    ensures pp0 < m.mem.Length && m.ref[pp0] == 0
    ensures m.mem[..] == Rewritten0(s0, pp2, 0x0303_0303).mem[pp0 := ZeroFrame()]
    ensures Transcript(old(m.St()), AssertsBack(0, pp0), m.St())
  {
    hide Inv, OnBench, SameTables, Pte, Pde, Pack, Transcript;
    ghost var k, s1 := Bench(0, pp0, 0, 0, free), Rewritten0(s0, pp2, 0x0303_0303);
    BenchBasics(s1, m.St(), o, k);
    DirectorySame(s0, s1);
    BenchIsClear(m, s1, o, k);
    NotDirectory(s1, o0, pp0);
    assert m.mem[pp0] == ZeroFrame();
    TakeBackStep(m, 0, pp0, s1, o0, o, k);
    SameTrans(s0, s1, m.St());
    OnlyFrame(s1, s1, m.St(), pp0);
  }

  // kern/pmap.c:1034-1050.
  method UsePages(m: Machine, pp0: nat, pp1: nat, pp2: nat, ghost o: Own, ghost rest: seq<nat>) returns (ghost o': Own)
    requires m.Valid(o) && o.free == [pp0] + rest && Pde(m.St(), 0) == 0
    requires pp0 != pp1 && pp0 != pp2 && pp1 != pp2
    requires forall p :: p in [pp0, pp1, pp2] ==> p < m.mem.Length && m.ref[p] == 0 && p !in rest && p !in o.held
    requires pp1 < m.mem.Length && pp2 < m.mem.Length && m.mem[pp1][0] == 0x0101_0101 && m.mem[pp2][0] == 0x0202_0202
    modifies m, m.ref, m.link, m.mem
    ensures m.Valid(o') && SameButLists(old(m.St()), m.St()) && o' == o.(free := [pp2] + ([pp1] + rest))
    ensures pp0 < m.mem.Length && m.ref[pp0] == 0 && pp0 !in o'.free && pp0 !in o'.held
    ensures m.mem[..] == Rewritten0(old(m.St()), pp2, 0x0303_0303).mem[pp0 := ZeroFrame()]
    ensures Transcript(old(m.St()), InstalledUses(pp0, pp1, pp2), m.St())
  {
    hide Inv, OnBench, SameTables, SameButLists, Pte, Pde, Pack, Transcript, Kept, FirstMapped, SecondMapped, WrittenAndRemoved, AssertsBack;
    ghost var s0 := m.St();
    ghost var r := Begin(s0);
    assert pp0 in [pp0, pp1, pp2] && pp1 in [pp0, pp1, pp2] && pp2 in [pp0, pp1, pp2];
    assert o.free[1..] == rest;
    ghost var k;
    o', k := FirstPhase(m, pp0, pp1, o);
    ghost var s1 := m.St();
    r := NoteAll(r, s0, FirstMapped(pp1), s1);
    o' := SecondPhase(m, pp0, pp1, pp2, s0, o, o', rest);
    ghost var s2 := m.St();
    r := NoteAll(r, s1, SecondMapped(pp1, pp2), s2);
    o' := ThirdPhase(m, pp0, pp2, s0, o, o', [pp1] + rest);
    ghost var s3 := m.St();
    r := NoteAll(r, s2, WrittenAndRemoved(pp2), s3);
    LastPhase(m, pp0, pp2, s0, o, o', [pp2] + ([pp1] + rest));
    r := NoteAll(r, s3, AssertsBack(0, pp0), m.St());
    assert r.said == InstalledUses(pp0, pp1, pp2);
    KeptIs(r, m.St());
  }

  // check_page_installed_pgdir runs to its end from every valid state with three
  // free pages and an empty directory entry 0: every call, read and write gives
  // what it asserts. It restores every table, count and translation and the set
  // of free pages, and changes no frame but those of the three pages.
  method CheckPageInstalled(m: Machine, ghost o: Own) returns (ghost o': Own)
    requires m.Valid(o) && |o.free| >= 3 && Pde(m.St(), 0) == 0
    modifies m, m.ref, m.link, m.mem
    ensures m.Valid(o') && SameButLists(old(m.St()), m.St())
    ensures o' == o.(free := [o.free[0], o.free[2], o.free[1]] + o.free[3..])
    ensures var a, b, c := o.free[0], o.free[1], o.free[2];
            && a < m.mem.Length && b < m.mem.Length && c < m.mem.Length
            && m.mem[..] == old(m.mem[..])[b := Fill(0x0101_0101)][c := Fill(0x0202_0202)[0 := 0x0303_0303]][a := ZeroFrame()]
            && Transcript(old(m.St()), InstalledChecks(a, b, c), m.St())
  {
    hide Inv, SameButLists, Pde, Transcript, Kept, Took, InstalledOpens, InstalledUses;
    ghost var s := m.St();
    ghost var r := Begin(s);
    var pp0, pp1, pp2;
    pp0, pp1, pp2, o' := FillPhase(m, o);
    ghost var rest, s0 := o.free[3..], m.St();
    r := NoteAll(r, s, InstalledOpens(pp0, pp1, pp2), s0);
    DirectorySame(s, s0);
    assert pp0 in [pp0, pp1, pp2];
    o' := UsePages(m, pp0, pp1, pp2, o', rest);
    ghost var s1 := m.St();
    r := NoteAll(r, s0, InstalledUses(pp0, pp1, pp2), s1);
    SameTrans(s, s0, s1);
    o' := Free(m, pp0, o');
    r := Note(r, s1, Said(PageFree(pp0), Done), m.St());
    KeptIs(r, m.St());
    SameTrans(s, s1, m.St());
    assert [pp0] + ([pp2] + ([pp1] + rest)) == [pp0, pp2, pp1] + rest;
    assert r.said == InstalledChecks(pp0, pp1, pp2);
  }

  lemma DirectorySame(s: State, s': State)
    requires SameButLists(s, s')
    ensures Pde(s', 0) == Pde(s, 0)
  {
  }
}
