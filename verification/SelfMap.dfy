// The virtual page table: the directory entered into itself at PDX(UVPT)
// (kern/pmap.c:163, inc/memlayout.h:148-162).
module SelfMap {
  import opened Mmu
  import opened PageState

  // A 32-bit read at an aligned virtual address; None is a page fault.
  function ReadVirtual(s: State, va: Word): Option<Word>
  {
    match Translate(s, VpnOf(va))
    case None => None
    case Some(x) => if x.ppn < NPages(s) then Some(s.mem[x.ppn][PgOff(va) / 4]) else None
  }

  // A 32-bit write, with CR0_WP set.
  predicate WritableAt(s: State, va: Word)
  {
    var x := Translate(s, VpnOf(va));
    x != None && x.value.writable && x.value.ppn < NPages(s)
  }

  function AfterWrite(s: State, va: Word, w: Word): seq<Frame>
    requires WritableAt(s, va)
  {
    var p := Translate(s, VpnOf(va)).value.ppn;
    s.mem[p := s.mem[p][PgOff(va) / 4 := w]]
  }

  lemma WindowAddress(v: Vpn)
    ensures UVPT + 4 * Number(v) < 0x1_0000_0000
    ensures VpnOf(UVPT + 4 * Number(v)) == Vpn(SELF, v.pdx)
    ensures PgOff(UVPT + 4 * Number(v)) == 4 * v.ptx
  {
    var va := UVPT + 4 * Number(v);
    assert va == PgAddr(SELF, v.pdx, 4 * v.ptx);
    AddressJoin(SELF, v.pdx, 4 * v.ptx);
  }

  lemma SelfEntry(s: State, o: Own, d: Index)
    requires Inv(s, o)
    ensures HasTable(s, SELF) && Pte(s, Vpn(SELF, d)) == Pde(s, d)
    ensures Present(Pde(s, d)) ==> HasTable(s, d)
    ensures Translate(s, Vpn(SELF, d)).Some? ==>
              !Translate(s, Vpn(SELF, d)).value.writable && Translate(s, Vpn(SELF, d)).value.ppn == TableOf(s, d)
  {
    assert FlagsOf(Pde(s, SELF)) == 5 && TableOf(s, SELF) == s.pgdir;
  }

  // uvpt[N] reads the page-table entry of page N, for every N with a page
  // table, and faults for every other N; in every valid state.
  lemma UvptReads(s: State, o: Own, v: Vpn)
    requires Inv(s, o)
    ensures UVPT + 4 * Number(v) < 0x1_0000_0000
    ensures ReadVirtual(s, UVPT + 4 * Number(v)) == if HasTable(s, v.pdx) then Some(Pte(s, v)) else None
  {
    hide Inv, Pde, Translate, ReadVirtual, Number, VpnOf, PgOff;
    WindowAddress(v);
    SelfEntry(s, o, v.pdx);
    ReadsEntry(s, UVPT + 4 * Number(v), v);
  }

  lemma ReadsEntry(s: State, va: Word, v: Vpn)
    requires VpnOf(va) == Vpn(SELF, v.pdx) && PgOff(va) == 4 * v.ptx
    requires Pte(s, Vpn(SELF, v.pdx)) == Pde(s, v.pdx) && (Present(Pde(s, v.pdx)) ==> HasTable(s, v.pdx))
    ensures ReadVirtual(s, va) == if HasTable(s, v.pdx) then Some(Pte(s, v)) else None
  {
    hide VpnOf, PgOff;
    var x := Translate(s, Vpn(SELF, v.pdx));
    assert HasTable(s, v.pdx) <==> x.Some?;
    assert x.Some? ==> x.value.ppn == TableOf(s, v.pdx);
    hide Translate, Pde;
  }

  // uvpd[d], entry (UVPT >> PGSHIFT) + d of the same array, reads directory
  // entry d, for every d.
  lemma UvpdReads(s: State, o: Own, d: Index)
    requires Inv(s, o)
    ensures UVPT + 4 * (UVPT / PGSIZE + d) < 0x1_0000_0000
    ensures ReadVirtual(s, UVPT + 4 * (UVPT / PGSIZE + d)) == Some(Pde(s, d))
  {
    hide Inv, Pde, Translate, ReadVirtual;
    UvptReads(s, o, Vpn(SELF, d));
    SelfEntry(s, o, d);
  }

  // Nothing in the window can be written through it.
  lemma WindowIsReadOnly(s: State, o: Own, va: Word)
    requires Inv(s, o) && UVPT <= va < UVPT + PTSIZE
    ensures Translate(s, VpnOf(va)).Some? ==> !Translate(s, VpnOf(va)).value.writable
  {
    assert Pdx(va) == SELF;
    SelfEntry(s, o, Ptx(va));
  }
}
