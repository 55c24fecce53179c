// The allocator and page-table code of kern/pmap.c, working in place.
module Pmap {
  import opened Mmu
  import opened PageState
  import opened Allocator
  import opened PageTables

  const E_NO_MEM := 4

  // A pte_t *: a word of a page frame.
  datatype Ptr = Ptr(frame: nat, index: Index)

  // The pgdir_walk result for va does not pass KADDR's panic check.
  predicate KaddrPanics(s: State, d: Index)
  {
    Present(Pde(s, d)) && TableOf(s, d) >= NPages(s)
  }

  // page_remove(va) runs into no panic.
  predicate RemoveSafe(s: State, v: Vpn)
  {
    && !KaddrPanics(s, v.pdx)
    && (Mapped(s, v) ==> Ppn(Pte(s, v)) < NPages(s) && !DecrefPanics(s, Ppn(Pte(s, v))))
  }

  // page_insert(pp, v) runs into no panic.
  predicate InsertSafe(s: State, pp: nat, v: Vpn)
  {
    && pp < NPages(s) && !KaddrPanics(s, v.pdx)
    && (!InsertFails(s, v) && Mapped(Counted(Walked(s, v.pdx), pp), v) ==>
          RemoveSafe(Counted(Walked(s, v.pdx), pp), v))
  }

  // What page_insert leaves in any state in which it does not panic: the entry
  // found before the removal is the one that is written.
  function AfterInsert(s: State, pp: nat, v: Vpn, perm: Flags): State
    requires InsertSafe(s, pp, v) && !InsertFails(s, v)
  {
    WalkedTable(s, v.pdx);
    var s1 := Counted(Walked(s, v.pdx), pp);
    var f, s2 := TableOf(s1, v.pdx), if Mapped(s1, v) then Removed(s1, v) else s1;
    s2.(mem := s2.mem[f := s2.mem[f][v.ptx := Pack(pp, WithPresent(perm))]])
  }

  lemma WalkedTable(s: State, d: Index)
    requires !KaddrPanics(s, d)
    ensures !WalkFails(s, d, true) ==> HasTable(Walked(s, d), d) && NPages(Walked(s, d)) == NPages(s)
  {
  }

  lemma EntryAt(s: State, v: Vpn, pp: nat)
    requires HasTable(s, v.pdx) && pp < NPages(s)
    ensures TableOf(Counted(s, pp), v.pdx) == TableOf(s, v.pdx)
    ensures Pte(Counted(s, pp), v) == s.mem[TableOf(s, v.pdx)][v.ptx]
  {
  }

  // On valid states, for a page the caller holds and an address below UTOP,
  // page_insert never panics and leaves exactly the specified state.
  lemma InsertIsSafe(s: State, o: Own, pp: nat, v: Vpn, perm: Flags)
    requires Inv(s, o) && Insertable(s, o, pp) && v.pdx < USERTOP
    ensures InsertSafe(s, pp, v)
    ensures !InsertFails(s, v) ==> AfterInsert(s, pp, v, perm) == Inserted(s, pp, v, perm)
  {
    hide ListsValid, CountsValid, TlbValid;
    assert !KaddrPanics(s, v.pdx);
    hide TablesValid;
    WalkedTable(s, v.pdx);
    if !InsertFails(s, v) {
      var s1, o1, w := Walked(s, v.pdx), OwnWalked(s, o, v.pdx), Pack(pp, WithPresent(perm));
      WalkedKeepsInv(s, o, v.pdx);
      WalkedInsertable(s, o, pp, v);
      InsertStepsAreInstalled(s1, o1, pp, v, perm);
      CountedRemoveSafe(s1, o1, pp, v, w);
      EntryAt(s1, v, pp);
      UnmappedStays(Counted(s1, pp), v);
      hide Walked, Installed, Removed, SetPte, Pte, Pde, RemoveSafe, WithPresent, Pack;
    }
  }

  lemma UnmappedStays(s: State, v: Vpn)
    ensures !Mapped(s, v) ==> Removed(s, v) == s
  {
  }

  // After the count went up: page_remove does not panic, and the entry stays
  // where pgdir_walk found it.
  lemma CountedRemoveSafe(s: State, o: Own, pp: nat, v: Vpn, w: Word)
    requires Inv(s, o) && Insertable(s, o, pp) && v.pdx < USERTOP && HasTable(s, v.pdx)
    ensures RemoveSafe(Counted(s, pp), v)
    ensures Mapped(Counted(s, pp), v) == Mapped(s, v)
    ensures var f, r := TableOf(s, v.pdx), Removed(Counted(s, pp), v);
            SetPte(r, v, w) == r.(mem := r.mem[f := r.mem[f][v.ptx := w]])
  {
    var s1 := Counted(s, pp);
    assert SameTables(s, s1);
    TablesCarry(s, s1);
    if Mapped(s, v) {
      MappedPage(s, o, v);
      RemovedReads(s1, v);
    }
    assert Pde(Removed(s1, v), v.pdx) == Pde(s, v.pdx);
  }

  class Machine {
    const ref: array<Count>
    const link: array<Option<nat>>
    const mem: array<Frame>
    const pgdir: nat
    var head: Option<nat>
    var tlb: map<Vpn, Xlat>

    ghost function Raw(): RawState
      reads this, ref, link, mem
    {
      RawState.State(ref[..], link[..], head, mem[..], pgdir, tlb)
    }

    ghost predicate WellFormed()
      reads this, ref, link, mem
    {
      Shaped(Raw())
    }

    ghost function St(): State
      requires WellFormed()
      reads this, ref, link, mem
    {
      Raw()
    }

    // The invariant, on a machine of any size.
    ghost predicate Sound(o: Own)
      reads this, ref, link, mem
    {
      WellFormed() && Inv(St(), o)
    }

    // Every page can be reached through its kernel address.
    predicate InReach()
      reads this, mem
    {
      mem.Length <= REACH
    }

    ghost predicate Valid(o: Own)
      reads this, ref, link, mem
    {
      Sound(o) && InReach()
    }

    // memset(page2kva(p), 0, PGSIZE), a word at a time.
    method ClearPage(p: nat)
      requires WellFormed() && p < mem.Length && p < REACH
      modifies mem
      ensures WellFormed() && St() == old(St()).(mem := old(St().mem)[p := ZeroFrame()])
    {
      for i := 0 to 1024
        invariant |mem[p]| == 1024
        invariant forall k :: 0 <= k < i ==> mem[p][k] == 0
        invariant forall q :: 0 <= q < mem.Length && q != p ==> mem[q] == old(mem[q])
      {
        mem[p] := mem[p][i := 0];
      }
      assert mem[p] == ZeroFrame();
      assert mem[..] == old(mem[..])[p := ZeroFrame()];
    }

    method PageAlloc(zero: bool) returns (r: Option<nat>)
      requires WellFormed() && (zero ==> InReach())
      modifies this, link, mem
      ensures WellFormed() && r == old(head)
      ensures St() == if r == None then old(St()) else Popped(old(St()), zero)
    {
      if head == None {
        return None;
      }
      r := head;
      head := link[r.value];
      link[r.value] := None;
      if zero {
        ClearPage(r.value);
      }
    }

    method PageFree(p: nat)
      requires WellFormed() && p < mem.Length && !FreePanics(St(), p)
      modifies this`head, link
      ensures WellFormed() && St() == Pushed(old(St()), p)
    {
      link[p] := head;
      head := Some(p);
    }

    method PageDecref(p: nat)
      requires WellFormed() && p < mem.Length && !DecrefPanics(St(), p)
      modifies this`head, ref, link
      ensures WellFormed() && St() == Released(old(St()), p)
    {
      ref[p] := Dec16(ref[p]);
      if ref[p] == 0 {
        PageFree(p);
      }
    }

    method PgdirWalk(va: Word, create: bool) returns (pte: Option<Ptr>)
      requires WellFormed() && InReach() && !KaddrPanics(St(), Pdx(va))
      modifies this, ref, link, mem
      ensures WellFormed()
      ensures WalkFails(old(St()), Pdx(va), create) ==> pte == None && St() == old(St())
      ensures !WalkFails(old(St()), Pdx(va), create) ==>
                && St() == Walked(old(St()), Pdx(va))
                && pte == Some(Ptr(TableOf(St(), Pdx(va)), Ptx(va)))
    {
      var d := Pdx(va);
      if !Present(mem[pgdir][d]) {
        if !create {
          return None;
        }
        var table := PageAlloc(true);
        if table == None {
          return None;
        }
        var p := table.value;
        ref[p] := Inc16(ref[p]);
        link[p] := None;
        mem[pgdir] := mem[pgdir][d := Pack(p, 7)];
      }
      var pgtab := Ppn(mem[pgdir][d]);
      pte := Some(Ptr(pgtab, Ptx(va)));
    }

    method TlbInvalidate(va: Word)
      requires WellFormed()
      modifies this`tlb
      ensures WellFormed() && St() == old(St()).(tlb := old(tlb) - {VpnOf(va)})
    {
      tlb := tlb - {VpnOf(va)};
    }

    // lcr3(PADDR(kern_pgdir)) when that directory is the one in memory already
    // modelled: the TLB is emptied.
    method LoadCr3()
      requires WellFormed()
      modifies this`tlb
      ensures WellFormed() && St() == old(St()).(tlb := map[])
    {
      tlb := map[];
    }

    method PageRemove(va: Word)
      requires WellFormed() && InReach() && RemoveSafe(St(), VpnOf(va))
      modifies this, ref, link, mem
      ensures WellFormed() && St() == Removed(old(St()), VpnOf(va))
    {
      var pte := PgdirWalk(va, false);
      if pte == None {
        return;
      }
      var f, i := pte.value.frame, pte.value.index;
      if Present(mem[f][i]) {
        var page := Ppn(mem[f][i]);
        PageDecref(page);
        mem[f] := mem[f][i := 0];
        TlbInvalidate(va);
      }
    }

    // Returns the page and the pointer stored through pte_store.
    method PageLookup(va: Word) returns (pp: Option<nat>, store: Option<Ptr>)
      requires WellFormed() && InReach() && !KaddrPanics(St(), Pdx(va))
      requires HasTable(St(), Pdx(va)) ==> Ppn(Pte(St(), VpnOf(va))) < NPages(St())
      modifies this, ref, link, mem
      ensures WellFormed() && St() == old(St())
      ensures pp == Lookup(St(), VpnOf(va))
      ensures pp.Some? ==> store == Some(Ptr(TableOf(St(), Pdx(va)), Ptx(va)))
    {
      store := PgdirWalk(va, false);
      if store == None {
        return None, None;
      }
      pp := Some(Ppn(mem[store.value.frame][store.value.index]));
    }

    // For any page, also a listed one, and any address, also above UTOP.
    method PageInsert(pp: nat, va: Word, perm: Flags) returns (rc: int)
      requires WellFormed() && InReach() && InsertSafe(St(), pp, VpnOf(va))
      modifies this, ref, link, mem
      ensures WellFormed()
      ensures rc == if InsertFails(old(St()), VpnOf(va)) then -E_NO_MEM else 0
      ensures rc != 0 ==> St() == old(St())
      ensures rc == 0 ==> St() == AfterInsert(old(St()), pp, VpnOf(va), perm)
    {
      ghost var v := VpnOf(va);
      WalkedTable(St(), v.pdx);
      var pte := PgdirWalk(va, true);
      if pte == None {
        return -E_NO_MEM;
      }
      ghost var s1 := St();
      var f, i := pte.value.frame, pte.value.index;
      EntryAt(s1, v, pp);
      assert Mapped(Counted(s1, pp), v) == Present(mem[f][i]);
      hide Walked, Removed, SetPte, Pte, Pde, Mapped, RemoveSafe, TableOf, WithPresent, Pack, InsertFails;
      ref[pp] := Inc16(ref[pp]);
      assert St() == Counted(s1, pp);
      if Present(mem[f][i]) {
        PageRemove(va);
      }
      mem[f] := mem[f][i := Pack(pp, WithPresent(perm))];
      return 0;
    }
  }
}
