// A machine of two pages on which page_lookup does not do what it documents.
module Examples {
  import opened Mmu
  import opened PageState
  import opened PageTables
  import opened PageInit

  function DirectoryFrame(): (f: Frame)
    ensures f[SELF] == Pack(0, 5) && forall i :: 0 <= i < 1024 && i != SELF ==> f[i] == 0
  {
    ZeroFrame()[SELF := Pack(0, 5)]
  }

  // Page 0 is the directory, page 1 is free.
  function TwoPages(): State
  {
    State.State([1, 0], [None, None], Some(1), [DirectoryFrame(), ZeroFrame()], 0, map[])
  }

  lemma TwoPagesValid()
    ensures Inv(TwoPages(), Own([1], [], {0}))
  {
    var s, o := TwoPages(), Own([1], [], {0});
    assert forall d: Index :: d != SELF ==> Pde(s, d) == 0;
    EmptyTablesValid(s);
    NothingNamed(s);
    hide TablesValid, Pde, Pte;
    assert Successor([1], 0) == None;
    assert ListsValid(s, o);
    assert CountsValid(s, o);
  }

  // In any valid state, once pgdir_walk has built a table, page_lookup returns
  // page 0 for every address of it that is not mapped ...
  lemma LookupAfterWalk(s: State, o: Own, v: Vpn)
    requires Inv(s, o) && v.pdx < USERTOP && !Present(Pde(s, v.pdx)) && s.head.Some?
    ensures Inv(Walked(s, v.pdx), OwnWalked(s, o, v.pdx)) && HasTable(Walked(s, v.pdx), v.pdx)
    ensures !Mapped(Walked(s, v.pdx), v) && Lookup(Walked(s, v.pdx), v) == Some(0)
  {
    hide Inv, Walked, OwnWalked, Pde, WalkFails, MapsPage;
    AbsentReads(s, v);
    WalkedKeepsInv(s, o, v.pdx);
    LookupIsMappingIff(Walked(s, v.pdx), OwnWalked(s, o, v.pdx), v);
  }

  lemma AbsentReads(s: State, v: Vpn)
    requires !Present(Pde(s, v.pdx))
    ensures Pte(s, v) == 0 && (s.head.Some? ==> !WalkFails(s, v.pdx, true))
  {
  }

  // ... and there is such a state.
  lemma LookupReturnsPageZero() returns (s: State, o: Own, v: Vpn)
    ensures Inv(s, o) && v.pdx < USERTOP && HasTable(s, v.pdx) && !Mapped(s, v)
    ensures Lookup(s, v) == Some(0)
  {
    TwoPagesValid();
    v := Vpn(0, 5);
    s, o := Walked(TwoPages(), 0), OwnWalked(TwoPages(), Own([1], [], {0}), 0);
    LookupAfterWalk(TwoPages(), Own([1], [], {0}), v);
  }
}
