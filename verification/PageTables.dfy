// pgdir_walk, page_lookup, page_remove and page_insert of kern/pmap.c as
// functions on states, and what they keep and change.
module PageTables {
  import opened Mmu
  import opened PageState
  import opened Allocator

  // ---------- pgdir_walk ----------

  predicate WalkFails(s: State, d: Index, create: bool)
  {
    !Present(Pde(s, d)) && (!create || s.head == None)
  }

  // A cleared page becomes the table for directory entry d.
  function NewTable(s: State, d: Index): State
    requires s.head.Some?
  {
    var p := s.head.value;
    var s1 := Popped(s, true);
    var dir := s1.mem[s.pgdir][d := Pack(p, 7)];
    s1.(refs := s1.refs[p := Inc16(s1.refs[p])], mem := s1.mem[s.pgdir := dir])
  }

  function Walked(s: State, d: Index): State
    requires !WalkFails(s, d, true)
  {
    if Present(Pde(s, d)) then s else NewTable(s, d)
  }

  ghost function OwnWalked(s: State, o: Own, d: Index): Own
  {
    if Present(Pde(s, d)) || o.free == [] then o else o.(free := o.free[1..])
  }

  lemma NewTableReads(s: State, o: Own, d: Index)
    requires Inv(s, o) && d != SELF && !Present(Pde(s, d)) && s.head.Some?
    ensures var s' := NewTable(s, d);
            && (forall e: Index :: Pde(s', e) == if e == d then Pack(s.head.value, 7) else Pde(s, e))
            && (forall v: Vpn :: v.pdx != SELF ==> Pte(s', v) == Pte(s, v))
  {
    var p, s1, s' := s.head.value, Popped(s, true), NewTable(s, d);
    AllocKeepsInv(s, o, true);
    FreePageIsNoTable(s, o, p);
    assert s'.mem[p] == ZeroFrame();
    forall e: Index ensures Pde(s', e) == if e == d then Pack(p, 7) else Pde(s, e) {
      assert Pde(s1, e) == Pde(s, e);
    }
    forall v: Vpn | v.pdx != SELF ensures Pte(s', v) == Pte(s, v) {
      assert Pde(s', v.pdx) == if v.pdx == d then Pack(p, 7) else Pde(s, v.pdx);
      assert Pte(s1, v) == Pte(s, v);
    }
  }

  lemma NewTableTargets(s: State, o: Own, d: Index)
    requires Inv(s, o) && d != SELF && !Present(Pde(s, d)) && s.head.Some?
    ensures var s' := NewTable(s, d);
            forall x :: Target(s', x) == if x == Dir(d) then s.head else Target(s, x)
  {
    NewTableReads(s, o, d);
  }

  lemma NewTableCounts(s: State, o: Own, d: Index)
    requires Inv(s, o) && d != SELF && !Present(Pde(s, d)) && s.head.Some?
    ensures CountsValid(NewTable(s, d), OwnWalked(s, o, d))
  {
    var s' := NewTable(s, d);
    NewTableTargets(s, o, d);
    AllocKeepsInv(s, o, true);
    forall p: nat | p < |s.refs| ensures |NamedBy(s', p)| == |NamedBy(s, p)| + if Some(p) == s.head then 1 else 0 {
      Retarget(s, s', Dir(d), p);
    }
  }

  lemma NewTableTables(s: State, o: Own, d: Index)
    requires Inv(s, o) && d != SELF && !Present(Pde(s, d)) && s.head.Some?
    ensures TablesValid(NewTable(s, d))
  {
    NewTableReads(s, o, d);
    FreePageIsNoTable(s, o, o.free[0]);
  }

  lemma NewTableLists(s: State, o: Own, d: Index)
    requires ListsValid(s, o) && s.head.Some? && !Present(Pde(s, d))
    ensures ListsValid(NewTable(s, d), OwnWalked(s, o, d))
  {
    PoppedLists(s, o, true);
    assert forall i :: 0 < i < |o.free| ==> o.free[i] != o.free[0];
  }

  lemma NewTableTranslations(s: State, o: Own, d: Index)
    requires Inv(s, o) && d != SELF && !Present(Pde(s, d)) && s.head.Some?
    ensures forall v: Vpn :: v.pdx != SELF || Mapped(s, v) ==> Translate(NewTable(s, d), v) == Translate(s, v)
  {
    NewTableReads(s, o, d);
  }

  // Building a page table keeps the invariant and changes no translation
  // outside the self-map window; in the window it adds the new table's page.
  lemma NewTableKeepsInv(s: State, o: Own, d: Index)
    requires Inv(s, o) && d != SELF && !Present(Pde(s, d)) && s.head.Some?
    ensures Inv(NewTable(s, d), OwnWalked(s, o, d))
    ensures Space(NewTable(s, d)) == Space(s)
  {
    NewTableTables(s, o, d);
    NewTableCounts(s, o, d);
    NewTableLists(s, o, d);
    NewTableTranslations(s, o, d);
    SpaceCarry(s, NewTable(s, d));
  }

  // ---------- writing one page-table entry ----------

  function SetPte(s: State, v: Vpn, w: Word): State
  {
    if !HasTable(s, v.pdx) then s
    else
      var t := TableOf(s, v.pdx);
      s.(mem := s.mem[t := s.mem[t][v.ptx := w]])
  }

  lemma SetPteReads(s: State, v: Vpn, w: Word)
    requires TablesValid(s) && HasTable(s, v.pdx) && v.pdx != SELF
    ensures var s' := SetPte(s, v, w);
            && (forall d: Index :: Pde(s', d) == Pde(s, d))
            && (forall u: Vpn :: Pte(s', u) == if u == v then w else Pte(s, u))
  {
    var s' := SetPte(s, v, w);
    assert forall d: Index :: Pde(s', d) == Pde(s, d);
    forall u: Vpn ensures Pte(s', u) == if u == v then w else Pte(s, u) {
      if u.pdx == v.pdx && u.ptx == v.ptx {
        assert u == v;
      }
    }
  }

  // The page an entry word names, for the reference count.
  function Names(w: Word, p: nat): nat { if Present(w) && Ppn(w) == p then 1 else 0 }

  // s' is s with v's entry set to w, the counts moved accordingly, and at
  // least v's own translation gone from the TLB.
  ghost predicate Rewritten(s: State, s': State, v: Vpn, w: Word)
  {
    && HasTable(s, v.pdx)
    && s' == SetPte(s, v, w).(refs := s'.refs, tlb := s.tlb - {v})
    && |s'.refs| == |s.refs|
    && forall p :: 0 <= p < |s.refs| ==> s'.refs[p] + Names(Pte(s, v), p) == s.refs[p] + Names(w, p)
  }

  ghost predicate Storable(s: State, o: Own, w: Word)
  {
    w == 0 || (Present(w) && Ppn(w) < NPages(s) && Ppn(w) !in o.free && Ppn(w) !in o.held)
  }

  lemma RewrittenTables(s: State, o: Own, s': State, v: Vpn, w: Word)
    requires TablesValid(s) && v.pdx < USERTOP && Rewritten(s, s', v, w) && Storable(s, o, w)
    ensures TablesValid(s')
    ensures forall d: Index :: Pde(s', d) == Pde(s, d)
    ensures forall u: Vpn :: Pte(s', u) == if u == v then w else Pte(s, u)
  {
    SetPteReads(s, v, w);
    assert forall d: Index :: Pde(s', d) == Pde(SetPte(s, v, w), d);
    assert forall u: Vpn :: Pte(s', u) == Pte(SetPte(s, v, w), u);
  }

  lemma RewrittenCounts(s: State, o: Own, s': State, v: Vpn, w: Word)
    requires Inv(s, o) && v.pdx < USERTOP && Rewritten(s, s', v, w) && Storable(s, o, w)
    ensures CountsValid(s', o)
  {
    RewrittenTables(s, o, s', v, w);
    forall p: nat | p < |s.refs|
      ensures |NamedBy(s', p)| + Names(Pte(s, v), p) == |NamedBy(s, p)| + Names(w, p)
    {
      assert forall x :: x != Ent(v) ==> Target(s', x) == Target(s, x);
      Retarget(s, s', Ent(v), p);
    }
  }

  lemma RewrittenLists(s: State, o: Own, s': State, v: Vpn, w: Word)
    requires Inv(s, o) && v.pdx < USERTOP && Rewritten(s, s', v, w) && Storable(s, o, w)
    ensures ListsValid(s', o)
  {
    forall p | p in o.free || p in o.held ensures p < |s.refs| && s'.refs[p] == 0 {
      assert s'.refs[p] + Names(Pte(s, v), p) == s.refs[p] + Names(w, p);
    }
  }

  lemma RewrittenTlb(s: State, o: Own, s': State, v: Vpn, w: Word)
    requires TablesValid(s) && TlbValid(s) && v.pdx < USERTOP && Rewritten(s, s', v, w) && Storable(s, o, w)
    ensures TlbValid(s')
  {
    RewrittenTables(s, o, s', v, w);
    assert s'.tlb == s.tlb - {v};
    hide TablesValid, Pte, Pde, Rewritten, Storable;
    forall u | u in s'.tlb ensures Translate(s', u) == Translate(s, u) {
    }
  }

  // Setting one entry below UTOP, with its counts and its TLB entry, keeps the
  // invariant.
  lemma RewrittenKeepsInv(s: State, o: Own, s': State, v: Vpn, w: Word)
    requires Inv(s, o) && v.pdx < USERTOP && Rewritten(s, s', v, w) && Storable(s, o, w)
    ensures Inv(s', o)
  {
    RewrittenTables(s, o, s', v, w);
    RewrittenCounts(s, o, s', v, w);
    RewrittenLists(s, o, s', v, w);
    RewrittenTlb(s, o, s', v, w);
  }

  // ---------- page_remove ----------

  // The page mapped at v, when v is mapped to a page that exists.
  predicate MapsPage(s: State, v: Vpn)
  {
    Mapped(s, v) && Ppn(Pte(s, v)) < NPages(s)
  }

  // Clearing v's entry, with the count of the page it named.
  function Cleared(s: State, v: Vpn): State
    requires MapsPage(s, v)
  {
    var q := Ppn(Pte(s, v));
    SetPte(s, v, 0).(refs := s.refs[q := Dec16(s.refs[q])], tlb := s.tlb - {v})
  }

  // page_remove: clear the entry and free a page left without references; an
  // unmapped v is left alone.
  function Removed(s: State, v: Vpn): State
  {
    if !MapsPage(s, v) then s
    else
      var q, s1 := Ppn(Pte(s, v)), Cleared(s, v);
      if s1.refs[q] == 0 then Pushed(s1, q) else s1
  }

  ghost function OwnRemoved(s: State, o: Own, v: Vpn): Own
  {
    if MapsPage(s, v) && s.refs[Ppn(Pte(s, v))] == 1 then o.(free := [Ppn(Pte(s, v))] + o.free) else o
  }

  lemma MappedPage(s: State, o: Own, v: Vpn)
    requires Inv(s, o) && v.pdx < USERTOP && Mapped(s, v)
    ensures var q := Ppn(Pte(s, v));
            && q < NPages(s) && s.refs[q] >= 1
            && q !in o.free && q !in o.held && s.links[q] == None
            && !DecrefPanics(s, q)
  {
    NamedHasRef(s, o, Ent(v), Ppn(Pte(s, v)));
  }

  lemma ClearedKeepsInv(s: State, o: Own, v: Vpn)
    requires Inv(s, o) && v.pdx < USERTOP && MapsPage(s, v)
    ensures Inv(Cleared(s, v), o)
  {
    MappedPage(s, o, v);
    RewrittenKeepsInv(s, o, Cleared(s, v), v, 0);
  }

  lemma RemovedReads(s: State, v: Vpn)
    requires TablesValid(s) && v.pdx < USERTOP && MapsPage(s, v)
    ensures forall d: Index :: Pde(Removed(s, v), d) == Pde(s, d)
    ensures forall u: Vpn :: Pte(Removed(s, v), u) == if u == v then 0 else Pte(s, u)
  {
    SetPteReads(s, v, 0);
    var s1, s2 := SetPte(s, v, 0), Removed(s, v);
    assert forall d: Index :: Pde(s2, d) == Pde(s1, d);
    assert forall u: Vpn :: Pte(s2, u) == Pte(s1, u);
  }

  // page_remove keeps the invariant (so every count stays right), cannot panic,
  // and frees the page precisely when v held its last reference.
  lemma RemoveKeepsInv(s: State, o: Own, v: Vpn)
    requires Inv(s, o) && v.pdx < USERTOP && Mapped(s, v)
    ensures MapsPage(s, v) && !DecrefPanics(s, Ppn(Pte(s, v)))
    ensures Inv(Removed(s, v), OwnRemoved(s, o, v))
  {
    var q := Ppn(Pte(s, v));
    MappedPage(s, o, v);
    var s1 := Cleared(s, v);
    ClearedKeepsInv(s, o, v);
    if s1.refs[q] == 0 {
      FreeKeepsInv(s1, o, q);
    }
  }

  // ---------- page_insert ----------

  // Entering a page at an unmapped v.
  function Granted(s: State, pp: nat, v: Vpn, w: Word): State
    requires pp < NPages(s)
  {
    SetPte(s, v, w).(refs := s.refs[pp := Inc16(s.refs[pp])])
  }

  // The net effect of page_insert once the page table exists: entering a page
  // where it already is only changes the permissions; any other page there is
  // removed first.
  function Installed(s: State, pp: nat, v: Vpn, perm: Flags): State
    requires pp < NPages(s)
  {
    var w := Pack(pp, WithPresent(perm));
    if !Mapped(s, v) then Granted(s, pp, v, w)
    else if Ppn(Pte(s, v)) == pp then SetPte(s, v, w).(tlb := s.tlb - {v})
    else Granted(Removed(s, v), pp, v, w)
  }

  ghost function OwnInstalled(s: State, o: Own, pp: nat, v: Vpn): Own
  {
    if Mapped(s, v) && Ppn(Pte(s, v)) != pp then OwnRemoved(s, o, v) else o
  }

  // The caller may hand page_insert any page that is not on a list.
  ghost predicate Insertable(s: State, o: Own, pp: nat)
  {
    pp < NPages(s) && pp !in o.free && pp !in o.held
  }

  // The insertion needs one more reference than the counter can hold.
  predicate Overflows(s: State, pp: nat, v: Vpn)
    requires pp < NPages(s)
  {
    s.refs[pp] == MAXREF && !(Mapped(s, v) && Ppn(Pte(s, v)) == pp)
  }

  lemma GrantedKeepsInv(s: State, o: Own, pp: nat, v: Vpn, flags: Flags)
    requires Inv(s, o) && Insertable(s, o, pp) && flags % 2 == 1
    requires v.pdx < USERTOP && HasTable(s, v.pdx) && !Mapped(s, v) && s.refs[pp] < MAXREF
    ensures Inv(Granted(s, pp, v, Pack(pp, flags)), o)
  {
    var w := Pack(pp, flags);
    assert Translate(s, v) == None;
    assert v !in s.tlb && s.tlb - {v} == s.tlb;
    RewrittenKeepsInv(s, o, Granted(s, pp, v, w), v, w);
  }

  lemma GrantedReads(s: State, pp: nat, v: Vpn, w: Word)
    requires TablesValid(s) && v.pdx < USERTOP && HasTable(s, v.pdx) && pp < NPages(s)
    ensures forall d: Index :: Pde(Granted(s, pp, v, w), d) == Pde(s, d)
    ensures forall u: Vpn :: Pte(Granted(s, pp, v, w), u) == if u == v then w else Pte(s, u)
  {
    SetPteReads(s, v, w);
    var s1, s2 := SetPte(s, v, w), Granted(s, pp, v, w);
    assert forall d: Index :: Pde(s2, d) == Pde(s1, d);
    assert forall u: Vpn :: Pte(s2, u) == Pte(s1, u);
  }

  // At 65535 references the counter wraps to zero: no bookkeeping makes the
  // resulting state valid.
  lemma GrantedWraps(s: State, o: Own, pp: nat, v: Vpn, flags: Flags, o': Own)
    requires Inv(s, o) && Insertable(s, o, pp) && flags % 2 == 1
    requires v.pdx < USERTOP && HasTable(s, v.pdx) && s.refs[pp] == MAXREF
    ensures !CountsValid(Granted(s, pp, v, Pack(pp, flags)), o')
  {
    var s' := Granted(s, pp, v, Pack(pp, flags));
    GrantedReads(s, pp, v, Pack(pp, flags));
    assert Target(s', Ent(v)) == Some(pp) && s'.refs[pp] == 0;
    if CountsValid(s', o') {
      NamedHasRef(s', o', Ent(v), pp);
    }
  }

  lemma RepermittedKeepsInv(s: State, o: Own, pp: nat, v: Vpn, perm: Flags)
    requires Inv(s, o) && v.pdx < USERTOP && Mapped(s, v) && Ppn(Pte(s, v)) == pp < NPages(s)
    ensures Inv(Installed(s, pp, v, perm), o)
  {
    hide ListsValid, TablesValid, CountsValid, TlbValid;
    MappedPage(s, o, v);
    var w := Pack(pp, WithPresent(perm));
    assert Rewritten(s, Installed(s, pp, v, perm), v, w) by {
      hide Pte, SetPte, Pack, WithPresent;
    }
    assert Storable(s, o, w);
    hide Rewritten, Storable, Installed;
    RewrittenKeepsInv(s, o, Installed(s, pp, v, perm), v, w);
  }

  lemma MappedNamesPage(s: State, v: Vpn)
    requires TablesValid(s) && v.pdx < USERTOP && Mapped(s, v)
    ensures MapsPage(s, v) && HasTable(s, v.pdx)
  {
  }

  lemma InstalledReads(s: State, pp: nat, v: Vpn, perm: Flags)
    requires TablesValid(s) && v.pdx < USERTOP && HasTable(s, v.pdx) && pp < NPages(s)
    ensures NPages(Installed(s, pp, v, perm)) == NPages(s)
    ensures forall d: Index :: Pde(Installed(s, pp, v, perm), d) == Pde(s, d)
    ensures forall u: Vpn ::
              Pte(Installed(s, pp, v, perm), u) == if u == v then Pack(pp, WithPresent(perm)) else Pte(s, u)
  {
    var w := Pack(pp, WithPresent(perm));
    if !Mapped(s, v) {
      GrantedReads(s, pp, v, w);
    } else if Ppn(Pte(s, v)) == pp {
      SetPteReads(s, v, w);
      var s1, s2 := SetPte(s, v, w), Installed(s, pp, v, perm);
      assert forall d: Index :: Pde(s2, d) == Pde(s1, d);
      assert forall u: Vpn :: Pte(s2, u) == Pte(s1, u);
    } else {
      MappedNamesPage(s, v);
      RemovedReads(s, v);
      var s1 := Removed(s, v);
      RemovedTables(s, v);
      GrantedReads(s1, pp, v, w);
    }
  }

  lemma RemovedTables(s: State, v: Vpn)
    requires TablesValid(s) && v.pdx < USERTOP && MapsPage(s, v)
    ensures TablesValid(Removed(s, v)) && HasTable(Removed(s, v), v.pdx)
  {
    RemovedReads(s, v);
    var s' := Removed(s, v);
    assert Pde(s', v.pdx) == Pde(s, v.pdx);
  }

  lemma ReplacedKeepsInv(s: State, o: Own, pp: nat, v: Vpn, flags: Flags)
    requires Inv(s, o) && Insertable(s, o, pp) && flags % 2 == 1 && s.refs[pp] < MAXREF
    requires v.pdx < USERTOP && MapsPage(s, v) && Ppn(Pte(s, v)) != pp
    ensures Inv(Granted(Removed(s, v), pp, v, Pack(pp, flags)), OwnRemoved(s, o, v))
  {
    hide ListsValid, TablesValid, CountsValid, TlbValid;
    RemoveKeepsInv(s, o, v);
    RemovedTables(s, v);
    assert !Mapped(Removed(s, v), v) by { RemovedReads(s, v); }
    assert Insertable(Removed(s, v), OwnRemoved(s, o, v), pp);
    GrantedKeepsInv(Removed(s, v), OwnRemoved(s, o, v), pp, v, flags);
  }

  lemma ReplacedWraps(s: State, o: Own, pp: nat, v: Vpn, flags: Flags, o': Own)
    requires Inv(s, o) && Insertable(s, o, pp) && flags % 2 == 1 && s.refs[pp] == MAXREF
    requires v.pdx < USERTOP && MapsPage(s, v) && Ppn(Pte(s, v)) != pp
    ensures !CountsValid(Granted(Removed(s, v), pp, v, Pack(pp, flags)), o')
  {
    RemoveKeepsInv(s, o, v);
    RemovedTables(s, v);
    GrantedWraps(Removed(s, v), OwnRemoved(s, o, v), pp, v, flags, o');
  }

  // With the page table in place, page_insert keeps the invariant exactly when
  // the 16-bit count does not overflow.
  lemma InstallKeepsInvIff(s: State, o: Own, pp: nat, v: Vpn, perm: Flags)
    requires Inv(s, o) && Insertable(s, o, pp) && v.pdx < USERTOP && HasTable(s, v.pdx)
    ensures !Overflows(s, pp, v) ==> Inv(Installed(s, pp, v, perm), OwnInstalled(s, o, pp, v))
    ensures Overflows(s, pp, v) ==> forall o' :: !CountsValid(Installed(s, pp, v, perm), o')
  {
    var flags := WithPresent(perm);
    var w := Pack(pp, flags);
    if Mapped(s, v) {
      MappedNamesPage(s, v);
      if Ppn(Pte(s, v)) == pp {
        RepermittedKeepsInv(s, o, pp, v, perm);
      } else if s.refs[pp] < MAXREF {
        ReplacedKeepsInv(s, o, pp, v, flags);
      } else {
        forall o' ensures !CountsValid(Granted(Removed(s, v), pp, v, w), o') { ReplacedWraps(s, o, pp, v, flags, o'); }
      }
    } else if s.refs[pp] < MAXREF {
      GrantedKeepsInv(s, o, pp, v, flags);
    } else {
      forall o' ensures !CountsValid(Granted(s, pp, v, w), o') { GrantedWraps(s, o, pp, v, flags, o'); }
    }
  }

  // ---------- the whole of page_insert ----------

  predicate InsertFails(s: State, v: Vpn) { WalkFails(s, v.pdx, true) }

  lemma WalkedKeepsInv(s: State, o: Own, d: Index)
    requires Inv(s, o) && !WalkFails(s, d, true)
    ensures Inv(Walked(s, d), OwnWalked(s, o, d)) && HasTable(Walked(s, d), d)
    ensures Space(Walked(s, d)) == Space(s)
    ensures forall v: Vpn :: v.pdx != SELF ==> Pte(Walked(s, d), v) == Pte(s, v)
    ensures forall e: Index :: e != d ==> Pde(Walked(s, d), e) == Pde(s, e)
  {
    if !Present(Pde(s, d)) {
      NewTableKeepsInv(s, o, d);
      NewTableReads(s, o, d);
    }
  }

  // page_insert when it returns 0.
  function Inserted(s: State, pp: nat, v: Vpn, perm: Flags): State
    requires pp < NPages(s) && !InsertFails(s, v)
  {
    Installed(Walked(s, v.pdx), pp, v, perm)
  }

  ghost function OwnInserted(s: State, o: Own, pp: nat, v: Vpn): Own
    requires !InsertFails(s, v)
  {
    OwnInstalled(Walked(s, v.pdx), OwnWalked(s, o, v.pdx), pp, v)
  }

  lemma WalkedInsertable(s: State, o: Own, pp: nat, v: Vpn)
    requires Inv(s, o) && Insertable(s, o, pp) && v.pdx < USERTOP && !InsertFails(s, v)
    ensures Insertable(Walked(s, v.pdx), OwnWalked(s, o, v.pdx), pp)
    ensures Overflows(Walked(s, v.pdx), pp, v) <==> Overflows(s, pp, v)
  {
    WalkedKeepsInv(s, o, v.pdx);
    assert Pte(Walked(s, v.pdx), v) == Pte(s, v);
    if !Present(Pde(s, v.pdx)) {
      assert s.head.value == o.free[0];
    }
  }

  // page_insert keeps the whole invariant (lists, tables, reference counts and
  // TLB) exactly when the page's 16-bit count has room, for every page, address
  // and permission, also when it re-enters a page where it already is.
  lemma InsertKeepsInvIff(s: State, o: Own, pp: nat, v: Vpn, perm: Flags)
    requires Inv(s, o) && Insertable(s, o, pp) && v.pdx < USERTOP && !InsertFails(s, v)
    ensures !Overflows(s, pp, v) ==> Inv(Inserted(s, pp, v, perm), OwnInserted(s, o, pp, v))
    ensures Overflows(s, pp, v) ==> forall o' :: !Inv(Inserted(s, pp, v, perm), o')
  {
    WalkedKeepsInv(s, o, v.pdx);
    WalkedInsertable(s, o, pp, v);
    InstallKeepsInvIff(Walked(s, v.pdx), OwnWalked(s, o, v.pdx), pp, v, perm);
  }

  // What page_insert does to the counts: one more for the new entry, one less
  // for the old one, one for a new table.
  lemma InsertedRefs(s: State, o: Own, pp: nat, v: Vpn, perm: Flags, p: nat)
    requires Inv(s, o) && Insertable(s, o, pp) && v.pdx < USERTOP && HasTable(s, v.pdx) && !Overflows(s, pp, v)
    requires p < NPages(s)
    ensures Installed(s, pp, v, perm).refs[p] + Names(Pte(s, v), p) == s.refs[p] + Names(Pack(pp, WithPresent(perm)), p)
  {
    hide Inv, Installed, Removed, Pte, Pack, Ppn, FlagsOf;
    InstalledRefs(s, pp, v, perm);
    if Mapped(s, v) {
      MappedPage(s, o, v);
      RemovedRefs(s, v);
    }
  }

  lemma RemovedRefs(s: State, v: Vpn)
    requires MapsPage(s, v)
    ensures var q := Ppn(Pte(s, v)); Removed(s, v).refs == s.refs[q := Dec16(s.refs[q])]
  {
    hide Pte, Ppn;
  }

  lemma InstalledRefs(s: State, pp: nat, v: Vpn, perm: Flags)
    requires pp < NPages(s)
    ensures NPages(Removed(s, v)) == NPages(s) && NPages(Installed(s, pp, v, perm)) == NPages(s)
    ensures var q, t := Ppn(Pte(s, v)), Removed(s, v).refs;
            Installed(s, pp, v, perm).refs ==
              if !Mapped(s, v) then s.refs[pp := Inc16(s.refs[pp])] else if q == pp then s.refs else t[pp := Inc16(t[pp])]
  {
    hide Pte, Ppn, Pack, WithPresent;
  }

  // ---------- refinement of the abstract address space ----------

  lemma SpaceAt(s: State, v: Vpn)
    ensures v in Space(s) <==> v.pdx != SELF && Mapped(s, v)
    ensures v in Space(s) ==> Some(Space(s)[v]) == Translate(s, v)
  {
    EveryVpn(v);
  }

  lemma SpaceUpdate(s: State, s': State, v: Vpn)
    requires v.pdx != SELF
    requires forall d: Index :: Pde(s', d) == Pde(s, d)
    requires forall u: Vpn :: u != v ==> Pte(s', u) == Pte(s, u)
    ensures Space(s') == match Translate(s', v) case None => Space(s) - {v} case Some(x) => Space(s)[v := x]
  {
    forall u: Vpn
      ensures u in Space(s') <==> if u == v then Mapped(s', v) else u in Space(s)
      ensures u in Space(s') ==> Some(Space(s')[u]) == Translate(s', u)
      ensures u in Space(s) ==> Some(Space(s)[u]) == Translate(s, u)
      ensures u != v ==> Translate(s', u) == Translate(s, u)
    {
      SpaceAt(s, u); SpaceAt(s', u);
    }
    hide Space;
  }

  lemma InstallRefines(s: State, pp: nat, v: Vpn, perm: Flags)
    requires TablesValid(s) && v.pdx < USERTOP && HasTable(s, v.pdx) && pp < NPages(s)
    ensures Space(Installed(s, pp, v, perm)) == Space(s)[v := Xlat(pp, perm / 2 % 2 == 1, perm / 4 % 2 == 1)]
  {
    hide TablesValid, Installed, Space, Pte, Translate;
    var s' := Installed(s, pp, v, perm);
    InstalledReads(s, pp, v, perm);
    assert Translate(s', v) == Some(Xlat(pp, perm / 2 % 2 == 1, perm / 4 % 2 == 1)) by {
      TableFlags(s, v.pdx);
      assert Pde(s', v.pdx) == Pde(s, v.pdx);
      InsertedRights(s', v, pp, perm);
    }
    SpaceUpdate(s, s', v);
  }

  // page_insert maps v to the page with exactly the requested rights and leaves
  // every other translation alone, also when a new table had to be built or the
  // page displaced from v was freed.
  lemma InsertRefines(s: State, o: Own, pp: nat, v: Vpn, perm: Flags)
    requires Inv(s, o) && Insertable(s, o, pp) && v.pdx < USERTOP && !InsertFails(s, v)
    ensures Space(Inserted(s, pp, v, perm)) == Space(s)[v := Xlat(pp, perm / 2 % 2 == 1, perm / 4 % 2 == 1)]
  {
    hide ListsValid, TablesValid, CountsValid, TlbValid, Installed, Walked, Space;
    WalkedKeepsInv(s, o, v.pdx);
    WalkedInsertable(s, o, pp, v);
    InstallRefines(Walked(s, v.pdx), pp, v, perm);
  }

  lemma TableFlags(s: State, d: Index)
    requires TablesValid(s) && HasTable(s, d) && d != SELF
    ensures FlagsOf(Pde(s, d)) == 7
  {
  }

  lemma InsertedRights(s: State, v: Vpn, pp: nat, perm: Flags)
    requires pp < NPages(s) && HasTable(s, v.pdx) && FlagsOf(Pde(s, v.pdx)) == 7
    requires Pte(s, v) == Pack(pp, WithPresent(perm))
    ensures Translate(s, v) == Some(Xlat(pp, perm / 2 % 2 == 1, perm / 4 % 2 == 1))
  {
    hide Pack, WithPresent, Ppn, FlagsOf, Pde;
  }

  // page_remove unmaps exactly v.
  lemma RemoveRefines(s: State, o: Own, v: Vpn)
    requires Inv(s, o) && v.pdx < USERTOP && MapsPage(s, v)
    ensures Space(Removed(s, v)) == Space(s) - {v}
  {
    hide ListsValid, TablesValid, CountsValid, TlbValid, Removed, Space;
    RemovedReads(s, v);
    hide Pde, Pte;
    SpaceUpdate(s, Removed(s, v), v);
  }

  // ---------- the order of page_insert's steps ----------

  function Counted(s: State, pp: nat): State
    requires pp < NPages(s)
  {
    s.(refs := s.refs[pp := Inc16(s.refs[pp])])
  }

  // The order of page_insert's steps: the count goes up before the old page is
  // removed, so that re-entering a page does not free it in between.
  function InsertSteps(s: State, pp: nat, v: Vpn, w: Word): State
    requires pp < NPages(s)
  {
    SetPte(Removed(Counted(s, pp), v), v, w)
  }

  lemma SetPteTwice(s: State, v: Vpn, w: Word)
    requires TablesValid(s) && v.pdx < USERTOP
    ensures SetPte(SetPte(s, v, 0), v, w) == SetPte(s, v, w)
  {
    if HasTable(s, v.pdx) {
      SetPteReads(s, v, 0);
      var t := TableOf(s, v.pdx);
      assert s.mem[t][v.ptx := 0][v.ptx := w] == s.mem[t][v.ptx := w];
      assert s.mem[t := s.mem[t][v.ptx := 0]][t := s.mem[t][v.ptx := w]] == s.mem[t := s.mem[t][v.ptx := w]];
      assert SetPte(SetPte(s, v, 0), v, w).mem == SetPte(s, v, w).mem;
    }
  }

  lemma ReenterSteps(s: State, pp: nat, v: Vpn, perm: Flags)
    requires TablesValid(s) && v.pdx < USERTOP && HasTable(s, v.pdx)
    requires pp < NPages(s) && Mapped(s, v) && Ppn(Pte(s, v)) == pp && s.refs[pp] >= 1
    ensures InsertSteps(s, pp, v, Pack(pp, WithPresent(perm))) == Installed(s, pp, v, perm)
  {
    var w, s1 := Pack(pp, WithPresent(perm)), Counted(s, pp);
    SetPteTwice(s, v, w);
    assert Pde(s1, v.pdx) == Pde(s, v.pdx) && Pte(s1, v) == Pte(s, v);
    assert s1.refs[pp := Dec16(s1.refs[pp])] == s.refs;
    assert Removed(s1, v) == SetPte(s, v, 0).(tlb := s.tlb - {v});
  }

  lemma ReplaceSteps(s: State, pp: nat, v: Vpn, perm: Flags)
    requires TablesValid(s) && v.pdx < USERTOP && HasTable(s, v.pdx)
    requires pp < NPages(s) && Mapped(s, v) && Ppn(Pte(s, v)) != pp && Ppn(Pte(s, v)) < NPages(s)
    ensures InsertSteps(s, pp, v, Pack(pp, WithPresent(perm))) == Installed(s, pp, v, perm)
  {
    var q, s1 := Ppn(Pte(s, v)), Counted(s, pp);
    assert Pde(s1, v.pdx) == Pde(s, v.pdx) && Pte(s1, v) == Pte(s, v);
    assert s1.refs[q := Dec16(s1.refs[q])] == s.refs[q := Dec16(s.refs[q])][pp := Inc16(s.refs[pp])];
    assert Removed(s1, v) == Counted(Removed(s, v), pp);
  }

  // Those steps have the net effect of Installed, whatever v held before.
  lemma InsertStepsAreInstalled(s: State, o: Own, pp: nat, v: Vpn, perm: Flags)
    requires Inv(s, o) && Insertable(s, o, pp) && v.pdx < USERTOP && HasTable(s, v.pdx)
    ensures InsertSteps(s, pp, v, Pack(pp, WithPresent(perm))) == Installed(s, pp, v, perm)
  {
    if Mapped(s, v) {
      MappedPage(s, o, v);
      if Ppn(Pte(s, v)) == pp {
        ReenterSteps(s, pp, v, perm);
      } else {
        ReplaceSteps(s, pp, v, perm);
      }
    }
  }

  // ---------- page_lookup ----------

  // What page_lookup returns: it tests the directory entry only.
  function Lookup(s: State, v: Vpn): Option<nat>
  {
    if !Present(Pde(s, v.pdx)) then None else Some(Ppn(Pte(s, v)))
  }

  // The documented result, the mapped page or NULL, is what page_lookup returns
  // exactly when v is mapped or has no page table; for an unmapped v inside an
  // existing table it returns page 0.
  lemma LookupIsMappingIff(s: State, o: Own, v: Vpn)
    requires Inv(s, o) && v.pdx < USERTOP
    ensures Lookup(s, v) == (if Mapped(s, v) then Some(Ppn(Pte(s, v))) else None)
       <==> (Mapped(s, v) || !HasTable(s, v.pdx))
    ensures HasTable(s, v.pdx) && !Mapped(s, v) ==> Lookup(s, v) == Some(0)
    ensures Lookup(s, v).Some? ==> Lookup(s, v).value < NPages(s)
  {
    assert Pte(s, v) == 0 || Ppn(Pte(s, v)) < |s.mem|;
  }
}
