// TLB coherence inside the calls: page_insert and page_remove as sequences of
// single memory writes, with the hardware filling and evicting TLB entries in
// every gap between them (Intel SDM volume 3A, section 4.10).
module Tlb {
  import opened Mmu
  import opened PageState
  import opened Allocator
  import opened PageTables
  import opened Runs

  datatype HwStep = Fill(v: Vpn) | Evict(v: Vpn)

  // What the hardware does in one gap between two writes of the kernel.
  type Gap = seq<HwStep>

  // Everything but the TLB.
  function Core(s: State): State { s.(tlb := map[]) }

  function HwRun(s: State, g: Gap): (r: State)
    ensures Core(r) == Core(s)
    decreases |g|
  {
    if g == [] then s
    else match g[0]
      case Fill(v) => HwRun(Filled(s, v), g[1..])
      case Evict(v) => HwRun(s.(tlb := s.tlb - {v}), g[1..])
  }

  // Every cached translation, except possibly v's, agrees with the tables.
  ghost predicate CoherentBut(s: State, v: Vpn)
  {
    forall u :: u in s.tlb && u != v ==> Translate(s, u) == Some(s.tlb[u])
  }

  lemma CoreReads(s: State, s': State)
    requires Core(s) == Core(s')
    ensures SameTables(s, s')
    ensures forall u :: Translate(s', u) == Translate(s, u)
  {
    var c := Core(s);
    forall d: Index ensures Pde(s', d) == Pde(s, d) { assert Pde(c, d) == Pde(s, d) == Pde(s', d); }
    forall u: Vpn ensures Pte(s', u) == Pte(s, u) { assert Pte(c, u) == Pte(s, u) == Pte(s', u); }
    TablesCarry(s, s');
  }

  // No gap makes the TLB incoherent, or brings back an entry that is gone from
  // both the TLB and the tables.
  lemma {:induction false} HwRunCoherent(s: State, g: Gap, v: Vpn)
    ensures TlbValid(s) ==> TlbValid(HwRun(s, g))
    ensures CoherentBut(s, v) ==> CoherentBut(HwRun(s, g), v)
    decreases |g|
  {
    if g != [] {
      var s1 := match g[0] case Fill(u) => Filled(s, u) case Evict(u) => s.(tlb := s.tlb - {u});
      CoreReads(s, s1);
      HwRunCoherent(s1, g[1..], v);
    }
  }

  // A kernel write that changes no cached translation keeps coherence.
  lemma QuietStep(s: State, s': State)
    requires TlbValid(s) && s'.tlb == s.tlb
    requires forall u :: u in s.tlb ==> Translate(s', u) == Translate(s, u)
    ensures TlbValid(s')
  {
  }

  // ---------- page_remove, write by write ----------

  // kern/pmap.c:615-626 with gaps g[0] .. g[3].
  function RemoveInterleaved(s: State, v: Vpn, g: seq<Gap>): State
    requires |g| == 4
  {
    var s0 := HwRun(s, g[0]);
    if !MapsPage(s0, v) then s0
    else
      var s1 := HwRun(Released(s0, Ppn(Pte(s0, v))), g[1]);
      var s2 := HwRun(SetPte(s1, v, 0), g[2]);
      HwRun(s2.(tlb := s2.tlb - {v}), g[3])
  }

  lemma ReleasedReads(s: State, p: nat)
    requires p < NPages(s)
    ensures SameTables(s, Released(s, p)) && Released(s, p).tlb == s.tlb
    ensures forall u :: Translate(Released(s, p), u) == Translate(s, u)
  {
    var s' := Released(s, p);
    forall d: Index ensures Pde(s', d) == Pde(s, d) { }
    forall u: Vpn ensures Pte(s', u) == Pte(s, u) { }
    TablesCarry(s, s');
  }

  lemma ClearCoherent(s: State, v: Vpn)
    requires TablesValid(s) && v.pdx < USERTOP && HasTable(s, v.pdx) && TlbValid(s)
    ensures CoherentBut(SetPte(s, v, 0), v) && !Mapped(SetPte(s, v, 0), v)
  {
    SetPteReads(s, v, 0);
    var s' := SetPte(s, v, 0);
    forall u | u in s'.tlb && u != v ensures Translate(s', u) == Translate(s, u) { }
  }

  lemma InvalidateCoherent(s: State, v: Vpn)
    requires CoherentBut(s, v)
    ensures TlbValid(s.(tlb := s.tlb - {v}))
  {
    var s' := s.(tlb := s.tlb - {v});
    CoreReads(s, s');
  }

  // The kernel's own steps do not look at the TLB.
  lemma CoreSetPte(a: State, b: State, v: Vpn, w: Word)
    requires Core(a) == Core(b)
    ensures Core(SetPte(a, v, w)) == Core(SetPte(b, v, w))
  {
    CoreReads(a, b);
  }

  lemma CoreReleased(a: State, b: State, p: nat)
    requires Core(a) == Core(b) && p < NPages(a)
    ensures p < NPages(b) && Core(Released(a, p)) == Core(Released(b, p))
  {
  }

  lemma CoreRemoved(s: State, v: Vpn)
    requires MapsPage(s, v)
    ensures Core(SetPte(Released(s, Ppn(Pte(s, v))), v, 0)) == Core(Removed(s, v))
  {
    ReleasedReads(s, Ppn(Pte(s, v)));
  }

  lemma RemoveInterleavedCore(s: State, v: Vpn, g: seq<Gap>)
    requires |g| == 4
    ensures Core(RemoveInterleaved(s, v, g)) == Core(Removed(s, v))
  {
    hide HwRun, SetPte, Released;
    var s0 := HwRun(s, g[0]);
    CoreReads(s, s0);
    if MapsPage(s0, v) {
      var q := Ppn(Pte(s0, v));
      CoreRemoved(s, v);
      CoreReleased(s0, s, q);
      var r := Released(s0, q);
      var s1 := HwRun(r, g[1]);
      CoreSetPte(s1, Released(s, q), v, 0);
      var s2 := HwRun(SetPte(s1, v, 0), g[2]);
      var s3 := s2.(tlb := s2.tlb - {v});
      assert Core(s3) == Core(s2);
    }
  }

  // page_remove leaves the TLB coherent whatever the hardware caches in between.
  lemma RemoveInterleavedCoherent(s: State, v: Vpn, g: seq<Gap>)
    requires |g| == 4 && TablesValid(s) && TlbValid(s) && v.pdx < USERTOP
    ensures TlbValid(RemoveInterleaved(s, v, g))
  {
    hide HwRun, Core, SetPte, Released, TablesValid, TlbValid, CoherentBut;
    var s0 := HwRun(s, g[0]);
    HwRunCoherent(s, g[0], v);
    CoreReads(s, s0);
    if MapsPage(s0, v) {
      var r := Released(s0, Ppn(Pte(s0, v)));
      ReleasedReads(s0, Ppn(Pte(s0, v)));
      QuietStep(s0, r);
      HwRunCoherent(r, g[1], v);
      var s1 := HwRun(r, g[1]);
      CoreReads(r, s1);
      TablesCarry(s, s0); TablesCarry(s0, r); TablesCarry(r, s1);
      var c := SetPte(s1, v, 0);
      ClearCoherent(s1, v);
      HwRunCoherent(c, g[2], v);
      InvalidateCoherent(HwRun(c, g[2]), v);
      HwRunCoherent(HwRun(c, g[2]).(tlb := HwRun(c, g[2]).tlb - {v}), g[3], v);
    }
  }

  // ---------- pgdir_walk and page_insert, write by write ----------

  function SetPde(s: State, d: Index, w: Word): State
  {
    s.(mem := s.mem[s.pgdir := s.mem[s.pgdir][d := w]])
  }

  // kern/pmap.c:447-458 with gaps g[0] .. g[3].
  function WalkInterleaved(s: State, d: Index, g: seq<Gap>): State
    requires |g| == 4
  {
    var s0 := HwRun(s, g[0]);
    if Present(Pde(s0, d)) || s0.head == None then s0
    else
      var p := s0.head.value;
      var s1 := HwRun(Popped(s0, true), g[1]);
      var s2 := HwRun(Counted(s1, p), g[2]);
      HwRun(SetPde(s2, d, Pack(p, 7)), g[3])
  }

  lemma CorePopped(a: State, b: State)
    requires Core(a) == Core(b) && a.head.Some?
    ensures Core(Popped(a, true)) == Core(Popped(b, true)) && NPages(Popped(b, true)) == NPages(a)
  {
  }

  lemma CoreCounted(a: State, b: State, p: nat)
    requires Core(a) == Core(b) && p < NPages(b)
    ensures p < NPages(a) && Core(Counted(a, p)) == Core(Counted(b, p))
  {
  }

  lemma CoreSetPde(a: State, b: State, d: Index, w: Word)
    requires Core(a) == Core(b)
    ensures Core(SetPde(a, d, w)) == Core(SetPde(b, d, w))
  {
  }

  lemma NewTableSteps(s: State, d: Index)
    requires s.head.Some?
    ensures SetPde(Counted(Popped(s, true), s.head.value), d, Pack(s.head.value, 7)) == NewTable(s, d)
  {
  }

  lemma WalkInterleavedCore(s: State, d: Index, g: seq<Gap>)
    requires |g| == 4
    ensures WalkFails(s, d, true) ==> Core(WalkInterleaved(s, d, g)) == Core(s)
    ensures !WalkFails(s, d, true) ==> Core(WalkInterleaved(s, d, g)) == Core(Walked(s, d))
  {
    hide HwRun, Popped, Counted, SetPde, NewTable;
    var s0 := HwRun(s, g[0]);
    CoreReads(s, s0);
    assert s0.head == Core(s0).head == s.head;
    if !Present(Pde(s0, d)) && s0.head != None {
      var p := s0.head.value;
      CorePopped(s0, s);
      var s1 := HwRun(Popped(s0, true), g[1]);
      CoreCounted(s1, Popped(s, true), p);
      var s2 := HwRun(Counted(s1, p), g[2]);
      CoreSetPde(s2, Counted(Popped(s, true), p), d, Pack(p, 7));
      NewTableSteps(s, d);
    }
  }

  lemma CountedReads(s: State, p: nat)
    requires p < NPages(s)
    ensures SameTables(s, Counted(s, p)) && Counted(s, p).tlb == s.tlb
    ensures forall u :: Translate(Counted(s, p), u) == Translate(s, u)
    ensures TlbValid(s) ==> TlbValid(Counted(s, p))
  {
    var s' := Counted(s, p);
    forall d: Index ensures Pde(s', d) == Pde(s, d) { }
    forall u: Vpn ensures Pte(s', u) == Pte(s, u) { }
    TablesCarry(s, s');
  }

  // Publishing the new table cannot contradict anything the TLB holds: the
  // hardware caches no absent entries.
  lemma PublishCoherent(s: State, o: Own, s2: State, d: Index)
    requires Inv(s, o) && d != SELF && !Present(Pde(s, d)) && s.head.Some?
    requires Core(s2) == Core(Counted(Popped(s, true), s.head.value)) && TlbValid(s2)
    ensures TlbValid(SetPde(s2, d, Pack(s.head.value, 7)))
  {
    var p := s.head.value;
    var c, s3 := Counted(Popped(s, true), p), SetPde(s2, d, Pack(p, 7));
    AllocKeepsInv(s, o, true);
    CountedReads(Popped(s, true), p);
    TablesCarry(s, Popped(s, true));
    CoreReads(s2, c);
    CoreSetPde(s2, c, d, Pack(p, 7));
    NewTableSteps(s, d);
    CoreReads(s3, NewTable(s, d));
    NewTableTranslations(s, o, d);
    hide ListsValid, TablesValid, CountsValid, NewTable, SetPde, Counted, Popped, Core;
    forall u | u in s2.tlb ensures Translate(s3, u) == Translate(s2, u) {
      assert Translate(s2, u) == Translate(s, u);
      assert Mapped(s, u);
    }
    assert s3.tlb == s2.tlb;
    QuietStep(s2, s3);
  }

  lemma WalkInterleavedCoherent(s: State, o: Own, d: Index, g: seq<Gap>)
    requires |g| == 4 && Inv(s, o) && d != SELF
    ensures TlbValid(WalkInterleaved(s, d, g))
  {
    hide ListsValid, TablesValid, CountsValid, TlbValid, HwRun, Popped, Counted, SetPde, CoherentBut;
    var v := Vpn(0, 0);
    var s0 := HwRun(s, g[0]);
    HwRunCoherent(s, g[0], v);
    InvOfCore(s, s0, o);
    CoreReads(s, s0);
    if !Present(Pde(s0, d)) && s0.head != None {
      var p, a := s0.head.value, Popped(s0, true);
      AllocKeepsInv(s0, o, true);
      HwRunCoherent(a, g[1], v);
      var s1 := HwRun(a, g[1]);
      CoreCounted(s1, a, p);
      CountedReads(s1, p);
      HwRunCoherent(Counted(s1, p), g[2], v);
      var s2 := HwRun(Counted(s1, p), g[2]);
      PublishCoherent(s0, o, s2, d);
      HwRunCoherent(SetPde(s2, d, Pack(p, 7)), g[3], v);
    }
  }

  // The rest of the invariant does not depend on the TLB.
  lemma InvOfCore(s: State, s': State, o: Own)
    requires Core(s) == Core(s') && Inv(s, o) && TlbValid(s')
    ensures Inv(s', o)
  {
    CoreReads(s, s');
    TablesCarry(s, s');
    assert s'.refs == Core(s').refs == s.refs && s'.links == Core(s').links == s.links && s'.head == Core(s').head == s.head;
  }

  // kern/pmap.c:529-549: g[0..4] inside pgdir_walk, g[4] after the count,
  // g[5..9] inside page_remove, g[9] after the final write.
  function InsertInterleaved(s: State, pp: nat, v: Vpn, perm: Flags, g: seq<Gap>): State
    requires |g| == 10 && pp < NPages(s)
  {
    var s0 := WalkInterleaved(s, v.pdx, g[..4]);
    if !Present(Pde(s0, v.pdx)) || pp >= NPages(s0) then s0
    else
      var s1 := HwRun(Counted(s0, pp), g[4]);
      var s2 := RemoveInterleaved(s1, v, g[5..9]);
      HwRun(SetPte(s2, v, Pack(pp, WithPresent(perm))), g[9])
  }

  lemma GrantCoherent(s: State, v: Vpn, w: Word)
    requires TablesValid(s) && TlbValid(s) && v.pdx < USERTOP && HasTable(s, v.pdx) && !Mapped(s, v)
    ensures TlbValid(SetPte(s, v, w))
  {
    SetPteReads(s, v, w);
    var s' := SetPte(s, v, w);
    assert Translate(s, v) == None;
    assert v !in s.tlb;
    forall u | u in s.tlb ensures Translate(s', u) == Translate(s, u) { }
    QuietStep(s, s');
  }

  // What page_insert's second half works on.
  lemma CountedTables(s: State, o: Own, pp: nat, v: Vpn, s1: State)
    requires Inv(s, o) && Insertable(s, o, pp) && v.pdx < USERTOP && HasTable(s, v.pdx)
    requires Core(s1) == Core(Counted(s, pp))
    ensures TablesValid(s1) && HasTable(s1, v.pdx)
    ensures TablesValid(Removed(s1, v)) && HasTable(Removed(s1, v), v.pdx) && !Mapped(Removed(s1, v), v)
  {
    var c := Counted(s, pp);
    CountedReads(s, pp);
    TablesCarry(s, c);
    CoreReads(c, s1);
    TablesCarry(c, s1);
    assert Pde(s1, v.pdx) == Pde(s, v.pdx);
    if Mapped(s1, v) {
      MappedNamesPage(s1, v);
      RemovedReads(s1, v);
      RemovedTables(s1, v);
    }
  }

  lemma InstallInterleaved(s: State, o: Own, pp: nat, v: Vpn, perm: Flags, g: seq<Gap>)
    requires |g| == 6
    requires Inv(s, o) && Insertable(s, o, pp) && v.pdx < USERTOP && HasTable(s, v.pdx)
    ensures var s1 := HwRun(Counted(s, pp), g[0]);
            var s2 := RemoveInterleaved(s1, v, g[1..5]);
            var s3 := HwRun(SetPte(s2, v, Pack(pp, WithPresent(perm))), g[5]);
            Core(s3) == Core(Installed(s, pp, v, perm)) && TlbValid(s3)
  {
    hide ListsValid, TablesValid, CountsValid, TlbValid, HwRun, Counted, SetPte, Removed, RemoveInterleaved, CoherentBut, Core;
    var w, c := Pack(pp, WithPresent(perm)), Counted(s, pp);
    var s1 := HwRun(c, g[0]);
    CountedReads(s, pp);
    HwRunCoherent(c, g[0], v);
    CountedTables(s, o, pp, v, s1);
    var s2 := RemoveInterleaved(s1, v, g[1..5]);
    RemoveInterleavedCoherent(s1, v, g[1..5]);
    RemoveInterleavedCore(s1, v, g[1..5]);
    CoreReads(Removed(s1, v), s2);
    TablesCarry(Removed(s1, v), s2);
    assert NPages(s2) == NPages(Removed(s1, v));
    GrantCoherent(s2, v, w);
    HwRunCoherent(SetPte(s2, v, w), g[5], v);
    CoreRemovedCong(s1, c, v);
    CoreSetPte(s2, Removed(c, v), v, w);
    InsertStepsAreInstalled(s, o, pp, v, perm);
  }

  lemma CoreRemovedCong(a: State, b: State, v: Vpn)
    requires Core(a) == Core(b)
    ensures Core(Removed(a, v)) == Core(Removed(b, v))
  {
    CoreReads(a, b);
    if MapsPage(a, v) {
      CoreRemoved(a, v);
      CoreRemoved(b, v);
      var q := Ppn(Pte(a, v));
      CoreReleased(a, b, q);
      CoreSetPte(Released(a, q), Released(b, q), v, 0);
    }
  }

  // For every interleaving of hardware fills and evictions with the writes of
  // page_insert: the call has exactly its sequential effect on memory, counts
  // and lists, and ends with every cached translation agreeing with the tables.
  lemma InsertInterleavedSafe(s: State, o: Own, pp: nat, v: Vpn, perm: Flags, g: seq<Gap>)
    requires |g| == 10 && Inv(s, o) && Insertable(s, o, pp) && v.pdx < USERTOP
    ensures var r := InsertInterleaved(s, pp, v, perm, g);
            && TlbValid(r)
            && Core(r) == Core(if InsertFails(s, v) then s else Inserted(s, pp, v, perm))
            && (!InsertFails(s, v) && !Overflows(s, pp, v) ==> Inv(r, OwnInserted(s, o, pp, v)))
  {
    hide ListsValid, TablesValid, CountsValid, TlbValid, WalkInterleaved, Walked, Installed, HwRun, Counted, SetPte, RemoveInterleaved, OwnInserted;
    var s0 := WalkInterleaved(s, v.pdx, g[..4]);
    WalkInterleavedCore(s, v.pdx, g[..4]);
    WalkInterleavedCoherent(s, o, v.pdx, g[..4]);
    if InsertFails(s, v) {
      CoreReads(s, s0);
    } else {
      WalkedKeepsInv(s, o, v.pdx);
      WalkedInsertable(s, o, pp, v);
      var w, o1 := Walked(s, v.pdx), OwnWalked(s, o, v.pdx);
      InvOfCore(w, s0, o1);
      CoreReads(w, s0);
      InstallInterleaved(s0, o1, pp, v, perm, g[4..]);
      assert g[4..][1..5] == g[5..9];
      CoreInstalled(s0, w, pp, v, perm);
      if !Overflows(s, pp, v) {
        InsertKeepsInvIff(s, o, pp, v, perm);
        InvOfCore(Inserted(s, pp, v, perm), InsertInterleaved(s, pp, v, perm, g), OwnInserted(s, o, pp, v));
      }
    }
  }

  lemma CoreInstalled(a: State, b: State, pp: nat, v: Vpn, perm: Flags)
    requires Core(a) == Core(b) && pp < NPages(a)
    ensures pp < NPages(b) && Core(Installed(a, pp, v, perm)) == Core(Installed(b, pp, v, perm))
  {
    CoreReads(a, b);
    var w := Pack(pp, WithPresent(perm));
    CoreSetPte(a, b, v, w);
    CoreRemovedCong(a, b, v);
    CoreSetPte(Removed(a, v), Removed(b, v), v, w);
  }

  // The same for page_remove.
  lemma RemoveInterleavedSafe(s: State, o: Own, v: Vpn, g: seq<Gap>)
    requires |g| == 4 && Inv(s, o) && v.pdx < USERTOP
    ensures var r := RemoveInterleaved(s, v, g);
            Core(r) == Core(Removed(s, v)) && Inv(r, OwnRemoved(s, o, v))
  {
    hide ListsValid, TablesValid, CountsValid, TlbValid, RemoveInterleaved, Removed;
    RemoveInterleavedCore(s, v, g);
    RemoveInterleavedCoherent(s, v, g);
    if Mapped(s, v) {
      RemoveKeepsInv(s, o, v);
    } else {
      assert Removed(s, v) == s by { UnmappedRemoved(s, v); }
    }
    InvOfCore(Removed(s, v), RemoveInterleaved(s, v, g), OwnRemoved(s, o, v));
  }

  lemma UnmappedRemoved(s: State, v: Vpn)
    requires !Mapped(s, v)
    ensures Removed(s, v) == s
  {
  }
}
