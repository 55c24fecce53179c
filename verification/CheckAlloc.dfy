// check_page_alloc (kern/pmap.c:718-790): every assertion of
// it holds from every valid state with three free pages.
module CheckAlloc {
  import opened Mmu
  import opened PageState
  import opened Allocator
  import opened Pmap
  import opened Transcripts

  // ---------- the operations on valid states ----------

  // What stays the same when pages only move on and off the lists.
  ghost predicate SameButLists(s: State, s': State)
  {
    SameTables(s, s') && s'.refs == s.refs && s'.tlb == s.tlb
  }

  lemma SameTrans(a: State, b: State, c: State)
    requires SameButLists(a, b) && SameButLists(b, c)
    ensures SameButLists(a, c)
  {
    hide Pde, Pte;
  }

  method Alloc(m: Machine, zero: bool, ghost o: Own) returns (r: Option<nat>, ghost o': Own)
    requires m.Valid(o)
    modifies m, m.link, m.mem
    ensures m.Valid(o') && SameButLists(old(m.St()), m.St())
    ensures r == First(o.free) && o' == o.(free := if o.free == [] then [] else o.free[1..])
    ensures r.Some? ==> r.value < m.mem.Length && m.ref[r.value] == 0 && r.value !in o'.free && r.value !in o'.held
    ensures m.mem[..] == if r.Some? && zero then old(m.mem[..])[r.value := ZeroFrame()] else old(m.mem[..])
    ensures Took(old(m.St()), Said(PageAlloc(zero), Page(r)), m.St())
  {
    hide TablesValid, CountsValid, TlbValid, Pde, Pte;
    ghost var s := m.St();
    o' := o;
    r := m.PageAlloc(zero);
    if r.Some? {
      AllocKeepsInv(s, o, zero);
      o' := o.(free := o.free[1..]);
      TakenIsOff(s, o);
    }
  }

  lemma TakenIsOff(s: State, o: Own)
    requires ListsValid(s, o) && o.free != []
    ensures o.free[0] < NPages(s) && s.refs[o.free[0]] == 0 && o.free[0] !in o.free[1..] && o.free[0] !in o.held
  {
  }

  method Free(m: Machine, p: nat, ghost o: Own) returns (ghost o': Own)
    requires m.Valid(o) && p < m.mem.Length && m.ref[p] == 0 && p !in o.free && p !in o.held
    modifies m`head, m.link
    ensures m.Valid(o') && SameButLists(old(m.St()), m.St()) && m.mem[..] == old(m.mem[..])
    ensures o' == o.(free := [p] + o.free)
    ensures Took(old(m.St()), Said(PageFree(p), Done), m.St())
  {
    hide ListsValid, TablesValid, CountsValid, TlbValid, Pde, Pte;
    FreeKeepsInv(m.St(), o, p);
    m.PageFree(p);
    o' := o.(free := [p] + o.free);
  }

  // "Temporarily steal the rest of the free pages", and giving them back.
  lemma StealKeepsInv(s: State, o: Own)
    requires Inv(s, o) && o.held == []
    ensures Inv(s.(head := None), Own([], o.free, o.boot)) && SameButLists(s, s.(head := None))
  {
    var s' := s.(head := None);
    HeadChange(s, s');
    hide TablesValid, Pde, Pte;
  }

  lemma GiveBackKeepsInv(s: State, o: Own)
    requires Inv(s, o) && o.free == []
    ensures First(o.held).Some? ==> First(o.held).value < NPages(s)
    ensures Inv(s.(head := First(o.held)), Own(o.held, [], o.boot)) && SameButLists(s, s.(head := First(o.held)))
  {
    assert o.held != [] ==> o.held[0] in o.held;
    var s' := s.(head := First(o.held));
    HeadChange(s, s');
    hide TablesValid, Pde, Pte;
  }

  lemma HeadChange(s: State, s': State)
    requires s' == s.(head := s'.head)
    ensures SameButLists(s, s')
    ensures TablesValid(s) ==> TablesValid(s')
    ensures forall p: nat :: NamedBy(s', p) == NamedBy(s, p)
    ensures TlbValid(s) ==> TlbValid(s')
  {
    forall d: Index ensures Pde(s', d) == Pde(s, d) { }
    forall v: Vpn ensures Pte(s', v) == Pte(s, v) { }
    TablesCarry(s, s');
  }

  // ---------- check_page_alloc ----------

  method CountList(m: Machine, ghost o: Own) returns (n: nat)
    requires m.Valid(o)
    ensures n == |o.free|
  {
    hide TablesValid, CountsValid, TlbValid, Pde, Pte;
    n := 0;
    var pp := m.head;
    ListPosition(m.St(), o, 0);
    while pp != None
      invariant n <= |o.free| && pp == (if n < |o.free| then Some(o.free[n]) else None)
      decreases |o.free| - n
    {
      ListPosition(m.St(), o, n);
      pp := m.link[pp.value];
      n := n + 1;
    }
  }

  method TakeThree(m: Machine, ghost o: Own) returns (pp0: nat, pp1: nat, pp2: nat, ghost o': Own)
    requires m.Valid(o) && |o.free| >= 3
    modifies m, m.link, m.mem
    ensures m.Valid(o') && SameButLists(old(m.St()), m.St())
    ensures o.free == [pp0, pp1, pp2] + o'.free && o'.held == o.held && o'.boot == o.boot
    ensures pp0 != pp1 && pp0 != pp2 && pp1 != pp2
    ensures forall p :: p in [pp0, pp1, pp2] ==> p < m.mem.Length && m.ref[p] == 0 && p !in o'.free && p !in o'.held
    ensures m.mem[..] == old(m.mem[..]) && Transcript(old(m.St()), TakesThree(pp0, pp1, pp2), m.St())
  {
    hide Inv, SameButLists, Transcript, Took;
    ghost var s0 := m.St();
    var r0, r1, r2;
    r0, o' := Alloc(m, false, o);
    ghost var o1, s1 := o', m.St();
    r1, o' := Alloc(m, false, o');
    ghost var o2, s2 := o', m.St();
    r2, o' := Alloc(m, false, o');
    ThreeCalls(s0, Said(PageAlloc(false), Page(r0)), s1, Said(PageAlloc(false), Page(r1)), s2, Said(PageAlloc(false), Page(r2)), m.St());
    SameTrans(s0, s1, s2);
    SameTrans(s0, s2, m.St());
    pp0, pp1, pp2 := r0.value, r1.value, r2.value;
    FirstThree(o.free);
    StillOff(o1.free, pp0);
    StillOff(o2.free, pp0);
    StillOff(o2.free, pp1);
    assert o1.free[0] == pp1 && o2.free[0] == pp2;
  }

  function TakesThree(a: nat, b: nat, c: nat): seq<Said>
  {
    [Said(PageAlloc(false), Page(Some(a))), Said(PageAlloc(false), Page(Some(b))), Said(PageAlloc(false), Page(Some(c)))]
  }

  function FreesThree(a: nat, b: nat, c: nat): seq<Said>
  {
    [Said(PageFree(a), Done), Said(PageFree(b), Done), Said(PageFree(c), Done)]
  }

  lemma ThreeCalls(s0: State, e: Said, s1: State, f: Said, s2: State, g: Said, s3: State)
    requires Took(s0, e, s1) && Took(s1, f, s2) && Took(s2, g, s3)
    ensures Transcript(s0, [e, f, g], s3)
  {
    hide Took, Kept;
    var r := Begin(s0);
    r := Note(r, s0, e, s1);
    r := Note(r, s1, f, s2);
    r := Note(r, s2, g, s3);
    assert r.said == [e, f, g];
    KeptIs(r, s3);
  }

  lemma StillOff(q: seq<nat>, p: nat)
    requires p !in q && q != []
    ensures p != q[0] && p !in q[1..]
  {
    assert q[0] in q;
  }

  lemma FirstThree(q: seq<nat>)
    requires |q| >= 3
    ensures q == [q[0], q[1], q[2]] + q[1..][1..][1..]
  {
  }

  method Steal(m: Machine, ghost o: Own) returns (fl: Option<nat>, ghost o': Own)
    requires m.Valid(o) && o.held == []
    modifies m`head
    ensures m.Valid(o') && SameButLists(old(m.St()), m.St()) && o' == Own([], o.free, o.boot)
    ensures fl == First(o.free) && fl == old(m.head) && m.mem[..] == old(m.mem[..])
    ensures Took(old(m.St()), Said(SetFreeList(None), Done), m.St())
  {
    StealKeepsInv(m.St(), o);
    fl := m.head;
    m.head := None;
    o' := Own([], o.free, o.boot);
  }

  method GiveBack(m: Machine, fl: Option<nat>, ghost o: Own) returns (ghost o': Own)
    requires m.Valid(o) && o.free == [] && fl == First(o.held)
    modifies m`head
    ensures m.Valid(o') && SameButLists(old(m.St()), m.St()) && o' == Own(o.held, [], o.boot)
    ensures m.mem[..] == old(m.mem[..]) && Took(old(m.St()), Said(SetFreeList(fl), Done), m.St())
  {
    GiveBackKeepsInv(m.St(), o);
    m.head := fl;
    o' := Own(o.held, [], o.boot);
  }

  // memset over a page the caller holds.
  method Memset(m: Machine, p: nat, w: Word, ghost o: Own)
    requires m.Valid(o) && p < m.mem.Length && m.ref[p] == 0
    modifies m.mem
    ensures m.Valid(o) && SameButLists(old(m.St()), m.St()) && m.mem[..] == old(m.mem[..])[p := Fill(w)]
    ensures Took(old(m.St()), Said(Fills(p, w), Done), m.St())
  {
    hide ListsValid, TablesValid, CountsValid, TlbValid, Pde, Pte;
    WriteKeepsInv(m.St(), o, p, Fill(w));
    m.mem[p] := Fill(w);
  }

  lemma ThreeFirst(a: nat, b: nat, c: nat, q: seq<nat>, x: nat, y: nat, z: nat, r: seq<nat>)
    requires [a, b, c] + q == [x, y, z] + r
    ensures a == x && b == y && c == z && q == r
  {
    var t, u := [a, b, c] + q, [x, y, z] + r;
    assert t[0] == u[0] && t[1] == u[1] && t[2] == u[2] && t[3..] == q && u[3..] == r;
  }

  const NoneLeft := Said(PageAlloc(false), Page(None))

  // kern/pmap.c:751-766.
  function Cycles(a: nat, b: nat, c: nat): seq<Said>
  {
    [NoneLeft] + FreesThree(a, b, c) + TakesThree(c, b, a) + [NoneLeft]
  }

  // Freeing three pages and taking them again, with nothing else free.
  method CycleThree(m: Machine, a: nat, b: nat, c: nat, ghost o: Own)
    requires m.Valid(o) && o.free == [] && a != b && a != c && b != c
    requires forall p :: p in [a, b, c] ==> p < m.mem.Length && m.ref[p] == 0 && p !in o.held
    modifies m, m.link, m.mem
    ensures m.Valid(o) && SameButLists(old(m.St()), m.St()) && m.mem[..] == old(m.mem[..])
    ensures Transcript(old(m.St()), Cycles(a, b, c), m.St())
  {
    hide Inv, SameButLists, Took, Transcript, Kept;
    assert a in [a, b, c] && b in [a, b, c] && c in [a, b, c];
    ghost var s0 := m.St();
    ghost var r := Begin(s0);
    var none;
    ghost var o1;
    none, o1 := Alloc(m, false, o);
    assert none == None && o1 == o;
    ghost var s1 := m.St();
    r := Note(r, s0, NoneLeft, s1);
    o1 := FreeThree(m, a, b, c, o1);
    assert o1.free == [c, b, a] + [];
    ghost var s2 := m.St();
    r := NoteAll(r, s1, FreesThree(a, b, c), s2);
    var pp0, pp1, pp2;
    pp0, pp1, pp2, o1 := TakeThree(m, o1);
    ThreeFirst(c, b, a, [], pp0, pp1, pp2, o1.free);
    assert pp0 == c && pp1 == b && pp2 == a && o1 == o;
    ghost var s3 := m.St();
    r := NoteAll(r, s2, TakesThree(c, b, a), s3);
    none, o1 := Alloc(m, false, o1);
    assert none == None;
    r := Note(r, s3, NoneLeft, m.St());
    assert r.said == Cycles(a, b, c);
    KeptIs(r, m.St());
    SameTrans(s0, s1, s2);
    SameTrans(s0, s2, s3);
    SameTrans(s0, s3, m.St());
  }

  // kern/pmap.c:769-774.
  function Zeroes(p: nat): seq<Said>
  {
    [Said(Fills(p, 0x0101_0101), Done), Said(PageFree(p), Done), Said(PageAlloc(true), Page(Some(p))),
     Said(Contents(p), Words(ZeroFrame()))]
  }

  // The ALLOC_ZERO test: dirty a page, free it, take it back cleared.
  method ZeroTest(m: Machine, p: nat, ghost o: Own)
    requires m.Valid(o) && o.free == [] && p < m.mem.Length && m.ref[p] == 0 && p !in o.held
    modifies m, m.link, m.mem
    ensures m.Valid(o) && SameButLists(old(m.St()), m.St())
    ensures m.mem[..] == old(m.mem[..])[p := ZeroFrame()] && Transcript(old(m.St()), Zeroes(p), m.St())
  {
    hide Inv, SameButLists, Transcript, Kept, Took;
    ghost var s0 := m.St();
    ghost var r := Begin(s0);
    Memset(m, p, 0x0101_0101, o);
    ghost var s1 := m.St();
    r := Note(r, s0, Said(Fills(p, 0x0101_0101), Done), s1);
    SameRefs(s0, s1);
    ghost var o1 := Free(m, p, o);
    ghost var s2 := m.St();
    r := Note(r, s1, Said(PageFree(p), Done), s2);
    var pp;
    pp, o1 := Alloc(m, true, o1);
    assert pp == Some(p) && o1 == o;
    r := Note(r, s2, Said(PageAlloc(true), Page(Some(p))), m.St());
    for i := 0 to 1024 {
      assert m.mem[p][i] == 0;
    }
    r := See(r, m.St(), Said(Contents(p), Words(ZeroFrame())));
    assert r.said == Zeroes(p);
    KeptIs(r, m.St());
    SameTrans(s0, s1, s2);
    SameTrans(s0, s2, m.St());
  }

  lemma SameRefs(s: State, s': State)
    requires SameButLists(s, s')
    ensures s'.refs == s.refs && NPages(s') == NPages(s)
  {
  }

  // All of check_page_alloc: what it calls and asserts, from the three pages and
  // the list length.
  function AllocChecks(a: nat, b: nat, c: nat, rest: Option<nat>, n: nat): seq<Said>
  {
    Opens(a, b, c, rest, n) + Cycles(a, b, c) + Zeroes(c) + Closes(a, b, c, rest, n)
  }

  // kern/pmap.c:731-749 and 776-787.
  function Opens(a: nat, b: nat, c: nat, rest: Option<nat>, n: nat): seq<Said>
  {
    [Said(ListLength, Value(n))] + TakesThree(a, b, c)
    + [Said(AddressBelowEnd(a), Truth(true)), Said(AddressBelowEnd(b), Truth(true)), Said(AddressBelowEnd(c), Truth(true)),
       Said(FreeList, Page(rest)), Said(SetFreeList(None), Done)]
  }

  function Closes(a: nat, b: nat, c: nat, rest: Option<nat>, n: nat): seq<Said>
  {
    [Said(SetFreeList(rest), Done)] + FreesThree(c, b, a) + [Said(ListLength, Value(n))]
  }

  method OpenAlloc(m: Machine, ghost o: Own) returns (n: nat, a: nat, b: nat, c: nat, fl: Option<nat>, ghost o': Own)
    requires m.Valid(o) && |o.free| >= 3 && o.held == []
    modifies m, m.link, m.mem
    ensures m.Valid(o') && SameButLists(old(m.St()), m.St()) && m.mem[..] == old(m.mem[..])
    ensures n == |o.free| && a != b && a != c && b != c && o.free == [a, b, c] + o'.held && fl == First(o'.held)
    ensures o'.free == [] && o'.boot == o.boot
    ensures forall p :: p in [a, b, c] ==> p < m.mem.Length && m.ref[p] == 0 && p !in o'.held
    ensures Transcript(old(m.St()), Opens(a, b, c, fl, n), m.St())
  {
    hide Inv, SameButLists, Transcript, Took, Kept;
    ghost var s0 := m.St();
    ghost var r := Begin(s0);
    n := CountList(m, o);
    r := See(r, s0, Said(ListLength, Value(n))) by { ListIs(s0, o); }
    a, b, c, o' := TakeThree(m, o);
    ghost var s1 := m.St();
    r := NoteAll(r, s0, TakesThree(a, b, c), s1);
    assert a in [a, b, c] && b in [a, b, c] && c in [a, b, c];
    r := AddressChecks(m, a, b, c, r);
    fl, o' := Steal(m, o');
    r := See(r, s1, Said(FreeList, Page(fl)));
    r := Note(r, s1, Said(SetFreeList(None), Done), m.St());
    assert r.said == Opens(a, b, c, fl, n);
    KeptIs(r, m.St());
    SameRefs(s1, m.St());
    SameTrans(s0, s1, m.St());
  }

  // kern/pmap.c:743-745.
  method AddressChecks(m: Machine, a: nat, b: nat, c: nat, ghost r: Log) returns (ghost r': Log)
    requires m.WellFormed() && m.InReach() && Kept(r, m.St()) && a < m.mem.Length && b < m.mem.Length && c < m.mem.Length
    ensures Kept(r', m.St())
    ensures r' == Log(r.start, r.said + [Said(AddressBelowEnd(a), Truth(true)), Said(AddressBelowEnd(b), Truth(true)),
                                         Said(AddressBelowEnd(c), Truth(true))])
  {
    hide Bytes32, Kept, Shaped;
    AddressesBelow(a, b, c, m.mem.Length);
    assert a * PGSIZE < Bytes32(m.mem.Length) && b * PGSIZE < Bytes32(m.mem.Length) && c * PGSIZE < Bytes32(m.mem.Length);
    r' := See(r, m.St(), Said(AddressBelowEnd(a), Truth(true)));
    r' := See(r', m.St(), Said(AddressBelowEnd(b), Truth(true)));
    r' := See(r', m.St(), Said(AddressBelowEnd(c), Truth(true)));
  }

  lemma ListIs(s: State, o: Own)
    requires Inv(s, o)
    ensures First(o.free) == s.head && Chain(s.links, o.free)
  {
    hide TablesValid, CountsValid, TlbValid, Chain;
  }

  method CloseAlloc(m: Machine, a: nat, b: nat, c: nat, fl: Option<nat>, ghost n: nat, ghost o: Own) returns (left: nat, ghost o': Own)
    requires m.Valid(o) && o.free == [] && fl == First(o.held) && a != b && a != c && b != c
    requires forall p :: p in [a, b, c] ==> p < m.mem.Length && m.ref[p] == 0 && p !in o.held
    requires n == 3 + |o.held|
    modifies m, m.link
    ensures m.Valid(o') && SameButLists(old(m.St()), m.St()) && m.mem[..] == old(m.mem[..])
    ensures left == n && o' == Own([a, b, c] + o.held, [], o.boot)
    ensures Transcript(old(m.St()), Closes(a, b, c, fl, n), m.St())
  {
    hide Inv, SameButLists, Transcript, Took, Kept;
    ghost var s0 := m.St();
    ghost var r := Begin(s0);
    assert a in [a, b, c] && b in [a, b, c] && c in [a, b, c];
    o' := GiveBack(m, fl, o);
    ghost var s1 := m.St();
    r := Note(r, s0, Said(SetFreeList(fl), Done), s1);
    SameRefs(s0, s1);
    o' := FreeThree(m, c, b, a, o');
    r := NoteAll(r, s1, FreesThree(c, b, a), m.St());
    left := CountList(m, o');
    r := See(r, m.St(), Said(ListLength, Value(n))) by { ListIs(m.St(), o'); }
    assert r.said == Closes(a, b, c, fl, n);
    KeptIs(r, m.St());
    SameTrans(s0, s1, m.St());
  }

  // check_page_alloc runs to its end from every valid state with three free
  // pages: every call gives what it asserts, the free list is left as it was, and
  // the third page on it ends up cleared; no other frame changes.
  method CheckPageAlloc(m: Machine, ghost o: Own)
    requires m.Valid(o) && |o.free| >= 3 && o.held == []
    modifies m, m.link, m.mem
    ensures m.Valid(o) && SameButLists(old(m.St()), m.St())
    ensures o.free[2] < m.mem.Length && m.mem[..] == old(m.mem[..])[o.free[2] := ZeroFrame()]
    ensures Transcript(old(m.St()), AllocChecks(o.free[0], o.free[1], o.free[2], First(o.free[3..]), |o.free|), m.St())
  {
    hide Inv, SameButLists, Transcript, Kept, Took;
    ghost var s0 := m.St();
    ghost var r := Begin(s0);
    var nfree, a, b, c, fl;
    ghost var o1;
    nfree, a, b, c, fl, o1 := OpenAlloc(m, o);
    ghost var s1 := m.St();
    r := NoteAll(r, s0, Opens(a, b, c, fl, nfree), s1);
    assert o.free[3..] == o1.held && c in [a, b, c];
    CycleThree(m, a, b, c, o1);
    ghost var s2 := m.St();
    r := NoteAll(r, s1, Cycles(a, b, c), s2);
    SameRefs(s1, s2);
    ZeroTest(m, c, o1);
    ghost var s3 := m.St();
    r := NoteAll(r, s2, Zeroes(c), s3);
    SameRefs(s2, s3);
    var left;
    left, o1 := CloseAlloc(m, a, b, c, fl, nfree, o1);
    assert nfree - left == 0;
    r := NoteAll(r, s3, Closes(a, b, c, fl, nfree), m.St());
    assert r.said == AllocChecks(a, b, c, fl, nfree);
    KeptIs(r, m.St());
    assert o1 == o;
    SameTrans(s0, s1, s2);
    SameTrans(s0, s2, s3);
    SameTrans(s0, s3, m.St());
  }

  // page2pa(pp) < npages*PGSIZE, with its 32-bit product.
  lemma AddressesBelow(a: nat, b: nat, c: nat, n: nat)
    requires a < n && b < n && c < n && n <= REACH
    ensures a * PGSIZE < Bytes32(n) && b * PGSIZE < Bytes32(n) && c * PGSIZE < Bytes32(n)
  {
  }

  method FreeThree(m: Machine, a: nat, b: nat, c: nat, ghost o: Own) returns (ghost o': Own)
    requires m.Valid(o) && a != b && a != c && b != c
    requires forall p :: p in [a, b, c] ==> p < m.mem.Length && m.ref[p] == 0 && p !in o.free && p !in o.held
    modifies m`head, m.link
    ensures m.Valid(o') && SameButLists(old(m.St()), m.St()) && o' == o.(free := [c, b, a] + o.free)
    ensures m.mem[..] == old(m.mem[..]) && Transcript(old(m.St()), FreesThree(a, b, c), m.St())
  {
    hide Inv, SameButLists, Transcript, Took;
    assert a in [a, b, c] && b in [a, b, c] && c in [a, b, c];
    ghost var s0 := m.St();
    o' := Free(m, a, o);
    ghost var s1 := m.St();
    o' := Free(m, b, o');
    ghost var s2 := m.St();
    o' := Free(m, c, o');
    ThreeCalls(s0, Said(PageFree(a), Done), s1, Said(PageFree(b), Done), s2, Said(PageFree(c), Done), m.St());
    SameTrans(s0, s1, s2);
    SameTrans(s0, s2, m.St());
    assert o'.free == [c, b, a] + o.free;
  }
}
