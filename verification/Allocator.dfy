// page_alloc, page_free and page_decref of kern/pmap.c as functions on states,
// and what they keep.
module Allocator {
  import opened Mmu
  import opened PageState

  // page_alloc when the free list is not empty: the page is s.head.
  function Popped(s: State, zero: bool): State
    requires s.head.Some?
  {
    var p := s.head.value;
    s.(head := s.links[p],
       links := s.links[p := None],
       mem := if zero then s.mem[p := ZeroFrame()] else s.mem)
  }

  predicate FreePanics(s: State, p: nat)
    requires p < NPages(s)
  {
    s.refs[p] != 0 || s.links[p] != None
  }

  // page_free when it does not panic.
  function Pushed(s: State, p: nat): State
    requires p < NPages(s)
  {
    s.(links := s.links[p := s.head], head := Some(p))
  }

  // page_decref when page_free does not panic.
  function Released(s: State, p: nat): State
    requires p < NPages(s)
  {
    var s1 := s.(refs := s.refs[p := Dec16(s.refs[p])]);
    if s1.refs[p] == 0 then Pushed(s1, p) else s1
  }

  predicate DecrefPanics(s: State, p: nat)
    requires p < NPages(s)
  {
    Dec16(s.refs[p]) == 0 && s.links[p] != None
  }

  lemma PoppedLists(s: State, o: Own, zero: bool)
    requires ListsValid(s, o) && s.head.Some?
    ensures o.free != [] && s.head.value == o.free[0]
    ensures ListsValid(Popped(s, zero), o.(free := o.free[1..]))
  {
    var p, rest := o.free[0], o.free[1..];
    ChainTail(s.links, o.free, None);
    ChainElsewhere(s.links, o.held, p, None);
    assert forall q :: q in o.free <==> q == p || q in rest;
  }

  // page_alloc keeps the invariant, takes the first free page, and changes no
  // page-table entry even when it clears the page.
  lemma AllocKeepsInv(s: State, o: Own, zero: bool)
    requires Inv(s, o) && s.head.Some?
    ensures o.free != [] && s.head.value == o.free[0] && s.refs[o.free[0]] == 0
    ensures Inv(Popped(s, zero), o.(free := o.free[1..]))
    ensures SameTables(s, Popped(s, zero))
  {
    PoppedLists(s, o, zero);
    var p, s' := s.head.value, Popped(s, zero);
    FreePageIsNoTable(s, o, p);
    OffTableWrite(s, s', p, s'.mem[p]);
    TablesCarry(s, s');
  }

  lemma FreePageIsNoTable(s: State, o: Own, p: nat)
    requires TablesValid(s) && CountsValid(s, o) && p < NPages(s) && s.refs[p] == 0
    ensures p != s.pgdir && forall d: Index :: HasTable(s, d) ==> TableOf(s, d) != p
  {
    forall d: Index ensures HasTable(s, d) ==> TableOf(s, d) != p {
      TableIsReferenced(s, o, d);
    }
    TableIsReferenced(s, o, 0);
  }

  lemma PushedLists(s: State, o: Own, p: nat)
    requires ListsValid(s, o) && p < NPages(s) && s.refs[p] == 0
    requires p !in o.free && p !in o.held
    ensures ListsValid(Pushed(s, p), o.(free := [p] + o.free))
  {
    ChainCons(s.links, o.free, p);
    ChainElsewhere(s.links, o.held, p, s.head);
  }

  lemma FreeKeepsInv(s: State, o: Own, p: nat)
    requires Inv(s, o) && p < NPages(s) && s.refs[p] == 0
    requires p !in o.free && p !in o.held
    ensures !FreePanics(s, p)
    ensures Inv(Pushed(s, p), o.(free := [p] + o.free))
    ensures SameTables(s, Pushed(s, p))
  {
    PushedLists(s, o, p);
    TablesCarry(s, Pushed(s, p));
  }

  // Which page_free calls on an unreferenced page panic: those on a listed page
  // that has a successor. The check at kern/pmap.c:388 does not see the tail.
  lemma FreePanicsIff(s: State, o: Own, p: nat)
    requires Inv(s, o) && p < NPages(s) && s.refs[p] == 0
    ensures FreePanics(s, p) <==>
            (p in o.free && p != o.free[|o.free| - 1]) || (p in o.held && p != o.held[|o.held| - 1])
  {
    if p in o.free { ListedLink(s.links, o.free, p); }
    if p in o.held { ListedLink(s.links, o.held, p); }
  }

  lemma ListedLink(links: seq<Option<nat>>, q: seq<nat>, p: nat)
    requires Chain(links, q) && Distinct(q) && p in q
    ensures links[p] == None <==> p == q[|q| - 1]
  {
    var i :| 0 <= i < |q| && q[i] == p;
    assert links[q[i]] == Successor(q, i);
  }

  // Writing to an unreferenced page touches no page table.
  lemma WriteKeepsInv(s: State, o: Own, p: nat, f: Frame)
    requires Inv(s, o) && p < NPages(s) && s.refs[p] == 0
    ensures Inv(s.(mem := s.mem[p := f]), o) && SameTables(s, s.(mem := s.mem[p := f]))
  {
    var s' := s.(mem := s.mem[p := f]);
    FreePageIsNoTable(s, o, p);
    OffTableWrite(s, s', p, f);
    TablesCarry(s, s');
    hide TablesValid, Pde, Pte;
    assert ListsValid(s', o);
  }

  // Walking the list from its head visits o.free in order.
  lemma ListPosition(s: State, o: Own, k: nat)
    requires ListsValid(s, o)
    ensures s.head == (if 0 < |o.free| then Some(o.free[0]) else None)
    ensures k < |o.free| ==> o.free[k] < NPages(s) && s.refs[o.free[k]] == 0 && s.links[o.free[k]] == (if k + 1 < |o.free| then Some(o.free[k + 1]) else None)
  {
    if k < |o.free| {
      assert s.links[o.free[k]] == Successor(o.free, k);
    }
  }

  // Freeing the tail twice is not caught and leaves a list that never ends:
  // no sequence of pages is the free list any more.
  lemma TailDoubleFree(s: State, o: Own, p: nat, q: seq<nat>)
    requires Inv(s, o) && o.free != [] && p == o.free[|o.free| - 1]
    ensures !FreePanics(s, p)
    ensures !(Pushed(s, p).head == First(q) && Chain(Pushed(s, p).links, q) && Distinct(q))
  {
    var s', n := Pushed(s, p), |o.free|;
    assert Successor(o.free, n - 1) == None;
    if s'.head == First(q) && Chain(s'.links, q) && Distinct(q) {
      var k := 0;
      while k < n
        invariant k <= n && k < |q|
        invariant q[k] == if k == 0 then p else o.free[k - 1]
      {
        assert s'.links[q[k]] == Successor(q, k);
        if k > 0 {
          assert s.links[q[k]] == Successor(o.free, k - 1);
        }
        k := k + 1;
      }
    }
  }
}
