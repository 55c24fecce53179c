// page_init, and check_page_free_list's reordering of the list (kern/pmap.c).
module PageInit {
  import opened Mmu
  import opened PageState
  import opened FreeList
  import opened Allocator
  import opened Pmap

  // n-1, ..., 1, 0: the list after page_init's first loop.
  function Down(n: nat): (q: seq<nat>)
    ensures |q| == n && forall i :: 0 <= i < n ==> q[i] == n - 1 - i
  {
    if n == 0 then [] else [n - 1] + Down(n - 1)
  }

  // The pages page_init takes off the list: page 0, and everything from the I/O
  // hole to the end of the boot-time allocations (physical address end).
  predicate Reserved(p: nat, end: Word)
  {
    p == 0 || IOPHYSMEM <= p * PGSIZE < end
  }

  function Kept(end: Word): (f: nat -> bool)
    ensures forall p: nat :: f(p) <==> !Reserved(p, end)
  {
    (p: nat) => !Reserved(p, end)
  }

  function FreePages(n: nat, end: Word): seq<nat>
  {
    Filter(Kept(end), Down(n))
  }

  // The metadata while page_init sweeps the list: all is what is still on it,
  // everything else is reserved and has been taken off.
  ghost predicate Swept(refs: seq<Count>, links: seq<Option<nat>>, all: seq<nat>, end: Word)
  {
    && |refs| == |links|
    && Chain(links, all) && Distinct(all)
    && (forall p :: 0 <= p < |refs| && p in all ==> refs[p] == 0)
    && (forall p :: 0 <= p < |refs| && p !in all ==> Reserved(p, end) && refs[p] == 1 && links[p] == None)
  }

  method ListAll(m: Machine)
    requires m.WellFormed() && m.head == None
    modifies m`head, m.ref, m.link
    ensures m.WellFormed() && m.mem[..] == old(m.mem[..])
    ensures m.head == First(Down(m.link.Length)) && Chain(m.link[..], Down(m.link.Length))
    ensures forall p :: 0 <= p < m.link.Length ==> m.ref[p] == 0
  {
    var n := m.link.Length;
    for i := 0 to n
      invariant m.WellFormed() && m.head == First(Down(i)) && Chain(m.link[..], Down(i))
      invariant forall p :: 0 <= p < i ==> m.ref[p] == 0
    {
      ChainCons(m.link[..], Down(i), i);
      m.ref[i] := 0;
      m.link[i] := m.head;
      m.head := Some(i);
    }
  }

  // The second loop's pointer to a pointer: reading and writing through it.
  function Get(m: Machine, c: Cursor): Option<nat>
    requires c.AtLink? ==> c.p < m.link.Length
    reads m, m.link
  {
    match c case AtHead => m.head case AtLink(p) => m.link[p]
  }

  method Put(m: Machine, c: Cursor, x: Option<nat>)
    requires c.AtLink? ==> c.p < m.link.Length
    modifies m`head, m.link
    ensures m.head == if c.AtHead? then x else old(m.head)
    ensures m.link[..] == if c.AtLink? then old(m.link[..])[c.p := x] else old(m.link[..])
  {
    match c
    case AtHead => m.head := x;
    case AtLink(p) => m.link[p] := x;
  }

  // The links after writing x through cursor c.
  function Written(links: seq<Option<nat>>, c: Cursor, x: Option<nat>): seq<Option<nat>>
    requires c.AtLink? ==> c.p < |links|
  {
    if c.AtLink? then links[c.p := x] else links
  }

  lemma CutSwept(refs: seq<Count>, links: seq<Option<nat>>, kept: seq<nat>, p: nat, rest: seq<nat>, end: Word)
    requires Swept(refs, links, kept + ([p] + rest), end) && Reserved(p, end)
    ensures p < |links| && links[p] == First(rest)
    ensures CursorAfter(kept).AtLink? ==> CursorAfter(kept).p < |links|
    ensures Swept(refs[p := 1], Written(links[p := None], CursorAfter(kept), First(rest)), kept + rest, end)
  {
    var was, now := kept + ([p] + rest), kept + rest;
    hide Chain, Distinct;
    Cut(links, kept, p, rest);
    CutMembers(kept, p, rest);
    assert kept == [] ==> now == rest;
    assert kept != [] ==> kept[|kept| - 1] in now;
  }

  lemma CutMembers(kept: seq<nat>, p: nat, rest: seq<nat>)
    ensures forall q :: q in kept + ([p] + rest) <==> q == p || q in kept + rest
    ensures forall q :: q in kept + rest <==> q in kept || q in rest
  {
    assert forall q :: q in kept + ([p] + rest) <==> q in kept || q in [p] + rest;
    assert forall q :: q in [p] + rest <==> q == p || q in rest;
  }

  lemma PassSwept(refs: seq<Count>, links: seq<Option<nat>>, kept: seq<nat>, p: nat, rest: seq<nat>, end: Word)
    requires Swept(refs, links, kept + ([p] + rest), end)
    ensures kept + ([p] + rest) == kept + [p] + rest
    ensures p < |links| && links[p] == First(rest)
  {
    Cut(links, kept, p, rest);
  }

  // The two tests of the loop, kern/pmap.c:318 and 327.
  predicate TakenOff(p: nat, end: Word)
    ensures TakenOff(p, end) <==> Reserved(p, end)
  {
    (IOPHYSMEM <= p * PGSIZE && p * PGSIZE < end) || p * PGSIZE == 0
  }

  lemma SweptStart(refs: seq<Count>, links: seq<Option<nat>>, end: Word)
    requires |refs| == |links| && Chain(links, Down(|links|)) && forall p :: 0 <= p < |refs| ==> refs[p] == 0
    ensures Swept(refs, links, Down(|links|), end)
  {
    var n := |links|;
    forall p | 0 <= p < n ensures p in Down(n) {
      assert Down(n)[n - 1 - p] == p;
    }
  }

  // One turn of the sweep at cursor c: take the page off, or step over it.
  method SweepOne(m: Machine, c: Cursor, end: Word, ghost kept: seq<nat>, ghost p: nat, ghost rest: seq<nat>)
    returns (c': Cursor)
    requires m.WellFormed() && (c.AtLink? ==> c.p < m.link.Length) && c == CursorAfter(kept)
    requires m.head == First(kept + ([p] + rest)) && Get(m, c) == Some(p)
    requires Swept(m.ref[..], m.link[..], kept + ([p] + rest), end)
    modifies m`head, m.ref, m.link
    ensures m.WellFormed() && c' == CursorAfter(if Reserved(p, end) then kept else kept + [p])
    ensures (c'.AtLink? ==> c'.p < m.link.Length) && Get(m, c') == First(rest)
    ensures m.head == First((if Reserved(p, end) then kept else kept + [p]) + rest)
    ensures Swept(m.ref[..], m.link[..], (if Reserved(p, end) then kept else kept + [p]) + rest, end)
  {
    hide Swept, Reserved;
    var page := Get(m, c).value;
    c' := c;
    if TakenOff(page, end) {
      CutSwept(m.ref[..], m.link[..], kept, p, rest, end);
      m.ref[page] := 1;
      var next := m.link[page];
      m.link[page] := None;
      Put(m, c, next);
      assert kept == [] ==> kept + rest == rest;
    } else {
      PassSwept(m.ref[..], m.link[..], kept, p, rest, end);
      c' := AtLink(page);
    }
  }

  method PageInit(m: Machine, end: Word)
    requires m.WellFormed() && m.head == None
    modifies m`head, m.ref, m.link
    ensures m.WellFormed() && m.mem[..] == old(m.mem[..])
    ensures m.head == First(FreePages(m.link.Length, end))
    ensures Swept(m.ref[..], m.link[..], FreePages(m.link.Length, end), end)
    ensures EXTPHYSMEM <= end && end % PGSIZE == 0 ==>
              && m.head == First(Unclaimed(m.link.Length, end)) && Chain(m.link[..], Unclaimed(m.link.Length, end))
              && forall p :: 0 <= p < m.ref.Length ==>
                   if 1 <= p <= 159 || end / PGSIZE <= p then m.ref[p] == 0 else m.ref[p] == 1 && m.link[p] == None
  {
    hide Filter, Swept, Reserved, Chain, Kept, Unclaimed;
    ListAll(m);
    ghost var n := m.link.Length;
    ghost var kept: seq<nat>, rest: seq<nat> := [], Down(n);
    var c := AtHead;
    SweptStart(m.ref[..], m.link[..], end);
    assert kept + rest == rest;
    while Get(m, c) != None
      invariant m.WellFormed() && m.head == First(kept + rest) && Swept(m.ref[..], m.link[..], kept + rest, end)
      invariant c == CursorAfter(kept) && (c.AtLink? ==> c.p < m.link.Length) && Get(m, c) == First(rest)
      invariant FreePages(n, end) == kept + Filter(Kept(end), rest)
      decreases |rest|
    {
      ghost var p, tail := rest[0], rest[1..];
      assert rest == [p] + tail;
      SweptFilter(kept, p, tail, end);
      c := SweepOne(m, c, end, kept, p, tail);
      kept := if Reserved(p, end) then kept else kept + [p];
      rest := tail;
    }
    FilterNothing(Kept(end));
    assert kept + rest == kept;
    SweptMeans(m.ref[..], m.link[..], n, end);
  }

  lemma SweptMeans(refs: seq<Count>, links: seq<Option<nat>>, n: nat, end: Word)
    requires Swept(refs, links, FreePages(n, end), end) && |refs| == n
    ensures EXTPHYSMEM <= end && end % PGSIZE == 0 ==>
              && FreePages(n, end) == Unclaimed(n, end) && Chain(links, Unclaimed(n, end)) && |links| == n
              && forall p :: 0 <= p < n ==>
                   if 1 <= p <= 159 || end / PGSIZE <= p then refs[p] == 0 else refs[p] == 1 && links[p] == None
  {
    hide Reserved, FreePages, Chain, Unclaimed;
    if EXTPHYSMEM <= end && end % PGSIZE == 0 {
      FreePagesAre(n, end);
    }
  }

  lemma SweptFilter(kept: seq<nat>, p: nat, rest: seq<nat>, end: Word)
    ensures var f := Kept(end);
            kept + Filter(f, [p] + rest) == (if Reserved(p, end) then kept else kept + [p]) + Filter(f, rest)
  {
    FilterStep(Kept(end), p, rest);
  }

  lemma FilterNothing(f: nat -> bool)
    ensures Filter(f, []) == []
  {
  }

  // The list page_init leaves: exactly the unreserved pages, highest first.
  lemma FreePagesExact(n: nat, end: Word)
    ensures forall p: nat :: p in FreePages(n, end) <==> p < n && !Reserved(p, end)
    ensures forall i, j :: 0 <= i < j < |FreePages(n, end)| ==> FreePages(n, end)[i] > FreePages(n, end)[j]
  {
    var f, q := Kept(end), FreePages(n, end);
    forall p: nat ensures p in q <==> p < n && !Reserved(p, end) {
      FilterMembers(f, Down(n), p);
      if p < n { assert Down(n)[n - 1 - p] == p; }
    }
    forall i, j | 0 <= i < j < |q| ensures q[i] > q[j] {
      FilterKeepsOrder(f, Down(n), i, j);
    }
  }

  // hi - 1, ..., lo.
  function Run(lo: nat, hi: nat): (q: seq<nat>)
    ensures |q| == if lo < hi then hi - lo else 0
    ensures forall i :: 0 <= i < |q| ==> q[i] == hi - 1 - i
    decreases hi
  {
    if lo < hi then [hi - 1] + Run(lo, hi - 1) else []
  }

  lemma RunMembers(lo: nat, hi: nat)
    ensures forall p: nat :: p in Run(lo, hi) <==> lo <= p < hi
  {
    forall p: nat | lo <= p < hi ensures p in Run(lo, hi) {
      assert Run(lo, hi)[hi - 1 - p] == p;
    }
  }

  function Min(a: nat, b: nat): nat { if a < b then a else b }

  // What it comes to when the boot allocations end on a page boundary past 1 MB:
  // everything from their end on, then the first 640 KB without page 0.
  function Unclaimed(n: nat, end: Word): seq<nat>
  {
    Run(end / PGSIZE, n) + Run(1, Min(n, 160))
  }

  lemma FreePagesAre(n: nat, end: Word)
    requires EXTPHYSMEM <= end && end % PGSIZE == 0
    ensures FreePages(n, end) == Unclaimed(n, end)
    ensures forall p: nat :: p in FreePages(n, end) <==> p < n && (1 <= p <= 159 || end / PGSIZE <= p)
  {
    var q, u := FreePages(n, end), Unclaimed(n, end);
    FreePagesExact(n, end);
    hide FreePages;
    assert end / PGSIZE * PGSIZE == end;
    forall p: nat ensures p in q <==> p < n && (1 <= p <= 159 || end / PGSIZE <= p) {
    }
    RunMembers(end / PGSIZE, n);
    RunMembers(1, Min(n, 160));
    assert forall i, j :: 0 <= i < j < |u| ==> u[i] > u[j];
    DescendingEqual(q, u);
  }

  lemma {:induction false} DescendingEqual(q: seq<nat>, r: seq<nat>)
    requires forall p: nat :: p in q <==> p in r
    requires forall i, j :: 0 <= i < j < |q| ==> q[i] > q[j]
    requires forall i, j :: 0 <= i < j < |r| ==> r[i] > r[j]
    ensures q == r
    decreases |q|
  {
    FirstIn(q);
    FirstIn(r);
    if q != [] {
      assert q[0] in r && r[0] in q;
      forall p: nat ensures p in q[1..] <==> p in r[1..] {
        assert p in q <==> p == q[0] || p in q[1..];
        assert p in r <==> p == r[0] || p in r[1..];
      }
      DescendingEqual(q[1..], r[1..]);
    }
  }

  lemma FirstIn(q: seq<nat>)
    ensures q != [] ==> q[0] in q
  {
  }

  // With an empty directory that maps itself, the state page_init leaves is
  // valid: the reserved pages are the boot pages, with their count of one.
  lemma InitialStateIsValid(s: State, end: Word)
    requires s.head == First(FreePages(NPages(s), end)) && s.tlb == map[]
    requires Swept(s.refs, s.links, FreePages(NPages(s), end), end)
    requires Pde(s, SELF) == Pack(s.pgdir, 5) && forall d: Index :: d != SELF ==> Pde(s, d) == 0
    requires Reserved(s.pgdir, end)
    ensures Inv(s, Own(FreePages(NPages(s), end), [], set p | 0 <= p < NPages(s) && Reserved(p, end)))
  {
    var free := FreePages(NPages(s), end);
    var o := Own(free, [], set p | 0 <= p < NPages(s) && Reserved(p, end));
    FreePagesExact(NPages(s), end);
    NothingNamed(s);
    hide FreePages, Reserved;
    assert TablesValid(s) by { EmptyTablesValid(s); }
    hide TablesValid, Pde, Pte;
    assert ListsValid(s, o);
    assert CountsValid(s, o);
  }

  lemma EmptyTablesValid(s: State)
    requires Pde(s, SELF) == Pack(s.pgdir, 5) && forall d: Index :: d != SELF ==> Pde(s, d) == 0
    ensures TablesValid(s)
  {
    forall d: Index | d != SELF ensures !Present(Pde(s, d)) { }
    forall v: Vpn | v.pdx < USERTOP ensures Pte(s, v) == 0 { }
    hide Pde, Pte;
  }

  lemma NothingNamed(s: State)
    requires forall d: Index :: d != SELF ==> Pde(s, d) == 0
    ensures forall p: nat :: NamedBy(s, p) == {}
  {
    assert forall x :: Target(s, x) == None;
  }

  // ---------- check_page_free_list(1) ----------

  const LOW_PAGES := 1024   // PDX(page2pa(pp)) < 1

  function Low(): (f: nat -> bool)
    ensures forall p: nat :: f(p) <==> p < LOW_PAGES
  {
    (p: nat) => p < LOW_PAGES
  }

  function High(): (f: nat -> bool)
    ensures forall p: nat :: f(p) <==> p >= LOW_PAGES
  {
    (p: nat) => p >= LOW_PAGES
  }

  // The stable partition: the pages below 4 MB first.
  function Partitioned(q: seq<nat>): seq<nat>
  {
    Filter(Low(), q) + Filter(High(), q)
  }

  lemma PartitionMembers(q: seq<nat>)
    ensures forall p :: p in Partitioned(q) <==> p in q
    ensures Distinct(q) ==> Distinct(Partitioned(q))
  {
    forall p: nat ensures p in Partitioned(q) <==> p in q {
      FilterMembers(Low(), q, p);
      FilterMembers(High(), q, p);
    }
    if Distinct(q) {
      FilterDistinct(Low(), q);
      FilterDistinct(High(), q);
      forall p: nat ensures !(p in Filter(Low(), q) && p in Filter(High(), q)) {
        FilterMembers(Low(), q, p);
        FilterMembers(High(), q, p);
      }
      DistinctJoin(Filter(Low(), q), Filter(High(), q));
    }
  }

  // In the middle of the rewiring: lo and hi are threaded but for their last
  // links, rest is untouched.
  ghost predicate Threaded(links: seq<Option<nat>>, lo: seq<nat>, hi: seq<nat>, rest: seq<nat>)
  {
    && OpenChain(links, lo) && OpenChain(links, hi) && Chain(links, rest)
    && Distinct(lo) && Distinct(hi) && Distinct(rest)
    && (forall p :: p in lo ==> p !in hi && p !in rest)
    && (forall p :: p in hi ==> p !in rest)
  }

  // Moving rest's first page to the end of one class writes only that class's
  // last link.
  lemma ThreadOne(links: seq<Option<nat>>, a: seq<nat>, b: seq<nat>, p: nat, rest: seq<nat>)
    requires Threaded(links, a, b, [p] + rest)
    ensures p < |links| && links[p] == First(rest)
    ensures a != [] ==> a[|a| - 1] < |links| && a[|a| - 1] != p
    ensures Threaded(if a == [] then links else links[a[|a| - 1] := Some(p)], a + [p], b, rest)
  {
    var t := [p] + rest;
    assert t[0] == p && t[1..] == rest && p in t;
    ChainTail(links, t, None);
    Unsplice(links, [p], rest);
    OpenChainSnoc(links, a, p);
    if a == [] {
      assert a + [p] == [p];
    } else {
      var q := a[|a| - 1];
      assert q in a;
      ChainElsewhere(links, rest, q, Some(p));
      OpenChainElsewhere(links, b, q, Some(p));
    }
  }

  // The two final writes close hi with NULL and lo onto hi.
  lemma ThreadEnd(links: seq<Option<nat>>, lo: seq<nat>, hi: seq<nat>)
    requires Threaded(links, lo, hi, [])
    ensures hi != [] ==> hi[|hi| - 1] < |links|
    ensures var l1 := if hi == [] then links else links[hi[|hi| - 1] := None];
            && |l1| == |links| && (lo != [] ==> lo[|lo| - 1] < |l1|)
            && Chain(if lo == [] then l1 else l1[lo[|lo| - 1] := First(hi)], lo + hi)
  {
    var l1 := if hi == [] then links else links[hi[|hi| - 1] := None];
    assert Chain(l1, []);
    if hi != [] {
      assert hi[|hi| - 1] !in lo;
      OpenChainElsewhere(links, hi, hi[|hi| - 1], None);
      OpenChainElsewhere(links, lo, hi[|hi| - 1], None);
    }
    Splice(l1, hi, []);
    assert hi + [] == hi;
    if lo == [] {
      assert lo + hi == hi;
    } else {
      var q := lo[|lo| - 1];
      assert q in lo;
      ChainElsewhere(l1, hi, q, First(hi));
      OpenChainElsewhere(l1, lo, q, First(hi));
      Splice(l1[q := First(hi)], lo, hi);
    }
  }

  // Everything off the list keeps its link.
  ghost predicate Untouched(was: seq<Option<nat>>, now: seq<Option<nat>>, q: seq<nat>)
  {
    |was| == |now| && forall p :: 0 <= p < |was| && p !in q ==> now[p] == was[p]
  }

  ghost predicate Within(lo: seq<nat>, hi: seq<nat>, rest: seq<nat>, q: seq<nat>)
  {
    forall p :: p in lo || p in hi || p in rest ==> p in q
  }

  predicate Halves(lo: seq<nat>, hi: seq<nat>, rest: seq<nat>, q: seq<nat>)
  {
    && Filter(Low(), q) == lo + Filter(Low(), rest)
    && Filter(High(), q) == hi + Filter(High(), rest)
  }

  ghost predicate Rewiring(links: seq<Option<nat>>, lo: seq<nat>, hi: seq<nat>, rest: seq<nat>, q: seq<nat>)
  {
    Threaded(links, lo, hi, rest) && Within(lo, hi, rest, q) && Halves(lo, hi, rest, q)
  }

  lemma WithinStep(lo: seq<nat>, hi: seq<nat>, p: nat, rest: seq<nat>, q: seq<nat>)
    requires Within(lo, hi, [p] + rest, q)
    ensures p in q && (lo != [] ==> lo[|lo| - 1] in q) && (hi != [] ==> hi[|hi| - 1] in q)
    ensures Within(lo + [p], hi, rest, q) && Within(lo, hi + [p], rest, q)
  {
    assert p in [p] + rest && forall x :: x in rest ==> x in [p] + rest;
  }

  lemma HalvesStep(lo: seq<nat>, hi: seq<nat>, p: nat, rest: seq<nat>, q: seq<nat>)
    requires Halves(lo, hi, [p] + rest, q)
    ensures p < LOW_PAGES ==> Halves(lo + [p], hi, rest, q)
    ensures p >= LOW_PAGES ==> Halves(lo, hi + [p], rest, q)
  {
    hide Filter;
    HalfStep(Low(), lo, p, rest, Filter(Low(), q));
    HalfStep(High(), hi, p, rest, Filter(High(), q));
  }

  lemma HalfStep(f: nat -> bool, a: seq<nat>, p: nat, rest: seq<nat>, all: seq<nat>)
    requires all == a + Filter(f, [p] + rest)
    ensures all == (if f(p) then a + [p] else a) + Filter(f, rest)
  {
    hide Filter;
    FilterStep(f, p, rest);
  }

  lemma RewireStep(links: seq<Option<nat>>, lo: seq<nat>, hi: seq<nat>, p: nat, rest: seq<nat>, q: seq<nat>)
    requires Rewiring(links, lo, hi, [p] + rest, q)
    ensures p < |links| && links[p] == First(rest) && p in q
    ensures lo != [] ==> lo[|lo| - 1] < |links| && lo[|lo| - 1] in q && lo[|lo| - 1] != p
    ensures hi != [] ==> hi[|hi| - 1] < |links| && hi[|hi| - 1] in q && hi[|hi| - 1] != p
    ensures p < LOW_PAGES ==>
              Rewiring(if lo == [] then links else links[lo[|lo| - 1] := Some(p)], lo + [p], hi, rest, q)
    ensures p >= LOW_PAGES ==>
              Rewiring(if hi == [] then links else links[hi[|hi| - 1] := Some(p)], lo, hi + [p], rest, q)
  {
    hide Threaded, Within, Halves, OpenChain, Chain, Filter, Distinct;
    WithinStep(lo, hi, p, rest, q);
    HalvesStep(lo, hi, p, rest, q);
    ThreadOne(links, lo, hi, p, rest);
    ThreadedSym(links, lo, hi, [p] + rest);
    ThreadOne(links, hi, lo, p, rest);
    ThreadedSym(if hi == [] then links else links[hi[|hi| - 1] := Some(p)], hi + [p], lo, rest);
  }

  lemma ThreadedSym(links: seq<Option<nat>>, lo: seq<nat>, hi: seq<nat>, rest: seq<nat>)
    requires Threaded(links, lo, hi, rest)
    ensures Threaded(links, hi, lo, rest)
  {
  }

  // *tail = x, where AtHead stands for the address of a local variable, whose
  // new value is returned.
  method PutTail(m: Machine, tail: Cursor, local: Option<nat>, x: Option<nat>) returns (local': Option<nat>)
    requires tail.AtLink? ==> tail.p < m.link.Length
    modifies m.link
    ensures local' == if tail.AtHead? then x else local
    ensures m.link[..] == Written(old(m.link[..]), tail, x)
  {
    local' := local;
    match tail
    case AtHead => local' := x;
    case AtLink(p) => m.link[p] := x;
  }

  lemma UntouchedStep(was: seq<Option<nat>>, now: seq<Option<nat>>, q: seq<nat>, c: Cursor, x: Option<nat>)
    requires Untouched(was, now, q) && (c.AtLink? ==> c.p < |now| && c.p in q)
    ensures Untouched(was, Written(now, c, x), q)
  {
  }

  // The rewiring of kern/pmap.c:667-680 turns the list, in place, into its
  // stable partition: the pages below 4 MB first. It writes no other link.
  method MoveLowPagesFirst(m: Machine, ghost q: seq<nat>)
    requires m.WellFormed() && m.head == First(q) && Chain(m.link[..], q) && Distinct(q)
    modifies m`head, m.link
    ensures m.head == First(Partitioned(q)) && Chain(m.link[..], Partitioned(q))
    ensures Untouched(old(m.link[..]), m.link[..], q) && m.WellFormed()
  {
    hide Rewiring, Threaded, Untouched, Filter, Chain, Distinct, Shaped, Partitioned, Pdx;
    MaxPages(m);
    ghost var was := m.link[..];
    ghost var lo: seq<nat>, hi: seq<nat>, rest: seq<nat> := [], [], q;
    var pp1, pp2: Option<nat>, t0, t1 := None, None, AtHead, AtHead;
    var pp := m.head;
    RewiringStarts(was, q);
    while pp != None
      invariant pp == First(rest) && Rewiring(m.link[..], lo, hi, rest, q) && Untouched(was, m.link[..], q)
      invariant t0 == CursorAfter(lo) && (lo != [] ==> pp1 == First(lo))
      invariant t1 == CursorAfter(hi) && (hi != [] ==> pp2 == First(hi))
      decreases |rest|
    {
      var p := pp.value;
      ghost var tail := rest[1..];
      assert rest == [p] + tail;
      RewireStep(m.link[..], lo, hi, p, tail, q);
      LowTest(p);
      if Pdx(p * PGSIZE) < 1 {
        UntouchedStep(was, m.link[..], q, t0, Some(p));
        pp1 := PutTail(m, t0, pp1, Some(p));
        t0 := AtLink(p);
        lo := lo + [p];
      } else {
        UntouchedStep(was, m.link[..], q, t1, Some(p));
        pp2 := PutTail(m, t1, pp2, Some(p));
        t1 := AtLink(p);
        hi := hi + [p];
      }
      pp := m.link[p];
      rest := tail;
    }
    RewiringEnds(m.link[..], lo, hi, q);
    UntouchedStep(was, m.link[..], q, t1, None);
    pp2 := PutTail(m, t1, pp2, None);
    UntouchedStep(was, m.link[..], q, t0, First(hi));
    pp1 := PutTail(m, t0, pp1, pp2);
    m.head := pp1;
    PartitionMembers(q);
    LinksInRange(was, m.link[..], q, Partitioned(q), m.mem.Length);
    assert m.WellFormed() by { StillShaped(old(m.Raw()), m.Raw()); }
  }

  lemma MaxPages(m: Machine)
    requires m.WellFormed()
    ensures m.link.Length == m.mem.Length <= MAXPAGES
  {
  }

  lemma LowTest(p: nat)
    requires p < MAXPAGES
    ensures Pdx(p * PGSIZE) < 1 <==> p < LOW_PAGES
  {
  }

  ghost predicate InRange(links: seq<Option<nat>>, n: nat)
  {
    forall p :: 0 <= p < |links| && links[p].Some? ==> links[p].value < n
  }

  lemma LinksInRange(was: seq<Option<nat>>, now: seq<Option<nat>>, q: seq<nat>, r: seq<nat>, n: nat)
    requires Untouched(was, now, q) && Chain(now, r) && |now| <= n && forall p :: p in q ==> p in r
    ensures InRange(was, n) ==> InRange(now, n)
    ensures First(r).Some? ==> First(r).value < n
  {
    if InRange(was, n) {
      forall p | 0 <= p < |now| && now[p].Some? ensures now[p].value < n {
        if p in q {
          var i :| 0 <= i < |r| && r[i] == p;
          assert now[r[i]] == Successor(r, i);
        }
      }
    }
  }

  lemma StillShaped(s: RawState, s': RawState)
    requires Shaped(s) && s' == s.(links := s'.links, head := s'.head) && |s'.links| == |s.links|
    requires (InRange(s.links, |s.mem|) ==> InRange(s'.links, |s.mem|)) && (s'.head.Some? ==> s'.head.value < |s.mem|)
    ensures Shaped(s')
  {
  }

  lemma RewiringStarts(links: seq<Option<nat>>, q: seq<nat>)
    requires Chain(links, q) && Distinct(q)
    ensures Rewiring(links, [], [], q, q) && Untouched(links, links, q)
  {
  }

  lemma RewiringEnds(links: seq<Option<nat>>, lo: seq<nat>, hi: seq<nat>, q: seq<nat>)
    requires Rewiring(links, lo, hi, [], q)
    ensures Partitioned(q) == lo + hi
    ensures CursorAfter(hi).AtLink? ==> CursorAfter(hi).p < |links| && CursorAfter(hi).p in q
    ensures CursorAfter(lo).AtLink? ==> CursorAfter(lo).p < |links| && CursorAfter(lo).p in q
    ensures Chain(Written(Written(links, CursorAfter(hi), None), CursorAfter(lo), First(hi)), lo + hi)
  {
    ThreadEnd(links, lo, hi);
    if lo != [] { assert lo[|lo| - 1] in lo; }
    if hi != [] { assert hi[|hi| - 1] in hi; }
  }

  lemma ReorderKeepsInv(s: State, s': State, o: Own, free: seq<nat>)
    requires Inv(s, o) && s' == s.(links := s'.links, head := s'.head)
    requires Untouched(s.links, s'.links, o.free) && s'.head == First(free) && Chain(s'.links, free) && Distinct(free)
    requires forall p :: p in free <==> p in o.free
    ensures Inv(s', o.(free := free))
  {
    assert SameTables(s, s') by {
      forall d: Index ensures Pde(s', d) == Pde(s, d) { }
      forall v: Vpn ensures Pte(s', v) == Pte(s, v) { }
    }
    TablesCarry(s, s');
    hide TablesValid, Pde, Pte;
    HeldUntouched(s.links, s'.links, o.free, o.held);
    assert ListsValid(s', o.(free := free)) by { hide CountsValid; }
  }

  lemma HeldUntouched(was: seq<Option<nat>>, now: seq<Option<nat>>, q: seq<nat>, held: seq<nat>)
    requires Untouched(was, now, q) && Chain(was, held) && forall p :: p in held ==> p !in q
    ensures Chain(now, held)
  {
    forall i | 0 <= i < |held| ensures held[i] < |now| && now[held[i]] == Successor(held, i) {
      assert held[i] in held && was[held[i]] == Successor(held, i);
    }
  }

  const POISON: Word := 0x9797_9797

  function Poisoned(f: Frame): (g: Frame)
    ensures forall i :: 0 <= i < 1024 ==> g[i] == if i < 32 then POISON else f[i]
  {
    seq(32, _ => POISON) + f[32..]
  }

  // No reserved page is on the list.
  ghost predicate Unreserved(free: seq<nat>, end: Word)
  {
    && EXTPHYSMEM < end <= 0x40_0000   // the kernel itself is loaded there
    && forall p: nat :: p in free ==> p < MAXPAGES && !Reserved(p, end)
  }

  ghost predicate HasBase(free: seq<nat>) { exists p: nat :: p in free && p * PGSIZE < EXTPHYSMEM }

  ghost predicate HasExtended(free: seq<nat>) { exists p: nat :: p in free && p * PGSIZE >= EXTPHYSMEM }

  // Every listed page has a kernel address of its own.
  ghost predicate Reached(free: seq<nat>) { forall p: nat :: p in free ==> p < REACH }

  // memset(page2kva(p), 0x97, 128) on every page of the list below the limit;
  // false when page2kva wraps, and the address is not that of the page.
  method PoisonFree(m: Machine, limit: nat, ghost o: Own) returns (ok: bool)
    requires m.Sound(o)
    modifies m.mem
    ensures m.Sound(o) && SameTables(old(m.St()), m.St())
    ensures m.St() == old(m.St()).(mem := m.St().mem)
    ensures forall p :: limit <= p < m.mem.Length ==> m.mem[p] == old(m.mem[p])
    ensures ok <==> ReachedBelow(o.free, limit)
    ensures ok ==> Spread(o.free, limit, old(m.mem[..]), m.mem[..])
  {
    hide Inv, SameTables, Spread, ReachedBelow;
    ghost var s0, k := m.St(), 0;
    var pp := m.head;
    SameMemory(s0, s0);
    ListAt(s0, o, 0);
    SpreadNone(o.free[..0], limit, s0.mem);
    while pp != None
      invariant k <= |o.free| && pp == (if k < |o.free| then Some(o.free[k]) else None)
      invariant m.Sound(o) && SameTables(s0, m.St()) && m.St() == s0.(mem := m.St().mem)
      invariant Spread(o.free[..k], limit, s0.mem, m.mem[..])
      invariant ReachedBelow(o.free[..k], limit)
      decreases |o.free| - k
    {
      var p := pp.value;
      ListAt(m.St(), o, k);
      SpreadStep(o.free, k, limit, s0.mem, m.mem[..]) by { FreeIsDistinct(s0, o); }
      ghost var s := m.St();
      ok := PoisonOne(m, p, limit, o);
      SameTablesTrans(s0, s, m.St());
      ReachedStep(o.free, k, limit);
      if !ok {
        SpreadAbove(o.free[..k], limit, s0.mem, m.mem[..]);
        return;
      }
      pp := m.link[p];
      k := k + 1;
    }
    assert o.free[..k] == o.free;
    SpreadAbove(o.free, limit, s0.mem, m.mem[..]);
    ok := true;
  }

  // Every page of q below the limit has a kernel address of its own.
  ghost predicate ReachedBelow(q: seq<nat>, limit: nat) { forall p: nat :: p in q && p < limit ==> p < REACH }

  lemma ReachedStep(q: seq<nat>, k: nat, limit: nat)
    requires k < |q| && ReachedBelow(q[..k], limit)
    ensures ReachedBelow(q[..k + 1], limit) <==> (q[k] < limit ==> q[k] < REACH)
    ensures q[k] < limit && q[k] >= REACH ==> !ReachedBelow(q, limit)
  {
    assert q[..k + 1] == q[..k] + [q[k]];
    assert q[k] in q && q[k] in q[..k + 1];
    assert forall p: nat :: p in q[..k + 1] ==> p in q[..k] || p == q[k];
  }

  lemma SpreadNone(q: seq<nat>, limit: nat, was: seq<Frame>)
    requires q == []
    ensures Spread(q, limit, was, was) && ReachedBelow(q, limit)
  {
  }

  lemma SpreadAbove(q: seq<nat>, limit: nat, was: seq<Frame>, now: seq<Frame>)
    requires Spread(q, limit, was, now)
    ensures |now| == |was| && forall p :: limit <= p < |now| ==> now[p] == was[p]
  {
  }

  method PoisonOne(m: Machine, p: nat, limit: nat, ghost o: Own) returns (ok: bool)
    requires m.Sound(o) && p < m.mem.Length && m.ref[p] == 0
    modifies m.mem
    ensures m.Sound(o) && SameTables(old(m.St()), m.St()) && m.St() == old(m.St()).(mem := m.St().mem)
    ensures ok <==> (p < limit ==> p < REACH)
    ensures m.mem[..] == if ok && p < limit then old(m.mem[..])[p := Poisoned(old(m.mem[p]))] else old(m.mem[..])
  {
    hide Inv, Pde, Pte, Poisoned;
    ghost var s := m.St();
    SameMemory(s, s);
    ok := true;
    if p < limit {
      WriteKeepsInv(s, o, p, Poisoned(m.mem[p]));
      Page2KvaReachesIff(p);
      if Page2Kva(p) < KERNBASE {
        return false;
      }
      m.mem[p] := Poisoned(m.mem[p]);
    }
  }

  lemma SameTablesTrans(a: State, b: State, c: State)
    requires SameTables(a, b) && SameTables(b, c)
    ensures SameTables(a, c)
  {
    hide Pde, Pte;
  }

  // Exactly the pages of q below the limit have been filled.
  ghost predicate Spread(q: seq<nat>, limit: nat, was: seq<Frame>, now: seq<Frame>)
  {
    |now| == |was| && forall p: nat :: p < |now| ==> now[p] == if p in q && p < limit then Poisoned(was[p]) else was[p]
  }

  lemma SpreadStep(q: seq<nat>, k: nat, limit: nat, was: seq<Frame>, now: seq<Frame>)
    requires k < |q| && Distinct(q) && q[k] < |was| && Spread(q[..k], limit, was, now)
    ensures var p := q[k];
            Spread(q[..k + 1], limit, was, if p < limit then now[p := Poisoned(now[p])] else now)
  {
    assert q[..k + 1] == q[..k] + [q[k]];
    assert q[k] !in q[..k];
  }

  lemma ListAt(s: State, o: Own, k: nat)
    requires Inv(s, o) && k <= |o.free|
    ensures s.head == (if |o.free| > 0 then Some(o.free[0]) else None)
    ensures k < |o.free| ==> o.free[k] < NPages(s) && s.refs[o.free[k]] == 0
                             && s.links[o.free[k]] == (if k + 1 < |o.free| then Some(o.free[k + 1]) else None)
  {
    hide TablesValid, CountsValid, TlbValid;
    ListPosition(s, o, k);
  }

  lemma FreeIsDistinct(s: State, o: Own)
    requires Inv(s, o)
    ensures Distinct(o.free)
  {
    hide TablesValid, CountsValid, TlbValid;
  }

  lemma ListedIsUnreserved(free: seq<nat>, k: nat, end: Word)
    requires Unreserved(free, end) && k < |free|
    ensures var a := free[k] * PGSIZE;
            && free[k] < MAXPAGES
            && a != 0 && a != IOPHYSMEM && a != EXTPHYSMEM - PGSIZE && a != EXTPHYSMEM
            && (a < EXTPHYSMEM || Page2Kva(free[k]) >= KERNBASE + end <==> a < EXTPHYSMEM || free[k] < REACH)
  {
    assert free[k] in free;
    Page2KvaReachesIff(free[k]);
  }

  // The loop of kern/pmap.c:688-706 with its assertions; first is first_free_page.
  // false is a failed assertion: the last one fails exactly for pages whose
  // kernel address has wrapped.
  method CountFree(m: Machine, end: Word, ghost o: Own) returns (ok: bool, base: nat, ext: nat)
    requires m.Sound(o) && Unreserved(o.free, end)
    ensures ok <==> Reached(o.free)
    ensures ok ==> base + ext == |o.free| && (base > 0 <==> HasBase(o.free)) && (ext > 0 <==> HasExtended(o.free))
  {
    hide ListsValid, TablesValid, CountsValid, TlbValid, Pde, Pte, Reserved, Page2Kva, Unreserved;
    ok, base, ext := true, 0, 0;
    ghost var k := 0;
    var pp, first := m.head, KERNBASE + end;
    ListPosition(m.St(), o, 0);
    while pp != None
      invariant k <= |o.free| && pp == (if k < |o.free| then Some(o.free[k]) else None)
      invariant base + ext == k
      invariant forall i :: 0 <= i < k ==> o.free[i] < REACH
      invariant forall i :: 0 <= i < k && o.free[i] * PGSIZE < EXTPHYSMEM ==> base > 0
      invariant forall i :: 0 <= i < k && o.free[i] * PGSIZE >= EXTPHYSMEM ==> ext > 0
      invariant (base > 0 ==> HasBase(o.free)) && (ext > 0 ==> HasExtended(o.free))
      decreases |o.free| - k
    {
      var p := pp.value;
      ListPosition(m.St(), o, k);
      ListedIsUnreserved(o.free, k, end);
      assert p < m.mem.Length && p in o.free;
      assert p * PGSIZE != 0 && p * PGSIZE != IOPHYSMEM && p * PGSIZE != EXTPHYSMEM - PGSIZE && p * PGSIZE != EXTPHYSMEM;
      if !(p * PGSIZE < EXTPHYSMEM || Page2Kva(p) >= first) {
        return false, base, ext;
      }
      if p * PGSIZE < EXTPHYSMEM {
        base := base + 1;
      } else {
        ext := ext + 1;
      }
      pp := m.link[p];
      k := k + 1;
    }
  }

  // check_page_free_list on any valid state whose list avoids the reserved pages:
  // it passes exactly when every listed page is within the first 256 MB and the
  // list has pages below and above the I/O hole. With only_low_memory it leaves
  // the list partitioned and writes no frame at or above 4 MB; either way no page
  // table, count or translation changes, and when it passes exactly the pages
  // listed (below 4 MB, with only_low_memory) have been filled with 0x97.
  method CheckPageFreeList(m: Machine, onlyLow: bool, end: Word, ghost o: Own) returns (ok: bool, ghost o': Own)
    requires m.Sound(o) && Unreserved(o.free, end)
    modifies m`head, m.link, m.mem
    ensures ok <==> Reached(o.free) && HasBase(o.free) && HasExtended(o.free)
    ensures m.Sound(o') && SameTables(old(m.St()), m.St()) && m.ref[..] == old(m.ref[..])
    ensures ok ==> o' == o.(free := if onlyLow then Partitioned(o.free) else o.free)
    ensures onlyLow ==> forall p :: LOW_PAGES <= p < m.mem.Length ==> m.mem[p] == old(m.mem[p])
    ensures ok ==> forall p: nat :: p < m.mem.Length ==>
              m.mem[p] == if p in o.free && (onlyLow ==> p < LOW_PAGES) then Poisoned(old(m.mem[p])) else old(m.mem[p])
  {
    hide Inv, SameTables, Partitioned, Poisoned, Unreserved, Reached, HasBase, HasExtended, ReachedBelow, Spread;
    ghost var s0 := m.St();
    o' := o;
    EmptyFails(s0, o);
    SameMemory(s0, s0);
    if m.head == None {
      return false, o;
    }
    if onlyLow {
      o' := Reorder(m, end, o);
    }
    ghost var s1 := m.St();
    ok := PoisonFree(m, if onlyLow then LOW_PAGES else MAXPAGES, o');
    if !ok {
      NotReached(o'.free, if onlyLow then LOW_PAGES else MAXPAGES);
      SameTablesTrans(s0, s1, m.St());
      return;
    }
    SameTablesTrans(s0, s1, m.St());
    SpreadMeans(o.free, o'.free, if onlyLow then LOW_PAGES else MAXPAGES, s1.mem, m.mem[..]);
    var base, ext;
    ok, base, ext := CountFree(m, end, o');
    ok := ok && base > 0 && ext > 0;
  }

  method Reorder(m: Machine, end: Word, ghost o: Own) returns (ghost o': Own)
    requires m.Sound(o)
    modifies m`head, m.link
    ensures m.Sound(o') && SameTables(old(m.St()), m.St()) && o' == o.(free := Partitioned(o.free))
    ensures Unreserved(o'.free, end) == Unreserved(o.free, end) && Reached(o'.free) == Reached(o.free)
    ensures HasBase(o'.free) == HasBase(o.free) && HasExtended(o'.free) == HasExtended(o.free)
    ensures forall p :: p in o'.free <==> p in o.free
  {
    hide TablesValid, CountsValid, TlbValid, Pde, Pte, Unreserved, Reached, HasBase, HasExtended, Partitioned;
    ghost var s0 := m.St();
    MoveLowPagesFirst(m, o.free);
    PartitionMembers(o.free);
    ReorderKeepsInv(s0, m.St(), o, Partitioned(o.free));
    o' := o.(free := Partitioned(o.free));
    SameMembers(o.free, o'.free, end);
    SameMemory(s0, m.St());
  }

  lemma SpreadMeans(q: seq<nat>, r: seq<nat>, limit: nat, was: seq<Frame>, now: seq<Frame>)
    requires Spread(r, limit, was, now) && forall p :: p in r <==> p in q
    ensures |now| == |was|
    ensures forall p: nat :: p < |now| ==> now[p] == if p in q && p < limit then Poisoned(was[p]) else was[p]
  {
    hide Poisoned;
  }

  lemma SameMembers(q: seq<nat>, r: seq<nat>, end: Word)
    requires forall p :: p in r <==> p in q
    ensures Unreserved(r, end) == Unreserved(q, end) && Reached(r) == Reached(q)
    ensures HasBase(r) == HasBase(q) && HasExtended(r) == HasExtended(q)
  {
    hide Reserved;
  }

  lemma NotReached(q: seq<nat>, limit: nat)
    ensures Reached(q) ==> ReachedBelow(q, limit)
  {
  }

  // On page_init's list the check's kernel-address assertion holds exactly for
  // machines of at most 256 MB.
  lemma FreeReachedIff(n: nat, end: Word)
    requires n <= MAXPAGES && end <= 0x40_0000
    ensures Reached(FreePages(n, end)) <==> n <= REACH
  {
    FreePagesExact(n, end);
    hide FreePages;
    if n > REACH {
      assert !Reserved(REACH, end) && REACH in FreePages(n, end);
    }
  }

  // A machine of 512 MB: the list is as it should be, with pages of both kinds,
  // page 65536 among them, whose kernel address is 0.
  lemma LargeMachineFails(end: Word)
    requires EXTPHYSMEM < end <= 0x40_0000
    ensures var free := FreePages(0x2_0000, end);
            && Unreserved(free, end) && HasBase(free) && HasExtended(free)
            && 0x1_0000 in free && Page2Kva(0x1_0000) == 0 && !Reached(free)
  {
    FreePagesExact(0x2_0000, end);
    hide FreePages;
    assert !Reserved(1, end) && 1 in FreePages(0x2_0000, end) && 1 * PGSIZE < EXTPHYSMEM;
    assert !Reserved(0x1_0000, end) && 0x1_0000 * PGSIZE >= EXTPHYSMEM;
  }

  lemma EmptyFails(s: State, o: Own)
    requires Inv(s, o)
    ensures s.head == None <==> o.free == []
    ensures s.head == None ==> !HasBase(o.free)
  {
    hide TablesValid, CountsValid, TlbValid;
  }

  lemma SameMemory(s: State, s': State)
    requires s'.mem == s.mem && s'.pgdir == s.pgdir
    ensures SameTables(s, s')
  {
    forall d: Index ensures Pde(s', d) == Pde(s, d) { }
    forall v: Vpn ensures Pte(s', v) == Pte(s, v) { }
  }
}
