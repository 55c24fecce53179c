// The kernel's physical-memory state as a value: page metadata, the intrusive
// free list, the words of every page frame (page directory and page tables
// included) and the TLB; and the invariant that ties them together.
module PageState {
  import opened Mmu

  datatype Option<+T> = None | Some(value: T)

  // What address translation yields: a physical page and the effective rights.
  datatype Xlat = Xlat(ppn: nat, writable: bool, user: bool)

  datatype RawState = State(
    refs: seq<Count>,            // pages[i].pp_ref
    links: seq<Option<nat>>,     // pages[i].pp_link
    head: Option<nat>,           // page_free_list
    mem: seq<Frame>,             // physical memory, page by page
    pgdir: nat,                  // the frame of kern_pgdir
    tlb: map<Vpn, Xlat>)

  predicate Shaped(s: RawState)
  {
    && |s.refs| == |s.links| == |s.mem| <= 0x10_0000
    && s.pgdir < |s.mem|
    && (s.head.Some? ==> s.head.value < |s.mem|)
    && forall p :: 0 <= p < |s.links| && s.links[p].Some? ==> s.links[p].value < |s.mem|
  }

  type State = s: RawState | Shaped(s)
    witness State([0], [None], None, [ZeroFrame()], 0, map[])

  function NPages(s: State): nat { |s.mem| }

  // ---------- reading the two-level table ----------

  function Pde(s: State, d: Index): Word { s.mem[s.pgdir][d] }

  function TableOf(s: State, d: Index): nat { Ppn(Pde(s, d)) }

  predicate HasTable(s: State, d: Index)
  {
    Present(Pde(s, d)) && TableOf(s, d) < |s.mem|
  }

  // The page-table entry word for v; 0 where there is no page table.
  function Pte(s: State, v: Vpn): Word
  {
    if HasTable(s, v.pdx) then s.mem[TableOf(s, v.pdx)][v.ptx] else 0
  }

  predicate Mapped(s: State, v: Vpn) { Present(Pte(s, v)) }

  // The hardware's translation (Intel SDM volume 3A, sections 4.3 and 4.6):
  // a right is granted when both levels grant it.
  function Translate(s: State, v: Vpn): Option<Xlat>
  {
    if !Mapped(s, v) then None
    else
      var e, d := Pte(s, v), Pde(s, v.pdx);
      Some(Xlat(Ppn(e), Writable(e) && Writable(d), User(e) && User(d)))
  }

  // The address space outside the self-map window.
  ghost function Space(s: State): map<Vpn, Xlat>
  {
    map v | v in AllVpns() && v.pdx != SELF && Mapped(s, v) :: Translate(s, v).value
  }

  // ---------- who names a page ----------

  // A place that can hold a counted reference to a page.
  datatype Slot = Dir(d: Index) | Ent(v: Vpn)

  // The page a slot names. The self-map entry and the static mappings above
  // UTOP do not count (kern/pmap.c:475-476).
  function Target(s: State, x: Slot): Option<nat>
  {
    match x
    case Dir(d) =>
      if d != SELF && Present(Pde(s, d)) then Some(TableOf(s, d)) else None
    case Ent(v) =>
      if v.pdx < USERTOP && Mapped(s, v) then Some(Ppn(Pte(s, v))) else None
  }

  ghost function AllVpns(): set<Vpn>
  {
    set d: int, t: int | 0 <= d < 1024 && 0 <= t < 1024 :: Vpn(d, t)
  }

  ghost function AllSlots(): set<Slot>
  {
    (set d: int | 0 <= d < 1024 :: Dir(d)) + (set v | v in AllVpns() :: Ent(v))
  }

  lemma EverySlot(x: Slot)
    ensures x in AllSlots()
  {
    match x
    case Dir(d) =>
    case Ent(v) => EveryVpn(v);
  }

  lemma EveryVpn(v: Vpn)
    ensures v in AllVpns()
  {
    assert v == Vpn(v.pdx, v.ptx);
  }

  // The slots naming page p; pp_ref counts them.
  ghost function NamedBy(s: State, p: nat): set<Slot>
  {
    set x | x in AllSlots() && Target(s, x) == Some(p)
  }

  // ---------- the invariant ----------

  // Facts about a state that the kernel does not store: the free list as a
  // sequence, a list detached from it (the checking code steals the list for a
  // while), and the pages taken at boot, whose count starts at one.
  datatype Own = Own(free: seq<nat>, held: seq<nat>, boot: set<nat>)

  predicate Distinct(q: seq<nat>) { forall i, j :: 0 <= i < j < |q| ==> q[i] != q[j] }

  function First(q: seq<nat>): Option<nat> { if q == [] then None else Some(q[0]) }

  function Successor(q: seq<nat>, i: nat): Option<nat>
  {
    if i + 1 < |q| then Some(q[i + 1]) else None
  }

  // Following links from q's first page visits exactly q.
  predicate Chain(links: seq<Option<nat>>, q: seq<nat>)
  {
    && (forall i :: 0 <= i < |q| ==> q[i] < |links|)
    && (forall i {:trigger Successor(q, i)} :: 0 <= i < |q| ==> links[q[i]] == Successor(q, i))
  }

  ghost predicate ListsValid(s: State, o: Own)
  {
    && s.head == First(o.free)
    && Chain(s.links, o.free) && Chain(s.links, o.held)
    && Distinct(o.free) && Distinct(o.held)
    && (forall p :: p in o.free ==> p !in o.held)
    && (forall p :: p in o.free || p in o.held ==> s.refs[p] == 0)
    && (forall p :: 0 <= p < |s.links| && p !in o.free && p !in o.held ==> s.links[p] == None)
  }

  ghost predicate TablesValid(s: State)
  {
    && Pde(s, SELF) == Pack(s.pgdir, 5)
    && (forall d: Index :: d != SELF && Present(Pde(s, d)) ==>
          TableOf(s, d) < |s.mem| && TableOf(s, d) != s.pgdir && FlagsOf(Pde(s, d)) == 7)
    && (forall d: Index, e: Index :: d != e && d != SELF && e != SELF && Present(Pde(s, d)) && Present(Pde(s, e)) ==>
          TableOf(s, d) != TableOf(s, e))
    && (forall v: Vpn :: v.pdx < USERTOP ==> Pte(s, v) == 0 || (Mapped(s, v) && Ppn(Pte(s, v)) < |s.mem|))
  }

  // Conservation of references.
  ghost predicate CountsValid(s: State, o: Own)
  {
    && s.pgdir in o.boot
    && forall p :: 0 <= p < |s.refs| ==>
         s.refs[p] == |NamedBy(s, p)| + (if p in o.boot then 1 else 0)
  }

  ghost predicate TlbValid(s: State)
  {
    forall v :: v in s.tlb ==> Translate(s, v) == Some(s.tlb[v])
  }

  ghost predicate Inv(s: State, o: Own)
  {
    ListsValid(s, o) && TablesValid(s) && CountsValid(s, o) && TlbValid(s)
  }

  // ---------- counting ----------

  // Changing what one slot names moves one reference.
  lemma Retarget(s: State, s': State, x: Slot, p: nat)
    requires forall y :: y != x ==> Target(s', y) == Target(s, y)
    ensures |NamedBy(s', p)| + (if Target(s, x) == Some(p) then 1 else 0)
         == |NamedBy(s, p)| + (if Target(s', x) == Some(p) then 1 else 0)
  {
    EverySlot(x);
    var rest := NamedBy(s, p) - {x};
    assert rest == NamedBy(s', p) - {x};
    assert NamedBy(s, p) == if Target(s, x) == Some(p) then rest + {x} else rest;
    assert NamedBy(s', p) == if Target(s', x) == Some(p) then rest + {x} else rest;
  }

  // ---------- framing ----------

  // The two states hold the same directory and the same page-table entries.
  ghost predicate SameTables(s: State, s': State)
  {
    && |s'.mem| == |s.mem| && s'.pgdir == s.pgdir
    && (forall d: Index :: Pde(s', d) == Pde(s, d))
    && (forall v: Vpn :: Pte(s', v) == Pte(s, v))
  }

  lemma TablesCarry(s: State, s': State)
    requires SameTables(s, s')
    ensures TablesValid(s) ==> TablesValid(s')
    ensures forall x :: Target(s', x) == Target(s, x)
    ensures forall v :: Translate(s', v) == Translate(s, v)
    ensures forall p: nat :: NamedBy(s', p) == NamedBy(s, p)
  {
    assert forall x :: Target(s', x) == Target(s, x);
  }

  // ---------- lists ----------

  lemma ChainTail(links: seq<Option<nat>>, q: seq<nat>, x: Option<nat>)
    requires q != [] && Chain(links, q) && Distinct(q)
    ensures links[q[0]] == First(q[1..])
    ensures Chain(links[q[0] := x], q[1..]) && Distinct(q[1..])
    ensures q[0] !in q[1..]
  {
    var r := q[1..];
    assert forall i :: 0 <= i < |r| ==> r[i] == q[i + 1] && Successor(r, i) == Successor(q, i + 1);
    assert links[q[0]] == Successor(q, 0);
  }

  lemma ChainCons(links: seq<Option<nat>>, q: seq<nat>, p: nat)
    requires Chain(links, q) && Distinct(q) && p !in q && p < |links|
    ensures Chain(links[p := First(q)], [p] + q) && Distinct([p] + q)
  {
    var r := [p] + q;
    assert forall i :: 0 < i < |r| ==> r[i] == q[i - 1] && Successor(r, i) == Successor(q, i - 1);
    assert Successor(r, 0) == First(q);
  }

  lemma ChainElsewhere(links: seq<Option<nat>>, q: seq<nat>, p: nat, x: Option<nat>)
    requires Chain(links, q) && p !in q && p < |links|
    ensures Chain(links[p := x], q)
  {
  }

  lemma NamedHasRef(s: State, o: Own, x: Slot, p: nat)
    requires CountsValid(s, o) && p < |s.refs| && Target(s, x) == Some(p)
    ensures s.refs[p] >= 1
    ensures p in o.boot ==> s.refs[p] >= 2
  {
    EverySlot(x);
    assert x in NamedBy(s, p);
  }

  lemma SpaceCarry(s: State, s': State)
    requires forall v: Vpn :: v.pdx != SELF ==> Translate(s', v) == Translate(s, v)
    ensures Space(s') == Space(s)
  {
    assert forall v: Vpn :: v.pdx != SELF ==> (Mapped(s, v) <==> Translate(s, v).Some?) && (Mapped(s', v) <==> Translate(s', v).Some?);
  }

  // No page table, and not the directory, is an unreferenced page.
  lemma TableIsReferenced(s: State, o: Own, d: Index)
    requires TablesValid(s) && CountsValid(s, o)
    ensures s.refs[s.pgdir] >= 1
    ensures HasTable(s, d) ==> s.refs[TableOf(s, d)] >= 1
  {
    if HasTable(s, d) && d != SELF {
      NamedHasRef(s, o, Dir(d), TableOf(s, d));
    }
  }

  // Overwriting a page that is neither the directory nor a page table.
  lemma OffTableWrite(s: State, s': State, p: nat, f: Frame)
    requires p < |s.mem| && s'.pgdir == s.pgdir && s'.mem == s.mem[p := f]
    requires p != s.pgdir && forall d: Index :: HasTable(s, d) ==> TableOf(s, d) != p
    ensures SameTables(s, s')
  {
  }
}
