// Every state reachable by the allocator and page-table operations, with the
// hardware filling the TLB at any time.
module Runs {
  import opened Mmu
  import opened PageState
  import opened Allocator
  import opened PageTables

  datatype Op =
    | AllocOp(zero: bool)
    | FreeOp(p: nat)
    | WalkOp(d: Index, create: bool)
    | InsertOp(pp: nat, v: Vpn, perm: Flags)
    | RemoveOp(v: Vpn)
    | FillOp(v: Vpn)

  // What an operation does to the address space.
  datatype Event = MapEvent(v: Vpn, x: Xlat) | UnmapEvent(v: Vpn)

  // The hardware caches the current translation of v; a page fault caches nothing.
  function Filled(s: State, v: Vpn): State
  {
    match Translate(s, v)
    case None => s
    case Some(x) => s.(tlb := s.tlb[v := x])
  }

  // What a caller has to respect: free only unreferenced pages it holds, enter
  // only pages it holds and only below UTOP, and stay within 16 bits of count; on
  // a machine whose pages all have a kernel address.
  ghost predicate Legal(s: State, o: Own, op: Op)
  {
    && NPages(s) <= REACH
    && match op
    case AllocOp(_) => true
    case FreeOp(p) => Insertable(s, o, p) && s.refs[p] == 0
    case WalkOp(d, _) => d != SELF
    case InsertOp(pp, v, _) => Insertable(s, o, pp) && v.pdx < USERTOP && !Overflows(s, pp, v)
    case RemoveOp(v) => v.pdx < USERTOP
    case FillOp(_) => true
  }

  ghost function Step(s: State, o: Own, op: Op): (State, Own)
    requires Legal(s, o, op)
  {
    match op
    case AllocOp(zero) => if s.head == None || o.free == [] then (s, o) else (Popped(s, zero), o.(free := o.free[1..]))
    case FreeOp(p) => (Pushed(s, p), o.(free := [p] + o.free))
    case WalkOp(d, create) => if WalkFails(s, d, create) then (s, o) else (Walked(s, d), OwnWalked(s, o, d))
    case InsertOp(pp, v, perm) =>
      if InsertFails(s, v) then (s, o) else (Inserted(s, pp, v, perm), OwnInserted(s, o, pp, v))
    case RemoveOp(v) => (Removed(s, v), OwnRemoved(s, o, v))
    case FillOp(v) => (Filled(s, v), o)
  }

  ghost function Events(s: State, op: Op): seq<Event>
  {
    match op
    case InsertOp(pp, v, perm) =>
      if InsertFails(s, v) then [] else [MapEvent(v, Xlat(pp, perm / 2 % 2 == 1, perm / 4 % 2 == 1))]
    case RemoveOp(v) => [UnmapEvent(v)]
    case _ => []
  }

  function Replay(m: map<Vpn, Xlat>, es: seq<Event>): map<Vpn, Xlat>
    decreases |es|
  {
    if es == [] then m
    else match es[0]
      case MapEvent(v, x) => Replay(m[v := x], es[1..])
      case UnmapEvent(v) => Replay(m - {v}, es[1..])
  }

  lemma FilledKeepsInv(s: State, o: Own, v: Vpn)
    requires Inv(s, o)
    ensures Inv(Filled(s, v), o) && SameTables(s, Filled(s, v))
  {
    TablesCarry(s, Filled(s, v));
  }

  lemma UnmappedSpace(s: State, v: Vpn)
    requires !Mapped(s, v)
    ensures Space(s) - {v} == Space(s)
  {
    SpaceAt(s, v);
  }

  lemma SameTablesSpace(s: State, s': State)
    requires SameTables(s, s')
    ensures Space(s') == Space(s)
  {
    TablesCarry(s, s');
    SpaceCarry(s, s');
  }

  // One operation keeps the invariant and acts on the address space as its
  // events say.
  lemma StepKeepsInv(s: State, o: Own, op: Op)
    requires Inv(s, o) && Legal(s, o, op)
    ensures Inv(Step(s, o, op).0, Step(s, o, op).1)
    ensures Space(Step(s, o, op).0) == Replay(Space(s), Events(s, op))
  {
    hide ListsValid, TablesValid, CountsValid, TlbValid, Space;
    match op
    case AllocOp(zero) =>
      if s.head.Some? && o.free != [] {
        AllocKeepsInv(s, o, zero);
        SameTablesSpace(s, Popped(s, zero));
      }
    case FreeOp(p) =>
      FreeKeepsInv(s, o, p);
      SameTablesSpace(s, Pushed(s, p));
    case WalkOp(d, create) =>
      if !WalkFails(s, d, create) {
        WalkedKeepsInv(s, o, d);
      }
    case InsertOp(pp, v, perm) =>
      if !InsertFails(s, v) {
        InsertKeepsInvIff(s, o, pp, v, perm);
        InsertRefines(s, o, pp, v, perm);
      }
    case RemoveOp(v) =>
      if Mapped(s, v) {
        RemoveKeepsInv(s, o, v);
        RemoveRefines(s, o, v);
      } else {
        UnmappedSpace(s, v);
      }
    case FillOp(v) =>
      FilledKeepsInv(s, o, v);
      SameTablesSpace(s, Filled(s, v));
  }

  ghost predicate LegalRun(s: State, o: Own, ops: seq<Op>)
    decreases |ops|
  {
    ops == [] || (Legal(s, o, ops[0]) && var (s1, o1) := Step(s, o, ops[0]); LegalRun(s1, o1, ops[1..]))
  }

  ghost function Run(s: State, o: Own, ops: seq<Op>): (State, Own)
    requires LegalRun(s, o, ops)
    decreases |ops|
  {
    if ops == [] then (s, o)
    else var (s1, o1) := Step(s, o, ops[0]); Run(s1, o1, ops[1..])
  }

  ghost function RunEvents(s: State, o: Own, ops: seq<Op>): seq<Event>
    requires LegalRun(s, o, ops)
    decreases |ops|
  {
    if ops == [] then []
    else var (s1, o1) := Step(s, o, ops[0]); Events(s, ops[0]) + RunEvents(s1, o1, ops[1..])
  }

  lemma {:induction false} ReplayConcat(m: map<Vpn, Xlat>, a: seq<Event>, b: seq<Event>)
    ensures Replay(m, a + b) == Replay(Replay(m, a), b)
    decreases |a|
  {
    if a == [] {
      assert a + b == b;
    } else {
      assert (a + b)[1..] == a[1..] + b;
      match a[0]
      case MapEvent(v, x) => ReplayConcat(m[v := x], a[1..], b);
      case UnmapEvent(v) => ReplayConcat(m - {v}, a[1..], b);
    }
  }

  // In every state reachable by any legal run, from any valid state, the whole
  // invariant holds, and the page tables implement the abstract address space
  // obtained by replaying the mappings and unmappings in order.
  lemma {:induction false} RunRefines(s: State, o: Own, ops: seq<Op>)
    requires Inv(s, o) && LegalRun(s, o, ops)
    ensures Inv(Run(s, o, ops).0, Run(s, o, ops).1)
    ensures Space(Run(s, o, ops).0) == Replay(Space(s), RunEvents(s, o, ops))
    decreases |ops|
  {
    hide Inv, Legal, Step, Events, Space;
    if ops != [] {
      StepKeepsInv(s, o, ops[0]);
      var (s1, o1) := Step(s, o, ops[0]);
      RunRefines(s1, o1, ops[1..]);
      ReplayConcat(Space(s), Events(s, ops[0]), RunEvents(s1, o1, ops[1..]));
    }
  }
}
