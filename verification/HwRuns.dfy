// Whole runs of the operations with the hardware active inside every call: the
// run theorem of Runs joined with the interleavings of Tlb.
module HwRuns {
  import opened Mmu
  import opened PageState
  import opened PageTables
  import opened Runs
  import opened Tlb

  // A call, and what the hardware does in the gaps between its writes and after
  // it. page_alloc, page_free and a walk that creates nothing write no word the
  // hardware reads, so they have one gap.
  datatype Call = Call(op: Op, gaps: seq<Gap>)

  predicate Gapped(c: Call) { |c.gaps| == 10 }

  ghost function Performed(s: State, o: Own, c: Call): (r: (State, Own))
    requires Gapped(c) && Legal(s, o, c.op)
    ensures r.1 == Step(s, o, c.op).1
  {
    var o' := Step(s, o, c.op).1;
    match c.op
    case InsertOp(pp, v, perm) => (InsertInterleaved(s, pp, v, perm, c.gaps), o')
    case RemoveOp(v) => (RemoveInterleaved(s, v, c.gaps[..4]), o')
    case WalkOp(d, create) => (if create then WalkInterleaved(s, d, c.gaps[..4]) else HwRun(s, c.gaps[0]), o')
    case _ => (HwRun(Step(s, o, c.op).0, c.gaps[0]), o')
  }

  ghost predicate LegalCalls(s: State, o: Own, cs: seq<Call>)
    decreases |cs|
  {
    cs == [] || (Gapped(cs[0]) && Legal(s, o, cs[0].op)
                 && var (s1, o1) := Performed(s, o, cs[0]); LegalCalls(s1, o1, cs[1..]))
  }

  ghost function RunCalls(s: State, o: Own, cs: seq<Call>): (State, Own)
    requires LegalCalls(s, o, cs)
    decreases |cs|
  {
    if cs == [] then (s, o)
    else var (s1, o1) := Performed(s, o, cs[0]); RunCalls(s1, o1, cs[1..])
  }

  ghost function CallEvents(s: State, o: Own, cs: seq<Call>): seq<Event>
    requires LegalCalls(s, o, cs)
    decreases |cs|
  {
    if cs == [] then []
    else var (s1, o1) := Performed(s, o, cs[0]); Events(s, cs[0].op) + CallEvents(s1, o1, cs[1..])
  }

  // Each call has its sequential effect on everything but the TLB and ends in a
  // valid state, whatever the hardware did inside it.
  lemma CallKeepsInv(s: State, o: Own, c: Call)
    requires Inv(s, o) && Gapped(c) && Legal(s, o, c.op)
    ensures Core(Performed(s, o, c).0) == Core(Step(s, o, c.op).0)
    ensures Inv(Performed(s, o, c).0, Performed(s, o, c).1)
    ensures Space(Performed(s, o, c).0) == Replay(Space(s), Events(s, c.op))
  {
    hide ListsValid, TablesValid, CountsValid, TlbValid, Space, InsertInterleaved, RemoveInterleaved, WalkInterleaved,
      HwRun, Events, Core, Removed, OwnRemoved, Inserted, OwnInserted, Walked, OwnWalked;
    StepKeepsInv(s, o, c.op);
    var r, t, o' := Performed(s, o, c).0, Step(s, o, c.op).0, Step(s, o, c.op).1;
    match c.op {
      case InsertOp(pp, v, perm) =>
        InsertInterleavedSafe(s, o, pp, v, perm, c.gaps);
      case RemoveOp(v) =>
        RemoveInterleavedSafe(s, o, v, c.gaps[..4]);
      case WalkOp(d, create) =>
        if create {
          WalkInterleavedCore(s, d, c.gaps[..4]);
          WalkInterleavedCoherent(s, o, d, c.gaps[..4]);
        } else {
          HwRunCoherent(s, c.gaps[0], Vpn(0, 0));
          PlainWalk(s, d);
        }
      case AllocOp(_) => HwRunCoherent(t, c.gaps[0], Vpn(0, 0));
      case FreeOp(_) => HwRunCoherent(t, c.gaps[0], Vpn(0, 0));
      case FillOp(_) => HwRunCoherent(t, c.gaps[0], Vpn(0, 0));
    }
    assert TlbValid(r) && Core(r) == Core(t);
    InvOfCore(t, r, o');
    CoreReads(t, r);
    SameTablesSpace(t, r);
  }

  lemma PlainWalk(s: State, d: Index)
    ensures !WalkFails(s, d, false) ==> Walked(s, d) == s
  {
  }

  // In every state reachable by any legal run of calls, with any hardware fills
  // and evictions between any two of their writes, the whole invariant holds and
  // the page tables implement the replayed address space.
  lemma {:induction false} RunCallsRefine(s: State, o: Own, cs: seq<Call>)
    requires Inv(s, o) && LegalCalls(s, o, cs)
    ensures Inv(RunCalls(s, o, cs).0, RunCalls(s, o, cs).1)
    ensures Space(RunCalls(s, o, cs).0) == Replay(Space(s), CallEvents(s, o, cs))
    decreases |cs|
  {
    hide Inv, Legal, Performed, Events, Space, Core;
    if cs != [] {
      CallKeepsInv(s, o, cs[0]);
      var (s1, o1) := Performed(s, o, cs[0]);
      RunCallsRefine(s1, o1, cs[1..]);
      ReplayConcat(Space(s), Events(s, cs[0].op), CallEvents(s1, o1, cs[1..]));
    }
  }
}
