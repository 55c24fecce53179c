// What kern/pmap.c's checking routines do and see: a list of calls, writes and
// reads with what each gave, tied to the states in between.
module Transcripts {
  import opened Mmu
  import opened PageState
  import opened Allocator
  import opened PageTables
  import opened Pmap
  import opened Runs
  import opened SelfMap
  import opened CheckMap

  datatype Call =
    // the functions under test
    | PageAlloc(zero: bool)
    | PageFree(p: nat)
    | PageInsert(pp: nat, va: Word, perm: Flags)
    | PageRemove(va: Word)
    | PageLookup(va: Word)
    | PgdirWalk(va: Word, create: bool)
    // the checking code's own writes
    | SetFreeList(head: Option<nat>)
    | SetDirectory(d: Index, w: Word)
    | SetRef(p: nat, c: Count)
    | Fills(p: nat, w: Word)
    | Store(va: Word, w: Word)
    // and reads
    | FreeList
    | ListLength
    | RefOf(p: nat)
    | LinkOf(p: nat)
    | TableAt(d: Index)
    | TableIsUser(d: Index)
    | EntryIsUser(va: Word)
    | EntryIsWritable(va: Word)
    | Translation(va: Word)
    | AddressBelowEnd(p: nat)
    | Contents(p: nat)
    | WordAt(p: nat, i: Index)
    | Load(va: Word)

  datatype Answer =
    | Done
    | Page(page: Option<nat>)
    | Pointer(pte: Option<Ptr>)
    | Value(n: int)
    | Truth(b: bool)
    | Words(f: Frame)

  datatype Said = Said(call: Call, answer: Answer)

  function Fill(w: Word): (f: Frame)
    ensures forall i :: 0 <= i < 1024 ==> f[i] == w
  {
    seq(1024, _ => w)
  }

  // In state s the call gives the answer and leaves state s'.
  ghost predicate Took(s: State, e: Said, s': State)
  {
    match e.call
    case PageAlloc(zero) => e.answer == Page(s.head) && s' == if s.head == None then s else Popped(s, zero)
    case PageFree(p) => p < NPages(s) && !FreePanics(s, p) && e.answer == Done && s' == Pushed(s, p)
    case PageInsert(pp, va, perm) =>
      && pp < NPages(s)
      && if InsertFails(s, VpnOf(va)) then e.answer == Value(-E_NO_MEM) && s' == s
         else e.answer == Value(0) && s' == Inserted(s, pp, VpnOf(va), perm)
    case PageRemove(va) => e.answer == Done && s' == Removed(s, VpnOf(va))
    case PageLookup(va) => e.answer == Page(Lookup(s, VpnOf(va))) && s' == s
    case PgdirWalk(va, create) =>
      if WalkFails(s, Pdx(va), create) then e.answer == Pointer(None) && s' == s
      else s' == Walked(s, Pdx(va)) && e.answer == Pointer(Some(Ptr(TableOf(s', Pdx(va)), Ptx(va))))
    case SetFreeList(h) => (h.Some? ==> h.value < NPages(s)) && e.answer == Done && s' == s.(head := h)
    case SetDirectory(d, w) => e.answer == Done && s' == s.(mem := s.mem[s.pgdir := s.mem[s.pgdir][d := w]])
    case SetRef(p, c) => p < NPages(s) && e.answer == Done && s' == s.(refs := s.refs[p := c])
    case Fills(p, w) => p < NPages(s) && e.answer == Done && s' == s.(mem := s.mem[p := Fill(w)])
    case Store(va, w) =>
      && WritableAt(s, va) && e.answer == Done
      && (s' == s.(mem := AfterWrite(s, va, w)) || s' == Filled(s, VpnOf(va)).(mem := AfterWrite(s, va, w)))
    case Load(va) =>
      && ReadVirtual(s, va).Some? && e.answer == Value(ReadVirtual(s, va).value)
      && (s' == s || s' == Filled(s, VpnOf(va)))
    case _ => s' == s && Sees(s, e)
  }

  // What a read of the state gives.
  ghost predicate Sees(s: State, e: Said)
  {
    match e.call
    case FreeList => e.answer == Page(s.head)
    case ListLength => exists q :: First(q) == s.head && Chain(s.links, q) && e.answer == Value(|q|)
    case RefOf(p) => p < NPages(s) && e.answer == Value(s.refs[p])
    case LinkOf(p) => p < NPages(s) && e.answer == Page(s.links[p])
    case TableAt(d) => e.answer == Page(Some(TableOf(s, d)))
    case TableIsUser(d) => e.answer == Truth(User(Pde(s, d)))
    case EntryIsUser(va) => HasTable(s, Pdx(va)) && e.answer == Truth(User(Pte(s, VpnOf(va))))
    case EntryIsWritable(va) => HasTable(s, Pdx(va)) && e.answer == Truth(Writable(Pte(s, VpnOf(va))))
    case Translation(va) => e.answer == Value(CheckVa2Pa(s, va))
    case AddressBelowEnd(p) => e.answer == Truth(p * PGSIZE < Bytes32(NPages(s)))
    case Contents(p) => p < NPages(s) && e.answer == Words(s.mem[p])
    case WordAt(p, i) => p < NPages(s) && e.answer == Value(s.mem[p][i])
    case _ => false
  }

  // From state s, the calls made one after the other give these answers and end
  // in state s'.
  ghost predicate Transcript(s: State, t: seq<Said>, s': State)
    decreases |t|
  {
    if t == [] then s' == s
    else
      var u, e := t[..|t| - 1], t[|t| - 1];
      exists r: State :: Transcript(s, u, r) && Took(r, e, s')
  }

  // ---------- keeping one ----------

  datatype Log = Log(start: State, said: seq<Said>)

  ghost predicate Kept(r: Log, s: State) { Transcript(r.start, r.said, s) }

  function Logged(r: Log, e: Said): Log { Log(r.start, r.said + [e]) }

  lemma Begin(s: State) returns (r: Log)
    ensures Kept(r, s) && r == Log(s, [])
  {
    r := Log(s, []);
  }

  lemma Note(r: Log, s: State, e: Said, s': State) returns (r': Log)
    requires Kept(r, s) && Took(s, e, s')
    ensures Kept(r', s') && r' == Logged(r, e)
  {
    hide Took;
    r' := Logged(r, e);
    assert r'.said[..|r'.said| - 1] == r.said;
  }

  lemma KeptIs(r: Log, s: State)
    ensures Kept(r, s) <==> Transcript(r.start, r.said, s)
  {
  }

  lemma NoteAll(r: Log, s: State, t: seq<Said>, s': State) returns (r': Log)
    requires Kept(r, s) && Transcript(s, t, s')
    ensures Kept(r', s') && r' == Log(r.start, r.said + t)
  {
    hide Transcript;
    Joined(r.start, r.said, s, t, s');
    r' := Log(r.start, r.said + t);
  }

  // A read, which changes nothing.
  lemma See(r: Log, s: State, e: Said) returns (r': Log)
    requires Kept(r, s) && Sees(s, e)
    ensures Kept(r', s) && r' == Logged(r, e)
  {
    r' := Note(r, s, e, s);
  }

  lemma {:induction false} Joined(s: State, t: seq<Said>, r: State, u: seq<Said>, s': State)
    requires Transcript(s, t, r) && Transcript(r, u, s')
    ensures Transcript(s, t + u, s')
    decreases |u|
  {
    hide Took;
    if u == [] {
      assert t + u == t;
    } else {
      var u0, e := u[..|u| - 1], u[|u| - 1];
      var m: State :| Transcript(r, u0, m) && Took(m, e, s');
      Joined(s, t, r, u0, m);
      assert (t + u)[..|t + u| - 1] == t + u0;
    }
  }

  // ---------- the checks' own readings, in place ----------

  lemma TablesInReach(m: Machine, o: Own, d: Index)
    requires m.Valid(o)
    ensures TablesReached(m.St()) && !KaddrPanics(m.St(), d)
  {
    hide ListsValid, CountsValid, TlbValid, Pte;
  }

  // assert(check_va2pa(kern_pgdir, va) == pa)
  method Translates(m: Machine, va: Word, ghost o: Own, ghost r: Log) returns (pa: Word, ghost r': Log)
    requires m.Valid(o) && Kept(r, m.St())
    ensures pa == CheckVa2Pa(m.St(), va) && Kept(r', m.St()) && r' == Logged(r, Said(Translation(va), Value(pa)))
  {
    hide Inv, Kept, CheckVa2Pa;
    TablesInReach(m, o, Pdx(va));
    pa := Va2Pa(m, va);
    r' := See(r, m.St(), Said(Translation(va), Value(pa)));
  }
}
