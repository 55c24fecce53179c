// debuginfo_eip of kern/kdebug.c: three nested searches of the symbol table.
module DebugInfo {
  import opened Mmu
  import opened PageState
  import opened StabSearch

  const N_FUN := 0x24
  const N_SLINE := 0x44
  const N_SO := 0x64
  const N_SOL := 0x84
  const N_PSYM := 0xA0

  // None in file and fn stands for "<unknown>"; otherwise a string-table offset.
  datatype Info = Info(file: Option<nat>, line: int, fn: Option<nat>, fnAddr: Addr, narg: nat)

  // Fails is the -1 return. OutsideTable is a read before the table's first
  // entry, after which nothing is known.
  datatype Outcome = Fails | OutsideTable | Reported(info: Info)

  // The index pairs the three searches end with: file, function and line.
  datatype Place = Place(file: int, fileEnd: int, fun: int, funEnd: int, line: int, lineEnd: int)

  // ---------- one search ----------

  // There are searched entries, and all are above a.
  ghost predicate AllLater(stabs: seq<Stab>, kind: int, left: int, right: int, a: Addr)
  {
    && !NoTyped(stabs, kind, left, right + 1)
    && forall i :: left <= i <= right && Typed(stabs, kind, i) ==> stabs[i].value > a
  }

  // [l, r] is what stab_binsearch returns for a in [left, right], on a sorted
  // region and without overshoot.
  ghost predicate Searched(stabs: seq<Stab>, kind: int, left: int, right: int, a: Addr, l: int, r: int)
  {
    && 0 <= left <= right + 1 && right < |stabs|
    && Sorted(stabs, kind, left, right) && !Overshoots(stabs, kind, left, right, a)
    && if NoTyped(stabs, kind, left, right + 1) then l == left && r == left - 1
       else if AllLater(stabs, kind, left, right, a) then AllAbove(stabs, kind, left, right, a, l, r)
       else Brackets(stabs, kind, left, right, a, l, r)
  }

  lemma SearchedUnique(stabs: seq<Stab>, kind: int, left: int, right: int, a: Addr, l: int, r: int, k: int, s: int)
    requires Searched(stabs, kind, left, right, a, l, r) && Searched(stabs, kind, left, right, a, k, s)
    ensures l == k && r == s
  {
    hide Overshoots, Sorted;
    if !NoTyped(stabs, kind, left, right + 1) && !AllLater(stabs, kind, left, right, a) {
      BracketsUnique(stabs, kind, left, right, a, l, r, k, s);
    }
  }

  lemma FoundIsNotLater(stabs: seq<Stab>, kind: int, left: int, right: int, a: Addr, top: int, rl: int, rr: int)
    requires AllLater(stabs, kind, left, right, a)
    ensures !Found(stabs, kind, left, right, a, top, rl, rr)
  {
    assert !Occurs(stabs, kind, left, right, a);
  }

  lemma ResultIsSearched(stabs: seq<Stab>, kind: int, left: int, right: int, a: Addr, top: int, rl: int, rr: int)
    requires 0 <= left <= right + 1 && right < |stabs|
    requires Sorted(stabs, kind, left, right) && !Overshoots(stabs, kind, left, right, a) && top <= a
    requires if NoTyped(stabs, kind, left, right + 1) then rl == left && rr == left - 1
             else Found(stabs, kind, left, right, a, top, rl, rr) || AllAbove(stabs, kind, left, right, a, rl, rr)
    ensures Searched(stabs, kind, left, right, a, rl, rr)
  {
    if !NoTyped(stabs, kind, left, right + 1) {
      if AllLater(stabs, kind, left, right, a) {
        FoundIsNotLater(stabs, kind, left, right, a, top, rl, rr);
      } else {
        var i :| left <= i <= right && Typed(stabs, kind, i) && stabs[i].value <= a;
        hide Overshoots, Found, AllAbove, AllLater, Sorted;
        BracketsIff(stabs, kind, left, right, a, top, rl, rr, i);
      }
    }
  }

  // stab_binsearch once more, by what it returns. The index before the region
  // comes back exactly when the region starts with a searched entry above addr.
  method Search(stabs: seq<Stab>, left: int, right: int, kind: int, addr: Addr) returns (rl: int, rr: int)
    requires 0 <= left <= right + 1 && right < |stabs|
    ensures left - 1 <= rr <= right && left - 1 <= rl <= right + 1
    ensures rl > rr <==> NoTyped(stabs, kind, left, right + 1)
    ensures rl > rr ==> rl == left && rr == left - 1
    ensures rl < left ==> Typed(stabs, kind, left)
    ensures Sorted(stabs, kind, left, right) ==>
              (rl < left <==> left <= right && Typed(stabs, kind, left) && stabs[left].value > addr)
    ensures Sorted(stabs, kind, left, right) && left < rl ==> Typed(stabs, kind, rl)
    ensures forall l, r :: Searched(stabs, kind, left, right, addr, l, r) ==> rl == l && rr == r
  {
    ghost var top;
    rl, rr, top := StabBinsearch(stabs, left, right, kind, addr);
    if Sorted(stabs, kind, left, right) {
      if left <= right && Typed(stabs, kind, left) && stabs[left].value > addr {
        FirstLater(stabs, kind, left, right, addr);
        FoundIsNotLater(stabs, kind, left, right, addr, top, rl, rr);
      }
      if !Overshoots(stabs, kind, left, right, addr) {
        ResultIsSearched(stabs, kind, left, right, addr, top, rl, rr);
      }
    }
    hide Overshoots, Sorted, AllLater;
    forall l, r | Searched(stabs, kind, left, right, addr, l, r) ensures rl == l && rr == r {
      SearchedUnique(stabs, kind, left, right, addr, rl, rr, l, r);
    }
  }

  lemma SearchedSorted(stabs: seq<Stab>, kind: int, left: int, right: int, a: Addr, l: int, r: int)
    requires Searched(stabs, kind, left, right, a, l, r)
    ensures Sorted(stabs, kind, left, right)
  {
  }

  lemma FirstLater(stabs: seq<Stab>, kind: int, left: int, right: int, a: Addr)
    requires Sorted(stabs, kind, left, right) && left <= right
    requires Typed(stabs, kind, left) && stabs[left].value > a
    ensures AllLater(stabs, kind, left, right, a)
  {
  }

  // ---------- what is reported ----------

  // An included-file entry, or a main-file entry that is not an end marker.
  predicate NamesFile(stabs: seq<Stab>, i: int)
    requires 0 <= i < |stabs|
  {
    stabs[i].kind == N_SOL || (stabs[i].kind == N_SO && stabs[i].value != 0)
  }

  // The nearest entry naming a file, from k back to lo; below lo if there is none.
  function FileEntry(stabs: seq<Stab>, lo: int, k: int): (i: int)
    requires 0 <= lo && k < |stabs|
    ensures i <= k && (i >= lo ==> NamesFile(stabs, i))
    ensures forall j :: i < j <= k && lo <= j ==> !NamesFile(stabs, j)
    decreases k - lo + 1
  {
    if k < lo || NamesFile(stabs, k) then k else FileEntry(stabs, lo, k - 1)
  }

  // How many of the entries lo, lo + 1, ... below hi are parameters in a row.
  function Parameters(stabs: seq<Stab>, lo: int, hi: int): (n: nat)
    requires 0 <= lo <= hi <= |stabs|
    ensures lo + n <= hi && forall j :: lo <= j < lo + n ==> stabs[j].kind == N_PSYM
    ensures lo + n < hi ==> stabs[lo + n].kind != N_PSYM
    decreases hi - lo
  {
    if lo == hi || stabs[lo].kind != N_PSYM then 0 else 1 + Parameters(stabs, lo + 1, hi)
  }

  function Name(stabs: seq<Stab>, i: int, strsize: nat): Option<nat>
    requires 0 <= i < |stabs|
  {
    if stabs[i].strx < strsize then Some(stabs[i].strx) else None
  }

  function Sub32(a: Addr, b: Addr): Addr { if a >= b then a - b else a - b + 0x1_0000_0000 }

  // p is where the three searches end: in the file, in the function if one was
  // found and in the whole file otherwise.
  ghost predicate Traced(stabs: seq<Stab>, addr: Addr, p: Place)
  {
    && Searched(stabs, N_SO, 0, |stabs| - 1, addr, p.file, p.fileEnd)
    && (p.file > 0 ==>
          && Searched(stabs, N_FUN, p.file, p.fileEnd, addr, p.fun, p.funEnd)
          && if p.fun <= p.funEnd && 0 <= p.fun < |stabs|
             then Searched(stabs, N_SLINE, p.fun, p.funEnd, Sub32(addr, stabs[p.fun].value), p.line, p.lineEnd)
             else Searched(stabs, N_SLINE, p.file, p.fileEnd, addr, p.line, p.lineEnd))
  }

  predicate InTable(stabs: seq<Stab>, p: Place)
  {
    && 0 < p.file < |stabs| && p.fileEnd < |stabs| && 0 <= p.line < |stabs|
    && 0 <= p.fun <= |stabs| && p.funEnd < |stabs|
  }

  // What the code stores for such a place.
  function Described(stabs: seq<Stab>, strsize: nat, addr: Addr, p: Place): Info
    requires InTable(stabs, p)
  {
    var i := FileEntry(stabs, p.file, p.line);
    Info(if i >= p.file then Name(stabs, i, strsize) else None,
         stabs[p.line].desc,
         if p.fun <= p.funEnd then Name(stabs, p.fun, strsize) else None,
         if p.fun <= p.funEnd then stabs[p.fun].value else addr,
         if p.fun < p.funEnd then Parameters(stabs, p.fun + 1, p.funEnd) else 0)
  }

  function Result(stabs: seq<Stab>, strsize: nat, addr: Addr, p: Place): Outcome
  {
    if p.file < 0 then OutsideTable
    else if p.file == 0 || p.line > p.lineEnd || !InTable(stabs, p) then Fails
    else Reported(Described(stabs, strsize, addr, p))
  }

  method FindFile(stabs: seq<Stab>, lfile: int, lline: int) returns (i: int)
    requires 0 <= lfile && lline < |stabs|
    ensures i == FileEntry(stabs, lfile, lline)
  {
    i := lline;
    while i >= lfile && stabs[i].kind != N_SOL && (stabs[i].kind != N_SO || stabs[i].value == 0)
      invariant i <= lline && FileEntry(stabs, lfile, lline) == FileEntry(stabs, lfile, i)
    {
      i := i - 1;
    }
  }

  method CountParameters(stabs: seq<Stab>, lfun: int, rfun: int) returns (n: nat)
    requires 0 <= lfun < rfun < |stabs|
    ensures n == Parameters(stabs, lfun + 1, rfun)
  {
    n := 0;
    var i := lfun + 1;
    while i < rfun && stabs[i].kind == N_PSYM
      invariant lfun + 1 <= i <= rfun
      invariant Parameters(stabs, lfun + 1, rfun) == n + Parameters(stabs, i, rfun)
    {
      n := n + 1;
      i := i + 1;
    }
  }

  // debuginfo_eip for a kernel address and a valid string table of strsize bytes,
  // on any table. With the main-file entries in order it reads before the table
  // exactly when the first entry is one and is later than addr.
  method DebugInfoEip(stabs: seq<Stab>, strsize: nat, addr: Addr) returns (r: Outcome)
    requires addr >= ULIM
    ensures forall p: Place :: Traced(stabs, addr, p) ==> r == Result(stabs, strsize, addr, p)
    ensures Sorted(stabs, N_SO, 0, |stabs| - 1) ==>
              (r == OutsideTable <==> Typed(stabs, N_SO, 0) && stabs[0].value > addr)
    ensures NoTyped(stabs, N_SO, 0, |stabs|) ==> r == Fails
    ensures forall p: Place :: Traced(stabs, addr, p) && p.file >= 0 && (p.file == 0 || p.line > p.lineEnd) ==> r == Fails
    ensures forall p: Place :: Encloses(stabs, addr, p) ==> r.Reported? && Describes(stabs, strsize, p, r.info)
  {
    hide Searched, Sorted, NoTyped, FileEntry, Parameters, Encloses, Describes;
    forall p: Place | Encloses(stabs, addr, p)
      ensures Traced(stabs, addr, p) && InTable(stabs, p) && 0 <= p.fun < |stabs|
      ensures Result(stabs, strsize, addr, p).Reported? && Describes(stabs, strsize, p, Result(stabs, strsize, addr, p).info)
    {
      EnclosingPlaceIsReported(stabs, strsize, addr, p);
    }
    var lfile, rfile := Search(stabs, 0, |stabs| - 1, N_SO, addr);
    if lfile < 0 {
      return OutsideTable;
    }
    if lfile == 0 {
      return Fails;
    }
    forall p: Place | Traced(stabs, addr, p) ensures Sorted(stabs, N_SO, 0, |stabs| - 1) {
      SearchedSorted(stabs, N_SO, 0, |stabs| - 1, addr, p.file, p.fileEnd);
    }
    var lfun, rfun := Search(stabs, lfile, rfile, N_FUN, addr);
    var lline, rline, a, fn, fnAddr := lfun, rfun, addr, None, addr;
    if lfun <= rfun {
      fn, fnAddr := Name(stabs, lfun, strsize), stabs[lfun].value;
      a := Sub32(addr, stabs[lfun].value);
    } else {
      lline, rline := lfile, rfile;
    }
    lline, rline := Search(stabs, lline, rline, N_SLINE, a);
    if lline > rline {
      return Fails;
    }
    if lline < 0 {
      return OutsideTable;
    }
    var line := stabs[lline].desc;
    var i := FindFile(stabs, lfile, lline);
    var file := if i >= lfile then Name(stabs, i, strsize) else None;
    var narg: nat := 0;
    if lfun < rfun {
      narg := CountParameters(stabs, lfun, rfun);
    }
    r := Reported(Info(file, line, fn, fnAddr, narg));
  }

  // ---------- what the report means ----------

  // The search for a in [left, right] has an entry to find, and [l, r] is the
  // one stab_binsearch documents.
  ghost predicate Answers(stabs: seq<Stab>, kind: int, left: int, right: int, a: Addr, l: int, r: int)
  {
    && 0 <= left <= right < |stabs| && Sorted(stabs, kind, left, right)
    && !Overshoots(stabs, kind, left, right, a)
    && Brackets(stabs, kind, left, right, a, l, r)
  }

  lemma AnswersIsSearched(stabs: seq<Stab>, kind: int, left: int, right: int, a: Addr, l: int, r: int)
    requires Answers(stabs, kind, left, right, a, l, r)
    ensures Searched(stabs, kind, left, right, a, l, r) && left <= l <= r <= right && stabs[l].value <= a
  {
    hide Overshoots, Sorted;
    assert Typed(stabs, kind, l);
  }

  // The address has a file past the first, a function and a line, each of them
  // the last one of its kind at or below it.
  ghost predicate Encloses(stabs: seq<Stab>, addr: Addr, p: Place)
    ensures Encloses(stabs, addr, p) ==> p.file > 0 && 0 <= p.fun < |stabs| && 0 <= p.line < |stabs|
  {
    && p.file > 0
    && Answers(stabs, N_SO, 0, |stabs| - 1, addr, p.file, p.fileEnd)
    && Answers(stabs, N_FUN, p.file, p.fileEnd, addr, p.fun, p.funEnd)
    && Answers(stabs, N_SLINE, p.fun, p.funEnd, addr - stabs[p.fun].value, p.line, p.lineEnd)
  }

  // The string at offset x of a table of strsize bytes, when it lies inside.
  function StringAt(x: nat, strsize: nat): Option<nat> { if x < strsize then Some(x) else None }

  // file is the last name given from entry lo to entry k, by an N_SOL entry or by
  // an N_SO entry with an address; none if there is no such entry.
  ghost predicate FileIs(stabs: seq<Stab>, strsize: nat, lo: int, k: int, file: Option<nat>)
    requires 0 <= lo && k < |stabs|
  {
    || (file == None && forall j :: lo <= j <= k ==> stabs[j].kind != N_SOL && (stabs[j].kind == N_SO ==> stabs[j].value == 0))
    || exists i ::
         && lo <= i <= k && (stabs[i].kind == N_SOL || (stabs[i].kind == N_SO && stabs[i].value != 0))
         && (forall j :: i < j <= k ==> stabs[j].kind != N_SOL && (stabs[j].kind == N_SO ==> stabs[j].value == 0))
         && file == StringAt(stabs[i].strx, strsize)
  }

  // The function's n parameter entries follow it directly, and no more.
  ghost predicate Takes(stabs: seq<Stab>, fun: int, n: nat)
  {
    && 0 <= fun && fun + n + 1 < |stabs| && stabs[fun + n + 1].kind != N_PSYM
    && forall j :: fun < j <= fun + n ==> stabs[j].kind == N_PSYM
  }

  // The report of an enclosing place, from the table alone.
  ghost predicate Describes(stabs: seq<Stab>, strsize: nat, p: Place, i: Info)
    requires 0 <= p.file && 0 <= p.fun < |stabs| && 0 <= p.line < |stabs|
  {
    && FileIs(stabs, strsize, p.file, p.line, i.file)
    && i.line == stabs[p.line].desc
    && i.fn == StringAt(stabs[p.fun].strx, strsize) && i.fnAddr == stabs[p.fun].value
    && Takes(stabs, p.fun, i.narg)
  }

  lemma EnclosingPlaceIsReported(stabs: seq<Stab>, strsize: nat, addr: Addr, p: Place)
    requires Encloses(stabs, addr, p)
    ensures Traced(stabs, addr, p) && InTable(stabs, p) && 0 <= p.fun < |stabs|
    ensures Result(stabs, strsize, addr, p).Reported?
    ensures Describes(stabs, strsize, p, Result(stabs, strsize, addr, p).info)
  {
    hide Traced, Encloses, FileIs, Takes, FileEntry, Parameters;
    EnclosedShape(stabs, addr, p);
    FileEntryIs(stabs, strsize, p.file, p.line);
    ParametersAre(stabs, p.fun, p.line, p.funEnd);
  }

  lemma ParametersAre(stabs: seq<Stab>, fun: int, line: int, funEnd: int)
    requires 0 <= fun < line <= funEnd < |stabs| && stabs[line].kind != N_PSYM
    ensures Takes(stabs, fun, Parameters(stabs, fun + 1, funEnd))
  {
    var n := Parameters(stabs, fun + 1, funEnd);
    assert fun + 1 + n <= line;
  }

  lemma EnclosedShape(stabs: seq<Stab>, addr: Addr, p: Place)
    requires Encloses(stabs, addr, p)
    ensures Traced(stabs, addr, p) && InTable(stabs, p) && p.line <= p.lineEnd
    ensures p.file <= p.fun < p.line <= p.funEnd < |stabs| && stabs[p.line].kind == N_SLINE
  {
    hide Searched, Answers;
    AnswersIsSearched(stabs, N_SO, 0, |stabs| - 1, addr, p.file, p.fileEnd);
    AnswersIsSearched(stabs, N_FUN, p.file, p.fileEnd, addr, p.fun, p.funEnd);
    AnswersTyped(stabs, N_FUN, p.file, p.fileEnd, addr, p.fun, p.funEnd);
    AnswersTyped(stabs, N_SLINE, p.fun, p.funEnd, addr - stabs[p.fun].value, p.line, p.lineEnd);
    AnswersIsSearched(stabs, N_SLINE, p.fun, p.funEnd, addr - stabs[p.fun].value, p.line, p.lineEnd);
  }

  lemma AnswersTyped(stabs: seq<Stab>, kind: int, left: int, right: int, a: Addr, l: int, r: int)
    requires Answers(stabs, kind, left, right, a, l, r)
    ensures left <= l <= r <= right < |stabs| && Typed(stabs, kind, l)
  {
    hide Overshoots, Sorted;
  }

  lemma FileEntryIs(stabs: seq<Stab>, strsize: nat, lo: int, k: int)
    requires 0 <= lo && k < |stabs|
    ensures var i := FileEntry(stabs, lo, k);
            FileIs(stabs, strsize, lo, k, if i >= lo then Name(stabs, i, strsize) else None)
  {
    var i := FileEntry(stabs, lo, k);
    forall j | i < j <= k && lo <= j ensures stabs[j].kind != N_SOL && (stabs[j].kind == N_SO ==> stabs[j].value == 0) {
      assert !NamesFile(stabs, j);
    }
    if i >= lo {
      assert NamesFile(stabs, i) && Name(stabs, i, strsize) == StringAt(stabs[i].strx, strsize);
    }
    hide FileEntry;
  }

  // The fallback to the whole file is taken if and only if the file has no
  // function entry at all. Then no function is reported, and the line comes from
  // a search of the file with the full address.
  lemma WholeFileIff(stabs: seq<Stab>, strsize: nat, addr: Addr, p: Place)
    requires Traced(stabs, addr, p) && p.file > 0
    ensures p.fun > p.funEnd <==> NoTyped(stabs, N_FUN, p.file, p.fileEnd + 1)
    ensures p.fun > p.funEnd ==>
              && Searched(stabs, N_SLINE, p.file, p.fileEnd, addr, p.line, p.lineEnd)
              && (NoTyped(stabs, N_SLINE, p.file, p.fileEnd + 1) <==> Result(stabs, strsize, addr, p) == Fails)
              && (!NoTyped(stabs, N_SLINE, p.file, p.fileEnd + 1) ==>
                    && InTable(stabs, p) && Result(stabs, strsize, addr, p) == Reported(Described(stabs, strsize, addr, p))
                    && Described(stabs, strsize, addr, p).fn == None && Described(stabs, strsize, addr, p).fnAddr == addr
                    && Described(stabs, strsize, addr, p).line == stabs[p.line].desc
                    && FileIs(stabs, strsize, p.file, p.line, Described(stabs, strsize, addr, p).file)
                    && Described(stabs, strsize, addr, p).narg == 0)
  {
    SearchedShape(stabs, N_SO, 0, |stabs| - 1, addr, p.file, p.fileEnd);
    SearchedShape(stabs, N_FUN, p.file, p.fileEnd, addr, p.fun, p.funEnd);
    hide Searched, NoTyped, Described, FileIs;
    if p.fun > p.funEnd {
      SearchedShape(stabs, N_SLINE, p.file, p.fileEnd, addr, p.line, p.lineEnd);
      ReportedShape(stabs, strsize, addr, p);
    }
  }

  lemma ReportedShape(stabs: seq<Stab>, strsize: nat, addr: Addr, p: Place)
    requires InTable(stabs, p)
    ensures Described(stabs, strsize, addr, p).line == stabs[p.line].desc
    ensures FileIs(stabs, strsize, p.file, p.line, Described(stabs, strsize, addr, p).file)
    ensures p.fun > p.funEnd ==>
              && Described(stabs, strsize, addr, p).fn == None && Described(stabs, strsize, addr, p).fnAddr == addr
              && Described(stabs, strsize, addr, p).narg == 0
    ensures p.fun <= p.funEnd ==>
              && Described(stabs, strsize, addr, p).fn == Name(stabs, p.fun, strsize)
              && Described(stabs, strsize, addr, p).fnAddr == stabs[p.fun].value
  {
    FileEntryIs(stabs, strsize, p.file, p.line);
    hide FileIs, FileEntry;
  }

  lemma SearchedShape(stabs: seq<Stab>, kind: int, left: int, right: int, a: Addr, l: int, r: int)
    requires Searched(stabs, kind, left, right, a, l, r)
    ensures l > r <==> NoTyped(stabs, kind, left, right + 1)
    ensures left - 1 <= r <= right && (l <= r ==> left - 1 <= l) && (l > r ==> l == left)
    ensures l < left ==> left <= right && Typed(stabs, kind, left)
    ensures l > left ==> Typed(stabs, kind, l)
    ensures AllLater(stabs, kind, left, right, a) && !Typed(stabs, kind, left) ==> l == left
  {
    hide Overshoots, Sorted;
  }

  // With no function at or below the address the documented fallback is the
  // whole file. That is what happens if and only if the file has no function;
  // otherwise the file's own entry is reported as the function.
  lemma FallbackIff(stabs: seq<Stab>, strsize: nat, addr: Addr, p: Place)
    requires Traced(stabs, addr, p) && p.file > 0
    requires forall i :: p.file <= i <= p.fileEnd && Typed(stabs, N_FUN, i) ==> stabs[i].value > addr
    ensures p.fun > p.funEnd <==> NoTyped(stabs, N_FUN, p.file, p.fileEnd + 1)
    ensures !NoTyped(stabs, N_FUN, p.file, p.fileEnd + 1) ==>
              && p.fun == p.file
              && (Result(stabs, strsize, addr, p).Reported? ==>
                    && Result(stabs, strsize, addr, p).info.fn == Name(stabs, p.file, strsize)
                    && Result(stabs, strsize, addr, p).info.fnAddr == stabs[p.file].value)
  {
    SearchedShape(stabs, N_SO, 0, |stabs| - 1, addr, p.file, p.fileEnd);
    SearchedShape(stabs, N_FUN, p.file, p.fileEnd, addr, p.fun, p.funEnd);
    hide Searched, NoTyped, Described, FileIs;
    if InTable(stabs, p) {
      ReportedShape(stabs, strsize, addr, p);
    }
  }

  // ---------- two tables on which it goes wrong ----------

  lemma NoOvershoot(stabs: seq<Stab>, kind: int, left: int, right: int, a: Addr)
    requires 0 <= left <= right + 1 && right < |stabs| && !Occurs(stabs, kind, left, right, a)
    ensures !Overshoots(stabs, kind, left, right, a)
  {
    if Overshoots(stabs, kind, left, right, a) {
      OvershootNeedsBoth(stabs, kind, left, right, a);
    }
  }

  function LateFunction(): seq<Stab>
  {
    [Stab(1, N_SO, 0, 0xF010_0000), Stab(5, N_SO, 9, 0xF010_0040),
     Stab(0, N_SLINE, 70, 0xF010_0040), Stab(12, N_FUN, 0, 0xF010_0060)]
  }

  // A search with an empty front and a first searched entry f above a.
  lemma SearchedLater(stabs: seq<Stab>, kind: int, left: int, right: int, a: Addr, f: int)
    requires 0 <= left <= f <= right < |stabs| && Sorted(stabs, kind, left, right)
    requires NoTyped(stabs, kind, left, f) && Typed(stabs, kind, f) && stabs[f].value > a
    ensures Searched(stabs, kind, left, right, a, if f == left then left - 1 else left, f - 1)
  {
    forall i | left <= i <= right && Typed(stabs, kind, i) ensures stabs[i].value > a {
      if i > f { assert stabs[f].value <= stabs[i].value; }
    }
    NoOvershoot(stabs, kind, left, right, a);
    hide Overshoots, Sorted;
  }

  // One with a last searched entry f below a.
  lemma AnswersLast(stabs: seq<Stab>, kind: int, left: int, right: int, a: Addr, f: int)
    requires 0 <= left <= f <= right < |stabs| && Sorted(stabs, kind, left, right)
    requires NoTyped(stabs, kind, f + 1, right + 1) && Typed(stabs, kind, f) && stabs[f].value < a
    ensures Answers(stabs, kind, left, right, a, f, right)
  {
    forall i | left <= i <= right && Typed(stabs, kind, i) ensures stabs[i].value < a {
      if i < f { assert stabs[i].value <= stabs[f].value; }
    }
    NoOvershoot(stabs, kind, left, right, a);
    hide Overshoots, Sorted;
  }

  lemma LateSorted(kind: int, left: int, right: int)
    requires 0 <= left && right < 4
    ensures Sorted(LateFunction(), kind, left, right)
  {
    var stabs := LateFunction();
    forall i, j | left <= i < j <= right && Typed(stabs, kind, i) && Typed(stabs, kind, j)
      ensures stabs[i].value <= stabs[j].value
    {
      assert i == 0 || i == 1 || i == 2 || i == 3;
      assert j == 0 || j == 1 || j == 2 || j == 3;
    }
  }

  lemma LateKinds()
    ensures var stabs := LateFunction();
            && |stabs| == 4 && Typed(stabs, N_SO, 0) && Typed(stabs, N_SO, 1)
            && Typed(stabs, N_SLINE, 2) && Typed(stabs, N_FUN, 3)
            && NoTyped(stabs, N_SO, 2, 4) && NoTyped(stabs, N_FUN, 1, 3)
            && NoTyped(stabs, N_SLINE, 1, 2) && NoTyped(stabs, N_SLINE, 3, 4)
  {
  }

  lemma LateTraced()
    ensures Traced(LateFunction(), 0xF010_0044, Place(1, 3, 1, 2, 1, 1))
    ensures Answers(LateFunction(), N_SLINE, 1, 3, 0xF010_0044, 2, 3)
  {
    var stabs, a := LateFunction(), 0xF010_0044;
    LateKinds();
    hide Sorted, NoTyped, Typed, Searched, Answers;
    LateSorted(N_SO, 0, 3);
    LateSorted(N_FUN, 1, 3);
    LateSorted(N_SLINE, 1, 2);
    LateSorted(N_SLINE, 1, 3);
    AnswersLast(stabs, N_SO, 0, 3, a, 1);
    AnswersIsSearched(stabs, N_SO, 0, 3, a, 1, 3);
    SearchedLater(stabs, N_FUN, 1, 3, a, 3);
    SearchedLater(stabs, N_SLINE, 1, 2, 4, 2);
    AnswersLast(stabs, N_SLINE, 1, 3, a, 2);
  }

  // An address after a line of file 1 but before its first function: the code
  // succeeds, with the file as the function and the file entry's n_desc as the
  // line; the search of the whole file finds line 70.
  lemma MissedFallback(strsize: nat)
    requires strsize > 12
    ensures var stabs, p := LateFunction(), Place(1, 3, 1, 2, 1, 1);
            && Traced(stabs, 0xF010_0044, p)
            && Result(stabs, strsize, 0xF010_0044, p) == Reported(Info(Some(5), 9, Some(5), 0xF010_0040, 0))
            && Answers(stabs, N_SLINE, 1, 3, 0xF010_0044, 2, 3) && stabs[2].desc == 70
  {
    LateTraced();
    hide Traced, Answers;
    var stabs := LateFunction();
    assert NamesFile(stabs, 1) && FileEntry(stabs, 1, 1) == 1;
    assert Parameters(stabs, 2, 2) == 0;
  }

  // An address before the first file: the first search returns index -1 and the
  // second starts there.
  lemma BeforeFirstFile(strsize: nat)
    ensures var stabs, p := LateFunction(), Place(-1, -1, 0, 0, 0, 0);
            && Traced(stabs, 0xF000_0000, p) && Result(stabs, strsize, 0xF000_0000, p) == OutsideTable
  {
    LateKinds();
    LateSorted(N_SO, 0, 3);
    hide Sorted, Typed, Searched;
    SearchedLater(LateFunction(), N_SO, 0, 3, 0xF000_0000, 0);
  }
}
