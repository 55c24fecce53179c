// boot_alloc, the allocator mem_init uses before there is a page list
// (kern/pmap.c).
module BootAlloc {
  import opened Mmu
  import opened PageState

  const LIMIT := KERNBASE + 0x40_0000   // what the entry page directory maps

  // uint32_t arithmetic.
  function Sub32(a: Word, b: Word): Word
  {
    if a >= b then a - b else a - b + 0x1_0000_0000
  }

  function RoundUp32(a: Word): Word
  {
    var s := Add32(a, PGSIZE - 1);
    s - s % PGSIZE
  }

  // One call that finds the static variable at nextfree: the value it leaves
  // there and the address it returns; None is one of the two panics, PADDR's
  // and boot_alloc's own.
  function Served(nextfree: Word, end: Word, n: Word): (Word, Option<Word>)
  {
    var start := if nextfree == 0 then RoundUp32(end) else nextfree;
    if n == 0 then (start, Some(start))
    else if start < KERNBASE then (start, None)
    else if n <= Sub32(0x40_0000, start - KERNBASE) then (RoundUp32(Add32(start, n)), Some(start))
    else (start, None)
  }

  class BootAllocator {
    const end: Word       // the first address past the kernel's bss
    var nextfree: Word

    constructor (end: Word)
      ensures this.end == end && nextfree == 0
    {
      this.end := end;
      nextfree := 0;
    }

    method Alloc(n: Word) returns (r: Option<Word>)
      modifies this
      ensures (nextfree, r) == Served(old(nextfree), end, n)
    {
      if nextfree == 0 {
        nextfree := RoundUp32(end);
      }
      if n == 0 {
        return Some(nextfree);
      }
      if nextfree < KERNBASE {
        return None;
      }
      var free := Sub32(0x40_0000, nextfree - KERNBASE);
      if n <= free {
        r := Some(nextfree);
        nextfree := RoundUp32(Add32(nextfree, n));
      } else {
        r := None;
      }
    }
  }

  // The addresses a list of requests is given, up to the first panic.
  function Grants(nextfree: Word, end: Word, ns: seq<Word>): (got: seq<Word>)
    ensures |got| <= |ns|
    decreases |ns|
  {
    if ns == [] then [] else
      var (next, r) := Served(nextfree, end, ns[0]);
      if r.None? then [] else [r.value] + Grants(next, end, ns[1..])
  }

  // Where the static variable is left.
  function Left(nextfree: Word, end: Word, ns: seq<Word>): Word
    decreases |ns|
  {
    if ns == [] then nextfree else
      var (next, r) := Served(nextfree, end, ns[0]);
      if r.None? then next else Left(next, end, ns[1..])
  }

  // Every block lies past the kernel and inside the mapped 4MB, on a page
  // boundary, and past every block granted before it.
  predicate WellPlaced(end: Word, ns: seq<Word>, got: seq<Word>)
    requires |got| <= |ns|
  {
    && (forall i :: 0 <= i < |got| ==> got[i] % PGSIZE == 0 && end <= got[i] && got[i] + ns[i] <= LIMIT)
    && (forall i, j :: 0 <= i < j < |got| ==> got[i] + ns[i] <= got[j])
  }

  lemma RoundUpExact(a: Word)
    requires a <= LIMIT
    ensures RoundUp32(a) % PGSIZE == 0 && a <= RoundUp32(a) < a + PGSIZE && RoundUp32(a) <= LIMIT
  {
    var s := a + PGSIZE - 1;
    assert s == s / 4096 * 4096 + s % 4096;
  }

  // A call in a state reached inside the mapped 4MB: it is refused exactly when
  // the block would not fit; otherwise the block starts on the first page boundary
  // that is free, and the next one on the first after it.
  lemma ServedInside(nextfree: Word, end: Word, n: Word)
    requires KERNBASE <= end <= LIMIT
    requires nextfree == 0 || (nextfree % PGSIZE == 0 && end <= nextfree <= LIMIT)
    ensures var start := if nextfree == 0 then RoundUp32(end) else nextfree;
            var (next, r) := Served(nextfree, end, n);
            && (r == None <==> start + n > LIMIT)
            && (r != None ==> r == Some(start) && start + n <= next < start + n + PGSIZE)
            && (r == None ==> next == start)
            && (nextfree == 0 ==> start < end + PGSIZE)
            && start % PGSIZE == 0 && end <= start <= next <= LIMIT && next % PGSIZE == 0
  {
    hide RoundUp32;
    RoundUpExact(end);
    var start := if nextfree == 0 then RoundUp32(end) else nextfree;
    if start + n <= LIMIT {
      RoundUpExact(start + n);
    }
  }

  lemma {:induction false} GrantsInside(nextfree: Word, end: Word, ns: seq<Word>)
    requires KERNBASE <= end <= LIMIT
    requires nextfree == 0 || (nextfree % PGSIZE == 0 && end <= nextfree <= LIMIT)
    ensures WellPlaced(end, ns, Grants(nextfree, end, ns))
    ensures forall a :: a in Grants(nextfree, end, ns) ==> nextfree <= a
    decreases |ns|
  {
    hide Served;
    if ns != [] {
      ServedInside(nextfree, end, ns[0]);
      var (next, r) := Served(nextfree, end, ns[0]);
      if r != None {
        GrantsInside(next, end, ns[1..]);
        Prepended(end, ns, r.value, Grants(next, end, ns[1..]), next);
      }
    }
  }

  lemma Prepended(end: Word, ns: seq<Word>, a: Word, got: seq<Word>, next: Word)
    requires ns != [] && |got| < |ns| && WellPlaced(end, ns[1..], got)
    requires a % PGSIZE == 0 && end <= a && a + ns[0] <= next <= LIMIT
    requires forall b :: b in got ==> next <= b
    ensures WellPlaced(end, ns, [a] + got)
  {
    var all := [a] + got;
    forall i, j | 0 <= i < j < |all| ensures all[i] + ns[i] <= all[j] {
      assert all[j] == got[j - 1] && got[j - 1] in got && ns[j] == ns[1..][j - 1];
      if i > 0 {
        assert got[i - 1] + ns[1..][i - 1] <= got[j - 1];
      }
    }
    forall i | 0 <= i < |all|
      ensures all[i] % PGSIZE == 0 && end <= all[i] && all[i] + ns[i] <= LIMIT
    {
      if i > 0 {
        assert all[i] == got[i - 1] && ns[i] == ns[1..][i - 1];
      }
    }
  }

  // Every run from the first call on places its blocks well exactly when the
  // kernel image itself ends inside the mapped 4MB. Past that the free-space
  // subtraction wraps and the panic is not reached.
  lemma GrantsWellPlacedIff(end: Word)
    requires KERNBASE <= end
    ensures (forall ns :: WellPlaced(end, ns, Grants(0, end, ns))) <==> end <= LIMIT
  {
    if end <= LIMIT {
      forall ns ensures WellPlaced(end, ns, Grants(0, end, ns)) {
        GrantsInside(0, end, ns);
      }
    } else {
      var ns := if RoundUp32(end) == 0 then [0] else [1];
      assert Grants(0, end, ns) == [RoundUp32(end)];
      assert !WellPlaced(end, ns, Grants(0, end, ns));
    }
  }

  // boot_alloc(0) afterwards returns the end of everything granted, which is
  // where page_init starts its free pages.
  lemma {:induction false} LeftIsPastEveryGrant(nextfree: Word, end: Word, ns: seq<Word>)
    requires KERNBASE <= end <= LIMIT
    requires nextfree == 0 || (nextfree % PGSIZE == 0 && end <= nextfree <= LIMIT)
    requires |Grants(nextfree, end, ns)| == |ns| > 0
    ensures var left := Left(nextfree, end, ns);
            && left != 0 && Served(left, end, 0) == (left, Some(left))
            && left % PGSIZE == 0 && end <= left <= LIMIT
    ensures forall i :: 0 <= i < |ns| ==> Grants(nextfree, end, ns)[i] + ns[i] <= Left(nextfree, end, ns)
    decreases |ns|
  {
    ServedInside(nextfree, end, ns[0]);
    hide RoundUp32;
    var (next, r) := Served(nextfree, end, ns[0]);
    if |ns| > 1 {
      LeftIsPastEveryGrant(next, end, ns[1..]);
      LeftGrows(next, end, ns[1..]);
      var got := Grants(nextfree, end, ns);
      forall i | 0 <= i < |ns| ensures got[i] + ns[i] <= Left(nextfree, end, ns) {
        if i > 0 {
          assert got[i] == Grants(next, end, ns[1..])[i - 1] && ns[i] == ns[1..][i - 1];
        }
      }
    } else {
      assert ns[1..] == [];
    }
  }

  lemma {:induction false} LeftGrows(nextfree: Word, end: Word, ns: seq<Word>)
    requires KERNBASE <= end <= LIMIT
    requires nextfree % PGSIZE == 0 && end <= nextfree <= LIMIT
    ensures nextfree <= Left(nextfree, end, ns)
    decreases |ns|
  {
    if ns != [] {
      ServedInside(nextfree, end, ns[0]);
      hide RoundUp32;
      var (next, r) := Served(nextfree, end, ns[0]);
      if r != None {
        LeftGrows(next, end, ns[1..]);
      }
    }
  }

  // mem_init's two requests: the directory, then 8 bytes for each page. When
  // both are granted, physical addresses of all pages fit in 32 bits, and the
  // array fits in the PTSIZE bytes kept for it at UPAGES.
  lemma PagesArrayFits(end: Word, npages: nat)
    requires KERNBASE <= end <= LIMIT && 0 < npages && npages * 8 < 0x1_0000_0000
    requires |Grants(0, end, [PGSIZE, npages * 8])| == 2
    ensures forall p :: 0 <= p < npages ==> p * PGSIZE < 0x8000_0000
    ensures 1 <= RoundUp32(npages * 8) / PGSIZE <= 1024 && UPAGES + RoundUp32(npages * 8) <= UVPT
    ensures Grants(0, end, [PGSIZE, npages * 8])[0] - KERNBASE + PGSIZE <= Grants(0, end, [PGSIZE, npages * 8])[1] - KERNBASE
    ensures Left(0, end, [PGSIZE, npages * 8]) - KERNBASE <= 0x40_0000
  {
    var ns: seq<Word> := [PGSIZE, npages * 8];
    GrantsInside(0, end, ns);
    LeftIsPastEveryGrant(0, end, ns);
    hide Grants, Left;
    RoundUpExact(npages * 8);
    assert Grants(0, end, ns)[0] + ns[0] <= Grants(0, end, ns)[1];
    assert npages * 8 + PGSIZE <= 0x40_0000;
  }
}
