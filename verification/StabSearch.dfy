// stab_binsearch of kern/kdebug.c: binary search over a table in which only the
// entries of one type are searched and sorted.
module StabSearch {
  type Addr = a: int | 0 <= a < 0x1_0000_0000

  datatype Stab = Stab(strx: nat, kind: int, desc: int, value: Addr)

  // Entry i of the region is one of the searched ones.
  predicate Typed(stabs: seq<Stab>, kind: int, i: int)
  {
    0 <= i < |stabs| && stabs[i].kind == kind
  }

  // The searched entries of [left, right] are in nondecreasing order, and none
  // sits on the very last address.
  predicate Sorted(stabs: seq<Stab>, kind: int, left: int, right: int)
  {
    && (forall i, j :: left <= i < j <= right && Typed(stabs, kind, i) && Typed(stabs, kind, j) ==>
          stabs[i].value <= stabs[j].value)
    && (forall i :: left <= i <= right && Typed(stabs, kind, i) ==> stabs[i].value < 0xFFFF_FFFF)
  }

  predicate NoTyped(stabs: seq<Stab>, kind: int, lo: int, hi: int)
  {
    forall i :: lo <= i < hi ==> !Typed(stabs, kind, i)
  }

  // The address occurs as the value of a searched entry of the region.
  predicate Occurs(stabs: seq<Stab>, kind: int, left: int, right: int, a: int)
  {
    exists i :: left <= i <= right && Typed(stabs, kind, i) && stabs[i].value == a
  }

  // addr++ on a uintptr_t.
  function Next(a: Addr): Addr { if a == 0xFFFF_FFFF then 0 else a + 1 }

  // [rl, rr] brackets address a: rl is the last searched entry at or below a,
  // and the next searched entry, if any, is rr + 1.
  predicate Brackets(stabs: seq<Stab>, kind: int, left: int, right: int, a: int, rl: int, rr: int)
  {
    && left <= rl <= rr <= right
    && Typed(stabs, kind, rl) && stabs[rl].value <= a
    && NoTyped(stabs, kind, rl + 1, rr + 1)
    && (rr < right ==> Typed(stabs, kind, rr + 1) && stabs[rr + 1].value > a)
  }

  // Every searched entry is above a: what the code returns then. Both results
  // lie before the region when its first entry is a searched one.
  predicate AllAbove(stabs: seq<Stab>, kind: int, left: int, right: int, a: int, rl: int, rr: int)
  {
    && left - 1 <= rr < right && rl == (if rr < left then rr else left)
    && NoTyped(stabs, kind, left, rr + 1)
    && Typed(stabs, kind, rr + 1) && stabs[rr + 1].value > a
  }

  // What the loop knows on a sorted region. b is the running addr.
  ghost predicate Known(stabs: seq<Stab>, kind: int, left: int, right: int, addr: Addr, b: int, l: int, r: int)
  {
    && addr <= b
    && (forall a :: addr <= a < b ==> Occurs(stabs, kind, left, right, a))
    && (forall i :: left <= i < l && i <= right && Typed(stabs, kind, i) ==> stabs[i].value < b)
    && (forall i :: r < i <= right && Typed(stabs, kind, i) ==> stabs[i].value > addr && stabs[i].value >= b - 1)
    && (r < right ==> Typed(stabs, kind, r + 1))
  }

  // The last searched entry of [l, m], or l - 1.
  function Back(stabs: seq<Stab>, kind: int, l: int, m: int): (k: int)
    requires 0 <= l && m < |stabs| && l - 1 <= m
    ensures l - 1 <= k <= m && NoTyped(stabs, kind, k + 1, m + 1) && (k >= l ==> Typed(stabs, kind, k))
    decreases m - l + 1
  {
    if m < l || stabs[m].kind == kind then m else Back(stabs, kind, l, m - 1)
  }

  // Whether the bisection for addr, over the table as it is before the call,
  // reaches an entry with value addr while one with value addr + 1 is still
  // inside the interval.
  predicate Overshoots(stabs: seq<Stab>, kind: int, l: int, r: int, addr: Addr)
    requires 0 <= l && r < |stabs|
    decreases r - l + 1
  {
    l <= r &&
    var t := (l + r) / 2;
    var m := Back(stabs, kind, l, t);
    if m < l || stabs[m].value < addr then Overshoots(stabs, kind, t + 1, r, addr)
    else if stabs[m].value > addr then Overshoots(stabs, kind, l, m - 1, addr)
    else Occurs(stabs, kind, l, r, addr + 1)
  }

  // The result for a region with a searched entry at or below addr. top is addr
  // unless addr, addr + 1, ..., top all occur and the search ran on to top.
  ghost predicate Found(stabs: seq<Stab>, kind: int, left: int, right: int, addr: Addr, top: int, rl: int, rr: int)
  {
    && addr <= top && (top > addr ==> forall a :: addr <= a <= top ==> Occurs(stabs, kind, left, right, a))
    && left <= rl <= rr <= right
    && Typed(stabs, kind, rl) && stabs[rl].value <= top && (top > addr ==> stabs[rl].value == top)
    && NoTyped(stabs, kind, rl + 1, rr + 1)
    && (rr < right ==> Typed(stabs, kind, rr + 1) && stabs[rr + 1].value > addr && stabs[rr + 1].value >= top)
  }

  ghost predicate Searching(stabs: seq<Stab>, kind: int, left: int, right: int, addr: Addr,
                            b: int, l: int, r: int, rl: int, hit: int)
    requires 0 <= left && right < |stabs|
  {
    && Known(stabs, kind, left, right, addr, b, l, r)
    && (rl == left || (left <= rl <= r && Typed(stabs, kind, rl)))
    && (b > addr ==> left <= hit <= r && Typed(stabs, kind, hit) && stabs[hit].value == b - 1)
    && 0 <= l && r < |stabs|
    && (b == addr ==> (Overshoots(stabs, kind, left, right, addr) <==> Overshoots(stabs, kind, l, r, addr)))
    && (b == addr + 1 ==> (Overshoots(stabs, kind, left, right, addr) <==> Occurs(stabs, kind, l, r, addr + 1)))
    && (b > addr + 1 ==> Overshoots(stabs, kind, left, right, addr))
  }

  // One probe: m is where the backward scan from the middle t stopped.
  predicate Probe(stabs: seq<Stab>, kind: int, left: int, right: int, l: int, r: int, t: int, m: int)
  {
    0 <= left <= l <= r <= right < |stabs| && t == (l + r) / 2 && m == Back(stabs, kind, l, t)
  }

  lemma OvershootsUnfolds(stabs: seq<Stab>, kind: int, left: int, right: int, l: int, r: int, t: int, m: int, addr: Addr)
    requires Probe(stabs, kind, left, right, l, r, t, m)
    ensures m < l || stabs[m].value < addr ==>
              (Overshoots(stabs, kind, l, r, addr) <==> Overshoots(stabs, kind, t + 1, r, addr))
    ensures m >= l && stabs[m].value > addr ==>
              (Overshoots(stabs, kind, l, r, addr) <==> Overshoots(stabs, kind, l, m - 1, addr))
    ensures m >= l && stabs[m].value == addr ==>
              (Overshoots(stabs, kind, l, r, addr) <==> Occurs(stabs, kind, l, r, addr + 1))
  {
  }

  lemma BackFacts(stabs: seq<Stab>, kind: int, l: int, t: int)
    requires 0 <= l && t < |stabs| && l - 1 <= t
    ensures var k := Back(stabs, kind, l, t);
            l - 1 <= k <= t && NoTyped(stabs, kind, k + 1, t + 1) && (k >= l ==> Typed(stabs, kind, k))
  {
  }

  lemma KnownBound(stabs: seq<Stab>, kind: int, left: int, right: int, addr: Addr, b: int, l: int, r: int)
    requires Known(stabs, kind, left, right, addr, b, l, r)
    ensures addr <= b
  {
  }

  lemma StepSkip(stabs: seq<Stab>, kind: int, left: int, right: int, addr: Addr, b: int, l: int, r: int, rl: int, hit: int, t: int, m: int)
    requires Probe(stabs, kind, left, right, l, r, t, m) && m < l
    requires Searching(stabs, kind, left, right, addr, b, l, r, rl, hit)
    ensures Searching(stabs, kind, left, right, addr, b, t + 1, r, rl, hit)
  {
    hide Overshoots, Back;
    OvershootsUnfolds(stabs, kind, left, right, l, r, t, m, addr);
    BackFacts(stabs, kind, l, t);
  }

  lemma StepLeft(stabs: seq<Stab>, kind: int, left: int, right: int, addr: Addr, b: int, l: int, r: int, rl: int, hit: int, t: int, m: int)
    requires Probe(stabs, kind, left, right, l, r, t, m) && m >= l && stabs[m].value < b
    requires Sorted(stabs, kind, left, right) && Searching(stabs, kind, left, right, addr, b, l, r, rl, hit)
    ensures Searching(stabs, kind, left, right, addr, b, t + 1, r, m, hit)
  {
    hide Overshoots, Occurs, Known, Sorted, Back;
    OvershootsUnfolds(stabs, kind, left, right, l, r, t, m, addr);
    BackFacts(stabs, kind, l, t);
    StepLeftKnown(stabs, kind, left, right, addr, b, l, r, m, t);
    OccursRight(stabs, kind, l, r, m, t, b);
  }

  lemma StepLeftKnown(stabs: seq<Stab>, kind: int, left: int, right: int, addr: Addr, b: int, l: int, r: int, m: int, t: int)
    requires Sorted(stabs, kind, left, right) && Known(stabs, kind, left, right, addr, b, l, r)
    requires left <= l <= m <= t <= r <= right && Typed(stabs, kind, m) && NoTyped(stabs, kind, m + 1, t + 1)
    requires stabs[m].value < b
    ensures Known(stabs, kind, left, right, addr, b, t + 1, r)
    ensures forall i :: l <= i <= t && Typed(stabs, kind, i) ==> stabs[i].value < b
  {
    hide Occurs;
  }

  lemma OccursRight(stabs: seq<Stab>, kind: int, l: int, r: int, m: int, t: int, b: int)
    requires l <= m <= t <= r && forall i :: l <= i <= t && Typed(stabs, kind, i) ==> stabs[i].value < b
    ensures Occurs(stabs, kind, l, r, b) <==> Occurs(stabs, kind, t + 1, r, b)
  {
  }

  lemma StepRight(stabs: seq<Stab>, kind: int, left: int, right: int, addr: Addr, b: int, l: int, r: int, rl: int, hit: int, t: int, m: int)
    requires Probe(stabs, kind, left, right, l, r, t, m) && m >= l && stabs[m].value > b
    requires Sorted(stabs, kind, left, right) && Searching(stabs, kind, left, right, addr, b, l, r, rl, hit)
    requires rl == left || stabs[rl].value < b
    ensures Searching(stabs, kind, left, right, addr, b, l, m - 1, rl, hit)
  {
    hide Overshoots, Occurs, Known, Sorted, Back;
    OvershootsUnfolds(stabs, kind, left, right, l, r, t, m, addr);
    BackFacts(stabs, kind, l, t);
    KnownBound(stabs, kind, left, right, addr, b, l, r);
    StepRightKnown(stabs, kind, left, right, addr, b, l, r, m);
    OccursLeft(stabs, kind, l, r, m, b);
  }

  lemma StepRightKnown(stabs: seq<Stab>, kind: int, left: int, right: int, addr: Addr, b: int, l: int, r: int, m: int)
    requires Sorted(stabs, kind, left, right) && Known(stabs, kind, left, right, addr, b, l, r)
    requires left <= l <= m <= r <= right && Typed(stabs, kind, m) && stabs[m].value > b
    ensures Known(stabs, kind, left, right, addr, b, l, m - 1)
    ensures forall i :: m <= i <= r && Typed(stabs, kind, i) ==> stabs[i].value > b
    ensures forall i :: left <= i <= right && Typed(stabs, kind, i) && stabs[i].value < b ==> i < m
  {
    hide Occurs;
  }

  lemma OccursLeft(stabs: seq<Stab>, kind: int, l: int, r: int, m: int, b: int)
    requires l <= m <= r && forall i :: m <= i <= r && Typed(stabs, kind, i) ==> stabs[i].value > b
    ensures Occurs(stabs, kind, l, r, b) <==> Occurs(stabs, kind, l, m - 1, b)
  {
  }

  lemma StepMatch(stabs: seq<Stab>, kind: int, left: int, right: int, addr: Addr, b: int, l: int, r: int, rl: int, hit: int, t: int, m: int)
    requires Probe(stabs, kind, left, right, l, r, t, m) && m >= l && stabs[m].value == b
    requires Sorted(stabs, kind, left, right) && Searching(stabs, kind, left, right, addr, b, l, r, rl, hit)
    ensures Searching(stabs, kind, left, right, addr, b + 1, m, r, m, m) && b < 0xFFFF_FFFF
  {
    hide Overshoots, Back;
    OvershootsUnfolds(stabs, kind, left, right, l, r, t, m, addr);
    BackFacts(stabs, kind, l, t);
    forall a | addr <= a < b + 1 ensures Occurs(stabs, kind, left, right, a) {
      if a == b { assert Typed(stabs, kind, m); }
    }
  }

  lemma Step(stabs: seq<Stab>, kind: int, left: int, right: int, addr: Addr, b: int, l: int, r: int, rl: int, hit: int, t: int, m: int)
    requires Probe(stabs, kind, left, right, l, r, t, m) && l - 1 <= m <= t
    requires Sorted(stabs, kind, left, right) && Searching(stabs, kind, left, right, addr, b, l, r, rl, hit)
    requires rl == left || (left <= rl <= right && stabs[rl].value < b)
    ensures m < l ==> Searching(stabs, kind, left, right, addr, b, t + 1, r, rl, hit)
    ensures m >= l && stabs[m].value < b ==> Searching(stabs, kind, left, right, addr, b, t + 1, r, m, hit)
    ensures m >= l && stabs[m].value > b ==> Searching(stabs, kind, left, right, addr, b, l, m - 1, rl, hit)
    ensures m >= l && stabs[m].value == b ==>
              Searching(stabs, kind, left, right, addr, b + 1, m, r, m, m) && b < 0xFFFF_FFFF
  {
    hide Searching, Sorted;
    if m < l {
      StepSkip(stabs, kind, left, right, addr, b, l, r, rl, hit, t, m);
    } else if stabs[m].value < b {
      StepLeft(stabs, kind, left, right, addr, b, l, r, rl, hit, t, m);
    } else if stabs[m].value > b {
      StepRight(stabs, kind, left, right, addr, b, l, r, rl, hit, t, m);
    } else {
      StepMatch(stabs, kind, left, right, addr, b, l, r, rl, hit, t, m);
    }
  }

  // On exit from the loop the interval is empty.
  lemma SearchDone(stabs: seq<Stab>, kind: int, left: int, right: int, addr: Addr, b: int, l: int, r: int, rl: int, hit: int)
    returns (top: int)
    requires 0 <= left <= right + 1 && right < |stabs| && left <= l && r < l && l <= right + 1 && left - 1 <= r <= right
    requires Sorted(stabs, kind, left, right) && Searching(stabs, kind, left, right, addr, b, l, r, rl, hit)
    ensures top > addr <==> Overshoots(stabs, kind, left, right, addr)
    ensures addr <= top && (top > addr ==> forall a :: addr <= a <= top ==> Occurs(stabs, kind, left, right, a))
    ensures forall i :: left <= i <= r && Typed(stabs, kind, i) ==> stabs[i].value <= top
    ensures forall i :: r < i <= right && Typed(stabs, kind, i) ==> stabs[i].value > addr && stabs[i].value >= top
    ensures r < right ==> Typed(stabs, kind, r + 1)
    ensures rl == left || (left <= rl <= r && Typed(stabs, kind, rl))
    ensures top > addr ==> left <= hit <= r && Typed(stabs, kind, hit) && stabs[hit].value == top
  {
    top := if b == addr then addr else b - 1;
    assert !Overshoots(stabs, kind, l, r, addr);
    assert !Occurs(stabs, kind, l, r, addr + 1);
    hide Overshoots;
  }

  lemma SearchStarts(stabs: seq<Stab>, kind: int, left: int, right: int, addr: Addr)
    requires 0 <= left <= right + 1 && right < |stabs|
    ensures Searching(stabs, kind, left, right, addr, addr, left, right, left, left)
  {
  }

  // From the emptied interval and the final backward scan to the result.
  lemma ResultHolds(stabs: seq<Stab>, kind: int, left: int, right: int, addr: Addr, top: int, hit: int, from: int, rl: int, rr: int)
    requires 0 <= left <= right + 1 && right < |stabs| && left - 1 <= rr <= right
    requires addr <= top && (top > addr ==> forall a :: addr <= a <= top ==> Occurs(stabs, kind, left, right, a))
    requires forall i :: left <= i <= rr && Typed(stabs, kind, i) ==> stabs[i].value <= top
    requires forall i :: rr < i <= right && Typed(stabs, kind, i) ==> stabs[i].value > addr && stabs[i].value >= top
    requires rr < right ==> Typed(stabs, kind, rr + 1)
    requires top > addr ==> left <= hit <= rr && Typed(stabs, kind, hit) && stabs[hit].value == top
    requires Sorted(stabs, kind, left, right) && !NoTyped(stabs, kind, left, right + 1)
    requires from == left || (left <= from <= rr && Typed(stabs, kind, from))
    requires if rr < from then rl == rr else from <= rl <= rr && NoTyped(stabs, kind, rl + 1, rr + 1)
    requires rl == from || rl == rr < from || Typed(stabs, kind, rl)
    ensures Found(stabs, kind, left, right, addr, top, rl, rr) || AllAbove(stabs, kind, left, right, addr, rl, rr)
  {
    hide Occurs;
    if left <= rl <= rr && Typed(stabs, kind, rl) {
      assert Found(stabs, kind, left, right, addr, top, rl, rr);
    } else {
      assert NoTyped(stabs, kind, left, rr + 1);
      assert rr < right;
    }
  }

  lemma Finished(stabs: seq<Stab>, kind: int, left: int, right: int, addr: Addr, b: int, l: int, r: int, from: int, hit: int, rl: int, rr: int)
    returns (top: int)
    requires 0 <= left <= right + 1 && right < |stabs| && left <= l && r < l && l <= right + 1 && left - 1 <= r <= right
    requires Sorted(stabs, kind, left, right) && Searching(stabs, kind, left, right, addr, b, l, r, from, hit)
    requires !NoTyped(stabs, kind, left, right + 1) ==> rr == r && NoTyped(stabs, kind, rl + 1, rr + 1)
    requires !NoTyped(stabs, kind, left, right + 1) ==>
               if from <= rr then from <= rl <= rr && (rl == from || Typed(stabs, kind, rl)) else rl == rr
    ensures top > addr <==> Overshoots(stabs, kind, left, right, addr)
    ensures !NoTyped(stabs, kind, left, right + 1) ==>
              Found(stabs, kind, left, right, addr, top, rl, rr) || AllAbove(stabs, kind, left, right, addr, rl, rr)
  {
    hide Searching, Sorted, Found, AllAbove, Overshoots, Occurs;
    top := SearchDone(stabs, kind, left, right, addr, b, l, r, from, hit);
    if !NoTyped(stabs, kind, left, right + 1) {
      ResultHolds(stabs, kind, left, right, addr, top, hit, from, rl, rr);
    }
  }

  // The backward scan for an entry of the type, kern/kdebug.c:60-61.
  method ScanBack(stabs: seq<Stab>, kind: int, l: int, t: int) returns (m: int)
    requires 0 <= l && t < |stabs| && l - 1 <= t
    ensures l - 1 <= m <= t && m == Back(stabs, kind, l, t)
    ensures NoTyped(stabs, kind, m + 1, t + 1) && (m >= l ==> Typed(stabs, kind, m))
  {
    m := t;
    while m >= l && stabs[m].kind != kind
      invariant l - 1 <= m <= t && Back(stabs, kind, l, t) == Back(stabs, kind, l, m)
      decreases m
    {
      m := m - 1;
    }
  }

  lemma NoTypedJoins(stabs: seq<Stab>, kind: int, left: int, l: int, m: int, t: int)
    requires m < l
    ensures NoTyped(stabs, kind, left, l) && NoTyped(stabs, kind, m + 1, t + 1) ==> NoTyped(stabs, kind, left, t + 1)
    ensures NoTyped(stabs, kind, left, left)
  {
  }

  lemma TypedInside(stabs: seq<Stab>, kind: int, left: int, right: int, m: int)
    requires left <= m <= right && Typed(stabs, kind, m)
    ensures !NoTyped(stabs, kind, left, right + 1)
  {
  }

  // The repair loop, kern/kdebug.c:88-92.
  method Repair(stabs: seq<Stab>, kind: int, rl: int, rr: int) returns (l: int)
    requires 0 <= rl && rr < |stabs|
    ensures if rl <= rr then rl <= l <= rr && (l == rl || Typed(stabs, kind, l)) else l == rr
    ensures NoTyped(stabs, kind, l + 1, rr + 1)
  {
    l := rr;
    while l > rl && stabs[l].kind != kind
      invariant l <= rr && (if rl <= rr then rl <= l else l == rr) && NoTyped(stabs, kind, l + 1, rr + 1)
    {
      l := l - 1;
    }
  }

  // stab_binsearch, on any table; it always terminates, by the interval and
  // whether the entry at its left end has the running addr.
  method StabBinsearch(stabs: seq<Stab>, left: int, right: int, kind: int, addr: Addr)
    returns (rl: int, rr: int, ghost top: int)
    requires 0 <= left <= right + 1 && right < |stabs|
    ensures left - 1 <= rr <= right && left - 1 <= rl <= right + 1
    ensures rl > rr <==> NoTyped(stabs, kind, left, right + 1)
    ensures rl > rr ==> rl == left && rr == left - 1
    ensures rl < left ==> Typed(stabs, kind, left)
    ensures Sorted(stabs, kind, left, right) && !NoTyped(stabs, kind, left, right + 1) ==>
              Found(stabs, kind, left, right, addr, top, rl, rr) || AllAbove(stabs, kind, left, right, addr, rl, rr)
    ensures Sorted(stabs, kind, left, right) ==> (top > addr <==> Overshoots(stabs, kind, left, right, addr))
  {
    hide Searching, Known, Overshoots, Occurs, Found, AllAbove, Sorted, Back, Typed, NoTyped;
    ghost var sorted, b, hit := Sorted(stabs, kind, left, right), addr as int, left;
    rl, rr, top := left, right, addr;
    var l, r, any, a := left, right, false, addr;
    SearchStarts(stabs, kind, left, right, addr);
    NoTypedJoins(stabs, kind, left, left, left - 1, left - 1);
    while l <= r
      invariant left <= l <= right + 1 && left - 1 <= r <= right && rr == r
      invariant left <= rl <= right + 1
      invariant !any ==> rl == left && r == right && NoTyped(stabs, kind, left, l)
      invariant any ==> left <= right && !NoTyped(stabs, kind, left, right + 1)
      invariant rr < right ==> Typed(stabs, kind, rr + 1)
      invariant sorted ==> a == b && Searching(stabs, kind, left, right, addr, b, l, r, rl, hit)
      invariant sorted ==> rl == left || (rl <= right && stabs[rl].value < b)
      decreases r - l + 1, if l <= r && stabs[l].value == a then 1 else 0
    {
      var t := (l + r) / 2;
      var m := ScanBack(stabs, kind, l, t);
      if sorted { Step(stabs, kind, left, right, addr, b, l, r, rl, hit, t, m); }
      if m < l {
        NoTypedJoins(stabs, kind, left, l, m, t);
        l := t + 1;
        continue;
      }
      TypedInside(stabs, kind, left, right, m);
      any := true;
      if stabs[m].value < a {
        rl := m;
        l := t + 1;
      } else if stabs[m].value > a {
        rr := m - 1;
        r := m - 1;
      } else {
        rl := m;
        l := m;
        a := Next(a);
        b, hit := b + 1, m;
      }
    }
    ghost var from := rl;
    if !any {
      rr := rl - 1;
    } else {
      rl := Repair(stabs, kind, rl, rr);
    }
    if sorted { top := Finished(stabs, kind, left, right, addr, b, l, r, from, hit, rl, rr); }
  }

  // The documented bracketing is what a sorted region with a searched entry at
  // or below addr gets, exactly when the search does not overshoot.
  lemma BracketsIff(stabs: seq<Stab>, kind: int, left: int, right: int, addr: Addr, top: int, rl: int, rr: int, i: int)
    requires 0 <= left <= right < |stabs| && Sorted(stabs, kind, left, right)
    requires left <= i <= right && Typed(stabs, kind, i) && stabs[i].value <= addr
    requires Found(stabs, kind, left, right, addr, top, rl, rr) || AllAbove(stabs, kind, left, right, addr, rl, rr)
    requires top > addr <==> Overshoots(stabs, kind, left, right, addr)
    ensures Brackets(stabs, kind, left, right, addr, rl, rr) <==> !Overshoots(stabs, kind, left, right, addr)
  {
    hide Overshoots, Occurs;
  }

  // Overshooting needs both addr and addr + 1 among the searched values.
  lemma {:induction false} OvershootNeedsBoth(stabs: seq<Stab>, kind: int, l: int, r: int, addr: Addr)
    requires 0 <= l && r < |stabs| && Overshoots(stabs, kind, l, r, addr)
    ensures Occurs(stabs, kind, l, r, addr) && Occurs(stabs, kind, l, r, addr + 1)
    decreases r - l + 1
  {
    var t := (l + r) / 2;
    var m := Back(stabs, kind, l, t);
    if m < l || stabs[m].value < addr {
      OvershootNeedsBoth(stabs, kind, t + 1, r, addr);
    } else if stabs[m].value > addr {
      OvershootNeedsBoth(stabs, kind, l, m - 1, addr);
    } else {
      assert Typed(stabs, kind, m);
    }
  }

  // Only one pair of indices brackets an address.
  lemma BracketsUnique(stabs: seq<Stab>, kind: int, left: int, right: int, a: int, rl: int, rr: int, sl: int, sr: int)
    requires Sorted(stabs, kind, left, right)
    requires Brackets(stabs, kind, left, right, a, rl, rr) && Brackets(stabs, kind, left, right, a, sl, sr)
    ensures rl == sl && rr == sr
  {
  }

  // Two entries one byte apart: looking up the first finds the second.
  lemma OvershootExample(kind: int)
    ensures var stabs := [Stab(0, kind, 1, 0xF010_0000), Stab(0, kind, 2, 0xF010_0001)];
            Sorted(stabs, kind, 0, 1) && Overshoots(stabs, kind, 0, 1, 0xF010_0000)
  {
    var stabs := [Stab(0, kind, 1, 0xF010_0000), Stab(0, kind, 2, 0xF010_0001)];
    assert Back(stabs, kind, 0, 0) == 0;
    assert Typed(stabs, kind, 1) && stabs[1].value == 0xF010_0000 + 1;
    assert Occurs(stabs, kind, 0, 1, 0xF010_0000 + 1);
  }
}
