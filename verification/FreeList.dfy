// The intrusive free list as sequences: filtering, cutting and splicing.
module FreeList {
  import opened PageState

  function Filter(f: nat -> bool, q: seq<nat>): seq<nat>
    decreases |q|
  {
    if q == [] then [] else if f(q[0]) then [q[0]] + Filter(f, q[1..]) else Filter(f, q[1..])
  }

  lemma {:induction false} FilterMembers(f: nat -> bool, q: seq<nat>, p: nat)
    ensures p in Filter(f, q) <==> p in q && f(p)
    decreases |q|
  {
    if q != [] {
      FilterMembers(f, q[1..], p);
      assert p in q <==> p == q[0] || p in q[1..];
    }
  }

  lemma {:induction false} FilterDistinct(f: nat -> bool, q: seq<nat>)
    requires Distinct(q)
    ensures Distinct(Filter(f, q))
    decreases |q|
  {
    if q != [] {
      FilterDistinct(f, q[1..]);
      FilterMembers(f, q[1..], q[0]);
    }
  }

  lemma FilterStep(f: nat -> bool, p: nat, q: seq<nat>)
    ensures Filter(f, [p] + q) == if f(p) then [p] + Filter(f, q) else Filter(f, q)
  {
    assert ([p] + q)[1..] == q;
  }

  lemma {:induction false} FilterSnoc(f: nat -> bool, q: seq<nat>, p: nat)
    ensures Filter(f, q + [p]) == if f(p) then Filter(f, q) + [p] else Filter(f, q)
    decreases |q|
  {
    if q == [] {
      assert q + [p] == [p];
    } else {
      assert (q + [p])[1..] == q[1..] + [p];
      FilterSnoc(f, q[1..], p);
    }
  }

  // Members of q in their order, with everything f rejects left out.
  lemma {:induction false} FilterKeepsOrder(f: nat -> bool, q: seq<nat>, i: nat, j: nat)
    requires i < j < |Filter(f, q)|
    ensures exists a, b :: 0 <= a < b < |q| && q[a] == Filter(f, q)[i] && q[b] == Filter(f, q)[j]
    decreases |q|
  {
    var r, t := Filter(f, q), q[1..];
    if !f(q[0]) {
      FilterKeepsOrder(f, t, i, j);
      var a, b :| 0 <= a < b < |t| && t[a] == r[i] && t[b] == r[j];
      assert q[a + 1] == r[i] && q[b + 1] == r[j];
    } else if i == 0 {
      FilterMembers(f, t, r[j]);
      assert r[j] == Filter(f, t)[j - 1];
      var b :| 0 <= b < |t| && t[b] == r[j];
      assert q[0] == r[0] && q[b + 1] == r[j];
    } else {
      FilterKeepsOrder(f, t, i - 1, j - 1);
      var a, b :| 0 <= a < b < |t| && t[a] == Filter(f, t)[i - 1] && t[b] == Filter(f, t)[j - 1];
      assert q[a + 1] == r[i] && q[b + 1] == r[j];
    }
  }

  // A pointer to a list pointer: the list head or some page's pp_link.
  datatype Cursor = AtHead | AtLink(p: nat)

  // The cursor through which the page after the prefix a is reached.
  function CursorAfter(a: seq<nat>): Cursor
  {
    if a == [] then AtHead else AtLink(a[|a| - 1])
  }

  // All links of q but the last one.
  ghost predicate OpenChain(links: seq<Option<nat>>, q: seq<nat>)
  {
    && (forall i :: 0 <= i < |q| ==> q[i] < |links|)
    && (forall i {:trigger Successor(q, i)} :: 0 <= i < |q| - 1 ==> links[q[i]] == Successor(q, i))
  }

  lemma OpenChainSnoc(links: seq<Option<nat>>, q: seq<nat>, p: nat)
    requires OpenChain(links, q) && Distinct(q) && p < |links| && p !in q
    ensures q == [] ==> OpenChain(links, [p])
    ensures q != [] ==> OpenChain(links[q[|q| - 1] := Some(p)], q + [p])
    ensures Distinct(q + [p])
  {
    var r := q + [p];
    assert forall i :: 0 <= i < |q| - 1 ==> Successor(r, i) == Successor(q, i);
  }

  lemma OpenChainElsewhere(links: seq<Option<nat>>, q: seq<nat>, p: nat, x: Option<nat>)
    requires OpenChain(links, q) && p < |links| && p !in q[..if |q| == 0 then 0 else |q| - 1]
    ensures OpenChain(links[p := x], q)
  {
    assert forall i :: 0 <= i < |q| - 1 ==> q[i] == q[..|q| - 1][i];
  }

  // Closing a onto b.
  lemma Splice(links: seq<Option<nat>>, a: seq<nat>, b: seq<nat>)
    requires OpenChain(links, a) && Chain(links, b)
    requires a != [] ==> links[a[|a| - 1]] == First(b)
    ensures Chain(links, a + b)
  {
    var r := a + b;
    forall i | 0 <= i < |r| ensures links[r[i]] == Successor(r, i) {
      if i < |a| - 1 {
        assert Successor(a, i) == Successor(r, i);
      } else if i >= |a| {
        assert Successor(b, i - |a|) == Successor(r, i);
      }
    }
  }

  lemma Unsplice(links: seq<Option<nat>>, a: seq<nat>, b: seq<nat>)
    requires Chain(links, a + b)
    ensures OpenChain(links, a) && Chain(links, b)
    ensures a != [] ==> links[a[|a| - 1]] == First(b)
  {
    var r := a + b;
    assert forall i :: 0 <= i < |a| ==> a[i] == r[i];
    assert forall i :: 0 <= i < |b| ==> b[i] == r[|a| + i];
    forall i | 0 <= i < |b| ensures links[b[i]] == Successor(b, i) {
      assert Successor(r, |a| + i) == Successor(b, i) && r[|a| + i] == b[i];
    }
    forall i | 0 <= i < |a| - 1 ensures links[a[i]] == Successor(a, i) {
      assert Successor(r, i) == Successor(a, i) && r[i] == a[i];
    }
    if a != [] {
      assert Successor(r, |a| - 1) == First(b) && r[|a| - 1] == a[|a| - 1];
    }
  }

  lemma DistinctParts(a: seq<nat>, b: seq<nat>)
    requires Distinct(a + b)
    ensures Distinct(a) && Distinct(b) && forall p :: p in a ==> p !in b
  {
    var r := a + b;
    assert forall i :: 0 <= i < |a| ==> r[i] == a[i];
    assert forall i :: 0 <= i < |b| ==> r[|a| + i] == b[i];
  }

  // Taking p out from between a and b through the cursor that reaches it.
  lemma Cut(links: seq<Option<nat>>, a: seq<nat>, p: nat, b: seq<nat>)
    requires Chain(links, a + ([p] + b)) && Distinct(a + ([p] + b))
    ensures p < |links| && links[p] == First(b) && p !in a && p !in b
    ensures a == [] ==> Chain(links[p := None], b)
    ensures a != [] ==> a[|a| - 1] < |links| && Chain(links[p := None][a[|a| - 1] := First(b)], a + b)
    ensures Distinct(a + b)
  {
    var t := [p] + b;
    assert t[0] == p && t[1..] == b;
    Unsplice(links, a, t);
    DistinctParts(a, t);
    ChainTail(links, t, None);
    var l1 := links[p := None];
    assert p in t;
    DistinctWithout(a, p, b);
    if a != [] {
      var q := a[|a| - 1];
      assert q in a;
      ChainElsewhere(l1, b, q, First(b));
      OpenChainElsewhere(links, a, p, None);
      assert q !in a[..|a| - 1];
      OpenChainElsewhere(l1, a, q, First(b));
      Splice(l1[q := First(b)], a, b);
    }
  }

  lemma DistinctWithout(a: seq<nat>, p: nat, b: seq<nat>)
    requires Distinct(a + ([p] + b))
    ensures Distinct(a + b)
  {
    var r, t := a + b, a + ([p] + b);
    forall i, j | 0 <= i < j < |r| ensures r[i] != r[j] {
      var i', j' := if i < |a| then i else i + 1, if j < |a| then j else j + 1;
      assert r[i] == t[i'] && r[j] == t[j'];
    }
  }

  lemma DistinctJoin(a: seq<nat>, b: seq<nat>)
    requires Distinct(a) && Distinct(b) && forall p :: p in a ==> p !in b
    ensures Distinct(a + b)
  {
    var r := a + b;
    forall i, j | 0 <= i < j < |r| ensures r[i] != r[j] {
      assert r[i] == if i < |a| then a[i] else b[i - |a|];
      assert r[j] == if j < |a| then a[j] else b[j - |a|];
      if i < |a| <= j {
        assert a[i] in a && b[j - |a|] in b;
      }
    }
  }
}
