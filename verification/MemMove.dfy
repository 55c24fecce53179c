// memmove and memset of lib/string.c over one flat byte-addressed memory.
module MemMove {
  type Byte = b: int | 0 <= b < 256

  // The memory after copying n bytes from src to dst out of a snapshot.
  function Copied(m: seq<Byte>, dst: nat, src: nat, n: nat): (r: seq<Byte>)
    requires dst + n <= |m| && src + n <= |m|
    ensures |r| == |m|
  {
    m[..dst] + m[src..src + n] + m[dst + n..]
  }

  // The same byte by byte.
  lemma CopiedAt(m: seq<Byte>, dst: nat, src: nat, n: nat, x: nat)
    requires dst + n <= |m| && src + n <= |m| && x < |m|
    ensures Copied(m, dst, src, n)[x] == if dst <= x < dst + n then m[src + (x - dst)] else m[x]
  {
  }

  lemma CopiedNothing(m: seq<Byte>)
    ensures forall d: nat, s: nat :: d <= |m| && s <= |m| ==> Copied(m, d, s, 0) == m
  {
  }

  // Copying the low part first is harmless when the destination does not lie
  // ahead of the source inside it.
  lemma CopiedUpwards(m: seq<Byte>, dst: nat, src: nat, a: nat, b: nat)
    requires dst + a + b <= |m| && src + a + b <= |m|
    requires src >= dst || src + a + b <= dst
    ensures Copied(Copied(m, dst, src, a), dst + a, src + a, b) == Copied(m, dst, src, a + b)
  {
    hide Copied;
    var r := Copied(m, dst, src, a);
    var t, u := Copied(r, dst + a, src + a, b), Copied(m, dst, src, a + b);
    forall x: nat | x < |m| ensures t[x] == u[x] {
      CopiedAt(r, dst + a, src + a, b, x);
      CopiedAt(m, dst, src, a + b, x);
      CopiedAt(m, dst, src, a, if dst + a <= x < dst + a + b then src + (x - dst) else x);
    }
  }

  // Copying the high part first is harmless when the destination is not below
  // the source.
  lemma CopiedDownwards(m: seq<Byte>, dst: nat, src: nat, a: nat, b: nat)
    requires dst + a + b <= |m| && src + a + b <= |m| && src <= dst
    ensures Copied(Copied(m, dst + a, src + a, b), dst, src, a) == Copied(m, dst, src, a + b)
  {
    hide Copied;
    var r := Copied(m, dst + a, src + a, b);
    var t, u := Copied(r, dst, src, a), Copied(m, dst, src, a + b);
    forall x: nat | x < |m| ensures t[x] == u[x] {
      CopiedAt(r, dst, src, a, x);
      CopiedAt(m, dst, src, a + b, x);
      CopiedAt(m, dst + a, src + a, b, if dst <= x < dst + a then src + (x - dst) else x);
    }
  }

  // std/cld; rep movsb from the given end.
  method Bytes(mem: array<Byte>, dst: nat, src: nat, n: nat, back: bool)
    requires dst + n <= mem.Length && src + n <= mem.Length
    requires if back then src <= dst else src >= dst || src + n <= dst
    modifies mem
    ensures mem[..] == Copied(old(mem[..]), dst, src, n)
  {
    hide Copied;
    ghost var was := mem[..];
    CopiedNothing(was);
    if back {
      var i := n;
      while i > 0
        invariant 0 <= i <= n
        invariant mem[..] == Copied(was, dst + i, src + i, n - i)
      {
        i := i - 1;
        CopiedDownwards(was, dst + i, src + i, 1, n - i - 1);
        MoveByte(mem, dst + i, src + i);
      }
    } else {
      for i := 0 to n
        invariant mem[..] == Copied(was, dst, src, i)
      {
        CopiedUpwards(was, dst, src, i, 1);
        MoveByte(mem, dst + i, src + i);
      }
    }
  }

  // std/cld; rep movsl from the given end.
  method Words(mem: array<Byte>, dst: nat, src: nat, words: nat, back: bool)
    requires dst + 4 * words <= mem.Length && src + 4 * words <= mem.Length && src % 4 == 0 && dst % 4 == 0
    requires if back then src <= dst else src >= dst || src + 4 * words <= dst
    modifies mem
    ensures mem[..] == Copied(old(mem[..]), dst, src, 4 * words)
  {
    hide Copied;
    ghost var was := mem[..];
    CopiedNothing(was);
    if back {
      var i := words;
      while i > 0
        invariant 0 <= i <= words
        invariant mem[..] == Copied(was, dst + 4 * i, src + 4 * i, 4 * (words - i))
      {
        i := i - 1;
        CopiedDownwards(was, dst + 4 * i, src + 4 * i, 4, 4 * (words - i) - 4);
        MoveWord(mem, dst + 4 * i, src + 4 * i);
      }
    } else {
      for i := 0 to words
        invariant mem[..] == Copied(was, dst, src, 4 * i)
      {
        CopiedUpwards(was, dst, src, 4 * i, 4);
        MoveWord(mem, dst + 4 * i, src + 4 * i);
      }
    }
  }

  // One byte step.
  method MoveByte(mem: array<Byte>, d: nat, s: nat)
    requires d < mem.Length && s < mem.Length
    modifies mem
    ensures mem[..] == Copied(old(mem[..]), d, s, 1)
  {
    mem[d] := mem[s];
  }

  // One movsl: all four bytes are read before any of them is written.
  method MoveWord(mem: array<Byte>, d: nat, s: nat)
    requires d + 4 <= mem.Length && s + 4 <= mem.Length
    modifies mem
    ensures mem[..] == Copied(old(mem[..]), d, s, 4)
  {
    hide Copied;
    ghost var was := mem[..];
    var b0, b1, b2, b3 := mem[s], mem[s + 1], mem[s + 2], mem[s + 3];
    mem[d], mem[d + 1], mem[d + 2], mem[d + 3] := b0, b1, b2, b3;
    ghost var t := Copied(was, d, s, 4);
    forall x: nat | x < |was| ensures mem[x] == t[x] { CopiedAt(was, d, s, 4, x); }
  }

  lemma WholeWords(x: nat, n: nat)
    requires x % 4 == 0 && n % 4 == 0
    ensures (x - n) % 4 == 0 && 4 * (n / 4) == n
  {
  }

  // The assembly version, lib/string.c:141-169: for every overlap, length and
  // alignment it copies as if from a snapshot.
  method Memmove(mem: array<Byte>, dst: nat, src: nat, n: nat)
    requires dst + n <= mem.Length && src + n <= mem.Length
    modifies mem
    ensures mem[..] == Copied(old(mem[..]), dst, src, n)
  {
    hide Copied;
    var s, d := src, dst;
    if s < d && s + n > d {
      s, d := s + n, d + n;
      if s % 4 == 0 && d % 4 == 0 && n % 4 == 0 {
        WholeWords(s, n);
        WholeWords(d, n);
        Words(mem, d - n, s - n, n / 4, true);
      } else {
        Bytes(mem, d - n, s - n, n, true);
      }
    } else {
      if s % 4 == 0 && d % 4 == 0 && n % 4 == 0 {
        Words(mem, d, s, n / 4, false);
      } else {
        Bytes(mem, d, s, n, false);
      }
    }
  }

  // The C version, lib/string.c:187-205, meets the same contract.
  method MemmoveC(mem: array<Byte>, dst: nat, src: nat, n: nat)
    requires dst + n <= mem.Length && src + n <= mem.Length
    modifies mem
    ensures mem[..] == Copied(old(mem[..]), dst, src, n)
  {
    hide Copied;
    ghost var was := mem[..];
    CopiedNothing(was);
    var s, d, left := src, dst, n;
    if s < d && s + n > d {
      s, d := s + n, d + n;
      while left > 0
        invariant 0 <= left <= n && s == src + left && d == dst + left
        invariant mem[..] == Copied(was, d, s, n - left)
      {
        left, d, s := left - 1, d - 1, s - 1;
        CopiedDownwards(was, d, s, 1, n - left - 1);
        MoveByte(mem, d, s);
      }
    } else {
      while left > 0
        invariant 0 <= left <= n && s == src + (n - left) && d == dst + (n - left)
        invariant mem[..] == Copied(was, dst, src, n - left)
      {
        CopiedUpwards(was, dst, src, n - left, 1);
        MoveByte(mem, d, s);
        left, d, s := left - 1, d + 1, s + 1;
      }
    }
  }

  // memset: stosl with the byte in all four places, or stosb.
  method Memset(mem: array<Byte>, v: nat, c: Byte, n: nat)
    requires v + n <= mem.Length
    modifies mem
    ensures forall x :: 0 <= x < mem.Length ==> mem[x] == if v <= x < v + n then c else old(mem[x])
  {
    if n == 0 {
      return;
    }
    if v % 4 == 0 && n % 4 == 0 {
      for i := 0 to n / 4
        invariant forall x :: 0 <= x < mem.Length ==> mem[x] == if v <= x < v + 4 * i then c else old(mem[x])
      {
        mem[v + 4 * i], mem[v + 4 * i + 1], mem[v + 4 * i + 2], mem[v + 4 * i + 3] := c, c, c, c;
      }
    } else {
      for i := 0 to n
        invariant forall x :: 0 <= x < mem.Length ==> mem[x] == if v <= x < v + i then c else old(mem[x])
      {
        mem[v + i] := c;
      }
    }
  }

  // Moving a block away and back restores it, and a move that does not overlap
  // leaves the source in place.
  lemma MoveThereAndBack(m: seq<Byte>, a: nat, b: nat, n: nat)
    requires a + n <= |m| && b + n <= |m|
    ensures Copied(Copied(m, b, a, n), a, b, n)[a..a + n] == m[a..a + n]
    ensures a + n <= b || b + n <= a ==> Copied(m, b, a, n)[a..a + n] == m[a..a + n]
  {
    var r := Copied(m, b, a, n);
    assert r[b..b + n] == m[a..a + n];
    assert Copied(r, a, b, n)[a..a + n] == r[b..b + n];
  }
}
