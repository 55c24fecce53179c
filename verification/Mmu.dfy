// The x86 two-level paging format and the kernel's address-space layout:
// inc/mmu.h, inc/memlayout.h and the address conversions of kern/pmap.h.
module Mmu {
  const PGSIZE := 4096
  const PTSIZE := 0x40_0000
  const NENTRIES := 1024          // NPDENTRIES and NPTENTRIES
  const MAXPAGES := 0x10_0000     // page numbers fit in 20 bits
  const REACH := 0x1_0000         // pages with a kernel address: 2^32 - KERNBASE bytes
  const MAXREF := 65535           // pp_ref is a uint16_t

  const PTE_P := 1
  const PTE_W := 2
  const PTE_U := 4

  const IOPHYSMEM := 0x0A_0000
  const EXTPHYSMEM := 0x10_0000
  const KERNBASE := 0xF000_0000
  const KSTACKTOP := KERNBASE
  const KSTKSIZE := 8 * PGSIZE
  const ULIM := KSTACKTOP - 2 * PTSIZE
  const UVPT := ULIM - PTSIZE
  const UPAGES := UVPT - PTSIZE
  const UTOP := UPAGES - PTSIZE

  // PDX(UVPT) and PDX(UTOP); LayoutIndices checks both.
  const SELF := 957
  const USERTOP := 955

  type Word = w: int | 0 <= w < 0x1_0000_0000
  type Index = i: int | 0 <= i < 1024
  type Flags = f: int | 0 <= f < 4096
  type Count = c: int | 0 <= c < 65536

  // A page frame, as its 1024 words.
  type Frame = f: seq<Word> | |f| == 1024 witness seq(1024, _ => 0)

  function ZeroFrame(): (f: Frame)
    ensures forall i :: 0 <= i < 1024 ==> f[i] == 0
  {
    seq(1024, _ => 0)
  }

  // A virtual page, by its directory and table index.
  datatype Vpn = Vpn(pdx: Index, ptx: Index)

  function Pdx(va: Word): (d: Index) { va / 0x40_0000 }

  function Ptx(va: Word): (t: Index) { va / 4096 % 1024 }

  function PgOff(va: Word): (o: Flags) { va % 4096 }

  function PgNum(va: Word): (n: nat) { va / 4096 }

  function VpnOf(va: Word): Vpn { Vpn(Pdx(va), Ptx(va)) }

  function PgAddr(d: Index, t: Index, o: Flags): (va: Word)
  {
    d * 0x40_0000 + t * 4096 + o
  }

  function Number(v: Vpn): (n: nat)
    ensures n < MAXPAGES
  {
    v.pdx * 1024 + v.ptx
  }

  // An entry word: physical page number in the high 20 bits, flags in the low 12.
  function Pack(p: nat, flags: Flags): (w: Word)
    requires p < MAXPAGES
    ensures Ppn(w) == p && FlagsOf(w) == flags
  {
    p * 4096 + flags
  }

  function Ppn(w: Word): (p: nat)
    ensures p < MAXPAGES
  {
    w / 4096
  }

  function FlagsOf(w: Word): Flags { w % 4096 }

  predicate Present(w: Word) { FlagsOf(w) % 2 == 1 }

  predicate Writable(w: Word) { FlagsOf(w) / 2 % 2 == 1 }

  predicate User(w: Word) { FlagsOf(w) / 4 % 2 == 1 }

  // perm | PTE_P
  function WithPresent(perm: Flags): (flags: Flags)
    ensures flags % 2 == 1
    ensures flags / 2 == perm / 2 && flags / 4 == perm / 4
  {
    perm + (1 - perm % 2)
  }

  // Arithmetic of a uint16_t counter.
  function Inc16(c: Count): Count { if c == MAXREF then 0 else c + 1 }

  function Dec16(c: Count): Count { if c == 0 then MAXREF else c - 1 }

  // Addition of uint32_t values.
  function Add32(a: Word, b: Word): Word
  {
    if a + b < 0x1_0000_0000 then a + b else a + b - 0x1_0000_0000
  }

  // npages*PGSIZE as a uint32_t.
  function Bytes32(pages: nat): Word { pages * PGSIZE % 0x1_0000_0000 }

  // Every page's address is below it unless the machine has exactly 4 GB.
  lemma AddressesBelowIff(n: nat)
    requires 0 < n <= MAXPAGES
    ensures (forall p: nat :: p < n ==> p * PGSIZE < Bytes32(n)) <==> n < MAXPAGES
  {
    if n == MAXPAGES {
      assert 0 * PGSIZE >= Bytes32(n);
    }
  }

  // page2kva: page2pa(pp) + KERNBASE as a uint32_t.
  function Page2Kva(p: nat): Word
    requires p < MAXPAGES
  {
    Add32(p * PGSIZE, KERNBASE)
  }

  // It is the page's kernel address exactly for the first 256 MB; for any other
  // page the sum wraps below KERNBASE.
  lemma Page2KvaReachesIff(p: nat)
    requires p < MAXPAGES
    ensures Page2Kva(p) >= KERNBASE <==> p < REACH
    ensures p < REACH ==> Page2Kva(p) == KERNBASE + p * PGSIZE
  {
  }

  // PGADDR and the three field selectors are inverse to each other.
  lemma AddressSplit(va: Word)
    ensures PgAddr(Pdx(va), Ptx(va), PgOff(va)) == va
    ensures Number(VpnOf(va)) == PgNum(va)
  {
    assert va / 4096 / 1024 == va / 0x40_0000;
  }

  lemma AddressJoin(d: Index, t: Index, o: Flags)
    ensures var va := PgAddr(d, t, o);
            Pdx(va) == d && Ptx(va) == t && PgOff(va) == o
  {
    var va := PgAddr(d, t, o);
    assert va / 4096 == d * 1024 + t;
  }

  lemma LayoutIndices()
    ensures Pdx(UVPT) == SELF && Ptx(UVPT) == 0
    ensures Pdx(UTOP) == USERTOP && Ptx(UTOP) == 0
  {
  }
}
