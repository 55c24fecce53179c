// The ELF records of inc/elf.h, laid out field by field, and what bootmain does
// with a disk that holds them.
module ElfImage {
  import opened Mmu
  import opened PageState
  import opened BootLoader

  type Half = h: int | 0 <= h < 0x1_0000

  datatype Elf = Elf(
    e_magic: Word,
    e_elf: seq<Byte>,
    e_type: Half,
    e_machine: Half,
    e_version: Word,
    e_entry: Word,
    e_phoff: Word,
    e_shoff: Word,
    e_flags: Word,
    e_ehsize: Half,
    e_phentsize: Half,
    e_phnum: Half,
    e_shentsize: Half,
    e_shnum: Half,
    e_shstrndx: Half)

  datatype Proghdr = Proghdr(
    p_type: Word,
    p_offset: Word,
    p_va: Word,
    p_pa: Word,
    p_filesz: Word,
    p_memsz: Word,
    p_flags: Word,
    p_align: Word)

  // Little-endian integers.
  function Le16(h: Half): (b: seq<Byte>)
    ensures |b| == 2
  {
    [h % 0x100, h / 0x100]
  }

  function Le32(w: Word): (b: seq<Byte>)
    ensures |b| == 4
  {
    Le16(w % 0x1_0000) + Le16(w / 0x1_0000)
  }

  function ElfBytes(e: Elf): (b: seq<Byte>)
    ensures |b| == 40 + |e.e_elf|
  {
    Le32(e.e_magic) + e.e_elf + Le16(e.e_type) + Le16(e.e_machine) + Le32(e.e_version) + Le32(e.e_entry)
    + Le32(e.e_phoff) + Le32(e.e_shoff) + Le32(e.e_flags) + Le16(e.e_ehsize) + Le16(e.e_phentsize)
    + Le16(e.e_phnum) + Le16(e.e_shentsize) + Le16(e.e_shnum) + Le16(e.e_shstrndx)
  }

  function ProghdrBytes(p: Proghdr): (b: seq<Byte>)
    ensures |b| == 32
  {
    Le32(p.p_type) + Le32(p.p_offset) + Le32(p.p_va) + Le32(p.p_pa)
    + Le32(p.p_filesz) + Le32(p.p_memsz) + Le32(p.p_flags) + Le32(p.p_align)
  }

  function TableBytes(ps: seq<Proghdr>): (b: seq<Byte>)
    ensures |b| == 32 * |ps|
  {
    if ps == [] then [] else ProghdrBytes(ps[0]) + TableBytes(ps[1..])
  }

  // The bytes of the image from offset o on; the image starts at the second
  // sector.
  ghost predicate Stored(disk: nat -> Byte, o: nat, b: seq<Byte>)
  {
    forall i :: 0 <= i < |b| ==> disk(SECTSIZE + o + i) == b[i]
  }

  // An ELF header, and a program-header table at e_phoff inside the first page.
  ghost predicate HoldsImage(disk: nat -> Byte, e: Elf, ps: seq<Proghdr>)
  {
    && e.e_magic == ELF_MAGIC && |e.e_elf| == 12 && e.e_phnum == |ps|
    && Stored(disk, 0, ElfBytes(e)) && Stored(disk, e.e_phoff, TableBytes(ps))
    && e.e_phoff + |TableBytes(ps)| <= 8 * SECTSIZE
  }

  // The addresses the segment is for.
  predicate Loads(p: Proghdr, x: nat) { p.p_pa <= x < p.p_pa + p.p_memsz }

  // m has every segment's bytes, from p_offset in the image, at p_pa.
  ghost predicate InPlace(m: seq<Byte>, disk: nat -> Byte, ps: seq<Proghdr>)
  {
    forall k, x: nat {:trigger Loads(ps[k], x)} :: 0 <= k < |ps| && Loads(ps[k], x) ==>
      x < |m| && m[x] == disk(SECTSIZE + ps[k].p_offset + (x - ps[k].p_pa))
  }

  function AsSegment(p: Proghdr): Segment { Segment(p.p_pa, p.p_memsz, p.p_offset) }

  function AsSegments(ps: seq<Proghdr>): (s: seq<Segment>)
    ensures |s| == |ps| && forall k :: 0 <= k < |ps| ==> s[k] == AsSegment(ps[k])
  {
    if ps == [] then [] else [AsSegment(ps[0])] + AsSegments(ps[1..])
  }

  // ---------- the loader's fields are the records' ----------

  lemma StoredParts(disk: nat -> Byte, o: nat, a: seq<Byte>, b: seq<Byte>)
    requires Stored(disk, o, a + b)
    ensures Stored(disk, o, a) && Stored(disk, o + |a|, b)
  {
    forall i | 0 <= i < |a| ensures disk(SECTSIZE + o + i) == a[i] {
      assert (a + b)[i] == a[i];
    }
    forall i | 0 <= i < |b| ensures disk(SECTSIZE + (o + |a|) + i) == b[i] {
      assert (a + b)[|a| + i] == b[i];
      assert disk(SECTSIZE + o + (|a| + i)) == (a + b)[|a| + i];
    }
  }

  lemma StoredWord(disk: nat -> Byte, o: nat, w: Word)
    requires Stored(disk, o, Le32(w))
    ensures Field(disk, o) == w
  {
    var b := Le32(w);
    assert disk(SECTSIZE + o + 0) == b[0] && disk(SECTSIZE + o + 1) == b[1];
    assert disk(SECTSIZE + o + 2) == b[2] && disk(SECTSIZE + o + 3) == b[3];
    JoinBytes(w);
  }

  lemma JoinBytes(w: Word)
    ensures Join(Le32(w)[0], Le32(w)[1], Le32(w)[2], Le32(w)[3]) == w
  {
  }

  lemma StoredHalf(disk: nat -> Byte, o: nat, h: Half)
    requires Stored(disk, o, Le16(h))
    ensures Field(disk, o) % 0x1_0000 == h
  {
    var b := Le16(h);
    assert disk(SECTSIZE + o + 0) == b[0] && disk(SECTSIZE + o + 1) == b[1];
    JoinLow(b[0], b[1], disk(SECTSIZE + o + 2), disk(SECTSIZE + o + 3));
  }

  lemma JoinLow(b0: Byte, b1: Byte, b2: Byte, b3: Byte)
    ensures Join(b0, b1, b2, b3) % 0x1_0000 == b0 + b1 * 0x100
  {
  }

  lemma ElfFields(disk: nat -> Byte, e: Elf)
    requires Stored(disk, 0, ElfBytes(e)) && |e.e_elf| == 12
    ensures Field(disk, 0) == e.e_magic && Field(disk, 24) == e.e_entry
    ensures Phoff(disk) == e.e_phoff && Phnum(disk) == e.e_phnum
  {
    hide Stored, Le32, Le16, Field;
    var a := Le32(e.e_magic) + e.e_elf + Le16(e.e_type) + Le16(e.e_machine) + Le32(e.e_version);
    var b := a + Le32(e.e_entry);
    var c := b + Le32(e.e_phoff);
    var d := c + Le32(e.e_shoff) + Le32(e.e_flags) + Le16(e.e_ehsize) + Le16(e.e_phentsize);
    var f := d + Le16(e.e_phnum);
    StoredParts(disk, 0, f + Le16(e.e_shentsize) + Le16(e.e_shnum), Le16(e.e_shstrndx));
    StoredParts(disk, 0, f + Le16(e.e_shentsize), Le16(e.e_shnum));
    StoredParts(disk, 0, f, Le16(e.e_shentsize));
    StoredParts(disk, 0, d, Le16(e.e_phnum));
    StoredHalf(disk, |d|, e.e_phnum);
    StoredParts(disk, 0, c + Le32(e.e_shoff) + Le32(e.e_flags) + Le16(e.e_ehsize), Le16(e.e_phentsize));
    StoredParts(disk, 0, c + Le32(e.e_shoff) + Le32(e.e_flags), Le16(e.e_ehsize));
    StoredParts(disk, 0, c + Le32(e.e_shoff), Le32(e.e_flags));
    StoredParts(disk, 0, c, Le32(e.e_shoff));
    StoredParts(disk, 0, b, Le32(e.e_phoff));
    StoredWord(disk, |b|, e.e_phoff);
    StoredParts(disk, 0, a, Le32(e.e_entry));
    StoredWord(disk, |a|, e.e_entry);
    StoredParts(disk, 0, Le32(e.e_magic) + e.e_elf + Le16(e.e_type) + Le16(e.e_machine), Le32(e.e_version));
    StoredParts(disk, 0, Le32(e.e_magic) + e.e_elf + Le16(e.e_type), Le16(e.e_machine));
    StoredParts(disk, 0, Le32(e.e_magic) + e.e_elf, Le16(e.e_type));
    StoredParts(disk, 0, Le32(e.e_magic), e.e_elf);
    StoredWord(disk, 0, e.e_magic);
  }

  lemma ProghdrFields(disk: nat -> Byte, o: nat, p: Proghdr)
    requires Stored(disk, o, ProghdrBytes(p))
    ensures Segment(Field(disk, o + 12), Field(disk, o + 20), Field(disk, o + 4)) == AsSegment(p)
  {
    hide Stored, Le32, Field;
    var a := Le32(p.p_type);
    var b := a + Le32(p.p_offset);
    var c := b + Le32(p.p_va);
    var d := c + Le32(p.p_pa);
    var f := d + Le32(p.p_filesz);
    var g := f + Le32(p.p_memsz);
    StoredParts(disk, o, g + Le32(p.p_flags), Le32(p.p_align));
    StoredParts(disk, o, g, Le32(p.p_flags));
    StoredParts(disk, o, f, Le32(p.p_memsz));
    StoredWord(disk, o + |f|, p.p_memsz);
    StoredParts(disk, o, d, Le32(p.p_filesz));
    StoredParts(disk, o, c, Le32(p.p_pa));
    StoredWord(disk, o + |c|, p.p_pa);
    StoredParts(disk, o, b, Le32(p.p_va));
    StoredParts(disk, o, a, Le32(p.p_offset));
    StoredWord(disk, o + |a|, p.p_offset);
  }

  lemma {:induction false} TableFields(disk: nat -> Byte, o: nat, ps: seq<Proghdr>, k: nat)
    requires Stored(disk, o, TableBytes(ps)) && k < |ps|
    ensures Stored(disk, o + 32 * k, ProghdrBytes(ps[k]))
    decreases k
  {
    hide Stored, ProghdrBytes;
    StoredParts(disk, o, ProghdrBytes(ps[0]), TableBytes(ps[1..]));
    if k > 0 {
      TableFields(disk, o + 32, ps[1..], k - 1);
    }
  }

  // On a disk that holds the records, the loader's view of the table is the table.
  lemma HeadersAreRecords(disk: nat -> Byte, e: Elf, ps: seq<Proghdr>)
    requires HoldsImage(disk, e, ps)
    ensures Field(disk, 0) == ELF_MAGIC && Field(disk, 24) == e.e_entry && Phnum(disk) == |ps|
    ensures Phoff(disk) + 32 * Phnum(disk) <= 8 * SECTSIZE
    ensures Headers(disk, Phnum(disk)) == AsSegments(ps)
  {
    hide Stored, ElfBytes, TableBytes, Field, AsSegment, Header, Phoff, Phnum, AsSegments;
    ElfFields(disk, e);
    forall k: nat | k < |ps| ensures Header(disk, k) == AsSegment(ps[k]) {
      HeaderIs(disk, e, ps, k);
    }
    var h, a := Headers(disk, Phnum(disk)), AsSegments(ps);
    assert |h| == |a| && forall k :: 0 <= k < |h| ==> h[k] == a[k];
  }

  lemma HeaderIs(disk: nat -> Byte, e: Elf, ps: seq<Proghdr>, k: nat)
    requires HoldsImage(disk, e, ps) && k < |ps| && Phoff(disk) == e.e_phoff
    ensures Header(disk, k) == AsSegment(ps[k])
  {
    hide Stored, ElfBytes, TableBytes, Field, AsSegment;
    TableFields(disk, e.e_phoff, ps, k);
    ProghdrFields(disk, e.e_phoff + 32 * k, ps[k]);
  }

  // Every segment is clear of the header page, and they are in increasing order,
  // each at its file offset modulo the sector size.
  ghost predicate Loadable(ps: seq<Proghdr>)
  {
    && (forall p :: p in ps ==> Clear(AsSegment(p)))
    && Ordered(AsSegments(ps)) && Placed(AsSegments(ps))
  }

  lemma ImageBoots(m: seq<Byte>, disk: nat -> Byte, e: Elf, ps: seq<Proghdr>)
    requires |m| == 0x1_0000_0000 && HoldsImage(disk, e, ps) && Loadable(ps)
    ensures var m1 := Loaded(m, disk, HEADERS);
            && WordAt(m1, ELFHDR) == ELF_MAGIC && Ends(m1, disk, FirstHeader(m1), Rounds(m1))
            && WordAt(Booted(m1, disk, FirstHeader(m1), Rounds(m1)), ELFHDR + 24) == e.e_entry
            && InPlace(Booted(m1, disk, FirstHeader(m1), Rounds(m1)), disk, ps)
  {
    hide Stored, HoldsImage, Loaded, Field, Ends, Booted, FirstHeader, Rounds, WordAt, Clear, Ordered, Placed;
    HeadersAreRecords(disk, e, ps);
    var segs := Headers(disk, Phnum(disk));
    forall k | 0 <= k < Phnum(disk) ensures Clear(Header(disk, k)) {
      assert ps[k] in ps && segs[k] == AsSegment(ps[k]);
    }
    BootableBoots(m, disk);
    BootLoadsImage(m, disk);
    var m1 := Loaded(m, disk, HEADERS);
    SegmentsInPlace(Booted(m1, disk, FirstHeader(m1), Rounds(m1)), disk, ps, segs);
  }

  lemma SegmentsInPlace(b: seq<Byte>, disk: nat -> Byte, ps: seq<Proghdr>, segs: seq<Segment>)
    requires |b| == 0x1_0000_0000 && segs == AsSegments(ps) && forall p :: p in ps ==> Clear(AsSegment(p))
    requires forall i, x: nat :: 0 <= i < |segs| && segs[i].Holds(x) && x < |b| ==> b[x] == disk(segs[i].Image(x))
    ensures InPlace(b, disk, ps)
  {
    hide Clear;
    forall k, x: nat {:trigger Loads(ps[k], x)} | 0 <= k < |ps| && Loads(ps[k], x)
      ensures x < |b| && b[x] == disk(SECTSIZE + ps[k].p_offset + (x - ps[k].p_pa))
    {
      assert segs[k] == AsSegment(ps[k]) && ps[k] in ps && segs[k].Holds(x);
      ClearHolds(segs[k], x);
      assert b[x] == disk(segs[k].Image(x));
    }
  }

  lemma ClearHolds(s: Segment, x: nat)
    requires Clear(s) && s.Holds(x)
    ensures x < 0x1_0000_0000
  {
  }

  // bootmain on a disk that holds an ELF header and program headers for loadable
  // segments: it puts p_memsz bytes from p_offset at p_pa, for every header, and
  // jumps to e_entry.
  method BootImage(mem: array<Byte>, disk: nat -> Byte, ghost e: Elf, ghost ps: seq<Proghdr>) returns (entry: Option<Word>)
    requires mem.Length == 0x1_0000_0000 && HoldsImage(disk, e, ps) && Loadable(ps)
    modifies mem
    ensures entry == Some(e.e_entry) && InPlace(mem[..], disk, ps)
  {
    hide Stored, HoldsImage, Loadable, Loaded, Ends, Booted, FirstHeader, Rounds, WordAt, InPlace;
    ImageBoots(mem[..], disk, e, ps);
    entry := BootMain(mem, disk);
  }
}
