// The boot loader of boot/main.c: readsect, readseg and bootmain.
module BootLoader {
  import opened Mmu
  import opened PageState

  const SECTSIZE := 512
  const ELFHDR := 0x1_0000
  const ELF_MAGIC := 0x464C_457F
  const LASTEND := 0xFFFF_FE00   // past this, readseg's address wraps before it reaches the end

  type Byte = b: int | 0 <= b < 256

  // A loadable segment of a program header: p_pa, p_memsz and p_offset.
  datatype Segment = Segment(pa: Word, memsz: Word, offset: Word)
  {
    function End(): Word { Add32(pa, memsz) }

    function Lo(): Word { pa - pa % SECTSIZE }

    // The addresses readseg writes: whole sectors up to the end.
    predicate Covers(x: nat) { Lo() <= x && x - x % SECTSIZE < End() }

    predicate Holds(x: nat) { pa <= x < pa + memsz }

    // Where on the disk readseg takes the byte for address x from.
    function Source(x: nat): nat
      requires Lo() <= x
    {
      (offset / SECTSIZE + 1) * SECTSIZE + (x - Lo())
    }

    // Where it should be taken from: the image starts at sector 1.
    function Image(x: nat): nat
      requires pa <= x
    {
      SECTSIZE + offset + (x - pa)
    }
  }

  function Patched(m: seq<Byte>, disk: nat -> Byte, s: Segment, x: nat): Byte
    requires x < |m|
  {
    if s.Covers(x) then disk(s.Source(x)) else m[x]
  }

  // Memory after one readseg.
  function Loaded(m: seq<Byte>, disk: nat -> Byte, s: Segment): (r: seq<Byte>)
    ensures |r| == |m|
    ensures forall x :: 0 <= x < |m| ==> r[x] == if s.Covers(x) then disk(s.Source(x)) else m[x]
  {
    seq(|m|, x requires 0 <= x < |m| => Patched(m, disk, s, x))
  }

  function LoadAll(m: seq<Byte>, disk: nat -> Byte, segs: seq<Segment>): (r: seq<Byte>)
    ensures |r| == |m|
  {
    if segs == [] then m
    else Loaded(LoadAll(m, disk, segs[..|segs| - 1]), disk, segs[|segs| - 1])
  }

  // ---------- the loader ----------

  method ReadSect(mem: array<Byte>, disk: nat -> Byte, dst: Word, sector: nat)
    requires dst + SECTSIZE <= mem.Length
    modifies mem
    ensures forall x :: 0 <= x < mem.Length ==>
              mem[x] == if dst <= x < dst + SECTSIZE then disk(sector * SECTSIZE + (x - dst)) else old(mem[x])
  {
    for i := 0 to SECTSIZE
      invariant forall x :: 0 <= x < mem.Length ==>
                  mem[x] == if dst <= x < dst + i then disk(sector * SECTSIZE + (x - dst)) else old(mem[x])
    {
      mem[dst + i] := disk(sector * SECTSIZE + i);
    }
  }

  method ReadSeg(mem: array<Byte>, disk: nat -> Byte, pa: Word, count: Word, offset: Word)
    requires mem.Length == 0x1_0000_0000
    requires Add32(pa, count) <= LASTEND
    modifies mem
    ensures mem[..] == Loaded(old(mem[..]), disk, Segment(pa, count, offset))
  {
    ghost var s := Segment(pa, count, offset);
    ghost var was := mem[..];
    var end := Add32(pa, count);
    var p: Word := pa - pa % SECTSIZE;
    var sector := offset / SECTSIZE + 1;
    while p < end
      invariant p % SECTSIZE == 0 && s.Lo() <= p && (p == s.Lo() || p < end + SECTSIZE)
      invariant sector * SECTSIZE - p == (offset / SECTSIZE + 1) * SECTSIZE - s.Lo()
      invariant forall x :: 0 <= x < mem.Length ==>
                  mem[x] == if s.Lo() <= x < p then disk(s.Source(x)) else was[x]
      decreases end - p
    {
      ReadSect(mem, disk, p, sector);
      p := p + SECTSIZE;
      sector := sector + 1;
    }
    forall x | 0 <= x < mem.Length ensures s.Lo() <= x < p <==> s.Covers(x) {
      SectorOf(x, p);
    }
  }

  // With an end in the last 512 bytes of the address space readseg's loop never
  // stops: no sector address reaches the end. So it ends exactly when ReadSeg's
  // requirement holds.
  lemma ReadSegEndsIff(s: Segment)
    ensures s.End() <= LASTEND <==> exists p: Word :: p % SECTSIZE == 0 && p >= s.End()
  {
    if s.End() <= LASTEND {
      var p: Word := LASTEND;
      assert p % SECTSIZE == 0 && p >= s.End();
    }
  }

  lemma SectorOf(x: nat, p: nat)
    requires p % SECTSIZE == 0
    ensures x < p <==> x - x % SECTSIZE < p
    ensures x - x % SECTSIZE < p ==> x - x % SECTSIZE <= p - SECTSIZE
  {
  }

  function Join(b0: Byte, b1: Byte, b2: Byte, b3: Byte): Word
  {
    b0 + b1 * 0x100 + b2 * 0x1_0000 + b3 * 0x100_0000
  }

  // A little-endian word of memory, and of the image.
  function WordAt(m: seq<Byte>, a: nat): Word
    requires a + 4 <= |m|
  {
    Join(m[a], m[a + 1], m[a + 2], m[a + 3])
  }

  const HEADERS := Segment(ELFHDR, 8 * SECTSIZE, 0)   // bootmain's first readseg

  // The program header at address ph, as memory has it.
  function SegmentAt(m: seq<Byte>, ph: nat): Segment
    requires ph + 32 <= |m|
  {
    Segment(WordAt(m, ph + 12), WordAt(m, ph + 20), WordAt(m, ph + 4))
  }

  // Where the loop over program headers starts and how often it runs: not at all
  // when the 32-bit end of the table wraps.
  function FirstHeader(m: seq<Byte>): Word
    requires |m| == 0x1_0000_0000
  {
    Add32(ELFHDR, WordAt(m, ELFHDR + 28))
  }

  function Rounds(m: seq<Byte>): (n: nat)
    requires |m| == 0x1_0000_0000
    ensures FirstHeader(m) + 32 * n < 0x1_0000_0000
  {
    var phnum := WordAt(m, ELFHDR + 44) % 0x1_0000;
    if FirstHeader(m) + 32 * phnum < 0x1_0000_0000 then phnum else 0
  }

  // Every readseg of n rounds from ph on stops; each header is read after the
  // segments before it are loaded, and they may have overwritten it.
  predicate Ends(m: seq<Byte>, disk: nat -> Byte, ph: nat, n: nat)
    requires ph + 32 * n <= |m|
    decreases n
  {
    n > 0 ==> SegmentAt(m, ph).End() <= LASTEND && Ends(Loaded(m, disk, SegmentAt(m, ph)), disk, ph + 32, n - 1)
  }

  // The memory those rounds leave.
  function Booted(m: seq<Byte>, disk: nat -> Byte, ph: nat, n: nat): (r: seq<Byte>)
    requires ph + 32 * n <= |m|
    ensures |r| == |m|
    decreases n
  {
    if n == 0 then m else Booted(Loaded(m, disk, SegmentAt(m, ph)), disk, ph + 32, n - 1)
  }

  // bootmain on any disk. None when the magic number is wrong, else the entry
  // point jumped to, which is read from memory at the end.
  method BootMain(mem: array<Byte>, disk: nat -> Byte) returns (entry: Option<Word>)
    requires mem.Length == 0x1_0000_0000
    requires var m1 := Loaded(mem[..], disk, HEADERS);
             WordAt(m1, ELFHDR) == ELF_MAGIC ==> Ends(m1, disk, FirstHeader(m1), Rounds(m1))
    modifies mem
    ensures var m1 := Loaded(old(mem[..]), disk, HEADERS);
            if WordAt(m1, ELFHDR) != ELF_MAGIC then entry == None && mem[..] == m1
            else mem[..] == Booted(m1, disk, FirstHeader(m1), Rounds(m1)) && entry == Some(WordAt(mem[..], ELFHDR + 24))
  {
    hide Loaded, WordAt;
    ReadSeg(mem, disk, ELFHDR, 8 * SECTSIZE, 0);
    ghost var m1 := mem[..];
    if WordAt(mem[..], ELFHDR) != ELF_MAGIC {
      return None;
    }
    var ph: nat := Add32(ELFHDR, WordAt(mem[..], ELFHDR + 28));
    var eph := Add32(ph, 32 * (WordAt(mem[..], ELFHDR + 44) % 0x1_0000));
    ghost var n := Rounds(m1);
    while ph < eph
      invariant if n == 0 then ph >= eph else ph + 32 * n == eph
      invariant ph + 32 * n < 0x1_0000_0000 && Ends(mem[..], disk, ph, n)
      invariant Booted(mem[..], disk, ph, n) == Booted(m1, disk, FirstHeader(m1), Rounds(m1))
    {
      ghost var m := mem[..];
      var pa, memsz, offset := WordAt(mem[..], ph + 12), WordAt(mem[..], ph + 20), WordAt(mem[..], ph + 4);
      ReadSeg(mem, disk, pa, memsz, offset);
      assert mem[..] == Loaded(m, disk, SegmentAt(m, ph));
      ph := ph + 32;
      n := n - 1;
    }
    return Some(WordAt(mem[..], ELFHDR + 24));
  }

  // ---------- images whose headers stay in place ----------

  function Field(disk: nat -> Byte, o: nat): Word
  {
    Join(disk(512 + o), disk(512 + o + 1), disk(512 + o + 2), disk(512 + o + 3))
  }

  function Phoff(disk: nat -> Byte): Word { Field(disk, 28) }

  function Phnum(disk: nat -> Byte): Word { Field(disk, 44) % 0x1_0000 }

  function Header(disk: nat -> Byte, k: nat): Segment
  {
    var o := Phoff(disk) + 32 * k;
    Segment(Field(disk, o + 12), Field(disk, o + 20), Field(disk, o + 4))
  }

  function Headers(disk: nat -> Byte, n: nat): (r: seq<Segment>)
    ensures |r| == n && forall k :: 0 <= k < n ==> r[k] == Header(disk, k)
  {
    seq(n, k requires 0 <= k < n => Header(disk, k))
  }

  // A segment that neither wraps nor reaches into the header page.
  predicate Clear(s: Segment)
  {
    s.pa + s.memsz <= LASTEND && (s.pa + s.memsz <= ELFHDR || ELFHDR + 8 * SECTSIZE <= s.pa)
  }

  predicate Bootable(disk: nat -> Byte)
  {
    && Phoff(disk) + 32 * Phnum(disk) <= 8 * SECTSIZE
    && forall k :: 0 <= k < Phnum(disk) ==> Clear(Header(disk, k))
  }

  // The first 4096 bytes of the image are at ELFHDR.
  ghost predicate HeaderPage(m: seq<Byte>, disk: nat -> Byte)
  {
    |m| == 0x1_0000_0000
    && forall x :: ELFHDR <= x < ELFHDR + 8 * SECTSIZE ==> m[x] == disk(512 + (x - ELFHDR))
  }

  lemma HeaderWord(m: seq<Byte>, disk: nat -> Byte, o: nat)
    requires HeaderPage(m, disk) && o + 4 <= 8 * SECTSIZE
    ensures WordAt(m, ELFHDR + o) == Field(disk, o)
  {
  }

  lemma HeaderPageRead(m: seq<Byte>, disk: nat -> Byte)
    requires |m| == 0x1_0000_0000
    ensures HeaderPage(Loaded(m, disk, Segment(ELFHDR, 8 * SECTSIZE, 0)), disk)
  {
    forall x | ELFHDR <= x < ELFHDR + 8 * SECTSIZE ensures Segment(ELFHDR, 8 * SECTSIZE, 0).Covers(x) {
    }
  }

  lemma HeaderPageKept(m: seq<Byte>, disk: nat -> Byte, s: Segment)
    requires HeaderPage(m, disk) && Clear(s)
    ensures HeaderPage(Loaded(m, disk, s), disk)
  {
    forall x | ELFHDR <= x < ELFHDR + 8 * SECTSIZE ensures !s.Covers(x) {
      SectorOf(x, ELFHDR);
      if s.pa >= ELFHDR + 8 * SECTSIZE {
        SectorOf(s.pa, ELFHDR + 8 * SECTSIZE);
      }
    }
  }

  lemma ClearEnd(s: Segment)
    requires Clear(s)
    ensures s.End() == s.pa + s.memsz <= LASTEND
  {
  }

  // Loading a list front to back.
  lemma {:induction false} LoadAllFront(m: seq<Byte>, disk: nat -> Byte, segs: seq<Segment>)
    requires segs != []
    ensures LoadAll(m, disk, segs) == LoadAll(Loaded(m, disk, segs[0]), disk, segs[1..])
    decreases |segs|
  {
    hide Loaded;
    if |segs| > 1 {
      LoadAllFront(m, disk, segs[..|segs| - 1]);
      assert segs[..|segs| - 1][1..] == segs[1..][..|segs| - 2];
    } else {
      assert segs[..0] == [] && segs[1..] == [];
    }
  }

  lemma {:induction false} BootableFrom(m: seq<Byte>, disk: nat -> Byte, k: nat)
    requires |m| == 0x1_0000_0000 && HeaderPage(m, disk) && Bootable(disk) && k <= Phnum(disk)
    ensures var ph, n := ELFHDR + Phoff(disk) + 32 * k, Phnum(disk) - k;
            && Ends(m, disk, ph, n) && HeaderPage(Booted(m, disk, ph, n), disk)
            && Booted(m, disk, ph, n) == LoadAll(m, disk, Headers(disk, Phnum(disk))[k..])
    decreases Phnum(disk) - k
  {
    hide Loaded, LoadAll, Clear, Field, WordAt, HeaderPage;
    var segs := Headers(disk, Phnum(disk));
    if k < Phnum(disk) {
      var o, ph := Phoff(disk) + 32 * k, ELFHDR + Phoff(disk) + 32 * k;
      HeaderWord(m, disk, o + 12);
      HeaderWord(m, disk, o + 20);
      HeaderWord(m, disk, o + 4);
      assert SegmentAt(m, ph) == Header(disk, k) == segs[k];
      ClearEnd(Header(disk, k));
      HeaderPageKept(m, disk, Header(disk, k));
      BootableFrom(Loaded(m, disk, segs[k]), disk, k + 1);
      LoadAllFront(m, disk, segs[k..]);
      assert segs[k..][0] == segs[k] && segs[k..][1..] == segs[k + 1..];
    } else {
      assert segs[k..] == [];
      LoadNone(m, disk);
    }
  }

  lemma LoadNone(m: seq<Byte>, disk: nat -> Byte)
    ensures LoadAll(m, disk, []) == m
  {
  }

  // For such an image bootmain loads exactly the segments of the header table on
  // the disk and jumps to the entry point there.
  lemma BootableBoots(m: seq<Byte>, disk: nat -> Byte)
    requires |m| == 0x1_0000_0000 && Bootable(disk)
    ensures var m1 := Loaded(m, disk, HEADERS);
            && WordAt(m1, ELFHDR) == Field(disk, 0)
            && Ends(m1, disk, FirstHeader(m1), Rounds(m1))
            && Booted(m1, disk, FirstHeader(m1), Rounds(m1)) == LoadAll(m1, disk, Headers(disk, Phnum(disk)))
            && WordAt(Booted(m1, disk, FirstHeader(m1), Rounds(m1)), ELFHDR + 24) == Field(disk, 24)
  {
    hide Loaded, LoadAll, Field, WordAt, HeaderPage, Ends, Booted, Clear;
    var m1 := Loaded(m, disk, HEADERS);
    HeaderPageRead(m, disk);
    HeaderWord(m1, disk, 0);
    HeaderWord(m1, disk, 28);
    HeaderWord(m1, disk, 44);
    BootableFrom(m1, disk, 0);
    HeaderWord(Booted(m1, disk, ELFHDR + Phoff(disk), Phnum(disk)), disk, 24);
    assert Headers(disk, Phnum(disk))[0..] == Headers(disk, Phnum(disk));
  }

  // ---------- what it leaves in memory ----------

  // The segment whose read decided the byte at x.
  function LastOver(segs: seq<Segment>, x: nat): (r: Option<nat>)
    ensures r == None <==> forall j :: 0 <= j < |segs| ==> !segs[j].Covers(x)
    ensures r != None ==> r.value < |segs| && segs[r.value].Covers(x)
                          && forall j :: r.value < j < |segs| ==> !segs[j].Covers(x)
  {
    if segs == [] then None
    else if segs[|segs| - 1].Covers(x) then Some(|segs| - 1)
    else LastOver(segs[..|segs| - 1], x)
  }

  lemma {:induction false} LoadedByLast(m: seq<Byte>, disk: nat -> Byte, segs: seq<Segment>, x: nat)
    requires x < |m|
    ensures LoadAll(m, disk, segs)[x] == match LastOver(segs, x)
                                         case None => m[x]
                                         case Some(j) => disk(segs[j].Source(x))
    decreases |segs|
  {
    if segs != [] {
      LoadedByLast(m, disk, segs[..|segs| - 1], x);
    }
  }

  // Every byte of every segment is the image's byte.
  ghost predicate RightlyLoaded(m: seq<Byte>, disk: nat -> Byte, segs: seq<Segment>)
    requires |m| == 0x1_0000_0000
    requires forall i :: 0 <= i < |segs| ==> segs[i].pa + segs[i].memsz <= LASTEND
  {
    forall i, x: nat :: 0 <= i < |segs| && segs[i].Holds(x) ==> LoadAll(m, disk, segs)[x] == disk(segs[i].Image(x))
  }

  // The distance from address to disk byte in the sectors readseg copies.
  function Shift(s: Segment): int { (s.offset / SECTSIZE + 1) * SECTSIZE - s.Lo() }

  // Whichever segment's sectors end up over a byte, they carry it to the right place.
  ghost predicate Consistent(segs: seq<Segment>)
  {
    forall i, x: nat :: 0 <= i < |segs| && segs[i].Holds(x) && LastOver(segs, x) != None ==>
      Shift(segs[LastOver(segs, x).value]) == SECTSIZE + segs[i].offset - segs[i].pa
  }

  lemma HeldIsCovered(s: Segment, x: nat)
    requires s.pa + s.memsz <= LASTEND && s.Holds(x)
    ensures s.Covers(x) && x < 0x1_0000_0000
  {
  }

  // ---------- when it is right whatever else the disk holds ----------

  predicate InHeaderPage(y: nat) { SECTSIZE <= y < SECTSIZE + 8 * SECTSIZE }

  // Two disks whose images begin with the same 4096 bytes.
  ghost predicate SameHeaderPage(disk: nat -> Byte, other: nat -> Byte)
  {
    forall y: nat :: InHeaderPage(y) ==> other(y) == disk(y)
  }

  // bootmain finds an image, stops reading, and leaves every byte of every
  // segment as the image has it.
  ghost predicate BootsRight(m: seq<Byte>, disk: nat -> Byte)
    requires |m| == 0x1_0000_0000
  {
    var m1, segs := Loaded(m, disk, HEADERS), Headers(disk, Phnum(disk));
    && WordAt(m1, ELFHDR) == ELF_MAGIC && Ends(m1, disk, FirstHeader(m1), Rounds(m1))
    && forall i, x: nat :: 0 <= i < |segs| && segs[i].Holds(x) ==>
         x < |m| && Booted(m1, disk, FirstHeader(m1), Rounds(m1))[x] == disk(segs[i].Image(x))
  }

  // Equal on every disk that shares this one's header page.
  predicate Alike(disk: nat -> Byte, y: nat, z: nat)
  {
    y == z || (InHeaderPage(y) && InHeaderPage(z) && disk(y) == disk(z))
  }

  // Whichever segment's sectors end up over a byte, they carry it from the right
  // place, or from a place in the header page that holds the same byte.
  ghost predicate Settled(disk: nat -> Byte, segs: seq<Segment>)
  {
    forall i, x: nat :: 0 <= i < |segs| && segs[i].Holds(x) && LastOver(segs, x) != None ==>
      Alike(disk, segs[LastOver(segs, x).value].Source(x), segs[i].Image(x))
  }

  lemma SameHeaders(disk: nat -> Byte, other: nat -> Byte)
    requires SameHeaderPage(disk, other) && Bootable(disk)
    ensures Bootable(other) && Field(other, 0) == Field(disk, 0)
    ensures Headers(other, Phnum(other)) == Headers(disk, Phnum(disk))
  {
    hide Clear, Field;
    forall o: nat | o + 4 <= 8 * SECTSIZE ensures Field(other, o) == Field(disk, o) {
      SameField(disk, other, o);
    }
    forall k: nat | k < Phnum(disk) ensures Header(other, k) == Header(disk, k) {
    }
  }

  lemma SameField(disk: nat -> Byte, other: nat -> Byte, o: nat)
    requires SameHeaderPage(disk, other) && o + 4 <= 8 * SECTSIZE
    ensures Field(other, o) == Field(disk, o)
  {
    assert InHeaderPage(512 + o) && InHeaderPage(512 + o + 1) && InHeaderPage(512 + o + 2) && InHeaderPage(512 + o + 3);
  }

  // What BootsRight comes to, byte by byte.
  lemma BootsRightBytes(m: seq<Byte>, disk: nat -> Byte, segs: seq<Segment>)
    requires |m| == 0x1_0000_0000 && Bootable(disk) && Field(disk, 0) == ELF_MAGIC && segs == Headers(disk, Phnum(disk))
    ensures BootsRight(m, disk) <==>
            forall i, x: nat :: 0 <= i < |segs| && segs[i].Holds(x) && LastOver(segs, x) != None ==>
              disk(segs[LastOver(segs, x).value].Source(x)) == disk(segs[i].Image(x))
  {
    hide Loaded, LoadAll, Header, Field, Ends, Booted, FirstHeader, Rounds, LastOver, WordAt;
    BootableBoots(m, disk);
    var m1 := Loaded(m, disk, HEADERS);
    var b := Booted(m1, disk, FirstHeader(m1), Rounds(m1));
    assert b == LoadAll(m1, disk, segs) && |b| == |m|;
    forall i, x: nat | 0 <= i < |segs| && segs[i].Holds(x)
      ensures x < |b| && LastOver(segs, x) != None && b[x] == disk(segs[LastOver(segs, x).value].Source(x))
    {
      HeldIsCovered(segs[i], x);
      LoadedByLast(m1, disk, segs, x);
    }
    if BootsRight(m, disk) {
      forall i, x: nat | 0 <= i < |segs| && segs[i].Holds(x) && LastOver(segs, x) != None
        ensures disk(segs[LastOver(segs, x).value].Source(x)) == disk(segs[i].Image(x))
      {
        assert b[x] == disk(segs[i].Image(x));
      }
    } else {
      var i, x: nat :| 0 <= i < |segs| && segs[i].Holds(x) && !(x < |m| && b[x] == disk(segs[i].Image(x)));
      assert disk(segs[LastOver(segs, x).value].Source(x)) != disk(segs[i].Image(x));
    }
  }

  // For a bootable image: bootmain leaves every segment right on every disk that
  // begins with the same 4096 bytes of image exactly when each byte is settled.
  lemma BootsRightIff(m: seq<Byte>, disk: nat -> Byte)
    requires |m| == 0x1_0000_0000 && Bootable(disk) && Field(disk, 0) == ELF_MAGIC
    ensures (forall other: nat -> Byte :: SameHeaderPage(disk, other) ==> BootsRight(m, other))
            <==> Settled(disk, Headers(disk, Phnum(disk)))
  {
    hide BootsRight, Settled, SameHeaderPage, Bootable, Field, Headers, Phnum;
    if Settled(disk, Headers(disk, Phnum(disk))) {
      forall other: nat -> Byte | SameHeaderPage(disk, other) ensures BootsRight(m, other) {
        SettledBoots(m, disk, other);
      }
    } else {
      var other := WrongDisk(m, disk);
      assert !BootsRight(m, other);
    }
  }

  lemma SettledBoots(m: seq<Byte>, disk: nat -> Byte, other: nat -> Byte)
    requires |m| == 0x1_0000_0000 && Bootable(disk) && Field(disk, 0) == ELF_MAGIC
    requires SameHeaderPage(disk, other) && Settled(disk, Headers(disk, Phnum(disk)))
    ensures BootsRight(m, other)
  {
    hide BootsRight, Bootable, Field, Headers, Phnum, LastOver;
    SameHeaders(disk, other);
    BootsRightBytes(m, other, Headers(disk, Phnum(disk)));
  }

  // A disk with the same header page on which an unsettled image is loaded
  // wrongly.
  lemma WrongDisk(m: seq<Byte>, disk: nat -> Byte) returns (other: nat -> Byte)
    requires |m| == 0x1_0000_0000 && Bootable(disk) && Field(disk, 0) == ELF_MAGIC
    requires !Settled(disk, Headers(disk, Phnum(disk)))
    ensures SameHeaderPage(disk, other) && !BootsRight(m, other)
  {
    hide BootsRight, Bootable, Field, Headers, Phnum, LastOver;
    var segs := Headers(disk, Phnum(disk));
    var i, x: nat :| 0 <= i < |segs| && segs[i].Holds(x) && LastOver(segs, x) != None
                     && !Alike(disk, segs[LastOver(segs, x).value].Source(x), segs[i].Image(x));
    other := Parting(disk, segs[LastOver(segs, x).value].Source(x), segs[i].Image(x));
    SameHeaders(disk, other);
    BootsRightBytes(m, other, segs);
  }

  // A disk with the same header page and different bytes at y and z.
  lemma Parting(disk: nat -> Byte, y: nat, z: nat) returns (other: nat -> Byte)
    requires !Alike(disk, y, z)
    ensures SameHeaderPage(disk, other) && other(y) != other(z)
  {
    var b: Byte := (disk(y) + 1) % 256;
    var c: Byte := (disk(z) + 1) % 256;
    if !InHeaderPage(z) {
      other := (w: nat) => if w == z then b else disk(w);
    } else if !InHeaderPage(y) {
      other := (w: nat) => if w == y then c else disk(w);
    } else {
      other := disk;
    }
  }

  // With no segment in the first 4096 bytes of the image, that is consistency.
  lemma SettledIsConsistent(disk: nat -> Byte, segs: seq<Segment>)
    requires forall i :: 0 <= i < |segs| ==> segs[i].offset >= 8 * SECTSIZE
    ensures Settled(disk, segs) <==> Consistent(segs)
  {
    hide LastOver;
    forall i, x: nat | 0 <= i < |segs| && segs[i].Holds(x) && LastOver(segs, x) != None
      ensures var t := segs[LastOver(segs, x).value];
              Alike(disk, t.Source(x), segs[i].Image(x)) <==> Shift(t) == SECTSIZE + segs[i].offset - segs[i].pa
    {
      PastHeaderPage(segs[LastOver(segs, x).value], x);
    }
  }

  lemma PastHeaderPage(t: Segment, x: nat)
    requires t.offset >= 8 * SECTSIZE && t.Lo() <= x
    ensures t.Source(x) == x + Shift(t) && !InHeaderPage(t.Source(x))
  {
  }

  lemma ConsistentLoads(m: seq<Byte>, disk: nat -> Byte, segs: seq<Segment>)
    requires |m| == 0x1_0000_0000 && Consistent(segs)
    requires forall i :: 0 <= i < |segs| ==> segs[i].pa + segs[i].memsz <= LASTEND
    ensures RightlyLoaded(m, disk, segs)
  {
    hide LoadAll, LastOver;
    forall i, x: nat | 0 <= i < |segs| && segs[i].Holds(x)
      ensures LoadAll(m, disk, segs)[x] == disk(segs[i].Image(x))
    {
      HeldIsCovered(segs[i], x);
      LoadedByLast(m, disk, segs, x);
      assert LastOver(segs, x) != None;
    }
  }

  // Disjoint segments in increasing order.
  ghost predicate Ordered(segs: seq<Segment>)
  {
    && (forall i :: 0 <= i < |segs| ==> segs[i].pa + segs[i].memsz <= LASTEND)
    && (forall i, j :: 0 <= i < j < |segs| ==> segs[i].pa + segs[i].memsz <= segs[j].pa)
  }

  predicate Congruent(s: Segment) { s.pa % SECTSIZE == s.offset % SECTSIZE }

  // s reaches into the first sector of the later segment t.
  predicate Shares(s: Segment, t: Segment) { t.Lo() < s.pa + s.memsz }

  // Each is placed at its file offset modulo the sector size, and two that share
  // a sector are at the same distance from their file offsets.
  ghost predicate Placed(segs: seq<Segment>)
  {
    && (forall i :: 0 <= i < |segs| ==> Congruent(segs[i]))
    && (forall i, j :: 0 <= i < j < |segs| && Shares(segs[i], segs[j]) ==>
          segs[j].pa - segs[j].offset == segs[i].pa - segs[i].offset)
  }

  lemma PlacedIsConsistent(segs: seq<Segment>)
    requires Ordered(segs) && Placed(segs)
    ensures Consistent(segs)
  {
    forall i, x: nat | 0 <= i < |segs| && segs[i].Holds(x) && LastOver(segs, x) != None
      ensures Shift(segs[LastOver(segs, x).value]) == SECTSIZE + segs[i].offset - segs[i].pa
    {
      hide Shift, Segment.Source;
      var j := LastOver(segs, x).value;
      HeldIsCovered(segs[i], x);
      ShiftOf(segs[j]);
      assert j >= i;
      if j > i { assert Shares(segs[i], segs[j]); }
    }
  }

  lemma ShiftOf(s: Segment)
    requires Congruent(s)
    ensures Shift(s) == SECTSIZE + s.offset - s.pa
  {
  }

  lemma ConsistentAt(segs: seq<Segment>, i: nat, x: nat) returns (l: nat)
    requires Ordered(segs) && Consistent(segs) && i < |segs| && segs[i].Holds(x)
    ensures i <= l < |segs| && LastOver(segs, x) == Some(l) && segs[l].Covers(x)
    ensures Shift(segs[l]) == SECTSIZE + segs[i].offset - segs[i].pa
  {
    HeldIsCovered(segs[i], x);
    l := LastOver(segs, x).value;
  }

  lemma ConsistentIsCongruent(segs: seq<Segment>, i: nat)
    requires Ordered(segs) && Consistent(segs) && i < |segs| && segs[i].memsz > 0
    ensures Congruent(segs[i])
  {
    var l := ConsistentAt(segs, i, segs[i].pa);
    hide Consistent, Ordered, LastOver;
    WholeSectors(segs[l], segs[i]);
  }

  // A shift is a whole number of sectors.
  lemma WholeSectors(t: Segment, s: Segment)
    requires Shift(t) == SECTSIZE + s.offset - s.pa
    ensures Congruent(s)
  {
    assert t.Lo() % SECTSIZE == 0 && Shift(t) % SECTSIZE == 0;
  }

  // The later of two that share a sector decides a byte of the earlier.
  lemma ConsistentSharing(segs: seq<Segment>, i: nat, j: nat)
    requires Ordered(segs) && Consistent(segs) && i < j < |segs| && segs[i].memsz > 0 && segs[j].memsz > 0
    requires Shares(segs[i], segs[j])
    ensures segs[j].pa - segs[j].offset == segs[i].pa - segs[i].offset
  {
    var s, t := segs[i], segs[j];
    var x: nat := if t.Lo() > s.pa then t.Lo() else s.pa;
    assert s.pa + s.memsz <= t.pa;
    var l := ConsistentAt(segs, i, x);
    var r := ConsistentAt(segs, j, t.pa);
    hide Consistent, Shift, LastOver;
    SameSector(s, t, x);
    SameFirst(segs, j, l, x);
    SameFirst(segs, j, r, t.pa);
    LastsAgree(segs, i, j, x, t.pa, l, r);
  }

  // x and t.pa lie in the same sector, the first of t.
  lemma SameSector(s: Segment, t: Segment, x: nat)
    requires Shares(s, t) && s.pa + s.memsz <= t.pa && s.memsz > 0 && t.memsz > 0 && t.pa + t.memsz <= LASTEND
    requires x == if t.Lo() > s.pa then t.Lo() else s.pa
    ensures x - x % SECTSIZE == t.Lo() && t.pa - t.pa % SECTSIZE == t.Lo() && t.Covers(x)
  {
  }

  // A segment from j on that covers an address of j's first sector starts there.
  lemma SameFirst(segs: seq<Segment>, j: nat, l: nat, x: nat)
    requires Ordered(segs) && j < |segs| && l < |segs| && segs[l].Covers(x) && x - x % SECTSIZE == segs[j].Lo()
    ensures l >= j ==> segs[l].Lo() == segs[j].Lo()
  {
    if l > j {
      assert segs[j].pa + segs[j].memsz <= segs[l].pa;
    }
  }

  lemma LastsAgree(segs: seq<Segment>, i: nat, j: nat, x: nat, y: nat, l: nat, r: nat)
    requires i < j < |segs| && LastOver(segs, x) == Some(l) && LastOver(segs, y) == Some(r) && segs[j].Covers(x) && j <= r
    requires l >= j ==> segs[l].Lo() == segs[j].Lo()
    requires segs[r].Lo() == segs[j].Lo() && x - x % SECTSIZE == y - y % SECTSIZE == segs[j].Lo()
    requires l < |segs| && r < |segs| && segs[l].Covers(x) && segs[r].Covers(y)
    ensures l == r
  {
    assert l >= j;
    assert segs[l].Covers(y) && segs[r].Covers(x);
  }

  // For ordered nonempty segments the placement is exactly what it takes.
  lemma OrderedConsistentIff(segs: seq<Segment>)
    requires Ordered(segs) && forall i :: 0 <= i < |segs| ==> segs[i].memsz > 0
    ensures Consistent(segs) <==> Placed(segs)
  {
    hide Consistent;
    if Consistent(segs) {
      forall i: nat | i < |segs| ensures Congruent(segs[i]) {
        ConsistentIsCongruent(segs, i);
      }
      forall i: nat, j: nat | i < j < |segs| && Shares(segs[i], segs[j])
        ensures segs[j].pa - segs[j].offset == segs[i].pa - segs[i].offset
      {
        ConsistentSharing(segs, i, j);
      }
    } else if Placed(segs) {
      PlacedIsConsistent(segs);
    }
  }

  // The whole boot: when the headers of the image are ordered and placed, bootmain
  // ends with every segment in memory as the image has it.
  lemma BootLoadsImage(m: seq<Byte>, disk: nat -> Byte)
    requires |m| == 0x1_0000_0000 && Bootable(disk)
    requires Ordered(Headers(disk, Phnum(disk))) && Placed(Headers(disk, Phnum(disk)))
    ensures var m1, segs := Loaded(m, disk, HEADERS), Headers(disk, Phnum(disk));
            && Ends(m1, disk, FirstHeader(m1), Rounds(m1))
            && forall i, x: nat :: 0 <= i < |segs| && segs[i].Holds(x) ==>
                 Booted(m1, disk, FirstHeader(m1), Rounds(m1))[x] == disk(segs[i].Image(x))
  {
    hide Loaded, LoadAll, Header, Field, Ends, Booted, FirstHeader, Rounds;
    BootableBoots(m, disk);
    PlacedIsConsistent(Headers(disk, Phnum(disk)));
    ConsistentLoads(Loaded(m, disk, HEADERS), disk, Headers(disk, Phnum(disk)));
  }
}
