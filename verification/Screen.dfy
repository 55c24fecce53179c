// cga_putc of kern/console.c: a 25-row text buffer as the window on a screen
// that never loses a row.
module Screen {
  const CRT_COLS := 80
  const CRT_SIZE := 2000     // CRT_ROWS * CRT_COLS

  type Char = c: int | 0 <= c < 0x1_0000_0000   // the bits of the int argument
  type Cell = w: int | 0 <= w < 0x1_0000        // uint16_t

  const BLANK: Cell := 0x0720

  // "if no attribute given, then use black on white"
  function Attributed(c: Char): Char { if c < 256 then c + 0x0700 else c }

  // The unbounded screen: every row ever shown, the cursor, and the top row of
  // the window.
  datatype Page = Page(text: seq<Cell>, pos: nat, top: nat)

  predicate Fits(p: Page)
  {
    |p.text| == (p.top + 25) * 80 && p.top * 80 <= p.pos < |p.text|
  }

  function Window(p: Page): seq<Cell>
    requires Fits(p)
  {
    p.text[p.top * 80..]
  }

  // The window follows a cursor that ran off its last row.
  function Follow(p: Page): Page
  {
    if p.pos >= (p.top + 25) * 80 then Page(p.text + seq(80, _ => BLANK), p.pos, p.top + 1) else p
  }

  function Back(p: Page, c: Char): Page
    requires Fits(p)
  {
    if p.pos > p.top * 80 then Page(p.text[p.pos - 1 := (c - c % 256 + 32) % 0x1_0000], p.pos - 1, p.top) else p
  }

  function Put(p: Page, c: Char): Page
    requires Fits(p)
  {
    Follow(Page(p.text[p.pos := c % 0x1_0000], p.pos + 1, p.top))
  }

  // One character, with the put, backspace, newline, return and tab meanings.
  function Type(p: Page, c0: Char): (q: Page)
    requires Fits(p)
    ensures Fits(q)
  {
    var c := Attributed(c0);
    var ch := c % 256;
    if ch == 8 then Back(p, c)
    else if ch == 10 then Follow(p.(pos := p.pos + 80 - p.pos % 80))
    else if ch == 13 then p.(pos := p.pos - p.pos % 80)
    else if ch == 9 then Spaces(p, 5)
    else Put(p, c)
  }

  function Spaces(p: Page, n: nat): (q: Page)
    requires Fits(p)
    ensures Fits(q)
    decreases n
  {
    if n == 0 then p else Spaces(Put(p, 0x0720), n - 1)
  }

  function TypeAll(p: Page, cs: seq<Char>): (q: Page)
    requires Fits(p)
    ensures Fits(q)
    decreases |cs|
  {
    if cs == [] then p else TypeAll(Type(p, cs[0]), cs[1..])
  }

  class Cga {
    const buf: array<Cell>
    var pos: nat
    ghost var page: Page

    // The buffer is the window of the unbounded screen.
    ghost predicate Valid()
      reads this, buf
    {
      && buf.Length == CRT_SIZE && Fits(page)
      && buf[..] == Window(page) && pos == page.pos - page.top * 80
    }

    // The memmove and the blanking loop of kern/console.c:196-200.
    method Scroll()
      requires buf.Length == CRT_SIZE
      modifies buf
      ensures buf[..] == old(buf[..])[80..] + seq(80, _ => BLANK)
    {
      for i := 0 to CRT_SIZE - CRT_COLS
        invariant forall k :: 0 <= k < i ==> buf[k] == old(buf[k + 80])
        invariant forall k :: i <= k < CRT_SIZE ==> buf[k] == old(buf[k])
      {
        buf[i] := buf[i + CRT_COLS];
      }
      for i := CRT_SIZE - CRT_COLS to CRT_SIZE
        invariant forall k :: 0 <= k < CRT_SIZE - CRT_COLS ==> buf[k] == old(buf[k + 80])
        invariant forall k :: CRT_SIZE - CRT_COLS <= k < i ==> buf[k] == BLANK
      {
        buf[i] := BLANK;
      }
      assert forall k :: 0 <= k < CRT_SIZE ==> buf[..][k] == (old(buf[..])[80..] + seq(80, _ => BLANK))[k];
    }

    method Putc(c0: Char)
      requires Valid()
      modifies this, buf
      ensures Valid() && page == Type(old(page), c0)
      ensures pos < CRT_SIZE
      decreases if Attributed(c0) % 256 == 9 then 1 else 0, 1
    {
      ghost var p := page;
      var c := Attributed(c0);
      var ch := c % 256;
      if ch == 8 {
        Erase(c);
      } else if ch == 10 {
        SameColumn(page);
        pos := pos + CRT_COLS;
        pos := pos - pos % CRT_COLS;
        page := p.(pos := p.pos + 80 - p.pos % 80);
      } else if ch == 13 {
        SameColumn(page);
        pos := pos - pos % CRT_COLS;
        page := p.(pos := p.pos - p.pos % 80);
      } else if ch == 9 {
        Tab();
      } else {
        Write(c);
      }
      ScrollIfNeeded();
    }

    // Five calls of cons_putc(' ').
    method Tab()
      requires Valid()
      modifies this, buf
      ensures Valid() && page == Spaces(old(page), 5)
      decreases 1, 0
    {
      ghost var p := page;
      for i := 0 to 5
        invariant Valid() && Spaces(p, 5) == Spaces(page, 5 - i)
      {
        Putc(32);
      }
    }

    method Erase(c: Char)
      requires Valid()
      modifies this, buf
      ensures Valid() && page == Back(old(page), c)
    {
      WindowUpdate(page, page.pos - 1, (c - c % 256 + 32) % 0x1_0000);
      page := Back(page, c);
      if pos > 0 {
        pos := pos - 1;
        buf[pos] := (c - c % 256 + 32) % 0x1_0000;
      }
    }

    method Write(c: Char)
      requires Valid()
      modifies this, buf
      ensures buf.Length == CRT_SIZE && pos == page.pos - page.top * 80
      ensures page == Page(old(page).text[old(page).pos := c % 0x1_0000], old(page).pos + 1, old(page).top)
      ensures buf[..] == page.text[page.top * 80..]
    {
      WindowUpdate(page, page.pos, c % 0x1_0000);
      page := Page(page.text[page.pos := c % 0x1_0000], page.pos + 1, page.top);
      buf[pos] := c % 0x1_0000;
      pos := pos + 1;
    }

    // kern/console.c:194-202.
    method ScrollIfNeeded()
      requires buf.Length == CRT_SIZE && |page.text| == (page.top + 25) * 80
      requires page.top * 80 <= page.pos <= |page.text| + 79 && pos == page.pos - page.top * 80
      requires buf[..] == page.text[page.top * 80..]
      modifies this, buf
      ensures Valid() && page == Follow(old(page))
    {

      if pos >= CRT_SIZE {
        ghost var p := page;
        Scroll();
        pos := pos - CRT_COLS;
        page := Follow(p);
        assert page.text[page.top * 80..] == p.text[p.top * 80..][80..] + seq(80, _ => BLANK);
      }
    }
  }

  lemma SameColumn(p: Page)
    requires Fits(p)
    ensures (p.pos - p.top * 80) % 80 == p.pos % 80
    ensures (p.pos - p.top * 80 + 80) % 80 == p.pos % 80
  {
  }

  lemma WindowUpdate(p: Page, i: int, w: Cell)
    requires Fits(p)
    ensures p.top * 80 <= i < |p.text| ==>
              p.text[i := w][p.top * 80..] == p.text[p.top * 80..][i - p.top * 80 := w]
  {
  }

  // ---------- what the screen keeps ----------

  // A character that is written to a cell.
  predicate Printable(c: Char)
  {
    var ch := Attributed(c) % 256; ch != 8 && ch != 9 && ch != 10 && ch != 13
  }

  function Cells(cs: seq<Char>): (w: seq<Cell>)
    ensures |w| == |cs|
  {
    if cs == [] then [] else [Attributed(cs[0]) % 0x1_0000] + Cells(cs[1..])
  }

  // Printing any text, however long, puts its cells one after the other from the
  // cursor on and changes nothing before it: wrapping and scrolling lose nothing.
  lemma {:induction false} TextIsKept(p: Page, cs: seq<Char>)
    requires Fits(p) && forall i :: 0 <= i < |cs| ==> Printable(cs[i])
    ensures var q := TypeAll(p, cs);
            && q.pos == p.pos + |cs| && q.pos <= |q.text|
            && q.text[..q.pos] == p.text[..p.pos] + Cells(cs)
    decreases |cs|
  {
    hide Type, Put, Printable, Attributed;
    if cs == [] {
      assert p.text[..p.pos] + [] == p.text[..p.pos];
    } else {
      TypePrintable(p, cs[0]);
      PutKeeps(p, Attributed(cs[0]));
      TextIsKept(Type(p, cs[0]), cs[1..]);
      hide Fits;
      CellsStep(p.text[..p.pos], cs);
    }
  }

  lemma CellsStep(t: seq<Cell>, cs: seq<Char>)
    requires cs != []
    ensures t + Cells(cs) == t + [Attributed(cs[0]) % 0x1_0000] + Cells(cs[1..])
  {
  }

  lemma TypePrintable(p: Page, c: Char)
    requires Fits(p) && Printable(c)
    ensures Type(p, c) == Put(p, Attributed(c))
  {
  }

  lemma PutKeeps(p: Page, c: Char)
    requires Fits(p)
    ensures var q := Put(p, c); q.pos == p.pos + 1 <= |q.text| && q.text[..q.pos] == p.text[..p.pos] + [c % 0x1_0000]
  {
    var t := p.text[p.pos := c % 0x1_0000];
    assert t[..p.pos + 1] == p.text[..p.pos] + [c % 0x1_0000];
    var q := Put(p, c);
    assert q.text[..|t|] == t;
    assert q.text[..p.pos + 1] == t[..p.pos + 1];
  }

  // A backspace takes back exactly the last character printed, also when
  // printing it scrolled the window.
  lemma BackspaceUndoes(p: Page, c: Char)
    requires Fits(p) && Printable(c)
    ensures var q := Type(Type(p, c), 8);
            && q.pos == p.pos && q.text[..p.pos] == p.text[..p.pos] && q.text[p.pos] == BLANK
  {
    var r := Type(p, c);
    PutKeeps(p, Attributed(c));
    assert Attributed(8) == 0x0708;
    var q := Type(r, 8);
    assert q == Back(r, 0x0708);
    assert q.text[..p.pos] == r.text[..r.pos][..p.pos];
  }

  // What a printed character puts in its cell: itself, light grey on black when it
  // comes without an attribute.
  lemma {:induction false} CellsAre(cs: seq<Char>, i: nat)
    requires i < |cs|
    ensures Cells(cs)[i] == if cs[i] < 0x100 then 0x0700 + cs[i] else cs[i] % 0x1_0000
    decreases i
  {
    if i > 0 { CellsAre(cs[1..], i - 1); }
  }

  // A newline goes to the start of the next row and changes nothing on the screen;
  // the row that it may add is blank.
  lemma NewlineStartsRow(p: Page, c: Char)
    requires Fits(p) && c % 0x100 == 10
    ensures var q := Type(p, c);
            && q.pos % 80 == 0 && q.pos / 80 == p.pos / 80 + 1
            && |p.text| <= |q.text| && q.text[..|p.text|] == p.text
            && forall i :: |p.text| <= i < |q.text| ==> q.text[i] == 0x0720
  {
    Attribute(c);
    hide Attributed;
    var m := p.(pos := p.pos + 80 - p.pos % 80);
    assert Type(p, c) == Follow(m);
    NextRow(p.pos);
    hide Type, Fits;
    assert (p.text + seq(80, _ => BLANK))[..|p.text|] == p.text;
  }

  lemma Attribute(c: Char)
    ensures Attributed(c) % 0x100 == c % 0x100
  {
  }

  lemma NextRow(pos: nat)
    ensures (pos + 80 - pos % 80) % 80 == 0 && (pos + 80 - pos % 80) / 80 == pos / 80 + 1
    ensures (pos - pos % 80) % 80 == 0 && (pos - pos % 80) / 80 == pos / 80
  {
    var r := pos / 80;
    assert pos == r * 80 + pos % 80;
    assert pos + 80 - pos % 80 == (r + 1) * 80;
  }

  // A return goes to the start of the same row.
  lemma ReturnStartsRow(p: Page, c: Char)
    requires Fits(p) && c % 0x100 == 13
    ensures var q := Type(p, c);
            q.pos % 80 == 0 && q.pos / 80 == p.pos / 80 && q.text == p.text && q.top == p.top
  {
    Attribute(c);
    hide Attributed;
    assert Type(p, c) == p.(pos := p.pos - p.pos % 80);
    NextRow(p.pos);
  }

  // A tab is five blanks, wherever the cursor is.
  lemma TabIsFiveBlanks(p: Page, c: Char)
    requires Fits(p) && c % 0x100 == 9
    ensures var q := Type(p, c);
            && q.pos == p.pos + 5 && q.pos <= |q.text|
            && q.text[..q.pos] == p.text[..p.pos] + [0x0720, 0x0720, 0x0720, 0x0720, 0x0720]
  {
    Attribute(c);
    hide Attributed, Spaces, Put;
    assert Type(p, c) == Spaces(p, 5);
    SpacesKept(p, 5);
    hide Type;
    assert Repeated(5) == [0x0720, 0x0720, 0x0720, 0x0720, 0x0720];
  }

  function Repeated(n: nat): (r: seq<Cell>)
    ensures |r| == n && forall i :: 0 <= i < n ==> r[i] == 0x0720
  {
    seq(n, _ => 0x0720)
  }

  lemma PutFits(p: Page, c: Char)
    requires Fits(p)
    ensures Fits(Put(p, c))
  {
  }

  lemma {:induction false} SpacesKept(p: Page, n: nat)
    requires Fits(p)
    ensures var q := Spaces(p, n);
            q.pos == p.pos + n && q.pos <= |q.text| && q.text[..q.pos] == p.text[..p.pos] + Repeated(n)
    decreases n
  {
    hide Put;
    if n > 0 {
      PutKeeps(p, 0x0720);
      PutFits(p, 0x0720);
      SpacesKept(Put(p, 0x0720), n - 1);
      assert p.text[..p.pos] + [0x0720] + Repeated(n - 1) == p.text[..p.pos] + Repeated(n);
    } else {
      assert p.text[..p.pos] + Repeated(0) == p.text[..p.pos];
    }
  }
}
