// vprintfmt and vsnprintf of lib/printfmt.c.
module Printf {
  import opened Numbers

  // The i-th va_arg read, by the type it is read at: 32-bit patterns, 64-bit
  // patterns, and strings (None for a null pointer).
  datatype Args = Args(word: nat -> nat, long: nat -> nat, str: nat -> StrArg)

  datatype StrArg = NullStr | Str(s: CString)

  // The characters of a C string before its NUL.
  type CString = s: string | '\0' !in s

  function Signed32(w: nat): int { Wrap(w) }

  function Signed64(w: nat): int
  {
    (w + 0x8000_0000_0000_0000) % 0x1_0000_0000_0000_0000 - 0x8000_0000_0000_0000
  }

  // An int argument converted to char by putch.
  function CharOf(n: int): char { (n % 256) as char }

  // ---------- one escape sequence ----------

  // The variables of vprintfmt between '%' and the conversion character; k is
  // the number of arguments consumed.
  datatype Spec = Spec(pad: char, width: int, precision: int, lflag: nat, alt: bool, k: nat)

  function FreshSpec(k: nat): Spec { Spec(' ', -1, -1, 0, false, k) }

  // The character at i of a string that ends at its length.
  function At(fmt: string, i: nat): char { if i < |fmt| then fmt[i] else '\0' }

  predicate Decimal(c: char) { '0' <= c <= '9' }

  // The width or precision digits from i on, after value p.
  function Number(fmt: string, i: nat, p: int): (r: (int, nat))
    ensures i <= |fmt| ==> i <= r.1 <= |fmt|
    decreases |fmt| - i
  {
    if i < |fmt| && Decimal(fmt[i]) then Number(fmt, i + 1, Wrap(p * 10 + (fmt[i] as int - '0' as int)))
    else (p, i)
  }

  // process_precision: the first number is the width, the second the precision.
  function Given(s: Spec, p: int): Spec
  {
    if s.width < 0 then s.(width := p, precision := -1) else s.(precision := p)
  }

  predicate IsFlag(c: char)
  {
    c == '-' || Decimal(c) || c == '*' || c == '.' || c == '#' || c == 'l'
  }

  // One turn of reswitch on a flag character at i: the new variables and index.
  function Flag(fmt: string, i: nat, s: Spec, args: Args): (r: (Spec, nat))
    requires i < |fmt| && IsFlag(fmt[i])
    ensures i < r.1 <= |fmt|
  {
    var c := fmt[i];
    if c == '-' then (s.(pad := '-'), i + 1)
    else if c == '0' then (s.(pad := '0'), i + 1)
    else if Decimal(c) then
      var (p, j) := Number(fmt, i + 1, c as int - '0' as int);
      (Given(s, p), j)
    else if c == '*' then (Given(s.(k := s.k + 1), Signed32(args.word(s.k))), i + 1)
    else if c == '.' then (if s.width < 0 then s.(width := 0) else s, i + 1)
    else if c == '#' then (s.(alt := true), i + 1)
    else (s.(lflag := s.lflag + 1), i + 1)
  }

  // The variables and the index of the conversion character.
  function Scan(fmt: string, i: nat, s: Spec, args: Args): (r: (Spec, nat))
    requires i <= |fmt|
    ensures i <= r.1 <= |fmt| && !IsFlag(At(fmt, r.1))
    decreases |fmt| - i
  {
    if i < |fmt| && IsFlag(fmt[i]) then
      var (s', j) := Flag(fmt, i, s, args);
      Scan(fmt, j, s', args)
    else (s, i)
  }

  // ---------- the conversions ----------

  const ERRORS := ["", "unspecified error", "bad environment", "invalid parameter", "out of memory",
                   "out of environments", "segmentation fault"]

  // The index %e looks up: the error code of either sign, negated as an int.
  function ErrorIndex(n: int): int { if n < 0 then Wrap(-n) else n }

  // It lies before the table, where the code reads all the same.
  predicate StrayIndex(n: int) { ErrorIndex(n) < 0 }

  lemma StrayIndexIff(n: int)
    requires -0x8000_0000 <= n < 0x8000_0000
    ensures StrayIndex(n) <==> n == -0x8000_0000
  {
  }

  function ErrorText(n: int): string
    requires !StrayIndex(n)
  {
    var e := ErrorIndex(n);
    if e == 0 || e >= 7 then "error " + SignedText(e, 10, -1, ' ') else ERRORS[e]
  }

  function Shown(t: string, alt: bool): (r: string)
    ensures |r| == |t|
  {
    if t == "" then ""
    else [if alt && (t[0] < ' ' || t[0] > '~') then '?' else t[0]] + Shown(t[1..], alt)
  }

  function Limited(t: string, precision: int): string
  {
    if 0 <= precision < |t| then t[..precision] else t
  }

  // The part of a string argument that is printed.
  function Body(a: StrArg, precision: int): string
  {
    Limited(if a.NullStr? then "(null)" else a.s, precision)
  }

  function StrText(a: StrArg, s: Spec): string
  {
    var t := Body(a, s.precision);
    if s.pad != '-' then Repeat(s.pad, s.width - |t|) + Shown(t, s.alt)
    else Shown(t, s.alt) + Repeat(' ', s.width - |t|)
  }

  function Unsigned(s: Spec, args: Args): nat
  {
    if s.lflag >= 2 then args.long(s.k) % 0x1_0000_0000_0000_0000 else args.word(s.k) % 0x1_0000_0000
  }

  predicate IsConversion(c: char)
  {
    c == 'c' || c == 'e' || c == 's' || c == 'd' || c == 'u' || c == 'o' || c == 'p' || c == 'x' || c == '%'
  }

  // Conversion c reads outside the table of error messages.
  predicate Strays(c: char, s: Spec, args: Args) { c == 'e' && StrayIndex(Signed32(args.word(s.k))) }

  function SignedArg(s: Spec, args: Args): int
  {
    if s.lflag >= 2 then Signed64(args.long(s.k)) else Signed32(args.word(s.k))
  }

  // The text of conversion c.
  function Convert(c: char, s: Spec, args: Args): string
    requires IsConversion(c) && !Strays(c, s, args)
  {
    if c == 'c' then [CharOf(args.word(s.k))]
    else if c == 'e' then ErrorText(Signed32(args.word(s.k)))
    else if c == 's' then StrText(args.str(s.k), s)
    else if c == 'd' then SignedText(SignedArg(s, args), 10, s.width, s.pad)
    else if c == 'u' then NumText(Unsigned(s, args), 10, s.width, s.pad)
    else if c == 'o' then NumText(Unsigned(s, args), 8, s.width, s.pad)
    else if c == 'p' then "0x" + NumText(args.word(s.k) % 0x1_0000_0000, 16, s.width, s.pad)
    else if c == 'x' then NumText(Unsigned(s, args), 16, s.width, s.pad)
    else "%"
  }

  function Consumed(c: char, k: nat): nat { if c == '%' then k else k + 1 }

  // Everything vprintfmt prints from index i on, having consumed k arguments. An
  // escape that is not recognised prints its '%', and the rest of it is ordinary
  // text again. A %e that reads outside its table ends what can be said.
  function Render(fmt: string, i: nat, k: nat, args: Args): string
    requires i <= |fmt|
    decreases |fmt| - i
  {
    if i == |fmt| then ""
    else if fmt[i] != '%' then [fmt[i]] + Render(fmt, i + 1, k, args)
    else
      var (s, j) := Scan(fmt, i + 1, FreshSpec(k), args);
      if j < |fmt| && IsConversion(fmt[j]) then
        if Strays(fmt[j], s, args) then "" else
        Convert(fmt[j], s, args) + Render(fmt, j + 1, Consumed(fmt[j], s.k), args)
      else "%" + Render(fmt, i + 1, s.k, args)
  }

  // No conversion on the way reads outside the table of error messages.
  predicate StaysInside(fmt: string, i: nat, k: nat, args: Args)
    requires i <= |fmt|
    decreases |fmt| - i
  {
    if i == |fmt| then true
    else if fmt[i] != '%' then StaysInside(fmt, i + 1, k, args)
    else
      var (s, j) := Scan(fmt, i + 1, FreshSpec(k), args);
      if j < |fmt| && IsConversion(fmt[j]) then
        !Strays(fmt[j], s, args) && StaysInside(fmt, j + 1, Consumed(fmt[j], s.k), args)
      else StaysInside(fmt, i + 1, s.k, args)
  }

  // ---------- the output buffer ----------

  // struct sprintbuf: the buffer, the write position below the last byte, and
  // the number of characters emitted so far.
  class SprintBuf {
    const buf: array<char>
    const n: nat
    var cur: nat
    var cnt: nat
    ghost var out: string    // everything emitted
    ghost const was: string  // the buffer before the call

    ghost predicate Valid()
      reads this, buf
    {
      && 1 <= n <= buf.Length == |was| && cnt == |out|
      && cur == (if |out| < n - 1 then |out| else n - 1)
      && buf[..cur] == out[..cur] && buf[cur..] == was[cur..]
    }

    constructor (buf: array<char>, n: nat)
      requires 1 <= n <= buf.Length
      ensures Valid() && out == "" && this.buf == buf && this.n == n && was == buf[..]
    {
      this.buf, this.n := buf, n;
      cur, cnt, out, was := 0, 0, "", buf[..];
    }

    // sprintputch
    method Putch(c: char)
      requires Valid()
      modifies this, buf
      ensures Valid() && out == old(out) + [c]
    {
      cnt := cnt + 1;
      ghost var before := buf[..];
      if cur < n - 1 {
        buf[cur] := c;
        assert buf[..cur + 1] == before[..cur] + [c];
        forall i | cur + 1 <= i < buf.Length ensures buf[i] == was[i] {
          assert before[cur..][i - cur] == was[cur..][i - cur];
        }
        assert buf[cur + 1..] == was[cur + 1..];
        cur := cur + 1;
      }
      out := out + [c];
    }

    method PutString(t: string)
      requires Valid()
      modifies this, buf
      ensures Valid() && out == old(out) + t
    {
      assert t[..|t|] == t;
      for i := 0 to |t|
        invariant Valid() && out == old(out) + t[..i]
      {
        Putch(t[i]);
        assert t[..i + 1] == t[..i] + [t[i]];
      }
    }

    // while (count-- > 0) putch(c)
    method PutRepeat(c: char, count: int)
      requires Valid()
      modifies this, buf
      ensures Valid() && out == old(out) + Repeat(c, count)
    {
      var w := count;
      assert out + Repeat(c, w) == old(out) + Repeat(c, count);
      while w > 0
        invariant Valid() && out + Repeat(c, w) == old(out) + Repeat(c, count)
        decreases w
      {
        ghost var before := out;
        Putch(c);
        w := w - 1;
        assert before + Repeat(c, w + 1) == before + [c] + Repeat(c, w);
      }
      assert out + Repeat(c, w) == out;
    }

    // printnum: the leading digits first, by recursion.
    method Printnum(num: nat, base: int, width: int, padc: char)
      requires Valid() && Base(base)
      modifies this, buf
      ensures Valid() && out == old(out) + NumText(num, base, width, padc)
      decreases num
    {
      hide NumText, Digits, Valid, Repeat;
      NumTextStep(num, base, width, padc);
      if num >= base {
        DigitsUnfold(num, base);
        Printnum(num / base, base, width - 1, padc);
      } else {
        PutRepeat(padc, width - 1);
      }
      Putch(DIGITS[num % base]);
    }

    // for (precision = 0; ; ++fmt): fmt[i] is the digit already read.
    static method ReadNumber(fmt: string, i: nat) returns (p: int, j: nat)
      requires i < |fmt| && Decimal(fmt[i])
      ensures (p, j) == Number(fmt, i + 1, fmt[i] as int - '0' as int) && j <= |fmt|
    {
      p, j := fmt[i] as int - '0' as int, i + 1;
      while j < |fmt| && Decimal(fmt[j])
        invariant j <= |fmt| && Number(fmt, j, p) == Number(fmt, i + 1, fmt[i] as int - '0' as int)
        decreases |fmt| - j
      {
        p := Wrap(p * 10 + (fmt[j] as int - '0' as int));
        j := j + 1;
      }
    }

    // reswitch, up to the conversion character.
    static method ScanEscape(fmt: string, start: nat, k: nat, args: Args) returns (s: Spec, i: nat)
      requires start <= |fmt|
      ensures (s, i) == Scan(fmt, start, FreshSpec(k), args) && start <= i <= |fmt|
      ensures forall x :: start <= x < i ==> fmt[x] != '%'
    {
      s, i := FreshSpec(k), start;
      while i < |fmt| && IsFlag(fmt[i])
        invariant start <= i <= |fmt| && Scan(fmt, i, s, args) == Scan(fmt, start, FreshSpec(k), args)
        invariant forall x :: start <= x < i ==> fmt[x] != '%'
        decreases |fmt| - i
      {
        var c := fmt[i];
        ghost var before := i;
        FlagSkipsNoPercent(fmt, i, s, args);
        if c == '-' {
          s, i := s.(pad := '-'), i + 1;
        } else if c == '0' {
          s, i := s.(pad := '0'), i + 1;
        } else if Decimal(c) {
          var p, j := ReadNumber(fmt, i);
          s, i := Given(s, p), j;
        } else if c == '*' {
          s, i := Given(s.(k := s.k + 1), Signed32(args.word(s.k))), i + 1;
        } else if c == '.' {
          s, i := (if s.width < 0 then s.(width := 0) else s), i + 1;
        } else if c == '#' {
          s, i := s.(alt := true), i + 1;
        } else {
          s, i := s.(lflag := s.lflag + 1), i + 1;
        }
      }
    }

    // The character loop of %s; width goes down with every character.
    method PutShown(p: string, precision: int, alt: bool, width: int) returns (rest: int)
      requires Valid()
      modifies this, buf
      ensures Valid() && out == old(out) + Shown(Limited(p, precision), alt)
      ensures rest == width - |Limited(p, precision)|
    {
      hide Valid, Shown;
      ghost var t := Limited(p, precision);
      var left, i := precision, 0;
      rest := width;
      ShownEmpty(t[..0], alt);
      assert out + "" == out;
      while i < |p| && (left < 0 || left > 0)
        invariant Valid() && i <= |t| && rest == width - i
        invariant left == if precision < 0 then precision else precision - i
        invariant out == old(out) + Shown(t[..i], alt)
        decreases |p| - i
      {
        if left > 0 {
          left := left - 1;
        }
        var ch := p[i];
        ShownSnoc(t, i, alt);
        ghost var before := Shown(t[..i], alt);
        Putch(if alt && (ch < ' ' || ch > '~') then '?' else ch);
        assert old(out) + before + [if alt && (t[i] < ' ' || t[i] > '~') then '?' else t[i]] == old(out) + Shown(t[..i + 1], alt);
        i, rest := i + 1, rest - 1;
      }
      assert t[..i] == t;
    }

    // The padding loop before the characters of %s.
    method PutPad(a: StrArg, s: Spec) returns (width: int)
      requires Valid()
      modifies this, buf
      ensures Valid() && out == old(out) + PadBefore(a, s) && width == WidthLeft(a, s)
    {
      hide Valid, Repeat;
      width := s.width;
      if width > 0 && s.pad != '-' {
        var len := Strnlen(if a.NullStr? then "(null)" else a.s, s.precision);
        width := width - len;
        PutRepeat(s.pad, width);
        width := if width > 0 then 0 else width;
      } else {
        assert out + "" == out;
      }
    }

    // The %s conversion: pad, characters, pad.
    method PutStr(a: StrArg, s: Spec)
      requires Valid()
      modifies this, buf
      ensures Valid() && out == old(out) + StrText(a, s)
    {
      hide Valid, Shown, Repeat, PadBefore, WidthLeft, StrText;
      var width := PutPad(a, s);
      width := PutShown(if a.NullStr? then "(null)" else a.s, s.precision, s.alt, width);
      PutRepeat(' ', width);
      StrParts(a, s);
      Joined(old(out), PadBefore(a, s), Shown(Body(a, s.precision), s.alt), Repeat(' ', width));
    }

    // (signed) decimal: the sign first, then the padded magnitude.
    method PutSigned(n: int, width: int, padc: char)
      requires Valid()
      modifies this, buf
      ensures Valid() && out == old(out) + SignedText(n, 10, width, padc)
    {
      hide Valid, NumText;
      if n < 0 {
        Putch('-');
        Printnum(-n, 10, width, padc);
        Joined(old(out), "-", NumText(-n, 10, width, padc), "");
        assert "-" + NumText(-n, 10, width, padc) + "" == "-" + NumText(-n, 10, width, padc);
      } else {
        Printnum(n, 10, width, padc);
        assert "" + NumText(n, 10, width, padc) == NumText(n, 10, width, padc);
      }
    }

    // %e: the message for an error code of either sign.
    method PutError(n: int)
      requires Valid() && !StrayIndex(n)
      modifies this, buf
      ensures Valid() && out == old(out) + ErrorText(n)
    {
      hide Valid, SignedText, Wrap;
      var err := if n < 0 then Wrap(-n) else n;
      if err >= 7 || err == 0 {
        PutString("error ");
        PutSigned(err, -1, ' ');
        Joined(old(out), "error ", SignedText(err, 10, -1, ' '), "");
        assert "error " + SignedText(err, 10, -1, ' ') + "" == "error " + SignedText(err, 10, -1, ' ');
      } else {
        PutString(ERRORS[err]);
      }
    }

    method PutConversion(c: char, s: Spec, args: Args)
      requires Valid() && IsConversion(c) && !Strays(c, s, args)
      modifies this, buf
      ensures Valid() && out == old(out) + Convert(c, s, args)
    {
      hide Valid, NumText, SignedText, ErrorText, StrText, Unsigned, SignedArg, Signed32, CharOf, StrayIndex;
      if c == 'c' {
        Putch(CharOf(args.word(s.k)));
      } else if c == 'e' {
        PutError(Signed32(args.word(s.k)));
      } else if c == 's' {
        PutStr(args.str(s.k), s);
      } else if c == 'd' {
        PutSigned(SignedArg(s, args), s.width, s.pad);
      } else if c == 'u' {
        Printnum(Unsigned(s, args), 10, s.width, s.pad);
      } else if c == 'o' {
        Printnum(Unsigned(s, args), 8, s.width, s.pad);
      } else if c == 'p' {
        PutString("0x");
        Printnum(args.word(s.k) % 0x1_0000_0000, 16, s.width, s.pad);
        Joined(old(out), "0x", NumText(args.word(s.k) % 0x1_0000_0000, 16, s.width, s.pad), "");
        assert "0x" + NumText(args.word(s.k) % 0x1_0000_0000, 16, s.width, s.pad) + ""
            == "0x" + NumText(args.word(s.k) % 0x1_0000_0000, 16, s.width, s.pad);
      } else if c == 'x' {
        Printnum(Unsigned(s, args), 16, s.width, s.pad);
      } else {
        Putch('%');
      }
    }

    // The text up to the next '%' or the end.
    method PutPlain(fmt: CString, start: nat, ghost k: nat, ghost args: Args) returns (i: nat)
      requires Valid() && start <= |fmt|
      modifies this, buf
      ensures Valid() && start <= i <= |fmt| && (i < |fmt| ==> fmt[i] == '%')
      ensures out + Render(fmt, i, k, args) == old(out) + Render(fmt, start, k, args)
      ensures StaysInside(fmt, i, k, args) == StaysInside(fmt, start, k, args)
    {
      hide Valid, Scan, Convert, Strays;
      i := start;
      while At(fmt, i) != '%' && At(fmt, i) != '\0'
        invariant Valid() && start <= i <= |fmt|
        invariant out + Render(fmt, i, k, args) == old(out) + Render(fmt, start, k, args)
        invariant StaysInside(fmt, i, k, args) == StaysInside(fmt, start, k, args)
        decreases |fmt| - i
      {
        PlainStep(fmt, i, k, args, out);
        Putch(fmt[i]);
        i := i + 1;
      }
    }

    // The default case: step fmt back to just after the '%'.
    static method BackUp(fmt: string, percent: nat, j: nat) returns (i: nat)
      requires percent < j <= |fmt| && fmt[percent] == '%' && forall x :: percent < x < j ==> fmt[x] != '%'
      ensures i == percent + 1
    {
      i := j;   // after fmt--
      while fmt[i - 1] != '%'
        invariant percent < i <= j
        decreases i
      {
        i := i - 1;
      }
    }

    // vprintfmt. It reads no character of the format beyond the terminator and
    // terminates on every format string. false is a read outside the table of
    // error messages, which ends the model of the call.
    method Vprintfmt(fmt: CString, args: Args) returns (ok: bool)
      requires Valid()
      modifies this, buf
      ensures Valid() && out == old(out) + Render(fmt, 0, 0, args)
      ensures ok <==> StaysInside(fmt, 0, 0, args)
    {
      hide Valid, Scan, Convert, IsConversion, Strays, Render, StaysInside;
      var i, k := 0, 0;
      while true
        invariant Valid() && i <= |fmt|
        invariant out + Render(fmt, i, k, args) == old(out) + Render(fmt, 0, 0, args)
        invariant StaysInside(fmt, i, k, args) == StaysInside(fmt, 0, 0, args)
        decreases |fmt| - i
      {
        i := PutPlain(fmt, i, k, args);
        if i == |fmt| {
          RenderEnd(fmt, k, args, out);
          return true;
        }
        var s, j := ScanEscape(fmt, i + 1, k, args);
        EscapeStep(fmt, i, k, args, out);
        if j < |fmt| && IsConversion(fmt[j]) {
          if Strays(fmt[j], s, args) {
            return false;
          }
          PutConversion(fmt[j], s, args);
          i, k := j + 1, Consumed(fmt[j], s.k);
        } else {
          Putch('%');
          i := BackUp(fmt, i, j);
          k := s.k;
        }
      }
    }

    static method Strnlen(p: string, size: int) returns (n: nat)
      ensures n == if 0 <= size < |p| then size else |p|
    {
      n := 0;
      var left := size;
      while left != 0 && n < |p|
        invariant n <= |p| && (size >= 0 ==> left == size - n && left >= 0) && (size < 0 ==> left < 0)
        decreases |p| - n
      {
        left := left - 1;
        n := n + 1;
      }
    }
  }

  lemma NumTextStep(n: nat, b: int, width: int, pad: char)
    requires Base(b)
    ensures 0 <= n % b < 16
    ensures NumText(n, b, width, pad) ==
            (if n >= b then NumText(n / b, b, width - 1, pad) else Repeat(pad, width - 1)) + [DIGITS[n % b]]
  {
    hide NumText, Digits, Repeat;
    DigitsUnfold(n, b);
    if n < b {
      SmallMod(n, b);
      Padded(n, b, width, pad, "", DIGITS[n]);
    } else {
      Padded(n, b, width, pad, Digits(n / b, b), DIGITS[n % b]);
      NumTextOf(n / b, b, width - 1, pad);
    }
  }

  lemma Padded(n: nat, b: int, width: int, pad: char, t: string, c: char)
    requires Base(b) && Digits(n, b) == t + [c]
    ensures NumText(n, b, width, pad) == Repeat(pad, width - 1 - |t|) + t + [c]
  {
    hide Digits, Repeat;
    assert width - |t + [c]| == width - 1 - |t|;
  }

  lemma NumTextOf(n: nat, b: int, width: int, pad: char)
    requires Base(b)
    ensures NumText(n, b, width, pad) == Repeat(pad, width - |Digits(n, b)|) + Digits(n, b)
  {
  }

  lemma SmallMod(n: nat, b: int)
    requires n < b
    ensures n % b == n
  {
  }

  // printnum prints exactly max(width, digits) characters.
  lemma NumTextLength(n: nat, b: int, width: int, pad: char)
    requires Base(b)
    ensures |NumText(n, b, width, pad)| == if width > |Digits(n, b)| then width else |Digits(n, b)|
  {
  }

  lemma {:induction false} NumberSkipsNoPercent(fmt: string, i: nat, p: int)
    requires i <= |fmt|
    ensures forall x :: i <= x < Number(fmt, i, p).1 ==> fmt[x] != '%'
    decreases |fmt| - i
  {
    if i < |fmt| && Decimal(fmt[i]) {
      NumberSkipsNoPercent(fmt, i + 1, Wrap(p * 10 + (fmt[i] as int - '0' as int)));
    }
  }

  lemma FlagSkipsNoPercent(fmt: string, i: nat, s: Spec, args: Args)
    requires i < |fmt| && IsFlag(fmt[i])
    ensures forall x :: i <= x < Flag(fmt, i, s, args).1 ==> fmt[x] != '%'
  {
    NumberSkipsNoPercent(fmt, i + 1, fmt[i] as int - '0' as int);
  }

  lemma ShownEmpty(t: string, alt: bool)
    requires t == ""
    ensures Shown(t, alt) == ""
  {
  }

  lemma ShownSnoc(t: string, i: nat, alt: bool)
    requires i < |t|
    ensures Shown(t[..i + 1], alt) == Shown(t[..i], alt) + [if alt && (t[i] < ' ' || t[i] > '~') then '?' else t[i]]
    decreases i
  {
    if i > 0 {
      assert t[..i + 1][1..] == t[1..][..i] && t[..i][1..] == t[1..][..i - 1];
      ShownSnoc(t[1..], i - 1, alt);
    }
  }

  // What the first padding loop of %s prints, and the width it leaves.
  function PadBefore(a: StrArg, s: Spec): string
  {
    if s.width > 0 && s.pad != '-' then Repeat(s.pad, s.width - |Body(a, s.precision)|) else ""
  }

  function WidthLeft(a: StrArg, s: Spec): int
  {
    var n := |Body(a, s.precision)|;
    if s.width > 0 && s.pad != '-' then (if s.width > n then 0 else s.width - n) else s.width
  }

  lemma StrParts(a: StrArg, s: Spec)
    ensures PadBefore(a, s) + Shown(Body(a, s.precision), s.alt) + Repeat(' ', WidthLeft(a, s) - |Body(a, s.precision)|)
         == StrText(a, s)
  {
  }

  lemma Joined(x: string, p: string, q: string, r: string)
    ensures x + p + q + r == x + (p + q + r)
  {
  }

  lemma PlainStep(fmt: CString, i: nat, k: nat, args: Args, x: string)
    requires i < |fmt| && fmt[i] != '%'
    ensures x + [fmt[i]] + Render(fmt, i + 1, k, args) == x + Render(fmt, i, k, args)
  {
    hide Scan, Convert, Strays;
    assert Render(fmt, i, k, args) == [fmt[i]] + Render(fmt, i + 1, k, args);
    Joined(x, [fmt[i]], Render(fmt, i + 1, k, args), "");
  }

  lemma RenderEnd(fmt: CString, k: nat, args: Args, x: string)
    ensures x + Render(fmt, |fmt|, k, args) == x && StaysInside(fmt, |fmt|, k, args)
  {
  }

  lemma EscapeStep(fmt: CString, i: nat, k: nat, args: Args, x: string)
    requires i < |fmt| && fmt[i] == '%'
    ensures var (s, j) := Scan(fmt, i + 1, FreshSpec(k), args);
            x + Render(fmt, i, k, args) ==
            if j < |fmt| && IsConversion(fmt[j]) then
              if Strays(fmt[j], s, args) then x
              else x + Convert(fmt[j], s, args) + Render(fmt, j + 1, Consumed(fmt[j], s.k), args)
            else x + "%" + Render(fmt, i + 1, s.k, args)
    ensures var (s, j) := Scan(fmt, i + 1, FreshSpec(k), args);
            StaysInside(fmt, i, k, args) <==>
            if j < |fmt| && IsConversion(fmt[j]) then
              !Strays(fmt[j], s, args) && StaysInside(fmt, j + 1, Consumed(fmt[j], s.k), args)
            else StaysInside(fmt, i + 1, s.k, args)
  {
    hide Scan, Convert, IsConversion, Strays;
    var (s, j) := Scan(fmt, i + 1, FreshSpec(k), args);
    if j < |fmt| && IsConversion(fmt[j]) {
      if !Strays(fmt[j], s, args) {
        Joined(x, Convert(fmt[j], s, args), Render(fmt, j + 1, Consumed(fmt[j], s.k), args), "");
      }
    } else {
      Joined(x, "%", Render(fmt, i + 1, s.k, args), "");
    }
  }

  const E_INVAL := 3

  // vsnprintf: the buffer gets the first n - 1 characters of the text at most,
  // then NUL, and nothing else; the result counts the whole text. ok is false
  // when a conversion read outside the table of error messages.
  method Vsnprintf(buf: array?<char>, n: int, fmt: CString, args: Args) returns (ok: bool, rc: int)
    requires buf != null ==> n <= buf.Length
    modifies if buf == null then {} else {buf}
    ensures buf == null || n < 1 ==> ok && rc == -E_INVAL
    ensures buf != null && n < 1 ==> buf[..] == old(buf[..])
    ensures buf != null && n >= 1 ==> (ok <==> StaysInside(fmt, 0, 0, args))
    ensures buf != null && n >= 1 && ok ==>
              var text := Render(fmt, 0, 0, args);
              var m := if |text| < n - 1 then |text| else n - 1;
              && rc == |text| && buf[..m] == text[..m] && buf[m] == '\0' && buf[m + 1..] == old(buf[..])[m + 1..]
  {
    hide Render, StaysInside;
    if buf == null || n < 1 {
      return true, -E_INVAL;
    }
    var b := new SprintBuf(buf, n);
    ok := b.Vprintfmt(fmt, args);
    if !ok {
      return false, 0;
    }
    assert "" + Render(fmt, 0, 0, args) == Render(fmt, 0, 0, args);
    ghost var before := buf[..];
    buf[b.cur] := '\0';
    assert buf[..b.cur] == before[..b.cur];
    assert buf[b.cur + 1..] == before[b.cur..][1..] == old(buf[..])[b.cur + 1..];
    return ok, b.cnt;
  }

  // ---------- what the formatter promises ----------

  lemma {:induction false} PlainRun(fmt: string, i: nat, j: nat, k: nat, args: Args)
    requires i <= j <= |fmt| && forall x :: i <= x < j ==> fmt[x] != '%'
    ensures Render(fmt, i, k, args) == fmt[i..j] + Render(fmt, j, k, args)
    decreases j - i
  {
    hide Render;
    if i < j {
      PlainFirst(fmt, i, k, args);
      PlainRun(fmt, i + 1, j, k, args);
      assert fmt[i..j] == [fmt[i]] + fmt[i + 1..j];
      assert [fmt[i]] + (fmt[i + 1..j] + Render(fmt, j, k, args)) == [fmt[i]] + fmt[i + 1..j] + Render(fmt, j, k, args);
    } else {
      assert fmt[i..j] == "";
    }
  }

  lemma PlainFirst(fmt: string, i: nat, k: nat, args: Args)
    requires i < |fmt| && fmt[i] != '%'
    ensures Render(fmt, i, k, args) == [fmt[i]] + Render(fmt, i + 1, k, args)
  {
    hide Scan, Convert;
  }

  lemma {:induction false} ScanSkipsNoPercent(fmt: string, i: nat, s: Spec, args: Args)
    requires i <= |fmt|
    ensures forall x :: i <= x < Scan(fmt, i, s, args).1 ==> fmt[x] != '%'
    decreases |fmt| - i
  {
    if i < |fmt| && IsFlag(fmt[i]) {
      FlagSkipsNoPercent(fmt, i, s, args);
      var (s', j) := Flag(fmt, i, s, args);
      ScanSkipsNoPercent(fmt, j, s', args);
    }
  }

  // An escape that ends in no known conversion, or in the end of the string,
  // comes out exactly as it was written.
  lemma UnknownEscapeIsVerbatim(fmt: string, i: nat, k: nat, args: Args)
    requires i < |fmt| && fmt[i] == '%'
    ensures var (s, j) := Scan(fmt, i + 1, FreshSpec(k), args);
            !(j < |fmt| && IsConversion(fmt[j])) ==>
              Render(fmt, i, k, args) == fmt[i..j] + Render(fmt, j, s.k, args)
  {
    var (s, j) := Scan(fmt, i + 1, FreshSpec(k), args);
    ScanSkipsNoPercent(fmt, i + 1, FreshSpec(k), args);
    hide Scan, Convert, Flag;
    if !(j < |fmt| && IsConversion(fmt[j])) {
      PlainRun(fmt, i + 1, j, s.k, args);
      assert fmt[i..j] == "%" + fmt[i + 1..j];
      Joined("", "%", fmt[i + 1..j], Render(fmt, j, s.k, args));
    }
  }

  // Text without escapes is printed as it is.
  lemma PlainTextIsVerbatim(fmt: string, args: Args)
    requires '%' !in fmt
    ensures Render(fmt, 0, 0, args) == fmt
  {
    hide Scan, Convert;
    PlainRun(fmt, 0, |fmt|, 0, args);
    assert fmt[0..|fmt|] == fmt && Render(fmt, |fmt|, 0, args) == "";
  }

  // %s, character by character: the string cut off at the precision, padded to
  // the width on the left with the padding character or on the right with blanks,
  // and with '#' a '?' for every character that is not printable.
  lemma StrTextIs(a: StrArg, s: Spec)
    ensures var t, r := if a.NullStr? then "(null)" else a.s, StrText(a, s);
            var m := if 0 <= s.precision < |t| then s.precision else |t|;
            var g := if s.width > m then s.width - m else 0;
            && |r| == g + m
            && (forall i :: 0 <= i < m ==>
                  r[if s.pad == '-' then i else g + i] == if s.alt && (t[i] < ' ' || t[i] > '~') then '?' else t[i])
            && (forall i :: 0 <= i < g ==> if s.pad == '-' then r[m + i] == ' ' else r[i] == s.pad)
  {
    hide StrText, Body, Shown, PaddingOf;
    StrTextParts(a, s);
    var b := Body(a, s.precision);
    BodyIs(a, s.precision);
    ShownIs(b, s.alt);
    Beside(Shown(b, s.alt), PaddingOf(s, |b|));
  }

  lemma StrTextParts(a: StrArg, s: Spec)
    ensures var b := Body(a, s.precision);
            var c, p := Shown(b, s.alt), PaddingOf(s, |b|);
            StrText(a, s) == if s.pad == '-' then c + p else p + c
  {
    hide Shown, Repeat, Body;
  }

  lemma Beside(c: string, p: string)
    ensures forall i :: 0 <= i < |c| ==> (p + c)[|p| + i] == c[i] && (c + p)[i] == c[i]
    ensures forall i :: 0 <= i < |p| ==> (c + p)[|c| + i] == p[i] && (p + c)[i] == p[i]
  {
  }

  function PaddingOf(s: Spec, m: nat): (p: string)
    ensures |p| == (if s.width > m then s.width - m else 0)
    ensures forall i :: 0 <= i < |p| ==> p[i] == if s.pad == '-' then ' ' else s.pad
  {
    Repeat(if s.pad == '-' then ' ' else s.pad, s.width - m)
  }

  lemma BodyIs(a: StrArg, precision: int)
    ensures var t, b := if a.NullStr? then "(null)" else a.s, Body(a, precision);
            |b| == (if 0 <= precision < |t| then precision else |t|) && forall i :: 0 <= i < |b| ==> b[i] == t[i]
  {
  }

  lemma {:induction false} ShownIs(t: string, alt: bool)
    ensures |Shown(t, alt)| == |t|
    ensures forall i :: 0 <= i < |t| ==> Shown(t, alt)[i] == if alt && (t[i] < ' ' || t[i] > '~') then '?' else t[i]
    decreases |t|
  {
    if t != "" { ShownIs(t[1..], alt); }
  }

  // "-E_NO_MEM and E_NO_MEM are equivalent", as every code but the smallest int is
  // to its negative; a code without a message is printed as a number.
  lemma ErrorTextIs(e: int)
    requires 0 <= e < 0x8000_0000
    ensures !StrayIndex(e) && !StrayIndex(-e) && ErrorText(-e) == ErrorText(e)
    ensures ErrorText(e) == match e
                            case 1 => "unspecified error" case 2 => "bad environment" case 3 => "invalid parameter"
                            case 4 => "out of memory" case 5 => "out of environments" case 6 => "segmentation fault"
                            case _ => "error " + SignedText(e, 10, -1, ' ')
  {
    hide SignedText, Wrap;
    WrapIsFits(e);
  }

  // ---------- printing, then parsing ----------

  function BaseOf(c: char): int { if c == 'o' then 8 else if c == 'x' then 16 else 10 }

  // The number that %d, %u, %o or %x prints.
  function NumberArg(c: char, s: Spec, args: Args): int
  {
    if c == 'd' then SignedArg(s, args) else Unsigned(s, args)
  }

  predicate IsNumeric(c: char) { c == 'd' || c == 'u' || c == 'o' || c == 'x' }

  // strtol in the same base reads a numeric conversion back, to its end and as
  // the argument, exactly when the argument fits a long and the padding is
  // harmless: for every argument, also long long, every width and every padding
  // character an escape can set.
  lemma ConversionRoundTripIff(c: char, s: Spec, args: Args)
    requires IsNumeric(c) && (s.pad == '0' || s.pad == ' ' || s.pad == '-')
    ensures var n, t := NumberArg(c, s, args), Convert(c, s, args) + ['\0'];
            (StrtolValue(t, BaseOf(c)) == n && StrtolEnd(t, BaseOf(c)) == |t| - 1)
            <==> (-0x8000_0000 <= n <= 0x7FFF_FFFF && PadReadsBack(n, BaseOf(c), s.width, s.pad))
  {
    hide NumText, StrtolValue, StrtolEnd, SignedArg, Unsigned, PadReadsBack;
    var n, b := NumberArg(c, s, args), BaseOf(c);
    PrintedReadsBackIff(n, b, s.width, s.pad);
    assert c != 'd' ==> "" + NumText(n, b, s.width, s.pad) == NumText(n, b, s.width, s.pad);
    assert Convert(c, s, args) == SignedText(n, b, s.width, s.pad);
  }

  // An escape sets no other padding character.
  lemma {:induction false} PadIsOneOfThree(fmt: string, i: nat, s: Spec, args: Args)
    requires i <= |fmt| && (s.pad == '0' || s.pad == ' ' || s.pad == '-')
    ensures var p := Scan(fmt, i, s, args).0.pad; p == '0' || p == ' ' || p == '-'
    decreases |fmt| - i
  {
    if i < |fmt| && IsFlag(fmt[i]) {
      var (s', j) := Flag(fmt, i, s, args);
      PadIsOneOfThree(fmt, j, s', args);
    }
  }
}
