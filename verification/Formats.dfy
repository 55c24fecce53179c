// What a whole format string prints, piece by piece: each conversion its own
// argument, in order.
module Formats {
  import opened Numbers
  import opened Printf

  // A width or precision: left out, written in digits, or taken from an argument.
  datatype Size = Absent | Fixed(n: nat) | Star

  // Plain text, or one escape: "%", "#", a padding flag, a width, a precision,
  // any number of "l" and the conversion.
  datatype Piece =
    | Plain(t: string)
    | Escape(alt: bool, pad: char, width: Size, precision: Size, longs: nat, conv: char)

  function AltText(alt: bool): string { if alt then "#" else "" }

  function FlagText(pad: char): string { if pad == ' ' then "" else [pad] }

  function SizeText(z: Size): string
  {
    match z case Absent => "" case Fixed(n) => Digits(n, 10) case Star => "*"
  }

  function DotText(z: Size): string { if z.Absent? then "" else "." + SizeText(z) }

  // The piece as it stands in the format string.
  function Source(x: Piece): string
  {
    match x
    case Plain(t) => t
    case Escape(alt, pad, width, precision, longs, conv) =>
      "%" + AltText(alt) + FlagText(pad) + SizeText(width) + DotText(precision) + Repeat('l', longs) + [conv]
  }

  function Format(xs: seq<Piece>): string
  {
    if xs == [] then "" else Source(xs[0]) + Format(xs[1..])
  }

  predicate IsPad(pad: char) { pad == ' ' || pad == '0' || pad == '-' }

  predicate Sized(z: Size) { z.Fixed? ==> 0 < z.n < 0x8000_0000 }

  predicate Proper(x: Piece)
  {
    match x
    case Plain(t) => '%' !in t && '\0' !in t
    case Escape(_, pad, width, precision, _, conv) => IsPad(pad) && Sized(width) && Sized(precision) && IsConversion(conv)
  }

  // ---------- what it should print ----------

  function Stars(z: Size): nat { if z.Star? then 1 else 0 }

  // How many arguments a piece uses: one for each star and one for the
  // conversion itself, except %%.
  function Arity(x: Piece): nat
  {
    if x.Plain? then 0 else Stars(x.width) + Stars(x.precision) + (if x.conv == '%' then 0 else 1)
  }

  // n bits as an unsigned or as a two's-complement number.
  function Unsigned32(w: nat): nat { w % 0x1_0000_0000 }

  function Int32(w: nat): int
  {
    if Unsigned32(w) < 0x8000_0000 then Unsigned32(w) else Unsigned32(w) - 0x1_0000_0000
  }

  function Unsigned64(w: nat): nat { w % 0x1_0000_0000_0000_0000 }

  function Int64(w: nat): int
  {
    if Unsigned64(w) < 0x8000_0000_0000_0000 then Unsigned64(w) else Unsigned64(w) - 0x1_0000_0000_0000_0000
  }

  function SizeOf(z: Size, k: nat, args: Args): int
  {
    match z case Absent => -1 case Fixed(n) => n case Star => Int32(args.word(k))
  }

  // The number a numeric conversion prints: argument k, as a long long with "ll".
  function Meant(conv: char, longs: nat, k: nat, args: Args): int
  {
    if conv == 'd' then if longs >= 2 then Int64(args.long(k)) else Int32(args.word(k))
    else if longs >= 2 then Unsigned64(args.long(k)) else Unsigned32(args.word(k))
  }

  // What an escape prints when the arguments before it are used up to k.
  function EscapeText(x: Piece, k: nat, args: Args): string
    requires x.Escape? && Harmless(x, k, args)
  {
    var a := k + Stars(x.width) + Stars(x.precision);
    var p := SizeOf(x.precision, k + Stars(x.width), args);
    var w0 := SizeOf(x.width, k, args);
    var w := if x.precision.Absent? || w0 >= 0 then w0 else 0;
    match x.conv
    case 'd' | 'u' => SignedText(Meant(x.conv, x.longs, a, args), 10, w, x.pad)
    case 'o' => SignedText(Meant(x.conv, x.longs, a, args), 8, w, x.pad)
    case 'x' => SignedText(Meant(x.conv, x.longs, a, args), 16, w, x.pad)
    case 'p' => "0x" + SignedText(Unsigned32(args.word(a)), 16, w, x.pad)
    case 's' => StrText(args.str(a), Spec(x.pad, w, p, x.longs, x.alt, a))
    case 'c' => [(args.word(a) % 256) as char]
    case 'e' => ErrorText(Int32(args.word(a)))
    case _ => "%"
  }

  // A %e is not given the smallest int.
  predicate Harmless(x: Piece, k: nat, args: Args)
  {
    x.Escape? && x.conv == 'e' ==> Int32(args.word(k + Stars(x.width) + Stars(x.precision))) != -0x8000_0000
  }

  predicate AllHarmless(xs: seq<Piece>, k: nat, args: Args)
  {
    xs != [] ==> Harmless(xs[0], k, args) && AllHarmless(xs[1..], k + Arity(xs[0]), args)
  }

  function Printed(xs: seq<Piece>, k: nat, args: Args): string
    requires AllHarmless(xs, k, args)
  {
    if xs == [] then ""
    else (if xs[0].Plain? then xs[0].t else EscapeText(xs[0], k, args)) + Printed(xs[1..], k + Arity(xs[0]), args)
  }

  // ---------- the scanner over one escape ----------

  lemma {:induction false} LeadingDigit(n: nat)
    requires n > 0
    ensures '1' <= Digits(n, 10)[0] <= '9'
    decreases n
  {
    if n >= 10 {
      LeadingDigit(n / 10);
      assert Digits(n, 10) == Digits(n / 10, 10) + [DIGITS[n % 10]];
    }
  }

  lemma DecimalDigits(t: string)
    requires Digital(t, 10)
    ensures forall i :: 0 <= i < |t| ==> Decimal(t[i]) && DigitValue(t[i]) == t[i] as int - '0' as int
  {
  }

  lemma {:induction false} PrefixValue(t: string, j: nat)
    requires j <= |t| && Digital(t, 10)
    ensures 0 <= Value(t[..j], 10) <= Value(t, 10)
    decreases |t| - j, j
  {
    DecimalDigits(t);
    if j < |t| {
      PrefixValue(t, j + 1);
      PrefixNonnegative(t, j);
      assert t[..j + 1][..j] == t[..j];
    } else {
      assert t[..j] == t;
      PrefixNonnegative(t, j);
    }
  }

  lemma {:induction false} PrefixNonnegative(t: string, j: nat)
    requires j <= |t| && Digital(t, 10)
    ensures Value(t[..j], 10) >= 0
    decreases j
  {
    if j > 0 {
      DecimalDigits(t);
      PrefixNonnegative(t, j - 1);
      assert t[..j][..j - 1] == t[..j - 1];
    }
  }

  // The width loop, with j digits of t read.
  lemma {:induction false} NumberReads(fmt: string, a: nat, t: string, j: nat)
    requires a + |t| < |fmt| && fmt[a..a + |t|] == t && !Decimal(fmt[a + |t|])
    requires j <= |t| && Digital(t, 10) && Value(t, 10) < 0x8000_0000
    ensures Number(fmt, a + j, Value(t[..j], 10)) == (Value(t, 10), a + |t|)
    decreases |t| - j
  {
    hide Digital, Value, Number;
    if j < |t| {
      NumberStep(fmt, a, t, j);
      NumberReads(fmt, a, t, j + 1);
    } else {
      assert t[..j] == t;
      NumberEnds(fmt, a + j, Value(t, 10));
    }
  }

  lemma NumberStep(fmt: string, a: nat, t: string, j: nat)
    requires a + |t| < |fmt| && fmt[a..a + |t|] == t && j < |t| && Digital(t, 10) && Value(t, 10) < 0x8000_0000
    ensures Number(fmt, a + j, Value(t[..j], 10)) == Number(fmt, a + (j + 1), Value(t[..j + 1], 10))
  {
    hide Digital, Value, Wrap, DigitValue, Number, Decimal;
    DecimalDigits(t);
    assert fmt[a + j] == t[j];
    ValuePrefix(t, j);
    WrapIsFits(Value(t[..j + 1], 10));
    NumberReadsOne(fmt, a + j, Value(t[..j], 10));
  }

  lemma ValuePrefix(t: string, j: nat)
    requires j < |t| && Digital(t, 10)
    ensures Value(t[..j + 1], 10) == Value(t[..j], 10) * 10 + DigitValue(t[j])
    ensures 0 <= Value(t[..j + 1], 10) <= Value(t, 10)
  {
    hide Digital, Value, DigitValue;
    assert t[..j + 1][..j] == t[..j] && t[..j + 1][j] == t[j];
    PrefixValue(t, j + 1);
    ValueLast(t[..j + 1]);
  }

  lemma NumberReadsOne(fmt: string, i: nat, p: int)
    requires i < |fmt| && Decimal(fmt[i])
    ensures Number(fmt, i, p) == Number(fmt, i + 1, Wrap(p * 10 + (fmt[i] as int - '0' as int)))
  {
  }

  lemma ValueLast(t: string)
    requires t != ""
    ensures Value(t, 10) == Value(t[..|t| - 1], 10) * 10 + DigitValue(t[|t| - 1])
  {
  }

  lemma NumberEnds(fmt: string, i: nat, p: int)
    requires i < |fmt| && !Decimal(fmt[i])
    ensures Number(fmt, i, p) == (p, i)
  {
  }

  lemma ScanEnds(fmt: string, i: nat, s: Spec, args: Args)
    requires i <= |fmt| && !(i < |fmt| && IsFlag(fmt[i]))
    ensures Scan(fmt, i, s, args) == (s, i)
  {
  }

  lemma FirstDigit(t: string)
    requires t != ""
    ensures Value(t[..1], 10) == DigitValue(t[0])
  {
    assert t[..1] == [t[0]] && t[..1][..0] == [];
  }

  lemma ScanFlag(fmt: string, i: nat, s: Spec, args: Args)
    requires i < |fmt| && IsFlag(fmt[i])
    ensures Scan(fmt, i, s, args) == Scan(fmt, Flag(fmt, i, s, args).1, Flag(fmt, i, s, args).0, args)
  {
  }

  lemma Part(fmt: string, i: nat, x: string, p: string, y: string)
    requires i + |x + p + y| <= |fmt| && fmt[i..i + |x + p + y|] == x + p + y
    ensures fmt[i + |x|..i + |x| + |p|] == p
    ensures fmt[i..i + |x|] == x && fmt[i + |x| + |p|..i + |x + p + y|] == y
  {
    var t := fmt[i..i + |x + p + y|];
    assert t[..|x|] == x && t[|x|..|x| + |p|] == p && t[|x| + |p|..] == y;
    Slice(fmt, i, |t|, 0, |x|);
    Slice(fmt, i, |t|, |x|, |x| + |p|);
    Slice(fmt, i, |t|, |x| + |p|, |t|);
  }

  lemma Slice(fmt: string, i: nat, n: nat, u: nat, v: nat)
    requires i + n <= |fmt| && u <= v <= n
    ensures fmt[i..i + n][u..v] == fmt[i + u..i + v]
  {
    var l, r := fmt[i..i + n][u..v], fmt[i + u..i + v];
    forall x | 0 <= x < v - u ensures l[x] == r[x] {
      assert l[x] == fmt[i..i + n][u + x] == fmt[i + (u + x)];
      assert r[x] == fmt[i + u + x];
    }
  }

  // A number in digits, as a width or a precision.
  lemma ScanDigits(fmt: string, a: nat, n: nat, s: Spec, args: Args)
    requires 0 < n < 0x8000_0000 && a + |Digits(n, 10)| < |fmt| && fmt[a..a + |Digits(n, 10)|] == Digits(n, 10)
    requires !Decimal(fmt[a + |Digits(n, 10)|])
    ensures Scan(fmt, a, s, args) == Scan(fmt, a + |Digits(n, 10)|, Given(s, n), args)
  {
    hide Scan, Number, Digits, Value, Digital, Wrap;
    var t := Digits(n, 10);
    ValueOfDigits(n, 10);
    LeadingDigit(n);
    DecimalDigits(t);
    assert fmt[a] == t[0];
    FirstDigit(t);
    NumberReads(fmt, a, t, 1);
    ScanFlag(fmt, a, s, args);
  }

  lemma ScanSize(fmt: string, a: nat, z: Size, s: Spec, args: Args)
    requires Sized(z) && a + |SizeText(z)| < |fmt| && fmt[a..a + |SizeText(z)|] == SizeText(z)
    requires !Decimal(fmt[a + |SizeText(z)|])
    ensures Scan(fmt, a, s, args) ==
            Scan(fmt, a + |SizeText(z)|, if z.Absent? then s else Given(s.(k := s.k + Stars(z)), SizeOf(z, s.k, args)), args)
  {
    hide Scan, Digits, Wrap;
    match z
    case Absent =>
    case Fixed(n) => ScanDigits(fmt, a, n, s, args);
    case Star =>
      assert fmt[a] == SizeText(z)[0];
      ScanFlag(fmt, a, s, args);
      Wrap32(args.word(s.k));
  }

  lemma Wrap32(w: nat)
    ensures Wrap(w) == Int32(w)
  {
  }

  lemma ScanDot(fmt: string, a: nat, z: Size, s: Spec, args: Args)
    requires Sized(z) && a + |DotText(z)| < |fmt| && fmt[a..a + |DotText(z)|] == DotText(z)
    requires !Decimal(fmt[a + |DotText(z)|]) && s.precision == -1
    ensures Scan(fmt, a, s, args) ==
            Scan(fmt, a + |DotText(z)|,
                 if z.Absent? then s
                 else s.(width := if s.width < 0 then 0 else s.width, precision := SizeOf(z, s.k, args), k := s.k + Stars(z)), args)
  {
    hide Scan, Digits, Wrap, SizeText;
    if !z.Absent? {
      Part(fmt, a, ".", SizeText(z), "");
      assert fmt[a] == DotText(z)[0];
      ScanFlag(fmt, a, s, args);
      ScanSize(fmt, a + 1, z, if s.width < 0 then s.(width := 0) else s, args);
    }
  }

  lemma {:induction false} ScanLongs(fmt: string, a: nat, n: nat, s: Spec, args: Args)
    requires a + n <= |fmt| && fmt[a..a + n] == Repeat('l', n)
    ensures Scan(fmt, a, s, args) == Scan(fmt, a + n, s.(lflag := s.lflag + n), args)
    decreases n
  {
    hide Scan;
    if n > 0 {
      assert fmt[a] == Repeat('l', n)[0];
      assert fmt[a + 1..a + n] == Repeat('l', n)[1..] == Repeat('l', n - 1);
      ScanFlag(fmt, a, s, args);
      ScanLongs(fmt, a + 1, n - 1, s.(lflag := s.lflag + 1), args);
    }
  }

  lemma ScanOpening(fmt: string, a: nat, alt: bool, pad: char, s: Spec, args: Args)
    requires IsPad(pad) && a + |AltText(alt) + FlagText(pad)| <= |fmt| && s.pad == ' ' && !s.alt
    requires fmt[a..a + |AltText(alt) + FlagText(pad)|] == AltText(alt) + FlagText(pad)
    ensures Scan(fmt, a, s, args) == Scan(fmt, a + |AltText(alt) + FlagText(pad)|, s.(alt := alt, pad := pad), args)
  {
    hide Scan;
    var t, b := AltText(alt) + FlagText(pad), a + |AltText(alt)|;
    assert forall x :: 0 <= x < |t| ==> fmt[a + x] == t[x];
    if alt {
      assert fmt[a] == t[0];
      ScanFlag(fmt, a, s, args);
    }
    if pad != ' ' {
      assert fmt[b] == t[|t| - 1];
      ScanFlag(fmt, b, s.(alt := alt), args);
    }
  }

  // The variables after the whole escape.
  function SpecOf(x: Piece, k: nat, args: Args): Spec
    requires x.Escape?
  {
    var w0 := SizeOf(x.width, k, args);
    Spec(x.pad, if x.precision.Absent? || w0 >= 0 then w0 else 0, SizeOf(x.precision, k + Stars(x.width), args),
         x.longs, x.alt, k + Stars(x.width) + Stars(x.precision))
  }

  lemma TailNotDecimal(z: Size, n: nat, c: char)
    requires IsConversion(c)
    ensures !Decimal((DotText(z) + Repeat('l', n) + [c])[0]) && !Decimal((Repeat('l', n) + [c])[0])
  {
    hide SizeText;
  }

  lemma EscapeScans(fmt: string, i: nat, x: Piece, k: nat, args: Args)
    requires x.Escape? && Proper(x) && i + |Source(x)| <= |fmt| && fmt[i..i + |Source(x)|] == Source(x)
    ensures |Source(x)| >= 2 && fmt[i] == '%' && fmt[i + |Source(x)| - 1] == x.conv
    ensures Scan(fmt, i + 1, FreshSpec(k), args) == (SpecOf(x, k, args), i + |Source(x)| - 1)
  {
    hide Scan, AltText, FlagText, SizeText, DotText, Repeat, SizeOf, SpecOf, Given, Decimal, IsConversion, IsFlag;
    var o, w, d, l := AltText(x.alt) + FlagText(x.pad), SizeText(x.width), DotText(x.precision), Repeat('l', x.longs);
    var c := [x.conv];
    var a := i + 1;
    var b := a + |o|;
    var e := b + |w|;
    var g := e + |d|;
    var h := g + |l|;
    Pieces(fmt, i, AltText(x.alt), FlagText(x.pad), w, d, l, x.conv);
    TailNotDecimal(x.precision, x.longs, x.conv);
    HeadScans(fmt, a, b, e, x, k, args);
    TailScans(fmt, e, g, h, x, k, args);
  }

  // The variables after the width.
  function SpecMid(x: Piece, k: nat, args: Args): Spec
    requires x.Escape?
  {
    var s1 := FreshSpec(k).(alt := x.alt, pad := x.pad);
    if x.width.Absent? then s1 else Given(s1.(k := k + Stars(x.width)), SizeOf(x.width, k, args))
  }

  lemma HeadScans(fmt: string, a: nat, b: nat, e: nat, x: Piece, k: nat, args: Args)
    requires x.Escape? && Proper(x) && a <= b <= e < |fmt| && !Decimal(fmt[e])
    requires fmt[a..b] == AltText(x.alt) + FlagText(x.pad) && fmt[b..e] == SizeText(x.width)
    ensures Scan(fmt, a, FreshSpec(k), args) == Scan(fmt, e, SpecMid(x, k, args), args)
  {
    hide Scan, AltText, FlagText, SizeText, SizeOf, Given, Decimal;
    ScanOpening(fmt, a, x.alt, x.pad, FreshSpec(k), args);
    ScanSize(fmt, b, x.width, FreshSpec(k).(alt := x.alt, pad := x.pad), args);
  }

  lemma TailScans(fmt: string, e: nat, g: nat, h: nat, x: Piece, k: nat, args: Args)
    requires x.Escape? && Proper(x) && e <= g <= h < |fmt| && !Decimal(fmt[g]) && fmt[h] == x.conv
    requires fmt[e..g] == DotText(x.precision) && fmt[g..h] == Repeat('l', x.longs)
    ensures Scan(fmt, e, SpecMid(x, k, args), args) == (SpecOf(x, k, args), h)
  {
    hide Scan, DotText, SizeOf, SpecMid, SpecOf, Decimal, IsFlag;
    SpecSteps(x, k, args);
    var s2 := SpecMid(x, k, args);
    ScanDot(fmt, e, x.precision, s2, args);
    var s3 := if x.precision.Absent? then s2
              else s2.(width := if s2.width < 0 then 0 else s2.width, precision := SizeOf(x.precision, s2.k, args), k := s2.k + Stars(x.precision));
    ScanLongs(fmt, g, x.longs, s3, args);
    NotAFlag(x.conv);
    ScanEnds(fmt, h, s3.(lflag := x.longs), args);
  }

  lemma SpecSteps(x: Piece, k: nat, args: Args)
    requires x.Escape?
    ensures var s2 := SpecMid(x, k, args);
            var s3 := if x.precision.Absent? then s2
                      else s2.(width := if s2.width < 0 then 0 else s2.width, precision := SizeOf(x.precision, s2.k, args),
                               k := s2.k + Stars(x.precision));
            s2.precision == -1 && s3.lflag == 0 && s3.(lflag := x.longs) == SpecOf(x, k, args)
  {
    hide Int32;
  }

  lemma NotAFlag(c: char)
    requires IsConversion(c)
    ensures !IsFlag(c)
  {
  }

  // Where the parts of an escape stand.
  lemma Pieces(fmt: string, i: nat, alt: string, flag: string, w: string, d: string, l: string, c: char)
    requires var t := "%" + alt + flag + w + d + l + [c]; i + |t| <= |fmt| && fmt[i..i + |t|] == t
    ensures var a := i + 1;
            var b := a + |alt + flag|;
            var e := b + |w|;
            var g := e + |d|;
            var h := g + |l|;
            && h < |fmt| && fmt[i] == '%' && fmt[h] == c
            && fmt[a..b] == alt + flag && fmt[b..e] == w && fmt[e..g] == d && fmt[g..h] == l
            && fmt[e] == (d + l + [c])[0] && fmt[g] == (l + [c])[0]
  {
    var t := "%" + alt + flag + w + d + l + [c];
    assert fmt[i] == t[0];
    assert t == "%" + (alt + flag) + (w + d + l + [c]);
    Part(fmt, i, "%", alt + flag, w + d + l + [c]);
    assert t == ("%" + alt + flag) + w + (d + l + [c]);
    Part(fmt, i, "%" + alt + flag, w, d + l + [c]);
    assert t == ("%" + alt + flag + w) + d + (l + [c]);
    Part(fmt, i, "%" + alt + flag + w, d, l + [c]);
    Part(fmt, i, "%" + alt + flag + w + d, l, [c]);
    var b := i + 1 + |alt + flag|;
    var e := b + |w|;
    var g := e + |d|;
    assert fmt[e] == fmt[e..i + |t|][0];
    assert fmt[g] == fmt[g..i + |t|][0];
    assert fmt[g + |l|] == fmt[g + |l|..i + |t|][0];
  }

  // The scanner's variables give the text an escape should print.
  lemma ConvertIsText(x: Piece, k: nat, args: Args)
    requires x.Escape? && Proper(x) && Harmless(x, k, args)
    ensures !Strays(x.conv, SpecOf(x, k, args), args)
    ensures Convert(x.conv, SpecOf(x, k, args), args) == EscapeText(x, k, args)
    ensures Consumed(x.conv, SpecOf(x, k, args).k) == k + Arity(x)
  {
    hide NumText, StrText, ErrorText, Wrap, SizeOf;
    var a := k + Stars(x.width) + Stars(x.precision);
    Wrap32(args.word(a));
    Wrap64(args.long(a));
    StrayIndexIff(Int32(args.word(a)));
    var s := SpecOf(x, k, args);
    assert forall n: nat, b: int :: Base(b) ==> SignedText(n, b, s.width, s.pad) == "" + NumText(n, b, s.width, s.pad);
    if x.conv == 'u' || x.conv == 'o' || x.conv == 'x' || x.conv == 'p' {
      var b := if x.conv == 'u' then 10 else if x.conv == 'o' then 8 else 16;
      var n := if x.conv == 'p' then Unsigned32(args.word(a)) else Unsigned(s, args);
      assert "" + NumText(n, b, s.width, s.pad) == NumText(n, b, s.width, s.pad);
    }
  }

  lemma Wrap64(w: nat)
    ensures Signed64(w) == Int64(w)
  {
  }

  // ---------- the whole format ----------

  // A format prints its pieces in order, each escape its own argument.
  lemma {:induction false} PiecesRender(fmt: string, i: nat, k: nat, xs: seq<Piece>, args: Args)
    requires i <= |fmt| && fmt[i..] == Format(xs) && AllHarmless(xs, k, args) && forall x :: x in xs ==> Proper(x)
    ensures Render(fmt, i, k, args) == Printed(xs, k, args) && StaysInside(fmt, i, k, args)
    decreases |xs|
  {
    hide Render, Scan, Convert, Source, EscapeText, Proper, Harmless, Arity, StaysInside;
    if xs == [] {
      RenderNothing(fmt, k, args);
    } else {
      var x, j := xs[0], i + |Source(xs[0])|;
      FormatSplit(fmt, i, xs);
      assert Proper(x) && forall y :: y in xs[1..] ==> Proper(y);
      PiecesRender(fmt, j, k + Arity(x), xs[1..], args);
      if x.Plain? {
        PlainPiece(fmt, i, k, x, args);
      } else {
        EscapePiece(fmt, i, k, x, args);
      }
    }
  }

  lemma RenderNothing(fmt: string, k: nat, args: Args)
    ensures Render(fmt, |fmt|, k, args) == "" && StaysInside(fmt, |fmt|, k, args)
  {
  }

  lemma FormatSplit(fmt: string, i: nat, xs: seq<Piece>)
    requires xs != [] && i <= |fmt| && fmt[i..] == Format(xs)
    ensures i + |Source(xs[0])| <= |fmt| && fmt[i..i + |Source(xs[0])|] == Source(xs[0])
    ensures fmt[i + |Source(xs[0])|..] == Format(xs[1..])
  {
    hide Source;
    var t, n := fmt[i..], |Source(xs[0])|;
    assert t[..n] == Source(xs[0]) && t[n..] == Format(xs[1..]);
    assert fmt[i..i + n] == t[..n] && fmt[i + n..] == t[n..];
  }

  lemma PlainPiece(fmt: string, i: nat, k: nat, x: Piece, args: Args)
    requires x.Plain? && Proper(x) && i + |Source(x)| <= |fmt| && fmt[i..i + |Source(x)|] == Source(x)
    ensures |Source(x)| == |x.t| && Arity(x) == 0
    ensures Render(fmt, i, k, args) == x.t + Render(fmt, i + |x.t|, k, args)
    ensures StaysInside(fmt, i, k, args) == StaysInside(fmt, i + |x.t|, k, args)
  {
    hide Render, StaysInside;
    forall y | i <= y < i + |x.t| ensures fmt[y] != '%' {
      assert fmt[y] == x.t[y - i];
    }
    PlainRun(fmt, i, i + |x.t|, k, args);
    PlainStays(fmt, i, i + |x.t|, k, args);
  }

  lemma {:induction false} PlainStays(fmt: string, i: nat, j: nat, k: nat, args: Args)
    requires i <= j <= |fmt| && forall y :: i <= y < j ==> fmt[y] != '%'
    ensures StaysInside(fmt, i, k, args) == StaysInside(fmt, j, k, args)
    decreases j - i
  {
    hide Scan;
    if i < j { PlainStays(fmt, i + 1, j, k, args); }
  }

  lemma EscapePiece(fmt: string, i: nat, k: nat, x: Piece, args: Args)
    requires x.Escape? && Proper(x) && Harmless(x, k, args)
    requires i + |Source(x)| <= |fmt| && fmt[i..i + |Source(x)|] == Source(x)
    ensures Render(fmt, i, k, args) == EscapeText(x, k, args) + Render(fmt, i + |Source(x)|, k + Arity(x), args)
    ensures StaysInside(fmt, i, k, args) == StaysInside(fmt, i + |Source(x)|, k + Arity(x), args)
  {
    hide Source, EscapeText, Scan, Convert, SpecOf, Strays, Consumed, Harmless, Arity;
    EscapeScans(fmt, i, x, k, args);
    ConvertIsText(x, k, args);
    assert IsConversion(x.conv);
  }

  // ---------- numeric fields between plain texts ----------

  // "%d", "%5x", "%05u", "%-8o": an optional flag, a width (0 for none) and a
  // numeric conversion.
  function Field(pad: char, w: nat, c: char): Piece
  {
    Escape(false, pad, if w == 0 then Absent else Fixed(w), Absent, 0, c)
  }

  // What such a field prints for the argument with bits x.
  function FieldText(pad: char, w: nat, c: char, x: nat): string
  {
    SignedText(if c == 'd' then Int32(x) else Unsigned32(x), BaseOf(c), if w == 0 then -1 else w, pad)
  }

  datatype Column = Column(before: string, pad: char, w: nat, c: char)

  function Columns(cs: seq<Column>): seq<Piece>
  {
    if cs == [] then [] else [Plain(cs[0].before), Field(cs[0].pad, cs[0].w, cs[0].c)] + Columns(cs[1..])
  }

  // The texts in order, the fields for arguments i, i + 1, ...
  function ColumnsText(cs: seq<Column>, i: nat, args: Args): string
    requires i <= |cs|
    decreases |cs| - i
  {
    if i == |cs| then ""
    else cs[i].before + FieldText(cs[i].pad, cs[i].w, cs[i].c, args.word(i)) + ColumnsText(cs, i + 1, args)
  }

  lemma FieldPrints(pad: char, w: nat, c: char, k: nat, args: Args)
    requires IsNumeric(c)
    ensures Harmless(Field(pad, w, c), k, args) && Arity(Field(pad, w, c)) == 1
    ensures EscapeText(Field(pad, w, c), k, args) == FieldText(pad, w, c, args.word(k))
  {
    hide SignedText, Int32, Unsigned32;
  }

  lemma PlainPrints(t: string, k: nat, args: Args)
    ensures Harmless(Plain(t), k, args) && Arity(Plain(t)) == 0
  {
  }

  lemma {:induction false} ColumnsPrint(cs: seq<Column>, i: nat, args: Args)
    requires i <= |cs| && forall x :: x in cs ==> IsNumeric(x.c)
    ensures AllHarmless(Columns(cs[i..]), i, args)
    ensures Printed(Columns(cs[i..]), i, args) == ColumnsText(cs, i, args)
    decreases |cs| - i
  {
    hide EscapeText, FieldText, Harmless, Arity;
    if i < |cs| {
      var x, rest := cs[i], cs[i..];
      var f, t := Field(x.pad, x.w, x.c), Columns(rest[1..]);
      assert rest[0] == x && rest[1..] == cs[i + 1..] && x in cs;
      ColumnsPrint(cs, i + 1, args);
      FieldPrints(x.pad, x.w, x.c, i, args);
      assert Columns(rest) == [Plain(x.before)] + ([f] + t);
      PrintedFirst(f, t, i, args);
      PlainPrints(x.before, i, args);
      PrintedFirst(Plain(x.before), [f] + t, i, args);
      assert x.before + (FieldText(x.pad, x.w, x.c, args.word(i)) + ColumnsText(cs, i + 1, args)) == ColumnsText(cs, i, args);
    }
  }

  lemma PrintedFirst(x: Piece, xs: seq<Piece>, k: nat, args: Args)
    requires Harmless(x, k, args) && AllHarmless(xs, k + Arity(x), args)
    ensures AllHarmless([x] + xs, k, args)
    ensures Printed([x] + xs, k, args) == (if x.Plain? then x.t else EscapeText(x, k, args)) + Printed(xs, k + Arity(x), args)
  {
    hide EscapeText, Harmless, Arity;
    assert ([x] + xs)[1..] == xs;
  }

  // "entry  %08x (virt)  %08x (phys)": each field prints the argument at its own
  // position, whatever the fields, widths and texts are.
  lemma FieldsInOrder(cs: seq<Column>, args: Args)
    requires forall x :: x in cs ==> '%' !in x.before && '\0' !in x.before && IsPad(x.pad) && x.w < 0x8000_0000 && IsNumeric(x.c)
    ensures Render(Format(Columns(cs)), 0, 0, args) == ColumnsText(cs, 0, args)
    ensures StaysInside(Format(Columns(cs)), 0, 0, args)
  {
    hide Render, StaysInside, Format, Printed, ColumnsText;
    ColumnsPrint(cs, 0, args);
    assert cs[0..] == cs;
    ColumnsProper(cs);
    assert Format(Columns(cs))[0..] == Format(Columns(cs));
    PiecesRender(Format(Columns(cs)), 0, 0, Columns(cs), args);
  }

  lemma {:induction false} ColumnsProper(cs: seq<Column>)
    requires forall x :: x in cs ==> '%' !in x.before && '\0' !in x.before && IsPad(x.pad) && x.w < 0x8000_0000 && IsNumeric(x.c)
    ensures forall y :: y in Columns(cs) ==> Proper(y)
    decreases |cs|
  {
    if cs != [] {
      assert cs[0] in cs && Proper(Plain(cs[0].before)) && Proper(Field(cs[0].pad, cs[0].w, cs[0].c));
      ColumnsProper(cs[1..]);
    }
  }
}
