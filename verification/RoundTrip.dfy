// From a format string through vsnprintf into a buffer and back through strtol.
module RoundTrip {
  import opened Numbers
  import opened Printf
  import opened Formats

  lemma {:induction false} DigitsAreDigits(n: nat)
    ensures forall i :: 0 <= i < |Digits(n, 10)| ==> Decimal(Digits(n, 10)[i])
    decreases n
  {
    if n >= 10 { DigitsAreDigits(n / 10); }
  }

  lemma FieldIsCString(pad: char, w: nat, c: char)
    requires IsPad(pad) && IsNumeric(c)
    ensures '\0' !in Source(Field(pad, w, c))
  {
    DigitsAreDigits(w);
    hide Digits;
    assert '\0' !in SizeText(Field(pad, w, c).width);
    hide SizeText;
  }

  // The field prints exactly its first argument.
  lemma FieldRenders(pad: char, w: nat, c: char, args: Args)
    requires IsPad(pad) && IsNumeric(c) && w < 0x8000_0000
    ensures Render(Source(Field(pad, w, c)), 0, 0, args) == FieldText(pad, w, c, args.word(0))
    ensures StaysInside(Source(Field(pad, w, c)), 0, 0, args)
  {
    hide Source, Render, StaysInside, EscapeText, FieldText, Field, Harmless, Arity;
    var f := Field(pad, w, c);
    FieldPrints(pad, w, c, 0, args);
    assert Proper(f) by { FieldIsProper(pad, w, c); }
    assert Format([f]) == Source(f) + Format([]) == Source(f);
    assert Source(f)[0..] == Source(f);
    PrintedFirst(f, [], 0, args);
    PiecesRender(Source(f), 0, 0, [f], args);
    assert f.Escape? by { FieldIsProper(pad, w, c); }
    assert Printed([f], 0, args) == FieldText(pad, w, c, args.word(0)) + Printed([], 1, args);
  }

  lemma FieldIsProper(pad: char, w: nat, c: char)
    requires IsPad(pad) && IsNumeric(c) && w < 0x8000_0000
    ensures Proper(Field(pad, w, c)) && Field(pad, w, c).Escape?
  {
  }

  // vsnprintf(buf, n, "%...", x) and then strtol(buf, &end, base): for every
  // buffer that holds the text, the number comes back to the last character,
  // exactly when it fits a long and the padding is harmless.
  method PrintThenParse(buf: array<char>, n: int, pad: char, w: nat, c: char, args: Args)
    returns (v: int, end: nat, rc: int)
    requires IsPad(pad) && IsNumeric(c) && w < 0x8000_0000
    requires |FieldText(pad, w, c, args.word(0))| < n <= buf.Length
    modifies buf
    ensures rc == |FieldText(pad, w, c, args.word(0))| && buf[rc] == '\0'
    ensures var x := if c == 'd' then Int32(args.word(0)) else Unsigned32(args.word(0));
            (v == x && end == rc)
            <==> (-0x8000_0000 <= x <= 0x7FFF_FFFF && PadReadsBack(x, BaseOf(c), if w == 0 then -1 else w, pad))
  {
    hide Source, Render, StaysInside, PadReadsBack, SignedText, StrtolValue, StrtolEnd, Int32, Unsigned32;
    FieldIsCString(pad, w, c);
    FieldRenders(pad, w, c, args);
    ghost var text := FieldText(pad, w, c, args.word(0));
    var ok;
    ok, rc := Vsnprintf(buf, n, Source(Field(pad, w, c)), args);
    assert buf[..rc + 1] == text + ['\0'];
    v, end := Strtol(buf[..rc + 1], BaseOf(c));
    ghost var x := if c == 'd' then Int32(args.word(0)) else Unsigned32(args.word(0));
    PrintedReadsBackIff(x, BaseOf(c), if w == 0 then -1 else w, pad);
  }
}
