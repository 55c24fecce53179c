// Printing a number (printnum, lib/printfmt.c) and reading one back (strtol,
// lib/string.c).
module Numbers {
  // A 32-bit signed long, with two's-complement wrap-around.
  function Wrap(x: int): (w: int)
    ensures -0x8000_0000 <= w < 0x8000_0000
  {
    (x + 0x8000_0000) % 0x1_0000_0000 - 0x8000_0000
  }

  predicate Base(b: int) { 2 <= b <= 16 }

  const DIGITS := "0123456789abcdef"

  // The digits of n in the given base, most significant first.
  function Digits(n: nat, b: int): (s: string)
    requires Base(b)
    ensures |s| >= 1
  {
    if n < b then [DIGITS[n]] else Digits(n / b, b) + [DIGITS[n % b]]
  }

  function Repeat(c: char, n: int): (s: string)
    ensures |s| == if n > 0 then n else 0
    ensures forall i :: 0 <= i < |s| ==> s[i] == c
  {
    if n <= 0 then [] else [c] + Repeat(c, n - 1)
  }

  // What printnum prints: the digits, padded on the left to the width.
  function NumText(n: nat, b: int, width: int, pad: char): (s: string)
    requires Base(b)
  {
    Repeat(pad, width - |Digits(n, b)|) + Digits(n, b)
  }

  // ---------- the parser ----------

  // The value of a character as a digit of any base; -1 for none.
  function DigitValue(c: char): (d: int)
    ensures -1 <= d < 36
  {
    if '0' <= c <= '9' then c as int - '0' as int
    else if 'a' <= c <= 'z' then c as int - 'a' as int + 10
    else if 'A' <= c <= 'Z' then c as int - 'A' as int + 10
    else -1
  }

  predicate IsDigit(c: char, b: int) { 0 <= DigitValue(c) < b }

  // The end of the run of base-b digits that starts at i.
  function RunEnd(s: string, i: nat, b: int): (j: nat)
    requires i <= |s|
    ensures i <= j <= |s| && (forall k :: i <= k < j ==> IsDigit(s[k], b)) && (j < |s| ==> !IsDigit(s[j], b))
    decreases |s| - i
  {
    if i < |s| && IsDigit(s[i], b) then RunEnd(s, i + 1, b) else i
  }

  // The number a digit string denotes.
  function Value(s: string, b: int): int
    decreases |s|
  {
    if s == [] then 0 else Value(s[..|s| - 1], b) * b + DigitValue(s[|s| - 1])
  }

  predicate Terminated(s: string) { |s| > 0 && s[|s| - 1] == '\0' }

  function SkipBlanks(s: string, i: nat): (j: nat)
    requires i <= |s|
    ensures i <= j <= |s|
    decreases |s| - i
  {
    if i < |s| && (s[i] == ' ' || s[i] == '\t') then SkipBlanks(s, i + 1) else i
  }

  // Where strtol's digits start, the sign, and the base it settles on.
  datatype Head = Head(at: nat, neg: bool, base: int)

  function HeadOf(s: string, base: int): (h: Head)
    requires Terminated(s)
    ensures h.at < |s|
  {
    BlanksStop(s, 0);
    var i := SkipBlanks(s, 0);
    var neg := s[i] == '-';
    var j := if neg || s[i] == '+' then i + 1 else i;
    if (base == 0 || base == 16) && s[j] == '0' && s[j + 1] == 'x' then Head(j + 2, neg, 16)
    else if base == 0 && s[j] == '0' then Head(j + 1, neg, 8)
    else if base == 0 then Head(j, neg, 10)
    else Head(j, neg, base)
  }

  lemma {:induction false} BlanksStop(s: string, i: nat)
    requires Terminated(s) && i < |s|
    ensures SkipBlanks(s, i) < |s| && s[SkipBlanks(s, i)] != ' ' && s[SkipBlanks(s, i)] != '\t'
    decreases |s| - i
  {
    if s[i] == ' ' || s[i] == '\t' {
      BlanksStop(s, i + 1);
    }
  }

  // What strtol returns, with the index it leaves in endptr.
  function StrtolValue(s: string, base: int): int
    requires Terminated(s)
  {
    var h := HeadOf(s, base);
    var v := Value(s[h.at..RunEnd(s, h.at, h.base)], h.base);
    Wrap(if h.neg then -v else v)
  }

  function StrtolEnd(s: string, base: int): nat
    requires Terminated(s)
  {
    RunEnd(s, HeadOf(s, base).at, HeadOf(s, base).base)
  }

  // Wrapping at every step is wrapping once.
  lemma WrapStep(v: int, b: int, d: int)
    ensures Wrap(Wrap(v) * b + d) == Wrap(v * b + d)
  {
    var q := (v + 0x8000_0000) / 0x1_0000_0000;
    assert Wrap(v) == v - q * 0x1_0000_0000;
    assert Wrap(v) * b + d == v * b + d - (q * b) * 0x1_0000_0000 by {
      assert (v - q * 0x1_0000_0000) * b == v * b - q * 0x1_0000_0000 * b;
    }
    WrapShift(v * b + d, q * b);
  }

  lemma WrapShift(x: int, k: int)
    ensures Wrap(x - k * 0x1_0000_0000) == Wrap(x)
  {
  }

  // strtol's blanks, sign and prefix, lib/string.c:245-261.
  method ReadHead(s: string, base: int) returns (i: nat, neg: bool, b: int)
    requires Terminated(s)
    ensures HeadOf(s, base) == Head(i, neg, b) && i < |s|
  {
    b, i, neg := base, 0, false;
    BlanksStop(s, 0);
    while s[i] == ' ' || s[i] == '\t'
      invariant i < |s| && SkipBlanks(s, i) == SkipBlanks(s, 0)
      decreases |s| - i
    {
      BlanksStop(s, i);
      i := i + 1;
    }
    if s[i] == '+' {
      i := i + 1;
    } else if s[i] == '-' {
      i, neg := i + 1, true;
    }
    if (b == 0 || b == 16) && s[i] == '0' && s[i + 1] == 'x' {
      i, b := i + 2, 16;
    } else if b == 0 && s[i] == '0' {
      i, b := i + 1, 8;
    } else if b == 0 {
      b := 10;
    }
  }

  // One more digit of the run at start.
  lemma ValueStep(s: string, b: int, start: nat, i: nat)
    requires start <= i < |s|
    ensures Value(s[start..i + 1], b) == Value(s[start..i], b) * b + DigitValue(s[i])
  {
    var t := s[start..i + 1];
    assert t[..|t| - 1] == s[start..i];
  }

  // strtol, stepping through the string. Its long wraps at every step.
  method Strtol(s: string, base: int) returns (v: int, end: nat)
    requires Terminated(s)
    ensures v == StrtolValue(s, base) && end == StrtolEnd(s, base) && end < |s|
  {
    hide Wrap, Value, HeadOf;
    var i, neg, b := ReadHead(s, base);
    ghost var start := i;
    v := 0;
    assert v == Wrap(Value(s[start..start], b)) by { WrapZero(s[start..start], b); }
    while true
      invariant start <= i < |s| && RunEnd(s, i, b) == RunEnd(s, start, b)
      invariant v == Wrap(Value(s[start..i], b))
      decreases |s| - i
    {
      var dig := DigitValue(s[i]);
      if dig < 0 || dig >= b {
        break;
      }
      WrapStep(Value(s[start..i], b), b, dig);
      ValueStep(s, b, start, i);
      v := Wrap(v * b + dig);
      i := i + 1;
    }
    end := i;
    if neg {
      WrapNegates(Value(s[start..i], b));
      v := Wrap(-v);
    }
  }

  lemma WrapZero(s: string, b: int)
    requires s == []
    ensures Wrap(Value(s, b)) == 0
  {
  }

  lemma WrapNegates(x: int)
    ensures Wrap(-Wrap(x)) == Wrap(-x)
  {
    WrapStep(x, -1, 0);
    assert Wrap(x) * -1 + 0 == -Wrap(x) && x * -1 + 0 == -x;
  }

  // ---------- print, then parse ----------

  lemma DigitsRead(d: nat)
    requires d < 16
    ensures DigitValue(DIGITS[d]) == d && DIGITS[d] != 'x'
  {
    assert DIGITS[..10] == "0123456789" && DIGITS[10..] == "abcdef";
    if d < 10 { assert DIGITS[d] == DIGITS[..10][d]; } else { assert DIGITS[d] == DIGITS[10..][d - 10]; }
  }

  // A nonempty string of base-b digits.
  predicate Digital(t: string, b: int)
  {
    |t| > 0 && forall i :: 0 <= i < |t| ==> IsDigit(t[i], b) && t[i] != 'x'
  }

  lemma ValueSnoc(s: string, c: char, b: int)
    ensures Value(s + [c], b) == Value(s, b) * b + DigitValue(c)
  {
    assert (s + [c])[..|s|] == s;
  }

  lemma {:induction false} ValueOfDigits(n: nat, b: int)
    requires Base(b)
    ensures Value(Digits(n, b), b) == n && Digital(Digits(n, b), b)
    decreases n
  {
    hide Value, DigitValue, Digits;
    DigitsUnfold(n, b);
    if n < b {
      DigitsRead(n);
      ValueEmpty(b);
      AppendDigit([], n, b, 0);
    } else {
      var q, r := n / b, n % b;
      ValueOfDigits(q, b);
      DigitsRead(r);
      AppendDigit(Digits(q, b), r, b, q);
    }
  }

  lemma DigitsUnfold(n: nat, b: int)
    requires Base(b)
    ensures n < b ==> n < 16 && Digits(n, b) == [] + [DIGITS[n]]
    ensures n >= b ==> n / b < n && n % b < 16 && Digits(n, b) == Digits(n / b, b) + [DIGITS[n % b]]
    ensures n / b * b + n % b == n && n % b < b
  {
    DivMod(n, b);
  }

  lemma AppendDigit(s: string, d: nat, b: int, q: nat)
    requires d < b <= 16 && Value(s, b) == q && (s == [] || Digital(s, b))
    requires DigitValue(DIGITS[d]) == d && DIGITS[d] != 'x'
    ensures Value(s + [DIGITS[d]], b) == q * b + d && Digital(s + [DIGITS[d]], b)
  {
    ValueSnoc(s, DIGITS[d], b);
    hide Value, DigitValue;
  }

  lemma DivMod(n: nat, b: int)
    requires b > 0
    ensures n / b * b + n % b == n
  {
  }

  lemma ValueEmpty(b: int)
    ensures Value([], b) == 0
  {
  }

  lemma {:induction false} ValueOfZeros(k: int, s: string, b: int)
    ensures Value(Repeat('0', k) + s, b) == Value(s, b)
    decreases |s|, k
  {
    var t := Repeat('0', k) + s;
    if s != [] {
      assert t[..|t| - 1] == Repeat('0', k) + s[..|s| - 1];
      ValueOfZeros(k, s[..|s| - 1], b);
    } else if k > 0 {
      assert t == Repeat('0', k);
      assert t[..|t| - 1] == Repeat('0', k - 1) + [];
      ValueOfZeros(k - 1, [], b);
    }
  }

  lemma {:induction false} RunToEnd(s: string, i: nat, j: nat, b: int)
    requires i <= j < |s| && (forall k :: i <= k < j ==> IsDigit(s[k], b)) && !IsDigit(s[j], b)
    ensures RunEnd(s, i, b) == j
    decreases j - i
  {
    if i < j {
      RunToEnd(s, i + 1, j, b);
    }
  }

  lemma {:induction false} BlanksSkipped(s: string, i: nat, j: nat)
    requires i <= j < |s| && (forall k :: i <= k < j ==> s[k] == ' ' || s[k] == '\t') && s[j] != ' ' && s[j] != '\t'
    ensures SkipBlanks(s, i) == j
    decreases j - i
  {
    if i < j {
      BlanksSkipped(s, i + 1, j);
    }
  }

  // Blanks, an optional sign, digits, and the terminator.
  function Spelled(blanks: nat, neg: bool, t: string): (s: string)
    ensures Terminated(s)
  {
    Repeat(' ', blanks) + (if neg then "-" else "") + t + ['\0']
  }

  lemma SpelledAt(blanks: nat, neg: bool, t: string)
    ensures var s, at := Spelled(blanks, neg, t), blanks + (if neg then 1 else 0);
            && |s| == at + |t| + 1 && s[at + |t|] == '\0' && s[at..at + |t|] == t
            && (forall i :: 0 <= i < |t| ==> s[at + i] == t[i])
            && (forall i :: 0 <= i < blanks ==> s[i] == ' ')
            && (neg ==> s[blanks] == '-')
  {
  }

  lemma SpelledHead(blanks: nat, neg: bool, t: string, b: int)
    requires (b == 8 || b == 10 || b == 16) && Digital(t, b)
    ensures HeadOf(Spelled(blanks, neg, t), b) == Head(blanks + (if neg then 1 else 0), neg, b)
  {
    var s, at := Spelled(blanks, neg, t), blanks + (if neg then 1 else 0);
    SpelledAt(blanks, neg, t);
    hide Spelled;
    assert IsDigit(t[0], b) && s[at + 0] == t[0];
    BlanksSkipped(s, 0, blanks);
    if |t| > 1 { assert s[at + 1] == t[1]; }
  }

  lemma NulIsNoDigit(b: int)
    ensures !IsDigit('\0', b)
  {
  }

  // A digit string after blanks and an optional minus is read back whole.
  lemma ReadsBack(blanks: nat, neg: bool, t: string, b: int)
    requires (b == 8 || b == 10 || b == 16) && Digital(t, b)
    ensures var s := Spelled(blanks, neg, t);
            StrtolValue(s, b) == Wrap(if neg then -Value(t, b) else Value(t, b)) && StrtolEnd(s, b) == |s| - 1
  {
    hide Value, Wrap, HeadOf, Spelled, DigitValue, RunEnd;
    var s, at := Spelled(blanks, neg, t), blanks + (if neg then 1 else 0);
    SpelledAt(blanks, neg, t);
    SpelledHead(blanks, neg, t, b);
    assert !IsDigit('\0', b) by { NulIsNoDigit(b); }
    forall k | at <= k < at + |t| ensures IsDigit(s[k], b) { assert s[at + (k - at)] == t[k - at]; }
    RunToEnd(s, at, at + |t|, b);
  }

  lemma ZerosDigital(k: int, t: string, b: int)
    requires Base(b) && Digital(t, b)
    ensures Digital(Repeat('0', k) + t, b) && Value(Repeat('0', k) + t, b) == Value(t, b)
  {
    ValueOfZeros(k, t, b);
    hide Value;
  }

  lemma BlankPadded(k: int, d: string)
    ensures Repeat(' ', k) + d + ['\0'] == Spelled(if k > 0 then k else 0, false, d)
  {
    RepeatNegative(' ', k);
    assert Repeat(' ', k) + "" == Repeat(' ', k);
  }

  lemma ZeroPadded(t: string, neg: bool)
    ensures (if neg then "-" else "") + t + ['\0'] == Spelled(0, neg, t)
  {
    assert Repeat(' ', 0) + (if neg then "-" else "") == (if neg then "-" else "");
  }

  // A sign, zeros and digits, or blanks and digits, read back.
  lemma PaddedRoundTrip(d: string, b: int, k: int, pad: char, neg: bool)
    requires (b == 8 || b == 10 || b == 16) && Digital(d, b)
    requires k <= 0 || pad == '0' || (pad == ' ' && !neg)
    ensures var s := (if neg then "-" else "") + (Repeat(pad, k) + d) + ['\0'];
            && Terminated(s) && StrtolEnd(s, b) == |s| - 1
            && StrtolValue(s, b) == Wrap(if neg then -Value(d, b) else Value(d, b))
  {
    hide Value, StrtolValue, StrtolEnd, Spelled, Wrap, Digital, Repeat;
    if k > 0 && pad == ' ' {
      BlankPadded(k, d);
      assert "" + (Repeat(' ', k) + d) == Repeat(' ', k) + d;
      ReadsBack(k, false, d, b);
    } else {
      ZerosDigital(k, d, b);
      NoPad(pad, k);
      ZeroPadded(Repeat('0', k) + d, neg);
      ReadsBack(0, neg, Repeat('0', k) + d, b);
    }
  }

  lemma RepeatNegative(c: char, k: int)
    ensures Repeat(c, if k > 0 then k else 0) == Repeat(c, k)
  {
  }

  lemma NoPad(pad: char, k: int)
    ensures k <= 0 || pad == '0' ==> Repeat(pad, k) == Repeat('0', k)
  {
  }

  // A minus sign that no digit follows is all that is read.
  lemma StopsAfterSign(s: string, b: int)
    requires |s| > 2 && Terminated(s) && s[0] == '-' && !IsDigit(s[1], b) && s[1] != '0'
    requires b == 8 || b == 10 || b == 16
    ensures StrtolValue(s, b) == 0 && StrtolEnd(s, b) == 1
  {
    BlanksSkipped(s, 0, 0);
    assert HeadOf(s, b) == Head(1, true, b);
    RunToEnd(s, 1, 1, b);
    assert s[1..1] == [];
  }

  // "-0...": the padding character '-' read as a sign.
  lemma MinusPadded(d: string, b: int)
    requires (b == 8 || b == 10 || b == 16) && Digital(d, b)
    ensures var s := "" + (Repeat('-', 1) + d) + ['\0'];
            Terminated(s) && StrtolEnd(s, b) == |s| - 1 && StrtolValue(s, b) == Wrap(-Value(d, b))
  {
    hide Value, StrtolValue, StrtolEnd, Spelled, Wrap, Digital;
    ReadsBack(0, true, d, b);
    ZeroPadded(d, true);
    assert Repeat('-', 1) == "-";
    assert "" + (Repeat('-', 1) + d) == "-" + d;
  }

  // What %d, %u, %o and %x print for n: the sign, then the padded magnitude.
  function SignedText(n: int, b: int, width: int, pad: char): string
    requires Base(b)
  {
    (if n < 0 then "-" else "") + NumText(if n < 0 then -n else n, b, width, pad)
  }

  // Whether nothing but the number is in the way of reading it back: no padding,
  // zeros, blanks before a number without a sign, or the one '-' that "%-2d"
  // prints before 0.
  predicate PadReadsBack(n: int, b: int, width: int, pad: char)
    requires Base(b)
  {
    || width <= |Digits(if n < 0 then -n else n, b)| || pad == '0'
    || (pad == ' ' && n >= 0) || (pad == '-' && n == 0 && width == 2)
  }

  // Printing then parsing: strtol in the same base reads the text to its end as
  // the number printed, exactly when the number fits a long and the padding is
  // harmless; for every number, width and padding character of vprintfmt.
  lemma PrintedReadsBackIff(n: int, b: int, width: int, pad: char)
    requires (b == 8 || b == 10 || b == 16) && (pad == '0' || pad == ' ' || pad == '-')
    ensures var s := SignedText(n, b, width, pad) + ['\0'];
            (StrtolValue(s, b) == n && StrtolEnd(s, b) == |s| - 1)
            <==> (-0x8000_0000 <= n <= 0x7FFF_FFFF && PadReadsBack(n, b, width, pad))
  {
    hide Digits, Value, StrtolValue, StrtolEnd, Wrap, Digital, Spelled, Repeat;
    var neg, a := n < 0, if n < 0 then -n else n;
    var d := Digits(a, b);
    var k := width - |d|;
    var s := SignedText(n, b, width, pad) + ['\0'];
    ValueOfDigits(a, b);
    if k <= 0 || pad == '0' || (pad == ' ' && !neg) {
      PaddedRoundTrip(d, b, k, pad, neg);
      WrapIsFits(n);
    } else if pad == '-' && !neg && k == 1 {
      MinusPadded(d, b);
      MinusIsZero(n);
      OneDigit(n, b);
    } else {
      Padding(pad, k);
      assert s[0] == '-' && s[1] == pad;
      StopsAfterSign(s, b);
      assert n == 0 ==> |d| == 1 by { OneDigit(0, b); }
    }
  }

  lemma Padding(pad: char, k: int)
    requires k > 0
    ensures |Repeat(pad, k)| == k && forall i :: 0 <= i < k ==> Repeat(pad, k)[i] == pad
  {
  }

  lemma WrapIsFits(n: int)
    ensures Wrap(n) == n <==> -0x8000_0000 <= n <= 0x7FFF_FFFF
  {
  }

  lemma MinusIsZero(n: int)
    requires n >= 0
    ensures Wrap(-n) == n <==> n == 0
  {
  }

  lemma OneDigit(n: nat, b: int)
    requires Base(b)
    ensures n == 0 ==> |Digits(n, b)| == 1
  {
  }
}
