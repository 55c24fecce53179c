// What strtol of lib/string.c reads, from how its input is spelled.
module Parsing {
  import opened Numbers

  // A digit as it may be written.
  datatype Digit = Digit(d: nat, upper: bool)

  function Letter(x: Digit): char
    requires x.d < 36
  {
    if x.d < 10 then '0' + x.d as char
    else if x.upper then 'A' + (x.d - 10) as char
    else 'a' + (x.d - 10) as char
  }

  function Written(ds: seq<Digit>): (t: string)
    requires forall x :: x in ds ==> x.d < 36
    ensures |t| == |ds| && forall i :: 0 <= i < |ds| ==> t[i] == Letter(ds[i])
  {
    if ds == [] then "" else Written(ds[..|ds| - 1]) + [Letter(ds[|ds| - 1])]
  }

  // The number the digits denote in base b.
  function Denoted(ds: seq<Digit>, b: nat): int
  {
    if ds == [] then 0 else Denoted(ds[..|ds| - 1], b) * b + ds[|ds| - 1].d
  }

  // c cannot be a digit of base b.
  ghost predicate NoDigit(c: char, b: nat) { forall x: Digit :: x.d < b && x.d < 36 ==> Letter(x) != c }

  // The prefix and the base it makes of the one asked for; after is what follows.
  predicate Prefixed(base: nat, prefix: string, b: nat, after: string)
  {
    || (prefix == "0x" && (base == 0 || base == 16) && b == 16)
    || (prefix == "0" && base == 0 && b == 8 && after != "" && after[0] != 'x')
    || (prefix == "" && base == 0 && b == 10 && after != "" && after[0] != '0')
    || (prefix == "" && base == 16 && b == 16 && !(|after| >= 2 && after[0] == '0' && after[1] == 'x'))
    || (prefix == "" && 2 <= base <= 36 && base != 16 && b == base)
  }

  lemma LetterValue(x: Digit)
    requires x.d < 36
    ensures DigitValue(Letter(x)) == x.d
  {
    assert ('a' + (if x.d < 10 then 0 else x.d - 10) as char) as int == 97 + (if x.d < 10 then 0 else x.d - 10);
    assert ('A' + (if x.d < 10 then 0 else x.d - 10) as char) as int == 65 + (if x.d < 10 then 0 else x.d - 10);
  }

  lemma LetterIsDigit(x: Digit, b: nat)
    requires x.d < 36 && x.d < b
    ensures IsDigit(Letter(x), b)
  {
    LetterValue(x);
  }

  lemma DigitIsLetter(c: char, b: nat)
    requires IsDigit(c, b)
    ensures !NoDigit(c, b)
  {
    var x := Digit(DigitValue(c), 'A' <= c <= 'Z');
    assert Letter(x) == c;
  }

  lemma {:induction false} WrittenValue(ds: seq<Digit>, b: nat)
    requires forall x :: x in ds ==> x.d < 36
    ensures Value(Written(ds), b) == Denoted(ds, b)
    decreases |ds|
  {
    hide Value, DigitValue, Letter;
    if ds != [] {
      var n := |ds| - 1;
      assert ds[n] in ds && forall x :: x in ds[..n] ==> x in ds;
      WrittenValue(ds[..n], b);
      LetterValue(ds[n]);
      ValueSnoc(Written(ds[..n]), Letter(ds[n]), b);
    } else {
      ValueEmpty(b);
    }
  }

  // Where the number's parts stand.
  predicate Laid(s: string, x: string, y: string, z: string, t: string, rest: string)
  {
    && |s| == |x| + |y| + |z| + |t| + |rest|
    && (forall k :: 0 <= k < |x| ==> s[k] == x[k])
    && (forall k :: 0 <= k < |y| ==> s[|x| + k] == y[k])
    && (forall k :: 0 <= k < |z + (t + rest)| ==> s[|x| + |y| + k] == (z + (t + rest))[k])
    && (forall k :: 0 <= k < |rest| ==> s[|x| + |y| + |z| + |t| + k] == rest[k])
    && s[|x| + |y| + |z|..|x| + |y| + |z| + |t|] == t
  }

  lemma Parts(x: string, y: string, z: string, t: string, rest: string)
    ensures Laid(x + y + z + t + rest, x, y, z, t, rest)
  {
    var s, u := x + y + z + t + rest, z + (t + rest);
    assert s == x + y + u;
  }

  lemma HeadReads(s: string, x: nat, sign: string, prefix: string, after: string, base: nat, b: nat)
    requires Terminated(s) && Terminated(after) && (sign == "" || sign == "+" || sign == "-")
    requires |s| == x + |sign| + |prefix + after| && Prefixed(base, prefix, b, after)
    requires forall k :: 0 <= k < x ==> s[k] == ' ' || s[k] == '\t'
    requires forall k :: 0 <= k < |sign| ==> s[x + k] == sign[k]
    requires forall k :: 0 <= k < |prefix + after| ==> s[x + |sign| + k] == (prefix + after)[k]
    requires sign == "" ==> (prefix + after)[0] !in " \t+-"
    ensures HeadOf(s, base) == Head(x + |sign| + |prefix|, sign == "-", b)
  {
    var j, u := x + |sign|, prefix + after;
    assert s[j] == s[j + 0] == u[0];
    if sign != "" { assert s[x] == s[x + 0] == sign[0]; }
    BlanksSkipped(s, 0, x);
    if |u| >= 2 { assert s[j + 1] == u[1]; }
    if prefix == "0" { assert u[0] == '0' && u[1] == after[0]; }
    if prefix == "0x" { assert u[0] == '0' && u[1] == 'x'; }
    if prefix == "" { assert u == after; }
  }

  // After any blanks and tabs, a sign or none and the prefix, strtol reads the
  // digits, in either case, and stops at the first character that is none: the
  // number with its sign, modulo 2^32.
  lemma StrtolReads(blanks: string, sign: string, prefix: string, ds: seq<Digit>, rest: string, base: nat, b: nat)
    requires forall c :: c in blanks ==> c == ' ' || c == '\t'
    requires sign == "" || sign == "+" || sign == "-"
    requires forall x :: x in ds ==> x.d < b && x.d < 36
    requires Terminated(rest) && NoDigit(rest[0], b) && Prefixed(base, prefix, b, Written(ds) + rest)
    requires sign == "" && prefix == "" && ds == [] ==> rest[0] !in " \t+-"
    ensures var s := blanks + sign + prefix + Written(ds) + rest;
            var n := if sign == "-" then -Denoted(ds, b) else Denoted(ds, b);
            && Terminated(s) && StrtolEnd(s, base) == |s| - |rest|
            && -0x8000_0000 <= StrtolValue(s, base) < 0x8000_0000
            && (StrtolValue(s, base) - n) % 0x1_0000_0000 == 0
  {
    hide Denoted, Value, HeadOf, NoDigit, Prefixed, StrtolEnd, StrtolValue, Laid;
    var s := blanks + sign + prefix + Written(ds) + rest;
    Parts(blanks, sign, prefix, Written(ds), rest);
    assert s[|s| - 1] == rest[|rest| - 1];
    ReadsLaid(s, blanks, sign, prefix, ds, rest, base, b);
  }

  lemma ReadsLaid(s: string, blanks: string, sign: string, prefix: string, ds: seq<Digit>, rest: string, base: nat, b: nat)
    requires forall c :: c in blanks ==> c == ' ' || c == '\t'
    requires sign == "" || sign == "+" || sign == "-"
    requires forall x :: x in ds ==> x.d < b && x.d < 36
    requires Terminated(rest) && NoDigit(rest[0], b) && Prefixed(base, prefix, b, Written(ds) + rest)
    requires sign == "" && prefix == "" && ds == [] ==> rest[0] !in " \t+-"
    requires Terminated(s) && Laid(s, blanks, sign, prefix, Written(ds), rest)
    ensures var n := if sign == "-" then -Denoted(ds, b) else Denoted(ds, b);
            && StrtolEnd(s, base) == |s| - |rest|
            && -0x8000_0000 <= StrtolValue(s, base) < 0x8000_0000
            && (StrtolValue(s, base) - n) % 0x1_0000_0000 == 0
  {
    hide Denoted, Value, HeadOf, NoDigit, Wrap, Prefixed, RunEnd, Letter, Written;
    var at := |blanks| + |sign| + |prefix|;
    assert s[at + |ds| + 0] == rest[0];
    DigitsFrom(s, at, ds, b);
    FirstIsNoSign(base, prefix, ds, rest, b);
    BlankChars(s, blanks);
    HeadReads(s, |blanks|, sign, prefix, Written(ds) + rest, base, b);
    WrapCongruent(if sign == "-" then -Denoted(ds, b) else Denoted(ds, b));
  }

  lemma BlankChars(s: string, blanks: string)
    requires |blanks| <= |s| && forall k :: 0 <= k < |blanks| ==> s[k] == blanks[k]
    requires forall c :: c in blanks ==> c == ' ' || c == '\t'
    ensures forall k :: 0 <= k < |blanks| ==> s[k] == ' ' || s[k] == '\t'
  {
    forall k | 0 <= k < |blanks| ensures s[k] == ' ' || s[k] == '\t' {
      assert blanks[k] in blanks;
    }
  }

  // The digits from at on, and a character that is none after them.
  lemma DigitsFrom(s: string, at: nat, ds: seq<Digit>, b: nat)
    requires forall x :: x in ds ==> x.d < b && x.d < 36
    requires at + |ds| < |s| && s[at..at + |ds|] == Written(ds) && NoDigit(s[at + |ds|], b)
    ensures RunEnd(s, at, b) == at + |ds| && Value(s[at..at + |ds|], b) == Denoted(ds, b)
  {
    hide Denoted, Value, NoDigit, Letter, IsDigit, RunEnd;
    forall k | at <= k < at + |ds| ensures IsDigit(s[k], b) {
      assert s[k] == Written(ds)[k - at] == Letter(ds[k - at]) && ds[k - at] in ds;
      LetterIsDigit(ds[k - at], b);
    }
    if IsDigit(s[at + |ds|], b) { DigitIsLetter(s[at + |ds|], b); }
    RunToEnd(s, at, at + |ds|, b);
    WrittenValue(ds, b);
  }

  lemma FirstIsNoSign(base: nat, prefix: string, ds: seq<Digit>, rest: string, b: nat)
    requires rest != "" && forall x :: x in ds ==> x.d < 36
    requires Prefixed(base, prefix, b, Written(ds) + rest)
    ensures prefix != "" || ds != [] ==> (prefix + (Written(ds) + rest))[0] !in " \t+-"
    ensures prefix == "" && ds == [] ==> (prefix + (Written(ds) + rest))[0] == rest[0]
  {
    var u := prefix + (Written(ds) + rest);
    if prefix != "" {
      assert u[0] == prefix[0] == '0';
    } else if ds != [] {
      assert u[0] == Written(ds)[0] == Letter(ds[0]) && ds[0] in ds;
      LetterValue(ds[0]);
    }
  }

  lemma WrapCongruent(x: int)
    ensures -0x8000_0000 <= Wrap(x) < 0x8000_0000 && (Wrap(x) - x) % 0x1_0000_0000 == 0
  {
  }
}
