/** Options, results and the string operations the models share: trimming, decimal
    numerals, lexicographic order and splitting at a separator. */
module Text {

  datatype Option<+T> = None | Some(value: T)

  datatype Result<+T, +E> = Ok(value: T) | Err(error: E)

  /** White space in the ASCII and Latin-1 range. */
  predicate IsSpace(c: char) {
    c == ' ' || '\U{0009}' <= c <= '\U{000D}' || c == '\U{0085}' || c == '\U{00A0}'
  }

  predicate IsHyphen(c: char) { c == '-' }

  /** No character of `s` satisfies `p`. */
  predicate Free(s: string, p: char -> bool) {
    forall i :: 0 <= i < |s| ==> !p(s[i])
  }

  predicate Without(s: string, c: char) {
    forall i :: 0 <= i < |s| ==> s[i] != c
  }

  // ----- Lower case -----

  function LowerChar(c: char): char {
    if 'A' <= c <= 'Z' then (c as int + 32) as char else c
  }

  function Lower(s: string): (r: string)
    ensures |r| == |s|
    ensures forall i :: 0 <= i < |s| ==> r[i] == LowerChar(s[i])
  {
    seq(|s|, i requires 0 <= i < |s| => LowerChar(s[i]))
  }

  lemma LowerAlphabet()
    ensures Lower("ABCDEFGHIJKLMNOPQRSTUVWXYZ") == "abcdefghijklmnopqrstuvwxyz"
    ensures forall c: char :: !('A' <= c <= 'Z') ==> LowerChar(c) == c
  {}

  // ----- Trimming -----

  function TrimLeft(s: string, p: char -> bool): string {
    if s != [] && p(s[0]) then TrimLeft(s[1..], p) else s
  }

  function TrimRight(s: string, p: char -> bool): string {
    if s != [] && p(s[|s| - 1]) then TrimRight(s[..|s| - 1], p) else s
  }

  function Trim(s: string, p: char -> bool): string {
    TrimRight(TrimLeft(s, p), p)
  }

  function TrimSpace(s: string): string { Trim(s, IsSpace) }

  /** Neither end of `s` satisfies `p`. */
  predicate CleanEdges(s: string, p: char -> bool) {
    s != [] ==> !p(s[0]) && !p(s[|s| - 1])
  }

  lemma {:induction false} TrimLeftSlice(s: string, p: char -> bool) returns (k: nat)
    ensures k <= |s| && TrimLeft(s, p) == s[k..]
    ensures TrimLeft(s, p) != [] ==> !p(TrimLeft(s, p)[0])
  {
    k := 0;
    if s != [] && p(s[0]) {
      k := TrimLeftSlice(s[1..], p);
      k := k + 1;
    }
  }

  lemma {:induction false} TrimRightSlice(s: string, p: char -> bool) returns (k: nat)
    ensures k <= |s| && TrimRight(s, p) == s[..k]
    ensures CleanEdges(TrimRight(s, p), p) || (s != [] && p(s[0]))
  {
    k := |s|;
    if s != [] && p(s[|s| - 1]) { k := TrimRightSlice(s[..|s| - 1], p); }
  }

  /** Trimming yields a contiguous part of the text with clean edges, and nothing else. */
  lemma TrimIsSlice(s: string, p: char -> bool)
    ensures exists a, b :: 0 <= a <= b <= |s| && Trim(s, p) == s[a..b]
    ensures CleanEdges(Trim(s, p), p)
  {
    var l := TrimLeft(s, p);
    var a := TrimLeftSlice(s, p);
    var k := TrimRightSlice(l, p);
    hide TrimLeft, TrimRight;
    SliceOfSlice(s, a, k);
  }

  lemma SliceOfSlice(s: string, a: nat, k: nat)
    requires a <= |s| && k <= |s| - a
    ensures s[a..][..k] == s[a..a + k]
  {}

  lemma TrimKeepsClean(s: string, p: char -> bool)
    requires CleanEdges(s, p)
    ensures Trim(s, p) == s
  {}

  /** Trimming takes exactly what surrounds a text with clean edges. */
  lemma {:induction false} TrimStrips(front: string, s: string, back: string, p: char -> bool)
    requires forall i :: 0 <= i < |front| ==> p(front[i])
    requires forall i :: 0 <= i < |back| ==> p(back[i])
    requires s != [] && CleanEdges(s, p)
    ensures Trim(front + s + back, p) == s
    decreases |front| + |back|
  {
    var all := front + s + back;
    if front != [] {
      assert all[1..] == front[1..] + s + back;
      TrimStrips(front[1..], s, back, p);
    } else if back != [] {
      assert all[..|all| - 1] == front + s + back[..|back| - 1];
      TrimStrips(front, s, back[..|back| - 1], p);
    } else {
      assert all == s;
    }
  }

  predicate IsBlank(s: string) { forall i :: 0 <= i < |s| ==> IsSpace(s[i]) }

  /** White space goes at both ends and nowhere else. */
  lemma TrimSpaceReads(front: string, s: string, back: string)
    requires IsBlank(front) && IsBlank(back) && CleanEdges(s, IsSpace)
    ensures TrimSpace(front + s + back) == s
  {
    if s == "" { BlankTrims(front + back); assert front + s + back == front + back; }
    else { TrimStrips(front, s, back, IsSpace); }
  }

  lemma {:induction false} BlankTrims(s: string)
    requires IsBlank(s)
    ensures TrimSpace(s) == ""
    decreases |s|
  {
    if s != "" { BlankTrims(s[1..]); }
  }

  // ----- Lexicographic order -----

  predicate Less(a: string, b: string) {
    b != [] && (a == [] || a[0] < b[0] || (a[0] == b[0] && Less(a[1..], b[1..])))
  }

  /** The first `i` characters are the same, and then `a` ends or has the smaller one. */
  predicate SmallerAt(a: string, b: string, i: nat) {
    i <= |a| && i < |b| && a[..i] == b[..i] && (i == |a| || a[i] < b[i])
  }

  predicate Smaller(a: string, b: string) { exists i :: 0 <= i <= |a| && SmallerAt(a, b, i) }

  lemma SmallerNext(a: string, b: string, i: nat)
    requires a != [] && b != [] && a[0] == b[0]
    ensures SmallerAt(a, b, i + 1) <==> SmallerAt(a[1..], b[1..], i)
  {
    if i < |a| && i + 1 < |b| {
      assert a[..i + 1] == [a[0]] + a[1..][..i] && b[..i + 1] == [b[0]] + b[1..][..i];
      assert a[1..][..i] == a[..i + 1][1..] && b[1..][..i] == b[..i + 1][1..];
    }
  }

  lemma {:induction false} LessIsLexicographic(a: string, b: string)
    ensures Less(a, b) <==> Smaller(a, b)
  {
    if a != [] && b != [] && a[0] == b[0] {
      LessIsLexicographic(a[1..], b[1..]);
      if Less(a, b) {
        var i :| 0 <= i < |a| && SmallerAt(a[1..], b[1..], i);
        SmallerNext(a, b, i);
      }
      if Smaller(a, b) {
        var i :| 0 <= i <= |a| && SmallerAt(a, b, i);
        assert i > 0;
        SmallerNext(a, b, i - 1);
      }
    } else {
      if Less(a, b) { assert SmallerAt(a, b, 0); }
      if Smaller(a, b) {
        var i :| 0 <= i <= |a| && SmallerAt(a, b, i);
        if i > 0 { assert a[..i][0] == b[..i][0]; }
      }
    }
  }

  lemma LessIrreflexive(a: string)
    ensures !Less(a, a)
  {}

  lemma {:induction false} LessTotal(a: string, b: string)
    ensures Less(a, b) || a == b || Less(b, a)
  {
    if a != [] && b != [] && a[0] == b[0] {
      LessTotal(a[1..], b[1..]);
      if a[1..] == b[1..] { assert a == [a[0]] + a[1..] == b; }
    }
  }

  lemma {:induction false} LessTransitive(a: string, b: string, c: string)
    requires Less(a, b) && Less(b, c)
    ensures Less(a, c)
  {
    if a != [] && a[0] == b[0] == c[0] { LessTransitive(a[1..], b[1..], c[1..]); }
  }

  lemma LessAsymmetric(a: string, b: string)
    requires Less(a, b)
    ensures !Less(b, a)
  {
    if Less(b, a) { LessTransitive(a, b, a); LessIrreflexive(a); }
  }

  // ----- Decimal numerals -----

  predicate IsDigit(c: char) { '0' <= c <= '9' }

  predicate IsNumeral(s: string) {
    s != [] && forall i :: 0 <= i < |s| ==> IsDigit(s[i])
  }

  function Digit(d: nat): char
    requires d < 10
  {
    (d + 48) as char
  }

  function DigitValue(c: char): nat
    requires IsDigit(c)
  {
    c as int - 48
  }

  function Numeral(n: nat): (s: string)
    ensures IsNumeral(s)
  {
    if n < 10 then [Digit(n)] else Numeral(n / 10) + [Digit(n % 10)]
  }

  function NumeralValue(s: string): nat
    requires forall i :: 0 <= i < |s| ==> IsDigit(s[i])
  {
    if s == [] then 0 else 10 * NumeralValue(s[..|s| - 1]) + DigitValue(s[|s| - 1])
  }

  lemma {:induction false} NumeralRoundTrip(n: nat)
    ensures NumeralValue(Numeral(n)) == n
  {
    var s := Numeral(n);
    if n < 10 {
      assert s[..|s| - 1] == [];
    } else {
      NumeralRoundTrip(n / 10);
      assert s[..|s| - 1] == Numeral(n / 10);
    }
  }

  /** A decimal numeral with an optional sign, limited to 64-bit integers. */
  function Atoi(s: string): Option<int> {
    var digits := if s != [] && (s[0] == '-' || s[0] == '+') then s[1..] else s;
    if !IsNumeral(digits) then None
    else
      var n: int := if s[0] == '-' then 0 - NumeralValue(digits) else NumeralValue(digits);
      if -0x8000_0000_0000_0000 <= n < 0x8000_0000_0000_0000 then Some(n) else None
  }

  function Itoa(n: int): string {
    if n < 0 then "-" + Numeral(-n) else Numeral(n)
  }

  /** Both signs are read, and nothing outside 64 bits. */
  lemma AtoiReads(digits: string)
    requires IsNumeral(digits)
    ensures var n: int := NumeralValue(digits);
      && Atoi(digits) == (if n < 0x8000_0000_0000_0000 then Some(n) else None) == Atoi("+" + digits)
      && Atoi("-" + digits) == if n <= 0x8000_0000_0000_0000 then Some(-n) else None
  {
    hide NumeralValue;
    assert IsDigit(digits[0]);
    assert ("+" + digits)[1..] == digits && ("-" + digits)[1..] == digits;
  }

  lemma AtoiItoa(n: int)
    requires -0x8000_0000_0000_0000 <= n < 0x8000_0000_0000_0000
    ensures Atoi(Itoa(n)) == Some(n)
    ensures TrimSpace(Itoa(n)) == Itoa(n)
  {
    var digits := Numeral(if n < 0 then -n else n);
    AtoiReads(digits);
    NumeralRoundTrip(if n < 0 then -n else n);
    assert IsDigit(digits[0]) && IsDigit(digits[|digits| - 1]);
    hide Atoi, Numeral, NumeralValue;
    TrimKeepsClean(Itoa(n), IsSpace);
  }

  // ----- Splitting at a separator -----

  /** The pieces of `s` between occurrences of `sep`; at least one piece. */
  function Split(s: string, sep: char): (parts: seq<string>)
    ensures |parts| > 0
  {
    if s == [] then [""]
    else
      var rest := Split(s[1..], sep);
      if s[0] == sep then [""] + rest else [[s[0]] + rest[0]] + rest[1..]
  }

  function Join(parts: seq<string>, sep: string): string {
    if |parts| == 0 then ""
    else if |parts| == 1 then parts[0]
    else parts[0] + sep + Join(parts[1..], sep)
  }

  lemma {:induction false} SplitClean(s: string, sep: char)
    requires Without(s, sep)
    ensures Split(s, sep) == [s]
  {
    if s != [] { SplitClean(s[1..], sep); assert [s[0]] + s[1..] == s; }
  }

  /** A separator-free prefix followed by the separator is exactly the first piece. */
  lemma {:induction false} SplitFirst(s: string, sep: char, rest: string)
    requires Without(s, sep)
    ensures Split(s + [sep] + rest, sep) == [s] + Split(rest, sep)
  {
    var t := s + [sep] + rest;
    if s == [] {
      assert t[1..] == rest;
    } else {
      SplitFirst(s[1..], sep, rest);
      assert t[1..] == s[1..] + [sep] + rest;
      assert [s[0]] + s[1..] == s;
    }
  }

  /** Splitting loses nothing. */
  lemma {:induction false} JoinSplit(s: string, sep: char)
    ensures Join(Split(s, sep), [sep]) == s
  {
    if s != [] {
      JoinSplit(s[1..], sep);
      var rest := Split(s[1..], sep);
      assert s == [s[0]] + s[1..];
      if s[0] == sep {
        assert ([""] + rest)[1..] == rest;
      } else {
        var parts := [[s[0]] + rest[0]] + rest[1..];
        assert parts[1..] == rest[1..];
        if |rest| > 1 {
          assert [s[0]] + rest[0] + [sep] + Join(rest[1..], [sep])
            == [s[0]] + (rest[0] + [sep] + Join(rest[1..], [sep]));
        }
      }
    }
  }

  /** Prefixes without the separator are determined by the text they start. */
  lemma {:induction false} FirstPieceUnique(a: string, b: string, sep: char, ra: string, rb: string)
    requires Without(a, sep) && Without(b, sep)
    requires a + [sep] + ra == b + [sep] + rb
    ensures a == b && ra == rb
  {
    SplitFirst(a, sep, ra);
    SplitFirst(b, sep, rb);
    assert Split(a + [sep] + ra, sep)[0] == a;
    assert Split(b + [sep] + rb, sep)[0] == b;
    assert (a + [sep] + ra)[|a| + 1..] == ra;
    assert (b + [sep] + rb)[|b| + 1..] == rb;
  }
}
