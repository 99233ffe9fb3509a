/** Words of a text: maximal runs of characters that are not white space. */
module Words {
  import opened Text

  predicate IsWord(w: string) { w != [] && Free(w, IsSpace) }

  predicate AreWords(ws: seq<string>) { forall i :: 0 <= i < |ws| ==> IsWord(ws[i]) }

  /** The length of the first run of other characters. */
  function WordLength(s: string): (n: nat)
    ensures n <= |s| && Free(s[..n], IsSpace) && (n < |s| ==> IsSpace(s[n]))
  {
    if s == [] || IsSpace(s[0]) then 0 else 1 + WordLength(s[1..])
  }

  function Fields(s: string): (ws: seq<string>)
    ensures AreWords(ws)
    decreases |s|
  {
    if s == [] then []
    else if IsSpace(s[0]) then Fields(s[1..])
    else [s[..WordLength(s)]] + Fields(s[WordLength(s)..])
  }

  lemma {:induction false} WordLengthStop(w: string, rest: string)
    requires Free(w, IsSpace) && (rest != [] ==> IsSpace(rest[0]))
    ensures WordLength(w + rest) == |w|
  {
    if w == [] {
      assert w + rest == rest;
    } else {
      WordLengthStop(w[1..], rest);
      assert (w + rest)[1..] == w[1..] + rest;
    }
  }

  /** A word in front of white space is the first field. */
  lemma FieldsCons(w: string, rest: string)
    requires IsWord(w) && (rest != [] ==> IsSpace(rest[0]))
    ensures Fields(w + rest) == [w] + Fields(rest)
  {
    WordLengthStop(w, rest);
    assert (w + rest)[..|w|] == w && (w + rest)[|w|..] == rest;
  }

  /** Words joined by single blanks are read back as the same words. */
  lemma {:induction false} FieldsJoin(ws: seq<string>)
    requires AreWords(ws)
    ensures Fields(Join(ws, " ")) == ws
  {
    if |ws| == 1 {
      FieldsCons(ws[0], "");
      assert ws[0] + "" == ws[0];
    } else if |ws| > 1 {
      var rest := Join(ws[1..], " ");
      FieldsJoin(ws[1..]);
      FieldsCons(ws[0], " " + rest);
      assert (" " + rest)[1..] == rest;
      assert ws[0] + " " + rest == ws[0] + (" " + rest);
    }
  }

  /** A text is at least as long as its words joined by single blanks. */
  lemma {:induction false} JoinFieldsShort(s: string)
    ensures |Join(Fields(s), " ")| <= |s|
    decreases |s|
  {
    if s != [] {
      if IsSpace(s[0]) {
        JoinFieldsShort(s[1..]);
      } else {
        var n := WordLength(s);
        var rest := s[n..];
        if rest != [] {
          assert rest[0] == s[n];
          assert Fields(rest) == Fields(rest[1..]);
          JoinFieldsShort(rest[1..]);
        }
      }
    }
  }

  /** The words of several lines, in order. */
  function AllFields(lines: seq<string>): seq<string> {
    if lines == [] then [] else Fields(lines[0]) + AllFields(lines[1..])
  }

  lemma FieldsStep(s: string)
    ensures s != [] && IsSpace(s[0]) ==> Fields(s) == Fields(s[1..])
    ensures s != [] && !IsSpace(s[0]) ==> WordLength(s) > 0 && IsWord(s[..WordLength(s)])
    ensures s != [] && !IsSpace(s[0]) ==> Fields(s) == [s[..WordLength(s)]] + Fields(s[WordLength(s)..])
  {}

  /** White space anywhere separates the words before it from the words behind it. */
  lemma {:induction false} FieldsApart(a: string, c: char, b: string)
    requires IsSpace(c)
    ensures Fields(a + [c] + b) == Fields(a) + Fields(b)
    decreases |a|
  {
    hide Fields, WordLength, IsSpace;
    var t := a + [c] + b;
    FieldsStep(a);
    FieldsStep(t);
    if a == [] {
      assert t[1..] == b;
      NoFields();
    } else if IsSpace(a[0]) {
      FieldsApart(a[1..], c, b);
      assert t[1..] == a[1..] + [c] + b;
    } else {
      var n := WordLength(a);
      FieldsApart(a[n..], c, b);
      var rest := a[n..] + [c] + b;
      assert rest[0] == if a[n..] == [] then c else a[n];
      assert a[..n] + rest == t;
      FieldsCons(a[..n], rest);
    }
  }

  lemma NoFields()
    ensures Fields("") == []
  {}

  /** The words of a text are the words of its lines. */
  lemma {:induction false} FieldsOfLines(lines: seq<string>)
    requires lines != []
    ensures Fields(Join(lines, "\n")) == AllFields(lines)
  {
    if |lines| > 1 {
      FieldsOfLines(lines[1..]);
      FieldsApart(lines[0], '\n', Join(lines[1..], "\n"));
      assert lines[0] + "\n" + Join(lines[1..], "\n") == lines[0] + ['\n'] + Join(lines[1..], "\n");
    } else {
      assert AllFields(lines[1..]) == [];
    }
  }

  /** Trimming white space keeps the words. */
  lemma FieldsTrim(s: string)
    ensures Fields(TrimSpace(s)) == Fields(s)
  {
    FieldsTrimLeft(s);
    FieldsTrimRight(TrimLeft(s, IsSpace));
  }

  lemma {:induction false} FieldsTrimLeft(s: string)
    ensures Fields(TrimLeft(s, IsSpace)) == Fields(s)
  {
    if s != [] && IsSpace(s[0]) { FieldsTrimLeft(s[1..]); }
  }

  lemma {:induction false} FieldsTrimRight(s: string)
    ensures Fields(TrimRight(s, IsSpace)) == Fields(s)
  {
    if s != [] && IsSpace(s[|s| - 1]) {
      var init := s[..|s| - 1];
      FieldsTrimRight(init);
      FieldsApart(init, s[|s| - 1], "");
      assert init + [s[|s| - 1]] + "" == s;
    }
  }
}
