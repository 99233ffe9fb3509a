/** Greedy line breaking of a status message. */
module Wrap {
  import opened Text
  import opened Words

  /** Line breaks in the message count as blanks. */
  function Unbroken(s: string): (r: string)
    ensures |r| == |s|
    ensures forall i :: 0 <= i < |s| ==> r[i] == if s[i] == '\n' then ' ' else s[i]
  {
    seq(|s|, i requires 0 <= i < |s| => if s[i] == '\n' then ' ' else s[i])
  }

  lemma {:induction false} UnbrokenWordLength(s: string)
    ensures WordLength(Unbroken(s)) == WordLength(s)
  {
    if s != [] { UnbrokenWordLength(s[1..]); assert Unbroken(s)[1..] == Unbroken(s[1..]); }
  }

  lemma {:induction false} UnbrokenFields(s: string)
    ensures Fields(Unbroken(s)) == Fields(s)
    decreases |s|
  {
    if s != [] {
      var n := if IsSpace(s[0]) then 1 else WordLength(s);
      UnbrokenWordLength(s);
      UnbrokenFields(s[n..]);
      assert Unbroken(s)[n..] == Unbroken(s[n..]);
      if !IsSpace(s[0]) { assert Unbroken(s)[..n] == s[..n]; }
    }
  }

  // ----- Layouts -----

  /** The line fits the width or cannot be broken. */
  predicate Fits(line: string, width: int) { |line| <= width || |Fields(line)| <= 1 }

  /** `lines` lays out the words in order, each line fitting the width or holding one word. */
  predicate Layout(lines: seq<string>, words: seq<string>, width: int) {
    AllFields(lines) == words && forall i :: 0 <= i < |lines| ==> Fits(lines[i], width)
  }

  /** The line could not have taken the first word of the next one. */
  predicate Full(group: seq<string>, next: seq<string>, width: int) {
    next != [] && |Join(group, " ")| + 1 + |next[0]| > width
  }

  /** A group of words is one line: a single word, or short enough. */
  predicate IsLine(group: seq<string>, width: int) {
    group != [] && AreWords(group) && (|group| == 1 || |Join(group, " ")| <= width)
  }

  /** Every group but the last is full. */
  ghost predicate Greedy(groups: seq<seq<string>>, width: int) {
    && (forall i :: 0 <= i < |groups| ==> IsLine(groups[i], width))
    && (forall i, j :: 0 <= i < j < |groups| && j == i + 1 ==> Full(groups[i], groups[j], width))
  }

  function Flatten(groups: seq<seq<string>>): seq<string> {
    if groups == [] then [] else groups[0] + Flatten(groups[1..])
  }

  lemma {:induction false} JoinSnoc(ws: seq<string>, w: string)
    requires ws != []
    ensures Join(ws + [w], " ") == Join(ws, " ") + " " + w
  {
    if |ws| == 1 {
      assert (ws + [w])[1..] == [w];
    } else {
      JoinSnoc(ws[1..], w);
      assert (ws + [w])[1..] == ws[1..] + [w];
      assert ws[0] + " " + (Join(ws[1..], " ") + " " + w) == (ws[0] + " " + Join(ws[1..], " ")) + " " + w;
    }
  }

  /** Fewer consecutive words make a shorter line. */
  lemma {:induction false} JoinMonotone(ws: seq<string>, a: nat, b: nat)
    requires a <= b <= |ws|
    ensures |Join(ws[a..b], " ")| <= |Join(ws, " ")|
    decreases |ws|
  {
    if a > 0 {
      JoinMonotone(ws[1..], a - 1, b - 1);
      assert ws[1..][a - 1..b - 1] == ws[a..b];
    } else if b < |ws| {
      var init := ws[..|ws| - 1];
      JoinMonotone(init, a, b);
      assert init[a..b] == ws[a..b] && ws == init + [ws[|ws| - 1]];
      if init != [] { JoinSnoc(init, ws[|ws| - 1]); }
    } else {
      assert ws[a..b] == ws;
    }
  }

  /** Where the rest starts after taking `first` from the words from `ahead` on. */
  lemma RestStarts<T>(taken: seq<T>, more: seq<T>, ahead: nat, first: seq<T>, rest: seq<T>)
    requires ahead <= |taken + more| && (taken + more)[ahead..] == first + rest
    ensures ahead + |first| >= |taken| ==>
      ahead + |first| - |taken| <= |more| && rest == more[ahead + |first| - |taken|..]
    ensures ahead + |first| < |taken| && rest != [] ==> first + [rest[0]] == taken[ahead..ahead + |first| + 1]
  {
    var words := taken + more;
    var reach := ahead + |first|;
    assert |words| == reach + |rest|;
    forall i | 0 <= i < |rest| ensures rest[i] == words[reach + i] {
      assert words[ahead..][|first| + i] == (first + rest)[|first| + i];
    }
    forall i | 0 <= i < |first| ensures first[i] == words[ahead + i] {
      assert words[ahead..][i] == (first + rest)[i];
    }
  }

  /** A greedy line ends behind any other line that starts no later. */
  lemma GreedyLineReaches(groups: seq<seq<string>>, line: string, ahead: nat, width: int)
    requires Greedy(groups, width) && |groups| > 1 && Fits(line, width)
    requires ahead + |groups[0]| < |Fields(line)|
    ensures groups[0] + [groups[1][0]] != Fields(line)[ahead..ahead + |groups[0]| + 1]
  {
    var first, next := groups[0], groups[1][0];
    assert Full(first, groups[1], width) && IsLine(first, width);
    if first + [next] == Fields(line)[ahead..ahead + |first| + 1] {
      JoinSnoc(first, next);
      JoinMonotone(Fields(line), ahead, ahead + |first| + 1);
      JoinFieldsShort(line);
    }
  }

  /** The heart of optimality: greedy lines for a suffix of what another layout still has to
      place are at most as many as that layout's lines. */
  lemma {:induction false} GreedyStaysAhead(groups: seq<seq<string>>, lines: seq<string>, ahead: nat, width: int)
    requires Greedy(groups, width) && (forall i :: 0 <= i < |lines| ==> Fits(lines[i], width))
    requires ahead <= |AllFields(lines)| && Flatten(groups) == AllFields(lines)[ahead..]
    ensures |groups| <= |lines|
    decreases |lines|
  {
    hide Fits, Full;
    if groups != [] {
      assert IsLine(groups[0], width);
      hide IsLine;
      var first, rest := groups[0], groups[1..];
      var taken := Fields(lines[0]);
      RestStarts(taken, AllFields(lines[1..]), ahead, first, Flatten(rest));
      if rest != [] {
        GreedyTail(groups, width);
        FirstOfFlatten(rest, width);
        if ahead + |first| < |taken| {
          GreedyLineReaches(groups, lines[0], ahead, width);
        } else {
          GreedyStaysAhead(rest, lines[1..], ahead + |first| - |taken|, width);
        }
      }
    }
  }

  lemma FirstOfFlatten(groups: seq<seq<string>>, width: int)
    requires Greedy(groups, width) && groups != []
    ensures Flatten(groups) != [] && groups[0] != [] && Flatten(groups)[0] == groups[0][0]
  {
    assert IsLine(groups[0], width);
  }

  lemma GreedyTail(groups: seq<seq<string>>, width: int)
    requires Greedy(groups, width) && groups != []
    ensures Greedy(groups[1..], width)
  {
    hide Full, IsLine;
    var rest := groups[1..];
    forall i, j | 0 <= i < j < |rest| && j == i + 1 ensures Full(rest[i], rest[j], width) {
      assert rest[i] == groups[i + 1] && rest[j] == groups[j + 1];
    }
  }

  lemma {:induction false} FlattenSnoc(groups: seq<seq<string>>, g: seq<string>)
    ensures Flatten(groups + [g]) == Flatten(groups) + g
  {
    if groups == [] {
      assert ([] + [g])[1..] == [];
    } else {
      FlattenSnoc(groups[1..], g);
      assert (groups + [g])[1..] == groups[1..] + [g];
    }
  }

  function Lines(groups: seq<seq<string>>): (lines: seq<string>)
    ensures |lines| == |groups| && forall i :: 0 <= i < |groups| ==> lines[i] == Join(groups[i], " ")
  {
    seq(|groups|, i requires 0 <= i < |groups| => Join(groups[i], " "))
  }

  lemma {:induction false} LinesHoldTheWords(groups: seq<seq<string>>)
    requires forall i :: 0 <= i < |groups| ==> AreWords(groups[i])
    ensures AllFields(Lines(groups)) == Flatten(groups)
  {
    if groups != [] {
      FieldsJoin(groups[0]);
      LinesHoldTheWords(groups[1..]);
      assert Lines(groups)[1..] == Lines(groups[1..]);
    }
  }

  /** Greedy lines form a layout, and no layout of the same words has fewer lines. */
  lemma GreedyIsOptimal(groups: seq<seq<string>>, words: seq<string>, width: int)
    requires Greedy(groups, width) && Flatten(groups) == words
    ensures Layout(Lines(groups), words, width)
    ensures forall other: seq<string> :: Layout(other, words, width) ==> |groups| <= |other|
  {
    LinesHoldTheWords(groups);
    forall i | 0 <= i < |groups| ensures Fits(Lines(groups)[i], width) {
      assert IsLine(groups[i], width);
      FieldsJoin(groups[i]);
    }
    forall other: seq<string> | Layout(other, words, width) ensures |groups| <= |other| {
      assert AllFields(other)[0..] == words;
      GreedyStaysAhead(groups, other, 0, width);
    }
  }

  /** The line under construction takes another word. */
  lemma LineGrows(groups: seq<seq<string>>, last: seq<string>, word: string, width: int)
    requires Greedy(groups + [last], width) && IsWord(word) && |Join(last, " ")| + 1 + |word| <= width
    ensures Greedy(groups + [last + [word]], width)
    ensures Join(last + [word], " ") == Join(last, " ") + " " + word
  {
    var was, now := groups + [last], groups + [last + [word]];
    assert IsLine(was[|groups|], width);
    JoinSnoc(last, word);
    hide Join;
    assert IsLine(last + [word], width);
    hide IsLine;
    forall i | 0 <= i < |now| ensures IsLine(now[i], width) { if i < |groups| { assert now[i] == was[i]; } }
    forall i, j | 0 <= i < j < |now| && j == i + 1 ensures Full(now[i], now[j], width) {
      assert Full(was[i], was[j], width) && now[i] == was[i];
    }
  }

  /** The line under construction is full and the word starts the next one. */
  lemma LineCloses(groups: seq<seq<string>>, last: seq<string>, word: string, width: int)
    requires Greedy(groups + [last], width) && IsWord(word) && |Join(last, " ")| + 1 + |word| > width
    ensures Greedy(groups + [last] + [[word]], width)
  {
    var was, now := groups + [last], groups + [last] + [[word]];
    assert IsLine([word], width) && Full(last, [word], width);
    hide IsLine, Full;
    forall i | 0 <= i < |now| ensures IsLine(now[i], width) { if i < |was| { assert now[i] == was[i]; } }
    forall i, j | 0 <= i < j < |now| && j == i + 1 ensures Full(now[i], now[j], width) {
      if j < |was| { assert now[i] == was[i] && now[j] == was[j]; }
    }
  }

  /** No line could have taken the first word of the next one. */
  ghost predicate NoRoom(lines: seq<string>, width: int) {
    forall i, j :: 0 <= i < j < |lines| && j == i + 1 ==>
      Fields(lines[j]) != [] && |lines[i]| + 1 + |Fields(lines[j])[0]| > width
  }

  /** The wrapped lines hold exactly the words of the message in order, each line fits the width, at least
      20, or is a single word, takes as many words as it can, and no layout of these words needs fewer lines. */
  method WrapText(s: string, width: int) returns (lines: seq<string>)
    ensures Fields(s) == [] ==> lines == [""]
    ensures Fields(s) != [] ==> Layout(lines, Fields(s), if width < 20 then 20 else width)
    ensures forall i :: 0 <= i < |lines| ==> lines[i] == Join(Fields(lines[i]), " ")
    ensures NoRoom(lines, if width < 20 then 20 else width)
    ensures forall other: seq<string> ::
      Layout(other, Fields(s), if width < 20 then 20 else width) && other != [] ==> |lines| <= |other|
  {
    hide Layout, Greedy, Fields, Join, NoRoom;
    var w := if width < 20 then 20 else width;
    var words := Fields(Unbroken(s));
    UnbrokenFields(s);
    if |words| == 0 {
      EmptyLine(w);
      return [""];
    }
    lines := [];
    var line := words[0];
    ghost var groups: seq<seq<string>>, last := [], [words[0]];
    StartsGreedy(words[0], w);
    for i := 1 to |words|
      invariant lines == Lines(groups) && line == Join(last, " ")
      invariant Flatten(groups) + last == words[..i]
      invariant Greedy(groups + [last], w)
    {
      var word := words[i];
      assert words[..i + 1] == words[..i] + [word];
      if |line| + 1 + |word| <= w {
        LineGrows(groups, last, word, w);
        line, last := line + " " + word, last + [word];
        continue;
      }
      LineCloses(groups, last, word, w);
      FlattenSnoc(groups, last);
      lines, groups := lines + [line], groups + [last];
      line, last := word, [word];
      StartsGreedy(word, w);
    }
    assert words[..|words|] == words;
    FlattenSnoc(groups, last);
    lines, groups := lines + [line], groups + [last];
    assert lines == Lines(groups);
    GreedyIsOptimal(groups, words, w);
    LinesAreCanonical(groups, w);
    LinesAreFull(groups, w);
  }

  lemma EmptyLine(width: int)
    ensures Join(Fields(""), " ") == "" && NoRoom([""], width)
  {}

  lemma StartsGreedy(word: string, width: int)
    requires IsWord(word)
    ensures Greedy([] + [[word]], width) && Join([word], " ") == word
  {}

  lemma LinesAreFull(groups: seq<seq<string>>, width: int)
    requires Greedy(groups, width)
    ensures NoRoom(Lines(groups), width)
  {
    forall i, j | 0 <= i < j < |groups| && j == i + 1
      ensures Fields(Lines(groups)[j]) != []
        && |Lines(groups)[i]| + 1 + |Fields(Lines(groups)[j])[0]| > width
    {
      assert IsLine(groups[j], width) && Full(groups[i], groups[j], width);
      FieldsJoin(groups[j]);
    }
  }

  lemma LinesAreCanonical(groups: seq<seq<string>>, width: int)
    requires Greedy(groups, width)
    ensures forall i :: 0 <= i < |groups| ==> Lines(groups)[i] == Join(Fields(Lines(groups)[i]), " ")
  {
    forall i | 0 <= i < |groups| ensures Lines(groups)[i] == Join(Fields(Lines(groups)[i]), " ") {
      assert IsLine(groups[i], width);
      FieldsJoin(groups[i]);
    }
  }
}
