/** Quoting for tenant shell scripts, against the quoting rules of the POSIX.1-2017 Shell Command
    Language: section 2.2.1 (escape character), section 2.2.2 (single quotes) and the token
    recognition of section 2.3 for words, redirection to a file and line ends. */
module ShellQuote {
  import opened Text
  import opened Identity

  // ----- The quoting function -----

  function ReplaceAll(s: string, c: char, substitute: string): string {
    if s == [] then "" else (if s[0] == c then substitute else [s[0]]) + ReplaceAll(s[1..], c, substitute)
  }

  function Quote(s: string): string { "'" + ReplaceAll(s, '\'', "'\\''") + "'" }

  // ----- Token recognition -----

  datatype Token = Word(text: string) | Into | LineEnd

  /** Unquoted characters with a meaning outside the sections modelled here. */
  predicate Special(c: char) {
    c in {'|', '&', ';', '<', '(', ')', '$', '`', '"', '*', '?', '[', '#', '~', '=', '%'}
  }

  predicate Blank(c: char) { c == ' ' || c == '\t' }

  /** Characters an unquoted word may hold as they are. */
  predicate Plain(c: char) { !Special(c) && !Blank(c) && c !in {'\n', '>', '\'', '\\'} }

  /** The word read so far, if one has begun. */
  function Ended(word: Option<string>): seq<Token> {
    if word.Some? then [Word(word.value)] else []
  }

  function Grown(word: Option<string>, c: char): Option<string> {
    Some((if word.Some? then word.value else "") + [c])
  }

  function Begun(word: Option<string>): Option<string> { if word.Some? then word else Some("") }

  function Prepend(ts: seq<Token>, rest: Option<seq<Token>>): Option<seq<Token>> {
    if rest.Some? then Some(ts + rest.value) else None
  }

  /** The tokens of a text; nothing if a quote is open at the end or another section is needed. */
  function Lex(s: string, word: Option<string>, quoted: bool): Option<seq<Token>>
    decreases |s|
  {
    if s == [] then (if quoted then None else Some(Ended(word)))
    else if quoted then (if s[0] == '\'' then Lex(s[1..], word, false) else Lex(s[1..], Grown(word, s[0]), true))
    else if s[0] == '\'' then Lex(s[1..], Begun(word), true)
    else if s[0] == '\\' then
      if |s| == 1 then None
      else if s[1] == '\n' then Lex(s[2..], word, false)
      else Lex(s[2..], Grown(word, s[1]), false)
    else if s[0] == '\n' then Prepend(Ended(word) + [LineEnd], Lex(s[1..], None, false))
    else if s[0] == '>' then Prepend(Ended(word) + [Into], Lex(s[1..], None, false))
    else if Blank(s[0]) then Prepend(Ended(word), Lex(s[1..], None, false))
    else if Special(s[0]) then None
    else Lex(s[1..], Grown(word, s[0]), false)
  }

  function Tokens(s: string): Option<seq<Token>> { Lex(s, None, false) }

  // ----- Round trips -----

  function Extend(word: Option<string>, s: string): string {
    (if word.Some? then word.value else "") + s
  }

  lemma ExtendStep(word: Option<string>, c: char, s: string)
    ensures Extend(Grown(word, c), s) == Extend(word, [c] + s)
  {
    var w := if word.Some? then word.value else "";
    assert (w + [c]) + s == w + ([c] + s);
  }

  /** The replaced text and the closing quote add exactly `s` to the word. */
  lemma {:induction false} LexReplaced(s: string, word: Option<string>, rest: string)
    requires word.Some?
    ensures Lex(ReplaceAll(s, '\'', "'\\''") + "'" + rest, word, true) == Lex(rest, Some(Extend(word, s)), false)
  {
    var t := ReplaceAll(s, '\'', "'\\''") + "'" + rest;
    if s == [] {
      assert t == "'" + rest && t[1..] == rest;
      assert Extend(word, s) == word.value;
    } else {
      var tail := ReplaceAll(s[1..], '\'', "'\\''") + "'" + rest;
      LexReplaced(s[1..], Grown(word, s[0]), rest);
      ExtendStep(word, s[0], s[1..]);
      assert [s[0]] + s[1..] == s;
      if s[0] == '\'' {
        assert t == ['\'', '\\', '\'', '\''] + tail;
        LexReopened(tail, word);
      } else {
        assert t == [s[0]] + tail && t[1..] == tail;
      }
    }
  }

  /** Closing, an escaped quote and reopening add one quote character. */
  lemma LexReopened(tail: string, word: Option<string>)
    requires word.Some?
    ensures Lex(['\'', '\\', '\'', '\''] + tail, word, true) == Lex(tail, Grown(word, '\''), true)
  {
    var t := ['\'', '\\', '\'', '\''] + tail;
    assert t[1..] == ['\\', '\'', '\''] + tail;
    assert t[1..][2..] == ['\''] + tail;
    assert (['\''] + tail)[1..] == tail;
    assert Lex(t, word, true) == Lex(t[1..], word, false) == Lex(['\''] + tail, Grown(word, '\''), false);
  }

  /** In front of any text, a quoted word reads as exactly its characters. */
  lemma LexQuoted(s: string, word: Option<string>, rest: string)
    ensures Lex(Quote(s) + rest, word, false) == Lex(rest, Some(Extend(word, s)), false)
  {
    var body := ReplaceAll(s, '\'', "'\\''");
    assert Quote(s) + rest == ['\''] + (body + "'" + rest);
    assert (Quote(s) + rest)[1..] == body + "'" + rest;
    LexReplaced(s, Begun(word), rest);
    assert Extend(Begun(word), s) == Extend(word, s);
  }

  /** Every text survives quoting as a single word. */
  lemma QuotedIsOneWord(s: string)
    ensures Tokens(Quote(s)) == Some([Word(s)])
  {
    LexQuoted(s, None, "");
    assert Quote(s) + "" == Quote(s);
    assert Extend(None, s) == s;
  }

  function QuoteAll(ws: seq<string>): seq<string> {
    seq(|ws|, i requires 0 <= i < |ws| => Quote(ws[i]))
  }

  function WordsOf(ws: seq<string>): seq<Token> {
    seq(|ws|, i requires 0 <= i < |ws| => Word(ws[i]))
  }

  /** Every list of words survives quoting each and joining them with blanks. */
  lemma {:induction false} QuotedListRoundTrips(ws: seq<string>)
    ensures Tokens(Join(QuoteAll(ws), " ")) == Some(WordsOf(ws))
  {
    var quoted := QuoteAll(ws);
    if |ws| == 1 {
      QuotedIsOneWord(ws[0]);
      assert WordsOf(ws) == [Word(ws[0])];
    } else if |ws| > 1 {
      var rest := Join(QuoteAll(ws[1..]), " ");
      QuotedListRoundTrips(ws[1..]);
      assert quoted[1..] == QuoteAll(ws[1..]);
      assert Join(quoted, " ") == Quote(ws[0]) + (" " + rest);
      LexQuoted(ws[0], None, " " + rest);
      assert Extend(None, ws[0]) == ws[0];
      assert (" " + rest)[1..] == rest;
      assert WordsOf(ws) == [Word(ws[0])] + WordsOf(ws[1..]);
    }
  }

  // ----- Script lines -----

  predicate IsPlain(s: string) { forall i :: 0 <= i < |s| ==> Plain(s[i]) }

  /** Plain characters read as themselves. */
  lemma {:induction false} LexPlain(s: string, word: Option<string>, rest: string)
    requires IsPlain(s) && s != []
    ensures Lex(s + rest, word, false) == Lex(rest, Some(Extend(word, s)), false)
  {
    assert (s + rest)[1..] == s[1..] + rest;
    if |s| == 1 {
      assert s[1..] + rest == rest && s == [s[0]];
    } else {
      LexPlain(s[1..], Grown(word, s[0]), rest);
      ExtendStep(word, s[0], s[1..]);
      assert [s[0]] + s[1..] == s;
    }
  }

  lemma PrependTwice(a: seq<Token>, b: seq<Token>, r: Option<seq<Token>>)
    ensures Prepend(a, Prepend(b, r)) == Prepend(a + b, r)
  {
    if r.Some? { assert a + (b + r.value) == a + b + r.value; }
  }

  lemma LexWord(w: string, rest: string)
    requires IsPlain(w) && w != []
    ensures Tokens(w + " " + rest) == Prepend([Word(w)], Tokens(rest))
    ensures Tokens(w + "\n" + rest) == Prepend([Word(w), LineEnd], Tokens(rest))
  {
    LexPlain(w, None, " " + rest);
    LexPlain(w, None, "\n" + rest);
    assert w + " " + rest == w + (" " + rest) && w + "\n" + rest == w + ("\n" + rest);
    assert (" " + rest)[1..] == rest && ("\n" + rest)[1..] == rest;
    assert Extend(None, w) == w && [Word(w)] + [LineEnd] == [Word(w), LineEnd];
  }

  lemma LexQuotedWord(w: string, rest: string)
    ensures Tokens(Quote(w) + " " + rest) == Prepend([Word(w)], Tokens(rest))
    ensures Tokens(Quote(w) + "\n" + rest) == Prepend([Word(w), LineEnd], Tokens(rest))
  {
    hide Quote;
    LexQuoted(w, None, " " + rest);
    LexQuoted(w, None, "\n" + rest);
    assert Quote(w) + " " + rest == Quote(w) + (" " + rest) && Quote(w) + "\n" + rest == Quote(w) + ("\n" + rest);
    assert (" " + rest)[1..] == rest && ("\n" + rest)[1..] == rest;
    assert Extend(None, w) == w && [Word(w)] + [LineEnd] == [Word(w), LineEnd];
  }

  lemma LexInto(rest: string)
    ensures Tokens("> " + rest) == Prepend([Into], Tokens(rest))
  {
    assert ("> " + rest)[1..] == " " + rest && (" " + rest)[1..] == rest;
    assert Ended(None) + [Into] == [Into];
    if Tokens(rest).Some? { assert [] + Tokens(rest).value == Tokens(rest).value; }
    assert Tokens(" " + rest) == Tokens(rest);
  }

  // ----- The script that writes a tenant file -----

  /** The script that creates a directory, fills a file from the input and sets its mode. */
  function TenantFileScript(dir: string, path: string, mode: string): string {
    Join(["set -e", "install -d -m 0700 " + Quote(dir), "cat > " + Quote(path),
          "chmod " + Quote(mode) + " " + Quote(path)], "\n")
  }

  lemma SetLine(rest: string)
    ensures Tokens("set -e\n" + rest) == Prepend([Word("set"), Word("-e"), LineEnd], Tokens(rest))
  {
    hide Tokens;
    LexWord("set", "-e" + "\n" + rest);
    LexWord("-e", rest);
    PrependTwice([Word("set")], [Word("-e"), LineEnd], Tokens(rest));
    assert [Word("set")] + [Word("-e"), LineEnd] == [Word("set"), Word("-e"), LineEnd];
    assert "set -e\n" + rest == "set" + " " + ("-e" + "\n" + rest);
  }

  lemma InstallWords(rest: string)
    ensures Tokens("install -d -m 0700 " + rest)
      == Prepend([Word("install"), Word("-d"), Word("-m"), Word("0700")], Tokens(rest))
  {
    hide Tokens;
    LexWord("0700", rest);
    LexWord("-m", "0700" + " " + rest);
    LexWord("-d", "-m" + " " + ("0700" + " " + rest));
    LexWord("install", "-d" + " " + ("-m" + " " + ("0700" + " " + rest)));
    PrependTwice([Word("-m")], [Word("0700")], Tokens(rest));
    PrependTwice([Word("-d")], [Word("-m")] + [Word("0700")], Tokens(rest));
    PrependTwice([Word("install")], [Word("-d")] + ([Word("-m")] + [Word("0700")]), Tokens(rest));
    hide Prepend;
    assert [Word("install")] + ([Word("-d")] + ([Word("-m")] + [Word("0700")]))
        == [Word("install"), Word("-d"), Word("-m"), Word("0700")];
    assert "install -d -m 0700 " + rest == "install" + " " + ("-d" + " " + ("-m" + " " + ("0700" + " " + rest)));
  }

  lemma CatWords(rest: string)
    ensures Tokens("cat > " + rest) == Prepend([Word("cat"), Into], Tokens(rest))
  {
    hide Tokens;
    LexWord("cat", "> " + rest);
    LexInto(rest);
    PrependTwice([Word("cat")], [Into], Tokens(rest));
    assert [Word("cat")] + [Into] == [Word("cat"), Into];
    assert "cat > " + rest == "cat" + " " + ("> " + rest);
  }

  lemma ChmodLine(mode: string, path: string)
    ensures Tokens("chmod " + (Quote(mode) + " " + Quote(path))) == Some([Word("chmod"), Word(mode), Word(path)])
  {
    hide Tokens, Quote;
    LexWord("chmod", Quote(mode) + " " + Quote(path));
    LexQuotedWord(mode, Quote(path));
    QuotedIsOneWord(path);
    assert [Word("chmod")] + ([Word(mode)] + [Word(path)]) == [Word("chmod"), Word(mode), Word(path)];
    assert "chmod " + (Quote(mode) + " " + Quote(path)) == "chmod" + " " + (Quote(mode) + " " + Quote(path));
  }

  /** Whatever the directory, the path and the mode are, the shell sees exactly these commands. */
  lemma TenantFileScriptReads(dir: string, path: string, mode: string)
    ensures Tokens(TenantFileScript(dir, path, mode)) == Some([
      Word("set"), Word("-e"), LineEnd,
      Word("install"), Word("-d"), Word("-m"), Word("0700"), Word(dir), LineEnd,
      Word("cat"), Into, Word(path), LineEnd,
      Word("chmod"), Word(mode), Word(path)])
  {
    var chmod := "chmod " + (Quote(mode) + " " + Quote(path));
    var cat := "cat > " + (Quote(path) + "\n" + chmod);
    var install := "install -d -m 0700 " + (Quote(dir) + "\n" + cat);
    TenantFileText(dir, path, mode);
    hide Quote, Tokens, TenantFileScript;
    SetLine(install);
    InstallWords(Quote(dir) + "\n" + cat);
    LexQuotedWord(dir, cat);
    CatWords(Quote(path) + "\n" + chmod);
    LexQuotedWord(path, chmod);
    ChmodLine(mode, path);
    var tokens := [Word("chmod"), Word(mode), Word(path)];
    assert Tokens(cat) == Some([Word("cat"), Into] + ([Word(path), LineEnd] + tokens));
    assert Tokens(install) == Some([Word("install"), Word("-d"), Word("-m"), Word("0700")]
      + ([Word(dir), LineEnd] + ([Word("cat"), Into] + ([Word(path), LineEnd] + tokens))));
    assert [Word("set"), Word("-e"), LineEnd] + ([Word("install"), Word("-d"), Word("-m"), Word("0700")]
      + ([Word(dir), LineEnd] + ([Word("cat"), Into] + ([Word(path), LineEnd] + tokens)))) == [
      Word("set"), Word("-e"), LineEnd,
      Word("install"), Word("-d"), Word("-m"), Word("0700"), Word(dir), LineEnd,
      Word("cat"), Into, Word(path), LineEnd,
      Word("chmod"), Word(mode), Word(path)];
  }

  lemma TenantFileText(dir: string, path: string, mode: string)
    ensures TenantFileScript(dir, path, mode) == "set -e\n" + ("install -d -m 0700 " + (Quote(dir) + "\n"
      + ("cat > " + (Quote(path) + "\n" + ("chmod " + (Quote(mode) + " " + Quote(path)))))))
  {
    hide Quote;
    var a, b, c, d := "set -e", "install -d -m 0700 " + Quote(dir), "cat > " + Quote(path),
        "chmod " + Quote(mode) + " " + Quote(path);
    assert [a, b, c, d][1..] == [b, c, d] && [b, c, d][1..] == [c, d] && [c, d][1..] == [d];
    assert Join([c, d], "\n") == c + "\n" + Join([d], "\n") == c + "\n" + d;
    assert Join([b, c, d], "\n") == b + "\n" + (c + "\n" + d);
    assert Join([a, b, c, d], "\n") == a + "\n" + (b + "\n" + (c + "\n" + d));
    assert d == "chmod " + (Quote(mode) + " " + Quote(path));
    assert c + "\n" + d == "cat > " + (Quote(path) + "\n" + d);
    assert b + "\n" + (c + "\n" + d) == "install -d -m 0700 " + (Quote(dir) + "\n" + (c + "\n" + d));
    assert a + "\n" == "set -e\n";
  }

  // ----- The exit trap of the onboarding script -----

  /** The trap's action is quoted text that itself holds a quoted path. */
  function TrapLine(path: string): string { "trap 'rm -f " + (Quote(path) + "' EXIT") }

  function OnboardPath(username: string): string { "/home/" + username + "/.openclaw-overlay/onboard.env" }

  lemma {:induction false} NothingToReplace(s: string)
    requires IsPlain(s)
    ensures ReplaceAll(s, '\'', "'\\''") == s
  {
    if s != [] { NothingToReplace(s[1..]); assert s == [s[0]] + s[1..]; }
  }

  /** Characters between quotes read as themselves. */
  lemma {:induction false} LexInside(s: string, word: Option<string>, rest: string)
    requires Without(s, '\'') && s != []
    ensures Lex(s + rest, word, true) == Lex(rest, Some(Extend(word, s)), true)
  {
    assert (s + rest)[1..] == s[1..] + rest;
    if |s| == 1 {
      assert s[1..] + rest == rest && s == [s[0]];
    } else {
      LexInside(s[1..], Grown(word, s[0]), rest);
      ExtendStep(word, s[0], s[1..]);
      assert [s[0]] + s[1..] == s;
    }
  }

  /** The action of the trap: the inner quotes close and reopen the outer ones, so the path is
      read unquoted, which is harmless for plain paths. */
  lemma LexAction(path: string, rest: string)
    requires IsPlain(path) && path != ""
    ensures Lex("'rm -f " + (Quote(path) + ("'" + rest)), None, false) == Lex(rest, Some("rm -f " + path), false)
  {
    NothingToReplace(path);
    var closing := "'" + ("'" + rest);
    var tail := path + closing;
    assert "'rm -f " + (Quote(path) + ("'" + rest)) == "'" + ("rm -f " + ("'" + tail));
    hide Quote, ReplaceAll;
    OpensAndCloses("rm -f ", tail);
    hide Lex;
    LexPlain(path, Some("rm -f "), closing);
    assert Extend(Some("rm -f "), path) == "rm -f " + path;
    EmptyQuotes(rest, "rm -f " + path);
  }

  /** A quoted text at the start of a word. */
  lemma OpensAndCloses(s: string, tail: string)
    requires Without(s, '\'') && s != ""
    ensures Lex("'" + (s + ("'" + tail)), None, false) == Lex(tail, Some(s), false)
  {
    var t := "'" + (s + ("'" + tail));
    assert t[1..] == s + ("'" + tail);
    LexInside(s, Some(""), "'" + tail);
    assert Extend(Some(""), s) == s;
    assert ("'" + tail)[1..] == tail;
  }

  /** A pair of quotes adds nothing to a word. */
  lemma EmptyQuotes(rest: string, word: string)
    ensures Lex("'" + ("'" + rest), Some(word), false) == Lex(rest, Some(word), false)
  {
    assert ("'" + ("'" + rest))[1..] == "'" + rest && ("'" + rest)[1..] == rest;
  }

  /** For a plain path the shell sees one action for the exit trap, and running that action
      names exactly the file. */
  lemma TrapReads(path: string)
    requires IsPlain(path) && path != ""
    ensures Tokens(TrapLine(path)) == Some([Word("trap"), Word("rm -f " + path), Word("EXIT")])
    ensures Tokens("rm -f " + path) == Some([Word("rm"), Word("-f"), Word(path)])
  {
    hide Quote, Lex, IsPlain;
    var action := "'rm -f " + (Quote(path) + ("'" + " EXIT"));
    assert TrapLine(path) == "trap" + " " + action;
    TrapIsPlain();
    LexWord("trap", action);
    LexAction(path, " EXIT");
    LastWord("rm -f " + path, "EXIT");
    assert " EXIT" == " " + "EXIT";
    assert [Word("trap")] + [Word("rm -f " + path), Word("EXIT")]
      == [Word("trap"), Word("rm -f " + path), Word("EXIT")];
    RemoveReads(path);
  }

  lemma TrapIsPlain()
    ensures IsPlain("trap") && IsPlain("EXIT")
  {}

  /** A word that ends here and one more. */
  lemma LastWord(word: string, w: string)
    requires IsPlain(w) && w != ""
    ensures Lex(" " + w, Some(word), false) == Some([Word(word), Word(w)])
  {
    EndWord(w);
    assert (" " + w)[1..] == w;
    assert [Word(word)] + [Word(w)] == [Word(word), Word(w)];
  }

  lemma EndWord(w: string)
    requires IsPlain(w) && w != ""
    ensures Tokens(w) == Some([Word(w)])
  {
    LexPlain(w, None, "");
    assert w + "" == w && Extend(None, w) == w;
  }

  lemma RemoveReads(path: string)
    requires IsPlain(path) && path != ""
    ensures Tokens("rm -f " + path) == Some([Word("rm"), Word("-f"), Word(path)])
  {
    LexWord("rm", "-f" + " " + path);
    LexWord("-f", path);
    EndWord(path);
    hide Tokens;
    assert "rm -f " + path == "rm" + " " + ("-f" + " " + path);
    assert [Word("rm")] + ([Word("-f")] + [Word(path)]) == [Word("rm"), Word("-f"), Word(path)];
  }

  /** The environment file of every valid user is removed by the trap and nothing else is. */
  lemma OnboardTrapReads(username: string)
    requires ValidUsername(username)
    ensures var path := "/home/" + username + "/.openclaw-overlay/onboard.env";
      && Tokens(TrapLine(path)) == Some([Word("trap"), Word("rm -f " + path), Word("EXIT")])
      && Tokens("rm -f " + path) == Some([Word("rm"), Word("-f"), Word(path)])
  {
    ValidUsernameChars(username);
    PlainPath(username);
    TrapReads(OnboardPath(username));
  }

  lemma PlainPath(username: string)
    requires forall i :: 0 <= i < |username| ==> UsernameChar(username[i])
    ensures IsPlain(OnboardPath(username))
  {
    var front, back := "/home/", "/.openclaw-overlay/onboard.env";
    assert IsPlain(front) && IsPlain(back);
    assert forall c: char :: UsernameChar(c) ==> Plain(c);
    hide Plain;
    assert IsPlain(username);
  }
}
