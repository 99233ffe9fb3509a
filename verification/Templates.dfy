/** Template rendering: one pass of substitution over `${NAME}` tokens. */
module Templates {
  import opened Text

  datatype RenderError = UnknownVar(name: string)

  type Vars = map<string, string>

  // ----- Matching -----

  /** The position of the first closing brace, or the length of the text. */
  function Brace(s: string): (n: nat)
    ensures n <= |s| && Without(s[..n], '}') && (n < |s| ==> s[n] == '}')
  {
    if s == [] || s[0] == '}' then 0 else 1 + Brace(s[1..])
  }

  /** A token starts the text: `${`, at least one character that is no closing brace, `}`. */
  predicate StartsToken(s: string) {
    |s| >= 2 && s[0] == '$' && s[1] == '{' && 0 < Brace(s[2..]) < |s| - 2
  }

  function TokenName(s: string): string
    requires StartsToken(s)
  {
    s[2..2 + Brace(s[2..])]
  }

  function TokenLength(s: string): (n: nat)
    requires StartsToken(s)
    ensures 3 < n <= |s|
  {
    Brace(s[2..]) + 3
  }

  // ----- The substitution as the program performs it -----

  datatype Replaced = Replaced(text: string, err: Option<RenderError>)

  /** What the callback does with a match once an error may have been noted. */
  function Callback(name: string, whole: string, vars: Vars, err: Option<RenderError>): Replaced {
    if err.Some? then Replaced(whole, err)
    else if name !in vars then Replaced(whole, Some(UnknownVar(name)))
    else Replaced(vars[name], None)
  }

  /** Replace the matches from left to right, copying everything between them. */
  function ReplaceAll(s: string, vars: Vars, err: Option<RenderError>): Replaced
    decreases |s|
  {
    if s == [] then Replaced("", err)
    else if StartsToken(s) then
      var one := Callback(TokenName(s), s[..TokenLength(s)], vars, err);
      var rest := ReplaceAll(s[TokenLength(s)..], vars, one.err);
      Replaced(one.text + rest.text, rest.err)
    else
      var rest := ReplaceAll(s[1..], vars, err);
      Replaced([s[0]] + rest.text, rest.err)
  }

  function Render(template: string, vars: Vars): Result<string, RenderError> {
    var r := ReplaceAll(template, vars, None);
    if r.err.Some? then Err(r.err.value) else Ok(r.text)
  }

  // ----- The leftmost parse -----

  datatype Piece = Literal(c: char) | Token(name: string)

  function PieceText(p: Piece): string {
    match p case Literal(c) => [c] case Token(name) => "${" + name + "}"
  }

  function Unparse(ps: seq<Piece>): string {
    if ps == [] then "" else PieceText(ps[0]) + Unparse(ps[1..])
  }

  /** The pieces read from left to right: token names are not empty and hold no closing brace,
      and no token begins where a literal character stands. */
  predicate Leftmost(ps: seq<Piece>) {
    forall i :: 0 <= i < |ps| ==> PieceIsLeftmost(ps[i], Unparse(ps[i..]))
  }

  /** Some token is a prefix of the text. */
  ghost predicate SomeToken(s: string) {
    exists name: string, rest: string :: name != "" && Without(name, '}') && s == "${" + name + "}" + rest
  }

  predicate PieceIsLeftmost(p: Piece, s: string) {
    match p
    case Literal(_) => !StartsToken(s)
    case Token(name) => name != "" && Without(name, '}')
  }

  lemma {:induction false} BraceBehind(name: string, rest: string)
    requires Without(name, '}')
    ensures Brace(name + "}" + rest) == |name|
  {
    var t := name + "}" + rest;
    if name == [] {
      assert t[0] == '}';
    } else {
      BraceBehind(name[1..], rest);
      assert t[1..] == name[1..] + "}" + rest;
    }
  }

  lemma TokenStarts(name: string, rest: string)
    requires name != "" && Without(name, '}')
    ensures var s := "${" + name + "}" + rest;
      StartsToken(s) && TokenName(s) == name && TokenLength(s) == |name| + 3 && s[|name| + 3..] == rest
  {
    var s := "${" + name + "}" + rest;
    assert s[2..] == name + "}" + rest;
    BraceBehind(name, rest);
  }

  /** The matching condition means exactly that some token is a prefix. */
  lemma StartsTokenIsSomeToken(s: string)
    ensures StartsToken(s) <==> SomeToken(s)
  {
    if StartsToken(s) {
      var n := Brace(s[2..]);
      var name, rest := s[2..][..n], s[2..][n + 1..];
      assert s == "${" + name + "}" + rest && Without(name, '}');
    }
    if SomeToken(s) {
      var name: string, rest: string :| name != "" && Without(name, '}') && s == "${" + name + "}" + rest;
      TokenStarts(name, rest);
    }
  }

  function Parse(s: string): seq<Piece>
    decreases |s|
  {
    if s == [] then []
    else if StartsToken(s) then [Token(TokenName(s))] + Parse(s[TokenLength(s)..])
    else [Literal(s[0])] + Parse(s[1..])
  }

  lemma LeftmostTail(ps: seq<Piece>)
    requires Leftmost(ps) && ps != []
    ensures Leftmost(ps[1..]) && PieceIsLeftmost(ps[0], Unparse(ps))
  {
    assert ps[0..] == ps;
    forall i | 0 <= i < |ps[1..]| ensures PieceIsLeftmost(ps[1..][i], Unparse(ps[1..][i..])) {
      assert ps[1..][i..] == ps[i + 1..] && ps[1..][i] == ps[i + 1];
    }
  }

  lemma LeftmostCons(p: Piece, ps: seq<Piece>)
    requires Leftmost(ps) && PieceIsLeftmost(p, PieceText(p) + Unparse(ps))
    ensures Leftmost([p] + ps) && Unparse([p] + ps) == PieceText(p) + Unparse(ps)
  {
    var all := [p] + ps;
    assert all[1..] == ps && all[0..] == all;
    forall i | 0 <= i < |all| ensures PieceIsLeftmost(all[i], Unparse(all[i..])) {
      if i > 0 { assert all[i..] == ps[i - 1..]; }
    }
  }

  lemma NothingIsLeftmost()
    ensures Leftmost([])
  {}

  lemma TokenSplits(s: string)
    requires StartsToken(s)
    ensures TokenLength(s) <= |s| && s == PieceText(Token(TokenName(s))) + s[TokenLength(s)..]
    ensures PieceIsLeftmost(Token(TokenName(s)), s)
  {
    var n := Brace(s[2..]);
    var name, rest := s[2..][..n], s[2..][n + 1..];
    assert name == TokenName(s) && rest == s[TokenLength(s)..];
    assert s[2..] == name + "}" + rest && s == ['$', '{'] + s[2..];
    hide Brace;
    assert "${" + (name + "}" + rest) == ("${" + name + "}") + rest;
  }

  lemma CharSplits(s: string)
    requires s != [] && !StartsToken(s)
    ensures s == PieceText(Literal(s[0])) + s[1..]
    ensures PieceIsLeftmost(Literal(s[0]), s)
  {}

  /** Every text has a leftmost parse. */
  lemma {:induction false} ParseIsLeftmost(s: string)
    ensures Leftmost(Parse(s)) && Unparse(Parse(s)) == s
    decreases |s|
  {
    hide StartsToken, TokenName, TokenLength, PieceIsLeftmost, Leftmost, PieceText;
    if s == [] {
      assert Leftmost([]) by { NothingIsLeftmost(); }
    } else {
      if StartsToken(s) {
        var rest := s[TokenLength(s)..];
        ParseIsLeftmost(rest);
        TokenSplits(s);
        LeftmostCons(Token(TokenName(s)), Parse(rest));
      } else {
        ParseIsLeftmost(s[1..]);
        CharSplits(s);
        LeftmostCons(Literal(s[0]), Parse(s[1..]));
      }
    }
  }

  /** No text has two. */
  lemma {:induction false} LeftmostIsUnique(ps: seq<Piece>)
    requires Leftmost(ps)
    ensures Parse(Unparse(ps)) == ps
  {
    if ps != [] {
      LeftmostTail(ps);
      LeftmostIsUnique(ps[1..]);
      var rest := Unparse(ps[1..]);
      match ps[0]
      case Token(name) =>
        assert Unparse(ps) == "${" + name + "}" + rest;
        TokenStarts(name, rest);
      case Literal(c) =>
        assert Unparse(ps) == [c] + rest && Unparse(ps)[1..] == rest;
    }
  }

  // ----- Substitution on pieces -----

  /** The first token the variables do not define. */
  function FirstUnknown(ps: seq<Piece>, vars: Vars): Option<string> {
    if ps == [] then None
    else if ps[0].Token? && ps[0].name !in vars then Some(ps[0].name)
    else FirstUnknown(ps[1..], vars)
  }

  function Substituted(ps: seq<Piece>, vars: Vars): string {
    if ps == [] then ""
    else
      var first := if ps[0].Token? && ps[0].name in vars then vars[ps[0].name] else PieceText(ps[0]);
      first + Substituted(ps[1..], vars)
  }

  /** After an error the rest of the text is copied. */
  lemma {:induction false} ReplaceAfterError(s: string, vars: Vars, e: RenderError)
    ensures ReplaceAll(s, vars, Some(e)).err == Some(e)
    decreases |s|
  {
    if s != [] { ReplaceAfterError(if StartsToken(s) then s[TokenLength(s)..] else s[1..], vars, e); }
  }

  lemma {:induction false} ReplaceByPieces(ps: seq<Piece>, vars: Vars)
    requires Leftmost(ps)
    ensures var r := ReplaceAll(Unparse(ps), vars, None);
      match FirstUnknown(ps, vars)
      case Some(name) => r.err == Some(UnknownVar(name))
      case None => r == Replaced(Substituted(ps, vars), None)
  {
    if ps != [] {
      LeftmostTail(ps);
      ReplaceByPieces(ps[1..], vars);
      var s, rest := Unparse(ps), Unparse(ps[1..]);
      match ps[0]
      case Token(name) =>
        assert s == "${" + name + "}" + rest;
        TokenStarts(name, rest);
        if name !in vars { ReplaceAfterError(rest, vars, UnknownVar(name)); }
      case Literal(c) =>
        assert s == [c] + rest && s[1..] == rest;
    }
  }

  /** Rendering is substitution on the leftmost parse of the template: every token is replaced
      by its value, every other character is kept, inserted values are not looked at again, and
      the result is an error exactly when some token is unknown, naming the first such token. */
  lemma RenderIsSubstitution(ps: seq<Piece>, vars: Vars)
    requires Leftmost(ps)
    ensures Render(Unparse(ps), vars) == match FirstUnknown(ps, vars)
      case Some(name) => Err(UnknownVar(name))
      case None => Ok(Substituted(ps, vars))
  {
    ReplaceByPieces(ps, vars);
  }

  /** Piece `i` is a token of that name, undefined, and every earlier token is defined. */
  predicate UnknownAt(ps: seq<Piece>, vars: Vars, i: int, name: string) {
    && 0 <= i < |ps| && ps[i] == Token(name) && name !in vars
    && forall j :: 0 <= j < i && ps[j].Token? ==> ps[j].name in vars
  }

  lemma {:induction false} FirstUnknownIsFirst(ps: seq<Piece>, vars: Vars)
    ensures FirstUnknown(ps, vars).None? ==> forall i :: 0 <= i < |ps| && ps[i].Token? ==> ps[i].name in vars
    ensures FirstUnknown(ps, vars).Some? ==> exists i :: UnknownAt(ps, vars, i, FirstUnknown(ps, vars).value)
  {
    if ps != [] && !(ps[0].Token? && ps[0].name !in vars) {
      FirstUnknownIsFirst(ps[1..], vars);
      forall i | 0 <= i < |ps[1..]| ensures ps[1..][i] == ps[i + 1] {}
      if FirstUnknown(ps, vars).Some? {
        var name := FirstUnknown(ps, vars).value;
        var i :| UnknownAt(ps[1..], vars, i, name);
        forall j | 0 <= j < i + 1 && ps[j].Token? ensures ps[j].name in vars {
          if j > 0 { assert ps[1..][j - 1] == ps[j]; }
        }
        assert UnknownAt(ps, vars, i + 1, name);
      }
    } else if ps != [] {
      assert FirstUnknown(ps, vars) == Some(ps[0].name) && UnknownAt(ps, vars, 0, ps[0].name);
    }
  }

  /** Rendering succeeds exactly when every token of the template is defined; which tokens the
      template has does not depend on the values, so no value can introduce one. */
  lemma RenderSucceedsExactly(template: string, vars: Vars)
    ensures Render(template, vars).Ok?
      <==> forall i :: 0 <= i < |Parse(template)| && Parse(template)[i].Token? ==> Parse(template)[i].name in vars
  {
    ParseIsLeftmost(template);
    RenderIsSubstitution(Parse(template), vars);
    FirstUnknownIsFirst(Parse(template), vars);
  }
}
