/** Templates, and why substituting an allowed user name into one cannot move
    the boundaries of the TOML strings around it. */
module TomlLexing {
  import opened Base
  import opened Usernames

  /** A template is text with placeholders for the user name. */
  datatype Piece = Literally(text: string) | UserName

  type Template = seq<Piece>

  function Render(t: Template, user: string): string {
    if t == [] then ""
    else (match t[0] case Literally(text) => text case UserName => user) + Render(t[1..], user)
  }

  /** What the lexer reads: characters, and placeholders not yet substituted. */
  datatype Sym = Ch(c: char) | Hole

  function Chars(s: string): (r: seq<Sym>)
    ensures |r| == |s| && forall i :: 0 <= i < |s| ==> r[i] == Ch(s[i])
  {
    seq(|s|, i requires 0 <= i < |s| => Ch(s[i]))
  }

  function Symbols(t: Template): seq<Sym> {
    if t == [] then []
    else (match t[0] case Literally(text) => Chars(text) case UserName => [Hole]) + Symbols(t[1..])
  }

  // ----- a lexer for single-line strings and comments -----

  datatype Mode = Plain | Comment | Literal | Basic | Escape | Hex(left: nat) | Broken

  datatype Elem = Raw(sym: Sym) | Escaped(sym: Sym) | HexDigit(sym: Sym)

  datatype Token = Mark(sym: Sym) | BasicString(elems: seq<Elem>) | LiteralString(elems: seq<Elem>)

  datatype Lexer = Lexer(mode: Mode, current: seq<Elem>, tokens: seq<Token>)

  const START := Lexer(Plain, [], [])

  predicate SimpleEscape(sym: Sym) {
    sym.Ch? && sym.c in {'b', 't', 'n', 'f', 'r', '"', '\\'}
  }

  predicate IsHexDigit(sym: Sym) {
    sym.Ch? && ('0' <= sym.c <= '9' || 'a' <= sym.c <= 'f' || 'A' <= sym.c <= 'F')
  }

  function Step(l: Lexer, sym: Sym): Lexer {
    match l.mode
    case Plain =>
      if sym == Ch('"') then l.(mode := Basic)
      else if sym == Ch('\'') then l.(mode := Literal)
      else if sym == Ch('#') then l.(mode := Comment)
      else l.(tokens := l.tokens + [Mark(sym)])
    case Comment =>
      if sym == Ch('\n') then Lexer(Plain, [], l.tokens + [Mark(sym)]) else l
    case Literal =>
      if sym == Ch('\'') then Lexer(Plain, [], l.tokens + [LiteralString(l.current)])
      else if sym == Ch('\n') then l.(mode := Broken)
      else l.(current := l.current + [Raw(sym)])
    case Basic =>
      if sym == Ch('"') then Lexer(Plain, [], l.tokens + [BasicString(l.current)])
      else if sym == Ch('\\') then l.(mode := Escape)
      else if sym == Ch('\n') then l.(mode := Broken)
      else l.(current := l.current + [Raw(sym)])
    case Escape =>
      if sym == Ch('u') then l.(mode := Hex(4))
      else if sym == Ch('U') then l.(mode := Hex(8))
      else if SimpleEscape(sym) then l.(mode := Basic, current := l.current + [Escaped(sym)])
      else l.(mode := Broken)
    case Hex(left) =>
      if IsHexDigit(sym)
      then l.(mode := if left <= 1 then Basic else Hex(left - 1), current := l.current + [HexDigit(sym)])
      else l.(mode := Broken)
    case Broken => l
  }

  function Lex(l: Lexer, syms: seq<Sym>): Lexer
    decreases syms
  {
    if syms == [] then l else Lex(Step(l, syms[0]), syms[1..])
  }

  /** Every placeholder stands inside a string or a comment, and not in the
      middle of an escape sequence, as far as the template can be read. */
  predicate HolesQuoted(l: Lexer, syms: seq<Sym>)
    decreases syms
  {
    syms != [] ==>
      && (syms[0].Hole? ==> l.mode in {Basic, Literal, Comment, Broken})
      && HolesQuoted(Step(l, syms[0]), syms[1..])
  }

  // ----- substituting in lexed text -----

  function RawText(s: string): (r: seq<Elem>)
    ensures |r| == |s| && forall i :: 0 <= i < |s| ==> r[i] == Raw(Ch(s[i]))
  {
    seq(|s|, i requires 0 <= i < |s| => Raw(Ch(s[i])))
  }

  function FillElems(elems: seq<Elem>, user: string): seq<Elem> {
    if elems == [] then []
    else
      var e := elems[|elems| - 1];
      FillElems(elems[..|elems| - 1], user) + (if e == Raw(Hole) then RawText(user) else [e])
  }

  function FillToken(t: Token, user: string): Token {
    match t
    case Mark(_) => t
    case BasicString(elems) => BasicString(FillElems(elems, user))
    case LiteralString(elems) => LiteralString(FillElems(elems, user))
  }

  function FillTokens(ts: seq<Token>, user: string): (r: seq<Token>)
    ensures |r| == |ts| && forall i :: 0 <= i < |ts| ==> r[i] == FillToken(ts[i], user)
  {
    seq(|ts|, i requires 0 <= i < |ts| => FillToken(ts[i], user))
  }

  function Fill(l: Lexer, user: string): Lexer {
    Lexer(l.mode, FillElems(l.current, user), FillTokens(l.tokens, user))
  }

  function FillSyms(syms: seq<Sym>, user: string): seq<Sym> {
    if syms == [] then []
    else (if syms[0].Hole? then Chars(user) else [syms[0]]) + FillSyms(syms[1..], user)
  }

  lemma FillAppended(elems: seq<Elem>, e: Elem, user: string)
    ensures FillElems(elems + [e], user) ==
            FillElems(elems, user) + (if e == Raw(Hole) then RawText(user) else [e])
  {
    assert (elems + [e])[..|elems|] == elems;
  }

  lemma FillTokensAppended(ts: seq<Token>, t: Token, user: string)
    ensures FillTokens(ts + [t], user) == FillTokens(ts, user) + [FillToken(t, user)]
  {
  }

  lemma StepCommutesWithFill(l: Lexer, c: char, user: string)
    ensures Step(Fill(l, user), Ch(c)) == Fill(Step(l, Ch(c)), user)
  {
    match l.mode
    case Plain => FillTokensAppended(l.tokens, Mark(Ch(c)), user);
    case Comment => FillTokensAppended(l.tokens, Mark(Ch(c)), user);
    case Literal =>
      FillTokensAppended(l.tokens, LiteralString(l.current), user);
      FillAppended(l.current, Raw(Ch(c)), user);
    case Basic =>
      FillTokensAppended(l.tokens, BasicString(l.current), user);
      FillAppended(l.current, Raw(Ch(c)), user);
    case Escape => FillAppended(l.current, Escaped(Ch(c)), user);
    case Hex(_) => FillAppended(l.current, HexDigit(Ch(c)), user);
    case Broken =>
  }

  /** Characters that end no string and no comment and start no escape. */
  predicate Inert(s: string) {
    forall i :: 0 <= i < |s| ==> s[i] != '"' && s[i] != '\'' && s[i] != '\\' && s[i] != '\n'
  }

  lemma AllowedNamesAreInert(user: string)
    requires ValidateUsername(user)
    ensures Inert(user)
  {
  }

  /** The lexer behind inert text: a string takes it in, a comment skips it. */
  function Swallow(l: Lexer, text: string): Lexer {
    if l.mode in {Basic, Literal} then l.(current := l.current + RawText(text)) else l
  }

  lemma {:induction false} UserIsInert(l: Lexer, user: string, rest: seq<Sym>)
    requires l.mode in {Basic, Literal, Comment, Broken}
    requires Inert(user)
    ensures Lex(l, Chars(user) + rest) == Lex(Swallow(l, user), rest)
    decreases |user|
  {
    if user == "" {
      assert Chars(user) + rest == rest && l.current + RawText(user) == l.current;
    } else {
      var syms := Chars(user) + rest;
      assert syms[0] == Ch(user[0]) && syms[1..] == Chars(user[1..]) + rest;
      UserIsInert(Step(l, syms[0]), user[1..], rest);
      assert (l.current + [Raw(Ch(user[0]))]) + RawText(user[1..]) == l.current + RawText(user);
    }
  }

  lemma HoleCommutesWithFill(l: Lexer, user: string)
    requires l.mode in {Basic, Literal, Comment, Broken}
    ensures Fill(Step(l, Hole), user) == Swallow(Fill(l, user), user)
  {
    FillAppended(l.current, Raw(Hole), user);
  }

  lemma {:induction false} LexCommutesWithFill(l: Lexer, syms: seq<Sym>, user: string)
    requires HolesQuoted(l, syms)
    requires Inert(user)
    ensures Lex(Fill(l, user), FillSyms(syms, user)) == Fill(Lex(l, syms), user)
    decreases |syms|
  {
    if syms != [] {
      var rest := FillSyms(syms[1..], user);
      LexCommutesWithFill(Step(l, syms[0]), syms[1..], user);
      match syms[0]
      case Hole =>
        UserIsInert(Fill(l, user), user, rest);
        HoleCommutesWithFill(l, user);
      case Ch(c) =>
        StepCommutesWithFill(l, c, user);
        assert ([syms[0]] + rest)[1..] == rest;
    }
  }

  lemma FillSymsCons(sym: Sym, rest: seq<Sym>, user: string)
    ensures FillSyms([sym] + rest, user) == (if sym.Hole? then Chars(user) else [sym]) + FillSyms(rest, user)
  {
    assert ([sym] + rest)[1..] == rest;
  }

  lemma Associative<T>(a: seq<T>, b: seq<T>, c: seq<T>)
    ensures a + (b + c) == (a + b) + c
  {
  }

  lemma {:induction false} FillSymsSplits(a: seq<Sym>, b: seq<Sym>, user: string)
    ensures FillSyms(a + b, user) == FillSyms(a, user) + FillSyms(b, user)
    decreases |a|
  {
    if a == [] {
      assert a + b == b;
      assert FillSyms(a, user) == [];
    } else {
      var sym, rest := a[0], a[1..];
      assert a == [sym] + rest;
      FillSymsSplits(rest, b, user);
      Associative([sym], rest, b);
      FillSymsCons(sym, rest, user);
      FillSymsCons(sym, rest + b, user);
      Associative(if sym.Hole? then Chars(user) else [sym], FillSyms(rest, user), FillSyms(b, user));
    }
  }

  lemma {:induction false} FillSymsOfText(text: string, user: string)
    ensures FillSyms(Chars(text), user) == Chars(text)
    decreases |text|
  {
    if text != "" {
      assert Chars(text)[1..] == Chars(text[1..]);
      FillSymsOfText(text[1..], user);
    }
  }

  lemma {:induction false} RenderedSymbols(t: Template, user: string)
    ensures FillSyms(Symbols(t), user) == Chars(Render(t, user))
  {
    if t != [] {
      RenderedSymbols(t[1..], user);
      match t[0]
      case Literally(text) =>
        FillSymsSplits(Chars(text), Symbols(t[1..]), user);
        FillSymsOfText(text, user);
      case UserName =>
        FillSymsSplits([Hole], Symbols(t[1..]), user);
        assert FillSyms([Hole], user) == Chars(user) + FillSyms([], user);
    }
  }

  /** Rendering preserves structure: lexing the rendered text gives the tokens of
      the template, with the name substituted inside its string tokens. */
  ghost predicate KeepsStructure(t: Template, user: string) {
    Lex(START, Chars(Render(t, user))) == Fill(Lex(START, Symbols(t)), user)
  }

  lemma RenderingPreservesStructure(t: Template, user: string)
    requires ValidateUsername(user) && HolesQuoted(START, Symbols(t))
    ensures KeepsStructure(t, user)
    ensures |Lex(START, Chars(Render(t, user))).tokens| == |Lex(START, Symbols(t)).tokens|
  {
    AllowedNamesAreInert(user);
    LexCommutesWithFill(START, Symbols(t), user);
    RenderedSymbols(t, user);
    assert Fill(START, user) == START;
  }

  // ----- and only such templates keep their structure -----

  lemma {:induction false} LexOnlyAdds(l: Lexer, syms: seq<Sym>)
    ensures l.tokens <= Lex(l, syms).tokens
    ensures Lex(l, syms).tokens == l.tokens ==> l.current <= Lex(l, syms).current
    decreases syms
  {
    if syms != [] {
      LexOnlyAdds(Step(l, syms[0]), syms[1..]);
    }
  }

  lemma {:induction false} BrokenStays(l: Lexer, syms: seq<Sym>)
    requires l.mode == Broken
    ensures Lex(l, syms) == l
    decreases syms
  {
    if syms != [] {
      BrokenStays(l, syms[1..]);
    }
  }

  /** A placeholder outside of strings is a token of its own, the letter another. */
  lemma PlainHoleShows(l: Lexer, a: seq<Sym>, b: seq<Sym>)
    requires l.mode == Plain
    ensures Lex(Step(Fill(l, "b"), Ch('b')), a) != Fill(Lex(Step(l, Hole), b), "b")
  {
    var n := |l.tokens|;
    LexOnlyAdds(Step(Fill(l, "b"), Ch('b')), a);
    LexOnlyAdds(Step(l, Hole), b);
    assert Lex(Step(Fill(l, "b"), Ch('b')), a).tokens[n] == Mark(Ch('b'));
    assert Fill(Lex(Step(l, Hole), b), "b").tokens[n] == Mark(Hole);
  }

  /** A placeholder inside an escape sequence breaks the template, the letter `b`
      goes on with the sequence. */
  lemma EscapedHoleShows(l: Lexer, a: seq<Sym>, b: seq<Sym>)
    requires l.mode == Escape || l.mode.Hex?
    ensures Lex(Step(Fill(l, "b"), Ch('b')), a) != Fill(Lex(Step(l, Hole), b), "b")
  {
    var next := Step(Fill(l, "b"), Ch('b'));
    LexOnlyAdds(next, a);
    BrokenStays(Step(l, Hole), b);
    assert |next.current| == |Fill(l, "b").current| + 1;
  }

  lemma {:induction false} BadHoleShows(l: Lexer, syms: seq<Sym>)
    requires !HolesQuoted(l, syms)
    ensures Lex(Fill(l, "b"), FillSyms(syms, "b")) != Fill(Lex(l, syms), "b")
    decreases |syms|
  {
    var rest := FillSyms(syms[1..], "b");
    match syms[0]
    case Ch(c) =>
      StepCommutesWithFill(l, c, "b");
      assert ([syms[0]] + rest)[1..] == rest;
      BadHoleShows(Step(l, syms[0]), syms[1..]);
    case Hole =>
      assert Chars("b") + rest == [Ch('b')] + rest;
      if l.mode in {Basic, Literal, Comment, Broken} {
        UserIsInert(Fill(l, "b"), "b", rest);
        HoleCommutesWithFill(l, "b");
        BadHoleShows(Step(l, Hole), syms[1..]);
      } else {
        assert ([Ch('b')] + rest)[1..] == rest;
        if l.mode == Plain {
          PlainHoleShows(l, rest, syms[1..]);
        } else {
          EscapedHoleShows(l, rest, syms[1..]);
        }
      }
  }

  /** Exactly which templates are safe: all allowed names keep the structure if and
      only if no placeholder stands outside of strings and comments or inside an
      escape sequence. The name `b` gives every other template away. */
  lemma SafeTemplatesExactly(t: Template)
    ensures (forall user :: ValidateUsername(user) ==> KeepsStructure(t, user)) <==> HolesQuoted(START, Symbols(t))
  {
    if HolesQuoted(START, Symbols(t)) {
      forall user | ValidateUsername(user)
        ensures KeepsStructure(t, user)
      {
        RenderingPreservesStructure(t, user);
      }
    } else {
      BadHoleShows(START, Symbols(t));
      RenderedSymbols(t, "b");
      assert Fill(START, "b") == START;
      assert ValidateUsername("b") && !KeepsStructure(t, "b");
    }
  }

  /** For instance inside a `\u` escape: what breaks the template makes a string of
      one character once the name `a` is in it. */
  lemma PlaceholderInEscapeChangesMeaning()
    ensures var t := [Literally("\"\\u000"), UserName, Literally("\"")];
            && Lex(START, Symbols(t)).mode == Broken
            && Lex(START, Chars(Render(t, "a"))).mode == Plain
            && |Lex(START, Chars(Render(t, "a"))).tokens| == 1
            && !KeepsStructure(t, "a")
  {
    var t := [Literally("\"\\u000"), UserName, Literally("\"")];
    var quote := [Ch('"')];
    var head := [Ch('"'), Ch('\\'), Ch('u'), Ch('0'), Ch('0'), Ch('0')];
    assert t[1..] == [UserName, Literally("\"")] && t[1..][1..] == [Literally("\"")] && t[1..][1..][1..] == [];
    assert Symbols(t) == head + ([Hole] + quote);
    assert Chars(Render(t, "a")) == head + ([Ch('a')] + quote);
    var inside := LexEscapeHead(head);
    LexSplits(START, head, [Hole] + quote);
    LexSplits(START, head, [Ch('a')] + quote);
    assert ([Hole] + quote)[1..] == quote && ([Ch('a')] + quote)[1..] == quote && quote[1..] == [];
  }

  lemma LexEscapeHead(head: seq<Sym>) returns (l: Lexer)
    requires head == [Ch('"'), Ch('\\'), Ch('u'), Ch('0'), Ch('0'), Ch('0')]
    ensures l == Lex(START, head) && l.mode == Hex(1) && l.tokens == []
  {
    var open, escape := Lexer(Basic, [], []), Lexer(Hex(4), [], []);
    assert head[1..] == [Ch('\\'), Ch('u'), Ch('0'), Ch('0'), Ch('0')];
    assert head[1..][1..] == [Ch('u'), Ch('0'), Ch('0'), Ch('0')];
    assert Lex(START, head) == Lex(open, head[1..]) == Lex(open.(mode := Escape), head[1..][1..]);
    var zeros := [Ch('0'), Ch('0'), Ch('0')];
    assert head[1..][1..][1..] == zeros;
    assert Lex(START, head) == Lex(escape, zeros);
    assert zeros[1..] == [Ch('0'), Ch('0')] && zeros[1..][1..] == [Ch('0')] && zeros[1..][1..][1..] == [];
    l := Lex(START, head);
  }

  lemma {:induction false} LexSplits(l: Lexer, a: seq<Sym>, b: seq<Sym>)
    ensures Lex(l, a + b) == Lex(Lex(l, a), b)
    decreases a
  {
    if a == [] {
      assert a + b == b;
    } else {
      assert (a + b)[1..] == a[1..] + b;
      LexSplits(Step(l, a[0]), a[1..], b);
    }
  }

  /** The text that a string token stands for, if it holds no escapes. */
  function Content(elems: seq<Elem>): Option<string> {
    if elems == [] then Some("")
    else
      var e := elems[|elems| - 1];
      match Content(elems[..|elems| - 1])
      case None => None
      case Some(s) => if e.Raw? && e.sym.Ch? then Some(s + [e.sym.c]) else None
  }

  /** The same for a string of a template, in which placeholders stand for `user`. */
  function FilledContent(elems: seq<Elem>, user: string): Option<string> {
    if elems == [] then Some("")
    else
      var e := elems[|elems| - 1];
      match FilledContent(elems[..|elems| - 1], user)
      case None => None
      case Some(s) => if !e.Raw? then None else Some(s + (if e.sym.Hole? then user else [e.sym.c]))
  }

  lemma {:induction false} ContentGrows(elems: seq<Elem>, s: string)
    ensures Content(elems + RawText(s)) ==
            if Content(elems).Some? then Some(Content(elems).value + s) else None
    decreases |s|
  {
    if s == "" {
      assert elems + RawText(s) == elems;
      assert Content(elems).Some? ==> Content(elems).value + s == Content(elems).value;
    } else {
      var n := |s| - 1;
      ContentGrows(elems, s[..n]);
      var all := elems + RawText(s);
      assert all[..|all| - 1] == elems + RawText(s[..n]);
      assert s[..n] + [s[n]] == s;
      assert Content(elems).Some? ==>
               (Content(elems).value + s[..n]) + [s[n]] == Content(elems).value + s;
    }
  }

  lemma {:induction false} FilledElemsReadBack(elems: seq<Elem>, user: string)
    ensures Content(FillElems(elems, user)) == FilledContent(elems, user)
  {
    if elems != [] {
      var before, e := elems[..|elems| - 1], elems[|elems| - 1];
      FilledElemsReadBack(before, user);
      if e == Raw(Hole) {
        ContentGrows(FillElems(before, user), user);
      } else {
        var all := FillElems(before, user) + [e];
        assert all[..|all| - 1] == FillElems(before, user);
      }
    }
  }

  /** Every string of the rendered text that has no escapes reads as the template
      has it, with exactly the name in the place of each placeholder. */
  lemma StringsReadBackWithTheName(t: Template, user: string, k: nat)
    requires ValidateUsername(user) && HolesQuoted(START, Symbols(t))
    requires k < |Lex(START, Symbols(t)).tokens| && !Lex(START, Symbols(t)).tokens[k].Mark?
    ensures var written := Lex(START, Symbols(t)).tokens[k];
            && k < |Lex(START, Chars(Render(t, user))).tokens|
            && var read := Lex(START, Chars(Render(t, user))).tokens[k];
               && !read.Mark? && (read.BasicString? <==> written.BasicString?)
               && Content(read.elems) == FilledContent(written.elems, user)
               && (written.elems == [Raw(Hole)] ==> Content(read.elems) == Some(user))
  {
    RenderingPreservesStructure(t, user);
    var elems := Lex(START, Symbols(t)).tokens[k].elems;
    FilledElemsReadBack(elems, user);
    if elems == [Raw(Hole)] {
      assert elems[..0] == [];
      assert "" + user == user;
    }
  }

  /** The allowlist is what makes this work: a quote in the name ends the string. */
  lemma QuoteBreaksOut()
    ensures var t := [Literally("\""), UserName, Literally("\"")];
            && HolesQuoted(START, Symbols(t))
            && |Lex(START, Symbols(t)).tokens| == 1
            && Lex(START, Chars(Render(t, "\""))).mode == Basic
  {
    var t := [Literally("\""), UserName, Literally("\"")];
    assert t[1..] == [UserName, Literally("\"")] && t[1..][1..] == [Literally("\"")] && t[1..][1..][1..] == [];
    assert Symbols(t) == [Ch('"'), Hole, Ch('"')];
    assert Symbols(t)[1..] == [Hole, Ch('"')] && [Hole, Ch('"')][1..] == [Ch('"')] && [Ch('"')][1..] == [];
    assert Chars(Render(t, "\"")) == [Ch('"'), Ch('"'), Ch('"')];
    assert [Ch('"'), Ch('"'), Ch('"')][1..] == [Ch('"'), Ch('"')] && [Ch('"'), Ch('"')][1..] == [Ch('"')];
  }
}
