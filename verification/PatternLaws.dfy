/** What patterns mean, written out without the predicates and constants the parser and
    the compiler are built from. */
module PatternLaws {
  import opened Options
  import opened PatternTokens
  import opened PatternParser
  import opened Languages
  import opened RegexText
  import opened PatternCompiler
  import opened PatternCompilation
  import ParserLaws

  // ----------------------------------------------------------------- repetition

  function Joined(parts: seq<string>): string {
    if parts == [] then "" else parts[0] + Joined(parts[1..])
  }

  predicate MayRepeat(m: Modifier, n: nat) {
    (n == 1) || (n == 0 && (m == Optional || m == ZeroOrMore)) || (n > 1 && (m == OneOrMore || m == ZeroOrMore))
  }

  /** w is put together from words of a. */
  ghost predicate IsChain(parts: seq<string>, a: Lang, w: string) {
    (forall i :: 0 <= i < |parts| ==> parts[i] in a) && Joined(parts) == w
  }

  lemma ChainCons(x: string, parts: seq<string>, a: Lang, w: string)
    requires x in a && IsChain(parts, a, w)
    ensures IsChain([x] + parts, a, x + w)
  {
    assert ([x] + parts)[1..] == parts;
  }

  lemma ChainTail(parts: seq<string>, a: Lang, w: string)
    requires parts != [] && IsChain(parts, a, w)
    ensures parts[0] in a && IsChain(parts[1..], a, Joined(parts[1..])) && w == parts[0] + Joined(parts[1..])
  {
  }

  lemma {:induction false} PowParts(a: Lang, n: nat, w: string)
    ensures w in Pow(a, n) <==> exists parts: seq<string> :: |parts| == n && IsChain(parts, a, w)
  {
    hide IsChain, Joined;
    if n == 0 {
      assert IsChain([], a, "") by {
        EmptyChain(a);
      }
      if parts: seq<string> :| |parts| == 0 && IsChain(parts, a, w) {
        EmptyChain(a);
        OneWord(parts, a, w, "");
      }
    } else {
      if w in Pow(a, n) {
        var x, y :| x in a && y in Pow(a, n - 1) && w == x + y;
        PowParts(a, n - 1, y);
        var parts: seq<string> :| |parts| == n - 1 && IsChain(parts, a, y);
        ChainCons(x, parts, a, y);
      }
      if parts: seq<string> :| |parts| == n && IsChain(parts, a, w) {
        ChainTail(parts, a, w);
        PowParts(a, n - 1, Joined(parts[1..]));
        CatIn(a, Pow(a, n - 1), parts[0], Joined(parts[1..]));
      }
    }
  }

  lemma EmptyChain(a: Lang)
    ensures IsChain([], a, "")
  {
  }

  lemma OneWord(parts: seq<string>, a: Lang, w: string, v: string)
    requires IsChain(parts, a, w) && IsChain([], a, v) && parts == []
    ensures w == v
  {
  }

  /** A repeated word is a chain of words: one without a modifier, at most one with "?",
      at least one with "+", any number with "*". */
  lemma RepetitionLaw(a: Lang, m: Modifier, w: string)
    ensures w in Many(a, m) <==> exists parts: seq<string> :: MayRepeat(m, |parts|) && IsChain(parts, a, w)
  {
    hide Pow, IsChain;
    if w in Many(a, m) {
      var n: nat :| Allows(m, n) && w in Pow(a, n);
      PowParts(a, n, w);
    }
    if parts: seq<string> :| MayRepeat(m, |parts|) && IsChain(parts, a, w) {
      PowParts(a, |parts|, w);
      assert Allows(m, |parts|);
    }
  }

  // ---------------------------------------------------------------- single tokens

  /** A parameter matches a non-empty segment, also with an empty regular expression; a
      wildcard matches anything within a line. */
  lemma ParamLaw(o: Oracle, name: string, m: Modifier)
    ensures TokenLang(o, Param(name, None, m)) == iset w: string | w != "" && '/' !in w
    ensures TokenLang(o, Param(name, Some(""), m)) == iset w: string | w != "" && '/' !in w
  {
  }

  lemma WildcardLaw(o: Oracle, m: Modifier)
    ensures TokenLang(o, Wildcard(m)) == iset w: string | '\n' !in w
  {
  }

  lemma CustomLaw(o: Oracle, name: string, source: string, m: Modifier)
    requires source != ""
    ensures TokenLang(o, Param(name, Some(source), m)) == TokenLang(o, Regex(source, m)) == BodyLang(o, source)
  {
  }

  // -------------------------------------------------------------- the slash rule

  /** Text, then a parameter, wildcard or regular expression with a modifier: the slash
      that ends the text is repeated together with it. */
  lemma SlashTaken(o: Oracle, v: string, t: Token, rest: seq<Token>)
    requires t.Param? || t.Wildcard? || t.Regex?
    requires t.modifier == Optional || t.modifier == OneOrMore || t.modifier == ZeroOrMore
    ensures TokensLang(o, [Text(v + "/"), t] + rest, true)
         == Cat(Cat(iset{v}, Many(Cat(iset{"/"}, TokenLang(o, t)), t.modifier)), TokensLang(o, rest, true))
  {
    hide TokenLang, Cat, Many;
    var ts := [Text(v + "/"), t] + rest;
    assert ts[0] == Text(v + "/") && ts[1] == t && ts[2..] == rest;
    assert (v + "/")[..|v + "/"| - 1] == v;
  }

  /** In particular for parameters. */
  lemma ParamTakesSlash(o: Oracle, v: string, name: string, m: Modifier)
    requires m != Once
    ensures TokensLang(o, [Text(v + "/"), Param(name, None, m)], true)
         == Cat(iset{v}, Many(Cat(iset{"/"}, iset w: string | w != "" && '/' !in w), m))
  {
    hide TokenLang, Cat, Many;
    var t := Param(name, None, m);
    SlashTaken(o, v, t, []);
    ParamLaw(o, name, m);
    assert [Text(v + "/"), t] + [] == [Text(v + "/"), t];
    RightUnit(Cat(iset{v}, Many(Cat(iset{"/"}, TokenLang(o, t)), m)));
  }

  /** Nothing else takes a slash: not without a modifier, not after text that ends
      otherwise, not after a group or another placeholder, and not inside a group. */
  lemma SlashKept(o: Oracle, x: Token, rest: seq<Token>, automaticPrefix: bool)
    requires automaticPrefix && x.Text? && x.value != "" && x.value[|x.value| - 1] == '/' && rest != [] ==>
      rest[0].Text? || rest[0].Group? || rest[0].modifier == Once
    ensures TokensLang(o, [x] + rest, automaticPrefix)
         == Cat(if x.Text? then iset{x.value} else Many(TokenLang(o, x), x.modifier),
                TokensLang(o, rest, automaticPrefix))
  {
    hide TokenLang, Cat, Many;
    var ts := [x] + rest;
    assert ts[0] == x && ts[1..] == rest && (rest != [] ==> ts[1] == rest[0]);
    if !x.Text? {
      LeftUnit(TokenLang(o, x));
    }
  }

  /** A group is its own tokens without the slash rule. */
  lemma GroupLaw(o: Oracle, ts: seq<Token>, m: Modifier)
    ensures TokenLang(o, Group(ts, m)) == TokensLang(o, ts, false) && TokensLang(o, [], false) == iset{""}
  {
  }

  // ------------------------------------------------------------- literal patterns

  predicate NoSyntax(s: string) {
    ':' !in s && '*' !in s && '{' !in s && '}' !in s && '(' !in s && ')' !in s && '\\' !in s
  }

  /** Exactly seven characters send a pattern to the parser. */
  lemma LiteralExactly(cc: Classes, host: Hosted, pattern: string)
    ensures LiteralPattern(pattern) <==> NoSyntax(pattern)
    ensures !host.isFullUrl && NoSyntax(pattern) ==>
      var text := "(?:" + Escape(pattern) + ")";
      CompilePattern(cc, host, pattern) == if host.compiles(text) then Regexp(text) else BadRegex(text)
  {
    hide Escape;
    if NoSyntax(pattern) {
      forall k | 0 <= k < |pattern| ensures !SyntaxChar(pattern[k]) {
        assert pattern[k] in pattern;
      }
    }
  }

  // ---------------------------------------------------------------- end to end

  /** From the written pattern to what it matches: the slash before a modified parameter
      is repeated with it, so that "/books/:id+" takes any number of further segments. */
  lemma ModifiedParameterPattern(o: Oracle, cc: Classes, host: Hosted, v: string, n: string, m: Modifier)
    requires ParserLaws.AllPlain(v) && ParserLaws.IsName(cc, n) && ParserLaws.Punctuation(cc)
    requires m != Once && !host.isFullUrl
    ensures var r := CompilePattern(cc, host, v + "/" + ":" + n + ParserLaws.Mark(m));
      && (r.Regexp? || r.BadRegex?)
      && Denotes(o, r.source, Cat(iset{v}, Many(Cat(iset{"/"}, iset w: string | w != "" && '/' !in w), m)))
  {
    hide Parse, CompilePattern, Denotes, TokensLang, Cat, Many, LiteralPattern;
    var t, p := v + "/", v + "/" + ":" + n + ParserLaws.Mark(m);
    assert p + "" == p && p[|t|] == ':';
    ParserLaws.NamedParameter(cc, t, n, m, "");
    assert [Text(t)] + [Param(n, None, m)] + [] == [Text(t), Param(n, None, m)];
    assert Parse(cc, p) == Success([Text(t), Param(n, None, m)]);
    assert !NoSyntax(p);
    LiteralExactly(cc, host, p);
    CompiledMeaning(o, cc, host, p);
    ParamTakesSlash(o, v, n, m);
  }
}
