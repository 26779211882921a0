/** Compiling a whole pattern: the literal fast path, the parsed route and how the
    two agree. */
module PatternCompilation {
  import opened PatternTokens
  import opened PatternParser
  import opened PatternPrinter
  import opened PatternCompiler
  import opened Languages
  import opened RegexText

  datatype Compiled = Regexp(source: string) | FullUrl | Syntax(error: Error) | BadRegex(source: string)

  predicate SyntaxChar(c: char) {
    c in ":*{}()\\"
  }

  predicate LiteralPattern(pattern: string) {
    forall k :: 0 <= k < |pattern| ==> !SyntaxChar(pattern[k])
  }

  /** What is asked of the host: whether its URL splitter finds a scheme and a host in
      the pattern, and whether its regular-expression compiler takes a text. */
  datatype Hosted = Hosted(isFullUrl: bool, compiles: string -> bool)

  function CompilePattern(cc: Classes, host: Hosted, pattern: string): Compiled {
    if host.isFullUrl then FullUrl
    else if LiteralPattern(pattern) then CompileSource(host, Escape(pattern))
    else
      match Parse(cc, pattern)
      case Failure(e) => Syntax(e)
      case Success(tokens) => CompileSource(host, Source(tokens, true))
  }

  function CompileSource(host: Hosted, source: string): Compiled {
    var text := "(?:" + source + ")";
    if host.compiles(text) then Regexp(text) else BadRegex(text)
  }

  method Compile(cc: Classes, host: Hosted, pattern: string) returns (r: Compiled)
    ensures r == CompilePattern(cc, host, pattern)
  {
    if host.isFullUrl {
      return FullUrl;
    }
    var source;
    if LiteralPattern(pattern) {
      source := Escape(pattern);
    } else {
      var tokens := ParsePattern(cc, pattern);
      if tokens.Failure? {
        return Syntax(tokens.error);
      }
      source := TokensToRegexSource(tokens.value, true);
    }
    var text := "(?:" + source + ")";
    if host.compiles(text) {
      return Regexp(text);
    }
    return BadRegex(text);
  }

  lemma {:induction false} WellFormedBalanced(t: Token, inGroup: bool)
    requires WellFormedToken(t, inGroup)
    ensures SourcesBalanced(t)
    decreases t
  {
    if t.Group? {
      forall i | 0 <= i < |t.tokens| ensures SourcesBalanced(t.tokens[i]) {
        WellFormedBalanced(t.tokens[i], true);
      }
    }
  }

  /** What a pattern is meant to match: itself when it has no syntax characters,
      otherwise the language of its tokens. */
  ghost function PatternLang(o: Oracle, cc: Classes, pattern: string): Lang {
    if LiteralPattern(pattern) then iset{pattern}
    else match Parse(cc, pattern)
      case Success(tokens) => TokensLang(o, tokens, true)
      case Failure(_) => iset{}
  }

  /** Every compiled pattern reads back unambiguously and matches in full exactly
      the pattern's language. Compilation fails only on full URLs, on syntax errors and
      on a text that the host's compiler refuses, and that text has the same meaning. */
  lemma CompiledMeaning(o: Oracle, cc: Classes, host: Hosted, pattern: string)
    ensures var r := CompilePattern(cc, host, pattern);
      && (r.FullUrl? <==> host.isFullUrl)
      && (r.Syntax? <==> !host.isFullUrl && !LiteralPattern(pattern) && Parse(cc, pattern).Failure?)
      && (r.Regexp? || r.BadRegex? ==>
            (r.Regexp? <==> host.compiles(r.source)) && Denotes(o, r.source, PatternLang(o, cc, pattern)))
  {
    hide Denotes, Escape, Source, TokensLang;
    if host.isFullUrl {
    } else if LiteralPattern(pattern) {
      DenotesEscape(o, pattern);
      Wrapped(o, Escape(pattern), iset{pattern});
    } else if Parse(cc, pattern).Success? {
      var tokens := Parse(cc, pattern).value;
      ParseWellFormed(cc, pattern);
      forall i | 0 <= i < |tokens| ensures SourcesBalanced(tokens[i]) {
        WellFormedBalanced(tokens[i], false);
      }
      SourceDenotes(o, tokens, true);
      Wrapped(o, Source(tokens, true), TokensLang(o, tokens, true));
    }
  }

  lemma Wrapped(o: Oracle, text: string, l: Lang)
    requires Denotes(o, text, l)
    ensures Denotes(o, "(?:" + text + ")", l)
  {
    hide Denotes;
    DenotesBody(o, text, l);
    DenotesGroup(o, text, Once);
    ManyOnce(l);
    assert GroupText(text, Once) == "(?:" + text + ")";
  }

  // ------------------------------------------------------------ the two routes

  /** The characters the parser refuses outside a group and the fast path accepts. */
  predicate Refused(c: char) {
    c in "[]+?"
  }

  predicate Acceptable(pattern: string) {
    forall k :: 0 <= k < |pattern| ==> !Refused(pattern[k])
  }

  lemma {:induction false} LiteralTokens(cc: Classes, s: string, i: nat, path: string)
    requires i <= |s| && LiteralPattern(s)
    ensures var r := TokensAt(cc, s, i, false, path, []);
      && (r.Ok? <==> Acceptable(s[i..]))
      && (r.Ok? ==> r.value == Flush([], path + s[i..]))
    decreases |s| - i
  {
    if i == |s| {
      assert path + s[i..] == path;
    } else {
      assert !SyntaxChar(s[i]);
      assert s[i..][0] == s[i] && s[i..][1..] == s[i + 1..];
      if !Refused(s[i]) {
        LiteralTokens(cc, s, i + 1, path + [s[i]]);
        assert path + [s[i]] + s[i + 1..] == path + s[i..];
        assert Acceptable(s[i..]) <==> Acceptable(s[i + 1..]) by {
          assert s[i..] == [s[i]] + s[i + 1..];
        }
      } else {
        assert !Acceptable(s[i..]);
      }
    }
  }

  /** On a pattern without syntax characters the parsed route accepts exactly when
      none of "[", "]", "+" and "?" occurs, and then yields the one text token and
      the same source as the fast path. */
  lemma FastPathRefinesParser(cc: Classes, pattern: string)
    requires LiteralPattern(pattern)
    ensures Parse(cc, pattern).Success? <==> Acceptable(pattern)
    ensures Parse(cc, pattern).Success? ==>
      && Parse(cc, pattern).value == (if pattern == "" then [] else [Text(pattern)])
      && Source(Parse(cc, pattern).value, true) == Escape(pattern)
  {
    LiteralTokens(cc, pattern, 0, "");
    assert pattern[0..] == pattern && "" + pattern == pattern;
    if Acceptable(pattern) && pattern != "" {
      var tokens := [Text(pattern)];
      assert Source(tokens[1..], true) == "";
      TextPiece(tokens[0]);
    }
  }

  /** The routes do differ: "a+b" is passed on as a literal and refused by the parser. */
  lemma FastPathAcceptsMore(cc: Classes, host: Hosted)
    requires !host.isFullUrl
    ensures CompilePattern(cc, host, "a+b") == CompileSource(host, Escape("a+b"))
    ensures Parse(cc, "a+b").Failure?
  {
    hide TokensAt, Escape;
    FastPathRefinesParser(cc, "a+b");
    assert Refused("a+b"[1]);
  }
}
