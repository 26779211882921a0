/** Compilation of pathname tokens to regular-expression text, and its meaning:
    the emitted text reads back unambiguously and matches exactly the language of
    the tokens. */
module PatternCompiler {
  import opened Options
  import opened PatternTokens
  import opened Languages
  import opened RegexText

  // -------------------------------------------------------------- emitted text

  predicate EscapedByHost(c: char) {
    c in "()[]{}?*+-|^$\\.&~# \t\n\r\U{b}\U{c}"
  }

  function EscapeChar(c: char): string {
    if EscapedByHost(c) then ['\\', c] else [c]
  }

  function Escape(text: string): string {
    if text == "" then "" else EscapeChar(text[0]) + Escape(text[1..])
  }

  const SEGMENT := "[^/]+?"
  const ANYTHING := ".*"

  function Modified(body: string, m: Modifier, prefix: string): string {
    var combined := Escape(prefix) + "(?:" + body + ")";
    if m == Once then combined else "(?:" + combined + ")" + ModifierText(m)
  }

  predicate EndsWithSlash(text: string) {
    text != "" && text[|text| - 1] == '/'
  }

  /** A modified placeholder takes the slash that ends the text just before it. */
  predicate Captures(previous: Token, t: Token, automaticPrefix: bool) {
    automaticPrefix && Placeholder(t) && t.modifier != Once && previous.Text? && EndsWithSlash(previous.value)
  }

  function WithoutLast(text: string): string
    requires text != ""
  {
    text[..|text| - 1]
  }

  function Body(t: Token): string
    requires !t.Text?
    decreases t, 0
  {
    match t
    case Param(_, regex, _) => if regex.Some? && regex.value != "" then regex.value else SEGMENT
    case Wildcard(_) => ANYTHING
    case Regex(source, _) => source
    case Group(ts, _) => Source(ts, false)
  }

  function Piece(t: Token, prefix: string): string
    decreases t, 1
  {
    if t.Text? then Escape(t.value) else Modified(Body(t), t.modifier, prefix)
  }

  /** The emitted text, with each captured slash moved by looking one token ahead. */
  function Source(ts: seq<Token>, automaticPrefix: bool): string
    decreases ts
  {
    if ts == [] then ""
    else if |ts| > 1 && Captures(ts[0], ts[1], automaticPrefix) then
      Escape(WithoutLast(ts[0].value)) + Piece(ts[1], "/") + Source(ts[2..], automaticPrefix)
    else Piece(ts[0], "") + Source(ts[1..], automaticPrefix)
  }

  lemma {:induction false} EscapeAppend(a: string, b: string)
    ensures Escape(a + b) == Escape(a) + Escape(b)
    decreases a
  {
    if a == "" {
      assert a + b == b;
    } else {
      assert (a + b)[0] == a[0] && (a + b)[1..] == a[1..] + b;
      EscapeAppend(a[1..], b);
    }
  }

  /** Dropping the last emitted character of text ending in a slash drops exactly
      that slash. */
  lemma EscapeSlash(text: string)
    requires EndsWithSlash(text)
    ensures Escape(text) == Escape(WithoutLast(text)) + "/"
  {
    assert text == WithoutLast(text) + "/";
    EscapeAppend(WithoutLast(text), "/");
    assert Escape("/") == EscapeChar('/') + Escape("") == "/";
  }

  lemma TextPiece(t: Token)
    requires t.Text?
    ensures Piece(t, "") == Escape(t.value)
  {
  }

  /** The text of the first one or two tokens. */
  function Step(ts: seq<Token>, automaticPrefix: bool): string
    requires |ts| > 1
  {
    if Captures(ts[0], ts[1], automaticPrefix) then Escape(WithoutLast(ts[0].value)) + Piece(ts[1], "/")
    else Piece(ts[0], "")
  }

  lemma SourceCons(ts: seq<Token>, automaticPrefix: bool)
    requires |ts| > 1
    ensures var n := if Captures(ts[0], ts[1], automaticPrefix) then 2 else 1;
      Source(ts, automaticPrefix) == Step(ts, automaticPrefix) + Source(ts[n..], automaticPrefix)
  {
  }

  lemma AfterDrop(step: string, source: string, piece: string)
    ensures (step + source) + piece == step + (source + piece)
    ensures EndsWithSlash(source) ==>
      && EndsWithSlash(step + source)
      && WithoutLast(step + source) + piece == step + (WithoutLast(source) + piece)
  {
  }

  lemma SourceOne(t: Token, automaticPrefix: bool)
    ensures Source([t], automaticPrefix) == Piece(t, "")
  {
  }

  lemma SourcePair(first: Token, t: Token, automaticPrefix: bool)
    ensures var captures, source := Captures(first, t, automaticPrefix), Source([first], automaticPrefix);
      && (captures ==> EndsWithSlash(source))
      && Source([first, t], automaticPrefix)
         == if captures then WithoutLast(source) + Piece(t, "/") else source + Piece(t, "")
  {
    hide Piece, Escape;
    SourceOne(first, automaticPrefix);
    SourceOne(t, automaticPrefix);
    assert [first, t][1..] == [t] && [first, t][2..] == [];
    if Captures(first, t, automaticPrefix) {
      EscapeSlash(first.value);
      TextPiece(first);
    }
  }

  /** Appending one token to the stream: the slash it captures, if any, is the last
      character emitted so far. */
  lemma {:induction false} SourceSnoc(ts: seq<Token>, t: Token, automaticPrefix: bool)
    ensures var captures := ts != [] && Captures(ts[|ts| - 1], t, automaticPrefix);
      && (captures ==> EndsWithSlash(Source(ts, automaticPrefix)))
      && Source(ts + [t], automaticPrefix)
         == if captures then WithoutLast(Source(ts, automaticPrefix)) + Piece(t, "/")
            else Source(ts, automaticPrefix) + Piece(t, "")
    decreases ts
  {
    hide Piece, Escape;
    var all := ts + [t];
    if ts == [] {
      assert all[1..] == [];
    } else if |ts| == 1 {
      assert ts == [ts[0]] && all == [ts[0], t];
      SourcePair(ts[0], t, automaticPrefix);
    } else {
      hide Source, WithoutLast, EndsWithSlash;
      var n := if Captures(ts[0], ts[1], automaticPrefix) then 2 else 1;
      var rest := ts[n..];
      assert all[0] == ts[0] && all[1] == ts[1] && all[n..] == rest + [t];
      SourceSnoc(rest, t, automaticPrefix);
      SourceCons(ts, automaticPrefix);
      SourceCons(all, automaticPrefix);
      AfterDrop(Step(ts, automaticPrefix), Source(rest, automaticPrefix), Piece(t, "/"));
      AfterDrop(Step(ts, automaticPrefix), Source(rest, automaticPrefix), Piece(t, ""));
    }
  }

  method ModifiedRegexSource(body: string, m: Modifier, prefix: string) returns (source: string)
    ensures source == Modified(body, m, prefix)
  {
    var combined := Escape(prefix) + "(?:" + body + ")";
    if m == Once {
      return combined;
    }
    return "(?:" + combined + ")" + ModifierText(m);
  }

  /** The emitting loop, which moves a captured slash by deleting it from what it
      has already emitted. */
  method TokensToRegexSource(ts: seq<Token>, automaticPrefix: bool) returns (source: string)
    ensures source == Source(ts, automaticPrefix)
    decreases ts
  {
    source := "";
    var previous: Option<Token> := None;
    for k := 0 to |ts|
      invariant source == Source(ts[..k], automaticPrefix)
      invariant previous == if k == 0 then None else Some(ts[k - 1])
    {
      var t := ts[k];
      assert ts[..k + 1] == ts[..k] + [t];
      SourceSnoc(ts[..k], t, automaticPrefix);
      if t.Text? {
        source := source + Escape(t.value);
        previous := Some(t);
        continue;
      }
      if t.Group? {
        var body := TokensToRegexSource(t.tokens, false);
        var group := ModifiedRegexSource(body, t.modifier, "");
        source := source + group;
        previous := Some(t);
        continue;
      }
      var prefix := "";
      if automaticPrefix && t.modifier != Once && previous.Some? && previous.value.Text?
         && EndsWithSlash(previous.value.value) {
        assert source[|source| - 1] == '/';
        source := source[..|source| - 1];
        prefix := "/";
      }
      var body;
      if t.Param? {
        body := if t.regex.Some? && t.regex.value != "" then t.regex.value else SEGMENT;
      } else if t.Wildcard? {
        body := ANYTHING;
      } else {
        body := t.source;
      }
      var piece := ModifiedRegexSource(body, t.modifier, prefix);
      source := source + piece;
      previous := Some(t);
    }
    assert ts[..|ts|] == ts;
  }

  // -------------------------------------------------------- meaning of tokens

  /** What one occurrence of a non-text token matches. A parameter without a
      regular expression matches one non-empty path segment, a wildcard anything
      on one line, and a custom regular expression its own language. */
  ghost function TokenLang(o: Oracle, t: Token): Lang
    requires !t.Text?
    decreases t, 0
  {
    match t
    case Param(_, regex, _) =>
      if regex.Some? && regex.value != "" then BodyLang(o, regex.value)
      else iset w: string | w != "" && '/' !in w
    case Wildcard(_) => iset w: string | '\n' !in w
    case Regex(source, _) => BodyLang(o, source)
    case Group(ts, _) => TokensLang(o, ts, false)
  }

  /** Repetition of a prefix together with the token, as the modifier allows. */
  ghost function PieceLang(o: Oracle, t: Token, prefix: string): Lang
    decreases t, 1
  {
    if t.Text? then iset{t.value} else Many(Cat(iset{prefix}, TokenLang(o, t)), t.modifier)
  }

  ghost function TokensLang(o: Oracle, ts: seq<Token>, automaticPrefix: bool): Lang
    decreases ts
  {
    if ts == [] then iset{""}
    else if |ts| > 1 && Captures(ts[0], ts[1], automaticPrefix) then
      Cat(Cat(iset{WithoutLast(ts[0].value)}, PieceLang(o, ts[1], "/")), TokensLang(o, ts[2..], automaticPrefix))
    else Cat(PieceLang(o, ts[0], ""), TokensLang(o, ts[1..], automaticPrefix))
  }

  // ------------------------------------------------ compilation preserves meaning

  /** Custom regular-expression sources are delimited as the scanner delimits them. */
  predicate SourcesBalanced(t: Token)
    decreases t
  {
    match t
    case Text(_) => true
    case Param(_, regex, _) => regex.Some? ==> Balanced(regex.value)
    case Wildcard(_) => true
    case Regex(source, _) => Balanced(source)
    case Group(ts, _) => forall i :: 0 <= i < |ts| ==> SourcesBalanced(ts[i])
  }

  lemma EscapeCharBalanced(c: char)
    ensures Balanced(EscapeChar(c)) && !StartsWithModifier(EscapeChar(c)) && EscapeChar(c) != ""
  {
    var s := EscapeChar(c);
    if |s| == 2 {
      assert s[1..] == [c] && [c][1..] == "";
      assert ScanText(OPENED, s) == ScanText(Scan(1, false, true), [c]) == ScanText(OPENED, "");
    } else {
      assert s[1..] == "";
      assert ScanText(OPENED, s) == ScanText(OPENED, "");
    }
  }

  lemma EscapeCharReads(c: char)
    ensures ReadItem(EscapeChar(c)) == Some((Item(Char(c), Once), |EscapeChar(c)|))
  {
    hide Read;
    var s := EscapeChar(c);
    assert s[|s|..] == "";
    assert EscapedByHost(c) ==> !AsciiAlphanumeric(c);
  }

  lemma DenotesChar(o: Oracle, c: char)
    ensures Denotes(o, EscapeChar(c), iset{[c]})
  {
    hide EscapeChar, ReadItem, Balanced, ItemsLang, Read;
    EscapeCharBalanced(c);
    EscapeCharReads(c);
    ReadsAsItem(o, EscapeChar(c), Item(Char(c), Once));
    ManyOnce(iset{[c]});
  }

  lemma {:induction false} DenotesEscape(o: Oracle, text: string)
    ensures Denotes(o, Escape(text), iset{text})
    decreases text
  {
    hide Denotes, EscapeChar;
    if text == "" {
      DenotesEmpty(o);
    } else {
      DenotesChar(o, text[0]);
      DenotesEscape(o, text[1..]);
      DenotesCat(o, EscapeChar(text[0]), iset{[text[0]]}, Escape(text[1..]), iset{text[1..]});
      CatWords([text[0]], text[1..]);
      assert [text[0]] + text[1..] == text;
    }
  }

  lemma DenotesModified(o: Oracle, body: string, m: Modifier, prefix: string)
    requires Balanced(body)
    ensures Denotes(o, Modified(body, m, prefix), Many(Cat(iset{prefix}, BodyLang(o, body)), m))
  {
    hide Denotes, Escape, Many;
    var l := BodyLang(o, body);
    DenotesEscape(o, prefix);
    DenotesGroup(o, body, Once);
    ManyOnce(l);
    var combined := Escape(prefix) + GroupText(body, Once);
    assert GroupText(body, Once) == "(?:" + body + ")";
    assert combined == Escape(prefix) + "(?:" + body + ")";
    DenotesCat(o, Escape(prefix), iset{prefix}, GroupText(body, Once), l);
    if m == Once {
      ManyOnce(Cat(iset{prefix}, l));
    } else {
      DenotesBody(o, combined, Cat(iset{prefix}, l));
      DenotesGroup(o, combined, m);
    }
  }

  lemma SegmentReads()
    ensures Balanced(SEGMENT) && ReadItem(SEGMENT) == Some((Item(AnyButSlash, OneOrMore), |SEGMENT|))
  {
    SegmentBalanced();
    hide ScanText;
    assert "[^/]" <= SEGMENT && SEGMENT[4..] == "+?" && "+?"[2..] == "";
  }

  lemma SegmentBalanced()
    ensures Balanced(SEGMENT)
  {
    var inside := Scan(1, true, false);
    assert ScanText(inside, "^/]+?") == ScanText(inside, "/]+?") == ScanText(inside, "]+?");
    assert ScanText(OPENED, "+?") == ScanText(OPENED, "?") == ScanText(OPENED, "") == OPENED;
  }

  lemma SegmentLang(o: Oracle)
    ensures Balanced(SEGMENT) && BodyLang(o, SEGMENT) == iset w: string | w != "" && '/' !in w
  {
    hide Balanced, ReadItem, Read, Many, ItemsLang;
    var item := Item(AnyButSlash, OneOrMore);
    SegmentReads();
    ReadsAsItem(o, SEGMENT, item);
    ManySingles(c => c != '/', OneOrMore);
    assert ItemLang(o, item) == Many(Singles(c => c != '/'), OneOrMore);
  }

  lemma AnythingReads()
    ensures Balanced(ANYTHING) && ReadItem(ANYTHING) == Some((Item(AnyButNewline, ZeroOrMore), |ANYTHING|))
  {
  }

  lemma AnythingLang(o: Oracle)
    ensures Balanced(ANYTHING) && BodyLang(o, ANYTHING) == iset w: string | '\n' !in w
  {
    hide Balanced, ReadItem, Read, Many, ItemsLang;
    var item := Item(AnyButNewline, ZeroOrMore);
    AnythingReads();
    ReadsAsItem(o, ANYTHING, item);
    ManySingles(c => c != '\n', ZeroOrMore);
    assert ItemLang(o, item) == Many(Singles(c => c != '\n'), ZeroOrMore);
  }

  lemma {:induction false} BodyDenotes(o: Oracle, t: Token)
    requires !t.Text? && SourcesBalanced(t)
    ensures Balanced(Body(t)) && BodyLang(o, Body(t)) == TokenLang(o, t)
    decreases t, 0
  {
    SegmentLang(o);
    AnythingLang(o);
    if t.Group? {
      SourceDenotes(o, t.tokens, false);
      DenotesBody(o, Body(t), TokensLang(o, t.tokens, false));
    }
  }

  lemma {:induction false} PieceDenotes(o: Oracle, t: Token, prefix: string)
    requires SourcesBalanced(t)
    ensures Denotes(o, Piece(t, prefix), PieceLang(o, t, prefix))
    decreases t, 1
  {
    hide Denotes, Escape, Modified, TokenLang, Body;
    if t.Text? {
      DenotesEscape(o, t.value);
    } else {
      BodyDenotes(o, t);
      DenotesModified(o, Body(t), t.modifier, prefix);
    }
  }

  /** Compilation preserves meaning: for every token list with scanner-balanced
      sources the emitted text reads back unambiguously and denotes exactly the
      tokens' language. */
  lemma {:induction false} SourceDenotes(o: Oracle, ts: seq<Token>, automaticPrefix: bool)
    requires forall i :: 0 <= i < |ts| ==> SourcesBalanced(ts[i])
    ensures Denotes(o, Source(ts, automaticPrefix), TokensLang(o, ts, automaticPrefix))
    decreases ts
  {
    if ts == [] {
      assert Denotes(o, "", iset{""});
    } else {
      SourceDenotesStep(o, ts, automaticPrefix);
    }
  }

  lemma {:induction false} SourceDenotesStep(o: Oracle, ts: seq<Token>, automaticPrefix: bool)
    requires ts != [] && forall i :: 0 <= i < |ts| ==> SourcesBalanced(ts[i])
    ensures Denotes(o, Source(ts, automaticPrefix), TokensLang(o, ts, automaticPrefix))
    decreases ts, 0
  {
    hide Denotes, Escape, Piece, PieceLang, SourcesBalanced;
    if |ts| > 1 && Captures(ts[0], ts[1], automaticPrefix) {
      var head := WithoutLast(ts[0].value);
      DenotesEscape(o, head);
      PieceDenotes(o, ts[1], "/");
      DenotesCat(o, Escape(head), iset{head}, Piece(ts[1], "/"), PieceLang(o, ts[1], "/"));
      SourceDenotes(o, ts[2..], automaticPrefix);
      DenotesCat(o, Escape(head) + Piece(ts[1], "/"), Cat(iset{head}, PieceLang(o, ts[1], "/")),
                 Source(ts[2..], automaticPrefix), TokensLang(o, ts[2..], automaticPrefix));
    } else {
      PieceDenotes(o, ts[0], "");
      SourceDenotes(o, ts[1..], automaticPrefix);
      DenotesCat(o, Piece(ts[0], ""), PieceLang(o, ts[0], ""),
                 Source(ts[1..], automaticPrefix), TokensLang(o, ts[1..], automaticPrefix));
    }
  }
}
