/** How patterns are read, written out character by character and without the predicates
    and tables the parser is built from. */
module ParserLaws {
  import opened Options
  import opened PatternTokens
  import opened PatternParser
  import opened PatternPrinter
  import RegexText

  /** A character that stands for itself. */
  predicate Plain(c: char) {
    && c != ':' && c != '*' && c != '(' && c != '{' && c != '}' && c != '\\'
    && c != '[' && c != ']' && c != '+' && c != '?'
  }

  predicate AllPlain(s: string) {
    forall k :: 0 <= k < |s| ==> Plain(s[k])
  }

  function Mark(m: Modifier): string {
    match m
    case Once => ""
    case Optional => "?"
    case OneOrMore => "+"
    case ZeroOrMore => "*"
  }

  function TextOf(s: string): seq<Token> {
    if s == "" then [] else [Text(s)]
  }

  // -------------------------------------------------------------------- plain text

  lemma {:induction false} PlainParses(cc: Classes, s: string, i: nat, inGroup: bool, t: string, rest: string,
                                       path: string, output: seq<Token>)
    requires Looking(s, i, t, rest) && AllPlain(t)
    ensures i + |t| <= |s| && Looking(s, i + |t|, "", rest)
    ensures TokensAt(cc, s, i, inGroup, path, output) == TokensAt(cc, s, i + |t|, inGroup, path + t, output)
    decreases t
  {
    if t == "" {
      assert path + t == path;
    } else {
      assert s[i] == (t + rest)[0] && t == [t[0]] + t[1..];
      assert Plain(t[0]);
      assert s[i + 1..] == t[1..] + rest;
      PlainParses(cc, s, i + 1, inGroup, t[1..], rest, path + [t[0]], output);
      assert path + [t[0]] + t[1..] == path + t;
    }
  }

  lemma FlushText(output: seq<Token>, path: string)
    ensures Flush(output, path) == output + TextOf(path)
  {
    assert output + [] == output;
  }

  lemma AtEnd(cc: Classes, s: string, path: string, output: seq<Token>)
    ensures TokensAt(cc, s, |s|, false, path, output) == Ok(Flush(output, path), |s|)
  {
  }

  lemma PlainEnds(cc: Classes, s: string, i: nat, v: string, output: seq<Token>)
    requires i <= |s| && s[i..] == v && AllPlain(v)
    ensures TokensAt(cc, s, i, false, "", output) == Ok(output + TextOf(v), |s|)
  {
    hide TokensAt, Flush;
    assert v + "" == v && "" + v == v;
    PlainParses(cc, s, i, false, v, "", "", output);
    AtEnd(cc, s, v, output);
    FlushText(output, v);
  }

  /** Reading up to the first character that is not plain. */
  lemma PlainBegins(cc: Classes, t: string, x: string)
    requires AllPlain(t)
    ensures Looking(t + x, |t|, x, "") && Looking(t + x, |t|, "", x)
    ensures TokensAt(cc, t + x, 0, false, "", []) == TokensAt(cc, t + x, |t|, false, t, [])
  {
    hide TokensAt;
    assert (t + x)[0..] == t + x && (t + x)[|t|..] == x && x + "" == x && "" + t == t;
    PlainParses(cc, t + x, 0, false, t, x, "", []);
  }

  /** One token between two plain texts. */
  lemma OneToken(cc: Classes, t: string, x: string, token: Token, k: nat, v: string)
    requires AllPlain(t) && AllPlain(v) && k <= |t + x| && (t + x)[k..] == v
    requires TokensAt(cc, t + x, |t|, false, t, []) == TokensAt(cc, t + x, k, false, "", Flush([], t) + [token])
    ensures Parse(cc, t + x) == Success(TextOf(t) + [token] + TextOf(v))
  {
    hide TokensAt, Flush;
    PlainBegins(cc, t, x);
    FlushText([], t);
    assert [] + TextOf(t) == TextOf(t);
    PlainEnds(cc, t + x, k, v, TextOf(t) + [token]);
  }

  // ---------------------------------------------------------------------- escapes

  /** An escaped character is text, whatever it is. */
  lemma EscapedCharacter(cc: Classes, t: string, c: char, v: string)
    requires AllPlain(t) && AllPlain(v)
    ensures Parse(cc, t + "\\" + [c] + v) == Success([Text(t + [c] + v)])
  {
    hide Flush;
    var x := ['\\', c] + v;
    var s := t + x;
    assert t + "\\" + [c] + v == s;
    PlainBegins(cc, t, x);
    EscapeReads(cc, s, |t|, c, v, t, []);
    assert s[|t| + 2..] == v + "";
    PlainParses(cc, s, |t| + 2, false, v, "", t + [c], []);
    AtEnd(cc, s, t + [c] + v, []);
    FlushText([], t + [c] + v);
    assert [] + [Text(t + [c] + v)] == [Text(t + [c] + v)];
  }

  lemma EscapeReads(cc: Classes, s: string, i: nat, c: char, v: string, path: string, output: seq<Token>)
    requires i + 2 <= |s| && s[i..] == ['\\', c] + v
    ensures TokensAt(cc, s, i, false, path, output) == TokensAt(cc, s, i + 2, false, path + [c], output)
  {
    assert s[i] == s[i..][0] && s[i + 1] == s[i..][1];
  }

  lemma TrailingEscape(cc: Classes, t: string)
    requires AllPlain(t)
    ensures Parse(cc, t + "\\") == Failure(DanglingEscape(|t| + 1))
  {
    PlainBegins(cc, t, "\\");
    assert (t + "\\")[|t|] == '\\';
  }

  // --------------------------------------------------------------------- refusals

  /** Outside groups and regular expressions five characters are refused where they
      stand. */
  lemma RefusedCharacter(cc: Classes, t: string, c: char, v: string)
    requires AllPlain(t) && (c == '}' || c == '[' || c == ']' || c == '+' || c == '?')
    ensures Parse(cc, t + [c] + v) == Failure(Unexpected(c, |t|))
  {
    assert t + [c] + v == t + ([c] + v);
    PlainBegins(cc, t, [c] + v);
    assert (t + ([c] + v))[|t|] == c;
  }

  /** A colon needs a name. */
  lemma NamelessParameter(cc: Classes, t: string, v: string)
    requires AllPlain(t)
    requires v == "" || !(v[0] == '$' || v[0] == '_' || v[0] == '"' || cc.alpha(v[0]))
    ensures Parse(cc, t + ":" + v) == Failure(MissingName(|t| + 1))
  {
    assert t + ":" + v == t + (":" + v);
    PlainBegins(cc, t, ":" + v);
    var s := t + (":" + v);
    assert s[|t|] == ':' && (v != "" ==> s[|t| + 1] == v[0]);
  }

  // --------------------------------------------------------------------- modifiers

  lemma Skip(s: string, i: nat, a: string, b: string)
    requires i <= |s| && s[i..] == a + b
    ensures i + |a| <= |s| && s[i + |a|..] == b
  {
    assert s[i + |a|..] == s[i..][|a|..];
  }

  lemma Regroup(t: string, a: string, b: string, c: string)
    ensures t + a + b + c == t + (a + (b + c))
  {
  }

  lemma RegroupFour(t: string, a: string, b: string, c: string, d: string)
    ensures t + a + b + c + d == t + (a + (b + (c + d)))
  {
    Regroup(t, a, b, c + d);
    Regroup(t + a, b, c, d);
  }

  lemma RegroupMore(t: string, a: string, b: string, c: string, d: string, e: string)
    ensures t + a + b + c + d + e == t + (a + (b + (c + (d + e))))
  {
    Regroup(t, a, b, c + (d + e));
    Regroup(t + a + b, c, d, e);
  }

  lemma MarkEnds(s: string, i: nat, m: Modifier, v: string)
    requires i <= |s| && s[i..] == Mark(m) + v
    requires v == "" || (v[0] != '?' && v[0] != '+' && v[0] != '*')
    ensures i + |Mark(m)| <= |s| && ModifierAt(s, i) == (m, i + |Mark(m)|) && s[i + |Mark(m)|..] == v
  {
    hide ModifierAt;
    MarkParses(s, i, m, v);
    Skip(s, i, Mark(m), v);
  }

  lemma PlainStart(v: string)
    requires AllPlain(v)
    ensures v == "" || (v[0] != '?' && v[0] != '+' && v[0] != '*')
  {
    assert v != "" ==> Plain(v[0]);
  }

  lemma MarkParses(s: string, i: nat, m: Modifier, rest: string)
    requires Looking(s, i, Mark(m), rest)
    requires m == Once ==> rest == "" || (rest[0] != '?' && rest[0] != '+' && rest[0] != '*')
    ensures ModifierAt(s, i) == (m, i + |Mark(m)|)
  {
    assert Mark(m) + rest != "" ==> s[i] == (Mark(m) + rest)[0];
  }

  // -------------------------------------------------------------------------- names

  predicate NameCharacter(cc: Classes, c: char) {
    c == '$' || c == '_' || c == '\U{200c}' || c == '\U{200d}' || cc.alpha(c) || cc.digit(c)
  }

  /** Identifiers as in ECMAScript: digits and joiners may follow, not begin. */
  predicate IsName(cc: Classes, n: string) {
    && n != "" && (n[0] == '$' || n[0] == '_' || cc.alpha(n[0]))
    && forall k :: 0 <= k < |n| ==> NameCharacter(cc, n[k])
  }

  lemma {:induction false} NameEndsThere(cc: Classes, s: string, i: nat, n: string, rest: string)
    requires Looking(s, i, n, rest) && (forall k :: 0 <= k < |n| ==> NameCharacter(cc, n[k]))
    requires rest == "" || !NameCharacter(cc, rest[0])
    ensures NameEnd(cc, s, i) == i + |n|
    decreases n
  {
    if n == "" {
      assert rest != "" ==> s[i] == (n + rest)[0];
    } else {
      assert s[i] == (n + rest)[0] && NameCharacter(cc, n[0]) && s[i + 1..] == n[1..] + rest;
      NameEndsThere(cc, s, i + 1, n[1..], rest);
    }
  }

  /** The host does not count punctuation as letters or digits. */
  predicate Punctuation(cc: Classes) {
    forall c :: c in {'/', '?', '+', '*', '('} ==> !cc.alpha(c) && !cc.digit(c)
  }

  lemma NameReads(cc: Classes, s: string, i: nat, n: string, rest: string)
    requires Looking(s, i, n, rest) && IsName(cc, n) && (rest == "" || !NameCharacter(cc, rest[0]))
    ensures i + |n| <= |s| && NameAt(cc, s, i) == Ok(n, i + |n|)
  {
    NameEndsThere(cc, s, i, n, rest);
    assert s[i] == (n + rest)[0] == n[0] && s[i..i + |n|] == n;
  }

  lemma MarkStarts(cc: Classes, m: Modifier, v: string)
    requires Punctuation(cc) && (v == "" || v[0] == '/')
    ensures var rest := Mark(m) + v; rest == "" || (!NameCharacter(cc, rest[0]) && rest[0] != '(')
  {
  }

  lemma BareReads(cc: Classes, s: string, i: nat, n: string, m: Modifier, v: string)
    requires i < |s| && s[i] == ':' && s[i + 1..] == n + (Mark(m) + v)
    requires IsName(cc, n) && Punctuation(cc) && (v == "" || v[0] == '/')
    ensures PlaceholderAt(cc, s, i) == Ok(Param(n, None, m), i + 1 + |n| + |Mark(m)|)
    ensures s[i + 1 + |n| + |Mark(m)|..] == v
  {
    hide NameAt, ModifierAt, Mark, NameCharacter, Punctuation, IsName;
    var rest := Mark(m) + v;
    MarkStarts(cc, m, v);
    NameReads(cc, s, i + 1, n, rest);
    NotEmpty(cc, n);
    var j := i + 1 + |n|;
    Skip(s, i + 1, n, rest);
    MarkEnds(s, j, m, v);
    assert j < |s| ==> s[j] == s[j..][0];
  }

  /** A name extends as far as name characters go, and its modifier follows. */
  lemma NamedParameter(cc: Classes, t: string, n: string, m: Modifier, v: string)
    requires AllPlain(t) && AllPlain(v) && (v == "" || v[0] == '/')
    requires IsName(cc, n) && Punctuation(cc)
    ensures Parse(cc, t + ":" + n + Mark(m) + v) == Success(TextOf(t) + [Param(n, None, m)] + TextOf(v))
  {
    hide PlaceholderAt, IsName, TokensAt, Flush, Parse, Mark;
    var x := ":" + (n + (Mark(m) + v));
    var s := t + x;
    RegroupFour(t, ":", n, Mark(m), v);
    Skip(s, 0, t, x);
    Skip(s, |t|, ":", n + (Mark(m) + v));
    assert s[|t|] == x[0] == ':';
    BareReads(cc, s, |t|, n, m, v);
    PlaceholderTokens(cc, s, |t|, false, t, []);
    OneToken(cc, t, x, Param(n, None, m), |t| + 1 + |n| + |Mark(m)|, v);
  }

  lemma StarReads(cc: Classes, s: string, i: nat, m: Modifier, v: string)
    requires i < |s| && s[i] == '*' && s[i + 1..] == Mark(m) + v && AllPlain(v)
    ensures var k := i + 1 + |Mark(m)|; k <= |s| && PlaceholderAt(cc, s, i) == Ok(Wildcard(m), k) && s[k..] == v
  {
    hide ModifierAt, Mark;
    PlainStart(v);
    MarkEnds(s, i + 1, m, v);
  }

  /** A wildcard and its modifier. */
  lemma WildcardReads(cc: Classes, t: string, m: Modifier, v: string)
    requires AllPlain(t) && AllPlain(v)
    ensures Parse(cc, t + "*" + Mark(m) + v) == Success(TextOf(t) + [Wildcard(m)] + TextOf(v))
  {
    hide TokensAt, Flush, Parse, PlaceholderAt, Mark;
    var x := "*" + (Mark(m) + v);
    var s := t + x;
    assert t + "*" + Mark(m) + v == s;
    assert s[|t|] == '*' && s[|t| + 1..] == Mark(m) + v;
    StarReads(cc, s, |t|, m, v);
    PlaceholderTokens(cc, s, |t|, false, t, []);
    OneToken(cc, t, x, Wildcard(m), |t| + 1 + |Mark(m)|, v);
  }

  // -------------------------------------------------------------------------- groups

  lemma GroupReads(cc: Classes, s: string, i: nat, u: string, rest: string)
    requires Looking(s, i, u, "}" + rest) && AllPlain(u)
    ensures TokensAt(cc, s, i, true, "", []) == Ok(TextOf(u), i + |u| + 1)
  {
    hide TokensAt, Flush;
    PlainParses(cc, s, i, true, u, "}" + rest, "", []);
    assert "" + u == u && s[i + |u|] == ("}" + rest)[0];
    CloseTokens(cc, s, i + |u|, u, []);
    FlushText([], u);
    assert [] + TextOf(u) == TextOf(u);
  }

  lemma GroupEnds(cc: Classes, s: string, i: nat, u: string, m: Modifier, v: string)
    requires i < |s| && s[i + 1..] == u + ("}" + (Mark(m) + v)) && AllPlain(u) && AllPlain(v)
    ensures var j := i + 1 + |u| + 1;
      && TokensAt(cc, s, i + 1, true, "", []) == Ok(TextOf(u), j) && j + |Mark(m)| <= |s|
      && ModifierAt(s, j) == (m, j + |Mark(m)|) && s[j + |Mark(m)|..] == v
  {
    hide TokensAt, ModifierAt, Mark;
    var rest := Mark(m) + v;
    GroupReads(cc, s, i + 1, u, rest);
    assert s[i + 1..] == (u + "}") + rest;
    Skip(s, i + 1, u + "}", rest);
    PlainStart(v);
    MarkEnds(s, i + 1 + |u| + 1, m, v);
  }

  /** A group holds what stands between its braces, and its modifier follows. */
  lemma GroupOfText(cc: Classes, t: string, u: string, m: Modifier, v: string)
    requires AllPlain(t) && AllPlain(u) && AllPlain(v)
    ensures Parse(cc, t + "{" + u + "}" + Mark(m) + v) == Success(TextOf(t) + [Group(TextOf(u), m)] + TextOf(v))
  {
    hide TokensAt, Flush, Parse, ModifierAt, Mark;
    var x := "{" + (u + ("}" + (Mark(m) + v)));
    var s := t + x;
    RegroupMore(t, "{", u, "}", Mark(m), v);
    Skip(s, 0, t, x);
    Skip(s, |t|, "{", u + ("}" + (Mark(m) + v)));
    assert s[|t|] == x[0] == '{';
    GroupEnds(cc, s, |t|, u, m, v);
    GroupTokens(cc, s, |t|, t, []);
    OneToken(cc, t, x, Group(TextOf(u), m), |t| + 1 + |u| + 1 + |Mark(m)|, v);
  }

  /** Groups do not nest and must be closed. */
  lemma GroupRefusals(cc: Classes, t: string, u: string, v: string)
    requires AllPlain(t) && AllPlain(u)
    ensures Parse(cc, t + "{" + u + "{" + v) == Failure(NestedGroup(|t| + 1 + |u|))
    ensures Parse(cc, t + "{" + u) == Failure(UnexpectedEnd(|t| + 1 + |u|))
  {
    hide TokensAt;
    var x := "{" + (u + ("{" + v));
    assert t + "{" + u + "{" + v == t + x;
    PlainBegins(cc, t, x);
    var s := t + x;
    assert s[|t|] == '{' && s[|t| + 1..] == u + ("{" + v);
    PlainParses(cc, s, |t| + 1, true, u, "{" + v, "", []);
    assert s[|t| + 1 + |u|] == ("{" + v)[0];
    InnerFailure(cc, s, |t|, |t| + 1 + |u|, t, "" + u);
    OpenGroup(cc, t, u);
  }

  lemma InnerFailure(cc: Classes, s: string, i: nat, j: nat, path: string, inner: string)
    requires i < j < |s| && s[i] == '{' && s[j] == '{'
    requires TokensAt(cc, s, i + 1, true, "", []) == TokensAt(cc, s, j, true, inner, [])
    ensures TokensAt(cc, s, i, false, path, []) == Err(NestedGroup(j))
  {
  }

  lemma OpenFailure(cc: Classes, s: string, i: nat, path: string, inner: string)
    requires i < |s| && s[i] == '{'
    requires TokensAt(cc, s, i + 1, true, "", []) == TokensAt(cc, s, |s|, true, inner, [])
    ensures TokensAt(cc, s, i, false, path, []) == Err(UnexpectedEnd(|s|))
  {
  }

  lemma OpenGroup(cc: Classes, t: string, u: string)
    requires AllPlain(t) && AllPlain(u)
    ensures Parse(cc, t + "{" + u) == Failure(UnexpectedEnd(|t| + 1 + |u|))
  {
    hide TokensAt;
    var x := "{" + u;
    var s := t + x;
    assert t + "{" + u == s;
    PlainBegins(cc, t, x);
    assert s[|t|] == '{' && s[|t| + 1..] == u + "";
    PlainParses(cc, s, |t| + 1, true, u, "", "", []);
    OpenFailure(cc, s, |t|, t, "" + u);
  }

  // ------------------------------------------------------------- regular expressions

  predicate Unbracketed(u: string) {
    forall k :: 0 <= k < |u| ==> u[k] != '(' && u[k] != ')' && u[k] != '[' && u[k] != ']' && u[k] != '\\'
  }

  lemma {:induction false} UnbracketedScans(st: Scan, u: string)
    requires Unbracketed(u) && st.depth > 0 && !st.escaped
    ensures ScanText(st, u) == st
    decreases u
  {
    if u != "" {
      assert ScanChar(st, u[0]) == st;
      UnbracketedScans(st, u[1..]);
    }
  }

  lemma {:induction false} ClassScans(u: string)
    requires forall k :: 0 <= k < |u| ==> u[k] != ']' && u[k] != '\\'
    ensures ScanText(Scan(1, true, false), u + "]") == OPENED
    decreases u
  {
    if u == "" {
      assert (u + "]")[1..] == "" && ScanText(OPENED, "") == OPENED;
    } else {
      assert (u + "]")[0] == u[0] && (u + "]")[1..] == u[1..] + "]";
      ClassScans(u[1..]);
    }
  }

  /** What the scan takes as one source: text without brackets, a class whatever
      parentheses it holds, an escaped character whatever it is, a parenthesised source,
      and two sources in a row. */
  lemma SourceShapes(u: string, c: char, a: string, b: string)
    requires Balanced(a) && Balanced(b)
    ensures Unbracketed(u) ==> Balanced(u)
    ensures (forall k :: 0 <= k < |u| ==> u[k] != ']' && u[k] != '\\') ==> Balanced("[" + u + "]")
    ensures Balanced(['\\', c])
    ensures Balanced("(" + a + ")") && Balanced(a + b)
  {
    if Unbracketed(u) {
      UnbracketedScans(OPENED, u);
    }
    if forall k :: 0 <= k < |u| ==> u[k] != ']' && u[k] != '\\' {
      ClassScans(u);
      assert "[" + u + "]" == ['['] + (u + "]") && (['['] + (u + "]"))[1..] == u + "]";
    }
    EscapeScans(c);
    ParenthesesScan(a);
    ScanAppend(OPENED, a, b);
  }

  lemma EscapeScans(c: char)
    ensures Balanced(['\\', c])
  {
    assert ['\\', c][1..] == [c] && [c][1..] == "";
    assert ScanText(OPENED, ['\\', c]) == ScanText(Scan(1, false, true), [c]) == ScanText(OPENED, "");
  }

  lemma ParenthesesScan(a: string)
    requires Balanced(a)
    ensures Balanced("(" + a + ")")
  {
    var inner := Scan(2, false, false);
    assert ScanText(OPENED, "(") == ScanText(inner, "") == inner;
    RegexText.ScanDeeper(OPENED, a);
    ScanAppend(OPENED, "(", a);
    assert ScanText(inner, ")") == ScanText(OPENED, "") == OPENED;
    ScanAppend(OPENED, "(" + a, ")");
  }

  lemma SourceReads(s: string, i: nat, source: string, m: Modifier, v: string)
    requires Balanced(source) && i < |s| && s[i] == '(' && s[i + 1..] == source + (")" + (Mark(m) + v))
    requires AllPlain(v)
    ensures var j := i + 1 + |source| + 1;
      && j <= |s| && RegexAt(s, i) == Ok(source, j) && ModifierAt(s, j) == (m, j + |Mark(m)|)
      && j + |Mark(m)| <= |s| && s[j + |Mark(m)|..] == v
  {
    hide ScanText, ModifierAt, Mark;
    var rest := Mark(m) + v;
    assert s[i + 1..] == (source + ")") + rest;
    RegexParses(s, i + 1, i, OPENED, source, rest, "");
    assert "" + source == source;
    Skip(s, i + 1, source + ")", rest);
    PlainStart(v);
    MarkEnds(s, i + 1 + |source| + 1, m, v);
  }

  lemma ParenthesesRead(cc: Classes, s: string, i: nat, source: string, m: Modifier, v: string)
    requires Balanced(source) && i < |s| && s[i] == '(' && s[i + 1..] == source + (")" + (Mark(m) + v))
    requires AllPlain(v)
    ensures var k := i + 1 + |source| + 1 + |Mark(m)|;
      k <= |s| && PlaceholderAt(cc, s, i) == Ok(Regex(source, m), k) && s[k..] == v
  {
    hide RegexAt, ModifierAt, Balanced, Mark;
    SourceReads(s, i, source, m, v);
  }

  /** An unnamed regular expression ends where its source does. */
  lemma SourceOfRegex(cc: Classes, t: string, source: string, m: Modifier, v: string)
    requires AllPlain(t) && AllPlain(v) && Balanced(source)
    ensures Parse(cc, t + "(" + source + ")" + Mark(m) + v) == Success(TextOf(t) + [Regex(source, m)] + TextOf(v))
  {
    hide PlaceholderAt, Balanced, TokensAt, Flush, Parse, Mark;
    var x := "(" + (source + (")" + (Mark(m) + v)));
    var s := t + x;
    RegroupMore(t, "(", source, ")", Mark(m), v);
    Skip(s, 0, t, x);
    Skip(s, |t|, "(", source + (")" + (Mark(m) + v)));
    assert s[|t|] == x[0] == '(';
    ParenthesesRead(cc, s, |t|, source, m, v);
    PlaceholderTokens(cc, s, |t|, false, t, []);
    OneToken(cc, t, x, Regex(source, m), |t| + 1 + |source| + 1 + |Mark(m)|, v);
  }

  /** And so does that of a parameter. */
  lemma SourceOfParameter(cc: Classes, t: string, n: string, source: string, m: Modifier, v: string)
    requires AllPlain(t) && AllPlain(v) && Balanced(source) && IsName(cc, n) && Punctuation(cc)
    ensures Parse(cc, t + ":" + n + "(" + source + ")" + Mark(m) + v)
         == Success(TextOf(t) + [Param(n, Some(source), m)] + TextOf(v))
  {
    hide PlaceholderAt, Balanced, IsName, TokensAt, Flush, Parse, Mark;
    var r := "(" + (source + (")" + (Mark(m) + v)));
    var x := ":" + (n + r);
    var s := t + x;
    RegroupMore(t + ":" + n, "(", source, ")", Mark(m), v);
    Regroup(t, ":", n, r);
    Skip(s, 0, t, x);
    Skip(s, |t|, ":", n + r);
    assert s[|t|] == x[0] == ':';
    NamedSourceReads(cc, s, |t|, n, source, m, v);
    PlaceholderTokens(cc, s, |t|, false, t, []);
    OneToken(cc, t, x, Param(n, Some(source), m), |t| + 1 + |n| + 1 + |source| + 1 + |Mark(m)|, v);
  }

  lemma NamedSourceReads(cc: Classes, s: string, i: nat, n: string, source: string, m: Modifier, v: string)
    requires i < |s| && s[i] == ':' && s[i + 1..] == n + ("(" + (source + (")" + (Mark(m) + v))))
    requires IsName(cc, n) && Punctuation(cc) && Balanced(source) && AllPlain(v)
    ensures var k := i + 1 + |n| + 1 + |source| + 1 + |Mark(m)|;
      k <= |s| && PlaceholderAt(cc, s, i) == Ok(Param(n, Some(source), m), k) && s[k..] == v
  {
    hide NameAt, RegexAt, ModifierAt, Balanced, IsName;
    var r := "(" + (source + (")" + (Mark(m) + v)));
    NameReads(cc, s, i + 1, n, r);
    NotEmpty(cc, n);
    var j := i + 1 + |n|;
    assert s[j..] == s[i + 1..][|n|..] == r && s[j] == r[0] && s[j + 1..] == s[j..][1..];
    SourceReads(s, j, source, m, v);
  }

  lemma NotEmpty(cc: Classes, n: string)
    requires IsName(cc, n)
    ensures n != ""
  {
  }

  lemma {:induction false} NeverCloses(s: string, i: nat, start: nat, u: string, done: string)
    requires i <= |s| && s[i..] == u && Unbracketed(u)
    ensures RegexFrom(s, i, start, OPENED, done) == Err(UnterminatedRegex(start))
    decreases u
  {
    if u != "" {
      assert s[i] == u[0] && s[i + 1..] == u[1..] && ScanChar(OPENED, u[0]) == OPENED;
      NeverCloses(s, i + 1, start, u[1..], done + [s[i]]);
    }
  }

  lemma RegexFailure(cc: Classes, s: string, i: nat, path: string, e: Error)
    requires i < |s| && s[i] == '(' && RegexAt(s, i) == Err(e)
    ensures TokensAt(cc, s, i, false, path, []) == Err(e)
  {
    hide RegexAt;
  }

  /** A regular expression must be closed. */
  lemma OpenRegex(cc: Classes, t: string, u: string)
    requires AllPlain(t) && Unbracketed(u)
    ensures Parse(cc, t + "(" + u) == Failure(UnterminatedRegex(|t|))
  {
    hide TokensAt, RegexFrom, Unbracketed;
    var s := t + ("(" + u);
    assert t + "(" + u == s;
    PlainBegins(cc, t, "(" + u);
    assert s[|t|] == '(' && s[|t| + 1..] == u;
    NeverCloses(s, |t| + 1, |t|, u, "");
    RegexFailure(cc, s, |t|, t, UnterminatedRegex(|t|));
  }
}
