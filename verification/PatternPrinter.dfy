/** A canonical printer for token streams and its exact relation to the parser:
    printing is undone by parsing precisely on the well-formed streams, and every
    parse produces a well-formed stream. */
module PatternPrinter {
  import opened Options
  import opened PatternTokens
  import opened PatternParser

  // -------------------------------------------------------------------- printer

  predicate Special(c: char) {
    c == '\\' || c == '{' || PlaceholderStart(c) || Forbidden(c)
  }

  function TextChar(c: char): string {
    if Special(c) then ['\\', c] else [c]
  }

  function PrintText(text: string): string {
    if text == "" then "" else TextChar(text[0]) + PrintText(text[1..])
  }

  function QuotedChar(c: char): string {
    if c == '"' || c == '\\' then ['\\', c] else [c]
  }

  function PrintQuoted(name: string): string {
    if name == "" then "\"" else QuotedChar(name[0]) + PrintQuoted(name[1..])
  }

  function PrintRegex(regex: Option<string>): string {
    if regex.Some? then "(" + (regex.value + ")") else ""
  }

  function PrintToken(t: Token): string
    decreases t
  {
    match t
    case Text(v) => PrintText(v)
    case Param(name, regex, m) => ":\"" + PrintQuoted(name) + PrintRegex(regex) + ModifierText(m)
    case Wildcard(m) => "*" + ModifierText(m)
    case Regex(source, m) => PrintRegex(Some(source)) + ModifierText(m)
    case Group(ts, m) => "{" + Print(ts) + "}" + ModifierText(m)
  }

  function Print(ts: seq<Token>): string
    decreases ts
  {
    if ts == [] then "" else PrintToken(ts[0]) + Print(ts[1..])
  }

  // ------------------------------------------------------------- well-formedness

  /** Whether b may directly follow a: text runs are maximal, an unmodified token
      is never followed by a wildcard (whose star would read as its modifier) and a
      bare parameter is never followed by an unnamed regular expression. */
  predicate Adjacent(a: Token, b: Token) {
    if a.Text? then !b.Text?
    else (a.modifier == Once ==> !b.Wildcard?) && (BareParam(a) ==> !b.Regex?)
  }

  predicate WellFormedToken(t: Token, inGroup: bool)
    decreases t
  {
    match t
    case Text(v) => v != ""
    case Param(name, regex, _) => name != "" && (regex.Some? ==> Balanced(regex.value))
    case Wildcard(_) => true
    case Regex(source, _) => Balanced(source)
    case Group(ts, _) => !inGroup && WellFormed(ts, true)
  }

  predicate WellFormed(ts: seq<Token>, inGroup: bool)
    decreases ts
  {
    && (forall i :: 0 <= i < |ts| ==> WellFormedToken(ts[i], inGroup))
    && (forall i :: 0 < i < |ts| ==> Adjacent(ts[i - 1], ts[i]))
  }

  lemma WellFormedSnoc(ts: seq<Token>, t: Token, inGroup: bool)
    requires WellFormed(ts, inGroup) && WellFormedToken(t, inGroup)
    requires ts != [] ==> Adjacent(ts[|ts| - 1], t)
    ensures WellFormed(ts + [t], inGroup)
  {
  }

  // ------------------------------------------------------ parses are well-formed

  lemma {:induction false} RegexFromBalanced(s: string, i: nat, start: nat, st: Scan, source: string)
    requires i <= |s| && st.depth > 0 && ScanText(OPENED, source) == st
    requires RegexFrom(s, i, start, st, source).Ok?
    ensures Balanced(RegexFrom(s, i, start, st, source).value)
    decreases |s| - i
  {
    var after := ScanChar(st, s[i]);
    if after.depth != 0 {
      ScanAppend(OPENED, source, [s[i]]);
      assert ScanText(st, [s[i]]) == after;
      RegexFromBalanced(s, i + 1, start, after, source + [s[i]]);
    }
  }

  /** What the cursor cannot be looking at once t has just been emitted. */
  predicate Boundary(t: Token, s: string, i: nat)
    requires i <= |s|
  {
    !t.Text? && i < |s| ==>
      && (t.modifier == Once ==> !IsModifierChar(s[i]))
      && (BareParam(t) ==> s[i] != '(')
  }

  lemma PlaceholderShape(cc: Classes, s: string, i: nat, inGroup: bool)
    requires i < |s| && PlaceholderStart(s[i]) && PlaceholderAt(cc, s, i).Ok?
    ensures var r := PlaceholderAt(cc, s, i);
      && Placeholder(r.value) && WellFormedToken(r.value, inGroup) && Boundary(r.value, s, r.next)
      && (r.value.Wildcard? ==> s[i] == '*') && (r.value.Regex? ==> s[i] == '(')
  {
    if s[i] == ':' {
      var j := NameAt(cc, s, i + 1).next;
      if j < |s| && s[j] == '(' {
        RegexFromBalanced(s, j + 1, j, OPENED, "");
      }
    } else if s[i] == '(' {
      RegexFromBalanced(s, i + 1, i, OPENED, "");
    }
  }

  ghost predicate Accumulated(s: string, i: nat, inGroup: bool, path: string, output: seq<Token>)
    requires i <= |s|
  {
    && WellFormed(output, inGroup)
    && (output != [] ==> !output[|output| - 1].Text?)
    && (output != [] && path == "" ==> Boundary(output[|output| - 1], s, i))
  }

  lemma {:induction false} TokensAtShape(cc: Classes, s: string, i: nat, inGroup: bool,
                                         path: string, output: seq<Token>)
    requires i <= |s| && Accumulated(s, i, inGroup, path, output)
    requires TokensAt(cc, s, i, inGroup, path, output).Ok?
    ensures WellFormed(TokensAt(cc, s, i, inGroup, path, output).value, inGroup)
    decreases |s| - i
  {
    if path != "" {
      WellFormedSnoc(output, Text(path), inGroup);
    }
    var flushed := Flush(output, path);
    if i == |s| || (inGroup && s[i] == '}') {
    } else if s[i] == '\\' {
      TokensAtShape(cc, s, i + 2, inGroup, path + [s[i + 1]], output);
    } else if PlaceholderStart(s[i]) {
      PlaceholderShape(cc, s, i, inGroup);
      var r := PlaceholderAt(cc, s, i);
      WellFormedSnoc(flushed, r.value, inGroup);
      TokensAtShape(cc, s, r.next, inGroup, "", flushed + [r.value]);
    } else if s[i] == '{' {
      TokensAtShape(cc, s, i + 1, true, "", []);
      var inner := TokensAt(cc, s, i + 1, true, "", []);
      var (m, k) := ModifierAt(s, inner.next);
      WellFormedSnoc(flushed, Group(inner.value, m), inGroup);
      TokensAtShape(cc, s, k, inGroup, "", flushed + [Group(inner.value, m)]);
    } else {
      TokensAtShape(cc, s, i + 1, inGroup, path + [s[i]], output);
    }
  }

  /** Every accepted pattern yields maximal non-empty text runs, named parameters,
      scanner-balanced sources, no nested group and no ambiguous neighbours. */
  lemma ParseWellFormed(cc: Classes, pattern: string)
    requires Parse(cc, pattern).Success?
    ensures WellFormed(Parse(cc, pattern).value, false)
  {
    TokensAtShape(cc, pattern, 0, false, "", []);
  }

  // ------------------------------------------------------------- parsing a print

  /** The cursor at i of s looks at x followed by rest. */
  ghost predicate Looking(s: string, i: nat, x: string, rest: string) {
    i <= |s| && s[i..] == x + rest
  }

  lemma Advance(s: string, i: nat, x: string, y: string, rest: string)
    requires Looking(s, i, x + y, rest)
    ensures i + |x| <= |s| && (x != "" ==> s[i] == x[0])
    ensures Looking(s, i, x, y + rest) && Looking(s, i + |x|, y, rest)
  {
  }

  lemma LookingAhead(s: string, i: nat, x: string, rest: string)
    requires Looking(s, i, x, rest)
    ensures i + |x| <= |s| && (x + rest != "" ==> i < |s| && s[i] == (x + rest)[0]) && (x + rest == "" ==> i == |s|)
  {
  }

  lemma TextCharParses(cc: Classes, s: string, i: nat, inGroup: bool, c: char, rest: string,
                       path: string, output: seq<Token>)
    requires Looking(s, i, TextChar(c), rest)
    ensures i + |TextChar(c)| <= |s|
    ensures TokensAt(cc, s, i, inGroup, path, output)
         == TokensAt(cc, s, i + |TextChar(c)|, inGroup, path + [c], output)
  {
  }

  lemma {:induction false} TextParses(cc: Classes, s: string, i: nat, inGroup: bool, text: string, rest: string,
                                      path: string, output: seq<Token>)
    requires Looking(s, i, PrintText(text), rest)
    ensures i + |PrintText(text)| <= |s|
    ensures TokensAt(cc, s, i, inGroup, path, output)
         == TokensAt(cc, s, i + |PrintText(text)|, inGroup, path + text, output)
    decreases text
  {
    hide TokensAt;
    if text == "" {
      assert path + text == path;
    } else {
      Advance(s, i, TextChar(text[0]), PrintText(text[1..]), rest);
      TextCharParses(cc, s, i, inGroup, text[0], PrintText(text[1..]) + rest, path, output);
      TextParses(cc, s, i + |TextChar(text[0])|, inGroup, text[1..], rest, path + [text[0]], output);
      assert path + [text[0]] + text[1..] == path + text;
    }
  }

  lemma QuotedCharParses(s: string, i: nat, start: nat, c: char, rest: string, done: string)
    requires Looking(s, i, QuotedChar(c), rest)
    ensures i + |QuotedChar(c)| <= |s|
    ensures QuotedAt(s, i, start, done) == QuotedAt(s, i + |QuotedChar(c)|, start, done + [c])
  {
  }

  lemma {:induction false} QuotedParses(s: string, i: nat, start: nat, name: string, rest: string, done: string)
    requires Looking(s, i, PrintQuoted(name), rest)
    ensures i + |PrintQuoted(name)| <= |s|
    ensures QuotedAt(s, i, start, done) == Ok(done + name, i + |PrintQuoted(name)|)
    decreases name
  {
    if name == "" {
      assert s[i] == s[i..][0] == '"';
      assert done + name == done;
    } else {
      Advance(s, i, QuotedChar(name[0]), PrintQuoted(name[1..]), rest);
      QuotedCharParses(s, i, start, name[0], PrintQuoted(name[1..]) + rest, done);
      QuotedParses(s, i + |QuotedChar(name[0])|, start, name[1..], rest, done + [name[0]]);
      assert done + [name[0]] + name[1..] == done + name;
    }
  }

  lemma {:induction false} ScanStaysOpen(st: Scan, source: string)
    requires ScanText(st, source).depth > 0
    ensures st.depth > 0
    decreases source
  {
    if source != "" {
      ScanStaysOpen(ScanChar(st, source[0]), source[1..]);
    }
  }

  lemma {:induction false} RegexParses(s: string, i: nat, start: nat, st: Scan,
                                       source: string, rest: string, done: string)
    requires Looking(s, i, source + ")", rest) && ScanText(st, source) == OPENED
    ensures i + |source| < |s|
    ensures RegexFrom(s, i, start, st, done) == Ok(done + source, i + |source| + 1)
    decreases source
  {
    if source == "" {
      assert s[i] == (source + ")" + rest)[0];
      assert done + source == done;
    } else {
      assert source + ")" == [source[0]] + (source[1..] + ")");
      Advance(s, i, [source[0]], source[1..] + ")", rest);
      ScanStaysOpen(ScanChar(st, source[0]), source[1..]);
      assert s[i] == source[0];
      RegexParses(s, i + 1, start, ScanChar(st, source[0]), source[1..], rest, done + [source[0]]);
      assert done + [source[0]] + source[1..] == done + source;
    }
  }

  lemma ModifierParses(s: string, i: nat, m: Modifier, rest: string)
    requires Looking(s, i, ModifierText(m), rest) && (m == Once ==> !StartsWithModifier(rest))
    ensures ModifierAt(s, i) == (m, i + |ModifierText(m)|)
  {
  }

  /** What may follow the print of t for the parser to end t exactly there. */
  predicate Ends(t: Token, rest: string) {
    !t.Text? ==> (t.modifier == Once ==> !StartsWithModifier(rest)) && (BareParam(t) ==> rest == "" || rest[0] != '(')
  }

  lemma RegexAtParses(s: string, i: nat, source: string, rest: string)
    requires Looking(s, i, PrintRegex(Some(source)), rest) && Balanced(source)
    ensures i < |s| && s[i] == '(' && i + |PrintRegex(Some(source))| <= |s|
    ensures RegexAt(s, i) == Ok(source, i + |PrintRegex(Some(source))|)
  {
    Advance(s, i, "(", source + ")", rest);
    RegexParses(s, i + 1, i, OPENED, source, rest, "");
    assert "" + source == source;
  }

  lemma NameParses(cc: Classes, s: string, i: nat, name: string, rest: string)
    requires !cc.alpha('"') && Looking(s, i, "\"" + PrintQuoted(name), rest)
    ensures i + 1 + |PrintQuoted(name)| <= |s|
    ensures NameAt(cc, s, i) == Ok(name, i + 1 + |PrintQuoted(name)|)
  {
    hide QuotedAt, PrintQuoted;
    Advance(s, i, "\"", PrintQuoted(name), rest);
    QuotedParses(s, i + 1, i, name, rest, "");
    assert "" + name == name;
  }

  lemma ParamTail(s: string, j: nat, regex: Option<string>, m: Modifier, rest: string)
    requires Looking(s, j, PrintRegex(regex) + ModifierText(m), rest)
    requires (regex.Some? ==> Balanced(regex.value)) && Ends(Param("", regex, m), rest)
    ensures var k := j + |PrintRegex(regex)|;
      && k <= |s| && ModifierAt(s, k) == (m, k + |ModifierText(m)|)
      && ((j < |s| && s[j] == '(') <==> regex.Some?)
      && (if regex.Some? then RegexAt(s, j) == Ok(regex.value, k) else k == j)
  {
    hide RegexAt, ModifierAt, Looking, Balanced;
    Advance(s, j, PrintRegex(regex), ModifierText(m), rest);
    ModifierParses(s, j + |PrintRegex(regex)|, m, rest);
    if regex.Some? {
      RegexAtParses(s, j, regex.value, ModifierText(m) + rest);
    } else {
      LookingAhead(s, j, ModifierText(m), rest);
    }
  }

  lemma ParamParses(cc: Classes, s: string, i: nat, name: string, regex: Option<string>, m: Modifier, rest: string)
    requires !cc.alpha('"') && Looking(s, i, PrintToken(Param(name, regex, m)), rest)
    requires WellFormedToken(Param(name, regex, m), false) && Ends(Param(name, regex, m), rest)
    ensures i + |PrintToken(Param(name, regex, m))| <= |s| && i < |s| && s[i] == ':'
    ensures PlaceholderAt(cc, s, i) == Ok(Param(name, regex, m), i + |PrintToken(Param(name, regex, m))|)
  {
    hide NameAt, RegexAt, ModifierAt, Looking, PrintQuoted, PrintRegex, ModifierText, Balanced;
    var quoted, tail := PrintQuoted(name), PrintRegex(regex) + ModifierText(m);
    assert PrintToken(Param(name, regex, m)) == ":" + (("\"" + quoted) + tail);
    Advance(s, i, ":", ("\"" + quoted) + tail, rest);
    Advance(s, i + 1, "\"" + quoted, tail, rest);
    NameParses(cc, s, i + 1, name, tail + rest);
    ParamTail(s, i + 2 + |quoted|, regex, m, rest);
  }

  lemma PlaceholderParses(cc: Classes, s: string, i: nat, t: Token, rest: string)
    requires !cc.alpha('"') && Looking(s, i, PrintToken(t), rest)
    requires Placeholder(t) && WellFormedToken(t, false) && Ends(t, rest)
    ensures i + |PrintToken(t)| <= |s| && i < |s| && PlaceholderStart(s[i])
    ensures PlaceholderAt(cc, s, i) == Ok(t, i + |PrintToken(t)|)
  {
    match t
    case Param(name, regex, m) => ParamParses(cc, s, i, name, regex, m, rest);
    case Wildcard(m) =>
      Advance(s, i, "*", ModifierText(m), rest);
      assert s[i] == '*';
      ModifierParses(s, i + 1, m, rest);
    case Regex(source, m) =>
      var printed := PrintRegex(Some(source));
      Advance(s, i, printed, ModifierText(m), rest);
      RegexAtParses(s, i, source, ModifierText(m) + rest);
      ModifierParses(s, i + |printed|, m, rest);
  }

  /** A stream printed before the end of the pattern or a closing brace keeps its
      tokens apart. */
  lemma NextEnds(ts: seq<Token>, inGroup: bool, rest: string)
    requires ts != [] && WellFormed(ts, inGroup) && (rest == "" || rest[0] == '}')
    ensures Ends(ts[0], Print(ts[1..]) + rest)
  {
  }

  lemma WellFormedTail(ts: seq<Token>, inGroup: bool)
    requires ts != [] && WellFormed(ts, inGroup)
    ensures WellFormedToken(ts[0], inGroup) && WellFormed(ts[1..], inGroup)
    ensures |ts| > 1 ==> Adjacent(ts[0], ts[1])
  {
  }

  lemma PlaceholderTokens(cc: Classes, s: string, i: nat, inGroup: bool, path: string, output: seq<Token>)
    requires i < |s| && PlaceholderStart(s[i]) && PlaceholderAt(cc, s, i).Ok?
    ensures var r := PlaceholderAt(cc, s, i);
      TokensAt(cc, s, i, inGroup, path, output)
      == TokensAt(cc, s, r.next, inGroup, "", Flush(output, path) + [r.value])
  {
  }

  lemma GroupTokens(cc: Classes, s: string, i: nat, path: string, output: seq<Token>)
    requires i < |s| && s[i] == '{' && TokensAt(cc, s, i + 1, true, "", []).Ok?
    ensures var r := TokensAt(cc, s, i + 1, true, "", []);
      var (m, k) := ModifierAt(s, r.next);
      TokensAt(cc, s, i, false, path, output)
      == TokensAt(cc, s, k, false, "", Flush(output, path) + [Group(r.value, m)])
  {
  }

  lemma CloseTokens(cc: Classes, s: string, i: nat, path: string, output: seq<Token>)
    requires i < |s| && s[i] == '}'
    ensures TokensAt(cc, s, i, true, path, output) == Ok(Flush(output, path), i + 1)
  {
  }

  /** Consuming the print of one non-text token flushes the pending text and
      emits that token. */
  lemma {:induction false} TokenParses(cc: Classes, s: string, i: nat, inGroup: bool, t: Token, rest: string,
                                       path: string, output: seq<Token>)
    requires !cc.alpha('"') && Looking(s, i, PrintToken(t), rest)
    requires !t.Text? && WellFormedToken(t, inGroup) && Ends(t, rest)
    ensures i + |PrintToken(t)| <= |s|
    ensures TokensAt(cc, s, i, inGroup, path, output)
         == TokensAt(cc, s, i + |PrintToken(t)|, inGroup, "", Flush(output, path) + [t])
    decreases t, 1
  {
    hide TokensAt, PlaceholderAt, ModifierAt, Looking, PrintToken;
    if t.Group? {
      GroupParses(cc, s, i, t, rest);
      GroupTokens(cc, s, i, path, output);
    } else {
      PlaceholderParses(cc, s, i, t, rest);
      PlaceholderTokens(cc, s, i, inGroup, path, output);
    }
  }

  lemma GroupLooking(s: string, i: nat, t: Token, rest: string)
    requires t.Group? && Looking(s, i, PrintToken(t), rest)
    ensures var j := i + 1 + |Print(t.tokens)|;
      && i < j < |s| && s[i] == '{' && s[j] == '}' && i + |PrintToken(t)| == j + 1 + |ModifierText(t.modifier)|
      && Looking(s, i + 1, Print(t.tokens), "}" + ModifierText(t.modifier) + rest)
      && Looking(s, j + 1, ModifierText(t.modifier), rest)
  {
    hide Looking, Print, ModifierText;
    var inner, mod := Print(t.tokens), ModifierText(t.modifier);
    assert PrintToken(t) == "{" + (inner + ("}" + mod));
    Advance(s, i, "{", inner + ("}" + mod), rest);
    Advance(s, i + 1, inner, "}" + mod, rest);
    Advance(s, i + 1 + |inner|, "}", mod, rest);
  }

  lemma {:induction false} GroupParses(cc: Classes, s: string, i: nat, t: Token, rest: string)
    requires !cc.alpha('"') && Looking(s, i, PrintToken(t), rest)
    requires t.Group? && WellFormedToken(t, false) && Ends(t, rest)
    ensures i + |PrintToken(t)| <= |s| && i < |s| && s[i] == '{'
    ensures var j := i + 1 + |Print(t.tokens)| + 1;
      && j <= |s|
      && TokensAt(cc, s, i + 1, true, "", []) == Ok(t.tokens, j)
      && ModifierAt(s, j) == (t.modifier, i + |PrintToken(t)|)
    decreases t, 0
  {
    hide TokensAt, ModifierAt, Looking, Print, ModifierText;
    GroupLooking(s, i, t, rest);
    var j := i + 1 + |Print(t.tokens)|;
    ModifierParses(s, j + 1, t.modifier, rest);
    var path', output' := PrintParses(cc, s, i + 1, true, t.tokens, "}" + ModifierText(t.modifier) + rest, "", []);
    CloseTokens(cc, s, j, path', output');
    assert [] + t.tokens == t.tokens;
  }

  lemma {:induction false} PrintParses(cc: Classes, s: string, i: nat, inGroup: bool, ts: seq<Token>, rest: string,
                                       path: string, output: seq<Token>)
    returns (path': string, output': seq<Token>)
    requires !cc.alpha('"') && Looking(s, i, Print(ts), rest)
    requires WellFormed(ts, inGroup) && (rest == "" || rest[0] == '}')
    requires path == "" || ts == [] || !ts[0].Text?
    ensures ts == [] ==> path' == path && output' == output
    ensures i + |Print(ts)| <= |s|
    ensures TokensAt(cc, s, i, inGroup, path, output) == TokensAt(cc, s, i + |Print(ts)|, inGroup, path', output')
    ensures Flush(output', path') == Flush(output, path) + ts
    decreases ts
  {
    hide TokensAt, Looking, Ends, WellFormed, WellFormedToken, Flush, PrintToken;
    if ts == [] {
      LookingAhead(s, i, Print(ts), rest);
      return path, output;
    }
    var t, after := ts[0], ts[1..];
    WellFormedTail(ts, inGroup);
    NextEnds(ts, inGroup, rest);
    Advance(s, i, PrintToken(t), Print(after), rest);
    var path1, output1 := ReadFirst(cc, s, i, inGroup, t, Print(after) + rest, path, output);
    path', output' := PrintParses(cc, s, i + |PrintToken(t)|, inGroup, after, rest, path1, output1);
    assert ts == [t] + after;
    assert Flush(output, path) + [t] + after == Flush(output, path) + ts;
  }

  lemma {:induction false} ReadFirst(cc: Classes, s: string, i: nat, inGroup: bool, t: Token, rest: string,
                  path: string, output: seq<Token>)
    returns (path': string, output': seq<Token>)
    requires !cc.alpha('"') && Looking(s, i, PrintToken(t), rest)
    requires WellFormedToken(t, inGroup) && Ends(t, rest)
    requires path == "" || !t.Text?
    ensures i + |PrintToken(t)| <= |s|
    ensures TokensAt(cc, s, i, inGroup, path, output) == TokensAt(cc, s, i + |PrintToken(t)|, inGroup, path', output')
    ensures Flush(output', path') == Flush(output, path) + [t]
    ensures !t.Text? ==> path' == ""
    decreases t, 2
  {
    hide TokensAt, Looking, Ends;
    if t.Text? {
      TextParses(cc, s, i, inGroup, t.value, rest, path, output);
      assert path + t.value == t.value;
      path', output' := t.value, output;
    } else {
      TokenParses(cc, s, i, inGroup, t, rest, path, output);
      path', output' := "", Flush(output, path) + [t];
    }
  }

  // ------------------------------------------------------------- the round trip

  lemma PrintThenParse(cc: Classes, ts: seq<Token>)
    requires !cc.alpha('"') && WellFormed(ts, false)
    ensures Parse(cc, Print(ts)) == Success(ts)
  {
    var s := Print(ts);
    assert s[0..] == Print(ts) + "";
    var path', output' := PrintParses(cc, s, 0, false, ts, "", "", []);
    assert [] + ts == ts;
  }

  /** Printing is inverted by the parser exactly on the well-formed streams. */
  lemma RoundTripExactly(cc: Classes, ts: seq<Token>)
    requires !cc.alpha('"')
    ensures Parse(cc, Print(ts)) == Success(ts) <==> WellFormed(ts, false)
  {
    if WellFormed(ts, false) {
      PrintThenParse(cc, ts);
    }
    if Parse(cc, Print(ts)) == Success(ts) {
      ParseWellFormed(cc, Print(ts));
    }
  }

  /** Reprinting an accepted pattern keeps its meaning: the canonical form of any
      accepted pattern parses to the same tokens. */
  lemma CanonicalForm(cc: Classes, pattern: string)
    requires !cc.alpha('"') && Parse(cc, pattern).Success?
    ensures Parse(cc, Print(Parse(cc, pattern).value)) == Parse(cc, pattern)
  {
    ParseWellFormed(cc, pattern);
    PrintThenParse(cc, Parse(cc, pattern).value);
  }
}
