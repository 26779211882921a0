/** The pathname pattern parser: a shared cursor advanced by consuming methods,
    each proved against a function of the pattern and the cursor's position. */
module PatternParser {
  import opened Options
  import opened PatternTokens

  /** Unicode letter and digit tests, which the parser takes from its host. */
  datatype Classes = Classes(alpha: char -> bool, digit: char -> bool)

  datatype Error =
    | DanglingEscape(at: nat)
    | UnterminatedQuote(at: nat)
    | UnterminatedRegex(at: nat)
    | MissingName(at: nat)
    | NestedGroup(at: nat)
    | Unexpected(found: char, at: nat)
    | UnexpectedEnd(at: nat)

  /** A consumed value with the cursor after it, or the raised error. */
  datatype Step<+T> = Ok(value: T, next: nat) | Err(error: Error)

  datatype Result<+T> = Success(value: T) | Failure(error: Error)

  // ---------------------------------------------------------------- specification

  predicate NameStart(cc: Classes, c: char) {
    c == '$' || c == '_' || cc.alpha(c)
  }

  predicate NameContinue(cc: Classes, c: char) {
    c == '$' || c == '_' || c == '\U{200c}' || c == '\U{200d}' || cc.alpha(c) || cc.digit(c)
  }

  function ModifierAt(s: string, i: nat): (r: (Modifier, nat))
    requires i <= |s|
    ensures i <= r.1 <= |s|
  {
    if i == |s| then (Once, i)
    else if s[i] == '?' then (Optional, i + 1)
    else if s[i] == '+' then (OneOrMore, i + 1)
    else if s[i] == '*' then (ZeroOrMore, i + 1)
    else (Once, i)
  }

  function NameEnd(cc: Classes, s: string, i: nat): (j: nat)
    requires i <= |s|
    ensures i <= j <= |s|
    decreases |s| - i
  {
    if i < |s| && NameContinue(cc, s[i]) then NameEnd(cc, s, i + 1) else i
  }

  function QuotedAt(s: string, i: nat, start: nat, name: string): (r: Step<string>)
    requires i <= |s|
    ensures r.Ok? ==> i < r.next <= |s|
    decreases |s| - i
  {
    if i == |s| then Err(UnterminatedQuote(start))
    else if s[i] == '"' then Ok(name, i + 1)
    else if s[i] != '\\' then QuotedAt(s, i + 1, start, name + [s[i]])
    else if i + 1 == |s| then Err(DanglingEscape(i + 1))
    else QuotedAt(s, i + 2, start, name + [s[i + 1]])
  }

  /** The identifier or quoted name at i; empty when there is neither. */
  function NameAt(cc: Classes, s: string, i: nat): (r: Step<string>)
    requires i <= |s|
    ensures r.Ok? ==> i <= r.next <= |s|
  {
    if i < |s| && NameStart(cc, s[i]) then Ok(s[i..NameEnd(cc, s, i)], NameEnd(cc, s, i))
    else if i < |s| && s[i] == '"' then QuotedAt(s, i + 1, i, "")
    else Ok("", i)
  }

  function RegexFrom(s: string, i: nat, start: nat, st: Scan, source: string): (r: Step<string>)
    requires i <= |s|
    ensures r.Ok? ==> i < r.next <= |s|
    decreases |s| - i
  {
    if i == |s| then Err(if st.escaped then DanglingEscape(i) else UnterminatedRegex(start))
    else
      var after := ScanChar(st, s[i]);
      if after.depth == 0 then Ok(source, i + 1)
      else RegexFrom(s, i + 1, start, after, source + [s[i]])
  }

  /** The source of the parenthesised expression whose "(" is at i. */
  function RegexAt(s: string, i: nat): (r: Step<string>)
    requires i < |s|
    ensures r.Ok? ==> i < r.next <= |s|
  {
    RegexFrom(s, i + 1, i, OPENED, "")
  }

  predicate PlaceholderStart(c: char) {
    c == ':' || c == '*' || c == '('
  }

  /** The parameter, wildcard or regular-expression token starting at i. */
  function PlaceholderAt(cc: Classes, s: string, i: nat): (r: Step<Token>)
    requires i < |s| && PlaceholderStart(s[i])
    ensures r.Ok? ==> i < r.next <= |s|
  {
    if s[i] == ':' then
      match NameAt(cc, s, i + 1)
      case Err(e) => Err(e)
      case Ok(name, j) =>
        if name == "" then Err(MissingName(j))
        else if j < |s| && s[j] == '(' then
          match RegexAt(s, j)
          case Err(e) => Err(e)
          case Ok(source, k) =>
            var (m, n) := ModifierAt(s, k);
            Ok(Param(name, Some(source), m), n)
        else
          var (m, n) := ModifierAt(s, j);
          Ok(Param(name, None, m), n)
    else if s[i] == '*' then
      var (m, n) := ModifierAt(s, i + 1);
      Ok(Wildcard(m), n)
    else
      match RegexAt(s, i)
      case Err(e) => Err(e)
      case Ok(source, k) =>
        var (m, n) := ModifierAt(s, k);
        Ok(Regex(source, m), n)
  }

  function Flush(output: seq<Token>, path: string): seq<Token> {
    if path == "" then output else output + [Text(path)]
  }

  predicate Forbidden(c: char) {
    c == '}' || c == '[' || c == ']' || c == '+' || c == '?'
  }

  /** Tokens from i to the end of the pattern, or to the closing brace inside a
      group, appended to what has been accumulated before i. */
  function TokensAt(cc: Classes, s: string, i: nat, inGroup: bool,
                    path: string, output: seq<Token>): (r: Step<seq<Token>>)
    requires i <= |s|
    ensures r.Ok? ==> i <= r.next <= |s|
    decreases |s| - i
  {
    if i == |s| then
      if inGroup then Err(UnexpectedEnd(i)) else Ok(Flush(output, path), i)
    else if inGroup && s[i] == '}' then Ok(Flush(output, path), i + 1)
    else if s[i] == '\\' then
      if i + 1 == |s| then Err(DanglingEscape(i + 1))
      else TokensAt(cc, s, i + 2, inGroup, path + [s[i + 1]], output)
    else if PlaceholderStart(s[i]) then
      match PlaceholderAt(cc, s, i)
      case Err(e) => Err(e)
      case Ok(t, k) => TokensAt(cc, s, k, inGroup, "", Flush(output, path) + [t])
    else if s[i] == '{' then
      if inGroup then Err(NestedGroup(i))
      else
        match TokensAt(cc, s, i + 1, true, "", [])
        case Err(e) => Err(e)
        case Ok(tokens, j) =>
          var (m, k) := ModifierAt(s, j);
          TokensAt(cc, s, k, inGroup, "", Flush(output, path) + [Group(tokens, m)])
    else if Forbidden(s[i]) then Err(Unexpected(s[i], i))
    else TokensAt(cc, s, i + 1, inGroup, path + [s[i]], output)
  }

  function Parse(cc: Classes, pattern: string): Result<seq<Token>> {
    match TokensAt(cc, pattern, 0, false, "", [])
    case Ok(tokens, _) => Success(tokens)
    case Err(e) => Failure(e)
  }

  // --------------------------------------------------------------------- parser

  class Parser {
    const chars: string
    const classes: Classes
    var index: nat

    ghost predicate Valid()
      reads this
    {
      index <= |chars|
    }

    constructor (classes: Classes, pattern: string)
      ensures Valid() && index == 0 && chars == pattern && this.classes == classes
    {
      this.chars := pattern;
      this.classes := classes;
      this.index := 0;
    }

    method ConsumeModifier() returns (m: Modifier)
      requires Valid()
      modifies this`index
      ensures Valid() && (m, index) == ModifierAt(chars, old(index))
    {
      m := Once;
      if index < |chars| && IsModifierChar(chars[index]) {
        m := match chars[index] case '?' => Optional case '+' => OneOrMore case _ => ZeroOrMore;
        index := index + 1;
      }
    }

    method ConsumeName() returns (r: Step<string>)
      requires Valid()
      modifies this`index
      ensures Valid() && r == NameAt(classes, chars, old(index))
      ensures r.Ok? ==> index == r.next
    {
      var name := "";
      ghost var start := index;
      if index < |chars| && NameStart(classes, chars[index]) {
        while index < |chars| && NameContinue(classes, chars[index])
          invariant start <= index <= |chars| && name == chars[start..index]
          invariant NameEnd(classes, chars, index) == NameEnd(classes, chars, start)
        {
          name := name + [chars[index]];
          index := index + 1;
        }
        return Ok(name, index);
      }
      if index == |chars| || chars[index] != '"' {
        return Ok(name, index);
      }
      var quoteStart := index;
      index := index + 1;
      while index < |chars|
        invariant quoteStart < index <= |chars|
        invariant QuotedAt(chars, index, quoteStart, name) == QuotedAt(chars, quoteStart + 1, quoteStart, "")
        decreases |chars| - index
      {
        var quoted := chars[index];
        index := index + 1;
        if quoted == '"' {
          return Ok(name, index);
        }
        if quoted == '\\' {
          if index == |chars| {
            return Err(DanglingEscape(index));
          }
          quoted := chars[index];
          index := index + 1;
        }
        name := name + [quoted];
      }
      return Err(UnterminatedQuote(quoteStart));
    }

    method ConsumeRegex() returns (r: Step<string>)
      requires Valid() && index < |chars|
      modifies this`index
      ensures Valid() && r == RegexAt(chars, old(index))
      ensures r.Ok? ==> index == r.next
    {
      var start := index;
      index := index + 1;
      var depth: nat := 1;
      var inCharacterClass := false;
      var source := "";
      while index < |chars|
        invariant start < index <= |chars| && depth > 0
        invariant RegexFrom(chars, index, start, Scan(depth, inCharacterClass, false), source) == RegexAt(chars, start)
        decreases |chars| - index
      {
        var value := chars[index];
        index := index + 1;
        if value == '\\' {
          if index == |chars| {
            return Err(DanglingEscape(index));
          }
          assert source + [value, chars[index]] == source + [value] + [chars[index]];
          source := source + [value, chars[index]];
          index := index + 1;
          continue;
        }
        if value == '[' {
          inCharacterClass := true;
        } else if value == ']' && inCharacterClass {
          inCharacterClass := false;
        } else if !inCharacterClass && value == '(' {
          depth := depth + 1;
        } else if !inCharacterClass && value == ')' {
          depth := depth - 1;
          if depth == 0 {
            return Ok(source, index);
          }
        }
        source := source + [value];
      }
      return Err(UnterminatedRegex(start));
    }

    method ConsumeUntil(inGroup: bool) returns (r: Step<seq<Token>>)
      requires Valid()
      modifies this`index
      ensures Valid() && r == TokensAt(classes, chars, old(index), inGroup, "", [])
      ensures r.Ok? ==> index == r.next
      decreases !inGroup
    {
      var output: seq<Token> := [];
      var path := "";
      while index < |chars|
        invariant old(index) <= index <= |chars|
        invariant TokensAt(classes, chars, index, inGroup, path, output)
               == TokensAt(classes, chars, old(index), inGroup, "", [])
        decreases |chars| - index
      {
        var value := chars[index];
        index := index + 1;
        if inGroup && value == '}' {
          output := Flush(output, path);
          return Ok(output, index);
        }
        if value == '\\' {
          if index == |chars| {
            return Err(DanglingEscape(index));
          }
          path := path + [chars[index]];
          index := index + 1;
          continue;
        }
        if value == ':' {
          var name := ConsumeName();
          if name.Err? {
            return Err(name.error);
          }
          if name.value == "" {
            return Err(MissingName(index));
          }
          var source: Option<string> := None;
          if index < |chars| && chars[index] == '(' {
            var regex := ConsumeRegex();
            if regex.Err? {
              return Err(regex.error);
            }
            source := Some(regex.value);
          }
          var modifier := ConsumeModifier();
          output, path := Flush(output, path) + [Param(name.value, source, modifier)], "";
          continue;
        }
        if value == '*' {
          var modifier := ConsumeModifier();
          output, path := Flush(output, path) + [Wildcard(modifier)], "";
          continue;
        }
        if value == '(' {
          index := index - 1;
          var regex := ConsumeRegex();
          if regex.Err? {
            return Err(regex.error);
          }
          var modifier := ConsumeModifier();
          output, path := Flush(output, path) + [Regex(regex.value, modifier)], "";
          continue;
        }
        if value == '{' {
          if inGroup {
            return Err(NestedGroup(index - 1));
          }
          output, path := Flush(output, path), "";
          var group := ConsumeUntil(true);
          if group.Err? {
            return Err(group.error);
          }
          var modifier := ConsumeModifier();
          output := output + [Group(group.value, modifier)];
          continue;
        }
        if Forbidden(value) {
          return Err(Unexpected(value, index - 1));
        }
        path := path + [value];
      }
      if inGroup {
        return Err(UnexpectedEnd(index));
      }
      output := Flush(output, path);
      return Ok(output, index);
    }
  }

  method ParsePattern(cc: Classes, pattern: string) returns (r: Result<seq<Token>>)
    ensures r == Parse(cc, pattern)
  {
    var parser := new Parser(cc, pattern);
    var tokens := parser.ConsumeUntil(false);
    r := match tokens case Ok(value, _) => Success(value) case Err(e) => Failure(e);
  }
}
