/** The token stream produced by the pathname pattern parser. */
module PatternTokens {
  import opened Options

  /** The postfix modifiers "", "?", "+" and "*". */
  datatype Modifier = Once | Optional | OneOrMore | ZeroOrMore

  datatype Token =
    | Text(value: string)
    | Param(name: string, regex: Option<string>, modifier: Modifier)
    | Wildcard(modifier: Modifier)
    | Regex(source: string, modifier: Modifier)
    | Group(tokens: seq<Token>, modifier: Modifier)

  /** A parameter with neither a regular expression nor a modifier. */
  predicate BareParam(t: Token) {
    t.Param? && t.regex.None? && t.modifier == Once
  }

  /** Any single-segment matcher: not literal text and not a delimited group. */
  predicate Placeholder(t: Token) {
    !t.Text? && !t.Group?
  }

  predicate IsModifierChar(c: char) {
    c == '?' || c == '+' || c == '*'
  }

  function ModifierText(m: Modifier): string {
    match m
    case Once => ""
    case Optional => "?"
    case OneOrMore => "+"
    case ZeroOrMore => "*"
  }

  predicate StartsWithModifier(s: string) {
    s != "" && IsModifierChar(s[0])
  }

  /** State of the scan that delimits a parenthesised regular expression.
      Depth 0 means the opening parenthesis has been closed. */
  datatype Scan = Scan(depth: nat, inClass: bool, escaped: bool)

  const OPENED := Scan(1, false, false)

  function ScanChar(st: Scan, c: char): Scan {
    if st.depth == 0 then st
    else if st.escaped then st.(escaped := false)
    else if c == '\\' then st.(escaped := true)
    else if c == '[' then st.(inClass := true)
    else if c == ']' then st.(inClass := false)
    else if !st.inClass && c == '(' then st.(depth := st.depth + 1)
    else if !st.inClass && c == ')' then st.(depth := st.depth - 1)
    else st
  }

  function ScanText(st: Scan, s: string): Scan
    decreases s
  {
    if s == "" then st else ScanText(ScanChar(st, s[0]), s[1..])
  }

  /** A regular-expression source that the scan neither closes early nor leaves
      inside a nested group, a character class or an escape. */
  predicate Balanced(source: string) {
    ScanText(OPENED, source) == OPENED
  }

  lemma {:induction false} ScanAppend(st: Scan, a: string, b: string)
    ensures ScanText(st, a + b) == ScanText(ScanText(st, a), b)
    decreases a
  {
    if a == "" {
      assert a + b == b;
    } else {
      assert (a + b)[1..] == a[1..] + b;
      ScanAppend(ScanChar(st, a[0]), a[1..], b);
    }
  }
}
