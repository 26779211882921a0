/** Expansion of optional groups into flat token sequences, over mutable lists that
    are appended to in place. */
module PatternFlatten {
  import opened PatternTokens
  import opened Options
  import opened Languages
  import opened RegexText
  import opened PatternCompiler
  import PatternPrinter

  datatype Flattened = Flat(sequences: seq<seq<Token>>) | RepeatingGroup | TooMany

  const LIMIT: nat := 256

  // -------------------------------------------------------------- specification

  function AppendAll(sequences: seq<seq<Token>>, t: Token): seq<seq<Token>> {
    seq(|sequences|, i requires 0 <= i < |sequences| => sequences[i] + [t])
  }

  function Extend(sequence: seq<Token>, group: seq<seq<Token>>): seq<seq<Token>> {
    seq(|group|, i requires 0 <= i < |group| => sequence + group[i])
  }

  /** Every sequence followed by every group sequence, the group varying fastest. */
  function Product(sequences: seq<seq<Token>>, group: seq<seq<Token>>): seq<seq<Token>> {
    if sequences == [] then []
    else Product(sequences[..|sequences| - 1], group) + Extend(sequences[|sequences| - 1], group)
  }

  predicate Repeats(m: Modifier) {
    m == OneOrMore || m == ZeroOrMore
  }

  function FlattenFrom(sequences: seq<seq<Token>>, ts: seq<Token>): Flattened
    decreases ts
  {
    if ts == [] then Flat(sequences)
    else if !ts[0].Group? then FlattenFrom(AppendAll(sequences, ts[0]), ts[1..])
    else if Repeats(ts[0].modifier) then RepeatingGroup
    else
      match FlattenFrom([[]], ts[0].tokens)
      case RepeatingGroup => RepeatingGroup
      case TooMany => TooMany
      case Flat(group) =>
        var next := WithGroup(sequences, group, ts[0].modifier);
        if |next| > LIMIT then TooMany else FlattenFrom(next, ts[1..])
  }

  function WithGroup(sequences: seq<seq<Token>>, group: seq<seq<Token>>, m: Modifier): seq<seq<Token>> {
    var included := Product(sequences, group);
    if m == Optional then included + sequences else included
  }

  // ------------------------------------------------------------ mutable expansion

  /** A mutable list of tokens. */
  class TokenList {
    var items: seq<Token>

    constructor (items: seq<Token>)
      ensures this.items == items
    {
      this.items := items;
    }

    method Append(t: Token)
      modifies this
      ensures items == old(items) + [t]
    {
      items := items + [t];
    }
  }

  ghost function Contents(lists: seq<TokenList>): (r: seq<seq<Token>>)
    reads lists
    ensures |r| == |lists| && forall i :: 0 <= i < |lists| ==> r[i] == lists[i].items
  {
    seq(|lists|, i requires 0 <= i < |lists| reads lists => lists[i].items)
  }

  ghost predicate Distinct(lists: seq<TokenList>) {
    forall i, j :: 0 <= i < j < |lists| ==> lists[i] != lists[j]
  }

  /** Appending in place reaches every sequence once because none is shared. */
  method AppendInPlace(lists: seq<TokenList>, t: Token)
    requires Distinct(lists)
    modifies lists
    ensures Contents(lists) == AppendAll(old(Contents(lists)), t)
  {
    for k := 0 to |lists|
      invariant forall i :: 0 <= i < k ==> lists[i].items == old(lists[i].items) + [t]
      invariant forall i :: k <= i < |lists| ==> lists[i].items == old(lists[i].items)
    {
      lists[k].Append(t);
    }
  }

  lemma ContentsJoined(a: seq<TokenList>, b: seq<TokenList>)
    ensures Contents(a + b) == Contents(a) + Contents(b)
  {
  }

  lemma ProductNone(group: seq<seq<Token>>)
    ensures Product([], group) == []
  {
  }

  lemma ProductSnoc(sequences: seq<seq<Token>>, k: nat, group: seq<seq<Token>>)
    requires k < |sequences|
    ensures Product(sequences[..k + 1], group) == Product(sequences[..k], group) + Extend(sequences[k], group)
  {
    assert sequences[..k + 1][..k] == sequences[..k];
  }

  /** The inner part of the list comprehension. */
  method CombineWith(list: TokenList, group: seq<TokenList>) returns (extended: seq<TokenList>)
    ensures fresh(extended) && Distinct(extended)
    ensures Contents(extended) == Extend(list.items, Contents(group))
  {
    extended := [];
    for j := 0 to |group|
      invariant fresh(extended) && Distinct(extended)
      invariant Contents(extended) == Extend(list.items, Contents(group))[..j]
    {
      var next := new TokenList(list.items + group[j].items);
      extended := extended + [next];
    }
  }

  /** The list comprehension: a fresh list for each combination. */
  method Combine(lists: seq<TokenList>, group: seq<TokenList>) returns (included: seq<TokenList>)
    ensures fresh(included) && Distinct(included)
    ensures Contents(included) == Product(Contents(lists), Contents(group))
  {
    hide Extend, Product;
    ghost var all, others := Contents(lists), Contents(group);
    included := [];
    ProductNone(others);
    for k := 0 to |lists|
      invariant fresh(included) && Distinct(included)
      invariant Contents(included) == Product(all[..k], others)
    {
      var extended := CombineWith(lists[k], group);
      ContentsJoined(included, extended);
      ProductSnoc(all, k, others);
      included := included + extended;
    }
    assert all[..|lists|] == all;
  }

  /** The new lists are the combinations, then the old lists when the group may be
      left out; the two kinds cannot coincide. */
  method AppendGroup(lists: seq<TokenList>, group: seq<TokenList>, m: Modifier) returns (next: seq<TokenList>)
    requires Distinct(lists)
    ensures Distinct(next) && forall i :: 0 <= i < |next| ==> fresh(next[i]) || next[i] in lists
    ensures Contents(next) == WithGroup(Contents(lists), Contents(group), m)
  {
    hide Product;
    next := Combine(lists, group);
    if m == Optional {
      ContentsJoined(next, lists);
      next := next + lists;
    }
  }

  datatype Status = Done | Repeating | Overflow

  ghost predicate Matches(status: Status, lists: seq<TokenList>, spec: Flattened)
    reads lists
  {
    match status
    case Done => spec == Flat(Contents(lists))
    case Repeating => spec == RepeatingGroup
    case Overflow => spec == TooMany
  }

  /** The result lists are new and no two are the same object, so that the caller's
      appends cannot reach a sequence twice. */
  method Flatten(ts: seq<Token>) returns (status: Status, lists: seq<TokenList>)
    ensures Matches(status, lists, FlattenFrom([[]], ts))
    ensures (forall i :: 0 <= i < |lists| ==> fresh(lists[i])) && Distinct(lists)
    decreases ts
  {
    hide AppendAll, WithGroup;
    var start := new TokenList([]);
    lists := [start];
    assert Contents(lists) == [[]];
    for k := 0 to |ts|
      invariant (forall i :: 0 <= i < |lists| ==> fresh(lists[i])) && Distinct(lists)
      invariant FlattenFrom(Contents(lists), ts[k..]) == FlattenFrom([[]], ts)
    {
      var t := ts[k];
      assert ts[k..][0] == t && ts[k..][1..] == ts[k + 1..];
      if !t.Group? {
        AppendInPlace(lists, t);
        continue;
      }
      if t.modifier == OneOrMore || t.modifier == ZeroOrMore {
        return Repeating, [];
      }
      var inner, group := Flatten(t.tokens);
      if inner != Done {
        return inner, [];
      }
      lists := AppendGroup(lists, group, t.modifier);
      if |lists| > LIMIT {
        return Overflow, [];
      }
    }
    return Done, lists;
  }

  // --------------------------------------------------------------------- bound

  function Pow2(n: nat): nat {
    if n == 0 then 1 else 2 * Pow2(n - 1)
  }

  /** No group inside a group, as the parser guarantees. */
  predicate FlatGroups(ts: seq<Token>) {
    forall i :: 0 <= i < |ts| && ts[i].Group? ==> NoGroups(ts[i].tokens)
  }

  predicate NoGroups(ts: seq<Token>) {
    forall i :: 0 <= i < |ts| ==> !ts[i].Group?
  }

  predicate NoRepeatingGroup(ts: seq<Token>) {
    forall i :: 0 <= i < |ts| && ts[i].Group? ==> !Repeats(ts[i].modifier)
  }

  function OptionalGroups(ts: seq<Token>): nat {
    if ts == [] then 0
    else (if ts[0].Group? && ts[0].modifier == Optional then 1 else 0) + OptionalGroups(ts[1..])
  }

  lemma {:induction false} ProductSize(sequences: seq<seq<Token>>, group: seq<seq<Token>>)
    requires |group| == 1
    ensures |Product(sequences, group)| == |sequences|
  {
    if sequences != [] {
      ProductSize(sequences[..|sequences| - 1], group);
    }
  }

  /** The order of the combinations: all of the first sequence's, in the group's order,
      before those of the next. */
  lemma ProductOrder(first: seq<Token>, others: seq<seq<Token>>, group: seq<seq<Token>>)
    ensures Product([], group) == []
    ensures Product([first] + others, group) == Product([first], group) + Product(others, group)
    ensures |Product([first], group)| == |group|
    ensures forall j :: 0 <= j < |group| ==> Product([first], group)[j] == first + group[j]
  {
    assert [first][..0] == [];
    ProductJoined([first], others, group);
  }

  lemma {:induction false} ProductJoined(a: seq<seq<Token>>, b: seq<seq<Token>>, group: seq<seq<Token>>)
    ensures Product(a + b, group) == Product(a, group) + Product(b, group)
    decreases |b|
  {
    hide Extend, Product;
    ProductNone(group);
    if b == [] {
      assert a + b == a;
    } else {
      var n := |b| - 1;
      ProductJoined(a, b[..n], group);
      ProductLast(a + b, group);
      ProductLast(b, group);
      assert (a + b)[..|a + b| - 1] == a + b[..n];
      assert Product(a, group) + (Product(b[..n], group) + Extend(b[n], group))
          == Product(a, group) + Product(b[..n], group) + Extend(b[n], group);
    }
  }

  lemma ProductLast(sequences: seq<seq<Token>>, group: seq<seq<Token>>)
    requires sequences != []
    ensures var n := |sequences| - 1;
      Product(sequences, group) == Product(sequences[..n], group) + Extend(sequences[n], group)
  {
  }

  lemma {:induction false} FlattenNoGroups(sequences: seq<seq<Token>>, ts: seq<Token>)
    requires NoGroups(ts)
    ensures FlattenFrom(sequences, ts).Flat? && |FlattenFrom(sequences, ts).sequences| == |sequences|
    decreases ts
  {
    if ts != [] {
      FlattenNoGroups(AppendAll(sequences, ts[0]), ts[1..]);
    }
  }

  lemma {:induction false} Pow2Bound(n: nat)
    ensures Pow2(n) <= LIMIT <==> n <= 8
    ensures Pow2(n) >= 1
  {
    assert Pow2(8) == 2 * Pow2(7) == 4 * Pow2(6) == 8 * Pow2(5) == 16 * Pow2(4);
    assert Pow2(4) == 2 * Pow2(3) == 4 * Pow2(2) == 8 * Pow2(1) == 16;
    if n > 9 {
      Pow2Bound(n - 1);
    } else if n == 9 {
      assert Pow2(9) == 2 * Pow2(8);
    } else if n < 8 {
      Pow2Monotone(n, 8);
    }
    if n > 0 {
      Pow2Bound(n - 1);
    }
  }

  lemma {:induction false} Pow2Monotone(m: nat, n: nat)
    requires m <= n
    ensures 1 <= Pow2(m) <= Pow2(n)
  {
    if m < n {
      Pow2Monotone(m, n - 1);
    } else if n > 0 {
      Pow2Monotone(m - 1, n - 1);
    }
  }

  lemma {:induction false} FlattenBoundFrom(j: nat, sequences: seq<seq<Token>>, ts: seq<Token>)
    requires FlatGroups(ts) && j <= 8 && |sequences| == Pow2(j)
    ensures var r := FlattenFrom(sequences, ts);
      && (r.Flat? <==> NoRepeatingGroup(ts) && j + OptionalGroups(ts) <= 8)
      && (r.Flat? ==> |r.sequences| == Pow2(j + OptionalGroups(ts)))
    decreases ts
  {
    hide AppendAll, Product;
    if ts == [] {
    } else {
      var t, after := ts[0], ts[1..];
      assert FlatGroups(after);
      assert NoRepeatingGroup(ts) <==> NoRepeatingGroup(after) && (t.Group? ==> !Repeats(t.modifier)) by {
        assert ts == [t] + after;
      }
      if !t.Group? {
        AppendAllSize(sequences, t);
        FlattenBoundFrom(j, AppendAll(sequences, t), after);
      } else if !Repeats(t.modifier) {
        FlattenNoGroups([[]], t.tokens);
        var group := FlattenFrom([[]], t.tokens).sequences;
        ProductSize(sequences, group);
        var next := WithGroup(sequences, group, t.modifier);
        var n := if t.modifier == Optional then j + 1 else j;
        assert |next| == Pow2(n);
        Pow2Bound(n);
        if n <= 8 {
          FlattenBoundFrom(n, next, after);
        }
      }
    }
  }

  lemma OptionalGroupsCons(ts: seq<Token>, i: nat)
    requires 0 < i <= |ts|
    ensures OptionalGroups(ts[..i])
         == (if ts[0].Group? && ts[0].modifier == Optional then 1 else 0) + OptionalGroups(ts[1..][..i - 1])
  {
    assert ts[..i][0] == ts[0] && ts[..i][1..] == ts[1..][..i - 1];
  }

  /** A repeating group that is reached before the ninth optional one. */
  predicate RepeatReached(j: nat, ts: seq<Token>, i: nat)
    requires i < |ts|
  {
    ts[i].Group? && (ts[i].modifier == OneOrMore || ts[i].modifier == ZeroOrMore) && j + OptionalGroups(ts[..i]) <= 8
  }

  lemma RepeatShifts(j: nat, n: nat, ts: seq<Token>)
    requires ts != [] && n == (if ts[0].Group? && ts[0].modifier == Optional then j + 1 else j)
    requires !(ts[0].Group? && Repeats(ts[0].modifier))
    ensures (exists i :: 0 <= i < |ts| && RepeatReached(j, ts, i))
      <==> (exists i :: 0 <= i < |ts[1..]| && RepeatReached(n, ts[1..], i))
  {
    hide OptionalGroups;
    if i :| 0 <= i < |ts| && RepeatReached(j, ts, i) {
      OptionalGroupsCons(ts, i);
      assert RepeatReached(n, ts[1..], i - 1);
    }
    if i :| 0 <= i < |ts[1..]| && RepeatReached(n, ts[1..], i) {
      OptionalGroupsCons(ts, i + 1);
      assert RepeatReached(j, ts, i + 1);
    }
  }

  lemma NoRepeatLater(j: nat, ts: seq<Token>)
    requires j > 8
    ensures !exists i :: 0 <= i < |ts| && RepeatReached(j, ts, i)
  {
  }

  /** Which of the two errors is raised: the first fault met from the left. */
  lemma {:induction false} FlattenErrorsFrom(j: nat, sequences: seq<seq<Token>>, ts: seq<Token>)
    requires FlatGroups(ts) && j <= 8 && |sequences| == Pow2(j)
    ensures FlattenFrom(sequences, ts) == RepeatingGroup <==> exists i :: 0 <= i < |ts| && RepeatReached(j, ts, i)
    decreases ts
  {
    hide AppendAll, Product, RepeatReached, Pow2;
    if ts != [] {
      var t, after := ts[0], ts[1..];
      assert FlatGroups(after);
      if t.Group? && Repeats(t.modifier) {
        assert RepeatReached(j, ts, 0) by {
          RepeatsAtOnce(j, ts);
        }
      } else if !t.Group? {
        RepeatShifts(j, j, ts);
        AppendAllSize(sequences, t);
        FlattenErrorsFrom(j, AppendAll(sequences, t), after);
      } else {
        FlattenNoGroups([[]], t.tokens);
        var group := FlattenFrom([[]], t.tokens).sequences;
        ProductSize(sequences, group);
        var next := WithGroup(sequences, group, t.modifier);
        var n := if t.modifier == Optional then j + 1 else j;
        RepeatShifts(j, n, ts);
        assert |next| == Pow2(n) by {
          Doubles(j);
        }
        Pow2Bound(n);
        if n <= 8 {
          FlattenErrorsFrom(n, next, after);
        } else {
          NoRepeatLater(n, after);
        }
      }
    }
  }

  lemma RepeatsAtOnce(j: nat, ts: seq<Token>)
    requires j <= 8 && ts != [] && ts[0].Group? && Repeats(ts[0].modifier)
    ensures RepeatReached(j, ts, 0)
  {
    assert ts[..0] == [];
  }

  lemma Doubles(j: nat)
    ensures Pow2(j + 1) == Pow2(j) + Pow2(j)
  {
  }

  lemma AppendAllSize(sequences: seq<seq<Token>>, t: Token)
    ensures |AppendAll(sequences, t)| == |sequences|
  {
  }

  /** On every list the parser can produce, flattening succeeds exactly when no
      group repeats and at most eight are optional, and then yields 2^k sequences. */
  lemma FlattenBound(ts: seq<Token>)
    requires PatternPrinter.WellFormed(ts, false)
    ensures var r, k := FlattenFrom([[]], ts), OptionalGroups(ts);
      && (r.Flat? <==> NoRepeatingGroup(ts) && k <= 8)
      && (r.Flat? ==> |r.sequences| == Pow2(k))
      && (r == RepeatingGroup <==> exists i :: 0 <= i < |ts| && RepeatReached(0, ts, i))
  {
    forall i | 0 <= i < |ts| && ts[i].Group? ensures NoGroups(ts[i].tokens) {
      assert PatternPrinter.WellFormedToken(ts[i], false);
      assert PatternPrinter.WellFormed(ts[i].tokens, true);
      forall k | 0 <= k < |ts[i].tokens| ensures !ts[i].tokens[k].Group? {
        assert PatternPrinter.WellFormedToken(ts[i].tokens[k], true);
      }
    }
    FlattenBoundFrom(0, [[]], ts);
    FlattenErrorsFrom(0, [[]], ts);
  }

  // ---------------------------------------------------------------- agreement

  /** No modified placeholder and no repeating group at any depth. */
  predicate Calm(t: Token)
    decreases t
  {
    match t
    case Group(ts, m) => !Repeats(m) && forall i :: 0 <= i < |ts| ==> Calm(ts[i])
    case Text(_) => true
    case _ => t.modifier == Once
  }

  predicate AllCalm(ts: seq<Token>) {
    forall i :: 0 <= i < |ts| ==> Calm(ts[i])
  }

  predicate ModifiedPlaceholder(t: Token) {
    Placeholder(t) && t.modifier != Once
  }

  /** Whether some flat sequence may end in a slash after ts, given whether some one
      may before it. */
  predicate EndsSlash(ts: seq<Token>, slash: bool)
    decreases ts
  {
    if ts == [] then slash else EndsSlash(ts[1..], NextSlash(ts[0], slash))
  }

  predicate NextSlash(t: Token, slash: bool)
    decreases t
  {
    match t
    case Text(value) => EndsWithSlash(value)
    case Group(ts, m) => EndsSlash(ts, slash) || (m == Optional && slash)
    case _ => false
  }

  /** Groups do not repeat and hold no modified placeholder, and after a group that lets
      some flat sequence end in a slash none follows directly to take that slash. */
  predicate Expandable(ts: seq<Token>, slash: bool)
    decreases ts
  {
    ts == [] ||
    (&& (ts[0].Group? ==> Calm(ts[0]))
     && (ts[0].Group? && |ts| > 1 && ModifiedPlaceholder(ts[1]) ==> !NextSlash(ts[0], slash))
     && Expandable(ts[1..], NextSlash(ts[0], slash)))
  }

  /** The union of the languages of flat sequences. */
  ghost function UnionLang(o: Oracle, sequences: seq<seq<Token>>): Lang {
    iset i: nat, w | i < |sequences| && w in TokensLang(o, sequences[i], true) :: w
  }

  predicate Boundary(xs: seq<Token>, ys: seq<Token>) {
    xs != [] && ys != [] ==> !Captures(xs[|xs| - 1], ys[0], true)
  }

  /** Concatenated token lists denote the concatenation unless the second begins
      with a placeholder that captures a slash of the first. */
  lemma {:induction false} TokensLangAppend(o: Oracle, xs: seq<Token>, ys: seq<Token>)
    requires Boundary(xs, ys)
    ensures TokensLang(o, xs + ys, true) == Cat(TokensLang(o, xs, true), TokensLang(o, ys, true))
    decreases xs
  {
    hide PieceLang, Cat;
    var all := xs + ys;
    if xs == [] {
      assert all == ys;
      CatUnit(TokensLang(o, ys, true));
    } else if |xs| > 1 && Captures(xs[0], xs[1], true) {
      assert all[0] == xs[0] && all[1] == xs[1] && all[2..] == xs[2..] + ys;
      TokensLangAppend(o, xs[2..], ys);
      CatAssoc(Cat(iset{WithoutLast(xs[0].value)}, PieceLang(o, xs[1], "/")),
               TokensLang(o, xs[2..], true), TokensLang(o, ys, true));
    } else {
      assert all[0] == xs[0] && all[1..] == xs[1..] + ys;
      assert |all| > 1 ==> all[1] == if |xs| > 1 then xs[1] else ys[0];
      TokensLangAppend(o, xs[1..], ys);
      CatAssoc(PieceLang(o, xs[0], ""), TokensLang(o, xs[1..], true), TokensLang(o, ys, true));
    }
  }

  /** Without modified placeholders automatic prefixing makes no difference. */
  lemma {:induction false} CalmPrefix(o: Oracle, ts: seq<Token>)
    requires AllCalm(ts)
    ensures TokensLang(o, ts, true) == TokensLang(o, ts, false)
    decreases ts
  {
    if ts != [] {
      assert |ts| > 1 ==> Calm(ts[1]);
      CalmPrefix(o, ts[1..]);
    }
  }

  lemma UnionAppend(o: Oracle, a: seq<seq<Token>>, b: seq<seq<Token>>)
    ensures UnionLang(o, a + b) == UnionLang(o, a) + UnionLang(o, b)
  {
    var c := a + b;
    forall w | w in UnionLang(o, a) ensures w in UnionLang(o, c) {
      var i: nat :| i < |a| && w in TokensLang(o, a[i], true);
      assert c[i] == a[i];
    }
    forall w | w in UnionLang(o, b) ensures w in UnionLang(o, c) {
      var i: nat :| i < |b| && w in TokensLang(o, b[i], true);
      assert c[|a| + i] == b[i];
    }
    forall w | w in UnionLang(o, c) ensures w in UnionLang(o, a) + UnionLang(o, b) {
      var i: nat :| i < |c| && w in TokensLang(o, c[i], true);
      if i < |a| {
        assert c[i] == a[i];
      } else {
        assert c[i] == b[i - |a|];
      }
    }
  }

  lemma UnionOne(o: Oracle, ts: seq<Token>)
    ensures UnionLang(o, [ts]) == TokensLang(o, ts, true)
  {
    hide TokensLang;
    forall w | w in TokensLang(o, ts, true) ensures w in UnionLang(o, [ts]) {
      assert [ts][0] == ts;
    }
  }

  /** Appending the same tokens to every sequence. */
  lemma UnionSuffix(o: Oracle, sequences: seq<seq<Token>>, ys: seq<Token>, longer: seq<seq<Token>>)
    requires |longer| == |sequences|
    requires forall i :: 0 <= i < |sequences| ==> longer[i] == sequences[i] + ys && Boundary(sequences[i], ys)
    ensures UnionLang(o, longer) == Cat(UnionLang(o, sequences), TokensLang(o, ys, true))
  {
    hide TokensLang, Boundary;
    var l := TokensLang(o, ys, true);
    forall i | 0 <= i < |sequences|
      ensures TokensLang(o, longer[i], true) == Cat(TokensLang(o, sequences[i], true), l)
    {
      TokensLangAppend(o, sequences[i], ys);
    }
    forall w | w in UnionLang(o, longer) ensures w in Cat(UnionLang(o, sequences), l) {
      var i: nat :| i < |longer| && w in TokensLang(o, longer[i], true);
      var x, y :| x in TokensLang(o, sequences[i], true) && y in l && w == x + y;
      assert x in UnionLang(o, sequences);
    }
    forall w | w in Cat(UnionLang(o, sequences), l) ensures w in UnionLang(o, longer) {
      var x, y :| x in UnionLang(o, sequences) && y in l && w == x + y;
      var i: nat :| i < |sequences| && x in TokensLang(o, sequences[i], true);
      CatIn(TokensLang(o, sequences[i], true), l, x, y);
      assert w in TokensLang(o, longer[i], true);
    }
  }

  /** No sequence begins with a placeholder that could capture a slash. */
  predicate CalmHeads(group: seq<seq<Token>>) {
    forall i :: 0 <= i < |group| && group[i] != [] ==> !ModifiedPlaceholder(group[i][0])
  }

  lemma UnionExtend(o: Oracle, sequence: seq<Token>, group: seq<seq<Token>>)
    requires CalmHeads(group)
    ensures UnionLang(o, Extend(sequence, group)) == Cat(TokensLang(o, sequence, true), UnionLang(o, group))
  {
    hide TokensLang;
    var all, l := Extend(sequence, group), TokensLang(o, sequence, true);
    forall i | 0 <= i < |group| ensures TokensLang(o, all[i], true) == Cat(l, TokensLang(o, group[i], true)) {
      TokensLangAppend(o, sequence, group[i]);
    }
    forall w | w in UnionLang(o, all) ensures w in Cat(l, UnionLang(o, group)) {
      var i: nat :| i < |all| && w in TokensLang(o, all[i], true);
      var x, y :| x in l && y in TokensLang(o, group[i], true) && w == x + y;
      assert y in UnionLang(o, group);
    }
    forall w | w in Cat(l, UnionLang(o, group)) ensures w in UnionLang(o, all) {
      var x, y :| x in l && y in UnionLang(o, group) && w == x + y;
      var i: nat :| i < |group| && y in TokensLang(o, group[i], true);
      CatIn(l, TokensLang(o, group[i], true), x, y);
      assert w in TokensLang(o, all[i], true);
    }
  }

  lemma CatUnionLeft(a: Lang, b: Lang, c: Lang)
    ensures Cat(a + b, c) == Cat(a, c) + Cat(b, c)
  {
  }

  lemma CatUnionRight(a: Lang, b: Lang, c: Lang)
    ensures Cat(a, b + c) == Cat(a, b) + Cat(a, c)
  {
  }

  lemma {:induction false} UnionProduct(o: Oracle, sequences: seq<seq<Token>>, group: seq<seq<Token>>)
    requires CalmHeads(group)
    ensures UnionLang(o, Product(sequences, group)) == Cat(UnionLang(o, sequences), UnionLang(o, group))
  {
    hide CalmHeads, Extend, TokensLang;
    if sequences == [] {
    } else {
      var init, last := sequences[..|sequences| - 1], sequences[|sequences| - 1];
      UnionProduct(o, init, group);
      UnionExtend(o, last, group);
      UnionAppend(o, Product(init, group), Extend(last, group));
      assert sequences == init + [last];
      UnionAppend(o, init, [last]);
      UnionOne(o, last);
      CatUnionLeft(UnionLang(o, init), UnionLang(o, [last]), UnionLang(o, group));
    }
  }

  lemma ManyOptional(a: Lang)
    ensures Many(a, Optional) == a + iset{""}
  {
    RightUnit(a);
    assert Pow(a, 0) == iset{""} && Pow(a, 1) == Cat(a, Pow(a, 0)) == a;
    assert Allows(Optional, 0) && Allows(Optional, 1);
    forall w | w in a + iset{""} ensures w in Many(a, Optional) {
      assert w in Pow(a, 0) || w in Pow(a, 1);
    }
    forall w | w in Many(a, Optional) ensures w in a + iset{""} {
      var n: nat :| Allows(Optional, n) && w in Pow(a, n);
      assert n == 0 || n == 1;
    }
  }

  /** Adding a group to every sequence multiplies their languages by the group's. */
  lemma UnionWithGroup(o: Oracle, sequences: seq<seq<Token>>, group: seq<seq<Token>>, m: Modifier)
    requires CalmHeads(group) && !Repeats(m)
    ensures UnionLang(o, WithGroup(sequences, group, m))
         == Cat(UnionLang(o, sequences), Many(UnionLang(o, group), m))
  {
    hide CalmHeads, Product, UnionLang, Many, Cat;
    UnionProduct(o, sequences, group);
    var l := UnionLang(o, group);
    if m == Optional {
      UnionAppend(o, Product(sequences, group), sequences);
      ManyOptional(l);
      RightUnit(UnionLang(o, sequences));
      CatUnionRight(UnionLang(o, sequences), l, iset{""});
    } else {
      ManyOnce(l);
    }
  }

  predicate AllSequencesCalm(sequences: seq<seq<Token>>) {
    forall i :: 0 <= i < |sequences| ==> AllCalm(sequences[i])
  }

  lemma {:induction false} ProductCalm(sequences: seq<seq<Token>>, group: seq<seq<Token>>)
    requires AllSequencesCalm(sequences) && AllSequencesCalm(group)
    ensures AllSequencesCalm(Product(sequences, group))
  {
    if sequences != [] {
      ProductCalm(sequences[..|sequences| - 1], group);
    }
  }

  lemma {:induction false} FlattenCalm(sequences: seq<seq<Token>>, ts: seq<Token>)
    requires AllSequencesCalm(sequences) && AllCalm(ts) && FlattenFrom(sequences, ts).Flat?
    ensures AllSequencesCalm(FlattenFrom(sequences, ts).sequences)
    decreases ts
  {
    if ts != [] {
      assert Calm(ts[0]);
      if ts[0].Group? {
        FlattenCalm([[]], ts[0].tokens);
        var group := FlattenFrom([[]], ts[0].tokens).sequences;
        ProductCalm(sequences, group);
        FlattenCalm(WithGroup(sequences, group, ts[0].modifier), ts[1..]);
      } else {
        FlattenCalm(AppendAll(sequences, ts[0]), ts[1..]);
      }
    }
  }

  // How the flat sequences end.

  predicate EndsIn(sequence: seq<Token>, empty: bool) {
    if sequence == [] then empty
    else var last := sequence[|sequence| - 1]; last.Text? && EndsWithSlash(last.value)
  }

  predicate AllEnd(sequences: seq<seq<Token>>, empty: bool, slash: bool) {
    forall i :: 0 <= i < |sequences| && EndsIn(sequences[i], empty) ==> slash
  }

  lemma {:induction false} EndsSlashMonotone(ts: seq<Token>)
    ensures EndsSlash(ts, false) ==> EndsSlash(ts, true)
    decreases ts
  {
    if ts != [] {
      if ts[0].Group? {
        EndsSlashMonotone(ts[0].tokens);
      }
      EndsSlashMonotone(ts[1..]);
      var a, b := NextSlash(ts[0], false), NextSlash(ts[0], true);
      assert a ==> b;
      assert EndsSlash(ts, false) == EndsSlash(ts[1..], a) && EndsSlash(ts, true) == EndsSlash(ts[1..], b);
    }
  }

  lemma {:induction false} ProductEnds(sequences: seq<seq<Token>>, group: seq<seq<Token>>,
                                       empty: bool, slash: bool, after: bool)
    requires AllEnd(sequences, empty, slash) && AllEnd(group, false, after) && (AllEnd(group, true, slash ==> after))
    ensures AllEnd(Product(sequences, group), empty, after)
  {
    if sequences != [] {
      ProductEnds(sequences[..|sequences| - 1], group, empty, slash, after);
    }
  }

  lemma {:induction false} FlattenEnds(sequences: seq<seq<Token>>, ts: seq<Token>, empty: bool, slash: bool)
    requires AllEnd(sequences, empty, slash) && FlattenFrom(sequences, ts).Flat?
    ensures AllEnd(FlattenFrom(sequences, ts).sequences, empty, EndsSlash(ts, slash))
    decreases ts, 1
  {
    hide WithGroup;
    if ts != [] {
      if ts[0].Group? {
        GroupEnds(sequences, ts[0], empty, slash);
        var group := FlattenFrom([[]], ts[0].tokens).sequences;
        FlattenEnds(WithGroup(sequences, group, ts[0].modifier), ts[1..], empty, NextSlash(ts[0], slash));
      } else {
        FlattenEnds(AppendAll(sequences, ts[0]), ts[1..], empty, NextSlash(ts[0], slash));
      }
    }
  }

  lemma {:induction false} GroupEnds(sequences: seq<seq<Token>>, t: Token, empty: bool, slash: bool)
    requires t.Group? && AllEnd(sequences, empty, slash) && FlattenFrom([[]], t.tokens).Flat?
    ensures AllEnd(WithGroup(sequences, FlattenFrom([[]], t.tokens).sequences, t.modifier), empty, NextSlash(t, slash))
    decreases t.tokens, 2
  {
    hide Product;
    var group := FlattenFrom([[]], t.tokens).sequences;
    FlattenEnds([[]], t.tokens, false, false);
    FlattenEnds([[]], t.tokens, true, true);
    EndsSlashMonotone(t.tokens);
    ProductEnds(sequences, group, empty, slash, NextSlash(t, slash));
  }

  lemma {:induction false} CalmExpandable(ts: seq<Token>, slash: bool)
    requires AllCalm(ts)
    ensures Expandable(ts, slash)
    decreases ts
  {
    if ts != [] {
      assert Calm(ts[0]) && (|ts| > 1 ==> Calm(ts[1]));
      CalmExpandable(ts[1..], NextSlash(ts[0], slash));
    }
  }

  /** Flattening what follows the sequences built so far. */
  lemma {:induction false} FlattenAgreesFrom(o: Oracle, sequences: seq<seq<Token>>, ts: seq<Token>, slash: bool)
    requires Expandable(ts, slash) && FlattenFrom(sequences, ts).Flat? && AllEnd(sequences, false, slash)
    requires forall i :: 0 <= i < |sequences| ==> Boundary(sequences[i], ts)
    ensures UnionLang(o, FlattenFrom(sequences, ts).sequences)
         == Cat(UnionLang(o, sequences), TokensLang(o, ts, true))
    decreases ts, 1
  {
    if ts == [] {
      RightUnit(UnionLang(o, sequences));
    } else if ts[0].Group? {
      GroupAgrees(o, sequences, ts, slash);
    } else if |ts| > 1 && Captures(ts[0], ts[1], true) {
      CaptureAgrees(o, sequences, ts, slash);
    } else {
      PlainAgrees(o, sequences, ts, slash);
    }
  }

  /** A captured slash moves together with the placeholder that takes it. */
  lemma {:induction false} CaptureAgrees(o: Oracle, sequences: seq<seq<Token>>, ts: seq<Token>, slash: bool)
    requires |ts| > 1 && Captures(ts[0], ts[1], true)
    requires Expandable(ts, slash) && FlattenFrom(sequences, ts).Flat?
    ensures UnionLang(o, FlattenFrom(sequences, ts).sequences)
         == Cat(UnionLang(o, sequences), TokensLang(o, ts, true))
    decreases ts, 0
  {
    hide PieceLang, Cat, UnionLang;
    var text, placeholder, after := ts[0], ts[1], ts[2..];
    var longer := AppendAll(AppendAll(sequences, text), placeholder);
    assert ts[1..][0] == placeholder && ts[1..][1..] == after;
    assert Expandable(ts[1..], NextSlash(text, slash)) && Expandable(after, false);
    assert FlattenFrom(sequences, ts) == FlattenFrom(AppendAll(sequences, text), ts[1..]) == FlattenFrom(longer, after);
    FlattenAgreesFrom(o, longer, after, false);
    UnionSuffix(o, sequences, [text, placeholder], longer);
    var taken := Cat(iset{WithoutLast(text.value)}, PieceLang(o, placeholder, "/"));
    assert TokensLang(o, [text, placeholder], true) == Cat(taken, TokensLang(o, [], true)) by {
      assert [text, placeholder][2..] == [];
    }
    RightUnit(taken);
    CatAssoc(UnionLang(o, sequences), taken, TokensLang(o, after, true));
  }

  lemma SingleTokenLang(o: Oracle, t: Token)
    ensures TokensLang(o, [t], true) == PieceLang(o, t, "")
  {
    assert [t][1..] == [];
    RightUnit(PieceLang(o, t, ""));
  }

  lemma {:induction false} PlainAgrees(o: Oracle, sequences: seq<seq<Token>>, ts: seq<Token>, slash: bool)
    requires ts != [] && !ts[0].Group? && Expandable(ts, slash) && FlattenFrom(sequences, ts).Flat?
    requires forall i :: 0 <= i < |sequences| ==> Boundary(sequences[i], ts)
    requires !(|ts| > 1 && Captures(ts[0], ts[1], true))
    ensures UnionLang(o, FlattenFrom(sequences, ts).sequences)
         == Cat(UnionLang(o, sequences), TokensLang(o, ts, true))
    decreases ts, 0
  {
    hide PieceLang, Cat, UnionLang;
    var longer, after := AppendAll(sequences, ts[0]), ts[1..];
    FlattenAgreesFrom(o, longer, after, NextSlash(ts[0], slash));
    UnionSuffix(o, sequences, [ts[0]], longer);
    SingleTokenLang(o, ts[0]);
    CatAssoc(UnionLang(o, sequences), PieceLang(o, ts[0], ""), TokensLang(o, after, true));
  }

  /** The flat sequences of a group's tokens denote the group's body. */
  lemma {:induction false} GroupBodyAgrees(o: Oracle, t: Token)
    requires t.Group? && Calm(t) && FlattenFrom([[]], t.tokens).Flat?
    ensures var group := FlattenFrom([[]], t.tokens).sequences;
      CalmHeads(group) && Many(UnionLang(o, group), t.modifier) == PieceLang(o, t, "")
    decreases t.tokens, 2
  {
    hide Cat, Many, UnionLang, EndsSlash, NextSlash;
    var body := TokensLang(o, t.tokens, false);
    FlattenCalm([[]], t.tokens);
    CalmExpandable(t.tokens, false);
    FlattenAgreesFrom(o, [[]], t.tokens, false);
    UnionOne(o, []);
    LeftUnit(TokensLang(o, t.tokens, true));
    CalmPrefix(o, t.tokens);
    LeftUnit(body);
  }

  lemma {:induction false} GroupAgrees(o: Oracle, sequences: seq<seq<Token>>, ts: seq<Token>, slash: bool)
    requires ts != [] && ts[0].Group? && Expandable(ts, slash) && FlattenFrom(sequences, ts).Flat?
    requires AllEnd(sequences, false, slash)
    ensures UnionLang(o, FlattenFrom(sequences, ts).sequences)
         == Cat(UnionLang(o, sequences), TokensLang(o, ts, true))
    decreases ts, 0
  {
    hide PieceLang, Cat, UnionLang, WithGroup, CalmHeads, Many, NextSlash;
    var t, after := ts[0], ts[1..];
    var group := FlattenFrom([[]], t.tokens).sequences;
    var next := WithGroup(sequences, group, t.modifier);
    GroupBodyAgrees(o, t);
    GroupEnds(sequences, t, false, slash);
    FlattenAgreesFrom(o, next, after, NextSlash(t, slash));
    UnionWithGroup(o, sequences, group, t.modifier);
    CatAssoc(UnionLang(o, sequences), PieceLang(o, t, ""), TokensLang(o, after, true));
  }

  /** Flattening agrees with grouping: the flat sequences together match exactly
      what the grouped tokens match. */
  lemma FlattenAgrees(o: Oracle, ts: seq<Token>)
    requires Expandable(ts, false) && FlattenFrom([[]], ts).Flat?
    ensures UnionLang(o, FlattenFrom([[]], ts).sequences) == TokensLang(o, ts, true)
  {
    FlattenAgreesFrom(o, [[]], ts, false);
    UnionOne(o, []);
    LeftUnit(TokensLang(o, ts, true));
  }

  // ------------------------------------------------- where the two routes disagree

  const HEAD := Text("/a")
  const SLASH := Text("/")
  const OPTIONAL_PARAM := Param("x", None, Optional)

  /** "/a{/}?:x?": the parameter follows an optional group. */
  function Diverging(): seq<Token> {
    [HEAD, Group([SLASH], Optional), OPTIONAL_PARAM]
  }

  lemma DivergingFlat()
    ensures FlattenFrom([[]], Diverging()) == Flat([[HEAD, SLASH, OPTIONAL_PARAM], [HEAD, OPTIONAL_PARAM]])
  {
    var ts, flat := Diverging(), [HEAD, SLASH, OPTIONAL_PARAM];
    var next := [[HEAD, SLASH], [HEAD]];
    AppendFirst(HEAD);
    AppendFirst(SLASH);
    assert [SLASH][1..] == [] && FlattenFrom([[]], [SLASH]) == Flat([[SLASH]]);
    assert Product([[HEAD]], [[SLASH]]) == [[HEAD, SLASH]] by {
      assert [HEAD] + [SLASH] == [HEAD, SLASH];
      assert Extend([HEAD], [[SLASH]])[0] == [HEAD, SLASH];
      assert [[HEAD]][..0] == [];
    }
    assert AppendAll(next, OPTIONAL_PARAM) == [flat, [HEAD, OPTIONAL_PARAM]] by {
      assert AppendAll(next, OPTIONAL_PARAM)[0] == [HEAD, SLASH] + [OPTIONAL_PARAM] == flat;
      assert AppendAll(next, OPTIONAL_PARAM)[1] == [HEAD] + [OPTIONAL_PARAM] == [HEAD, OPTIONAL_PARAM];
    }
    assert ts[1..] == [Group([SLASH], Optional), OPTIONAL_PARAM] && ts[1..][1..] == [OPTIONAL_PARAM];
    assert [OPTIONAL_PARAM][1..] == [];
    assert FlattenFrom(next, [OPTIONAL_PARAM]) == Flat(AppendAll(next, OPTIONAL_PARAM));
    assert WithGroup([[HEAD]], [[SLASH]], Optional) == next;
    assert FlattenFrom([[HEAD]], ts[1..]) == FlattenFrom(next, [OPTIONAL_PARAM]);
  }

  lemma AppendFirst(t: Token)
    ensures AppendAll([[]], t) == [[t]]
  {
    assert AppendAll([[]], t)[0] == [] + [t] == [t];
  }

  /** An optional parameter adds nothing or a segment without a slash. */
  lemma ParamWords(o: Oracle, prefix: string)
    ensures PieceLang(o, OPTIONAL_PARAM, prefix) == Cat(iset{prefix}, iset w: string | w != "" && '/' !in w) + iset{""}
  {
    ManyOptional(Cat(iset{prefix}, iset w: string | w != "" && '/' !in w));
  }

  lemma GroupedMatches(o: Oracle)
    ensures "/a/" in TokensLang(o, Diverging(), true)
  {
    hide Cat, Many, PieceLang;
    var ts := Diverging();
    var g := ts[1];
    assert ts[1..] == [g, OPTIONAL_PARAM] && ts[1..][1..] == [OPTIONAL_PARAM];
    assert "" in PieceLang(o, OPTIONAL_PARAM, "") by {
      ParamWords(o, "");
    }
    assert "/" in PieceLang(o, g, "") by {
      SlashGroup(o);
    }
    SingleTokenLang(o, OPTIONAL_PARAM);
    CatIn(PieceLang(o, g, ""), PieceLang(o, OPTIONAL_PARAM, ""), "/", "");
    assert "/" + "" == "/";
    assert "/" in TokensLang(o, ts[1..], true);
    assert PieceLang(o, HEAD, "") == iset{"/a"} by {
      HeadWord(o);
    }
    CatIn(iset{"/a"}, TokensLang(o, ts[1..], true), "/a", "/");
    assert "/a" + "/" == "/a/";
  }

  lemma HeadWord(o: Oracle)
    ensures PieceLang(o, HEAD, "") == iset{"/a"} && PieceLang(o, SLASH, "") == iset{"/"}
  {
  }

  lemma SlashGroup(o: Oracle)
    ensures "/" in PieceLang(o, Group([SLASH], Optional), "")
  {
    hide Cat, Many;
    var body := TokensLang(o, [SLASH], false);
    HeadWord(o);
    assert [SLASH][1..] == [];
    assert TokensLang(o, [SLASH][1..], false) == iset{""};
    assert body == Cat(iset{"/"}, iset{""});
    RightUnit(iset{"/"});
    LeftUnit(body);
    ManyOptional(body);
  }

  lemma FlatMisses(o: Oracle)
    ensures "/a/" !in TokensLang(o, [HEAD, SLASH, OPTIONAL_PARAM], true)
    ensures "/a/" !in TokensLang(o, [HEAD, OPTIONAL_PARAM], true)
  {
    hide PieceLang, Many, Cat, TokensLang;
    var long, short := [HEAD, SLASH, OPTIONAL_PARAM], [HEAD, OPTIONAL_PARAM];
    assert long[1..] == [SLASH, OPTIONAL_PARAM] && short[1..] == [OPTIONAL_PARAM];
    BareNeverSlash(o);
    CapturedNeverBare(o);
    AfterHead(o, long);
    AfterHead(o, short);
  }

  lemma AfterHead(o: Oracle, ts: seq<Token>)
    requires |ts| > 1 && ts[0] == HEAD
    requires "/" !in TokensLang(o, ts[1..], true)
    ensures "/a/" !in TokensLang(o, ts, true)
  {
    hide PieceLang, Many;
    HeadWord(o);
    var rest := TokensLang(o, ts[1..], true);
    assert TokensLang(o, ts, true) == Cat(iset{"/a"}, rest);
    forall y | y in rest
      ensures "/a" + y != "/a/"
    {
      assert ("/a" + y)[2..] == y && "/a/"[2..] == "/";
    }
  }

  lemma BareNeverSlash(o: Oracle)
    ensures "/" !in TokensLang(o, [OPTIONAL_PARAM], true)
  {
    hide PieceLang, Many, Cat, TokensLang;
    SingleTokenLang(o, OPTIONAL_PARAM);
    ParamWords(o, "");
    LeftUnit(iset w: string | w != "" && '/' !in w);
  }

  /** A captured slash never stands alone. */
  lemma CapturedNeverBare(o: Oracle)
    ensures "/" !in TokensLang(o, [SLASH, OPTIONAL_PARAM], true)
  {
  }

  /** The condition of FlattenAgrees is needed: when an optional parameter directly
      follows a group, flattening lets it capture the group's slash, which the grouped
      pattern does not. */
  lemma FlattenDisagrees(o: Oracle)
    ensures var ts := Diverging();
      && FlattenFrom([[]], ts).Flat? && !Expandable(ts, false)
      && "/a/" in TokensLang(o, ts, true)
      && "/a/" !in UnionLang(o, FlattenFrom([[]], ts).sequences)
  {
    hide TokensLang, FlattenFrom;
    DivergingFlat();
    GroupedMatches(o);
    FlatMisses(o);
    assert !Expandable(Diverging()[1..], false) by {
      assert NextSlash(SLASH, false) && [SLASH][1..] == [];
      assert EndsSlash([SLASH], false) == EndsSlash([SLASH][1..], true);
      assert NextSlash(Group([SLASH], Optional), false);
    }
  }
}
