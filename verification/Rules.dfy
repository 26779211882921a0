/** Firewall rules, chains, and the algebra of deleting rules from a chain. */
module Rules {

  datatype Protocol = Tcp | Udp | IcmpV6 | OtherProtocol(number: nat)

  /** A block of consecutive addresses. */
  datatype Network = Network(base: nat, size: nat)

  datatype Match =
    | Proto(protocol: Protocol)
    | OutLoopback
    | NotOutLoopback
    | Owner(uid: nat)
    | NotOwner(uid: nat)
    | DestPort(port: nat)
    | Destination(network: Network)
    | LocalDestination
    | ReplyOfEstablished
    | Comment(words: seq<string>)
    | ForeignMatch(words: seq<string>)

  datatype Target =
    | Accept
    | Drop
    | Redirect(port: nat)
    | Jump(chain: string)
    | ForeignTarget(words: seq<string>)

  /** The arguments of one rule, as the kernel compares them: account names are
      resolved to numbers. */
  datatype Rule = Rule(matches: seq<Match>, target: Target)

  datatype Table = FilterTable | NatTable

  datatype ChainId = ChainId(table: Table, name: string)

  /** All chains of one address family. */
  type Chains = map<ChainId, seq<Rule>>

  /** Whether the rendered line of a rule contains the token as a separate word. */
  predicate Carries(r: Rule, token: string) {
    || r.target == Jump(token)
    || (r.target.ForeignTarget? && token in r.target.words)
    || exists k :: 0 <= k < |r.matches| && MatchCarries(r.matches[k], token)
  }

  predicate MatchCarries(m: Match, token: string) {
    (m.Comment? || m.ForeignMatch?) && token in m.words
  }

  /** What a deletion removes. */
  datatype Criterion =
    | Exactly(rule: Rule)
    | Carrying(token: string)
    | AnyOf(rules: seq<Rule>)
    | Either(left: Criterion, right: Criterion)

  predicate Selects(k: Criterion, r: Rule) {
    match k
    case Exactly(rule) => r == rule
    case Carrying(token) => Carries(r, token)
    case AnyOf(rules) => r in rules
    case Either(a, b) => Selects(a, r) || Selects(b, r)
  }

  /** The rules the criterion does not select, in their original order. */
  function Without(c: seq<Rule>, k: Criterion): seq<Rule> {
    if c == [] then []
    else (if Selects(k, c[0]) then [] else [c[0]]) + Without(c[1..], k)
  }

  function EnsureFirst(c: seq<Rule>, r: Rule): seq<Rule> {
    [r] + Without(c, Exactly(r))
  }

  /** Each rule in turn is moved to the head. */
  function EnsureEachFirst(c: seq<Rule>, rs: seq<Rule>): seq<Rule> {
    if rs == [] then c else EnsureFirst(EnsureEachFirst(c, rs[..|rs| - 1]), rs[|rs| - 1])
  }

  /** Latest first, duplicates collapsed onto the latest. */
  function Recent(rs: seq<Rule>): seq<Rule> {
    EnsureEachFirst([], rs)
  }

  predicate NoneSelected(c: seq<Rule>, k: Criterion) {
    forall i :: 0 <= i < |c| ==> !Selects(k, c[i])
  }

  predicate AllSelected(c: seq<Rule>, k: Criterion) {
    forall i :: 0 <= i < |c| ==> Selects(k, c[i])
  }

  // ------------------------------------------------------------------ algebra

  lemma {:induction false} WithoutAppend(a: seq<Rule>, b: seq<Rule>, k: Criterion)
    ensures Without(a + b, k) == Without(a, k) + Without(b, k)
    decreases a
  {
    if a == [] {
      assert a + b == b;
    } else {
      assert (a + b)[0] == a[0] && (a + b)[1..] == a[1..] + b;
      WithoutAppend(a[1..], b, k);
    }
  }

  lemma {:induction false} WithoutTwice(c: seq<Rule>, a: Criterion, b: Criterion)
    ensures Without(Without(c, a), b) == Without(c, Either(a, b))
  {
    if c != [] {
      WithoutTwice(c[1..], a, b);
      var rest := Without(c[1..], a);
      assert [] + rest == rest && ([c[0]] + rest)[1..] == rest;
    }
  }

  /** Deleting depends only on which rules of the chain are selected. */
  lemma {:induction false} WithoutSame(c: seq<Rule>, a: Criterion, b: Criterion)
    requires forall i :: 0 <= i < |c| ==> Selects(a, c[i]) == Selects(b, c[i])
    ensures Without(c, a) == Without(c, b)
  {
    if c != [] {
      assert forall i :: 0 <= i < |c[1..]| ==> c[1..][i] == c[i + 1];
      WithoutSame(c[1..], a, b);
    }
  }

  lemma {:induction false} WithoutNone(c: seq<Rule>, k: Criterion)
    requires NoneSelected(c, k)
    ensures Without(c, k) == c
  {
    if c != [] {
      WithoutNone(c[1..], k);
    }
  }

  lemma {:induction false} WithoutAll(c: seq<Rule>, k: Criterion)
    requires AllSelected(c, k)
    ensures Without(c, k) == []
  {
    if c != [] {
      WithoutAll(c[1..], k);
    }
  }

  lemma {:induction false} WithoutIn(c: seq<Rule>, k: Criterion, r: Rule)
    ensures r in Without(c, k) <==> r in c && !Selects(k, r)
  {
    if c != [] {
      WithoutIn(c[1..], k, r);
    }
  }

  /** What one deletion leaves is not selected by it. */
  lemma WithoutLeaves(c: seq<Rule>, k: Criterion)
    ensures NoneSelected(Without(c, k), k)
  {
  }

  /** Moving rules to the head one after the other leaves the moved rules, latest
      first, followed by everything else in its original order. */
  lemma {:induction false} EnsureEachFirstForm(c: seq<Rule>, rs: seq<Rule>)
    ensures EnsureEachFirst(c, rs) == Recent(rs) + Without(c, AnyOf(rs))
  {
    if rs == [] {
      WithoutNone(c, AnyOf([]));
    } else {
      var init, last := rs[..|rs| - 1], rs[|rs| - 1];
      EnsureEachFirstForm(c, init);
      WithoutAppend(Recent(init), Without(c, AnyOf(init)), Exactly(last));
      WithoutOneMore(c, rs);
      assert [last] + (Without(Recent(init), Exactly(last)) + Without(c, AnyOf(rs)))
          == [last] + Without(Recent(init), Exactly(last)) + Without(c, AnyOf(rs));
    }
  }

  lemma WithoutOneMore(c: seq<Rule>, rs: seq<Rule>)
    requires rs != []
    ensures Without(Without(c, AnyOf(rs[..|rs| - 1])), Exactly(rs[|rs| - 1])) == Without(c, AnyOf(rs))
  {
    var init, last := rs[..|rs| - 1], rs[|rs| - 1];
    WithoutTwice(c, AnyOf(init), Exactly(last));
    assert rs == init + [last];
    WithoutSame(c, Either(AnyOf(init), Exactly(last)), AnyOf(rs));
  }

  lemma {:induction false} RecentIn(rs: seq<Rule>, r: Rule)
    ensures r in Recent(rs) <==> r in rs
  {
    if rs != [] {
      var init, last := rs[..|rs| - 1], rs[|rs| - 1];
      RecentIn(init, r);
      WithoutIn(Recent(init), Exactly(last), r);
      assert rs == init + [last];
    }
  }

  predicate Distinct(c: seq<Rule>) {
    forall i, j :: 0 <= i < j < |c| ==> c[i] != c[j]
  }

  lemma {:induction false} WithoutDistinct(c: seq<Rule>, k: Criterion)
    requires Distinct(c)
    ensures Distinct(Without(c, k))
  {
    if c != [] {
      assert forall i :: 0 <= i < |c[1..]| ==> c[1..][i] == c[i + 1];
      WithoutDistinct(c[1..], k);
      WithoutIn(c[1..], k, c[0]);
    }
  }

  /** Recent lists no rule twice. */
  lemma {:induction false} RecentDistinct(rs: seq<Rule>)
    ensures Distinct(Recent(rs))
  {
    if rs != [] {
      var init, last := rs[..|rs| - 1], rs[|rs| - 1];
      RecentDistinct(init);
      var d := Without(Recent(init), Exactly(last));
      WithoutDistinct(Recent(init), Exactly(last));
      WithoutIn(Recent(init), Exactly(last), last);
      assert Recent(rs) == [last] + d;
    }
  }
}
