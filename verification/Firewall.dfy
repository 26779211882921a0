/** One address family's firewall client: each command as a step on the chains, and
    the deletion loops built from them. */
module Firewall {
  import opened Options
  import opened Rules

  function RemoveAt(c: seq<Rule>, i: nat): seq<Rule>
    requires i < |c|
  {
    c[..i] + c[i + 1..]
  }

  /** The first position at which the criterion selects a rule, or the length. */
  function FirstIndex(c: seq<Rule>, k: Criterion): (i: nat)
    ensures i <= |c| && (i < |c| ==> Selects(k, c[i]))
    ensures forall j :: 0 <= j < i ==> !Selects(k, c[j])
  {
    if c == [] || Selects(k, c[0]) then 0 else 1 + FirstIndex(c[1..], k)
  }

  /** Deleting one selected rule does not change what deleting all of them leaves. */
  lemma RemoveAtWithout(c: seq<Rule>, i: nat, k: Criterion)
    requires i < |c| && Selects(k, c[i])
    ensures Without(RemoveAt(c, i), k) == Without(c, k)
  {
    hide Without, Selects;
    assert c == c[..i] + ([c[i]] + c[i + 1..]);
    WithoutAppend(c[..i], [c[i]] + c[i + 1..], k);
    WithoutAppend([c[i]], c[i + 1..], k);
    WithoutAppend(c[..i], c[i + 1..], k);
    WithoutAll([c[i]], k);
  }

  lemma WithoutFirst(c: seq<Rule>, r: Rule)
    ensures Without([r] + c, Exactly(r)) == Without(c, Exactly(r))
  {
    assert ([r] + c)[1..] == c;
  }

  // Effects of whole operations on the chains of a family; an absent chain is left
  // absent.

  function Deleting(chains: Chains, id: ChainId, k: Criterion): Chains {
    if id in chains then chains[id := Without(chains[id], k)] else chains
  }

  function MovingFirst(chains: Chains, id: ChainId, r: Rule): Chains {
    if id in chains then chains[id := EnsureFirst(chains[id], r)] else chains
  }

  function MovingEachFirst(chains: Chains, id: ChainId, rs: seq<Rule>): Chains {
    if id in chains then chains[id := EnsureEachFirst(chains[id], rs)] else chains
  }

  /** Only one chain differs, and there only rules the criterion selects have gone or
      come. */
  predicate Touched(c: Chains, d: Chains, id: ChainId, k: Criterion) {
    if id in c then id in d && d == c[id := d[id]] && Without(d[id], k) == Without(c[id], k) else d == c
  }

  predicate AllTouched(c: Chains, states: seq<Chains>, since: nat, id: ChainId, k: Criterion) {
    forall i :: since <= i < |states| ==> Touched(c, states[i], id, k)
  }

  class Iptables {
    const isIpv6: bool
    var chains: Chains
    /** The chains after every command so far, so that a program can break off at any
        state it passed. */
    var passed: seq<Chains>

    /** Every state passed, and the present one, differs only in what is selected. */
    twostate predicate Only(id: ChainId, k: Criterion)
      reads this
    {
      && old(passed) <= passed && Touched(old(chains), chains, id, k)
      && AllTouched(old(chains), passed, |old(passed)|, id, k)
    }

    constructor (isIpv6: bool, chains: Chains)
      ensures this.isIpv6 == isIpv6 && this.chains == chains
    {
      this.isIpv6 := isIpv6;
      this.chains := chains;
      this.passed := [];
    }

    // Single commands. Asking about a rule of an absent chain is an error of the
    // command, so the callers only do that for chains that exist.

    method RuleExists(id: ChainId, r: Rule) returns (found: bool)
      requires id in chains
      ensures found <==> r in chains[id]
    {
      found := r in chains[id];
    }

    method Append(id: ChainId, r: Rule)
      requires id in chains
      modifies this
      ensures chains == old(chains)[id := old(chains)[id] + [r]] && passed == old(passed) + [chains]
    {
      chains := chains[id := chains[id] + [r]];
      passed := passed + [chains];
    }

    /** Positions count from 1. */
    method Insert(id: ChainId, r: Rule, position: nat)
      requires id in chains && 1 <= position <= |chains[id]| + 1
      modifies this
      ensures var c := old(chains)[id];
        chains == old(chains)[id := c[..position - 1] + [r] + c[position - 1..]]
      ensures passed == old(passed) + [chains]
    {
      chains := chains[id := chains[id][..position - 1] + [r] + chains[id][position - 1..]];
      passed := passed + [chains];
    }

    /** Deletes the first exact copy. */
    method Delete(id: ChainId, r: Rule)
      requires id in chains && r in chains[id]
      modifies this
      ensures FirstIndex(old(chains)[id], Exactly(r)) < |old(chains)[id]|
      ensures chains == old(chains)[id := RemoveAt(old(chains)[id], FirstIndex(old(chains)[id], Exactly(r)))]
      ensures passed == old(passed) + [chains]
    {
      chains := chains[id := RemoveAt(chains[id], FirstIndex(chains[id], Exactly(r)))];
      passed := passed + [chains];
    }

    method DeleteLine(id: ChainId, number: nat)
      requires id in chains && 1 <= number <= |chains[id]|
      modifies this
      ensures chains == old(chains)[id := RemoveAt(old(chains)[id], number - 1)]
      ensures passed == old(passed) + [chains]
    {
      chains := chains[id := RemoveAt(chains[id], number - 1)];
      passed := passed + [chains];
    }

    method ChainExists(id: ChainId) returns (found: bool)
      ensures found <==> id in chains
    {
      found := id in chains;
    }

    method ListRules(id: ChainId) returns (lines: Option<seq<Rule>>)
      ensures lines == if id in chains then Some(chains[id]) else None
    {
      lines := if id in chains then Some(chains[id]) else None;
    }

    method NewChain(id: ChainId)
      requires id !in chains
      modifies this
      ensures chains == old(chains)[id := []] && passed == old(passed) + [chains]
    {
      chains := chains[id := []];
      passed := passed + [chains];
    }

    method FlushChain(id: ChainId)
      requires id in chains
      modifies this
      ensures chains == old(chains)[id := []] && passed == old(passed) + [chains]
    {
      chains := chains[id := []];
      passed := passed + [chains];
    }

    // Operations built from the commands.

    method EnsureChain(id: ChainId)
      modifies this
      ensures chains == if id in old(chains) then old(chains) else old(chains)[id := []]
      ensures passed == if id in old(chains) then old(passed) else old(passed) + [chains]
    {
      var found := ChainExists(id);
      if !found {
        NewChain(id);
      }
    }

    /** Check, delete the first copy, check again. */
    method RemoveAll(id: ChainId, r: Rule)
      requires id in chains
      modifies this
      ensures chains == Deleting(old(chains), id, Exactly(r)) && Only(id, Exactly(r))
    {
      var found := RuleExists(id, r);
      while found
        invariant id in chains && (found <==> r in chains[id])
        invariant Only(id, Exactly(r))
        decreases |chains[id]|
      {
        RemoveAtWithout(chains[id], FirstIndex(chains[id], Exactly(r)), Exactly(r));
        Delete(id, r);
        found := RuleExists(id, r);
      }
      WithoutNone(chains[id], Exactly(r));
    }

    method EnsureFirst(id: ChainId, r: Rule)
      requires id in chains
      modifies this
      ensures chains == MovingFirst(old(chains), id, r) && Only(id, Exactly(r))
    {
      hide Without;
      RemoveAll(id, r);
      ghost var rest := chains[id];
      Insert(id, r, 1);
      assert rest[..0] + [r] + rest[0..] == [r] + rest;
      WithoutFirst(rest, r);
    }

    /** List, delete the first line carrying the token by its number, list again. */
    method RemoveByComment(id: ChainId, token: string)
      modifies this
      ensures chains == Deleting(old(chains), id, Carrying(token)) && Only(id, Carrying(token))
    {
      hide Without, Carries;
      var k := Carrying(token);
      while true
        invariant id in chains <==> id in old(chains)
        invariant Only(id, k)
        decreases if id in chains then |chains[id]| else 0
      {
        var lines := ListRules(id);
        if lines.None? {
          return;
        }
        var number := 0;
        while number < |lines.value| && !Carries(lines.value[number], token)
          invariant number <= |lines.value|
          invariant forall j :: 0 <= j < number ==> !Selects(k, lines.value[j])
        {
          number := number + 1;
        }
        if number == |lines.value| {
          WithoutNone(chains[id], k);
          return;
        }
        RemoveAtWithout(chains[id], number, k);
        DeleteLine(id, number + 1);
      }
    }

    /** The program that started at entry, and has since passed the states from number
        since on, breaks off: the chains are left as it found them or as some command of
        it left them. */
    method BreakOff(entry: Chains, since: nat)
      requires since <= |passed|
      modifies this
      ensures chains == entry || chains in old(passed)[since..]
      ensures passed == old(passed)
    {
      var k: int := *;
      chains := if since <= k < |passed| then passed[k] else entry;
    }
  }
}
