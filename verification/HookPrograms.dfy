/** The hook's firewall programs on one family: builders, removers and the loops
    over users, ports and listings, each proved against its effect on the chains. */
module HookPrograms {
  import opened Options
  import opened Rules
  import opened Firewall
  import opened HookRules
  import opened Unmanaged

  predicate AllUnharmed(c: Chains, states: seq<Chains>, since: nat, acc: Accounts) {
    forall i :: since <= i < |states| ==> Unharmed(c, states[i], acc, false)
  }

  /** Every state passed, and the present one, agrees with the first in all that is not
      mitmwall's: wherever the program breaks off, nothing else is harmed. */
  twostate predicate Careful(fw: Iptables, acc: Accounts)
    reads fw
  {
    && old(fw.passed) <= fw.passed && Unharmed(old(fw.chains), fw.chains, acc, false)
    && AllUnharmed(old(fw.chains), fw.passed, |old(fw.passed)|, acc)
  }

  lemma NatUnharmed(c: Chains, d: Chains, states: seq<Chains>, since: nat, k: Criterion, acc: Accounts)
    requires Builtin(c) && Touched(c, d, NAT_OUTPUT, k) && AllTouched(c, states, since, NAT_OUTPUT, k)
    requires forall r :: Selects(k, r) ==> Selects(Managed(acc), r)
    ensures Unharmed(c, d, acc, false) && AllUnharmed(c, states, since, acc)
  {
    hide Touched, Unharmed, Selects, Managed;
    NatTouched(c, d, k, acc);
    forall i | since <= i < |states| ensures Unharmed(c, states[i], acc, false) {
      NatTouched(c, states[i], k, acc);
    }
  }

  lemma JumpUnharmed(c: Chains, d: Chains, states: seq<Chains>, since: nat, acc: Accounts)
    requires Builtin(c) && MANAGED in c && Touched(c, d, FILTER_OUTPUT, Exactly(JUMP))
    requires AllTouched(c, states, since, FILTER_OUTPUT, Exactly(JUMP))
    ensures Unharmed(c, d, acc, false) && AllUnharmed(c, states, since, acc)
  {
    hide Touched, Unharmed;
    FilterTouched(c, d, acc);
    forall i | since <= i < |states| ensures Unharmed(c, states[i], acc, false) {
      FilterTouched(c, states[i], acc);
    }
  }

  lemma ManagedUnharmed(c: Chains, d: Chains, states: seq<Chains>, since: nat, k: Criterion, acc: Accounts)
    requires Builtin(c) && Touched(c, d, MANAGED, k) && AllTouched(c, states, since, MANAGED, k)
    ensures Unharmed(c, d, acc, false) && AllUnharmed(c, states, since, acc)
  {
    hide Touched, Unharmed, Others;
    OthersTouched(c, d, k);
    ManagedTouched(c, d, acc);
    forall i | since <= i < |states| ensures Unharmed(c, states[i], acc, false) {
      OthersTouched(c, states[i], k);
      ManagedTouched(c, states[i], acc);
    }
  }

  method OwnerExclusionArgs(users: seq<nat>) returns (args: seq<Match>)
    ensures args == Exclusions(users)
  {
    args := [];
    for k := 0 to |users|
      invariant args == Exclusions(users)[..k]
    {
      args := args + [NotOwner(users[k])];
    }
  }

  method AddRedirectRule(fw: Iptables, acc: Accounts, port: nat, bypass: seq<nat>)
    requires Builtin(fw.chains)
    modifies fw
    ensures fw.chains == MovingFirst(old(fw.chains), NAT_OUTPUT, WebRedirect(acc, port, bypass))
    ensures Careful(fw, acc)
  {
    hide Unharmed, Touched, Managed, Without;
    ghost var c0, n0 := fw.chains, |fw.passed|;
    var excluded := OwnerExclusionArgs([acc.mitmwall] + bypass);
    fw.EnsureFirst(NAT_OUTPUT, Rule([Proto(Tcp), NotOutLoopback] + excluded
                                    + [DestPort(port), Comment([REDIRECT_COMMENT])], Redirect(PROXY_PORT)));
    WebTag(acc, port, bypass);
    RuleManaged(acc, WebRedirect(acc, port, bypass));
    NatUnharmed(c0, fw.chains, fw.passed, n0, Exactly(WebRedirect(acc, port, bypass)), acc);
  }

  method AddDnsRedirectRule(fw: Iptables, acc: Accounts, protocol: Protocol, bypass: seq<nat>)
    requires Builtin(fw.chains)
    modifies fw
    ensures fw.chains == MovingFirst(old(fw.chains), NAT_OUTPUT, DnsRedirect(acc, protocol, bypass))
    ensures Careful(fw, acc)
  {
    hide Unharmed, Touched, Managed, Without;
    ghost var c0, n0 := fw.chains, |fw.passed|;
    var excluded := OwnerExclusionArgs([acc.mitmwall, acc.resolver] + bypass);
    fw.EnsureFirst(NAT_OUTPUT, Rule([Proto(protocol)] + excluded
                                    + [DestPort(53), Comment([REDIRECT_COMMENT])], Redirect(DNS_PORT)));
    DnsTag(acc, protocol, bypass);
    RuleManaged(acc, DnsRedirect(acc, protocol, bypass));
    NatUnharmed(c0, fw.chains, fw.passed, n0, Exactly(DnsRedirect(acc, protocol, bypass)), acc);
  }

  lemma MovingSnoc(chains: Chains, id: ChainId, rs: seq<Rule>, r: Rule)
    ensures MovingFirst(MovingEachFirst(chains, id, rs), id, r) == MovingEachFirst(chains, id, rs + [r])
  {
  }

  method AddNtpDnsBypassRule(fw: Iptables, acc: Accounts, protocol: Protocol)
    requires Builtin(fw.chains)
    modifies fw
    ensures fw.chains == MovingEachFirst(old(fw.chains), NAT_OUTPUT, NtpBypassesOf(protocol, acc.ntp))
    ensures protocol == Udp || protocol == Tcp ==> Careful(fw, acc)
  {
    hide Remains, JumpLeads, Managed, Without, EnsureEachFirst, Selects;
    ghost var c0, n0 := fw.chains, |fw.passed|;
    UnharmedItself(fw.chains, acc, false);
    ghost var all := NtpBypassesOf(protocol, acc.ntp);
    assert MovingEachFirst(fw.chains, NAT_OUTPUT, all[..0]) == fw.chains by {
      MovingNone(fw.chains);
    }
    for k := 0 to |acc.ntp|
      invariant fw.chains == MovingEachFirst(old(fw.chains), NAT_OUTPUT, all[..k])
      invariant protocol == Udp || protocol == Tcp ==> Careful(fw, acc)
    {
      var r := NtpBypass(protocol, acc.ntp[k]);
      MovingSnoc(old(fw.chains), NAT_OUTPUT, all[..k], all[k]);
      assert all[..k + 1] == all[..k] + [all[k]];
      ghost var c1, n1 := fw.chains, |fw.passed|;
      fw.EnsureFirst(NAT_OUTPUT, r);
      if protocol == Udp || protocol == Tcp {
        BypassManaged(acc, protocol, k);
        NatUnharmed(c1, fw.chains, fw.passed, n1, Exactly(r), acc);
      }
    }
    assert all[..|all|] == all;
  }

  lemma MovingNone(chains: Chains)
    requires NAT_OUTPUT in chains
    ensures MovingEachFirst(chains, NAT_OUTPUT, []) == chains
  {
  }

  lemma BypassManaged(acc: Accounts, protocol: Protocol, k: nat)
    requires k < |acc.ntp| && (protocol == Udp || protocol == Tcp)
    ensures forall s :: Selects(Exactly(NtpBypass(protocol, acc.ntp[k])), s) ==> Selects(Managed(acc), s)
  {
    var n := |acc.ntp|;
    assert NtpBypasses(acc)[if protocol == Udp then k else n + k] == NtpBypass(protocol, acc.ntp[k]);
    RuleManaged(acc, NtpBypass(protocol, acc.ntp[k]));
  }

  method RemoveNtpDnsBypassRule(fw: Iptables, acc: Accounts, protocol: Protocol)
    requires Builtin(fw.chains)
    modifies fw
    ensures fw.chains == Deleting(old(fw.chains), NAT_OUTPUT, AnyOf(NtpBypassesOf(protocol, acc.ntp)))
    ensures protocol == Udp || protocol == Tcp ==> Careful(fw, acc)
  {
    hide Remains, JumpLeads, Managed, Without, Selects;
    ghost var c0, n0 := fw.chains, |fw.passed|;
    UnharmedItself(fw.chains, acc, false);
    ghost var all := NtpBypassesOf(protocol, acc.ntp);
    ghost var c := fw.chains[NAT_OUTPUT];
    NoneOf(c);
    for k := 0 to |acc.ntp|
      invariant fw.chains == old(fw.chains)[NAT_OUTPUT := Without(c, AnyOf(all[..k]))]
      invariant protocol == Udp || protocol == Tcp ==> Careful(fw, acc)
    {
      var r := NtpBypass(protocol, acc.ntp[k]);
      RemovingMore(c, all[..k], r);
      assert all[..k + 1] == all[..k] + [r];
      ghost var c1, n1 := fw.chains, |fw.passed|;
      fw.RemoveAll(NAT_OUTPUT, r);
      if protocol == Udp || protocol == Tcp {
        BypassManaged(acc, protocol, k);
        NatUnharmed(c1, fw.chains, fw.passed, n1, Exactly(r), acc);
      }
    }
    assert all[..|all|] == all;
  }

  /** Only the managed chain changed, by having rules appended to it. */
  twostate predicate Appended(fw: Iptables, rules: seq<Rule>)
    reads fw
  {
    && MANAGED in old(fw.chains) && MANAGED in fw.chains
    && fw.chains[MANAGED] == old(fw.chains)[MANAGED] + rules && OnlyManaged(fw)
  }

  predicate AllElsewhere(c: Chains, states: seq<Chains>, since: nat) {
    forall i :: since <= i < |states| ==> MANAGED in states[i] && Others(states[i]) == Others(c)
  }

  /** Every state passed differs in the managed chain only. */
  twostate predicate OnlyManaged(fw: Iptables)
    reads fw
  {
    && old(fw.passed) <= fw.passed && Others(fw.chains) == Others(old(fw.chains))
    && AllElsewhere(old(fw.chains), fw.passed, |old(fw.passed)|)
  }

  method AppendOutput(fw: Iptables, r: Rule)
    requires MANAGED in fw.chains
    modifies fw
    ensures Appended(fw, [r])
  {
    fw.Append(MANAGED, r);
  }

  method AddNtpFilterRules(fw: Iptables, acc: Accounts)
    requires MANAGED in fw.chains
    modifies fw
    ensures Appended(fw, AllNtpAccepts(acc.ntp))
  {
    for k := 0 to |acc.ntp|
      invariant Appended(fw, AllNtpAccepts(acc.ntp[..k]))
    {
      var uid := acc.ntp[k];
      AppendOutput(fw, AcceptService(Udp, 123, uid));
      AppendOutput(fw, AcceptService(Udp, 53, uid));
      AppendOutput(fw, AcceptService(Tcp, 53, uid));
      assert acc.ntp[..k + 1][..k] == acc.ntp[..k];
      assert AllNtpAccepts(acc.ntp[..k + 1]) == AllNtpAccepts(acc.ntp[..k]) + NtpAccepts(uid);
    }
    assert acc.ntp[..|acc.ntp|] == acc.ntp;
  }

  method AddOwnerAccepts(fw: Iptables, uids: seq<nat>)
    requires MANAGED in fw.chains
    modifies fw
    ensures Appended(fw, AcceptOwners(uids))
  {
    for k := 0 to |uids|
      invariant Appended(fw, AcceptOwners(uids)[..k])
    {
      AppendOutput(fw, AcceptOwner(uids[k]));
      assert AcceptOwners(uids)[..k] + [AcceptOwner(uids[k])] == AcceptOwners(uids)[..k + 1];
    }
    assert AcceptOwners(uids)[..|uids|] == AcceptOwners(uids);
  }

  method AddLocalAccepts(fw: Iptables)
    requires MANAGED in fw.chains
    modifies fw
    ensures Appended(fw, LocalAccepts())
  {
    AppendOutput(fw, ACCEPT_LOOPBACK);
    AppendOutput(fw, AcceptLocal(Tcp, PROXY_PORT));
    AppendOutput(fw, AcceptLocal(Udp, DNS_PORT));
    AppendOutput(fw, AcceptLocal(Tcp, DNS_PORT));
    AppendOutput(fw, AcceptLocal(Tcp, WEB_PORT));
  }

  method AddAccepts(fw: Iptables, acc: Accounts, bypass: seq<nat>)
    requires MANAGED in fw.chains
    modifies fw
    ensures Appended(fw, Accepts(acc, bypass, fw.isIpv6))
  {
    hide AcceptOwners, AllNtpAccepts, LocalAccepts, AcceptOwner, Others;
    AppendOutput(fw, ACCEPT_REPLIES);
    AddOwnerAccepts(fw, bypass + [acc.mitmwall]);
    AppendOutput(fw, AcceptOwner(acc.resolver));
    AddNtpFilterRules(fw, acc);
    if fw.isIpv6 {
      AppendOutput(fw, ACCEPT_ICMPV6);
    }
    AddLocalAccepts(fw);
  }

  method AddOutputFilter(fw: Iptables, acc: Accounts, bypass: seq<nat>)
    requires Builtin(fw.chains)
    modifies fw
    ensures fw.chains == WithOutputFilter(old(fw.chains), acc, bypass, fw.isIpv6)
    ensures Careful(fw, acc)
  {
    hide Remains, JumpLeads, Accepts, Without;
    FillChain(fw, acc, bypass);
    ghost var c1, n1 := fw.chains, |fw.passed|;
    fw.EnsureFirst(FILTER_OUTPUT, JUMP);
    JumpUnharmed(c1, fw.chains, fw.passed, n1, acc);
  }

  method FillChain(fw: Iptables, acc: Accounts, bypass: seq<nat>)
    requires Builtin(fw.chains)
    modifies fw
    ensures fw.chains == old(fw.chains)[MANAGED := Accepts(acc, bypass, fw.isIpv6) + [DROP_ALL]]
    ensures Careful(fw, acc)
  {
    hide Remains, JumpLeads, Accepts, Unharmed;
    ghost var c0, n0 := fw.chains, |fw.passed|;
    fw.EnsureChain(MANAGED);
    fw.FlushChain(MANAGED);
    assert OnlyManaged(fw);
    AddAccepts(fw, acc, bypass);
    AppendOutput(fw, DROP_ALL);
    assert fw.chains[MANAGED] == Accepts(acc, bypass, fw.isIpv6) + [DROP_ALL];
    assert OnlyManaged(fw);
    FillUnharmed(c0, fw.chains, fw.passed, n0, acc);
    OthersEqual(old(fw.chains), fw.chains);
  }

  lemma FillUnharmed(c: Chains, d: Chains, states: seq<Chains>, since: nat, acc: Accounts)
    requires Builtin(c) && MANAGED in d && Others(d) == Others(c) && AllElsewhere(c, states, since)
    ensures Unharmed(c, d, acc, false) && AllUnharmed(c, states, since, acc)
  {
    hide Unharmed, Others;
    ManagedTouched(c, d, acc);
    forall i | since <= i < |states| ensures Unharmed(c, states[i], acc, false) {
      ManagedTouched(c, states[i], acc);
    }
  }

  lemma OthersEqual(c: Chains, d: Chains)
    requires Others(d) == Others(c) && MANAGED in d
    ensures d == c[MANAGED := d[MANAGED]]
  {
    forall id | id != MANAGED ensures (id in c <==> id in d) && (id in c ==> c[id] == d[id]) {
      assert id in c <==> id in Others(c);
      assert id in d <==> id in Others(d);
      assert id in c ==> Others(c)[id] == c[id];
      assert id in d ==> Others(d)[id] == d[id];
    }
    assert d.Keys == c.Keys + {MANAGED};
  }

  method RemoveOutputFilter(fw: Iptables, ghost acc: Accounts)
    requires Builtin(fw.chains)
    modifies fw
    ensures fw.chains == WithoutOutputFilter(old(fw.chains)) && Careful(fw, acc)
  {
    hide Remains, JumpLeads, Without;
    ghost var c0, n0 := fw.chains, |fw.passed|;
    UnharmedItself(c0, acc, false);
    var found := fw.ChainExists(MANAGED);
    if !found {
      return;
    }
    fw.RemoveAll(FILTER_OUTPUT, JUMP);
    JumpUnharmed(c0, fw.chains, fw.passed, n0, acc);
    ghost var c := fw.chains;
    fw.FlushChain(MANAGED);
    assert Others(fw.chains) == Others(c);
    ManagedTouched(c, fw.chains, acc);
  }

  /** Line numbers count from 1. */
  method FindDropLineNumber(lines: seq<Rule>) returns (number: Option<nat>)
    ensures number == if FirstDrop(lines) < |lines| then Some(FirstDrop(lines) + 1) else None
  {
    for k := 0 to |lines|
      invariant forall j :: 0 <= j < k ==> lines[j].target != Drop
    {
      if lines[k].target == Drop {
        return Some(k + 1);
      }
    }
    return None;
  }

  method AddRule(fw: Iptables, network: Network, port: nat)
    modifies fw
    ensures fw.chains == WithFilterAccept(old(fw.chains), network, port)
    ensures fw.passed == old(fw.passed) + if MANAGED in old(fw.chains) then [fw.chains] else []
  {
    var lines := fw.ListRules(MANAGED);
    if lines.None? {
      return;
    }
    var dropLine := FindDropLineNumber(lines.value);
    if dropLine.Some? {
      fw.Insert(MANAGED, CustomAccept(network, port), dropLine.value);
    } else {
      ghost var c := lines.value;
      assert c[..|c|] + [CustomAccept(network, port)] + c[|c|..] == c + [CustomAccept(network, port)];
      fw.Append(MANAGED, CustomAccept(network, port));
    }
  }

  method AddNatBypassRule(fw: Iptables, network: Network, port: nat)
    requires Builtin(fw.chains)
    modifies fw
    ensures fw.chains == MovingFirst(old(fw.chains), NAT_OUTPUT, CustomAccept(network, port))
    ensures fw.Only(NAT_OUTPUT, Exactly(CustomAccept(network, port)))
  {
    fw.EnsureFirst(NAT_OUTPUT, CustomAccept(network, port));
  }

  method ClearCustomRules(fw: Iptables, ghost acc: Accounts)
    modifies fw
    ensures fw.chains == WithoutCustoms(old(fw.chains)) && (Builtin(old(fw.chains)) ==> Careful(fw, acc))
  {
    hide Remains, JumpLeads, Managed, Without, Selects;
    ghost var c0, n0 := fw.chains, |fw.passed|;
    TagManaged(acc, COMMENT);
    fw.RemoveByComment(MANAGED, COMMENT);
    if Builtin(old(fw.chains)) {
      ManagedUnharmed(c0, fw.chains, fw.passed, n0, Carrying(COMMENT), acc);
    }
    ghost var c1, n1 := fw.chains, |fw.passed|;
    fw.RemoveByComment(NAT_OUTPUT, COMMENT);
    if Builtin(old(fw.chains)) {
      NatUnharmed(c1, fw.chains, fw.passed, n1, Carrying(COMMENT), acc);
    }
  }

  /** One custom bypass in both tables. */
  method AddBypass(fw: Iptables, network: Network, port: nat, ghost acc: Accounts)
    requires Builtin(fw.chains)
    modifies fw
    ensures fw.chains == WithCustom(old(fw.chains), network, port) && Careful(fw, acc)
  {
    hide Remains, JumpLeads, Managed, Without, Selects, CustomAccept;
    ghost var c0, n0 := fw.chains, |fw.passed|;
    CustomTag(network, port);
    RuleManaged(acc, CustomAccept(network, port));
    AddNatBypassRule(fw, network, port);
    NatUnharmed(c0, fw.chains, fw.passed, n0, Exactly(CustomAccept(network, port)), acc);
    ghost var c := fw.chains;
    AddRule(fw, network, port);
    assert Others(fw.chains) == Others(c);
    ManagedTouched(c, fw.chains, acc);
  }

  lemma {:induction false} WithCustomsBuiltin(chains: Chains, ipv6: bool, rules: seq<CustomRule>)
    requires Builtin(chains)
    ensures Builtin(WithCustoms(chains, ipv6, rules))
  {
    if rules != [] {
      WithCustomsBuiltin(chains, ipv6, rules[..|rules| - 1]);
    }
  }

  /** One pass over the configuration, dispatching each rule to its family. */
  method AddCustomRules(v4: Iptables, v6: Iptables, rules: seq<CustomRule>, ghost acc: Accounts)
    requires v4 != v6 && Builtin(v4.chains) && Builtin(v6.chains)
    modifies v4, v6
    ensures Careful(v4, acc) && Careful(v6, acc)
    ensures v4.chains == WithCustoms(WithoutCustoms(old(v4.chains)), false, rules)
    ensures v6.chains == WithCustoms(WithoutCustoms(old(v6.chains)), true, rules)
  {
    hide Remains, JumpLeads, WithCustom, WithoutCustoms;
    ClearCustomRules(v4, acc);
    ClearCustomRules(v6, acc);
    ghost var c4, c6 := v4.chains, v6.chains;
    for k := 0 to |rules|
      invariant v4.chains == WithCustoms(c4, false, rules[..k])
      invariant v6.chains == WithCustoms(c6, true, rules[..k])
      invariant Careful(v4, acc) && Careful(v6, acc)
    {
      WithCustomsBuiltin(c4, false, rules[..k]);
      WithCustomsBuiltin(c6, true, rules[..k]);
      assert rules[..k + 1][..k] == rules[..k];
      var fw := if rules[k].ipv6 then v6 else v4;
      AddBypass(fw, rules[k].network, rules[k].port, acc);
    }
    assert rules[..|rules|] == rules;
  }

  method ClearManagedRedirectRules(v4: Iptables, v6: Iptables)
    requires v4 != v6
    modifies v4, v6
    ensures v4.chains == WithoutRedirects(old(v4.chains)) && v6.chains == WithoutRedirects(old(v6.chains))
    ensures v4.Only(NAT_OUTPUT, Carrying(REDIRECT_COMMENT)) && v6.Only(NAT_OUTPUT, Carrying(REDIRECT_COMMENT))
  {
    v4.RemoveByComment(NAT_OUTPUT, REDIRECT_COMMENT);
    v6.RemoveByComment(NAT_OUTPUT, REDIRECT_COMMENT);
  }

  // ------------------------------------------------------------------- migrations

  method LegacyRedirectRuleArgs(protocol: Protocol, port: nat, target: nat, excluded: seq<nat>, excludeLoopback: bool)
    returns (r: Rule)
    ensures r == LegacyRedirect(protocol, port, target, excluded, excludeLoopback)
  {
    var args := [Proto(protocol)];
    if excludeLoopback {
      args := args + [NotOutLoopback];
    }
    ghost var head := args;
    for k := 0 to |excluded|
      invariant args == head + Exclusions(excluded)[..k]
    {
      args := args + [NotOwner(excluded[k])];
    }
    assert head == [Proto(protocol)] + (if excludeLoopback then [NotOutLoopback] else []);
    r := Rule(args + [DestPort(port)], Redirect(target));
  }

  lemma NoneOf(c: seq<Rule>)
    ensures Without(c, AnyOf([])) == c
  {
    WithoutNone(c, AnyOf([]));
  }

  lemma RemovingMore(c: seq<Rule>, done: seq<Rule>, r: Rule)
    ensures Without(Without(c, AnyOf(done)), Exactly(r)) == Without(c, AnyOf(done + [r]))
  {
    assert (done + [r])[..|done|] == done;
    WithoutOneMore(c, done + [r]);
  }

  lemma RemovingBoth(chains: Chains, a: seq<Rule>, b: seq<Rule>)
    ensures Deleting(Deleting(chains, NAT_OUTPUT, AnyOf(a)), NAT_OUTPUT, AnyOf(b))
      == Deleting(chains, NAT_OUTPUT, AnyOf(a + b))
  {
    if NAT_OUTPUT in chains {
      WithoutTwice(chains[NAT_OUTPUT], AnyOf(a), AnyOf(b));
      WithoutSame(chains[NAT_OUTPUT], Either(AnyOf(a), AnyOf(b)), AnyOf(a + b));
    }
  }

  lemma LegacyManaged(acc: Accounts, r: Rule)
    requires r in LegacyWeb(acc, 80) || r in LegacyWeb(acc, 443) || r in LegacyDns(acc, Udp) || r in LegacyDns(acc, Tcp)
    ensures r in Legacy(acc) && forall s :: Selects(Exactly(r), s) ==> Selects(Managed(acc), s)
  {
    hide LegacyWeb, LegacyDns;
    assert r in Legacy(acc);
    RuleManaged(acc, r);
  }

  method ClearLegacyWebRules(fw: Iptables, acc: Accounts, port: nat)
    requires Builtin(fw.chains)
    modifies fw
    ensures fw.chains == Deleting(old(fw.chains), NAT_OUTPUT, AnyOf(LegacyWeb(acc, port)))
    ensures port == 80 || port == 443 ==> Careful(fw, acc)
  {
    hide Remains, JumpLeads, Managed, Without, Selects, Legacy;
    ghost var c0, n0 := fw.chains, |fw.passed|;
    UnharmedItself(fw.chains, acc, false);
    ghost var c, all := fw.chains[NAT_OUTPUT], LegacyWeb(acc, port);
    NoneOf(c);
    var forms := [([acc.mitmwall], false), ([acc.mitmwall], true), ([ROOT, acc.mitmwall], true),
                  ([ROOT, acc.mitmwall, acc.apt], true)];
    for f := 0 to |forms|
      invariant fw.chains == old(fw.chains)[NAT_OUTPUT := Without(c, AnyOf(all[..f]))]
      invariant port == 80 || port == 443 ==> Careful(fw, acc)
    {
      var r := LegacyRedirectRuleArgs(Tcp, port, PROXY_PORT, forms[f].0, forms[f].1);
      RemovingMore(c, all[..f], r);
      assert all[..f + 1] == all[..f] + [r];
      ghost var c1, n1 := fw.chains, |fw.passed|;
      fw.RemoveAll(NAT_OUTPUT, r);
      if port == 80 || port == 443 {
        LegacyManaged(acc, r);
        NatUnharmed(c1, fw.chains, fw.passed, n1, Exactly(r), acc);
      }
    }
    assert all[..4] == all;
  }

  method ClearLegacyDnsRules(fw: Iptables, acc: Accounts, protocol: Protocol)
    requires Builtin(fw.chains)
    modifies fw
    ensures fw.chains == Deleting(old(fw.chains), NAT_OUTPUT, AnyOf(LegacyDns(acc, protocol)))
    ensures protocol == Udp || protocol == Tcp ==> Careful(fw, acc)
  {
    hide Remains, JumpLeads, Managed, Without, Selects, Legacy;
    ghost var c0, n0 := fw.chains, |fw.passed|;
    UnharmedItself(fw.chains, acc, false);
    ghost var c, all := fw.chains[NAT_OUTPUT], LegacyDns(acc, protocol);
    NoneOf(c);
    var forms := [[ROOT, acc.mitmwall, acc.resolver], [ROOT, acc.mitmwall, acc.resolver, acc.apt]];
    for f := 0 to |forms|
      invariant fw.chains == old(fw.chains)[NAT_OUTPUT := Without(c, AnyOf(all[..f]))]
      invariant protocol == Udp || protocol == Tcp ==> Careful(fw, acc)
    {
      var r := LegacyRedirectRuleArgs(protocol, 53, DNS_PORT, forms[f], false);
      RemovingMore(c, all[..f], r);
      assert all[..f + 1] == all[..f] + [r];
      ghost var c1, n1 := fw.chains, |fw.passed|;
      fw.RemoveAll(NAT_OUTPUT, r);
      if protocol == Udp || protocol == Tcp {
        LegacyManaged(acc, r);
        NatUnharmed(c1, fw.chains, fw.passed, n1, Exactly(r), acc);
      }
    }
    assert all[..2] == all;
  }

  method ClearLegacyRedirectRules(fw: Iptables, acc: Accounts)
    requires Builtin(fw.chains)
    modifies fw
    ensures fw.chains == WithoutLegacy(old(fw.chains), acc) && Careful(fw, acc)
  {
    hide LegacyWeb, LegacyDns, Without, Remains, JumpLeads;
    ClearLegacyWebRules(fw, acc, 80);
    ClearLegacyWebRules(fw, acc, 443);
    ClearLegacyDnsRules(fw, acc, Udp);
    ClearLegacyDnsRules(fw, acc, Tcp);
    var web := LegacyWeb(acc, 80) + LegacyWeb(acc, 443);
    RemovingBoth(old(fw.chains), LegacyWeb(acc, 80), LegacyWeb(acc, 443));
    RemovingBoth(old(fw.chains), web, LegacyDns(acc, Udp));
    RemovingBoth(old(fw.chains), web + LegacyDns(acc, Udp), LegacyDns(acc, Tcp));
  }

  // ------------------------------------------------------------- whole programs

  lemma MovingOne(chains: Chains, r: Rule)
    ensures MovingFirst(chains, NAT_OUTPUT, r) == MovingEachFirst(chains, NAT_OUTPUT, [r])
  {
    if NAT_OUTPUT in chains {
      assert [r][..0] == [] && EnsureEachFirst(chains[NAT_OUTPUT], []) == chains[NAT_OUTPUT];
    }
  }

  /** The four redirects of one family, moved to the head one after the other. */
  lemma RedirectsMoved(chains: Chains, acc: Accounts, bypass: seq<nat>)
    ensures
      var dns := MovingFirst(MovingFirst(chains, NAT_OUTPUT, DnsRedirect(acc, Udp, bypass)),
                             NAT_OUTPUT, DnsRedirect(acc, Tcp, bypass));
      MovingFirst(MovingFirst(dns, NAT_OUTPUT, WebRedirect(acc, 80, bypass)), NAT_OUTPUT, WebRedirect(acc, 443, bypass))
      == MovingEachFirst(chains, NAT_OUTPUT, Redirects(acc, bypass))
  {
    hide DnsRedirect, WebRedirect, MovingFirst, MovingEachFirst;
    var rs := Redirects(acc, bypass);
    MovingOne(chains, rs[0]);
    MovingSnoc(chains, NAT_OUTPUT, [rs[0]], rs[1]);
    assert [rs[0]] + [rs[1]] == [rs[0], rs[1]];
    MovingSnoc(chains, NAT_OUTPUT, [rs[0], rs[1]], rs[2]);
    assert [rs[0], rs[1]] + [rs[2]] == [rs[0], rs[1], rs[2]];
    MovingSnoc(chains, NAT_OUTPUT, [rs[0], rs[1], rs[2]], rs[3]);
    assert [rs[0], rs[1], rs[2]] + [rs[3]] == rs;
  }

  lemma {:induction false} EnsureEachFirstAppend(c: seq<Rule>, a: seq<Rule>, b: seq<Rule>)
    ensures EnsureEachFirst(EnsureEachFirst(c, a), b) == EnsureEachFirst(c, a + b)
    decreases b
  {
    if b == [] {
      assert a + b == a;
    } else {
      EnsureEachFirstAppend(c, a, b[..|b| - 1]);
      assert (a + b)[..|a + b| - 1] == a + b[..|b| - 1];
    }
  }

  lemma MovingBoth(chains: Chains, a: seq<Rule>, b: seq<Rule>)
    ensures MovingEachFirst(MovingEachFirst(chains, NAT_OUTPUT, a), NAT_OUTPUT, b)
      == MovingEachFirst(chains, NAT_OUTPUT, a + b)
  {
    if NAT_OUTPUT in chains {
      EnsureEachFirstAppend(chains[NAT_OUTPUT], a, b);
    }
  }

  method AddDnsRedirectRules(fw: Iptables, acc: Accounts, bypass: seq<nat>)
    requires Builtin(fw.chains)
    modifies fw
    ensures fw.chains == MovingFirst(MovingFirst(old(fw.chains), NAT_OUTPUT, DnsRedirect(acc, Udp, bypass)),
                                     NAT_OUTPUT, DnsRedirect(acc, Tcp, bypass))
    ensures Careful(fw, acc)
  {
    hide Remains, JumpLeads, DnsRedirect, Rules.EnsureFirst;
    AddDnsRedirectRule(fw, acc, Udp, bypass);
    AddDnsRedirectRule(fw, acc, Tcp, bypass);
  }

  method AddRedirectRules(fw: Iptables, acc: Accounts, bypass: seq<nat>)
    requires Builtin(fw.chains)
    modifies fw
    ensures fw.chains == MovingFirst(MovingFirst(old(fw.chains), NAT_OUTPUT, WebRedirect(acc, 80, bypass)),
                                     NAT_OUTPUT, WebRedirect(acc, 443, bypass))
    ensures Careful(fw, acc)
  {
    hide Remains, JumpLeads, WebRedirect, Rules.EnsureFirst;
    AddRedirectRule(fw, acc, 80, bypass);
    AddRedirectRule(fw, acc, 443, bypass);
  }

  method AddNtpDnsBypassRules(fw: Iptables, acc: Accounts)
    requires Builtin(fw.chains)
    modifies fw
    ensures fw.chains == MovingEachFirst(old(fw.chains), NAT_OUTPUT, NtpBypasses(acc)) && Careful(fw, acc)
  {
    hide Remains, JumpLeads, EnsureEachFirst;
    AddNtpDnsBypassRule(fw, acc, Udp);
    AddNtpDnsBypassRule(fw, acc, Tcp);
    MovingBoth(old(fw.chains), NtpBypassesOf(Udp, acc.ntp), NtpBypassesOf(Tcp, acc.ntp));
  }

  /** The generic redirects of both families, DNS before web. */
  method AddCaptures(v4: Iptables, v6: Iptables, acc: Accounts, bypass: seq<nat>)
    requires v4 != v6 && Builtin(v4.chains) && Builtin(v6.chains)
    modifies v4, v6
    ensures v4.chains == MovingEachFirst(old(v4.chains), NAT_OUTPUT, Redirects(acc, bypass))
    ensures v6.chains == MovingEachFirst(old(v6.chains), NAT_OUTPUT, Redirects(acc, bypass))
    ensures Careful(v4, acc) && Careful(v6, acc)
  {
    hide Redirects, DnsRedirect, WebRedirect, EnsureEachFirst, Rules.EnsureFirst, Remains, JumpLeads;
    AddDnsRedirectRules(v4, acc, bypass);
    AddDnsRedirectRules(v6, acc, bypass);
    AddRedirectRules(v4, acc, bypass);
    AddRedirectRules(v6, acc, bypass);
    RedirectsMoved(old(v4.chains), acc, bypass);
    RedirectsMoved(old(v6.chains), acc, bypass);
  }

  method AddNatPolicy(v4: Iptables, v6: Iptables, acc: Accounts, bypass: seq<nat>)
    requires v4 != v6 && Builtin(v4.chains) && Builtin(v6.chains)
    modifies v4, v6
    ensures v4.chains
         == MovingEachFirst(MovingEachFirst(old(v4.chains), NAT_OUTPUT, Redirects(acc, bypass)),
                            NAT_OUTPUT, NtpBypasses(acc))
    ensures v6.chains
         == MovingEachFirst(MovingEachFirst(old(v6.chains), NAT_OUTPUT, Redirects(acc, bypass)),
                            NAT_OUTPUT, NtpBypasses(acc))
    ensures Careful(v4, acc) && Careful(v6, acc)
  {
    hide Redirects, NtpBypasses, EnsureEachFirst, Remains, JumpLeads;
    AddCaptures(v4, v6, acc, bypass);
    AddNtpDnsBypassRules(v4, acc);
    AddNtpDnsBypassRules(v6, acc);
  }

  /** Everything add_rules does after forwarding is enabled. */
  method AddPolicy(v4: Iptables, v6: Iptables, acc: Accounts, cfg: Config)
    requires v4 != v6 && !v4.isIpv6 && v6.isIpv6 && Builtin(v4.chains) && Builtin(v6.chains)
    modifies v4, v6
    ensures v4.chains == WithPolicy(old(v4.chains), false, acc, cfg)
    ensures v6.chains == WithPolicy(old(v6.chains), true, acc, cfg)
    ensures Careful(v4, acc) && Careful(v6, acc)
  {
    hide MovingEachFirst, WithOutputFilter, WithoutCustoms, WithCustoms, Remains, JumpLeads;
    AddNatPolicy(v4, v6, acc, cfg.bypass);
    AddOutputFilter(v4, acc, cfg.bypass);
    AddOutputFilter(v6, acc, cfg.bypass);
    AddCustomRules(v4, v6, cfg.customs, acc);
  }

  /** The exact web redirect signature that stop removes is a historical one. */
  method RemoveRedirectRule(fw: Iptables, acc: Accounts, port: nat)
    requires Builtin(fw.chains)
    modifies fw
    ensures fw.chains == Deleting(old(fw.chains), NAT_OUTPUT, Exactly(LegacyWeb(acc, port)[3]))
    ensures port == 80 || port == 443 ==> Careful(fw, acc)
  {
    hide Unharmed, Touched, Managed, Without, Legacy;
    ghost var c0, n0 := fw.chains, |fw.passed|;
    var r := LegacyRedirectRuleArgs(Tcp, port, PROXY_PORT, [ROOT, acc.mitmwall, acc.apt], true);
    fw.RemoveAll(NAT_OUTPUT, r);
    if port == 80 || port == 443 {
      LegacyManaged(acc, r);
      NatUnharmed(c0, fw.chains, fw.passed, n0, Exactly(r), acc);
    }
  }

  method RemoveDnsRedirectRule(fw: Iptables, acc: Accounts, protocol: Protocol)
    requires Builtin(fw.chains)
    modifies fw
    ensures fw.chains == Deleting(old(fw.chains), NAT_OUTPUT, Exactly(LegacyDns(acc, protocol)[1]))
    ensures protocol == Udp || protocol == Tcp ==> Careful(fw, acc)
  {
    hide Unharmed, Touched, Managed, Without, Legacy;
    ghost var c0, n0 := fw.chains, |fw.passed|;
    var r := LegacyRedirectRuleArgs(protocol, 53, DNS_PORT, [ROOT, acc.mitmwall, acc.resolver, acc.apt], false);
    fw.RemoveAll(NAT_OUTPUT, r);
    if protocol == Udp || protocol == Tcp {
      LegacyManaged(acc, r);
      NatUnharmed(c0, fw.chains, fw.passed, n0, Exactly(r), acc);
    }
  }

  /** Deleting a signature that is not in nat OUTPUT changes nothing. */
  lemma DeletingAbsent(chains: Chains, r: Rule)
    requires Builtin(chains) && r !in chains[NAT_OUTPUT]
    ensures Deleting(chains, NAT_OUTPUT, Exactly(r)) == chains
  {
    WithoutNone(chains[NAT_OUTPUT], Exactly(r));
  }

  /** Deletions never bring a rule back. */
  lemma DeletingKeepsAbsent(chains: Chains, k: Criterion, rs: seq<Rule>)
    requires Builtin(chains) && NoneSelected(chains[NAT_OUTPUT], AnyOf(rs))
    ensures var d := Deleting(chains, NAT_OUTPUT, k);
      NAT_OUTPUT in d && NoneSelected(d[NAT_OUTPUT], AnyOf(rs))
  {
    var c := chains[NAT_OUTPUT];
    forall i | 0 <= i < |Without(c, k)| ensures !Selects(AnyOf(rs), Without(c, k)[i]) {
      WithoutIn(c, k, Without(c, k)[i]);
    }
  }

  /** Removing the exact web signatures, which are historical ones and already gone. */
  method RemoveWebRules(fw: Iptables, acc: Accounts)
    requires Builtin(fw.chains) && NoneSelected(fw.chains[NAT_OUTPUT], AnyOf(Legacy(acc)))
    modifies fw
    ensures fw.chains == old(fw.chains) && Careful(fw, acc)
  {
    hide LegacyWeb, LegacyDns, Deleting, Remains, JumpLeads;
    ghost var web80, web443 := LegacyWeb(acc, 80)[3], LegacyWeb(acc, 443)[3];
    ghost var c := fw.chains;
    LegacyMembers(acc);
    AbsentMember(c[NAT_OUTPUT], Legacy(acc), web80);
    AbsentMember(c[NAT_OUTPUT], Legacy(acc), web443);
    RemoveRedirectRule(fw, acc, 80);
    DeletingAbsent(c, web80);
    RemoveRedirectRule(fw, acc, 443);
    DeletingAbsent(c, web443);
  }

  /** The bypasses go; the exact DNS signature is a historical one and already gone. */
  method RemoveDnsRules(fw: Iptables, acc: Accounts, protocol: Protocol)
    requires Builtin(fw.chains) && NoneSelected(fw.chains[NAT_OUTPUT], AnyOf(Legacy(acc)))
    requires protocol == Udp || protocol == Tcp
    modifies fw
    ensures fw.chains == Deleting(old(fw.chains), NAT_OUTPUT, AnyOf(NtpBypassesOf(protocol, acc.ntp)))
    ensures Careful(fw, acc) && Builtin(fw.chains) && NoneSelected(fw.chains[NAT_OUTPUT], AnyOf(Legacy(acc)))
  {
    hide LegacyWeb, LegacyDns, Deleting, Remains, JumpLeads;
    ghost var dns := LegacyDns(acc, protocol)[1];
    LegacyMembers(acc);
    RemoveNtpDnsBypassRule(fw, acc, protocol);
    ghost var c := fw.chains;
    DeletingKeepsAbsent(old(fw.chains), AnyOf(NtpBypassesOf(protocol, acc.ntp)), Legacy(acc));
    AbsentMember(c[NAT_OUTPUT], Legacy(acc), dns);
    RemoveDnsRedirectRule(fw, acc, protocol);
    DeletingAbsent(c, dns);
  }

  /** The per-family part of stop. */
  method RemoveUntaggedRules(fw: Iptables, acc: Accounts)
    requires Builtin(fw.chains) && NoneSelected(fw.chains[NAT_OUTPUT], AnyOf(Legacy(acc)))
    modifies fw
    ensures fw.chains == WithoutOutputFilter(Deleting(old(fw.chains), NAT_OUTPUT, AnyOf(NtpBypasses(acc))))
    ensures Careful(fw, acc)
  {
    hide Legacy, Deleting, WithoutOutputFilter, NoneSelected, Remains, JumpLeads;
    ghost var c := fw.chains;
    RemoveWebRules(fw, acc);
    RemoveDnsRules(fw, acc, Udp);
    RemoveDnsRules(fw, acc, Tcp);
    RemovingBoth(c, NtpBypassesOf(Udp, acc.ntp), NtpBypassesOf(Tcp, acc.ntp));
    RemoveOutputFilter(fw, acc);
  }

  lemma LegacyMembers(acc: Accounts)
    ensures LegacyWeb(acc, 80)[3] in Legacy(acc) && LegacyWeb(acc, 443)[3] in Legacy(acc)
    ensures LegacyDns(acc, Udp)[1] in Legacy(acc) && LegacyDns(acc, Tcp)[1] in Legacy(acc)
  {
  }

  lemma AbsentMember(c: seq<Rule>, rs: seq<Rule>, r: Rule)
    requires NoneSelected(c, AnyOf(rs)) && r in rs
    ensures r !in c
  {
  }

  lemma MarkedGone(chains: Chains, acc: Accounts)
    requires Builtin(chains)
    ensures var marked := WithoutCustoms(WithoutLegacy(WithoutRedirects(chains), acc));
      Builtin(marked) && NoneSelected(marked[NAT_OUTPUT], AnyOf(Legacy(acc)))
  {
    hide Without, Legacy, NoneSelected;
    var redirected := WithoutRedirects(chains);
    var migrated := WithoutLegacy(redirected, acc);
    assert NoneSelected(migrated[NAT_OUTPUT], AnyOf(Legacy(acc))) by {
      WithoutLeaves(redirected[NAT_OUTPUT], AnyOf(Legacy(acc)));
    }
    DeletingKeepsAbsent(Deleting(migrated, MANAGED, Carrying(COMMENT)), Carrying(COMMENT), Legacy(acc));
  }

  /** Everything that clear_rules deletes by tag or by historical signature. */
  method ClearMarkedRules(v4: Iptables, v6: Iptables, acc: Accounts)
    requires v4 != v6 && Builtin(v4.chains) && Builtin(v6.chains)
    modifies v4, v6
    ensures v4.chains == WithoutCustoms(WithoutLegacy(WithoutRedirects(old(v4.chains)), acc))
    ensures v6.chains == WithoutCustoms(WithoutLegacy(WithoutRedirects(old(v6.chains)), acc))
    ensures Careful(v4, acc) && Careful(v6, acc)
  {
    hide WithoutCustoms, WithoutLegacy, WithoutRedirects, Remains, JumpLeads, Managed, Selects, Touched;
    ghost var c4, n4, c6, n6 := v4.chains, |v4.passed|, v6.chains, |v6.passed|;
    ClearManagedRedirectRules(v4, v6);
    TagManaged(acc, REDIRECT_COMMENT);
    NatUnharmed(c4, v4.chains, v4.passed, n4, Carrying(REDIRECT_COMMENT), acc);
    NatUnharmed(c6, v6.chains, v6.passed, n6, Carrying(REDIRECT_COMMENT), acc);
    ClearLegacyRedirectRules(v4, acc);
    ClearLegacyRedirectRules(v6, acc);
    ClearCustomRules(v4, acc);
    ClearCustomRules(v6, acc);
  }

  method RemovePolicy(v4: Iptables, v6: Iptables, acc: Accounts)
    requires v4 != v6 && Builtin(v4.chains) && Builtin(v6.chains)
    modifies v4, v6
    ensures v4.chains == Cleared(old(v4.chains), acc) && v6.chains == Cleared(old(v6.chains), acc)
    ensures Careful(v4, acc) && Careful(v6, acc)
  {
    hide WithoutCustoms, WithoutLegacy, Deleting, WithoutOutputFilter, Legacy, Remains, JumpLeads, NoneSelected;
    ClearMarkedRules(v4, v6, acc);
    MarkedGone(old(v4.chains), acc);
    MarkedGone(old(v6.chains), acc);
    RemoveUntaggedRules(v4, acc);
    RemoveUntaggedRules(v6, acc);
  }
}
