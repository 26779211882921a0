/** The tables after a completed start, in closed form, and what follows for whole
    histories: a start depends on no earlier start, and a stop undoes them all. */
module PolicyHistory {
  import opened Options
  import opened Rules
  import opened Firewall
  import opened HookRules
  import opened Unmanaged
  import opened ForwardingRuns
  import opened Host

  // ---------------------------------------------------------------- closed form

  /** The configured bypasses of one family, in configuration order. */
  function CustomAccepts(ipv6: bool, rules: seq<CustomRule>): seq<Rule> {
    if rules == [] then []
    else
      var last := rules[|rules| - 1];
      CustomAccepts(ipv6, rules[..|rules| - 1])
      + if last.ipv6 == ipv6 then [CustomAccept(last.network, last.port)] else []
  }

  /** The generic redirects as they end up: web 443 and 80, then DNS over TCP and UDP. */
  function RedirectBlock(acc: Accounts, bypass: seq<nat>): seq<Rule> {
    [WebRedirect(acc, 443, bypass), WebRedirect(acc, 80, bypass),
     DnsRedirect(acc, Tcp, bypass), DnsRedirect(acc, Udp, bypass)]
  }

  /** The managed head of nat OUTPUT: custom bypasses latest first, then the time
      synchronisation bypasses, then the redirects. */
  function NatHead(acc: Accounts, cfg: Config, ipv6: bool): seq<Rule> {
    Recent(CustomAccepts(ipv6, cfg.customs)) + (Recent(NtpBypasses(acc)) + RedirectBlock(acc, cfg.bypass))
  }

  /** What the current release manages in nat OUTPUT. */
  function NatManaged(acc: Accounts): Criterion {
    Either(Either(Carrying(REDIRECT_COMMENT), AnyOf(NtpBypasses(acc))), Carrying(COMMENT))
  }

  function ManagedFilter(acc: Accounts, cfg: Config, ipv6: bool): seq<Rule> {
    Accepts(acc, cfg.bypass, ipv6) + CustomAccepts(ipv6, cfg.customs) + [DROP_ALL]
  }

  function InstalledForm(chains: Chains, ipv6: bool, acc: Accounts, cfg: Config, guarded: bool): Chains
    requires Builtin(chains)
  {
    chains[NAT_OUTPUT := NatHead(acc, cfg, ipv6) + Without(chains[NAT_OUTPUT], NatManaged(acc))]
          [FORWARD := if guarded then EnsureFirst(chains[FORWARD], GUARD) else chains[FORWARD]]
          [FILTER_OUTPUT := EnsureFirst(chains[FILTER_OUTPUT], JUMP)]
          [MANAGED := ManagedFilter(acc, cfg, ipv6)]
  }

  // ------------------------------------------------------------- tags of the rules

  lemma RedirectTags(acc: Accounts, bypass: seq<nat>)
    ensures forall r :: r in Redirects(acc, bypass) ==>
      r.target.Redirect? && Carries(r, REDIRECT_COMMENT) && !Carries(r, COMMENT)
    ensures forall r :: r in Redirects(acc, bypass) ==>
      r.matches != [] && r.matches[|r.matches| - 1] == Comment([REDIRECT_COMMENT])
  {
    hide Carries;
    WebTag(acc, 80, bypass);
    WebTag(acc, 443, bypass);
    DnsTag(acc, Udp, bypass);
    DnsTag(acc, Tcp, bypass);
  }

  lemma NtpTags(acc: Accounts)
    ensures forall r :: r in NtpBypasses(acc) ==>
      r.target == Accept && !Carries(r, REDIRECT_COMMENT) && !Carries(r, COMMENT)
  {
  }

  lemma {:induction false} CustomTags(ipv6: bool, rules: seq<CustomRule>)
    ensures forall r :: r in CustomAccepts(ipv6, rules) ==>
      r.target == Accept && Carries(r, COMMENT) && !Carries(r, REDIRECT_COMMENT)
  {
    if rules != [] {
      var last := rules[|rules| - 1];
      CustomTags(ipv6, rules[..|rules| - 1]);
      CustomTag(last.network, last.port);
    }
  }

  /** No historical signature is tagged, so none is a current redirect. */
  lemma LegacyTags(acc: Accounts)
    ensures forall r :: r in Legacy(acc) ==> r.target.Redirect? && !Carries(r, REDIRECT_COMMENT) && !Carries(r, COMMENT)
    ensures forall r :: r in Legacy(acc) ==> r.matches != [] && r.matches[|r.matches| - 1].DestPort?
  {
    forall r | r in Legacy(acc)
      ensures r.target.Redirect? && !Carries(r, REDIRECT_COMMENT) && !Carries(r, COMMENT)
      ensures r.matches != [] && r.matches[|r.matches| - 1].DestPort?
    {
      LegacyShape(acc, r);
    }
  }

  lemma LegacyShape(acc: Accounts, r: Rule)
    requires r in Legacy(acc)
    ensures r.target.Redirect? && r.matches != [] && r.matches[|r.matches| - 1].DestPort?
    ensures forall k :: 0 <= k < |r.matches| ==> !r.matches[k].Comment? && !r.matches[k].ForeignMatch?
  {
    hide LegacyWeb, LegacyDns;
    assert r in LegacyWeb(acc, 80) || r in LegacyWeb(acc, 443) || r in LegacyDns(acc, Udp) || r in LegacyDns(acc, Tcp);
    LegacyWebShape(acc, 80);
    LegacyWebShape(acc, 443);
    LegacyDnsShape(acc, Udp);
    LegacyDnsShape(acc, Tcp);
  }

  predicate UntaggedRedirect(r: Rule) {
    && r.target.Redirect? && r.matches != [] && r.matches[|r.matches| - 1].DestPort?
    && forall k :: 0 <= k < |r.matches| ==> !r.matches[k].Comment? && !r.matches[k].ForeignMatch?
  }

  lemma LegacyWebShape(acc: Accounts, port: nat)
    ensures forall r :: r in LegacyWeb(acc, port) ==> UntaggedRedirect(r)
  {
  }

  lemma LegacyDnsShape(acc: Accounts, protocol: Protocol)
    ensures forall r :: r in LegacyDns(acc, protocol) ==> UntaggedRedirect(r)
  {
  }

  /** Everything in the managed head is something the release manages, and nothing in
      it is a historical signature. */
  lemma HeadManaged(acc: Accounts, cfg: Config, ipv6: bool)
    ensures AllSelected(NatHead(acc, cfg, ipv6), NatManaged(acc))
    ensures NoneSelected(NatHead(acc, cfg, ipv6), AnyOf(Legacy(acc)))
  {
    hide Carries, NtpBypasses, Legacy, CustomAccepts, Redirects, RedirectBlock;
    BlockMembers(acc, cfg.bypass);
    RedirectTags(acc, cfg.bypass);
    NtpTags(acc);
    CustomTags(ipv6, cfg.customs);
    LegacyTags(acc);
    var head := NatHead(acc, cfg, ipv6);
    forall i | 0 <= i < |head| ensures Selects(NatManaged(acc), head[i]) && !Selects(AnyOf(Legacy(acc)), head[i]) {
      var r := head[i];
      RecentIn(CustomAccepts(ipv6, cfg.customs), r);
      RecentIn(NtpBypasses(acc), r);
      assert r in head;
      if r in CustomAccepts(ipv6, cfg.customs) {
        assert Selects(Carrying(COMMENT), r);
      } else if r in NtpBypasses(acc) {
        assert Selects(AnyOf(NtpBypasses(acc)), r);
      } else {
        assert r in RedirectBlock(acc, cfg.bypass);
        assert Selects(Carrying(REDIRECT_COMMENT), r);
      }
    }
  }

  // ---------------------------------------------------------- deriving the form

  lemma RedirectsReversed(acc: Accounts, bypass: seq<nat>)
    ensures Recent(Redirects(acc, bypass)) == RedirectBlock(acc, bypass)
  {
    var u, t := DnsRedirect(acc, Udp, bypass), DnsRedirect(acc, Tcp, bypass);
    var a, b := WebRedirect(acc, 80, bypass), WebRedirect(acc, 443, bypass);
    assert u.matches[0] != t.matches[0];
    assert a.matches[|a.matches| - 2] == DestPort(80) && b.matches[|b.matches| - 2] == DestPort(443)
      && |a.matches| == |b.matches|;
    RecentOfFour(u, t, a, b);
  }

  lemma RecentSnoc(rs: seq<Rule>, r: Rule)
    requires r !in rs
    ensures Recent(rs + [r]) == [r] + Recent(rs)
  {
    assert (rs + [r])[..|rs|] == rs;
    forall i | 0 <= i < |Recent(rs)| ensures Recent(rs)[i] != r {
      RecentIn(rs, Recent(rs)[i]);
    }
    WithoutNone(Recent(rs), Exactly(r));
  }

  lemma RecentOfFour(u: Rule, t: Rule, a: Rule, b: Rule)
    requires u != t && u != a && u != b && t != a && t != b && a != b
    ensures Recent([u, t, a, b]) == [b, a, t, u]
  {
    hide EnsureEachFirst;
    assert Recent([]) == [] by {
      RecentEmpty();
    }
    RecentSnoc([], u);
    assert [] + [u] == [u];
    RecentSnoc([u], t);
    assert [u] + [t] == [u, t];
    RecentSnoc([u, t], a);
    assert [u, t] + [a] == [u, t, a];
    RecentSnoc([u, t, a], b);
    assert [u, t, a] + [b] == [u, t, a, b];
  }

  lemma RecentEmpty()
    ensures Recent([]) == []
  {
  }

  /** Moving rules that carry a tag to the head of a chain cleared of that tag. */
  lemma MoveOntoCleared(c: seq<Rule>, token: string, rs: seq<Rule>)
    requires NoneSelected(c, Carrying(token)) && forall r :: r in rs ==> Carries(r, token)
    ensures EnsureEachFirst(c, rs) == Recent(rs) + c
  {
    hide Carries;
    EnsureEachFirstForm(c, rs);
    WithoutNone(c, AnyOf(rs));
  }

  /** Moving rules to the head of a chain whose own head does not contain them. */
  lemma MoveAboveHead(head: seq<Rule>, c: seq<Rule>, rs: seq<Rule>)
    requires forall r :: r in rs ==> r !in head
    ensures EnsureEachFirst(head + c, rs) == Recent(rs) + head + Without(c, AnyOf(rs))
  {
    hide EnsureEachFirst, Without, Recent;
    EnsureEachFirstForm(head + c, rs);
    WithoutAppend(head, c, AnyOf(rs));
    WithoutNone(head, AnyOf(rs));
    assert Recent(rs) + (head + Without(c, AnyOf(rs))) == Recent(rs) + head + Without(c, AnyOf(rs));
  }

  /** Deletions in three passes are one deletion. */
  lemma DeleteInPasses(c: seq<Rule>, acc: Accounts)
    ensures Without(Without(Without(c, Carrying(REDIRECT_COMMENT)), AnyOf(NtpBypasses(acc))), Carrying(COMMENT))
         == Without(c, NatManaged(acc))
  {
    hide Without, NtpBypasses;
    WithoutTwice(c, Carrying(REDIRECT_COMMENT), AnyOf(NtpBypasses(acc)));
    WithoutTwice(c, Either(Carrying(REDIRECT_COMMENT), AnyOf(NtpBypasses(acc))), Carrying(COMMENT));
  }

  /** nat OUTPUT at the end of the installing programs. */
  lemma NatForm(c: seq<Rule>, acc: Accounts, cfg: Config, ipv6: bool)
    ensures
      var redirected := EnsureEachFirst(Without(c, Carrying(REDIRECT_COMMENT)), Redirects(acc, cfg.bypass));
      var bypassed := EnsureEachFirst(redirected, NtpBypasses(acc));
      EnsureEachFirst(Without(bypassed, Carrying(COMMENT)), CustomAccepts(ipv6, cfg.customs))
      == NatHead(acc, cfg, ipv6) + Without(c, NatManaged(acc))
  {
    hide Carries, Redirects, NtpBypasses, CustomAccepts, RedirectBlock, EnsureEachFirst, Without, Recent;
    var ntps, customs, block := NtpBypasses(acc), CustomAccepts(ipv6, cfg.customs), RedirectBlock(acc, cfg.bypass);
    RedirectTags(acc, cfg.bypass);
    NtpTags(acc);
    CustomTags(ipv6, cfg.customs);
    BlockMembers(acc, cfg.bypass);

    // Redirects to the head: nothing tagged is left below them.
    var rest1 := Without(c, Carrying(REDIRECT_COMMENT));
    WithoutLeaves(c, Carrying(REDIRECT_COMMENT));
    MoveOntoCleared(rest1, REDIRECT_COMMENT, Redirects(acc, cfg.bypass));
    RedirectsReversed(acc, cfg.bypass);

    // Time synchronisation bypasses above them.
    MoveAboveHead(block, rest1, ntps);
    var head, rest2 := Recent(ntps) + block, Without(rest1, AnyOf(ntps));

    // Old custom bypasses go; none of the rules just placed is one.
    var rest3 := Without(rest2, Carrying(COMMENT));
    WithoutAppend(head, rest2, Carrying(COMMENT));
    UntaggedHead(ntps, block);
    WithoutNone(head, Carrying(COMMENT));
    DeleteInPasses(c, acc);

    // New custom bypasses above everything.
    WithoutLeaves(rest2, Carrying(COMMENT));
    NoneJoined(head, rest3, Carrying(COMMENT));
    MoveOntoCleared(head + rest3, COMMENT, customs);
    assert Recent(customs) + (head + rest3) == Recent(customs) + head + rest3;
  }

  lemma NoneJoined(a: seq<Rule>, b: seq<Rule>, k: Criterion)
    requires NoneSelected(a, k) && NoneSelected(b, k)
    ensures NoneSelected(a + b, k)
  {
  }

  lemma BlockMembers(acc: Accounts, bypass: seq<nat>)
    ensures forall r :: r in RedirectBlock(acc, bypass) <==> r in Redirects(acc, bypass)
  {
  }

  lemma UntaggedHead(ntps: seq<Rule>, block: seq<Rule>)
    requires forall r :: r in ntps ==> !Carries(r, COMMENT)
    requires forall r :: r in block ==> !Carries(r, COMMENT)
    ensures NoneSelected(Recent(ntps) + block, Carrying(COMMENT))
  {
    var head := Recent(ntps) + block;
    forall i | 0 <= i < |head| ensures !Carries(head[i], COMMENT) {
      RecentIn(ntps, head[i]);
    }
  }

  // ------------------------------------------------------------ the filter chain

  /** The rules the managed chain accepts by are untagged and never drop. */
  lemma {:induction false} NtpAcceptsPlain(uids: seq<nat>)
    ensures forall r :: r in AllNtpAccepts(uids) ==> r.target == Accept && !Carries(r, COMMENT)
  {
    if uids != [] {
      NtpAcceptsPlain(uids[..|uids| - 1]);
    }
  }

  lemma AcceptsPlain(acc: Accounts, bypass: seq<nat>, ipv6: bool)
    ensures forall r :: r in Accepts(acc, bypass, ipv6) ==> r.target == Accept && !Carries(r, COMMENT)
  {
    hide AllNtpAccepts;
    NtpAcceptsPlain(acc.ntp);
    LocalPlain();
    forall r | r in Accepts(acc, bypass, ipv6) ensures r.target == Accept && !Carries(r, COMMENT) {
      assert r == ACCEPT_REPLIES || r in AcceptOwners(bypass + [acc.mitmwall]) || r == AcceptOwner(acc.resolver)
          || r in AllNtpAccepts(acc.ntp) || r == ACCEPT_ICMPV6 || r in LocalAccepts();
    }
  }

  lemma LocalPlain()
    ensures forall r :: r in LocalAccepts() ==> r.target == Accept && !Carries(r, COMMENT)
  {
  }

  /** The rebuilt managed chain holds no custom rule to clear. */
  lemma RebuiltUntagged(acc: Accounts, bypass: seq<nat>, ipv6: bool)
    ensures Without(Accepts(acc, bypass, ipv6) + [DROP_ALL], Carrying(COMMENT))
      == Accepts(acc, bypass, ipv6) + [DROP_ALL]
  {
    hide Accepts;
    AcceptsPlain(acc, bypass, ipv6);
    WithoutNone(Accepts(acc, bypass, ipv6) + [DROP_ALL], Carrying(COMMENT));
  }

  /** A rule inserted before the single final DROP lands directly in front of it. */
  lemma InsertBeforeFinal(accepts: seq<Rule>, r: Rule)
    requires forall k :: 0 <= k < |accepts| ==> accepts[k].target != Drop
    ensures InsertedBeforeDrop(accepts + [DROP_ALL], r) == accepts + [r] + [DROP_ALL]
  {
    var c := accepts + [DROP_ALL];
    assert c[|accepts|].target == Drop;
    assert FirstDrop(c) == |accepts|;
    assert c[..|accepts|] == accepts && c[|accepts|..] == [DROP_ALL];
  }

  lemma OneCustom(chains: Chains, network: Network, port: nat, accepts: seq<Rule>)
    requires Builtin(chains) && MANAGED in chains && chains[MANAGED] == accepts + [DROP_ALL]
    requires forall k :: 0 <= k < |accepts| ==> accepts[k].target != Drop
    ensures var r := CustomAccept(network, port);
      WithCustom(chains, network, port)
      == chains[NAT_OUTPUT := EnsureFirst(chains[NAT_OUTPUT], r)][MANAGED := accepts + [r] + [DROP_ALL]]
  {
    hide InsertedBeforeDrop, Rules.EnsureFirst;
    InsertBeforeFinal(accepts, CustomAccept(network, port));
  }

  /** The tables once the given custom bypasses have been added. */
  function WithBypasses(chains: Chains, accepts: seq<Rule>, customs: seq<Rule>): Chains
    requires Builtin(chains)
  {
    chains[NAT_OUTPUT := EnsureEachFirst(chains[NAT_OUTPUT], customs)][MANAGED := accepts + customs + [DROP_ALL]]
  }

  lemma OneMoreCustom(chains: Chains, network: Network, port: nat, accepts: seq<Rule>, earlier: seq<Rule>)
    requires Builtin(chains) && forall r :: r in accepts + earlier ==> r.target == Accept
    ensures WithCustom(WithBypasses(chains, accepts, earlier), network, port)
         == WithBypasses(chains, accepts, earlier + [CustomAccept(network, port)])
  {
    hide WithCustom, Rules.EnsureFirst, CustomAccept;
    var r := CustomAccept(network, port);
    OneCustom(WithBypasses(chains, accepts, earlier), network, port, accepts + earlier);
    assert (earlier + [r])[..|earlier|] == earlier;
    assert accepts + earlier + [r] == accepts + (earlier + [r]);
  }

  /** Across the shifting line numbers the custom rules end up in configuration order
      directly before the final DROP, and latest first at the head of nat OUTPUT. */
  lemma {:induction false} CustomsForm(chains: Chains, ipv6: bool, rules: seq<CustomRule>, accepts: seq<Rule>)
    requires Builtin(chains) && MANAGED in chains && chains[MANAGED] == accepts + [DROP_ALL]
    requires forall r :: r in accepts ==> r.target == Accept
    ensures WithCustoms(chains, ipv6, rules)
         == WithBypasses(chains, accepts, CustomAccepts(ipv6, rules))
  {
    hide WithCustom, CustomAccept, Carries;
    if rules == [] {
      assert accepts + [] + [DROP_ALL] == chains[MANAGED];
    } else {
      hide WithBypasses;
      var init, last := rules[..|rules| - 1], rules[|rules| - 1];
      var earlier := CustomAccepts(ipv6, init);
      CustomsForm(chains, ipv6, init, accepts);
      if last.ipv6 == ipv6 {
        CustomTags(ipv6, init);
        OneMoreCustom(chains, last.network, last.port, accepts, earlier);
      } else {
        assert earlier + [] == earlier;
      }
    }
  }

  /** The whole family after the installing programs. */
  lemma InstalledIsForm(chains: Chains, ipv6: bool, acc: Accounts, cfg: Config, guarded: bool)
    requires Builtin(chains)
    ensures Installed(chains, ipv6, acc, cfg, guarded) == InstalledForm(chains, ipv6, acc, cfg, guarded)
  {
    hide Accepts, Redirects, NtpBypasses, EnsureEachFirst, Rules.EnsureFirst, Without, NatHead, CustomAccepts;
    hide WithCustoms;
    var start := WithGuard(WithoutRedirects(chains), guarded);
    var accepts := Accepts(acc, cfg.bypass, ipv6);
    var redirected := EnsureEachFirst(start[NAT_OUTPUT], Redirects(acc, cfg.bypass));
    var bypassed := EnsureEachFirst(redirected, NtpBypasses(acc));
    var natDone := MovingEachFirst(MovingEachFirst(start, NAT_OUTPUT, Redirects(acc, cfg.bypass)),
                                   NAT_OUTPUT, NtpBypasses(acc));
    var filtered := WithOutputFilter(natDone, acc, cfg.bypass, ipv6);
    assert filtered[NAT_OUTPUT] == bypassed && filtered[MANAGED] == accepts + [DROP_ALL];
    RebuiltUntagged(acc, cfg.bypass, ipv6);
    var cleared := WithoutCustoms(filtered);
    assert cleared == filtered[NAT_OUTPUT := Without(bypassed, Carrying(COMMENT))];
    AcceptsPlain(acc, cfg.bypass, ipv6);
    CustomsForm(cleared, ipv6, cfg.customs, accepts);
    NatForm(chains[NAT_OUTPUT], acc, cfg, ipv6);
    assert start[NAT_OUTPUT] == Without(chains[NAT_OUTPUT], Carrying(REDIRECT_COMMENT));
  }

  // --------------------------------------------------------- independence of history

  /** What migration and the deletions of a start leave of nat OUTPUT is what mitmwall
      does not manage. */
  lemma NatRest(c: seq<Rule>, acc: Accounts)
    ensures Without(Without(c, AnyOf(Legacy(acc))), NatManaged(acc)) == Without(c, Managed(acc))
  {
    hide Without, NatManaged, Managed, Legacy;
    var both := Either(AnyOf(Legacy(acc)), NatManaged(acc));
    WithoutTwice(c, AnyOf(Legacy(acc)), NatManaged(acc));
    forall r ensures Selects(both, r) <==> Selects(Managed(acc), r) {
      ManagedSplit(acc, r);
    }
    WithoutSame(c, both, Managed(acc));
  }

  /** Migration and installation in one family, in closed form. */
  lemma MigratedForm(c: Chains, ipv6: bool, acc: Accounts, cfg: Config, guarded: bool)
    requires Builtin(c)
    ensures Installed(WithoutLegacy(c, acc), ipv6, acc, cfg, guarded)
         == c[NAT_OUTPUT := NatHead(acc, cfg, ipv6) + Without(c[NAT_OUTPUT], Managed(acc))]
             [FORWARD := if guarded then EnsureFirst(c[FORWARD], GUARD) else c[FORWARD]]
             [FILTER_OUTPUT := EnsureFirst(c[FILTER_OUTPUT], JUMP)]
             [MANAGED := ManagedFilter(acc, cfg, ipv6)]
  {
    hide Installed, NatHead, NatManaged, Managed, Legacy, ManagedFilter, Without;
    InstalledIsForm(WithoutLegacy(c, acc), ipv6, acc, cfg, guarded);
    NatRest(c[NAT_OUTPUT], acc);
  }

  /** A start depends only on what mitmwall does not manage. */
  lemma InstalledSame(c: Chains, d: Chains, ipv6: bool, acc: Accounts, cfg: Config, guarded: bool)
    requires SameUnmanaged(c, d, acc, guarded)
    ensures Installed(WithoutLegacy(c, acc), ipv6, acc, cfg, guarded)
      == Installed(WithoutLegacy(d, acc), ipv6, acc, cfg, guarded)
  {
    hide Installed, WithoutLegacy, NatHead, Managed, ManagedFilter, Without;
    MigratedForm(c, ipv6, acc, cfg, guarded);
    MigratedForm(d, ipv6, acc, cfg, guarded);
    var x := Installed(WithoutLegacy(c, acc), ipv6, acc, cfg, guarded);
    var y := Installed(WithoutLegacy(d, acc), ipv6, acc, cfg, guarded);
    forall id | id !in HANDLED ensures (id in c <==> id in d) && (id in c ==> c[id] == d[id]) {
      assert id in c <==> id in c - HANDLED;
      assert id in d <==> id in d - HANDLED;
      assert id in c ==> (c - HANDLED)[id] == c[id];
      assert id in d ==> (d - HANDLED)[id] == d[id];
    }
    assert x.Keys == y.Keys;
    assert x == y;
  }

  lemma FirstLeaves(c: seq<Rule>, r: Rule)
    ensures Without(EnsureFirst(c, r), Exactly(r)) == Without(c, Exactly(r))
  {
    hide Without;
    var rest := Without(c, Exactly(r));
    WithoutAppend([r], rest, Exactly(r));
    WithoutAll([r], Exactly(r));
    WithoutLeaves(c, Exactly(r));
    WithoutNone(rest, Exactly(r));
  }

  lemma FirstTwice(c: seq<Rule>, r: Rule)
    ensures EnsureFirst(EnsureFirst(c, r), r) == EnsureFirst(c, r)
  {
    hide Without;
    FirstLeaves(c, r);
  }

  /** A start leaves alone what mitmwall does not manage. */
  lemma InstalledKeeps(c: Chains, ipv6: bool, acc: Accounts, cfg: Config, guarded: bool)
    requires Builtin(c)
    ensures Unharmed(c, Installed(WithoutLegacy(c, acc), ipv6, acc, cfg, guarded), acc, guarded)
  {
    hide Installed, WithoutLegacy, NatHead, Managed, ManagedFilter, Without, Rules.EnsureFirst;
    MigratedForm(c, ipv6, acc, cfg, guarded);
    var rest, k := Without(c[NAT_OUTPUT], Managed(acc)), Managed(acc);
    HeadAllManaged(acc, cfg, ipv6);
    WithoutAppend(NatHead(acc, cfg, ipv6), rest, k);
    WithoutAll(NatHead(acc, cfg, ipv6), k);
    WithoutLeaves(c[NAT_OUTPUT], k);
    WithoutNone(rest, k);
    assert [] + rest == rest;
    FirstLeaves(c[FILTER_OUTPUT], JUMP);
    FirstLeaves(c[FORWARD], GUARD);
  }

  lemma HeadAllManaged(acc: Accounts, cfg: Config, ipv6: bool)
    ensures AllSelected(NatHead(acc, cfg, ipv6), Managed(acc))
  {
    hide NatHead, NatManaged, Managed;
    HeadManaged(acc, cfg, ipv6);
    var head := NatHead(acc, cfg, ipv6);
    forall i | 0 <= i < |head| ensures Selects(Managed(acc), head[i]) {
      ManagedSplit(acc, head[i]);
    }
  }

  /** Migration removes exactly the historical signatures, keeps everything else in its
      order, never touches a tagged rule, and does nothing the second time. */
  lemma MigrationExact(chains: Chains, acc: Accounts, r: Rule)
    requires Builtin(chains)
    ensures var migrated := WithoutLegacy(chains, acc);
      && migrated == chains[NAT_OUTPUT := Without(chains[NAT_OUTPUT], AnyOf(Legacy(acc)))]
      && (r in migrated[NAT_OUTPUT] <==> r in chains[NAT_OUTPUT] && r !in Legacy(acc))
      && (r in chains[NAT_OUTPUT] && (Carries(r, REDIRECT_COMMENT) || Carries(r, COMMENT))
        ==> r in migrated[NAT_OUTPUT])
      && WithoutLegacy(migrated, acc) == migrated
  {
    hide Legacy, Carries, Without;
    LegacyTags(acc);
    var k := AnyOf(Legacy(acc));
    WithoutIn(chains[NAT_OUTPUT], k, r);
    WithoutLeaves(chains[NAT_OUTPUT], k);
    WithoutNone(Without(chains[NAT_OUTPUT], k), k);
  }

  /** Target, last match and length tell the signatures for one port apart. */
  lemma WebKeys(acc: Accounts, port: nat)
    ensures forall i :: 0 <= i < 4 ==> var r := LegacyWeb(acc, port)[i];
      |r.matches| == i + 3 && r.matches[i + 2] == DestPort(port) && r.target == Redirect(PROXY_PORT)
  {
  }

  lemma DnsKeys(acc: Accounts, protocol: Protocol)
    ensures forall i :: 0 <= i < 2 ==> var r := LegacyDns(acc, protocol)[i];
      |r.matches| == i + 5 && r.matches[0] == Proto(protocol) && r.target == Redirect(DNS_PORT)
  {
  }

  /** The twelve signatures are twelve different rules. */
  lemma LegacyDistinct(acc: Accounts)
    ensures Distinct(Legacy(acc))
  {
    hide LegacyWeb, LegacyDns;
    WebKeys(acc, 80);
    WebKeys(acc, 443);
    DnsKeys(acc, Udp);
    DnsKeys(acc, Tcp);
    var all := Legacy(acc);
    forall i, j | 0 <= i < j < 12 ensures all[i] != all[j] {
      assert i < 4 ==> all[i] == LegacyWeb(acc, 80)[i];
      assert 4 <= i < 8 ==> all[i] == LegacyWeb(acc, 443)[i - 4];
      assert 4 <= j < 8 ==> all[j] == LegacyWeb(acc, 443)[j - 4];
      assert 8 <= j < 10 ==> all[j] == LegacyDns(acc, Udp)[j - 8];
      assert 8 <= i < 10 ==> all[i] == LegacyDns(acc, Udp)[i - 8];
      assert 10 <= j ==> all[j] == LegacyDns(acc, Tcp)[j - 10];
      assert 10 <= i ==> all[i] == LegacyDns(acc, Tcp)[i - 10];
    }
  }

  predicate Proper(w: World) {
    Builtin(w.v4) && Builtin(w.v6)
  }

  /** Worlds that differ only in what mitmwall manages are the same after a start. */
  lemma StartResumes(a: World, b: World, acc: Accounts, cfg: Config)
    requires Resumes(a, b, acc)
    ensures Started(a, acc, cfg) == Started(b, acc, cfg)
  {
    hide Installed, WithoutLegacy, Remains, JumpLeads, TidyWorld;
    InstalledSame(a.v4, b.v4, false, acc, cfg, Saved(a).ipv4Forwarding == 0);
    InstalledSame(a.v6, b.v6, true, acc, cfg, Saved(a).ipv6Forwarding == 0);
  }

  lemma FirstAway(c: seq<Rule>, r: Rule, guarded: bool)
    ensures r in (if guarded then EnsureFirst(c, r) else c) <==> guarded || r in c
  {
  }

  lemma StartKeeps(w: World, acc: Accounts, cfg: Config)
    requires Proper(w)
    ensures Resumes(w, Started(w, acc, cfg), acc) && Proper(Started(w, acc, cfg))
  {
    hide Installed, WithoutLegacy, NatHead, Managed, ManagedFilter, Without, Rules.EnsureFirst, Unharmed;
    var g4, g6 := Saved(w).ipv4Forwarding == 0, Saved(w).ipv6Forwarding == 0;
    InstalledKeeps(w.v4, false, acc, cfg, g4);
    InstalledKeeps(w.v6, true, acc, cfg, g6);
    MigratedForm(w.v4, false, acc, cfg, g4);
    MigratedForm(w.v6, true, acc, cfg, g6);
    FirstAway(w.v4[FORWARD], GUARD, g4);
    FirstAway(w.v6[FORWARD], GUARD, g6);
  }

  /** A start leaves the same world whatever start came before it, so starting twice is
      starting once. */
  lemma StartForgetsStart(w: World, acc: Accounts, cfg1: Config, cfg2: Config)
    requires Proper(w)
    ensures Started(Started(w, acc, cfg1), acc, cfg2) == Started(w, acc, cfg2)
  {
    hide Started, Resumes;
    StartKeeps(w, acc, cfg1);
    StartResumes(w, Started(w, acc, cfg1), acc, cfg2);
  }

  lemma ClearedKeepsUnmanaged(c: Chains, acc: Accounts, guarded: bool)
    requires Builtin(c)
    ensures Unharmed(c, Cleared(c, acc), acc, guarded) && Cleared(c, acc)[FORWARD] == c[FORWARD]
  {
    hide Without, Managed, Legacy, NtpBypasses, Carries;
    var c0, k := c[NAT_OUTPUT], Managed(acc);
    forall r ensures Selects(k, r)
      <==> Carries(r, REDIRECT_COMMENT) || r in Legacy(acc) || Carries(r, COMMENT) || r in NtpBypasses(acc) {
      ManagedWhat(acc, r);
    }
    var c1 := Without(c0, Carrying(REDIRECT_COMMENT));
    var c2 := Without(c1, AnyOf(Legacy(acc)));
    var c3 := Without(c2, Carrying(COMMENT));
    WithoutNarrower(c0, Carrying(REDIRECT_COMMENT), k);
    WithoutNarrower(c1, AnyOf(Legacy(acc)), k);
    WithoutNarrower(c2, Carrying(COMMENT), k);
    WithoutNarrower(c3, AnyOf(NtpBypasses(acc)), k);
    WithoutLeaves(c[FILTER_OUTPUT], Exactly(JUMP));
    WithoutNone(Without(c[FILTER_OUTPUT], Exactly(JUMP)), Exactly(JUMP));
    assert c - HANDLED == Cleared(c, acc) - HANDLED;
  }

  lemma GuardRemoved(c: Chains, guarded: bool, acc: Accounts)
    requires Builtin(c)
    ensures var d := WithoutGuard(c, guarded);
      Unharmed(c, d, acc, guarded) && (GUARD in d[FORWARD] <==> !guarded && GUARD in c[FORWARD])
  {
    hide Without, Unharmed;
    var k := Exactly(GUARD);
    UnharmedItself(c, acc, guarded);
    if guarded {
      WithoutIn(c[FORWARD], k, GUARD);
      WithoutLeaves(c[FORWARD], k);
      WithoutNone(Without(c[FORWARD], k), k);
      GuardTouched(c, WithoutGuard(c, true), acc);
    }
  }

  lemma RestoredKeeps(w: World, acc: Accounts)
    requires Proper(w)
    ensures Resumes(w, Restored(w), acc)
  {
    hide Unharmed, WithoutGuard;
    ResumesReflexive(w, acc);
    GuardRemoved(w.v4, Saved(w).ipv4Forwarding == 0, acc);
    GuardRemoved(w.v6, Saved(w).ipv6Forwarding == 0, acc);
    UnharmedBuiltin(w.v4, Restored(w).v4, acc, Saved(w).ipv4Forwarding == 0);
    UnharmedBuiltin(w.v6, Restored(w).v6, acc, Saved(w).ipv6Forwarding == 0);
  }

  lemma StopKeeps(w: World, acc: Accounts)
    requires Proper(w)
    ensures Resumes(w, Stopped(w, acc), acc)
  {
    hide Cleared, Unharmed;
    var r := Restored(w);
    RestoredKeeps(w, acc);
    ResumesBuiltin(w, r, acc);
    ClearedKeepsUnmanaged(r.v4, acc, false);
    ClearedKeepsUnmanaged(r.v6, acc, false);
    PartResumes(r, Stopped(w, acc), acc);
    ResumesTransitive(w, r, Stopped(w, acc), acc);
  }

  // -------------------------------------- when the time synchronisation users change

  /** What a second start with other time synchronisation users leaves of the head the
      first one installed: the bypasses of users that are no longer looked up. */
  lemma StaleHead(acc: Accounts, uids: seq<nat>, cfg: Config, ipv6: bool)
    ensures Without(NatHead(acc, cfg, ipv6), NatManaged(acc.(ntp := uids))) == []
      <==> forall u :: u in acc.ntp ==> u in uids
  {
    hide Carries, Redirects, RedirectBlock, CustomAccepts;
    var now := acc.(ntp := uids);
    var head, k := NatHead(acc, cfg, ipv6), NatManaged(now);
    HeadManaged(acc, cfg, ipv6);
    NtpTags(acc);
    if u :| u in acc.ntp && u !in uids {
      var r := NtpBypass(Udp, u);
      NtpMember(acc, u);
      RecentIn(NtpBypasses(acc), r);
      assert r in head;
      NotNtpMember(now, u);
      NatManagedWhat(now, r);
      WithoutIn(head, k, r);
    } else {
      forall i | 0 <= i < |head| ensures Selects(k, head[i]) {
        NatManagedWhat(acc, head[i]);
        NatManagedWhat(now, head[i]);
        if head[i] in NtpBypasses(acc) {
          NtpSubset(acc, now, head[i]);
        }
      }
      WithoutAll(head, k);
    }
  }

  lemma NatManagedWhat(acc: Accounts, r: Rule)
    ensures Selects(NatManaged(acc), r)
      <==> Carries(r, REDIRECT_COMMENT) || r in NtpBypasses(acc) || Carries(r, COMMENT)
  {
    hide Carries, NtpBypasses;
    var t, n := Carrying(REDIRECT_COMMENT), AnyOf(NtpBypasses(acc));
    assert Selects(Either(t, n), r) <==> Selects(t, r) || Selects(n, r);
  }

  lemma NtpMember(acc: Accounts, u: nat)
    requires u in acc.ntp
    ensures NtpBypass(Udp, u) in NtpBypasses(acc) && NtpBypass(Tcp, u) in NtpBypasses(acc)
  {
    var i :| 0 <= i < |acc.ntp| && acc.ntp[i] == u;
    assert NtpBypassesOf(Udp, acc.ntp)[i] == NtpBypass(Udp, u) && NtpBypassesOf(Tcp, acc.ntp)[i] == NtpBypass(Tcp, u);
  }

  lemma NotNtpMember(acc: Accounts, u: nat)
    requires u !in acc.ntp
    ensures NtpBypass(Udp, u) !in NtpBypasses(acc) && NtpBypass(Tcp, u) !in NtpBypasses(acc)
  {
  }

  lemma NtpSubset(acc: Accounts, now: Accounts, r: Rule)
    requires (forall u :: u in acc.ntp ==> u in now.ntp) && r in NtpBypasses(acc)
    ensures r in NtpBypasses(now)
  {
    var i :| 0 <= i < |NtpBypasses(acc)| && NtpBypasses(acc)[i] == r;
    var n := |acc.ntp|;
    NtpMember(now, acc.ntp[if i < n then i else i - n]);
  }

  /** One family, once migration has nothing left to do. */
  lemma FamilyHistoryExactly(chains: Chains, ipv6: bool, acc: Accounts, uids: seq<nat>,
                             cfg1: Config, cfg2: Config, guarded: bool)
    requires CleanFamily(chains, acc) && CleanFamily(chains, acc.(ntp := uids))
    ensures var now := acc.(ntp := uids);
      Installed(Installed(chains, ipv6, acc, cfg1, guarded), ipv6, now, cfg2, guarded)
        == Installed(chains, ipv6, now, cfg2, guarded)
      <==> forall u :: u in acc.ntp ==> u in uids
  {
    hide Installed, NatHead, NatManaged, Without, Rules.EnsureFirst, ManagedFilter;
    var now, c := acc.(ntp := uids), chains[NAT_OUTPUT];
    var head, k := NatHead(acc, cfg1, ipv6), NatManaged(now);
    InstalledIsForm(chains, ipv6, acc, cfg1, guarded);
    InstalledIsForm(chains, ipv6, now, cfg2, guarded);
    var once := Installed(chains, ipv6, acc, cfg1, guarded);
    InstalledIsForm(once, ipv6, now, cfg2, guarded);
    WithoutNone(c, NatManaged(acc));
    WithoutNone(c, k);
    WithoutAppend(head, c, k);
    StaleHead(acc, uids, cfg1, ipv6);
    FirstTwice(chains[FORWARD], GUARD);
    FirstTwice(chains[FILTER_OUTPUT], JUMP);
    var stale := Without(head, k);
    assert once[NAT_OUTPUT] == head + c;
    var twice, alone := Installed(once, ipv6, now, cfg2, guarded), Installed(chains, ipv6, now, cfg2, guarded);
    assert twice[NAT_OUTPUT] == NatHead(now, cfg2, ipv6) + (stale + c);
    assert alone[NAT_OUTPUT] == NatHead(now, cfg2, ipv6) + c;
    if stale != [] {
      assert |twice[NAT_OUTPUT]| != |alone[NAT_OUTPUT]|;
    } else {
      assert stale + c == c;
      assert twice == alone;
    }
  }

  /** On clean tables migration removes nothing, not even from what an earlier start with
      other time synchronisation users installed. */
  lemma MigrationIdle(c: Chains, ipv6: bool, acc: Accounts, uids: seq<nat>, cfg: Config, guarded: bool)
    requires CleanFamily(c, acc)
    ensures var once, now := Installed(c, ipv6, acc, cfg, guarded), acc.(ntp := uids);
      && Builtin(once) && WithoutLegacy(c, acc) == c && WithoutLegacy(c, now) == c
      && WithoutLegacy(once, now) == once
  {
    hide Installed, NatHead, NatManaged, Legacy, Without, Rules.EnsureFirst, ManagedFilter;
    var head, k := NatHead(acc, cfg, ipv6), AnyOf(Legacy(acc));
    SameSignatures(acc, uids);
    InstalledIsForm(c, ipv6, acc, cfg, guarded);
    WithoutNone(c[NAT_OUTPUT], NatManaged(acc));
    WithoutNone(c[NAT_OUTPUT], k);
    HeadManaged(acc, cfg, ipv6);
    NoneJoined(head, c[NAT_OUTPUT], k);
    WithoutNone(head + c[NAT_OUTPUT], k);
  }

  lemma SameSignatures(acc: Accounts, uids: seq<nat>)
    ensures Legacy(acc.(ntp := uids)) == Legacy(acc)
  {
  }

  /** From a clean world, a start is independent of an earlier one exactly when every time
      synchronisation user the earlier one found is still installed; otherwise the
      bypasses of the vanished users stay behind. */
  lemma HistoryExactly(w: World, acc: Accounts, uids: seq<nat>, cfg1: Config, cfg2: Config)
    requires Clean(w, acc) && Clean(w, acc.(ntp := uids))
    ensures var now := acc.(ntp := uids);
      Started(Started(w, acc, cfg1), now, cfg2) == Started(w, now, cfg2) <==> forall u :: u in acc.ntp ==> u in uids
  {
    hide Installed, WithoutLegacy, CleanFamily;
    var g4, g6 := w.sysctls.ipv4Forwarding == 0, w.sysctls.ipv6Forwarding == 0;
    MigrationIdle(w.v4, false, acc, uids, cfg1, g4);
    MigrationIdle(w.v6, true, acc, uids, cfg1, g6);
    FamilyHistoryExactly(w.v4, false, acc, uids, cfg1, cfg2, g4);
    FamilyHistoryExactly(w.v6, true, acc, uids, cfg1, cfg2, g6);
  }

  lemma MigrationBuiltin(c: Chains, acc: Accounts)
    requires Builtin(c)
    ensures Builtin(WithoutLegacy(c, acc))
  {
  }

  // -------------------------------------------------------------- stop undoes start

  /** No rule of the current or a historical release, no snapshot. */
  predicate CleanFamily(chains: Chains, acc: Accounts) {
    && Builtin(chains)
    && NoneSelected(chains[NAT_OUTPUT], NatManaged(acc))
    && NoneSelected(chains[NAT_OUTPUT], AnyOf(Legacy(acc)))
    && JUMP !in chains[FILTER_OUTPUT] && GUARD !in chains[FORWARD]
  }

  predicate Clean(w: World, acc: Accounts) {
    w.snapshot.None? && CleanFamily(w.v4, acc) && CleanFamily(w.v6, acc)
  }

  /** c0, with the managed chain empty if it exists by now. */
  function Emptied(c0: Chains, c: Chains): Chains {
    if MANAGED in c then c0[MANAGED := []] else c0
  }

  lemma ClearedForm(c: Chains, acc: Accounts)
    requires Builtin(c)
    ensures var cleared, filter := c[NAT_OUTPUT := Without(c[NAT_OUTPUT], Managed(acc))], c[FILTER_OUTPUT];
      Cleared(c, acc)
      == if MANAGED in c then cleared[FILTER_OUTPUT := Without(filter, Exactly(JUMP))][MANAGED := []] else cleared
  {
    hide Without, Legacy, NtpBypasses;
    var rules := c[NAT_OUTPUT];
    var r, l, t := Carrying(REDIRECT_COMMENT), AnyOf(Legacy(acc)), Carrying(COMMENT);
    WithoutTwice(rules, r, l);
    WithoutTwice(rules, Either(r, l), t);
    WithoutTwice(rules, Either(Either(r, l), t), AnyOf(NtpBypasses(acc)));
  }

  lemma ManagedSplit(acc: Accounts, r: Rule)
    ensures Selects(Managed(acc), r) <==> Selects(NatManaged(acc), r) || Selects(AnyOf(Legacy(acc)), r)
  {
    hide Carries, Legacy, NtpBypasses;
    var t, l, m, n := Carrying(REDIRECT_COMMENT), AnyOf(Legacy(acc)), Carrying(COMMENT), AnyOf(NtpBypasses(acc));
    assert Selects(Either(Either(t, l), m), r) <==> Selects(t, r) || Selects(l, r) || Selects(m, r);
    assert Selects(Either(t, n), r) <==> Selects(t, r) || Selects(n, r);
  }

  /** Nor does stop remove the bypasses of a vanished user. */
  lemma VanishedStays(c: Chains, acc: Accounts, protocol: Protocol, u: nat)
    requires Builtin(c) && u !in acc.ntp && (protocol == Udp || protocol == Tcp)
    ensures var r, cleared := NtpBypass(protocol, u), Cleared(c, acc);
      Builtin(cleared) && (r in cleared[NAT_OUTPUT] <==> r in c[NAT_OUTPUT])
  {
    hide Cleared, Without, Managed, Legacy, NtpBypasses;
    var r, k := NtpBypass(protocol, u), Managed(acc);
    ClearedKeepsUnmanaged(c, acc, true);
    LegacyTags(acc);
    NotNtpMember(acc, u);
    ManagedWhat(acc, r);
    assert !Selects(k, r);
    WithoutIn(c[NAT_OUTPUT], k, r);
    WithoutIn(Cleared(c, acc)[NAT_OUTPUT], k, r);
  }

  /** One family's chains, once no guard is left that was not there. */
  lemma ClearedUndoes(c0: Chains, c: Chains, acc: Accounts, guarded: bool)
    requires CleanFamily(c0, acc) && Unharmed(c0, c, acc, guarded) && c[FORWARD] == c0[FORWARD]
    ensures Cleared(c, acc) == Emptied(c0, c)
  {
    hide NatManaged, Managed, Legacy, NtpBypasses, Without;
    var nat0, k := c0[NAT_OUTPUT], Managed(acc);
    forall i | 0 <= i < |nat0| ensures !Selects(k, nat0[i]) {
      ManagedSplit(acc, nat0[i]);
    }
    WithoutNone(nat0, k);
    WithoutNone(c0[FILTER_OUTPUT], Exactly(JUMP));
    if MANAGED !in c {
      WithoutNone(c[FILTER_OUTPUT], Exactly(JUMP));
    }
    ClearedForm(c, acc);
    OthersAgree(c0, c);
    assert Cleared(c, acc).Keys == Emptied(c0, c).Keys;
    assert Cleared(c, acc) == Emptied(c0, c);
  }

  lemma OthersAgree(c: Chains, d: Chains)
    requires c - HANDLED == d - HANDLED
    ensures forall id :: id !in HANDLED ==> (id in c <==> id in d) && (id in c ==> c[id] == d[id])
  {
    forall id | id !in HANDLED ensures (id in c <==> id in d) && (id in c ==> c[id] == d[id]) {
      assert id in c <==> id in c - HANDLED;
      assert id in d <==> id in d - HANDLED;
      assert id in c ==> (c - HANDLED)[id] == c[id];
      assert id in d ==> (d - HANDLED)[id] == d[id];
    }
  }

  /** A completed stop undoes every history: whatever starts and stops, completed or
      broken off anywhere, led from clean tables to this world, both families' tables
      and all three sysctls are as they were. Only the managed chain stays, empty. */
  lemma StopUndoes(w0: World, w: World, acc: Accounts)
    requires Clean(w0, acc) && Resumes(w0, w, acc)
    ensures Stopped(w, acc) == w0.(v4 := Emptied(w0.v4, w.v4), v6 := Emptied(w0.v6, w.v6))
  {
    hide Cleared, Unharmed, WithoutGuard, Emptied;
    var r := Restored(w);
    ResumesBuiltin(w0, w, acc);
    GuardGone(w0, w, acc);
    ClearedUndoes(w0.v4, r.v4, acc, Saved(w).ipv4Forwarding == 0);
    ClearedUndoes(w0.v6, r.v6, acc, Saved(w).ipv6Forwarding == 0);
    assert Emptied(w0.v4, r.v4) == Emptied(w0.v4, w.v4) && Emptied(w0.v6, r.v6) == Emptied(w0.v6, w.v6) by {
      GuardOnly(w.v4, Saved(w).ipv4Forwarding == 0);
      GuardOnly(w.v6, Saved(w).ipv6Forwarding == 0);
    }
  }

  lemma GuardOnly(c: Chains, guarded: bool)
    requires Builtin(c)
    ensures MANAGED in WithoutGuard(c, guarded) <==> MANAGED in c
    ensures forall c0 :: Emptied(c0, WithoutGuard(c, guarded)) == Emptied(c0, c)
  {
  }

  /** Once restored, FORWARD is as it was before the first start. */
  lemma GuardGone(w0: World, w: World, acc: Accounts)
    requires Clean(w0, acc) && Resumes(w0, w, acc) && Proper(w)
    ensures var r := Restored(w);
      && Unharmed(w0.v4, r.v4, acc, Saved(w).ipv4Forwarding == 0)
      && Unharmed(w0.v6, r.v6, acc, Saved(w).ipv6Forwarding == 0)
      && r.v4[FORWARD] == w0.v4[FORWARD] && r.v6[FORWARD] == w0.v6[FORWARD]
  {
    hide Unharmed, WithoutGuard;
    var r := Restored(w);
    RestoredKeeps(w, acc);
    ResumesTransitive(w0, w, r, acc);
    ResumesBuiltin(w0, r, acc);
    GuardRemoved(w.v4, Saved(w).ipv4Forwarding == 0, acc);
    GuardRemoved(w.v6, Saved(w).ipv6Forwarding == 0, acc);
    SameForward(w0.v4, r.v4, acc, Saved(w).ipv4Forwarding == 0);
    SameForward(w0.v6, r.v6, acc, Saved(w).ipv6Forwarding == 0);
  }

  lemma SameForward(c: Chains, d: Chains, acc: Accounts, guarded: bool)
    requires Unharmed(c, d, acc, guarded) && Builtin(c) && Builtin(d)
    requires GUARD !in c[FORWARD] && (guarded ==> GUARD !in d[FORWARD])
    ensures c[FORWARD] == d[FORWARD]
  {
    hide Managed, Without;
    assert Remains(c, acc, guarded).forwardRules == Remains(d, acc, guarded).forwardRules;
    if guarded {
      WithoutNone(c[FORWARD], Exactly(GUARD));
      WithoutNone(d[FORWARD], Exactly(GUARD));
    }
  }

  // -------------------------------------------------------- histories of the host

  datatype Act = StartAct(cfg: Config) | StopAct

  /** Any starts and stops one after the other, each completed or failing at any of its
      commands. */
  method AnyHistory(h: Host, plan: seq<Act>)
    requires h.Valid()
    modifies h, h.v4, h.v6
    ensures h.Valid() && old(h.trace) <= h.trace && Resumes(old(h.Value()), h.Value(), h.accounts)
  {
    hide Resumes, Started, Stopped, GuardIn;
    ghost var w0 := h.Value();
    ResumesReflexive(w0, h.accounts);
    for k := 0 to |plan|
      invariant h.Valid() && old(h.trace) <= h.trace && Resumes(w0, h.Value(), h.accounts)
    {
      ghost var w := h.Value();
      match plan[k] {
        case StartAct(cfg) =>
          var r := h.Start(cfg);
          if r == Success {
            StartKeeps(w, h.accounts, cfg);
          }
        case StopAct =>
          var ok := h.Stop();
          if ok {
            StopKeeps(w, h.accounts);
          }
      }
      ResumesTransitive(w0, w, h.Value(), h.accounts);
    }
  }

  /** After any such history, a completed start leaves what it would have left had it
      been the first. */
  method HistoryForgotten(h: Host, plan: seq<Act>, cfg: Config) returns (r: Outcome)
    requires h.Valid()
    modifies h, h.v4, h.v6
    ensures h.Valid() && (r == Success ==> h.Value() == Started(old(h.Value()), h.accounts, cfg))
  {
    hide Resumes, Started, GuardIn;
    ghost var w0 := h.Value();
    AnyHistory(h, plan);
    ghost var w := h.Value();
    r := h.Start(cfg);
    StartResumes(w0, w, h.accounts, cfg);
  }

  /** From clean tables, after any such history, a completed stop leaves both families'
      tables and all three sysctls as they were; only the managed chain stays, empty. */
  method StopUndoesHistory(h: Host, plan: seq<Act>) returns (ok: bool)
    requires h.Valid() && Clean(h.Value(), h.accounts)
    modifies h, h.v4, h.v6
    ensures h.Valid() && (ok ==> h.snapshot == None && h.sysctls == old(h.sysctls))
    ensures ok ==> h.v4.chains == old(h.v4.chains) || h.v4.chains == old(h.v4.chains)[MANAGED := []]
    ensures ok ==> h.v6.chains == old(h.v6.chains) || h.v6.chains == old(h.v6.chains)[MANAGED := []]
  {
    hide Resumes, Stopped, GuardIn, CleanFamily;
    ghost var w0 := h.Value();
    AnyHistory(h, plan);
    ghost var w := h.Value();
    ok := h.Stop();
    StopUndoes(w0, w, h.accounts);
  }

  /** What the administrator chose while nothing was saved is what a completed stop brings
      back, whatever starts and stops lie in between. */
  method LatestChoiceReturns(h: Host, values: Sysctls, plan: seq<Act>) returns (ok: bool)
    requires h.Valid() && h.snapshot.None?
    modifies h, h.v4, h.v6
    ensures h.Valid() && (ok ==> h.snapshot == None && h.sysctls == values)
  {
    hide Unharmed, TidyWorld, GuardIn;
    h.Administer(values);
    ghost var w0 := h.Value();
    AnyHistory(h, plan);
    assert Saved(h.Value()) == Saved(w0);
    ok := h.Stop();
  }
}
