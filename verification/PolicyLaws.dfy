/** The firewall policy with every rule, port and name written out, and without the
    builders and predicates the programs are specified with. */
module PolicyLaws {
  import opened Rules
  import opened Firewall
  import opened HookRules
  import opened Unmanaged
  import opened ForwardingRuns
  import opened Host
  import opened PolicyHistory
  import opened Packets

  // ---------------------------------------------------------------- the rules

  function NotOwners(uids: seq<nat>): (ms: seq<Match>)
    ensures |ms| == |uids| && forall i :: 0 <= i < |uids| ==> ms[i] == NotOwner(uids[i])
  {
    seq(|uids|, i requires 0 <= i < |uids| => NotOwner(uids[i]))
  }

  /** The redirects at the end of the managed head, in their order. */
  function RedirectTail(acc: Accounts, bypass: seq<nat>): seq<Rule> {
    var web := [Proto(Tcp), NotOutLoopback, NotOwner(acc.mitmwall)] + NotOwners(bypass);
    var dns := [NotOwner(acc.mitmwall), NotOwner(acc.resolver)] + NotOwners(bypass);
    var tag := Comment(["mitmwall-redirect"]);
    [Rule(web + [DestPort(443), tag], Redirect(58080)), Rule(web + [DestPort(80), tag], Redirect(58080)),
     Rule([Proto(Tcp)] + dns + [DestPort(53), tag], Redirect(58053)),
     Rule([Proto(Udp)] + dns + [DestPort(53), tag], Redirect(58053))]
  }

  predicate IsTimeBypass(r: Rule, uids: seq<nat>) {
    exists i :: 0 <= i < |uids| && (r == Rule([Proto(Udp), Owner(uids[i]), DestPort(53)], Accept)
                                    || r == Rule([Proto(Tcp), Owner(uids[i]), DestPort(53)], Accept))
  }

  predicate IsCustomBypass(r: Rule, customs: seq<CustomRule>, ipv6: bool) {
    exists i :: 0 <= i < |customs| && customs[i].ipv6 == ipv6 &&
      r == Rule([Proto(Tcp), Destination(customs[i].network), DestPort(customs[i].port),
                 Comment(["mitmwall-custom"])], Accept)
  }

  /** The twelve untagged redirects of older releases. */
  function OldRedirects(acc: Accounts): seq<Rule> {
    var m, s, a := NotOwner(acc.mitmwall), NotOwner(acc.resolver), NotOwner(acc.apt);
    var root := NotOwner(0);
    [Rule([Proto(Tcp), m, DestPort(80)], Redirect(58080)),
     Rule([Proto(Tcp), NotOutLoopback, m, DestPort(80)], Redirect(58080)),
     Rule([Proto(Tcp), NotOutLoopback, root, m, DestPort(80)], Redirect(58080)),
     Rule([Proto(Tcp), NotOutLoopback, root, m, a, DestPort(80)], Redirect(58080)),
     Rule([Proto(Tcp), m, DestPort(443)], Redirect(58080)),
     Rule([Proto(Tcp), NotOutLoopback, m, DestPort(443)], Redirect(58080)),
     Rule([Proto(Tcp), NotOutLoopback, root, m, DestPort(443)], Redirect(58080)),
     Rule([Proto(Tcp), NotOutLoopback, root, m, a, DestPort(443)], Redirect(58080)),
     Rule([Proto(Udp), root, m, s, DestPort(53)], Redirect(58053)),
     Rule([Proto(Udp), root, m, s, a, DestPort(53)], Redirect(58053)),
     Rule([Proto(Tcp), root, m, s, DestPort(53)], Redirect(58053)),
     Rule([Proto(Tcp), root, m, s, a, DestPort(53)], Redirect(58053))]
  }

  lemma OldForm(p: Protocol, port: nat, target: nat, users: seq<nat>, noLoopback: bool)
    ensures LegacyRedirect(p, port, target, users, noLoopback)
         == Rule([Proto(p)] + (if noLoopback then [NotOutLoopback] else []) + NotOwners(users) + [DestPort(port)],
                 Redirect(target))
  {
    assert Exclusions(users) == NotOwners(users);
  }

  lemma OldWeb(acc: Accounts, port: nat)
    ensures var m, a := NotOwner(acc.mitmwall), NotOwner(acc.apt);
      LegacyWeb(acc, port)
      == [Rule([Proto(Tcp), m, DestPort(port)], Redirect(58080)),
          Rule([Proto(Tcp), NotOutLoopback, m, DestPort(port)], Redirect(58080)),
          Rule([Proto(Tcp), NotOutLoopback, NotOwner(0), m, DestPort(port)], Redirect(58080)),
          Rule([Proto(Tcp), NotOutLoopback, NotOwner(0), m, a, DestPort(port)], Redirect(58080))]
  {
    hide LegacyRedirect;
    var m, root, a := NotOwner(acc.mitmwall), NotOwner(0), NotOwner(acc.apt);
    OldForm(Tcp, port, 58080, [acc.mitmwall], false);
    OldForm(Tcp, port, 58080, [acc.mitmwall], true);
    OldForm(Tcp, port, 58080, [0, acc.mitmwall], true);
    OldForm(Tcp, port, 58080, [0, acc.mitmwall, acc.apt], true);
    assert NotOwners([acc.mitmwall]) == [m] && NotOwners([0, acc.mitmwall]) == [root, m];
    assert NotOwners([0, acc.mitmwall, acc.apt]) == [root, m, a];
    assert [Proto(Tcp)] + [] + [m] + [DestPort(port)] == [Proto(Tcp), m, DestPort(port)];
    assert [Proto(Tcp)] + [NotOutLoopback] + [m] + [DestPort(port)] == [Proto(Tcp), NotOutLoopback, m, DestPort(port)];
    assert [Proto(Tcp)] + [NotOutLoopback] + [root, m] + [DestPort(port)]
        == [Proto(Tcp), NotOutLoopback, root, m, DestPort(port)];
    assert [Proto(Tcp)] + [NotOutLoopback] + [root, m, a] + [DestPort(port)]
        == [Proto(Tcp), NotOutLoopback, root, m, a, DestPort(port)];
  }

  lemma OldDns(acc: Accounts, p: Protocol)
    ensures var m, s, a := NotOwner(acc.mitmwall), NotOwner(acc.resolver), NotOwner(acc.apt);
      LegacyDns(acc, p)
      == [Rule([Proto(p), NotOwner(0), m, s, DestPort(53)], Redirect(58053)),
          Rule([Proto(p), NotOwner(0), m, s, a, DestPort(53)], Redirect(58053))]
  {
    hide LegacyRedirect;
    var m, s, a := NotOwner(acc.mitmwall), NotOwner(acc.resolver), NotOwner(acc.apt);
    OldForm(p, 53, 58053, [0, acc.mitmwall, acc.resolver], false);
    OldForm(p, 53, 58053, [0, acc.mitmwall, acc.resolver, acc.apt], false);
    assert NotOwners([0, acc.mitmwall, acc.resolver]) == [NotOwner(0), m, s];
    assert NotOwners([0, acc.mitmwall, acc.resolver, acc.apt]) == [NotOwner(0), m, s, a];
    assert [Proto(p)] + [] + [NotOwner(0), m, s] + [DestPort(53)] == [Proto(p), NotOwner(0), m, s, DestPort(53)];
    assert [Proto(p)] + [] + [NotOwner(0), m, s, a] + [DestPort(53)]
        == [Proto(p), NotOwner(0), m, s, a, DestPort(53)];
  }

  lemma LegacyExactly(acc: Accounts)
    ensures Legacy(acc) == OldRedirects(acc)
  {
    hide LegacyWeb, LegacyDns;
    OldWeb(acc, 80);
    OldWeb(acc, 443);
    OldDns(acc, Udp);
    OldDns(acc, Tcp);
  }

  /** Migration deletes the twelve old redirects, whatever else nat OUTPUT holds. */
  lemma MigrationLaw(c: Chains, acc: Accounts, r: Rule)
    requires Builtin(c)
    ensures var migrated := WithoutLegacy(c, acc);
      && NAT_OUTPUT in migrated
      && (r in migrated[NAT_OUTPUT] <==> r in c[NAT_OUTPUT] && r !in OldRedirects(acc))
  {
    hide Legacy, OldRedirects;
    LegacyExactly(acc);
    MigrationExact(c, acc, r);
  }

  // ---------------------------------------------------------- nat OUTPUT after a start

  lemma RedirectsAre(acc: Accounts, bypass: seq<nat>)
    ensures RedirectBlock(acc, bypass) == RedirectTail(acc, bypass)
  {
    WebIs(acc, 443, bypass);
    WebIs(acc, 80, bypass);
    DnsIs(acc, Tcp, bypass);
    DnsIs(acc, Udp, bypass);
  }

  lemma WebIs(acc: Accounts, port: nat, bypass: seq<nat>)
    ensures WebRedirect(acc, port, bypass)
         == Rule([Proto(Tcp), NotOutLoopback, NotOwner(acc.mitmwall)] + NotOwners(bypass)
                 + [DestPort(port), Comment(["mitmwall-redirect"])], Redirect(58080))
  {
    assert Exclusions([acc.mitmwall] + bypass) == [NotOwner(acc.mitmwall)] + NotOwners(bypass);
    assert [Proto(Tcp), NotOutLoopback] + ([NotOwner(acc.mitmwall)] + NotOwners(bypass))
        == [Proto(Tcp), NotOutLoopback, NotOwner(acc.mitmwall)] + NotOwners(bypass);
  }

  lemma DnsIs(acc: Accounts, p: Protocol, bypass: seq<nat>)
    ensures DnsRedirect(acc, p, bypass)
         == Rule([Proto(p)] + ([NotOwner(acc.mitmwall), NotOwner(acc.resolver)] + NotOwners(bypass))
                 + [DestPort(53), Comment(["mitmwall-redirect"])], Redirect(58053))
  {
    assert Exclusions([acc.mitmwall, acc.resolver] + bypass)
        == [NotOwner(acc.mitmwall), NotOwner(acc.resolver)] + NotOwners(bypass);
  }

  lemma {:induction false} CustomsAre(customs: seq<CustomRule>, ipv6: bool, r: Rule)
    ensures r in CustomAccepts(ipv6, customs) <==> IsCustomBypass(r, customs, ipv6)
  {
    if customs != [] {
      var n := |customs| - 1;
      CustomsAre(customs[..n], ipv6, r);
      if IsCustomBypass(r, customs[..n], ipv6) {
        var i :| 0 <= i < n && customs[..n][i].ipv6 == ipv6 &&
          r == Rule([Proto(Tcp), Destination(customs[..n][i].network), DestPort(customs[..n][i].port),
                     Comment(["mitmwall-custom"])], Accept);
        assert customs[i] == customs[..n][i];
      }
      if IsCustomBypass(r, customs, ipv6) {
        var i :| 0 <= i < |customs| && customs[i].ipv6 == ipv6 &&
          r == Rule([Proto(Tcp), Destination(customs[i].network), DestPort(customs[i].port),
                     Comment(["mitmwall-custom"])], Accept);
        assert i < n ==> customs[..n][i] == customs[i];
      }
    }
  }

  lemma TimesAre(acc: Accounts, r: Rule)
    ensures r in NtpBypasses(acc) <==> IsTimeBypass(r, acc.ntp)
  {
    if IsTimeBypass(r, acc.ntp) {
      var i :| 0 <= i < |acc.ntp| && (r == Rule([Proto(Udp), Owner(acc.ntp[i]), DestPort(53)], Accept)
                                      || r == Rule([Proto(Tcp), Owner(acc.ntp[i]), DestPort(53)], Accept));
      NtpMember(acc, acc.ntp[i]);
    }
    if r in NtpBypasses(acc) {
      var j :| 0 <= j < |NtpBypasses(acc)| && NtpBypasses(acc)[j] == r;
      var n := |acc.ntp|;
      assert r == NtpBypass(if j < n then Udp else Tcp, acc.ntp[if j < n then j else j - n]);
    }
  }

  /** Latest first: what stands earlier was configured last, later than every occurrence
      of what stands behind it. */
  lemma {:induction false} RecentOrder(rs: seq<Rule>, i: nat, j: nat) returns (p: nat)
    requires i < j < |Recent(rs)|
    ensures p < |rs| && rs[p] == Recent(rs)[i] && forall q :: p <= q < |rs| ==> rs[q] != Recent(rs)[j]
  {
    hide Without;
    var n := |rs| - 1;
    RecentIn(rs, Recent(rs)[0]);
    var init, last := rs[..n], rs[n];
    var d := Without(Recent(init), Exactly(last));
    assert Recent(rs) == [last] + d;
    RecentDistinct(rs);
    assert Recent(rs)[0] != Recent(rs)[j];
    if i == 0 {
      p := n;
    } else {
      var a, b := WithoutOrder(Recent(init), Exactly(last), i - 1, j - 1);
      p := RecentOrder(init, a, b);
      forall q | p <= q < |rs| ensures rs[q] != Recent(rs)[j] {
        assert q < n ==> rs[q] == init[q];
      }
    }
  }

  lemma WithoutCons(h: Rule, rest: seq<Rule>, k: Criterion)
    ensures Without([h] + rest, k) == (if Selects(k, h) then Without(rest, k) else [h] + Without(rest, k))
  {
    hide Selects;
    assert ([h] + rest)[1..] == rest && [] + Without(rest, k) == Without(rest, k);
  }

  lemma WithoutNothing(k: Criterion)
    ensures Without([], k) == []
  {
  }

  /** What a deletion leaves is in the original order. */
  lemma {:induction false} WithoutOrder(c: seq<Rule>, k: Criterion, i: nat, j: nat) returns (a: nat, b: nat)
    requires i < j < |Without(c, k)|
    ensures a < b < |c| && c[a] == Without(c, k)[i] && c[b] == Without(c, k)[j]
    decreases |c|
  {
    hide Without, Selects;
    WithoutNothing(k);
    var h, rest := c[0], c[1..];
    assert c == [h] + rest;
    WithoutCons(h, rest, k);
    if Selects(k, h) {
      a, b := WithoutOrder(rest, k, i, j);
    } else if i > 0 {
      a, b := WithoutOrder(rest, k, i - 1, j - 1);
    } else {
      b := PositionIn(rest, k, j - 1);
      return 0, b + 1;
    }
    a, b := a + 1, b + 1;
  }

  lemma PositionIn(c: seq<Rule>, k: Criterion, j: nat) returns (b: nat)
    requires j < |Without(c, k)|
    ensures b < |c| && c[b] == Without(c, k)[j]
  {
    WithoutIn(c, k, Without(c, k)[j]);
    b :| 0 <= b < |c| && c[b] == Without(c, k)[j];
  }

  /** x stands somewhere before y. */
  predicate Before(c: seq<Rule>, x: Rule, y: Rule) {
    exists a, b :: 0 <= a < b < |c| && c[a] == x && c[b] == y
  }

  /** The second sequence lists rules of the first in the same order. */
  predicate SameOrder(c: seq<Rule>, d: seq<Rule>) {
    forall i, j :: 0 <= i < j < |d| ==> Before(c, d[i], d[j])
  }

  lemma WithoutKeepsOrder(c: seq<Rule>, k: Criterion)
    ensures SameOrder(c, Without(c, k))
  {
    hide Without;
    var d := Without(c, k);
    forall i, j | 0 <= i < j < |d| ensures Before(c, d[i], d[j]) {
      var a, b := WithoutOrder(c, k, i, j);
      assert c[a] == d[i] && c[b] == d[j];
    }
  }

  /** nat OUTPUT after a start: custom bypasses, time synchronisation bypasses, the four
      redirects, and then what mitmwall does not manage, in its order. */
  lemma NatLaw(c: Chains, ipv6: bool, acc: Accounts, cfg: Config, guarded: bool)
    returns (customs: seq<Rule>, times: seq<Rule>, rest: seq<Rule>)
    requires Builtin(c)
    ensures var on := Installed(WithoutLegacy(c, acc), ipv6, acc, cfg, guarded);
      NAT_OUTPUT in on && on[NAT_OUTPUT] == customs + times + RedirectTail(acc, cfg.bypass) + rest
    ensures Distinct(customs) && forall r :: r in customs <==> IsCustomBypass(r, cfg.customs, ipv6)
    ensures Distinct(times) && forall r :: r in times <==> IsTimeBypass(r, acc.ntp)
    ensures forall r :: r in rest <==> r in c[NAT_OUTPUT] && Foreign(r, acc)
    ensures SameOrder(c[NAT_OUTPUT], rest)
  {
    hide Installed, WithoutLegacy, Managed, ManagedFilter, Without, Rules.EnsureFirst, Recent, RedirectTail;
    hide RedirectBlock, CustomAccepts, NtpBypasses, IsCustomBypass, IsTimeBypass, Foreign, Selects, SameOrder;
    var nat0 := c[NAT_OUTPUT];
    customs, times := Recent(CustomAccepts(ipv6, cfg.customs)), Recent(NtpBypasses(acc));
    rest := Without(nat0, Managed(acc));
    MigratedForm(c, ipv6, acc, cfg, guarded);
    RedirectsAre(acc, cfg.bypass);
    RecentDistinct(CustomAccepts(ipv6, cfg.customs));
    RecentDistinct(NtpBypasses(acc));
    var tail := RedirectTail(acc, cfg.bypass);
    assert customs + (times + tail) + rest == customs + times + tail + rest;
    forall r ensures r in customs <==> IsCustomBypass(r, cfg.customs, ipv6) {
      RecentIn(CustomAccepts(ipv6, cfg.customs), r);
      CustomsAre(cfg.customs, ipv6, r);
    }
    forall r ensures r in times <==> IsTimeBypass(r, acc.ntp) {
      RecentIn(NtpBypasses(acc), r);
      TimesAre(acc, r);
    }
    forall r ensures r in rest <==> r in nat0 && Foreign(r, acc) {
      WithoutIn(nat0, Managed(acc), r);
      ForeignLaw(acc, r);
    }
    WithoutKeepsOrder(nat0, Managed(acc));
  }

  /** Not a rule of any release. */
  predicate Foreign(r: Rule, acc: Accounts) {
    && !Carries(r, "mitmwall-redirect") && !Carries(r, "mitmwall-custom")
    && r !in OldRedirects(acc) && !IsTimeBypass(r, acc.ntp)
  }

  lemma ForeignLaw(acc: Accounts, r: Rule)
    ensures Selects(Managed(acc), r) <==> !Foreign(r, acc)
  {
    hide Carries, Legacy, OldRedirects, NtpBypasses, IsTimeBypass, Managed;
    ManagedWhat(acc, r);
    LegacyExactly(acc);
    TimesAre(acc, r);
  }

  // -------------------------------------------------------------------- the stop

  /** A stop deletes the rules of every release from nat OUTPUT and nothing else, and
      empties and detaches the managed chain. */
  lemma StopLaw(c: Chains, acc: Accounts, r: Rule)
    requires Builtin(c)
    ensures var cleared := Cleared(c, acc);
      && Builtin(cleared) && (r in cleared[NAT_OUTPUT] <==> r in c[NAT_OUTPUT] && Foreign(r, acc))
    ensures var managed, jump := ChainId(FilterTable, "MITMWALL_OUTPUT"), Rule([], Jump("MITMWALL_OUTPUT"));
      managed in c ==> managed in Cleared(c, acc) && Cleared(c, acc)[managed] == []
                       && jump !in Cleared(c, acc)[FILTER_OUTPUT]
  {
    hide Cleared, Without, Managed, Foreign, Selects;
    ClearedForm(c, acc);
    WithoutIn(c[NAT_OUTPUT], Managed(acc), r);
    ForeignLaw(acc, r);
    WithoutIn(c[FILTER_OUTPUT], Exactly(JUMP), JUMP);
    assert Selects(Exactly(JUMP), JUMP) by {
      ExactlySelects(JUMP);
    }
  }

  lemma ExactlySelects(r: Rule)
    ensures Selects(Exactly(r), r)
  {
  }

  // ------------------------------------------------------------- the output filter

  /** The custom bypasses keep the order of the configuration. */
  lemma {:induction false} CustomsInOrder(ipv6: bool, a: seq<CustomRule>, b: seq<CustomRule>)
    ensures CustomAccepts(ipv6, a + b) == CustomAccepts(ipv6, a) + CustomAccepts(ipv6, b)
    decreases |b|
  {
    if b == [] {
      assert a + b == a;
    } else {
      var n := |b| - 1;
      CustomsInOrder(ipv6, a, b[..n]);
      assert (a + b)[..|a + b| - 1] == a + b[..n] && (a + b)[|a + b| - 1] == b[n];
    }
  }

  /** filter OUTPUT begins with the jump, and the managed chain ends with its one DROP;
      FORWARD begins with the guard where there is to be one. */
  lemma FilterLaw(c: Chains, ipv6: bool, acc: Accounts, cfg: Config, guarded: bool)
    requires Builtin(c)
    ensures
      var on := Installed(WithoutLegacy(c, acc), ipv6, acc, cfg, guarded);
      var managed := ChainId(FilterTable, "MITMWALL_OUTPUT");
      && FILTER_OUTPUT in on && on[FILTER_OUTPUT] != [] && on[FILTER_OUTPUT][0] == Rule([], Jump("MITMWALL_OUTPUT"))
      && managed in on && on[managed] != [] && on[managed][|on[managed]| - 1] == Rule([], Drop)
      && (forall i :: 0 <= i < |on[managed]| - 1 ==> on[managed][i].target == Accept)
      && (exists first :: on[managed] == first + CustomAccepts(ipv6, cfg.customs) + [Rule([], Drop)])
      && FORWARD in on
      && (guarded ==> on[FORWARD] != [] && on[FORWARD][0] == Rule([Comment(["mitmwall-forwarding-guard"])], Drop))
      && (!guarded ==> on[FORWARD] == c[FORWARD])
  {
    hide Installed, WithoutLegacy, Managed, NatHead, Without, Accepts, CustomAccepts, Carries;
    MigratedForm(c, ipv6, acc, cfg, guarded);
    AcceptsPlain(acc, cfg.bypass, ipv6);
    CustomTags(ipv6, cfg.customs);
    var accepts := Accepts(acc, cfg.bypass, ipv6) + CustomAccepts(ipv6, cfg.customs);
    forall i | 0 <= i < |accepts| ensures accepts[i].target == Accept {
      assert accepts[i] in accepts;
    }
    var on := Installed(WithoutLegacy(c, acc), ipv6, acc, cfg, guarded);
    assert on[MANAGED] == Accepts(acc, cfg.bypass, ipv6) + CustomAccepts(ipv6, cfg.customs) + [Rule([], Drop)];
  }

  /** Guards stand exactly where forwarding was 0; the sysctls and the snapshot of a
      completed start. */
  lemma StartLaw(w: World, acc: Accounts, cfg: Config)
    requires Proper(w) && TidyWorld(w)
    ensures var on, saved := Started(w, acc, cfg), if w.snapshot.Some? then w.snapshot.value else w.sysctls;
      && on.sysctls == Sysctls(1, 1, 0) && on.snapshot.Some? && on.snapshot.value == saved
      && Proper(on)
      && (Rule([Comment(["mitmwall-forwarding-guard"])], Drop) in on.v4[FORWARD] <==> saved.ipv4Forwarding == 0)
      && (Rule([Comment(["mitmwall-forwarding-guard"])], Drop) in on.v6[FORWARD] <==> saved.ipv6Forwarding == 0)
  {
    hide Installed, WithoutLegacy, Managed, NatHead, ManagedFilter, Without, Rules.EnsureFirst;
    var g4, g6 := Saved(w).ipv4Forwarding == 0, Saved(w).ipv6Forwarding == 0;
    MigratedForm(w.v4, false, acc, cfg, g4);
    MigratedForm(w.v6, true, acc, cfg, g6);
    FirstAway(w.v4[FORWARD], GUARD, g4);
    FirstAway(w.v6[FORWARD], GUARD, g6);
  }

  // -------------------------------------------------------------------- packets

  predicate Covers(c: CustomRule, p: Packet, ipv6: bool) {
    c.ipv6 == ipv6 && p.port == c.port && c.network.base <= p.destination < c.network.base + c.network.size
  }

  predicate Bypassed(p: Packet, cfg: Config, ipv6: bool) {
    p.protocol == Tcp && exists i :: 0 <= i < |cfg.customs| && Covers(cfg.customs[i], p, ipv6)
  }

  predicate Privileged(p: Packet, acc: Accounts, cfg: Config) {
    p.uid.Some? && (p.uid.value == acc.mitmwall || p.uid.value in cfg.bypass)
  }

  /** What may leave, port by port. */
  predicate Allowed(p: Packet, acc: Accounts, cfg: Config, ipv6: bool) {
    || ((p.state == Established || p.state == Related) && p.reply)
    || Privileged(p, acc, cfg)
    || (p.uid.Some? && p.uid.value == acc.resolver)
    || (p.uid.Some? && p.uid.value in acc.ntp && p.protocol == Udp && (p.port == 123 || p.port == 53))
    || (p.uid.Some? && p.uid.value in acc.ntp && p.protocol == Tcp && p.port == 53)
    || (ipv6 && p.protocol == IcmpV6)
    || p.loopback
    || (p.local && p.protocol == Tcp && (p.port == 58080 || p.port == 58053 || p.port == 58081))
    || (p.local && p.protocol == Udp && p.port == 58053)
    || Bypassed(p, cfg, ipv6)
  }

  /** Every packet of a new flow: to the proxy, to the DNS proxy, or past both. */
  predicate ToProxy(p: Packet, acc: Accounts, cfg: Config, ipv6: bool) {
    && p.protocol == Tcp && (p.port == 80 || p.port == 443) && !p.loopback
    && !Privileged(p, acc, cfg) && !Bypassed(p, cfg, ipv6)
  }

  predicate ToDns(p: Packet, acc: Accounts, cfg: Config, ipv6: bool) {
    && (p.protocol == Udp || p.protocol == Tcp) && p.port == 53
    && !Privileged(p, acc, cfg) && !(p.uid.Some? && (p.uid.value == acc.resolver || p.uid.value in acc.ntp))
    && !Bypassed(p, cfg, ipv6)
  }

  lemma PacketTerms(p: Packet, acc: Accounts, cfg: Config, ipv6: bool)
    ensures CustomBypass(cfg, ipv6, p) <==> Bypassed(p, cfg, ipv6)
    ensures OwnedBy(p, [acc.mitmwall] + cfg.bypass) <==> Privileged(p, acc, cfg)
    ensures Permitted(acc, cfg, ipv6, p) <==> Allowed(p, acc, cfg, ipv6)
    ensures CapturedWeb(acc, cfg, p) && !CustomBypass(cfg, ipv6, p) <==> ToProxy(p, acc, cfg, ipv6)
    ensures CapturedDns(acc, cfg, p) && !CustomBypass(cfg, ipv6, p) && !OwnedBy(p, acc.ntp)
      <==> ToDns(p, acc, cfg, ipv6)
  {
    forall c: CustomRule ensures BypassedBy(c, ipv6, p) <==> Covers(c, p, ipv6) {
    }
  }

  /** The whole policy after a completed start, port by port. */
  lemma PolicyLaw(k: Kernel, w: World, acc: Accounts, cfg: Config, ipv6: bool, p: Packet, depth: nat)
    requires Proper(w) && depth > 0
    ensures
      var on := if ipv6 then Started(w, acc, cfg).v6 else Started(w, acc, cfg).v4;
      Builtin(on) &&
      var q := Translated(k, on, p, depth);
      && (p.unmapped && ToProxy(p, acc, cfg, ipv6) ==>
            q == p.(destination := k.localhost, port := 58080, local := true) && Passes(k, on, q, depth))
      && (p.unmapped && ToDns(p, acc, cfg, ipv6) ==>
            q == p.(destination := k.localhost, port := 58053, local := true) && Passes(k, on, q, depth))
      && (Bypassed(p, cfg, ipv6) ==> q == p && Passes(k, on, q, depth))
      && (Passes(k, on, q, depth) <==> Allowed(q, acc, cfg, ipv6))
  {
    hide Started, Permitted, CapturedWeb, CapturedDns, CustomBypass, NatDecision, FilterDecision, Without;
    hide Allowed, ToProxy, ToDns, Bypassed, OwnedBy, UnmanagedNat;
    WholePolicy(k, w, acc, cfg, ipv6, p, depth);
    PacketTerms(p, acc, cfg, ipv6);
    var on := ChainsOf(Started(w, acc, cfg), ipv6);
    PacketTerms(Translated(k, on, p, depth), acc, cfg, ipv6);
  }
}
