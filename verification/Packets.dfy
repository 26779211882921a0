/** First-match evaluation of chains with jumps, and what the installed policy does
    to every packet. */
module Packets {
  import opened Options
  import opened Rules
  import opened HookRules
  import opened ForwardingRuns
  import opened Host
  import opened PolicyHistory

  datatype State = New | Established | Related | OtherState

  /** An outgoing packet as the OUTPUT hooks see it. uid is the owner of its socket,
      if it has one. unmapped means that its flow has no address translation yet, so
      the nat table is consulted; otherwise the fields are already translated. */
  datatype Packet = Packet(protocol: Protocol, destination: nat, port: nat, local: bool, loopback: bool,
                           uid: Option<nat>, state: State, reply: bool, unmapped: bool)

  /** What the model leaves open: rules it did not install, and chain policies. */
  datatype Kernel = Kernel(localhost: nat,
                           foreignMatch: (seq<string>, Packet) -> bool,
                           foreignNat: (seq<string>, Packet) -> Option<Packet>,
                           foreignVerdict: (seq<string>, Packet) -> Verdict,
                           acceptsByDefault: bool)

  datatype Verdict = Accepted | Dropped | Through

  // ------------------------------------------------------------------ evaluation

  predicate InNetwork(address: nat, network: Network) {
    network.base <= address < network.base + network.size
  }

  predicate Holds(k: Kernel, m: Match, p: Packet) {
    match m
    case Proto(protocol) => p.protocol == protocol
    case OutLoopback => p.loopback
    case NotOutLoopback => !p.loopback
    case Owner(uid) => p.uid == Some(uid)
    case NotOwner(uid) => p.uid != Some(uid)
    case DestPort(port) => p.port == port
    case Destination(network) => InNetwork(p.destination, network)
    case LocalDestination => p.local
    case ReplyOfEstablished => (p.state == Established || p.state == Related) && p.reply
    case Comment(_) => true
    case ForeignMatch(words) => k.foreignMatch(words, p)
  }

  predicate Matches(k: Kernel, r: Rule, p: Packet) {
    forall i :: 0 <= i < |r.matches| ==> Holds(k, r.matches[i], p)
  }

  /** REDIRECT rewrites the port and sends the packet to this machine. */
  function Redirected(k: Kernel, p: Packet, port: nat): Packet {
    p.(destination := k.localhost, port := port, local := true)
  }

  /** The nat table's decision: the packet as it leaves the first rule that decides,
      or None when it falls through. Jumps deeper than depth are not followed. */
  function NatDecision(k: Kernel, chains: Chains, rules: seq<Rule>, p: Packet, depth: nat): Option<Packet>
    decreases depth, |rules|
  {
    if rules == [] then None
    else if !Matches(k, rules[0], p) then NatDecision(k, chains, rules[1..], p, depth)
    else
      match rules[0].target
      case Accept => Some(p)
      case Redirect(port) => Some(Redirected(k, p, port))
      case Drop => NatDecision(k, chains, rules[1..], p, depth)
      case ForeignTarget(words) =>
        (match k.foreignNat(words, p)
         case Some(q) => Some(q)
         case None => NatDecision(k, chains, rules[1..], p, depth))
      case Jump(name) =>
        var id := ChainId(NatTable, name);
        var inner := if depth > 0 && id in chains then NatDecision(k, chains, chains[id], p, depth - 1) else None;
        if inner.Some? then inner else NatDecision(k, chains, rules[1..], p, depth)
  }

  function FilterDecision(k: Kernel, chains: Chains, rules: seq<Rule>, p: Packet, depth: nat): Verdict
    decreases depth, |rules|
  {
    if rules == [] then Through
    else if !Matches(k, rules[0], p) then FilterDecision(k, chains, rules[1..], p, depth)
    else
      match rules[0].target
      case Accept => Accepted
      case Drop => Dropped
      case Redirect(_) => FilterDecision(k, chains, rules[1..], p, depth)
      case ForeignTarget(words) =>
        var v := k.foreignVerdict(words, p);
        if v == Through then FilterDecision(k, chains, rules[1..], p, depth) else v
      case Jump(name) =>
        var id := ChainId(FilterTable, name);
        var inner := if depth > 0 && id in chains then FilterDecision(k, chains, chains[id], p, depth - 1) else Through;
        if inner == Through then FilterDecision(k, chains, rules[1..], p, depth) else inner
  }

  /** The packet after nat OUTPUT. */
  function Translated(k: Kernel, chains: Chains, p: Packet, depth: nat): Packet
    requires Builtin(chains)
  {
    if !p.unmapped then p
    else
      match NatDecision(k, chains, chains[NAT_OUTPUT], p, depth)
      case Some(q) => q
      case None => p
  }

  /** Whether filter OUTPUT lets the packet go. */
  predicate Passes(k: Kernel, chains: Chains, p: Packet, depth: nat)
    requires Builtin(chains)
  {
    match FilterDecision(k, chains, chains[FILTER_OUTPUT], p, depth)
    case Accepted => true
    case Dropped => false
    case Through => k.acceptsByDefault
  }

  // ------------------------------------------------------------------- the policy

  /** Destination and port are configured for bypass in this family. */
  predicate CustomBypass(cfg: Config, ipv6: bool, p: Packet) {
    p.protocol == Tcp
    && exists i :: 0 <= i < |cfg.customs| && BypassedBy(cfg.customs[i], ipv6, p)
  }

  predicate BypassedBy(c: CustomRule, ipv6: bool, p: Packet) {
    c.ipv6 == ipv6 && InNetwork(p.destination, c.network) && p.port == c.port
  }

  predicate OwnedBy(p: Packet, uids: seq<nat>) {
    p.uid.Some? && p.uid.value in uids
  }

  predicate IsDns(p: Packet) {
    (p.protocol == Udp || p.protocol == Tcp) && p.port == 53
  }

  predicate IsWeb(p: Packet) {
    p.protocol == Tcp && (p.port == 80 || p.port == 443)
  }

  /** One of mitmwall's own listeners on this machine. */
  predicate LocalService(p: Packet) {
    p.local && ((p.protocol == Tcp && p.port in {PROXY_PORT, DNS_PORT, WEB_PORT})
                || (p.protocol == Udp && p.port == DNS_PORT))
  }

  /** The listed exceptions of the fail-closed output policy. */
  predicate Permitted(acc: Accounts, cfg: Config, ipv6: bool, p: Packet) {
    || ((p.state == Established || p.state == Related) && p.reply)
    || OwnedBy(p, cfg.bypass) || OwnedBy(p, [acc.mitmwall, acc.resolver])
    || (OwnedBy(p, acc.ntp) && (IsDns(p) || (p.protocol == Udp && p.port == 123)))
    || (ipv6 && p.protocol == IcmpV6)
    || p.loopback
    || LocalService(p)
    || CustomBypass(cfg, ipv6, p)
  }

  /** Web traffic that must go through the proxy. */
  predicate CapturedWeb(acc: Accounts, cfg: Config, p: Packet) {
    IsWeb(p) && !p.loopback && !OwnedBy(p, [acc.mitmwall] + cfg.bypass)
  }

  /** Name queries that must go through the DNS proxy. */
  predicate CapturedDns(acc: Accounts, cfg: Config, p: Packet) {
    IsDns(p) && !OwnedBy(p, [acc.mitmwall, acc.resolver] + cfg.bypass)
  }

  // -------------------------------------------------------------- nat evaluation

  /** Some rule of the list matches the packet. */
  predicate AnyMatches(k: Kernel, rs: seq<Rule>, p: Packet) {
    exists r :: r in rs && Matches(k, r, p)
  }

  lemma {:induction false} NatAppend(k: Kernel, chains: Chains, a: seq<Rule>, b: seq<Rule>, p: Packet, depth: nat)
    ensures NatDecision(k, chains, a + b, p, depth)
         == (var first := NatDecision(k, chains, a, p, depth);
             if first.Some? then first else NatDecision(k, chains, b, p, depth))
    decreases |a|
  {
    if a == [] {
      assert a + b == b;
    } else {
      assert (a + b)[0] == a[0] && (a + b)[1..] == a[1..] + b;
      NatAppend(k, chains, a[1..], b, p, depth);
    }
  }

  lemma {:induction false} NatAccepting(k: Kernel, chains: Chains, rs: seq<Rule>, p: Packet, depth: nat)
    requires forall r :: r in rs ==> r.target == Accept
    ensures NatDecision(k, chains, rs, p, depth) == if AnyMatches(k, rs, p) then Some(p) else None
    decreases |rs|
  {
    if rs != [] {
      NatAccepting(k, chains, rs[1..], p, depth);
      assert forall r :: r in rs <==> r == rs[0] || r in rs[1..];
    }
  }

  lemma ExclusionsHold(k: Kernel, users: seq<nat>, p: Packet)
    ensures (forall i :: 0 <= i < |users| ==> Holds(k, Exclusions(users)[i], p)) <==> !OwnedBy(p, users)
  {
    if OwnedBy(p, users) {
      var i :| 0 <= i < |users| && users[i] == p.uid.value;
      assert !Holds(k, Exclusions(users)[i], p);
    }
  }

  lemma MatchesJoined(k: Kernel, a: seq<Match>, b: seq<Match>, target: Target, p: Packet)
    ensures Matches(k, Rule(a + b, target), p) <==> Matches(k, Rule(a, target), p) && Matches(k, Rule(b, target), p)
  {
    hide Holds;
    var all := a + b;
    if Matches(k, Rule(all, target), p) {
      forall i | 0 <= i < |a| ensures Holds(k, a[i], p) { assert Holds(k, all[i], p); }
      forall i | 0 <= i < |b| ensures Holds(k, b[i], p) { assert Holds(k, all[|a| + i], p); }
    }
    if Matches(k, Rule(a, target), p) && Matches(k, Rule(b, target), p) {
      forall i | 0 <= i < |all| ensures Holds(k, all[i], p) {
        assert all[i] == if i < |a| then a[i] else b[i - |a|];
      }
    }
  }

  /** The exclusions of a redirect between what comes before and after them. */
  lemma RedirectMatches(k: Kernel, head: seq<Match>, users: seq<nat>, tail: seq<Match>, target: Target, p: Packet)
    ensures Matches(k, Rule(head + Exclusions(users) + tail, target), p)
      <==> Matches(k, Rule(head, target), p) && Matches(k, Rule(tail, target), p) && !OwnedBy(p, users)
  {
    hide OwnedBy;
    MatchesJoined(k, head + Exclusions(users), tail, target, p);
    MatchesJoined(k, head, Exclusions(users), target, p);
    ExclusionsHold(k, users, p);
  }

  lemma TailMatches(k: Kernel, port: nat, target: Target, p: Packet)
    ensures Matches(k, Rule([DestPort(port), Comment([REDIRECT_COMMENT])], target), p) <==> p.port == port
  {
    var ms := [DestPort(port), Comment([REDIRECT_COMMENT])];
    assert Holds(k, ms[1], p) && (Holds(k, ms[0], p) <==> p.port == port);
  }

  lemma WebMatches(k: Kernel, acc: Accounts, port: nat, bypass: seq<nat>, p: Packet)
    ensures Matches(k, WebRedirect(acc, port, bypass), p)
      <==> p.protocol == Tcp && !p.loopback && p.port == port && !OwnedBy(p, [acc.mitmwall] + bypass)
  {
    hide OwnedBy, Exclusions;
    var head, target := [Proto(Tcp), NotOutLoopback], Redirect(PROXY_PORT);
    RedirectMatches(k, head, [acc.mitmwall] + bypass, [DestPort(port), Comment([REDIRECT_COMMENT])], target, p);
    TailMatches(k, port, target, p);
    assert Matches(k, Rule(head, target), p) <==> Holds(k, head[0], p) && Holds(k, head[1], p);
  }

  lemma DnsMatches(k: Kernel, acc: Accounts, protocol: Protocol, bypass: seq<nat>, p: Packet)
    ensures Matches(k, DnsRedirect(acc, protocol, bypass), p)
      <==> p.protocol == protocol && p.port == 53 && !OwnedBy(p, [acc.mitmwall, acc.resolver] + bypass)
  {
    hide OwnedBy, Exclusions;
    var head, target := [Proto(protocol)], Redirect(DNS_PORT);
    var users := [acc.mitmwall, acc.resolver] + bypass;
    RedirectMatches(k, head, users, [DestPort(53), Comment([REDIRECT_COMMENT])], target, p);
    TailMatches(k, 53, target, p);
    assert Matches(k, Rule(head, target), p) <==> Holds(k, head[0], p);
  }

  lemma NatRedirects(k: Kernel, chains: Chains, acc: Accounts, cfg: Config, p: Packet, depth: nat)
    ensures NatDecision(k, chains, RedirectBlock(acc, cfg.bypass), p, depth)
         == if CapturedWeb(acc, cfg, p) then Some(Redirected(k, p, PROXY_PORT))
            else if CapturedDns(acc, cfg, p) then Some(Redirected(k, p, DNS_PORT))
            else None
  {
    hide Matches, WebRedirect, DnsRedirect, NatDecision;
    WebMatches(k, acc, 443, cfg.bypass, p);
    WebMatches(k, acc, 80, cfg.bypass, p);
    DnsMatches(k, acc, Tcp, cfg.bypass, p);
    DnsMatches(k, acc, Udp, cfg.bypass, p);
    RedirectTargets(acc, cfg.bypass);
    var rs := RedirectBlock(acc, cfg.bypass);
    NatOne(k, chains, rs[0], p, depth);
    NatOne(k, chains, rs[1], p, depth);
    NatOne(k, chains, rs[2], p, depth);
    NatOne(k, chains, rs[3], p, depth);
    NatAppend(k, chains, [rs[0]], [rs[1]], p, depth);
    NatAppend(k, chains, [rs[0]] + [rs[1]], [rs[2]], p, depth);
    NatAppend(k, chains, [rs[0]] + [rs[1]] + [rs[2]], [rs[3]], p, depth);
    assert rs == [rs[0]] + [rs[1]] + [rs[2]] + [rs[3]];
  }

  lemma NatOne(k: Kernel, chains: Chains, r: Rule, p: Packet, depth: nat)
    requires r.target.Redirect?
    ensures NatDecision(k, chains, [r], p, depth)
      == if Matches(k, r, p) then Some(Redirected(k, p, r.target.port)) else None
  {
  }

  lemma RedirectTargets(acc: Accounts, bypass: seq<nat>)
    ensures WebRedirect(acc, 443, bypass).target == WebRedirect(acc, 80, bypass).target == Redirect(PROXY_PORT)
    ensures DnsRedirect(acc, Tcp, bypass).target == DnsRedirect(acc, Udp, bypass).target == Redirect(DNS_PORT)
  {
  }

  lemma CustomMatches(k: Kernel, network: Network, port: nat, p: Packet)
    ensures Matches(k, CustomAccept(network, port), p)
      <==> p.protocol == Tcp && InNetwork(p.destination, network) && p.port == port
  {
    var ms := CustomAccept(network, port).matches;
    assert Matches(k, CustomAccept(network, port), p) <==>
      Holds(k, ms[0], p) && Holds(k, ms[1], p) && Holds(k, ms[2], p) && Holds(k, ms[3], p);
  }

  lemma {:induction false} CustomsMatch(k: Kernel, ipv6: bool, rules: seq<CustomRule>, p: Packet)
    ensures AnyMatches(k, CustomAccepts(ipv6, rules), p)
      <==> p.protocol == Tcp && exists i :: 0 <= i < |rules| && BypassedBy(rules[i], ipv6, p)
  {
    hide Matches;
    if rules != [] {
      var init, last := rules[..|rules| - 1], rules[|rules| - 1];
      CustomsMatch(k, ipv6, init, p);
      CustomMatches(k, last.network, last.port, p);
      assert forall i :: 0 <= i < |init| ==> rules[i] == init[i];
      var r := CustomAccept(last.network, last.port);
      assert forall x :: x in CustomAccepts(ipv6, rules) <==>
        x in CustomAccepts(ipv6, init) || (last.ipv6 == ipv6 && x == r);
    }
  }

  lemma NtpMatch(k: Kernel, protocol: Protocol, uid: nat, p: Packet)
    ensures Matches(k, NtpBypass(protocol, uid), p) <==> p.protocol == protocol && p.uid == Some(uid) && p.port == 53
  {
    var ms := NtpBypass(protocol, uid).matches;
    assert Matches(k, NtpBypass(protocol, uid), p) <==> Holds(k, ms[0], p) && Holds(k, ms[1], p) && Holds(k, ms[2], p);
  }

  lemma NtpMatches(k: Kernel, acc: Accounts, p: Packet)
    ensures AnyMatches(k, NtpBypasses(acc), p) <==> OwnedBy(p, acc.ntp) && IsDns(p)
  {
    hide Matches, NtpBypass;
    if OwnedBy(p, acc.ntp) && IsDns(p) {
      NtpMember(acc, p.uid.value);
      NtpMatch(k, p.protocol, p.uid.value, p);
    }
    if AnyMatches(k, NtpBypasses(acc), p) {
      var r :| r in NtpBypasses(acc) && Matches(k, r, p);
      var i :| 0 <= i < |NtpBypasses(acc)| && NtpBypasses(acc)[i] == r;
      var n := |acc.ntp|;
      var protocol, uid := if i < n then Udp else Tcp, acc.ntp[if i < n then i else i - n];
      assert r == NtpBypass(protocol, uid);
      NtpMatch(k, protocol, uid, p);
    }
  }

  lemma RecentMatches(k: Kernel, rs: seq<Rule>, p: Packet)
    ensures AnyMatches(k, Recent(rs), p) <==> AnyMatches(k, rs, p)
  {
    hide Matches;
    forall r ensures r in Recent(rs) <==> r in rs {
      RecentIn(rs, r);
    }
  }

  /** What the managed head of nat OUTPUT decides for a packet. */
  lemma NatHeadDecides(k: Kernel, chains: Chains, acc: Accounts, cfg: Config, ipv6: bool, p: Packet, depth: nat)
    ensures NatDecision(k, chains, NatHead(acc, cfg, ipv6), p, depth)
         == if CustomBypass(cfg, ipv6, p) || (OwnedBy(p, acc.ntp) && IsDns(p)) then Some(p)
            else if CapturedWeb(acc, cfg, p) then Some(Redirected(k, p, PROXY_PORT))
            else if CapturedDns(acc, cfg, p) then Some(Redirected(k, p, DNS_PORT))
            else None
  {
    hide NatDecision, Recent, CustomAccepts, NtpBypasses, RedirectBlock, AnyMatches, CapturedWeb, CapturedDns, OwnedBy;
    var customs, ntps := CustomAccepts(ipv6, cfg.customs), NtpBypasses(acc);
    CustomTags(ipv6, cfg.customs);
    NtpTags(acc);
    forall r | r in Recent(customs) ensures r.target == Accept { RecentIn(customs, r); }
    forall r | r in Recent(ntps) ensures r.target == Accept { RecentIn(ntps, r); }
    NatAccepting(k, chains, Recent(customs), p, depth);
    RecentMatches(k, customs, p);
    CustomsMatch(k, ipv6, cfg.customs, p);
    NatAccepting(k, chains, Recent(ntps), p, depth);
    RecentMatches(k, ntps, p);
    NtpMatches(k, acc, p);
    NatRedirects(k, chains, acc, cfg, p, depth);
    NatAppend(k, chains, Recent(ntps), RedirectBlock(acc, cfg.bypass), p, depth);
    NatAppend(k, chains, Recent(customs), Recent(ntps) + RedirectBlock(acc, cfg.bypass), p, depth);
  }

  // ----------------------------------------------------------- filter evaluation

  /** Rules that all accept, in front of the final DROP, decide every packet. */
  lemma {:induction false} AcceptsThenDrop(k: Kernel, chains: Chains, rs: seq<Rule>, p: Packet, depth: nat)
    requires forall r :: r in rs ==> r.target == Accept
    ensures FilterDecision(k, chains, rs + [DROP_ALL], p, depth) == if AnyMatches(k, rs, p) then Accepted else Dropped
    decreases |rs|
  {
    var all := rs + [DROP_ALL];
    if rs == [] {
      assert all == [DROP_ALL] && Matches(k, DROP_ALL, p);
    } else {
      assert all[0] == rs[0] && all[1..] == rs[1..] + [DROP_ALL];
      AcceptsThenDrop(k, chains, rs[1..], p, depth);
      assert forall r :: r in rs <==> r == rs[0] || r in rs[1..];
    }
  }

  lemma AnyMatchesAppend(k: Kernel, a: seq<Rule>, b: seq<Rule>, p: Packet)
    ensures AnyMatches(k, a + b, p) <==> AnyMatches(k, a, p) || AnyMatches(k, b, p)
  {
  }

  lemma OneMatches(k: Kernel, r: Rule, p: Packet)
    ensures AnyMatches(k, [r], p) <==> Matches(k, r, p)
  {
  }

  lemma OwnerMatches(k: Kernel, uid: nat, p: Packet)
    ensures Matches(k, AcceptOwner(uid), p) <==> p.uid == Some(uid)
  {
    assert Matches(k, AcceptOwner(uid), p) <==> Holds(k, AcceptOwner(uid).matches[0], p);
  }

  lemma OwnersMatch(k: Kernel, uids: seq<nat>, p: Packet)
    ensures AnyMatches(k, AcceptOwners(uids), p) <==> OwnedBy(p, uids)
  {
    hide Matches;
    forall uid: nat ensures Matches(k, AcceptOwner(uid), p) <==> p.uid == Some(uid) {
      OwnerMatches(k, uid, p);
    }
    if OwnedBy(p, uids) {
      var i :| 0 <= i < |uids| && uids[i] == p.uid.value;
      assert AcceptOwners(uids)[i] == AcceptOwner(uids[i]);
    }
    if AnyMatches(k, AcceptOwners(uids), p) {
      var r :| r in AcceptOwners(uids) && Matches(k, r, p);
      var i :| 0 <= i < |uids| && AcceptOwners(uids)[i] == r;
    }
  }

  lemma ServiceMatches(k: Kernel, protocol: Protocol, port: nat, uid: nat, p: Packet)
    ensures Matches(k, AcceptService(protocol, port, uid), p)
      <==> p.protocol == protocol && p.port == port && p.uid == Some(uid)
  {
    var ms := AcceptService(protocol, port, uid).matches;
    assert Matches(k, AcceptService(protocol, port, uid), p)
      <==> Holds(k, ms[0], p) && Holds(k, ms[1], p) && Holds(k, ms[2], p);
  }

  lemma NtpAcceptsMatch(k: Kernel, uid: nat, p: Packet)
    ensures AnyMatches(k, NtpAccepts(uid), p)
      <==> p.uid == Some(uid) && (IsDns(p) || (p.protocol == Udp && p.port == 123))
  {
    hide Matches, AcceptService;
    ServiceMatches(k, Udp, 123, uid, p);
    ServiceMatches(k, Udp, 53, uid, p);
    ServiceMatches(k, Tcp, 53, uid, p);
    var rs := NtpAccepts(uid);
    assert AnyMatches(k, rs, p) <==> Matches(k, rs[0], p) || Matches(k, rs[1], p) || Matches(k, rs[2], p);
  }

  lemma {:induction false} AllNtpAcceptsMatch(k: Kernel, uids: seq<nat>, p: Packet)
    ensures AnyMatches(k, AllNtpAccepts(uids), p)
      <==> OwnedBy(p, uids) && (IsDns(p) || (p.protocol == Udp && p.port == 123))
  {
    hide Matches, NtpAccepts, AnyMatches, IsDns;
    if uids == [] {
      NoneMatch(k, p);
    } else {
      var init, last := uids[..|uids| - 1], uids[|uids| - 1];
      AllNtpAcceptsMatch(k, init, p);
      NtpAcceptsMatch(k, last, p);
      AnyMatchesAppend(k, AllNtpAccepts(init), NtpAccepts(last), p);
      assert uids == init + [last];
    }
  }

  lemma NoneMatch(k: Kernel, p: Packet)
    ensures !AnyMatches(k, [], p)
  {
  }

  lemma LocalMatches(k: Kernel, protocol: Protocol, port: nat, p: Packet)
    ensures Matches(k, AcceptLocal(protocol, port), p) <==> p.protocol == protocol && p.port == port && p.local
  {
    var ms := AcceptLocal(protocol, port).matches;
    assert Matches(k, AcceptLocal(protocol, port), p)
      <==> Holds(k, ms[0], p) && Holds(k, ms[1], p) && Holds(k, ms[2], p);
  }

  lemma SimpleMatches(k: Kernel, p: Packet)
    ensures Matches(k, ACCEPT_REPLIES, p) <==> (p.state == Established || p.state == Related) && p.reply
    ensures Matches(k, ACCEPT_ICMPV6, p) <==> p.protocol == IcmpV6
    ensures Matches(k, ACCEPT_LOOPBACK, p) <==> p.loopback
  {
    assert Matches(k, ACCEPT_REPLIES, p) <==> Holds(k, ACCEPT_REPLIES.matches[0], p);
    assert Matches(k, ACCEPT_ICMPV6, p) <==> Holds(k, ACCEPT_ICMPV6.matches[0], p);
    assert Matches(k, ACCEPT_LOOPBACK, p) <==> Holds(k, ACCEPT_LOOPBACK.matches[0], p);
  }

  lemma LocalAcceptsMatch(k: Kernel, p: Packet)
    ensures AnyMatches(k, LocalAccepts(), p) <==> p.loopback || LocalService(p)
  {
    hide Matches, AcceptLocal;
    SimpleMatches(k, p);
    LocalMatches(k, Tcp, PROXY_PORT, p);
    LocalMatches(k, Udp, DNS_PORT, p);
    LocalMatches(k, Tcp, DNS_PORT, p);
    LocalMatches(k, Tcp, WEB_PORT, p);
    var rs := LocalAccepts();
    assert AnyMatches(k, rs, p) <==> (exists i :: 0 <= i < 5 && Matches(k, rs[i], p));
  }

  /** The accepting part of the managed chain matches exactly the exceptions. */
  lemma ManagedMatches(k: Kernel, acc: Accounts, cfg: Config, ipv6: bool, p: Packet)
    ensures AnyMatches(k, Accepts(acc, cfg.bypass, ipv6) + CustomAccepts(ipv6, cfg.customs), p)
      <==> Permitted(acc, cfg, ipv6, p)
  {
    hide Matches, AnyMatches, AcceptOwners, AllNtpAccepts, LocalAccepts, AcceptOwner, CustomAccepts, IsDns;
    var icmp := if ipv6 then [ACCEPT_ICMPV6] else [];
    var owners := AcceptOwners(cfg.bypass + [acc.mitmwall]);
    SimpleMatches(k, p);
    OneMatches(k, ACCEPT_REPLIES, p);
    OneMatches(k, ACCEPT_ICMPV6, p);
    NoneMatch(k, p);
    OwnersMatch(k, cfg.bypass + [acc.mitmwall], p);
    OwnerMatches(k, acc.resolver, p);
    OneMatches(k, AcceptOwner(acc.resolver), p);
    AllNtpAcceptsMatch(k, acc.ntp, p);
    LocalAcceptsMatch(k, p);
    CustomsMatch(k, ipv6, cfg.customs, p);
    var s1 := [ACCEPT_REPLIES] + owners;
    var s2 := s1 + [AcceptOwner(acc.resolver)];
    var s3 := s2 + AllNtpAccepts(acc.ntp);
    var s4 := s3 + icmp;
    AnyMatchesAppend(k, [ACCEPT_REPLIES], owners, p);
    AnyMatchesAppend(k, s1, [AcceptOwner(acc.resolver)], p);
    AnyMatchesAppend(k, s2, AllNtpAccepts(acc.ntp), p);
    AnyMatchesAppend(k, s3, icmp, p);
    AnyMatchesAppend(k, s4, LocalAccepts(), p);
    AnyMatchesAppend(k, s4 + LocalAccepts(), CustomAccepts(ipv6, cfg.customs), p);
  }

  // -------------------------------------------------------------------- theorems

  lemma ManagedTargets(acc: Accounts, cfg: Config, ipv6: bool)
    ensures forall r :: r in Accepts(acc, cfg.bypass, ipv6) + CustomAccepts(ipv6, cfg.customs) ==> r.target == Accept
  {
    hide Accepts, CustomAccepts;
    AcceptsPlain(acc, cfg.bypass, ipv6);
    CustomTags(ipv6, cfg.customs);
  }

  /** The filter table after a start lets a packet go exactly when it is one of the
      exceptions, whatever other rules and policies the table holds. */
  lemma FailClosed(k: Kernel, chains: Chains, ipv6: bool, acc: Accounts, cfg: Config, guarded: bool,
                   p: Packet, depth: nat)
    requires Builtin(chains) && depth > 0
    ensures var on := Installed(chains, ipv6, acc, cfg, guarded);
      Builtin(on) && (Passes(k, on, p, depth) <==> Permitted(acc, cfg, ipv6, p))
  {
    hide Installed, NatHead, NatManaged, Without, Accepts, CustomAccepts, Permitted, AnyMatches;
    InstalledIsForm(chains, ipv6, acc, cfg, guarded);
    var on := Installed(chains, ipv6, acc, cfg, guarded);
    var accepts := Accepts(acc, cfg.bypass, ipv6) + CustomAccepts(ipv6, cfg.customs);
    assert on[MANAGED] == accepts + [DROP_ALL] && on[FILTER_OUTPUT][0] == JUMP;
    ManagedTargets(acc, cfg, ipv6);
    AcceptsThenDrop(k, on, accepts, p, depth - 1);
    ManagedMatches(k, acc, cfg, ipv6, p);
    assert Matches(k, JUMP, p);
    assert FilterDecision(k, on, on[FILTER_OUTPUT], p, depth) == FilterDecision(k, on, on[MANAGED], p, depth - 1);
  }

  /** What nat OUTPUT makes of a packet of a new flow after a start. Only packets that
      no managed rule decides reach the rules mitmwall does not manage. */
  lemma NatDecides(k: Kernel, chains: Chains, ipv6: bool, acc: Accounts, cfg: Config, guarded: bool,
                   p: Packet, depth: nat)
    requires Builtin(chains) && p.unmapped
    ensures var on := Installed(chains, ipv6, acc, cfg, guarded);
      Builtin(on) && Translated(k, on, p, depth)
        == if CustomBypass(cfg, ipv6, p) || (OwnedBy(p, acc.ntp) && IsDns(p)) then p
           else if CapturedWeb(acc, cfg, p) then Redirected(k, p, PROXY_PORT)
           else if CapturedDns(acc, cfg, p) then Redirected(k, p, DNS_PORT)
           else (match NatDecision(k, on, Without(chains[NAT_OUTPUT], NatManaged(acc)), p, depth)
                 case Some(q) => q
                 case None => p)
  {
    hide Installed, NatHead, NatManaged, Without, NatDecision, CapturedWeb, CapturedDns, OwnedBy, CustomBypass;
    hide Rules.EnsureFirst, ManagedFilter;
    InstalledIsForm(chains, ipv6, acc, cfg, guarded);
    var on := Installed(chains, ipv6, acc, cfg, guarded);
    NatHeadDecides(k, on, acc, cfg, ipv6, p, depth);
    NatAppend(k, on, NatHead(acc, cfg, ipv6), Without(chains[NAT_OUTPUT], NatManaged(acc)), p, depth);
  }

  /** The rules of nat OUTPUT mitmwall does not manage, as a start leaves them. */
  function UnmanagedNat(w: World, ipv6: bool, acc: Accounts): seq<Rule>
    requires Proper(w)
  {
    Without(WithoutLegacy(ChainsOf(w, ipv6), acc)[NAT_OUTPUT], NatManaged(acc))
  }

  /** The whole policy, for every packet, every earlier content of the tables and
      every rule mitmwall did not install: captured web and DNS traffic of a new flow
      goes to the proxies and is let through; configured bypasses are neither
      redirected nor dropped, whoever sends them; nothing else is let through unless it
      is one of the exceptions after translation. */
  lemma WholePolicy(k: Kernel, w: World, acc: Accounts, cfg: Config, ipv6: bool, p: Packet, depth: nat)
    requires Proper(w) && depth > 0
    ensures
      var on := ChainsOf(Started(w, acc, cfg), ipv6);
      Builtin(on) &&
      var q := Translated(k, on, p, depth);
      && (p.unmapped && CapturedWeb(acc, cfg, p) && !CustomBypass(cfg, ipv6, p) ==>
            q == Redirected(k, p, PROXY_PORT) && Passes(k, on, q, depth))
      && (p.unmapped && CapturedDns(acc, cfg, p) && !CustomBypass(cfg, ipv6, p) && !OwnedBy(p, acc.ntp) ==>
            q == Redirected(k, p, DNS_PORT) && Passes(k, on, q, depth))
      && (CustomBypass(cfg, ipv6, p) ==> q == p && Passes(k, on, q, depth))
      && (Passes(k, on, q, depth) <==> Permitted(acc, cfg, ipv6, q))
      && (!(p.unmapped && (CapturedWeb(acc, cfg, p) || CapturedDns(acc, cfg, p)))
            && NatDecision(k, on, UnmanagedNat(w, ipv6, acc), p, depth) == None ==>
            q == p && (Passes(k, on, q, depth) <==> Permitted(acc, cfg, ipv6, p)))
  {
    hide Installed, Permitted, CapturedWeb, CapturedDns, CustomBypass, WithoutLegacy, NatManaged;
    hide NatDecision, FilterDecision, Without;
    var chains := WithoutLegacy(ChainsOf(w, ipv6), acc);
    MigrationBuiltin(ChainsOf(w, ipv6), acc);
    var guarded := if ipv6 then Saved(w).ipv6Forwarding == 0 else Saved(w).ipv4Forwarding == 0;
    var on := ChainsOf(Started(w, acc, cfg), ipv6);
    assert on == Installed(chains, ipv6, acc, cfg, guarded);
    FailClosed(k, chains, ipv6, acc, cfg, guarded, p, depth);
    var q := Translated(k, on, p, depth);
    FailClosed(k, chains, ipv6, acc, cfg, guarded, q, depth);
    if p.unmapped {
      NatDecides(k, chains, ipv6, acc, cfg, guarded, p, depth);
    }
    CapturedArePermitted(k, acc, cfg, ipv6, p);
  }

  lemma CapturedArePermitted(k: Kernel, acc: Accounts, cfg: Config, ipv6: bool, p: Packet)
    ensures CapturedWeb(acc, cfg, p) ==> Permitted(acc, cfg, ipv6, Redirected(k, p, PROXY_PORT)) && !IsDns(p)
    ensures CapturedDns(acc, cfg, p)
      ==> Permitted(acc, cfg, ipv6, Redirected(k, p, DNS_PORT)) && !CapturedWeb(acc, cfg, p)
    ensures CustomBypass(cfg, ipv6, p) ==> Permitted(acc, cfg, ipv6, p)
  {
  }

  /** No way around the proxies: a packet that a start lets leave this machine is a
      reply, comes from a privileged account, is time synchronisation traffic of its
      own service user, is ICMPv6, or goes to a configured bypass. */
  lemma NoEgress(k: Kernel, w: World, acc: Accounts, cfg: Config, ipv6: bool, p: Packet, depth: nat)
    requires Proper(w) && depth > 0
    ensures
      var on := ChainsOf(Started(w, acc, cfg), ipv6);
      Builtin(on) &&
      var q := Translated(k, on, p, depth);
      Passes(k, on, q, depth) && !q.local && !q.loopback ==>
        || ((q.state == Established || q.state == Related) && q.reply)
        || OwnedBy(q, cfg.bypass) || OwnedBy(q, [acc.mitmwall, acc.resolver])
        || (OwnedBy(q, acc.ntp) && (IsDns(q) || (q.protocol == Udp && q.port == 123)))
        || (ipv6 && q.protocol == IcmpV6)
        || CustomBypass(cfg, ipv6, q)
  {
    hide Started, NatDecision, FilterDecision, Without;
    WholePolicy(k, w, acc, cfg, ipv6, p, depth);
  }

  /** While transit that mitmwall opened is protected, every packet to be forwarded is
      dropped, whatever other rules FORWARD holds. */
  lemma TransitDropped(k: Kernel, s: Observed, ipv6: bool, chains: Chains, p: Packet, depth: nat)
    requires Protected(s) && Exposed(s, ipv6)
    requires FORWARD in chains && GuardOf(s, ipv6) == GuardIn(chains[FORWARD])
    ensures FilterDecision(k, chains, chains[FORWARD], p, depth) == Dropped
  {
    assert chains[FORWARD][0] == GUARD;
    assert forall i :: 0 <= i < |GUARD.matches| ==> Holds(k, GUARD.matches[i], p);
  }
}
