/** The rules the hook installs, and the effect of each of its programs on the
    chains of one address family. */
module HookRules {
  import opened Rules
  import opened Firewall

  const PROXY_PORT: nat := 58080
  const DNS_PORT: nat := 58053
  const WEB_PORT: nat := 58081
  const CHAIN := "MITMWALL_OUTPUT"
  const COMMENT := "mitmwall-custom"
  const REDIRECT_COMMENT := "mitmwall-redirect"
  const FORWARD_GUARD_COMMENT := "mitmwall-forwarding-guard"

  const NAT_OUTPUT := ChainId(NatTable, "OUTPUT")
  const FILTER_OUTPUT := ChainId(FilterTable, "OUTPUT")
  const FORWARD := ChainId(FilterTable, "FORWARD")
  const MANAGED := ChainId(FilterTable, CHAIN)

  const ROOT: nat := 0

  /** Numbers of the accounts the rules mention. ntp lists the installed time
      synchronisation users in the order the hook looks them up. */
  datatype Accounts = Accounts(mitmwall: nat, resolver: nat, apt: nat, ntp: seq<nat>)

  datatype CustomRule = CustomRule(ipv6: bool, network: Network, port: nat)

  datatype Config = Config(customs: seq<CustomRule>, bypass: seq<nat>)

  // -------------------------------------------------------------- rule builders

  const GUARD := Rule([Comment([FORWARD_GUARD_COMMENT])], Drop)
  const JUMP := Rule([], Jump(CHAIN))

  function Exclusions(users: seq<nat>): seq<Match> {
    seq(|users|, i requires 0 <= i < |users| => NotOwner(users[i]))
  }

  function WebRedirect(acc: Accounts, port: nat, bypass: seq<nat>): Rule {
    Rule([Proto(Tcp), NotOutLoopback] + Exclusions([acc.mitmwall] + bypass)
         + [DestPort(port), Comment([REDIRECT_COMMENT])], Redirect(PROXY_PORT))
  }

  function DnsRedirect(acc: Accounts, protocol: Protocol, bypass: seq<nat>): Rule {
    Rule([Proto(protocol)] + Exclusions([acc.mitmwall, acc.resolver] + bypass)
         + [DestPort(53), Comment([REDIRECT_COMMENT])], Redirect(DNS_PORT))
  }

  function NtpBypass(protocol: Protocol, uid: nat): Rule {
    Rule([Proto(protocol), Owner(uid), DestPort(53)], Accept)
  }

  /** The custom bypass has the same arguments in both tables. */
  function CustomAccept(network: Network, port: nat): Rule {
    Rule([Proto(Tcp), Destination(network), DestPort(port), Comment([COMMENT])], Accept)
  }

  /** An untagged redirect of an older release. */
  function LegacyRedirect(protocol: Protocol, port: nat, target: nat, excluded: seq<nat>, excludeLoopback: bool): Rule {
    Rule([Proto(protocol)] + (if excludeLoopback then [NotOutLoopback] else []) + Exclusions(excluded)
         + [DestPort(port)], Redirect(target))
  }

  function LegacyWeb(acc: Accounts, port: nat): (rs: seq<Rule>)
    ensures |rs| == 4
  {
    [LegacyRedirect(Tcp, port, PROXY_PORT, [acc.mitmwall], false),
     LegacyRedirect(Tcp, port, PROXY_PORT, [acc.mitmwall], true),
     LegacyRedirect(Tcp, port, PROXY_PORT, [ROOT, acc.mitmwall], true),
     LegacyRedirect(Tcp, port, PROXY_PORT, [ROOT, acc.mitmwall, acc.apt], true)]
  }

  function LegacyDns(acc: Accounts, protocol: Protocol): (rs: seq<Rule>)
    ensures |rs| == 2
  {
    [LegacyRedirect(protocol, 53, DNS_PORT, [ROOT, acc.mitmwall, acc.resolver], false),
     LegacyRedirect(protocol, 53, DNS_PORT, [ROOT, acc.mitmwall, acc.resolver, acc.apt], false)]
  }

  /** The twelve historical signatures. */
  function Legacy(acc: Accounts): (rs: seq<Rule>)
    ensures |rs| == 12
  {
    LegacyWeb(acc, 80) + LegacyWeb(acc, 443) + LegacyDns(acc, Udp) + LegacyDns(acc, Tcp)
  }

  function Redirects(acc: Accounts, bypass: seq<nat>): seq<Rule> {
    [DnsRedirect(acc, Udp, bypass), DnsRedirect(acc, Tcp, bypass),
     WebRedirect(acc, 80, bypass), WebRedirect(acc, 443, bypass)]
  }

  function NtpBypassesOf(protocol: Protocol, uids: seq<nat>): seq<Rule> {
    seq(|uids|, i requires 0 <= i < |uids| => NtpBypass(protocol, uids[i]))
  }

  function NtpBypasses(acc: Accounts): seq<Rule> {
    NtpBypassesOf(Udp, acc.ntp) + NtpBypassesOf(Tcp, acc.ntp)
  }

  // ------------------------------------------------------- the managed filter chain

  const ACCEPT_REPLIES := Rule([ReplyOfEstablished], Accept)
  const ACCEPT_ICMPV6 := Rule([Proto(IcmpV6)], Accept)
  const ACCEPT_LOOPBACK := Rule([OutLoopback], Accept)
  const DROP_ALL := Rule([], Drop)

  function AcceptOwner(uid: nat): Rule {
    Rule([Owner(uid)], Accept)
  }

  function AcceptOwners(uids: seq<nat>): seq<Rule> {
    seq(|uids|, i requires 0 <= i < |uids| => AcceptOwner(uids[i]))
  }

  function AcceptLocal(protocol: Protocol, port: nat): Rule {
    Rule([Proto(protocol), DestPort(port), LocalDestination], Accept)
  }

  function AcceptService(protocol: Protocol, port: nat, uid: nat): Rule {
    Rule([Proto(protocol), DestPort(port), Owner(uid)], Accept)
  }

  function NtpAccepts(uid: nat): seq<Rule> {
    [AcceptService(Udp, 123, uid), AcceptService(Udp, 53, uid), AcceptService(Tcp, 53, uid)]
  }

  function AllNtpAccepts(uids: seq<nat>): seq<Rule> {
    if uids == [] then [] else AllNtpAccepts(uids[..|uids| - 1]) + NtpAccepts(uids[|uids| - 1])
  }

  function LocalAccepts(): seq<Rule> {
    [ACCEPT_LOOPBACK, AcceptLocal(Tcp, PROXY_PORT), AcceptLocal(Udp, DNS_PORT), AcceptLocal(Tcp, DNS_PORT),
     AcceptLocal(Tcp, WEB_PORT)]
  }

  /** Everything the managed chain accepts before custom rules are added. */
  function Accepts(acc: Accounts, bypass: seq<nat>, ipv6: bool): seq<Rule> {
    [ACCEPT_REPLIES] + AcceptOwners(bypass + [acc.mitmwall]) + [AcceptOwner(acc.resolver)] + AllNtpAccepts(acc.ntp)
    + (if ipv6 then [ACCEPT_ICMPV6] else [])
    + LocalAccepts()
  }

  /** The position of the first rule with target DROP, or the length without one. */
  function FirstDrop(c: seq<Rule>): (i: nat)
    ensures i <= |c| && (i < |c| ==> c[i].target == Drop)
    ensures forall j :: 0 <= j < i ==> c[j].target != Drop
  {
    if c == [] || c[0].target == Drop then 0 else 1 + FirstDrop(c[1..])
  }

  function InsertedBeforeDrop(c: seq<Rule>, r: Rule): seq<Rule> {
    c[..FirstDrop(c)] + [r] + c[FirstDrop(c)..]
  }

  // ------------------------------------------------- effects on one family's chains

  /** The chains the kernel always has. */
  predicate Builtin(chains: Chains) {
    NAT_OUTPUT in chains && FILTER_OUTPUT in chains && FORWARD in chains
  }

  function WithOutputFilter(chains: Chains, acc: Accounts, bypass: seq<nat>, ipv6: bool): Chains {
    MovingFirst(chains[MANAGED := Accepts(acc, bypass, ipv6) + [DROP_ALL]], FILTER_OUTPUT, JUMP)
  }

  function WithoutOutputFilter(chains: Chains): Chains {
    if MANAGED in chains then Deleting(chains, FILTER_OUTPUT, Exactly(JUMP))[MANAGED := []] else chains
  }

  function WithFilterAccept(chains: Chains, network: Network, port: nat): Chains {
    if MANAGED in chains then chains[MANAGED := InsertedBeforeDrop(chains[MANAGED], CustomAccept(network, port))]
    else chains
  }

  function WithCustom(chains: Chains, network: Network, port: nat): Chains {
    WithFilterAccept(MovingFirst(chains, NAT_OUTPUT, CustomAccept(network, port)), network, port)
  }

  function WithCustoms(chains: Chains, ipv6: bool, rules: seq<CustomRule>): Chains {
    if rules == [] then chains
    else
      var last := rules[|rules| - 1];
      var before := WithCustoms(chains, ipv6, rules[..|rules| - 1]);
      if last.ipv6 == ipv6 then WithCustom(before, last.network, last.port) else before
  }

  function WithoutCustoms(chains: Chains): Chains {
    Deleting(Deleting(chains, MANAGED, Carrying(COMMENT)), NAT_OUTPUT, Carrying(COMMENT))
  }

  function WithGuard(chains: Chains, guarded: bool): Chains {
    if guarded then MovingFirst(chains, FORWARD, GUARD) else chains
  }

  function WithoutGuard(chains: Chains, guarded: bool): Chains {
    if guarded then Deleting(chains, FORWARD, Exactly(GUARD)) else chains
  }

  function WithoutRedirects(chains: Chains): Chains {
    Deleting(chains, NAT_OUTPUT, Carrying(REDIRECT_COMMENT))
  }

  function WithoutLegacy(chains: Chains, acc: Accounts): Chains {
    Deleting(chains, NAT_OUTPUT, AnyOf(Legacy(acc)))
  }

  /** The rule-installing programs in one family, in their order. */
  function WithPolicy(chains: Chains, ipv6: bool, acc: Accounts, cfg: Config): Chains {
    var redirected := MovingEachFirst(chains, NAT_OUTPUT, Redirects(acc, cfg.bypass));
    var bypassed := MovingEachFirst(redirected, NAT_OUTPUT, NtpBypasses(acc));
    WithCustoms(WithoutCustoms(WithOutputFilter(bypassed, acc, cfg.bypass, ipv6)), ipv6, cfg.customs)
  }

  /** Installing the whole policy in one family. */
  function Installed(chains: Chains, ipv6: bool, acc: Accounts, cfg: Config, guarded: bool): Chains {
    WithPolicy(WithGuard(WithoutRedirects(chains), guarded), ipv6, acc, cfg)
  }

  /** Removing the whole policy from one family, in the order of the program. */
  function Cleared(chains: Chains, acc: Accounts): Chains {
    var untagged := WithoutCustoms(WithoutLegacy(WithoutRedirects(chains), acc));
    WithoutOutputFilter(Deleting(untagged, NAT_OUTPUT, AnyOf(NtpBypasses(acc))))
  }
}
