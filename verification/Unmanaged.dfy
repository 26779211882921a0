/** What mitmwall leaves alone in the chains of one address family, and what each of
    the hook's commands means for it. */
module Unmanaged {
  import opened Rules
  import opened Firewall
  import opened HookRules

  /** Everything stop deletes from nat OUTPUT, in its order. */
  function Managed(acc: Accounts): Criterion {
    Either(Either(Either(Carrying(REDIRECT_COMMENT), AnyOf(Legacy(acc))), Carrying(COMMENT)), AnyOf(NtpBypasses(acc)))
  }

  const HANDLED := {NAT_OUTPUT, FILTER_OUTPUT, FORWARD, MANAGED}

  datatype Remainder = Remainder(natRules: seq<Rule>, filterRules: seq<Rule>, forwardRules: seq<Rule>, others: Chains)

  /** All that is not mitmwall's. Without a guard in this family that is the whole of
      FORWARD. */
  function Remains(c: Chains, acc: Accounts, guarded: bool): Remainder
    requires Builtin(c)
  {
    Remainder(Without(c[NAT_OUTPUT], Managed(acc)), Without(c[FILTER_OUTPUT], Exactly(JUMP)),
              if guarded then Without(c[FORWARD], Exactly(GUARD)) else c[FORWARD], c - HANDLED)
  }

  /** The chains agree in everything but managed rules. */
  predicate SameUnmanaged(c: Chains, d: Chains, acc: Accounts, guarded: bool) {
    Builtin(c) && Builtin(d) && Remains(c, acc, guarded) == Remains(d, acc, guarded)
  }

  /** A jump to the managed chain presupposes the chain. */
  predicate JumpLeads(c: Chains)
    requires Builtin(c)
  {
    JUMP in c[FILTER_OUTPUT] ==> MANAGED in c
  }

  /** What every single command of the hook's programs keeps. */
  predicate Unharmed(c: Chains, d: Chains, acc: Accounts, guarded: bool) {
    && SameUnmanaged(c, d, acc, guarded)
    && (JumpLeads(c) ==> JumpLeads(d))
    && (MANAGED in c ==> MANAGED in d)
  }

  lemma UnharmedItself(c: Chains, acc: Accounts, guarded: bool)
    requires Builtin(c)
    ensures Unharmed(c, c, acc, guarded)
  {
  }

  lemma UnharmedBuiltin(c: Chains, d: Chains, acc: Accounts, guarded: bool)
    requires Unharmed(c, d, acc, guarded)
    ensures Builtin(c) && Builtin(d)
  {
    hide Remains, JumpLeads;
  }

  lemma UnharmedThen(c: Chains, d: Chains, e: Chains, acc: Accounts, guarded: bool)
    requires Unharmed(c, d, acc, guarded) && Unharmed(d, e, acc, guarded)
    ensures Unharmed(c, e, acc, guarded)
  {
    hide Remains, JumpLeads;
  }

  /** FORWARD as a whole is more than FORWARD without the guard. */
  lemma UnharmedEither(c: Chains, d: Chains, acc: Accounts, guarded: bool)
    requires Unharmed(c, d, acc, false)
    ensures Unharmed(c, d, acc, guarded) && d[FORWARD] == c[FORWARD]
  {
    hide Without, Managed, JumpLeads;
    assert Remains(c, acc, false).forwardRules == Remains(d, acc, false).forwardRules;
  }

  // ------------------------------------------------------- commands on a single chain

  /** Deleting some of what a wider criterion selects. */
  lemma WithoutNarrower(c: seq<Rule>, k: Criterion, wider: Criterion)
    requires forall r :: Selects(k, r) ==> Selects(wider, r)
    ensures Without(Without(c, k), wider) == Without(c, wider)
  {
    WithoutTwice(c, k, wider);
    WithoutSame(c, Either(k, wider), wider);
  }

  /** Commands on nat OUTPUT that concern managed rules only. */
  lemma NatTouched(c: Chains, d: Chains, k: Criterion, acc: Accounts)
    requires Builtin(c) && Touched(c, d, NAT_OUTPUT, k)
    requires forall r :: Selects(k, r) ==> Selects(Managed(acc), r)
    ensures Unharmed(c, d, acc, false)
  {
    hide Without, Managed, Selects;
    WithoutNarrower(c[NAT_OUTPUT], k, Managed(acc));
    WithoutNarrower(d[NAT_OUTPUT], k, Managed(acc));
    assert c - HANDLED == d - HANDLED;
  }

  /** Commands on filter OUTPUT that concern the jump only, while its target exists. */
  lemma FilterTouched(c: Chains, d: Chains, acc: Accounts)
    requires Builtin(c) && MANAGED in c && Touched(c, d, FILTER_OUTPUT, Exactly(JUMP))
    ensures Unharmed(c, d, acc, false) && MANAGED in d
  {
    hide Without, Managed, Selects;
    assert c - HANDLED == d - HANDLED;
  }

  /** Everything but the managed chain. */
  function Others(c: Chains): Chains {
    c - {MANAGED}
  }

  /** Commands on the managed chain, whatever they concern. */
  lemma ManagedTouched(c: Chains, d: Chains, acc: Accounts)
    requires Builtin(c) && Others(d) == Others(c) && (MANAGED in c ==> MANAGED in d)
    ensures Unharmed(c, d, acc, false)
  {
    hide Without, Managed, Selects;
    assert NAT_OUTPUT in Others(c) && FILTER_OUTPUT in Others(c) && FORWARD in Others(c);
    assert c[NAT_OUTPUT] == Others(c)[NAT_OUTPUT] && c[FILTER_OUTPUT] == Others(c)[FILTER_OUTPUT]
        && c[FORWARD] == Others(c)[FORWARD];
    assert d[NAT_OUTPUT] == Others(d)[NAT_OUTPUT] && d[FILTER_OUTPUT] == Others(d)[FILTER_OUTPUT]
        && d[FORWARD] == Others(d)[FORWARD];
    assert c - HANDLED == Others(c) - HANDLED == Others(d) - HANDLED == d - HANDLED;
  }

  lemma OthersTouched(c: Chains, d: Chains, k: Criterion)
    requires Touched(c, d, MANAGED, k)
    ensures Others(d) == Others(c) && (MANAGED in c <==> MANAGED in d)
  {
    hide Without;
  }

  /** Commands on FORWARD that concern the guard only. */
  lemma GuardTouched(c: Chains, d: Chains, acc: Accounts)
    requires Builtin(c) && Touched(c, d, FORWARD, Exactly(GUARD))
    ensures Unharmed(c, d, acc, true)
  {
    hide Without, Managed, Selects;
    assert c - HANDLED == d - HANDLED;
  }

  // ------------------------------------------------------- what the programs concern

  lemma ManagedWhat(acc: Accounts, r: Rule)
    ensures Selects(Managed(acc), r)
      <==> Carries(r, REDIRECT_COMMENT) || r in Legacy(acc) || Carries(r, COMMENT) || r in NtpBypasses(acc)
  {
    hide Carries, Legacy, NtpBypasses;
    var t, l, m := Carrying(REDIRECT_COMMENT), AnyOf(Legacy(acc)), Carrying(COMMENT);
    assert Selects(Either(Either(t, l), m), r) <==> Selects(Either(t, l), r) || Selects(m, r);
    assert Selects(Either(t, l), r) <==> Selects(t, r) || Selects(l, r);
  }

  predicate TaggedRedirect(r: Rule) {
    && r.target.Redirect? && Carries(r, REDIRECT_COMMENT) && !Carries(r, COMMENT)
    && r.matches != [] && r.matches[|r.matches| - 1] == Comment([REDIRECT_COMMENT])
  }

  lemma WebTag(acc: Accounts, port: nat, bypass: seq<nat>)
    ensures TaggedRedirect(WebRedirect(acc, port, bypass))
  {
    var r := WebRedirect(acc, port, bypass);
    assert MatchCarries(r.matches[|r.matches| - 1], REDIRECT_COMMENT);
    assert COMMENT != REDIRECT_COMMENT;
  }

  lemma DnsTag(acc: Accounts, protocol: Protocol, bypass: seq<nat>)
    ensures TaggedRedirect(DnsRedirect(acc, protocol, bypass))
  {
    var r := DnsRedirect(acc, protocol, bypass);
    assert MatchCarries(r.matches[|r.matches| - 1], REDIRECT_COMMENT);
    assert COMMENT != REDIRECT_COMMENT;
  }

  lemma CustomTag(network: Network, port: nat)
    ensures var r := CustomAccept(network, port);
      r.target == Accept && Carries(r, COMMENT) && !Carries(r, REDIRECT_COMMENT)
  {
    var r := CustomAccept(network, port);
    assert MatchCarries(r.matches[3], COMMENT);
    assert COMMENT != REDIRECT_COMMENT;
  }

  /** Each rule the programs insert or delete in nat OUTPUT is a managed one. */
  lemma RuleManaged(acc: Accounts, r: Rule)
    requires Carries(r, REDIRECT_COMMENT) || Carries(r, COMMENT) || r in Legacy(acc) || r in NtpBypasses(acc)
    ensures forall s :: Selects(Exactly(r), s) ==> Selects(Managed(acc), s)
  {
    ManagedWhat(acc, r);
  }

  lemma TagManaged(acc: Accounts, token: string)
    requires token == REDIRECT_COMMENT || token == COMMENT
    ensures forall s :: Selects(Carrying(token), s) ==> Selects(Managed(acc), s)
  {
    hide Carries;
    forall s | Selects(Carrying(token), s) ensures Selects(Managed(acc), s) {
      ManagedWhat(acc, s);
    }
  }
}
