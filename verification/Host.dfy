/** The hook on a host: both address families, the forwarding sysctls and the saved
    snapshot. Forwarding commands may fail, with or without having taken effect, and
    the process may die between any two of them: trace records every state passed. */
module Host {
  import opened Options
  import opened Rules
  import opened Firewall
  import opened HookRules
  import opened HookPrograms
  import opened Unmanaged
  import opened Runs
  import opened ForwardingRuns

  /** Everything the hook manages, as a value. */
  datatype World = World(v4: Chains, v6: Chains, sysctls: Sysctls, snapshot: Option<Sysctls>)

  /** Reading the snapshot file back insists on zeros and ones. */
  predicate ValidValues(s: Sysctls) {
    s.ipv4Forwarding in {0, 1} && s.ipv6Forwarding in {0, 1} && s.sendRedirects in {0, 1}
  }

  /** Zeros and ones, all eight combinations, and nothing else. */
  lemma ReadableValues(a: int, b: int, c: int)
    ensures ValidValues(Sysctls(a, b, c)) <==> 0 <= a <= 1 && 0 <= b <= 1 && 0 <= c <= 1
  {
  }

  /** The snapshot in force once forwarding is enabled. */
  function Saved(w: World): Sysctls {
    if w.snapshot.Some? then w.snapshot.value else w.sysctls
  }

  /** A completed add_rules. */
  function AddedRules(w: World, acc: Accounts, cfg: Config): World {
    World(Installed(w.v4, false, acc, cfg, Saved(w).ipv4Forwarding == 0),
          Installed(w.v6, true, acc, cfg, Saved(w).ipv6Forwarding == 0),
          ENABLED, Some(Saved(w)))
  }

  function Migrated(w: World, acc: Accounts): World {
    w.(v4 := WithoutLegacy(w.v4, acc), v6 := WithoutLegacy(w.v6, acc))
  }

  /** A completed start. */
  function Started(w: World, acc: Accounts, cfg: Config): World {
    AddedRules(Migrated(w, acc), acc, cfg)
  }

  /** A completed restoration of forwarding. */
  function Restored(w: World): World {
    match w.snapshot
    case None => w
    case Some(saved) =>
      World(WithoutGuard(w.v4, saved.ipv4Forwarding == 0), WithoutGuard(w.v6, saved.ipv6Forwarding == 0), saved, None)
  }

  /** A completed stop. */
  function Stopped(w: World, acc: Accounts): World {
    var r := Restored(w);
    r.(v4 := Cleared(r.v4, acc), v6 := Cleared(r.v6, acc))
  }

  function GuardIn(c: seq<Rule>): Guard {
    if GUARD !in c then Away else if c[0] == GUARD then Standing else Buried
  }

  /** A guard is there only while a snapshot tells which forwarding it belongs to. */
  predicate TidyWorld(w: World)
    requires Builtin(w.v4) && Builtin(w.v6)
  {
    && (GUARD in w.v4[FORWARD] ==> w.snapshot.Some? && w.snapshot.value.ipv4Forwarding == 0)
    && (GUARD in w.v6[FORWARD] ==> w.snapshot.Some? && w.snapshot.value.ipv6Forwarding == 0)
  }

  /** The second world still holds all the first one held that is not mitmwall's: the
      values forwarding will be restored to, and every unmanaged rule. */
  predicate Resumes(a: World, b: World, acc: Accounts) {
    && Saved(a) == Saved(b)
    && Unharmed(a.v4, b.v4, acc, Saved(a).ipv4Forwarding == 0)
    && Unharmed(a.v6, b.v6, acc, Saved(a).ipv6Forwarding == 0)
    && (TidyWorld(a) ==> TidyWorld(b))
  }

  lemma ResumesTransitive(a: World, b: World, c: World, acc: Accounts)
    requires Resumes(a, b, acc) && Resumes(b, c, acc)
    ensures Resumes(a, c, acc)
  {
    hide Unharmed, TidyWorld;
    ResumesBuiltin(a, b, acc);
    ResumesBuiltin(b, c, acc);
    UnharmedThen(a.v4, b.v4, c.v4, acc, Saved(a).ipv4Forwarding == 0);
    UnharmedThen(a.v6, b.v6, c.v6, acc, Saved(a).ipv6Forwarding == 0);
  }

  lemma ResumesBuiltin(a: World, b: World, acc: Accounts)
    requires Resumes(a, b, acc)
    ensures Builtin(a.v4) && Builtin(a.v6) && Builtin(b.v4) && Builtin(b.v6)
  {
    hide Remains, JumpLeads, TidyWorld;
  }

  lemma ResumesReflexive(w: World, acc: Accounts)
    requires Builtin(w.v4) && Builtin(w.v6)
    ensures Resumes(w, w, acc)
  {
    hide Unharmed, TidyWorld;
    UnharmedItself(w.v4, acc, Saved(w).ipv4Forwarding == 0);
    UnharmedItself(w.v6, acc, Saved(w).ipv6Forwarding == 0);
  }

  /** Any part of a program that leaves FORWARD alone. */
  lemma PartResumes(a: World, b: World, acc: Accounts)
    requires a.sysctls == b.sysctls && a.snapshot == b.snapshot
    requires Unharmed(a.v4, b.v4, acc, false) && Unharmed(a.v6, b.v6, acc, false)
    ensures Resumes(a, b, acc) && b.v4[FORWARD] == a.v4[FORWARD] && b.v6[FORWARD] == a.v6[FORWARD]
  {
    hide Remains, JumpLeads;
    UnharmedEither(a.v4, b.v4, acc, Saved(a).ipv4Forwarding == 0);
    UnharmedEither(a.v6, b.v6, acc, Saved(a).ipv6Forwarding == 0);
  }

  /** Any command on the sysctls or the snapshot that keeps the values to restore. */
  lemma SettingResumes(a: World, b: World, acc: Accounts)
    requires Builtin(a.v4) && Builtin(a.v6) && a.v4 == b.v4 && a.v6 == b.v6 && Saved(a) == Saved(b)
    requires TidyWorld(a) ==> TidyWorld(b)
    ensures Resumes(a, b, acc)
  {
    hide Unharmed, TidyWorld;
    UnharmedItself(a.v4, acc, Saved(a).ipv4Forwarding == 0);
    UnharmedItself(a.v6, acc, Saved(a).ipv6Forwarding == 0);
  }

  function SetChains(w: World, ipv6: bool, c: Chains): World {
    if ipv6 then w.(v6 := c) else w.(v4 := c)
  }

  function ChainsOf(w: World, ipv6: bool): Chains {
    if ipv6 then w.v6 else w.v4
  }

  /** Any command on the guard of a family whose forwarding was 0. */
  lemma GuardResumes(w: World, ipv6: bool, c: Chains, acc: Accounts)
    requires Builtin(w.v4) && Builtin(w.v6) && w.snapshot.Some? && ForwardingOf(w.snapshot.value, ipv6) == 0
    requires Touched(ChainsOf(w, ipv6), c, FORWARD, Exactly(GUARD))
    ensures Resumes(w, SetChains(w, ipv6, c), acc)
  {
    hide Unharmed, Without;
    GuardTouched(ChainsOf(w, ipv6), c, acc);
    UnharmedItself(w.v4, acc, w.snapshot.value.ipv4Forwarding == 0);
    UnharmedItself(w.v6, acc, w.snapshot.value.ipv6Forwarding == 0);
  }

  /** Of all chains only FORWARD may differ. */
  predicate OnlyForward(a: World, b: World) {
    && FORWARD in a.v4 && FORWARD in b.v4 && b.v4 == a.v4[FORWARD := b.v4[FORWARD]]
    && FORWARD in a.v6 && FORWARD in b.v6 && b.v6 == a.v6[FORWARD := b.v6[FORWARD]]
  }

  predicate SameChain(c: Chains, d: Chains, id: ChainId) {
    (id in c <==> id in d) && (id in c ==> c[id] == d[id])
  }

  /** The managed chain and the way into it are as before. */
  predicate FilterUntouched(a: World, b: World) {
    && SameChain(a.v4, b.v4, FILTER_OUTPUT) && SameChain(a.v4, b.v4, MANAGED)
    && SameChain(a.v6, b.v6, FILTER_OUTPUT) && SameChain(a.v6, b.v6, MANAGED)
  }

  lemma OnlyForwardThen(a: World, b: World, c: World)
    requires OnlyForward(a, b) && OnlyForward(b, c)
    ensures OnlyForward(a, c)
  {
  }

  lemma SettingOnly(a: World, b: World)
    requires FORWARD in a.v4 && FORWARD in a.v6 && a.v4 == b.v4 && a.v6 == b.v6
    ensures OnlyForward(a, b)
  {
  }

  /** Restoring is possible: nothing is saved, or what is saved can be read back. */
  predicate Readable(w: World) {
    w.snapshot.Some? ==> ValidValues(w.snapshot.value)
  }

  datatype Restoration = Raised | NotManaged | Complete

  /** A failed action has restored the saved state, or could not do that either. */
  datatype Outcome = Success | RolledBack | Stuck

  function Differs(s: Sysctls, wanted: Sysctls, name: Sysctl): nat {
    if Get(s, name) == Get(wanted, name) then 0 else 1
  }

  /** How many of the first values, in the order they are written, differ from the wanted
      ones. */
  function Unrestored(s: Sysctls, wanted: Sysctls, count: nat): nat {
    (if count > 0 then Differs(s, wanted, Ipv4Forwarding) else 0)
    + (if count > 1 then Differs(s, wanted, Ipv6Forwarding) else 0)
    + (if count > 2 then Differs(s, wanted, SendRedirects) else 0)
  }

  class Host {
    const v4: Iptables
    const v6: Iptables
    const accounts: Accounts
    var sysctls: Sysctls
    var snapshot: Option<Sysctls>
    ghost var admin: Sysctls
    ghost var moving: set<bool>
    ghost var trace: seq<Observed>
    /** How many commands have failed so far. */
    ghost var faults: nat

    ghost function Observe(): Observed
      reads this, v4, v6
      requires FORWARD in v4.chains && FORWARD in v6.chains
    {
      Observed(admin, sysctls, snapshot, GuardIn(v4.chains[FORWARD]), GuardIn(v6.chains[FORWARD]), moving)
    }

    ghost function Value(): World
      reads this, v4, v6
    {
      World(v4.chains, v6.chains, sysctls, snapshot)
    }

    /** Every recorded step is one of the protocol's, up to the present state. */
    ghost predicate Valid()
      reads this, v4, v6
    {
      && v4 != v6 && !v4.isIpv6 && v6.isIpv6
      && Builtin(v4.chains) && Builtin(v6.chains)
      && trace != [] && trace[|trace| - 1] == Observe()
      && IsRun(Step, trace)
    }

    /** Only steps of the protocol were taken. */
    twostate predicate Proceeds()
      reads this, v4, v6
    {
      Valid() && old(trace) <= trace && admin == old(admin) && old(faults) <= faults
    }

    /** And nothing that is not mitmwall's was lost. */
    twostate predicate Continues()
      reads this, v4, v6
    {
      Proceeds() && Resumes(old(Value()), Value(), accounts)
    }

    /** All states passed were protected if and only if mitmwall had not made a family
        forward before. */
    twostate predicate GapExactly()
      reads this, v4, v6
    {
      old(Valid()) && Valid() &&
      (old(Protected(Observe())) ==>
        && Protected(Observe())
        && (AllProtected(trace, |old(trace)|) <==> !Exposed(old(Observe()), false) && !Exposed(old(Observe()), true)))
    }

    /** If the first state was protected, so are the present one and all in between. */
    twostate predicate Sheltered()
      reads this, v4, v6
    {
      old(Valid()) && Valid() &&
      (old(Protected(Observe())) ==> Protected(Observe()) && AllProtected(trace, |old(trace)|))
    }

    /** mitmwall has not made a family forward. */
    ghost predicate Unexposed()
      reads this, v4, v6
      requires FORWARD in v4.chains && FORWARD in v6.chains
    {
      !Exposed(Observe(), false) && !Exposed(Observe(), true)
    }

    /** A process that comes to life in whatever state the one before it left. */
    constructor (accounts: Accounts, w: World, ghost admin: Sysctls, ghost moving: set<bool>)
      requires Builtin(w.v4) && Builtin(w.v6)
      ensures Valid() && fresh(v4) && fresh(v6) && this.accounts == accounts
      ensures Value() == w && trace == [Observe()] && this.admin == admin && this.moving == moving
    {
      this.accounts := accounts;
      this.sysctls := w.sysctls;
      this.snapshot := w.snapshot;
      this.admin := admin;
      this.moving := moving;
      var f4 := new Iptables(false, w.v4);
      var f6 := new Iptables(true, w.v6);
      this.v4 := f4;
      this.v6 := f6;
      this.trace := [Observed(admin, w.sysctls, w.snapshot, GuardIn(w.v4[FORWARD]), GuardIn(w.v6[FORWARD]), moving)];
      this.faults := 0;
    }

    /** Appends the present state to the trace. */
    ghost method Record(k: Kind)
      requires v4 != v6 && !v4.isIpv6 && v6.isIpv6
      requires Builtin(v4.chains) && Builtin(v6.chains)
      requires trace != [] && IsRun(Step, trace)
      requires Enabled(trace[|trace| - 1], k) && Observe() == Apply(trace[|trace| - 1], k)
      modifies this`trace
      ensures Valid() && trace == old(trace) + [Observe()]
    {
      RunSnoc(Step, trace, Observe());
      trace := trace + [Observe()];
    }

    /** A command that may fail, with or without having taken effect. */
    method Attempt() returns (effect: bool, ok: bool)
      modifies this`faults
      ensures ok ==> effect
      ensures faults == if ok then old(faults) else old(faults) + 1
    {
      effect := *;
      ok := *;
      ok := ok && effect;
      if !ok {
        faults := faults + 1;
      }
    }

    // ------------------------------------------------------------ forwarding commands

    method ReadSysctl(name: Sysctl) returns (value: Option<int>)
      modifies this`faults
      ensures value.Some? ==> value.value == Get(sysctls, name)
      ensures faults == if value.Some? then old(faults) else old(faults) + 1
    {
      var _, ok := Attempt();
      value := if ok then Some(Get(sysctls, name)) else None;
    }

    /** A failing write may have taken effect. */
    method WriteSysctl(name: Sysctl, value: int, ghost k: Kind) returns (ok: bool)
      requires Valid() && Enabled(Observe(), k) && snapshot.Some?
      requires Apply(Observe(), k) == Observe().(sysctls := Set(sysctls, name, value))
      modifies this`sysctls, this`trace, this`faults
      ensures Continues() && faults == if ok then old(faults) else old(faults) + 1
      ensures sysctls == old(sysctls) || sysctls == Set(old(sysctls), name, value)
      ensures ok ==> sysctls == Set(old(sysctls), name, value) && trace == old(trace) + [Observe()]
      ensures Sheltered()
    {
      hide Unharmed;
      ghost var w := Value();
      ResumesReflexive(w, accounts);
      var effect;
      effect, ok := Attempt();
      if effect {
        sysctls := Set(sysctls, name, value);
        Record(k);
        SettingResumes(w, Value(), accounts);
      }
    }

    /** The create-only link: it fails when a snapshot already exists, and a failure
        may come after the link was made. */
    method WriteForwardingState(state: Sysctls) returns (ok: bool, exists_: bool)
      requires Valid() && (snapshot.None? ==> state == sysctls)
      modifies this`snapshot, this`trace, this`faults
      ensures Continues() && (exists_ <==> old(snapshot).Some?)
      ensures old(snapshot).Some? ==> snapshot == old(snapshot) && !ok && faults == old(faults)
      ensures old(snapshot).None? ==> snapshot == None || snapshot == Some(state)
      ensures old(snapshot).None? ==> (ok <==> faults == old(faults))
      ensures ok ==> snapshot == Some(state) && trace == old(trace) + [Observe()]
      ensures Sheltered()
    {
      hide Unharmed;
      ghost var w := Value();
      ResumesReflexive(w, accounts);
      exists_ := snapshot.Some?;
      ok := false;
      if !exists_ {
        var effect;
        effect, ok := Attempt();
        if effect {
          snapshot := Some(state);
          Record(SaveSnapshot);
          SettingResumes(w, Value(), accounts);
        }
      }
    }

    method ReadForwardingState() returns (state: Option<Sysctls>)
      modifies this`faults
      ensures state.Some? ==> snapshot == state && ValidValues(state.value)
      ensures old(faults) <= faults
      ensures faults == old(faults) && snapshot.Some? && ValidValues(snapshot.value) ==> state.Some?
    {
      var _, ok := Attempt();
      state := if ok && snapshot.Some? && ValidValues(snapshot.value) then snapshot else None;
    }

    /** The snapshot to run with; None when an error is raised. */
    method LoadOrCreateForwardingState() returns (state: Option<Sysctls>)
      requires Valid()
      modifies this`snapshot, this`trace, this`faults
      ensures Continues()
      ensures snapshot == old(snapshot) || (old(snapshot).None? && snapshot == Some(sysctls))
      ensures state.Some? ==> snapshot == state && state.value == Saved(old(Value()))
      ensures faults == old(faults) && old(Readable(Value())) ==> state.Some?
      ensures state.Some? ==> trace == if old(snapshot).Some? then old(trace) else old(trace) + [Observe()]
      ensures Sheltered()
    {
      hide Unharmed;
      ResumesReflexive(Value(), accounts);
      if snapshot.None? {
        var ipv4 := ReadSysctl(Ipv4Forwarding);
        if ipv4.None? { return None; }
        var ipv6 := ReadSysctl(Ipv6Forwarding);
        if ipv6.None? { return None; }
        var redirects := ReadSysctl(SendRedirects);
        if redirects.None? { return None; }
        var current := Sysctls(ipv4.value, ipv6.value, redirects.value);
        var ok, present := WriteForwardingState(current);
        if ok {
          return Some(current);
        }
        if !present {
          return None;
        }
      }
      state := ReadForwardingState();
    }

    /** The loop that deletes every copy of the guard, breaking off anywhere. */
    method RemoveGuardCopies(fw: Iptables) returns (ok: bool)
      requires FORWARD in fw.chains
      modifies this`faults, fw
      ensures Touched(old(fw.chains), fw.chains, FORWARD, Exactly(GUARD))
      ensures ok <==> faults == old(faults)
      ensures old(faults) <= faults
      ensures ok ==> fw.chains == Deleting(old(fw.chains), FORWARD, Exactly(GUARD)) && GUARD !in fw.chains[FORWARD]
    {
      hide Without;
      ghost var f := fw.chains[FORWARD];
      var entry, since := fw.chains, |fw.passed|;
      fw.RemoveAll(FORWARD, GUARD);
      WithoutIn(f, Exactly(GUARD), GUARD);
      ok := *;
      if !ok {
        faults := faults + 1;
        fw.BreakOff(entry, since);
      }
    }

    method WithdrawGuard(ipv6: bool) returns (ok: bool)
      requires Valid() && MayGuard(Observe(), ipv6)
      modifies this`trace, this`faults, this`moving, v4, v6
      ensures Continues() && (ok <==> faults == old(faults))
      ensures ok ==> Value() == SetChains(old(Value()), ipv6,
          Deleting(ChainsOf(old(Value()), ipv6), FORWARD, Exactly(GUARD)))
      ensures ok ==> Observe() == Apply(old(Observe()), Withdraw(ipv6, Away)) && trace == old(trace) + [Observe()]
      ensures !Exposed(old(Observe()), ipv6) ==> Sheltered()
      ensures OnlyForward(old(Value()), Value())
    {
      hide Unharmed, Without, Touched;
      ghost var w := Value();
      var fw := if ipv6 then v6 else v4;
      ok := RemoveGuardCopies(fw);
      moving := moving + {ipv6};
      GuardResumes(w, ipv6, fw.chains, accounts);
      TouchedBuiltin(ChainsOf(w, ipv6), fw.chains);
      Record(Withdraw(ipv6, GuardIn(fw.chains[FORWARD])));
    }

    method InsertGuard(ipv6: bool) returns (ok: bool)
      requires Valid() && MayGuard(Observe(), ipv6)
      modifies this`trace, this`faults, this`moving, v4, v6
      ensures Continues() && (ok <==> faults == old(faults))
      ensures ok ==>
        var c := ChainsOf(old(Value()), ipv6);
        FORWARD in c && Value() == SetChains(old(Value()), ipv6, c[FORWARD := [GUARD] + c[FORWARD]])
      ensures ok ==> Observe() == Apply(old(Observe()), AddGuard(ipv6)) && trace == old(trace) + [Observe()]
      ensures Sheltered()
      ensures OnlyForward(old(Value()), Value())
    {
      hide Unharmed, Without, Touched;
      ghost var w := Value();
      ResumesReflexive(w, accounts);
      var fw := if ipv6 then v6 else v4;
      var effect;
      effect, ok := Attempt();
      if effect {
        ghost var rest := fw.chains[FORWARD];
        fw.Insert(FORWARD, GUARD, 1);
        assert fw.chains[FORWARD] == [GUARD] + rest;
        moving := moving - {ipv6};
        InsertTouched(ChainsOf(w, ipv6), fw.chains);
        GuardResumes(w, ipv6, fw.chains, accounts);
        Record(AddGuard(ipv6));
      }
    }

    /** Putting the guard first: all copies are deleted, then one is inserted. In
        between, transit is open exactly when mitmwall has already made the family
        forward. */
    method AddForwardingGuard(ipv6: bool) returns (ok: bool)
      requires Valid() && MayGuard(Observe(), ipv6)
      modifies this`trace, this`faults, this`moving, v4, v6
      ensures Continues() && (ok <==> faults == old(faults))
      ensures ok ==> Value() == SetChains(old(Value()), ipv6, WithGuard(ChainsOf(old(Value()), ipv6), true))
      ensures ok ==> Observe() == Apply(Apply(old(Observe()), Withdraw(ipv6, Away)), AddGuard(ipv6))
      ensures ok && old(Protected(Observe())) ==>
        Protected(Observe()) && (AllProtected(trace, |old(trace)|) <==> !Exposed(old(Observe()), ipv6))
      ensures !Exposed(old(Observe()), ipv6) ==> Sheltered()
      ensures OnlyForward(old(Value()), Value())
    {
      hide Resumes, Without, IsRun, Step;
      ghost var w, s := Value(), Observe();
      ok := WithdrawGuard(ipv6);
      if !ok {
        return;
      }
      ghost var w1, t := Value(), Observe();
      ok := InsertGuard(ipv6);
      ResumesTransitive(w, w1, Value(), accounts);
      if ok {
        MoveProtected(s, ipv6);
        assert trace[|old(trace)|] == t && trace[|old(trace)| + 1] == Observe();
      }
    }

    method AddForwardingGuards(state: Sysctls) returns (ok: bool)
      requires Valid() && snapshot == Some(state)
      modifies this`trace, this`faults, this`moving, v4, v6
      ensures Continues() && (ok <==> faults == old(faults))
      ensures ok ==> Value() == old(Value()).(v4 := WithGuard(old(v4.chains), state.ipv4Forwarding == 0),
                                              v6 := WithGuard(old(v6.chains), state.ipv6Forwarding == 0))
      ensures ok ==> GapExactly() && MayEnable(Observe(), Ipv4Forwarding) && MayEnable(Observe(), Ipv6Forwarding)
      ensures old(Unexposed()) ==> Sheltered()
      ensures OnlyForward(old(Value()), Value())
    {
      hide Resumes, GuardIn, IsRun, Step, MovingFirst;
      ghost var w := Value();
      ResumesReflexive(w, accounts);
      ok := true;
      if state.ipv4Forwarding == 0 {
        ok := AddForwardingGuard(false);
        if !ok { return; }
      }
      ghost var w1 := Value();
      if state.ipv6Forwarding == 0 {
        ok := AddForwardingGuard(true);
        ResumesTransitive(w, w1, Value(), accounts);
      }
    }

    /** Deleting every copy of the guard. */
    method RemoveForwardingGuard(ipv6: bool) returns (ok: bool)
      requires Valid() && Enabled(Observe(), RemoveGuard(ipv6, Away))
      modifies this`trace, this`faults, this`moving, v4, v6
      ensures Continues() && (ok <==> faults == old(faults))
      ensures ok ==> Value() == SetChains(old(Value()), ipv6, WithoutGuard(ChainsOf(old(Value()), ipv6), true))
      ensures ok ==> Observe() == Apply(old(Observe()), RemoveGuard(ipv6, Away))
      ensures Sheltered()
      ensures OnlyForward(old(Value()), Value())
    {
      hide Unharmed, Without, Touched;
      ghost var w := Value();
      var fw := if ipv6 then v6 else v4;
      ok := RemoveGuardCopies(fw);
      moving := moving - {ipv6};
      GuardResumes(w, ipv6, fw.chains, accounts);
      TouchedBuiltin(ChainsOf(w, ipv6), fw.chains);
      Record(RemoveGuard(ipv6, GuardIn(fw.chains[FORWARD])));
    }

    method RemoveForwardingGuards(state: Sysctls) returns (ok: bool)
      requires Valid() && snapshot == Some(state) && sysctls == state
      modifies this`trace, this`faults, this`moving, v4, v6
      ensures Continues() && (ok <==> faults == old(faults))
      ensures ok ==> Value() == old(Value()).(v4 := WithoutGuard(old(v4.chains), state.ipv4Forwarding == 0),
                                              v6 := WithoutGuard(old(v6.chains), state.ipv6Forwarding == 0))
      ensures ok ==> Enabled(Observe(), DeleteSnapshot)
      ensures Sheltered()
      ensures OnlyForward(old(Value()), Value())
    {
      hide Resumes, GuardIn, IsRun, Step, Deleting;
      ghost var w := Value();
      ResumesReflexive(w, accounts);
      ok := true;
      if state.ipv4Forwarding == 0 {
        ok := RemoveForwardingGuard(false);
        if !ok { return; }
      }
      ghost var w1 := Value();
      if state.ipv6Forwarding == 0 {
        ok := RemoveForwardingGuard(true);
        ResumesTransitive(w, w1, Value(), accounts);
      }
    }

    method UnlinkForwardingState() returns (ok: bool)
      requires Valid() && Enabled(Observe(), DeleteSnapshot)
      modifies this`snapshot, this`trace, this`faults
      ensures Continues() && (ok <==> faults == old(faults))
      ensures snapshot == old(snapshot) || snapshot == None
      ensures ok ==> snapshot == None
      ensures Sheltered()
    {
      hide Unharmed;
      ghost var w := Value();
      ResumesReflexive(w, accounts);
      var effect;
      effect, ok := Attempt();
      if effect {
        snapshot := None;
        Record(DeleteSnapshot);
        SettingResumes(w, Value(), accounts);
      }
    }

    /** All three values are written even when one write fails: no more of them are left
        than writes have failed. */
    method WriteSaved(state: Sysctls) returns (ok: bool)
      requires Valid() && snapshot == Some(state)
      modifies this`sysctls, this`trace, this`faults
      ensures Continues() && (ok <==> faults == old(faults)) && (ok ==> sysctls == state)
      ensures Sheltered() && Unrestored(sysctls, state, 3) <= faults - old(faults)
    {
      hide Resumes, GuardIn, IsRun, Step;
      ghost var w0 := Value();
      ResumesReflexive(w0, accounts);
      var failures := 0;
      var names := [Ipv4Forwarding, Ipv6Forwarding, SendRedirects];
      for k := 0 to 3
        invariant Continues() && Sheltered() && failures == faults - old(faults)
        invariant Unrestored(sysctls, state, k) <= failures
      {
        ghost var w1 := Value();
        var written := WriteSysctl(names[k], Get(state, names[k]), Restore(names[k]));
        ResumesTransitive(w0, w1, Value(), accounts);
        if !written {
          failures := failures + 1;
        }
      }
      ok := failures == 0;
    }

    /** The values are written, then the guards go, then the snapshot; any failure
        leaves the snapshot for a retry. */
    method RestoreForwarding() returns (r: Restoration)
      requires Valid()
      modifies this`sysctls, this`snapshot, this`trace, this`faults, this`moving, v4, v6
      ensures Continues()
      ensures r == NotManaged <==> old(snapshot).None?
      ensures r != Raised ==> Value() == Restored(old(Value()))
      ensures old(Readable(Value())) && faults == old(faults) ==> r != Raised
      ensures r == Raised ==> faults > old(faults) || !old(Readable(Value()))
      ensures !old(Readable(Value())) ==> r == Raised && Value() == old(Value())
      ensures snapshot == old(snapshot) || snapshot == None
      ensures Sheltered()
      ensures r == Raised && ValidValues(Saved(old(Value()))) && Value() != old(Value()) ==>
        Unrestored(sysctls, Saved(old(Value())), 3) <= faults - old(faults)
      ensures OnlyForward(old(Value()), Value())
    {
      hide OnlyForward, Resumes, WithoutGuard, GuardIn, IsRun, Step;
      ghost var w0 := Value();
      SettingOnly(w0, w0);
      ResumesReflexive(w0, accounts);
      if snapshot.None? {
        return NotManaged;
      }
      var state := ReadForwardingState();
      if state.None? {
        return Raised;
      }
      var ok := WriteSaved(state.value);
      SettingOnly(w0, Value());
      if !ok {
        return Raised;
      }
      ghost var w1 := Value();
      ok := RemoveForwardingGuards(state.value);
      ghost var w2 := Value();
      ResumesTransitive(w0, w1, w2, accounts);
      OnlyForwardThen(w0, w1, w2);
      if !ok {
        return Raised;
      }
      ok := UnlinkForwardingState();
      ResumesTransitive(w0, w2, Value(), accounts);
      SettingOnly(w2, Value());
      OnlyForwardThen(w0, w2, Value());
      if !ok {
        return Raised;
      }
      return Complete;
    }

    /** The three writes, each refused by the protocol unless its guard is in place. */
    method WriteEnabled() returns (ok: bool)
      requires Valid() && MayEnable(Observe(), Ipv4Forwarding) && MayEnable(Observe(), Ipv6Forwarding)
      modifies this`sysctls, this`trace, this`faults
      ensures Continues() && (ok <==> faults == old(faults))
      ensures ok ==> sysctls == ENABLED && AllProtected(trace, |old(trace)|) && Protected(Observe())
      ensures Sheltered()
    {
      hide Resumes, GuardIn, IsRun, Step;
      ghost var w0 := Value();
      ok := WriteSysctl(Ipv4Forwarding, 1, Enable(Ipv4Forwarding));
      ghost var w1 := Value();
      if ok {
        ok := WriteSysctl(Ipv6Forwarding, 1, Enable(Ipv6Forwarding));
        ResumesTransitive(w0, w1, Value(), accounts);
      }
      ghost var w2 := Value();
      if ok {
        ok := WriteSysctl(SendRedirects, 0, Enable(SendRedirects));
        ResumesTransitive(w0, w2, Value(), accounts);
      }
    }

    /** Guards strictly before the writes. */
    method GuardAndEnable(state: Sysctls) returns (ok: bool)
      requires Valid() && snapshot == Some(state)
      modifies this`sysctls, this`trace, this`faults, this`moving, v4, v6
      ensures Continues() && (ok <==> faults == old(faults)) && (ok ==> GapExactly())
      ensures ok ==> Value() == World(WithGuard(old(v4.chains), state.ipv4Forwarding == 0),
                                      WithGuard(old(v6.chains), state.ipv6Forwarding == 0), ENABLED, Some(state))
      ensures old(Unexposed()) ==> Sheltered()
      ensures OnlyForward(old(Value()), Value())
    {
      hide OnlyForward, Resumes, GuardIn, IsRun, Step, WithGuard;
      ghost var w0 := Value();
      SettingOnly(w0, w0);
      ok := AddForwardingGuards(state);
      if ok {
        ghost var w1 := Value();
        ok := WriteEnabled();
        SettingOnly(w1, Value());
        ResumesTransitive(w0, w1, Value(), accounts);
        OnlyForwardThen(w0, w1, Value());
      }
    }

    /** Any failure after the snapshot was taken restores before raising. */
    method EnableForwarding() returns (ok: bool)
      requires Valid()
      modifies this`sysctls, this`snapshot, this`trace, this`faults, this`moving, v4, v6
      ensures Continues() && (ok ==> GapExactly())
      ensures ok ==> Value() == (var s := Saved(old(Value()));
        World(WithGuard(old(v4.chains), s.ipv4Forwarding == 0), WithGuard(old(v6.chains), s.ipv6Forwarding == 0),
              ENABLED, Some(s)))
      ensures old(Readable(Value())) && faults == old(faults) ==> ok
      ensures !ok ==> faults > old(faults) || !old(Readable(Value()))
      ensures old(Unexposed()) ==> Sheltered()
      ensures OnlyForward(old(Value()), Value())
      ensures !ok && ValidValues(Saved(old(Value()))) ==>
        || faults >= old(faults) + 2
        || (snapshot == None && sysctls == Saved(old(Value())))
        || (sysctls == old(sysctls) && v4.chains == old(v4.chains) && v6.chains == old(v6.chains))
      ensures ok ==> sysctls == Sysctls(1, 1, 0)
    {
      hide OnlyForward, Resumes, WithGuard, WithoutGuard, GuardIn, IsRun, Step;
      ghost var w0 := Value();
      SettingOnly(w0, w0);
      var state := LoadOrCreateForwardingState();
      SettingOnly(w0, Value());
      if state.None? {
        return false;
      }
      ghost var w1 := Value();
      ok := GuardAndEnable(state.value);
      ghost var w2 := Value();
      ResumesTransitive(w0, w1, w2, accounts);
      OnlyForwardThen(w0, w1, w2);
      if !ok {
        var restored := RestoreForwarding();
        ResumesTransitive(w0, w2, Value(), accounts);
        OnlyForwardThen(w0, w2, Value());
      }
    }

    // ---------------------------------------------------------------- whole actions

    /** The program that both families have just been through breaks off: each is left
        at some state it passed. */
    method BreakOff(entry4: Chains, since4: nat, entry6: Chains, since6: nat)
      requires Valid() && Builtin(entry4) && Builtin(entry6)
      requires v4.chains[FORWARD] == entry4[FORWARD] && v6.chains[FORWARD] == entry6[FORWARD]
      requires since4 <= |v4.passed| && AllUnharmed(entry4, v4.passed, since4, accounts)
      requires since6 <= |v6.passed| && AllUnharmed(entry6, v6.passed, since6, accounts)
      modifies this`faults, v4, v6
      ensures Proceeds() && faults > old(faults)
      ensures Unharmed(entry4, v4.chains, accounts, false) && Unharmed(entry6, v6.chains, accounts, false)
      ensures trace == old(trace)
      ensures v4.chains == entry4 || v4.chains in old(v4.passed)[since4..]
      ensures v6.chains == entry6 || v6.chains in old(v6.passed)[since6..]
    {
      hide Unharmed, GuardIn, IsRun, Step;
      UnharmedItself(entry4, accounts, false);
      UnharmedItself(entry6, accounts, false);
      v4.BreakOff(entry4, since4);
      v6.BreakOff(entry6, since6);
      UnharmedEither(entry4, v4.chains, accounts, false);
      UnharmedEither(entry6, v6.chains, accounts, false);
      UnharmedBuiltin(entry4, v4.chains, accounts, false);
      UnharmedBuiltin(entry6, v6.chains, accounts, false);
      faults := faults + 1;
    }

    method AddRules(cfg: Config) returns (ok: bool)
      requires Valid()
      modifies this`sysctls, this`snapshot, this`trace, this`faults, this`moving, v4, v6
      ensures Proceeds() && (ok ==> GapExactly())
      ensures ok ==> Value() == AddedRules(old(Value()), accounts, cfg)
      ensures !ok ==> Resumes(old(Value()), Value(), accounts) && (faults > old(faults) || !old(Readable(Value())))
      ensures old(Readable(Value())) && faults == old(faults) ==> ok
      ensures old(Unexposed()) ==> Sheltered()
      ensures !ok && !(snapshot.Some? && sysctls == ENABLED) ==> FilterUntouched(old(Value()), Value())
    {
      hide WithPolicy, WithGuard, Resumes, Remains, JumpLeads, GuardIn, IsRun, Step;
      ghost var w0 := Value();
      ok := ClearRedirects();
      if !ok {
        return;
      }
      ghost var w1 := Value();
      ok := EnableForwarding();
      ghost var w2 := Value();
      ResumesTransitive(w0, w1, w2, accounts);
      if !ok {
        return;
      }
      ok := InstallPolicy(cfg);
      if !ok {
        ResumesTransitive(w0, w2, Value(), accounts);
      }
    }

    method ClearRedirects() returns (ok: bool)
      requires Valid()
      modifies this`faults, v4, v6
      ensures Continues() && (ok <==> faults == old(faults)) && v4.chains[FORWARD] == old(v4.chains)[FORWARD]
      ensures v6.chains[FORWARD] == old(v6.chains)[FORWARD]
      ensures ok ==> v4.chains == WithoutRedirects(old(v4.chains)) && v6.chains == WithoutRedirects(old(v6.chains))
      ensures trace == old(trace)
      ensures FilterUntouched(old(Value()), Value())
    {
      hide Resumes, Unharmed, Touched, Managed, Selects, GuardIn, IsRun, Step;
      ghost var w := Value();
      var c4, n4, c6, n6 := v4.chains, |v4.passed|, v6.chains, |v6.passed|;
      ClearManagedRedirectRules(v4, v6);
      TagManaged(accounts, REDIRECT_COMMENT);
      NatUnharmed(c4, v4.chains, v4.passed, n4, Carrying(REDIRECT_COMMENT), accounts);
      NatUnharmed(c6, v6.chains, v6.passed, n6, Carrying(REDIRECT_COMMENT), accounts);
      PartResumes(w, Value(), accounts);
      ResumesBuiltin(w, Value(), accounts);
      ok := *;
      if !ok {
        ghost var p4, p6 := v4.passed, v6.passed;
        BreakOff(c4, n4, c6, n6);
        NatPart(c4, v4.chains, p4, n4);
        NatPart(c6, v6.chains, p6, n6);
        PartResumes(w, Value(), accounts);
      }
    }

    method InstallPolicy(cfg: Config) returns (ok: bool)
      requires Valid()
      modifies this`faults, v4, v6
      ensures Continues() && (ok <==> faults == old(faults)) && v4.chains[FORWARD] == old(v4.chains)[FORWARD]
      ensures v6.chains[FORWARD] == old(v6.chains)[FORWARD]
      ensures ok ==> v4.chains == WithPolicy(old(v4.chains), false, accounts, cfg)
      ensures ok ==> v6.chains == WithPolicy(old(v6.chains), true, accounts, cfg)
      ensures trace == old(trace)
    {
      hide WithPolicy, Resumes, Unharmed, GuardIn, IsRun, Step;
      ghost var w := Value();
      var c4, n4, c6, n6 := v4.chains, |v4.passed|, v6.chains, |v6.passed|;
      AddPolicy(v4, v6, accounts, cfg);
      PartResumes(w, Value(), accounts);
      ResumesBuiltin(w, Value(), accounts);
      ok := *;
      if !ok {
        BreakOff(c4, n4, c6, n6);
        PartResumes(w, Value(), accounts);
      }
    }

    method ClearRules() returns (ok: bool)
      requires Valid()
      modifies this`faults, v4, v6
      ensures Continues() && (ok <==> faults == old(faults)) && trace == old(trace)
      ensures ok ==> v4.chains == Cleared(old(v4.chains), accounts) && v6.chains == Cleared(old(v6.chains), accounts)
    {
      hide Cleared, Resumes, Unharmed, GuardIn, IsRun, Step;
      ghost var w := Value();
      var c4, n4, c6, n6 := v4.chains, |v4.passed|, v6.chains, |v6.passed|;
      RemovePolicy(v4, v6, accounts);
      PartResumes(w, Value(), accounts);
      ResumesBuiltin(w, Value(), accounts);
      ok := *;
      if !ok {
        BreakOff(c4, n4, c6, n6);
        PartResumes(w, Value(), accounts);
      }
    }

    method Migrate() returns (ok: bool)
      requires Valid()
      modifies this`faults, v4, v6
      ensures Continues() && (ok <==> faults == old(faults)) && v4.chains[FORWARD] == old(v4.chains)[FORWARD]
      ensures v6.chains[FORWARD] == old(v6.chains)[FORWARD]
      ensures ok ==> Value() == Migrated(old(Value()), accounts)
      ensures trace == old(trace)
    {
      hide WithoutLegacy, Resumes, Unharmed, GuardIn, IsRun, Step;
      ghost var w := Value();
      var c4, n4, c6, n6 := v4.chains, |v4.passed|, v6.chains, |v6.passed|;
      ClearLegacyRedirectRules(v4, accounts);
      ClearLegacyRedirectRules(v6, accounts);
      PartResumes(w, Value(), accounts);
      ResumesBuiltin(w, Value(), accounts);
      ok := *;
      if !ok {
        BreakOff(c4, n4, c6, n6);
        PartResumes(w, Value(), accounts);
      }
    }

    /** Migration and installation. */
    method TryStart(cfg: Config) returns (ok: bool)
      requires Valid()
      modifies this`sysctls, this`snapshot, this`trace, this`faults, this`moving, v4, v6
      ensures Proceeds() && (ok ==> GapExactly())
      ensures ok ==> Value() == Started(old(Value()), accounts, cfg)
      ensures !ok ==> Resumes(old(Value()), Value(), accounts) && (faults > old(faults) || !old(Readable(Value())))
      ensures old(Readable(Value())) && faults == old(faults) ==> ok
      ensures old(Unexposed()) ==> Sheltered()
      ensures !ok ==> faults > old(faults) || !ValidValues(Saved(old(Value())))
    {
      hide AddedRules, Migrated, Resumes, GuardIn, IsRun, Step;
      ghost var w0 := Value();
      ok := Migrate();
      if !ok {
        return;
      }
      ghost var w1 := Value();
      ok := AddRules(cfg);
      if !ok {
        ResumesTransitive(w0, w1, Value(), accounts);
      }
    }

    /** The start action. Any command may fail, anywhere; every failure is followed by
        an attempt to restore forwarding before it is reported. */
    method Start(cfg: Config) returns (r: Outcome)
      requires Valid()
      modifies this`sysctls, this`snapshot, this`trace, this`faults, this`moving, v4, v6
      ensures Proceeds() && (r == Success ==> GapExactly())
      ensures r == Success ==> Value() == Started(old(Value()), accounts, cfg)
      ensures r != Success ==> Resumes(old(Value()), Value(), accounts)
      ensures r != Success ==> faults > old(faults) || !old(Readable(Value()))
      ensures r == RolledBack ==> snapshot == None && sysctls == Saved(old(Value()))
      ensures old(Readable(Value())) && faults == old(faults) ==> r == Success
      ensures old(Unexposed()) ==> Sheltered()
      ensures r == Stuck ==> faults >= old(faults) + 2 || !ValidValues(Saved(old(Value())))
    {
      hide Started, Unharmed, TidyWorld, GuardIn, IsRun, Step;
      ghost var w0 := Value();
      var ok := TryStart(cfg);
      if ok {
        return Success;
      }
      ghost var w1 := Value();
      var restored := RestoreForwarding();
      ResumesTransitive(w0, w1, Value(), accounts);
      r := if restored == Raised then Stuck else RolledBack;
    }

    /** The stop action: the rules stay when forwarding could not be restored. */
    method Stop() returns (ok: bool)
      requires Valid()
      modifies this`sysctls, this`snapshot, this`trace, this`faults, this`moving, v4, v6
      ensures Proceeds()
      ensures ok ==> Value() == Stopped(old(Value()), accounts)
      ensures ok && old(Exact(Observe())) ==> sysctls == admin && snapshot == None
      ensures !ok ==> Resumes(old(Value()), Value(), accounts) && (faults > old(faults) || !old(Readable(Value())))
      ensures old(Readable(Value())) && faults == old(faults) ==> ok
      ensures !old(Readable(Value())) ==> !ok && Value() == old(Value())
      ensures Sheltered()
      ensures !ok && snapshot.Some? ==> OnlyForward(old(Value()), Value())
    {
      hide Cleared, Resumes, GuardIn, IsRun, Step;
      ghost var w0 := Value();
      var restored := RestoreForwarding();
      if restored == Raised {
        return false;
      }
      ghost var w1 := Value();
      ok := ClearRules();
      if !ok {
        ResumesTransitive(w0, w1, Value(), accounts);
      }
    }

    /** The administrator may change the sysctls while mitmwall holds no snapshot. */
    method Administer(values: Sysctls)
      requires Valid() && snapshot.None?
      modifies this`sysctls, this`admin, this`trace
      ensures Valid() && old(trace) <= trace && sysctls == values && admin == values && snapshot.None?
    {
      sysctls := values;
      admin := values;
      Record(AdministratorSets(values));
    }
  }

  lemma NatPart(c: Chains, d: Chains, states: seq<Chains>, since: nat)
    requires AllTouched(c, states, since, NAT_OUTPUT, Carrying(REDIRECT_COMMENT)) && since <= |states|
    requires d == c || d in states[since..]
    ensures SameChain(c, d, FILTER_OUTPUT) && SameChain(c, d, MANAGED)
  {
    hide Without;
    if d != c {
      var i :| since <= i < |states| && states[i] == d;
      assert Touched(c, d, NAT_OUTPUT, Carrying(REDIRECT_COMMENT));
    }
  }

  lemma MoveProtected(s: Observed, ipv6: bool)
    requires MayGuard(s, ipv6)
    ensures var t := Apply(s, Withdraw(ipv6, Away));
      Protected(s) ==> Protected(Apply(t, AddGuard(ipv6))) && (Protected(t) <==> !Exposed(s, ipv6))
  {
  }

  lemma TouchedBuiltin(c: Chains, d: Chains)
    requires Builtin(c) && Touched(c, d, FORWARD, Exactly(GUARD))
    ensures Builtin(d) && d == c[FORWARD := d[FORWARD]]
  {
  }

  lemma InsertTouched(c: Chains, d: Chains)
    requires FORWARD in c && d == c[FORWARD := [GUARD] + c[FORWARD]]
    ensures Touched(c, d, FORWARD, Exactly(GUARD))
  {
    WithoutFirst(c[FORWARD], GUARD);
  }

  // ------------------------------------------------------------- actions in a row

  /** On a host that does not forward, no moment of the first start is unprotected, and
      some moment of a second one is. */
  method StartTwice(h: Host, first: Config, second: Config) returns (done: bool, ghost between: nat)
    requires h.Valid() && h.snapshot.None? && h.sysctls.ipv4Forwarding == 0 && Protected(h.Observe())
    modifies h, h.v4, h.v6
    ensures h.Valid() && old(h.trace) <= h.trace
    ensures old(ValidValues(h.sysctls)) && h.faults == old(h.faults) ==> done
    ensures done ==> |old(h.trace)| <= between <= |h.trace|
    ensures done ==> AllProtected(h.trace[..between], |old(h.trace)|) && !AllProtected(h.trace, between)
  {
    hide Installed, WithoutLegacy, Resumes, IsRun, Step, GuardIn, AllProtected;
    between := 0;
    var r := h.Start(first);
    if r != Success {
      return false, between;
    }
    between := |h.trace|;
    ghost var before := h.trace;
    assert Exposed(h.Observe(), false);
    r := h.Start(second);
    assert h.trace[..between] == before;
    done := r == Success;
  }

  /** Without a failing command, a start from no snapshot succeeds, and the stop after it
      succeeds if and only if the sysctls were zeros and ones. */
  method StartThenStop(h: Host, cfg: Config) returns (started: Outcome, stopped: bool)
    requires h.Valid() && h.snapshot.None?
    modifies h, h.v4, h.v6
    ensures h.Valid() && old(h.faults) <= h.faults
    ensures h.faults == old(h.faults) ==> started == Success && (stopped <==> ValidValues(old(h.sysctls)))
    ensures stopped && started == Success ==> ValidValues(old(h.sysctls)) && h.sysctls == old(h.sysctls)
  {
    started := h.Start(cfg);
    stopped := h.Stop();
  }

  /** Such values exist: with IPv4 forwarding set to 2, a start without a failing command
      leaves a host that no stop changes any more. */
  lemma TwoIsRefused(w: World, acc: Accounts, cfg: Config)
    requires w.snapshot.None? && w.sysctls == Sysctls(2, 0, 1)
    ensures Readable(w) && !Readable(Started(w, acc, cfg))
  {
  }
}
