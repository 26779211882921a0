/** The forwarding protocol as guarded steps on what an observer sees: the three
    sysctls, the snapshot file and whether each family's guard is in FORWARD. The
    hook's methods are proved to take only these steps, whatever fails and wherever
    the process dies; here is what every run of such steps keeps. */
module ForwardingRuns {
  import opened Options
  import opened Runs

  datatype Sysctl = Ipv4Forwarding | Ipv6Forwarding | SendRedirects

  datatype Sysctls = Sysctls(ipv4Forwarding: int, ipv6Forwarding: int, sendRedirects: int)

  function Get(s: Sysctls, name: Sysctl): int {
    match name
    case Ipv4Forwarding => s.ipv4Forwarding
    case Ipv6Forwarding => s.ipv6Forwarding
    case SendRedirects => s.sendRedirects
  }

  function Set(s: Sysctls, name: Sysctl, value: int): Sysctls {
    match name
    case Ipv4Forwarding => s.(ipv4Forwarding := value)
    case Ipv6Forwarding => s.(ipv6Forwarding := value)
    case SendRedirects => s.(sendRedirects := value)
  }

  function ForwardingOf(s: Sysctls, ipv6: bool): int {
    if ipv6 then s.ipv6Forwarding else s.ipv4Forwarding
  }

  /** The values the hook runs with. */
  const ENABLED := Sysctls(1, 1, 0)

  /** Where a family's guard is: a guard that is not the first rule of FORWARD does not
      block what the rules above it accept. */
  datatype Guard = Away | Buried | Standing

  /** admin is what the administrator last chose. moving holds the families (true for
      IPv6) whose guard has been taken out in order to be put first. */
  datatype Observed = Observed(admin: Sysctls, sysctls: Sysctls, snapshot: Option<Sysctls>,
                               guard4: Guard, guard6: Guard, moving: set<bool>)

  function GuardOf(s: Observed, ipv6: bool): Guard {
    if ipv6 then s.guard6 else s.guard4
  }

  function SetGuard(s: Observed, ipv6: bool, guard: Guard): Observed {
    if ipv6 then s.(guard6 := guard) else s.(guard4 := guard)
  }

  /** mitmwall itself has made this family forward. */
  predicate Exposed(s: Observed, ipv6: bool) {
    s.snapshot.Some? && ForwardingOf(s.snapshot.value, ipv6) == 0 && ForwardingOf(s.sysctls, ipv6) != 0
  }

  /** Forwarding in a family is guarded unless the administrator already had it. */
  predicate MayEnable(s: Observed, name: Sysctl) {
    s.snapshot.Some? && match name
      case Ipv4Forwarding => s.snapshot.value.ipv4Forwarding == 0 ==> s.guard4.Standing?
      case Ipv6Forwarding => s.snapshot.value.ipv6Forwarding == 0 ==> s.guard6.Standing?
      case SendRedirects => true
  }

  datatype Kind =
    | Stay
    | AdministratorSets(values: Sysctls)
    | SaveSnapshot
    | Withdraw(ipv6: bool, left: Guard)
    | AddGuard(ipv6: bool)
    | Enable(name: Sysctl)
    | Restore(name: Sysctl)
    | RemoveGuard(ipv6: bool, left: Guard)
    | DeleteSnapshot

  /** Guards concern the families whose forwarding was 0. */
  predicate MayGuard(s: Observed, ipv6: bool) {
    s.snapshot.Some? && ForwardingOf(s.snapshot.value, ipv6) == 0
  }

  predicate Enabled(s: Observed, k: Kind) {
    match k
    case Stay => true
    case AdministratorSets(_) => s.snapshot.None?
    case SaveSnapshot => s.snapshot.None?
    case Withdraw(ipv6, _) => MayGuard(s, ipv6)
    case AddGuard(ipv6) => MayGuard(s, ipv6)
    case Enable(name) => MayEnable(s, name)
    case Restore(_) => s.snapshot.Some?
    case RemoveGuard(ipv6, _) => MayGuard(s, ipv6) && s.snapshot == Some(s.sysctls)
    case DeleteSnapshot =>
      && s.snapshot == Some(s.sysctls)
      && (s.sysctls.ipv4Forwarding == 0 ==> s.guard4.Away?) && (s.sysctls.ipv6Forwarding == 0 ==> s.guard6.Away?)
  }

  function Apply(s: Observed, k: Kind): Observed
    requires Enabled(s, k)
  {
    match k
    case Stay => s
    case AdministratorSets(values) => s.(admin := values, sysctls := values)
    case SaveSnapshot => s.(snapshot := Some(s.sysctls))
    case Withdraw(ipv6, left) => SetGuard(s, ipv6, left).(moving := s.moving + {ipv6})
    case AddGuard(ipv6) => SetGuard(s, ipv6, Standing).(moving := s.moving - {ipv6})
    case Enable(name) => s.(sysctls := Set(s.sysctls, name, Get(ENABLED, name)))
    case Restore(name) => s.(sysctls := Set(s.sysctls, name, Get(s.snapshot.value, name)))
    case RemoveGuard(ipv6, left) => SetGuard(s, ipv6, left).(moving := s.moving - {ipv6})
    case DeleteSnapshot => s.(snapshot := None)
  }

  ghost predicate Step(s: Observed, t: Observed) {
    exists k :: Enabled(s, k) && t == Apply(s, k)
  }

  lemma Taking(s: Observed, k: Kind)
    requires Enabled(s, k)
    ensures Step(s, Apply(s, k))
  {
  }

  // --------------------------------------------------------------- what runs keep

  /** Either nothing is saved and the sysctls are the administrator's, or exactly the
      administrator's values are saved. */
  predicate Exact(s: Observed) {
    match s.snapshot
    case None => s.sysctls == s.admin
    case Some(saved) => saved == s.admin
  }

  predicate GuardedFamily(s: Observed, ipv6: bool) {
    Exposed(s, ipv6) ==> GuardOf(s, ipv6).Standing? || ipv6 in s.moving
  }

  /** Forwarding that mitmwall enabled itself never stands without its guard at the head
      of FORWARD, except while a start is moving that guard there. */
  predicate Guarded(s: Observed) {
    GuardedFamily(s, false) && GuardedFamily(s, true)
  }

  /** The same without the exception. */
  predicate Protected(s: Observed) {
    && (Exposed(s, false) ==> s.guard4.Standing?)
    && (Exposed(s, true) ==> s.guard6.Standing?)
  }

  predicate AllProtected(states: seq<Observed>, since: nat) {
    forall i :: since <= i < |states| ==> Protected(states[i])
  }

  /** A guard is there only while a snapshot tells which forwarding it belongs to, and
      never where the administrator forwards. */
  predicate Tidy(s: Observed) {
    && (!s.guard4.Away? ==> s.snapshot.Some? && s.snapshot.value.ipv4Forwarding == 0)
    && (!s.guard6.Away? ==> s.snapshot.Some? && s.snapshot.value.ipv6Forwarding == 0)
  }

  lemma StepKeeps(s: Observed, t: Observed)
    requires Step(s, t)
    ensures Exact(s) ==> Exact(t)
    ensures Guarded(s) ==> Guarded(t)
    ensures Tidy(s) ==> Tidy(t)
  {
    var k :| Enabled(s, k) && t == Apply(s, k);
  }

  /** Over every sequence of starts and stops, failing or dying at any step. */
  lemma SnapshotExact(lives: seq<seq<Observed>>, i: nat, k: nat)
    requires AreLives(Step, lives) && i < |lives| && k < |lives[i]| && Exact(lives[0][0])
    ensures Exact(lives[i][k])
  {
    forall s, t | Step(s, t) && Exact(s) ensures Exact(t) {
      StepKeeps(s, t);
    }
    LivesKeep(Step, Exact, lives, i, k);
  }

  lemma TransitGuarded(lives: seq<seq<Observed>>, i: nat, k: nat)
    requires AreLives(Step, lives) && i < |lives| && k < |lives[i]| && Guarded(lives[0][0])
    ensures Guarded(lives[i][k]) && (lives[i][k].moving == {} ==> Protected(lives[i][k]))
  {
    forall s, t | Step(s, t) && Guarded(s) ensures Guarded(t) {
      StepKeeps(s, t);
    }
    LivesKeep(Step, Guarded, lives, i, k);
  }

  /** No guard outlives the snapshot, so none can block transit the administrator
      allows once nothing is saved any more. */
  lemma GuardsTidy(lives: seq<seq<Observed>>, i: nat, k: nat)
    requires AreLives(Step, lives) && i < |lives| && k < |lives[i]| && Tidy(lives[0][0])
    ensures Tidy(lives[i][k])
  {
    forall s, t | Step(s, t) && Tidy(s) ensures Tidy(t) {
      StepKeeps(s, t);
    }
    LivesKeep(Step, Tidy, lives, i, k);
  }

  /** The snapshot is written once: while one exists its value never changes. */
  lemma {:induction false} SnapshotWriteOnce(run: seq<Observed>, i: nat, j: nat)
    requires IsRun(Step, run) && i <= j < |run|
    requires forall k :: i <= k <= j ==> run[k].snapshot.Some?
    ensures run[j].snapshot == run[i].snapshot
  {
    if i < j {
      SnapshotWriteOnce(run, i, j - 1);
      var k :| Enabled(run[j - 1], k) && run[j] == Apply(run[j - 1], k);
    }
  }

  /** A start on a host that does not forward, and then the beginning of another one:
      with the guard taken out to be put first, IPv4 transit is open. */
  lemma RepeatedStartGap() returns (run: seq<Observed>)
    ensures IsRun(Step, run) && |run| > 1 && run[0].snapshot.None? && Protected(run[0])
    ensures AllProtected(run[..|run| - 1], 0)
    ensures var last := run[|run| - 1]; Exposed(last, false) && last.guard4.Away? && !Protected(last)
  {
    hide Step;
    var s0 := Observed(Sysctls(0, 1, 1), Sysctls(0, 1, 1), None, Away, Away, {});
    var s1 := Apply(s0, SaveSnapshot);
    var s2 := Apply(s1, Withdraw(false, Away));
    var s3 := Apply(s2, AddGuard(false));
    var s4 := Apply(s3, Enable(Ipv4Forwarding));
    var s5 := Apply(s4, Enable(Ipv6Forwarding));
    var s6 := Apply(s5, Enable(SendRedirects));
    var s7 := Apply(s6, Withdraw(false, Away));
    run := [s0, s1, s2, s3, s4, s5, s6, s7];
    Taking(s0, SaveSnapshot);
    Taking(s1, Withdraw(false, Away));
    Taking(s2, AddGuard(false));
    Taking(s3, Enable(Ipv4Forwarding));
    Taking(s4, Enable(Ipv6Forwarding));
    Taking(s5, Enable(SendRedirects));
    Taking(s6, Withdraw(false, Away));
  }
}
