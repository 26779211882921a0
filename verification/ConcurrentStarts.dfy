/** Any number of starts interleaved step by step: the create-only link decides one
    snapshot, and every start runs with it. Putting a guard first is two steps, so that
    a start may take out for a moment the guard another one relies on. */
module ConcurrentStarts {
  import opened Options
  import opened Runs
  import opened ForwardingRuns

  /** Where one start is. Reading holds the sysctls read so far; Holding counts the
      deletion and the insertion of each family's guard and then the sysctls written. */
  datatype Phase =
    | Looking
    | Reading(count: nat, values: Sysctls)
    | Rereading
    | Holding(snapshot: Sysctls, step: nat)

  /** links counts how often the snapshot file was created. */
  datatype Shared = Shared(admin: Sysctls, sysctls: Sysctls, snapshot: Option<Sysctls>, links: nat,
                           guard4: bool, guard6: bool, starts: map<nat, Phase>)

  const ORDER := [Ipv4Forwarding, Ipv6Forwarding, SendRedirects]
  const FINISHED: nat := 7

  /** The effect of one step of one start. */
  function Advance(s: Shared, pid: nat): Shared
    requires pid in s.starts
  {
    var phase := s.starts[pid];
    match phase
    case Looking =>
      s.(starts := s.starts[pid := if s.snapshot.Some? then Rereading else Reading(0, s.sysctls)])
    case Reading(n, values) =>
      if n < 3 then s.(starts := s.starts[pid := Reading(n + 1, Set(values, ORDER[n], Get(s.sysctls, ORDER[n])))])
      else if s.snapshot.Some? then s.(starts := s.starts[pid := Rereading])
      else s.(snapshot := Some(values), links := s.links + 1, starts := s.starts[pid := Holding(values, 0)])
    case Rereading =>
      if s.snapshot.Some? then s.(starts := s.starts[pid := Holding(s.snapshot.value, 0)]) else s
    case Holding(saved, step) =>
      var next := s.(starts := s.starts[pid := Holding(saved, step + 1)]);
      if step == 0 then next.(guard4 := s.guard4 && saved.ipv4Forwarding != 0)
      else if step == 1 then next.(guard4 := s.guard4 || saved.ipv4Forwarding == 0)
      else if step == 2 then next.(guard6 := s.guard6 && saved.ipv6Forwarding != 0)
      else if step == 3 then next.(guard6 := s.guard6 || saved.ipv6Forwarding == 0)
      else if step < FINISHED then next.(sysctls := Set(s.sysctls, ORDER[step - 4], Get(ENABLED, ORDER[step - 4])))
      else s
  }

  function Spawn(s: Shared, pid: nat): Shared {
    s.(starts := s.starts[pid := Looking])
  }

  /** A new start appears, or one of the running ones takes a step. */
  function After(s: Shared, pid: nat): Shared {
    if pid in s.starts then Advance(s, pid) else Spawn(s, pid)
  }

  ghost predicate Next(s: Shared, t: Shared) {
    exists pid: nat :: t == After(s, pid)
  }

  predicate Initial(s: Shared) {
    s.snapshot.None? && s.links == 0 && s.sysctls == s.admin && s.starts == map[]
  }

  /** The sysctls a reading start has already read are the administrator's. */
  predicate ReadSoFar(values: Sysctls, admin: Sysctls, n: nat) {
    forall i :: 0 <= i < 3 && i < n ==> Get(values, ORDER[i]) == Get(admin, ORDER[i])
  }

  /** Between the deletion and the insertion of a family's guard. */
  predicate Between(phase: Phase, ipv6: bool) {
    phase.Holding? && phase.step == (if ipv6 then 3 else 1) && ForwardingOf(phase.snapshot, ipv6) == 0
  }

  /** Some start is moving the family's guard. */
  ghost predicate Moving(s: Shared, ipv6: bool) {
    exists pid :: pid in s.starts && Between(s.starts[pid], ipv6)
  }

  /** The family's guard is in place, or about to be. */
  ghost predicate Covered(s: Shared, ipv6: bool) {
    (if ipv6 then s.guard6 else s.guard4) || Moving(s, ipv6)
  }

  ghost predicate PhaseAgrees(s: Shared, phase: Phase) {
    match phase
    case Looking => true
    case Reading(n, values) => n <= 3 && (s.snapshot.None? ==> ReadSoFar(values, s.admin, n))
    case Rereading => s.snapshot.Some?
    case Holding(saved, step) =>
      && step <= FINISHED && s.snapshot == Some(saved)
      && (step > 0 && saved.ipv4Forwarding == 0 ==> Covered(s, false))
      && (step > 2 && saved.ipv6Forwarding == 0 ==> Covered(s, true))
      && forall i :: 0 <= i < 3 && i + 4 < step ==> Get(s.sysctls, ORDER[i]) == Get(ENABLED, ORDER[i])
  }

  predicate Unchanged(s: Shared) {
    s.snapshot.None? ==> s.sysctls == s.admin
  }

  ghost predicate ForwardingGuarded(s: Shared) {
    && (s.admin.ipv4Forwarding == 0 && s.sysctls.ipv4Forwarding != 0 ==> Covered(s, false))
    && (s.admin.ipv6Forwarding == 0 && s.sysctls.ipv6Forwarding != 0 ==> Covered(s, true))
  }

  /** One snapshot is linked at most, it holds the values from before any write, every
      start that got past it uses it, and what is enabled is guarded unless some start
      stands between deleting and inserting that guard. */
  ghost predicate Agreed(s: Shared) {
    && Unchanged(s)
    && (s.snapshot.Some? ==> s.snapshot.value == s.admin)
    && s.links == (if s.snapshot.Some? then 1 else 0)
    && ForwardingGuarded(s)
    && forall pid :: pid in s.starts ==> PhaseAgrees(s, s.starts[pid])
  }

  /** Where mitmwall guards a family, the guard stays covered whoever takes a step. */
  lemma CoveredKeeps(s: Shared, pid: nat, ipv6: bool)
    requires Agreed(s) && Covered(s, ipv6)
    requires s.snapshot.Some? && ForwardingOf(s.snapshot.value, ipv6) == 0
    ensures Covered(After(s, pid), ipv6)
  {
    var t := After(s, pid);
    if pid in s.starts && s.starts[pid].Holding? {
      assert PhaseAgrees(s, s.starts[pid]);
      if s.starts[pid].step == (if ipv6 then 2 else 0) {
        assert Between(t.starts[pid], ipv6);
        return;
      }
      if s.starts[pid].step == (if ipv6 then 3 else 1) {
        return;
      }
    }
    if Moving(s, ipv6) {
      var other :| other in s.starts && Between(s.starts[other], ipv6);
      assert t.starts[other] == s.starts[other];
    }
  }

  predicate Guards(s: Shared, ipv6: bool) {
    s.snapshot.Some? && ForwardingOf(s.snapshot.value, ipv6) == 0
  }

  lemma CoversKept(s: Shared, pid: nat)
    requires Agreed(s)
    ensures Guards(s, false) && Covered(s, false) ==> Covered(After(s, pid), false)
    ensures Guards(s, true) && Covered(s, true) ==> Covered(After(s, pid), true)
  {
    hide Covered, Agreed, After;
    if Guards(s, false) && Covered(s, false) {
      CoveredKeeps(s, pid, false);
    }
    if Guards(s, true) && Covered(s, true) {
      CoveredKeeps(s, pid, true);
    }
  }

  /** A phase that agreed keeps agreeing while another start moves. */
  lemma OthersKeep(s: Shared, pid: nat, phase: Phase)
    requires Agreed(s) && PhaseAgrees(s, phase)
    ensures PhaseAgrees(After(s, pid), phase)
  {
    hide Covered;
    CoversKept(s, pid);
    if pid in s.starts {
      assert PhaseAgrees(s, s.starts[pid]);
    }
  }

  lemma AllRead(values: Sysctls, admin: Sysctls)
    requires ReadSoFar(values, admin, 3)
    ensures values == admin
  {
    assert Get(values, ORDER[0]) == Get(admin, ORDER[0]) && Get(values, ORDER[1]) == Get(admin, ORDER[1])
        && Get(values, ORDER[2]) == Get(admin, ORDER[2]);
  }

  /** A start that is past a deletion or an insertion finds the guard covered. */
  lemma OwnCovers(s: Shared, pid: nat)
    requires Agreed(s) && pid in s.starts && s.starts[pid].Holding?
    ensures var t, phase := After(s, pid), s.starts[pid];
      && (Guards(s, false) ==> Covered(t, false))
      && (Guards(s, true) && phase.step > 1 ==> Covered(t, true))
  {
    var phase, t := s.starts[pid], After(s, pid);
    assert PhaseAgrees(s, phase);
    if phase.step == 0 && Guards(s, false) {
      assert Between(t.starts[pid], false);
    }
    if phase.step == 2 && Guards(s, true) {
      assert Between(t.starts[pid], true);
    }
    CoversKept(s, pid);
  }

  lemma OwnKeeps(s: Shared, pid: nat)
    requires Agreed(s) && pid in s.starts
    ensures PhaseAgrees(After(s, pid), After(s, pid).starts[pid])
  {
    hide Covered;
    var phase := s.starts[pid];
    assert PhaseAgrees(s, phase);
    if phase.Holding? {
      OwnCovers(s, pid);
    }
    if phase.Reading? && phase.count == 3 && s.snapshot.None? {
      AllRead(phase.values, s.admin);
    }
  }

  lemma SnapshotKeeps(s: Shared, pid: nat)
    requires Agreed(s)
    ensures var t := After(s, pid);
      && Unchanged(t) && (t.snapshot.Some? ==> t.snapshot.value == t.admin)
      && t.links == (if t.snapshot.Some? then 1 else 0)
  {
    hide Covered;
    if pid in s.starts {
      var phase := s.starts[pid];
      assert PhaseAgrees(s, phase);
      if phase.Reading? && phase.count == 3 && s.snapshot.None? {
        AllRead(phase.values, s.admin);
      }
    }
  }

  lemma ForwardingKeeps(s: Shared, pid: nat)
    requires Agreed(s)
    ensures ForwardingGuarded(After(s, pid))
  {
    hide Covered;
    SnapshotKeeps(s, pid);
    CoversKept(s, pid);
    if pid in s.starts {
      assert PhaseAgrees(s, s.starts[pid]);
    }
  }

  lemma NextKeeps(s: Shared, t: Shared)
    requires Agreed(s) && Next(s, t)
    ensures Agreed(t)
  {
    hide PhaseAgrees, ForwardingGuarded, Advance;
    var pid: nat :| t == After(s, pid);
    SnapshotKeeps(s, pid);
    ForwardingKeeps(s, pid);
    forall other | other in t.starts ensures PhaseAgrees(t, t.starts[other]) {
      if other != pid {
        OthersUntouched(s, pid, other);
        OthersKeep(s, pid, s.starts[other]);
      } else if pid in s.starts {
        OwnKeeps(s, pid);
      } else {
        assert PhaseAgrees(t, Looking) by {
          LookingAgrees(t);
        }
      }
    }
  }

  lemma LookingAgrees(s: Shared)
    ensures PhaseAgrees(s, Looking)
  {
  }

  lemma OthersUntouched(s: Shared, pid: nat, other: nat)
    requires other != pid && other in After(s, pid).starts
    ensures other in s.starts && After(s, pid).starts[other] == s.starts[other]
  {
  }

  /** Every interleaving of any number of starts keeps the agreement. */
  lemma StartsAgree(run: seq<Shared>, i: nat)
    requires IsRun(Next, run) && i < |run| && Initial(run[0])
    ensures Agreed(run[i])
  {
    forall s, t | Next(s, t) && Agreed(s) ensures Agreed(t) {
      NextKeeps(s, t);
    }
    Invariant(Next, Agreed, run, i);
  }

  /** When some start has finished, forwarding is enabled and the one snapshot is what
      the administrator had; so any two starts ran with the same values. Each guard is in
      place unless some other start is moving it. */
  lemma FinishedStart(run: seq<Shared>, i: nat, pid: nat)
    requires IsRun(Next, run) && i < |run| && Initial(run[0])
    requires pid in run[i].starts && run[i].starts[pid].Holding? && run[i].starts[pid].step == FINISHED
    ensures var s := run[i];
      && s.sysctls == Sysctls(1, 1, 0)
      && s.links == 1 && s.snapshot == Some(s.admin) && s.starts[pid].snapshot == s.admin
      && (s.admin.ipv4Forwarding == 0 && !Moving(s, false) ==> s.guard4)
      && (s.admin.ipv6Forwarding == 0 && !Moving(s, true) ==> s.guard6)
  {
    StartsAgree(run, i);
    var s := run[i];
    assert PhaseAgrees(s, s.starts[pid]);
    assert Get(s.sysctls, ORDER[0]) == 1 && Get(s.sysctls, ORDER[1]) == 1 && Get(s.sysctls, ORDER[2]) == 0;
  }

  // ----------------------------------------------------------------- progress

  predicate Finished(phase: Phase) {
    phase.Holding? && phase.step == FINISHED
  }

  /** At most how many steps a start has still to take. */
  function Remaining(phase: Phase): nat {
    match phase
    case Looking => 13
    case Reading(n, _) => if n <= 3 then 12 - n else 0
    case Rereading => 8
    case Holding(_, step) => if step <= 7 then 7 - step else 0
  }

  /** No start ever waits for another one. */
  lemma StartsProgress(s: Shared, pid: nat)
    requires Agreed(s) && pid in s.starts && !Finished(s.starts[pid])
    ensures pid in After(s, pid).starts && Remaining(After(s, pid).starts[pid]) < Remaining(s.starts[pid])
  {
    hide Covered;
    assert PhaseAgrees(s, s.starts[pid]);
  }

  /** The state after n steps of one start. */
  function Alone(s: Shared, pid: nat, n: nat): Shared
    decreases n
  {
    if n == 0 then s else Alone(After(s, pid), pid, n - 1)
  }

  /** Whatever the others have done, thirteen steps finish any start. */
  lemma {:induction false} StartFinishes(s: Shared, pid: nat, n: nat)
    requires Agreed(s) && pid in s.starts && Remaining(s.starts[pid]) <= n
    ensures pid in Alone(s, pid, n).starts && Finished(Alone(s, pid, n).starts[pid])
    decreases n
  {
    hide After;
    assert PhaseAgrees(s, s.starts[pid]);
    if Finished(s.starts[pid]) {
      FinishedStays(s, pid, n);
    } else {
      StartsProgress(s, pid);
      assert Next(s, After(s, pid));
      NextKeeps(s, After(s, pid));
      StartFinishes(After(s, pid), pid, n - 1);
    }
  }

  lemma {:induction false} FinishedStays(s: Shared, pid: nat, n: nat)
    requires pid in s.starts && Finished(s.starts[pid])
    ensures pid in Alone(s, pid, n).starts && Finished(Alone(s, pid, n).starts[pid])
    decreases n
  {
    if n > 0 {
      FinishedStays(After(s, pid), pid, n - 1);
    }
  }

  /** The loser of the link rereads and goes on with the snapshot that was linked. */
  lemma LoserContinues(s: Shared, pid: nat)
    requires pid in s.starts && s.starts[pid].Reading? && s.starts[pid].count == 3 && s.snapshot.Some?
    ensures var t := After(After(s, pid), pid);
      t == s.(starts := s.starts[pid := Holding(s.snapshot.value, 0)])
  {
    var held := Holding(s.snapshot.value, 0);
    assert s.starts[pid := Rereading][pid := held] == s.starts[pid := held];
  }

  // ---------------------------------------------------- the exception is needed

  ghost predicate Reaches(s: Shared, t: Shared) {
    exists run: seq<Shared> :: run != [] && IsRun(Next, run) && run[0] == s && run[|run| - 1] == t
  }

  lemma ReachesItself(s: Shared)
    ensures Reaches(s, s)
  {
    assert IsRun(Next, [s]);
  }

  lemma Stepping(s: Shared, t: Shared, pid: nat, u: Shared)
    requires Reaches(s, t) && u == After(t, pid)
    ensures Reaches(s, u)
  {
    hide After;
    var run: seq<Shared> :| run != [] && IsRun(Next, run) && run[0] == s && run[|run| - 1] == t;
    assert Next(t, u);
    RunSnoc(Next, run, u);
    assert (run + [u])[0] == s && (run + [u])[|run|] == u;
  }

  const ADMIN := Sysctls(0, 1, 1)

  /** Before the first start, and after it has linked the snapshot. */
  const FRESH := Shared(ADMIN, ADMIN, None, 0, false, false, map[])
  const LINKED := FRESH.(snapshot := Some(ADMIN), links := 1)

  lemma FirstLinks()
    ensures Reaches(FRESH, LINKED.(starts := map[0 := Holding(ADMIN, 0)]))
  {
    hide Reaches;
    var s1 := FRESH.(starts := map[0 := Looking]);
    var s2 := FRESH.(starts := map[0 := Reading(0, ADMIN)]);
    var s3 := FRESH.(starts := map[0 := Reading(1, ADMIN)]);
    var s4 := FRESH.(starts := map[0 := Reading(2, ADMIN)]);
    var s5 := FRESH.(starts := map[0 := Reading(3, ADMIN)]);
    ReachesItself(FRESH);
    Stepping(FRESH, FRESH, 0, s1);
    Stepping(FRESH, s1, 0, s2);
    Stepping(FRESH, s2, 0, s3);
    Stepping(FRESH, s3, 0, s4);
    Stepping(FRESH, s4, 0, s5);
    Stepping(FRESH, s5, 0, LINKED.(starts := map[0 := Holding(ADMIN, 0)]));
  }

  const DONE := LINKED.(sysctls := ENABLED, guard4 := true, starts := map[0 := Holding(ADMIN, FINISHED)])

  lemma FirstFinishes()
    ensures Reaches(FRESH, DONE)
  {
    hide Reaches;
    var s0 := LINKED.(starts := map[0 := Holding(ADMIN, 0)]);
    var s1 := LINKED.(starts := map[0 := Holding(ADMIN, 1)]);
    var s2 := LINKED.(guard4 := true, starts := map[0 := Holding(ADMIN, 2)]);
    var s3 := LINKED.(guard4 := true, starts := map[0 := Holding(ADMIN, 3)]);
    var s4 := LINKED.(guard4 := true, starts := map[0 := Holding(ADMIN, 4)]);
    var s5 := LINKED.(guard4 := true, sysctls := Sysctls(1, 1, 1), starts := map[0 := Holding(ADMIN, 5)]);
    var s6 := LINKED.(guard4 := true, sysctls := Sysctls(1, 1, 1), starts := map[0 := Holding(ADMIN, 6)]);
    FirstLinks();
    Stepping(FRESH, s0, 0, s1);
    Stepping(FRESH, s1, 0, s2);
    Stepping(FRESH, s2, 0, s3);
    Stepping(FRESH, s3, 0, s4);
    Stepping(FRESH, s4, 0, s5);
    Stepping(FRESH, s5, 0, s6);
    Stepping(FRESH, s6, 0, DONE);
  }

  /** Nothing fails, the first start has finished, and a second one has taken out the
      guard of a family that by now forwards. */
  lemma SecondStartOpens() returns (run: seq<Shared>)
    ensures run != [] && IsRun(Next, run) && Initial(run[0])
    ensures var s := run[|run| - 1];
      && 0 in s.starts && s.starts[0].Holding? && s.starts[0].step == FINISHED
      && s.sysctls == ENABLED && s.admin.ipv4Forwarding == 0 && Moving(s, false) && !s.guard4
  {
    var first := Holding(ADMIN, FINISHED);
    var s1 := DONE.(starts := map[0 := first, 1 := Looking]);
    var s2 := DONE.(starts := map[0 := first, 1 := Rereading]);
    var s3 := DONE.(starts := map[0 := first, 1 := Holding(ADMIN, 0)]);
    var s4 := DONE.(guard4 := false, starts := map[0 := first, 1 := Holding(ADMIN, 1)]);
    assert Reaches(FRESH, s4) by {
      hide Reaches;
      FirstFinishes();
      Stepping(FRESH, DONE, 1, s1);
      Stepping(FRESH, s1, 1, s2);
      Stepping(FRESH, s2, 1, s3);
      Stepping(FRESH, s3, 1, s4);
    }
    run :| run != [] && IsRun(Next, run) && run[0] == FRESH && run[|run| - 1] == s4;
    assert Between(s4.starts[1], false);
  }
}
