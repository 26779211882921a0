/** The resolv.conf protocol as guarded steps on what is on disk: resolv.conf itself,
    the current and the historical snapshot file. foreign is the last content some
    other manager put into resolv.conf. raced records that the last such rewrite
    fell into one of the windows the code leaves between looking at resolv.conf and
    replacing it. */
module ResolverRuns {
  import opened Options
  import opened Runs

  /** What is at a path. Special stands for anything but a file or a link. */
  datatype Node =
    | Missing
    | File(content: string, uid: nat, gid: nat, mode: nat)
    | Link(target: string, uid: nat, gid: nat)
    | Special

  const STUB := "/run/systemd/resolve/stub-resolv.conf"

  predicate IsStub(n: Node) {
    n.Link? && n.target == STUB
  }

  /** The link mitmwall installs. */
  const STUB_LINK := Link(STUB, 0, 0)

  /** The same file, or links to the same target whoever owns them. */
  predicate Like(a: Node, b: Node) {
    if a.Link? && b.Link? then a.target == b.target else a == b
  }

  datatype Disk = Disk(resolv: Node, state: Option<Node>, legacy: Option<Node>, foreign: Node, raced: bool)

  /** The snapshot that would be restored: the current one, else a historical one. */
  function Found(d: Disk): Option<Node> {
    if d.state.Some? then d.state else d.legacy
  }

  datatype Kind =
    | Stay
    | ForeignWrites(node: Node, inWindow: bool)
    | CopyLegacy
    | DropLegacy
    | Save(node: Node)
    | ForgetState
    | ForgetLegacy
    | Install
    | Replace(node: Node)
    | Chown(uid: nat, gid: nat)

  /** Other managers neither delete resolv.conf nor install mitmwall's own link. */
  predicate ForeignContent(n: Node) {
    !n.Missing? && !IsStub(n)
  }

  /** What the restoration puts in place of the stub: links come back owned by root. */
  function AsReplaced(saved: Node): Node {
    if saved.Link? then Link(saved.target, 0, 0) else saved
  }

  function Owned(n: Node, uid: nat, gid: nat): Node {
    match n
    case File(content, _, _, mode) => File(content, uid, gid, mode)
    case Link(target, _, _) => Link(target, uid, gid)
    case _ => n
  }

  /** A snapshot goes only while resolv.conf does not depend on it. */
  predicate MayForget(d: Disk) {
    d.raced || !IsStub(d.resolv) || (Found(d).Some? && IsStub(Found(d).value))
  }

  predicate Enabled(d: Disk, k: Kind) {
    match k
    case Stay => true
    case ForeignWrites(n, _) => ForeignContent(n)
    case CopyLegacy => d.state.None? && d.legacy.Some?
    case DropLegacy => d.state.Some?
    case Save(_) => d.state.None? && d.legacy.None? && !IsStub(d.resolv)
    case ForgetState => MayForget(d)
    case ForgetLegacy => MayForget(d)
    case Install => d.raced || (Found(d).Some? && Like(Found(d).value, d.resolv) && !IsStub(d.resolv))
    case Replace(n) => d.raced || ((IsStub(d.resolv) || d.resolv.Missing?)
                                   && Found(d).Some? && n == AsReplaced(Found(d).value))
    case Chown(_, _) => d.raced || d.resolv.Link?
  }

  function Apply(d: Disk, k: Kind): Disk
    requires Enabled(d, k)
  {
    match k
    case Stay => d
    case ForeignWrites(n, inWindow) => d.(resolv := n, foreign := n, raced := inWindow)
    case CopyLegacy => d.(state := d.legacy)
    case DropLegacy => d.(legacy := None)
    case Save(n) => d.(state := Some(n))
    case ForgetState => d.(state := None)
    case ForgetLegacy => d.(legacy := None)
    case Install => d.(resolv := STUB_LINK)
    case Replace(n) => d.(resolv := n)
    case Chown(uid, gid) => d.(resolv := Owned(d.resolv, uid, gid))
  }

  ghost predicate Step(d: Disk, e: Disk) {
    exists k :: Enabled(d, k) && e == Apply(d, k)
  }

  /** If resolv.conf is mitmwall's link, the snapshot holds what was last there before;
      otherwise that content is still in place. */
  predicate Safe(d: Disk) {
    && ForeignContent(d.foreign)
    && if IsStub(d.resolv) then Found(d).Some? && Like(Found(d).value, d.foreign)
       else Like(d.resolv, d.foreign)
  }

  predicate SafeUnlessRaced(d: Disk) {
    d.raced || Safe(d)
  }

  lemma StepKeeps(d: Disk, e: Disk)
    requires Step(d, e) && SafeUnlessRaced(d)
    ensures SafeUnlessRaced(e)
  {
  }

  /** Over every interleaving of starts, stops, deaths between file steps and foreign
      rewrites, whenever the last rewrite fell outside the windows. */
  lemma SnapshotIsLastForeign(lives: seq<seq<Disk>>, i: nat, k: nat)
    requires AreLives(Step, lives) && i < |lives| && k < |lives[i]| && SafeUnlessRaced(lives[0][0])
    ensures SafeUnlessRaced(lives[i][k])
  {
    forall d, e | Step(d, e) && SafeUnlessRaced(d) ensures SafeUnlessRaced(e) {
      StepKeeps(d, e);
    }
    LivesKeep(Step, SafeUnlessRaced, lives, i, k);
  }

  // ---------------------------------------------------------------- the two windows

  /** Putting the stub in place keeps the promise exactly when resolv.conf still is
      what was saved; the code does not look again before it replaces the file. */
  lemma InstallExactly(d: Disk, saved: Node)
    requires Safe(d) && !IsStub(d.resolv) && Found(d) == Some(saved)
    ensures Safe(d.(resolv := STUB_LINK)) <==> Like(saved, d.resolv)
  {
  }

  /** Putting the saved content back keeps the promise exactly when resolv.conf still is
      the stub, or has in the meantime been given the saved content by somebody else. */
  lemma ReplaceExactly(d: Disk, saved: Node)
    requires Safe(d) && Found(d) == Some(saved) && ForeignContent(saved)
    ensures Safe(d.(resolv := AsReplaced(saved))) <==> IsStub(d.resolv) || Like(saved, d.resolv)
  {
  }

  /** A rewrite inside the first window is lost: here the stub is up, the snapshot holds
      the older content, and a completed stop brings the older content back. */
  lemma RewriteInWindowIsLost(older: Node, newer: Node)
    returns (run: seq<Disk>)
    requires older.File? && newer.File? && older != newer
    ensures IsRun(Step, run) && |run| > 0 && Safe(run[0]) && !run[0].raced
    ensures var last := run[|run| - 1]; last.foreign == newer && last.resolv == older && Found(last) == None
  {
    var d0 := Disk(older, None, None, older, false);
    var d1 := Apply(d0, Save(older));
    var d2 := Apply(d1, ForeignWrites(newer, true));
    var d3 := Apply(d2, Install);
    var d4 := Apply(d3, Replace(older));
    var d5 := Apply(d4, ForgetState);
    run := [d0, d1, d2, d3, d4, d5];
    assert Step(d0, d1) && Step(d1, d2) && Step(d2, d3) && Step(d3, d4) && Step(d4, d5);
  }
}
