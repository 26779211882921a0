/** Saving, replacing and restoring resolv.conf. Every file operation may fail, with
    or without having taken effect, other managers may rewrite resolv.conf between any
    two steps, and the process may die anywhere: trace records every state passed. */
module Resolver {
  import opened Options
  import opened Runs
  import opened ResolverRuns

  // ------------------------------------------------------------ external nameservers

  /** How the host reads text through a path and classifies addresses. text yields each
      line's fields after comments are cut off, or None when it cannot be read;
      loopback is None for what is not an address. */
  datatype Reader = Reader(text: Node -> Option<seq<seq<string>>>, loopback: string -> Option<bool>)

  /** Reading through mitmwall's link reads the stub file. */
  ghost predicate FollowsLinks(r: Reader) {
    forall n :: IsStub(n) ==> r.text(n) == r.text(STUB_LINK)
  }

  function BeforeScope(address: string): string {
    if address == "" || address[0] == '%' then "" else [address[0]] + BeforeScope(address[1..])
  }

  /** A nameserver line with anything but a loopback address. */
  predicate ExternalLine(r: Reader, fields: seq<string>) {
    |fields| >= 2 && fields[0] == "nameserver" && r.loopback(BeforeScope(fields[1])) != Some(true)
  }

  predicate UsesExternal(r: Reader, n: Node) {
    var text := r.text(n);
    text.Some? && exists i :: 0 <= i < |text.value| && ExternalLine(r, text.value[i])
  }

  lemma {:induction false} BeforeScopeCuts(address: string, scope: string)
    requires '%' !in address
    ensures BeforeScope(address) == address && BeforeScope(address + "%" + scope) == address
    decreases address
  {
    if address != "" {
      assert '%' !in address[1..];
      BeforeScopeCuts(address[1..], scope);
      assert (address + "%" + scope)[0] == address[0];
      assert (address + "%" + scope)[1..] == address[1..] + "%" + scope;
    }
  }

  /** A nameserver line counts unless its address, without any scope, is a loopback
      address; what is not an address counts, too. Other lines never do. */
  lemma NameserverLine(r: Reader, fields: seq<string>, address: string, scope: string)
    requires |fields| >= 2 && '%' !in address && (fields[1] == address || fields[1] == address + "%" + scope)
    ensures fields[0] == "nameserver" ==>
      (ExternalLine(r, fields) <==> r.loopback(address) == Some(false) || r.loopback(address) == None)
    ensures fields[0] != "nameserver" ==> !ExternalLine(r, fields)
    ensures !ExternalLine(r, fields[..1]) && !ExternalLine(r, [])
  {
    BeforeScopeCuts(address, scope);
    var l := r.loopback(address);
    assert r.loopback(BeforeScope(fields[1])) == l;
    assert l == None || l == Some(true) || l == Some(false) by {
      if l.Some? && !l.value {
        assert l == Some(false);
      }
    }
  }

  /** One such line is enough, wherever it stands; without text there is none. */
  lemma ExternalAnywhere(r: Reader, n: Node, before: seq<seq<string>>, line: seq<string>, after: seq<seq<string>>)
    requires r.text(n) == Some(before + [line] + after)
    ensures ExternalLine(r, line) ==> UsesExternal(r, n)
    ensures forall m :: r.text(m) == None ==> !UsesExternal(r, m)
    ensures (forall l :: l in before + [line] + after ==> !ExternalLine(r, l)) ==> !UsesExternal(r, n)
  {
    assert (before + [line] + after)[|before|] == line;
  }

  method UsesExternalNameserver(r: Reader, n: Node) returns (external: bool)
    ensures external <==> UsesExternal(r, n)
  {
    var text := r.text(n);
    if text.None? {
      return false;
    }
    for i := 0 to |text.value|
      invariant forall j :: 0 <= j < i ==> !ExternalLine(r, text.value[j])
    {
      var fields := text.value[i];
      if |fields| < 2 || fields[0] != "nameserver" {
        continue;
      }
      if r.loopback(BeforeScope(fields[1])) != Some(true) {
        return true;
      }
    }
    return false;
  }

  /** What the host provides to the start action. */
  datatype Environment = Environment(reader: Reader, enabled: bool, resolvedActive: bool, stubIsFile: bool)

  /** Only an external nameserver makes a switch necessary, and only a running local
      resolver makes it possible. */
  ghost predicate Needed(env: Environment, resolv: Node) {
    env.enabled && UsesExternal(env.reader, resolv)
  }

  ghost predicate Possible(env: Environment) {
    env.resolvedActive && env.stubIsFile && !UsesExternal(env.reader, STUB_LINK)
  }

  /** Only regular files and links can be saved. */
  predicate Saveable(n: Node) {
    n.File? || n.Link?
  }

  /** A failed start has put back what it saved, or could not do that either. */
  datatype Outcome = Success | RolledBack | Stuck

  class Resolver {
    var resolv: Node
    var state: Option<Node>
    var legacy: Option<Node>
    ghost var foreign: Node
    ghost var raced: bool
    ghost var rewrites: nat
    /** How many file operations have failed so far. */
    ghost var faults: nat
    ghost var trace: seq<Disk>

    ghost function Observe(): Disk
      reads this
    {
      Disk(resolv, state, legacy, foreign, raced)
    }

    ghost predicate Valid()
      reads this
    {
      trace != [] && trace[|trace| - 1] == Observe() && IsRun(Step, trace)
    }

    constructor (initial: Disk)
      ensures Valid() && Observe() == initial && |trace| == 1
    {
      resolv := initial.resolv;
      state := initial.state;
      legacy := initial.legacy;
      foreign := initial.foreign;
      raced := initial.raced;
      rewrites := 0;
      faults := 0;
      trace := [initial];
    }

    /** The run goes on and nobody else's work is forgotten. */
    twostate predicate Continues()
      reads this
    {
      Valid() && old(trace) <= trace && old(rewrites) <= rewrites && old(faults) <= faults
    }

    ghost method Record(k: Kind)
      requires trace != [] && IsRun(Step, trace)
      requires Enabled(trace[|trace| - 1], k) && Observe() == Apply(trace[|trace| - 1], k)
      modifies this`trace
      ensures Valid() && trace == old(trace) + [Observe()]
    {
      RunSnoc(Step, trace, Observe());
      trace := trace + [Observe()];
    }

    /** A file operation that may fail, with or without having taken effect. */
    method Attempt() returns (effect: bool, ok: bool)
      modifies this`faults
      ensures ok ==> effect
      ensures faults == if ok then old(faults) else old(faults) + 1
    {
      effect := *;
      ok := *;
      ok := ok && effect;
      if !ok {
        faults := faults + 1;
      }
    }

    /** Other managers run for a while. Outside the windows this is harmless. */
    method Interfere(inWindow: bool)
      requires Valid()
      modifies this
      ensures Continues() && state == old(state) && legacy == old(legacy) && faults == old(faults)
      ensures rewrites == old(rewrites) ==> resolv == old(resolv) && foreign == old(foreign) && raced == old(raced)
      ensures rewrites != old(rewrites) ==> ForeignContent(resolv) && foreign == resolv && raced == inWindow
    {
      var busy: bool := *;
      if busy {
        var n: Node := *;
        if ForeignContent(n) {
          resolv := n;
          foreign := n;
          raced := inWindow;
          rewrites := rewrites + 1;
          Record(ForeignWrites(n, inWindow));
        }
      }
    }

    // ---------------------------------------------------------------- file operations

    method FindResolverStateFile() returns (inState: bool, found: Option<Node>)
      ensures found == Found(Observe()) && (inState <==> state.Some?)
    {
      inState := state.Some?;
      found := if state.Some? then state else legacy;
    }

    /** Unlinking the file that was found: the current snapshot or the historical one. */
    method RemoveResolverState(inState: bool) returns (ok: bool)
      requires Valid() && MayForget(Observe())
      modifies this
      ensures Continues() && resolv == old(resolv) && foreign == old(foreign)
      ensures raced == old(raced) && rewrites == old(rewrites)
      ensures ok <==> faults == old(faults)
      ensures inState ==> legacy == old(legacy) && (state == old(state) || state == None) && (ok ==> state == None)
      ensures !inState ==> state == old(state) && (legacy == old(legacy) || legacy == None) && (ok ==> legacy == None)
    {
      var effect;
      effect, ok := Attempt();
      if effect {
        if inState {
          state := None;
          Record(ForgetState);
        } else {
          legacy := None;
          Record(ForgetLegacy);
        }
      }
    }

    method WriteResolverState(saved: Node) returns (ok: bool)
      requires Valid() && state.None? && legacy.None? && !IsStub(resolv)
      modifies this
      ensures Continues() && resolv == old(resolv) && foreign == old(foreign)
      ensures raced == old(raced) && rewrites == old(rewrites)
      ensures ok <==> faults == old(faults)
      ensures legacy == old(legacy) && (state == None || state == Some(saved)) && (ok ==> state == Some(saved))
    {
      var effect;
      effect, ok := Attempt();
      if effect {
        state := Some(saved);
        Record(Save(saved));
      }
    }

    method ReplaceWithStub() returns (ok: bool)
      requires Valid() && Enabled(Observe(), Install)
      modifies this
      ensures Continues() && state == old(state) && legacy == old(legacy) && foreign == old(foreign)
      ensures raced == old(raced) && rewrites == old(rewrites) && (ok <==> faults == old(faults))
      ensures resolv == old(resolv) || resolv == STUB_LINK
      ensures ok ==> resolv == STUB_LINK
    {
      var effect;
      effect, ok := Attempt();
      if effect {
        resolv := STUB_LINK;
        Record(Install);
      }
    }

    method ReplaceWithSaved(saved: Node) returns (ok: bool)
      requires Valid() && Enabled(Observe(), Replace(AsReplaced(saved)))
      modifies this
      ensures Continues() && state == old(state) && legacy == old(legacy) && foreign == old(foreign)
      ensures raced == old(raced) && rewrites == old(rewrites) && (ok <==> faults == old(faults))
      ensures resolv == old(resolv) || resolv == AsReplaced(saved)
      ensures ok ==> resolv == AsReplaced(saved)
    {
      var effect;
      effect, ok := Attempt();
      if effect {
        resolv := AsReplaced(saved);
        Record(Replace(AsReplaced(saved)));
      }
    }

    /** Changes the owner of whatever is at the path by now. */
    method ChownResolvConf(uid: nat, gid: nat) returns (ok: bool)
      requires Valid() && (raced || resolv.Link?)
      modifies this
      ensures Continues() && state == old(state) && legacy == old(legacy) && foreign == old(foreign)
      ensures raced == old(raced) && rewrites == old(rewrites) && (ok <==> faults == old(faults))
      ensures resolv == old(resolv) || resolv == Owned(old(resolv), uid, gid)
      ensures ok ==> resolv == Owned(old(resolv), uid, gid)
    {
      var effect;
      effect, ok := Attempt();
      if effect {
        resolv := Owned(resolv, uid, gid);
        Record(Chown(uid, gid));
      }
    }

    // ------------------------------------------------------------------- migration

    /** Moves a historical snapshot to the current place, or drops it when there is a
        current one already. */
    method MigrateLegacyResolverState() returns (ok: bool)
      requires Valid()
      modifies this
      ensures Continues() && (rewrites == old(rewrites) ==> resolv == old(resolv))
      ensures Found(Observe()) == old(Found(Observe()))
      ensures raced ==> old(raced)
      ensures ok ==> legacy == None && state == old(Found(Observe()))
      ensures ok <==> faults == old(faults)
    {
      hide Step, IsRun;
      if legacy.None? {
        return true;
      }
      if state.None? {
        var _, copied := Attempt();
        if !copied {
          return false;
        }
        state := legacy;
        Record(CopyLegacy);
        Interfere(false);
      }
      var unlinked;
      unlinked, ok := Attempt();
      if unlinked {
        legacy := None;
        Record(DropLegacy);
      }
    }

    // --------------------------------------------------------------------- start

    /** Saves what is at resolv.conf unless a snapshot exists. Reading and writing are
        the beginning of the first window. */
    method SaveResolverState() returns (ok: bool)
      requires Valid() && (Found(Observe()).None? ==> !IsStub(resolv))
      modifies this
      ensures Continues() && legacy == old(legacy)
      ensures old(Found(Observe())).Some? ==>
        ok && state == old(state) && resolv == old(resolv) && raced == old(raced) && faults == old(faults)
      ensures ok <==>
        faults == old(faults) && (old(Found(Observe())).Some? || old(resolv).File? || old(resolv).Link?)
      ensures !old(IsStub(resolv)) ==> !IsStub(resolv)
      ensures ok && old(Found(Observe())).None? ==> state.Some? && (raced || state == Some(resolv))
      ensures ok && old(Found(Observe())).None? && rewrites == old(rewrites) ==> state == Some(old(resolv))
      ensures rewrites == old(rewrites) ==> resolv == old(resolv)
    {
      var _, found := FindResolverStateFile();
      if found.Some? {
        return true;
      }
      var saved := resolv;
      if !Saveable(saved) {
        return false;
      }
      Interfere(true);
      ok := WriteResolverState(saved);
      Interfere(true);
    }

    /** Drops the previous snapshot, saves what is at resolv.conf now and installs the
        stub. */
    method SwitchToStub() returns (ok: bool)
      requires Valid() && !IsStub(resolv)
      requires state.None? || legacy.None?
      modifies this
      ensures Continues()
      ensures ok ==> resolv == STUB_LINK && faults == old(faults)
      ensures rewrites == old(rewrites) && resolv != old(resolv)
        ==> resolv == STUB_LINK && Found(Observe()) == Some(old(resolv))
      ensures rewrites == old(rewrites) && faults == old(faults) && Saveable(old(resolv)) ==> ok
    {
      var inState, previous := FindResolverStateFile();
      if previous.Some? {
        Interfere(false);
        var removed := RemoveResolverState(inState);
        if !removed {
          return false;
        }
      }
      Interfere(false);
      ok := SaveResolverState();
      if !ok {
        return false;
      }
      ok := ReplaceWithStub();
    }

    /** A snapshot is never taken of mitmwall's own link:
        an external nameserver read through the link is one in the stub file. */
    method ConfigureSystemResolver(env: Environment) returns (ok: bool)
      requires Valid() && FollowsLinks(env.reader)
      requires state.None? || legacy.None?
      modifies this
      ensures Continues()
      ensures !Needed(env, old(resolv)) ==> ok && Observe() == old(Observe()) && faults == old(faults)
      ensures ok && (!env.enabled || !UsesExternal(env.reader, old(resolv))) ==> Observe() == old(Observe())
      ensures env.enabled && UsesExternal(env.reader, old(resolv)) ==>
        (!env.resolvedActive || !env.stubIsFile || UsesExternal(env.reader, STUB_LINK)) ==> !ok
      ensures (env.enabled && UsesExternal(env.reader, old(resolv)) && env.resolvedActive && env.stubIsFile
               && !UsesExternal(env.reader, STUB_LINK) && (old(resolv).File? || old(resolv).Link?)
               && rewrites == old(rewrites) && faults == old(faults)) ==> ok && resolv == STUB_LINK
      ensures Needed(env, old(resolv)) && !Possible(env) ==> !ok && state == old(state) && legacy == old(legacy)
      ensures ok ==> faults == old(faults) && (Needed(env, old(resolv)) ==> resolv == STUB_LINK)
      ensures rewrites == old(rewrites) && resolv != old(resolv)
        ==> resolv == STUB_LINK && Found(Observe()) == Some(old(resolv))
      ensures rewrites == old(rewrites) && faults == old(faults) && Possible(env) && Saveable(old(resolv)) ==> ok
      ensures old(IsStub(resolv)) ==> state == old(state) && legacy == old(legacy)
    {
      if !env.enabled {
        return true;
      }
      var external := UsesExternalNameserver(env.reader, resolv);
      if !external {
        return true;
      }
      Interfere(false);
      if !env.resolvedActive || !env.stubIsFile {
        return false;
      }
      var stubExternal := UsesExternalNameserver(env.reader, STUB_LINK);
      if stubExternal {
        return false;
      }
      assert !old(IsStub(resolv));
      ok := SwitchToStub();
    }

    // ---------------------------------------------------------------------- stop

    /** From the check that the stub is in place to the last step of putting the saved
        content back; up to the change of owner this is the second window. */
    method PutBack(inState: bool, saved: Node) returns (ok: bool)
      requires Valid() && Found(Observe()) == Some(saved) && (inState <==> state.Some?)
      requires resolv.Missing? || IsStub(resolv)
      modifies this
      ensures Continues()
      ensures ok <==> faults == old(faults)
      ensures ok && !raced ==> !IsStub(resolv) || (IsStub(saved) && !old(raced))
      ensures ok && rewrites == old(rewrites) ==> resolv == saved
      ensures ok ==> state == None && (!inState ==> legacy == None)
    {
      hide Step, IsRun;
      Interfere(true);
      ok := ReplaceWithSaved(saved);
      if !ok {
        return;
      }
      if saved.Link? {
        Interfere(true);
        ok := ChownResolvConf(saved.uid, saved.gid);
        if !ok {
          return;
        }
      }
      Interfere(false);
      ok := RemoveResolverState(inState);
    }

    /** Puts the saved content back if the stub is still in place, and otherwise keeps
        what another manager put there. */
    method RestoreSystemResolver() returns (ok: bool)
      requires Valid()
      modifies this
      ensures Continues() && (ok <==> faults == old(faults))
      ensures ok && !raced && old(Found(Observe())).Some? && IsStub(resolv) ==>
        IsStub(old(Found(Observe())).value) && !old(raced) && (old(IsStub(resolv)) || old(resolv.Missing?))
      ensures old(Found(Observe())).None? ==> ok && resolv == old(resolv) && raced == old(raced)
      ensures (ok && rewrites == old(rewrites) && old(Found(Observe())).Some?
               && (old(IsStub(resolv)) || old(resolv).Missing?)) ==> resolv == old(Found(Observe())).value
      ensures ok && rewrites == old(rewrites) && !old(IsStub(resolv)) && !old(resolv).Missing? ==> resolv == old(resolv)
      ensures ok ==> state == None && (old(state).None? ==> legacy == None)
    {
      var inState, found := FindResolverStateFile();
      if found.None? {
        return true;
      }
      Interfere(false);
      if !resolv.Missing? && !IsStub(resolv) {
        Interfere(false);
        ok := RemoveResolverState(inState);
        return;
      }
      var _, readable := Attempt();
      if !readable {
        return false;
      }
      ok := PutBack(inState, found.value);
    }

    // --------------------------------------------------------------- whole actions

    /** The resolver's part of the start action: migration first, so that the snapshot
        taken is always of the present content. A failure here or in the rest of the
        action restores, unless restoring forwarding failed before. */
    method Start(env: Environment, restSucceeds: bool, forwardingRestored: bool) returns (r: Outcome)
      requires Valid() && FollowsLinks(env.reader)
      modifies this
      ensures Continues()
      ensures r == Success ==> restSucceeds && faults == old(faults)
      ensures r == Success && rewrites == old(rewrites) ==>
        if Needed(env, old(resolv)) then resolv == STUB_LINK && Found(Observe()) == Some(old(resolv))
        else resolv == old(resolv) && Found(Observe()) == old(Found(Observe()))
      ensures (rewrites == old(rewrites) && faults == old(faults) && restSucceeds
               && (Needed(env, old(resolv)) ==> Possible(env) && Saveable(old(resolv)))) ==> r == Success
      ensures r == RolledBack && rewrites == old(rewrites) && ForeignContent(old(resolv)) ==> resolv == old(resolv)
      ensures r == RolledBack && rewrites == old(rewrites) && old(IsStub(resolv)) && old(Found(Observe())).Some? ==>
        resolv == old(Found(Observe())).value
      ensures r == Stuck ==> faults > old(faults) || !forwardingRestored
      ensures r == Stuck && forwardingRestored && restSucceeds && rewrites == old(rewrites) ==>
        faults >= old(faults) + 2 || (Needed(env, old(resolv)) && !(Possible(env) && Saveable(old(resolv))))
      ensures r == RolledBack ==> state == None
      ensures (!restSucceeds && !forwardingRestored && rewrites == old(rewrites) && faults == old(faults)
               && Needed(env, old(resolv)) && Possible(env) && Saveable(old(resolv))) ==>
        && r == Stuck && resolv == Link("/run/systemd/resolve/stub-resolv.conf", 0, 0)
        && Found(Observe()) == Some(old(resolv))
    {
      var ok := MigrateLegacyResolverState();
      if ok {
        ok := ConfigureSystemResolver(env);
      }
      if ok && restSucceeds {
        return Success;
      }
      if !forwardingRestored {
        return Stuck;
      }
      var restored := RestoreSystemResolver();
      r := if restored then RolledBack else Stuck;
    }

    /** A completed stop, from any state a run of starts, stops and deaths can reach,
        leaves what another manager last put into resolv.conf. */
    method Stop() returns (ok: bool)
      requires Valid() && SafeUnlessRaced(Observe())
      modifies this
      ensures Continues() && SafeUnlessRaced(Observe()) && (ok <==> faults == old(faults))
      ensures ok && !raced ==> !IsStub(resolv) && Like(resolv, foreign)
      ensures ok ==> state == None && (old(state).None? ==> legacy == None)
    {
      ghost var n := |trace| - 1;
      ok := RestoreSystemResolver();
      ghost var run := trace[n..];
      assert forall i :: 0 <= i < |run| ==> run[i] == trace[n + i];
      assert IsRun(Step, run) && run[0] == old(Observe()) && run[|run| - 1] == Observe();
      SnapshotIsLastForeign([run], 0, |run| - 1);
    }
  }
}
