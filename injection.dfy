/** `VMInjectionTool` (scripts/faasr_inject_vm.py:41-433): the tool holds the
    loaded workflow document in `workflow`; its queries walk `ActionList`
    and `ComputeServers` step by step, and its two injectors rewrite the
    document. Every method is proved to compute exactly the pure functions
    of topology.dfy and injection_spec.dfy, whose properties are proved
    there and in injection_props.dfy. */
module Injection {
  import opened Base
  import opened Dicts
  import opened Schema
  import opened Topology
  import opened InjectionSpec
  import opened InjectionProps

  /** The normalisation at lines 103-115: a string is one target, a list is
      its elements, a dict contributes the targets of each label in order. */
  method NextActions(inv: InvokeNext) returns (ts: seq<string>)
    ensures ts == Successors(inv)
  {
    match inv {
      case Missing =>
        ts := [];
      case Str(n) =>
        ts := [n];
      case List(ns) =>
        ts := ns;
      case Cond(bs) =>
        ts := [];
        var i := 0;
        while i < |bs|
          invariant 0 <= i <= |bs|
          invariant ts == BranchTargets(bs[..i])
        {
          assert bs[..i + 1][..i] == bs[..i];
          match bs[i].targets {
            case Many(ns) => ts := ts + ns;
            case One(n) => ts := ts + [n];
          }
          i := i + 1;
        }
        assert bs[..i] == bs;
    }
  }

  /** The inner loop at lines 117-119: one more action's successors are
      counted, names outside the graph being skipped. */
  method AddCounts(count: map<string, nat>, next: seq<string>) returns (c: map<string, nat>)
    ensures c.Keys == count.Keys
    ensures forall k :: k in c ==> c[k] == count[k] + Count(next, k)
  {
    c := count;
    var j := 0;
    while j < |next|
      invariant 0 <= j <= |next|
      invariant c.Keys == count.Keys
      invariant forall k :: k in c ==> c[k] == count[k] + Count(next[..j], k)
    {
      assert next[..j + 1] == next[..j] + [next[j]];
      forall k | k in c {
        CountAppend(next[..j], k, next[j]);
      }
      if next[j] in c {
        c := c[next[j] := c[next[j]] + 1];
      }
      j := j + 1;
    }
    assert next[..j] == next;
  }

  /** The counting pass of `find_entry_action` (lines 97-120): every action
      name starts at zero and gains one for each time an action names it. */
  method CountPredecessors(d: ODict<Action>) returns (count: map<string, nat>)
    requires d.Valid()
    ensures count.Keys == d.vals.Keys
    ensures forall k :: k in count ==> count[k] == InDegree(d, d.keys, k)
  {
    count := map k | k in d.vals :: 0;
    var i := 0;
    while i < |d.keys|
      invariant 0 <= i <= |d.keys|
      invariant count.Keys == d.vals.Keys
      invariant forall k :: k in count ==> count[k] == InDegree(d, d.keys[..i], k)
    {
      var name := d.keys[i];
      assert d.keys[..i + 1][..i] == d.keys[..i];
      var next := NextActions(d.vals[name].invokeNext);
      count := AddCounts(count, next);
      i := i + 1;
    }
    assert d.keys[..i] == d.keys;
  }

  /** The loop at lines 253-255 (and 372-374): every leaf's `InvokeNext`
      becomes `[stop]`. */
  method PointLeaves(d: ODict<Action>, leaves: seq<string>, stop: string) returns (r: ODict<Action>)
    requires forall l :: l in leaves ==> l in d.vals
    ensures r == PointLeavesTo(d, leaves, stop)
  {
    r := d;
    var i := 0;
    while i < |leaves|
      invariant 0 <= i <= |leaves|
      invariant r.keys == d.keys && r.vals.Keys == d.vals.Keys
      invariant forall k :: k in r.vals ==>
        r.vals[k] == if k in leaves[..i] then d.vals[k].(invokeNext := List([stop])) else d.vals[k]
    {
      assert leaves[..i + 1] == leaves[..i] + [leaves[i]];
      var leaf := leaves[i];
      r := r.Put(leaf, r.vals[leaf].(invokeNext := List([stop])));
      i := i + 1;
    }
    assert leaves[..i] == leaves;
    assert r.vals == PointLeavesTo(d, leaves, stop).vals;
  }

  /** The loop at lines 333-336: the actions with a truthy `RequiresVM`, in
      `ActionList` order. */
  method CollectVmActions(d: ODict<Action>) returns (vms: seq<string>)
    requires d.Valid()
    ensures vms == VmActionsIn(d, d.keys)
  {
    vms := [];
    var i := 0;
    while i < |d.keys|
      invariant 0 <= i <= |d.keys|
      invariant vms == VmActionsIn(d, d.keys[..i])
    {
      assert d.keys[..i + 1][..i] == d.keys[..i];
      if d.vals[d.keys[i]].requiresVM {
        vms := vms + [d.keys[i]];
      }
      i := i + 1;
    }
    assert d.keys[..i] == d.keys;
  }

  /** The loop at lines 358-369, as the code runs it: a string edge is
      wrapped into a list; every action but the gate `p` whose edge iterates
      `v` (the list elements, or a dict's condition labels) gets the list of
      those names with `v` replaced by `p`. */
  method RedirectActions(d: ODict<Action>, v: string, p: string) returns (r: ODict<Action>)
    requires d.Valid()
    ensures r == RedirectAll(AsWritten, d, v, p)
  {
    r := d;
    var j := 0;
    while j < |d.keys|
      invariant 0 <= j <= |d.keys|
      invariant r.keys == d.keys && r.vals.Keys == d.vals.Keys
      invariant forall k :: k in r.vals ==>
        r.vals[k] == if k in d.keys[..j] && k != p then d.vals[k].(invokeNext := RedirectAsWritten(d.vals[k].invokeNext, v, p)) else d.vals[k]
    {
      assert d.keys[..j + 1] == d.keys[..j] + [d.keys[j]];
      var name := d.keys[j];
      assert name !in d.keys[..j];
      if name != p {
        var next := Iterated(r.vals[name].invokeNext);
        if v in next {
          r := r.Put(name, r.vals[name].(invokeNext := List(Replace(next, v, p))));
        }
      }
      j := j + 1;
    }
    assert d.keys[..j] == d.keys;
    assert r.vals == RedirectAll(AsWritten, d, v, p).vals;
  }

  /** One iteration of the loop at lines 338-369: the gate-name check, the
      gate node, its container and the redirection of its predecessors. */
  method AddGate(s: Stage, v: string, server: string, container: Option<string>) returns (r: Result<Stage, EngineError>)
    requires s.actions.Valid() && s.containers.Valid()
    ensures r == GateOne(AsWritten, s, v, server, container)
    ensures r.Ok? ==> r.value.actions.Valid() && r.value.containers.Valid()
    ensures r.Ok? ==> s.actions.vals.Keys <= r.value.actions.vals.Keys
  {
    var poll := PollName(v);
    if poll in s.actions.vals {
      return Err(NameConflict(poll));
    }
    var d := s.actions.Put(poll, Builtin("vm_poll", server, [v]));
    var cs := s.containers;
    if container.Some? {
      cs := cs.Put(poll, container.value);
    }
    d := RedirectActions(d, v, poll);
    r := Ok(Stage(d, cs));
    GateOneKeys(AsWritten, s, v, server, container);
  }

  /** The document while the gating loop runs: `ActionList` is the stage's,
      and so is `ActionContainers` once a container is being written. */
  ghost predicate Written(w0: Workflow, w: Workflow, s: Stage, container: Option<string>) {
    w == w0.(actionList := Some(s.actions), containers := if container.Some? then Some(s.containers) else w0.containers)
  }

  class VMInjectionTool {
    /** `self.workflow`, the document as loaded. */
    var workflow: Workflow

    constructor (w: Workflow)
      ensures workflow == w
    {
      workflow := w;
    }

    /** `needs_vm` (lines 78-88): `ActionList` exists and one of its actions
      has a truthy `RequiresVM`. */
    method NeedsVm() returns (b: bool)
      requires WellFormed(workflow)
      ensures b <==> VmRequired(workflow)
    {
      if workflow.actionList.None? {
        return false;
      }
      var d := workflow.actionList.value;
      var i := 0;
      while i < |d.keys|
        invariant 0 <= i <= |d.keys|
        invariant forall j :: 0 <= j < i ==> !d.vals[d.keys[j]].requiresVM
      {
        if d.vals[d.keys[i]].requiresVM {
          return true;
        }
        i := i + 1;
      }
      forall k | k in d.vals
        ensures !d.vals[k].requiresVM
      {
        var j :| 0 <= j < |d.keys| && d.keys[j] == k;
      }
      return false;
    }

    /** `find_entry_action` (lines 90-130): count, for every action name,
      how often the actions name it; return the one name counted zero times. */
    method FindEntryAction() returns (r: Result<string, EngineError>)
      requires WellFormed(workflow)
      ensures r == EntryOf(Actions(workflow))
    {
      var d := Actions(workflow);
      var count := CountPredecessors(d);
      var entries: seq<string> := [];
      var i := 0;
      while i < |d.keys|
        invariant 0 <= i <= |d.keys|
        invariant entries == Roots(d, d.keys[..i])
      {
        assert d.keys[..i + 1][..i] == d.keys[..i];
        if count[d.keys[i]] == 0 {
          entries := entries + [d.keys[i]];
        }
        i := i + 1;
      }
      assert d.keys[..i] == d.keys;
      if |entries| == 0 {
        r := Err(NoEntryAction);
      } else if |entries| > 1 {
        r := Err(MultipleEntryActions(entries));
      } else {
        r := Ok(entries[0]);
      }
    }

    /** `find_leaf_actions` (lines 132-152): the actions with a falsy
      `InvokeNext`, in order. */
    method FindLeafActions() returns (r: Result<seq<string>, EngineError>)
      requires WellFormed(workflow)
      ensures r == LeavesOf(Actions(workflow))
    {
      var d := Actions(workflow);
      var leaves: seq<string> := [];
      var i := 0;
      while i < |d.keys|
        invariant 0 <= i <= |d.keys|
        invariant leaves == LeavesIn(d, d.keys[..i])
      {
        assert d.keys[..i + 1][..i] == d.keys[..i];
        if IsLeaf(d.vals[d.keys[i]].invokeNext) {
          leaves := leaves + [d.keys[i]];
        }
        i := i + 1;
      }
      assert d.keys[..i] == d.keys;
      if leaves == [] {
        r := Err(NoLeafActions);
      } else {
        r := Ok(leaves);
      }
    }

    /** `find_github_server` (lines 154-168): the first server whose
      `FaaSType` is "GitHubActions". */
    method FindGithubServer() returns (r: Result<string, EngineError>)
      requires WellFormed(workflow)
      ensures r == GitHubServerOf(workflow)
    {
      if workflow.servers.None? {
        return Err(NoComputeServers);
      }
      var s := workflow.servers.value;
      var i := 0;
      while i < |s.keys|
        invariant 0 <= i <= |s.keys|
        invariant FirstGitHub(s, s.keys[i..]) == FirstGitHub(s, s.keys)
      {
        assert s.keys[i..][1..] == s.keys[i + 1..];
        if s.vals[s.keys[i]].faasType == Some(GitHubActions) {
          return Ok(s.keys[i]);
        }
        i := i + 1;
      }
      return Err(NoGitHubServer);
    }

    /** `find_container_for_server` (lines 170-190): the container of the
      first action on `server` whose container entry is truthy. */
    method FindContainerForServer(server: string) returns (c: Option<string>)
      requires WellFormed(workflow)
      ensures c == ContainerOf(workflow, server)
    {
      var cs := Containers(workflow);
      var d := Actions(workflow);
      var i := 0;
      while i < |d.keys|
        invariant 0 <= i <= |d.keys|
        invariant FirstContainer(d, cs, server, d.keys[i..]) == ContainerOf(workflow, server)
      {
        assert d.keys[i..][1..] == d.keys[i + 1..];
        var name := d.keys[i];
        if d.vals[name].faasServer == Some(server) {
          var container := cs.Get(name);
          if Truthy(container) {
            return container;
          }
        }
        i := i + 1;
      }
      return None;
    }

    /** The checks and queries both injectors run before their first write
      (lines 208-230 and 286-305), in the source's order. */
    method PrepareInjection() returns (r: Result<Plan, EngineError>)
      requires WellFormed(workflow)
      ensures r == Prepare(workflow)
    {
      if workflow.vmConfig.None? {
        return Err(MissingVMConfig);
      }
      var entry := FindEntryAction();
      if entry.Err? {
        return Err(entry.error);
      }
      var leaves := FindLeafActions();
      if leaves.Err? {
        return Err(leaves.error);
      }
      var server := FindGithubServer();
      if server.Err? {
        return Err(server.error);
      }
      var container := FindContainerForServer(server.value);
      var d := Actions(workflow);
      if VmStart in d.vals {
        return Err(NameConflict(VmStart));
      }
      if VmStop in d.vals {
        return Err(NameConflict(VmStop));
      }
      return Ok(Plan(entry.value, leaves.value, server.value, container));
    }

    /** `inject_vm_actions_sequential` (lines 192-267). Every check comes
      before the first write, so a raised error leaves the document as it
      was. */
    method InjectSequential() returns (err: Option<EngineError>)
      requires WellFormed(workflow)
      modifies this
      ensures err.None? <==> Sequential(old(workflow)).Ok?
      ensures err.None? ==> workflow == Sequential(old(workflow)).value
      ensures err.Some? ==> err.value == Sequential(old(workflow)).error && workflow == old(workflow)
    {
      var plan := PrepareInjection();
      if plan.Err? {
        return Some(plan.error);
      }
      var p := plan.value;
      PlanFacts(workflow);
      var d := Actions(workflow);
      d := d.Put(VmStart, Builtin("vm_start", p.server, [p.entry]));
      d := d.Put(VmStop, Builtin("vm_stop", p.server, []));
      var cs := Containers(workflow);
      workflow := workflow.(actionList := Some(d));
      Complete(d, cs, p);
      return None;
    }

    /** The tail both injectors share (lines 253-267 and 372-386): leaves
      point to the stop node, `ActionContainers` is created when absent and
      gets the container for start and stop when one was found, and
      `FunctionInvoke` becomes the start node. */
    method Complete(d: ODict<Action>, cs: ODict<string>, p: Plan)
      requires forall l :: l in p.leaves ==> l in d.vals
      modifies this
      ensures workflow == Finish(old(workflow), d, cs, p)
    {
      var d' := PointLeaves(d, p.leaves, VmStop);
      workflow := workflow.(actionList := Some(d'));
      var cs' := cs;
      if p.container.Some? {
        cs' := cs'.Put(VmStart, p.container.value).Put(VmStop, p.container.value);
      }
      workflow := workflow.(containers := Some(cs'));
      workflow := workflow.(functionInvoke := Some(VmStart));
    }

    /** The loop at lines 338-370, writing `ActionList` and, when a
      container was found, `ActionContainers` as it goes. */
    method InsertGates(d0: ODict<Action>, cs0: ODict<string>, vms: seq<string>, server: string, container: Option<string>)
      returns (r: Result<Stage, EngineError>)
      requires d0.Valid() && cs0.Valid()
      requires workflow.actionList == Some(d0)
      requires container.Some? ==> workflow.containers == Some(cs0)
      modifies this
      ensures r == GateAll(AsWritten, Stage(d0, cs0), vms, server, container)
      ensures r.Ok? ==> d0.vals.Keys <= r.value.actions.vals.Keys
      ensures r.Ok? ==> Written(old(workflow), workflow, r.value, container)
    {
      var d, cs := d0, cs0;
      var i := 0;
      while i < |vms|
        invariant 0 <= i <= |vms|
        invariant d.Valid() && cs.Valid()
        invariant d0.vals.Keys <= d.vals.Keys
        invariant GateAll(AsWritten, Stage(d, cs), vms[i..], server, container) == GateAll(AsWritten, Stage(d0, cs0), vms, server, container)
        invariant Written(old(workflow), workflow, Stage(d, cs), container)
      {
        var v := vms[i];
        assert vms[i..][0] == v && vms[i..][1..] == vms[i + 1..];
        var step := AddGate(Stage(d, cs), v, server, container);
        if step.Err? {
          return step;
        }
        d, cs := step.value.actions, step.value.containers;
        workflow := workflow.(actionList := Some(d), containers := if container.Some? then Some(cs) else workflow.containers);
        assert Written(old(workflow), workflow, Stage(d, cs), container);
        i := i + 1;
      }
      assert vms[i..] == [];
      return Ok(Stage(d, cs));
    }

    /** `inject_vm_actions_parallel` (lines 269-389). A gate-name conflict is
      raised in the middle of the loop, after the start and stop nodes and
      the earlier gates were written: on that error the contract names the
      error but not the partially rewritten document. */
    method InjectParallel() returns (err: Option<EngineError>)
      requires WellFormed(workflow)
      modifies this
      ensures err.None? <==> Parallel(AsWritten, old(workflow)).Ok?
      ensures err.None? ==> workflow == Parallel(AsWritten, old(workflow)).value
      ensures err.Some? ==> err.value == Parallel(AsWritten, old(workflow)).error
    {
      var plan := PrepareInjection();
      if plan.Err? {
        return Some(plan.error);
      }
      var p := plan.value;
      PlanFacts(workflow);
      ContainerOfCorrect(workflow, p.server);
      var d := Actions(workflow);
      d := d.Put(VmStart, Builtin("vm_start", p.server, [p.entry]));
      d := d.Put(VmStop, Builtin("vm_stop", p.server, []));
      ParallelFromGates(workflow, p);
      var cs := Containers(workflow);
      workflow := workflow.(actionList := Some(d));
      var vms := CollectVmActions(d);
      var gated := InsertGates(d, cs, vms, p.server, p.container);
      if gated.Err? {
        return Some(gated.error);
      }
      Complete(gated.value.actions, gated.value.containers, p);
      return None;
    }

    /** `run` (lines 400-433): `loaded` is the document `load_workflow` read,
      `None` when the file could not be read or parsed. The result is the
      boolean `run` returns and the document `save_workflow` writes, if any;
      every raised error is caught and makes `run` return false without
      saving. */
    method Run(loaded: Option<Workflow>, strategy: string) returns (ok: bool, saved: Option<Workflow>)
      requires loaded.Some? ==> WellFormed(loaded.value)
      modifies this
      ensures ok <==> loaded.Some? && Outcome(loaded.value, strategy).Ok?
      ensures saved == if ok then Some(Outcome(loaded.value, strategy).value) else None
    {
      if loaded.None? {
        return false, None;
      }
      workflow := loaded.value;
      var needed := NeedsVm();
      if !needed {
        return true, Some(workflow);
      }
      var err: Option<EngineError>;
      if strategy == "parallel" {
        err := InjectParallel();
      } else if strategy == "sequential" {
        err := InjectSequential();
      } else {
        err := Some(UnknownStrategy(strategy));
      }
      if err.Some? {
        return false, None;
      }
      return true, Some(workflow);
    }
  }

  /** What `run` saves for a loaded document: the document itself when no
      action requires a VM, else the chosen strategy's rewrite as the code
      performs it; "parallel" is the default of `run` and of the command
      line (lines 400, 451). */
  ghost function Outcome(w: Workflow, strategy: string): Result<Workflow, EngineError> {
    if !VmRequired(w) then Ok(w)
    else if strategy == "parallel" then Parallel(AsWritten, w)
    else if strategy == "sequential" then Sequential(w)
    else Err(UnknownStrategy(strategy))
  }

  /** What a successful `run` saves: the document unchanged when no action
      requires a VM; otherwise a document whose `FunctionInvoke` is the start
      node and whose only leaf is the stop node, whichever strategy ran. An
      unknown strategy succeeds only when no VM is needed. */
  lemma OutcomeShape(w: Workflow, strategy: string)
    requires WellFormed(w)
    requires Outcome(w, strategy).Ok?
    ensures !VmRequired(w) ==> Outcome(w, strategy).value == w
    ensures VmRequired(w) ==> strategy == "parallel" || strategy == "sequential"
    ensures VmRequired(w) ==>
      && Outcome(w, strategy).value.functionInvoke == Some(VmStart)
      && LeavesOf(Actions(Outcome(w, strategy).value)) == Ok([VmStop])
  {
    if VmRequired(w) {
      if strategy == "parallel" {
        ParallelLeaves(AsWritten, w);
        ParallelRest(AsWritten, w);
      } else {
        SequentialLeaves(w);
        SequentialRest(w);
      }
    }
  }

  /** The code's `Parallel` once its preparation succeeded: the outcome of
      the gating loop, finished as for the sequential strategy. */
  lemma ParallelFromGates(w: Workflow, p: Plan)
    requires Prepare(w) == Ok(p)
    ensures var d := WithStartStop(Actions(w), p);
      Parallel(AsWritten, w) == match GateAll(AsWritten, Stage(d, Containers(w)), VmActionsIn(d, d.keys), p.server, p.container)
        case Err(e) => Err(e)
        case Ok(s) => Ok(Finish(w, s.actions, s.containers, p))
  {
  }
}
