/** What the two rewrites of scripts/faasr_inject_vm.py:192-389 guarantee
    about the workflow they produce: which nodes are added, which edges
    change, and that nothing else does. */
module InjectionProps {
  import opened Base
  import opened Dicts
  import opened Schema
  import opened Topology
  import opened InjectionSpec

  // ---------------------------------------------------------------- errors

  /** The checks shared by both strategies raise before anything is written:
      a missing `VMConfig`, or a start or stop name already in use. */
  lemma PrepareErrors(m: Rewrite, w: Workflow)
    ensures w.vmConfig.None? ==> Sequential(w) == Err(MissingVMConfig) && Parallel(m, w) == Err(MissingVMConfig)
    ensures VmStart in Actions(w).vals ==> Sequential(w).Err? && Parallel(m, w).Err?
    ensures VmStop in Actions(w).vals ==> Sequential(w).Err? && Parallel(m, w).Err?
    ensures Prepare(w).Err? ==> Sequential(w) == Parallel(m, w) == Err(Prepare(w).error)
    ensures Sequential(w).Ok? <==> Prepare(w).Ok?
  {
  }

  /** What `Prepare` found about the original `ActionList` `d`: the entry
      is the one action nobody names, the leaves are exactly the actions with
      a falsy `InvokeNext`, and the start and stop names are free. */
  ghost predicate PlanOf(d: ODict<Action>, p: Plan) {
    && d.Valid()
    && p.entry in d.vals && !HasPredecessor(d, p.entry)
    && (forall k :: k in d.vals && k != p.entry ==> HasPredecessor(d, k))
    && Distinct(p.leaves) && p.leaves != []
    && (forall x :: x in p.leaves <==> x in d.vals && IsLeaf(d.vals[x].invokeNext))
    && VmStart !in d.vals && VmStop !in d.vals
  }

  /** A successful `Prepare` found the entry and leaves of `ActionList`, the
      GitHub Actions server, and that server's first container. */
  lemma PlanFacts(w: Workflow)
    requires WellFormed(w)
    requires Prepare(w).Ok?
    ensures PlanOf(Actions(w), Prepare(w).value)
    ensures w.vmConfig.Some?
    ensures GitHubServerOf(w) == Ok(Prepare(w).value.server)
    ensures Prepare(w).value.container == ContainerOf(w, Prepare(w).value.server)
  {
    EntryOfCorrect(Actions(w));
    LeavesOfCorrect(Actions(w));
  }

  /** The start node names the entry; the stop node names nothing. */
  lemma WithStartStopFacts(d: ODict<Action>, p: Plan)
    requires d.Valid()
    requires VmStart !in d.vals && VmStop !in d.vals
    ensures var d1 := WithStartStop(d, p);
      && d1.Valid()
      && d1.keys == d.keys + [VmStart, VmStop]
      && VmStart in d1.vals && VmStop in d1.vals
      && d1.vals[VmStart] == Builtin("vm_start", p.server, [p.entry])
      && d1.vals[VmStop] == Builtin("vm_stop", p.server, [])
      && (forall k :: k in d.vals ==> k in d1.vals && d1.vals[k] == d.vals[k])
      && (forall k :: k in d1.vals ==> k in d.vals || k == VmStart || k == VmStop)
  {
    AppendAssoc(d.keys, [VmStart], [VmStop]);
  }

  // ---------------------------------------------------------------- sequential

  /** Overwriting the leaves' edges keeps the key order and every other
      action. */
  lemma PointLeavesToFacts(d: ODict<Action>, leaves: seq<string>, stop: string)
    requires d.Valid()
    ensures var d' := PointLeavesTo(d, leaves, stop);
      && d'.Valid() && d'.keys == d.keys
      && (forall k :: k in d'.vals <==> k in d.vals)
      && (forall k :: k in d.vals ==>
            d'.vals[k] == (if k in leaves then d.vals[k].(invokeNext := List([stop])) else d.vals[k]))
  {
  }

  /** The common tail writes `ActionList`, `ActionContainers` and
      `FunctionInvoke` and nothing else; start and stop get the container
      only when one was found. */
  lemma FinishFacts(w: Workflow, d: ODict<Action>, cs: ODict<string>, p: Plan)
    requires WellFormed(w) && d.Valid() && cs.Valid()
    ensures var w' := Finish(w, d, cs, p);
      && WellFormed(w')
      && Actions(w') == PointLeavesTo(d, p.leaves, VmStop)
      && w'.functionInvoke == Some(VmStart)
      && (forall k :: Containers(w').Get(k) ==
            if p.container.Some? && (k == VmStart || k == VmStop) then p.container else cs.Get(k))
      && w'.(actionList := w.actionList, containers := w.containers, functionInvoke := w.functionInvoke) == w
  {
    PointLeavesToFacts(d, p.leaves, VmStop);
  }

  /** The `ActionList` `d'` the sequential rewrite makes of `d`: start and
      stop are appended, start names the entry, stop names nothing, every
      original leaf now names stop and every other action is untouched. */
  ghost predicate SequentialOutcome(d: ODict<Action>, d': ODict<Action>, p: Plan) {
    && d'.Valid()
    && d'.keys == d.keys + [VmStart, VmStop]
    && VmStart in d'.vals && VmStop in d'.vals
    && d'.vals[VmStart] == Builtin("vm_start", p.server, [p.entry])
    && d'.vals[VmStop] == Builtin("vm_stop", p.server, [])
    && (forall k :: k in d'.vals ==> k in d.vals || k == VmStart || k == VmStop)
    && (forall k :: k in d.vals ==> (k in d'.vals &&
          d'.vals[k] == (if k in p.leaves then d.vals[k].(invokeNext := List([VmStop])) else d.vals[k])))
  }

  /** `inject_vm_actions_sequential` on `ActionList`. */
  lemma SequentialActions(w: Workflow)
    requires WellFormed(w)
    requires Sequential(w).Ok?
    ensures SequentialOutcome(Actions(w), Actions(Sequential(w).value), Prepare(w).value)
  {
    PlanFacts(w);
    var p := Prepare(w).value;
    var d1 := WithStartStop(Actions(w), p);
    WithStartStopFacts(Actions(w), p);
    PointLeavesToFacts(d1, p.leaves, VmStop);
    FinishFacts(w, d1, Containers(w), p);
  }

  /** `inject_vm_actions_sequential`, the rest of the document:
      `FunctionInvoke` is start, start and stop get the server's container
      only when one was found, and nothing else changes. */
  lemma SequentialRest(w: Workflow)
    requires WellFormed(w)
    requires Sequential(w).Ok?
    ensures var w' := Sequential(w).value; var p := Prepare(w).value;
      && WellFormed(w')
      && w'.functionInvoke == Some(VmStart)
      && (forall k :: Containers(w').Get(k) ==
            if p.container.Some? && (k == VmStart || k == VmStop) then p.container else Containers(w).Get(k))
      && w'.(actionList := w.actionList, containers := w.containers, functionInvoke := w.functionInvoke) == w
  {
    PlanFacts(w);
    var p := Prepare(w).value;
    WithStartStopFacts(Actions(w), p);
    FinishFacts(w, WithStartStop(Actions(w), p), Containers(w), p);
  }

  /** In that shape, provided no action of `d` names the start node and none
      is called "" (a `""` edge is falsy, so its action is a leaf whose edge
      is overwritten), every action except start is named by some action. */
  lemma ShapeNamed(d: ODict<Action>, d': ODict<Action>, p: Plan)
    requires PlanOf(d, p) && SequentialOutcome(d, d', p)
    requires "" !in d.vals
    requires forall k :: k in d.vals ==> VmStart !in Successors(d.vals[k].invokeNext)
    ensures forall k :: k in d'.vals ==> (HasPredecessor(d', k) <==> k != VmStart)
  {
    forall k | k in d'.vals
      ensures VmStart !in Successors(d'.vals[k].invokeNext)
    {
      if k == VmStart {
        assert Successors(d'.vals[k].invokeNext) == [p.entry];
      } else if k == VmStop {
        assert Successors(d'.vals[k].invokeNext) == [];
      } else if k in p.leaves {
        assert Successors(d'.vals[k].invokeNext) == [VmStop];
      }
    }
    forall k | k in d'.vals && k != VmStart
      ensures HasPredecessor(d', k)
    {
      if k == VmStop {
        var l := p.leaves[0];
        assert l in p.leaves;
        assert VmStop in Successors(d'.vals[l].invokeNext);
      } else if k == p.entry {
        assert k in Successors(d'.vals[VmStart].invokeNext);
      } else {
        var j :| j in d.vals && k in Successors(d.vals[j].invokeNext);
        if j in p.leaves {
          LeafSuccessors(d.vals[j].invokeNext);
          assert false;
        }
        assert k in Successors(d'.vals[j].invokeNext);
      }
    }
  }

  /** Provided no action already names the start node and no action is
      called "", the sequentially injected graph's single entry is the start
      node. */
  lemma SequentialEntry(w: Workflow)
    requires WellFormed(w)
    requires Sequential(w).Ok?
    requires "" !in Actions(w).vals
    requires forall k :: k in Actions(w).vals ==> VmStart !in Successors(Actions(w).vals[k].invokeNext)
    ensures EntryOf(Actions(Sequential(w).value)) == Ok(VmStart)
  {
    var d, d' := Actions(w), Actions(Sequential(w).value);
    PlanFacts(w);
    SequentialActions(w);
    ShapeNamed(d, d', Prepare(w).value);
    EntryIs(d', VmStart);
  }

  /** In that shape the only leaf is the stop node. */
  lemma ShapeLeaves(d: ODict<Action>, d': ODict<Action>, p: Plan)
    requires PlanOf(d, p) && SequentialOutcome(d, d', p)
    ensures forall k :: k in d'.vals ==> (IsLeaf(d'.vals[k].invokeNext) <==> k == VmStop)
  {
  }

  /** The sequentially injected graph's only leaf is the stop node. */
  lemma SequentialLeaves(w: Workflow)
    requires WellFormed(w)
    requires Sequential(w).Ok?
    ensures LeavesOf(Actions(Sequential(w).value)) == Ok([VmStop])
  {
    var d, d' := Actions(w), Actions(Sequential(w).value);
    PlanFacts(w);
    SequentialActions(w);
    ShapeLeaves(d, d', Prepare(w).value);
    LeavesAre(d', VmStop);
  }

  /** A falsy `InvokeNext` names no action other than possibly "". */
  lemma LeafSuccessors(inv: InvokeNext)
    requires IsLeaf(inv)
    ensures forall x :: x in Successors(inv) ==> x == ""
  {
  }

  // ---------------------------------------------------------------- parallel

  lemma {:induction false} VmActionsInAgree(d: ODict<Action>, d1: ODict<Action>, names: seq<string>)
    decreases |names|
    requires forall n :: n in names ==> (n in d1.vals <==> n in d.vals)
    requires forall n :: n in names && n in d.vals ==> d1.vals[n].requiresVM == d.vals[n].requiresVM
    ensures VmActionsIn(d1, names) == VmActionsIn(d, names)
  {
    if names != [] {
      var init := names[..|names| - 1];
      assert forall n :: n in init ==> n in names;
      VmActionsInAgree(d, d1, init);
    }
  }

  /** The VM actions the loop of lines 330-333 gathers after start and stop
      are inserted are those of the original `ActionList`, in its order. */
  lemma GatheredVms(d: ODict<Action>, p: Plan)
    requires d.Valid() && VmStart !in d.vals && VmStop !in d.vals
    ensures var d1 := WithStartStop(d, p);
      VmActionsIn(d1, d1.keys) == VmActionsIn(d, d.keys)
  {
    var d1 := WithStartStop(d, p);
    WithStartStopFacts(d, p);
    assert d1.keys[..|d1.keys| - 1] == d.keys + [VmStart];
    assert (d.keys + [VmStart])[..|d.keys|] == d.keys;
    VmActionsInAgree(d, d1, d.keys);
  }

  /** The stage the gating loop produces for `w`. */
  ghost function GatedStage(m: Rewrite, w: Workflow): Result<Stage, EngineError>
    requires Prepare(w).Ok?
  {
    var p := Prepare(w).value;
    var d := Actions(w);
    GateAll(m, Stage(WithStartStop(d, p), Containers(w)), VmActionsIn(d, d.keys), p.server, p.container)
  }

  /** Once the common checks pass, the parallel rewrite fails exactly when
      the gate name of some VM action is already an action name, and then
      with that name conflict. */
  lemma ParallelErrors(m: Rewrite, w: Workflow)
    requires WellFormed(w)
    requires Prepare(w).Ok?
    ensures var d := Actions(w);
      Parallel(m, w).Ok? <==> forall v :: v in d.vals && d.vals[v].requiresVM ==> PollName(v) !in d.vals
    ensures Parallel(m, w).Err? ==>
      exists v :: v in Actions(w).vals && Actions(w).vals[v].requiresVM && Parallel(m, w).error == NameConflict(PollName(v))
  {
    PlanFacts(w);
    var p := Prepare(w).value;
    var d := Actions(w);
    var d1 := WithStartStop(d, p);
    WithStartStopFacts(d, p);
    GatheredVms(d, p);
    var vms := VmActionsIn(d, d.keys);
    VmActionsInDistinct(d, d.keys);
    forall x ensures x in vms <==> x in d.vals && d.vals[x].requiresVM {
      VmActionsInMember(d, d.keys, x);
    }
    forall v | v in vms ensures PollName(v) in d1.vals <==> PollName(v) in d.vals {
      PollNotStartStop(v);
    }
    GateAllOkIff(m, Stage(d1, Containers(w)), vms, p.server, p.container);
  }

  /** The `ActionList` `d'` the parallel rewrite makes of `d` with the VM
      actions `vms`: start, stop and one gate per VM action are appended in
      that order; start names the entry, or the entry's gate when the entry
      is a VM action; stop names nothing; each gate names its VM action. */
  ghost predicate ParallelNodes(d: ODict<Action>, d': ODict<Action>, p: Plan, vms: seq<string>) {
    && d'.Valid()
    && d'.keys == d.keys + [VmStart, VmStop] + PollNames(vms)
    && VmStart in d'.vals && VmStop in d'.vals
    && d'.vals[VmStart] == Builtin("vm_start", p.server, [if p.entry in vms then PollName(p.entry) else p.entry])
    && d'.vals[VmStop] == Builtin("vm_stop", p.server, [])
    && (forall v :: v in vms ==> (PollName(v) !in d.vals && PollName(v) in d'.vals &&
          d'.vals[PollName(v)] == Builtin("vm_poll", p.server, [v])))
  }

  /** ... and every original action keeps its fields except `InvokeNext`:
      a leaf now names stop, any other action gets rewrite `m` (lines
      358-369, or their corrected form) for every VM action in turn. */
  ghost predicate ParallelEdges(m: Rewrite, d: ODict<Action>, d': ODict<Action>, p: Plan, vms: seq<string>) {
    forall k :: k in d.vals ==> (k in d'.vals &&
      d'.vals[k] == (if k in p.leaves then d.vals[k].(invokeNext := List([VmStop]))
                     else d.vals[k].(invokeNext := RedirectEach(m, d.vals[k].invokeNext, vms))))
  }

  /** The VM actions of `d`, each once, in `ActionList` order. */
  ghost predicate VmsOf(d: ODict<Action>, vms: seq<string>) {
    && vms == VmActionsIn(d, d.keys)
    && Distinct(vms)
    && (forall x :: x in vms <==> x in d.vals && d.vals[x].requiresVM)
  }

  lemma VmsOfFacts(d: ODict<Action>)
    requires d.Valid()
    ensures VmsOf(d, VmActionsIn(d, d.keys))
  {
    VmActionsInDistinct(d, d.keys);
    forall x ensures x in VmActionsIn(d, d.keys) <==> x in d.vals && d.vals[x].requiresVM {
      VmActionsInMember(d, d.keys, x);
    }
  }

  /** The parallel result is the common tail applied to the gated stage. */
  lemma ParallelUnfold(m: Rewrite, w: Workflow)
    requires WellFormed(w)
    requires Parallel(m, w).Ok?
    ensures Prepare(w).Ok? && GatedStage(m, w).Ok?
    ensures Parallel(m, w).value == Finish(w, GatedStage(m, w).value.actions, GatedStage(m, w).value.containers, Prepare(w).value)
  {
    var p := Prepare(w).value;
    GatedVms(w);
  }

  lemma GatedVms(w: Workflow)
    requires WellFormed(w)
    requires Prepare(w).Ok?
    ensures var d := Actions(w); var d1 := WithStartStop(d, Prepare(w).value);
      VmActionsIn(d1, d1.keys) == VmActionsIn(d, d.keys)
  {
    PlanFacts(w);
    GatheredVms(Actions(w), Prepare(w).value);
  }

  /** The gated stage, for a stage that starts from the original actions
      plus start and stop. */
  lemma GatedNodes(m: Rewrite, d: ODict<Action>, cs: ODict<string>, p: Plan, t: Stage)
    requires PlanOf(d, p) && cs.Valid()
    requires GateAll(m, Stage(WithStartStop(d, p), cs), VmActionsIn(d, d.keys), p.server, p.container) == Ok(t)
    ensures t.actions.Valid() && t.containers.Valid()
    ensures ParallelNodes(d, PointLeavesTo(t.actions, p.leaves, VmStop), p, VmActionsIn(d, d.keys))
  {
    assert GateFrame(d, p);
    GatedShape(m, d, cs, p, t);
    GatedStart(m, d, cs, p, t);
    GatedStop(m, d, cs, p, t);
    GatedPolls(m, d, cs, p, t);
  }

  /** The part of `PlanOf` the gating lemmas use: start and stop are new
      names and every leaf is an action. */
  ghost predicate GateFrame(d: ODict<Action>, p: Plan) {
    d.Valid() && VmStart !in d.vals && VmStop !in d.vals && (forall x :: x in p.leaves ==> x in d.vals)
  }

  /** What the gating loop needs of the stage it starts from. */
  lemma GateSetup(d: ODict<Action>, cs: ODict<string>, p: Plan)
    requires GateFrame(d, p) && cs.Valid()
    ensures var s0 := Stage(WithStartStop(d, p), cs);
      && s0.actions.Valid() && s0.containers.Valid()
      && Distinct(VmActionsIn(d, d.keys))
      && (forall v :: v in VmActionsIn(d, d.keys) ==> v in d.vals && v in s0.actions.vals)
  {
    WithStartStopFacts(d, p);
    VmsOfFacts(d);
  }

  /** The gated stage lists the original actions, start, stop and one gate
      per VM action, in that order. */
  lemma GatedShape(m: Rewrite, d: ODict<Action>, cs: ODict<string>, p: Plan, t: Stage)
    requires GateFrame(d, p) && cs.Valid()
    requires GateAll(m, Stage(WithStartStop(d, p), cs), VmActionsIn(d, d.keys), p.server, p.container) == Ok(t)
    ensures t.actions.Valid() && t.containers.Valid()
    ensures var d' := PointLeavesTo(t.actions, p.leaves, VmStop);
      d'.Valid() && d'.keys == d.keys + [VmStart, VmStop] + PollNames(VmActionsIn(d, d.keys))
  {
    var vms := VmActionsIn(d, d.keys);
    var s0 := Stage(WithStartStop(d, p), cs);
    WithStartStopFacts(d, p);
    VmsOfFacts(d);
    GateAllKeys(m, s0, vms, p.server, p.container);
    PointLeavesToFacts(t.actions, p.leaves, VmStop);
    AppendAssoc(d.keys, [VmStart, VmStop], PollNames(vms));
  }

  /** Start points at the entry action, or at its gate when the entry needs
      a VM. */
  lemma GatedStart(m: Rewrite, d: ODict<Action>, cs: ODict<string>, p: Plan, t: Stage)
    requires GateFrame(d, p) && cs.Valid()
    requires GateAll(m, Stage(WithStartStop(d, p), cs), VmActionsIn(d, d.keys), p.server, p.container) == Ok(t)
    ensures var d' := PointLeavesTo(t.actions, p.leaves, VmStop);
      && VmStart in d'.vals
      && d'.vals[VmStart] == Builtin("vm_start", p.server, [if p.entry in VmActionsIn(d, d.keys) then PollName(p.entry) else p.entry])
  {
    var vms := VmActionsIn(d, d.keys);
    var s0 := Stage(WithStartStop(d, p), cs);
    WithStartStopFacts(d, p);
    VmsOfFacts(d);
    GateAllKeys(m, s0, vms, p.server, p.container);
    assert forall u, v :: u in vms && v in vms ==> PollName(u) != v;
    RedirectEachSingleton(m, p.entry, vms);
    GateAllRewrites(m, s0, vms, p.server, p.container);
    assert VmStart !in p.leaves;
    PointLeavesToFacts(t.actions, p.leaves, VmStop);
  }

  /** Stop iterates nothing. */
  lemma GatedStop(m: Rewrite, d: ODict<Action>, cs: ODict<string>, p: Plan, t: Stage)
    requires GateFrame(d, p) && cs.Valid()
    requires GateAll(m, Stage(WithStartStop(d, p), cs), VmActionsIn(d, d.keys), p.server, p.container) == Ok(t)
    ensures var d' := PointLeavesTo(t.actions, p.leaves, VmStop);
      VmStop in d'.vals && d'.vals[VmStop] == Builtin("vm_stop", p.server, [])
  {
    var vms := VmActionsIn(d, d.keys);
    var s0 := Stage(WithStartStop(d, p), cs);
    assert VmStop in t.actions.vals && t.actions.vals[VmStop] == Builtin("vm_stop", p.server, []) by {
      assert Successors(List([])) == [];
      RedirectEachUnchanged(m, List([]), vms);
      GateSetup(d, cs, p);
      WithStartStopFacts(d, p);
      GateAllRewrites(m, s0, vms, p.server, p.container);
    }
    assert t.actions.Valid() by {
      GatedShape(m, d, cs, p, t);
    }
    assert VmStop !in p.leaves;
    PointLeavesToFacts(t.actions, p.leaves, VmStop);
  }

  /** Each VM action gets a new gate that iterates it alone. */
  lemma GatedPolls(m: Rewrite, d: ODict<Action>, cs: ODict<string>, p: Plan, t: Stage)
    requires GateFrame(d, p) && cs.Valid()
    requires GateAll(m, Stage(WithStartStop(d, p), cs), VmActionsIn(d, d.keys), p.server, p.container) == Ok(t)
    ensures var d' := PointLeavesTo(t.actions, p.leaves, VmStop);
      forall v :: v in VmActionsIn(d, d.keys) ==> (PollName(v) !in d.vals && PollName(v) in d'.vals &&
        d'.vals[PollName(v)] == Builtin("vm_poll", p.server, [v]))
  {
    var vms := VmActionsIn(d, d.keys);
    var s0 := Stage(WithStartStop(d, p), cs);
    WithStartStopFacts(d, p);
    VmsOfFacts(d);
    GateAllKeys(m, s0, vms, p.server, p.container);
    GateAllGates(m, s0, vms, p.server, p.container);
    PointLeavesToFacts(t.actions, p.leaves, VmStop);
    forall v | v in vms ensures PollName(v) !in p.leaves {
      PollNotStartStop(v);
    }
  }

  /** `inject_vm_actions_parallel` on `ActionList`: the new nodes. */
  lemma ParallelActions(m: Rewrite, w: Workflow)
    requires WellFormed(w)
    requires Parallel(m, w).Ok?
    ensures var d := Actions(w);
      ParallelNodes(d, Actions(Parallel(m, w).value), Prepare(w).value, VmActionsIn(d, d.keys))
  {
    PlanFacts(w);
    ParallelUnfold(m, w);
    var p := Prepare(w).value;
    var t := GatedStage(m, w).value;
    GatedNodes(m, Actions(w), Containers(w), p, t);
    FinishFacts(w, t.actions, t.containers, p);
  }

  lemma GatedEdges(m: Rewrite, d: ODict<Action>, cs: ODict<string>, p: Plan, t: Stage)
    requires PlanOf(d, p) && cs.Valid()
    requires GateAll(m, Stage(WithStartStop(d, p), cs), VmActionsIn(d, d.keys), p.server, p.container) == Ok(t)
    ensures ParallelEdges(m, d, PointLeavesTo(t.actions, p.leaves, VmStop), p, VmActionsIn(d, d.keys))
  {
    var d1 := WithStartStop(d, p);
    var vms := VmActionsIn(d, d.keys);
    var s0 := Stage(d1, cs);
    WithStartStopFacts(d, p);
    VmsOfFacts(d);
    GateAllKeys(m, s0, vms, p.server, p.container);
    GateAllRewrites(m, s0, vms, p.server, p.container);
    PointLeavesToFacts(t.actions, p.leaves, VmStop);
  }

  /** `inject_vm_actions_parallel` on `ActionList`: the rewritten edges. */
  lemma ParallelRewrites(m: Rewrite, w: Workflow)
    requires WellFormed(w)
    requires Parallel(m, w).Ok?
    ensures var d := Actions(w);
      ParallelEdges(m, d, Actions(Parallel(m, w).value), Prepare(w).value, VmActionsIn(d, d.keys))
  {
    PlanFacts(w);
    ParallelUnfold(m, w);
    var p := Prepare(w).value;
    var t := GatedStage(m, w).value;
    GatedNodes(m, Actions(w), Containers(w), p, t);
    GatedEdges(m, Actions(w), Containers(w), p, t);
    FinishFacts(w, t.actions, t.containers, p);
  }

  /** No action names a VM action `v` as a successor except `v`'s own gate. */
  ghost predicate OnlyGateNames(d': ODict<Action>, vms: seq<string>) {
    forall v, k :: v in vms && k in d'.vals && k != PollName(v) ==> v !in Successors(d'.vals[k].invokeNext)
  }

  lemma GatedRemoves(d: ODict<Action>, cs: ODict<string>, p: Plan, t: Stage)
    requires PlanOf(d, p) && cs.Valid()
    requires GateAll(Corrected, Stage(WithStartStop(d, p), cs), VmActionsIn(d, d.keys), p.server, p.container) == Ok(t)
    ensures OnlyGateNames(PointLeavesTo(t.actions, p.leaves, VmStop), VmActionsIn(d, d.keys))
  {
    var d1 := WithStartStop(d, p);
    var vms := VmActionsIn(d, d.keys);
    var s0 := Stage(d1, cs);
    WithStartStopFacts(d, p);
    VmsOfFacts(d);
    GateAllKeys(Corrected, s0, vms, p.server, p.container);
    GateAllRemoves(s0, vms, p.server, p.container);
    PointLeavesKeepsOnlyGate(t.actions, p.leaves, vms);
  }

  /** Pointing the leaves at stop names no VM action. */
  lemma PointLeavesKeepsOnlyGate(d: ODict<Action>, leaves: seq<string>, vms: seq<string>)
    requires d.Valid() && OnlyGateNames(d, vms) && VmStop !in vms
    ensures OnlyGateNames(PointLeavesTo(d, leaves, VmStop), vms)
  {
    PointLeavesToFacts(d, leaves, VmStop);
  }

  /** After the corrected parallel rewrite only a VM action's gate leads to
      it. The code's rewrite promises this only for plain edges
      (`AsWrittenGatesOnly`); a conditional branch can bypass the gate
      (`AsWrittenBypassesGate`). */
  lemma ParallelGatesOnly(w: Workflow)
    requires WellFormed(w)
    requires Parallel(Corrected, w).Ok?
    ensures var d := Actions(w);
      OnlyGateNames(Actions(Parallel(Corrected, w).value), VmActionsIn(d, d.keys))
  {
    PlanFacts(w);
    ParallelUnfold(Corrected, w);
    var p := Prepare(w).value;
    var t := GatedStage(Corrected, w).value;
    GatedNodes(Corrected, Actions(w), Containers(w), p, t);
    GatedRemoves(Actions(w), Containers(w), p, t);
    FinishFacts(w, t.actions, t.containers, p);
  }

  /** In the parallel result the only leaf is the stop node: gates and start
      name one action each, and the rewrites never empty an edge. */
  lemma ShapeLeavesParallel(m: Rewrite, d: ODict<Action>, d': ODict<Action>, p: Plan, vms: seq<string>)
    requires PlanOf(d, p)
    requires ParallelNodes(d, d', p, vms) && ParallelEdges(m, d, d', p, vms)
    ensures forall k :: k in d'.vals ==> (IsLeaf(d'.vals[k].invokeNext) <==> k == VmStop)
  {
    forall k | k in d'.vals
      ensures IsLeaf(d'.vals[k].invokeNext) <==> k == VmStop
    {
      assert k in d'.keys;
      if k in d.vals {
        if k !in p.leaves {
          RedirectEachKeepsNonLeaf(m, d.vals[k].invokeNext, vms);
        }
      } else if k != VmStart && k != VmStop {
        assert k in PollNames(vms);
        PollNamesMember(vms, k);
      }
    }
  }

  /** The parallel result's only leaf is the stop node. */
  lemma ParallelLeaves(m: Rewrite, w: Workflow)
    requires WellFormed(w)
    requires Parallel(m, w).Ok?
    ensures LeavesOf(Actions(Parallel(m, w).value)) == Ok([VmStop])
  {
    var d, d' := Actions(w), Actions(Parallel(m, w).value);
    PlanFacts(w);
    ParallelActions(m, w);
    ParallelRewrites(m, w);
    ShapeLeavesParallel(m, d, d', Prepare(w).value, VmActionsIn(d, d.keys));
    LeavesAre(d', VmStop);
  }

  /** `inject_vm_actions_parallel`, the rest of the document:
      `FunctionInvoke` is start; start, stop and every gate get the server's
      container when one was found; nothing else changes. */
  lemma ParallelRest(m: Rewrite, w: Workflow)
    requires WellFormed(w)
    requires Parallel(m, w).Ok?
    ensures var w' := Parallel(m, w).value; var p := Prepare(w).value;
      var d := Actions(w); var vms := VmActionsIn(d, d.keys);
      && WellFormed(w')
      && w'.functionInvoke == Some(VmStart)
      && (forall k :: Containers(w').Get(k) ==
            if p.container.Some? && (k == VmStart || k == VmStop || exists v :: v in vms && k == PollName(v))
            then p.container else Containers(w).Get(k))
      && w'.(actionList := w.actionList, containers := w.containers, functionInvoke := w.functionInvoke) == w
  {
    PlanFacts(w);
    ParallelUnfold(m, w);
    var p := Prepare(w).value;
    var d := Actions(w);
    var vms := VmActionsIn(d, d.keys);
    var d1 := WithStartStop(d, p);
    var s0 := Stage(d1, Containers(w));
    var t := GatedStage(m, w).value;
    WithStartStopFacts(d, p);
    VmsOfFacts(d);
    GatedVms(w);
    GateAllKeys(m, s0, vms, p.server, p.container);
    GateAllContainers(m, s0, vms, p.server, p.container);
    FinishFacts(w, t.actions, t.containers, p);
    forall v | v in vms ensures PollName(v) != VmStart && PollName(v) != VmStop {
      PollNotStartStop(v);
    }
  }

  lemma {:induction false} NoVmActions(d: ODict<Action>, names: seq<string>)
    decreases |names|
    requires forall k :: k in d.vals ==> !d.vals[k].requiresVM
    ensures VmActionsIn(d, names) == []
  {
    if names != [] {
      NoVmActions(d, names[..|names| - 1]);
    }
  }

  /** Without VM actions the parallel strategy is the sequential one. */
  lemma ParallelWithoutVms(m: Rewrite, w: Workflow)
    requires WellFormed(w)
    requires forall k :: k in Actions(w).vals ==> !Actions(w).vals[k].requiresVM
    ensures Parallel(m, w) == Sequential(w)
  {
    if Prepare(w).Ok? {
      var p := Prepare(w).value;
      PlanFacts(w);
      GatedVms(w);
      NoVmActions(Actions(w), Actions(w).keys);
      var d1 := WithStartStop(Actions(w), p);
      assert GateAll(m, Stage(d1, Containers(w)), [], p.server, p.container) == Ok(Stage(d1, Containers(w)));
    }
  }

  /** In the parallel result, provided no original action names the start
      node and none is called "", every action except start is named by some
      action, and nothing names start. */
  lemma ShapeNamedParallel(d: ODict<Action>, d': ODict<Action>, p: Plan, vms: seq<string>)
    requires PlanOf(d, p) && VmsOf(d, vms)
    requires ParallelNodes(d, d', p, vms) && ParallelEdges(Corrected, d, d', p, vms)
    requires "" !in d.vals
    requires forall k :: k in d.vals ==> VmStart !in Successors(d.vals[k].invokeNext)
    ensures forall x :: x in d'.vals ==> (HasPredecessor(d', x) <==> x != VmStart)
  {
    ParallelStartUnnamed(d, d', p, vms);
    ParallelOthersNamed(d, d', p, vms);
  }

  /** Nothing in the parallel result names start. */
  lemma ParallelStartUnnamed(d: ODict<Action>, d': ODict<Action>, p: Plan, vms: seq<string>)
    requires PlanOf(d, p) && VmsOf(d, vms)
    requires ParallelNodes(d, d', p, vms) && ParallelEdges(Corrected, d, d', p, vms)
    requires forall k :: k in d.vals ==> VmStart !in Successors(d.vals[k].invokeNext)
    ensures forall k :: k in d'.vals ==> VmStart !in Successors(d'.vals[k].invokeNext)
  {
    forall v | v in vms ensures PollName(v) != VmStart {
      PollNotStartStop(v);
    }
    forall k | k in d'.vals
      ensures VmStart !in Successors(d'.vals[k].invokeNext)
    {
      assert k in d'.keys;
      if k in d.vals {
        if k in p.leaves {
          assert Successors(d'.vals[k].invokeNext) == [VmStop];
        } else {
          RedirectEachKeepsAbsent(d.vals[k].invokeNext, vms, VmStart);
        }
      } else if k == VmStart {
        PollNotStartStop(p.entry);
        assert Successors(d'.vals[k].invokeNext) == [if p.entry in vms then PollName(p.entry) else p.entry];
      } else if k == VmStop {
        assert Successors(d'.vals[k].invokeNext) == [];
      } else {
        assert k in PollNames(vms);
        PollNamesMember(vms, k);
        var v :| v in vms && k == PollName(v);
        assert Successors(d'.vals[k].invokeNext) == [v];
      }
    }
  }

  /** In the parallel result every action except start is named by some
      action. */
  lemma ParallelOthersNamed(d: ODict<Action>, d': ODict<Action>, p: Plan, vms: seq<string>)
    requires PlanOf(d, p) && VmsOf(d, vms)
    requires ParallelNodes(d, d', p, vms) && ParallelEdges(Corrected, d, d', p, vms)
    requires "" !in d.vals
    ensures forall x :: x in d'.vals && x != VmStart ==> HasPredecessor(d', x)
  {
    assert forall u, v :: u in vms && v in vms ==> PollName(u) != v;
    forall x | x in d'.vals && x != VmStart
      ensures HasPredecessor(d', x)
    {
      assert x in d'.keys;
      if x == VmStop {
        StopNamed(Corrected, d, d', p, vms);
      } else if x in d.vals {
        if x in vms {
          GateNamesVm(d, d', p, vms, x);
        } else if x == p.entry {
          StartNamesFirst(d, d', p, vms);
        } else {
          NamedStaysNamed(d, d', p, vms, x);
        }
      } else {
        assert x in PollNames(vms);
        PollNamesMember(vms, x);
        var v :| v in vms && x == PollName(v);
        if v == p.entry {
          StartNamesFirst(d, d', p, vms);
        } else {
          NamedStaysNamed(d, d', p, vms, v);
        }
      }
    }
  }

  /** Some leaf names stop. */
  lemma StopNamed(m: Rewrite, d: ODict<Action>, d': ODict<Action>, p: Plan, vms: seq<string>)
    requires PlanOf(d, p) && ParallelEdges(m, d, d', p, vms)
    ensures HasPredecessor(d', VmStop)
  {
    var l := p.leaves[0];
    assert l in p.leaves;
    assert Successors(d'.vals[l].invokeNext) == [VmStop];
  }

  /** Each VM action is named by its gate. */
  lemma GateNamesVm(d: ODict<Action>, d': ODict<Action>, p: Plan, vms: seq<string>, v: string)
    requires ParallelNodes(d, d', p, vms) && v in vms
    ensures HasPredecessor(d', v)
  {
    assert Successors(d'.vals[PollName(v)].invokeNext) == [v];
  }

  /** Start names the entry action, or its gate. */
  lemma StartNamesFirst(d: ODict<Action>, d': ODict<Action>, p: Plan, vms: seq<string>)
    requires ParallelNodes(d, d', p, vms)
    ensures HasPredecessor(d', if p.entry in vms then PollName(p.entry) else p.entry)
  {
    assert Successors(d'.vals[VmStart].invokeNext) == [if p.entry in vms then PollName(p.entry) else p.entry];
  }

  /** An original action `x` other than the entry was named by a non-leaf; in
      the parallel result that action names `x`'s gate, or `x` itself when
      `x` is not a VM action. */
  lemma NamedStaysNamed(d: ODict<Action>, d': ODict<Action>, p: Plan, vms: seq<string>, x: string)
    requires PlanOf(d, p) && VmsOf(d, vms)
    requires ParallelEdges(Corrected, d, d', p, vms)
    requires "" !in d.vals
    requires forall u, v :: u in vms && v in vms ==> PollName(u) != v
    requires x in d.vals && x != p.entry
    ensures HasPredecessor(d', if x in vms then PollName(x) else x)
  {
    var k :| k in d.vals && x in Successors(d.vals[k].invokeNext);
    if k in p.leaves {
      LeafSuccessors(d.vals[k].invokeNext);
      assert false;
    }
    var s := Successors(d.vals[k].invokeNext);
    var i :| 0 <= i < |s| && s[i] == x;
    RedirectEachPointwise(d.vals[k].invokeNext, vms);
    assert Successors(d'.vals[k].invokeNext)[i] == if x in vms then PollName(x) else x;
  }

  /** Provided no action already names the start node and no action is
      called "", the corrected parallel result's single entry is the start
      node (for the code's rewrite see `AsWrittenEntry`). */
  lemma ParallelEntry(w: Workflow)
    requires WellFormed(w)
    requires Parallel(Corrected, w).Ok?
    requires "" !in Actions(w).vals
    requires forall k :: k in Actions(w).vals ==> VmStart !in Successors(Actions(w).vals[k].invokeNext)
    ensures EntryOf(Actions(Parallel(Corrected, w).value)) == Ok(VmStart)
  {
    var d, d' := Actions(w), Actions(Parallel(Corrected, w).value);
    PlanFacts(w);
    VmsOfFacts(d);
    ParallelActions(Corrected, w);
    ParallelRewrites(Corrected, w);
    ShapeNamedParallel(d, d', Prepare(w).value, VmActionsIn(d, d.keys));
    EntryIs(d', VmStart);
  }

  // ---------------------------------------------------------------- the code's rewrite

  /** No dict `InvokeNext` of `d` names one of `vms` as a condition label or
      as a target: the edges on which the code's rewrite and the corrected
      one agree. */
  ghost predicate PlainEdges(d: ODict<Action>, vms: seq<string>) {
    forall k :: k in d.vals ==> PlainFor(d.vals[k].invokeNext, vms)
  }

  /** On such a workflow the code's parallel rewrite is the corrected one. */
  lemma ParallelAgrees(w: Workflow)
    requires WellFormed(w)
    requires PlainEdges(Actions(w), VmActionsIn(Actions(w), Actions(w).keys))
    ensures Parallel(AsWritten, w) == Parallel(Corrected, w)
  {
    if Prepare(w).Ok? {
      var d := Actions(w);
      PlanFacts(w);
      GatedVms(w);
      VmsOfFacts(d);
      StartStopAgree(d, Containers(w), Prepare(w).value, VmActionsIn(d, d.keys));
    }
  }

  /** The gating loops agree on the stage with start and stop added, whose
      new edges are plain lists. */
  lemma StartStopAgree(d: ODict<Action>, cs: ODict<string>, p: Plan, vms: seq<string>)
    requires PlanOf(d, p) && cs.Valid() && VmsOf(d, vms)
    requires PlainEdges(d, vms)
    ensures var d1 := WithStartStop(d, p);
      GateAll(AsWritten, Stage(d1, cs), vms, p.server, p.container)
        == GateAll(Corrected, Stage(d1, cs), vms, p.server, p.container)
  {
    var d1 := WithStartStop(d, p);
    WithStartStopFacts(d, p);
    forall k | k in d1.vals ensures PlainFor(d1.vals[k].invokeNext, vms) {
      if k !in d.vals {
        assert k == VmStart || k == VmStop;
      }
    }
    GateAllAgree(Stage(d1, cs), vms, p.server, p.container);
  }

  /** For the code's rewrite, only a VM action's gate leads to it, provided
      no dict `InvokeNext` names a VM action as a label or as a target. */
  lemma AsWrittenGatesOnly(w: Workflow)
    requires WellFormed(w)
    requires Parallel(AsWritten, w).Ok?
    requires PlainEdges(Actions(w), VmActionsIn(Actions(w), Actions(w).keys))
    ensures var d := Actions(w);
      OnlyGateNames(Actions(Parallel(AsWritten, w).value), VmActionsIn(d, d.keys))
  {
    ParallelAgrees(w);
    ParallelGatesOnly(w);
  }

  /** For the code's rewrite, start is the single entry under the same side
      conditions as `ParallelEntry`, provided no dict `InvokeNext` names a
      VM action as a label or as a target. */
  lemma AsWrittenEntry(w: Workflow)
    requires WellFormed(w)
    requires Parallel(AsWritten, w).Ok?
    requires PlainEdges(Actions(w), VmActionsIn(Actions(w), Actions(w).keys))
    requires "" !in Actions(w).vals
    requires forall k :: k in Actions(w).vals ==> VmStart !in Successors(Actions(w).vals[k].invokeNext)
    ensures EntryOf(Actions(Parallel(AsWritten, w).value)) == Ok(VmStart)
  {
    ParallelAgrees(w);
    ParallelEntry(w);
  }

  /** The code's rewrite of every original action that is not a leaf: an
      edge that iterates no VM action (a string, the list elements, or a
      dict's labels) is kept as it is; otherwise it becomes the list of the
      names it iterates, each VM action replaced by its gate. */
  lemma AsWrittenEdges(w: Workflow)
    requires WellFormed(w)
    requires Parallel(AsWritten, w).Ok?
    ensures var d := Actions(w); var d' := Actions(Parallel(AsWritten, w).value);
      forall k :: k in d.vals && !IsLeaf(d.vals[k].invokeNext) ==>
        k in d'.vals && d'.vals[k] == d.vals[k].(invokeNext := AsWrittenEdge(d.vals[k].invokeNext, VmActionsIn(d, d.keys)))
  {
    var d := Actions(w);
    var vms := VmActionsIn(d, d.keys);
    PlanFacts(w);
    VmsOfFacts(d);
    ParallelErrors(AsWritten, w);
    assert forall u, v :: u in vms && v in vms ==> PollName(u) != v;
    ParallelRewrites(AsWritten, w);
    EdgesAsWritten(d, Actions(Parallel(AsWritten, w).value), Prepare(w).value, vms);
  }

  lemma EdgesAsWritten(d: ODict<Action>, d': ODict<Action>, p: Plan, vms: seq<string>)
    requires PlanOf(d, p) && ParallelEdges(AsWritten, d, d', p, vms)
    requires forall u, v :: u in vms && v in vms ==> PollName(u) != v
    ensures forall k :: k in d.vals && !IsLeaf(d.vals[k].invokeNext) ==>
      k in d'.vals && d'.vals[k] == d.vals[k].(invokeNext := AsWrittenEdge(d.vals[k].invokeNext, vms))
  {
    forall k | k in d.vals && !IsLeaf(d.vals[k].invokeNext)
      ensures RedirectEach(AsWritten, d.vals[k].invokeNext, vms) == AsWrittenEdge(d.vals[k].invokeNext, vms)
    {
      RedirectEachAsWritten(d.vals[k].invokeNext, vms);
    }
  }

  /** The code's rewrite lets a branch bypass a gate: when an action's dict
      `InvokeNext` has a VM action `v` among its targets but no VM action
      among its labels, that action still names `v` afterwards, so "only the
      gate leads to `v`" fails. */
  lemma AsWrittenBypassesGate(w: Workflow, k: string, v: string)
    requires WellFormed(w)
    requires Parallel(AsWritten, w).Ok?
    requires k in Actions(w).vals
    requires var d := Actions(w);
      && v in VmActionsIn(d, d.keys)
      && v in Successors(d.vals[k].invokeNext)
      && !Meets(Iterated(d.vals[k].invokeNext), VmActionsIn(d, d.keys))
    ensures var d := Actions(w); var d' := Actions(Parallel(AsWritten, w).value);
      && k in d'.vals && d'.vals[k].invokeNext == d.vals[k].invokeNext
      && !OnlyGateNames(d', VmActionsIn(d, d.keys))
  {
    var d := Actions(w);
    var d' := Actions(Parallel(AsWritten, w).value);
    var vms := VmActionsIn(d, d.keys);
    var inv := d.vals[k].invokeNext;
    assert !IsLeaf(inv);
    AsWrittenEdges(w);
    ParallelActions(AsWritten, w);
    assert PollName(v) !in d.vals;
    assert k != PollName(v);
  }
}
