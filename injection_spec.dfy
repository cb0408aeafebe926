/** The two rewrites of `VMInjectionTool` (scripts/faasr_inject_vm.py:192-389)
    as pure functions of the document, and what they guarantee. The class in
    injection.dfy performs them step by step and is proved to produce exactly
    these results. */
module InjectionSpec {
  import opened Base
  import opened Dicts
  import opened Schema
  import opened Topology

  const VmStart := "faasr-vm-start"
  const VmStop := "faasr-vm-stop"
  const PollPrefix := "faasr-vm-poll-"

  /** `f"faasr-vm-poll-{vm_action_name}"` */
  function PollName(v: string): string {
    PollPrefix + v
  }

  /** The action dict written for an injected node: a Python function on the
      GitHub Actions server, never requiring a VM, marked `_faasr_builtin`. */
  function Builtin(functionName: string, server: string, next: seq<string>): Action {
    Action(Some(functionName), Some(server), Some("Python"), false, List(next), true, NoResources)
  }

  /** What both strategies resolve before they touch `ActionList`. */
  datatype Plan = Plan(entry: string, leaves: seq<string>, server: string, container: Option<string>)

  /** The checks and queries in the order the source runs them: `VMConfig`,
      entry, leaves, server, container, then the two name conflicts. */
  function Prepare(w: Workflow): Result<Plan, EngineError> {
    if w.vmConfig.None? then Err(MissingVMConfig)
    else
      match EntryOf(Actions(w))
      case Err(e) => Err(e)
      case Ok(entry) =>
        match LeavesOf(Actions(w))
        case Err(e) => Err(e)
        case Ok(leaves) =>
          match GitHubServerOf(w)
          case Err(e) => Err(e)
          case Ok(server) =>
            if VmStart in Actions(w).vals then Err(NameConflict(VmStart))
            else if VmStop in Actions(w).vals then Err(NameConflict(VmStop))
            else Ok(Plan(entry, leaves, server, ContainerOf(w, server)))
  }

  /** `ActionList` after the start and stop nodes are inserted. */
  function WithStartStop(d: ODict<Action>, p: Plan): ODict<Action> {
    d.Put(VmStart, Builtin("vm_start", p.server, [p.entry]))
     .Put(VmStop, Builtin("vm_stop", p.server, []))
  }

  /** Every leaf's `InvokeNext` becomes `[stop]`. */
  function PointLeavesTo(d: ODict<Action>, leaves: seq<string>, stop: string): ODict<Action> {
    ODict(d.keys, map k | k in d.vals :: if k in leaves then d.vals[k].(invokeNext := List([stop])) else d.vals[k])
  }

  /** The common tail of both strategies: leaves to stop, containers for start
      and stop when one was found (`ActionContainers` is created if absent),
      and `FunctionInvoke` set to start. */
  function Finish(w: Workflow, d: ODict<Action>, cs: ODict<string>, p: Plan): Workflow {
    var cs' := if p.container.Some? then cs.Put(VmStart, p.container.value).Put(VmStop, p.container.value) else cs;
    w.(actionList := Some(PointLeavesTo(d, p.leaves, VmStop)), containers := Some(cs'), functionInvoke := Some(VmStart))
  }

  /** `inject_vm_actions_sequential` */
  function Sequential(w: Workflow): Result<Workflow, EngineError> {
    match Prepare(w)
    case Err(e) => Err(e)
    case Ok(p) => Ok(Finish(w, WithStartStop(Actions(w), p), Containers(w), p))
  }

  // ---------------------------------------------------------------- redirection

  function Labels(bs: seq<Branch>): seq<string> {
    if bs == [] then [] else [bs[0].condition] + Labels(bs[1..])
  }

  /** What `vm_action_name in invoke_next` and the comprehension of line 368
      iterate over once a string is wrapped into a list: the string, the list
      elements, or the KEYS of a dict. */
  function Iterated(inv: InvokeNext): seq<string> {
    match inv
    case Missing => []
    case Str(n) => [n]
    case List(ns) => ns
    case Cond(bs) => Labels(bs)
  }

  /** `[poll if x == v else x for x in xs]` */
  function Replace(xs: seq<string>, v: string, p: string): seq<string> {
    if xs == [] then [] else [if xs[0] == v then p else xs[0]] + Replace(xs[1..], v, p)
  }

  /** Position by position, `Replace` writes `p` where `v` was and keeps every
      other name, so list order and the other targets are untouched. */
  lemma {:induction false} ReplaceMeaning(xs: seq<string>, v: string, p: string)
    ensures |Replace(xs, v, p)| == |xs|
    ensures forall i :: 0 <= i < |xs| ==> Replace(xs, v, p)[i] == if xs[i] == v then p else xs[i]
  {
    if xs != [] {
      ReplaceMeaning(xs[1..], v, p);
    }
  }

  lemma ReplaceMember(xs: seq<string>, v: string, p: string, x: string)
    ensures x in Replace(xs, v, p) <==> (x == p && v in xs) || (x != v && x in xs)
  {
    ReplaceMeaning(xs, v, p);
    var r := Replace(xs, v, p);
    if x in r {
      var i :| 0 <= i < |r| && r[i] == x;
    }
    if x == p && v in xs {
      var i :| 0 <= i < |xs| && xs[i] == v;
      assert r[i] == x;
    }
    if x != v && x in xs {
      var i :| 0 <= i < |xs| && xs[i] == x;
      assert r[i] == x;
    }
  }

  lemma ReplaceAppend(xs: seq<string>, ys: seq<string>, v: string, p: string)
    ensures Replace(xs + ys, v, p) == Replace(xs, v, p) + Replace(ys, v, p)
  {
    ReplaceMeaning(xs + ys, v, p);
    ReplaceMeaning(xs, v, p);
    ReplaceMeaning(ys, v, p);
  }

  lemma ReplaceAbsent(xs: seq<string>, v: string, p: string)
    requires v !in xs
    ensures Replace(xs, v, p) == xs
  {
    ReplaceMeaning(xs, v, p);
  }

  /** The rewrite of one action's `InvokeNext` at lines 362-369 as written:
      a string is wrapped into a list, and `in` and the comprehension then
      work on the list elements or, for a dict, on its condition labels. */
  function RedirectAsWritten(inv: InvokeNext, v: string, p: string): InvokeNext {
    if v in Iterated(inv) then List(Replace(Iterated(inv), v, p)) else inv
  }

  /** As written, a conditional edge into the VM action is not redirected:
      `{"onSuccess": "A", "onFailure": "B"}` with `B` gated keeps naming `B`,
      so the branch bypasses `B`'s gate. */
  lemma AsWrittenSkipsConditional()
    ensures var inv := Cond([Branch("onSuccess", One("A")), Branch("onFailure", One("B"))]);
      && RedirectAsWritten(inv, "B", PollName("B")) == inv
      && "B" in Successors(RedirectAsWritten(inv, "B", PollName("B")))
  {
    var inv := Cond([Branch("onSuccess", One("A")), Branch("onFailure", One("B"))]);
    assert inv.branches[1..] == [Branch("onFailure", One("B"))];
    assert inv.branches[1..][1..] == [];
    assert Iterated(inv) == ["onSuccess", "onFailure"];
    assert inv.branches[..1] == [Branch("onSuccess", One("A"))];
    assert inv.branches[..1][..0] == [];
    assert BranchTargets(inv.branches[..1]) == [] + ["A"];
    assert Successors(inv) == ["A"] + ["B"];
  }

  /** As written, a condition label equal to the VM action's name turns the
      dict into the list of its labels: the edge to `C` is lost. */
  lemma AsWrittenDropsTargets()
    ensures RedirectAsWritten(Cond([Branch("B", One("C"))]), "B", PollName("B")) == List([PollName("B")])
  {
    assert Iterated(Cond([Branch("B", One("C"))])) == ["B"];
    assert Replace(["B"], "B", PollName("B")) == [PollName("B")] + Replace([], "B", PollName("B"));
  }

  function RedirectTargets(t: Targets, v: string, p: string): Targets {
    match t
    case One(n) => One(if n == v then p else n)
    case Many(ns) => Many(Replace(ns, v, p))
  }

  function RedirectBranches(bs: seq<Branch>, v: string, p: string): seq<Branch> {
    seq(|bs|, i requires 0 <= i < |bs| => Branch(bs[i].condition, RedirectTargets(bs[i].targets, v, p)))
  }

  /** The rewrite of one action's `InvokeNext` when `v` gets the gate `p`, as
      the code evidently intends it: a string or list is treated as the code
      does, and a dict keeps its labels, in order, with `v` replaced among
      each label's targets. */
  function Redirect(inv: InvokeNext, v: string, p: string): InvokeNext {
    match inv
    case Missing => Missing
    case Str(n) => if n == v then List([p]) else inv
    case List(ns) => if v in ns then List(Replace(ns, v, p)) else inv
    case Cond(bs) => Cond(RedirectBranches(bs, v, p))
  }

  /** On strings and lists the corrected rewrite is the code's. */
  lemma RedirectAgrees(inv: InvokeNext, v: string, p: string)
    requires !inv.Cond?
    ensures Redirect(inv, v, p) == RedirectAsWritten(inv, v, p)
  {
    match inv
    case Str(n) =>
      assert Replace([n], v, p) == [if n == v then p else n] + Replace([], v, p);
    case _ =>
  }

  lemma {:induction false} BranchTargetsRedirected(bs: seq<Branch>, v: string, p: string)
    decreases |bs|
    ensures BranchTargets(RedirectBranches(bs, v, p)) == Replace(BranchTargets(bs), v, p)
  {
    if bs != [] {
      var init, last := bs[..|bs| - 1], bs[|bs| - 1];
      BranchTargetsRedirected(init, v, p);
      assert RedirectBranches(bs, v, p)[..|bs| - 1] == RedirectBranches(init, v, p);
      ReplaceAppend(BranchTargets(init), Flatten(last.targets), v, p);
      match last.targets
      case One(n) =>
        assert Replace([n], v, p) == [if n == v then p else n] + Replace([], v, p);
      case Many(ns) =>
    }
  }

  /** The corrected rewrite replaces `v` by `p` among the successors, in
      place, and keeps the shape: a dict keeps its labels in order. */
  lemma RedirectSuccessors(inv: InvokeNext, v: string, p: string)
    ensures Successors(Redirect(inv, v, p)) == Replace(Successors(inv), v, p)
    ensures inv.Cond? ==> (Redirect(inv, v, p).Cond? && |Redirect(inv, v, p).branches| == |inv.branches|
      && forall i :: 0 <= i < |inv.branches| ==> Redirect(inv, v, p).branches[i].condition == inv.branches[i].condition)
    ensures inv.Missing? ==> Redirect(inv, v, p).Missing?
  {
    match inv
    case Missing =>
    case Str(n) =>
      assert Replace([n], v, p) == [if n == v then p else n] + Replace([], v, p);
    case List(ns) =>
      if v !in ns {
        ReplaceAbsent(ns, v, p);
      }
    case Cond(bs) =>
      BranchTargetsRedirected(bs, v, p);
  }

  /** After the rewrite `v` is no longer a successor; a name other than the
      gate that was not a successor before is not one after. */
  lemma RedirectRemoves(inv: InvokeNext, v: string, p: string, x: string)
    requires p != v
    requires x == v || (x != p && x !in Successors(inv))
    ensures x !in Successors(Redirect(inv, v, p))
  {
    RedirectSuccessors(inv, v, p);
    ReplaceMember(Successors(inv), v, p, x);
  }

  /** A rewrite for a name that is not a successor changes nothing. */
  lemma RedirectUnchanged(inv: InvokeNext, v: string, p: string)
    requires v !in Successors(inv)
    ensures Redirect(inv, v, p) == inv
  {
    match inv
    case Cond(bs) =>
      forall i | 0 <= i < |bs|
        ensures RedirectTargets(bs[i].targets, v, p) == bs[i].targets
      {
        BranchTargetsMember(bs, v);
        match bs[i].targets
        case One(n) =>
        case Many(ns) => ReplaceAbsent(ns, v, p);
      }
      assert RedirectBranches(bs, v, p) == bs;
    case _ =>
  }

  /** Which rewrite of an edge the parallel strategy applies: the code's
      (`RedirectAsWritten`, what lines 362-369 do) or the corrected one
      (`Redirect`, what the docstring at line 275 and the comment at line
      357 describe). */
  datatype Rewrite = AsWritten | Corrected

  function RedirectBy(m: Rewrite, inv: InvokeNext, v: string, p: string): InvokeNext {
    match m
    case AsWritten => RedirectAsWritten(inv, v, p)
    case Corrected => Redirect(inv, v, p)
  }

  /** An action that was not a leaf is still not a leaf after either
      rewrite: neither ever empties an edge. */
  lemma RedirectKeepsNonLeaf(m: Rewrite, inv: InvokeNext, v: string, p: string)
    requires !IsLeaf(inv)
    ensures !IsLeaf(RedirectBy(m, inv, v, p))
  {
    ReplaceMeaning(Iterated(inv), v, p);
    match inv
    case List(ns) => ReplaceMeaning(ns, v, p);
    case _ =>
  }

  /** Neither rewrite changes an edge that neither iterates nor targets the
      VM action. */
  lemma RedirectByUnchanged(m: Rewrite, inv: InvokeNext, v: string, p: string)
    requires v !in Successors(inv) && v !in Iterated(inv)
    ensures RedirectBy(m, inv, v, p) == inv
  {
    RedirectUnchanged(inv, v, p);
  }

  /** Rewrites for the VM actions `vms`, one after the other. */
  function RedirectEach(m: Rewrite, inv: InvokeNext, vms: seq<string>): InvokeNext
    decreases |vms|
  {
    if vms == [] then inv else RedirectEach(m, RedirectBy(m, inv, vms[0], PollName(vms[0])), vms[1..])
  }

  lemma {:induction false} RedirectEachKeepsNonLeaf(m: Rewrite, inv: InvokeNext, vms: seq<string>)
    decreases |vms|
    requires !IsLeaf(inv)
    ensures !IsLeaf(RedirectEach(m, inv, vms))
  {
    if vms != [] {
      RedirectKeepsNonLeaf(m, inv, vms[0], PollName(vms[0]));
      RedirectEachKeepsNonLeaf(m, RedirectBy(m, inv, vms[0], PollName(vms[0])), vms[1..]);
    }
  }

  /** Under the corrected rewrite no name but a gate becomes a successor. */
  lemma {:induction false} RedirectEachKeepsAbsent(inv: InvokeNext, vms: seq<string>, x: string)
    decreases |vms|
    requires x !in Successors(inv)
    requires forall v :: v in vms ==> PollName(v) != x
    ensures x !in Successors(RedirectEach(Corrected, inv, vms))
  {
    if vms != [] {
      RedirectRemoves(inv, vms[0], PollName(vms[0]), x);
      RedirectEachKeepsAbsent(Redirect(inv, vms[0], PollName(vms[0])), vms[1..], x);
    }
  }

  /** A one-target list is gated exactly when its target is a VM action,
      under either rewrite. */
  lemma {:induction false} RedirectEachSingleton(m: Rewrite, x: string, vms: seq<string>)
    requires Distinct(vms)
    requires forall u, v :: u in vms && v in vms ==> PollName(u) != v
    ensures RedirectEach(m, List([x]), vms) == List([if x in vms then PollName(x) else x])
  {
    if vms != [] {
      var v := vms[0];
      var next := RedirectBy(m, List([x]), v, PollName(v));
      assert Replace([x], v, PollName(v)) == [if x == v then PollName(v) else x] + Replace([], v, PollName(v));
      assert next == List([if x == v then PollName(v) else x]);
      assert forall u :: u in vms[1..] ==> u in vms;
      if x == v {
        assert x !in vms[1..];
        RedirectEachUnchanged(m, next, vms[1..]);
      } else {
        RedirectEachSingleton(m, x, vms[1..]);
      }
    }
  }

  /** Rewrites for names an edge neither iterates nor targets change
      nothing. */
  lemma {:induction false} RedirectEachUnchanged(m: Rewrite, inv: InvokeNext, vms: seq<string>)
    requires forall v :: v in vms ==> v !in Successors(inv) && v !in Iterated(inv)
    ensures RedirectEach(m, inv, vms) == inv
  {
    if vms != [] {
      RedirectByUnchanged(m, inv, vms[0], PollName(vms[0]));
      RedirectEachUnchanged(m, inv, vms[1..]);
    }
  }

  /** `xs` with every VM action replaced by its gate. */
  function GatedNames(xs: seq<string>, vms: seq<string>): seq<string> {
    seq(|xs|, i requires 0 <= i < |xs| => if xs[i] in vms then PollName(xs[i]) else xs[i])
  }

  /** Some name of `xs` is a VM action. */
  predicate Meets(xs: seq<string>, vms: seq<string>) {
    exists i :: 0 <= i < |xs| && xs[i] in vms
  }

  /** Replacing `v0` by its gate, then gating the other VM actions, gates
      them all. */
  lemma GatedNamesCompose(xs: seq<string>, v0: string, rest: seq<string>)
    requires PollName(v0) !in rest
    ensures GatedNames(Replace(xs, v0, PollName(v0)), rest) == GatedNames(xs, [v0] + rest)
  {
    ReplaceMeaning(xs, v0, PollName(v0));
  }

  lemma GatedNamesAbsent(xs: seq<string>, vms: seq<string>)
    requires !Meets(xs, vms)
    ensures GatedNames(xs, vms) == xs
  {
  }

  /** What the code does to one edge once every VM action has its gate: an
      edge that iterates no VM action is kept as it is, whatever its
      targets; otherwise it becomes the list of the names it iterates (a
      dict's condition labels, not its targets), each VM action replaced by
      its gate. */
  function AsWrittenEdge(inv: InvokeNext, vms: seq<string>): InvokeNext {
    if Meets(Iterated(inv), vms) then List(GatedNames(Iterated(inv), vms)) else inv
  }

  /** The code's rewrites, applied for one VM action after the other, give
      `AsWrittenEdge`. */
  lemma {:induction false} RedirectEachAsWritten(inv: InvokeNext, vms: seq<string>)
    decreases |vms|
    requires forall u, v :: u in vms && v in vms ==> PollName(u) != v
    ensures RedirectEach(AsWritten, inv, vms) == AsWrittenEdge(inv, vms)
  {
    if vms != [] {
      var v0, rest := vms[0], vms[1..];
      var p0 := PollName(v0);
      var xs := Iterated(inv);
      assert vms == [v0] + rest;
      assert forall u :: u in rest ==> u in vms;
      assert p0 !in rest;
      if v0 in xs {
        var ys := Replace(xs, v0, p0);
        var mid := List(ys);
        assert RedirectAsWritten(inv, v0, p0) == mid;
        RedirectEachAsWritten(mid, rest);
        GatedNamesCompose(xs, v0, rest);
        if !Meets(ys, rest) {
          GatedNamesAbsent(ys, rest);
        }
        var i :| 0 <= i < |xs| && xs[i] == v0;
        assert Meets(xs, vms);
      } else {
        assert RedirectAsWritten(inv, v0, p0) == inv;
        RedirectEachAsWritten(inv, rest);
        assert Meets(xs, rest) == Meets(xs, vms);
        assert GatedNames(xs, rest) == GatedNames(xs, vms);
      }
    }
  }

  /** An edge on which the two rewrites agree for every VM action: it is not
      a dict, or it is a dict that names no VM action as a label or as a
      target. */
  predicate PlainFor(inv: InvokeNext, vms: seq<string>) {
    inv.Cond? ==> forall v :: v in vms ==> v !in Iterated(inv) && v !in Successors(inv)
  }

  /** On such an edge the code's rewrites and the corrected ones give the
      same result. */
  lemma {:induction false} RedirectEachAgree(inv: InvokeNext, vms: seq<string>)
    decreases |vms|
    requires PlainFor(inv, vms)
    ensures RedirectEach(AsWritten, inv, vms) == RedirectEach(Corrected, inv, vms)
  {
    if vms != [] {
      var v0, rest := vms[0], vms[1..];
      assert forall u :: u in rest ==> u in vms;
      if inv.Cond? {
        RedirectUnchanged(inv, v0, PollName(v0));
        RedirectEachAgree(inv, rest);
      } else {
        RedirectAgrees(inv, v0, PollName(v0));
        RedirectEachAgree(Redirect(inv, v0, PollName(v0)), rest);
      }
    }
  }

  // ---------------------------------------------------------------- gating

  /** `ActionList` and `ActionContainers` while the parallel loop runs. */
  datatype Stage = Stage(actions: ODict<Action>, containers: ODict<string>)

  /** Rewrite every action except the gate itself (line 359). */
  function RedirectAll(m: Rewrite, d: ODict<Action>, v: string, p: string): ODict<Action> {
    ODict(d.keys, map k | k in d.vals :: if k == p then d.vals[k] else d.vals[k].(invokeNext := RedirectBy(m, d.vals[k].invokeNext, v, p)))
  }

  /** One iteration of the loop of lines 338-370 for VM action `v`. */
  function GateOne(m: Rewrite, s: Stage, v: string, server: string, container: Option<string>): Result<Stage, EngineError> {
    var poll := PollName(v);
    if poll in s.actions.vals then Err(NameConflict(poll))
    else
      var d := s.actions.Put(poll, Builtin("vm_poll", server, [v]));
      var cs := if container.Some? then s.containers.Put(poll, container.value) else s.containers;
      Ok(Stage(RedirectAll(m, d, v, poll), cs))
  }

  /** The whole loop: the first conflict stops it. */
  function GateAll(m: Rewrite, s: Stage, vms: seq<string>, server: string, container: Option<string>): Result<Stage, EngineError>
    decreases |vms|
  {
    if vms == [] then Ok(s)
    else
      match GateOne(m, s, vms[0], server, container)
      case Err(e) => Err(e)
      case Ok(s1) => GateAll(m, s1, vms[1..], server, container)
  }

  /** `inject_vm_actions_parallel` with rewrite `m`: `Parallel(AsWritten, w)`
      is what the code does, `Parallel(Corrected, w)` what it is meant to do. */
  function Parallel(m: Rewrite, w: Workflow): Result<Workflow, EngineError> {
    match Prepare(w)
    case Err(e) => Err(e)
    case Ok(p) =>
      var d := WithStartStop(Actions(w), p);
      match GateAll(m, Stage(d, Containers(w)), VmActionsIn(d, d.keys), p.server, p.container)
      case Err(e) => Err(e)
      case Ok(s) => Ok(Finish(w, s.actions, s.containers, p))
  }

  function PollNames(vms: seq<string>): seq<string> {
    if vms == [] then [] else [PollName(vms[0])] + PollNames(vms[1..])
  }

  lemma PollNameInjective(u: string, v: string)
    ensures PollName(u) == PollName(v) <==> u == v
  {
    if PollName(u) == PollName(v) {
      assert u == PollName(u)[|PollPrefix|..];
    }
  }

  /** One gate step appends the gate name, which was free. */
  lemma GateOneKeys(m: Rewrite, s: Stage, v: string, server: string, container: Option<string>)
    requires s.actions.Valid() && s.containers.Valid()
    requires GateOne(m, s, v, server, container).Ok?
    ensures var t := GateOne(m, s, v, server, container).value;
      && t.actions.Valid() && t.containers.Valid()
      && t.actions.keys == s.actions.keys + [PollName(v)]
      && PollName(v) !in s.actions.vals
  {
  }

  /** One gate step: the gate's dict, and the rewrite of every other action. */
  lemma GateOneEntries(m: Rewrite, s: Stage, v: string, server: string, container: Option<string>)
    requires s.actions.Valid()
    requires GateOne(m, s, v, server, container).Ok?
    ensures var t := GateOne(m, s, v, server, container).value;
      && PollName(v) in t.actions.vals
      && t.actions.vals[PollName(v)] == Builtin("vm_poll", server, [v])
      && (forall k :: k in s.actions.vals ==>
            k in t.actions.vals && t.actions.vals[k] == s.actions.vals[k].(invokeNext := RedirectBy(m, s.actions.vals[k].invokeNext, v, PollName(v))))
  {
  }

  /** Unfolding the gating loop once: the first gate step succeeds and the
      rest of the loop runs on its result. */
  lemma GateAllStep(m: Rewrite, s: Stage, vms: seq<string>, server: string, container: Option<string>)
    requires s.actions.Valid() && s.containers.Valid()
    requires vms != []
    requires forall v :: v in vms ==> v in s.actions.vals
    requires GateAll(m, s, vms, server, container).Ok?
    ensures GateOne(m, s, vms[0], server, container).Ok?
    ensures var s1 := GateOne(m, s, vms[0], server, container).value;
      && s1.actions.Valid() && s1.containers.Valid()
      && GateAll(m, s, vms, server, container) == GateAll(m, s1, vms[1..], server, container)
      && (forall u :: u in vms[1..] ==> u in s1.actions.vals)
    ensures Distinct(vms) ==> Distinct(vms[1..]) && forall u :: u in vms[1..] ==> u != vms[0]
  {
    GateOneKeys(m, s, vms[0], server, container);
    assert forall u :: u in vms[1..] ==> u in vms;
  }

  /** One corrected gate step: afterwards only the gate names `v`. */
  lemma GateOneRemoves(s: Stage, v: string, server: string, container: Option<string>)
    requires s.actions.Valid()
    requires GateOne(Corrected, s, v, server, container).Ok?
    ensures var t := GateOne(Corrected, s, v, server, container).value;
      forall k :: k in t.actions.vals && k != PollName(v) ==> v !in Successors(t.actions.vals[k].invokeNext)
  {
    var t := GateOne(Corrected, s, v, server, container).value;
    var p := PollName(v);
    assert p != v by { assert |p| > |v|; }
    forall k | k in t.actions.vals && k != p
      ensures v !in Successors(t.actions.vals[k].invokeNext)
    {
      RedirectRemoves(s.actions.vals[k].invokeNext, v, p, v);
    }
  }

  /** One gate step: the gate gets the container when one was found. */
  lemma GateOneContainers(m: Rewrite, s: Stage, v: string, server: string, container: Option<string>)
    requires s.containers.Valid()
    requires GateOne(m, s, v, server, container).Ok?
    ensures var t := GateOne(m, s, v, server, container).value;
      forall k :: t.containers.Get(k) == if container.Some? && k == PollName(v) then container else s.containers.Get(k)
  {
  }

  /** The gating loop appends one gate per VM action to `ActionList`; no gate
      name was taken before. */
  lemma {:induction false} GateAllKeys(m: Rewrite, s: Stage, vms: seq<string>, server: string, container: Option<string>)
    decreases |vms|
    requires s.actions.Valid() && s.containers.Valid()
    requires forall v :: v in vms ==> v in s.actions.vals
    requires GateAll(m, s, vms, server, container).Ok?
    ensures var t := GateAll(m, s, vms, server, container).value;
      && t.actions.Valid() && t.containers.Valid()
      && t.actions.keys == s.actions.keys + PollNames(vms)
      && (forall v :: v in vms ==> PollName(v) !in s.actions.vals)
  {
    if vms != [] {
      var v0, rest := vms[0], vms[1..];
      GateOneKeys(m, s, v0, server, container);
      var s1 := GateOne(m, s, v0, server, container).value;
      assert forall u :: u in rest ==> u in vms;
      GateAllKeys(m, s1, rest, server, container);
      var t := GateAll(m, s1, rest, server, container).value;
      assert GateAll(m, s, vms, server, container).value == t;
      calc {
        t.actions.keys;
        s1.actions.keys + PollNames(rest);
        (s.actions.keys + [PollName(v0)]) + PollNames(rest);
        { AppendAssoc(s.actions.keys, [PollName(v0)], PollNames(rest)); }
        s.actions.keys + ([PollName(v0)] + PollNames(rest));
        s.actions.keys + PollNames(vms);
      }
    }
  }

  /** Each gate has the single edge to its VM action. */
  lemma {:induction false} GateAllGates(m: Rewrite, s: Stage, vms: seq<string>, server: string, container: Option<string>)
    decreases |vms|
    requires s.actions.Valid() && s.containers.Valid()
    requires Distinct(vms)
    requires forall v :: v in vms ==> v in s.actions.vals
    requires GateAll(m, s, vms, server, container).Ok?
    ensures var t := GateAll(m, s, vms, server, container).value;
      forall v :: v in vms ==> PollName(v) in t.actions.vals && t.actions.vals[PollName(v)] == Builtin("vm_poll", server, [v])
  {
    if vms != [] {
      var v0, rest := vms[0], vms[1..];
      GateAllStep(m, s, vms, server, container);
      var s1 := GateOne(m, s, v0, server, container).value;
      GateOneEntries(m, s, v0, server, container);
      GateAllGates(m, s1, rest, server, container);
      GateAllRewrites(m, s1, rest, server, container);
      RedirectEachUnchanged(m, List([v0]), rest);
    }
  }

  /** Every action present before the loop keeps its fields except
      `InvokeNext`, which gets the rewrites for all VM actions in turn. */
  lemma {:induction false} GateAllRewrites(m: Rewrite, s: Stage, vms: seq<string>, server: string, container: Option<string>)
    decreases |vms|
    requires s.actions.Valid() && s.containers.Valid()
    requires forall v :: v in vms ==> v in s.actions.vals
    requires GateAll(m, s, vms, server, container).Ok?
    ensures var t := GateAll(m, s, vms, server, container).value;
      forall k :: k in s.actions.vals ==>
        k in t.actions.vals && t.actions.vals[k] == s.actions.vals[k].(invokeNext := RedirectEach(m, s.actions.vals[k].invokeNext, vms))
  {
    if vms != [] {
      var v0, rest := vms[0], vms[1..];
      GateAllStep(m, s, vms, server, container);
      var s1 := GateOne(m, s, v0, server, container).value;
      GateOneEntries(m, s, v0, server, container);
      GateAllRewrites(m, s1, rest, server, container);
    }
  }

  /** After the corrected loop, no action other than `v`'s gate names `v`.
      The code's loop does not promise this (`AsWrittenSkipsConditional`). */
  lemma {:induction false} GateAllRemoves(s: Stage, vms: seq<string>, server: string, container: Option<string>)
    decreases |vms|
    requires s.actions.Valid() && s.containers.Valid()
    requires Distinct(vms)
    requires forall v :: v in vms ==> v in s.actions.vals
    requires GateAll(Corrected, s, vms, server, container).Ok?
    ensures var t := GateAll(Corrected, s, vms, server, container).value;
      forall v, k :: v in vms && k in t.actions.vals && k != PollName(v) ==> v !in Successors(t.actions.vals[k].invokeNext)
  {
    if vms != [] {
      var v0, rest := vms[0], vms[1..];
      GateOneKeys(Corrected, s, v0, server, container);
      var s1 := GateOne(Corrected, s, v0, server, container).value;
      assert forall u :: u in rest ==> u in vms;
      GateAllRemoves(s1, rest, server, container);
      GateAllRemovesFirst(s, vms, server, container);
      assert GateAll(Corrected, s, vms, server, container) == GateAll(Corrected, s1, rest, server, container);
    }
  }

  /** The inductive step of `GateAllRemoves`: the first VM action is not
      named by anything but its gate once the later gates are in place. */
  lemma GateAllRemovesFirst(s: Stage, vms: seq<string>, server: string, container: Option<string>)
    requires s.actions.Valid() && s.containers.Valid()
    requires Distinct(vms) && vms != []
    requires forall v :: v in vms ==> v in s.actions.vals
    requires GateAll(Corrected, s, vms, server, container).Ok?
    ensures var t := GateAll(Corrected, s, vms, server, container).value;
      forall k :: k in t.actions.vals && k != PollName(vms[0]) ==> vms[0] !in Successors(t.actions.vals[k].invokeNext)
  {
    var v0, rest := vms[0], vms[1..];
    var p0 := PollName(v0);
    GateAllStep(Corrected, s, vms, server, container);
    var s1 := GateOne(Corrected, s, v0, server, container).value;
    var t := GateAll(Corrected, s1, rest, server, container).value;
    GateOneRemoves(s, v0, server, container);
    GateAllKeys(Corrected, s1, rest, server, container);
    assert v0 in s1.actions.vals;
    assert forall u :: u in rest ==> PollName(u) != v0;
    GateAllRewrites(Corrected, s1, rest, server, container);
    GateAllAdded(Corrected, s1, rest, server, container);
    GatedKeepAbsent(s1.actions.vals, t.actions.vals, rest, v0, p0);
  }

  /** The only actions the gating loop adds are gates, each naming one
      VM action. */
  lemma GateAllAdded(m: Rewrite, s: Stage, vms: seq<string>, server: string, container: Option<string>)
    requires s.actions.Valid() && s.containers.Valid()
    requires Distinct(vms)
    requires forall v :: v in vms ==> v in s.actions.vals
    requires GateAll(m, s, vms, server, container).Ok?
    ensures var t := GateAll(m, s, vms, server, container).value;
      forall k :: k in t.actions.vals && k !in s.actions.vals ==> exists u :: u in vms && t.actions.vals[k].invokeNext == List([u])
  {
    GateAllKeys(m, s, vms, server, container);
    GateAllGates(m, s, vms, server, container);
    var t := GateAll(m, s, vms, server, container).value;
    forall k | k in t.actions.vals && k !in s.actions.vals
      ensures exists u :: u in vms && t.actions.vals[k].invokeNext == List([u])
    {
      assert k in t.actions.keys;
      assert k in PollNames(vms);
      PollNamesMember(vms, k);
      var u :| u in vms && k == PollName(u);
      assert t.actions.vals[k].invokeNext == List([u]);
    }
  }

  /** The map-level step of `GateAllRemovesFirst`: rewriting the old actions
      for later VM actions, and adding gates for them, leaves `v0` without a
      new predecessor. */
  lemma GatedKeepAbsent(before: map<string, Action>, after: map<string, Action>, rest: seq<string>, v0: string, p0: string)
    requires forall k :: k in before && k != p0 ==> v0 !in Successors(before[k].invokeNext)
    requires forall k :: k in before ==> k in after && after[k].invokeNext == RedirectEach(Corrected, before[k].invokeNext, rest)
    requires forall k :: k in after && k !in before ==> exists u :: u in rest && after[k].invokeNext == List([u])
    requires forall u :: u in rest ==> u != v0 && PollName(u) != v0
    ensures forall k :: k in after && k != p0 ==> v0 !in Successors(after[k].invokeNext)
  {
    forall k | k in after && k != p0
      ensures v0 !in Successors(after[k].invokeNext)
    {
      if k in before {
        RedirectEachKeepsAbsent(before[k].invokeNext, rest, v0);
      } else {
        var u :| u in rest && after[k].invokeNext == List([u]);
      }
    }
  }

  /** Whether the loop stops, with which name conflict, and which keys and
      containers it leaves depend only on the action names: not on the
      rewrite, nor on the edges. */
  lemma {:induction false} GateAllSameShape(m: Rewrite, n: Rewrite, s: Stage, t: Stage, vms: seq<string>, server: string, container: Option<string>)
    decreases |vms|
    requires s.actions.keys == t.actions.keys && s.actions.vals.Keys == t.actions.vals.Keys
    requires s.containers == t.containers
    ensures GateAll(m, s, vms, server, container).Ok? == GateAll(n, t, vms, server, container).Ok?
    ensures GateAll(m, s, vms, server, container).Err? ==>
      GateAll(m, s, vms, server, container).error == GateAll(n, t, vms, server, container).error
    ensures GateAll(m, s, vms, server, container).Ok? ==>
      && GateAll(m, s, vms, server, container).value.actions.keys == GateAll(n, t, vms, server, container).value.actions.keys
      && GateAll(m, s, vms, server, container).value.containers == GateAll(n, t, vms, server, container).value.containers
  {
    if vms != [] && PollName(vms[0]) !in s.actions.vals {
      var s1 := GateOne(m, s, vms[0], server, container).value;
      var t1 := GateOne(n, t, vms[0], server, container).value;
      assert s1.actions.vals.Keys == t1.actions.vals.Keys;
      GateAllSameShape(m, n, s1, t1, vms[1..], server, container);
    }
  }

  /** When every edge is one on which the two rewrites agree, the code's
      gating loop and the corrected one give the same stage. */
  lemma GateAllAgree(s: Stage, vms: seq<string>, server: string, container: Option<string>)
    requires s.actions.Valid() && s.containers.Valid()
    requires Distinct(vms)
    requires forall v :: v in vms ==> v in s.actions.vals
    requires forall k :: k in s.actions.vals ==> PlainFor(s.actions.vals[k].invokeNext, vms)
    ensures GateAll(AsWritten, s, vms, server, container) == GateAll(Corrected, s, vms, server, container)
  {
    GateAllSameShape(AsWritten, Corrected, s, s, vms, server, container);
    if GateAll(AsWritten, s, vms, server, container).Ok? {
      var a := GateAll(AsWritten, s, vms, server, container).value;
      var c := GateAll(Corrected, s, vms, server, container).value;
      GateAllKeys(AsWritten, s, vms, server, container);
      GateAllKeys(Corrected, s, vms, server, container);
      GateAllRewrites(AsWritten, s, vms, server, container);
      GateAllRewrites(Corrected, s, vms, server, container);
      GateAllGates(AsWritten, s, vms, server, container);
      GateAllGates(Corrected, s, vms, server, container);
      forall k | k in a.actions.vals
        ensures k in c.actions.vals && a.actions.vals[k] == c.actions.vals[k]
      {
        assert k in a.actions.keys;
        if k in s.actions.vals {
          RedirectEachAgree(s.actions.vals[k].invokeNext, vms);
        } else {
          assert k in PollNames(vms);
          PollNamesMember(vms, k);
        }
      }
      assert a.actions.vals == c.actions.vals;
    }
  }

  /** The gates get the found container; no other container entry changes. */
  lemma {:induction false} GateAllContainers(m: Rewrite, s: Stage, vms: seq<string>, server: string, container: Option<string>)
    decreases |vms|
    requires s.actions.Valid() && s.containers.Valid()
    requires Distinct(vms)
    requires forall v :: v in vms ==> v in s.actions.vals
    requires GateAll(m, s, vms, server, container).Ok?
    ensures var t := GateAll(m, s, vms, server, container).value;
      && (forall v :: v in vms ==> t.containers.Get(PollName(v)) == if container.Some? then container else s.containers.Get(PollName(v)))
      && (forall k :: (forall v :: v in vms ==> k != PollName(v)) ==> t.containers.Get(k) == s.containers.Get(k))
  {
    if vms != [] {
      var v0, rest := vms[0], vms[1..];
      GateAllStep(m, s, vms, server, container);
      var s1 := GateOne(m, s, v0, server, container).value;
      var t := GateAll(m, s, vms, server, container).value;
      GateOneContainers(m, s, v0, server, container);
      GateAllContainers(m, s1, rest, server, container);
      forall v | v in vms
        ensures t.containers.Get(PollName(v)) == if container.Some? then container else s.containers.Get(PollName(v))
      {
        if v != v0 { PollNameInjective(v, v0); }
      }
    }
  }

  lemma {:induction false} PollNamesMember(vms: seq<string>, k: string)
    decreases |vms|
    ensures k in PollNames(vms) <==> exists u :: u in vms && k == PollName(u)
  {
    if vms != [] {
      PollNamesMember(vms[1..], k);
      assert forall u :: u in vms[1..] ==> u in vms;
      assert forall u :: u in vms ==> u == vms[0] || u in vms[1..];
    }
  }

  /** A gate name never collides with the start or stop name. */
  lemma PollNotStartStop(v: string)
    ensures PollName(v) != VmStart && PollName(v) != VmStop
  {
    assert PollName(v)[9] == 'p';
  }

  /** The loop runs to the end exactly when no gate name is taken yet;
      otherwise it stops with the conflict of one of the gate names. */
  lemma {:induction false} GateAllOkIff(m: Rewrite, s: Stage, vms: seq<string>, server: string, container: Option<string>)
    decreases |vms|
    requires s.actions.Valid() && s.containers.Valid()
    requires Distinct(vms)
    ensures GateAll(m, s, vms, server, container).Ok? <==> forall v :: v in vms ==> PollName(v) !in s.actions.vals
    ensures GateAll(m, s, vms, server, container).Err? ==>
      exists v :: v in vms && GateAll(m, s, vms, server, container).error == NameConflict(PollName(v))
  {
    if vms != [] {
      var v0, rest := vms[0], vms[1..];
      assert forall u :: u in rest ==> u in vms && u != v0;
      if PollName(v0) !in s.actions.vals {
        GateOneKeys(m, s, v0, server, container);
        var s1 := GateOne(m, s, v0, server, container).value;
        GateAllOkIff(m, s1, rest, server, container);
        assert GateAll(m, s, vms, server, container) == GateAll(m, s1, rest, server, container);
        forall u | u in rest
          ensures PollName(u) in s1.actions.vals <==> PollName(u) in s.actions.vals
        {
          PollNameInjective(u, v0);
        }
      }
    }
  }

  /** After all the rewrites every edge keeps its length and order; each VM
      action among the successors is replaced by its gate and every other
      target is kept; a dict keeps its labels in order. */
  lemma {:induction false} RedirectEachPointwise(inv: InvokeNext, vms: seq<string>)
    decreases |vms|
    requires forall u, v :: u in vms && v in vms ==> PollName(u) != v
    ensures var r := RedirectEach(Corrected, inv, vms);
      && |Successors(r)| == |Successors(inv)|
      && (forall i :: 0 <= i < |Successors(inv)| ==>
           Successors(r)[i] == if Successors(inv)[i] in vms then PollName(Successors(inv)[i]) else Successors(inv)[i])
      && (inv.Cond? ==> (r.Cond? && |r.branches| == |inv.branches| &&
           forall i :: 0 <= i < |inv.branches| ==> r.branches[i].condition == inv.branches[i].condition))
  {
    if vms != [] {
      var v0, rest := vms[0], vms[1..];
      var mid := Redirect(inv, v0, PollName(v0));
      RedirectSuccessors(inv, v0, PollName(v0));
      ReplaceMeaning(Successors(inv), v0, PollName(v0));
      assert forall u :: u in rest ==> u in vms;
      RedirectEachPointwise(mid, rest);
      var xs := Successors(inv);
      forall i | 0 <= i < |xs|
        ensures Successors(RedirectEach(Corrected, inv, vms))[i] == if xs[i] in vms then PollName(xs[i]) else xs[i]
      {
        if xs[i] == v0 {
          assert PollName(v0) !in rest;
        }
      }
    }
  }
}
