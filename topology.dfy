/** What `VMInjectionTool` learns about the workflow graph before it rewrites
    it (scripts/faasr_inject_vm.py:78-190), stated as pure functions over the
    document. The class in injection.dfy computes the same answers with loops
    and is proved equal to these functions; the lemmas here say what the
    answers mean. */
module Topology {
  import opened Base
  import opened Dicts
  import opened Schema

  /** The `ValueError`s the engine raises. */
  datatype EngineError =
    | MissingVMConfig
    | NoEntryAction
    | MultipleEntryActions(names: seq<string>)
    | NoLeafActions
    | NoComputeServers
    | NoGitHubServer
    | NameConflict(name: string)
    | UnknownStrategy(name: string)

  // ---------------------------------------------------------------- successors

  function Flatten(t: Targets): seq<string> {
    match t
    case One(n) => [n]
    case Many(ns) => ns
  }

  /** The targets of a conditional `InvokeNext`, label by label. */
  function BranchTargets(bs: seq<Branch>): seq<string> {
    if bs == [] then [] else BranchTargets(bs[..|bs| - 1]) + Flatten(bs[|bs| - 1].targets)
  }

  /** The successor names `find_entry_action` counts: a string is one target,
      a list is its elements, a dict is the targets of all its labels. */
  function Successors(inv: InvokeNext): seq<string> {
    match inv
    case Missing => []
    case Str(n) => [n]
    case List(ns) => ns
    case Cond(bs) => BranchTargets(bs)
  }

  lemma {:induction false} BranchTargetsMember(bs: seq<Branch>, x: string)
    ensures x in BranchTargets(bs) <==> exists i :: 0 <= i < |bs| && x in Flatten(bs[i].targets)
  {
    if bs != [] {
      var init := bs[..|bs| - 1];
      BranchTargetsMember(init, x);
      assert forall i :: 0 <= i < |init| ==> init[i] == bs[i];
    }
  }

  // ---------------------------------------------------------------- entry

  /** How many times `x` is named as a successor by the actions `names`
      (occurrences, not distinct predecessors, as the `+= 1` in the source). */
  function InDegree(d: ODict<Action>, names: seq<string>, x: string): nat {
    if names == [] then 0
    else
      var n := names[|names| - 1];
      InDegree(d, names[..|names| - 1], x)
        + (if n in d.vals then Count(Successors(d.vals[n].invokeNext), x) else 0)
  }

  /** Some action of the graph names `x` as a successor. */
  ghost predicate HasPredecessor(d: ODict<Action>, x: string) {
    exists k :: k in d.vals && x in Successors(d.vals[k].invokeNext)
  }

  ghost predicate NamedByOneOf(d: ODict<Action>, names: seq<string>, x: string) {
    exists i :: 0 <= i < |names| && names[i] in d.vals && x in Successors(d.vals[names[i]].invokeNext)
  }

  lemma {:induction false} InDegreeZeroIff(d: ODict<Action>, names: seq<string>, x: string)
    ensures InDegree(d, names, x) == 0 <==> !NamedByOneOf(d, names, x)
  {
    if names != [] {
      var init, n := names[..|names| - 1], names[|names| - 1];
      InDegreeZeroIff(d, init, x);
      if n in d.vals {
        CountZeroIff(Successors(d.vals[n].invokeNext), x);
      }
      assert forall i :: 0 <= i < |init| ==> init[i] == names[i];
      if NamedByOneOf(d, names, x) && !NamedByOneOf(d, init, x) {
        var i :| 0 <= i < |names| && names[i] in d.vals && x in Successors(d.vals[names[i]].invokeNext);
        assert i == |names| - 1;
      }
    }
  }

  /** The in-degree over the whole graph is zero exactly when no action
      names `x`. */
  lemma NoPredecessorIff(d: ODict<Action>, x: string)
    requires d.Valid()
    ensures InDegree(d, d.keys, x) == 0 <==> !HasPredecessor(d, x)
  {
    InDegreeZeroIff(d, d.keys, x);
    if HasPredecessor(d, x) {
      var k :| k in d.vals && x in Successors(d.vals[k].invokeNext);
      var i :| 0 <= i < |d.keys| && d.keys[i] == k;
      assert NamedByOneOf(d, d.keys, x);
    }
  }

  /** The actions among `names` with in-degree zero, in order: the list
      `entry_actions` of the source. */
  function Roots(d: ODict<Action>, names: seq<string>): seq<string> {
    if names == [] then []
    else
      var n := names[|names| - 1];
      Roots(d, names[..|names| - 1]) + (if InDegree(d, d.keys, n) == 0 then [n] else [])
  }

  lemma {:induction false} RootsMember(d: ODict<Action>, names: seq<string>, x: string)
    ensures x in Roots(d, names) <==> x in names && InDegree(d, d.keys, x) == 0
  {
    if names != [] {
      var init := names[..|names| - 1];
      RootsMember(d, init, x);
      assert names == init + [names[|names| - 1]];
    }
  }

  lemma {:induction false} RootsDistinct(d: ODict<Action>, names: seq<string>)
    requires Distinct(names)
    ensures Distinct(Roots(d, names))
  {
    if names != [] {
      var init, n := names[..|names| - 1], names[|names| - 1];
      RootsDistinct(d, init);
      RootsMember(d, init, n);
      assert n !in init;
    }
  }

  /** `find_entry_action`: the unique action nobody names, else an error. */
  function EntryOf(d: ODict<Action>): Result<string, EngineError> {
    var roots := Roots(d, d.keys);
    if |roots| == 0 then Err(NoEntryAction)
    else if |roots| > 1 then Err(MultipleEntryActions(roots))
    else Ok(roots[0])
  }

  /** The roots of the whole graph are the actions nobody names, each once. */
  lemma RootsMeaning(d: ODict<Action>)
    requires d.Valid()
    ensures Distinct(Roots(d, d.keys))
    ensures forall x :: x in Roots(d, d.keys) <==> x in d.vals && !HasPredecessor(d, x)
  {
    RootsDistinct(d, d.keys);
    forall x
      ensures x in Roots(d, d.keys) <==> x in d.vals && !HasPredecessor(d, x)
    {
      RootsMember(d, d.keys, x);
      NoPredecessorIff(d, x);
    }
  }

  ghost predicate TwoUnnamed(d: ODict<Action>) {
    exists j, k :: j in d.vals && k in d.vals && j != k && !HasPredecessor(d, j) && !HasPredecessor(d, k)
  }

  /** The entry is an action no action names while every other action is
      named by some action; "no entry" means every action is named; "multiple
      entries" means two distinct actions are named by nobody. */
  lemma EntryOfCorrect(d: ODict<Action>)
    requires d.Valid()
    ensures EntryOf(d).Ok? ==>
      && EntryOf(d).value in d.vals
      && !HasPredecessor(d, EntryOf(d).value)
      && forall k :: k in d.vals && k != EntryOf(d).value ==> HasPredecessor(d, k)
    ensures EntryOf(d) == Err(NoEntryAction) <==> forall k :: k in d.vals ==> HasPredecessor(d, k)
    ensures (EntryOf(d).Err? && EntryOf(d).error.MultipleEntryActions?) <==> TwoUnnamed(d)
    ensures EntryOf(d).Err? ==> EntryOf(d).error == NoEntryAction || EntryOf(d).error.MultipleEntryActions?
  {
    var roots := Roots(d, d.keys);
    RootsMeaning(d);
    if |roots| == 0 {
      assert !TwoUnnamed(d);
    } else if |roots| == 1 {
      assert roots[0] in roots;
      assert !TwoUnnamed(d);
    } else {
      assert roots[0] in roots && roots[1] in roots;
      assert TwoUnnamed(d);
    }
  }

  /** An action nobody names, while every other action is named, is what
      `find_entry_action` returns. */
  lemma EntryIs(d: ODict<Action>, x: string)
    requires d.Valid() && x in d.vals && !HasPredecessor(d, x)
    requires forall k :: k in d.vals && k != x ==> HasPredecessor(d, k)
    ensures EntryOf(d) == Ok(x)
  {
    EntryOfCorrect(d);
    assert !TwoUnnamed(d);
  }

  // ---------------------------------------------------------------- leaves

  /** Python falsiness of `InvokeNext`: missing (read as `[]`), `""`, `[]`
      and `{}` all make a leaf. */
  predicate IsLeaf(inv: InvokeNext) {
    match inv
    case Missing => true
    case Str(n) => n == ""
    case List(ns) => ns == []
    case Cond(bs) => bs == []
  }

  function LeavesIn(d: ODict<Action>, names: seq<string>): seq<string> {
    if names == [] then []
    else
      var n := names[|names| - 1];
      LeavesIn(d, names[..|names| - 1]) + (if n in d.vals && IsLeaf(d.vals[n].invokeNext) then [n] else [])
  }

  /** `find_leaf_actions`: the leaves in `ActionList` order, or an error. */
  function LeavesOf(d: ODict<Action>): Result<seq<string>, EngineError> {
    var leaves := LeavesIn(d, d.keys);
    if leaves == [] then Err(NoLeafActions) else Ok(leaves)
  }

  lemma {:induction false} LeavesInMember(d: ODict<Action>, names: seq<string>, x: string)
    ensures x in LeavesIn(d, names) <==> x in names && x in d.vals && IsLeaf(d.vals[x].invokeNext)
  {
    if names != [] {
      var init := names[..|names| - 1];
      LeavesInMember(d, init, x);
      assert names == init + [names[|names| - 1]];
    }
  }

  lemma {:induction false} LeavesInDistinct(d: ODict<Action>, names: seq<string>)
    requires Distinct(names)
    ensures Distinct(LeavesIn(d, names))
  {
    if names != [] {
      var init, n := names[..|names| - 1], names[|names| - 1];
      LeavesInDistinct(d, init);
      LeavesInMember(d, init, n);
      assert n !in init;
    }
  }

  /** The leaves are exactly the actions with a falsy `InvokeNext`, each
      once; the error is raised exactly when there is none. */
  lemma LeavesOfCorrect(d: ODict<Action>)
    requires d.Valid()
    ensures LeavesOf(d).Ok? ==>
      && Distinct(LeavesOf(d).value)
      && forall x :: x in LeavesOf(d).value <==> x in d.vals && IsLeaf(d.vals[x].invokeNext)
    ensures LeavesOf(d) == Err(NoLeafActions) <==> forall k :: k in d.vals ==> !IsLeaf(d.vals[k].invokeNext)
    ensures LeavesOf(d).Err? ==> LeavesOf(d).error == NoLeafActions
  {
    var leaves := LeavesIn(d, d.keys);
    LeavesInDistinct(d, d.keys);
    forall x {
      LeavesInMember(d, d.keys, x);
    }
    if leaves != [] {
      assert leaves[0] in leaves;
    }
  }

  /** When `x` is the only action with a falsy `InvokeNext`, the leaf list is
      `[x]`. */
  lemma LeavesAre(d: ODict<Action>, x: string)
    requires d.Valid() && x in d.vals
    requires forall k :: k in d.vals ==> (IsLeaf(d.vals[k].invokeNext) <==> k == x)
    ensures LeavesOf(d) == Ok([x])
  {
    LeavesOfCorrect(d);
    DistinctSingleton(LeavesOf(d).value, x);
  }

  // ---------------------------------------------------------------- VM actions

  /** The actions among `names` whose `RequiresVM` is truthy, in order. */
  function VmActionsIn(d: ODict<Action>, names: seq<string>): seq<string> {
    if names == [] then []
    else
      var n := names[|names| - 1];
      VmActionsIn(d, names[..|names| - 1]) + (if n in d.vals && d.vals[n].requiresVM then [n] else [])
  }

  lemma {:induction false} VmActionsInMember(d: ODict<Action>, names: seq<string>, x: string)
    ensures x in VmActionsIn(d, names) <==> x in names && x in d.vals && d.vals[x].requiresVM
  {
    if names != [] {
      var init := names[..|names| - 1];
      VmActionsInMember(d, init, x);
      assert names == init + [names[|names| - 1]];
    }
  }

  lemma {:induction false} VmActionsInDistinct(d: ODict<Action>, names: seq<string>)
    requires Distinct(names)
    ensures Distinct(VmActionsIn(d, names))
  {
    if names != [] {
      var init, n := names[..|names| - 1], names[|names| - 1];
      VmActionsInDistinct(d, init);
      VmActionsInMember(d, init, n);
      assert n !in init;
    }
  }

  /** `needs_vm`: `ActionList` exists and one of its actions requires a VM. */
  ghost predicate VmRequired(w: Workflow) {
    w.actionList.Some? && exists k :: k in w.actionList.value.vals && w.actionList.value.vals[k].requiresVM
  }

  // ---------------------------------------------------------------- server and container

  const GitHubActions := "GitHubActions"

  function FirstGitHub(s: ODict<Server>, names: seq<string>): Option<string> {
    if names == [] then None
    else if names[0] in s.vals && s.vals[names[0]].faasType == Some(GitHubActions) then Some(names[0])
    else FirstGitHub(s, names[1..])
  }

  /** `find_github_server` */
  function GitHubServerOf(w: Workflow): Result<string, EngineError> {
    if w.servers.None? then Err(NoComputeServers)
    else
      match FirstGitHub(w.servers.value, w.servers.value.keys)
      case Some(n) => Ok(n)
      case None => Err(NoGitHubServer)
  }

  lemma {:induction false} FirstGitHubCorrect(s: ODict<Server>, names: seq<string>)
    ensures FirstGitHub(s, names).Some? ==>
      exists i :: 0 <= i < |names| && names[i] == FirstGitHub(s, names).value
        && names[i] in s.vals && s.vals[names[i]].faasType == Some(GitHubActions)
        && forall j :: 0 <= j < i ==> !(names[j] in s.vals && s.vals[names[j]].faasType == Some(GitHubActions))
    ensures FirstGitHub(s, names).None? <==>
      forall i :: 0 <= i < |names| ==> !(names[i] in s.vals && s.vals[names[i]].faasType == Some(GitHubActions))
  {
    if names != [] && !(names[0] in s.vals && s.vals[names[0]].faasType == Some(GitHubActions)) {
      FirstGitHubCorrect(s, names[1..]);
      if FirstGitHub(s, names).Some? {
        var i :| 0 <= i < |names[1..]| && names[1..][i] == FirstGitHub(s, names).value
          && names[1..][i] in s.vals && s.vals[names[1..][i]].faasType == Some(GitHubActions)
          && forall j :: 0 <= j < i ==> !(names[1..][j] in s.vals && s.vals[names[1..][j]].faasType == Some(GitHubActions));
        assert names[i + 1] == names[1..][i];
        forall j | 0 <= j < i + 1
          ensures !(names[j] in s.vals && s.vals[names[j]].faasType == Some(GitHubActions))
        {
          if j > 0 { assert names[j] == names[1..][j - 1]; }
        }
      } else {
        forall i | 0 <= i < |names|
          ensures !(names[i] in s.vals && s.vals[names[i]].faasType == Some(GitHubActions))
        {
          if i > 0 { assert names[i] == names[1..][i - 1]; }
        }
      }
    }
  }

  /** The server is the first `GitHubActions` one in `ComputeServers` order;
      the two errors are a missing `ComputeServers` and the lack of any such
      server. */
  lemma GitHubServerOfCorrect(w: Workflow)
    requires WellFormed(w)
    ensures GitHubServerOf(w).Ok? ==>
      && w.servers.Some?
      && GitHubServerOf(w).value in w.servers.value.vals
      && w.servers.value.vals[GitHubServerOf(w).value].faasType == Some(GitHubActions)
      && exists i :: 0 <= i < |w.servers.value.keys| && w.servers.value.keys[i] == GitHubServerOf(w).value
           && forall j :: 0 <= j < i ==> w.servers.value.vals[w.servers.value.keys[j]].faasType != Some(GitHubActions)
    ensures GitHubServerOf(w) == Err(NoComputeServers) <==> w.servers.None?
    ensures GitHubServerOf(w) == Err(NoGitHubServer) <==>
      w.servers.Some? && forall k :: k in w.servers.value.vals ==> w.servers.value.vals[k].faasType != Some(GitHubActions)
  {
    if w.servers.Some? {
      var s := w.servers.value;
      FirstGitHubCorrect(s, s.keys);
      if FirstGitHub(s, s.keys).None? {
        forall k | k in s.vals
          ensures s.vals[k].faasType != Some(GitHubActions)
        {
          var i :| 0 <= i < |s.keys| && s.keys[i] == k;
        }
      }
    }
  }

  /** First action of `ActionList` (front first) running on `server` whose
      container entry is truthy. */
  function FirstContainer(d: ODict<Action>, cs: ODict<string>, server: string, names: seq<string>): Option<string> {
    if names == [] then None
    else if names[0] in d.vals && d.vals[names[0]].faasServer == Some(server) && Truthy(cs.Get(names[0]))
    then cs.Get(names[0])
    else FirstContainer(d, cs, server, names[1..])
  }

  /** `find_container_for_server` */
  function ContainerOf(w: Workflow, server: string): Option<string> {
    FirstContainer(Actions(w), Containers(w), server, Actions(w).keys)
  }

  lemma {:induction false} FirstContainerCorrect(d: ODict<Action>, cs: ODict<string>, server: string, names: seq<string>)
    ensures FirstContainer(d, cs, server, names).Some? ==>
      && FirstContainer(d, cs, server, names).value != ""
      && exists i :: 0 <= i < |names| && names[i] in d.vals && d.vals[names[i]].faasServer == Some(server)
           && cs.Get(names[i]) == FirstContainer(d, cs, server, names)
           && forall j :: 0 <= j < i && names[j] in d.vals && d.vals[names[j]].faasServer == Some(server) ==> !Truthy(cs.Get(names[j]))
    ensures FirstContainer(d, cs, server, names).None? <==>
      forall i :: 0 <= i < |names| && names[i] in d.vals && d.vals[names[i]].faasServer == Some(server) ==> !Truthy(cs.Get(names[i]))
  {
    if names != [] && !(names[0] in d.vals && d.vals[names[0]].faasServer == Some(server) && Truthy(cs.Get(names[0]))) {
      var tail := names[1..];
      FirstContainerCorrect(d, cs, server, tail);
      assert forall i :: 0 <= i < |tail| ==> tail[i] == names[i + 1];
      if FirstContainer(d, cs, server, names).Some? {
        var i :| 0 <= i < |tail| && tail[i] in d.vals && d.vals[tail[i]].faasServer == Some(server)
          && cs.Get(tail[i]) == FirstContainer(d, cs, server, tail)
          && forall j :: 0 <= j < i && tail[j] in d.vals && d.vals[tail[j]].faasServer == Some(server) ==> !Truthy(cs.Get(tail[j]));
        assert names[i + 1] == tail[i];
        forall j | 0 <= j < i + 1 && names[j] in d.vals && d.vals[names[j]].faasServer == Some(server)
          ensures !Truthy(cs.Get(names[j]))
        {
          if j > 0 { assert names[j] == tail[j - 1]; }
        }
      } else {
        forall i | 0 <= i < |names| && names[i] in d.vals && d.vals[names[i]].faasServer == Some(server)
          ensures !Truthy(cs.Get(names[i]))
        {
          if i > 0 { assert names[i] == tail[i - 1]; }
        }
      }
    }
  }

  /** A found container is a non-empty `ActionContainers` entry (so
      `ActionContainers` exists) of the first action in `ActionList` order on
      that server that has one; none is found exactly when no action on that
      server has a truthy container. */
  lemma ContainerOfCorrect(w: Workflow, server: string)
    requires WellFormed(w)
    ensures ContainerOf(w, server).Some? ==>
      && w.containers.Some?
      && ContainerOf(w, server).value != ""
      && exists i :: 0 <= i < |Actions(w).keys| && Actions(w).keys[i] in Actions(w).vals
           && Actions(w).vals[Actions(w).keys[i]].faasServer == Some(server)
           && Containers(w).Get(Actions(w).keys[i]) == ContainerOf(w, server)
           && forall j :: (0 <= j < i && Actions(w).keys[j] in Actions(w).vals
                && Actions(w).vals[Actions(w).keys[j]].faasServer == Some(server)) ==> !Truthy(Containers(w).Get(Actions(w).keys[j]))
    ensures ContainerOf(w, server).None? <==>
      forall k :: k in Actions(w).vals && Actions(w).vals[k].faasServer == Some(server) ==> !Truthy(Containers(w).Get(k))
  {
    var d := Actions(w);
    FirstContainerCorrect(d, Containers(w), server, d.keys);
    if ContainerOf(w, server).None? {
      forall k | k in d.vals && d.vals[k].faasServer == Some(server)
        ensures !Truthy(Containers(w).Get(k))
      {
        var i :| 0 <= i < |d.keys| && d.keys[i] == k;
      }
    }
  }
}
