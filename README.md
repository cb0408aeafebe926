# FaaSr VM injection and GitHub Actions registration, in Dafny

This project models the workflow-rewriting and registration scripts of FaaSr
and proves properties of the model. A FaaSr workflow is a JSON document with
these parts:

- `ActionList`, an ordered dict of actions. Each action has an `InvokeNext`
  edge set: missing, a string, a list, or a dict from a condition label to
  one or more targets.
- `FunctionInvoke`, the entry action.
- `ComputeServers`, the servers.
- `ActionContainers`, the container image of each action.
- `DataStores`.
- `VMConfig`.

Three scripts are modelled.

- **`VMInjectionTool`** (`scripts/faasr_inject_vm.py`) makes a workflow with
  VM-requiring actions run on a VM. It finds the entry action (the one action
  no action names), the leaf actions (falsy `InvokeNext`), the first GitHub
  Actions server and a container for it. It then rewrites the graph in one
  of two ways:
  - **sequential**: a `faasr-vm-start` node is placed before the entry and a
    `faasr-vm-stop` node after every leaf;
  - **parallel**: as sequential, plus one `faasr-vm-poll-<V>` gate in front
    of every VM action `V`. An edge is redirected to the gate when the
    code's `in` test finds `V` in it: a string or list edge naming `V`, or
    a dict edge with a condition label equal to `V`, which is then replaced
    by the list of its labels. A conditional edge whose targets name `V`
    under other labels keeps naming `V`.

  The tool is a class whose field `workflow` the injectors reassign. Every
  method is proved to compute exactly a pure function (`Topology`,
  `InjectionSpec`); the parallel injector computes `Parallel(AsWritten, w)`,
  the rewrite as the code performs it. A second definition,
  `Parallel(Corrected, w)`, redirects every target equal to `V` under every
  label, which is what the method's docstring and its comment promise
  (`scripts/faasr_inject_vm.py:275`, `:357`). The lemmas in
  `InjectionProps` then prove:
  - for both rewrites: the stop node is the only leaf, every original
    action keeps its fields except `InvokeNext`, and nothing else in the
    document changes;
  - for the corrected rewrite: the start node is the single entry, and only
    a VM action's gate leads to it;
  - the two rewrites are equal when no conditional edge has a VM action
    among its labels or targets (`ParallelAgrees`), so the code has the
    last two properties on such workflows (`AsWrittenGatesOnly`,
    `AsWrittenEntry`); otherwise a conditional edge into a VM action
    bypasses its gate (`AsWrittenBypassesGate`);
  - without VM actions both strategies agree.
- **Registration** (`scripts/register_set_unset_workflow.py`), modelled in
  part:
  - the `env:` block of secret imports (`RegisterSecrets`);
  - the SLURM resource fallbacks and the server validation (`RegisterSlurm`);
  - which actions `deploy_to_github` deploys, which template each gets
    (self-hosted exactly for VM actions), and that only the entry action's
    file carries the cron schedule (`RegisterDeploy`);
  - how `main` turns `--cron` and `--unset-timer` into that schedule and
    into the default payload URL.
- **The timer editors** (`scripts/set_workflow_timer.py` and
  `scripts/unset_workflow_timer.py`):
  - the shared helpers are in `TimerCommon`;
  - the in-place edits of the parsed workflow YAML are methods on a
    `YamlDoc` object, proved against `SetTimerSpec` and `UnsetTimerSpec`;
  - `main` of each script is a function of its environment: the token, the
    files present and the YAML read.

The JSON and YAML documents are Dafny datatypes. A Python dict that keeps
insertion order is `Dicts.ODict`: a key sequence plus a map. Python
truthiness is stated explicitly (`Base.Truthy`, `Base.TruthyInt`), and so
are `.get` defaults (`GetOr`).

Points where the code's behaviour is easy to misread:

- **Predecessor counts.** `find_entry_action` counts every occurrence of a
  name among an action's successors. It does not count each predecessor
  once. Only whether the count is zero matters, which
  `Topology.NoPredecessorIff` states.
- **Leaves.** A leaf is an action whose `InvokeNext` is falsy (missing, `""`,
  `[]`, `{}`). A dict whose lists are all empty is not a leaf.
- **Conditional edges in the parallel rewrite.** The code's `in` test and
  list comprehension read a dict edge's condition labels, not its targets,
  so they do not redirect conditional edges as the comment at
  `scripts/faasr_inject_vm.py:357` says; see "## Findings".

Some of the scripts' own behaviour is recorded as lemmas:

- `TimerCommon.TimerPathIsNotRegisteredPath`: the timer scripts edit
  `.github/workflows/<entry>.yml`. Registration writes
  `.github/workflows/<WorkflowName>-<entry>.yml`, a different file.
- `RegisterDeploy.LStripExamples`: `str.lstrip('./')` strips characters, not
  a prefix, so `../workflow.json` becomes `workflow.json`.
- `RegisterDeploy.LowerCaseTypeRejectedBySecrets`: `deploy_to_github` accepts
  `FaaSType` in any letter case, but the secret generator accepts only the
  exact spelling.

## Model

| member | source | states |
|---|---|---|
| Injection.NextActions | scripts/faasr_inject_vm.py:103-116 | the normalised successor list is `Successors` of the edge: a string is one target, a list its elements, a dict every label's targets in order |
| Injection.AddCounts | scripts/faasr_inject_vm.py:118-120 | the counted names keep their keys; each count grows by the number of occurrences in the successor list, and names that are not actions are ignored |
| Injection.CountPredecessors | scripts/faasr_inject_vm.py:97-120 | every action name is counted, and its count is its in-degree over the whole `ActionList` |
| Injection.PointLeaves | scripts/faasr_inject_vm.py:251-253 | every leaf's `InvokeNext` becomes `[stop]`, the result being `PointLeavesTo` |
| Injection.CollectVmActions | scripts/faasr_inject_vm.py:330-333 | the actions with a truthy `RequiresVM`, in `ActionList` order |
| Injection.RedirectActions | scripts/faasr_inject_vm.py:357-369 | as the code runs it: every action but the gate whose iterated names (a string, the list elements, or a dict's condition labels) include the VM action gets the list of those names with the VM action replaced by the gate; every other action is unchanged; the result is `RedirectAll(AsWritten, …)` |
| Injection.AddGate | scripts/faasr_inject_vm.py:338-369 | one gate step equals `GateOne` under the code's rewrite: a conflict if the gate name is taken, else the gate node, its container and the redirections; keys only grow |
| Injection.VMInjectionTool.NeedsVm | scripts/faasr_inject_vm.py:78-88 | true exactly when `ActionList` exists and some action requires a VM |
| Injection.VMInjectionTool.FindEntryAction | scripts/faasr_inject_vm.py:90-130 | the result is `EntryOf`: the single zero-count action, else no entry or multiple entries in `ActionList` order |
| Injection.VMInjectionTool.FindLeafActions | scripts/faasr_inject_vm.py:132-152 | the result is `LeavesOf`: the actions with falsy `InvokeNext` in order, or the no-leaf error |
| Injection.VMInjectionTool.FindGithubServer | scripts/faasr_inject_vm.py:154-168 | the result is `GitHubServerOf`: the first server typed `GitHubActions`, or the error for missing `ComputeServers` or no such server |
| Injection.VMInjectionTool.FindContainerForServer | scripts/faasr_inject_vm.py:170-190 | the result is `ContainerOf`: the first truthy container of an action on that server, else none |
| Injection.VMInjectionTool.PrepareInjection | scripts/faasr_inject_vm.py:207-228 | the checks before the first write, in the source's order, give `Prepare`: `VMConfig`, entry, leaves, server, container, then start and stop name conflicts |
| Injection.VMInjectionTool.InjectSequential | scripts/faasr_inject_vm.py:192-267 | succeeds exactly when `Sequential` does and then leaves its document; on an error the document is unchanged |
| Injection.VMInjectionTool.Complete | scripts/faasr_inject_vm.py:250-264 | the common tail gives `Finish`: leaves to stop, `ActionContainers` created when absent with start and stop containers, `FunctionInvoke` set to start |
| Injection.VMInjectionTool.InsertGates | scripts/faasr_inject_vm.py:337-370 | the gating loop equals `GateAll` under the code's rewrite over the VM actions, writing `ActionList` and, when a container was found, `ActionContainers` as it goes |
| Injection.VMInjectionTool.InjectParallel | scripts/faasr_inject_vm.py:269-389 | succeeds exactly when the code's rewrite `Parallel(AsWritten, …)` does and then leaves its document; an error is that rewrite's error |
| Injection.VMInjectionTool.Run | scripts/faasr_inject_vm.py:400-433 | returns true and saves exactly when the document loaded and `Outcome` succeeds; the saved document is `Outcome`'s, whose parallel case is the code's rewrite; nothing is saved on an error |
| Injection.OutcomeShape | scripts/faasr_inject_vm.py:405-418 | a document without VM actions is saved unchanged; otherwise the strategy is known and the result has `FunctionInvoke` start and the stop node as its only leaf |
| Injection.ParallelFromGates | scripts/faasr_inject_vm.py:329-389 | the code's parallel rewrite is its gating loop on the document with start and stop added, followed by the common tail |
| Topology.BranchTargetsMember | scripts/faasr_inject_vm.py:108-116 | a name is among a dict edge's targets exactly when some label lists it |
| Topology.InDegreeZeroIff | scripts/faasr_inject_vm.py:118-120 | a count is zero exactly when none of the counted actions names the action |
| Topology.NoPredecessorIff | scripts/faasr_inject_vm.py:97-120 | an in-degree over the whole graph is zero exactly when no action names the action |
| Topology.RootsMember | scripts/faasr_inject_vm.py:123 | a name is listed as an entry candidate exactly when it is an action with in-degree zero |
| Topology.RootsDistinct | scripts/faasr_inject_vm.py:123 | the entry candidates are listed at most once each |
| Topology.RootsMeaning | scripts/faasr_inject_vm.py:122-123 | the entry candidates are exactly the actions nobody names, each once |
| Topology.EntryOfCorrect | scripts/faasr_inject_vm.py:90-130 | the entry is the action nobody names while every other action is named; "no entry" exactly when every action is named; "multiple" exactly when two are unnamed |
| Topology.EntryIs | scripts/faasr_inject_vm.py:122-130 | when one action is unnamed and all others are named, it is the entry |
| Topology.LeavesInMember | scripts/faasr_inject_vm.py:142-147 | a name is a listed leaf exactly when it is an action with falsy `InvokeNext` |
| Topology.LeavesInDistinct | scripts/faasr_inject_vm.py:140-147 | leaves are listed at most once each |
| Topology.LeavesOfCorrect | scripts/faasr_inject_vm.py:132-152 | the leaves are exactly the actions with falsy `InvokeNext`, each once; the error occurs exactly when there is none |
| Topology.LeavesAre | scripts/faasr_inject_vm.py:139-152 | when exactly one action has a falsy `InvokeNext`, it is the only leaf |
| Topology.VmActionsInMember | scripts/faasr_inject_vm.py:330-333 | a name is gathered exactly when it is an action requiring a VM |
| Topology.VmActionsInDistinct | scripts/faasr_inject_vm.py:330-333 | VM actions are gathered at most once each |
| Topology.FirstGitHubCorrect | scripts/faasr_inject_vm.py:164-166 | the server found is typed `GitHubActions` and every earlier server is not; none is found exactly when no server is |
| Topology.GitHubServerOfCorrect | scripts/faasr_inject_vm.py:154-168 | the server is the first `GitHubActions` one in `ComputeServers` order; the two errors occur exactly when `ComputeServers` is missing or has no such server |
| Topology.FirstContainerCorrect | scripts/faasr_inject_vm.py:184-188 | the container found is the truthy entry of an action on the server, and no earlier action on the server has one; none exactly when no action on the server has one |
| Topology.ContainerOfCorrect | scripts/faasr_inject_vm.py:170-190 | over the whole document: a found container is a non-empty `ActionContainers` entry of the first action in `ActionList` order on the server that has one; none exactly when no action on the server has a truthy container |
| InjectionSpec.ReplaceMeaning | scripts/faasr_inject_vm.py:368 | the comprehension keeps the length and writes the gate exactly where the VM action was |
| InjectionSpec.ReplaceMember | scripts/faasr_inject_vm.py:368 | after replacement a name occurs exactly when it is the gate and the VM action occurred, or it is another name that occurred |
| InjectionSpec.ReplaceAppend | scripts/faasr_inject_vm.py:368 | the replacement distributes over concatenation |
| InjectionSpec.ReplaceAbsent | scripts/faasr_inject_vm.py:366-369 | a list without the VM action is unchanged |
| InjectionSpec.AsWrittenSkipsConditional | scripts/faasr_inject_vm.py:362-369 | as written, `{"onSuccess": "A", "onFailure": "B"}` keeps naming `B` when `B` is gated |
| InjectionSpec.AsWrittenDropsTargets | scripts/faasr_inject_vm.py:362-369 | as written, a condition label equal to the VM action turns the dict into the list of its labels, losing the targets |
| InjectionSpec.RedirectAgrees | scripts/faasr_inject_vm.py:362-369 | on missing, string and list edges the corrected rewrite is the code's |
| InjectionSpec.BranchTargetsRedirected | scripts/faasr_inject_vm.py:362-369 | the corrected rewrite of a dict edge replaces the VM action among its flattened targets |
| InjectionSpec.RedirectSuccessors | scripts/faasr_inject_vm.py:362-369 | the corrected rewrite's successors are the old ones with the VM action replaced by the gate; a dict keeps its labels in order; a missing edge stays missing |
| InjectionSpec.RedirectRemoves | scripts/faasr_inject_vm.py:366-369 | after the rewrite the VM action is no longer a successor, and no new name other than the gate appears |
| InjectionSpec.RedirectUnchanged | scripts/faasr_inject_vm.py:366 | an edge that does not name the VM action is unchanged |
| InjectionSpec.RedirectKeepsNonLeaf | scripts/faasr_inject_vm.py:362-369 | neither the code's rewrite nor the corrected one turns a non-leaf into a leaf |
| InjectionSpec.RedirectEachKeepsNonLeaf | scripts/faasr_inject_vm.py:338-369 | the same over all VM actions in turn, under either rewrite |
| InjectionSpec.RedirectEachKeepsAbsent | scripts/faasr_inject_vm.py:338-369 | under the corrected rewrite, the rewrites for all VM actions introduce no successor except gates |
| InjectionSpec.RedirectEachSingleton | scripts/faasr_inject_vm.py:338-369 | under either rewrite, a one-target list ends up naming the target's gate exactly when the target is a VM action |
| InjectionSpec.RedirectEachUnchanged | scripts/faasr_inject_vm.py:338-369 | under either rewrite, an edge that neither iterates nor targets a VM action is untouched by all rewrites |
| InjectionSpec.PollNameInjective | scripts/faasr_inject_vm.py:339 | distinct VM actions get distinct gate names |
| InjectionSpec.GateOneKeys | scripts/faasr_inject_vm.py:339-352 | one gate step appends the gate name, which was free, and keeps both dicts valid |
| InjectionSpec.GateOneEntries | scripts/faasr_inject_vm.py:345-369 | under either rewrite, one gate step adds the gate's action naming the VM action and applies that rewrite to every other action's edge |
| InjectionSpec.GateOneRemoves | scripts/faasr_inject_vm.py:357-369 | under the corrected rewrite, after one gate step only the gate names the VM action |
| InjectionSpec.GateOneContainers | scripts/faasr_inject_vm.py:354-355 | the gate gets the container when one was found; no other container entry changes |
| InjectionSpec.GateAllKeys | scripts/faasr_inject_vm.py:338-352 | the loop appends one gate per VM action, in order, to `ActionList` |
| InjectionSpec.GateAllGates | scripts/faasr_inject_vm.py:345-352 | each gate is a `vm_poll` action on the server naming exactly its VM action |
| InjectionSpec.GateAllRewrites | scripts/faasr_inject_vm.py:357-369 | under either rewrite, every action present before the loop keeps its fields except `InvokeNext`, which receives that rewrite for every VM action in turn |
| InjectionSpec.GateAllRemoves | scripts/faasr_inject_vm.py:338-369 | under the corrected rewrite, after the loop no action other than a VM action's own gate names it |
| InjectionSpec.GateAllRemovesFirst | scripts/faasr_inject_vm.py:338-369 | under the corrected rewrite, the first VM action stays unnamed through the later gate steps |
| InjectionSpec.GateAllContainers | scripts/faasr_inject_vm.py:354-355 | the gates get the found container; every other container entry is unchanged |
| InjectionSpec.PollNamesMember | scripts/faasr_inject_vm.py:338-339 | a name is a gate name exactly when it is the gate of some VM action |
| InjectionSpec.PollNotStartStop | scripts/faasr_inject_vm.py:339 | no gate name collides with the start or stop name |
| InjectionSpec.GateAllOkIff | scripts/faasr_inject_vm.py:338-342 | the loop completes exactly when no gate name is taken before it starts; otherwise it fails with the first taken gate name |
| InjectionSpec.RedirectEachPointwise | scripts/faasr_inject_vm.py:338-369 | under the corrected rewrite, after all rewrites an edge keeps its length and order, and each VM action in it is replaced by its own gate |
| InjectionSpec.RedirectEachAsWritten | scripts/faasr_inject_vm.py:338-369 | the code's rewrites for all VM actions in turn keep an edge that iterates no VM action as it was, and turn any other into the list of its iterated names (a dict's labels, not its targets) with each VM action replaced by its gate |
| InjectionSpec.RedirectEachAgree | scripts/faasr_inject_vm.py:357-369 | on an edge that is not a dict, or a dict naming no VM action as a label or a target, the code's rewrites and the corrected ones give the same edge |
| InjectionSpec.GateAllSameShape | scripts/faasr_inject_vm.py:338-355 | whether the loop stops, with which conflict, and which keys and containers it leaves do not depend on the rewrite or on the edges |
| InjectionSpec.GateAllAgree | scripts/faasr_inject_vm.py:338-369 | when every edge is such an edge, the code's gating loop and the corrected one give the same stage |
| InjectionProps.PrepareErrors | scripts/faasr_inject_vm.py:207-228 | a missing `VMConfig` or a taken start or stop name fails both strategies before any write, with the same error |
| InjectionProps.PlanFacts | scripts/faasr_inject_vm.py:288-294 | a successful preparation found the real entry and leaves, the first GitHub server and its container, and both start and stop names are free |
| InjectionProps.WithStartStopFacts | scripts/faasr_inject_vm.py:309-327 | start and stop are appended; start names the entry and stop names nothing |
| InjectionProps.PointLeavesToFacts | scripts/faasr_inject_vm.py:372-374 | pointing the leaves at stop keeps key order and every other action |
| InjectionProps.FinishFacts | scripts/faasr_inject_vm.py:372-386 | the tail writes `ActionList`, `ActionContainers` and `FunctionInvoke` and nothing else |
| InjectionProps.SequentialActions | scripts/faasr_inject_vm.py:230-253 | the sequential `ActionList` is the old one plus start and stop; leaves name stop and other actions are untouched |
| InjectionProps.SequentialRest | scripts/faasr_inject_vm.py:255-264 | `FunctionInvoke` is start, start and stop get the container when one was found, and nothing else changes |
| InjectionProps.ShapeNamed | scripts/faasr_inject_vm.py:230-253 | in the sequential shape every action except start has a predecessor |
| InjectionProps.SequentialEntry | scripts/faasr_inject_vm.py:230-264 | when no action names start or is called "", the sequential result's single entry is start |
| InjectionProps.ShapeLeaves | scripts/faasr_inject_vm.py:240-253 | in the sequential shape only stop is a leaf |
| InjectionProps.SequentialLeaves | scripts/faasr_inject_vm.py:240-253 | the sequential result's only leaf is stop |
| InjectionProps.VmActionsInAgree | scripts/faasr_inject_vm.py:330-333 | the VM actions gathered depend only on those names' `RequiresVM` |
| InjectionProps.GatheredVms | scripts/faasr_inject_vm.py:329-333 | the VM actions gathered after start and stop are added are those of the original `ActionList`, in its order |
| InjectionProps.ParallelErrors | scripts/faasr_inject_vm.py:338-342 | after preparation either parallel rewrite fails exactly when some VM action's gate name is already an action, and then with that conflict |
| InjectionProps.VmsOfFacts | scripts/faasr_inject_vm.py:330-333 | the gathered VM actions are exactly the VM actions, each once |
| InjectionProps.ParallelUnfold | scripts/faasr_inject_vm.py:269-389 | a successful parallel result is the tail applied to the gated stage |
| InjectionProps.GatedVms | scripts/faasr_inject_vm.py:329-333 | the loop iterates the original VM actions |
| InjectionProps.GatedNodes | scripts/faasr_inject_vm.py:309-352 | the gated stage has the nodes of `ParallelNodes` |
| InjectionProps.ParallelActions | scripts/faasr_inject_vm.py:309-352 | under either rewrite the parallel `ActionList` is the old keys, then start, stop and one gate per VM action; start names the entry or its gate; each gate names its VM action |
| InjectionProps.GatedEdges | scripts/faasr_inject_vm.py:357-374 | in the gated stage, under either rewrite, a leaf names stop and every other original action has that rewrite applied for every VM action |
| InjectionProps.ParallelRewrites | scripts/faasr_inject_vm.py:357-374 | the same for either parallel result: original actions change only in `InvokeNext` |
| InjectionProps.GatedRemoves | scripts/faasr_inject_vm.py:357-369 | under the corrected rewrite, in the gated stage after the leaves are pointed at stop, only the gate names its VM action |
| InjectionProps.PointLeavesKeepsOnlyGate | scripts/faasr_inject_vm.py:372-374 | pointing leaves at stop makes no action name a VM action |
| InjectionProps.ParallelGatesOnly | scripts/faasr_inject_vm.py:337-369 | after the corrected parallel rewrite only a VM action's gate leads to it |
| InjectionProps.ShapeLeavesParallel | scripts/faasr_inject_vm.py:372-374 | in the parallel shape, under either rewrite, only stop is a leaf |
| InjectionProps.ParallelLeaves | scripts/faasr_inject_vm.py:372-374 | the only leaf of either parallel result is stop |
| InjectionProps.ParallelRest | scripts/faasr_inject_vm.py:377-386 | for either rewrite, `FunctionInvoke` is start; start, stop and the gates get the container when one was found; nothing else changes |
| InjectionProps.NoVmActions | scripts/faasr_inject_vm.py:330-333 | without VM-requiring actions nothing is gathered |
| InjectionProps.ParallelWithoutVms | scripts/faasr_inject_vm.py:269-389 | without VM actions either parallel rewrite equals the sequential one |
| InjectionProps.ShapeNamedParallel | scripts/faasr_inject_vm.py:309-374 | in the shape of the corrected parallel rewrite an action has a predecessor exactly when it is not start |
| InjectionProps.NamedStaysNamed | scripts/faasr_inject_vm.py:357-369 | under the corrected rewrite, an original non-entry action, or its gate when it is a VM action, keeps a predecessor |
| InjectionProps.ParallelEntry | scripts/faasr_inject_vm.py:309-386 | when no action names start or is called "", the corrected parallel result's single entry is start |
| InjectionProps.ParallelAgrees | scripts/faasr_inject_vm.py:338-369 | when no dict `InvokeNext` names a VM action as a label or a target, the code's parallel rewrite equals the corrected one |
| InjectionProps.AsWrittenGatesOnly | scripts/faasr_inject_vm.py:337-369 | on such a workflow only a VM action's gate leads to it in the code's parallel result |
| InjectionProps.AsWrittenEntry | scripts/faasr_inject_vm.py:309-386 | on such a workflow, when no action names start or is called "", the code's parallel result's single entry is start |
| InjectionProps.AsWrittenEdges | scripts/faasr_inject_vm.py:357-374 | in the code's parallel result each original non-leaf action keeps its fields; its edge is kept when it iterates no VM action, else it is the list of its iterated names (a dict's labels) with each VM action replaced by its gate |
| InjectionProps.AsWrittenBypassesGate | scripts/faasr_inject_vm.py:362-369 | a dict edge that targets a VM action but has no VM action among its labels is kept as it is by the code, so an action other than the gate still names the VM action |
| RegisterSecrets.GenerateGithubSecretImports | scripts/register_set_unset_workflow.py:120-191 | the block is `SecretImports`: server, data-store and VM secret lines in order, indented and joined; an unknown server type is an error |
| RegisterSecrets.ServerLines | scripts/register_set_unset_workflow.py:122-155 | the compute-server loop yields the lines of `ServerSecretsIn` over every server, in order, or the error of the first server of unknown type |
| RegisterSecrets.StoreLines | scripts/register_set_unset_workflow.py:157-166 | the data-store loop yields the lines of `StoreSecrets`: access key, then secret key, per data store |
| RegisterSecrets.ServerSecretsErrStays | scripts/register_set_unset_workflow.py:153-157 | once a server of unknown type is reached, the result is that server's error |
| RegisterSecrets.ServerSecretsOkIff | scripts/register_set_unset_workflow.py:125-157 | the server secrets exist exactly when every server has a known type; otherwise the error names the first unknown one in `ComputeServers` order |
| RegisterSecrets.ServerSecretsShape | scripts/register_set_unset_workflow.py:127-152 | a known type contributes names prefixed by the server name and `_`; Lambda contributes two, every other type one |
| RegisterSecrets.StoreSecretsLayout | scripts/register_set_unset_workflow.py:160-168 | each data store contributes its access key, then its secret key |
| RegisterSecrets.SplitIndentJoin | scripts/register_set_unset_workflow.py:187-189 | splitting the block at newlines gives the lines back, each behind the 20-space indent |
| RegisterSlurm.OrChains | scripts/register_set_unset_workflow.py:911-935 | an `a or b or default` chain is the first truthy value, and is never falsy |
| RegisterSlurm.ResourcesFallback | scripts/register_set_unset_workflow.py:894-937 | each field is the first truthy value of action, server and default (`faasr`, 1, 1, 1, 1024, 60, `/tmp`) |
| RegisterSlurm.ResourcesDefaults | scripts/register_set_unset_workflow.py:911-935 | with no resources anywhere the defaults are returned |
| RegisterSlurm.ActionOverridesServer | scripts/register_set_unset_workflow.py:907-935 | an action that sets every field truthily does not depend on the server |
| RegisterSlurm.MissingInMember | scripts/register_set_unset_workflow.py:789 | a field is reported exactly when it is required and missing or falsy |
| RegisterSlurm.MissingInOrdered | scripts/register_set_unset_workflow.py:789 | the reported fields keep the required order, each once |
| RegisterSlurm.ValidateSlurmServerCorrect | scripts/register_set_unset_workflow.py:780-801 | validation passes exactly when all four required fields are truthy; a failure names the server and exactly the missing fields, in order, each once |
| RegisterDeploy.FilterGitHubActions | scripts/register_set_unset_workflow.py:372-378 | the loop gives `GitHubActions`: the actions on a server typed `githubactions` in any case, or the first lookup error |
| RegisterDeploy.DeployAction | scripts/register_set_unset_workflow.py:392-431 | one action's file is `DeployOne`'s |
| RegisterDeploy.DeployEach | scripts/register_set_unset_workflow.py:392-454 | the files pushed and the stopping error are `DeployAll`'s |
| RegisterDeploy.DeployToGithub | scripts/register_set_unset_workflow.py:340-460 | the whole deployment after the token check is `DeployToGithubSpec` |
| RegisterDeploy.GitHubActionsInActions | scripts/register_set_unset_workflow.py:372-378 | every action deployed is an action of the workflow |
| RegisterDeploy.GitHubActionsInCorrect | scripts/register_set_unset_workflow.py:372-378 | the filter succeeds exactly when every lookup does; it keeps exactly the GitHub actions in order, each once; otherwise it fails with the first failing action's error |
| RegisterDeploy.DeployAllPrefix | scripts/register_set_unset_workflow.py:392-454 | the loop pushes the files of the first actions in order and stops at the first failing action with its error |
| RegisterDeploy.DeployOneFacts | scripts/register_set_unset_workflow.py:392-431 | the file is `.github/workflows/<prefix>-<action>.yml`, self-hosted exactly for VM actions, with the action's container and the secret block; it is scheduled exactly for the entry action with a truthy cron; a missing container fails first, then a failing secret block |
| RegisterDeploy.DeployAllFiles | scripts/register_set_unset_workflow.py:392-454 | each pushed file is that of the action at its position: its path, self-hosted exactly for VM actions, scheduled exactly for the entry action with a truthy cron |
| RegisterDeploy.DeployAllStops | scripts/register_set_unset_workflow.py:392-454 | the loop finishes exactly when all containers exist and the secret block builds; otherwise it stops at the first action without a container, or at the first action on a secret error |
| RegisterDeploy.OnlyEntryScheduled | scripts/register_set_unset_workflow.py:410-414 | at most one generated file is scheduled: the entry action's, with the cron and the payload default given |
| RegisterDeploy.LStripCorrect | scripts/register_set_unset_workflow.py:990 | `lstrip('./')` removes exactly the leading run of `.` and `/` characters and keeps the rest |
| RegisterDeploy.LStripIdempotent | scripts/register_set_unset_workflow.py:990 | stripping twice is stripping once |
| RegisterDeploy.LStripExamples | scripts/register_set_unset_workflow.py:990 | `./workflow.json`, `workflow.json` and `../workflow.json` all become `workflow.json`; `.faasr/workflow.json` becomes `faasr/workflow.json` |
| RegisterDeploy.TimerSettingsFacts | scripts/register_set_unset_workflow.py:973-994 | `--cron` with `--unset-timer` is rejected; schedule and payload URL come together, and only for a valid cron with a repository and without unset |
| RegisterDeploy.PayloadUrlShape | scripts/register_set_unset_workflow.py:990-991 | the URL is the raw-content host, the repository and the branch, followed by the stripped path |
| RegisterDeploy.EntryBranchFacts | scripts/register_set_unset_workflow.py:984-988 | the branch is `main` without an entry action, else the entry server's `Branch` defaulting to `main`; it fails exactly when a lookup raises |
| RegisterDeploy.LowerCaseTypeRejectedBySecrets | scripts/register_set_unset_workflow.py:376-377 | a `githubactions` server passes the deploy filter but has no secret rule |
| TimerCommon.GetEntryAction | scripts/set_workflow_timer.py:82-94 | the entry is returned exactly when `FunctionInvoke` is truthy and names an action; otherwise the matching error |
| TimerCommon.GetEntryActionFacts | scripts/unset_workflow_timer.py:50-62 | an accepted entry is a non-empty action name; a missing or empty `FunctionInvoke` or a missing `ActionList` fails |
| TimerCommon.GetGithubActionsConfigCorrect | scripts/set_workflow_timer.py:97-119 | the branch is returned exactly when the entry's server exists and is typed `GitHubActions`; it is that server's `Branch` or `main`; any other type is named in the error |
| TimerCommon.WorkflowFileFacts | scripts/set_workflow_timer.py:122-131 | the file ends in `.yml` or `.yaml`, keeps an entry that already does, and the rule is idempotent; the path is under `.github/workflows/` |
| TimerCommon.TimerPathIsNotRegisteredPath | scripts/set_workflow_timer.py:122-131 | the file the timer scripts edit is never the one registration writes for that entry |
| SetTimer.SetTimerInYaml | scripts/set_workflow_timer.py:164-184 | the document is edited in place to `SetTimerSpec` |
| SetTimer.SetTimerMain | scripts/set_workflow_timer.py:230-259 | the run, with the YAML edited in place by `SetTimerInYaml`, is `SetTimerRun` |
| SetTimer.SetTimerTopLevel | scripts/set_workflow_timer.py:164-184 | afterwards `on` is a dict whose `schedule` is `[{'cron': cron}]`; every other top-level key keeps its value and position |
| SetTimer.SetTimerOnSection | scripts/set_workflow_timer.py:166-177 | an existing `on` dict keeps every other trigger in order; a string trigger becomes `{trigger: None}`; any other value is dropped |
| SetTimer.SetTimerLastWins | scripts/set_workflow_timer.py:175-177 | setting twice keeps only the second cron |
| SetTimer.SetTimerIdempotent | scripts/set_workflow_timer.py:175-177 | setting the same cron again changes nothing |
| SetTimer.SetTimerRunFacts | scripts/set_workflow_timer.py:197-259 | the run fails at the first failing check in the script's order; otherwise the edited document is written to the entry's file, and a commit is made exactly when `git diff` reports a change, with the message `FaaSr: Set workflow timer to '<cron>' for <file>`, pushed to the branch of the entry's server |
| UnsetTimer.UnsetTimerInYaml | scripts/unset_workflow_timer.py:120-133 | the document is edited in place and the flag returned as `UnsetTimerSpec` says |
| UnsetTimer.UnsetTimerMain | scripts/unset_workflow_timer.py:172-199 | the run is `UnsetTimerRun` |
| UnsetTimer.UnsetTimerFacts | scripts/unset_workflow_timer.py:120-133 | a schedule is reported exactly when `on` is a dict holding one; then only that key is removed and all else keeps value and order; otherwise nothing changes |
| UnsetTimer.UnsetTimerIdempotent | scripts/unset_workflow_timer.py:120-133 | unsetting twice is unsetting once, and the second call reports no schedule |
| UnsetTimer.SetThenUnset | scripts/unset_workflow_timer.py:122-127 | on a dict `on`, setting then unsetting equals unsetting alone and reports a schedule; with no earlier schedule the document comes back unchanged |
| UnsetTimer.UnsetRunGating | scripts/unset_workflow_timer.py:190-195 | the file is written and a commit made exactly when a schedule was removed; the commit goes to the entry server's branch |

## Left out

- Environment variables (`GH_PAT`, `GITHUB_REPOSITORY`) and command-line arguments become parameters: `token`, `repo`, `cron`, `unset`, `strategy`.
- File reading and writing, JSON and YAML parsing and dumping, and logging are not modelled. A document that cannot be read or parsed is `None` for `Run`.
- YAML scalars other than strings are the single value `Scalar`. A document whose top level is not a dict is not modelled.
- PyYAML reading the key `on` as `True` is not modelled.
- Cron validation with `croniter` is a boolean parameter, `cronValid`.
- `check_workflow_registered` is a set of files `present`. The `git diff` verdict is a parameter, `changed`.
- Git subprocesses, the GitHub API (`get_repo`, `get_contents`, `update_file`, `create_file`), `repo.default_branch` and the network are not modelled. `deploy_to_github` is modelled as the list of files it pushes, in order.
- The YAML text of the two templates is not modelled; `GeneratedFile` keeps the fields that determine it.
- `faasr_gf.check_dag`, `verify_containers`, `read_workflow_file`, `test_slurm_connectivity`, `validate_slurm_action` and the `_workflow_file` key are not part of this model.
- `deploy_to_aws`, `deploy_to_ow`, `deploy_to_gcp`, `deploy_to_slurm` and the `FaaSType` dispatch loop of registration's `main` are not part of this model.
- `Lower` is `str.lower()` on ASCII letters only. Unicode case mapping is not modelled.
- `VMInjectionTool`'s constructor path handling, `load_workflow`, `save_workflow`, the deep copy of the original and the command-line `main` are not modelled. A save that fails with an I/O error is not modelled.
- `RequiresVM` is a boolean. A truthy non-boolean value is not distinguished from `true`.
- Injection.VMInjectionTool.InjectParallel: on a gate-name conflict the contract names the error but not the partly rewritten document the source leaves behind. `Run` discards that document.
- InjectionSpec.RedirectEachKeepsAbsent: is proved of the corrected rewrite, not of the code's; for the code it holds when no dict `InvokeNext` names a VM action as a label or a target (`InjectionProps.ParallelAgrees`), and `InjectionProps.AsWrittenBypassesGate` shows it failing otherwise (see "## Findings").
- InjectionSpec.RedirectEachPointwise: is proved of the corrected rewrite, not of the code's; for the code it holds when no dict `InvokeNext` names a VM action as a label or a target (`InjectionProps.ParallelAgrees`), and `InjectionProps.AsWrittenBypassesGate` shows it failing otherwise (see "## Findings").
- InjectionSpec.GateOneRemoves: is proved of the corrected rewrite, not of the code's; for the code it holds when no dict `InvokeNext` names a VM action as a label or a target (`InjectionProps.ParallelAgrees`), and `InjectionProps.AsWrittenBypassesGate` shows it failing otherwise (see "## Findings").
- InjectionSpec.GateAllRemoves: is proved of the corrected rewrite, not of the code's; for the code it holds when no dict `InvokeNext` names a VM action as a label or a target (`InjectionProps.ParallelAgrees`), and `InjectionProps.AsWrittenBypassesGate` shows it failing otherwise (see "## Findings").
- InjectionSpec.GateAllRemovesFirst: is proved of the corrected rewrite, not of the code's; for the code it holds when no dict `InvokeNext` names a VM action as a label or a target (`InjectionProps.ParallelAgrees`), and `InjectionProps.AsWrittenBypassesGate` shows it failing otherwise (see "## Findings").
- InjectionProps.GatedRemoves: is proved of the corrected rewrite, not of the code's; for the code it holds when no dict `InvokeNext` names a VM action as a label or a target (`InjectionProps.ParallelAgrees`), and `InjectionProps.AsWrittenBypassesGate` shows it failing otherwise (see "## Findings").
- InjectionProps.ParallelGatesOnly: is proved of the corrected rewrite, not of the code's; for the code it holds when no dict `InvokeNext` names a VM action as a label or a target (`InjectionProps.ParallelAgrees`), and `InjectionProps.AsWrittenBypassesGate` shows it failing otherwise (see "## Findings").
- InjectionProps.ShapeNamedParallel: is proved of the corrected rewrite, not of the code's; for the code it holds when no dict `InvokeNext` names a VM action as a label or a target (`InjectionProps.ParallelAgrees`), and `InjectionProps.AsWrittenBypassesGate` shows it failing otherwise (see "## Findings").
- InjectionProps.NamedStaysNamed: is proved of the corrected rewrite, not of the code's; for the code it holds when no dict `InvokeNext` names a VM action as a label or a target (`InjectionProps.ParallelAgrees`), and `InjectionProps.AsWrittenBypassesGate` shows it failing otherwise (see "## Findings").
- InjectionProps.ParallelEntry: is proved of the corrected rewrite, not of the code's; for the code it holds when no dict `InvokeNext` names a VM action as a label or a target (`InjectionProps.ParallelAgrees`), and `InjectionProps.AsWrittenBypassesGate` shows it failing otherwise (see "## Findings").

## Findings

| source | as written | input that shows it | evidently intended | confidence | as-written member | corrected member |
|---|---|---|---|---|---|---|
| scripts/faasr_inject_vm.py:362-369 | a dict `InvokeNext` is tested with `in` and rewritten by the comprehension. Both work on the condition labels, not the targets, so conditional edges into a VM action bypass its gate. A label equal to the VM action's name turns the dict into a list of labels. The tool's class performs this rewrite, `Parallel(AsWritten, w)` | `{"onSuccess": "A", "onFailure": "B"}` with `B` requiring a VM keeps naming `B` directly. `{"B": "C"}` with `B` gated becomes `["faasr-vm-poll-B"]` | every target equal to the VM action, in every label, is replaced by the gate; labels and their order are kept (`Parallel(Corrected, w)`, equal to the code's rewrite on workflows without such conditional edges by `InjectionProps.ParallelAgrees`) | not executed | InjectionProps.AsWrittenBypassesGate | InjectionProps.ParallelGatesOnly |
