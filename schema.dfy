/** The FaaSr workflow document (the JSON file every script loads), as far as
    the modelled scripts read or write it. A missing key is `None` (or the
    empty value the scripts default it to with `.get(key, default)`). */
module Schema {
  import opened Base
  import opened Dicts

  /** The value of one condition label in a conditional `InvokeNext`:
      a single action name or a list of them. */
  datatype Targets = One(name: string) | Many(names: seq<string>)

  datatype Branch = Branch(condition: string, targets: Targets)

  /** `InvokeNext` of an action: absent, a string, a list of strings, or a
      dict from condition label to a string or list (kept in key order). */
  datatype InvokeNext =
    | Missing
    | Str(name: string)
    | List(names: seq<string>)
    | Cond(branches: seq<Branch>)

  /** SLURM resource keys, found in an action's `Resources` and in a server. */
  datatype Resources = Resources(
    partition: Option<string>,
    nodes: Option<int>,
    tasks: Option<int>,
    cpusPerTask: Option<int>,
    memory: Option<int>,
    timeLimit: Option<int>,
    workingDirectory: Option<string>)

  const NoResources := Resources(None, None, None, None, None, None, None)

  /** One entry of `ActionList`. `builtin` is the `_faasr_builtin` marker of
      the actions the injection engine creates; fields no modelled code reads
      are not represented. */
  datatype Action = Action(
    functionName: Option<string>,
    faasServer: Option<string>,
    actionType: Option<string>,
    requiresVM: bool,
    invokeNext: InvokeNext,
    builtin: bool,
    resources: Resources)

  /** One entry of `ComputeServers`; `slurm` holds its SLURM resource keys
      (including `Partition`). */
  datatype Server = Server(
    faasType: Option<string>,
    branch: Option<string>,
    endpoint: Option<string>,
    apiVersion: Option<string>,
    userName: Option<string>,
    slurm: Resources)

  datatype VMConfig = VMConfig(name: Option<string>, provider: Option<string>)

  /** The whole document. `dataStores` lists the keys of `DataStores`. */
  datatype Workflow = Workflow(
    workflowName: Option<string>,
    actionList: Option<ODict<Action>>,
    functionInvoke: Option<string>,
    containers: Option<ODict<string>>,
    servers: Option<ODict<Server>>,
    dataStores: seq<string>,
    vmConfig: Option<VMConfig>)

  /** `workflow.get("ActionList", {})` */
  function Actions(w: Workflow): ODict<Action> {
    w.actionList.GetOr(Empty())
  }

  /** `workflow.get("ActionContainers", {})` */
  function Containers(w: Workflow): ODict<string> {
    w.containers.GetOr(Empty())
  }

  /** Every dictionary of the document is a well-formed ordered dict. */
  ghost predicate WellFormed(w: Workflow) {
    && (w.actionList.Some? ==> w.actionList.value.Valid())
    && (w.containers.Some? ==> w.containers.value.Valid())
    && (w.servers.Some? ==> w.servers.value.Valid())
  }
}
