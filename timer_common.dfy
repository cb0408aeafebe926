/** What the two timer scripts (scripts/set_workflow_timer.py and
    scripts/unset_workflow_timer.py) share: finding the entry action, the
    check that it runs on GitHub Actions, the path of its workflow YAML file,
    and the parsed YAML document both of them edit in place. The two scripts
    carry identical copies of these helpers. */
module TimerCommon {
  import opened Base
  import opened Dicts
  import opened Schema

  /** The ways either timer script stops with an error exit. */
  datatype TimerError =
    | NoToken
    | InvalidCron(cron: string)
    | NoFunctionInvoke
    | EntryNotInActionList(entry: string)
    | MissingKey(key: string)
    | NotGitHubActions(faasType: string)
    | NotRegistered(path: string)

  /** `get_entry_action`: `FunctionInvoke` must be truthy and a key of
      `ActionList` (an absent `ActionList` has no keys). */
  function GetEntryAction(w: Workflow): (r: Result<string, TimerError>)
    ensures r.Ok? <==> Truthy(w.functionInvoke) && w.functionInvoke.value in Actions(w).vals
    ensures r.Ok? ==> Some(r.value) == w.functionInvoke
    ensures r.Err? ==> r.error == if Truthy(w.functionInvoke) then EntryNotInActionList(w.functionInvoke.value) else NoFunctionInvoke
  {
    if !Truthy(w.functionInvoke) then Err(NoFunctionInvoke)
    else if w.functionInvoke.value !in Actions(w).vals then Err(EntryNotInActionList(w.functionInvoke.value))
    else Ok(w.functionInvoke.value)
  }

  /** `get_github_actions_config`: the entry action's `FaaSServer` and that
      server must exist (a `KeyError` names the missing key), the server's
      `FaaSType` must be exactly `GitHubActions`; the result is its
      `Branch`, `main` by default. */
  function GetGithubActionsConfig(w: Workflow, entry: string): Result<string, TimerError> {
    if w.actionList.None? then Err(MissingKey("ActionList"))
    else if entry !in w.actionList.value.vals then Err(MissingKey(entry))
    else
      match w.actionList.value.vals[entry].faasServer
      case None => Err(MissingKey("FaaSServer"))
      case Some(sn) =>
        if w.servers.None? then Err(MissingKey("ComputeServers"))
        else if sn !in w.servers.value.vals then Err(MissingKey(sn))
        else
          var server := w.servers.value.vals[sn];
          var t := server.faasType.GetOr("");
          if t != "GitHubActions" then Err(NotGitHubActions(t))
          else Ok(server.branch.GetOr("main"))
  }

  /** The server of the entry action, when the lookups succeed. */
  ghost predicate ServerOfEntry(w: Workflow, entry: string, server: Server) {
    && w.actionList.Some? && entry in w.actionList.value.vals
    && w.actionList.value.vals[entry].faasServer.Some?
    && w.servers.Some? && w.actionList.value.vals[entry].faasServer.value in w.servers.value.vals
    && w.servers.value.vals[w.actionList.value.vals[entry].faasServer.value] == server
  }

  /** The second half of `get_workflow_yaml_path`: `entry` when it already
      ends in `.yml` or `.yaml`, else `entry` with `.yml` appended. */
  function WorkflowFile(entry: string): string {
    if EndsWith(entry, ".yml") || EndsWith(entry, ".yaml") then entry else entry + ".yml"
  }

  const WorkflowsDir := ".github/workflows/"

  /** The first half of `get_workflow_yaml_path`. */
  function WorkflowYamlPath(entry: string): string {
    WorkflowsDir + WorkflowFile(entry)
  }

  // ---------------------------------------------------------------- the YAML document

  /** A parsed YAML value as far as the timer editors look at it: `Scalar`
      stands for numbers and booleans, `Sequence` for lists and `Mapping`
      for dicts, which keep their key order. */
  datatype YamlValue =
    | Null
    | Text(s: string)
    | Scalar
    | Sequence(items: seq<YamlValue>)
    | Mapping(d: ODict<YamlValue>)

  /** The `workflow_yaml` dict both scripts read, edit in place and write
      back. */
  class YamlDoc {
    var doc: ODict<YamlValue>

    constructor(doc: ODict<YamlValue>)
      ensures this.doc == doc
    {
      this.doc := doc;
    }
  }

  /** A commit of the edited workflow file, pushed to `branch`. */
  datatype Commit = Commit(path: string, message: string, branch: string)

  // ---------------------------------------------------------------- properties

  /** The entry action is accepted exactly when `FunctionInvoke` names one of
      the actions; both scripts fail the same way otherwise. */
  lemma GetEntryActionFacts(w: Workflow)
    ensures GetEntryAction(w).Ok? ==> GetEntryAction(w).value in Actions(w).vals && GetEntryAction(w).value != ""
    ensures w.functionInvoke.None? || w.functionInvoke == Some("") ==> GetEntryAction(w) == Err(NoFunctionInvoke)
    ensures w.actionList.None? ==> GetEntryAction(w).Err?
  {
  }

  /** The configuration is returned exactly when the entry action's server
      exists and has type `GitHubActions`, and the branch is that server's
      `Branch`, `main` when it has none. */
  lemma GetGithubActionsConfigCorrect(w: Workflow, entry: string)
    ensures GetGithubActionsConfig(w, entry).Ok? <==>
      exists server :: ServerOfEntry(w, entry, server) && server.faasType == Some("GitHubActions")
    ensures forall server :: ServerOfEntry(w, entry, server) && server.faasType == Some("GitHubActions") ==>
      GetGithubActionsConfig(w, entry) == Ok(server.branch.GetOr("main"))
    ensures forall server :: ServerOfEntry(w, entry, server) && server.faasType != Some("GitHubActions") ==>
      GetGithubActionsConfig(w, entry) == Err(NotGitHubActions(server.faasType.GetOr("")))
  {
    if GetGithubActionsConfig(w, entry).Ok? {
      var server := w.servers.value.vals[w.actionList.value.vals[entry].faasServer.value];
      assert ServerOfEntry(w, entry, server);
    }
  }

  /** The workflow file always ends in `.yml` or `.yaml`, keeps an entry that
      already does, and applying the rule again changes nothing; the path is
      always under `.github/workflows/`. */
  lemma WorkflowFileFacts(entry: string)
    ensures EndsWith(WorkflowFile(entry), ".yml") || EndsWith(WorkflowFile(entry), ".yaml")
    ensures EndsWith(entry, ".yml") || EndsWith(entry, ".yaml") <==> WorkflowFile(entry) == entry
    ensures !(EndsWith(entry, ".yml") || EndsWith(entry, ".yaml")) ==> WorkflowFile(entry) == entry + ".yml"
    ensures WorkflowFile(WorkflowFile(entry)) == WorkflowFile(entry)
    ensures StartsWith(WorkflowYamlPath(entry), WorkflowsDir)
    ensures WorkflowYamlPath(entry)[|WorkflowsDir|..] == WorkflowFile(entry)
  {
    var f := entry + ".yml";
    assert f[|f| - 4..] == ".yml";
    assert WorkflowYamlPath(entry)[..|WorkflowsDir|] == WorkflowsDir;
  }

  /** The file the timer scripts edit is never the one registration writes
      for the same entry action (`.github/workflows/<WorkflowName>-<entry>.yml`):
      the registered name is always longer. */
  lemma TimerPathIsNotRegisteredPath(workflowName: string, entry: string)
    ensures WorkflowYamlPath(entry) != WorkflowsDir + workflowName + "-" + entry + ".yml"
  {
    assert |WorkflowFile(entry)| <= |entry| + 4;
  }
}
