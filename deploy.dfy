/** The GitHub Actions side of the registration script
    (scripts/register_set_unset_workflow.py): which actions get a generated
    workflow file, which template each file uses, which one carries the cron
    schedule, and how `main` turns `--cron`/`--unset-timer` into the schedule
    and the default payload URL handed to `deploy_to_github`. */
module RegisterDeploy {
  import opened Base
  import opened Dicts
  import opened Schema
  import opened RegisterSecrets

  /** The ways the script stops with an error exit (or an uncaught
      `KeyError`) on this path. */
  datatype DeployError =
    | CronWithUnset
    | InvalidCron(cron: string)
    | NoRepository
    | NoWorkflowName
    | NoActionList
    | UnknownEntry(entry: string)
    | NoFaaSServer(action: string)
    | UnknownServer(action: string, server: string)
    | NoFaaSType(server: string)
    | NoContainer(action: string)
    | Secrets(error: SecretError)

  // ---------------------------------------------------------------- templates

  /** `runs-on:` of the generated job. */
  datatype Runner = UbuntuLatest | SelfHosted

  /** The `on:` section: manual dispatch only, or a schedule plus manual
      dispatch whose `PAYLOAD_URL` input defaults to `payloadDefault`. */
  datatype Trigger = Manual | Scheduled(cron: string, payloadDefault: string)

  /** A workflow file `deploy_to_github` creates or updates; the YAML text
      itself is determined by these fields. */
  datatype GeneratedFile = GeneratedFile(
    path: string,
    name: string,
    runner: Runner,
    container: string,
    secrets: string,
    trigger: Trigger)

  /** `generate_vm_yaml` when the action requires a VM, otherwise
      `generate_serverless_yaml` (lines 194-337); both put the schedule in
      only for a truthy cron, and a missing payload URL is rendered by the
      f-string as `None`. */
  function Generate(name: string, container: string, secrets: string, requiresVm: bool,
                    cron: Option<string>, payload: Option<string>): GeneratedFile
  {
    GeneratedFile(
      ".github/workflows/" + name + ".yml",
      name,
      if requiresVm then SelfHosted else UbuntuLatest,
      container,
      secrets,
      if Truthy(cron) then Scheduled(cron.value, payload.GetOr("None")) else Manual)
  }

  // ---------------------------------------------------------------- which actions

  /** `str.lower()` on ASCII letters. */
  function LowerChar(c: char): char {
    if 'A' <= c <= 'Z' then (c as int - 'A' as int + 'a' as int) as char else c
  }

  function Lower(s: string): string {
    seq(|s|, i requires 0 <= i < |s| => LowerChar(s[i]))
  }

  /** Lines 374-377 for one action: its `FaaSServer`, that entry of
      `ComputeServers` and its `FaaSType` must all exist; the action is
      deployed here when the type, lower-cased, is `githubactions`. */
  function OnGitHub(w: Workflow, name: string, action: Action): Result<bool, DeployError> {
    match action.faasServer
    case None => Err(NoFaaSServer(name))
    case Some(sn) =>
      if w.servers.None? || sn !in w.servers.value.vals then Err(UnknownServer(name, sn))
      else
        match w.servers.value.vals[sn].faasType
        case None => Err(NoFaaSType(sn))
        case Some(t) => Ok(Lower(t) == "githubactions")
  }

  function Prepend<T, E>(xs: seq<T>, r: Result<seq<T>, E>): Result<seq<T>, E> {
    match r
    case Err(e) => Err(e)
    case Ok(ys) => Ok(xs + ys)
  }

  lemma PrependTwice<T, E>(xs: seq<T>, ys: seq<T>, r: Result<seq<T>, E>)
    ensures Prepend(xs, Prepend(ys, r)) == Prepend(xs + ys, r)
  {
    if r.Ok? {
      AppendAssoc(xs, ys, r.value);
    }
  }

  /** The loop of lines 373-378 over `names`, in order; the first action
      whose server lookup fails stops it. */
  function GitHubActionsIn(w: Workflow, d: ODict<Action>, names: seq<string>): Result<seq<string>, DeployError>
    requires forall n :: n in names ==> n in d.vals
  {
    if names == [] then Ok([])
    else
      match OnGitHub(w, names[0], d.vals[names[0]])
      case Err(e) => Err(e)
      case Ok(b) => Prepend(if b then [names[0]] else [], GitHubActionsIn(w, d, names[1..]))
  }

  /** `github_actions`, the actions to deploy, in `ActionList` order. */
  function GitHubActions(w: Workflow): Result<seq<string>, DeployError>
    requires WellFormed(w)
  {
    if w.actionList.None? then Err(NoActionList)
    else GitHubActionsIn(w, w.actionList.value, w.actionList.value.keys)
  }

  // ---------------------------------------------------------------- deployment

  /** The files pushed, in order, and the error that stopped the loop, if
      any; files pushed before an error stay pushed. */
  datatype Deployment = Deployment(pushed: seq<GeneratedFile>, error: Option<DeployError>)

  /** One iteration of lines 392-431: the container check, then the secret
      block, then the template; only the entry action gets the cron and the
      payload URL. */
  function DeployOne(w: Workflow, prefix: string, a: string,
                     cron: Option<string>, payload: Option<string>, entry: Option<string>): Result<GeneratedFile, DeployError>
    requires a in Actions(w).vals
  {
    var c := Containers(w).Get(a);
    if !Truthy(c) then Err(NoContainer(a))
    else
      match SecretImports(w)
      case Err(e) => Err(Secrets(e))
      case Ok(s) =>
        var isEntry := entry == Some(a);
        Ok(Generate(prefix + "-" + a, c.value, s, Actions(w).vals[a].requiresVM,
                    if isEntry then cron else None, if isEntry then payload else None))
  }

  function DeployAll(w: Workflow, prefix: string, names: seq<string>,
                     cron: Option<string>, payload: Option<string>, entry: Option<string>): Deployment
    requires forall n :: n in names ==> n in Actions(w).vals
  {
    if names == [] then Deployment([], None)
    else
      match DeployOne(w, prefix, names[0], cron, payload, entry)
      case Err(e) => Deployment([], Some(e))
      case Ok(f) =>
        var rest := DeployAll(w, prefix, names[1..], cron, payload, entry);
        Deployment([f] + rest.pushed, rest.error)
  }

  /** `deploy_to_github` (lines 340-460) after its `GH_PAT` check: a falsy
      `WorkflowName` stops it, no GitHub action makes it return quietly. */
  function DeployToGithubSpec(w: Workflow, cron: Option<string>, payload: Option<string>, entry: Option<string>): Deployment
    requires WellFormed(w)
  {
    if !Truthy(w.workflowName) then Deployment([], Some(NoWorkflowName))
    else
      match GitHubActions(w)
      case Err(e) => Deployment([], Some(e))
      case Ok(names) =>
        GitHubActionsInActions(w, names);
        DeployAll(w, w.workflowName.value, names, cron, payload, entry)
  }

  /** `GitHubActions` only returns actions of the workflow. */
  lemma GitHubActionsInActions(w: Workflow, names: seq<string>)
    requires WellFormed(w) && GitHubActions(w) == Ok(names)
    ensures forall n :: n in names ==> n in Actions(w).vals
  {
    var d := w.actionList.value;
    GitHubActionsInCorrect(w, d, d.keys);
  }

  /** Lines 372-378. */
  method FilterGitHubActions(w: Workflow) returns (r: Result<seq<string>, DeployError>)
    requires WellFormed(w)
    ensures r == GitHubActions(w)
  {
    if w.actionList.None? {
      return Err(NoActionList);
    }
    var d := w.actionList.value;
    var names: seq<string> := [];
    var i := 0;
    assert d.keys[0..] == d.keys;
    ghost var all := GitHubActionsIn(w, d, d.keys);
    assert all.Ok? ==> names + all.value == all.value;
    while i < |d.keys|
      invariant 0 <= i <= |d.keys|
      invariant Prepend(names, GitHubActionsIn(w, d, d.keys[i..])) == all
    {
      var a := d.keys[i];
      assert d.keys[i..][1..] == d.keys[i + 1..];
      var onGitHub := OnGitHub(w, a, d.vals[a]);
      if onGitHub.Err? {
        return Err(onGitHub.error);
      }
      var added := if onGitHub.value then [a] else [];
      PrependTwice(names, added, GitHubActionsIn(w, d, d.keys[i + 1..]));
      names := names + added;
      i := i + 1;
    }
    assert d.keys[i..] == [] && names + [] == names;
    return Ok(names);
  }

  /** Lines 394-431 for one action. */
  method DeployAction(w: Workflow, prefix: string, a: string,
                      cron: Option<string>, payload: Option<string>, entry: Option<string>)
    returns (r: Result<GeneratedFile, DeployError>)
    requires WellFormed(w)
    requires a in Actions(w).vals
    ensures r == DeployOne(w, prefix, a, cron, payload, entry)
  {
    var container := Containers(w).Get(a);
    if !Truthy(container) {
      return Err(NoContainer(a));
    }
    var secrets := GenerateGithubSecretImports(w);
    if secrets.Err? {
      return Err(Secrets(secrets.error));
    }
    var isEntry := entry == Some(a);
    return Ok(Generate(prefix + "-" + a, container.value, secrets.value, Actions(w).vals[a].requiresVM,
                       if isEntry then cron else None, if isEntry then payload else None));
  }

  /** Lines 392-454, pushing each file as it is generated. */
  method DeployEach(w: Workflow, prefix: string, names: seq<string>,
                    cron: Option<string>, payload: Option<string>, entry: Option<string>)
    returns (pushed: seq<GeneratedFile>, err: Option<DeployError>)
    requires WellFormed(w)
    requires forall n :: n in names ==> n in Actions(w).vals
    ensures Deployment(pushed, err) == DeployAll(w, prefix, names, cron, payload, entry)
  {
    pushed := [];
    var rest := names;
    while rest != []
      invariant forall n :: n in rest ==> n in Actions(w).vals
      invariant DeployAll(w, prefix, names, cron, payload, entry)
        == Deployment(pushed + DeployAll(w, prefix, rest, cron, payload, entry).pushed,
                      DeployAll(w, prefix, rest, cron, payload, entry).error)
      decreases |rest|
    {
      var r := DeployAction(w, prefix, rest[0], cron, payload, entry);
      if r.Err? {
        return pushed, Some(r.error);
      }
      var tail := rest[1..];
      assert forall n :: n in tail ==> n in rest;
      ghost var later := DeployAll(w, prefix, tail, cron, payload, entry);
      assert DeployAll(w, prefix, rest, cron, payload, entry) == Deployment([r.value] + later.pushed, later.error);
      AppendAssoc(pushed, [r.value], later.pushed);
      pushed := pushed + [r.value];
      rest := tail;
    }
    assert pushed + [] == pushed;
    err := None;
  }

  method DeployToGithub(w: Workflow, cron: Option<string>, payload: Option<string>, entry: Option<string>)
    returns (pushed: seq<GeneratedFile>, err: Option<DeployError>)
    requires WellFormed(w)
    ensures Deployment(pushed, err) == DeployToGithubSpec(w, cron, payload, entry)
  {
    if !Truthy(w.workflowName) {
      return [], Some(NoWorkflowName);
    }
    var names := FilterGitHubActions(w);
    if names.Err? {
      return [], Some(names.error);
    }
    GitHubActionsInActions(w, names.value);
    pushed, err := DeployEach(w, w.workflowName.value, names.value, cron, payload, entry);
  }

  // ---------------------------------------------------------------- main's timer settings

  /** What `main` passes to `deploy_to_github` as `cron_schedule` and
      `payload_url`. */
  datatype Timer = Timer(cron: Option<string>, payloadUrl: Option<string>)

  /** `str.lstrip('./')`: drops every leading `.` and `/`. */
  function LStrip(s: string): string {
    if s != [] && (s[0] == '.' || s[0] == '/') then LStrip(s[1..]) else s
  }

  const RawPrefix := "https://raw.githubusercontent.com/"

  /** Line 991. */
  function PayloadUrl(repo: string, branch: string, file: string): string {
    RawPrefix + repo + "/" + branch + "/" + LStrip(file)
  }

  /** Lines 984-988: the `Branch` of the entry action's server, `main` when
      that server has none or there is no entry action; the entry action and
      its server must exist. */
  function EntryBranch(w: Workflow): Result<string, DeployError> {
    var entry := w.functionInvoke;
    if !Truthy(entry) then Ok("main")
    else if w.actionList.None? || entry.value !in w.actionList.value.vals then Err(UnknownEntry(entry.value))
    else
      match w.actionList.value.vals[entry.value].faasServer
      case None => Err(NoFaaSServer(entry.value))
      case Some(sn) =>
        if w.servers.None? || sn !in w.servers.value.vals then Err(UnknownServer(entry.value, sn))
        else Ok(w.servers.value.vals[sn].branch.GetOr("main"))
  }

  /** `parse_arguments`' conflict check (lines 49-55), the cron validation of
      lines 944-947 (whose verdict `cronValid` comes from `croniter`) and
      the mode choice of lines 973-996; `repo` is `GITHUB_REPOSITORY`. */
  function TimerSettings(w: Workflow, cron: Option<string>, cronValid: bool, unset: bool,
                         repo: Option<string>, file: string): Result<Timer, DeployError>
  {
    if Truthy(cron) && unset then Err(CronWithUnset)
    else if Truthy(cron) && !cronValid then Err(InvalidCron(cron.value))
    else if unset || !Truthy(cron) then Ok(Timer(None, None))
    else if !Truthy(repo) then Err(NoRepository)
    else
      match EntryBranch(w)
      case Err(e) => Err(e)
      case Ok(branch) => Ok(Timer(cron, Some(PayloadUrl(repo.value, branch, file))))
  }

  // ---------------------------------------------------------------- properties

  /** The filter keeps exactly the actions whose server type is
      `githubactions` in any letter case, in `ActionList` order, each once;
      it fails exactly when some action's server lookup fails, with the
      first such action's error. */
  lemma GitHubActionsInCorrect(w: Workflow, d: ODict<Action>, names: seq<string>)
    requires forall n :: n in names ==> n in d.vals
    requires Distinct(names)
    ensures GitHubActionsIn(w, d, names).Ok? <==> forall n :: n in names ==> OnGitHub(w, n, d.vals[n]).Ok?
    ensures GitHubActionsIn(w, d, names).Ok? ==>
      var r := GitHubActionsIn(w, d, names).value;
      && (forall n :: n in r <==> n in names && OnGitHub(w, n, d.vals[n]) == Ok(true))
      && SubSeq(r, names)
      && Distinct(r)
    ensures GitHubActionsIn(w, d, names).Err? ==>
      exists k :: 0 <= k < |names|
        && OnGitHub(w, names[k], d.vals[names[k]]).Err?
        && GitHubActionsIn(w, d, names).error == OnGitHub(w, names[k], d.vals[names[k]]).error
        && forall j :: 0 <= j < k ==> OnGitHub(w, names[j], d.vals[names[j]]).Ok?
  {
    GitHubActionsInOk(w, d, names);
    GitHubActionsInKeeps(w, d, names);
    GitHubActionsInFirstError(w, d, names);
  }

  /** The filter gets through exactly when every lookup does. */
  lemma {:induction false} GitHubActionsInOk(w: Workflow, d: ODict<Action>, names: seq<string>)
    requires forall n :: n in names ==> n in d.vals
    ensures GitHubActionsIn(w, d, names).Ok? <==> forall n :: n in names ==> OnGitHub(w, n, d.vals[n]).Ok?
  {
    if names != [] {
      var rest := names[1..];
      assert forall n :: n in rest ==> n in names;
      GitHubActionsInOk(w, d, rest);
      assert forall n :: n in names ==> n == names[0] || n in rest;
    }
  }

  /** What the filter keeps: the GitHub actions, in order, each once. */
  lemma {:induction false} GitHubActionsInKeeps(w: Workflow, d: ODict<Action>, names: seq<string>)
    requires forall n :: n in names ==> n in d.vals
    requires Distinct(names)
    ensures GitHubActionsIn(w, d, names).Ok? ==>
      var r := GitHubActionsIn(w, d, names).value;
      && (forall n :: n in r <==> n in names && OnGitHub(w, n, d.vals[n]) == Ok(true))
      && SubSeq(r, names)
      && Distinct(r)
  {
    if names != [] {
      var rest := names[1..];
      assert forall n :: n in rest ==> n in names;
      assert names[0] !in rest;
      GitHubActionsInKeeps(w, d, rest);
      var head := OnGitHub(w, names[0], d.vals[names[0]]);
      var r := GitHubActionsIn(w, d, names);
      if head.Ok? && r.Ok? {
        var rr := GitHubActionsIn(w, d, rest).value;
        assert forall n :: n in names ==> n == names[0] || n in rest;
        if head.value {
          assert r.value[0] == names[0] && r.value[1..] == rr;
        } else {
          assert r.value == rr;
          if rr != [] {
            assert SubSeq(rr, rest);
          }
        }
      }
    }
  }

  /** A failing filter reports the first action whose lookup fails. */
  lemma {:induction false} GitHubActionsInFirstError(w: Workflow, d: ODict<Action>, names: seq<string>)
    requires forall n :: n in names ==> n in d.vals
    ensures GitHubActionsIn(w, d, names).Err? ==>
      exists k :: 0 <= k < |names|
        && OnGitHub(w, names[k], d.vals[names[k]]).Err?
        && GitHubActionsIn(w, d, names).error == OnGitHub(w, names[k], d.vals[names[k]]).error
        && forall j :: 0 <= j < k ==> OnGitHub(w, names[j], d.vals[names[j]]).Ok?
  {
    if names != [] {
      var rest := names[1..];
      assert forall n :: n in rest ==> n in names;
      GitHubActionsInFirstError(w, d, rest);
      var head := OnGitHub(w, names[0], d.vals[names[0]]);
      var r := GitHubActionsIn(w, d, names);
      if head.Ok? && r.Err? {
        var k :| 0 <= k < |rest|
          && OnGitHub(w, rest[k], d.vals[rest[k]]).Err?
          && GitHubActionsIn(w, d, rest).error == OnGitHub(w, rest[k], d.vals[rest[k]]).error
          && forall j :: 0 <= j < k ==> OnGitHub(w, rest[j], d.vals[rest[j]]).Ok?;
        assert names[k + 1] == rest[k];
        assert forall j :: 0 < j <= k ==> names[j] == rest[j - 1];
      } else if head.Err? {
        assert OnGitHub(w, names[0], d.vals[names[0]]).Err?;
      }
    }
  }

  /** The loop pushes the files of the first actions, in order, and stops
      at the first action it cannot deploy, with that action's error. */
  lemma {:induction false} DeployAllPrefix(w: Workflow, prefix: string, names: seq<string>,
                                           cron: Option<string>, payload: Option<string>, entry: Option<string>)
    requires forall n :: n in names ==> n in Actions(w).vals
    ensures var d := DeployAll(w, prefix, names, cron, payload, entry);
      && |d.pushed| <= |names|
      && (forall i :: 0 <= i < |d.pushed| ==> DeployOne(w, prefix, names[i], cron, payload, entry) == Ok(d.pushed[i]))
      && (d.error.None? <==> |d.pushed| == |names|)
      && (d.error.Some? ==> DeployOne(w, prefix, names[|d.pushed|], cron, payload, entry) == Err(d.error.value))
  {
    if names != [] {
      var rest := names[1..];
      assert forall n :: n in rest ==> n in names;
      DeployAllPrefix(w, prefix, rest, cron, payload, entry);
      assert forall i :: 0 < i < |names| ==> names[i] == rest[i - 1];
    }
  }

  /** One action's file: at `.github/workflows/<prefix>-<action>.yml`, on
      the self-hosted runner exactly when the action requires a VM, with the
      action's container and the workflow's secret block, and scheduled
      exactly when it is the entry action and the cron is set, with that
      cron and the payload URL given. It fails on a missing container
      first, then on a failing secret block. */
  lemma DeployOneFacts(w: Workflow, prefix: string, a: string,
                       cron: Option<string>, payload: Option<string>, entry: Option<string>)
    requires a in Actions(w).vals
    ensures var r := DeployOne(w, prefix, a, cron, payload, entry);
      && (r.Ok? <==> Truthy(Containers(w).Get(a)) && SecretImports(w).Ok?)
      && (r.Ok? ==>
            && r.value.path == ".github/workflows/" + prefix + "-" + a + ".yml"
            && (r.value.runner == SelfHosted <==> Actions(w).vals[a].requiresVM)
            && Some(r.value.container) == Containers(w).Get(a)
            && Ok(r.value.secrets) == SecretImports(w)
            && (r.value.trigger.Scheduled? <==> entry == Some(a) && Truthy(cron))
            && (r.value.trigger.Scheduled? ==> r.value.trigger == Scheduled(cron.value, payload.GetOr("None"))))
      && (r.Err? ==>
            (!Truthy(Containers(w).Get(a)) && r.error == NoContainer(a))
            || (Truthy(Containers(w).Get(a)) && SecretImports(w).Err? && r.error == Secrets(SecretImports(w).error)))
  {
  }

  /** Each file pushed is the file of the action at its position, as
      `DeployOneFacts` describes it. */
  lemma DeployAllFiles(w: Workflow, prefix: string, names: seq<string>,
                       cron: Option<string>, payload: Option<string>, entry: Option<string>)
    requires forall n :: n in names ==> n in Actions(w).vals
    ensures var d := DeployAll(w, prefix, names, cron, payload, entry);
      && |d.pushed| <= |names|
      && (forall i :: 0 <= i < |d.pushed| ==>
            && d.pushed[i].path == ".github/workflows/" + prefix + "-" + names[i] + ".yml"
            && (d.pushed[i].runner == SelfHosted <==> Actions(w).vals[names[i]].requiresVM)
            && (d.pushed[i].trigger.Scheduled? <==> entry == Some(names[i]) && Truthy(cron))
            && (d.pushed[i].trigger.Scheduled? ==> d.pushed[i].trigger == Scheduled(cron.value, payload.GetOr("None"))))
  {
    DeployAllPrefix(w, prefix, names, cron, payload, entry);
    var d := DeployAll(w, prefix, names, cron, payload, entry);
    forall i | 0 <= i < |d.pushed|
      ensures && d.pushed[i].path == ".github/workflows/" + prefix + "-" + names[i] + ".yml"
              && (d.pushed[i].runner == SelfHosted <==> Actions(w).vals[names[i]].requiresVM)
              && (d.pushed[i].trigger.Scheduled? <==> entry == Some(names[i]) && Truthy(cron))
              && (d.pushed[i].trigger.Scheduled? ==> d.pushed[i].trigger == Scheduled(cron.value, payload.GetOr("None")))
    {
      assert names[i] in names;
      DeployOneFacts(w, prefix, names[i], cron, payload, entry);
    }
  }

  /** The loop finishes exactly when every action has a container and the
      secret block can be built; otherwise it stops at the first action
      without a container, or at the very first action when the secret
      block fails. */
  lemma DeployAllStops(w: Workflow, prefix: string, names: seq<string>,
                       cron: Option<string>, payload: Option<string>, entry: Option<string>)
    requires forall n :: n in names ==> n in Actions(w).vals
    ensures var d := DeployAll(w, prefix, names, cron, payload, entry);
      && (d.error.None? <==> |d.pushed| == |names|)
      && (d.error.None? <==> names == [] || (SecretImports(w).Ok? && forall n :: n in names ==> Truthy(Containers(w).Get(n))))
      && (d.error.Some? ==>
            var k := |d.pushed|;
            && k < |names|
            && (forall i :: 0 <= i < k ==> Truthy(Containers(w).Get(names[i])))
            && ((!Truthy(Containers(w).Get(names[k])) && d.error.value == NoContainer(names[k]))
                || (k == 0 && SecretImports(w).Err? && d.error.value == Secrets(SecretImports(w).error))))
  {
    DeployAllPrefix(w, prefix, names, cron, payload, entry);
    var d := DeployAll(w, prefix, names, cron, payload, entry);
    forall i | 0 <= i < |d.pushed|
      ensures Truthy(Containers(w).Get(names[i]))
    {
      assert names[i] in names;
      DeployOneFacts(w, prefix, names[i], cron, payload, entry);
    }
    if d.error.None? {
      forall n | n in names
        ensures Truthy(Containers(w).Get(n))
      {
        var i :| 0 <= i < |names| && names[i] == n;
      }
      if names != [] {
        assert DeployOne(w, prefix, names[0], cron, payload, entry).Ok?;
      }
    } else {
      var k := |d.pushed|;
      assert names[k] in names;
      DeployOneFacts(w, prefix, names[k], cron, payload, entry);
      if SecretImports(w).Ok? && k > 0 {
        assert DeployOne(w, prefix, names[0], cron, payload, entry).Ok?;
      }
    }
  }

  /** Over a whole registration, at most one generated file is scheduled:
      the entry action's, when the cron is set, and its payload URL default
      is the one computed by `main`. */
  lemma OnlyEntryScheduled(w: Workflow, cron: Option<string>, payload: Option<string>)
    requires WellFormed(w)
    ensures var d := DeployToGithubSpec(w, cron, payload, w.functionInvoke);
      forall i, j :: 0 <= i < |d.pushed| && 0 <= j < |d.pushed| && d.pushed[i].trigger.Scheduled? && d.pushed[j].trigger.Scheduled? ==>
        && i == j
        && Truthy(cron) && Truthy(w.workflowName) && w.functionInvoke.Some?
        && d.pushed[i].path == ".github/workflows/" + w.workflowName.value + "-" + w.functionInvoke.value + ".yml"
        && d.pushed[i].trigger == Scheduled(cron.value, payload.GetOr("None"))
  {
    if Truthy(w.workflowName) && GitHubActions(w).Ok? {
      var names := GitHubActions(w).value;
      var dl := w.actionList.value;
      assert Distinct(names) by {
        GitHubActionsInKeeps(w, dl, dl.keys);
      }
      GitHubActionsInActions(w, names);
      assert DeployToGithubSpec(w, cron, payload, w.functionInvoke) == DeployAll(w, w.workflowName.value, names, cron, payload, w.functionInvoke);
      DeployAllFiles(w, w.workflowName.value, names, cron, payload, w.functionInvoke);
    }
  }

  /** `lstrip` removes only `.` and `/` characters, and all of them up to the
      first other character: what it leaves is a suffix of the input that
      does not start with either. */
  lemma {:induction false} LStripCorrect(s: string)
    ensures |LStrip(s)| <= |s|
    ensures s[|s| - |LStrip(s)|..] == LStrip(s)
    ensures forall i :: 0 <= i < |s| - |LStrip(s)| ==> s[i] == '.' || s[i] == '/'
    ensures LStrip(s) == [] || (LStrip(s)[0] != '.' && LStrip(s)[0] != '/')
  {
    if s != [] && (s[0] == '.' || s[0] == '/') {
      LStripCorrect(s[1..]);
      assert forall i :: 1 <= i < |s| ==> s[i] == s[1..][i - 1];
    }
  }

  lemma LStripIdempotent(s: string)
    ensures LStrip(LStrip(s)) == LStrip(s)
  {
    LStripCorrect(s);
  }

  /** A path written as `./` before a plain relative path loses just that
      `./`; but `lstrip` strips characters, not a prefix, so a leading
      `../` or the dot of a hidden directory goes as well. */
  lemma LStripExamples()
    ensures LStrip("./workflow.json") == "workflow.json"
    ensures LStrip("workflow.json") == "workflow.json"
    ensures LStrip("../workflow.json") == "workflow.json"
    ensures LStrip(".faasr/workflow.json") == "faasr/workflow.json"
  {
    assert "./workflow.json"[1..] == "/workflow.json";
    assert "/workflow.json"[1..] == "workflow.json";
    assert "../workflow.json"[1..] == "./workflow.json";
    assert ".faasr/workflow.json"[1..] == "faasr/workflow.json";
  }

  /** The schedule and the payload URL come together: only with a truthy
      cron, no `--unset-timer`, a valid cron and a repository. The URL is
      the raw-content address of the stripped workflow path on the entry
      server's branch. */
  lemma TimerSettingsFacts(w: Workflow, cron: Option<string>, cronValid: bool, unset: bool,
                           repo: Option<string>, file: string)
    ensures var r := TimerSettings(w, cron, cronValid, unset, repo, file);
      && (r == Err(CronWithUnset) <==> Truthy(cron) && unset)
      && (unset && !Truthy(cron) ==> r == Ok(Timer(None, None)))
      && (!Truthy(cron) ==> r == Ok(Timer(None, None)))
      && (r.Ok? && r.value.cron.Some? ==>
            && cron == r.value.cron && Truthy(cron) && cronValid && !unset && Truthy(repo)
            && EntryBranch(w).Ok?
            && r.value.payloadUrl == Some(PayloadUrl(repo.value, EntryBranch(w).value, file)))
      && (r.Ok? ==> (r.value.cron.Some? <==> r.value.payloadUrl.Some?))
      && (Truthy(cron) && cronValid && !unset && Truthy(repo) && EntryBranch(w).Ok? ==> r.Ok? && r.value.cron == cron)
  {
  }

  /** The URL begins with the raw-content host, the repository and the
      branch, and ends with the stripped workflow path. */
  lemma PayloadUrlShape(repo: string, branch: string, file: string)
    ensures StartsWith(PayloadUrl(repo, branch, file), RawPrefix + repo + "/" + branch + "/")
    ensures EndsWith(PayloadUrl(repo, branch, file), LStrip(file))
  {
    var p := RawPrefix + repo + "/" + branch + "/";
    assert PayloadUrl(repo, branch, file) == p + LStrip(file);
  }

  /** With no entry action the branch is `main`; otherwise it is the entry
      server's `Branch`, `main` when that key is absent. */
  lemma EntryBranchFacts(w: Workflow)
    ensures !Truthy(w.functionInvoke) ==> EntryBranch(w) == Ok("main")
    ensures EntryBranch(w).Ok? && Truthy(w.functionInvoke) ==>
      var a := w.actionList.value.vals[w.functionInvoke.value];
      && a.faasServer.Some?
      && EntryBranch(w).value == w.servers.value.vals[a.faasServer.value].branch.GetOr("main")
    ensures EntryBranch(w).Err? <==> (Truthy(w.functionInvoke) &&
      (w.actionList.None? || w.functionInvoke.value !in w.actionList.value.vals
       || w.actionList.value.vals[w.functionInvoke.value].faasServer.None?
       || w.servers.None? || w.actionList.value.vals[w.functionInvoke.value].faasServer.value !in w.servers.value.vals))
  {
  }

  /** `FaaSType` is compared case-insensitively here but exactly by the
      secret generator, so a server typed `githubactions` gets its actions
      deployed and then stops the script at the secret block. */
  lemma LowerCaseTypeRejectedBySecrets(n: string)
    ensures Lower("githubactions") == "githubactions" && Lower("GitHubActions") == "githubactions"
    ensures ServerSecrets(n, "githubactions") == None
  {
  }
}
