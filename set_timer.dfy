/** scripts/set_workflow_timer.py: adding or replacing the cron schedule in
    the `on:` section of the entry action's GitHub Actions workflow file. */
module SetTimer {
  import opened Base
  import opened Dicts
  import opened Schema
  import opened TimerCommon

  /** `[{'cron': cron}]` */
  function ScheduleValue(cron: string): YamlValue {
    Sequence([Mapping(Empty<YamlValue>().Put("cron", Text(cron)))])
  }

  /** The `on` dict `set_timer_in_yaml` works on before it writes the
      schedule: the existing dict, `{trigger: None}` for a string trigger,
      and an empty dict for an absent or any other value. */
  function OnBefore(doc: ODict<YamlValue>): ODict<YamlValue> {
    if "on" !in doc.vals then Empty()
    else
      match doc.vals["on"]
      case Mapping(m) => m
      case Text(s) => Empty<YamlValue>().Put(s, Null)
      case _ => Empty()
  }

  /** The document after `set_timer_in_yaml`. */
  function SetTimerSpec(doc: ODict<YamlValue>, cron: string): ODict<YamlValue> {
    doc.Put("on", Mapping(OnBefore(doc).Put("schedule", ScheduleValue(cron))))
  }

  /** `set_timer_in_yaml` (lines 164-184), step by step on the dict it was
      given. */
  method SetTimerInYaml(y: YamlDoc, cron: string)
    modifies y
    ensures y.doc == SetTimerSpec(old(y.doc), cron)
  {
    if "on" !in y.doc.vals {
      y.doc := y.doc.Put("on", Mapping(Empty()));
    }
    if !y.doc.vals["on"].Mapping? {
      var existing := y.doc.vals["on"];
      y.doc := y.doc.Put("on", Mapping(Empty()));
      if existing.Text? {
        y.doc := y.doc.Put("on", Mapping(y.doc.vals["on"].d.Put(existing.s, Null)));
      }
    }
    assert y.doc.vals["on"].d == OnBefore(old(y.doc));
    assert y.doc.keys == old(y.doc).Put("on", Null).keys;
    y.doc := y.doc.Put("on", Mapping(y.doc.vals["on"].d.Put("schedule", ScheduleValue(cron))));
  }

  /** `commit_and_push_changes` (lines 197-227): with a changed file (the
      verdict of `git diff --quiet`) one commit with this message, pushed to
      the branch; nothing otherwise. */
  function SetCommit(path: string, file: string, cron: string, branch: string, changed: bool): Option<Commit> {
    if !changed then None
    else Some(Commit(path, "FaaSr: Set workflow timer to '" + cron + "' for " + file, branch))
  }

  /** What `main` (lines 230-259) does: the `GH_PAT` check, the cron
      validation (whose verdict comes from `croniter`), the entry action and
      its server, the registration check against the files present, the
      edit and write of the YAML read from that file, then the commit, whose
      `git diff` verdict is `changed`. */
  datatype SetRun = SetRun(path: string, file: string, branch: string, written: ODict<YamlValue>, commit: Option<Commit>)

  function SetTimerRun(w: Workflow, token: Option<string>, cron: string, cronValid: bool,
                       present: set<string>, yaml: ODict<YamlValue>, changed: bool): Result<SetRun, TimerError>
  {
    if !Truthy(token) then Err(NoToken)
    else if !cronValid then Err(InvalidCron(cron))
    else
      match GetEntryAction(w)
      case Err(e) => Err(e)
      case Ok(entry) =>
        match GetGithubActionsConfig(w, entry)
        case Err(e) => Err(e)
        case Ok(branch) =>
          var path, file := WorkflowYamlPath(entry), WorkflowFile(entry);
          if path !in present then Err(NotRegistered(path))
          else Ok(SetRun(path, file, branch, SetTimerSpec(yaml, cron), SetCommit(path, file, cron, branch, changed)))
  }

  /** `main`, step by step: the YAML is edited in place by `SetTimerInYaml`. */
  method SetTimerMain(w: Workflow, token: Option<string>, cron: string, cronValid: bool,
                      present: set<string>, yaml: ODict<YamlValue>, changed: bool)
    returns (r: Result<SetRun, TimerError>)
    ensures r == SetTimerRun(w, token, cron, cronValid, present, yaml, changed)
  {
    if !Truthy(token) {
      return Err(NoToken);
    }
    if !cronValid {
      return Err(InvalidCron(cron));
    }
    var entry := GetEntryAction(w);
    if entry.Err? {
      return Err(entry.error);
    }
    var branch := GetGithubActionsConfig(w, entry.value);
    if branch.Err? {
      return Err(branch.error);
    }
    var path, file := WorkflowYamlPath(entry.value), WorkflowFile(entry.value);
    if path !in present {
      return Err(NotRegistered(path));
    }
    var y := new YamlDoc(yaml);
    SetTimerInYaml(y, cron);
    var commit := SetCommit(path, file, cron, branch.value, changed);
    return Ok(SetRun(path, file, branch.value, y.doc, commit));
  }

  // ---------------------------------------------------------------- properties

  /** Afterwards `on` is a dict whose `schedule` is `[{'cron': cron}]`; every
      other top-level key keeps its value and its position, and `on` is
      added last when it was absent. */
  lemma SetTimerTopLevel(doc: ODict<YamlValue>, cron: string)
    ensures var r := SetTimerSpec(doc, cron);
      && "on" in r.vals && r.vals["on"].Mapping?
      && r.vals["on"].d.Get("schedule") == Some(ScheduleValue(cron))
      && (forall k :: k != "on" ==> r.Get(k) == doc.Get(k))
      && r.keys == (if "on" in doc.vals then doc.keys else doc.keys + ["on"])
      && (doc.Valid() ==> r.Valid())
  {
  }

  /** Inside `on`: an existing dict keeps every other trigger and its order
      (`schedule` goes last if it was new); a string trigger `s` becomes
      `{s: None}` before the schedule; any other value is dropped. */
  lemma SetTimerOnSection(doc: ODict<YamlValue>, cron: string)
    ensures var on := SetTimerSpec(doc, cron).vals["on"].d;
      && ("on" in doc.vals && doc.vals["on"].Mapping? ==>
            var m := doc.vals["on"].d;
            && (forall k :: k != "schedule" ==> on.Get(k) == m.Get(k))
            && on.keys == (if "schedule" in m.vals then m.keys else m.keys + ["schedule"]))
      && ("on" in doc.vals && doc.vals["on"].Text? && doc.vals["on"].s != "schedule" ==>
            && on.keys == [doc.vals["on"].s, "schedule"]
            && on.Get(doc.vals["on"].s) == Some(Null))
      && ("on" !in doc.vals || !(doc.vals["on"].Mapping? || doc.vals["on"].Text?) ==>
            on.keys == ["schedule"] && on.vals.Keys == {"schedule"})
  {
  }

  /** Setting the timer twice keeps only the second cron. */
  lemma SetTimerLastWins(doc: ODict<YamlValue>, c1: string, c2: string)
    ensures SetTimerSpec(SetTimerSpec(doc, c1), c2) == SetTimerSpec(doc, c2)
  {
    var on := OnBefore(doc);
    var once := SetTimerSpec(doc, c1);
    assert OnBefore(once) == on.Put("schedule", ScheduleValue(c1));
    assert OnBefore(once).Put("schedule", ScheduleValue(c2)) == on.Put("schedule", ScheduleValue(c2));
  }

  /** Setting the same cron again changes nothing. */
  lemma SetTimerIdempotent(doc: ODict<YamlValue>, cron: string)
    ensures SetTimerSpec(SetTimerSpec(doc, cron), cron) == SetTimerSpec(doc, cron)
  {
    SetTimerLastWins(doc, cron, cron);
  }

  /** The run fails at the first failing check, in the script's order, and
      otherwise writes the edited document to the entry action's workflow
      file; a commit is made exactly when `git diff` reports a change, with
      the cron and the file in its message, pushed to the entry server's
      branch. */
  lemma SetTimerRunFacts(w: Workflow, token: Option<string>, cron: string, cronValid: bool,
                         present: set<string>, yaml: ODict<YamlValue>, changed: bool)
    ensures var r := SetTimerRun(w, token, cron, cronValid, present, yaml, changed);
      && (!Truthy(token) ==> r == Err(NoToken))
      && (r.Ok? <==> Truthy(token) && cronValid && GetEntryAction(w).Ok?
                     && GetGithubActionsConfig(w, GetEntryAction(w).value).Ok?
                     && WorkflowYamlPath(GetEntryAction(w).value) in present)
      && (r.Ok? ==>
            && r.value.path == WorkflowYamlPath(w.functionInvoke.value)
            && r.value.file == WorkflowFile(w.functionInvoke.value)
            && r.value.path in present
            && Ok(r.value.branch) == GetGithubActionsConfig(w, w.functionInvoke.value)
            && r.value.written == SetTimerSpec(yaml, cron)
            && (r.value.commit.Some? <==> changed)
            && (changed ==> r.value.commit == Some(Commit(r.value.path,
                  "FaaSr: Set workflow timer to '" + cron + "' for " + r.value.file, r.value.branch))))
  {
  }
}
