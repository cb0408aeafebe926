/** scripts/unset_workflow_timer.py: removing the cron schedule from the
    `on:` section of the entry action's GitHub Actions workflow file, and
    writing and pushing the file only when there was one. */
module UnsetTimer {
  import opened Base
  import opened Dicts
  import opened Schema
  import opened TimerCommon
  import SetTimer

  /** Whether `unset_timer_in_yaml` finds a schedule to remove: `on` is
      present, is a dict, and has a `schedule` key. */
  predicate HasSchedule(doc: ODict<YamlValue>) {
    "on" in doc.vals && doc.vals["on"].Mapping? && "schedule" in doc.vals["on"].d.vals
  }

  /** The document after `unset_timer_in_yaml`, and its flag. */
  function UnsetTimerSpec(doc: ODict<YamlValue>): (ODict<YamlValue>, bool) {
    if HasSchedule(doc) then (doc.Put("on", Mapping(doc.vals["on"].d.Delete("schedule"))), true)
    else (doc, false)
  }

  /** `unset_timer_in_yaml` (lines 120-133), deleting the key in place. */
  method UnsetTimerInYaml(y: YamlDoc) returns (had: bool)
    modifies y
    ensures (y.doc, had) == UnsetTimerSpec(old(y.doc))
  {
    if "on" in y.doc.vals && y.doc.vals["on"].Mapping? {
      if "schedule" in y.doc.vals["on"].d.vals {
        y.doc := y.doc.Put("on", Mapping(y.doc.vals["on"].d.Delete("schedule")));
        return true;
      } else {
        return false;
      }
    } else {
      return false;
    }
  }

  /** `commit_and_push_changes` (lines 146-169): nothing without a removed
      schedule, otherwise one commit with this message, pushed to the
      branch. */
  function UnsetCommit(path: string, file: string, branch: string, hadSchedule: bool): Option<Commit> {
    if !hadSchedule then None
    else Some(Commit(path, "FaaSr: Unset workflow timer for " + file, branch))
  }

  /** What `main` (lines 172-199) does: the `GH_PAT` check, the entry action
      and its server, the registration check against the files present,
      the edit of the YAML read from that file, and then the write and the
      commit, both only when a schedule was removed. */
  datatype UnsetRun = UnsetRun(
    path: string,
    file: string,
    branch: string,
    hadSchedule: bool,
    written: Option<ODict<YamlValue>>,
    commit: Option<Commit>)

  function UnsetTimerRun(w: Workflow, token: Option<string>, present: set<string>,
                         yaml: ODict<YamlValue>): Result<UnsetRun, TimerError>
  {
    if !Truthy(token) then Err(NoToken)
    else
      match GetEntryAction(w)
      case Err(e) => Err(e)
      case Ok(entry) =>
        match GetGithubActionsConfig(w, entry)
        case Err(e) => Err(e)
        case Ok(branch) =>
          var path, file := WorkflowYamlPath(entry), WorkflowFile(entry);
          if path !in present then Err(NotRegistered(path))
          else
            var (doc, had) := UnsetTimerSpec(yaml);
            Ok(UnsetRun(path, file, branch, had,
                        if had then Some(doc) else None,
                        if had then UnsetCommit(path, file, branch, had) else None))
  }

  method UnsetTimerMain(w: Workflow, token: Option<string>, present: set<string>, yaml: ODict<YamlValue>)
    returns (r: Result<UnsetRun, TimerError>)
    ensures r == UnsetTimerRun(w, token, present, yaml)
  {
    if !Truthy(token) {
      return Err(NoToken);
    }
    var entry := GetEntryAction(w);
    if entry.Err? {
      return Err(entry.error);
    }
    var branch := GetGithubActionsConfig(w, entry.value);
    if branch.Err? {
      return Err(branch.error);
    }
    var path, file := WorkflowYamlPath(entry.value), WorkflowFile(entry.value);
    if path !in present {
      return Err(NotRegistered(path));
    }
    var y := new YamlDoc(yaml);
    var had := UnsetTimerInYaml(y);
    var written: Option<ODict<YamlValue>> := None;
    var commit: Option<Commit> := None;
    if had {
      written := Some(y.doc);
      commit := UnsetCommit(path, file, branch.value, had);
    }
    return Ok(UnsetRun(path, file, branch.value, had, written, commit));
  }

  // ---------------------------------------------------------------- properties

  /** A schedule is reported exactly when `on` is a dict holding one; then
      exactly the `schedule` key is deleted from `on`, every other trigger
      keeps its value and order, and the rest of the document is untouched.
      Otherwise nothing changes. */
  lemma UnsetTimerFacts(doc: ODict<YamlValue>)
    ensures var (r, had) := UnsetTimerSpec(doc);
      && (had <==> "on" in doc.vals && doc.vals["on"].Mapping? && "schedule" in doc.vals["on"].d.vals)
      && (!had ==> r == doc)
      && (had ==>
            var m := doc.vals["on"].d;
            && r.keys == doc.keys
            && (forall k :: k != "on" ==> r.Get(k) == doc.Get(k))
            && "on" in r.vals && r.vals["on"].Mapping?
            && r.vals["on"].d.vals == m.vals - {"schedule"}
            && r.vals["on"].d.keys == Without(m.keys, "schedule")
            && (m.Valid() ==> r.vals["on"].d.Valid()))
  {
  }

  /** Unsetting twice is unsetting once: the second call finds no schedule
      and changes nothing. */
  lemma UnsetTimerIdempotent(doc: ODict<YamlValue>)
    ensures UnsetTimerSpec(UnsetTimerSpec(doc).0) == (UnsetTimerSpec(doc).0, false)
  {
  }

  /** Writing a key twice keeps the second value only. */
  lemma PutTwice(doc: ODict<YamlValue>, k: string, v1: YamlValue, v2: YamlValue)
    ensures doc.Put(k, v1).Put(k, v2) == doc.Put(k, v2)
  {
    assert doc.Put(k, v1).Put(k, v2).vals == doc.Put(k, v2).vals;
  }

  /** Writing a key's own value back changes nothing. */
  lemma PutSame(doc: ODict<YamlValue>, k: string)
    requires k in doc.vals
    ensures doc.Put(k, doc.vals[k]) == doc
  {
    assert doc.Put(k, doc.vals[k]).vals == doc.vals;
  }

  /** Deleting a schedule that was just written gives the trigger dict back
      without any schedule: the old one is not restored. */
  lemma {:induction false} DeleteAfterPut(m: ODict<YamlValue>, v: YamlValue)
    requires m.Valid()
    ensures m.Put("schedule", v).Delete("schedule") == (if "schedule" in m.vals then m.Delete("schedule") else m)
  {
    if "schedule" !in m.vals {
      WithoutAppended(m.keys, "schedule");
    }
  }

  /** On a document whose `on` is a dict, setting a timer and then unsetting
      it is the same as unsetting alone, and it reports a removed schedule;
      when there was no schedule before, the document comes back unchanged,
      trigger order included. */
  lemma SetThenUnset(doc: ODict<YamlValue>, cron: string)
    requires "on" in doc.vals && doc.vals["on"].Mapping? && doc.vals["on"].d.Valid()
    ensures UnsetTimerSpec(SetTimer.SetTimerSpec(doc, cron)) == (UnsetTimerSpec(doc).0, true)
    ensures !HasSchedule(doc) ==> UnsetTimerSpec(SetTimer.SetTimerSpec(doc, cron)) == (doc, true)
  {
    var m := doc.vals["on"].d;
    var m2 := m.Put("schedule", SetTimer.ScheduleValue(cron));
    var s := SetTimer.SetTimerSpec(doc, cron);
    assert s == doc.Put("on", Mapping(m2));
    DeleteAfterPut(m, SetTimer.ScheduleValue(cron));
    var back := if "schedule" in m.vals then m.Delete("schedule") else m;
    PutTwice(doc, "on", Mapping(m2), Mapping(back));
    if "schedule" !in m.vals {
      PutSame(doc, "on");
    }
  }

  /** The file is written and a commit attempted exactly when a schedule was
      removed; the commit goes to the entry server's branch. */
  lemma UnsetRunGating(w: Workflow, token: Option<string>, present: set<string>, yaml: ODict<YamlValue>)
    ensures var r := UnsetTimerRun(w, token, present, yaml);
      r.Ok? ==>
        && r.value.hadSchedule == HasSchedule(yaml)
        && (r.value.written.Some? <==> HasSchedule(yaml))
        && (r.value.commit.Some? <==> HasSchedule(yaml))
        && (HasSchedule(yaml) ==>
              && r.value.written == Some(UnsetTimerSpec(yaml).0)
              && r.value.commit == Some(Commit(r.value.path, "FaaSr: Unset workflow timer for " + r.value.file, r.value.branch))
              && Ok(r.value.branch) == GetGithubActionsConfig(w, w.functionInvoke.value))
        && r.value.path in present
        && r.value.path == WorkflowYamlPath(w.functionInvoke.value)
  {
  }
}
