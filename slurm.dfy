/** The SLURM helpers of the registration script
    (scripts/register_set_unset_workflow.py:780-937): the resource settings
    of a job, chosen field by field from the action, then the server, then a
    default, and the check that a SLURM server names everything a job
    submission needs. */
module RegisterSlurm {
  import opened Base
  import opened Schema

  /** The dict `get_slurm_resource_requirements` returns. */
  datatype SlurmConfig = SlurmConfig(
    partition: string,
    nodes: int,
    tasks: int,
    cpusPerTask: int,
    memoryMb: int,
    timeLimit: int,
    workingDir: string)

  /** `a or b or d` on optional strings: the first truthy one. */
  function OrStr(a: Option<string>, b: Option<string>, d: string): string {
    if Truthy(a) then a.value else if Truthy(b) then b.value else d
  }

  /** `a or b or d` on optional integers: the first non-zero one. */
  function OrInt(a: Option<int>, b: Option<int>, d: int): int {
    if TruthyInt(a) then a.value else if TruthyInt(b) then b.value else d
  }

  /** `get_slurm_resource_requirements` (lines 894-937): `action.resources`
      is `action_config.get("Resources", {})` and `server.slurm` the same
      keys read from the server config. */
  function SlurmResources(action: Action, server: Server): SlurmConfig {
    var f, s := action.resources, server.slurm;
    SlurmConfig(
      OrStr(f.partition, s.partition, "faasr"),
      OrInt(f.nodes, s.nodes, 1),
      OrInt(f.tasks, s.tasks, 1),
      OrInt(f.cpusPerTask, s.cpusPerTask, 1),
      OrInt(f.memory, s.memory, 1024),
      OrInt(f.timeLimit, s.timeLimit, 60),
      OrStr(f.workingDirectory, s.workingDirectory, "/tmp"))
  }

  /** An independent reading of an `or` chain: the value of the first truthy
      candidate in the list. */
  function FirstTruthyStr(xs: seq<Option<string>>): Option<string> {
    if xs == [] then None else if Truthy(xs[0]) then xs[0] else FirstTruthyStr(xs[1..])
  }

  function FirstTruthyInt(xs: seq<Option<int>>): Option<int> {
    if xs == [] then None else if TruthyInt(xs[0]) then xs[0] else FirstTruthyInt(xs[1..])
  }

  /** Each field is the first truthy value among the action's, the server's
      and the default, so a falsy value (`""`, `0`) falls through exactly
      like a missing one and the result is never falsy. */
  lemma OrChains(a: Option<string>, b: Option<string>, d: string, m: Option<int>, n: Option<int>, e: int)
    requires d != "" && e != 0
    ensures Some(OrStr(a, b, d)) == FirstTruthyStr([a, b, Some(d)])
    ensures OrStr(a, b, d) != ""
    ensures Some(OrInt(m, n, e)) == FirstTruthyInt([m, n, Some(e)])
    ensures OrInt(m, n, e) != 0
  {
    assert [a, b, Some(d)][1..] == [b, Some(d)];
    assert [b, Some(d)][1..] == [Some(d)];
    assert FirstTruthyStr([Some(d)]) == Some(d);
    assert [m, n, Some(e)][1..] == [n, Some(e)];
    assert [n, Some(e)][1..] == [Some(e)];
    assert FirstTruthyInt([Some(e)]) == Some(e);
  }

  /** The fallback order for every field, stated against the reference
      reading: action first, then server, then the defaults `faasr`, 1, 1,
      1, 1024, 60 and `/tmp`. */
  lemma ResourcesFallback(action: Action, server: Server)
    ensures var r := SlurmResources(action, server); var f, s := action.resources, server.slurm;
      && Some(r.partition) == FirstTruthyStr([f.partition, s.partition, Some("faasr")])
      && Some(r.nodes) == FirstTruthyInt([f.nodes, s.nodes, Some(1)])
      && Some(r.tasks) == FirstTruthyInt([f.tasks, s.tasks, Some(1)])
      && Some(r.cpusPerTask) == FirstTruthyInt([f.cpusPerTask, s.cpusPerTask, Some(1)])
      && Some(r.memoryMb) == FirstTruthyInt([f.memory, s.memory, Some(1024)])
      && Some(r.timeLimit) == FirstTruthyInt([f.timeLimit, s.timeLimit, Some(60)])
      && Some(r.workingDir) == FirstTruthyStr([f.workingDirectory, s.workingDirectory, Some("/tmp")])
  {
    var f, s := action.resources, server.slurm;
    OrChains(f.partition, s.partition, "faasr", f.nodes, s.nodes, 1);
    OrChains(f.workingDirectory, s.workingDirectory, "/tmp", f.tasks, s.tasks, 1);
    OrChains(f.partition, s.partition, "faasr", f.cpusPerTask, s.cpusPerTask, 1);
    OrChains(f.partition, s.partition, "faasr", f.memory, s.memory, 1024);
    OrChains(f.partition, s.partition, "faasr", f.timeLimit, s.timeLimit, 60);
  }

  /** An action with no `Resources` on a server with none gets the defaults. */
  lemma ResourcesDefaults(action: Action, server: Server)
    requires action.resources == NoResources && server.slurm == NoResources
    ensures SlurmResources(action, server) == SlurmConfig("faasr", 1, 1, 1, 1024, 60, "/tmp")
  {
  }

  /** An action that sets every field truthily does not depend on the server. */
  lemma ActionOverridesServer(action: Action, s1: Server, s2: Server)
    requires var f := action.resources;
      Truthy(f.partition) && TruthyInt(f.nodes) && TruthyInt(f.tasks) && TruthyInt(f.cpusPerTask)
      && TruthyInt(f.memory) && TruthyInt(f.timeLimit) && Truthy(f.workingDirectory)
    ensures SlurmResources(action, s1) == SlurmResources(action, s2)
  {
  }

  // ---------------------------------------------------------------- validation

  /** `required_fields`, in the order they are reported. */
  const RequiredFields: seq<string> := ["Endpoint", "APIVersion", "Partition", "UserName"]

  /** `server_config.get(field)` for the required fields. */
  function FieldValue(server: Server, field: string): Option<string> {
    if field == "Endpoint" then server.endpoint
    else if field == "APIVersion" then server.apiVersion
    else if field == "Partition" then server.slurm.partition
    else if field == "UserName" then server.userName
    else None
  }

  /** `[f for f in fields if not server_config.get(f)]` */
  function MissingIn(server: Server, fields: seq<string>): seq<string> {
    if fields == [] then []
    else (if Truthy(FieldValue(server, fields[0])) then [] else [fields[0]]) + MissingIn(server, fields[1..])
  }

  datatype SlurmError = MissingFields(server: string, fields: seq<string>)

  /** `validate_slurm_server_config` (lines 780-801): the script exits
      naming the missing fields, or goes on. */
  function ValidateSlurmServer(name: string, server: Server): Result<(), SlurmError> {
    var missing := MissingIn(server, RequiredFields);
    if missing != [] then Err(MissingFields(name, missing)) else Ok(())
  }

  lemma {:induction false} MissingInMember(server: Server, fields: seq<string>, f: string)
    ensures f in MissingIn(server, fields) <==> f in fields && !Truthy(FieldValue(server, f))
  {
    if fields != [] {
      MissingInMember(server, fields[1..], f);
      assert fields == [fields[0]] + fields[1..];
    }
  }

  /** The fields reported keep the order of `fields`, each once. */
  lemma {:induction false} MissingInOrdered(server: Server, fields: seq<string>)
    requires Distinct(fields)
    ensures SubSeq(MissingIn(server, fields), fields)
    ensures Distinct(MissingIn(server, fields))
  {
    if fields != [] {
      var rest := fields[1..];
      MissingInOrdered(server, rest);
      MissingInMember(server, rest, fields[0]);
      var m := MissingIn(server, fields);
      if !Truthy(FieldValue(server, fields[0])) {
        assert m[0] == fields[0] && m[1..] == MissingIn(server, rest);
        assert fields[0] !in rest;
      } else {
        assert m == MissingIn(server, rest);
        if m != [] {
          assert SubSeq(m, rest);
        }
      }
    }
  }

  /** Validation fails exactly when one of `Endpoint`, `APIVersion`,
      `Partition`, `UserName` is missing or falsy; the report lists exactly
      those fields, each once, in that order. */
  lemma ValidateSlurmServerCorrect(name: string, server: Server)
    ensures ValidateSlurmServer(name, server).Ok? <==> forall f :: f in RequiredFields ==> Truthy(FieldValue(server, f))
    ensures ValidateSlurmServer(name, server).Err? ==>
      var missing := ValidateSlurmServer(name, server).error.fields;
      && ValidateSlurmServer(name, server).error.server == name
      && Distinct(missing)
      && (forall f :: f in missing <==> f in RequiredFields && !Truthy(FieldValue(server, f)))
      && SubSeq(missing, RequiredFields)
  {
    forall f {
      MissingInMember(server, RequiredFields, f);
    }
    MissingInOrdered(server, RequiredFields);
    var missing := MissingIn(server, RequiredFields);
    if missing != [] {
      assert missing[0] in missing;
    }
  }
}
