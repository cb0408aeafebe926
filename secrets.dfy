/** `generate_github_secret_imports`
    (scripts/register_set_unset_workflow.py:120-191): the `env:` lines of a
    generated GitHub Actions workflow that import the secrets every compute
    server, data store and VM of the workflow needs. */
module RegisterSecrets {
  import opened Base
  import opened Dicts
  import opened Schema

  /** The script logs the server and exits with status 1. */
  datatype SecretError = UnknownFaaSType(server: string, faasType: string)

  /** `{name}: ${{ secrets.{name}}}` */
  function SecretLine(name: string): string {
    name + ": ${{ secrets." + name + "}}"
  }

  /** The secret names a compute server contributes by its `FaaSType`;
      `None` for a type the script does not know. */
  function ServerSecrets(server: string, faasType: string): Option<seq<string>> {
    if faasType == "GitHubActions" then Some([server + "_PAT"])
    else if faasType == "Lambda" then Some([server + "_AccessKey", server + "_SecretKey"])
    else if faasType == "OpenWhisk" then Some([server + "_APIkey"])
    else if faasType == "GoogleCloud" then Some([server + "_SecretKey"])
    else if faasType == "SLURM" then Some([server + "_Token"])
    else None
  }

  /** `compute_server.get("FaaSType", "")` */
  function TypeOf(s: ODict<Server>, n: string): string {
    if n in s.vals then s.vals[n].faasType.GetOr("") else ""
  }

  predicate KnownType(t: string) {
    t in {"GitHubActions", "Lambda", "OpenWhisk", "GoogleCloud", "SLURM"}
  }

  /** The secret names of the servers `names`, in order; the first server of
      unknown type stops the script. */
  function ServerSecretsIn(s: ODict<Server>, names: seq<string>): Result<seq<string>, SecretError> {
    if names == [] then Ok([])
    else
      match ServerSecretsIn(s, names[..|names| - 1])
      case Err(e) => Err(e)
      case Ok(xs) =>
        var n := names[|names| - 1];
        match ServerSecrets(n, TypeOf(s, n))
        case None => Err(UnknownFaaSType(n, TypeOf(s, n)))
        case Some(ys) => Ok(xs + ys)
  }

  /** Every data store contributes its access key, then its secret key. */
  function StoreSecrets(stores: seq<string>): seq<string> {
    if stores == [] then []
    else
      var n := stores[|stores| - 1];
      StoreSecrets(stores[..|stores| - 1]) + [n + "_AccessKey", n + "_SecretKey"]
  }

  /** A `VMConfig` with a truthy `Name` and provider AWS (the default)
      contributes that name's access and secret keys. */
  function VmSecrets(vm: Option<VMConfig>): seq<string> {
    if vm.Some? && Truthy(vm.value.name) && vm.value.provider.GetOr("AWS") == "AWS"
    then [vm.value.name.value + "_AccessKey", vm.value.name.value + "_SecretKey"]
    else []
  }

  function Servers(w: Workflow): ODict<Server> {
    w.servers.GetOr(Empty())
  }

  /** All secret names in the order the lines are emitted. */
  function SecretNames(w: Workflow): Result<seq<string>, SecretError> {
    match ServerSecretsIn(Servers(w), Servers(w).keys)
    case Err(e) => Err(e)
    case Ok(xs) => Ok(xs + StoreSecrets(w.dataStores) + VmSecrets(w.vmConfig))
  }

  function SecretLines(names: seq<string>): seq<string> {
    seq(|names|, i requires 0 <= i < |names| => SecretLine(names[i]))
  }

  const Indent := "                    "

  /** `"\n".join(f"{indent}{s}" for s in lines)` */
  function IndentJoin(lines: seq<string>): string {
    if lines == [] then ""
    else if |lines| == 1 then Indent + lines[0]
    else Indent + lines[0] + "\n" + IndentJoin(lines[1..])
  }

  /** The block `generate_github_secret_imports` returns. */
  function SecretImports(w: Workflow): Result<string, SecretError> {
    match SecretNames(w)
    case Err(e) => Err(e)
    case Ok(names) => Ok(IndentJoin(SecretLines(names)))
  }

  // ---------------------------------------------------------------- the generator

  lemma SecretLinesAppend(xs: seq<string>, ys: seq<string>)
    ensures SecretLines(xs + ys) == SecretLines(xs) + SecretLines(ys)
  {
  }

  /** One more server adds its secrets at the end, or stops the loop when
      its type is unknown. */
  lemma ServerSecretsStep(s: ODict<Server>, names: seq<string>, i: nat)
    requires i < |names|
    requires ServerSecretsIn(s, names[..i]).Ok?
    ensures var t := TypeOf(s, names[i]);
      ServerSecretsIn(s, names[..i + 1])
      == if ServerSecrets(names[i], t).Some? then Ok(ServerSecretsIn(s, names[..i]).value + ServerSecrets(names[i], t).value)
         else Err(UnknownFaaSType(names[i], t))
  {
    assert names[..i + 1][..i] == names[..i];
  }

  /** Once a prefix of the servers failed, so does the whole list, with the
      same error. */
  lemma {:induction false} ServerSecretsErrStays(s: ODict<Server>, names: seq<string>, k: nat)
    decreases |names|
    requires k <= |names|
    requires ServerSecretsIn(s, names[..k]).Err?
    ensures ServerSecretsIn(s, names) == ServerSecretsIn(s, names[..k])
  {
    if k < |names| {
      var init := names[..|names| - 1];
      assert init[..k] == names[..k];
      ServerSecretsErrStays(s, init, k);
    } else {
      assert names[..k] == names;
    }
  }

  /** The compute-server loop of lines 123-155: the lines of each server's
      secrets, in `ComputeServers` order; an unknown type stops it. */
  method ServerLines(s: ODict<Server>) returns (r: Result<seq<string>, SecretError>)
    requires s.Valid()
    ensures ServerSecretsIn(s, s.keys).Err? ==> r == Err(ServerSecretsIn(s, s.keys).error)
    ensures ServerSecretsIn(s, s.keys).Ok? ==> r == Ok(SecretLines(ServerSecretsIn(s, s.keys).value))
  {
    var statements: seq<string> := [];
    ghost var names: seq<string> := [];
    var i := 0;
    while i < |s.keys|
      invariant 0 <= i <= |s.keys|
      invariant ServerSecretsIn(s, s.keys[..i]) == Ok(names)
      invariant statements == SecretLines(names)
    {
      var n := s.keys[i];
      var t := s.vals[n].faasType.GetOr("");
      var known := ServerSecrets(n, t);
      assert TypeOf(s, n) == t;
      ServerSecretsStep(s, s.keys, i);
      if known.None? {
        ServerSecretsErrStays(s, s.keys, i + 1);
        return Err(UnknownFaaSType(n, t));
      }
      var added := known.value;
      SecretLinesAppend(names, added);
      statements := statements + SecretLines(added);
      names := names + added;
      i := i + 1;
    }
    assert s.keys[..i] == s.keys;
    return Ok(statements);
  }

  /** The data-store loop of lines 157-166: an access key and a secret key
      line per data store. */
  method StoreLines(stores: seq<string>) returns (statements: seq<string>)
    ensures statements == SecretLines(StoreSecrets(stores))
  {
    statements := [];
    ghost var names: seq<string> := [];
    var i := 0;
    while i < |stores|
      invariant 0 <= i <= |stores|
      invariant names == StoreSecrets(stores[..i])
      invariant statements == SecretLines(names)
    {
      assert stores[..i + 1][..i] == stores[..i];
      var n := stores[i];
      var added := [n + "_AccessKey", n + "_SecretKey"];
      SecretLinesAppend(names, added);
      statements := statements + SecretLines(added);
      names := names + added;
      i := i + 1;
    }
    assert stores[..i] == stores;
  }

  /** `generate_github_secret_imports` (lines 118-191): the server lines,
      the data-store lines and, for an AWS VM, its two key lines, indented
      and joined. */
  method GenerateGithubSecretImports(w: Workflow) returns (r: Result<string, SecretError>)
    requires w.servers.Some? ==> w.servers.value.Valid()
    ensures r == SecretImports(w)
  {
    var servers := ServerLines(Servers(w));
    if servers.Err? {
      return Err(servers.error);
    }
    ghost var names := ServerSecretsIn(Servers(w), Servers(w).keys).value;
    var stores := StoreLines(w.dataStores);
    SecretLinesAppend(names, StoreSecrets(w.dataStores));
    var statements := servers.value + stores;
    if w.vmConfig.Some? {
      var vmName := w.vmConfig.value.name;
      if Truthy(vmName) {
        var provider := w.vmConfig.value.provider.GetOr("AWS");
        if provider == "AWS" {
          var added := [vmName.value + "_AccessKey", vmName.value + "_SecretKey"];
          SecretLinesAppend(names + StoreSecrets(w.dataStores), added);
          statements := statements + SecretLines(added);
        }
      }
    }
    assert statements == SecretLines(names + StoreSecrets(w.dataStores) + VmSecrets(w.vmConfig));
    return Ok(IndentJoin(statements));
  }

  // ---------------------------------------------------------------- properties

  /** The servers' lines exist exactly when every server has a known type;
      otherwise the error names the first server, in `ComputeServers`
      order, whose type is unknown. */
  lemma {:induction false} ServerSecretsOkIff(s: ODict<Server>, names: seq<string>)
    ensures ServerSecretsIn(s, names).Ok? <==> forall i :: 0 <= i < |names| ==> KnownType(TypeOf(s, names[i]))
    ensures ServerSecretsIn(s, names).Err? ==>
      exists i :: 0 <= i < |names|
        && ServerSecretsIn(s, names).error == UnknownFaaSType(names[i], TypeOf(s, names[i]))
        && !KnownType(TypeOf(s, names[i]))
        && forall j :: 0 <= j < i ==> KnownType(TypeOf(s, names[j]))
  {
    ServerSecretsOkAll(s, names);
    ServerSecretsFirstUnknown(s, names);
  }

  lemma {:induction false} ServerSecretsOkAll(s: ODict<Server>, names: seq<string>)
    ensures ServerSecretsIn(s, names).Ok? <==> forall i :: 0 <= i < |names| ==> KnownType(TypeOf(s, names[i]))
  {
    if names != [] {
      var init := names[..|names| - 1];
      ServerSecretsOkAll(s, init);
      assert forall i :: 0 <= i < |init| ==> init[i] == names[i];
      var last := names[|names| - 1];
      assert ServerSecrets(last, TypeOf(s, last)).Some? <==> KnownType(TypeOf(s, last));
    }
  }

  lemma {:induction false} ServerSecretsFirstUnknown(s: ODict<Server>, names: seq<string>)
    ensures ServerSecretsIn(s, names).Err? ==>
      exists i :: 0 <= i < |names|
        && ServerSecretsIn(s, names).error == UnknownFaaSType(names[i], TypeOf(s, names[i]))
        && !KnownType(TypeOf(s, names[i]))
        && forall j :: 0 <= j < i ==> KnownType(TypeOf(s, names[j]))
  {
    if names != [] {
      var init := names[..|names| - 1];
      assert forall i :: 0 <= i < |init| ==> init[i] == names[i];
      if ServerSecretsIn(s, init).Err? {
        ServerSecretsFirstUnknown(s, init);
      } else {
        ServerSecretsOkAll(s, init);
        var last := |names| - 1;
        assert ServerSecretsIn(s, names).Err? ==> !KnownType(TypeOf(s, names[last]));
      }
    }
  }

  /** Every name a server of known type contributes is the server's name
      followed by `_`, and a Lambda server contributes two names, any other
      known type one. */
  lemma ServerSecretsShape(server: string, t: string)
    requires KnownType(t)
    ensures ServerSecrets(server, t).Some?
    ensures |ServerSecrets(server, t).value| == if t == "Lambda" then 2 else 1
    ensures forall x :: x in ServerSecrets(server, t).value ==> StartsWith(x, server + "_")
  {
    var xs := ServerSecrets(server, t).value;
    forall x | x in xs
      ensures StartsWith(x, server + "_")
    {
      assert x[..|server + "_"|] == server + "_";
    }
  }

  /** Each data store contributes exactly two names, the access key at the
      even position and the secret key right after it. */
  lemma {:induction false} StoreSecretsLayout(stores: seq<string>)
    ensures |StoreSecrets(stores)| == 2 * |stores|
    ensures forall i :: 0 <= i < |stores| ==>
      StoreSecrets(stores)[2 * i] == stores[i] + "_AccessKey" && StoreSecrets(stores)[2 * i + 1] == stores[i] + "_SecretKey"
  {
    if stores != [] {
      var init := stores[..|stores| - 1];
      StoreSecretsLayout(init);
      assert forall i :: 0 <= i < |init| ==> init[i] == stores[i];
    }
  }

  /** `str.split("\n")` */
  function SplitLines(s: string): seq<string>
    ensures |SplitLines(s)| >= 1
  {
    if s == [] then [""]
    else
      var rest := SplitLines(s[1..]);
      if s[0] == '\n' then [""] + rest else [[s[0]] + rest[0]] + rest[1..]
  }

  lemma {:induction false} SplitWithout(a: string)
    requires '\n' !in a
    ensures SplitLines(a) == [a]
  {
    if a != [] {
      SplitWithout(a[1..]);
      assert [a[0]] + a[1..] == a;
    }
  }

  lemma {:induction false} SplitAt(a: string, b: string)
    requires '\n' !in a
    ensures SplitLines(a + "\n" + b) == [a] + SplitLines(b)
  {
    if a == [] {
      assert a + "\n" + b == ['\n'] + b;
      assert (['\n'] + b)[1..] == b;
    } else {
      var s := a + "\n" + b;
      assert s[1..] == a[1..] + "\n" + b;
      SplitAt(a[1..], b);
      assert [a[0]] + a[1..] == a;
    }
  }

  /** Splitting the block at newlines gives back the lines, each behind the
      20-space indent, as long as no line holds a newline itself. */
  lemma {:induction false} SplitIndentJoin(lines: seq<string>)
    requires lines != []
    requires forall l :: l in lines ==> '\n' !in l
    ensures SplitLines(IndentJoin(lines)) == seq(|lines|, i requires 0 <= i < |lines| => Indent + lines[i])
  {
    assert '\n' !in Indent + lines[0] by {
      assert lines[0] in lines;
      assert forall k :: 0 <= k < |Indent + lines[0]| ==> (Indent + lines[0])[k] == if k < |Indent| then ' ' else lines[0][k - |Indent|];
    }
    if |lines| == 1 {
      SplitWithout(Indent + lines[0]);
    } else {
      var rest := lines[1..];
      assert forall l :: l in rest ==> l in lines;
      SplitIndentJoin(rest);
      SplitAt(Indent + lines[0], IndentJoin(rest));
    }
  }
}
