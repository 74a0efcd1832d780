/** The configuration model: the cluster file's releases, chart-repository
    settings and value sources, and how a value source becomes a `--set` or
    `--set-file` argument. The environment and the readable files are maps
    handed in by the caller. */
module Types {
  import opened Wrappers
  import opened Commands

  /** Why a value could not be produced. */
  datatype ValueError = NoValueProvided | NoValueFromSource | ReadFailed(path: string)

  /** os.Getenv: the empty string for an unset variable. */
  function Lookup(env: map<string, string>, key: string): string
  {
    if key in env then env[key] else ""
  }

  /** An indirect source: an environment variable or a file (the first
      non-empty one counts). */
  datatype ValueFrom = ValueFrom(environment: string, file: string) {

    /** The text of the source: a named variable's value (unset reads as
        empty), else the named file's contents; it fails only when the file
        cannot be read or nothing is named. */
    function GetValue(env: map<string, string>, files: map<string, string>): (r: Result<string, ValueError>)
      ensures environment != "" ==> r == Success(Lookup(env, environment))
      ensures environment == "" && file != "" && file in files ==> r == Success(files[file])
      ensures environment == "" && file != "" && file !in files ==> r == Failure(ReadFailed(file))
      ensures environment == "" && file == "" ==> r == Failure(NoValueFromSource)
    {
      if environment != "" then Success(Lookup(env, environment))
      else if file != "" then
        if file in files then Success(files[file]) else Failure(ReadFailed(file))
      else Failure(NoValueFromSource)
    }

    /** The argument for key `name`: `--set name=<variable's value>` or
        `--set-file name=<path>`. */
    function BuildArg(name: string, show: bool, env: map<string, string>, files: map<string, string>): (r: Result<Arg, ValueError>)
      ensures r.Failure? <==> environment == "" && file == ""
      ensures r.Success? ==> r.value.typ == ArgTypeLongParam
      ensures r.Success? && environment != "" ==>
        r.value == Arg(ArgTypeLongParam, "set", name + "=" + GetValue(env, files).value, !show)
      ensures r.Success? && environment == "" ==>
        r.value == Arg(ArgTypeLongParam, "set-file", name + "=" + file, false)
    {
      if environment != "" then
        match GetValue(env, files)
        case Failure(e) => Failure(e)
        case Success(value) => Success(Arg(ArgTypeLongParam, "set", name + "=" + value, !show))
      else if file != "" then
        Success(Arg(ArgTypeLongParam, "set-file", name + "=" + file, false))
      else Failure(NoValueFromSource)
    }
  }

  /** A value: a literal (`value`), else an indirect source; `showValue`
      lets the log show it. */
  datatype Value = Value(value: Option<string>, valueFrom: Option<ValueFrom>, showValue: bool) {

    /** True when the value names some source. */
    predicate HasSource()
    {
      value.Some? || (valueFrom.Some? && (valueFrom.value.environment != "" || valueFrom.value.file != ""))
    }

    /** The value's text: the literal verbatim, else its source's text. */
    function GetValue(env: map<string, string>, files: map<string, string>): (r: Result<string, ValueError>)
      ensures r.Failure? <==> !HasSource() || (value.None? && valueFrom.value.environment == "" && valueFrom.value.file !in files)
      ensures value.Some? ==> r == Success(value.value)
      ensures value.None? && valueFrom.Some? && valueFrom.value.environment != "" ==>
        r == Success(Lookup(env, valueFrom.value.environment))
      ensures value.None? && valueFrom.Some? && valueFrom.value.environment == ""
                && valueFrom.value.file != "" && valueFrom.value.file in files
              ==> r == Success(files[valueFrom.value.file])
    {
      if value.Some? then Success(value.value)
      else if valueFrom.Some? then valueFrom.value.GetValue(env, files)
      else Failure(NoValueProvided)
    }

    /** The argument that sets key `name` to this value. It fails exactly
        when no source is named; a `set` argument carries `name=` followed
        by what GetValue resolves and is secret unless shown; a `set-file`
        argument carries the file's path, not its contents, and is never
        secret. */
    function BuildArg(name: string, env: map<string, string>, files: map<string, string>): (r: Result<Arg, ValueError>)
      ensures r.Failure? <==> !HasSource()
      ensures r.Success? ==> r.value.typ == ArgTypeLongParam && (r.value.name == "set" || r.value.name == "set-file")
      ensures r.Success? && r.value.name == "set" ==>
        && GetValue(env, files).Success?
        && r.value.value == name + "=" + GetValue(env, files).value
        && r.value.valueSecret == !showValue
      ensures r.Success? && r.value.name == "set-file" ==>
        && value.None? && valueFrom.value.environment == ""
        && r.value.value == name + "=" + valueFrom.value.file
        && !r.value.valueSecret
    {
      if value.Some? then
        Success(Arg(ArgTypeLongParam, "set", name + "=" + value.value, !showValue))
      else if valueFrom.Some? then valueFrom.value.BuildArg(name, showValue, env, files)
      else Failure(NoValueProvided)
    }
  }

  /** One key override of a release's chart values. */
  datatype Override = Override(value: Value, target: string) {
    /** The value's argument for this override's target key. */
    function BuildArg(env: map<string, string>, files: map<string, string>): (r: Result<Arg, ValueError>)
      ensures r == value.BuildArg(target, env, files)
      ensures r.Success? ==> r.value.typ == ArgTypeLongParam
    {
      value.BuildArg(target, env, files)
    }
  }

  datatype HelmRepo = HelmRepo(name: string, url: string, username: Option<Value>, password: Option<Value>)

  /** One release. The last five fields are read by the orchestrator
      although the shipped record type does not declare them. */
  datatype Release = Release(
    name: string,
    deploymentMethod: string,
    version: string,
    chartPath: string,
    chartsSource: string,
    history: nat,
    overrides: seq<Override>,
    namespace: string,
    valueFiles: seq<string>,
    force: bool,
    waitforDeployment: seq<string>,
    waitforDaemonSet: seq<string>,
    waitforStatefulSet: seq<string>,
    kubectlFiles: seq<string>)

  /** Chart-tool settings; `skipSetupKubeConfig` is read by the
      orchestrator although the shipped record type does not declare it. */
  datatype HelmConfig = HelmConfig(
    upgrade: bool,
    skipSetupHelmRepo: bool,
    skipSetupKubeConfig: bool,
    defaultHistory: nat,
    debug: bool,
    logLevel: nat,
    serviceAccount: string,
    repos: seq<HelmRepo>,
    overrides: map<string, string>)

  datatype ClusterConfig = ClusterConfig(name: string, releases: seq<Release>, helm: HelmConfig)

  /** A literal beats an indirect source, whatever that source is. */
  lemma {:induction false} LiteralWins(v: Value, other: Option<ValueFrom>, name: string, env: map<string, string>, files: map<string, string>)
    requires v.value.Some?
    ensures v.BuildArg(name, env, files) == v.(valueFrom := other).BuildArg(name, env, files)
    ensures v.BuildArg(name, env, files) == Success(Arg(ArgTypeLongParam, "set", name + "=" + v.value.value, !v.showValue))
  {
  }

  /** An environment variable beats a file, whatever the file is. */
  lemma {:induction false} EnvironmentBeatsFile(vf: ValueFrom, otherFile: string, name: string, show: bool, env: map<string, string>, files: map<string, string>)
    requires vf.environment != ""
    ensures vf.BuildArg(name, show, env, files) == vf.(file := otherFile).BuildArg(name, show, env, files)
    ensures vf.BuildArg(name, show, env, files) == Success(Arg(ArgTypeLongParam, "set", name + "=" + Lookup(env, vf.environment), !show))
  {
  }

  /** Building the argument never reads a file: the tool is handed the
      path. */
  lemma {:induction false} BuildArgReadsNoFile(v: Value, name: string, env: map<string, string>, files1: map<string, string>, files2: map<string, string>)
    ensures v.BuildArg(name, env, files1) == v.BuildArg(name, env, files2)
  {
  }

  /** `showValue` changes only the secret bit: the argument's type, verb
      and text are the same either way. */
  lemma {:induction false} ShowValueOnlyFlipsSecret(v: Value, show: bool, name: string, env: map<string, string>, files: map<string, string>)
    ensures var a := v.BuildArg(name, env, files); var b := v.(showValue := show).BuildArg(name, env, files);
      && a.Success? == b.Success?
      && (a.Success? ==> a.value.(valueSecret := false) == b.value.(valueSecret := false))
      && (a.Success? && a.value.name == "set" ==> b.value.valueSecret == !show)
  {
  }
}
