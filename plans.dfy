/** What the orchestrator asks the external tools to do: the binaries, the
    argument lists of every command it builds, the order of value files and
    overrides, the manifest-directory filter, and the errors it reports. */
module Plans {
  import opened Wrappers
  import opened Text
  import opened System
  import opened Commands
  import opened Types

  /** The tool binaries. Their values are assumed: the package that defines
      them is not part of this model. */
  const HelmBin: string := "helm"
  const KubectlBin: string := "kubectl"
  const WgetBin: string := "wget"
  const TarBin: string := "tar"

  /** The kubectl binary the orchestrator names itself, used to select the
      context. */
  const LocalKubectlBin: string := "kubectl"

  const DownloadsDir: string := "./downloads"

  /** What the orchestrator was doing when something failed; each wraps the
      cause the way the corresponding error message does. */
  datatype Op =
    | InitKubeconfig | CreatingKubeconfig | SettingContext
    | AddingHelmRepo | UpdatingHelmRepos | RepoUsername | RepoPassword | AddingRepo(repo: string)
    | InstallingAddon(release: string) | RunningHelm | DownloadingCharts | CreatingDownloads
    | ParsingChartsUrl | ExtractingArchive | RenderingChart
    | WaitingFor(kind: string, resource: string) | WaitReady | RolloutStatus
    | AccessingPath(path: string) | ReadingDirectory(dir: string) | ApplyingFile(file: string)
    | ReadingClusterConfig

  datatype Error =
    | CommandFailed                     // an external program exited non-zero
    | ValueUnavailable(ValueError)
    | IOFailed(IOError)
    | UrlInvalid(url: string)
    | ConfigUnreadable(path: string)
    | Aborted                           // log.Fatalf: the process stops here
    | Because(op: Op, cause: Error)

  function Raw(v: string): Arg
  {
    Arg(ArgTypeRaw, "", v, false)
  }

  function Long(name: string, v: string): Arg
  {
    Arg(ArgTypeLongParam, name, v, false)
  }

  /** A `-f <path>` value file. */
  function ValueFileArg(path: string): Arg
  {
    Arg(ArgTypeShortParam, "f", path, false)
  }

  /** A long flag that is only added for a non-empty value. */
  function IfSet(name: string, v: string): seq<Arg>
  {
    if v != "" then [Long(name, v)] else []
  }

  /** Every part is a flag (takes two argv words). */
  predicate AllFlags(parts: seq<Arg>)
  {
    forall i :: 0 <= i < |parts| ==> parts[i].IsFlag()
  }

  /** Some flag part is named `name`. */
  predicate HasFlag(parts: seq<Arg>, name: string)
  {
    exists i :: 0 <= i < |parts| && parts[i].IsFlag() && parts[i].name == name
  }

  // ---------------------------------------------------------------- overrides

  function DefaultValuesPath(release: string): string
  {
    "values/" + release + "/default.yaml"
  }

  function ClusterValuesPath(release: string, cluster: string): string
  {
    "values/" + release + "/" + cluster + ".yaml"
  }

  /** The run-level value files, trimmed, in order. */
  function CliFileArgs(valueFiles: seq<string>): seq<Arg>
  {
    seq(|valueFiles|, i requires 0 <= i < |valueFiles| => ValueFileArg(TrimSpace(valueFiles[i])))
  }

  /** One more run-level file adds its trimmed `-f` argument. */
  lemma {:induction false} CliFileArgsSnoc(valueFiles: seq<string>, i: nat)
    requires i < |valueFiles|
    ensures CliFileArgs(valueFiles[..i + 1]) == CliFileArgs(valueFiles[..i]) + [ValueFileArg(TrimSpace(valueFiles[i]))]
  {
    var a, b := CliFileArgs(valueFiles[..i + 1]), CliFileArgs(valueFiles[..i]) + [ValueFileArg(TrimSpace(valueFiles[i]))];
    assert |a| == |b|;
    forall k | 0 <= k < |a|
      ensures a[k] == b[k]
    {
      assert valueFiles[..i + 1][k] == valueFiles[k];
    }
  }

  /** The release's value files that exist, in order. */
  function ExistingFileArgs(paths: seq<string>, stat: map<string, bool>): (r: seq<Arg>)
    ensures |r| <= |paths|
    ensures forall i :: 0 <= i < |r| ==> r[i] == ValueFileArg(r[i].value) && r[i].value in paths && Exists(stat, r[i].value)
  {
    if paths == [] then []
    else
      var q := paths[|paths| - 1];
      ExistingFileArgs(paths[..|paths| - 1], stat) + (if Exists(stat, q) then [ValueFileArg(q)] else [])
  }

  /** The arguments of the overrides that build, in order. */
  function OverrideArgs(ovs: seq<Override>, env: map<string, string>, files: map<string, string>): (r: seq<Arg>)
    ensures |r| <= |ovs|
    ensures forall i :: 0 <= i < |r| ==> r[i].typ == ArgTypeLongParam && (r[i].name == "set" || r[i].name == "set-file")
  {
    if ovs == [] then []
    else
      var rest := OverrideArgs(ovs[..|ovs| - 1], env, files);
      match ovs[|ovs| - 1].BuildArg(env, files)
      case Success(a) => rest + [a]
      case Failure(_) => rest
  }

  /** The `-f` arguments: run-level files, the release default, the
      release's existing files, the cluster-specific file. */
  function FileArgs(valueFiles: seq<string>, cluster: string, r: Release, stat: map<string, bool>): seq<Arg>
  {
    CliFileArgs(valueFiles)
    + (if Exists(stat, DefaultValuesPath(r.name)) then [ValueFileArg(DefaultValuesPath(r.name))] else [])
    + ExistingFileArgs(r.valueFiles, stat)
    + (if cluster != "" && Exists(stat, ClusterValuesPath(r.name, cluster)) then [ValueFileArg(ClusterValuesPath(r.name, cluster))] else [])
  }

  /** All value arguments of a release's chart command. */
  function Overrides(valueFiles: seq<string>, cluster: string, r: Release, stat: map<string, bool>,
                     env: map<string, string>, files: map<string, string>): seq<Arg>
  {
    FileArgs(valueFiles, cluster, r, stat) + OverrideArgs(r.overrides, env, files)
  }

  /** The layout of the value arguments: first the run-level files (trimmed,
      in order), then further `-f` files that all exist, with the release
      default right after the run-level files when it exists and the cluster
      file last when named and present; after every `-f` come only `--set`
      and `--set-file` arguments. No value argument is secret except a
      `--set` whose value is not shown. */
  lemma {:induction false} OverridesLayout(valueFiles: seq<string>, cluster: string, r: Release, stat: map<string, bool>,
                        env: map<string, string>, files: map<string, string>)
    ensures var ov := Overrides(valueFiles, cluster, r, stat, env, files);
            var n := |FileArgs(valueFiles, cluster, r, stat)|;
      && |valueFiles| <= n <= |ov|
      && (forall i :: 0 <= i < |valueFiles| ==> ov[i] == ValueFileArg(TrimSpace(valueFiles[i])))
      && (forall i :: |valueFiles| <= i < n ==> ov[i] == ValueFileArg(ov[i].value) && Exists(stat, ov[i].value))
      && (Exists(stat, DefaultValuesPath(r.name)) ==> ov[|valueFiles|] == ValueFileArg(DefaultValuesPath(r.name)))
      && (cluster != "" && Exists(stat, ClusterValuesPath(r.name, cluster)) ==> ov[n - 1] == ValueFileArg(ClusterValuesPath(r.name, cluster)))
      && (forall i :: n <= i < |ov| ==> ov[i].typ == ArgTypeLongParam && (ov[i].name == "set" || ov[i].name == "set-file"))
      && AllFlags(ov)
  {
  }

  /** An argument is among the override arguments exactly when some
      override builds it: failing overrides are skipped, not fatal. */
  lemma {:induction false} OverrideArgsExactly(ovs: seq<Override>, env: map<string, string>, files: map<string, string>, a: Arg)
    ensures a in OverrideArgs(ovs, env, files) <==> exists i :: 0 <= i < |ovs| && ovs[i].BuildArg(env, files) == Success(a)
  {
    if a in OverrideArgs(ovs, env, files) {
      var i := OverrideArgsSound(ovs, env, files, a);
    }
    if exists i :: 0 <= i < |ovs| && ovs[i].BuildArg(env, files) == Success(a) {
      var i :| 0 <= i < |ovs| && ovs[i].BuildArg(env, files) == Success(a);
      OverrideArgsComplete(ovs, env, files, i);
    }
  }

  /** Every override argument was built by some override. */
  lemma {:induction false} OverrideArgsSound(ovs: seq<Override>, env: map<string, string>, files: map<string, string>, a: Arg) returns (i: nat)
    requires a in OverrideArgs(ovs, env, files)
    ensures i < |ovs| && ovs[i].BuildArg(env, files) == Success(a)
  {
    var n := |ovs| - 1;
    var rest := OverrideArgs(ovs[..n], env, files);
    var b := ovs[n].BuildArg(env, files);
    assert OverrideArgs(ovs, env, files) == if b.Success? then rest + [b.value] else rest;
    if a in rest {
      i := OverrideArgsSound(ovs[..n], env, files, a);
      assert ovs[..n][i] == ovs[i];
    } else {
      i := n;
    }
  }

  /** Every override that builds contributes its argument. */
  lemma {:induction false} OverrideArgsComplete(ovs: seq<Override>, env: map<string, string>, files: map<string, string>, i: nat)
    requires i < |ovs| && ovs[i].BuildArg(env, files).Success?
    ensures ovs[i].BuildArg(env, files).value in OverrideArgs(ovs, env, files)
  {
    var n := |ovs| - 1;
    var rest := OverrideArgs(ovs[..n], env, files);
    var b := ovs[n].BuildArg(env, files);
    assert OverrideArgs(ovs, env, files) == if b.Success? then rest + [b.value] else rest;
    if i < n {
      assert ovs[..n][i] == ovs[i];
      OverrideArgsComplete(ovs[..n], env, files, i);
    }
  }

  /** When every override builds, there is one argument per override, in
      the overrides' order. */
  lemma {:induction false} OverrideArgsAllBuild(ovs: seq<Override>, env: map<string, string>, files: map<string, string>)
    requires forall i :: 0 <= i < |ovs| ==> ovs[i].BuildArg(env, files).Success?
    ensures |OverrideArgs(ovs, env, files)| == |ovs|
    ensures forall i :: 0 <= i < |ovs| ==> OverrideArgs(ovs, env, files)[i] == ovs[i].BuildArg(env, files).value
  {
    if ovs != [] {
      var n := |ovs| - 1;
      OverrideArgsAllBuild(ovs[..n], env, files);
      assert forall i :: 0 <= i < n ==> ovs[..n][i] == ovs[i];
    }
  }

  /** A release value file is passed exactly when it is listed and exists. */
  lemma {:induction false} ExistingFileArgsExactly(paths: seq<string>, stat: map<string, bool>, q: string)
    ensures ValueFileArg(q) in ExistingFileArgs(paths, stat) <==> q in paths && Exists(stat, q)
  {
    if paths != [] {
      var n := |paths| - 1;
      ExistingFileArgsExactly(paths[..n], stat, q);
      if q in paths && Exists(stat, q) && q != paths[n] {
        var i :| 0 <= i < |paths| && paths[i] == q;
        assert paths[..n][i] == q;
      }
    }
  }

  /** The value-file test, for any names: run-level files without white
      space at either end, a release with no value files and no overrides,
      no cluster and nothing on disk give exactly one non-secret `-f`
      argument per file, with the name as given, in order. */
  lemma {:induction false} OverridesRunLevelOnly(valueFiles: seq<string>, r: Release, env: map<string, string>, files: map<string, string>)
    requires forall i :: 0 <= i < |valueFiles| ==> Untrimmable(valueFiles[i])
    requires r.valueFiles == [] && r.overrides == []
    ensures var ov := Overrides(valueFiles, "", r, map[], env, files);
      && |ov| == |valueFiles|
      && forall i :: 0 <= i < |ov| ==> ov[i] == ValueFileArg(valueFiles[i]) && !ov[i].valueSecret
  {
    var ov := Overrides(valueFiles, "", r, map[], env, files);
    assert ExistingFileArgs(r.valueFiles, map[]) == [];
    assert OverrideArgs(r.overrides, env, files) == [];
    assert ov == CliFileArgs(valueFiles);
    forall i | 0 <= i < |ov|
      ensures ov[i] == ValueFileArg(valueFiles[i])
    {
      TrimSpaceKeeps(valueFiles[i]);
    }
  }

  /** A non-empty name without white space at either end. */
  predicate Untrimmable(s: string)
  {
    s != [] && !IsSpace(s[0]) && !IsSpace(s[|s| - 1])
  }

  /** The override tests: a literal override becomes `--set image.tag=test`,
      secret unless shown. */
  lemma {:induction false} OverridesExampleLiteral(show: bool)
    ensures var o := Override(Value(Some("test"), None, show), "image.tag");
            var ov := Overrides([], "", Release("", "", "", "", "", 0, [o], "", [], false, [], [], [], []), map[], map[], map[]);
      && |ov| == 1
      && ov[0].name == "set" && ov[0].value == "image.tag=test" && ov[0].valueSecret == !show
  {
    var o := Override(Value(Some("test"), None, show), "image.tag");
    assert [o][..0] == [];
  }

  // ------------------------------------------------------------- chart tool

  function DiffPrefix(): seq<Arg>
  {
    [Raw("diff"), Raw("upgrade"), Raw("--allow-unreleased"), Raw("--suppress-secrets")]
  }

  /** `--history-max`: the release's own limit, else the default, else none. */
  function HistoryArgs(history: nat, defaultHistory: nat): seq<Arg>
  {
    if history > 0 then [Long("history-max", NatToString(history))]
    else if defaultHistory > 0 then [Long("history-max", NatToString(defaultHistory))]
    else []
  }

  function InstallPrefix(r: Release, defaultHistory: nat): seq<Arg>
  {
    [Raw("upgrade"), Raw("--install")] + HistoryArgs(r.history, defaultHistory) + (if r.force then [Raw("--force")] else [])
  }

  /** Release, chart, version and context; the context flag is passed even
      when empty. */
  function HelmTarget(r: Release, kubeContext: string): seq<Arg>
  {
    [Raw(r.name), Raw(r.chartPath), Long("version", r.version), Long("kube-context", kubeContext)]
  }

  function HelmOptions(diffrun: bool, r: Release, helm: HelmConfig): seq<Arg>
  {
    (if helm.debug then [Raw("--debug")] else [])
    + (if r.namespace != "" then [Long("namespace", r.namespace)] + (if !diffrun then [Raw("--create-namespace")] else []) else [])
    + (if helm.logLevel != 0 then [Long("v", NatToString(helm.logLevel))] else [])
  }

  /** Everything after the mode words: target, options, value arguments
      and, last, the dry-run switch. */
  function HelmBody(diffrun: bool, dryrun: bool, r: Release, helm: HelmConfig, kubeContext: string, ov: seq<Arg>): seq<Arg>
  {
    HelmTarget(r, kubeContext) + HelmOptions(diffrun, r, helm) + ov + (if dryrun then [Raw("--dry-run")] else [])
  }

  /** The parts of the chart tool's install (or diff) command for a release
      whose value arguments are `ov`. */
  function HelmParts(diffrun: bool, dryrun: bool, r: Release, helm: HelmConfig, kubeContext: string, ov: seq<Arg>): seq<Arg>
  {
    (if diffrun then DiffPrefix() else InstallPrefix(r, helm.defaultHistory)) + HelmBody(diffrun, dryrun, r, helm, kubeContext, ov)
  }

  /** The install command splits at its value arguments: what comes before
      them does not depend on them. */
  lemma {:induction false} HelmPartsAround(diffrun: bool, dryrun: bool, r: Release, helm: HelmConfig, kubeContext: string, ov: seq<Arg>)
    ensures HelmParts(diffrun, dryrun, r, helm, kubeContext, ov)
      == ((if diffrun then DiffPrefix() else InstallPrefix(r, helm.defaultHistory)) + HelmTarget(r, kubeContext) + HelmOptions(diffrun, r, helm))
         + ov + (if dryrun then [Raw("--dry-run")] else [])
  {
  }

  /** The history limit is passed when the release or the default sets one,
      in decimal, and it reads back as the release's limit when set, else
      the default. */
  lemma {:induction false} HistoryArgsValue(history: nat, defaultHistory: nat)
    ensures |HistoryArgs(history, defaultHistory)| <= 1
    ensures HistoryArgs(history, defaultHistory) != [] <==> history > 0 || defaultHistory > 0
    ensures HistoryArgs(history, defaultHistory) != [] ==>
      var a := HistoryArgs(history, defaultHistory)[0];
      && a.typ == ArgTypeLongParam && a.name == "history-max" && !a.valueSecret
      && DecimalValue(a.value) == (if history > 0 then history else defaultHistory)
  {
    DecimalRoundTrip(history);
    DecimalRoundTrip(defaultHistory);
  }

  /** The command's first words: `helm diff upgrade --allow-unreleased
      --suppress-secrets` in diff mode, `helm upgrade --install` otherwise. */
  lemma {:induction false} HelmCommandPrefix(diffrun: bool, dryrun: bool, r: Release, helm: HelmConfig, kubeContext: string, ov: seq<Arg>)
    ensures var argv := CommandLine(HelmBin, HelmParts(diffrun, dryrun, r, helm, kubeContext, ov));
      && (diffrun ==> |argv| >= 5 && argv[..5] == [HelmBin, "diff", "upgrade", "--allow-unreleased", "--suppress-secrets"])
      && (!diffrun ==> |argv| >= 3 && argv[..3] == [HelmBin, "upgrade", "--install"])
  {
    var body := HelmBody(diffrun, dryrun, r, helm, kubeContext, ov);
    if diffrun {
      assert HelmParts(diffrun, dryrun, r, helm, kubeContext, ov) == DiffPrefix() + body;
      DiffCommandPrefix(body);
    } else {
      var rest := HistoryArgs(r.history, helm.defaultHistory) + (if r.force then [Raw("--force")] else []) + body;
      assert HelmParts(diffrun, dryrun, r, helm, kubeContext, ov) == [Raw("upgrade"), Raw("--install")] + rest;
      InstallCommandPrefix(rest);
    }
  }

  lemma {:induction false} DiffCommandPrefix(body: seq<Arg>)
    ensures var argv := CommandLine(HelmBin, DiffPrefix() + body);
      |argv| >= 5 && argv[..5] == [HelmBin, "diff", "upgrade", "--allow-unreleased", "--suppress-secrets"]
  {
    ArgvAppend(DiffPrefix(), body);
    DiffPrefixArgv();
    var p := [HelmBin, "diff", "upgrade", "--allow-unreleased", "--suppress-secrets"];
    assert [HelmBin] + (["diff", "upgrade", "--allow-unreleased", "--suppress-secrets"] + Argv(body)) == p + Argv(body);
    PrefixOfAppend(p, Argv(body));
  }

  lemma {:induction false} InstallCommandPrefix(rest: seq<Arg>)
    ensures var argv := CommandLine(HelmBin, [Raw("upgrade"), Raw("--install")] + rest);
      |argv| >= 3 && argv[..3] == [HelmBin, "upgrade", "--install"]
  {
    ArgvAppend([Raw("upgrade"), Raw("--install")], rest);
    InstallHeadArgv();
    var p := [HelmBin, "upgrade", "--install"];
    assert [HelmBin] + (["upgrade", "--install"] + Argv(rest)) == p + Argv(rest);
    PrefixOfAppend(p, Argv(rest));
  }

  lemma {:induction false} PrefixOfAppend<T>(p: seq<T>, q: seq<T>)
    ensures |p + q| >= |p| && (p + q)[..|p|] == p
  {
  }

  lemma {:induction false} DiffPrefixArgv()
    ensures Argv(DiffPrefix()) == ["diff", "upgrade", "--allow-unreleased", "--suppress-secrets"]
  {
    ArgvPair(Raw("diff"), Raw("upgrade"));
    ArgvPair(Raw("--allow-unreleased"), Raw("--suppress-secrets"));
    ArgvAppend([Raw("diff"), Raw("upgrade")], [Raw("--allow-unreleased"), Raw("--suppress-secrets")]);
    assert DiffPrefix() == [Raw("diff"), Raw("upgrade")] + [Raw("--allow-unreleased"), Raw("--suppress-secrets")];
  }

  lemma {:induction false} InstallHeadArgv()
    ensures Argv([Raw("upgrade"), Raw("--install")]) == ["upgrade", "--install"]
  {
    ArgvPair(Raw("upgrade"), Raw("--install"));
  }

  /** `--dry-run` is the last word exactly in a dry run, in diff mode too. */
  lemma {:induction false} HelmDryRunLast(diffrun: bool, dryrun: bool, r: Release, helm: HelmConfig, kubeContext: string, ov: seq<Arg>)
    requires AllFlags(ov) && r.name != "--dry-run" && r.chartPath != "--dry-run"
    ensures var parts := HelmParts(diffrun, dryrun, r, helm, kubeContext, ov);
      && (Raw("--dry-run") in parts <==> dryrun)
      && (dryrun ==> parts[|parts| - 1] == Raw("--dry-run") && Argv(parts)[|Argv(parts)| - 1] == "--dry-run")
  {
    var x := Raw("--dry-run");
    var head := (if diffrun then DiffPrefix() else InstallPrefix(r, helm.defaultHistory)) + HelmTarget(r, kubeContext) + HelmOptions(diffrun, r, helm);
    var d: seq<Arg> := if dryrun then [x] else [];
    HelmPartsAround(diffrun, dryrun, r, helm, kubeContext, ov);
    DryRunNotBefore(diffrun, r, helm, kubeContext, ov);
    NotInAppend(head + ov, d, x);
    if dryrun {
      ArgvSnoc(head + ov, x);
    }
  }

  /** Nothing before the dry-run switch is the switch itself. */
  lemma {:induction false} DryRunNotBefore(diffrun: bool, r: Release, helm: HelmConfig, kubeContext: string, ov: seq<Arg>)
    requires AllFlags(ov) && r.name != "--dry-run" && r.chartPath != "--dry-run"
    ensures Raw("--dry-run") !in (if diffrun then DiffPrefix() else InstallPrefix(r, helm.defaultHistory)) + HelmTarget(r, kubeContext) + HelmOptions(diffrun, r, helm) + ov
  {
    var x := Raw("--dry-run");
    var mode := if diffrun then DiffPrefix() else InstallPrefix(r, helm.defaultHistory);
    var t := HelmTarget(r, kubeContext);
    var o := HelmOptions(diffrun, r, helm);
    assert x !in mode by {
      if !diffrun {
        var hs := HistoryArgs(r.history, helm.defaultHistory);
        assert hs == [] || hs[0].typ == ArgTypeLongParam;
        NotInAppend([Raw("upgrade"), Raw("--install")] + hs, if r.force then [Raw("--force")] else [], x);
        NotInAppend([Raw("upgrade"), Raw("--install")], hs, x);
      }
    }
    assert x !in o by {
      var dbg: seq<Arg> := if helm.debug then [Raw("--debug")] else [];
      var ns: seq<Arg> := if r.namespace != "" then [Long("namespace", r.namespace)] + (if !diffrun then [Raw("--create-namespace")] else []) else [];
      var lv: seq<Arg> := if helm.logLevel != 0 then [Long("v", NatToString(helm.logLevel))] else [];
      assert o == dbg + ns + lv;
      NotInAppend(dbg, ns, x);
      NotInAppend(dbg + ns, lv, x);
    }
    assert forall i :: 0 <= i < |ov| ==> ov[i] != x;
    NotInAppend(mode, t, x);
    NotInAppend(mode + t, o, x);
    NotInAppend(mode + t + o, ov, x);
  }

  /** An element lies in a concatenation exactly when it lies in a half. */
  lemma {:induction false} NotInAppend<T>(xs: seq<T>, ys: seq<T>, x: T)
    ensures x in xs + ys <==> x in xs || x in ys
  {
  }

  /** `--force` only outside diff mode and only when the release asks. */
  lemma {:induction false} HelmForce(diffrun: bool, dryrun: bool, r: Release, helm: HelmConfig, kubeContext: string, ov: seq<Arg>)
    requires AllFlags(ov) && r.name != "--force" && r.chartPath != "--force"
    ensures Raw("--force") in HelmParts(diffrun, dryrun, r, helm, kubeContext, ov) <==> !diffrun && r.force
  {
    var x := Raw("--force");
    var mode := if diffrun then DiffPrefix() else InstallPrefix(r, helm.defaultHistory);
    var d: seq<Arg> := if dryrun then [Raw("--dry-run")] else [];
    HelmPartsAround(diffrun, dryrun, r, helm, kubeContext, ov);
    InFive(mode, HelmTarget(r, kubeContext), HelmOptions(diffrun, r, helm), ov, d, x);
    assert x in mode <==> !diffrun && r.force by {
      if !diffrun {
        var hs := HistoryArgs(r.history, helm.defaultHistory);
        assert hs == [] || hs[0].typ == ArgTypeLongParam;
        NotInAppend([Raw("upgrade"), Raw("--install")] + hs, if r.force then [x] else [], x);
        NotInAppend([Raw("upgrade"), Raw("--install")], hs, x);
      }
    }
    assert x !in ov by {
      assert forall i :: 0 <= i < |ov| ==> ov[i] != x;
    }
  }

  /** `--create-namespace` only outside diff mode and only with a namespace. */
  lemma {:induction false} HelmCreateNamespace(diffrun: bool, dryrun: bool, r: Release, helm: HelmConfig, kubeContext: string, ov: seq<Arg>)
    requires AllFlags(ov) && r.name != "--create-namespace" && r.chartPath != "--create-namespace"
    ensures Raw("--create-namespace") in HelmParts(diffrun, dryrun, r, helm, kubeContext, ov) <==> !diffrun && r.namespace != ""
  {
    var x := Raw("--create-namespace");
    var mode := if diffrun then DiffPrefix() else InstallPrefix(r, helm.defaultHistory);
    var d: seq<Arg> := if dryrun then [Raw("--dry-run")] else [];
    HelmPartsAround(diffrun, dryrun, r, helm, kubeContext, ov);
    InFive(mode, HelmTarget(r, kubeContext), HelmOptions(diffrun, r, helm), ov, d, x);
    assert x !in mode by {
      if !diffrun {
        var hs := HistoryArgs(r.history, helm.defaultHistory);
        assert hs == [] || hs[0].typ == ArgTypeLongParam;
        NotInAppend([Raw("upgrade"), Raw("--install")] + hs, if r.force then [Raw("--force")] else [], x);
        NotInAppend([Raw("upgrade"), Raw("--install")], hs, x);
      }
    }
    assert x in HelmOptions(diffrun, r, helm) <==> !diffrun && r.namespace != "" by {
      var dbg: seq<Arg> := if helm.debug then [Raw("--debug")] else [];
      var ns: seq<Arg> := if r.namespace != "" then [Long("namespace", r.namespace)] + (if !diffrun then [x] else []) else [];
      var lv: seq<Arg> := if helm.logLevel != 0 then [Long("v", NatToString(helm.logLevel))] else [];
      assert HelmOptions(diffrun, r, helm) == dbg + ns + lv;
      NotInAppend(dbg, ns, x);
      NotInAppend(dbg + ns, lv, x);
    }
    assert x !in ov by {
      assert forall i :: 0 <= i < |ov| ==> ov[i] != x;
    }
  }

  /** An element lies in a command of five pieces exactly when it lies in
      one of them. */
  lemma {:induction false} InFive<T>(a: seq<T>, b: seq<T>, c: seq<T>, d: seq<T>, e: seq<T>, x: T)
    ensures x in a + b + c + d + e <==> x in a || x in b || x in c || x in d || x in e
  {
    NotInAppend(a, b, x);
    NotInAppend(a + b, c, x);
    NotInAppend(a + b + c, d, x);
    NotInAppend(a + b + c + d, e, x);
  }

  /** Every flag among `parts` has one of the `names`. */
  predicate FlagsAmong(parts: seq<Arg>, names: set<string>)
  {
    forall a :: a in parts && a.IsFlag() ==> a.name in names
  }

  /** The chart command always carries the version and the context (even
      when empty). */
  lemma {:induction false} HelmTargetFlags(diffrun: bool, dryrun: bool, r: Release, helm: HelmConfig, kubeContext: string, ov: seq<Arg>)
    ensures var parts := HelmParts(diffrun, dryrun, r, helm, kubeContext, ov);
      && Long("version", r.version) in parts
      && Long("kube-context", kubeContext) in parts
  {
    var t := HelmTarget(r, kubeContext);
    assert t[2] == Long("version", r.version) && t[3] == Long("kube-context", kubeContext);
  }

  /** The chart command names a namespace exactly when the release sets
      one, and carries a history limit only outside diff mode when one is
      configured, so long as the value arguments are `-f`, `--set` and
      `--set-file` flags. */
  lemma {:induction false} HelmFlags(diffrun: bool, dryrun: bool, r: Release, helm: HelmConfig, kubeContext: string, ov: seq<Arg>)
    requires FlagsAmong(ov, {"f", "set", "set-file"})
    ensures var parts := HelmParts(diffrun, dryrun, r, helm, kubeContext, ov);
      && (HasFlag(parts, "namespace") <==> r.namespace != "")
      && (HasFlag(parts, "history-max") <==> !diffrun && (r.history > 0 || helm.defaultHistory > 0))
  {
    var mode := if diffrun then DiffPrefix() else InstallPrefix(r, helm.defaultHistory);
    var t := HelmTarget(r, kubeContext);
    var o := HelmOptions(diffrun, r, helm);
    var d: seq<Arg> := if dryrun then [Raw("--dry-run")] else [];
    HelmPartsAround(diffrun, dryrun, r, helm, kubeContext, ov);
    ModeFlags(diffrun, r, helm.defaultHistory);
    TargetFlags(r, kubeContext);
    OptionsFlags(diffrun, r, helm);
    assert !HasFlag(ov, "namespace") && !HasFlag(ov, "history-max");
    assert !HasFlag(d, "namespace") && !HasFlag(d, "history-max");
    FlagFromPieces(mode, t, o, ov, d, "namespace", r.namespace != "");
    FlagFromPieces(mode, t, o, ov, d, "history-max", !diffrun && (r.history > 0 || helm.defaultHistory > 0));
  }

  lemma {:induction false} FlagFromPieces(a: seq<Arg>, b: seq<Arg>, c: seq<Arg>, d: seq<Arg>, e: seq<Arg>, name: string, expected: bool)
    requires HasFlag(a, name) || HasFlag(b, name) || HasFlag(c, name) || HasFlag(d, name) || HasFlag(e, name) <==> expected
    ensures HasFlag(a + b + c + d + e, name) <==> expected
  {
    HasFlagSplit(a, b, c, d, e, name);
  }

  /** The mode words carry at most the history limit. */
  lemma {:induction false} ModeFlags(diffrun: bool, r: Release, defaultHistory: nat)
    ensures var mode := if diffrun then DiffPrefix() else InstallPrefix(r, defaultHistory);
      && !HasFlag(mode, "namespace")
      && (HasFlag(mode, "history-max") <==> !diffrun && (r.history > 0 || defaultHistory > 0))
  {
    if !diffrun {
      var hs := HistoryArgs(r.history, defaultHistory);
      var mode := InstallPrefix(r, defaultHistory);
      assert mode == [Raw("upgrade"), Raw("--install")] + hs + (if r.force then [Raw("--force")] else []);
      if hs != [] {
        assert mode[2] == hs[0];
      }
    }
  }

  lemma {:induction false} TargetFlags(r: Release, kubeContext: string)
    ensures !HasFlag(HelmTarget(r, kubeContext), "namespace") && !HasFlag(HelmTarget(r, kubeContext), "history-max")
  {
  }

  /** The options carry the namespace exactly when the release sets one. */
  lemma {:induction false} OptionsFlags(diffrun: bool, r: Release, helm: HelmConfig)
    ensures (HasFlag(HelmOptions(diffrun, r, helm), "namespace") <==> r.namespace != "")
    ensures !HasFlag(HelmOptions(diffrun, r, helm), "history-max")
  {
    var dbg: seq<Arg> := if helm.debug then [Raw("--debug")] else [];
    var ns: seq<Arg> := if r.namespace != "" then [Long("namespace", r.namespace)] + (if !diffrun then [Raw("--create-namespace")] else []) else [];
    var lv: seq<Arg> := if helm.logLevel != 0 then [Long("v", NatToString(helm.logLevel))] else [];
    assert HelmOptions(diffrun, r, helm) == dbg + ns + lv;
    if r.namespace != "" {
      assert ns[0] == Long("namespace", r.namespace);
      assert (dbg + ns + lv)[|dbg|] == ns[0];
    }
  }

  /** A command made of five pieces has a flag exactly when one piece has it. */
  lemma {:induction false} HasFlagSplit(a: seq<Arg>, b: seq<Arg>, c: seq<Arg>, d: seq<Arg>, e: seq<Arg>, name: string)
    ensures HasFlag(a + b + c + d + e, name) <==> HasFlag(a, name) || HasFlag(b, name) || HasFlag(c, name) || HasFlag(d, name) || HasFlag(e, name)
  {
    HasFlagAppend(a, b, name);
    HasFlagAppend(a + b, c, name);
    HasFlagAppend(a + b + c, d, name);
    HasFlagAppend(a + b + c + d, e, name);
  }

  /** A concatenation has a flag when one of its halves has it. */
  lemma {:induction false} HasFlagAppend(xs: seq<Arg>, ys: seq<Arg>, name: string)
    ensures HasFlag(xs + ys, name) <==> HasFlag(xs, name) || HasFlag(ys, name)
  {
    var zs := xs + ys;
    if HasFlag(zs, name) {
      var i :| 0 <= i < |zs| && zs[i].IsFlag() && zs[i].name == name;
      if i >= |xs| {
        assert ys[i - |xs|] == zs[i];
      }
    }
    if HasFlag(xs, name) {
      var i :| 0 <= i < |xs| && xs[i].IsFlag() && xs[i].name == name;
      assert zs[i] == xs[i];
    }
    if HasFlag(ys, name) {
      var i :| 0 <= i < |ys| && ys[i].IsFlag() && ys[i].name == name;
      assert zs[|xs| + i] == ys[i];
    }
  }

  // ---------------------------------------------------------------- kubectl

  /** `helm template <release> <chart> --version <v>` and the value args. */
  function TemplateParts(r: Release, ov: seq<Arg>): seq<Arg>
  {
    [Raw("template"), Raw(r.name), Raw(r.chartPath), Long("version", r.version)] + ov
  }

  /** `kubectl [--namespace n] --context c (diff|apply) [--dry-run=server]
      --filename -`: the manifests come on standard input. */
  function KubectlApplyParts(diffrun: bool, dryrun: bool, namespace: string, kubeContext: string): seq<Arg>
  {
    IfSet("namespace", namespace) + [Long("context", kubeContext)]
    + [Raw(if diffrun then "diff" else "apply")]
    + (if dryrun then [Raw("--dry-run=server")] else [])
    + [Long("filename", "-")]
  }

  /** The apply command reads its manifests from standard input: its last
      words are `--filename -`. */
  lemma {:induction false} KubectlApplyReadsStdin(diffrun: bool, dryrun: bool, namespace: string, kubeContext: string)
    ensures var argv := Argv(KubectlApplyParts(diffrun, dryrun, namespace, kubeContext));
      |argv| >= 2 && argv[|argv| - 2..] == ["--filename", "-"]
  {
    var parts := KubectlApplyParts(diffrun, dryrun, namespace, kubeContext);
    var init := parts[..|parts| - 1];
    assert parts == init + [Long("filename", "-")];
    ArgvSnoc(init, Long("filename", "-"));
    assert "--" + "filename" == "--filename";
    var u := Long("filename", "-").UnsafeParts();
    assert u == ["--filename", "-"];
    assert Argv(parts)[|Argv(parts)| - 2..] == u;
  }

  /** The apply command always names the context, diffs instead of applying
      in diff mode, asks for a server-side dry run exactly in a dry run, and
      names the namespace only when one is set. */
  lemma {:induction false} KubectlApplyShape(diffrun: bool, dryrun: bool, namespace: string, kubeContext: string)
    ensures var parts := KubectlApplyParts(diffrun, dryrun, namespace, kubeContext);
      && Long("context", kubeContext) in parts
      && (Raw("diff") in parts <==> diffrun)
      && (Raw("apply") in parts <==> !diffrun)
      && (Raw("--dry-run=server") in parts <==> dryrun)
      && (HasFlag(parts, "namespace") <==> namespace != "")
  {
    var parts := KubectlApplyParts(diffrun, dryrun, namespace, kubeContext);
    if namespace != "" {
      assert parts[0] == Long("namespace", namespace);
    }
  }

  /** `kubectl wait` succeeds on availability for deployments and on
      readiness for every other kind. */
  function Condition(kind: string): string
  {
    if kind == "deployment" then "condition=available" else "condition=ready"
  }

  function WaitParts(kind: string, name: string, namespace: string, kubeContext: string): seq<Arg>
  {
    [Raw("wait"), Long("for", Condition(kind)), Raw(kind + "/" + name)] + IfSet("namespace", namespace) + IfSet("context", kubeContext)
  }

  function RolloutParts(name: string, namespace: string, kubeContext: string): seq<Arg>
  {
    [Raw("rollout"), Raw("status"), Raw("daemonset/" + name)] + IfSet("namespace", namespace) + IfSet("context", kubeContext)
  }

  /** The wait commands name the resource as kind/name, carry the namespace
      and the context only when non-empty, and wait for availability exactly
      for deployments. */
  lemma {:induction false} WaitShape(kind: string, name: string, namespace: string, kubeContext: string)
    ensures var w := WaitParts(kind, name, namespace, kubeContext);
            var s := RolloutParts(name, namespace, kubeContext);
      && Raw(kind + "/" + name) in w && Raw("daemonset/" + name) in s
      && (Long("for", "condition=available") in w <==> kind == "deployment")
      && (Long("for", "condition=ready") in w <==> kind != "deployment")
      && (HasFlag(w, "namespace") <==> namespace != "") && (HasFlag(s, "namespace") <==> namespace != "")
      && (HasFlag(w, "context") <==> kubeContext != "") && (HasFlag(s, "context") <==> kubeContext != "")
  {
    WaitPartsShape(kind, name, namespace, kubeContext);
    RolloutPartsShape(name, namespace, kubeContext);
  }

  lemma {:induction false} WaitPartsShape(kind: string, name: string, namespace: string, kubeContext: string)
    ensures var w := WaitParts(kind, name, namespace, kubeContext);
      && Raw(kind + "/" + name) in w
      && (Long("for", "condition=available") in w <==> kind == "deployment")
      && (Long("for", "condition=ready") in w <==> kind != "deployment")
      && (HasFlag(w, "namespace") <==> namespace != "")
      && (HasFlag(w, "context") <==> kubeContext != "")
  {
    var head := [Raw("wait"), Long("for", Condition(kind)), Raw(kind + "/" + name)];
    var ns := IfSet("namespace", namespace);
    var ctx := IfSet("context", kubeContext);
    assert WaitParts(kind, name, namespace, kubeContext) == head + ns + ctx;
    NotInAppend(head, ns, Long("for", "condition=available"));
    NotInAppend(head + ns, ctx, Long("for", "condition=available"));
    NotInAppend(head, ns, Long("for", "condition=ready"));
    NotInAppend(head + ns, ctx, Long("for", "condition=ready"));
    TailFlags(head, ns, ctx, namespace, kubeContext);
  }

  lemma {:induction false} RolloutPartsShape(name: string, namespace: string, kubeContext: string)
    ensures var s := RolloutParts(name, namespace, kubeContext);
      && Raw("daemonset/" + name) in s
      && (HasFlag(s, "namespace") <==> namespace != "")
      && (HasFlag(s, "context") <==> kubeContext != "")
  {
    var head := [Raw("rollout"), Raw("status"), Raw("daemonset/" + name)];
    var ns := IfSet("namespace", namespace);
    var ctx := IfSet("context", kubeContext);
    assert RolloutParts(name, namespace, kubeContext) == head + ns + ctx;
    assert Raw("daemonset/" + name) in head;
    NotInAppend(head, ns, Raw("daemonset/" + name));
    NotInAppend(head + ns, ctx, Raw("daemonset/" + name));
    TailFlags(head, ns, ctx, namespace, kubeContext);
  }

  /** A head without namespace or context flags, followed by the optional
      namespace and context flags. */
  lemma {:induction false} TailFlags(head: seq<Arg>, ns: seq<Arg>, ctx: seq<Arg>, namespace: string, kubeContext: string)
    requires !HasFlag(head, "namespace") && !HasFlag(head, "context")
    requires ns == IfSet("namespace", namespace) && ctx == IfSet("context", kubeContext)
    ensures HasFlag(head + ns + ctx, "namespace") <==> namespace != ""
    ensures HasFlag(head + ns + ctx, "context") <==> kubeContext != ""
  {
    if namespace != "" {
      assert ns[0] == Long("namespace", namespace);
    }
    if kubeContext != "" {
      assert ctx[0] == Long("context", kubeContext);
    }
    HasFlagAppend(head, ns, "namespace");
    HasFlagAppend(head + ns, ctx, "namespace");
    HasFlagAppend(head, ns, "context");
    HasFlagAppend(head + ns, ctx, "context");
  }

  /** `kubectl apply --filename <file> [--context c]`: no namespace is
      forced on the manifests. */
  function ApplyFileParts(file: string, kubeContext: string): seq<Arg>
  {
    [Raw("apply"), Long("filename", file)] + IfSet("context", kubeContext)
  }

  lemma {:induction false} ApplyFileShape(file: string, kubeContext: string)
    ensures var parts := ApplyFileParts(file, kubeContext);
      && Long("filename", file) in parts
      && !HasFlag(parts, "namespace")
      && (HasFlag(parts, "context") <==> kubeContext != "")
  {
    if kubeContext != "" {
      assert ApplyFileParts(file, kubeContext)[2] == Long("context", kubeContext);
    }
  }

  /** `kubectl config use-context <ctx> --kubeconfig <file>`. */
  function SetContextParts(kubeContext: string, kubeConfigFile: string): seq<Arg>
  {
    [Raw("config"), Raw("use-context"), Raw(kubeContext), Long("kubeconfig", kubeConfigFile)]
  }

  // ------------------------------------------------------------ repositories

  /** A credential flag: absent without a value source, always secret
      (whatever the value's own showValue says) otherwise. */
  function Credential(name: string, v: Option<Value>, op: Op, env: map<string, string>, files: map<string, string>): (r: Result<seq<Arg>, Error>)
  {
    match v
    case None => Success([])
    case Some(value) =>
      match value.GetValue(env, files)
      case Failure(e) => Failure(Because(op, ValueUnavailable(e)))
      case Success(s) => Success([Arg(ArgTypeLongParam, name, s, true)])
  }

  /** `helm repo add <name> <url> [--username u] [--password p]`. */
  function RepoAddParts(repo: HelmRepo, env: map<string, string>, files: map<string, string>): Result<seq<Arg>, Error>
  {
    var user :- Credential("username", repo.username, RepoUsername, env, files);
    var pass :- Credential("password", repo.password, RepoPassword, env, files);
    Success([Raw("repo"), Raw("add"), Raw(repo.name), Raw(repo.url)] + user + pass)
  }

  /** Adding a repository fails exactly when a credential it names cannot
      be read (the username is tried first); otherwise every credential
      flag is secret and carries the credential's value. */
  lemma {:induction false} RepoAddCredentials(repo: HelmRepo, env: map<string, string>, files: map<string, string>)
    ensures var r := RepoAddParts(repo, env, files);
      && (r.Failure? <==>
            (repo.username.Some? && repo.username.value.GetValue(env, files).Failure?)
            || (repo.password.Some? && repo.password.value.GetValue(env, files).Failure?))
      && (repo.username.Some? && repo.username.value.GetValue(env, files).Failure? ==>
            r == Failure(Because(RepoUsername, ValueUnavailable(repo.username.value.GetValue(env, files).error))))
      && (r.Success? ==>
            && r.value[..4] == [Raw("repo"), Raw("add"), Raw(repo.name), Raw(repo.url)]
            && (forall a :: a in r.value && a.IsFlag() ==> a.valueSecret)
            && (repo.username.Some? ==> Arg(ArgTypeLongParam, "username", repo.username.value.GetValue(env, files).value, true) in r.value)
            && (repo.password.Some? ==> Arg(ArgTypeLongParam, "password", repo.password.value.GetValue(env, files).value, true) in r.value)
            && (HasFlag(r.value, "username") <==> repo.username.Some?)
            && (HasFlag(r.value, "password") <==> repo.password.Some?))
  {
    var u := Credential("username", repo.username, RepoUsername, env, files);
    var p := Credential("password", repo.password, RepoPassword, env, files);
    CredentialShape("username", repo.username, RepoUsername, env, files);
    CredentialShape("password", repo.password, RepoPassword, env, files);
    if u.Success? && p.Success? {
      var head := [Raw("repo"), Raw("add"), Raw(repo.name), Raw(repo.url)];
      var v := head + u.value + p.value;
      assert RepoAddParts(repo, env, files) == Success(v);
      assert v[..4] == head;
      assert !HasFlag(head, "username") && !HasFlag(head, "password");
      HasFlagAppend(head, u.value, "username");
      HasFlagAppend(head + u.value, p.value, "username");
      HasFlagAppend(head, u.value, "password");
      HasFlagAppend(head + u.value, p.value, "password");
      forall a | a in v && a.IsFlag()
        ensures a.valueSecret
      {
        NotInAppend(head, u.value, a);
        NotInAppend(head + u.value, p.value, a);
      }
      NotInAppend(head, u.value, Arg(ArgTypeLongParam, "username", "", true));
      if repo.username.Some? {
        NotInAppend(head, u.value, u.value[0]);
        NotInAppend(head + u.value, p.value, u.value[0]);
      }
      if repo.password.Some? {
        NotInAppend(head + u.value, p.value, p.value[0]);
      }
    }
  }

  /** A credential builds no flag without a source, fails exactly when its
      source cannot be read, and is otherwise one secret flag carrying the
      source's value. */
  lemma {:induction false} CredentialShape(name: string, v: Option<Value>, op: Op, env: map<string, string>, files: map<string, string>)
    ensures var r := Credential(name, v, op, env, files);
      && (r.Failure? <==> v.Some? && v.value.GetValue(env, files).Failure?)
      && (r.Failure? ==> r.error == Because(op, ValueUnavailable(v.value.GetValue(env, files).error)))
      && (r.Success? && v.None? ==> r.value == [])
      && (r.Success? && v.Some? ==> r.value == [Arg(ArgTypeLongParam, name, v.value.GetValue(env, files).value, true)])
      && (r.Success? ==> HasFlag(r.value, name) == v.Some? && forall a :: a in r.value ==> a.IsFlag() && a.valueSecret && a.name == name)
  {
    var r := Credential(name, v, op, env, files);
    if r.Success? && v.Some? {
      assert r.value[0].IsFlag() && r.value[0].name == name;
    }
  }

  /** The logged repo-add line never depends on the credentials' values:
      two environments that both yield the credentials log the same line. */
  lemma {:induction false} RepoAddLogHidesCredentials(repo: HelmRepo, env1: map<string, string>, files1: map<string, string>,
                                   env2: map<string, string>, files2: map<string, string>)
    requires RepoAddParts(repo, env1, files1).Success? && RepoAddParts(repo, env2, files2).Success?
    ensures LogLine(HelmBin, RepoAddParts(repo, env1, files1).value) == LogLine(HelmBin, RepoAddParts(repo, env2, files2).value)
  {
    var p1 := RepoAddParts(repo, env1, files1).value;
    var p2 := RepoAddParts(repo, env2, files2).value;
    LogLineHidesSecretValues(HelmBin, p1, p2);
  }

  // ------------------------------------------------------------ manifest dirs

  predicate IsKustomization(name: string)
  {
    name == "kustomization.yaml" || name == "Kustomization.yaml" || name == "kustomization.yml" || name == "Kustomization.yml"
  }

  /** A file applied from a manifest directory. */
  predicate IsManifestName(name: string)
  {
    !IsKustomization(name) && (HasSuffix(name, ".yaml") || HasSuffix(name, ".yml"))
  }

  /** The manifest files of a directory listing, as paths under `dir`, in
      listing order. */
  function YamlFiles(dir: string, entries: seq<DirEntry>): seq<string>
  {
    if entries == [] then []
    else YamlFiles(dir, entries[..|entries| - 1]) + Contribution(dir, entries[|entries| - 1])
  }

  /** What one listing entry adds: its path for a non-directory manifest,
      nothing otherwise. */
  function Contribution(dir: string, e: DirEntry): (r: seq<string>)
    ensures forall path :: AppliedAs(dir, e, path) ==> r == [path]
    ensures forall path :: path in r ==> AppliedAs(dir, e, path)
  {
    if !e.isDir && IsManifestName(e.name) then [dir + "/" + e.name] else []
  }

  /** A path is applied exactly when it is `dir/<name>` for a non-directory
      entry whose name ends in .yaml or .yml and is not a kustomization. */
  lemma {:induction false} YamlFilesExactly(dir: string, entries: seq<DirEntry>, path: string)
    ensures path in YamlFiles(dir, entries) <==> exists i :: 0 <= i < |entries| && AppliedAs(dir, entries[i], path)
  {
    if path in YamlFiles(dir, entries) {
      var i := YamlFilesSound(dir, entries, path);
    }
    if exists i :: 0 <= i < |entries| && AppliedAs(dir, entries[i], path) {
      var i :| 0 <= i < |entries| && AppliedAs(dir, entries[i], path);
      YamlFilesComplete(dir, entries, i, path);
    }
  }

  /** Every applied path comes from some entry. */
  lemma {:induction false} YamlFilesSound(dir: string, entries: seq<DirEntry>, path: string) returns (i: nat)
    requires path in YamlFiles(dir, entries)
    ensures i < |entries| && AppliedAs(dir, entries[i], path)
  {
    var n := |entries| - 1;
    var e := entries[n];
    if path in YamlFiles(dir, entries[..n]) {
      i := YamlFilesSound(dir, entries[..n], path);
      assert entries[..n][i] == entries[i];
    } else {
      i := n;
    }
  }

  /** Every manifest entry's path is applied. */
  lemma {:induction false} YamlFilesComplete(dir: string, entries: seq<DirEntry>, i: nat, path: string)
    requires i < |entries| && AppliedAs(dir, entries[i], path)
    ensures path in YamlFiles(dir, entries)
  {
    var n := |entries| - 1;
    if i < n {
      assert entries[..n][i] == entries[i];
      YamlFilesComplete(dir, entries[..n], i, path);
    }
  }

  /** `path` is what the entry contributes: `dir/name` for a non-directory
      manifest. */
  predicate AppliedAs(dir: string, e: DirEntry, path: string)
  {
    !e.isDir && IsManifestName(e.name) && path == dir + "/" + e.name
  }

  /** Listing order is kept: the files of two listings in a row are the
      files of the first followed by those of the second. */
  lemma {:induction false} YamlFilesAppend(dir: string, xs: seq<DirEntry>, ys: seq<DirEntry>)
    ensures YamlFiles(dir, xs + ys) == YamlFiles(dir, xs) + YamlFiles(dir, ys)
  {
    if ys == [] {
      assert xs + ys == xs;
    } else {
      var n := |ys| - 1;
      assert (xs + ys)[..|xs + ys| - 1] == xs + ys[..n];
      assert (xs + ys)[|xs + ys| - 1] == ys[n];
      YamlFilesAppend(dir, xs, ys[..n]);
    }
  }

  lemma {:induction false} YamlFilesSingle(dir: string, e: DirEntry)
    ensures YamlFiles(dir, [e]) == if !e.isDir && IsManifestName(e.name) then [dir + "/" + e.name] else []
  {
    assert [e][..0] == [];
  }

  /** Existing value files are kept in the order given, independently per
      part: the arguments of a concatenation are the concatenation of the
      arguments. */
  lemma {:induction false} ExistingFileArgsAppend(xs: seq<string>, ys: seq<string>, stat: map<string, bool>)
    ensures ExistingFileArgs(xs + ys, stat) == ExistingFileArgs(xs, stat) + ExistingFileArgs(ys, stat)
  {
    if ys == [] {
      assert xs + ys == xs;
    } else {
      var n := |ys| - 1;
      assert (xs + ys)[..|xs + ys| - 1] == xs + ys[..n];
      ExistingFileArgsAppend(xs, ys[..n], stat);
    }
  }

  /** One path gives its `-f` argument exactly when the file exists. */
  lemma {:induction false} ExistingFileArgsSingle(p: string, stat: map<string, bool>)
    ensures ExistingFileArgs([p], stat) == if Exists(stat, p) then [ValueFileArg(p)] else []
  {
    assert [p][..0] == [];
  }

  /** Overrides are kept in the order given, independently per part: a
      failing override drops out without disturbing its neighbours. */
  lemma {:induction false} OverrideArgsAppend(xs: seq<Override>, ys: seq<Override>, env: map<string, string>, files: map<string, string>)
    ensures OverrideArgs(xs + ys, env, files) == OverrideArgs(xs, env, files) + OverrideArgs(ys, env, files)
  {
    if ys == [] {
      assert xs + ys == xs;
    } else {
      var n := |ys| - 1;
      assert (xs + ys)[..|xs + ys| - 1] == xs + ys[..n];
      assert (xs + ys)[|xs + ys| - 1] == ys[n];
      OverrideArgsAppend(xs, ys[..n], env, files);
    }
  }

  /** One override gives its argument when it builds and nothing when it
      fails. */
  lemma {:induction false} OverrideArgsSingle(o: Override, env: map<string, string>, files: map<string, string>)
    ensures OverrideArgs([o], env, files) == if o.BuildArg(env, files).Success? then [o.BuildArg(env, files).value] else []
  {
    assert [o][..0] == [];
  }

  lemma {:induction false} ManifestNamesExample()
    ensures IsManifestName("a.yaml") && IsManifestName("b.yml")
    ensures !IsManifestName("kustomization.yaml") && !IsManifestName("notes.txt")
  {
    assert "a.yaml"[1..] == ".yaml";
    assert "b.yml"[1..] == ".yml";
    assert "notes.txt"[4..] != ".yaml";
    assert "notes.txt"[5..] != ".yml";
  }

  /** Five entries of which only the first two are manifests give those two. */
  lemma {:induction false} YamlFilesOfFive(dir: string, a: DirEntry, b: DirEntry, k: DirEntry, n: DirEntry, s: DirEntry)
    requires !a.isDir && IsManifestName(a.name) && !b.isDir && IsManifestName(b.name)
    requires !IsManifestName(k.name) && !IsManifestName(n.name) && s.isDir
    ensures YamlFiles(dir, [a, b, k, n, s]) == [dir + "/" + a.name, dir + "/" + b.name]
  {
    var pa, pb := dir + "/" + a.name, dir + "/" + b.name;
    assert Contribution(dir, a) == [pa] && Contribution(dir, b) == [pb];
    assert Contribution(dir, k) == [] && Contribution(dir, n) == [] && Contribution(dir, s) == [];
    assert [a, b, k, n, s][..4] == [a, b, k, n] && [a, b, k, n][..3] == [a, b, k];
    assert [a, b, k][..2] == [a, b] && [a, b][..1] == [a] && [a][..0] == [];
    assert YamlFiles(dir, [a]) == [pa];
    assert YamlFiles(dir, [a, b]) == [pa, pb];
    assert YamlFiles(dir, [a, b, k, n]) == YamlFiles(dir, [a, b, k]) == [pa, pb];
  }

  /** The directory test: a.yaml and b.yml are applied; notes.txt, the
      kustomization file and the sub-directory are not. */
  lemma {:induction false} YamlFilesExample(dir: string)
    ensures YamlFiles(dir, [DirEntry("a.yaml", false), DirEntry("b.yml", false), DirEntry("kustomization.yaml", false),
                            DirEntry("notes.txt", false), DirEntry("subdir", true)])
            == [dir + "/" + "a.yaml", dir + "/" + "b.yml"]
  {
    ManifestNamesExample();
    YamlFilesOfFive(dir, DirEntry("a.yaml", false), DirEntry("b.yml", false), DirEntry("kustomization.yaml", false),
                    DirEntry("notes.txt", false), DirEntry("subdir", true));
  }
}
