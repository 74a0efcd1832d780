/** The orchestrator: for one cluster, set up the kubeconfig, register the
    chart repositories and install every release (by the chart tool or by
    rendering and applying manifests), waiting for the resources it names
    and applying its extra manifest files; in audit mode, write one report
    row per release of every listed cluster instead.

    Each step is specified by a function from the world before it to an
    Outcome (the world after it and the error it returns), and each method
    that performs a step ends in exactly that world with exactly that
    error. */
module Orchestrator {
  import opened Wrappers
  import opened Text
  import opened System
  import opened Commands
  import opened Types
  import opened Report
  import opened Utils
  import opened Plans

  /** What a step leaves behind: the world after it and its error, if any. */
  datatype Outcome = Outcome(w: World, err: Option<Error>)

  /** Runs `argv` (standard streams passed through); a non-zero exit
      yields `onFail`. */
  function RunArgv(f: Facts, w: World, argv: seq<string>, onFail: Error): Outcome
  {
    Outcome(Ran(w, Invocation(argv, None)), if f.succeeds(|w.trace|) then None else Some(onFail))
  }

  /** Runs the built command `bin parts`. */
  function RunCmd(f: Facts, w: World, bin: string, parts: seq<Arg>, onFail: Error): Outcome
  {
    RunArgv(f, w, CommandLine(bin, parts), onFail)
  }

  /** The caller's wrapping of a step's error. */
  function Wrap(o: Outcome, op: Op): Outcome
  {
    if o.err.Some? then Outcome(o.w, Some(Because(op, o.err.value))) else o
  }

  /** The world only grows: runs are appended, paths are only added and
      nothing is written. */
  predicate Grows(w: World, w': World)
  {
    && |w.trace| <= |w'.trace| && w'.trace[..|w.trace|] == w.trace
    && (forall p :: p in w.stat ==> p in w'.stat && w'.stat[p] == w.stat[p])
    && w'.written == w.written
  }

  lemma {:induction false} GrowsTrans(w1: World, w2: World, w3: World)
    requires Grows(w1, w2) && Grows(w2, w3)
    ensures Grows(w1, w3)
  {
    assert w3.trace[..|w2.trace|][..|w1.trace|] == w3.trace[..|w1.trace|];
  }

  lemma {:induction false} RanGrows(w: World, inv: Invocation)
    ensures Grows(w, Ran(w, inv))
  {
    assert (w.trace + [inv])[..|w.trace|] == w.trace;
  }

  /** Adding a path that did not exist only grows the world. */
  lemma {:induction false} AddPathGrows(w: World, path: string, isDir: bool)
    requires path !in w.stat
    ensures Grows(w, w.(stat := w.stat[path := isDir]))
  {
    assert w.trace[..|w.trace|] == w.trace;
  }

  /** The invocation runs the binary `bin`. */
  predicate Runs(inv: Invocation, bin: string)
  {
    inv.argv != [] && inv.argv[0] == bin
  }

  /** One run and then several, recorded in order. */
  lemma {:induction false} TraceAssoc(trace: seq<Invocation>, inv: Invocation, more: seq<Invocation>)
    ensures (trace + [inv]) + more == trace + ([inv] + more)
  {
  }

  /** The kubeconfig file of a context: `$HOME/.kube/config-<context>`. */
  function KubeConfigPath(f: Facts, kubeContext: string): string
  {
    Getenv(f, "HOME") + "/.kube/config" + "-" + kubeContext
  }

  /** Where a downloaded chart archive is kept: the last segment of the
      URL's path under ./downloads. */
  function TarPath(urlPath: string): string
  {
    DownloadsDir + "/" + LastSegment(urlPath)
  }

  // ------------------------------------------------------------------ audit

  /** The configuration file of a listed cluster. */
  function ClusterFile(configPath: string, cluster: string): string
  {
    configPath + "/" + cluster
  }

  function RecordKey(cluster: string, r: Release): ReportKey
  {
    ReportKey(r.name, cluster, r.namespace)
  }

  function RecordDetail(r: Release): ReportDetail
  {
    ReportDetail(r.version, r.chartPath, r.chartsSource, "", ValueFilesSummary(r.valueFiles))
  }

  /** The records of one cluster's releases, a later release replacing an
      earlier one with the same name and namespace. */
  function Records(cluster: string, rs: seq<Release>): map<ReportKey, ReportDetail>
  {
    if rs == [] then map[]
    else Records(cluster, rs[..|rs| - 1])[RecordKey(cluster, rs[|rs| - 1]) := RecordDetail(rs[|rs| - 1])]
  }

  /** Every cluster of `clusters` can be read. */
  predicate Readable(configPath: string, configs: map<string, ClusterConfig>, clusters: seq<string>)
  {
    forall i :: 0 <= i < |clusters| ==> ClusterFile(configPath, clusters[i]) in configs
  }

  /** The report's records after visiting `clusters` in order. */
  function AuditLines(configPath: string, configs: map<string, ClusterConfig>, clusters: seq<string>): map<ReportKey, ReportDetail>
    requires Readable(configPath, configs, clusters)
  {
    if clusters == [] then map[]
    else
      var c := clusters[|clusters| - 1];
      AuditLines(configPath, configs, clusters[..|clusters| - 1]) + Records(c, configs[ClusterFile(configPath, c)].releases)
  }

  /** A record exists exactly for the name and namespace of some release,
      and it describes the last release with that name and namespace. */
  lemma {:induction false} RecordsLastWins(cluster: string, rs: seq<Release>, k: ReportKey)
    ensures k in Records(cluster, rs) <==> exists i :: 0 <= i < |rs| && RecordKey(cluster, rs[i]) == k
    ensures k in Records(cluster, rs) ==>
      exists i :: 0 <= i < |rs| && RecordKey(cluster, rs[i]) == k && Records(cluster, rs)[k] == RecordDetail(rs[i])
        && forall j :: i < j < |rs| ==> RecordKey(cluster, rs[j]) != k
  {
    if k in Records(cluster, rs) {
      var i := RecordsLastIndex(cluster, rs, k);
    }
    if exists i :: 0 <= i < |rs| && RecordKey(cluster, rs[i]) == k {
      var i :| 0 <= i < |rs| && RecordKey(cluster, rs[i]) == k;
      RecordsHaveKey(cluster, rs, i);
    }
  }

  /** A record comes from the last release with its key. */
  lemma {:induction false} RecordsLastIndex(cluster: string, rs: seq<Release>, k: ReportKey) returns (i: nat)
    requires k in Records(cluster, rs)
    ensures i < |rs| && RecordKey(cluster, rs[i]) == k && Records(cluster, rs)[k] == RecordDetail(rs[i])
    ensures forall j :: i < j < |rs| ==> RecordKey(cluster, rs[j]) != k
  {
    var n := |rs| - 1;
    if k == RecordKey(cluster, rs[n]) {
      i := n;
    } else {
      i := RecordsLastIndex(cluster, rs[..n], k);
      assert rs[..n][i] == rs[i];
      forall j | i < j < |rs|
        ensures RecordKey(cluster, rs[j]) != k
      {
        if j < n {
          assert rs[..n][j] == rs[j];
        }
      }
    }
  }

  /** Every release's key is recorded. */
  lemma {:induction false} RecordsHaveKey(cluster: string, rs: seq<Release>, i: nat)
    requires i < |rs|
    ensures RecordKey(cluster, rs[i]) in Records(cluster, rs)
  {
    var n := |rs| - 1;
    if i < n {
      assert rs[..n][i] == rs[i];
      RecordsHaveKey(cluster, rs[..n], i);
    }
  }

  /** Every record of a cluster names that cluster. */
  lemma {:induction false} RecordsOfCluster(cluster: string, rs: seq<Release>)
    ensures forall k :: k in Records(cluster, rs) ==> k.cluster == cluster
  {
    if rs != [] {
      RecordsOfCluster(cluster, rs[..|rs| - 1]);
    }
  }

  /** A record of the audit is the record of its own cluster, when that
      cluster was visited. */
  lemma {:induction false} AuditLinesAt(configPath: string, configs: map<string, ClusterConfig>, clusters: seq<string>, k: ReportKey)
    requires Readable(configPath, configs, clusters)
    ensures k in AuditLines(configPath, configs, clusters) <==>
      k.cluster in clusters && k in Records(k.cluster, configs[ClusterFile(configPath, k.cluster)].releases)
    ensures k in AuditLines(configPath, configs, clusters) ==>
      AuditLines(configPath, configs, clusters)[k] == Records(k.cluster, configs[ClusterFile(configPath, k.cluster)].releases)[k]
  {
    if clusters != [] {
      var n := |clusters| - 1;
      var c := clusters[n];
      assert Readable(configPath, configs, clusters[..n]) by {
        forall i | 0 <= i < n ensures ClusterFile(configPath, clusters[..n][i]) in configs {
          assert clusters[..n][i] == clusters[i];
        }
      }
      AuditLinesAt(configPath, configs, clusters[..n], k);
      RecordsOfCluster(c, configs[ClusterFile(configPath, c)].releases);
      assert clusters == clusters[..n] + [c];
    }
  }

  /** The audit's records do not depend on the order the clusters are
      visited in: records of different clusters never collide. */
  lemma {:induction false} AuditLinesOrderFree(configPath: string, configs: map<string, ClusterConfig>, cs: seq<string>, ds: seq<string>)
    requires Readable(configPath, configs, cs) && Readable(configPath, configs, ds)
    requires forall c :: c in cs <==> c in ds
    ensures AuditLines(configPath, configs, cs) == AuditLines(configPath, configs, ds)
  {
    var a, b := AuditLines(configPath, configs, cs), AuditLines(configPath, configs, ds);
    forall k ensures (k in a <==> k in b) && (k in a ==> a[k] == b[k]) {
      AuditLinesAt(configPath, configs, cs, k);
      AuditLinesAt(configPath, configs, ds, k);
    }
  }

  /** What an audit run leaves behind. An unreadable cluster file stops it
      before anything is written, with an error naming an unreadable file;
      otherwise the clusters are visited in some order `clusters`, and the
      report file, unless it cannot be created, holds the header and then
      one row per record of the visited clusters in some order `rows`. */
  ghost predicate Audited(configPath: string, clustersList: map<string, bool>, auditFile: string,
                          configs: map<string, ClusterConfig>, f: Facts, w0: World, w: World,
                          err: Option<Error>, clusters: seq<string>, rows: seq<ReportKey>)
  {
    if exists c :: c in clustersList && ClusterFile(configPath, c) !in configs then
      && w == w0
      && err.Some? && err.value.Because? && err.value.op == ReadingClusterConfig
      && err.value.cause.ConfigUnreadable? && err.value.cause.path !in configs
      && exists c :: c in clustersList && err.value.cause.path == ClusterFile(configPath, c)
    else
      && Enumerates(clusters, clustersList)
      && Readable(configPath, configs, clusters)
      && err == (if auditFile in f.unwritable then Some(IOFailed(Unwritable(auditFile))) else None)
      && (err.Some? ==> w == w0)
      && (err.None? ==>
            && Enumerates(rows, AuditLines(configPath, configs, clusters))
            && w.trace == w0.trace
            && w.stat == w0.stat[auditFile := false]
            && w.written == w0.written[auditFile := [Header] + RowsIn(rows, AuditLines(configPath, configs, clusters))])
  }

  /** The report's content is the same multiset of rows however the
      clusters and the records are ordered. */
  lemma {:induction false} AuditReportOrderFree(configPath: string, clustersList: map<string, bool>, configs: map<string, ClusterConfig>,
                             cs: seq<string>, ds: seq<string>, ks: seq<ReportKey>, js: seq<ReportKey>)
    requires Enumerates(cs, clustersList) && Enumerates(ds, clustersList)
    requires Readable(configPath, configs, cs) && Readable(configPath, configs, ds)
    requires Enumerates(ks, AuditLines(configPath, configs, cs)) && Enumerates(js, AuditLines(configPath, configs, ds))
    ensures multiset(RowsIn(ks, AuditLines(configPath, configs, cs))) == multiset(RowsIn(js, AuditLines(configPath, configs, ds)))
  {
    assert forall c :: c in cs <==> c in ds by {
      forall c ensures c in cs <==> c in ds {
        if c in cs {
          var i :| 0 <= i < |cs| && cs[i] == c;
          assert cs[i] in clustersList;
        }
        if c in ds {
          var i :| 0 <= i < |ds| && ds[i] == c;
          assert ds[i] in clustersList;
        }
      }
    }
    AuditLinesOrderFree(configPath, configs, cs, ds);
    RowsInOrderFree(ks, js, AuditLines(configPath, configs, cs));
  }

  // ------------------------------------------------------------------ plugin

  /** One run of the orchestrator: its settings (fixed for the run) and the
      kubeconfig file it uses, which setting up the kubeconfig replaces. */
  class Plugin {
    const clusterConfig: ClusterConfig
    const clusterConfigPath: string
    const clustersList: map<string, bool>
    const valueFiles: seq<string>
    const kubeConfig: string
    var kubeConfigFile: string
    const kubeConfigBase64: bool
    const kubeContext: string
    const dryrun: bool
    const diffrun: bool
    const audit: bool
    const auditFile: string

    constructor (clusterConfig: ClusterConfig, clusterConfigPath: string, clustersList: map<string, bool>,
                 valueFiles: seq<string>, kubeConfig: string, kubeConfigFile: string, kubeConfigBase64: bool,
                 kubeContext: string, dryrun: bool, diffrun: bool, audit: bool, auditFile: string)
      ensures this.clusterConfig == clusterConfig && this.clusterConfigPath == clusterConfigPath
      ensures this.clustersList == clustersList && this.valueFiles == valueFiles
      ensures this.kubeConfig == kubeConfig && this.kubeConfigFile == kubeConfigFile
      ensures this.kubeConfigBase64 == kubeConfigBase64 && this.kubeContext == kubeContext
      ensures this.dryrun == dryrun && this.diffrun == diffrun && this.audit == audit && this.auditFile == auditFile
    {
      this.clusterConfig := clusterConfig;
      this.clusterConfigPath := clusterConfigPath;
      this.clustersList := clustersList;
      this.valueFiles := valueFiles;
      this.kubeConfig := kubeConfig;
      this.kubeConfigFile := kubeConfigFile;
      this.kubeConfigBase64 := kubeConfigBase64;
      this.kubeContext := kubeContext;
      this.dryrun := dryrun;
      this.diffrun := diffrun;
      this.audit := audit;
      this.auditFile := auditFile;
    }

    // ------------------------------------------------------ specification

    /** The value arguments of a release, given the paths that exist. */
    function ValueArgs(r: Release, f: Facts, stat: map<string, bool>): seq<Arg>
    {
      Plans.Overrides(valueFiles, clusterConfig.name, r, stat, f.env, f.contents)
    }

    /** setupKubeconfig, from the kubeconfig file in use before it. */
    function SetupKubeSpec(f: Facts, w: World, file0: string): Outcome
    {
      if kubeConfig != "" && kubeConfigBase64 && kubeConfig !in f.decoded then Outcome(w, Some(Aborted))
      else if kubeConfig != "" && KubeConfigPath(f, kubeContext) in f.unwritable then
        Outcome(w, Some(Because(CreatingKubeconfig, IOFailed(Unwritable(KubeConfigPath(f, kubeContext))))))
      else
        var file := if kubeConfig != "" then KubeConfigPath(f, kubeContext) else file0;
        var content := if kubeConfig == "" then "" else if kubeConfigBase64 then f.decoded[kubeConfig] else kubeConfig;
        var w1 := if kubeConfig != "" then w.(stat := w.stat[file := false], written := w.written[file := [content]]) else w;
        if kubeContext != "" then RunCmd(f, w1, LocalKubectlBin, SetContextParts(kubeContext, file), Because(SettingContext, CommandFailed))
        else Outcome(w1, None)
    }

    /** addHelmRepo. */
    function RepoSpec(f: Facts, w: World, repo: HelmRepo): Outcome
    {
      match RepoAddParts(repo, f.env, f.contents)
      case Failure(e) => Outcome(w, Some(e))
      case Success(parts) => RunCmd(f, w, HelmBin, parts, Because(AddingRepo(repo.name), CommandFailed))
    }

    /** The repositories added in order, stopping at the first failure. */
    function ReposSpec(f: Facts, w: World, repos: seq<HelmRepo>): Outcome
      decreases |repos|
    {
      if repos == [] then Outcome(w, None)
      else
        var o := Wrap(RepoSpec(f, w, repos[0]), AddingHelmRepo);
        if o.err.Some? then o else ReposSpec(f, o.w, repos[1..])
    }

    /** updateHelmRepos. */
    function UpdateSpec(f: Facts, w: World): Outcome
    {
      RunArgv(f, w, [HelmBin, "repo", "update"], Because(UpdatingHelmRepos, CommandFailed))
    }

    /** downloadCharts: creates ./downloads when missing, and fetches and
        unpacks the archive unless it is already there. */
    function DownloadSpec(f: Facts, w: World, source: string): Outcome
    {
      if DownloadsDir !in w.stat && DownloadsDir in f.unwritable then
        Outcome(w, Some(Because(CreatingDownloads, IOFailed(Unwritable(DownloadsDir)))))
      else
        var w1 := WithDownloadsDir(w);
        if source !in f.urlPaths then Outcome(w1, Some(Because(ParsingChartsUrl, UrlInvalid(source))))
        else FetchSpec(f, w1, source, TarPath(f.urlPaths[source]))
    }

    /** The world once ./downloads is in place: unchanged when the path
        exists, with the new directory otherwise. */
    function WithDownloadsDir(w: World): (w1: World)
      ensures DownloadsDir in w1.stat && w1.trace == w.trace && w1.written == w.written
      ensures DownloadsDir in w.stat ==> w1 == w
      ensures DownloadsDir !in w.stat ==> w1.stat == w.stat[DownloadsDir := true]
    {
      if DownloadsDir in w.stat then w else w.(stat := w.stat[DownloadsDir := true])
    }

    /** The fetch of downloadCharts: nothing when the archive `tar` is
        already there; otherwise fetch it into ./downloads and unpack it. */
    function FetchSpec(f: Facts, w: World, source: string, tar: string): Outcome
    {
      if Exists(w.stat, tar) then Outcome(w, None)
      else
        var o := RunArgv(f, w, [WgetBin, "-P", DownloadsDir, source], Because(ExtractingArchive, CommandFailed));
        if o.err.Some? then o
        else ExtractSpec(f, o.w.(stat := o.w.stat[tar := false]), tar)
    }

    /** extractCharts: unpacks the archive into ./downloads. */
    function ExtractSpec(f: Facts, w: World, archive: string): Outcome
    {
      RunArgv(f, w, [TarBin, "-xzf", archive, "-C", DownloadsDir], Because(ExtractingArchive, CommandFailed))
    }

    /** installAddonViaHelm: the charts download (when a source is set),
        then one chart-tool run whose value arguments are computed after
        the download. */
    function HelmInstallSpec(f: Facts, w: World, r: Release): Outcome
    {
      var d := if r.chartsSource != "" then Wrap(DownloadSpec(f, w, r.chartsSource), DownloadingCharts) else Outcome(w, None);
      if d.err.Some? then d
      else RunCmd(f, d.w, HelmBin, HelmParts(diffrun, dryrun, r, clusterConfig.helm, kubeContext, ValueArgs(r, f, d.w.stat)),
                  Because(RunningHelm, CommandFailed))
    }

    /** The invocation that renders a release's chart, given the paths
        that exist. */
    function TemplateInvocation(r: Release, f: Facts, stat: map<string, bool>): Invocation
    {
      Invocation(CommandLine(HelmBin, TemplateParts(r, ValueArgs(r, f, stat))), None)
    }

    /** The apply (or diff) invocation of a release, fed `manifests`. */
    function ApplyInvocation(r: Release, manifests: string): Invocation
    {
      Invocation(CommandLine(KubectlBin, KubectlApplyParts(diffrun, dryrun, r.namespace, kubeContext)), Some(manifests))
    }

    /** installAddonViaKubectl: render the chart, then apply the output,
        once more when the first apply fails (except in diff mode for a
        kubectl release, where that failure is ignored). */
    function KubectlInstallSpec(f: Facts, w: World, r: Release): Outcome
    {
      var w1 := Ran(w, TemplateInvocation(r, f, w.stat));
      if !f.succeeds(|w.trace|) then Outcome(w1, Some(Because(RenderingChart, CommandFailed)))
      else
        var inv := ApplyInvocation(r, f.output(|w.trace|));
        var w2 := Ran(w1, inv);
        if f.succeeds(|w1.trace|) || (diffrun && r.deploymentMethod == "kubectl") then Outcome(w2, None)
        else Outcome(Ran(w2, inv), if f.succeeds(|w2.trace|) then None else Some(CommandFailed))
    }

    /** waitForResource (and waitForDaemonSet for daemon sets). */
    function WaitResourceSpec(f: Facts, w: World, kind: string, name: string, namespace: string): Outcome
    {
      if kind == "daemonset" then RunCmd(f, w, KubectlBin, RolloutParts(name, namespace, kubeContext), Because(RolloutStatus, CommandFailed))
      else RunCmd(f, w, KubectlBin, WaitParts(kind, name, namespace, kubeContext), Because(WaitReady, CommandFailed))
    }

    /** Waits for each named resource of one kind in order, stopping at the
        first failure. */
    function WaitListSpec(f: Facts, w: World, kind: string, names: seq<string>, namespace: string): Outcome
      decreases |names|
    {
      if names == [] then Outcome(w, None)
      else
        var o := Wrap(WaitResourceSpec(f, w, kind, names[0], namespace), WaitingFor(kind, names[0]));
        if o.err.Some? then o else WaitListSpec(f, o.w, kind, names[1..], namespace)
    }

    /** waitForResources: nothing in a dry or diff run; otherwise the
        deployments, then the daemon sets, then the stateful sets. */
    function WaitSpec(f: Facts, w: World, r: Release): Outcome
    {
      if dryrun || diffrun then Outcome(w, None)
      else
        var o1 := WaitListSpec(f, w, "deployment", r.waitforDeployment, r.namespace);
        if o1.err.Some? then o1
        else
          var o2 := WaitListSpec(f, o1.w, "daemonset", r.waitforDaemonSet, r.namespace);
          if o2.err.Some? then o2
          else WaitListSpec(f, o2.w, "statefulset", r.waitforStatefulSet, r.namespace)
    }

    /** Applies each file in order, stopping at the first failure. */
    function ApplyEachSpec(f: Facts, w: World, files: seq<string>): Outcome
      decreases |files|
    {
      if files == [] then Outcome(w, None)
      else
        var o := RunCmd(f, w, KubectlBin, ApplyFileParts(files[0], kubeContext), Because(ApplyingFile(files[0]), CommandFailed));
        if o.err.Some? then o else ApplyEachSpec(f, o.w, files[1..])
    }

    /** Applies each path in order: a file itself, a directory its manifest
        files; a path that does not exist or a directory that cannot be
        read stops the run. */
    function ApplyPathsSpec(f: Facts, w: World, paths: seq<string>): Outcome
      decreases |paths|
    {
      if paths == [] then Outcome(w, None)
      else
        var o := ApplyPathSpec(f, w, paths[0]);
        if o.err.Some? then o else ApplyPathsSpec(f, o.w, paths[1..])
    }

    /** Applies one path: a file itself, a directory its manifest files. */
    function ApplyPathSpec(f: Facts, w: World, path: string): Outcome
    {
      if !Exists(w.stat, path) then Outcome(w, Some(Because(AccessingPath(path), IOFailed(Missing(path)))))
      else if IsDirectory(w.stat, path) && path !in f.listings then Outcome(w, Some(Because(ReadingDirectory(path), IOFailed(Missing(path)))))
      else ApplyEachSpec(f, w, if IsDirectory(w.stat, path) then YamlFiles(path, f.listings[path]) else [path])
    }

    /** applyKubectlFiles: nothing in a dry or diff run. */
    function ApplyFilesSpec(f: Facts, w: World, r: Release): Outcome
    {
      if dryrun || diffrun || |r.kubectlFiles| == 0 then Outcome(w, None)
      else ApplyPathsSpec(f, w, r.kubectlFiles)
    }

    /** installAddon: install by the release's method (the chart tool unless
        it says kubectl), wait for its resources, apply its extra files. */
    function InstallAddonSpec(f: Facts, w: World, r: Release): Outcome
    {
      var o1 := if r.deploymentMethod == "kubectl" then KubectlInstallSpec(f, w, r) else HelmInstallSpec(f, w, r);
      if o1.err.Some? then o1
      else
        var o2 := WaitSpec(f, o1.w, r);
        if o2.err.Some? then o2 else ApplyFilesSpec(f, o2.w, r)
    }

    /** The releases installed in order, stopping at the first failure. */
    function ReleasesSpec(f: Facts, w: World, rs: seq<Release>): Outcome
      decreases |rs|
    {
      if rs == [] then Outcome(w, None)
      else
        var o := Wrap(InstallAddonSpec(f, w, rs[0]), InstallingAddon(rs[0].name));
        if o.err.Some? then o else ReleasesSpec(f, o.w, rs[1..])
    }

    /** The repository set-up of Exec: add every repository, then update. */
    function RepoSetupSpec(f: Facts, w: World): Outcome
    {
      var a := ReposSpec(f, w, clusterConfig.helm.repos);
      if a.err.Some? then a else Wrap(UpdateSpec(f, a.w), UpdatingHelmRepos)
    }

    /** Exec outside audit mode. The kubeconfig set-up and the installs are
        both skipped when the configuration skips the kubeconfig set-up. */
    function DeploySpec(f: Facts, w: World, file0: string): Outcome
    {
      var helm := clusterConfig.helm;
      var k := if !helm.skipSetupKubeConfig then Wrap(SetupKubeSpec(f, w, file0), InitKubeconfig) else Outcome(w, None);
      if k.err.Some? then k
      else
        var r := if !helm.skipSetupHelmRepo then RepoSetupSpec(f, k.w) else Outcome(k.w, None);
        if r.err.Some? || helm.skipSetupKubeConfig then r
        else ReleasesSpec(f, r.w, clusterConfig.releases)
    }

    // --------------------------------------------------------- properties

    /** Downloading charts only grows the world: it runs programs and adds
        the downloads directory and the archive, never rewrites an existing
        path and writes no file. */
    lemma {:induction false} DownloadGrows(f: Facts, w: World, source: string)
      ensures Grows(w, DownloadSpec(f, w, source).w)
    {
      if !(DownloadsDir !in w.stat && DownloadsDir in f.unwritable) {
        var w1 := WithDownloadsDir(w);
        if DownloadsDir !in w.stat {
          AddPathGrows(w, DownloadsDir, true);
        } else {
          assert w.trace[..|w.trace|] == w.trace;
        }
        if source in f.urlPaths {
          var tar := TarPath(f.urlPaths[source]);
          FetchGrows(f, w1, source, tar);
          GrowsTrans(w, w1, FetchSpec(f, w1, source, tar).w);
        }
      } else {
        assert w.trace[..|w.trace|] == w.trace;
      }
    }

    /** Fetching only grows the world: two runs and the archive path. */
    lemma {:induction false} FetchGrows(f: Facts, w: World, source: string, tar: string)
      ensures Grows(w, FetchSpec(f, w, source, tar).w)
    {
      if Exists(w.stat, tar) {
        assert w.trace[..|w.trace|] == w.trace;
      } else {
        var inv := Invocation([WgetBin, "-P", DownloadsDir, source], None);
        var w2 := Ran(w, inv);
        RanGrows(w, inv);
        if f.succeeds(|w.trace|) {
          var w3 := w2.(stat := w2.stat[tar := false]);
          AddPathGrows(w2, tar, false);
          GrowsTrans(w, w2, w3);
          RanGrows(w3, Invocation([TarBin, "-xzf", tar, "-C", DownloadsDir], None));
          GrowsTrans(w, w3, ExtractSpec(f, w3, tar).w);
        }
      }
    }

    /** A successful download leaves the downloads directory and the
        archive in place, so downloading the same charts again runs
        nothing and changes nothing. */
    lemma {:induction false} DownloadCached(f: Facts, w: World, source: string)
      requires DownloadSpec(f, w, source).err.None?
      ensures DownloadsDir in DownloadSpec(f, w, source).w.stat
      ensures DownloadSpec(f, DownloadSpec(f, w, source).w, source) == Outcome(DownloadSpec(f, w, source).w, None)
    {
      var w1 := WithDownloadsDir(w);
      var tar := TarPath(f.urlPaths[source]);
      var o := DownloadSpec(f, w, source);
      assert o == FetchSpec(f, w1, source, tar);
      FetchLeavesArchive(f, w1, source, tar);
      assert DownloadSpec(f, o.w, source) == FetchSpec(f, o.w, source, tar);
    }

    /** A URL path that is empty or ends in `/` names no archive: the path
        checked is the downloads directory itself, which is there once the
        directory step succeeds, so nothing is fetched or unpacked. A
        downloads path that exists as a plain file does not count. */
    lemma {:induction false} DownloadDirectoryPathSkips(f: Facts, w: World, source: string)
      requires source in f.urlPaths && (f.urlPaths[source] == "" || f.urlPaths[source][|f.urlPaths[source]| - 1] == '/')
      requires DownloadsDir in w.stat ==> w.stat[DownloadsDir]
      requires DownloadsDir !in w.stat ==> DownloadsDir !in f.unwritable
      ensures TarPath(f.urlPaths[source]) == DownloadsDir + "/"
      ensures DownloadSpec(f, w, source) == Outcome(WithDownloadsDir(w), None)
    {
      var w1 := WithDownloadsDir(w);
      TarPathOfDirectory(f.urlPaths[source]);
      DirectoryWithSlashExists(w1.stat, DownloadsDir);
      DownloadArchivePresent(f, w, source);
    }

    /** When the archive's path is found once the downloads directory is in
        place, the download runs nothing and succeeds. */
    lemma {:induction false} DownloadArchivePresent(f: Facts, w: World, source: string)
      requires source in f.urlPaths
      requires DownloadsDir !in w.stat ==> DownloadsDir !in f.unwritable
      requires Exists(WithDownloadsDir(w).stat, TarPath(f.urlPaths[source]))
      ensures DownloadSpec(f, w, source) == Outcome(WithDownloadsDir(w), None)
    {
    }

    /** A URL path with an empty last segment names the downloads
        directory itself, with a trailing slash. */
    lemma {:induction false} TarPathOfDirectory(urlPath: string)
      requires urlPath == "" || urlPath[|urlPath| - 1] == '/'
      ensures TarPath(urlPath) == DownloadsDir + "/"
    {
      LastSegmentAfterSlash(urlPath);
      assert DownloadsDir + "/" + "" == DownloadsDir + "/";
    }

    /** Fetching the downloads directory's own path (with its trailing
        slash) runs nothing once that directory exists. */
    lemma {:induction false} FetchDirectorySkips(f: Facts, w: World, source: string)
      requires DownloadsDir in w.stat && w.stat[DownloadsDir]
      ensures FetchSpec(f, w, source, DownloadsDir + "/") == Outcome(w, None)
    {
      DirectoryWithSlashExists(w.stat, DownloadsDir);
    }

    /** A fetch keeps every path and, when it succeeds, leaves the archive. */
    lemma {:induction false} FetchLeavesArchive(f: Facts, w: World, source: string, tar: string)
      ensures forall p :: p in w.stat ==> p in FetchSpec(f, w, source, tar).w.stat
      ensures FetchSpec(f, w, source, tar).err.None? ==> Exists(FetchSpec(f, w, source, tar).w.stat, tar)
    {
      if !Exists(w.stat, tar) {
        var w2 := Ran(w, Invocation([WgetBin, "-P", DownloadsDir, source], None));
        assert w2.stat == w.stat;
        var w3 := w2.(stat := w2.stat[tar := false]);
        if f.succeeds(|w.trace|) {
          assert FetchSpec(f, w, source, tar).w.stat == ExtractSpec(f, w3, tar).w.stat == w3.stat;
        }
      }
    }

    /** The chart-tool install only grows the world. */
    lemma {:induction false} HelmInstallGrows(f: Facts, w: World, r: Release)
      ensures Grows(w, HelmInstallSpec(f, w, r).w)
    {
      var d := if r.chartsSource != "" then Wrap(DownloadSpec(f, w, r.chartsSource), DownloadingCharts) else Outcome(w, None);
      if r.chartsSource != "" {
        DownloadGrows(f, w, r.chartsSource);
      } else {
        assert w.trace[..|w.trace|] == w.trace;
      }
      if d.err.None? {
        var inv := Invocation(CommandLine(HelmBin, HelmParts(diffrun, dryrun, r, clusterConfig.helm, kubeContext, ValueArgs(r, f, d.w.stat))), None);
        RanGrows(d.w, inv);
        GrowsTrans(w, d.w, Ran(d.w, inv));
      }
    }

    /** The kubectl install renders the chart once and then feeds the
        rendered manifests to the apply (or diff) command: a second time,
        with the same command and input, exactly when the first attempt
        fails and the run is not a diff of a kubectl release. It fails
        exactly when rendering fails or both attempts fail; it changes no
        path and writes no file. */
    lemma {:induction false} KubectlRetry(f: Facts, w: World, r: Release)
      ensures var o := KubectlInstallSpec(f, w, r);
        var n := |w.trace|;
        var apply := ApplyInvocation(r, f.output(n));
        var retried := f.succeeds(n) && !f.succeeds(n + 1) && !(diffrun && r.deploymentMethod == "kubectl");
        && o.w.stat == w.stat && o.w.written == w.written
        && o.w.trace == w.trace + [TemplateInvocation(r, f, w.stat)] + (if f.succeeds(n) then [apply] else []) + (if retried then [apply] else [])
        && (o.err.Some? <==> !f.succeeds(n) || (retried && !f.succeeds(n + 2)))
    {
      var n := |w.trace|;
      var o := KubectlInstallSpec(f, w, r);
      var w1 := Ran(w, TemplateInvocation(r, f, w.stat));
      assert |w1.trace| == n + 1;
      if f.succeeds(n) {
        var inv := ApplyInvocation(r, f.output(n));
        var w2 := Ran(w1, inv);
        assert |w2.trace| == n + 2;
        if f.succeeds(n + 1) || (diffrun && r.deploymentMethod == "kubectl") {
          assert o == Outcome(w2, None);
        } else {
          assert o.w == Ran(w2, inv);
        }
      } else {
        assert o.w == w1;
      }
    }

    /** In a diff run of a kubectl release, a failing diff is not an error:
        once the chart renders, the install succeeds after one diff. */
    lemma {:induction false} DiffIgnoresApplyFailure(f: Facts, w: World, r: Release)
      requires diffrun && r.deploymentMethod == "kubectl" && f.succeeds(|w.trace|)
      ensures InstallAddonSpec(f, w, r).err.None?
      ensures |InstallAddonSpec(f, w, r).w.trace| == |w.trace| + 2
    {
      KubectlRetry(f, w, r);
    }

    /** The invocation that waits for one resource. */
    function WaitInvocation(kind: string, name: string, namespace: string): Invocation
    {
      Invocation(CommandLine(KubectlBin, if kind == "daemonset" then RolloutParts(name, namespace, kubeContext)
                                         else WaitParts(kind, name, namespace, kubeContext)), None)
    }

    /** The invocations that wait for each named resource, in order. */
    function WaitInvocations(kind: string, names: seq<string>, namespace: string): (r: seq<Invocation>)
      ensures |r| == |names|
    {
      if names == [] then [] else [WaitInvocation(kind, names[0], namespace)] + WaitInvocations(kind, names[1..], namespace)
    }

    /** The runs from position `n` on succeed up to, and not including,
        position `n + k`, and that one fails. */
    predicate FirstFailure(f: Facts, n: nat, k: nat)
    {
      !f.succeeds(n + k) && forall j :: n <= j < n + k ==> f.succeeds(j)
    }

    /** Waiting for `names` from `w` stopped at its `k`-th resource: the
        waits up to that one ran, that one failed first, and the error
        names it. */
    predicate WaitStoppedAt(f: Facts, w: World, o: Outcome, kind: string, names: seq<string>, namespace: string, k: nat)
    {
      && k < |names| && FirstFailure(f, |w.trace|, k)
      && o.w.trace == w.trace + WaitInvocations(kind, names[..k + 1], namespace)
      && o.err.Some? && o.err.value.Because? && o.err.value.op == WaitingFor(kind, names[k])
    }

    /** Waiting for a list runs one wait per name, in order, and stops at
        the first that fails, reporting that resource; it fails exactly
        when some wait fails, and changes no path and writes no file. */
    lemma {:induction false} WaitListRuns(f: Facts, w: World, kind: string, names: seq<string>, namespace: string)
      ensures var o := WaitListSpec(f, w, kind, names, namespace);
        && o.w.stat == w.stat && o.w.written == w.written
        && (o.err.None? <==> forall j :: |w.trace| <= j < |w.trace| + |names| ==> f.succeeds(j))
        && (o.err.None? ==> o.w.trace == w.trace + WaitInvocations(kind, names, namespace))
        && (o.err.Some? ==> exists k :: WaitStoppedAt(f, w, o, kind, names, namespace, k))
    {
      WaitListFrame(f, w, kind, names, namespace);
      WaitListSucceeds(f, w, kind, names, namespace);
      if WaitListSpec(f, w, kind, names, namespace).err.Some? {
        var k := WaitListStop(f, w, kind, names, namespace);
      }
    }

    /** Waiting changes no path and writes no file. */
    lemma {:induction false} WaitListFrame(f: Facts, w: World, kind: string, names: seq<string>, namespace: string)
      ensures WaitListSpec(f, w, kind, names, namespace).w.stat == w.stat
      ensures WaitListSpec(f, w, kind, names, namespace).w.written == w.written
      decreases |names|
    {
      if names != [] {
        var o1 := Wrap(WaitResourceSpec(f, w, kind, names[0], namespace), WaitingFor(kind, names[0]));
        WaitOne(f, w, kind, names[0], namespace);
        if o1.err.None? {
          WaitListFrame(f, o1.w, kind, names[1..], namespace);
        }
      }
    }

    /** Waiting succeeds exactly when every wait does, and then runs one
        wait per name, in order. */
    lemma {:induction false} WaitListSucceeds(f: Facts, w: World, kind: string, names: seq<string>, namespace: string)
      ensures var o := WaitListSpec(f, w, kind, names, namespace);
        && (o.err.None? <==> forall j :: |w.trace| <= j < |w.trace| + |names| ==> f.succeeds(j))
        && (o.err.None? ==> o.w.trace == w.trace + WaitInvocations(kind, names, namespace))
      decreases |names|
    {
      if names != [] {
        var n := |w.trace|;
        var inv := WaitInvocation(kind, names[0], namespace);
        var o1 := Wrap(WaitResourceSpec(f, w, kind, names[0], namespace), WaitingFor(kind, names[0]));
        WaitOne(f, w, kind, names[0], namespace);
        if o1.err.None? {
          var rest := names[1..];
          WaitListSucceeds(f, o1.w, kind, rest, namespace);
          assert |o1.w.trace| == n + 1;
          TraceAssoc(w.trace, inv, WaitInvocations(kind, rest, namespace));
        }
      }
    }

    /** A failed wait stopped at some resource. */
    lemma {:induction false} WaitListStop(f: Facts, w: World, kind: string, names: seq<string>, namespace: string) returns (k: nat)
      requires WaitListSpec(f, w, kind, names, namespace).err.Some?
      ensures WaitStoppedAt(f, w, WaitListSpec(f, w, kind, names, namespace), kind, names, namespace, k)
      decreases |names|
    {
      var o := WaitListSpec(f, w, kind, names, namespace);
      var o1 := Wrap(WaitResourceSpec(f, w, kind, names[0], namespace), WaitingFor(kind, names[0]));
      assert o == if o1.err.Some? then o1 else WaitListSpec(f, o1.w, kind, names[1..], namespace);
      WaitOne(f, w, kind, names[0], namespace);
      if o1.err.Some? {
        WaitInvocationsOne(kind, names, namespace);
        assert FirstFailure(f, |w.trace|, 0);
        assert o.w.trace == w.trace + WaitInvocations(kind, names[..1], namespace);
        k := 0;
      } else {
        assert o1.w.trace == w.trace + [WaitInvocation(kind, names[0], namespace)];
        var k' := WaitListStop(f, o1.w, kind, names[1..], namespace);
        WaitStoppedStep(f, w, o1.w, o, kind, names, namespace, k');
        k := k' + 1;
      }
    }

    /** One wait runs its command once and fails, naming its resource,
        exactly when that run fails. */
    lemma {:induction false} WaitOne(f: Facts, w: World, kind: string, name: string, namespace: string)
      ensures var o := Wrap(WaitResourceSpec(f, w, kind, name, namespace), WaitingFor(kind, name));
        && o.w == Ran(w, WaitInvocation(kind, name, namespace))
        && (o.err.Some? <==> !f.succeeds(|w.trace|))
        && (o.err.Some? ==> o.err.value.Because? && o.err.value.op == WaitingFor(kind, name))
    {
    }

    lemma {:induction false} WaitInvocationsOne(kind: string, names: seq<string>, namespace: string)
      requires names != []
      ensures WaitInvocations(kind, names[..1], namespace) == [WaitInvocation(kind, names[0], namespace)]
    {
      assert names[..1][1..] == [];
    }

    /** A stop at the `k`-th resource after the first wait succeeded is a
        stop at the `k + 1`-th of the whole list. */
    lemma {:induction false} WaitStoppedStep(f: Facts, w: World, w1: World, o: Outcome, kind: string, names: seq<string>, namespace: string, k: nat)
      requires names != [] && f.succeeds(|w.trace|)
      requires w1.trace == w.trace + [WaitInvocation(kind, names[0], namespace)]
      requires WaitStoppedAt(f, w1, o, kind, names[1..], namespace, k)
      ensures WaitStoppedAt(f, w, o, kind, names, namespace, k + 1)
    {
      assert FirstFailure(f, |w1.trace|, k);
      FirstFailureStep(f, |w.trace|, k);
      WaitTraceStep(w.trace, w1.trace, o.w.trace, kind, names, namespace, k);
      assert names[1..][k] == names[k + 1];
    }

    lemma {:induction false} FirstFailureStep(f: Facts, n: nat, k: nat)
      requires f.succeeds(n) && FirstFailure(f, n + 1, k)
      ensures FirstFailure(f, n, k + 1)
    {
      forall j | n <= j < n + (k + 1) ensures f.succeeds(j) {
        if j > n {
          assert n + 1 <= j < n + 1 + k;
        }
      }
    }

    lemma {:induction false} WaitTraceStep(trace: seq<Invocation>, t1: seq<Invocation>, t2: seq<Invocation>,
                                           kind: string, names: seq<string>, namespace: string, k: nat)
      requires k + 1 < |names|
      requires t1 == trace + [WaitInvocation(kind, names[0], namespace)]
      requires t2 == t1 + WaitInvocations(kind, names[1..][..k + 1], namespace)
      ensures t2 == trace + WaitInvocations(kind, names[..k + 2], namespace)
    {
      assert names[..k + 2][1..] == names[1..][..k + 1];
      assert WaitInvocations(kind, names[..k + 2], namespace)
        == [WaitInvocation(kind, names[0], namespace)] + WaitInvocations(kind, names[1..][..k + 1], namespace);
      TraceAssoc(trace, WaitInvocation(kind, names[0], namespace), WaitInvocations(kind, names[1..][..k + 1], namespace));
    }

    /** Dry and diff runs install and nothing more: no waits and no extra
        manifest files. */
    lemma {:induction false} DryOrDiffOnlyInstalls(f: Facts, w: World, r: Release)
      requires dryrun || diffrun
      ensures InstallAddonSpec(f, w, r)
        == if r.deploymentMethod == "kubectl" then KubectlInstallSpec(f, w, r) else HelmInstallSpec(f, w, r)
    {
    }

    /** The kubectl install only grows the world. */
    lemma {:induction false} KubectlInstallGrows(f: Facts, w: World, r: Release)
      ensures Grows(w, KubectlInstallSpec(f, w, r).w)
    {
      KubectlRetry(f, w, r);
    }

    /** Waiting only grows the world. */
    lemma {:induction false} WaitGrows(f: Facts, w: World, r: Release)
      ensures Grows(w, WaitSpec(f, w, r).w)
    {
      if dryrun || diffrun {
        assert w.trace[..|w.trace|] == w.trace;
      } else {
        var o1 := WaitListSpec(f, w, "deployment", r.waitforDeployment, r.namespace);
        WaitListRuns(f, w, "deployment", r.waitforDeployment, r.namespace);
        WaitListGrows(f, w, "deployment", r.waitforDeployment, r.namespace);
        if o1.err.None? {
          var o2 := WaitListSpec(f, o1.w, "daemonset", r.waitforDaemonSet, r.namespace);
          WaitListGrows(f, o1.w, "daemonset", r.waitforDaemonSet, r.namespace);
          GrowsTrans(w, o1.w, o2.w);
          if o2.err.None? {
            WaitListGrows(f, o2.w, "statefulset", r.waitforStatefulSet, r.namespace);
            GrowsTrans(w, o2.w, WaitListSpec(f, o2.w, "statefulset", r.waitforStatefulSet, r.namespace).w);
          }
        }
      }
    }

    lemma {:induction false} WaitListGrows(f: Facts, w: World, kind: string, names: seq<string>, namespace: string)
      ensures Grows(w, WaitListSpec(f, w, kind, names, namespace).w)
      decreases |names|
    {
      if names == [] {
        assert w.trace[..|w.trace|] == w.trace;
      } else {
        var inv := WaitInvocation(kind, names[0], namespace);
        var o1 := Wrap(WaitResourceSpec(f, w, kind, names[0], namespace), WaitingFor(kind, names[0]));
        WaitOne(f, w, kind, names[0], namespace);
        RanGrows(w, inv);
        if o1.err.None? {
          WaitListGrows(f, o1.w, kind, names[1..], namespace);
          GrowsTrans(w, o1.w, WaitListSpec(f, o1.w, kind, names[1..], namespace).w);
        }
      }
    }

    /** The invocation that applies one manifest file. */
    function ApplyFileInvocation(file: string): Invocation
    {
      Invocation(CommandLine(KubectlBin, ApplyFileParts(file, kubeContext)), None)
    }

    /** The invocations that apply each file, in order. */
    function ApplyFileInvocations(files: seq<string>): (r: seq<Invocation>)
      ensures |r| == |files|
    {
      if files == [] then [] else [ApplyFileInvocation(files[0])] + ApplyFileInvocations(files[1..])
    }

    /** Applying files runs one apply per file, in order; it succeeds
        exactly when every apply does, having then run exactly those, and
        it changes no path and writes no file. */
    lemma {:induction false} ApplyEachRuns(f: Facts, w: World, files: seq<string>)
      ensures var o := ApplyEachSpec(f, w, files);
        && o.w.stat == w.stat && o.w.written == w.written
        && |w.trace| <= |o.w.trace| && o.w.trace[..|w.trace|] == w.trace
        && (o.err.None? <==> forall j :: |w.trace| <= j < |w.trace| + |files| ==> f.succeeds(j))
        && (o.err.None? ==> o.w.trace == w.trace + ApplyFileInvocations(files))
        && (o.err.Some? ==> exists i :: 0 <= i < |files| && o.err == Some(Because(ApplyingFile(files[i]), CommandFailed)))
      decreases |files|
    {
      if files != [] {
        var n := |w.trace|;
        var inv := ApplyFileInvocation(files[0]);
        var o1 := RunCmd(f, w, KubectlBin, ApplyFileParts(files[0], kubeContext), Because(ApplyingFile(files[0]), CommandFailed));
        assert o1.w == Ran(w, inv);
        var o := ApplyEachSpec(f, w, files);
        if o1.err.Some? {
          assert o == o1;
          assert o.w.trace[..n] == w.trace;
        } else {
          var rest := files[1..];
          ApplyEachRuns(f, o1.w, rest);
          var o2 := ApplyEachSpec(f, o1.w, rest);
          assert o == o2;
          assert o2.w.trace[..n] == o2.w.trace[..n + 1][..n];
          if o2.err.None? {
            assert ApplyFileInvocations(files) == [inv] + ApplyFileInvocations(rest);
            TraceAssoc(w.trace, inv, ApplyFileInvocations(rest));
          } else {
            var i :| 0 <= i < |rest| && o2.err == Some(Because(ApplyingFile(rest[i]), CommandFailed));
            assert rest[i] == files[i + 1];
            assert !(forall j :: n + 1 <= j < n + 1 + |rest| ==> f.succeeds(j));
          }
        }
      }
    }

    /** A kubectl path naming a recorded directory with a trailing slash is
        found and applied as that directory: its manifests are applied, in
        listing order, under the path as written. */
    lemma {:induction false} ApplySlashedDirectory(f: Facts, w: World, dir: string)
      requires dir in w.stat && w.stat[dir] && dir != "" && dir + "/" !in w.stat && dir + "/" in f.listings
      ensures ApplyPathSpec(f, w, dir + "/") == ApplyEachSpec(f, w, YamlFiles(dir + "/", f.listings[dir + "/"]))
    {
      DirectoryWithSlashExists(w.stat, dir);
    }

    /** Applying paths only grows the world. */
    lemma {:induction false} ApplyPathsGrows(f: Facts, w: World, paths: seq<string>)
      ensures Grows(w, ApplyPathsSpec(f, w, paths).w)
      decreases |paths|
    {
      var o := ApplyPathsSpec(f, w, paths);
      if paths == [] || !Exists(w.stat, paths[0]) || (IsDirectory(w.stat, paths[0]) && paths[0] !in f.listings) {
        assert o.w == w;
        assert w.trace[..|w.trace|] == w.trace;
      } else {
        var path := paths[0];
        var files := if IsDirectory(w.stat, path) then YamlFiles(path, f.listings[path]) else [path];
        var o1 := ApplyEachSpec(f, w, files);
        ApplyEachRuns(f, w, files);
        if o1.err.None? {
          ApplyPathsGrows(f, o1.w, paths[1..]);
          GrowsTrans(w, o1.w, ApplyPathsSpec(f, o1.w, paths[1..]).w);
        }
      }
    }

    /** Installing a release only grows the world: it runs programs and
        may add the downloads directory and a chart archive, but it never
        rewrites an existing path and writes no file. */
    lemma {:induction false} InstallAddonGrows(f: Facts, w: World, r: Release)
      ensures Grows(w, InstallAddonSpec(f, w, r).w)
    {
      var o1 := if r.deploymentMethod == "kubectl" then KubectlInstallSpec(f, w, r) else HelmInstallSpec(f, w, r);
      if r.deploymentMethod == "kubectl" {
        KubectlInstallGrows(f, w, r);
      } else {
        HelmInstallGrows(f, w, r);
      }
      if o1.err.None? {
        var o2 := WaitSpec(f, o1.w, r);
        WaitGrows(f, o1.w, r);
        GrowsTrans(w, o1.w, o2.w);
        if o2.err.None? {
          if dryrun || diffrun || |r.kubectlFiles| == 0 {
            assert ApplyFilesSpec(f, o2.w, r).w == o2.w;
          } else {
            ApplyPathsGrows(f, o2.w, r.kubectlFiles);
          }
          assert o2.w.trace[..|o2.w.trace|] == o2.w.trace;
          GrowsTrans(w, o2.w, ApplyFilesSpec(f, o2.w, r).w);
        }
      }
    }

    /** Installing the releases only grows the world. */
    lemma {:induction false} ReleasesGrow(f: Facts, w: World, rs: seq<Release>)
      ensures Grows(w, ReleasesSpec(f, w, rs).w)
      decreases |rs|
    {
      if rs == [] {
        assert w.trace[..|w.trace|] == w.trace;
      } else {
        var o := Wrap(InstallAddonSpec(f, w, rs[0]), InstallingAddon(rs[0].name));
        InstallAddonGrows(f, w, rs[0]);
        if o.err.None? {
          ReleasesGrow(f, o.w, rs[1..]);
          GrowsTrans(w, o.w, ReleasesSpec(f, o.w, rs[1..]).w);
        }
      }
    }

    /** Installing `xs + ys` installs `xs` and then, unless that failed,
        `ys` from where `xs` left off. */
    lemma {:induction false} ReleasesAppend(f: Facts, w: World, xs: seq<Release>, ys: seq<Release>)
      ensures ReleasesSpec(f, w, xs + ys)
        == var o := ReleasesSpec(f, w, xs); if o.err.Some? then o else ReleasesSpec(f, o.w, ys)
      decreases |xs|
    {
      if xs == [] {
        assert xs + ys == ys;
      } else {
        assert (xs + ys)[0] == xs[0] && (xs + ys)[1..] == xs[1..] + ys;
        var o := Wrap(InstallAddonSpec(f, w, xs[0]), InstallingAddon(xs[0].name));
        if o.err.None? {
          ReleasesAppend(f, o.w, xs[1..], ys);
        }
      }
    }

    /** Adding repositories only runs the chart tool, and only grows the
        world. */
    lemma {:induction false} ReposRunOnlyHelm(f: Facts, w: World, repos: seq<HelmRepo>)
      ensures var o := ReposSpec(f, w, repos);
        Grows(w, o.w) && forall i :: |w.trace| <= i < |o.w.trace| ==> Runs(o.w.trace[i], HelmBin)
      decreases |repos|
    {
      var o := ReposSpec(f, w, repos);
      if repos == [] {
        assert w.trace[..|w.trace|] == w.trace;
      } else {
        var o1 := Wrap(RepoSpec(f, w, repos[0]), AddingHelmRepo);
        match RepoAddParts(repos[0], f.env, f.contents)
        case Failure(_) =>
          assert o1.w == w;
          assert w.trace[..|w.trace|] == w.trace;
        case Success(parts) =>
          var n := |w.trace|;
          var inv := Invocation(CommandLine(HelmBin, parts), None);
          assert Runs(inv, HelmBin);
          assert o1.w == Ran(w, inv);
          RanGrows(w, inv);
          if o1.err.None? {
            ReposRunOnlyHelm(f, o1.w, repos[1..]);
            assert o == ReposSpec(f, o1.w, repos[1..]);
            GrowsTrans(w, o1.w, o.w);
            forall i | n <= i < |o.w.trace| ensures Runs(o.w.trace[i], HelmBin) {
              if i == n {
                assert o.w.trace[n] == o.w.trace[..n + 1][n] == o1.w.trace[n];
              }
            }
          } else {
            assert o == o1;
          }
      }
    }

    /** With the kubeconfig set-up skipped, a deploy runs nothing but the
        chart tool's repository commands, installs nothing and writes no
        file. */
    lemma {:induction false} SkipKubeconfigRunsOnlyHelm(f: Facts, w: World, file0: string)
      requires clusterConfig.helm.skipSetupKubeConfig
      ensures var o := DeploySpec(f, w, file0);
        Grows(w, o.w) && forall i :: |w.trace| <= i < |o.w.trace| ==> Runs(o.w.trace[i], HelmBin)
    {
      if clusterConfig.helm.skipSetupHelmRepo {
        assert w.trace[..|w.trace|] == w.trace;
      } else {
        var a := ReposSpec(f, w, clusterConfig.helm.repos);
        ReposRunOnlyHelm(f, w, clusterConfig.helm.repos);
        if a.err.None? {
          var inv := Invocation([HelmBin, "repo", "update"], None);
          RanGrows(a.w, inv);
          GrowsTrans(w, a.w, Ran(a.w, inv));
        }
      }
    }

    /** A kubeconfig set-up that succeeds with a configuration leaves it,
        decoded when asked, in the context's kubeconfig file (and nothing
        else written), and then, with a context, selects that context in
        that file as its only run. */
    lemma {:induction false} SetupKubeWrites(f: Facts, w: World, file0: string)
      requires kubeConfig != "" && SetupKubeSpec(f, w, file0).err.None?
      ensures var o := SetupKubeSpec(f, w, file0);
        var path := KubeConfigPath(f, kubeContext);
        && o.w.written == w.written[path := [if kubeConfigBase64 then f.decoded[kubeConfig] else kubeConfig]]
        && path in o.w.stat && !o.w.stat[path]
        && o.w.trace == w.trace + (if kubeContext != "" then [Invocation(CommandLine(LocalKubectlBin, SetContextParts(kubeContext, path)), None)] else [])
    {
    }

    // ---------------------------------------------------------- operations

    /** overrides: the value arguments of a release, read against the paths
        that exist now. */
    method Overrides(release: Release, h: Host) returns (args: seq<Arg>)
      ensures args == ValueArgs(release, h.facts, h.stat)
    {
      args := CliValueFiles();
      var path := DefaultValuesPath(release.name);
      if Exists(h.stat, path) {
        args := args + [ValueFileArg(path)];
      }
      ghost var withDefault := args;
      var existing := ExistingValueFiles(release.valueFiles, h);
      args := args + existing;
      path := ClusterValuesPath(release.name, clusterConfig.name);
      if clusterConfig.name != "" && Exists(h.stat, path) {
        args := args + [ValueFileArg(path)];
      }
      assert args == FileArgs(valueFiles, clusterConfig.name, release, h.stat);
      var built := BuiltOverrides(release.overrides, h);
      args := args + built;
    }

    /** The run-level value files, trimmed, in order (the first loop of
        overrides). */
    method CliValueFiles() returns (args: seq<Arg>)
      ensures args == CliFileArgs(valueFiles)
    {
      var vfs := valueFiles;
      args := [];
      var i := 0;
      while i < |vfs|
        invariant 0 <= i <= |vfs|
        invariant args == CliFileArgs(vfs[..i])
      {
        CliFileArgsSnoc(vfs, i);
        args := args + [ValueFileArg(TrimSpace(vfs[i]))];
        i := i + 1;
      }
      assert vfs[..i] == vfs;
    }

    /** The value files of a release that exist, in order (the second loop
        of overrides). */
    method ExistingValueFiles(paths: seq<string>, h: Host) returns (args: seq<Arg>)
      ensures args == ExistingFileArgs(paths, h.stat)
    {
      args := [];
      var j := 0;
      while j < |paths|
        invariant 0 <= j <= |paths|
        invariant args == ExistingFileArgs(paths[..j], h.stat)
      {
        assert paths[..j + 1][..j] == paths[..j];
        if Exists(h.stat, paths[j]) {
          args := args + [ValueFileArg(paths[j])];
        }
        j := j + 1;
      }
      assert paths[..j] == paths;
    }

    /** The arguments of the overrides that build, in order; the others are
        skipped (the last loop of overrides). */
    method BuiltOverrides(ovs: seq<Override>, h: Host) returns (args: seq<Arg>)
      ensures args == OverrideArgs(ovs, h.facts.env, h.facts.contents)
    {
      args := [];
      var k := 0;
      while k < |ovs|
        invariant 0 <= k <= |ovs|
        invariant args == OverrideArgs(ovs[..k], h.facts.env, h.facts.contents)
      {
        assert ovs[..k + 1][..k] == ovs[..k];
        match ovs[k].BuildArg(h.facts.env, h.facts.contents) {
          case Success(a) => args := args + [a];
          case Failure(_) =>
        }
        k := k + 1;
      }
      assert ovs[..k] == ovs;
    }

    /** getYAMLFilesFromDir: the manifest files of a directory, in listing
        order; a directory that cannot be read is an error. */
    method GetYamlFilesFromDir(dirPath: string, h: Host) returns (yamlFiles: seq<string>, err: Option<IOError>)
      ensures dirPath !in h.facts.listings ==> yamlFiles == [] && err == Some(Missing(dirPath))
      ensures dirPath in h.facts.listings ==> yamlFiles == YamlFiles(dirPath, h.facts.listings[dirPath]) && err.None?
    {
      yamlFiles := [];
      if dirPath !in h.facts.listings {
        return [], Some(Missing(dirPath));
      }
      var files := h.facts.listings[dirPath];
      var i := 0;
      while i < |files|
        invariant 0 <= i <= |files|
        invariant yamlFiles == YamlFiles(dirPath, files[..i])
      {
        assert files[..i + 1][..i] == files[..i];
        var file := files[i];
        if !file.isDir && !IsKustomization(file.name) && (HasSuffix(file.name, ".yaml") || HasSuffix(file.name, ".yml")) {
          yamlFiles := yamlFiles + [dirPath + "/" + file.name];
        }
        i := i + 1;
      }
      assert files[..i] == files;
      err := None;
    }

    /** setupKubeconfig: with a configuration, write it (base64-decoded when
        asked) to the context's kubeconfig file and use that file; with a
        context, select it. */
    method SetupKubeconfig(h: Host) returns (err: Option<Error>)
      modifies this, h
      ensures kubeConfigFile == (if kubeConfig != "" then KubeConfigPath(h.facts, kubeContext) else old(kubeConfigFile))
      ensures h.State() == SetupKubeSpec(h.facts, old(h.State()), old(kubeConfigFile)).w
      ensures err == SetupKubeSpec(h.facts, old(h.State()), old(kubeConfigFile)).err
    {
      if kubeConfig != "" {
        kubeConfigFile := Getenv(h.facts, "HOME") + "/.kube/config" + "-" + kubeContext;
        var byteData: string;
        if kubeConfigBase64 {
          if kubeConfig !in h.facts.decoded {
            return Some(Aborted);
          }
          byteData := h.facts.decoded[kubeConfig];
        } else {
          byteData := kubeConfig;
        }
        var ok := h.WriteFile(kubeConfigFile, byteData);
        if !ok {
          return Some(Because(CreatingKubeconfig, IOFailed(Unwritable(kubeConfigFile))));
        }
      }
      ghost var w1 := h.State();
      assert kubeConfigFile == (if kubeConfig != "" then KubeConfigPath(h.facts, kubeContext) else old(kubeConfigFile));
      if kubeContext != "" {
        var cb := new CommandBuilder(LocalKubectlBin);
        cb.Add(SetContextParts(kubeContext, kubeConfigFile));
        assert cb.parts == SetContextParts(kubeContext, kubeConfigFile);
        var ok := cb.Run(h);
        assert h.State() == RunCmd(h.facts, w1, LocalKubectlBin, SetContextParts(kubeContext, kubeConfigFile), Because(SettingContext, CommandFailed)).w;
        if !ok {
          return Some(Because(SettingContext, CommandFailed));
        }
      }
      return None;
    }

    /** addHelmRepo. */
    method AddHelmRepo(repo: HelmRepo, h: Host) returns (err: Option<Error>)
      modifies h
      ensures h.State() == RepoSpec(h.facts, old(h.State()), repo).w
      ensures err == RepoSpec(h.facts, old(h.State()), repo).err
    {
      var cb := new CommandBuilder(HelmBin);
      var env, files := h.facts.env, h.facts.contents;
      cb.Add([Raw("repo"), Raw("add"), Raw(repo.name), Raw(repo.url)]);
      ghost var user := Credential("username", repo.username, RepoUsername, env, files);
      if repo.username.Some? {
        match repo.username.value.GetValue(env, files) {
          case Failure(e) =>
            assert RepoAddParts(repo, env, files) == Failure(Because(RepoUsername, ValueUnavailable(e)));
            return Some(Because(RepoUsername, ValueUnavailable(e)));
          case Success(username) => cb.Add([Arg(ArgTypeLongParam, "username", username, true)]);
        }
      }
      assert user.Success? && cb.parts == [Raw("repo"), Raw("add"), Raw(repo.name), Raw(repo.url)] + user.value;
      ghost var pass := Credential("password", repo.password, RepoPassword, env, files);
      if repo.password.Some? {
        match repo.password.value.GetValue(env, files) {
          case Failure(e) =>
            assert RepoAddParts(repo, env, files) == Failure(Because(RepoPassword, ValueUnavailable(e)));
            return Some(Because(RepoPassword, ValueUnavailable(e)));
          case Success(password) => cb.Add([Arg(ArgTypeLongParam, "password", password, true)]);
        }
      }
      assert pass.Success? && cb.parts == [Raw("repo"), Raw("add"), Raw(repo.name), Raw(repo.url)] + user.value + pass.value;
      assert RepoAddParts(repo, env, files) == Success(cb.parts);
      var ok := cb.Run(h);
      if !ok {
        return Some(Because(AddingRepo(repo.name), CommandFailed));
      }
      return None;
    }

    /** updateHelmRepos. */
    method UpdateHelmRepos(h: Host) returns (err: Option<Error>)
      modifies h
      ensures h.State() == UpdateSpec(h.facts, old(h.State())).w
      ensures err == UpdateSpec(h.facts, old(h.State())).err
    {
      var ok := h.Run([HelmBin, "repo", "update"], None);
      err := if ok then None else Some(Because(UpdatingHelmRepos, CommandFailed));
    }

    /** downloadCharts; on success the archive's path is returned. */
    method DownloadCharts(release: Release, h: Host) returns (tarFilePath: string, err: Option<Error>)
      modifies h
      ensures Outcome(h.State(), err) == DownloadSpec(h.facts, old(h.State()), release.chartsSource)
      ensures err.None? ==> tarFilePath == TarPath(h.facts.urlPaths[release.chartsSource])
    {
      ghost var f, w0 := h.facts, h.State();
      if DownloadsDir !in h.stat {
        var ok := h.Create(DownloadsDir, true);
        if !ok {
          return "", Some(Because(CreatingDownloads, IOFailed(Unwritable(DownloadsDir))));
        }
      }
      ghost var w1 := h.State();
      assert w1 == WithDownloadsDir(w0);
      if release.chartsSource !in h.facts.urlPaths {
        return "", Some(Because(ParsingChartsUrl, UrlInvalid(release.chartsSource)));
      }
      var myUrlPath := h.facts.urlPaths[release.chartsSource];
      tarFilePath := DownloadsDir + "/" + LastSegment(myUrlPath);
      err := FetchArchive(release.chartsSource, tarFilePath, h);
    }

    /** The fetch of downloadCharts. */
    method FetchArchive(source: string, tarFilePath: string, h: Host) returns (err: Option<Error>)
      modifies h
      ensures Outcome(h.State(), err) == FetchSpec(h.facts, old(h.State()), source, tarFilePath)
    {
      if !Exists(h.stat, tarFilePath) {
        var ok := h.Run([WgetBin, "-P", "./downloads", source], None);
        if !ok {
          return Some(Because(ExtractingArchive, CommandFailed));
        }
        h.Appeared(tarFilePath);
        err := ExtractCharts(tarFilePath, h);
        return;
      }
      err := None;
    }
    /** extractCharts. */
    method ExtractCharts(archiveName: string, h: Host) returns (err: Option<Error>)
      modifies h
      ensures h.State() == ExtractSpec(h.facts, old(h.State()), archiveName).w
      ensures err == ExtractSpec(h.facts, old(h.State()), archiveName).err
    {
      var ok := h.Run([TarBin, "-xzf", archiveName, "-C", "./downloads"], None);
      err := if ok then None else Some(Because(ExtractingArchive, CommandFailed));
    }

    /** installAddonViaHelm. */
    method InstallAddonViaHelm(release: Release, h: Host) returns (err: Option<Error>)
      modifies h
      ensures Outcome(h.State(), err) == HelmInstallSpec(h.facts, old(h.State()), release)
    {
      var cb := HelmHead(release);
      ghost var head := cb.parts;
      ghost var f, w0 := h.facts, h.State();
      ghost var d := if release.chartsSource != "" then Wrap(DownloadSpec(f, w0, release.chartsSource), DownloadingCharts) else Outcome(w0, None);
      if release.chartsSource != "" {
        var _, e := DownloadCharts(release, h);
        if e.Some? {
          return Some(Because(DownloadingCharts, e.value));
        }
      }
      assert d.err.None? && h.State() == d.w;
      var ov := Overrides(release, h);
      assert ov == ValueArgs(release, f, d.w.stat);
      cb.Add(ov);
      assert cb.parts == head + ov;
      if dryrun {
        cb.Add([Raw("--dry-run")]);
      }
      ghost var parts := HelmParts(diffrun, dryrun, release, clusterConfig.helm, kubeContext, ov);
      HelmPartsAround(diffrun, dryrun, release, clusterConfig.helm, kubeContext, ov);
      assert cb.parts == parts;
      assert HelmInstallSpec(f, w0, release) == RunCmd(f, d.w, HelmBin, parts, Because(RunningHelm, CommandFailed));
      var ok := cb.Run(h);
      err := if ok then None else Some(Because(RunningHelm, CommandFailed));
    }

    /** The part of installAddonViaHelm's command built before the charts
        download: mode words, target and options. */
    method HelmHead(release: Release) returns (cb: CommandBuilder)
      ensures fresh(cb) && cb.name == HelmBin
      ensures cb.parts == (if diffrun then DiffPrefix() else InstallPrefix(release, clusterConfig.helm.defaultHistory))
        + HelmTarget(release, kubeContext) + HelmOptions(diffrun, release, clusterConfig.helm)
    {
      var helm := clusterConfig.helm;
      ghost var mode := if diffrun then DiffPrefix() else InstallPrefix(release, helm.defaultHistory);
      cb := new CommandBuilder(HelmBin);
      if diffrun {
        cb.Add(DiffPrefix());
        assert [] + DiffPrefix() == DiffPrefix();
      } else {
        cb.Add([Raw("upgrade"), Raw("--install")]);
        assert cb.parts == [Raw("upgrade"), Raw("--install")];
        cb.Add(HistoryArgs(release.history, helm.defaultHistory));
        if release.force {
          cb.Add([Raw("--force")]);
        }
      }
      assert cb.parts == mode;
      cb.Add(HelmTarget(release, kubeContext));
      cb.Add(HelmOptions(diffrun, release, helm));
    }

    /** templateChart: renders the chart with the release's value
        arguments and returns what the chart tool printed. */
    method TemplateChart(release: Release, h: Host) returns (out: string, err: Option<Error>)
      modifies h
      ensures h.State() == Ran(old(h.State()), TemplateInvocation(release, h.facts, old(h.stat)))
      ensures err == (if h.facts.succeeds(|old(h.trace)|) then None else Some(CommandFailed))
      ensures out == (if err.None? then h.facts.output(|old(h.trace)|) else "")
    {
      var cb := new CommandBuilder(HelmBin);
      cb.Add([Raw("template"), Raw(release.name), Raw(release.chartPath), Long("version", release.version)]);
      var ov := Overrides(release, h);
      cb.Add(ov);
      assert cb.parts == TemplateParts(release, ov);
      var cmd := cb.Command();
      var ok, templateBytes := h.Output(cmd);
      if !ok {
        return "", Some(CommandFailed);
      }
      return templateBytes, None;
    }

    /** installAddonViaKubectl. */
    method InstallAddonViaKubectl(release: Release, h: Host) returns (err: Option<Error>)
      modifies h
      ensures Outcome(h.State(), err) == KubectlInstallSpec(h.facts, old(h.State()), release)
    {
      var renderedManifests, e := TemplateChart(release, h);
      if e.Some? {
        return Some(Because(RenderingChart, e.value));
      }
      var cb := KubectlApplyCommand(release);
      var kubectlApplyCmd := cb.Command();
      ghost var w1 := h.State();
      var ok := h.Run(kubectlApplyCmd, Some(renderedManifests));
      assert h.State() == Ran(w1, ApplyInvocation(release, renderedManifests));
      if !ok && !(diffrun && release.deploymentMethod == "kubectl") {
        var retryCmd := cb.Command();
        var ok2 := h.Run(retryCmd, Some(renderedManifests));
        return if ok2 then None else Some(CommandFailed);
      }
      return None;
    }

    /** The apply (or diff) command of installAddonViaKubectl. */
    method KubectlApplyCommand(release: Release) returns (cb: CommandBuilder)
      ensures fresh(cb) && cb.name == KubectlBin
      ensures cb.parts == KubectlApplyParts(diffrun, dryrun, release.namespace, kubeContext)
    {
      cb := new CommandBuilder(KubectlBin);
      cb.Add(IfSet("namespace", release.namespace));
      cb.Add([Long("context", kubeContext)]);
      if diffrun {
        cb.Add([Raw("diff")]);
      } else {
        cb.Add([Raw("apply")]);
      }
      if dryrun {
        cb.Add([Raw("--dry-run=server")]);
      }
      cb.Add([Long("filename", "-")]);
    }

    /** waitForResource: `kubectl wait` until the resource is available
        (deployments) or ready (other kinds); daemon sets go to
        waitForDaemonSet. */
    method WaitForResource(resourceType: string, resourceName: string, namespace: string, h: Host) returns (err: Option<Error>)
      modifies h
      ensures h.State() == WaitResourceSpec(h.facts, old(h.State()), resourceType, resourceName, namespace).w
      ensures err == WaitResourceSpec(h.facts, old(h.State()), resourceType, resourceName, namespace).err
    {
      if resourceType == "daemonset" {
        err := WaitForDaemonSet(resourceName, namespace, h);
        return;
      }
      var cb := new CommandBuilder(KubectlBin);
      cb.Add([Raw("wait")]);
      var condition := if resourceType == "deployment" then "condition=available" else "condition=ready";
      cb.Add([Long("for", condition)]);
      cb.Add([Raw(resourceType + "/" + resourceName)]);
      cb.Add(IfSet("namespace", namespace));
      cb.Add(IfSet("context", kubeContext));
      assert cb.parts == WaitParts(resourceType, resourceName, namespace, kubeContext);
      var ok := cb.Run(h);
      err := if ok then None else Some(Because(WaitReady, CommandFailed));
    }

    /** waitForDaemonSet: `kubectl rollout status daemonset/<name>`. */
    method WaitForDaemonSet(resourceName: string, namespace: string, h: Host) returns (err: Option<Error>)
      modifies h
      ensures h.State() == WaitResourceSpec(h.facts, old(h.State()), "daemonset", resourceName, namespace).w
      ensures err == WaitResourceSpec(h.facts, old(h.State()), "daemonset", resourceName, namespace).err
    {
      var cb := new CommandBuilder(KubectlBin);
      cb.Add([Raw("rollout"), Raw("status"), Raw("daemonset/" + resourceName)]);
      cb.Add(IfSet("namespace", namespace));
      cb.Add(IfSet("context", kubeContext));
      assert cb.parts == RolloutParts(resourceName, namespace, kubeContext);
      var ok := cb.Run(h);
      err := if ok then None else Some(Because(RolloutStatus, CommandFailed));
    }

    /** One of waitForResources' loops: waits for each named resource of
        one kind in order, stopping at the first failure. */
    method WaitForEach(kind: string, names: seq<string>, namespace: string, h: Host) returns (err: Option<Error>)
      modifies h
      ensures h.State() == WaitListSpec(h.facts, old(h.State()), kind, names, namespace).w
      ensures err == WaitListSpec(h.facts, old(h.State()), kind, names, namespace).err
    {
      var i := 0;
      while i < |names|
        invariant 0 <= i <= |names|
        invariant WaitListSpec(h.facts, old(h.State()), kind, names, namespace) == WaitListSpec(h.facts, h.State(), kind, names[i..], namespace)
      {
        assert names[i..][0] == names[i] && names[i..][1..] == names[i + 1..];
        var e := WaitForResource(kind, names[i], namespace, h);
        if e.Some? {
          return Some(Because(WaitingFor(kind, names[i]), e.value));
        }
        i := i + 1;
      }
      return None;
    }

    /** waitForResources. */
    method WaitForResources(release: Release, h: Host) returns (err: Option<Error>)
      modifies h
      ensures h.State() == WaitSpec(h.facts, old(h.State()), release).w
      ensures err == WaitSpec(h.facts, old(h.State()), release).err
    {
      if dryrun || diffrun {
        return None;
      }
      err := WaitForEach("deployment", release.waitforDeployment, release.namespace, h);
      if err.Some? {
        return;
      }
      err := WaitForEach("daemonset", release.waitforDaemonSet, release.namespace, h);
      if err.Some? {
        return;
      }
      err := WaitForEach("statefulset", release.waitforStatefulSet, release.namespace, h);
    }

    /** The apply loop of applyKubectlFiles for one path's files. */
    method ApplyEach(files: seq<string>, h: Host) returns (err: Option<Error>)
      modifies h
      ensures h.State() == ApplyEachSpec(h.facts, old(h.State()), files).w
      ensures err == ApplyEachSpec(h.facts, old(h.State()), files).err
    {
      var j := 0;
      while j < |files|
        invariant 0 <= j <= |files|
        invariant ApplyEachSpec(h.facts, old(h.State()), files) == ApplyEachSpec(h.facts, h.State(), files[j..])
      {
        assert files[j..][0] == files[j] && files[j..][1..] == files[j + 1..];
        var file := files[j];
        var cb := new CommandBuilder(KubectlBin);
        cb.Add([Raw("apply"), Long("filename", file)]);
        cb.Add(IfSet("context", kubeContext));
        assert cb.parts == ApplyFileParts(file, kubeContext);
        var ok := cb.Run(h);
        if !ok {
          return Some(Because(ApplyingFile(file), CommandFailed));
        }
        j := j + 1;
      }
      return None;
    }

    /** applyKubectlFiles. */
    method ApplyKubectlFiles(release: Release, h: Host) returns (err: Option<Error>)
      modifies h
      ensures h.State() == ApplyFilesSpec(h.facts, old(h.State()), release).w
      ensures err == ApplyFilesSpec(h.facts, old(h.State()), release).err
    {
      if dryrun || diffrun {
        return None;
      }
      if |release.kubectlFiles| == 0 {
        return None;
      }
      var paths := release.kubectlFiles;
      var i := 0;
      while i < |paths|
        invariant 0 <= i <= |paths|
        invariant ApplyPathsSpec(h.facts, old(h.State()), paths) == ApplyPathsSpec(h.facts, h.State(), paths[i..])
      {
        assert paths[i..][0] == paths[i] && paths[i..][1..] == paths[i + 1..];
        var path := paths[i];
        ghost var o := ApplyPathSpec(h.facts, h.State(), path);
        assert ApplyPathsSpec(h.facts, h.State(), paths[i..])
          == if o.err.Some? then o else ApplyPathsSpec(h.facts, o.w, paths[i + 1..]);
        if !Exists(h.stat, path) {
          return Some(Because(AccessingPath(path), IOFailed(Missing(path))));
        }
        var filesToApply: seq<string>;
        if IsDirectory(h.stat, path) {
          var files, e := GetYamlFilesFromDir(path, h);
          if e.Some? {
            return Some(Because(ReadingDirectory(path), IOFailed(e.value)));
          }
          filesToApply := files;
        } else {
          filesToApply := [path];
        }
        err := ApplyEach(filesToApply, h);
        if err.Some? {
          return;
        }
        i := i + 1;
      }
      return None;
    }

    /** installAddon. */
    method InstallAddon(release: Release, h: Host) returns (err: Option<Error>)
      modifies h
      ensures h.State() == InstallAddonSpec(h.facts, old(h.State()), release).w
      ensures err == InstallAddonSpec(h.facts, old(h.State()), release).err
    {
      if release.deploymentMethod == "kubectl" {
        err := InstallAddonViaKubectl(release, h);
      } else {
        err := InstallAddonViaHelm(release, h);
      }
      if err.Some? {
        return;
      }
      err := WaitForResources(release, h);
      if err.Some? {
        return;
      }
      err := ApplyKubectlFiles(release, h);
    }

    /** The repository set-up of Exec: add each configured repository in
        order, stopping at the first failure, then update them. */
    method SetupHelmRepos(h: Host) returns (err: Option<Error>)
      modifies h
      ensures Outcome(h.State(), err) == RepoSetupSpec(h.facts, old(h.State()))
    {
      var repos := clusterConfig.helm.repos;
      var i := 0;
      while i < |repos|
        invariant 0 <= i <= |repos|
        invariant ReposSpec(h.facts, old(h.State()), repos) == ReposSpec(h.facts, h.State(), repos[i..])
      {
        assert repos[i..][0] == repos[i] && repos[i..][1..] == repos[i + 1..];
        var e := AddHelmRepo(repos[i], h);
        if e.Some? {
          return Some(Because(AddingHelmRepo, e.value));
        }
        i := i + 1;
      }
      err := UpdateHelmRepos(h);
      if err.Some? {
        err := Some(Because(UpdatingHelmRepos, err.value));
      }
    }

    /** The install loop of Exec: install each release in order, stopping
        at the first failure. */
    method InstallAddons(h: Host) returns (err: Option<Error>)
      modifies h
      ensures Outcome(h.State(), err) == ReleasesSpec(h.facts, old(h.State()), clusterConfig.releases)
    {
      var releases := clusterConfig.releases;
      var i := 0;
      while i < |releases|
        invariant 0 <= i <= |releases|
        invariant ReleasesSpec(h.facts, old(h.State()), releases) == ReleasesSpec(h.facts, h.State(), releases[i..])
      {
        assert releases[i..][0] == releases[i] && releases[i..][1..] == releases[i + 1..];
        var addon := releases[i];
        var e := InstallAddon(addon, h);
        if e.Some? {
          return Some(Because(InstallingAddon(addon.name), e.value));
        }
        i := i + 1;
      }
      return None;
    }

    /** Exec outside audit mode. */
    method Deploy(h: Host) returns (err: Option<Error>)
      modifies this, h
      ensures Outcome(h.State(), err) == DeploySpec(h.facts, old(h.State()), old(kubeConfigFile))
    {
      ghost var f, w0, file0 := h.facts, h.State(), kubeConfigFile;
      var helm := clusterConfig.helm;
      if !helm.skipSetupKubeConfig {
        var e := SetupKubeconfig(h);
        if e.Some? {
          return Some(Because(InitKubeconfig, e.value));
        }
      }
      ghost var w1 := h.State();
      assert Outcome(w1, None) == (if !helm.skipSetupKubeConfig then Wrap(SetupKubeSpec(f, w0, file0), InitKubeconfig) else Outcome(w0, None));
      if !helm.skipSetupHelmRepo {
        err := SetupHelmRepos(h);
        if err.Some? {
          return;
        }
      }
      if !helm.skipSetupKubeConfig {
        err := InstallAddons(h);
        return;
      }
      return None;
    }

    /** The record-adding loop of the audit for one cluster's releases: a
        later release replaces an earlier one with the same key. */
    method AddRecords(rpt: Report, cluster: string, releases: seq<Release>)
      modifies rpt
      ensures rpt.reportFile == old(rpt.reportFile) && rpt.reportHeader == old(rpt.reportHeader)
      ensures rpt.reportLines == old(rpt.reportLines) + Records(cluster, releases)
    {
      var j := 0;
      while j < |releases|
        invariant 0 <= j <= |releases|
        invariant rpt.reportFile == old(rpt.reportFile) && rpt.reportHeader == old(rpt.reportHeader)
        invariant rpt.reportLines == old(rpt.reportLines) + Records(cluster, releases[..j])
      {
        assert releases[..j + 1][..j] == releases[..j];
        var addon := releases[j];
        var summary := GetValueFiles(addon.valueFiles);
        rpt.Add(ReportKey(addon.name, cluster, addon.namespace),
                ReportDetail(addon.version, addon.chartPath, addon.chartsSource, "", summary));
        j := j + 1;
      }
      assert releases[..j] == releases;
    }

    /** Exec in audit mode: `configs` holds the cluster configuration
        files that can be read (ReadClusterConfig), by path. */
    method AuditReport(configs: map<string, ClusterConfig>, h: Host) returns (err: Option<Error>, ghost clusters: seq<string>, ghost rows: seq<ReportKey>)
      modifies h
      ensures Audited(clusterConfigPath, clustersList, auditFile, configs, h.facts, old(h.State()), h.State(), err, clusters, rows)
    {
      var rpt := new Report();
      clusters, rows := [], [];
      var rest := clustersList.Keys;
      while rest != {}
        invariant rest <= clustersList.Keys
        invariant forall i :: 0 <= i < |clusters| ==> clusters[i] in clustersList && clusters[i] !in rest
        invariant forall i, j :: 0 <= i < j < |clusters| ==> clusters[i] != clusters[j]
        invariant forall c :: c in clustersList && c !in rest ==> c in clusters
        invariant Readable(clusterConfigPath, configs, clusters)
        invariant rpt.reportHeader == Header
        invariant rpt.reportLines == AuditLines(clusterConfigPath, configs, clusters)
        invariant h.State() == old(h.State())
        decreases rest
      {
        var cluster :| cluster in rest;
        var path := clusterConfigPath + "/" + cluster;
        if path !in configs {
          assert ClusterFile(clusterConfigPath, cluster) !in configs;
          return Some(Because(ReadingClusterConfig, ConfigUnreadable(path))), clusters, rows;
        }
        var clusterConfig := configs[path];
        AddRecords(rpt, cluster, clusterConfig.releases);
        assert (clusters + [cluster])[..|clusters|] == clusters;
        clusters := clusters + [cluster];
        rest := rest - {cluster};
      }
      assert !exists c :: c in clustersList && ClusterFile(clusterConfigPath, c) !in configs by {
        forall c | c in clustersList ensures ClusterFile(clusterConfigPath, c) in configs {
          var i :| 0 <= i < |clusters| && clusters[i] == c;
        }
      }
      var e;
      e, rows := rpt.Write(auditFile, h);
      err := if e.Some? then Some(IOFailed(e.value)) else None;
    }

    /** Exec: deploy, or in audit mode write the audit report. */
    method Exec(configs: map<string, ClusterConfig>, h: Host) returns (err: Option<Error>, ghost clusters: seq<string>, ghost rows: seq<ReportKey>)
      modifies this, h
      ensures !audit ==> Outcome(h.State(), err) == DeploySpec(h.facts, old(h.State()), old(kubeConfigFile))
      ensures audit ==> Audited(clusterConfigPath, clustersList, auditFile, configs, h.facts, old(h.State()), h.State(), err, clusters, rows)
    {
      clusters, rows := [], [];
      if !audit {
        err := Deploy(h);
      } else {
        err, clusters, rows := AuditReport(configs, h);
      }
    }
  }
}
