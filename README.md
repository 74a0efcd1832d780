# impeller, modelled in Dafny

impeller is a release orchestrator for Kubernetes clusters. It reads one cluster
configuration file and then, in order:

- sets up the kubeconfig for the requested context;
- registers the chart repositories and refreshes them;
- installs every release of the cluster.

A release is installed either by the chart tool (`helm upgrade --install`, or
`helm diff upgrade` in a diff run) or by rendering the chart and piping the
manifests into `kubectl apply` (or `kubectl diff`). After an install the
orchestrator waits for the deployments, daemon sets and stateful sets the release
names, then applies the release's extra manifest files and directories. In audit
mode it runs nothing: it writes a CSV report with one row per release of every
cluster configuration file in a directory.

Every external program is built with a small command builder. The builder renders
each argument twice:

- for the process, as the exact argv;
- for the log, with every secret value replaced by `[SECRET]`.

## How the model is built

- `commands.dfy` (`Commands`): the argument type and the `CommandBuilder` class.
  Its argv and its redacted log line are proved to agree word for word.
- `types.dfy` (`Types`): the configuration records and how a value source
  (literal, environment variable, file) becomes a `--set` or `--set-file`
  argument.
- `report.dfy` (`Report`): the `Report` and `Clusters` classes and the CSV
  writer.
- `utils.dfy` (`Utils`): the value-file summary of a report row, and the
  listing of cluster files.
- `plans.dfy` (`Plans`): every argument list the orchestrator builds, the order
  of value files and overrides, the manifest filter of a directory, and the
  error values.
- `plugin.dfy` (`Orchestrator`): the `Plugin` class and its steps.
- `system.dfy` (`System`): the outside world as a `Host` object.
  - It records every external run, in order, as an `Invocation`: the argv and
    the text fed on standard input.
  - It tracks which paths exist (`stat`) and what the orchestrator wrote
    (`written`).
  - Whether the n-th run exits zero, and what it prints, come from the oracles
    `succeeds(n)` and `output(n)`.
  - The environment, file contents, directory listings, URL parsing and base64
    decoding are fixed maps (`Facts`).
- `text.dfy` and `wrappers.dfy`: string helpers (`strings.Join`, `TrimSpace`,
  `HasSuffix`, decimal rendering) and `Option`/`Result`.

Each orchestrator step has a specification function from the world before it to
an `Outcome` (the world after it and the error returned). The method that performs
the step ends in exactly that outcome, and the properties are lemmas about the
functions.

On these points the code behaves in ways that are easy to misread; the model
follows the code:

- an override whose value cannot be built is skipped with a log line, not
  reported as an error;
- `--dry-run` is appended to the chart command in a diff run too;
- `--kube-context` is always passed to the chart tool, even when empty;
- releases are installed only when the kubeconfig set-up is not skipped, and
  skipping the kubeconfig set-up skips the installs too;
- in a diff run of a kubectl release, a failing `kubectl diff` is not an error
  and is not retried;
- the record types shipped in `types/types.go` lack fields the orchestrator
  reads:
  - on a release: `Force`, `WaitforDeployment`, `WaitforDaemonSet`,
    `WaitforStatefulSet`, `KubectlFiles`;
  - on the chart settings: `SkipSetupKubeConfig`.

  The model declares them.

## Model

| member | source | states |
|---|---|---|
| Commands.Arg.SafeValue | utils/commandbuilder/commandbuilder.go:72-77 | a secret argument's value shows as `[SECRET]`, any other as itself |
| Commands.Arg.SafeString | utils/commandbuilder/commandbuilder.go:59-70 | the logged form of an argument is its argv words with the value replaced by its safe value, joined by a space (unknown types render like raw ones) |
| Commands.Arg.UnsafeParts | utils/commandbuilder/commandbuilder.go:79-90 | a flag gives two words (`-name` or `--name`, then the value), any other type one; the real value is always the last word, never redacted |
| Commands.CommandBuilder.constructor | utils/commandbuilder/commandbuilder.go:17-20 | a builder starts with its binary and no arguments |
| Commands.CommandBuilder.Add | utils/commandbuilder/commandbuilder.go:39-41 | arguments are appended in order after the existing ones; the binary is unchanged |
| Commands.CommandBuilder.SafeString | utils/commandbuilder/commandbuilder.go:22-28 | the log line is the binary and each argument's logged form, space separated, and it equals the argv of the redacted command joined by spaces |
| Commands.CommandBuilder.Command | utils/commandbuilder/commandbuilder.go:30-37 | the argv is the binary followed by every argument's words in order; its length is one plus one word per raw argument and two per flag |
| Commands.CommandBuilder.Run | utils/commandbuilder/commandbuilder.go:43-49 | running records exactly the built argv with no standard input, and reports success as the run's exit status |
| Commands.ArgvAppend | utils/commandbuilder/commandbuilder.go:30-37 | the argv of concatenated argument lists is the concatenation of their argvs |
| Commands.ArgvWidth | utils/commandbuilder/commandbuilder.go:79-90 | the argv has one word per raw argument and two per flag |
| Commands.ArgvIgnoresSecrets | utils/commandbuilder/commandbuilder.go:30-37 | the secret bit never changes what the process receives |
| Commands.ArgvCarriesEveryValue | utils/commandbuilder/commandbuilder.go:30-37 | every argument's real value reaches the argv, right after that argument's flag word |
| Commands.LogLineIsRedactedArgv | utils/commandbuilder/commandbuilder.go:22-28 | the log line is exactly the redacted command's argv joined by spaces |
| Commands.LogLineHidesSecretValues | utils/commandbuilder/commandbuilder.go:22-28 | two commands that differ only in secret values log the same line, so no secret value can be recovered from the log |
| Types.Value.GetValue | types/types.go:87-95 | resolving a value fails exactly when it names no source, or names only a file that cannot be read. A literal is returned verbatim; otherwise a named environment variable's value (unset reads as empty); otherwise the named file's contents |
| Types.ValueFrom.GetValue | types/types.go:129-140 | a named environment variable gives its value (unset reads as empty) whatever the file; otherwise a named file gives its contents, or a read error naming the file when it cannot be read; with neither named it fails with "no source" |
| Types.ValueFrom.BuildArg | types/types.go:102-127 | fails exactly when neither source is named. With a variable it is `--set name=<variable's value>`, secret unless shown; with only a file it is `--set-file name=<path>`, never secret |
| Types.Value.BuildArg | types/types.go:67-83 | building fails exactly when no source is named. A `--set name=<resolved value>` is secret unless shown. A `--set-file name=<path>` (a file source only) is never secret |
| Types.Override.BuildArg | types/types.go:46-48 | an override's argument is its value's argument for the override's target key |
| Types.LiteralWins | types/types.go:68-77 | with a literal, the indirect source is ignored and the argument is `--set name=literal`, secret unless shown |
| Types.EnvironmentBeatsFile | types/types.go:102-116 | with an environment variable named, the file is ignored and the argument is `--set name=<variable's value>` |
| Types.BuildArgReadsNoFile | types/types.go:117-123 | building an argument never reads a file: any two file systems give the same argument |
| Types.ShowValueOnlyFlipsSecret | types/types.go:67-83 | `showValue` changes only the secret bit of the argument, and a `--set` is secret exactly when not shown |
| Report.Report.constructor | utils/report/report.go:30-37 | a new report writes to `auditreport.csv`, has the fixed seven-column header and no records |
| Report.Report.Add | utils/report/report.go:39-41 | a record replaces the one with the same key; all other records and the file settings stay |
| Report.Report.Write | utils/report/report.go:43-84 | an uncreatable file yields an error and changes nothing. Otherwise the file holds the header and then one row per record, each record exactly once, in some order, and nothing else changes |
| Report.RowFields | utils/report/report.go:62-74 | a row splits back into name, cluster, namespace, version, chart path, charts source and value files, when no field holds a comma; the overrides field is never written |
| Report.RowsInOrderFree | utils/report/report.go:61 | the rows written are the same multiset whatever order the map is iterated in |
| Report.EnumerationSize | utils/report/report.go:61 | an iteration over the records visits as many keys as the map holds |
| Report.Clusters.constructor | utils/report/report.go:90-94 | a new cluster set is empty |
| Report.Clusters.Add | utils/report/report.go:96-100 | adding a cluster marks it present and leaves an existing entry unchanged |
| Utils.GetValueFiles | utils/utils.go:66-75 | an empty list gives `no overrides`; otherwise each file in order preceded by ` \|`, with length two per file plus the names' lengths |
| Utils.SummaryShape | utils/utils.go:66-75 | a summary is `no overrides` exactly for an empty list, and a non-empty list's summary starts with ` \|` |
| Utils.BarsAt | utils/utils.go:68-70 | every file name appears in its place, right after its own ` \|` |
| Utils.ListClusters | utils/utils.go:49-64 | an unlistable directory yields an error and an empty set. Otherwise the set holds exactly the names of the non-directory entries |
| Utils.FileNamesExactly | utils/utils.go:56-60 | a name is listed exactly when some non-directory entry has it |
| Plans.ExistingFileArgs | plugin.go:630-640 | only release value files that exist are passed, each as `-f path`, never more than are listed |
| Plans.ExistingFileArgsAppend | plugin.go:630-640 | the value files of two lists in a row are those of the first followed by those of the second: order and duplicates are kept and a missing file drops out in place |
| Plans.ExistingFileArgsSingle | plugin.go:631-639 | one listed path gives `-f path` when it exists and nothing otherwise |
| Plans.ExistingFileArgsExactly | plugin.go:630-640 | a release value file is passed exactly when it is listed and exists |
| Plans.OverrideArgs | plugin.go:650-658 | the override arguments are `--set`/`--set-file` flags, at most one per override |
| Plans.OverrideArgsAppend | plugin.go:650-658 | the arguments of two override lists in a row are those of the first followed by those of the second: a failing override drops out without reordering the rest |
| Plans.OverrideArgsSingle | plugin.go:651-657 | one override gives its built argument, or nothing when building fails |
| Plans.OverridesLayout | plugin.go:613-661 | the value arguments are, in order: the run-level files (trimmed), the release default when present, the release's existing files, the cluster file when present; then only `--set`/`--set-file` |
| Plans.OverrideArgsExactly | plugin.go:650-658 | an argument is passed exactly when some override builds it: a failing override is skipped, not fatal |
| Plans.OverrideArgsAllBuild | plugin.go:650-658 | when every override builds, there is one argument per override, in the overrides' order |
| Plans.OverridesRunLevelOnly | plugin_test.go:16-28 | run-level files without surrounding white space (the test passes "test" and "file"), an empty release and nothing on disk give exactly one non-secret `-f` argument per file, with its name as given, in order |
| Plans.OverridesExampleLiteral | plugin_test.go:30-71 | a literal override gives `--set image.tag=test`, secret unless shown |
| Plans.HistoryArgsValue | plugin.go:196-200 | `--history-max` is passed exactly when the release or the default sets a limit; its decimal text reads back as the release's limit when set, else the default |
| Plans.HelmCommandPrefix | plugin.go:187-195 | the chart command starts `helm diff upgrade --allow-unreleased --suppress-secrets` in a diff run and `helm upgrade --install` otherwise |
| Plans.HelmDryRunLast | plugin.go:241-245 | `--dry-run` is present exactly in a dry run, diff run included, and is then the last argv word |
| Plans.HelmForce | plugin.go:201-205 | `--force` is present exactly outside a diff run when the release asks for it |
| Plans.HelmCreateNamespace | plugin.go:216-223 | `--create-namespace` is present exactly outside a diff run when the release names a namespace |
| Plans.HelmTargetFlags | plugin.go:207-210 | the chart command always carries the version and the context, even an empty one |
| Plans.HelmFlags | plugin.go:196-226 | the chart command names a namespace exactly when the release sets one, and carries a history limit exactly outside a diff run when one is configured |
| Plans.HelmPartsAround | plugin.go:185-245 | the mode words, target and options come before the value arguments and do not depend on them; `--dry-run` comes after them |
| Plans.KubectlApplyReadsStdin | plugin.go:282-286 | the apply command ends in `--filename -`: the manifests come on standard input |
| Plans.KubectlApplyShape | plugin.go:263-282 | the apply command always names the context, diffs exactly in a diff run, and applies otherwise. It asks for a server-side dry run exactly in a dry run and names the namespace only when set |
| Plans.WaitShape | plugin.go:336-397 | a wait names `kind/name`, waits for availability exactly for deployments and for readiness otherwise, and passes namespace and context only when non-empty; daemon sets use `rollout status daemonset/name` |
| Plans.ApplyFileShape | plugin.go:439-448 | an extra manifest is applied by file name with the context only when set, and never with a namespace |
| Plans.RepoAddCredentials | plugin.go:106-138 | adding a repository fails exactly when a named credential cannot be read (the username first). Otherwise the command starts `repo add name url`, carries a flag per named credential with its value, and every credential flag is secret |
| Plans.CredentialShape | plugin.go:114-138 | a credential with no source adds no flag; one whose source cannot be read fails with that source's error; otherwise it adds one secret long flag carrying the value read |
| Plans.RepoAddLogHidesCredentials | plugin.go:114-140 | the logged repository command is the same whatever the credentials' values |
| Plans.YamlFilesExactly | plugin.go:471-489 | a path is applied from a directory exactly when it is `dir/name` for a non-directory entry ending in .yaml or .yml that is not a kustomization file |
| Plans.YamlFilesAppend | plugin.go:471-489 | directory files keep the listing order |
| Plans.YamlFilesSingle | plugin.go:476-486 | one listing entry gives `dir/name` when it is a non-directory manifest and nothing otherwise |
| Plans.Contribution | plugin.go:476-486 | what one entry adds is exactly the path it is applied as: `[dir/name]` for a non-directory manifest, else nothing |
| Plans.YamlFilesExample | plugin_test.go:93-113 | of a.yaml, b.yml, kustomization.yaml, notes.txt and a sub-directory, exactly the first two are applied |
| Orchestrator.RecordsLastWins | plugin.go:83-95 | an audit record exists exactly for the name and namespace of some release, and describes the last release with that name and namespace |
| Orchestrator.RecordsOfCluster | plugin.go:84-88 | every record of a cluster names that cluster |
| Orchestrator.AuditLinesAt | plugin.go:77-96 | a record of the audit is the record of its own cluster's configuration, when that cluster was visited |
| Orchestrator.AuditLinesOrderFree | plugin.go:77-96 | the audit's records do not depend on the order the clusters are visited in |
| Orchestrator.AuditReportOrderFree | plugin.go:74-101 | the rows of the audit report are the same multiset whatever order clusters and records are visited in |
| Orchestrator.Plugin.constructor | plugin.go:28-41 | a plugin holds the run's settings as given |
| Orchestrator.Plugin.Overrides | plugin.go:613-661 | the value arguments of a release are computed against the paths that exist now |
| Orchestrator.Plugin.CliValueFiles | plugin.go:615-621 | each run-level value file becomes `-f <trimmed name>`, in order |
| Orchestrator.Plugin.ExistingValueFiles | plugin.go:630-640 | each listed release value file that exists becomes `-f path`, in order; the result is `ExistingFileArgs`, whose order and duplicates are fixed by `ExistingFileArgsAppend` and `ExistingFileArgsSingle` |
| Orchestrator.Plugin.BuiltOverrides | plugin.go:650-658 | each override that builds contributes its argument, in order; the result is `OverrideArgs`, whose order with skipped overrides is fixed by `OverrideArgsAppend` and `OverrideArgsSingle` |
| Orchestrator.Plugin.GetYamlFilesFromDir | plugin.go:463-498 | an unreadable directory yields an error and no files; otherwise the manifest files of the listing, in order |
| Orchestrator.Plugin.SetupKubeconfig | plugin.go:567-611 | as SetupKubeSpec, from the kubeconfig file in use before; with a configuration, the plugin then uses `$HOME/.kube/config-<context>` |
| Orchestrator.Plugin.SetupKubeWrites | plugin.go:567-611 | a successful set-up with a configuration writes it, decoded when asked, to the context's kubeconfig file and nothing else; with a context it then runs only `kubectl config use-context` on that file |
| Orchestrator.Plugin.AddHelmRepo | plugin.go:106-144 | ends in the outcome of RepoSpec: an unreadable credential stops before any run; otherwise one `helm repo add` run, whose failure names the repository |
| Orchestrator.Plugin.UpdateHelmRepos | plugin.go:146-153 | one `helm repo update` run; a failure is an update error |
| Orchestrator.Plugin.SetupHelmRepos | plugin.go:54-62 | adds the repositories in order, stopping at the first failure, then updates them |
| Orchestrator.Plugin.ReposRunOnlyHelm | plugin.go:55-59 | adding repositories only runs the chart tool, and only grows the world |
| Orchestrator.Plugin.DownloadCharts | plugin.go:509-538 | creates ./downloads when missing. A URL that does not parse is an error. The archive is fetched and unpacked only when `./downloads/<last path segment>` is absent; with an empty last segment that path is the downloads directory itself, which is found. On success the archive path is returned |
| Orchestrator.Plugin.FetchArchive | plugin.go:524-536 | fetches and unpacks the archive unless it already exists; a failing fetch stops before unpacking |
| Orchestrator.Plugin.ExtractCharts | plugin.go:540-546 | one `tar -xzf archive -C ./downloads` run; a failure is an extract error |
| Orchestrator.Plugin.DownloadGrows | plugin.go:509-538 | downloading only runs programs and adds paths: no existing path changes and no file is written |
| Orchestrator.Plugin.DownloadCached | plugin.go:524-536 | after a successful download, a second download of the same source does nothing and succeeds |
| Orchestrator.Plugin.DownloadDirectoryPathSkips | plugin.go:511-537 | for a URL path that is empty or ends in `/`, the archive path is `./downloads/`. When the downloads directory is missing, or exists as a directory, nothing is fetched or unpacked and the download succeeds with only the directory added |
| Orchestrator.Plugin.DownloadArchivePresent | plugin.go:511-537 | when the archive path is found once ./downloads is in place, the download runs no program and succeeds |
| Orchestrator.Plugin.TarPathOfDirectory | plugin.go:521-522 | a URL path with an empty last segment gives the archive path `./downloads/` |
| Orchestrator.Plugin.WithDownloadsDir | plugin.go:511-516 | after the directory step ./downloads exists; the world is unchanged when it was there, and otherwise gains only the new directory |
| Orchestrator.Plugin.FetchDirectorySkips | plugin.go:524-536 | fetching the downloads directory's own path with its trailing slash runs nothing when the directory exists |
| Orchestrator.Plugin.InstallAddonViaHelm | plugin.go:185-252 | downloads the charts when a source is set, stopping on failure. Then one chart-tool run whose value arguments reflect the paths after the download |
| Orchestrator.Plugin.HelmHead | plugin.go:186-206 | the chart command's mode words: the diff words in a diff run, else `upgrade --install`, the history limit and `--force` when asked |
| Orchestrator.Plugin.HelmInstallGrows | plugin.go:185-252 | the chart-tool install only grows the world |
| Orchestrator.Plugin.TemplateChart | plugin.go:548-565 | one `helm template` run with the release's value arguments; its output is the rendered manifests on success, empty on failure |
| Orchestrator.Plugin.InstallAddonViaKubectl | plugin.go:257-298 | renders the chart, then feeds the manifests to `kubectl apply`/`diff`, with the retry rule of KubectlRetry |
| Orchestrator.Plugin.KubectlApplyCommand | plugin.go:263-282 | the apply command is built from namespace, context, mode, dry run and `--filename -` |
| Orchestrator.Plugin.KubectlRetry | plugin.go:257-298 | a render failure stops after one run. Otherwise the manifests are fed to apply once, and once more exactly when the first apply fails outside a diff of a kubectl release. The install fails exactly when rendering fails or both attempts fail. No path or file changes |
| Orchestrator.Plugin.DiffIgnoresApplyFailure | plugin.go:292 | in a diff run of a kubectl release whose chart renders, the install succeeds after exactly one diff, whatever the diff's exit status |
| Orchestrator.Plugin.KubectlInstallGrows | plugin.go:257-298 | the kubectl install only grows the world |
| Orchestrator.Plugin.WaitForResource | plugin.go:336-374 | one `kubectl wait` run (a rollout status for a daemon set); a failure is a wait error |
| Orchestrator.Plugin.WaitForDaemonSet | plugin.go:377-397 | one `kubectl rollout status daemonset/<name>` run; a failure is a rollout error |
| Orchestrator.Plugin.WaitForEach | plugin.go:308-313 | waits for each named resource in order, stopping at the first failure with an error naming it |
| Orchestrator.Plugin.WaitListRuns | plugin.go:308-329 | waiting for a list fails exactly when some wait fails. On success exactly one wait per name ran, in order. On failure the waits ran up to the first failing one, whose name the error carries. No path or file changes |
| Orchestrator.Plugin.WaitForResources | plugin.go:301-332 | nothing in a dry or diff run; otherwise the deployments, then the daemon sets, then the stateful sets |
| Orchestrator.Plugin.WaitGrows | plugin.go:301-332 | waiting only grows the world |
| Orchestrator.Plugin.ApplyEach | plugin.go:436-455 | applies each file in order, stopping at the first failure |
| Orchestrator.Plugin.ApplyEachRuns | plugin.go:436-455 | applying files succeeds exactly when every apply does, having then run one apply per file in order; an error names one of the files |
| Orchestrator.Plugin.ApplyKubectlFiles | plugin.go:401-459 | nothing in a dry or diff run or without files. A missing path or an unreadable directory stops the run with an error naming it. A file is applied itself, a directory its manifest files |
| Orchestrator.Plugin.ApplySlashedDirectory | plugin.go:416-432 | a kubectl path naming a directory with a trailing slash is found and applied as that directory: the manifests of its listing, in order |
| Orchestrator.Plugin.ApplyPathsGrows | plugin.go:414-456 | applying extra manifests only grows the world |
| Orchestrator.Plugin.InstallAddon | plugin.go:155-182 | installs by kubectl when the release says so and by the chart tool otherwise, then waits, then applies the extra files, stopping at the first error |
| Orchestrator.Plugin.InstallAddonGrows | plugin.go:155-182 | installing a release only grows the world |
| Orchestrator.Plugin.DryOrDiffOnlyInstalls | plugin.go:171-179 | in a dry or diff run, installing a release is the install step alone: no waits and no extra manifests |
| Orchestrator.Plugin.InstallAddons | plugin.go:66-73 | installs the releases in order, stopping at the first failure with an error naming the release |
| Orchestrator.Plugin.ReleasesGrow | plugin.go:68-72 | installing releases only grows the world |
| Orchestrator.Plugin.ReleasesAppend | plugin.go:68-72 | installing `xs + ys` installs `xs` and then, unless that failed, `ys` from where `xs` left off |
| Orchestrator.Plugin.Deploy | plugin.go:44-73 | kubeconfig set-up unless skipped, then the repositories unless skipped, then the releases only when the kubeconfig set-up is not skipped; the first error stops the run |
| Orchestrator.Plugin.SkipKubeconfigRunsOnlyHelm | plugin.go:45-73 | when the kubeconfig set-up is skipped, the run only runs chart-tool repository commands, installs nothing and writes no file |
| Orchestrator.Plugin.AddRecords | plugin.go:83-95 | the report gains the records of the cluster's releases, a later release replacing an earlier one with the same key |
| Orchestrator.Plugin.AuditReport | plugin.go:74-101 | an unreadable cluster file stops the audit before anything is written, with an error naming such a file. Otherwise every listed cluster is visited once, and the report file holds the header and one row per record |
| Orchestrator.Plugin.Exec | plugin.go:43-104 | outside audit mode the run is Deploy; in audit mode it is AuditReport |

## Left out

- Process execution is not modelled; external programs are black boxes.
  - A run's exit status and standard output come from the `succeeds` and
    `output` oracles, indexed by the run's position.
  - What a program does to the file system is left out, except that a
    successful `wget` leaves the archive at `./downloads/<last path segment of
    the URL>`.
  - Unpacking an archive adds no paths in the model.
- Logging is left out: the `log.Print*` lines, the `show` switch of `utils.Run`
  and `CommandBuilder.Run`'s log line. The log line itself is modelled as
  `LogLine` and proved redacted.
- The binary names come from a constants package that is not part of this
  model. The model takes them to be `helm`, `kubectl`, `wget` and `tar`.
- `main.go` is not part of this model: flag parsing, reading the cluster file and
  building the plugin. `Plugin`'s constructor stands in for it.
- YAML decoding of cluster files and `utils.ReadClusterConfig` are not modelled.
  The audit is handed a map from configuration path to decoded configuration; a
  path missing from the map is a file that cannot be read or decoded.
- `os.Getenv`, `ioutil.ReadFile`, `ioutil.ReadDir`, `url.Parse` and
  `base64.StdEncoding.DecodeString` are fixed maps of the `Facts` record.
  - A directory's listing does not change during a run.
  - A text that is not in the decoding map does not decode.
- Orchestrator.Plugin.SetupKubeconfig: `log.Fatalf` on a kubeconfig that does not
  decode is modelled as returning the `Aborted` error with the world unchanged.
  The process exit is not modelled.
- Orchestrator.Plugin.SetupKubeconfig: `os.Setenv("KUBECONFIG", …)` is not
  modelled; only the plugin's own kubeconfig file field changes.
- Orchestrator.Plugin.DownloadCharts: the returned archive path is only specified
  on success. On an unpacking failure the source also returns the path, and the
  model leaves it unspecified.
- `fetchChart` (plugin.go:500-507) is not modelled: nothing calls it.
- Map iteration order is not modelled as Go's randomised order.
  - The report rows and the audit's cluster order are a ghost enumeration
    returned by the method.
  - The lemmas show that the content does not depend on that order.
- Types.Value.BuildArg: the warning logged for a blank value is not modelled.
- Paths are compared as written, as keys of the `stat` map, at every `os.Stat`
  call. `os.Stat`'s resolution of `.`, `..` and repeated slashes is not
  modelled.
  - A trailing slash on a recorded directory is honoured (`System.Exists`,
    `System.IsDirectory`): for the chart archive path, the kubectl files and the
    value files.
  - Directory listings are keyed by the path as written.
- Unsigned widths (`uint` history and log level) are unbounded naturals. Decimal
  rendering is exact, so no wrap-around is modelled.
- `getYAMLFilesFromDir` returns `nil` for an empty match; the model returns the
  empty sequence, which behaves the same to every caller.
- The test that walks a real `./test-clusters` directory (plugin_test.go:73-91)
  is not modelled; its content is not part of this model.
