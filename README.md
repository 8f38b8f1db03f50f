# SonarConnector report acquisition, modelled in Dafny

This project models the report-acquisition core of the Sonar-Gerrit Jenkins
plugin's `SonarConnector`. Per build it either reads one SonarQube report file
per sub-job from the workspace, failing fast on the first unusable one, or, for
a pull-request analysis, enriches the configured component once and performs a
single delayed fetch from the SonarQube server. The acquired
`ReportInfo(config, report)` list is stored as the connector's
`inspectionReport` only when acquisition succeeds.

Layout:

- `wrappers.dfy` (`Wrappers`): `Option` stands for a nullable value and `Result` for a step that may throw.
- `java_strings.dfy` (`JavaStrings`): `String.trim()` and the blank test used by the component check.
- `acquisition.dfy` (`Acquisition`): the data model and pure specification functions.
  - `ReportAt` specifies `readSonarReport`; `ReadAll` and `FileTrace` specify `readReportFromFile`.
  - `EnsureComponent` specifies `ensureComponentConfig`; `FetchOutcome` and `FetchTrace` specify `fetchReportFromSonarQube`.
  - `Acquire`, `AcquireTrace` and `ComponentAfter` specify `readSonarReports`.
  - The lemmas prove the properties the connector promises.
- `connector.dfy` (`Connector`): two classes.
  - `InspectionConfig` has a mutable `component`.
  - `SonarConnector` has the `inspectionReport` field and a ghost event `trace`.
  - Its methods mirror the Java methods one by one. Each acquisition method is proved equal to its specification function. The four accessors delegate to functions of the report aggregate that the caller supplies.

Modelling choices:

- The workspace is a map from report path to `Directory`, `RegularFile(content)`, `Unreadable(message)` or `Unloadable(message)`. A path that is not a key does not exist. `Unreadable` stands for a path on which `exists()` or `isDirectory()` throws, so only its probe is recorded. `Unloadable` stands for a regular file whose `readToString()` throws after both checks passed, so its probe and its load are recorded.
- The external code is a `Collaborators` value of total functions: the JSON report parser, `SonarUtil.isolateComponentKey`, `TokenMacro.expandAll` in the run's context, `SonarClient.fetchIssues`, and the value of `new SubJobConfig()`. `expandAll` fails with either a `MacroEvaluationFailure` or a `MacroIoFailure`.
- `Report` and `Issue` are abstract types.
- The Jenkins run is reduced to two booleans and the root module's coordinates. The booleans are "is a Maven module-set build" and "parent is a `MavenModuleSet`".
- Exceptions become `Error` values:
  - `AbortException` becomes `AbortError(message)`.
  - A parse failure (not caught) becomes `ParseError`.
  - An `IOException` of the client (not caught) becomes `TransportError`.
  - An `IOException` or `InterruptedException` of the workspace or of `expandAll` (not caught) becomes `IoError`.
  - The `NullPointerException` an accessor raises before any report is stored becomes `NoInspectionReport`.
- The trace events are `Probe(path)` (exists / isDirectory), `Load(path)` (readToString), `Sleep(15)`, `Open`, `Fetch(componentKey, pullRequestKey)` and `Close`.

- Enrichment requires a Maven module-set build whose parent is a `MavenModuleSet`, in addition to an absent or blank component.
- A parse failure is not caught. It propagates out of `readSonarReports` and nothing is stored, exactly as after an abort.

## Model

| member | source | states |
|---|---|---|
| Connector.SonarConnector.constructor | src/main/java/org/jenkinsci/plugins/sonargerrit/inspection/sonarqube/SonarConnector.java:57-61 | The connector keeps the given run and inspection config, holds no report yet, and has recorded no event |
| Connector.SonarConnector.ReadSonarReports | src/main/java/org/jenkinsci/plugins/sonargerrit/inspection/sonarqube/SonarConnector.java:63-74 | For PULL_REQUEST the component is enriched and the fetch outcome is taken; any other type reads files and leaves the component unchanged. On success `inspectionReport` holds exactly the acquired list; on failure the exception is returned and `inspectionReport` keeps its old value. The trace is the chosen path's trace. |
| Connector.SonarConnector.EnsureComponentConfig | src/main/java/org/jenkinsci/plugins/sonargerrit/inspection/sonarqube/SonarConnector.java:76-88 | The component becomes `groupId:artifactId` of the root module exactly when it was null or blank and the run is a Maven module-set build whose parent is a `MavenModuleSet`; the new value is not blank; a non-blank component is kept |
| Connector.SonarConnector.ReadReportFromFile | src/main/java/org/jenkinsci/plugins/sonargerrit/inspection/sonarqube/SonarConnector.java:90-104 | The loop's result equals `ReadAll` over the sub-job configs, and its trace equals `FileTrace`: every sub-job up to the first unusable one is read, and nothing after it |
| Connector.SonarConnector.FetchReportFromSonarQube | src/main/java/org/jenkinsci/plugins/sonargerrit/inspection/sonarqube/SonarConnector.java:106-124 | Result equals `FetchOutcome` of the component and the pull-request key; trace is wait 15 s, open, one fetch when the key expands, close on every path |
| Connector.SonarConnector.ReadSonarReport | src/main/java/org/jenkinsci/plugins/sonargerrit/inspection/sonarqube/SonarConnector.java:142-168 | Result equals `ReportAt`; the path is probed, and loaded when both checks pass; an exception of either check or of the load is returned as `IoError` |
| Connector.SonarConnector.GetReportData | src/main/java/org/jenkinsci/plugins/sonargerrit/inspection/sonarqube/SonarConnector.java:126-128 | Delegates: the multimap the aggregate builds from its own issue list; no report stored gives `NoInspectionReport` |
| Connector.SonarConnector.GetReportDataFor | src/main/java/org/jenkinsci/plugins/sonargerrit/inspection/sonarqube/SonarConnector.java:130-132 | Delegates: the multimap the aggregate builds from the given issues; no report stored gives `NoInspectionReport` |
| Connector.SonarConnector.GetIssues | src/main/java/org/jenkinsci/plugins/sonargerrit/inspection/sonarqube/SonarConnector.java:134-136 | Delegates: the aggregate's issue list; no report stored gives `NoInspectionReport` |
| Connector.SonarConnector.GetRawReport | src/main/java/org/jenkinsci/plugins/sonargerrit/inspection/sonarqube/SonarConnector.java:138-140 | Delegates: the aggregate's report for a sub-job config (possibly none); no report stored gives `NoInspectionReport` |
| Acquisition.ReportAt | src/main/java/org/jenkinsci/plugins/sonargerrit/inspection/sonarqube/SonarConnector.java:142-167 | No report exactly when the path does not exist or is a directory; an exception of either check or of the load propagates as `IoError`; otherwise the parse of the file's full content, or the parse failure |
| Acquisition.ReadAll | src/main/java/org/jenkinsci/plugins/sonargerrit/inspection/sonarqube/SonarConnector.java:90-104 | Success exactly when every sub-job's report is usable. On success: one `ReportInfo` per config, same order, entry i pairs config i with its parsed report. On failure: the exception of the first unusable sub-job |
| Acquisition.ReadAllSucceeds | src/main/java/org/jenkinsci/plugins/sonargerrit/inspection/sonarqube/SonarConnector.java:91-103 | A list pairing each config, in order, with its usable report is exactly what `ReadAll` returns |
| Acquisition.FailFastResult | src/main/java/org/jenkinsci/plugins/sonargerrit/inspection/sonarqube/SonarConnector.java:92-98 | When sub-job j is the first unusable one, acquisition fails with j's exception (abort, `IoError` or parse failure) and no partial list |
| Acquisition.FailFastTrace | src/main/java/org/jenkinsci/plugins/sonargerrit/inspection/sonarqube/SonarConnector.java:92-98 | When sub-job j is the first unusable one, the probed paths are exactly those of sub-jobs 0..j in order: nothing after j is read |
| Acquisition.SuccessReadsEverySubJob | src/main/java/org/jenkinsci/plugins/sonargerrit/inspection/sonarqube/SonarConnector.java:92-101 | On success every sub-job's report path is probed and loaded, once each, in config order |
| Acquisition.FileTraceSplit | src/main/java/org/jenkinsci/plugins/sonargerrit/inspection/sonarqube/SonarConnector.java:92-101 | Reading a usable prefix and then the rest gives the trace of reading all sub-jobs |
| Acquisition.FileTraceStep | src/main/java/org/jenkinsci/plugins/sonargerrit/inspection/sonarqube/SonarConnector.java:92-100 | After a prefix that read cleanly, each loop iteration appends that sub-job's read events; an unusable sub-job ends the trace |
| Acquisition.ReadAllStep | src/main/java/org/jenkinsci/plugins/sonargerrit/inspection/sonarqube/SonarConnector.java:92-100 | After a prefix that read cleanly, a report extends the list by `ReportInfo(config, report)`; no report ends the acquisition with the abort; a read failure ends it with that failure |
| Acquisition.ProbedPathsAppend | src/main/java/org/jenkinsci/plugins/sonargerrit/inspection/sonarqube/SonarConnector.java:92-101 | Probed and loaded paths distribute over trace concatenation |
| Acquisition.ReadEventsPaths | src/main/java/org/jenkinsci/plugins/sonargerrit/inspection/sonarqube/SonarConnector.java:144-162 | One `readSonarReport` probes its path once and loads it only when both checks pass |
| Acquisition.ComponentAfter | src/main/java/org/jenkinsci/plugins/sonargerrit/inspection/sonarqube/SonarConnector.java:63-88 | After `readSonarReports` the component is unchanged outside PULL_REQUEST, unchanged when already set and not blank, and unchanged when the run is not a Maven module-set build with a `MavenModuleSet` parent; in PULL_REQUEST a missing component on such a build becomes `Some(groupId:artifactId)` |
| Acquisition.Acquire | src/main/java/org/jenkinsci/plugins/sonargerrit/inspection/sonarqube/SonarConnector.java:63-124 | File mode: succeeds exactly when every sub-job is usable, and then yields one `ReportInfo(config, parsed report)` per sub-job config, in config order. PULL_REQUEST: succeeds exactly when the key expands and the fetch succeeds, and then yields one `ReportInfo` for the default `SubJobConfig` holding the report fetched for the enriched component's isolated key |
| Acquisition.AcquireTrace | src/main/java/org/jenkinsci/plugins/sonargerrit/inspection/sonarqube/SonarConnector.java:63-122 | A pull-request acquisition starts with the wait and the client's open and ends with its close, with exactly one fetch, third and for the enriched component's isolated key, when the pull-request key expands and none otherwise; a file acquisition records nothing exactly when there is no sub-job |
| Acquisition.FileTrace | src/main/java/org/jenkinsci/plugins/sonargerrit/inspection/sonarqube/SonarConnector.java:90-104 | The file reader records nothing exactly when there is no sub-job, and otherwise starts by probing the first sub-job's report path |
| Acquisition.FetchTrace | src/main/java/org/jenkinsci/plugins/sonargerrit/inspection/sonarqube/SonarConnector.java:112-122 | Four events when the key expands (wait, open, fetch, close) and three otherwise; none of them is a report-file probe or load |
| Acquisition.ReadEvents | src/main/java/org/jenkinsci/plugins/sonargerrit/inspection/sonarqube/SonarConnector.java:144-162 | `readSonarReport` starts by probing its path and records only file events: two (probe, load) when both checks pass, one otherwise |
| Acquisition.FailureAt | src/main/java/org/jenkinsci/plugins/sonargerrit/inspection/sonarqube/SonarConnector.java:95-98 | The exception of an unusable sub-job: the abort for a missing path or a directory, `IoError` for an exception of either check or of the load, and the parser's failure message for an unparsable file |
| Acquisition.ComponentMissing | src/main/java/org/jenkinsci/plugins/sonargerrit/inspection/sonarqube/SonarConnector.java:78 | The component counts as missing exactly when it is null or every one of its chars is at or below U+0020 |
| Acquisition.EnsureComponent | src/main/java/org/jenkinsci/plugins/sonargerrit/inspection/sonarqube/SonarConnector.java:76-88 | A non-blank component, or a run that is not a Maven module set with a `MavenModuleSet` parent, keeps the component; otherwise it becomes `Some(groupId:artifactId)`, which is not blank |
| Acquisition.RootModuleKey | src/main/java/org/jenkinsci/plugins/sonargerrit/inspection/sonarqube/SonarConnector.java:83 | The key is the group id, then ':', then the artifact id; since ':' is above U+0020 it is never blank |
| Acquisition.EnrichmentIdempotent | src/main/java/org/jenkinsci/plugins/sonargerrit/inspection/sonarqube/SonarConnector.java:78-85 | Enriching an already enriched component changes nothing |
| Acquisition.RepeatedAcquisitionKeepsComponent | src/main/java/org/jenkinsci/plugins/sonargerrit/inspection/sonarqube/SonarConnector.java:66-68 | Running the acquisition again on the same config leaves the component as the first run set it, in either mode |
| Acquisition.ModeSeparation | src/main/java/org/jenkinsci/plugins/sonargerrit/inspection/sonarqube/SonarConnector.java:66-71 | Outside PULL_REQUEST only report files are probed and loaded (no wait, client or fetch); in PULL_REQUEST no report file is touched |
| Acquisition.FileTraceOnlyReads | src/main/java/org/jenkinsci/plugins/sonargerrit/inspection/sonarqube/SonarConnector.java:90-104 | The file reader's trace holds only probe and load events |
| Acquisition.FetchOutcome | src/main/java/org/jenkinsci/plugins/sonargerrit/inspection/sonarqube/SonarConnector.java:115-123 | On success: a one-element list with the default `SubJobConfig` and the report fetched for `isolateComponentKey(component)` and the expanded pull-request key. A `MacroEvaluationException` aborts with its message; an I/O failure of the expansion propagates as `IoError`; a fetch failure propagates as `TransportError` with its message |
| Acquisition.RemoteFetchOrder | src/main/java/org/jenkinsci/plugins/sonargerrit/inspection/sonarqube/SonarConnector.java:112-122 | The trace starts with a sleep of `SECONDS_TO_WAIT` (15 s, line 47), then open; it holds exactly one fetch (third, with the isolated key and expanded key) when expansion succeeds and none otherwise; close is last on both paths |
| JavaStrings.TrimStart | src/main/java/org/jenkinsci/plugins/sonargerrit/inspection/sonarqube/SonarConnector.java:78 | Removes exactly the leading chars at or below U+0020; the rest is a suffix starting with a kept char |
| JavaStrings.TrimEnd | src/main/java/org/jenkinsci/plugins/sonargerrit/inspection/sonarqube/SonarConnector.java:78 | Removes exactly the trailing chars at or below U+0020; the rest is a prefix ending with a kept char |
| JavaStrings.Trim | src/main/java/org/jenkinsci/plugins/sonargerrit/inspection/sonarqube/SonarConnector.java:78 | `trim()`: the slice `s[a..b]` left after cutting only chars at or below U+0020 before `a` and from `b` on; it neither starts nor ends with such a char |
| JavaStrings.IsBlank | src/main/java/org/jenkinsci/plugins/sonargerrit/inspection/sonarqube/SonarConnector.java:78 | `trim().isEmpty()` holds exactly when every char is at or below U+0020 |
| JavaStrings.TrimEmptyIffAllTrimmable | src/main/java/org/jenkinsci/plugins/sonargerrit/inspection/sonarqube/SonarConnector.java:78 | `trim()` leaves nothing exactly when every char is at or below U+0020 |
| JavaStrings.VisibleCharNotBlank | src/main/java/org/jenkinsci/plugins/sonargerrit/inspection/sonarqube/SonarConnector.java:78 | A string with a char above U+0020 is not blank |

## Left out

- Installation and credential lookup (`SonarInstallationReader`, `getCredentials`, lines 108-110) is not modelled. These are calls into Jenkins and the credential store. A missing installation is not modelled either.
- `SonarClient` construction, its transport and authentication are left out. Only the client's open, its one fetch call and its close are recorded.
- `Thread.sleep` is recorded as a `Sleep(15)` event only. Real time and thread interruption are out of scope.
- `FilePath.child` path resolution is not modelled: the workspace is keyed by the configured report path itself.
- The report parser, `SonarUtil.isolateComponentKey` and `TokenMacro.expandAll` are not defined in this model. They enter it only as collaborator functions, because their source is not part of this model.
- The defaults of `new SubJobConfig()` are taken as a collaborator value. `SubJobConfig` is not part of this model.
- `InspectionConfig.getAllSubJobConfigs()` is taken as a given list of sub-job configs. Of `InspectionConfig`, only the analysis type, that list, the pull-request key and the component are modelled; the rest of the class is not part of this model.
- `InspectionReport` is not part of this model, so nothing is proved about its multimap, flat issue list or raw-report lookup. The accessors are modelled as delegations to functions supplied by the caller.
- Logging and localized messages do not change control flow and are not modelled. The abort message for a missing report is its localization key.
- EnsureComponent: does not model a `MavenModuleSet` without a root module. There `getRootModule()` returns null and line 83 throws a `NullPointerException`; the model always has root-module coordinates.
- The config-class null-default tests in `NullValuesTest.java` hold no logic of the connector and are not modelled.
