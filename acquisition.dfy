/**
 * What `SonarConnector` acquires, stated as pure functions over an abstract
 * workspace and abstract collaborators, with the properties the connector
 * promises proved about them. The class in connector.dfy is proved against
 * these functions.
 */
module Acquisition {
  import opened Wrappers
  import opened JavaStrings

  // ---------------------------------------------------------------------------
  // Data model
  // ---------------------------------------------------------------------------

  /** A parsed SonarQube report (`inspection.entity.Report`); its contents are not modelled. */
  type Report(==)

  /** One finding of a report (`IssueAdapter`); its contents are not modelled. */
  type Issue(==)

  /** One analysis unit of a multi-module build. */
  datatype SubJobConfig = SubJobConfig(projectPath: string, sonarReportPath: string, autoMatch: bool)

  /** `SonarConnector.ReportInfo`: a sub-job config paired with the report read or fetched for it. */
  datatype ReportInfo = ReportInfo(config: SubJobConfig, report: Report)

  /** The aggregate stored by `readSonarReports`: the acquired `ReportInfo` list, in order. */
  datatype InspectionReport = InspectionReport(reportInfos: seq<ReportInfo>)

  /** The analysis type of the inspection config; every value but `PullRequest` reads files. */
  datatype AnalysisType = PullRequest | FileReport

  /**
   * What the connector asks of the Jenkins run: whether it is a Maven
   * module-set build, whether its parent job is a `MavenModuleSet`, and the
   * coordinates of that job's root module.
   */
  datatype Run = Run(isMavenModuleSetBuild: bool, parentIsMavenModuleSet: bool,
                     rootGroupId: string, rootArtifactId: string)

  /**
   * A workspace entry: a directory; a regular file with its full text; a path
   * whose `exists()` or `isDirectory()` check throws; or a regular file whose
   * `readToString()` throws. The exceptions are an `IOException` or an
   * `InterruptedException` with this message.
   */
  datatype Entry =
    | Directory
    | RegularFile(content: string)
    | Unreadable(message: string)
    | Unloadable(message: string)

  /** `readSonarReport` gets past both checks and starts reading the file at `path`. */
  predicate IsLoaded(ws: Workspace, path: string) {
    path in ws && (ws[path].RegularFile? || ws[path].Unloadable?)
  }

  /** The workspace, keyed by report path; a path that is not a key does not exist. */
  type Workspace = map<string, Entry>

  /** Why an acquisition ends with an exception. */
  datatype Error =
    | AbortError(message: string)     // hudson.AbortException
    | ParseError(message: string)     // a failure of the report parser, not caught
    | TransportError(message: string) // an IOException of the SonarQube client, not caught
    | IoError(message: string)        // an IOException or InterruptedException of the workspace or the macro engine, not caught
    | NoInspectionReport              // an accessor used before any report was stored

  /** Message (a localization key) of the abort raised when a sub-job has no report. */
  const NO_PROJECT_CONFIG_AVAILABLE: string := "jenkins.plugin.error.path.no.project.config.available"

  /** `SonarConnector.SECONDS_TO_WAIT`: the fixed warm-up delay before the remote fetch. */
  const SECONDS_TO_WAIT: nat := 15

  /** How `TokenMacro.expandAll` can fail: a `MacroEvaluationException`, or an I/O or interruption exception. */
  datatype MacroFailure = MacroEvaluationFailure(message: string) | MacroIoFailure(message: string)

  /**
   * The external code the connector calls, reduced to total functions:
   * `SonarReportBuilder.fromJson`, `SonarUtil.isolateComponentKey` (on a
   * possibly null component), `TokenMacro.expandAll` in the run's context,
   * `SonarClient.fetchIssues` (failing with the `IOException` message), and
   * the value of `new SubJobConfig()`.
   */
  datatype Collaborators = Collaborators(
    fromJson: string -> Result<Report, string>,
    isolateComponentKey: Option<string> -> string,
    expandAll: string -> Result<string, MacroFailure>,
    fetchIssues: (string, string) -> Result<Report, string>,
    defaultSubJobConfig: SubJobConfig)

  /** Observable steps of an acquisition, in the order they happen. */
  datatype Event =
    | Probe(path: string)   // exists() and isDirectory() on a report path
    | Load(path: string)    // readToString() of a report file
    | Sleep(seconds: nat)   // Thread.sleep before the remote fetch
    | Open                  // a SonarClient is created
    | Fetch(componentKey: string, pullRequestKey: string)
    | Close                 // the SonarClient is closed

  // ---------------------------------------------------------------------------
  // File mode: one report file
  // ---------------------------------------------------------------------------

  /**
   * `readSonarReport`: no report (null) when the path does not exist or is a
   * directory, otherwise the parse of the file's whole content; an exception
   * of the workspace propagates.
   */
  function ReportAt(ws: Workspace, path: string, fromJson: string -> Result<Report, string>): (r: Result<Option<Report>, Error>)
    ensures r == Ok(None) <==> path !in ws || ws[path].Directory?
    ensures path in ws && (ws[path].Unreadable? || ws[path].Unloadable?) ==> r == Err(IoError(ws[path].message))
    ensures path in ws && ws[path].RegularFile? ==>
      match fromJson(ws[path].content)
      case Ok(rep) => r == Ok(Some(rep))
      case Err(m) => r == Err(ParseError(m))
  {
    if path !in ws then Ok(None)
    else match ws[path]
      case Unreadable(m) => Err(IoError(m))
      case Directory => Ok(None)
      case Unloadable(m) => Err(IoError(m))
      case RegularFile(content) =>
        match fromJson(content)
        case Ok(rep) => Ok(Some(rep))
        case Err(m) => Err(ParseError(m))
  }

  /** The events of one `readSonarReport` call: a probe, and a load when the path is a file. */
  function ReadEvents(ws: Workspace, path: string): (r: seq<Event>)
    ensures |r| == (if IsLoaded(ws, path) then 2 else 1)
    ensures r[0] == Probe(path) && forall e :: e in r ==> IsFileEvent(e)
  {
    [Probe(path)] + (if IsLoaded(ws, path) then [Load(path)] else [])
  }

  /** The report of this sub-job can be used: its file exists, is not a directory, and parses. */
  predicate Usable(ws: Workspace, cfg: SubJobConfig, fromJson: string -> Result<Report, string>) {
    ReportAt(ws, cfg.sonarReportPath, fromJson).Ok? && ReportAt(ws, cfg.sonarReportPath, fromJson).value.Some?
  }

  /** The report of a usable sub-job. */
  function UsableReport(ws: Workspace, cfg: SubJobConfig, fromJson: string -> Result<Report, string>): Report
    requires Usable(ws, cfg, fromJson)
  {
    ReportAt(ws, cfg.sonarReportPath, fromJson).value.value
  }

  /**
   * The exception `readReportFromFile` ends with when a sub-job is not usable:
   * the abort for a missing path or a directory, else the exception the read
   * itself threw.
   */
  function FailureAt(ws: Workspace, cfg: SubJobConfig, fromJson: string -> Result<Report, string>): (e: Error)
    requires !Usable(ws, cfg, fromJson)
    ensures var path := cfg.sonarReportPath;
      && (path !in ws || ws[path].Directory? ==> e == AbortError(NO_PROJECT_CONFIG_AVAILABLE))
      && (path in ws && (ws[path].Unreadable? || ws[path].Unloadable?) ==> e == IoError(ws[path].message))
      && (path in ws && ws[path].RegularFile? ==> fromJson(ws[path].content).Err?
                                                  && e == ParseError(fromJson(ws[path].content).error))
  {
    var r := ReportAt(ws, cfg.sonarReportPath, fromJson);
    if r.Err? then r.error else AbortError(NO_PROJECT_CONFIG_AVAILABLE)
  }

  /** Sub-job `j` is the first whose report cannot be used. */
  predicate FirstUnusable(ws: Workspace, cfgs: seq<SubJobConfig>, fromJson: string -> Result<Report, string>, j: int) {
    && 0 <= j < |cfgs|
    && !Usable(ws, cfgs[j], fromJson)
    && forall k :: 0 <= k < j ==> Usable(ws, cfgs[k], fromJson)
  }

  // ---------------------------------------------------------------------------
  // File mode: every sub-job, fail-fast
  // ---------------------------------------------------------------------------

  /**
   * `readReportFromFile`: one `ReportInfo` per sub-job config in order, or the
   * exception of the first sub-job whose report cannot be used.
   */
  function ReadAll(ws: Workspace, cfgs: seq<SubJobConfig>, fromJson: string -> Result<Report, string>): (r: Result<seq<ReportInfo>, Error>)
    ensures r.Ok? <==> forall i :: 0 <= i < |cfgs| ==> Usable(ws, cfgs[i], fromJson)
    ensures r.Ok? ==> |r.value| == |cfgs|
    ensures r.Ok? ==> forall i :: 0 <= i < |cfgs| ==>
      Usable(ws, cfgs[i], fromJson) && r.value[i] == ReportInfo(cfgs[i], UsableReport(ws, cfgs[i], fromJson))
    ensures r.Err? ==> exists j :: FirstUnusable(ws, cfgs, fromJson, j) && r.error == FailureAt(ws, cfgs[j], fromJson)
    decreases |cfgs|
  {
    if cfgs == [] then Ok([])
    else if !Usable(ws, cfgs[0], fromJson) then
      assert FirstUnusable(ws, cfgs, fromJson, 0);
      Err(FailureAt(ws, cfgs[0], fromJson))
    else
      var head := ReportInfo(cfgs[0], UsableReport(ws, cfgs[0], fromJson));
      match ReadAll(ws, cfgs[1..], fromJson)
      case Err(e) =>
        ghost var j :| FirstUnusable(ws, cfgs[1..], fromJson, j) && e == FailureAt(ws, cfgs[1..][j], fromJson);
        assert FirstUnusable(ws, cfgs, fromJson, j + 1);
        Err(e)
      case Ok(rest) =>
        assert forall i :: 1 <= i < |cfgs| ==> cfgs[i] == cfgs[1..][i - 1];
        Ok([head] + rest)
  }

  /** When every sub-job is usable, `ReadAll` yields exactly the list pairing each config with its report. */
  lemma ReadAllSucceeds(ws: Workspace, cfgs: seq<SubJobConfig>, fromJson: string -> Result<Report, string>, reports: seq<ReportInfo>)
    requires forall k :: 0 <= k < |cfgs| ==> Usable(ws, cfgs[k], fromJson)
    requires |reports| == |cfgs|
    requires forall k :: 0 <= k < |cfgs| ==> reports[k] == ReportInfo(cfgs[k], UsableReport(ws, cfgs[k], fromJson))
    ensures ReadAll(ws, cfgs, fromJson) == Ok(reports)
  {
    var expected := ReadAll(ws, cfgs, fromJson);
    assert forall k :: 0 <= k < |reports| ==> expected.value[k] == reports[k];
    assert expected.value == reports;
  }

  /** The events `readReportFromFile` produces: each sub-job is read until the first unusable one. */
  function FileTrace(ws: Workspace, cfgs: seq<SubJobConfig>, fromJson: string -> Result<Report, string>): (t: seq<Event>)
    ensures t == [] <==> cfgs == []
    ensures cfgs != [] ==> t[0] == Probe(cfgs[0].sonarReportPath)
    decreases |cfgs|
  {
    if cfgs == [] then []
    else
      var rest := if Usable(ws, cfgs[0], fromJson) then FileTrace(ws, cfgs[1..], fromJson) else [];
      ReadEvents(ws, cfgs[0].sonarReportPath) + rest
  }

  /** The paths of the probe events of a trace, in order. */
  function ProbedPaths(t: seq<Event>): seq<string> {
    if t == [] then []
    else (if t[0].Probe? then [t[0].path] else []) + ProbedPaths(t[1..])
  }

  /** The paths of the load events of a trace, in order. */
  function LoadedPaths(t: seq<Event>): seq<string> {
    if t == [] then []
    else (if t[0].Load? then [t[0].path] else []) + LoadedPaths(t[1..])
  }

  /** The report paths of a list of sub-job configs. */
  function ReportPaths(cfgs: seq<SubJobConfig>): (ps: seq<string>)
    ensures |ps| == |cfgs| && forall i :: 0 <= i < |cfgs| ==> ps[i] == cfgs[i].sonarReportPath
  {
    if cfgs == [] then [] else [cfgs[0].sonarReportPath] + ReportPaths(cfgs[1..])
  }

  lemma {:induction false} ProbedPathsAppend(a: seq<Event>, b: seq<Event>)
    ensures ProbedPaths(a + b) == ProbedPaths(a) + ProbedPaths(b)
    ensures LoadedPaths(a + b) == LoadedPaths(a) + LoadedPaths(b)
  {
    if a != [] {
      assert (a + b)[1..] == a[1..] + b;
      ProbedPathsAppend(a[1..], b);
    } else {
      assert a + b == b;
    }
  }

  lemma ReadEventsPaths(ws: Workspace, path: string)
    ensures ProbedPaths(ReadEvents(ws, path)) == [path]
    ensures LoadedPaths(ReadEvents(ws, path)) == if IsLoaded(ws, path) then [path] else []
  {
    var t := ReadEvents(ws, path);
    assert ProbedPaths(t) == [path] + ProbedPaths(t[1..]);
    assert LoadedPaths(t) == LoadedPaths(t[1..]);
    if IsLoaded(ws, path) {
      assert t[1..][1..] == [];
    } else {
      assert t[1..] == [];
    }
  }

  /**
   * Fail-fast: when sub-job `j` is the first unusable one, acquisition fails
   * with that sub-job's exception and yields no partial list.
   */
  lemma {:induction false} FailFastResult(ws: Workspace, cfgs: seq<SubJobConfig>, fromJson: string -> Result<Report, string>, j: int)
    requires FirstUnusable(ws, cfgs, fromJson, j)
    ensures ReadAll(ws, cfgs, fromJson) == Err(FailureAt(ws, cfgs[j], fromJson))
  {
    if j > 0 {
      var rest := cfgs[1..];
      assert rest[j - 1] == cfgs[j];
      assert FirstUnusable(ws, rest, fromJson, j - 1) by {
        assert forall k :: 0 <= k < j - 1 ==> rest[k] == cfgs[k + 1];
      }
      FailFastResult(ws, rest, fromJson, j - 1);
      assert Usable(ws, cfgs[0], fromJson);
    }
  }

  /**
   * Fail-fast: when sub-job `j` is the first unusable one, exactly the
   * sub-jobs `0..j` are probed, in order; no sub-job after `j` is read.
   */
  lemma {:induction false} FailFastTrace(ws: Workspace, cfgs: seq<SubJobConfig>, fromJson: string -> Result<Report, string>, j: int)
    requires FirstUnusable(ws, cfgs, fromJson, j)
    ensures ProbedPaths(FileTrace(ws, cfgs, fromJson)) == ReportPaths(cfgs[..j + 1])
  {
    var first := ReadEvents(ws, cfgs[0].sonarReportPath);
    ReadEventsPaths(ws, cfgs[0].sonarReportPath);
    if j == 0 {
      assert FileTrace(ws, cfgs, fromJson) == first + [];
      ProbedPathsAppend(first, []);
      assert ReportPaths(cfgs[..1]) == [cfgs[0].sonarReportPath];
    } else {
      var rest := cfgs[1..];
      assert FirstUnusable(ws, rest, fromJson, j - 1) by {
        assert rest[j - 1] == cfgs[j];
        assert forall k :: 0 <= k < j - 1 ==> rest[k] == cfgs[k + 1];
      }
      FailFastTrace(ws, rest, fromJson, j - 1);
      assert FileTrace(ws, cfgs, fromJson) == first + FileTrace(ws, rest, fromJson) by {
        assert Usable(ws, cfgs[0], fromJson);
      }
      ProbedPathsAppend(first, FileTrace(ws, rest, fromJson));
      assert ReportPaths(cfgs[..j + 1]) == [cfgs[0].sonarReportPath] + ReportPaths(rest[..j]) by {
        assert cfgs[..j + 1][1..] == rest[..j];
      }
    }
  }

  /**
   * On success every sub-job is probed and loaded exactly once, in the order
   * of the configs.
   */
  lemma {:induction false} SuccessReadsEverySubJob(ws: Workspace, cfgs: seq<SubJobConfig>, fromJson: string -> Result<Report, string>)
    requires ReadAll(ws, cfgs, fromJson).Ok?
    ensures ProbedPaths(FileTrace(ws, cfgs, fromJson)) == ReportPaths(cfgs)
    ensures LoadedPaths(FileTrace(ws, cfgs, fromJson)) == ReportPaths(cfgs)
  {
    if cfgs != [] {
      assert Usable(ws, cfgs[0], fromJson);
      assert ReadAll(ws, cfgs[1..], fromJson).Ok? by {
        assert forall i :: 0 <= i < |cfgs| - 1 ==> cfgs[1..][i] == cfgs[i + 1];
      }
      SuccessReadsEverySubJob(ws, cfgs[1..], fromJson);
      ReadEventsPaths(ws, cfgs[0].sonarReportPath);
      ProbedPathsAppend(ReadEvents(ws, cfgs[0].sonarReportPath), FileTrace(ws, cfgs[1..], fromJson));
      assert ReportPaths(cfgs) == [cfgs[0].sonarReportPath] + ReportPaths(cfgs[1..]);
    }
  }

  /**
   * The trace of the sub-jobs read so far extends, one sub-job at a time, to
   * the trace of all of them: the prefix up to `i` is usable, so the reader
   * goes on to sub-job `i`.
   */
  lemma {:induction false} FileTraceSplit(ws: Workspace, cfgs: seq<SubJobConfig>, fromJson: string -> Result<Report, string>, i: nat)
    requires i <= |cfgs|
    requires forall k :: 0 <= k < i ==> Usable(ws, cfgs[k], fromJson)
    ensures FileTrace(ws, cfgs, fromJson) == FileTrace(ws, cfgs[..i], fromJson) + FileTrace(ws, cfgs[i..], fromJson)
  {
    if i > 0 {
      var rest := cfgs[1..];
      assert forall k :: 0 <= k < i - 1 ==> Usable(ws, rest[k], fromJson) by {
        assert forall k :: 0 <= k < i - 1 ==> rest[k] == cfgs[k + 1];
      }
      FileTraceSplit(ws, rest, fromJson, i - 1);
      var head := ReadEvents(ws, cfgs[0].sonarReportPath);
      assert FileTrace(ws, cfgs, fromJson) == head + FileTrace(ws, rest, fromJson) by {
        assert Usable(ws, cfgs[0], fromJson);
      }
      assert FileTrace(ws, cfgs[..i], fromJson) == head + FileTrace(ws, rest[..i - 1], fromJson) by {
        assert cfgs[..i][0] == cfgs[0] && Usable(ws, cfgs[0], fromJson);
        assert cfgs[..i][1..] == rest[..i - 1];
      }
      assert cfgs[i..] == rest[i - 1..];
      AppendAssociative(head, FileTrace(ws, rest[..i - 1], fromJson), FileTrace(ws, rest[i - 1..], fromJson));
    } else {
      assert cfgs[i..] == cfgs;
    }
  }

  /**
   * Concatenation regroups freely. Traces grow by appending one piece at a
   * time, while the trace functions split into prefix-plus-rest; the proofs
   * that connect the two call this to regroup, which the solver otherwise
   * finds only at great cost.
   */
  lemma AppendAssociative<T>(a: seq<T>, b: seq<T>, c: seq<T>)
    ensures a + b + c == a + (b + c)
  {
  }

  /** A prefix that reads cleanly consists of usable sub-jobs only. */
  lemma CleanPrefixUsable(ws: Workspace, cfgs: seq<SubJobConfig>, fromJson: string -> Result<Report, string>, i: nat)
    requires i <= |cfgs|
    requires ReadAll(ws, cfgs[..i], fromJson).Ok?
    ensures forall k :: 0 <= k < i ==> Usable(ws, cfgs[k], fromJson)
  {
    var done := cfgs[..i];
    forall k | 0 <= k < i
      ensures Usable(ws, cfgs[k], fromJson)
    {
      assert done[k] == cfgs[k];
    }
  }

  /**
   * The trace of one loop iteration of `readReportFromFile`, after a prefix
   * that read cleanly: reading the next sub-job appends its read events, and
   * when that sub-job is unusable the trace ends there.
   */
  lemma FileTraceStep(ws: Workspace, cfgs: seq<SubJobConfig>, fromJson: string -> Result<Report, string>, i: nat)
    requires i < |cfgs|
    requires ReadAll(ws, cfgs[..i], fromJson).Ok?
    ensures FileTrace(ws, cfgs[..i + 1], fromJson) == FileTrace(ws, cfgs[..i], fromJson) + ReadEvents(ws, cfgs[i].sonarReportPath)
    ensures !Usable(ws, cfgs[i], fromJson) ==>
      FileTrace(ws, cfgs, fromJson) == FileTrace(ws, cfgs[..i], fromJson) + ReadEvents(ws, cfgs[i].sonarReportPath)
  {
    CleanPrefixUsable(ws, cfgs, fromJson, i);
    var pre := cfgs[..i + 1];
    FileTraceSplit(ws, pre, fromJson, i);
    assert pre[..i] == cfgs[..i];
    assert pre[i..] == [cfgs[i]];
    assert FileTrace(ws, [cfgs[i]], fromJson) == ReadEvents(ws, cfgs[i].sonarReportPath);
    if !Usable(ws, cfgs[i], fromJson) {
      FileTraceSplit(ws, cfgs, fromJson, i);
      assert FileTrace(ws, cfgs[i..], fromJson) == ReadEvents(ws, cfgs[i].sonarReportPath);
    }
  }

  /**
   * The result of one loop iteration of `readReportFromFile`, after a prefix
   * that read cleanly: a report extends the list, no report aborts the whole
   * acquisition, and a read failure ends it with that failure.
   */
  lemma ReadAllStep(ws: Workspace, cfgs: seq<SubJobConfig>, fromJson: string -> Result<Report, string>, i: nat,
                    report: Result<Option<Report>, Error>)
    requires i < |cfgs|
    requires ReadAll(ws, cfgs[..i], fromJson).Ok?
    requires report == ReportAt(ws, cfgs[i].sonarReportPath, fromJson)
    ensures report.Ok? && report.value.Some? ==>
      ReadAll(ws, cfgs[..i + 1], fromJson) == Ok(ReadAll(ws, cfgs[..i], fromJson).value + [ReportInfo(cfgs[i], report.value.value)])
    ensures report.Err? ==> ReadAll(ws, cfgs, fromJson) == Err(report.error)
    ensures report == Ok(None) ==> ReadAll(ws, cfgs, fromJson) == Err(AbortError(NO_PROJECT_CONFIG_AVAILABLE))
  {
    CleanPrefixUsable(ws, cfgs, fromJson, i);
    if Usable(ws, cfgs[i], fromJson) {
      var pre := cfgs[..i + 1];
      var reports := ReadAll(ws, cfgs[..i], fromJson).value + [ReportInfo(cfgs[i], UsableReport(ws, cfgs[i], fromJson))];
      ReadAllSucceeds(ws, pre, fromJson, reports);
    } else {
      FailFastResult(ws, cfgs, fromJson, i);
    }
  }



  // ---------------------------------------------------------------------------
  // Component enrichment
  // ---------------------------------------------------------------------------

  /** The component is null or blank after trimming: null, or every char at or below U+0020. */
  predicate ComponentMissing(component: Option<string>)
    ensures ComponentMissing(component) <==>
      component.None? || forall i :: 0 <= i < |component.value| ==> IsTrimmable(component.value[i])
  {
    component.None? || IsBlank(component.value)
  }

  /**
   * `groupId:artifactId` of the root module of the run's Maven module set:
   * the group id, a ':' and the artifact id, so never blank.
   */
  function RootModuleKey(run: Run): (k: string)
    ensures |k| == |run.rootGroupId| + 1 + |run.rootArtifactId|
    ensures k[..|run.rootGroupId|] == run.rootGroupId && k[|run.rootGroupId|] == ':'
    ensures k[|run.rootGroupId| + 1..] == run.rootArtifactId
    ensures !IsBlank(k)
  {
    var k := run.rootGroupId + ":" + run.rootArtifactId;
    assert k[..|run.rootGroupId|] == run.rootGroupId && k[|run.rootGroupId| + 1..] == run.rootArtifactId;
    assert !IsBlank(k) by {
      VisibleCharNotBlank(k, |run.rootGroupId|);
    }
    k
  }

  /**
   * `ensureComponentConfig`: the component after enrichment. A missing
   * component of a Maven module-set build whose parent is a `MavenModuleSet`
   * becomes the root module's key, which is never blank; any other component
   * is kept.
   */
  function EnsureComponent(component: Option<string>, run: Run): (r: Option<string>)
    ensures !ComponentMissing(component) ==> r == component
    ensures !run.isMavenModuleSetBuild || !run.parentIsMavenModuleSet ==> r == component
    ensures ComponentMissing(component) && run.isMavenModuleSetBuild && run.parentIsMavenModuleSet ==>
      r == Some(RootModuleKey(run)) && !ComponentMissing(r)
  {
    if ComponentMissing(component) && run.isMavenModuleSetBuild && run.parentIsMavenModuleSet then
      Some(RootModuleKey(run))
    else component
  }

  /** Enrichment is idempotent: a second call leaves the component as the first one set it. */
  lemma EnrichmentIdempotent(component: Option<string>, run: Run)
    ensures EnsureComponent(EnsureComponent(component, run), run) == EnsureComponent(component, run)
  {
    if ComponentMissing(component) && run.isMavenModuleSetBuild && run.parentIsMavenModuleSet {
      assert !IsBlank(RootModuleKey(run));
    }
  }

  // ---------------------------------------------------------------------------
  // Remote mode
  // ---------------------------------------------------------------------------

  /**
   * `fetchReportFromSonarQube`: a single-element list pairing the default
   * sub-job config with the report fetched for the isolated component key and
   * the macro-expanded pull-request key. A `MacroEvaluationException` becomes
   * an abort carrying its message; an I/O failure of the expansion and a
   * transport failure of the fetch propagate.
   */
  function FetchOutcome(component: Option<string>, pullRequestKey: string, c: Collaborators): (r: Result<seq<ReportInfo>, Error>)
    ensures c.expandAll(pullRequestKey).Err? && c.expandAll(pullRequestKey).error.MacroEvaluationFailure? ==>
      r == Err(AbortError(c.expandAll(pullRequestKey).error.message))
    ensures c.expandAll(pullRequestKey).Err? && c.expandAll(pullRequestKey).error.MacroIoFailure? ==>
      r == Err(IoError(c.expandAll(pullRequestKey).error.message))
    ensures c.expandAll(pullRequestKey).Ok? ==>
      var fetched := c.fetchIssues(c.isolateComponentKey(component), c.expandAll(pullRequestKey).value);
      fetched.Err? ==> r == Err(TransportError(fetched.error))
    ensures r.Ok? ==> |r.value| == 1 && r.value[0].config == c.defaultSubJobConfig
    ensures r.Ok? <==> (c.expandAll(pullRequestKey).Ok?
      && c.fetchIssues(c.isolateComponentKey(component), c.expandAll(pullRequestKey).value).Ok?)
    ensures r.Ok? ==> Ok(r.value[0].report) == c.fetchIssues(c.isolateComponentKey(component), c.expandAll(pullRequestKey).value)
  {
    var key := c.isolateComponentKey(component);
    match c.expandAll(pullRequestKey)
    case Err(MacroEvaluationFailure(m)) => Err(AbortError(m))
    case Err(MacroIoFailure(m)) => Err(IoError(m))
    case Ok(pr) =>
      match c.fetchIssues(key, pr)
      case Err(m) => Err(TransportError(m))
      case Ok(rep) => Ok([ReportInfo(c.defaultSubJobConfig, rep)])
  }

  /**
   * The events of `fetchReportFromSonarQube`: wait, open, fetch if the key
   * expanded, close; no report file is touched.
   */
  function FetchTrace(component: Option<string>, pullRequestKey: string, c: Collaborators): (t: seq<Event>)
    ensures |t| == if c.expandAll(pullRequestKey).Ok? then 4 else 3
    ensures forall e :: e in t ==> !IsFileEvent(e)
  {
    [Sleep(SECONDS_TO_WAIT), Open]
      + (match c.expandAll(pullRequestKey)
         case Ok(pr) => [Fetch(c.isolateComponentKey(component), pr)]
         case Err(_) => [])
      + [Close]
  }

  /** The number of fetch events in a trace. */
  function FetchCount(t: seq<Event>): nat {
    if t == [] then 0 else (if t[0].Fetch? then 1 else 0) + FetchCount(t[1..])
  }

  /**
   * The remote fetch waits the fixed 15 seconds first, then opens the client,
   * makes exactly one fetch (with the isolated component key and the expanded
   * pull-request key) when the key expands and none otherwise, and closes the
   * client last on both paths.
   */
  lemma {:induction false} RemoteFetchOrder(component: Option<string>, pullRequestKey: string, c: Collaborators)
    ensures var t := FetchTrace(component, pullRequestKey, c);
      && t[0] == Sleep(15) && t[1] == Open && t[|t| - 1] == Close
      && FetchCount(t) == (if c.expandAll(pullRequestKey).Ok? then 1 else 0)
      && (c.expandAll(pullRequestKey).Ok? ==>
            t[2] == Fetch(c.isolateComponentKey(component), c.expandAll(pullRequestKey).value))
  {
    var t := FetchTrace(component, pullRequestKey, c);
    assert t[1..][1..] == t[2..];
    if c.expandAll(pullRequestKey).Ok? {
      assert t[2..][1..] == [Close];
      assert FetchCount([Close]) == 0;
    } else {
      assert t[2..] == [Close];
      assert FetchCount([Close]) == 0;
    }
  }

  // ---------------------------------------------------------------------------
  // Mode dispatch
  // ---------------------------------------------------------------------------

  /**
   * `readSonarReports`: the component after the call. Outside pull-request
   * mode, and for a component that is already set, it is left unchanged.
   */
  function ComponentAfter(mode: AnalysisType, component: Option<string>, run: Run): (r: Option<string>)
    ensures mode != PullRequest ==> r == component
    ensures !ComponentMissing(component) ==> r == component
    ensures mode == PullRequest && ComponentMissing(component) && run.isMavenModuleSetBuild && run.parentIsMavenModuleSet
            ==> r == Some(RootModuleKey(run))
    ensures mode == PullRequest && !(run.isMavenModuleSetBuild && run.parentIsMavenModuleSet) ==> r == component
  {
    if mode == PullRequest then EnsureComponent(component, run) else component
  }

  /** `readSonarReports`: the acquired report list, from the server for pull requests, else from files. */
  function Acquire(mode: AnalysisType, component: Option<string>, run: Run, cfgs: seq<SubJobConfig>,
                   pullRequestKey: string, ws: Workspace, c: Collaborators): (r: Result<seq<ReportInfo>, Error>)
    ensures mode != PullRequest ==> (r.Ok? <==> forall i :: 0 <= i < |cfgs| ==> Usable(ws, cfgs[i], c.fromJson))
    ensures mode != PullRequest && r.Ok? ==>
      |r.value| == |cfgs| && forall i :: 0 <= i < |cfgs| ==>
        r.value[i].config == cfgs[i] && r.value[i].report == UsableReport(ws, cfgs[i], c.fromJson)
    ensures mode == PullRequest ==>
      var key := c.isolateComponentKey(EnsureComponent(component, run));
      && (r.Ok? <==> c.expandAll(pullRequestKey).Ok? && c.fetchIssues(key, c.expandAll(pullRequestKey).value).Ok?)
      && (r.Ok? ==> |r.value| == 1 && r.value[0].config == c.defaultSubJobConfig
                    && Ok(r.value[0].report) == c.fetchIssues(key, c.expandAll(pullRequestKey).value))
  {
    if mode == PullRequest then FetchOutcome(EnsureComponent(component, run), pullRequestKey, c)
    else ReadAll(ws, cfgs, c.fromJson)
  }

  /**
   * The events of `readSonarReports`: for a pull request the wait comes first
   * and the client's close last, with exactly one fetch in between, for the
   * enriched component's key, when the pull-request key expands; otherwise
   * the trace is empty exactly when there is no sub-job to read.
   */
  function AcquireTrace(mode: AnalysisType, component: Option<string>, run: Run, cfgs: seq<SubJobConfig>,
                        pullRequestKey: string, ws: Workspace, c: Collaborators): (t: seq<Event>)
    ensures mode == PullRequest ==> |t| >= 3 && t[0] == Sleep(SECONDS_TO_WAIT) && t[1] == Open && t[|t| - 1] == Close
    ensures mode == PullRequest ==> FetchCount(t) == if c.expandAll(pullRequestKey).Ok? then 1 else 0
    ensures mode == PullRequest && c.expandAll(pullRequestKey).Ok? ==>
      t[2] == Fetch(c.isolateComponentKey(EnsureComponent(component, run)), c.expandAll(pullRequestKey).value)
    ensures mode != PullRequest ==> (t == [] <==> cfgs == [])
  {
    if mode == PullRequest then
      RemoteFetchOrder(EnsureComponent(component, run), pullRequestKey, c);
      FetchTrace(EnsureComponent(component, run), pullRequestKey, c)
    else FileTrace(ws, cfgs, c.fromJson)
  }

  /** Only the file reader probes and loads the workspace. */
  predicate IsFileEvent(e: Event) {
    e.Probe? || e.Load?
  }

  lemma {:induction false} FileTraceOnlyReads(ws: Workspace, cfgs: seq<SubJobConfig>, fromJson: string -> Result<Report, string>)
    ensures forall e :: e in FileTrace(ws, cfgs, fromJson) ==> IsFileEvent(e)
  {
    if cfgs != [] {
      FileTraceOnlyReads(ws, cfgs[1..], fromJson);
    }
  }

  /**
   * The modes are separate: outside pull-request mode only report files are
   * read, with no wait, client or fetch; in pull-request mode no report file
   * is touched.
   */
  lemma ModeSeparation(mode: AnalysisType, component: Option<string>, run: Run, cfgs: seq<SubJobConfig>,
                       pullRequestKey: string, ws: Workspace, c: Collaborators)
    ensures mode != PullRequest ==>
      forall e :: e in AcquireTrace(mode, component, run, cfgs, pullRequestKey, ws, c) ==> IsFileEvent(e)
    ensures mode == PullRequest ==>
      forall e :: e in AcquireTrace(mode, component, run, cfgs, pullRequestKey, ws, c) ==> !IsFileEvent(e)
  {
    FileTraceOnlyReads(ws, cfgs, c.fromJson);
  }

  /**
   * Running the acquisition again on the enriched config enriches nothing
   * more.
   */
  lemma RepeatedAcquisitionKeepsComponent(mode: AnalysisType, component: Option<string>, run: Run)
    ensures ComponentAfter(mode, ComponentAfter(mode, component, run), run) == ComponentAfter(mode, component, run)
  {
    EnrichmentIdempotent(component, run);
  }
}
