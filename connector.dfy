/**
 * `SonarConnector` as a class: it holds the shared inspection config, whose
 * component it may enrich, and the `inspectionReport` field it assigns when
 * an acquisition succeeds. A ghost trace records the workspace reads, the
 * wait, and the SonarQube client's open, fetch and close, in order.
 */
module Connector {
  import opened Wrappers
  import opened Acquisition

  /** The part of `InspectionConfig` the connector reads; only `component` is written. */
  class InspectionConfig {
    const analysisType: AnalysisType
    const allSubJobConfigs: seq<SubJobConfig>
    const pullRequestKey: string
    var component: Option<string>

    constructor (analysisType: AnalysisType, allSubJobConfigs: seq<SubJobConfig>,
                 pullRequestKey: string, component: Option<string>)
      ensures this.analysisType == analysisType && this.allSubJobConfigs == allSubJobConfigs
      ensures this.pullRequestKey == pullRequestKey && this.component == component
    {
      this.analysisType := analysisType;
      this.allSubJobConfigs := allSubJobConfigs;
      this.pullRequestKey := pullRequestKey;
      this.component := component;
    }
  }

  class SonarConnector {
    const run: Run
    const config: InspectionConfig
    var inspectionReport: Option<InspectionReport>
    ghost var trace: seq<Event>

    constructor (run: Run, config: InspectionConfig)
      ensures this.run == run && this.config == config
      ensures inspectionReport == None && trace == []
    {
      this.run := run;
      this.config := config;
      inspectionReport := None;
      trace := [];
    }

    /**
     * Acquires the reports: for a pull request, enrich the component and fetch
     * from the server; otherwise read the report files. The report is stored
     * only when acquisition succeeds; on failure the field keeps its old value.
     */
    method ReadSonarReports(ws: Workspace, c: Collaborators) returns (thrown: Option<Error>)
      modifies this, config
      ensures config.component == ComponentAfter(config.analysisType, old(config.component), run)
      ensures var acquired := Acquire(config.analysisType, old(config.component), run, config.allSubJobConfigs,
                                      config.pullRequestKey, ws, c);
        match acquired
        case Ok(reports) => thrown == None && inspectionReport == Some(InspectionReport(reports))
        case Err(e) => thrown == Some(e) && inspectionReport == old(inspectionReport)
      ensures trace == old(trace) + AcquireTrace(config.analysisType, old(config.component), run,
                                                 config.allSubJobConfigs, config.pullRequestKey, ws, c)
    {
      ghost var acquired := Acquire(config.analysisType, config.component, run, config.allSubJobConfigs,
                                    config.pullRequestKey, ws, c);
      ghost var events := AcquireTrace(config.analysisType, config.component, run, config.allSubJobConfigs,
                                       config.pullRequestKey, ws, c);
      var reports: Result<seq<ReportInfo>, Error>;
      if config.analysisType == PullRequest {
        EnsureComponentConfig();
        reports := FetchReportFromSonarQube(c);
      } else {
        reports := ReadReportFromFile(ws, c);
      }
      assert reports == acquired && trace == old(trace) + events;
      match reports
      case Err(e) =>
        return Some(e);
      case Ok(list) =>
        inspectionReport := Some(InspectionReport(list));
        return None;
    }

    /**
     * Fills in an absent or blank component with the root module's
     * `groupId:artifactId` when the run is a Maven module-set build whose
     * parent is a `MavenModuleSet`; otherwise leaves it unchanged.
     */
    method EnsureComponentConfig()
      modifies config
      ensures config.component == EnsureComponent(old(config.component), run)
      ensures ComponentMissing(old(config.component)) && run.isMavenModuleSetBuild && run.parentIsMavenModuleSet
              ==> config.component == Some(RootModuleKey(run)) && !ComponentMissing(config.component)
      ensures !ComponentMissing(old(config.component)) ==> config.component == old(config.component)
    {
      var current := config.component;
      if ComponentMissing(current) && run.isMavenModuleSetBuild {
        if run.parentIsMavenModuleSet {
          var component := run.rootGroupId + ":" + run.rootArtifactId;
          config.component := Some(component);
        }
      }
    }

    /**
     * Reads one report per sub-job config, in order, and stops at the first
     * sub-job whose report is missing, a directory or unparsable.
     */
    method ReadReportFromFile(ws: Workspace, c: Collaborators) returns (r: Result<seq<ReportInfo>, Error>)
      modifies this`trace
      ensures r == ReadAll(ws, config.allSubJobConfigs, c.fromJson)
      ensures trace == old(trace) + FileTrace(ws, config.allSubJobConfigs, c.fromJson)
    {
      var cfgs := config.allSubJobConfigs;
      var reports: seq<ReportInfo> := [];
      var i := 0;
      while i < |cfgs|
        invariant 0 <= i <= |cfgs|
        invariant ReadAll(ws, cfgs[..i], c.fromJson) == Ok(reports)
        invariant trace == old(trace) + FileTrace(ws, cfgs[..i], c.fromJson)
      {
        var report := ReadSonarReport(ws, cfgs[i].sonarReportPath, c.fromJson);
        FileTraceStep(ws, cfgs, c.fromJson, i);
        ReadAllStep(ws, cfgs, c.fromJson, i, report);
        AppendAssociative(old(trace), FileTrace(ws, cfgs[..i], c.fromJson), ReadEvents(ws, cfgs[i].sonarReportPath));
        if report.Err? || report.value.None? {
          if report.Err? {
            return Err(report.error);
          }
          return Err(AbortError(NO_PROJECT_CONFIG_AVAILABLE));
        }
        reports := reports + [ReportInfo(cfgs[i], report.value.value)];
        i := i + 1;
      }
      assert cfgs[..i] == cfgs;
      return Ok(reports);
    }

    /**
     * Waits the fixed delay, opens a client, fetches the issues of the
     * isolated component key for the expanded pull-request key, and closes the
     * client on every path; a macro evaluation failure becomes an abort.
     */
    method FetchReportFromSonarQube(c: Collaborators) returns (r: Result<seq<ReportInfo>, Error>)
      modifies this`trace
      ensures r == FetchOutcome(config.component, config.pullRequestKey, c)
      ensures trace == old(trace) + FetchTrace(config.component, config.pullRequestKey, c)
    {
      var reports: seq<ReportInfo> := [];
      trace := trace + [Sleep(SECONDS_TO_WAIT)];
      trace := trace + [Open];
      var key := c.isolateComponentKey(config.component);
      var expanded := c.expandAll(config.pullRequestKey);
      if expanded.Err? {
        trace := trace + [Close];
        match expanded.error
        case MacroEvaluationFailure(m) =>
          return Err(AbortError(m));
        case MacroIoFailure(m) =>
          return Err(IoError(m));
      }
      trace := trace + [Fetch(key, expanded.value)];
      var fetched := c.fetchIssues(key, expanded.value);
      if fetched.Err? {
        trace := trace + [Close];
        return Err(TransportError(fetched.error));
      }
      reports := reports + [ReportInfo(c.defaultSubJobConfig, fetched.value)];
      assert reports == [ReportInfo(c.defaultSubJobConfig, fetched.value)];
      trace := trace + [Close];
      return Ok(reports);
    }

    /** `getReportData()`: the aggregate's multimap view of its own issue list. */
    method GetReportData(asMultimap: (InspectionReport, seq<Issue>) -> map<string, seq<Issue>>,
                         issuesList: InspectionReport -> seq<Issue>)
      returns (r: Result<map<string, seq<Issue>>, Error>)
      ensures inspectionReport.None? ==> r == Err(NoInspectionReport)
      ensures inspectionReport.Some? ==>
        r == Ok(asMultimap(inspectionReport.value, issuesList(inspectionReport.value)))
    {
      var issues := GetIssues(issuesList);
      if issues.Err? {
        return Err(issues.error);
      }
      r := Ok(asMultimap(inspectionReport.value, issues.value));
    }

    /** `getReportData(issues)`: the aggregate's multimap view of the given issues. */
    method GetReportDataFor(issues: seq<Issue>, asMultimap: (InspectionReport, seq<Issue>) -> map<string, seq<Issue>>)
      returns (r: Result<map<string, seq<Issue>>, Error>)
      ensures inspectionReport.None? ==> r == Err(NoInspectionReport)
      ensures inspectionReport.Some? ==> r == Ok(asMultimap(inspectionReport.value, issues))
    {
      if inspectionReport.None? {
        return Err(NoInspectionReport);
      }
      r := Ok(asMultimap(inspectionReport.value, issues));
    }

    /** `getIssues()`: the aggregate's issue list. */
    method GetIssues(issuesList: InspectionReport -> seq<Issue>) returns (r: Result<seq<Issue>, Error>)
      ensures inspectionReport.None? ==> r == Err(NoInspectionReport)
      ensures inspectionReport.Some? ==> r == Ok(issuesList(inspectionReport.value))
    {
      if inspectionReport.None? {
        return Err(NoInspectionReport);
      }
      r := Ok(issuesList(inspectionReport.value));
    }

    /** `getRawReport(config)`: the aggregate's report for a sub-job config, or null. */
    method GetRawReport(subJob: SubJobConfig, rawReport: (InspectionReport, SubJobConfig) -> Option<Report>)
      returns (r: Result<Option<Report>, Error>)
      ensures inspectionReport.None? ==> r == Err(NoInspectionReport)
      ensures inspectionReport.Some? ==> r == Ok(rawReport(inspectionReport.value, subJob))
    {
      if inspectionReport.None? {
        return Err(NoInspectionReport);
      }
      r := Ok(rawReport(inspectionReport.value, subJob));
    }

    /**
     * `readSonarReport`: probes the path; no report when it does not exist or
     * is a directory; otherwise loads the file and parses its whole content.
     * A workspace exception, in either check or in the load, propagates.
     */
    method ReadSonarReport(ws: Workspace, path: string, fromJson: string -> Result<Report, string>)
      returns (r: Result<Option<Report>, Error>)
      modifies this`trace
      ensures r == ReportAt(ws, path, fromJson)
      ensures trace == old(trace) + ReadEvents(ws, path)
    {
      trace := trace + [Probe(path)];
      if path !in ws {
        return Ok(None);
      }
      if ws[path].Unreadable? {
        return Err(IoError(ws[path].message));
      }
      if ws[path].Directory? {
        return Ok(None);
      }
      trace := trace + [Load(path)];
      if ws[path].Unloadable? {
        return Err(IoError(ws[path].message));
      }
      var reportJson := ws[path].content;
      var parsed := fromJson(reportJson);
      if parsed.Err? {
        return Err(ParseError(parsed.error));
      }
      return Ok(Some(parsed.value));
    }
  }
}
