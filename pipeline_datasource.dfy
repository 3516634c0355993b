/**
 * The `jenkins_pipeline` data source (datasource_jenkins_pipeline.go): Read
 * looks a job up by `id` or `name`, reports a missing job as an error, takes
 * the description and script out of its config document, and adds the last
 * completed build when there is one. `ReadSpec` says, as a function of the
 * server, what the handler answers and which client calls it makes; the
 * lemmas at the end state the guarantees about it.
 */
module PipelineDataSource {
  import opened Wrappers
  import opened Strings
  import opened Framework
  import opened ConfigXml
  import opened JenkinsClient
  import opened Diagnostics
  import PipelineResource

  /** `jenkinsPipelineDataSourceModel`. */
  datatype DataSourceModel = DataSourceModel(
    id: Value<string>,
    name: Value<string>,
    description: Value<string>,
    groovyScript: Value<string>,
    lastBuildStatus: Value<string>,
    lastBuildDuration: Value<int>)

  /** What Read leaves in its response: the state and the diagnostics, in order. */
  datatype Response = Response(state: StateAction<DataSourceModel>, diags: seq<Problem>)

  /** Read's effect: its response and the client calls it made (none of them changes the server). */
  datatype Effect = Effect(response: Response, calls: seq<Call>)

  /** Whether a GetJob error means the job does not exist. */
  function IsNotFound(err: string): (b: bool)
    ensures b <==> Contains(err, "404") || Contains(err, "no such job")
  {
    ContainsText(err, "404") || ContainsText(err, "no such job")
  }

  /** The identifier the lookup uses: a known `id`, else a known `name`, else none. */
  function SelectJobName(config: DataSourceModel): Option<string> {
    if config.id.Known? then Some(config.id.v)
    else if config.name.Known? then Some(config.name.v)
    else None
  }

  /** The last build's status and duration: zero values unless a numbered build was fetched. */
  function LastBuild(s: Server, jobName: string, job: Job): (string, int) {
    if job.lastCompletedBuild.number > 0 then
      match s.GetLastCompletedBuild(jobName)
      case Success(b) => (b.result, b.duration)
      case Failure(_) => ("", 0)
    else ("", 0)
  }

  /** The calls the last-build fetch makes: one, for a numbered build only. */
  function LastBuildCalls(jobName: string, job: Job): seq<Call> {
    if job.lastCompletedBuild.number > 0 then [Call(GetLastCompletedBuildOp, jobName)] else []
  }

  /** Read (datasource_jenkins_pipeline.go:99-195). */
  function ReadSpec(s: Server, config: DataSourceModel): Effect {
    match SelectJobName(config)
    case None => Effect(Response(Untouched, [MissingIdentifier]), [])
    case Some(jobName) =>
      var c0 := [Call(GetJobOp, jobName)];
      match s.GetJob(jobName)
      case Failure(err) =>
        Effect(Response(Untouched, [if IsNotFound(err) then JobNotFound(jobName, err) else JobReadFailed(jobName, err)]), c0)
      case Success(job) =>
        var c1 := c0 + [Call(GetJobConfigOp, jobName)];
        match s.GetJobConfig(jobName)
        case Failure(err) => Effect(Response(Untouched, [ConfigReadFailed(jobName, err)]), c1)
        case Success(configXml) =>
          var script := PipelineResource.OrEmpty(ExtractGroovyScriptFromXML(configXml), jobName, true);
          var description := PipelineResource.OrEmpty(ExtractDescriptionFromXML(configXml), jobName, false);
          var c2 := c1 + LastBuildCalls(jobName, job);
          var lastBuild := LastBuild(s, jobName, job);
          var state := config.(id := Known(job.name), name := Known(job.name),
                               description := Known(description.text), groovyScript := Known(script.text),
                               lastBuildStatus := Known(lastBuild.0), lastBuildDuration := Known(lastBuild.1));
          Effect(Response(SetState(state), script.diags + description.diags), c2)
  }

  /** `jenkinsPipelineDataSource`, holding the client it was configured with. */
  class DataSource {
    const client: Client

    constructor (client: Client)
      ensures this.client == client
    {
      this.client := client;
    }

    /** The last build's status and duration, fetched only for a numbered build; a failed fetch is not reported. */
    method FetchLastBuild(jobName: string, job: Job) returns (lastBuildStatus: string, lastBuildDuration: int)
      modifies client
      ensures (lastBuildStatus, lastBuildDuration) == LastBuild(old(client.server), jobName, job)
      ensures client.server == old(client.server)
      ensures client.calls == old(client.calls) + LastBuildCalls(jobName, job)
    {
      lastBuildStatus := "";
      lastBuildDuration := 0;
      if job.lastCompletedBuild.number > 0 {
        var lastBuild := client.GetLastCompletedBuild(jobName);
        if lastBuild.Success? {
          lastBuildStatus := lastBuild.value.result;
          lastBuildDuration := lastBuild.value.duration;
        }
      }
    }

    method Read(config: DataSourceModel) returns (resp: Response)
      modifies client
      ensures var e := ReadSpec(old(client.server), config);
        resp == e.response && client.server == old(client.server) && client.calls == old(client.calls) + e.calls
    {
      ghost var s := client.server;
      var jobName: string;
      if config.id.Known? {
        jobName := config.id.v;
      } else if config.name.Known? {
        jobName := config.name.v;
      } else {
        return Response(Untouched, [MissingIdentifier]);
      }

      var job := client.GetJob(jobName);
      if job.Failure? {
        if IsNotFound(job.error) {
          return Response(Untouched, [JobNotFound(jobName, job.error)]);
        }
        return Response(Untouched, [JobReadFailed(jobName, job.error)]);
      }

      var configXml := client.GetJobConfig(jobName);
      if configXml.Failure? {
        return Response(Untouched, [ConfigReadFailed(jobName, configXml.error)]);
      }
      assert ReadSpec(s, config).calls
        == [Call(GetJobOp, jobName), Call(GetJobConfigOp, jobName)] + LastBuildCalls(jobName, job.value);

      var diags: seq<Problem> := [];
      var groovyScript := "";
      var script := ExtractGroovyScriptFromXML(configXml.value);
      if script.Failure? {
        diags := diags + [ScriptExtractionFailed(jobName, script.error)];
      } else {
        groovyScript := script.value;
      }

      ghost var scriptPart := PipelineResource.OrEmpty(script, jobName, true);
      assert scriptPart == PipelineResource.Extracted(groovyScript, diags);
      var description := "";
      var desc := ExtractDescriptionFromXML(configXml.value);
      if desc.Failure? {
        diags := diags + [DescriptionExtractionFailed(jobName, desc.error)];
      } else {
        description := desc.value;
      }

      ghost var descriptionPart := PipelineResource.OrEmpty(desc, jobName, false);
      assert descriptionPart.text == description && diags == scriptPart.diags + descriptionPart.diags;

      var lastBuildStatus, lastBuildDuration := FetchLastBuild(jobName, job.value);

      var state := config;
      state := state.(id := Known(job.value.name));
      state := state.(name := Known(job.value.name));
      state := state.(description := Known(description));
      state := state.(groovyScript := Known(groovyScript));
      state := state.(lastBuildStatus := Known(lastBuildStatus));
      state := state.(lastBuildDuration := Known(lastBuildDuration));
      resp := Response(SetState(state), diags);
    }
  }

  // ---------------------------------------------------------------------
  // Guarantees of Read.

  /** A known `id` wins: the lookup uses it and `name` makes no difference. */
  lemma IdWinsOverName(s: Server, config: DataSourceModel, otherName: Value<string>)
    requires config.id.Known?
    ensures ReadSpec(s, config) == ReadSpec(s, config.(name := otherName))
    ensures |ReadSpec(s, config).calls| > 0 && PipelineResource.AllCallsFor(ReadSpec(s, config).calls, config.id.v)
  {
    LookupCalls(s, config, config.id.v);
  }

  /** Without a known `id`, a known `name` is the lookup key. */
  lemma NameUsedWithoutId(s: Server, config: DataSourceModel)
    requires !config.id.Known? && config.name.Known?
    ensures |ReadSpec(s, config).calls| > 0 && PipelineResource.AllCallsFor(ReadSpec(s, config).calls, config.name.v)
  {
    LookupCalls(s, config, config.name.v);
  }

  /** The calls of a lookup by `jobName`, all of them for that job. */
  lemma LookupCalls(s: Server, config: DataSourceModel, jobName: string)
    requires SelectJobName(config) == Some(jobName)
    ensures |ReadSpec(s, config).calls| > 0 && PipelineResource.AllCallsFor(ReadSpec(s, config).calls, jobName)
  {
    var calls := ReadSpec(s, config).calls;
    if s.GetJob(jobName).Failure? {
      assert calls == [Call(GetJobOp, jobName)];
    } else if s.GetJobConfig(jobName).Failure? {
      assert calls == [Call(GetJobOp, jobName), Call(GetJobConfigOp, jobName)];
    } else {
      assert calls == [Call(GetJobOp, jobName), Call(GetJobConfigOp, jobName)]
        + LastBuildCalls(jobName, s.GetJob(jobName).value);
    }
  }

  /** With neither `id` nor `name` known, Read adds "Missing Identifier" and calls nothing. */
  lemma MissingIdentifierCallsNothing(s: Server, config: DataSourceModel)
    requires !config.id.Known? && !config.name.Known?
    ensures ReadSpec(s, config) == Effect(Response(Untouched, [MissingIdentifier]), [])
  {
  }

  /**
   * A failed GetJob is always an error and never sets state: "Jenkins Job
   * Not Found" when the error text mentions "404" or "no such job", "Jenkins
   * Job Read Error" otherwise.
   */
  lemma FailedLookupIsError(s: Server, config: DataSourceModel, jobName: string)
    requires SelectJobName(config) == Some(jobName) && s.GetJob(jobName).Failure?
    ensures var err := s.GetJob(jobName).error;
      ReadSpec(s, config) == Effect(
        Response(Untouched, [if Contains(err, "404") || Contains(err, "no such job")
                             then JobNotFound(jobName, err) else JobReadFailed(jobName, err)]),
        [Call(GetJobOp, jobName)])
  {
  }

  /** A job the server does not have is reported as "Jenkins Job Not Found". */
  lemma AbsentJobIsNotFound(s: Server, config: DataSourceModel, jobName: string)
    requires SelectJobName(config) == Some(jobName) && jobName !in s.jobs && GetJobOp !in s.faults
    ensures ReadSpec(s, config).response == Response(Untouched, [JobNotFound(jobName, NotFound)])
  {
    assert Occurs(NotFound, "404", 0);
  }

  /**
   * Once the job and its config are read, Read sets state with `id` and
   * `name` both the server's job name; a failed extraction makes that field
   * "" and adds one error (the script's first), and nothing else adds one.
   */
  lemma ReadSetsServerName(s: Server, config: DataSourceModel, jobName: string)
    requires SelectJobName(config) == Some(jobName)
    requires s.GetJob(jobName).Success? && s.GetJobConfig(jobName).Success?
    ensures var r := ReadSpec(s, config).response;
      var xml := s.GetJobConfig(jobName).value;
      var script := ExtractGroovyScriptFromXML(xml);
      var description := ExtractDescriptionFromXML(xml);
      r.state.SetState?
      && r.state.value.id == Known(s.jobs[jobName].name) && r.state.value.name == Known(s.jobs[jobName].name)
      && r.state.value.groovyScript == Known(if script.Success? then script.value else "")
      && r.state.value.description == Known(if description.Success? then description.value else "")
      && r.diags ==
           (if script.Success? then [] else [ScriptExtractionFailed(jobName, script.error)])
           + (if description.Success? then [] else [DescriptionExtractionFailed(jobName, description.error)])
  {
  }

  /** Read sets state exactly when an identifier was given and both GetJob and the config read succeed. */
  lemma StateSetIffJobRead(s: Server, config: DataSourceModel)
    ensures ReadSpec(s, config).response.state.SetState? <==>
      SelectJobName(config).Some?
      && s.GetJob(SelectJobName(config).value).Success?
      && s.GetJobConfig(SelectJobName(config).value).Success?
    ensures !ReadSpec(s, config).response.state.SetState? ==>
      ReadSpec(s, config).response.state.Untouched? && |ReadSpec(s, config).response.diags| == 1
  {
  }

  /**
   * Without a numbered last build, the build is not fetched, the status is ""
   * and the duration 0.
   */
  lemma NoBuildNoFetch(s: Server, config: DataSourceModel, jobName: string)
    requires SelectJobName(config) == Some(jobName)
    requires s.GetJob(jobName).Success? && s.GetJobConfig(jobName).Success?
    requires s.jobs[jobName].lastCompletedBuild.number <= 0
    ensures var e := ReadSpec(s, config);
      PipelineResource.NoCallOf(e.calls, GetLastCompletedBuildOp)
      && e.response.state.value.lastBuildStatus == Known("")
      && e.response.state.value.lastBuildDuration == Known(0)
  {
  }

  /**
   * With a numbered last build, the build is fetched once; its status and
   * duration are reported when the fetch succeeds, and the zero values,
   * without any diagnostic, when it fails.
   */
  lemma NumberedBuildFetched(s: Server, config: DataSourceModel, jobName: string)
    requires SelectJobName(config) == Some(jobName)
    requires s.GetJob(jobName).Success? && s.GetJobConfig(jobName).Success?
    requires s.jobs[jobName].lastCompletedBuild.number > 0
    ensures var e := ReadSpec(s, config);
      var b := s.GetLastCompletedBuild(jobName);
      e.calls == [Call(GetJobOp, jobName), Call(GetJobConfigOp, jobName), Call(GetLastCompletedBuildOp, jobName)]
      && e.response.state.value.lastBuildStatus == Known(if b.Success? then b.value.result else "")
      && e.response.state.value.lastBuildDuration == Known(if b.Success? then b.value.duration else 0)
      && e.response.diags == ReadSpec(s.(faults := s.faults - {GetLastCompletedBuildOp}), config).response.diags
  {
  }
}
