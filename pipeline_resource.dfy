/**
 * The `jenkins_pipeline` resource (resource_jenkins_pipeline.go): Create,
 * Read, Update, Delete and ImportState over the resource model. Each handler
 * is a method on `Resource` that calls the client step by step; `CreateSpec`,
 * `ReadSpec`, `UpdateSpec` and `DeleteSpec` say, as functions of the server
 * before the call, what the handler answers, what the server holds after it
 * and which client calls it made. The lemmas at the end state the lifecycle
 * guarantees about those functions.
 */
module PipelineResource {
  import opened Wrappers
  import opened Strings
  import opened Framework
  import opened ConfigXml
  import opened JenkinsClient
  import opened Diagnostics

  /** `jenkinsPipelineResourceModel`. */
  datatype ResourceModel = ResourceModel(
    id: Value<string>,
    name: Value<string>,
    description: Value<string>,
    groovyScript: Value<string>,
    lastUpdated: Value<string>)

  /** What a handler leaves in its response: the state and the diagnostics, in order. */
  datatype Response = Response(state: StateAction<ResourceModel>, diags: seq<Problem>)

  /** A handler's effect: its response, the server after it, and the client calls it made. */
  datatype Effect = Effect(response: Response, server: Server, calls: seq<Call>)

  /**
   * A field taken out of a config document: the extracted text and no
   * diagnostic, or "" and one extraction diagnostic (for the script when
   * `script` holds, for the description otherwise).
   */
  datatype Extracted = Extracted(text: string, diags: seq<Problem>)

  function OrEmpty(r: Result<string, ParseError>, jobName: string, script: bool): (e: Extracted)
    ensures r.Success? ==> e == Extracted(r.value, [])
    ensures r.Failure? ==> e.text == "" && |e.diags| == 1
  {
    match r
    case Success(v) => Extracted(v, [])
    case Failure(err) =>
      Extracted("", [if script then ScriptExtractionFailed(jobName, err)
                     else DescriptionExtractionFailed(jobName, err)])
  }

  /** Create (resource_jenkins_pipeline.go:164-230). */
  function CreateSpec(s: Server, plan: ResourceModel, now: string): Effect {
    var jobName := ValueString(plan.name);
    var groovyScript := ValueString(plan.groovyScript);
    var configXml := BuildPipelineConfigXML(ValueString(plan.description), groovyScript);
    var c0 := [Call(JobExistsOp, jobName)];
    match s.JobExists(jobName)
    case Failure(err) => Effect(Response(Untouched, [ExistsCheckFailed(jobName, err)]), s, c0)
    case Success(true) => Effect(Response(Untouched, [AlreadyExists(jobName)]), s, c0)
    case Success(false) =>
      var c1 := c0 + [Call(CreateJobOp, jobName)];
      match s.CreateJob(configXml, jobName)
      case Failure(err) => Effect(Response(Untouched, [CreationFailed(jobName, err)]), s, c1)
      case Success(s1) =>
        var c2 := c1 + [Call(GetJobOp, jobName)];
        match s1.GetJob(jobName)
        case Failure(err) => Effect(Response(Untouched, [CreatedReadFailed(jobName, err)]), s1, c2)
        case Success(job) =>
          var state := plan.(id := Known(job.name), name := Known(job.name),
                             description := Known(job.description),
                             groovyScript := Known(groovyScript), lastUpdated := Known(now));
          Effect(Response(SetState(state), []), s1, c2)
  }

  /** Read (resource_jenkins_pipeline.go:233-301). */
  function ReadSpec(s: Server, prior: ResourceModel, now: string): Effect {
    var jobName := ValueString(prior.id);
    var c0 := [Call(JobExistsOp, jobName)];
    match s.JobExists(jobName)
    case Failure(err) => Effect(Response(Untouched, [ReadExistsCheckFailed(jobName, err)]), s, c0)
    case Success(false) => Effect(Response(RemoveState, []), s, c0)
    case Success(true) =>
      var c1 := c0 + [Call(GetJobConfigOp, jobName)];
      match s.GetJobConfig(jobName)
      case Failure(err) => Effect(Response(Untouched, [ConfigReadFailed(jobName, err)]), s, c1)
      case Success(configXml) =>
        var script := OrEmpty(ExtractGroovyScriptFromXML(configXml), jobName, true);
        var description := OrEmpty(ExtractDescriptionFromXML(configXml), jobName, false);
        var state := prior.(name := Known(jobName), description := Known(description.text),
                            groovyScript := Known(script.text), lastUpdated := Known(now));
        Effect(Response(SetState(state), script.diags + description.diags), s, c1)
  }

  /** Update (resource_jenkins_pipeline.go:304-351). */
  function UpdateSpec(s: Server, plan: ResourceModel, prior: ResourceModel, now: string): Effect {
    var jobName := ValueString(prior.id);
    var newGroovyScript := ValueString(plan.groovyScript);
    var configXml := BuildPipelineConfigXML(ValueString(plan.description), newGroovyScript);
    var c0 := [Call(UpdateJobOp, jobName)];
    match s.UpdateJob(jobName, configXml)
    case Failure(err) => Effect(Response(Untouched, [UpdateFailed(jobName, err)]), s, c0)
    case Success(s1) =>
      var c1 := c0 + [Call(GetJobOp, jobName)];
      match s1.GetJob(jobName)
      case Failure(err) => Effect(Response(Untouched, [UpdatedReadFailed(jobName, err)]), s1, c1)
      case Success(job) =>
        var state := prior.(description := Known(job.description),
                            groovyScript := Known(newGroovyScript), lastUpdated := Known(now));
        Effect(Response(SetState(state), []), s1, c1)
  }

  /**
   * Delete (resource_jenkins_pipeline.go:354-391). The handler itself leaves
   * the state untouched; the framework drops it when no error was added.
   */
  function DeleteSpec(s: Server, prior: ResourceModel): Effect {
    var jobName := ValueString(prior.id);
    var c0 := [Call(JobExistsOp, jobName)];
    match s.JobExists(jobName)
    case Failure(err) => Effect(Response(Untouched, [DeleteExistsCheckFailed(jobName, err)]), s, c0)
    case Success(false) => Effect(Response(Untouched, []), s, c0)
    case Success(true) =>
      var c1 := c0 + [Call(DeleteJobOp, jobName)];
      match s.DeleteJob(jobName)
      case Failure(err) => Effect(Response(Untouched, [DeletionFailed(jobName, err)]), s, c1)
      case Success(s1) => Effect(Response(Untouched, []), s1, c1)
  }

  /** `jenkinsPipelineResource`, holding the client it was configured with. */
  class Resource {
    const client: Client

    constructor (client: Client)
      ensures this.client == client
    {
      this.client := client;
    }

    /** Create: refuses a name already taken, creates the job, and reads it back. */
    method Create(plan: ResourceModel, now: string) returns (resp: Response)
      modifies client
      ensures var e := CreateSpec(old(client.server), plan, now);
        resp == e.response && client.server == e.server && client.calls == old(client.calls) + e.calls
    {
      var jobName := ValueString(plan.name);
      var description := ValueString(plan.description);
      var groovyScript := ValueString(plan.groovyScript);
      var configXml := BuildPipelineConfigXML(description, groovyScript);

      var found := client.JobExists(jobName);
      if found.Failure? {
        return Response(Untouched, [ExistsCheckFailed(jobName, found.error)]);
      }
      if found.value {
        return Response(Untouched, [AlreadyExists(jobName)]);
      }

      var created := client.CreateJob(configXml, jobName);
      if created.Failure? {
        return Response(Untouched, [CreationFailed(jobName, created.error)]);
      }

      var job := client.GetJob(jobName);
      if job.Failure? {
        return Response(Untouched, [CreatedReadFailed(jobName, job.error)]);
      }

      var state := plan;
      state := state.(id := Known(job.value.name));
      state := state.(name := Known(job.value.name));
      state := state.(description := Known(job.value.description));
      state := state.(groovyScript := Known(groovyScript));
      state := state.(lastUpdated := Known(now));
      resp := Response(SetState(state), []);
    }

    /** Read: drops a job that is gone, and refreshes the fields from its config otherwise. */
    method Read(prior: ResourceModel, now: string) returns (resp: Response)
      modifies client
      ensures var e := ReadSpec(old(client.server), prior, now);
        resp == e.response && client.server == e.server && client.calls == old(client.calls) + e.calls
    {
      var jobName := ValueString(prior.id);
      var diags: seq<Problem> := [];

      var found := client.JobExists(jobName);
      if found.Failure? {
        return Response(Untouched, [ReadExistsCheckFailed(jobName, found.error)]);
      }
      if !found.value {
        return Response(RemoveState, []);
      }

      var configXml := client.GetJobConfig(jobName);
      if configXml.Failure? {
        return Response(Untouched, [ConfigReadFailed(jobName, configXml.error)]);
      }

      var groovyScript := "";
      var script := ExtractGroovyScriptFromXML(configXml.value);
      if script.Failure? {
        diags := diags + [ScriptExtractionFailed(jobName, script.error)];
      } else {
        groovyScript := script.value;
      }

      var description := "";
      var desc := ExtractDescriptionFromXML(configXml.value);
      if desc.Failure? {
        diags := diags + [DescriptionExtractionFailed(jobName, desc.error)];
      } else {
        description := desc.value;
      }

      var state := prior;
      state := state.(name := Known(jobName));
      state := state.(description := Known(description));
      state := state.(groovyScript := Known(groovyScript));
      state := state.(lastUpdated := Known(now));
      resp := Response(SetState(state), diags);
    }

    /** Update: rewrites the config of the job named by the prior state's id, then reads it back. */
    method Update(plan: ResourceModel, prior: ResourceModel, now: string) returns (resp: Response)
      modifies client
      ensures var e := UpdateSpec(old(client.server), plan, prior, now);
        resp == e.response && client.server == e.server && client.calls == old(client.calls) + e.calls
    {
      var jobName := ValueString(prior.id);
      var newDescription := ValueString(plan.description);
      var newGroovyScript := ValueString(plan.groovyScript);
      var configXml := BuildPipelineConfigXML(newDescription, newGroovyScript);

      var updated := client.UpdateJob(jobName, configXml);
      if updated.Failure? {
        return Response(Untouched, [UpdateFailed(jobName, updated.error)]);
      }

      var job := client.GetJob(jobName);
      if job.Failure? {
        return Response(Untouched, [UpdatedReadFailed(jobName, job.error)]);
      }

      var state := prior;
      state := state.(description := Known(job.value.description));
      state := state.(groovyScript := Known(newGroovyScript));
      state := state.(lastUpdated := Known(now));
      resp := Response(SetState(state), []);
    }

    /** Delete: deletes the job if it is still there. */
    method Delete(prior: ResourceModel) returns (resp: Response)
      modifies client
      ensures var e := DeleteSpec(old(client.server), prior);
        resp == e.response && client.server == e.server && client.calls == old(client.calls) + e.calls
    {
      var jobName := ValueString(prior.id);

      var found := client.JobExists(jobName);
      if found.Failure? {
        return Response(Untouched, [DeleteExistsCheckFailed(jobName, found.error)]);
      }
      if !found.value {
        return Response(Untouched, []);
      }

      var deleted := client.DeleteJob(jobName);
      if deleted.Failure? {
        return Response(Untouched, [DeletionFailed(jobName, deleted.error)]);
      }
      resp := Response(Untouched, []);
    }

    /**
     * ImportState: the imported identifier becomes `id` verbatim, every
     * other attribute is left null for the Read that follows. The method may
     * not modify the client, so it makes no client call.
     */
    method ImportState(id: string) returns (state: ResourceModel)
      ensures state.id == Known(id)
      ensures state.name.Null? && state.description.Null? && state.groovyScript.Null? && state.lastUpdated.Null?
    {
      state := ResourceModel(Known(id), Null, Null, Null, Null);
    }
  }

  // ---------------------------------------------------------------------
  // Lifecycle guarantees.

  /** No call in `calls` is of operation `op`. */
  predicate NoCallOf(calls: seq<Call>, op: Operation) {
    forall i :: 0 <= i < |calls| ==> calls[i].op != op
  }

  /** Every call in `calls` is for the job `name`. */
  predicate AllCallsFor(calls: seq<Call>, name: string) {
    forall i :: 0 <= i < |calls| ==> calls[i].name == name
  }

  /**
   * Create writes state exactly when every step succeeded, and then adds no
   * diagnostic; otherwise it adds exactly one error and leaves the state alone.
   */
  lemma CreateStateOnlyOnSuccess(s: Server, plan: ResourceModel, now: string)
    ensures var e := CreateSpec(s, plan, now);
      (e.response.state.SetState? <==> e.response.diags == [])
      && (e.response.state.SetState? || (e.response.state.Untouched? && |e.response.diags| == 1))
    ensures var e := CreateSpec(s, plan, now);
      var jobName := ValueString(plan.name);
      e.response.state.SetState? <==>
        s.JobExists(jobName) == Success(false)
        && CreateJobOp !in s.faults && GetJobOp !in s.faults
  {
  }

  /** Create on a name the server already has adds "Job Already Exists" and never calls CreateJob. */
  lemma CreateRefusesTakenName(s: Server, plan: ResourceModel, now: string)
    requires s.JobExists(ValueString(plan.name)) == Success(true)
    ensures var e := CreateSpec(s, plan, now);
      e.response == Response(Untouched, [AlreadyExists(ValueString(plan.name))])
      && e.server == s && NoCallOf(e.calls, CreateJobOp)
  {
  }

  /** Create whose existence check fails adds "Client Error", writes no state and calls nothing else. */
  lemma CreateAbortsOnFailedCheck(s: Server, plan: ResourceModel, now: string)
    requires s.JobExists(ValueString(plan.name)).Failure?
    ensures var e := CreateSpec(s, plan, now);
      var jobName := ValueString(plan.name);
      e.response == Response(Untouched, [ExistsCheckFailed(jobName, s.JobExists(jobName).error)])
      && e.server == s && e.calls == [Call(JobExistsOp, jobName)]
  {
  }

  /**
   * After a successful Create the server has the job, built from the plan,
   * and the state has `id` and `name` set to the server's job name, the
   * server's description, and the planned script as given.
   */
  lemma CreateSuccessState(s: Server, plan: ResourceModel, now: string)
    requires CreateSpec(s, plan, now).response.state.SetState?
    ensures var e := CreateSpec(s, plan, now);
      var jobName := ValueString(plan.name);
      var config := BuildPipelineConfigXML(ValueString(plan.description), ValueString(plan.groovyScript));
      jobName !in s.jobs && e.server.jobs == s.jobs[jobName := NewJob(jobName, config)]
      && e.response.state.value == plan.(
           id := Known(jobName), name := Known(jobName),
           description := Known(e.server.jobs[jobName].description),
           groovyScript := Known(ValueString(plan.groovyScript)), lastUpdated := Known(now))
      && e.calls == [Call(JobExistsOp, jobName), Call(CreateJobOp, jobName), Call(GetJobOp, jobName)]
  {
  }

  /**
   * Create twice under one name: after a successful Create, a second Create
   * of the same plan is refused with "Job Already Exists", changes nothing
   * on the server and calls nothing but the existence check.
   */
  lemma CreateTwiceRefused(s: Server, plan: ResourceModel, now: string, later: string)
    requires CreateSpec(s, plan, now).response.state.SetState?
    ensures var e := CreateSpec(s, plan, now);
      var jobName := ValueString(plan.name);
      CreateSpec(e.server, plan, later)
        == Effect(Response(Untouched, [AlreadyExists(jobName)]), e.server, [Call(JobExistsOp, jobName)])
  {
  }

  /** Read never changes the server, and only asks about the job the prior state's `id` names. */
  lemma ReadLooksUpPriorId(s: Server, prior: ResourceModel, now: string)
    ensures var e := ReadSpec(s, prior, now);
      e.server == s && AllCallsFor(e.calls, ValueString(prior.id))
      && NoCallOf(e.calls, CreateJobOp) && NoCallOf(e.calls, UpdateJobOp) && NoCallOf(e.calls, DeleteJobOp)
  {
  }

  /**
   * Read removes the resource exactly when the existence check says the job
   * is gone, sets state exactly when the config could be read, and otherwise
   * adds one error and leaves the state alone.
   */
  lemma ReadOutcomes(s: Server, prior: ResourceModel, now: string)
    ensures var r := ReadSpec(s, prior, now).response;
      var jobName := ValueString(prior.id);
      (r.state.RemoveState? <==> s.JobExists(jobName) == Success(false))
      && (r.state.SetState? <==> s.JobExists(jobName) == Success(true) && s.GetJobConfig(jobName).Success?)
      && (r.state.RemoveState? ==> r.diags == [])
      && (r.state.Untouched? ==> |r.diags| == 1)
  {
  }

  /** Read of a job that is gone removes the resource from state without an error. */
  lemma ReadRemovesVanishedJob(s: Server, prior: ResourceModel, now: string)
    requires ValueString(prior.id) !in s.jobs && JobExistsOp !in s.faults
    ensures ReadSpec(s, prior, now).response == Response(RemoveState, [])
  {
  }

  /**
   * Once the config is read, Read sets state even when an extraction fails:
   * the failed field becomes "", one error per failed extraction is added (the
   * script's first), `name` becomes the `id`, and `id` is kept.
   */
  lemma ReadToleratesExtractionFailure(s: Server, prior: ResourceModel, now: string)
    requires s.JobExists(ValueString(prior.id)) == Success(true)
    requires s.GetJobConfig(ValueString(prior.id)).Success?
    ensures var e := ReadSpec(s, prior, now);
      var jobName := ValueString(prior.id);
      var xml := s.GetJobConfig(jobName).value;
      var script := ExtractGroovyScriptFromXML(xml);
      var description := ExtractDescriptionFromXML(xml);
      e.response.state.SetState?
      && e.response.state.value.id == prior.id
      && e.response.state.value.name == Known(jobName)
      && e.response.state.value.groovyScript == Known(if script.Success? then script.value else "")
      && e.response.state.value.description == Known(if description.Success? then description.value else "")
      && e.response.diags ==
           (if script.Success? then [] else [ScriptExtractionFailed(jobName, script.error)])
           + (if description.Success? then [] else [DescriptionExtractionFailed(jobName, description.error)])
  {
  }

  /**
   * Update is keyed on the prior state's `id`: the plan's `id` and `name`
   * make no difference, and every call is for the prior `id`.
   */
  lemma UpdateTargetsPriorId(s: Server, plan: ResourceModel, prior: ResourceModel, now: string,
                             otherId: Value<string>, otherName: Value<string>)
    ensures UpdateSpec(s, plan, prior, now) == UpdateSpec(s, plan.(id := otherId, name := otherName), prior, now)
    ensures AllCallsFor(UpdateSpec(s, plan, prior, now).calls, ValueString(prior.id))
  {
  }

  /**
   * Update writes state exactly when UpdateJob and the GetJob after it both
   * succeed, and then adds no diagnostic; otherwise it adds exactly one error
   * and leaves the state alone, and a failed UpdateJob leaves the server as it was.
   */
  lemma UpdateStateOnlyOnSuccess(s: Server, plan: ResourceModel, prior: ResourceModel, now: string)
    ensures var e := UpdateSpec(s, plan, prior, now);
      (e.response.state.SetState? <==> e.response.diags == [])
      && (e.response.state.SetState? || (e.response.state.Untouched? && |e.response.diags| == 1))
    ensures var e := UpdateSpec(s, plan, prior, now);
      var jobName := ValueString(prior.id);
      e.response.state.SetState? <==>
        UpdateJobOp !in s.faults && jobName in s.jobs && GetJobOp !in s.faults
    ensures var e := UpdateSpec(s, plan, prior, now);
      var jobName := ValueString(prior.id);
      var update := s.UpdateJob(jobName, PlannedConfig(plan));
      update.Failure? ==>
        e == Effect(Response(Untouched, [UpdateFailed(jobName, update.error)]), s, [Call(UpdateJobOp, jobName)])
    ensures var e := UpdateSpec(s, plan, prior, now);
      var jobName := ValueString(prior.id);
      var update := s.UpdateJob(jobName, PlannedConfig(plan));
      update.Success? && GetJobOp in s.faults ==>
        e.response == Response(Untouched, [UpdatedReadFailed(jobName, s.faults[GetJobOp])])
  {
  }

  /**
   * A successful Update rewrites only this job's config and description on
   * the server, keeps the prior `id` and `name`, takes the script from the
   * plan and the description from the server.
   */
  lemma UpdateSuccessState(s: Server, plan: ResourceModel, prior: ResourceModel, now: string)
    requires UpdateSpec(s, plan, prior, now).response.state.SetState?
    ensures var e := UpdateSpec(s, plan, prior, now);
      var jobName := ValueString(prior.id);
      var config := PlannedConfig(plan);
      e.response.diags == [] && jobName in s.jobs && e.server.faults == s.faults
      && e.server.jobs == s.jobs[jobName := s.jobs[jobName].(config := config, description := StoredDescription(config))]
      && e.response.state.value == prior.(
           description := Known(StoredDescription(config)),
           groovyScript := Known(ValueString(plan.groovyScript)), lastUpdated := Known(now))
      && e.calls == [Call(UpdateJobOp, jobName), Call(GetJobOp, jobName)]
  {
  }

  /**
   * Delete never writes state. It adds no diagnostic exactly when the
   * existence check succeeds and the job is either gone or deleted, and
   * otherwise adds exactly one error and leaves the server as it was.
   */
  lemma DeleteOutcomes(s: Server, prior: ResourceModel)
    ensures var e := DeleteSpec(s, prior);
      var jobName := ValueString(prior.id);
      e.response.state.Untouched?
      && (e.response.diags == [] <==>
            JobExistsOp !in s.faults && (jobName !in s.jobs || DeleteJobOp !in s.faults))
      && (e.response.diags != [] ==> |e.response.diags| == 1 && e.server == s)
    ensures var e := DeleteSpec(s, prior);
      var jobName := ValueString(prior.id);
      JobExistsOp in s.faults ==>
        e == Effect(Response(Untouched, [DeleteExistsCheckFailed(jobName, s.faults[JobExistsOp])]),
                    s, [Call(JobExistsOp, jobName)])
    ensures var e := DeleteSpec(s, prior);
      var jobName := ValueString(prior.id);
      JobExistsOp !in s.faults && jobName in s.jobs && DeleteJobOp in s.faults ==>
        e.response == Response(Untouched, [DeletionFailed(jobName, s.faults[DeleteJobOp])])
  {
  }

  /** Delete of a job that is already gone succeeds without calling DeleteJob. */
  lemma DeleteAbsentJob(s: Server, prior: ResourceModel)
    requires ValueString(prior.id) !in s.jobs && JobExistsOp !in s.faults
    ensures var e := DeleteSpec(s, prior);
      e.response == Response(Untouched, []) && e.server == s && NoCallOf(e.calls, DeleteJobOp)
  {
  }

  /**
   * Delete without an error leaves the server without the job, and a
   * second Delete then succeeds too, calling nothing but the existence check.
   */
  lemma DeleteIdempotent(s: Server, prior: ResourceModel)
    requires DeleteSpec(s, prior).response.diags == []
    ensures var e := DeleteSpec(s, prior);
      ValueString(prior.id) !in e.server.jobs
      && e.server.jobs == s.jobs - {ValueString(prior.id)}
      && DeleteSpec(e.server, prior) == Effect(Response(Untouched, []), e.server, [Call(JobExistsOp, ValueString(prior.id))])
  {
  }

  /** The config document a plan is sent as. */
  function PlannedConfig(plan: ResourceModel): string {
    BuildPipelineConfigXML(ValueString(plan.description), ValueString(plan.groovyScript))
  }

  /** The plan's description and script come back out of the document they are sent in. */
  predicate RoundTrips(plan: ResourceModel) {
    !ContainsText(ValueString(plan.description), DescriptionEnd)
    && !ContainsText(ValueString(plan.description), ScriptStart)
    && !ContainsText(ValueString(plan.groovyScript), ScriptEnd)
  }

  /** The server stores the plan's own description when the document round-trips. */
  lemma PlannedConfigRoundTrips(plan: ResourceModel)
    requires RoundTrips(plan)
    ensures StoredDescription(PlannedConfig(plan)) == ValueString(plan.description)
    ensures ExtractDescriptionFromXML(PlannedConfig(plan)) == Success(ValueString(plan.description))
    ensures ExtractGroovyScriptFromXML(PlannedConfig(plan)) == Success(ValueString(plan.groovyScript))
  {
    BuildThenExtract(ValueString(plan.description), ValueString(plan.groovyScript));
  }

  /**
   * No drift after Create: when the plan's texts round-trip and config reads
   * do not fail, a Read right after a successful Create reports the state
   * Create wrote, with the plan's own description, apart from the timestamp.
   */
  lemma CreateThenReadAgrees(s: Server, plan: ResourceModel, now: string, later: string)
    requires RoundTrips(plan) && GetJobConfigOp !in s.faults
    requires CreateSpec(s, plan, now).response.state.SetState?
    ensures var created := CreateSpec(s, plan, now).response.state.value;
      created.description == Known(ValueString(plan.description))
      && ReadSpec(CreateSpec(s, plan, now).server, created, later).response
         == Response(SetState(created.(lastUpdated := Known(later))), [])
  {
    PlannedConfigRoundTrips(plan);
  }

  /**
   * No drift after Update: for a state whose `name` is its `id` (as Create
   * writes it), a Read right after a successful Update reports the state
   * Update wrote, with the plan's own description, apart from the timestamp.
   */
  lemma UpdateThenReadAgrees(s: Server, plan: ResourceModel, prior: ResourceModel, now: string, later: string)
    requires RoundTrips(plan) && GetJobConfigOp !in s.faults && JobExistsOp !in s.faults
    requires prior.id.Known? && prior.name == prior.id
    requires UpdateSpec(s, plan, prior, now).response.state.SetState?
    ensures var updated := UpdateSpec(s, plan, prior, now).response.state.value;
      updated.description == Known(ValueString(plan.description))
      && ReadSpec(UpdateSpec(s, plan, prior, now).server, updated, later).response
         == Response(SetState(updated.(lastUpdated := Known(later))), [])
  {
    PlannedConfigRoundTrips(plan);
  }
}
