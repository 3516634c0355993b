/**
 * The Jenkins server as the handlers see it through the `gojenkins` client:
 * a map from job name to job, plus the operations that may fail. Which
 * operation fails, and with what error text, is fixed per server by
 * `faults`; each handler calls each operation at most once, so this covers
 * every combination of successes and failures. The client object records
 * every call it is asked to make.
 */
module JenkinsClient {
  import opened Wrappers
  import ConfigXml

  /** The last completed build of a job; `number` is 0 when there is none. */
  datatype Build = Build(number: int, result: string, duration: int)

  /** A job as `GetJob` returns it (`job.Raw`), together with its stored config document. */
  datatype Job = Job(name: string, description: string, config: string, lastCompletedBuild: Build)

  /** The client operations the handlers use. */
  datatype Operation =
    | JobExistsOp
    | CreateJobOp
    | GetJobOp
    | GetJobConfigOp
    | UpdateJobOp
    | DeleteJobOp
    | GetLastCompletedBuildOp

  /** One client call, with the job name it was made for. */
  datatype Call = Call(op: Operation, name: string)

  /** The error text of a request for a job the server does not have. */
  const NotFound := "404"
  /** The error text of a request to create a job under a name already taken. */
  const Conflict := "400"

  /**
   * The description the server records for a config document: the text of
   * its description element, or "" when it has none.
   */
  function StoredDescription(config: string): string {
    match ConfigXml.ExtractDescriptionFromXML(config)
    case Success(d) => d
    case Failure(_) => ""
  }

  /** A job just created from `config`, without builds. */
  function NewJob(name: string, config: string): (j: Job)
    ensures j.name == name && j.config == config && j.lastCompletedBuild.number == 0
  {
    Job(name, StoredDescription(config), config, Build(0, "", 0))
  }

  /** A server: its jobs, and the error text of each operation that fails. */
  datatype Server = Server(jobs: map<string, Job>, faults: map<Operation, string>) {

    function JobExists(name: string): Result<bool, string> {
      if JobExistsOp in faults then Failure(faults[JobExistsOp])
      else Success(name in jobs)
    }

    /** Creates a job; on success the result is the new server. */
    function CreateJob(config: string, name: string): (r: Result<Server, string>)
      ensures r.Success? <==> CreateJobOp !in faults && name !in jobs
      ensures r.Success? ==> r.value.faults == faults && r.value.jobs == jobs[name := NewJob(name, config)]
    {
      if CreateJobOp in faults then Failure(faults[CreateJobOp])
      else if name in jobs then Failure(Conflict)
      else Success(this.(jobs := jobs[name := NewJob(name, config)]))
    }

    function GetJob(name: string): Result<Job, string> {
      if GetJobOp in faults then Failure(faults[GetJobOp])
      else if name !in jobs then Failure(NotFound)
      else Success(jobs[name])
    }

    function GetJobConfig(name: string): Result<string, string> {
      if GetJobConfigOp in faults then Failure(faults[GetJobConfigOp])
      else if name !in jobs then Failure(NotFound)
      else Success(jobs[name].config)
    }

    /** Replaces a job's config (and so its description); on success the result is the new server. */
    function UpdateJob(name: string, config: string): (r: Result<Server, string>)
      ensures r.Success? <==> UpdateJobOp !in faults && name in jobs
      ensures r.Success? ==> r.value.faults == faults && r.value.jobs.Keys == jobs.Keys
    {
      if UpdateJobOp in faults then Failure(faults[UpdateJobOp])
      else if name !in jobs then Failure(NotFound)
      else Success(this.(jobs := jobs[name := jobs[name].(config := config, description := StoredDescription(config))]))
    }

    /** Deletes a job; on success the result is the new server. */
    function DeleteJob(name: string): (r: Result<Server, string>)
      ensures r.Success? <==> DeleteJobOp !in faults && name in jobs
      ensures r.Success? ==> r.value.faults == faults && r.value.jobs == jobs - {name}
    {
      if DeleteJobOp in faults then Failure(faults[DeleteJobOp])
      else if name !in jobs then Failure(NotFound)
      else Success(this.(jobs := jobs - {name}))
    }

    function GetLastCompletedBuild(name: string): Result<Build, string> {
      if GetLastCompletedBuildOp in faults then Failure(faults[GetLastCompletedBuildOp])
      else if name !in jobs then Failure(NotFound)
      else Success(jobs[name].lastCompletedBuild)
    }
  }

  /** The `gojenkins` client object: the server behind it and the calls made through it. */
  class Client {
    var server: Server
    var calls: seq<Call>

    constructor (s: Server)
      ensures server == s && calls == []
    {
      server := s;
      calls := [];
    }

    method JobExists(name: string) returns (r: Result<bool, string>)
      modifies this
      ensures r == old(server).JobExists(name)
      ensures server == old(server) && calls == old(calls) + [Call(JobExistsOp, name)]
    {
      r := server.JobExists(name);
      calls := calls + [Call(JobExistsOp, name)];
    }

    method CreateJob(config: string, name: string) returns (r: Result<(), string>)
      modifies this
      ensures var c := old(server).CreateJob(config, name);
        (r.Success? <==> c.Success?) && (c.Failure? ==> r.error == c.error)
        && server == (if c.Success? then c.value else old(server))
      ensures calls == old(calls) + [Call(CreateJobOp, name)]
    {
      var c := server.CreateJob(config, name);
      if c.Success? {
        server := c.value;
        r := Success(());
      } else {
        r := Failure(c.error);
      }
      calls := calls + [Call(CreateJobOp, name)];
    }

    method GetJob(name: string) returns (r: Result<Job, string>)
      modifies this
      ensures r == old(server).GetJob(name)
      ensures server == old(server) && calls == old(calls) + [Call(GetJobOp, name)]
    {
      r := server.GetJob(name);
      calls := calls + [Call(GetJobOp, name)];
    }

    method GetJobConfig(name: string) returns (r: Result<string, string>)
      modifies this
      ensures r == old(server).GetJobConfig(name)
      ensures server == old(server) && calls == old(calls) + [Call(GetJobConfigOp, name)]
    {
      r := server.GetJobConfig(name);
      calls := calls + [Call(GetJobConfigOp, name)];
    }

    method UpdateJob(name: string, config: string) returns (r: Result<(), string>)
      modifies this
      ensures var c := old(server).UpdateJob(name, config);
        (r.Success? <==> c.Success?) && (c.Failure? ==> r.error == c.error)
        && server == (if c.Success? then c.value else old(server))
      ensures calls == old(calls) + [Call(UpdateJobOp, name)]
    {
      var c := server.UpdateJob(name, config);
      if c.Success? {
        server := c.value;
        r := Success(());
      } else {
        r := Failure(c.error);
      }
      calls := calls + [Call(UpdateJobOp, name)];
    }

    method DeleteJob(name: string) returns (r: Result<(), string>)
      modifies this
      ensures var c := old(server).DeleteJob(name);
        (r.Success? <==> c.Success?) && (c.Failure? ==> r.error == c.error)
        && server == (if c.Success? then c.value else old(server))
      ensures calls == old(calls) + [Call(DeleteJobOp, name)]
    {
      var c := server.DeleteJob(name);
      if c.Success? {
        server := c.value;
        r := Success(());
      } else {
        r := Failure(c.error);
      }
      calls := calls + [Call(DeleteJobOp, name)];
    }

    method GetLastCompletedBuild(name: string) returns (r: Result<Build, string>)
      modifies this
      ensures r == old(server).GetLastCompletedBuild(name)
      ensures server == old(server) && calls == old(calls) + [Call(GetLastCompletedBuildOp, name)]
    {
      r := server.GetLastCompletedBuild(name);
      calls := calls + [Call(GetLastCompletedBuildOp, name)];
    }
  }
}
