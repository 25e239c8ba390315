/**
 * The installer's job table (`InstallerServer`): a map from job identifier
 * to job record that the /install and /status/ handlers and the background
 * installations read and write. Each locked section of the source is one
 * atomic method here; the ghost `writes` log lists every `updateJob` call
 * in the order the lock serialised them.
 */
module Installer {
  import opened Wrappers
  import opened JobIds
  import opened Jobs
  import opened Requests

  /** The background installation `handleInstall` starts with `go runInstallation(...)`. */
  datatype Task = Task(jobID: string, req: InstallRequest)

  class InstallerServer {
    var jobs: map<string, JobStatus>
    ghost var writes: seq<Write>

    ghost predicate Valid()
      reads this
    {
      KeyedById(jobs)
    }

    /** `NewInstallerServer`: an empty table. */
    constructor ()
      ensures Valid() && jobs == map[] && writes == []
    {
      jobs := map[];
      writes := [];
    }

    /**
     * `handleInstall`: a rejected submission answers with the reason and
     * changes nothing; an accepted one stores a pending record under
     * "job-<idNanos>", answers with that identifier at once and hands the
     * installation to a background task.
     */
    method HandleInstall(httpMethod: string, body: DecodedBody,
                         idNanos: nat, startedAt: Time, updatedAt: Time)
      returns (reply: InstallReply, task: Option<Task>)
      requires Valid()
      modifies this
      ensures Valid() && writes == old(writes)
      ensures Admit(httpMethod, body).Rejected? ==>
        reply == Admit(httpMethod, body).reply && task == None && jobs == old(jobs)
      ensures Admit(httpMethod, body).Accepted? ==>
        var id := JobId(idNanos);
        && reply == StartedReply(id)
        && task == Some(Task(id, Admit(httpMethod, body).req))
        && jobs == old(jobs)[id := Queued(id, startedAt, updatedAt)]
    {
      match Admit(httpMethod, body)
      case Rejected(r) =>
        reply, task := r, None;
      case Accepted(req) =>
        var id := JobId(idNanos);
        jobs := jobs[id := Queued(id, startedAt, updatedAt)];
        task := Some(Task(id, req));
        reply := StartedReply(id);
    }

    /** `handleStatus`: reads the table and changes nothing. */
    method HandleStatus(httpMethod: string, path: string) returns (reply: StatusReply)
      requires StatusRoute <= path
      ensures reply == Query(jobs, httpMethod, path)
    {
      var id := path[|StatusRoute|..];
      if httpMethod != "GET" {
        reply := MethodNotAllowed;
      } else if id == "" {
        reply := BadRequest("Job ID required");
      } else if id in jobs {
        reply := Found(jobs[id]);
      } else {
        reply := NotFound("Job not found");
      }
    }

    /**
     * `updateJob`: replaces status, message, output, error and update time of
     * the record under `id`; an unknown `id` is ignored.
     */
    method UpdateJob(id: string, status: Status, message: string, output: string,
                     error: string, now: Time)
      requires Valid()
      modifies this
      ensures Valid()
      ensures writes == old(writes) + [Write(id, status, message, output, error, now)]
      ensures jobs == Apply(old(jobs), Write(id, status, message, output, error, now))
      ensures jobs == ApplyAll(old(jobs), writes[|old(writes)|..])
      ensures id !in old(jobs) ==> jobs == old(jobs)
      ensures jobs.Keys == old(jobs).Keys
      ensures id in old(jobs) ==>
        jobs[id] == JobStatus(id, status, message, output, error, old(jobs)[id].startedAt, now)
    {
      writes := writes + [Write(id, status, message, output, error, now)];
      if id in jobs {
        var job := jobs[id];
        jobs := jobs[id := job.(status := status, message := message, output := output,
                                error := error, updatedAt := now)];
      }
    }

    /**
     * `runInstallation`: writes "running", then one terminal write chosen by
     * the registry type and the outcome of the npm command. `tRunning` and
     * `tDone` are the clock readings of the two writes.
     */
    method RunInstallation(id: string, req: InstallRequest, outcome: CommandOutcome,
                           tRunning: Time, tDone: Time)
      requires Valid()
      modifies this
      ensures Valid()
      ensures writes == old(writes) + InstallWrites(id, req, outcome, tRunning, tDone)
      ensures jobs == ApplyAll(old(jobs), InstallWrites(id, req, outcome, tRunning, tDone))
      ensures jobs == ApplyAll(old(jobs), writes[|old(writes)|..])
      ensures forall k :: k in old(jobs) && k != id ==> k in jobs && jobs[k] == old(jobs)[k]
      ensures id in old(jobs) ==>
        jobs[id] == Stamp(old(jobs)[id], InstallWrites(id, req, outcome, tRunning, tDone)[1])
    {
      ghost var ws := InstallWrites(id, req, outcome, tRunning, tDone);
      ApplyAllTwo(jobs, ws[0], ws[1]);
      UpdateJob(id, Running, "Installing package...", "", "", tRunning);
      match InstallCommand(req)
      case None =>
        UpdateJob(id, Jobs.Failed, "Unsupported registry type", "", "", tDone);
      case Some(_) =>
        match outcome
        case Failed(output, err) =>
          UpdateJob(id, Jobs.Failed, "Installation failed", output, err, tDone);
        case Succeeded(output) =>
          UpdateJob(id, Completed, "Installation successful", output, "", tDone);
    }
  }

  /**
   * What a poll finally sees of an installation, however the writes of other
   * jobs' background tasks interleave with its own: the job keeps its
   * identifier and start time, went pending -> running -> terminal, and its
   * terminal fields are exactly its own command's outcome. The requires
   * presupposes distinct identifiers: two submissions that read the same
   * clock value share one record, and both of their tasks write to it.
   */
  lemma InstallationOutcome(jobs: map<string, JobStatus>, ws: seq<Write>, id: string,
                            req: InstallRequest, outcome: CommandOutcome,
                            tRunning: Time, tDone: Time)
    requires KeyedById(jobs) && id in jobs
    requires WritesTo(ws, id) == InstallWrites(id, req, outcome, tRunning, tDone)
    ensures var rec := ApplyAll(jobs, ws)[id];
      && rec.jobID == id && rec.startedAt == jobs[id].startedAt
      && rec.status.IsTerminal() && rec.updatedAt == tDone
      && (rec.status == Completed <==> req.registryType == SupportedRegistry && outcome.Succeeded?)
      && rec.output == (if req.registryType == SupportedRegistry then outcome.output else "")
      && rec.error == (if req.registryType == SupportedRegistry && outcome.Failed? then outcome.err else "")
  {
    ApplyAllIsolated(jobs, ws, id);
    ReplayKeepsIdentity(jobs[id], WritesTo(ws, id));
  }

  /**
   * An npm submission is answered with a job identifier; the job polls as
   * pending, the same way twice, and after its installation as completed
   * with the command's output.
   */
  method NpmSubmissionScenario(nanos: nat, t0: Time, t1: Time, t2: Time, npmOutput: string)
  {
    var server := new InstallerServer();
    var reply, task := server.HandleInstall("POST", Decoded(InstallRequest("left-pad", "npm", "")),
                                            nanos, t0, t0);
    assert reply.body.success && reply.body.jobID == JobId(nanos) && task.Some?;
    var id := task.value.jobID;
    var path := StatusRoute + id;
    assert path[|StatusRoute|..] == id;
    var poll := server.HandleStatus("GET", path);
    assert poll.Found? && poll.job.status == Pending && poll.job.message == "Installation queued";
    var again := server.HandleStatus("GET", path);
    assert again == poll;

    server.RunInstallation(id, task.value.req, Succeeded(npmOutput), t1, t2);
    poll := server.HandleStatus("GET", path);
    assert poll.Found? && poll.job.status == Completed;
    assert poll.job.output == npmOutput && poll.job.error == "" && poll.job.startedAt == t0;
  }

  /** A pip submission is refused with 400, no identifier and no job. */
  method PipSubmissionScenario(nanos: nat, t0: Time)
  {
    var server := new InstallerServer();
    var refused, none := server.HandleInstall("POST", Decoded(InstallRequest("x", "pip", "")),
                                              nanos, t0, t0);
    assert !refused.body.success && refused.code == 400 && refused.body.jobID == "" && none == None;
    assert server.jobs == map[];
  }

  /** An identifier that was never issued is not found. */
  method UnknownJobScenario()
  {
    var server := new InstallerServer();
    var unknown := server.HandleStatus("GET", "/status/job-0");
    assert unknown.NotFound? && unknown.Code() == 404;
  }
}
