/**
 * The request-level logic of the installer's two endpoints, as pure
 * functions: validation of a submission (`handleInstall`), lookup of a job
 * (`handleStatus`), the package specification handed to npm and the ordered
 * status writes of a background installation (`runInstallation`).
 */
module Requests {
  import opened Wrappers
  import opened Jobs

  /** The body of a POST to /install. */
  datatype InstallRequest = InstallRequest(
    packageIdentifier: string,
    registryType: string,
    version: string)

  /** The JSON body of every /install answer; an empty `jobID` is omitted. */
  datatype InstallResponse = InstallResponse(success: bool, message: string, jobID: string)

  /** An /install answer: HTTP status code and body. */
  datatype InstallReply = InstallReply(code: int, body: InstallResponse)

  /** What the JSON decoder made of the request body. */
  datatype DecodedBody = Decoded(req: InstallRequest) | DecodeError(err: string)

  /** The validation verdict of `handleInstall`, before any job exists. */
  datatype Admission = Rejected(reply: InstallReply) | Accepted(req: InstallRequest)

  const SupportedRegistry: string := "npm"

  function UnsupportedMessage(registryType: string): string {
    "Unsupported registry type: " + registryType + ". Currently only 'npm' is supported."
  }

  /**
   * The checks `handleInstall` makes before it creates a job: the method must
   * be POST, the body must decode, and the registry type must be exactly "npm".
   */
  function Admit(httpMethod: string, body: DecodedBody): (r: Admission)
    ensures r.Accepted? <==>
      httpMethod == "POST" && body.Decoded? && body.req.registryType == SupportedRegistry
    ensures r.Accepted? ==> r.req == body.req
    ensures r.Rejected? ==> !r.reply.body.success && r.reply.body.jobID == ""
    ensures r.Rejected? ==> (r.reply.code == 405 <==> httpMethod != "POST")
    ensures r.Rejected? && httpMethod == "POST" ==> r.reply.code == 400
    ensures httpMethod != "POST" ==> r.reply.body.message == "Method not allowed"
    ensures httpMethod == "POST" && body.DecodeError? ==>
      r.reply.body.message == "Invalid request body: " + body.err
    ensures r.Rejected? && httpMethod == "POST" && body.Decoded? ==>
      r.reply.body.message == UnsupportedMessage(body.req.registryType)
  {
    if httpMethod != "POST" then
      Rejected(InstallReply(405, InstallResponse(false, "Method not allowed", "")))
    else if body.DecodeError? then
      Rejected(InstallReply(400, InstallResponse(false, "Invalid request body: " + body.err, "")))
    else if body.req.registryType != SupportedRegistry then
      Rejected(InstallReply(400, InstallResponse(false, UnsupportedMessage(body.req.registryType), "")))
    else
      Accepted(body.req)
  }

  /** The answer to an accepted submission. */
  function StartedReply(id: string): InstallReply {
    InstallReply(200, InstallResponse(true, "Installation started", id))
  }

  /** The argument npm installs: `name` or `name@version`. */
  function PackageSpec(req: InstallRequest): string {
    if req.version == "" then req.packageIdentifier
    else req.packageIdentifier + "@" + req.version
  }

  /** No '@' after the first character (a scoped name keeps its leading '@'). */
  predicate NoSeparator(s: string) {
    forall i :: 1 <= i < |s| ==> s[i] != '@'
  }

  /**
   * The first '@' after the first character, where `name@version` is split;
   * a leading '@' opens a scoped name such as `@scope/name`, and the version
   * may itself contain '@' (an alias such as `npm:other@1`).
   */
  function FirstSeparator(s: string): (r: Option<nat>)
    ensures r.Some? ==> 1 <= r.value < |s| && s[r.value] == '@'
    ensures r.Some? ==> NoSeparator(s[..r.value])
    ensures r.None? <==> NoSeparator(s)
  {
    if |s| <= 1 then None
    else match FirstSeparator(s[..|s| - 1])
      case Some(i) => Some(i)
      case None => if s[|s| - 1] == '@' then Some(|s| - 1) else None
  }

  /** The inverse of PackageSpec: a package specification split into name and version. */
  function SplitSpec(spec: string): (string, string) {
    match FirstSeparator(spec)
    case None => (spec, "")
    case Some(i) => (spec[..i], spec[i + 1..])
  }

  /**
   * The package specification loses nothing: when the name has no separator
   * of its own, splitting it returns the name and the version.
   */
  lemma PackageSpecRoundTrip(req: InstallRequest)
    requires NoSeparator(req.packageIdentifier)
    requires req.version != "" ==> req.packageIdentifier != ""
    ensures SplitSpec(PackageSpec(req)) == (req.packageIdentifier, req.version)
  {
    var spec := PackageSpec(req);
    var n := |req.packageIdentifier|;
    if req.version != "" {
      assert spec[..n] == req.packageIdentifier;
      assert spec[n] == '@';
      var r := FirstSeparator(spec);
      assert r.Some? by {
        assert !NoSeparator(spec);
      }
      if r.value < n {
        assert false;
      } else if r.value > n {
        assert false;
      }
      assert spec[n + 1..] == req.version;
    }
  }

  /** The external command for a request: `npm install -g <spec>`, or none for another registry. */
  function InstallCommand(req: InstallRequest): (r: Option<seq<string>>)
    ensures r.Some? <==> req.registryType == SupportedRegistry
    ensures r.Some? ==> |r.value| == 4 && r.value[..3] == ["npm", "install", "-g"]
    ensures r.Some? ==> r.value[3] == PackageSpec(req)
  {
    if req.registryType == SupportedRegistry then Some(["npm", "install", "-g", PackageSpec(req)])
    else None
  }

  /** What running the external command yields: its combined output and, on failure, the error text. */
  datatype CommandOutcome = Succeeded(output: string) | Failed(output: string, err: string)

  /**
   * The `updateJob` calls one `runInstallation` makes, in order: first
   * "running", then exactly one terminal write. `tRunning` and `tDone` are
   * the clock readings of the two calls.
   */
  function InstallWrites(id: string, req: InstallRequest, outcome: CommandOutcome,
                         tRunning: Time, tDone: Time): (ws: seq<Write>)
    ensures |ws| == 2 && WritesTo(ws, id) == ws
    ensures ws[0] == Write(id, Running, "Installing package...", "", "", tRunning)
    ensures ws[1].status.IsTerminal() && ws[1].at == tDone
    ensures IsLifecycle([Pending] + Statuses(ws))
    ensures ws[1].status == Completed <==>
      req.registryType == SupportedRegistry && outcome.Succeeded?
    ensures ws[1].output == (if req.registryType == SupportedRegistry then outcome.output else "")
    ensures ws[1].error == (if req.registryType == SupportedRegistry && outcome.Failed? then outcome.err else "")
    ensures req.registryType != SupportedRegistry ==> ws[1].message == "Unsupported registry type"
    ensures req.registryType == SupportedRegistry ==>
      ws[1].message == (if outcome.Succeeded? then "Installation successful" else "Installation failed")
  {
    var running := Write(id, Running, "Installing package...", "", "", tRunning);
    var last :=
      if req.registryType != SupportedRegistry then
        Write(id, Jobs.Failed, "Unsupported registry type", "", "", tDone)
      else match outcome
        case Failed(output, err) => Write(id, Jobs.Failed, "Installation failed", output, err, tDone)
        case Succeeded(output) => Write(id, Completed, "Installation successful", output, "", tDone);
    [running, last]
  }

  /**
   * The registry check inside `runInstallation` is defensive: for a request
   * that `handleInstall` admitted, the job never ends as "Unsupported registry type".
   */
  lemma AdmittedRequestsRunNpm(httpMethod: string, body: DecodedBody, id: string,
                               outcome: CommandOutcome, tRunning: Time, tDone: Time)
    requires Admit(httpMethod, body).Accepted?
    ensures InstallCommand(Admit(httpMethod, body).req).Some?
    ensures InstallWrites(id, Admit(httpMethod, body).req, outcome, tRunning, tDone)[1].message
      != "Unsupported registry type"
  {
  }

  /** The route /status/ is registered under; every path it receives starts with it. */
  const StatusRoute: string := "/status/"

  /** A /status/ answer: the record, or an error with its HTTP status code. */
  datatype StatusReply =
    | Found(job: JobStatus)
    | MethodNotAllowed
    | BadRequest(error: string)
    | NotFound(error: string)
  {
    function Code(): int {
      match this
      case Found(_) => 200
      case MethodNotAllowed => 405
      case BadRequest(_) => 400
      case NotFound(_) => 404
    }
  }

  /**
   * `handleStatus` against the job table: GET only, the identifier is the
   * rest of the path, an empty identifier is a bad request, an unknown one
   * is not found, and a known one yields its record.
   */
  function Query(jobs: map<string, JobStatus>, httpMethod: string, path: string): (r: StatusReply)
    requires StatusRoute <= path
    ensures r.MethodNotAllowed? <==> httpMethod != "GET"
    ensures r.BadRequest? <==> httpMethod == "GET" && path == StatusRoute
    ensures r.NotFound? <==>
      httpMethod == "GET" && path != StatusRoute && path[|StatusRoute|..] !in jobs
    ensures r.Found? <==>
      httpMethod == "GET" && path[|StatusRoute|..] != "" && path[|StatusRoute|..] in jobs
    ensures r.Found? ==> r.job == jobs[path[|StatusRoute|..]]
    ensures r.BadRequest? ==> r.error == "Job ID required"
    ensures r.NotFound? ==> r.error == "Job not found"
  {
    var id := path[|StatusRoute|..];
    if httpMethod != "GET" then MethodNotAllowed
    else if id == "" then BadRequest("Job ID required")
    else if id !in jobs then NotFound("Job not found")
    else Found(jobs[id])
  }

  /**
   * A poll after a write to its job sees exactly that write's fields, with
   * the identifier and start time the job was created with; polls of other
   * jobs see what they saw before.
   */
  lemma QueryAfterWrite(jobs: map<string, JobStatus>, w: Write, path: string)
    requires KeyedById(jobs)
    requires StatusRoute <= path
    ensures var id := path[|StatusRoute|..];
      id == w.jobID && id != "" && id in jobs ==>
        Query(Apply(jobs, w), "GET", path) ==
          Found(JobStatus(id, w.status, w.message, w.output, w.error, jobs[id].startedAt, w.at))
    ensures var id := path[|StatusRoute|..];
      id != w.jobID ==> Query(Apply(jobs, w), "GET", path) == Query(jobs, "GET", path)
  {
    var id := path[|StatusRoute|..];
    if id == w.jobID && id != "" && id in jobs {
      var rec := Stamp(jobs[id], w);
      assert rec == JobStatus(id, w.status, w.message, w.output, w.error, jobs[id].startedAt, w.at);
    }
  }
}
