# MCP installer job table — Dafny model

The installer (`cmd/installer/main.go`) is a small HTTP service that installs
npm packages in the background. A POST to `/install` is validated, gets a job
identifier `job-<nanoseconds>`, and a `pending` record is stored in the
server's job table. A background task then writes `running` and, once
`npm install -g <spec>` has finished, exactly one terminal write, `completed`
or `failed`. A GET of `/status/<id>` returns the record as it stands.

The model:

- `wrappers.dfy`, module `Wrappers`: `Option`.
- `job_ids.dfy`, module `JobIds`: the `job-%d` identifier, its decimal
  rendering, the parser that inverts it, and injectivity in the clock reading.
- `jobs.dfy`, module `Jobs`:
  - the `JobStatus` record and the four statuses;
  - one `updateJob` call as a `Write`, and its effect on a record (`Stamp`, `Replay`) and on the table (`Apply`, `ApplyAll`);
  - the isolation theorem: a job's final record depends only on its own writes, however other jobs' writes interleave;
  - the status lifecycle and update-time monotonicity.
- `requests.dfy`, module `Requests`:
  - submission checks (`Admit`) and status lookup (`Query`);
  - the package specification `name[@version]` and `SplitSpec`, its inverse for names without a separator of their own;
  - the npm command;
  - the ordered writes of one background installation (`InstallWrites`).
- `installer_server.dfy`, module `Installer`:
  - class `InstallerServer` holds `jobs: map<string, JobStatus>`;
  - `HandleInstall`, `HandleStatus` and `UpdateJob` each are one locked section of the source;
  - `RunInstallation` makes `runInstallation`'s two separately locked `updateJob` calls in one step (see "## Left out");
  - a ghost `writes` log records every `updateJob` call in lock order, and `UpdateJob` and `RunInstallation` each state the table as their new writes applied to the old table; `HandleInstall`'s insert is not in the log;
  - client scenarios exercise the contracts.

External pieces are inputs:
- the clock (`idNanos`, `startedAt`, `updatedAt`, `tRunning`, `tDone`);
- the JSON decoder's verdict (`DecodedBody`);
- the outcome of the npm process (`CommandOutcome`: `Succeeded(output)` or `Failed(output, err)`);
- `go s.runInstallation(...)`: `HandleInstall` returns the `Task` to run and a caller runs it later.

Where the code and the design description disagree, the model follows the code:
- The defensive non-npm branch of `runInstallation` writes `failed` with an EMPTY error text. The design says a failed job carries its failure detail.
- `updateJob` does not check status transitions. The lifecycle pending → running → terminal comes only from the fixed order of writes in `runInstallation` (`InstallWrites`, `InstallationOutcome`).
- Job identifiers are not unique by construction. Two submissions with the same clock reading get the same identifier, and the second record replaces the first (`HandleInstall` updates the map at that key; `JobIdInjective`).
- An empty `packageIdentifier` is accepted: the code checks only the registry type.

## Model

| member | source | states |
|---|---|---|
| JobIds.Decimal | cmd/installer/main.go:157 | the `%d` rendering is a non-empty digit string with no leading zero, one digit exactly below 10 |
| JobIds.DecimalRoundTrip | cmd/installer/main.go:157 | reading the rendered digits back gives the original nanosecond count |
| JobIds.JobId | cmd/installer/main.go:157 | an identifier is "job-" followed by a non-empty string of digits |
| JobIds.ParseJobId | cmd/installer/main.go:157 | an identifier parses exactly when it is "job-" followed by at least one digit |
| JobIds.ParseJobIdRoundTrip | cmd/installer/main.go:157 | parsing the identifier made from a clock reading returns that reading |
| JobIds.JobIdInjective | cmd/installer/main.go:157 | two identifiers are equal if and only if their clock readings are equal (uniqueness rests on the clock alone) |
| Jobs.Stamp | cmd/installer/main.go:244-250 | a write sets status, message, output, error and update time, and keeps identifier and start time |
| Jobs.ReplayKeepsIdentity | cmd/installer/main.go:240-251 | any number of writes keep a record's identifier and start time; afterwards the record carries the last write's fields |
| Jobs.ReplayUpdatedAtMonotone | cmd/installer/main.go:249 | with a clock that never goes backwards, a record's update time never decreases from one write to the next |
| Jobs.Apply | cmd/installer/main.go:240-251 | `updateJob` keeps the key set, is a no-op for an absent identifier, stamps only the named record and leaves every other record unchanged |
| Jobs.ApplyAll | cmd/installer/main.go:240-251 | any sequence of `updateJob` calls keeps the key set (no job is created or removed) |
| Jobs.ApplyAllIsolated | cmd/installer/main.go:240-251 | under any interleaving of writes, a job's final record is its initial record replayed with only the writes addressed to it |
| Jobs.ApplyAllAbsent | cmd/installer/main.go:244 | writes that all name absent identifiers leave the table unchanged |
| Jobs.TerminalIsLast | cmd/installer/main.go:212-238 | in any valid status sequence, a `completed` or `failed` status can only be the last one |
| Requests.Admit | cmd/installer/main.go:127-154 | a submission is admitted exactly when it is a POST whose body decodes and whose registry type is exactly "npm"; every rejection has success false, no job identifier, 405 with "Method not allowed" for a wrong method, otherwise 400 with "Invalid request body: " and the decoder's error for a body that does not decode, or the unsupported-registry message for another registry |
| Requests.FirstSeparator | cmd/installer/main.go:216-219 | finds the first '@' after the first character of a package specification, or reports exactly when there is none |
| Requests.PackageSpecRoundTrip | cmd/installer/main.go:216-219 | for a name with no '@' after its first character, and that is non-empty when a version is given, splitting the package specification at its first separator gives back the name and the version, whatever the version contains (empty when none was given) |
| Requests.InstallCommand | cmd/installer/main.go:221-227 | an external command exists exactly for the npm registry, and it is `npm install -g` applied to the package specification |
| Requests.InstallWrites | cmd/installer/main.go:212-238 | an installation makes two writes to its own job: "running" with empty output and error, then one terminal write; `completed` exactly for npm with a successful command; output and error come from the command; the message is "Installation successful", "Installation failed" or "Unsupported registry type" by branch; pending, running, terminal is a valid lifecycle |
| Requests.AdmittedRequestsRunNpm | cmd/installer/main.go:221-227 | for an admitted submission the npm command exists and the job never ends with "Unsupported registry type" |
| Requests.Query | cmd/installer/main.go:186-209 | a status lookup answers 405 exactly for a non-GET, bad request with "Job ID required" exactly for an empty identifier, not found with "Job not found" exactly for an absent one, and otherwise the stored record |
| Requests.QueryAfterWrite | cmd/installer/main.go:192-209 | a lookup after a write to its job returns that write's fields with the job's identifier and start time; lookups of other jobs are unaffected |
| Installer.InstallerServer.constructor | cmd/installer/main.go:52-56 | a new server has an empty job table |
| Installer.InstallerServer.HandleInstall | cmd/installer/main.go:124-181 | a rejected submission leaves the table unchanged and starts no task; an accepted one adds a pending record "Installation queued" with empty output and error under "job-<n>", answers success with that identifier and starts one task for it |
| Installer.InstallerServer.HandleStatus | cmd/installer/main.go:183-210 | the status handler answers as the lookup on the current table and changes nothing, so repeated polls with no write in between answer the same |
| Installer.InstallerServer.UpdateJob | cmd/installer/main.go:240-251 | the named record gets the new status, message, output, error and update time and keeps its identifier and start time; an absent identifier changes nothing; other records and the key set are unchanged; the call is appended to the write log |
| Installer.InstallerServer.RunInstallation | cmd/installer/main.go:212-238 | the table afterwards is the two installation writes applied in order; other jobs are unchanged; the job ends with the terminal write's fields; the two writes are appended to the write log in that order |
| Installer.InstallationOutcome | cmd/installer/main.go:212-238 | whatever other jobs write in between, an installed job keeps its identifier and start time and ends terminal at the second write's time, `completed` exactly for a successful npm command, with only its own command's output and error |

## Left out

- `internal/api/handlers/v0/sse.go` (the heartbeat stream) is not part of this model: it is response-writer I/O, flushing and sleeping, with no shared state.
- `main`, the CORS wrapper (including answering OPTIONS before any handler runs), `/health`, server start-up and graceful shutdown are not modelled: they are transport and OS signal handling.
- JSON decoding and encoding are not modelled. The decoder's verdict is an input (`DecodedBody`) and its error text is abstract. The `omitempty` handling of empty fields and the `Content-Type` header are not modelled.
- The clock (`time.Now`, `UnixNano`) is a parameter of every operation that reads it. The ID's nanosecond count is a `nat`, so pre-1970 (negative) readings are not modelled.
- The npm process (`exec.Command(...).CombinedOutput()`) is the input `CommandOutcome`. Its error text is abstract.
- Goroutines and `sync.RWMutex` are not modelled. Each locked section is one atomic method.
- Installer.InstallerServer.RunInstallation: performs both of its writes in one call, so no other step runs between them. The source takes no lock of its own there: its two `updateJob` calls lock separately, and the npm command runs unlocked between them. Polls and other jobs' writes that interleave between them are covered by `Jobs.ApplyAllIsolated` and `Installer.InstallationOutcome` over an arbitrary sequence of writes.
- Installer.InstallerServer.HandleStatus: returns a copy of the record. The source encodes the shared `*JobStatus` pointer after releasing the read lock, which can race with a concurrent `updateJob`. That torn read is not modelled.
- Jobs.Status: is an enumeration, whereas the source stores a free string. Every call site in the source passes one of the four literals, so no behaviour is lost.
- Uniqueness of job identifiers is not claimed: it depends on the clock. `JobIdInjective` states exactly when two identifiers collide. When two accepted submissions read the same clock value, both get the same identifier, the second pending record replaces the first, and both background tasks write to that one record. `InstallationOutcome` presupposes distinct identifiers: its requires says that only one installation writes to the job.
