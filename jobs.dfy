/**
 * Job records of the installer and the one way they change: an `updateJob`
 * write, which replaces the mutable fields of the record stored under a job
 * identifier and is silently ignored when no such record exists.
 */
module Jobs {

  /** Nanoseconds on the server's clock; the clock is an input of the model. */
  type Time = int

  /** The four values the source stores in `JobStatus.Status`. */
  datatype Status = Pending | Running | Completed | Failed {

    /** The text written into the record's JSON `status` field. */
    function Text(): string {
      match this
      case Pending => "pending"
      case Running => "running"
      case Completed => "completed"
      case Failed => "failed"
    }

    predicate IsTerminal() {
      Completed? || Failed?
    }
  }

  lemma StatusTextInjective(a: Status, b: Status)
    ensures a.Text() == b.Text() <==> a == b
  {
  }

  /** One job record (`JobStatus`); an empty output or error is omitted from the JSON. */
  datatype JobStatus = JobStatus(
    jobID: string,
    status: Status,
    message: string,
    output: string,
    error: string,
    startedAt: Time,
    updatedAt: Time)

  /** Every record is stored under its own identifier. */
  predicate KeyedById(jobs: map<string, JobStatus>) {
    forall id :: id in jobs ==> jobs[id].jobID == id
  }

  /** The record `handleInstall` stores for a newly accepted submission. */
  function Queued(id: string, startedAt: Time, updatedAt: Time): JobStatus {
    JobStatus(id, Pending, "Installation queued", "", "", startedAt, updatedAt)
  }

  /** The arguments of one `updateJob` call, with the clock reading it makes. */
  datatype Write = Write(
    jobID: string,
    status: Status,
    message: string,
    output: string,
    error: string,
    at: Time)

  /** One write applied to one record: every mutable field is replaced. */
  function Stamp(rec: JobStatus, w: Write): (r: JobStatus)
    ensures r.jobID == rec.jobID && r.startedAt == rec.startedAt
    ensures r.status == w.status && r.message == w.message
    ensures r.output == w.output && r.error == w.error && r.updatedAt == w.at
  {
    rec.(status := w.status, message := w.message, output := w.output,
         error := w.error, updatedAt := w.at)
  }

  /** A sequence of writes applied, in order, to one record. */
  function Replay(rec: JobStatus, ws: seq<Write>): JobStatus
    decreases |ws|
  {
    if ws == [] then rec else Replay(Stamp(rec, ws[0]), ws[1..])
  }

  /**
   * Writes never change who a record belongs to or when it started; after at
   * least one write, every mutable field is the last write's.
   */
  lemma {:induction false} ReplayKeepsIdentity(rec: JobStatus, ws: seq<Write>)
    ensures Replay(rec, ws).jobID == rec.jobID
    ensures Replay(rec, ws).startedAt == rec.startedAt
    ensures ws == [] ==> Replay(rec, ws) == rec
    ensures ws != [] ==> Replay(rec, ws) == Stamp(rec, ws[|ws| - 1])
    decreases |ws|
  {
    if ws != [] {
      ReplayKeepsIdentity(Stamp(rec, ws[0]), ws[1..]);
      if |ws| > 1 {
        assert ws[1..][|ws[1..]| - 1] == ws[|ws| - 1];
      }
    }
  }

  /** Clock readings that never go backwards, starting no earlier than `from`. */
  predicate MonotoneFrom(from: Time, ws: seq<Write>) {
    (ws != [] ==> from <= ws[0].at) &&
    forall k :: 0 < k < |ws| ==> ws[k - 1].at <= ws[k].at
  }

  lemma {:induction false} MonotoneTimes(from: Time, ws: seq<Write>, a: nat, b: nat)
    requires MonotoneFrom(from, ws) && a <= b < |ws|
    ensures from <= ws[a].at <= ws[b].at
    decreases b
  {
    if a < b {
      MonotoneTimes(from, ws, a, b - 1);
    } else if b > 0 {
      MonotoneTimes(from, ws, b - 1, b - 1);
    }
  }

  /**
   * With a clock that never goes backwards, a record's update time never
   * decreases from one write to the next.
   */
  lemma ReplayUpdatedAtMonotone(rec: JobStatus, ws: seq<Write>, i: nat, j: nat)
    requires MonotoneFrom(rec.updatedAt, ws) && i <= j <= |ws|
    ensures Replay(rec, ws[..i]).updatedAt <= Replay(rec, ws[..j]).updatedAt
  {
    ReplayKeepsIdentity(rec, ws[..i]);
    ReplayKeepsIdentity(rec, ws[..j]);
    if i > 0 {
      MonotoneTimes(rec.updatedAt, ws, i - 1, j - 1);
    } else if j > 0 {
      MonotoneTimes(rec.updatedAt, ws, 0, j - 1);
    }
  }

  /** `updateJob` on the map: the record under `w.jobID`, if any, is stamped. */
  function Apply(jobs: map<string, JobStatus>, w: Write): (r: map<string, JobStatus>)
    ensures r.Keys == jobs.Keys
    ensures w.jobID !in jobs ==> r == jobs
    ensures w.jobID in jobs ==> r[w.jobID] == Stamp(jobs[w.jobID], w)
    ensures forall id :: id in jobs && id != w.jobID ==> r[id] == jobs[id]
  {
    if w.jobID in jobs then jobs[w.jobID := Stamp(jobs[w.jobID], w)] else jobs
  }

  /** A sequence of `updateJob` calls, in the order the lock serialised them. */
  function ApplyAll(jobs: map<string, JobStatus>, ws: seq<Write>): (r: map<string, JobStatus>)
    ensures r.Keys == jobs.Keys
  {
    if ws == [] then jobs else ApplyAll(Apply(jobs, ws[0]), ws[1..])
  }

  /** Two serialised writes are the second applied after the first. */
  lemma ApplyAllTwo(jobs: map<string, JobStatus>, first: Write, second: Write)
    ensures ApplyAll(jobs, [first, second]) == Apply(Apply(jobs, first), second)
  {
    var once := Apply(jobs, first);
    assert [first, second][1..] == [second];
    assert ApplyAll(jobs, [first, second]) == ApplyAll(once, [second]);
    assert [second][1..] == [];
    assert ApplyAll(once, [second]) == ApplyAll(Apply(once, second), []);
  }

  /** The writes addressed to one job, in their original order. */
  function WritesTo(ws: seq<Write>, id: string): (r: seq<Write>)
    ensures |r| <= |ws|
    ensures forall w :: w in r <==> w in ws && w.jobID == id
  {
    if ws == [] then []
    else if ws[0].jobID == id then [ws[0]] + WritesTo(ws[1..], id)
    else WritesTo(ws[1..], id)
  }

  /**
   * Isolation of jobs: however the writes of all background tasks interleave,
   * a job's final record depends only on its own writes, in their order.
   */
  lemma {:induction false} ApplyAllIsolated(jobs: map<string, JobStatus>, ws: seq<Write>, id: string)
    requires id in jobs
    ensures id in ApplyAll(jobs, ws)
    ensures ApplyAll(jobs, ws)[id] == Replay(jobs[id], WritesTo(ws, id))
  {
    if ws != [] {
      var next := Apply(jobs, ws[0]);
      ApplyAllIsolated(next, ws[1..], id);
      if ws[0].jobID == id {
        assert WritesTo(ws, id)[1..] == WritesTo(ws[1..], id);
      }
    }
  }

  /** Writes to a job that is not in the table change nothing. */
  lemma {:induction false} ApplyAllAbsent(jobs: map<string, JobStatus>, ws: seq<Write>)
    requires forall w :: w in ws ==> w.jobID !in jobs
    ensures ApplyAll(jobs, ws) == jobs
  {
    if ws != [] {
      assert ws[0] in ws;
      assert forall w :: w in ws[1..] ==> w in ws;
      ApplyAllAbsent(jobs, ws[1..]);
    }
  }

  /** pending -> running -> completed | failed, and nothing else. */
  predicate CanFollow(a: Status, b: Status) {
    (a == Pending && b == Running) || (a == Running && b.IsTerminal())
  }

  /** Each status in the list may follow the one before it. */
  predicate IsLifecycle(statuses: seq<Status>) {
    forall i :: 0 < i < |statuses| ==> CanFollow(statuses[i - 1], statuses[i])
  }

  function Statuses(ws: seq<Write>): (r: seq<Status>)
    ensures |r| == |ws| && forall i :: 0 <= i < |ws| ==> r[i] == ws[i].status
  {
    if ws == [] then [] else [ws[0].status] + Statuses(ws[1..])
  }

  lemma LifecycleStep(s: seq<Status>, k: nat)
    requires IsLifecycle(s) && 0 < k < |s|
    ensures CanFollow(s[k - 1], s[k])
  {
  }

  /** In a lifecycle, a terminal status can only come last. */
  lemma TerminalIsLast(s: seq<Status>, i: nat)
    requires IsLifecycle(s) && i < |s| && s[i].IsTerminal()
    ensures i == |s| - 1
  {
    if i + 1 < |s| {
      LifecycleStep(s, i + 1);
      assert false;
    }
  }
}
