/** The durable job table and the statements that guard it. Each statement's
    WHERE clause is a predicate and its effect a function of the table. */
module JobTable {
  import opened Wrappers

  type JobId = nat
  type Worker = string
  type Time = int  // nanoseconds by the database clock

  datatype JobState = Queued | Leased | Succeeded | Failed | Dead

  datatype Job = Job(kind: string, key: Option<string>, state: JobState, priority: int,
                     attempts: int, maxAttempts: int, runAfter: Time,
                     leasedBy: Option<Worker>, leasedUntil: Option<Time>,
                     lastError: Option<string>, finishedAt: Option<Time>)

  type Table = map<JobId, Job>

  predicate LiveState(s: JobState) { s.Queued? || s.Leased? }

  // --------------------------------------------------------------- statements

  /** The primary key, or the unique index over live rows that have a key. */
  predicate Conflicts(t: Table, id: JobId, kind: string, key: Option<string>) {
    id in t || (key.Some? && exists j :: j in t && LiveState(t[j].state) && t[j].kind == kind && t[j].key == key)
  }

  function NewRow(kind: string, key: Option<string>, priority: int, maxAttempts: int, runAfter: Time): Job {
    Job(kind, key, Queued, priority, 0, maxAttempts, runAfter, None, None, None, None)
  }

  predicate Eligible(j: Job, now: Time, kinds: set<string>) {
    j.state.Queued? && j.runAfter <= now && j.attempts < j.maxAttempts && j.kind in kinds
  }

  function ClaimRow(j: Job, w: Worker, lease: int, now: Time): Job {
    j.(state := Leased, leasedBy := Some(w), leasedUntil := Some(now + lease), attempts := j.attempts + 1)
  }

  /** The guard every outcome and heartbeat shares. */
  predicate Held(t: Table, id: JobId, w: Worker) {
    id in t && t[id].state.Leased? && t[id].leasedBy == Some(w)
  }

  function HeartbeatJob(t: Table, id: JobId, w: Worker, lease: int, now: Time): Table {
    if Held(t, id, w) then t[id := t[id].(leasedUntil := Some(now + lease))] else t
  }

  datatype Statement =
    | CompleteJob
    | FailJob(message: string)
    | DeadLetterJob(message: string)
    | RetryJob(message: string, backoff: int)

  predicate Matches(t: Table, st: Statement, id: JobId, w: Worker) {
    Held(t, id, w) && (st.RetryJob? ==> t[id].attempts < t[id].maxAttempts)
  }

  function OutcomeRow(j: Job, st: Statement, now: Time): Job {
    match st
    case CompleteJob => j.(state := Succeeded, finishedAt := Some(now), lastError := None)
    case FailJob(m) =>
      j.(state := Failed, lastError := Some(m), finishedAt := Some(now), leasedBy := None, leasedUntil := None)
    case DeadLetterJob(m) =>
      j.(state := Dead, lastError := Some(m), finishedAt := Some(now), leasedBy := None, leasedUntil := None)
    case RetryJob(m, backoff) =>
      j.(state := Queued, runAfter := now + backoff, lastError := Some(m), leasedBy := None, leasedUntil := None)
  }

  function Execute(t: Table, st: Statement, id: JobId, w: Worker, now: Time): Table {
    if Matches(t, st, id, w) then t[id := OutcomeRow(t[id], st, now)] else t
  }

  const SweepMessage :=
    "lease elapsed with attempts exhausted: "
    + "the worker holding this job stopped without recording an outcome"

  predicate LeaseElapsed(j: Job, now: Time) {
    j.state.Leased? && j.leasedUntil.Some? && j.leasedUntil.value < now
  }

  function SweptRow(j: Job, now: Time): Job {
    if !LeaseElapsed(j, now) then j
    else if j.attempts >= j.maxAttempts then
      j.(state := Dead, lastError := Some(SweepMessage), finishedAt := Some(now), leasedBy := None, leasedUntil := None)
    else
      j.(state := Queued, finishedAt := None, leasedBy := None, leasedUntil := None)
  }

  function SweepExpiredLeases(t: Table, now: Time): Table { map id | id in t :: SweptRow(t[id], now) }

  // ----------------------------------------------------------- the retry ladder

  const Second := 1_000_000_000
  const RetryLadder: seq<int> := [30 * Second, 120 * Second, 600 * Second, 3600 * Second, 21600 * Second]

  function Backoff(attempt: int): int {
    var i := (if attempt < 1 then 1 else attempt) - 1;
    RetryLadder[if i >= |RetryLadder| then |RetryLadder| - 1 else i]
  }

  /** What jitter may add to a delay: at least minus a tenth, less than plus a tenth. */
  predicate Jitter(d: int, x: int) { -(d / 10) <= x < d / 5 - d / 10 }

  // ---------------------------------------------- the worker's choice of outcome

  datatype HandlerResult = Returned | TerminalError(message: string) | RetryableError(message: string, jitter: int)

  /** The switch at the end of Worker.run, over the attempts copied at claim. */
  function PickStatement(r: HandlerResult, attempts: int, maxAttempts: int): Statement {
    match r
    case Returned => CompleteJob
    case TerminalError(m) => FailJob(m)
    case RetryableError(m, x) =>
      if attempts >= maxAttempts then DeadLetterJob(m) else RetryJob(m, Backoff(attempts) + x)
  }

  /** Each rung waits at least as long as the one before it, and a retry is
      always put strictly in the future. */
  lemma BackoffClimbs(a: int, b: int, x: int)
    requires a <= b && Jitter(Backoff(a), x)
    ensures 30 * Second <= Backoff(a) <= Backoff(b) <= 21600 * Second
    ensures 27 * Second <= Backoff(a) + x
    ensures 10 * (Backoff(a) + x) <= 11 * Backoff(a)
  {
    var i := (if a < 1 then 1 else a) - 1;
    assert i >= 5 || i == 4 || i == 3 || i == 2 || i == 1 || i == 0;
  }
}
