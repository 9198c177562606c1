/** The job statements updating the table in place, and the Go functions that
    wrap them, as one connection sees them. */
module JobStore {
  import opened Wrappers
  import opened JobTable
  import opened JobProtocol

  const DefaultPriority := 100
  const MaxKindBytes := 64
  const MaxCorrelationIdBytes := 128
  const MaxPayloadBytes := 65536

  datatype EnqueueError = KindMissing | NoCorrelationId | KindTooLong | CorrelationIdTooLong | PayloadTooLarge | IdTaken

  datatype Enqueued = Enqueued(id: JobId, state: JobState, runAfter: Time, alreadyInFlight: bool)

  /** Rows the claim would rather take: lower priority value, then earlier. */
  predicate Before(a: Job, b: Job) {
    a.priority < b.priority || (a.priority == b.priority && a.runAfter < b.runAfter)
  }

  function CountSwept(rows: seq<JobState>, st: JobState): nat {
    if rows == [] then 0 else CountSwept(rows[..|rows| - 1], st) + (if rows[|rows| - 1] == st then 1 else 0)
  }

  /** The two tallies sweepOnce logs. */
  method TallySweep(rows: seq<JobState>) returns (requeued: nat, dead: nat)
    requires forall r <- rows :: r.Queued? || r.Dead?
    ensures dead == CountSwept(rows, Dead) && requeued == CountSwept(rows, Queued)
    ensures requeued + dead == |rows|
  {
    requeued, dead := 0, 0;
    for i := 0 to |rows|
      invariant dead == CountSwept(rows[..i], Dead) && requeued == CountSwept(rows[..i], Queued)
      invariant requeued + dead == i
    {
      assert rows[..i + 1][..i] == rows[..i];
      assert rows[i] in rows;
      if rows[i].Dead? { dead := dead + 1; } else { requeued := requeued + 1; }
    }
    assert rows[..|rows|] == rows;
  }

  class Store {
    var rows: Table
    var clock: Time

    constructor (t0: Time)
      ensures rows == map[] && clock == t0
    {
      rows, clock := map[], t0;
    }

    /** Enqueue: validation in the source's order, defaults, and the live job
        already holding the key instead of a second one. */
    method Enqueue(id: JobId, kind: string, key: string, priority: int, maxAttempts: int, runAfter: Option<Time>,
                   correlationId: string, payloadBytes: nat)
      returns (r: Result<Enqueued, EnqueueError>)
      modifies this`rows
      ensures r.Err? ==> rows == old(rows)
      ensures kind == "" ==> r == Err(KindMissing)
      ensures kind != "" && correlationId == "" ==> r == Err(NoCorrelationId)
      ensures kind != "" && correlationId != "" && |kind| > MaxKindBytes ==> r == Err(KindTooLong)
      ensures kind != "" && correlationId != "" && |kind| <= MaxKindBytes && |correlationId| > MaxCorrelationIdBytes ==>
                r == Err(CorrelationIdTooLong)
      ensures (&& kind != "" && correlationId != "" && |kind| <= MaxKindBytes
               && |correlationId| <= MaxCorrelationIdBytes && payloadBytes > MaxPayloadBytes) ==>
                r == Err(PayloadTooLarge)
      ensures (&& kind != "" && correlationId != "" && |kind| <= MaxKindBytes
               && |correlationId| <= MaxCorrelationIdBytes && payloadBytes <= MaxPayloadBytes
               && id !in old(rows)) ==> r.Ok?
      ensures r.Ok? && r.value.alreadyInFlight ==>
                && rows == old(rows) && r.value.id in rows && key != ""
                && LiveState(rows[r.value.id].state) && rows[r.value.id].state == r.value.state
                && rows[r.value.id].kind == kind && rows[r.value.id].key == Some(key)
      ensures r.Ok? && !r.value.alreadyInFlight ==>
                && r.value.id == id && r.value.state.Queued? && id !in old(rows)
                && id in rows && rows == old(rows)[id := rows[id]]
                && rows[id].key == (if key == "" then None else Some(key)) && rows[id].kind == kind
                && rows[id].attempts == 0 && rows[id].maxAttempts == (if maxAttempts <= 0 then 5 else maxAttempts)
                && rows[id].priority == (if priority == 0 then 100 else priority)
                && rows[id].runAfter == r.value.runAfter == (if runAfter.Some? then runAfter.value else clock)
                && !(exists j :: j in old(rows) && key != "" && LiveState(old(rows)[j].state)
                                 && old(rows)[j].kind == kind && old(rows)[j].key == Some(key))
    {
      if kind == "" { return Err(KindMissing); }
      if correlationId == "" { return Err(NoCorrelationId); }
      if |kind| > MaxKindBytes { return Err(KindTooLong); }
      if |correlationId| > MaxCorrelationIdBytes { return Err(CorrelationIdTooLong); }
      if payloadBytes > MaxPayloadBytes { return Err(PayloadTooLarge); }
      var attempts := if maxAttempts <= 0 then DefaultMaxAttempts else maxAttempts;
      var prio := if priority == 0 then DefaultPriority else priority;
      var idem := if key == "" then None else Some(key);
      var at := if runAfter.Some? then runAfter.value else clock;
      if !Conflicts(rows, id, kind, idem) {
        rows := rows[id := NewRow(kind, idem, prio, attempts, at)];
        return Ok(Enqueued(id, Queued, at, false));
      }
      if idem.None? { return Err(IdTaken); }
      var live := GetLiveJobByIdempotencyKey(kind, key);
      if live.None? { return Err(IdTaken); }
      r := Ok(Enqueued(live.value, rows[live.value].state, rows[live.value].runAfter, true));
    }

    method GetLiveJobByIdempotencyKey(kind: string, key: string) returns (id: Option<JobId>)
      ensures id.Some? ==> id.value in rows && LiveState(rows[id.value].state)
                           && rows[id.value].kind == kind && rows[id.value].key == Some(key)
      ensures id.None? <==>
                forall j :: j in rows && LiveState(rows[j].state) && rows[j].kind == kind ==> rows[j].key != Some(key)
    {
      if j :| j in rows && LiveState(rows[j].state) && rows[j].kind == kind && rows[j].key == Some(key) {
        return Some(j);
      }
      id := None;
    }

    /** The claim with no row locked by anybody else: nothing when nothing is
        eligible, otherwise an eligible row no other eligible row comes before. */
    method ClaimJob(w: Worker, lease: int, kinds: set<string>) returns (claimed: Option<Run>)
      modifies this`rows
      ensures claimed.None? <==> forall id :: id in old(rows) ==> !Eligible(old(rows)[id], clock, kinds)
      ensures claimed.None? ==> rows == old(rows)
      ensures claimed.Some? ==>
                && var r := claimed.value;
                && r.job in old(rows) && Eligible(old(rows)[r.job], clock, kinds)
                && (forall id :: id in old(rows) && Eligible(old(rows)[id], clock, kinds)
                      ==> !Before(old(rows)[id], old(rows)[r.job]))
                && rows == old(rows)[r.job := ClaimRow(old(rows)[r.job], w, lease, clock)]
                && rows[r.job].state.Leased? && rows[r.job].leasedBy == Some(w)
                && rows[r.job].leasedUntil == Some(clock + lease) && rows[r.job].attempts == r.attempts
                && r.worker == w && r.attempts == old(rows)[r.job].attempts + 1
                && r.maxAttempts == old(rows)[r.job].maxAttempts
                && Some(r.leasedUntil) == rows[r.job].leasedUntil && r.started.None?
    {
      var todo := set id | id in rows && Eligible(rows[id], clock, kinds);
      assert forall id :: id in rows && Eligible(rows[id], clock, kinds) ==> id in todo;
      if todo == {} { return None; }
      var best :| best in todo;
      ghost var seen := {best};
      ghost var all := todo;
      todo := todo - {best};
      while todo != {}
        invariant seen + todo == all && best in all && best in rows
        invariant forall id :: id in seen ==> id in rows && !Before(rows[id], rows[best])
        decreases todo
      {
        var next :| next in todo;
        todo := todo - {next};
        seen := seen + {next};
        if Before(rows[next], rows[best]) { best := next; }
      }
      var row := ClaimRow(rows[best], w, lease, clock);
      rows := rows[best := row];
      claimed := Some(Run(best, w, row.attempts, row.maxAttempts, clock + lease, None));
    }

    method Heartbeat(id: JobId, w: Worker, lease: int) returns (renewed: bool)
      modifies this`rows
      ensures renewed <==> old(Held(rows, id, w))
      ensures rows == HeartbeatJob(old(rows), id, w, lease, clock)
      ensures renewed ==> rows == old(rows)[id := old(rows)[id].(leasedUntil := Some(clock + lease))]
      ensures !renewed ==> rows == old(rows)
    {
      if id !in rows || !rows[id].state.Leased? || rows[id].leasedBy != Some(w) { return false; }
      rows := rows[id := rows[id].(leasedUntil := Some(clock + lease))];
      renewed := true;
    }

    /** One outcome statement, answering the number of rows it changed. */
    method Outcome(st: Statement, id: JobId, w: Worker) returns (n: nat)
      modifies this`rows
      ensures n == (if old(Matches(rows, st, id, w)) then 1 else 0)
      ensures rows == Execute(old(rows), st, id, w, clock)
    {
      if id !in rows || !rows[id].state.Leased? || rows[id].leasedBy != Some(w) { return 0; }
      var j := rows[id];
      match st {
        case CompleteJob => j := j.(state := Succeeded, finishedAt := Some(clock), lastError := None);
        case FailJob(m) =>
          j := j.(state := Failed, lastError := Some(m), finishedAt := Some(clock), leasedBy := None,
                  leasedUntil := None);
        case DeadLetterJob(m) =>
          j := j.(state := Dead, lastError := Some(m), finishedAt := Some(clock), leasedBy := None,
                  leasedUntil := None);
        case RetryJob(m, backoff) =>
          if j.attempts >= j.maxAttempts { return 0; }
          j := j.(state := Queued, runAfter := clock + backoff, lastError := Some(m), leasedBy := None,
                  leasedUntil := None);
      }
      rows := rows[id := j];
      n := 1;
    }

    /** The end of Worker.run, if the database answers: a holder's outcome changes its
        row, and ends the lease, exactly when the handler returned within ten seconds
        of the run's start; otherwise nothing changes and the row stays leased. */
    method FinishRun(r: Run, result: HandlerResult, answered: bool) returns (n: nat)
      modifies this`rows
      ensures n == 1 ==>
                rows == Execute(old(rows), PickStatement(result, r.attempts, r.maxAttempts), r.job, r.worker, clock)
      ensures n == 1 ==> r.job in rows && !rows[r.job].state.Leased?
      ensures n == 1 && old(rows)[r.job].attempts == r.attempts ==> Ended(rows[r.job], r, result, clock)
      ensures n == 1 ==> forall id :: id in old(rows) && id != r.job ==> id in rows && rows[id] == old(rows)[id]
      ensures n == 0 ==> rows == old(rows)
      ensures n <= 1 && (n == 1 ==> answered && InTime(clock, r) && old(Held(rows, r.job, r.worker)))
      ensures (&& old(Held(rows, r.job, r.worker)) && old(rows)[r.job].attempts == r.attempts
               && old(rows)[r.job].maxAttempts == r.maxAttempts) ==> (n == 1 <==> answered && InTime(clock, r))
    {
      if !answered || !InTime(clock, r) { return 0; }
      if r.job in rows && rows[r.job].attempts == r.attempts { OutcomeEnds(rows[r.job], r, result, clock); }
      if result.Returned? {
        n := Outcome(CompleteJob, r.job, r.worker);
      } else if result.TerminalError? {
        n := Outcome(FailJob(result.message), r.job, r.worker);
      } else if r.attempts >= r.maxAttempts {
        n := Outcome(DeadLetterJob(result.message), r.job, r.worker);
      } else {
        n := Outcome(RetryJob(result.message, Backoff(r.attempts) + result.jitter), r.job, r.worker);
      }
    }

    /** The sweep takes exactly the elapsed leases; a row out of attempts dies,
        every other one can be claimed again. */
    method Sweep() returns (swept: map<JobId, JobState>)
      modifies this`rows
      ensures rows == SweepExpiredLeases(old(rows), clock)
      ensures swept.Keys == set id | id in old(rows) && LeaseElapsed(old(rows)[id], clock)
      ensures forall id :: id in swept ==>
                && swept[id] == rows[id].state
                && (swept[id].Dead? <==> old(rows)[id].attempts >= old(rows)[id].maxAttempts)
                && (swept[id].Queued? <==> old(rows)[id].attempts < old(rows)[id].maxAttempts)
      ensures forall id :: id in old(rows) && id !in swept ==> id in rows && rows[id] == old(rows)[id]
    {
      var elapsed := set id | id in rows && LeaseElapsed(rows[id], clock);
      rows := map id | id in rows :: if id in elapsed then SweptRow(rows[id], clock) else rows[id];
      swept := map id | id in elapsed :: rows[id].state;
    }
  }
}
