/** Workers, crashes, sweeps and clock ticks over one job table.

    A run is what a worker keeps of a claimed row: a copy made at claim time that
    may go stale. `attempts` counts claims, so a run's copy of it is the lease
    epoch the run was given. The worker's clock and the database's are one. */
module JobProtocol {
  import opened Wrappers
  import opened JobTable

  /** leasedUntil is the deadline the claim was given; started is when Worker.run was
      entered, which may be any time after the claim. */
  datatype Run = Run(job: JobId, worker: Worker, attempts: int, maxAttempts: int, leasedUntil: Time,
                     started: Option<Time>)

  /** How long after it started a run can still write its outcome: the context of that
      write is made before the handler is called. */
  const OutcomeWriteTimeout := 10 * Second

  predicate InTime(clock: Time, r: Run) { r.started.Some? && clock < r.started.value + OutcomeWriteTimeout }

  datatype State = State(table: Table, clock: Time, runs: map<nat, Run>)

  datatype NewJob = NewJob(kind: string, key: Option<string>, priority: int, maxAttempts: nat, runAfter: Time)

  datatype Action =
    | Tick(d: nat)
    | Enqueue(id: JobId, job: NewJob)
    | Claim(run: nat, id: JobId, worker: Worker, lease: int, kinds: set<string>)
    | Heartbeat(id: JobId, worker: Worker, lease: int)
    | Begin(run: nat)
    | Finish(run: nat, result: HandlerResult, answered: bool)
    | CrashRun(run: nat)
    | Sweep

  const DefaultMaxAttempts := 5

  function EnqueueJob(t: Table, id: JobId, j: NewJob): Table {
    if Conflicts(t, id, j.kind, j.key) then t
    else t[id := NewRow(j.kind, j.key, j.priority,
                        if j.maxAttempts == 0 then DefaultMaxAttempts else j.maxAttempts, j.runAfter)]
  }

  function Apply(s: State, a: Action): State {
    match a
    case Tick(d) => s.(clock := s.clock + d)
    case Enqueue(id, j) => s.(table := EnqueueJob(s.table, id, j))
    case Claim(run, id, w, lease, kinds) =>
      if id in s.table && run !in s.runs && Eligible(s.table[id], s.clock, kinds) then
        var row := ClaimRow(s.table[id], w, lease, s.clock);
        s.(table := s.table[id := row],
           runs := s.runs[run := Run(id, w, row.attempts, row.maxAttempts, s.clock + lease, None)])
      else s
    case Heartbeat(id, w, lease) => s.(table := HeartbeatJob(s.table, id, w, lease, s.clock))
    case Begin(run) =>
      if run in s.runs && s.runs[run].started.None? then
        s.(runs := s.runs[run := s.runs[run].(started := Some(s.clock))])
      else s
    case Finish(run, result, answered) =>
      if run !in s.runs || s.runs[run].started.None? then s
      else
        var r := s.runs[run];
        var st := PickStatement(result, r.attempts, r.maxAttempts);
        State(if answered && InTime(s.clock, r) then Execute(s.table, st, r.job, r.worker, s.clock) else s.table,
              s.clock, s.runs - {run})
    case CrashRun(run) => s.(runs := s.runs - {run})
    case Sweep => s.(table := SweepExpiredLeases(s.table, s.clock))
  }

  function After(t0: Time, schedule: seq<Action>): State {
    if schedule == [] then State(map[], t0, map[])
    else Apply(After(t0, schedule[..|schedule| - 1]), schedule[|schedule| - 1])
  }

  // ------------------------------------------------------------- what an outcome means

  /** How long a failed attempt waits before the next one, jitter aside: half a minute,
      two minutes, ten minutes, an hour, and six hours from the fifth attempt on. */
  function Rung(attempt: int): int {
    if attempt <= 1 then 30_000_000_000
    else if attempt == 2 then 120_000_000_000
    else if attempt == 3 then 600_000_000_000
    else if attempt == 4 then 3_600_000_000_000
    else 21_600_000_000_000
  }

  /** Jitter of at most a tenth of the rung. */
  predicate Jittered(attempt: int, x: int) { -(Rung(attempt) / 10) <= x <= Rung(attempt) / 10 }

  /** What a run's outcome, once executed at now, makes of a row of its own epoch. */
  predicate Ended(j: Job, r: Run, result: HandlerResult, now: Time) {
    && j.attempts == r.attempts
    && match result
       case Returned => j.state.Succeeded? && j.finishedAt == Some(now) && j.lastError == None
       case TerminalError(m) => j.state.Failed? && j.finishedAt == Some(now) && j.lastError == Some(m)
       case RetryableError(m, x) =>
         && j.lastError == Some(m) && j.leasedBy == None && j.leasedUntil == None
         && if r.attempts >= r.maxAttempts then j.state.Dead? && j.finishedAt == Some(now)
            else j.state.Queued? && j.runAfter == now + Rung(r.attempts) + x
  }

  lemma BackoffIsRung(attempt: int)
    ensures Backoff(attempt) == Rung(attempt)
  {
    var i := (if attempt < 1 then 1 else attempt) - 1;
    assert i >= 5 || i == 4 || i == 3 || i == 2 || i == 1 || i == 0;
  }

  lemma OutcomeEnds(j: Job, r: Run, result: HandlerResult, now: Time)
    requires j.attempts == r.attempts
    ensures Ended(OutcomeRow(j, PickStatement(result, r.attempts, r.maxAttempts), now), r, result, now)
  {
    BackoffIsRung(r.attempts);
  }

  // ------------------------------------------------------------ the invariants

  predicate RowOk(j: Job) {
    && 1 <= j.maxAttempts && 0 <= j.attempts <= j.maxAttempts
    && (j.state.Queued? ==> j.attempts < j.maxAttempts && j.leasedBy.None? && j.leasedUntil.None?)
    && (j.state.Leased? ==> 1 <= j.attempts && j.leasedBy.Some? && j.leasedUntil.Some?)
    && (LiveState(j.state) <==> j.finishedAt.None?)
    && (j.state.Succeeded? ==> j.lastError.None?)
    && (j.state.Failed? || j.state.Dead? ==> j.lastError.Some?)
  }

  predicate RowsOk(t: Table) { forall id :: id in t ==> RowOk(t[id]) }

  /** The live-state unique index. */
  predicate OneLivePerKey(t: Table) {
    forall a, b :: a in t && b in t && a != b
      && LiveState(t[a].state) && LiveState(t[b].state) && t[a].key.Some? && t[a].kind == t[b].kind
      ==> t[a].key != t[b].key
  }

  predicate RunOk(t: Table, r: Run) {
    && r.job in t
    && 1 <= r.attempts <= t[r.job].attempts && r.maxAttempts == t[r.job].maxAttempts
    && (t[r.job].state.Leased? && t[r.job].attempts == r.attempts ==> t[r.job].leasedBy == Some(r.worker))
  }

  predicate RunsOk(s: State) {
    && (forall i :: i in s.runs ==> RunOk(s.table, s.runs[i]))
    && (forall i, k :: i in s.runs && k in s.runs && i != k && s.runs[i].job == s.runs[k].job
          ==> s.runs[i].attempts != s.runs[k].attempts)
  }

  predicate Inv(s: State) { RowsOk(s.table) && OneLivePerKey(s.table) && RunsOk(s) }

  // --------------------------------------------- what a step may do to one row

  /** The legal moves of a row: unchanged, renewed, claimed, put back, finished. */
  predicate RowMoves(j: Job, j': Job) {
    && j'.kind == j.kind && j'.key == j.key && j'.maxAttempts == j.maxAttempts && j'.priority == j.priority
    && (|| j' == j
        || (j.state.Leased? && j' == j.(leasedUntil := j'.leasedUntil) && j'.leasedUntil.Some?)
        || (j.state.Queued? && j'.state.Leased? && j'.attempts == j.attempts + 1 <= j.maxAttempts)
        || (j.state.Leased? && j'.state.Queued? && j'.attempts == j.attempts < j.maxAttempts)
        || (j.state.Leased? && !LiveState(j'.state) && j'.attempts == j.attempts))
  }

  lemma OutcomeMoves(t: Table, st: Statement, id: JobId, w: Worker, now: Time)
    requires RowsOk(t) && Matches(t, st, id, w)
    ensures RowOk(OutcomeRow(t[id], st, now)) && RowMoves(t[id], OutcomeRow(t[id], st, now))
  {
  }

  lemma SweepMoves(j: Job, now: Time)
    requires RowOk(j)
    ensures RowOk(SweptRow(j, now)) && RowMoves(j, SweptRow(j, now))
  {
  }

  /** Every step moves each existing row legally and keeps every row well formed. */
  lemma StepMoves(s: State, a: Action, id: JobId)
    requires RowsOk(s.table) && id in s.table
    ensures id in Apply(s, a).table
    ensures RowMoves(s.table[id], Apply(s, a).table[id]) && RowOk(Apply(s, a).table[id])
  {
    match a
    case Sweep => SweepMoves(s.table[id], s.clock);
    case Finish(run, result, answered) =>
      if run in s.runs {
        var r := s.runs[run];
        var st := PickStatement(result, r.attempts, r.maxAttempts);
        if Matches(s.table, st, r.job, r.worker) { OutcomeMoves(s.table, st, r.job, r.worker, s.clock); }
      }
    case _ =>
  }

  lemma StepRows(s: State, a: Action)
    requires RowsOk(s.table)
    ensures RowsOk(Apply(s, a).table)
  {
    forall id | id in Apply(s, a).table ensures RowOk(Apply(s, a).table[id]) {
      if id in s.table { StepMoves(s, a, id); }
    }
  }

  /** No step turns a dead row live, so only enqueue could break the index, and
      its conflict clause does not let it. */
  lemma StepUnique(s: State, a: Action)
    requires RowsOk(s.table) && OneLivePerKey(s.table)
    ensures OneLivePerKey(Apply(s, a).table)
  {
    var t, t' := s.table, Apply(s, a).table;
    forall x, y | x in t' && y in t' && x != y && LiveState(t'[x].state) && LiveState(t'[y].state)
                  && t'[x].key.Some? && t'[x].kind == t'[y].kind
      ensures t'[x].key != t'[y].key
    {
      if x in t { StepMoves(s, a, x); }
      if y in t { StepMoves(s, a, y); }
    }
  }

  lemma RunSurvives(t: Table, t': Table, r: Run)
    requires RunOk(t, r) && r.job in t' && RowMoves(t[r.job], t'[r.job])
    requires t[r.job].state.Leased? && t'[r.job].state.Leased? ==> t'[r.job].leasedBy == t[r.job].leasedBy
    ensures RunOk(t', r)
  {
  }

  lemma StepKeepsHolder(s: State, a: Action, id: JobId)
    requires RowsOk(s.table) && id in s.table && id in Apply(s, a).table
    requires s.table[id].state.Leased? && Apply(s, a).table[id].state.Leased?
    ensures Apply(s, a).table[id].leasedBy == s.table[id].leasedBy
  {
  }

  lemma StepRunOk(s: State, a: Action, i: nat)
    requires RowsOk(s.table) && RunsOk(s) && i in Apply(s, a).runs
    ensures RunOk(Apply(s, a).table, Apply(s, a).runs[i])
  {
    var s' := Apply(s, a);
    if i in s.runs {
      var r := s.runs[i];
      StepMoves(s, a, r.job);
      if s.table[r.job].state.Leased? && s'.table[r.job].state.Leased? { StepKeepsHolder(s, a, r.job); }
      RunSurvives(s.table, s'.table, r);
    }
  }

  lemma StepRuns(s: State, a: Action)
    requires RowsOk(s.table) && RunsOk(s)
    ensures RunsOk(Apply(s, a))
  {
    var s' := Apply(s, a);
    forall i | i in s'.runs ensures RunOk(s'.table, s'.runs[i]) { StepRunOk(s, a, i); }
    forall i, k | i in s'.runs && k in s'.runs && i != k && s'.runs[i].job == s'.runs[k].job
      ensures s'.runs[i].attempts != s'.runs[k].attempts
    {
      if i in s.runs { assert RunOk(s.table, s.runs[i]); }
      if k in s.runs { assert RunOk(s.table, s.runs[k]); }
    }
  }

  lemma {:induction false} Reachable(t0: Time, schedule: seq<Action>)
    ensures Inv(After(t0, schedule))
  {
    if schedule != [] {
      var s, a := After(t0, schedule[..|schedule| - 1]), schedule[|schedule| - 1];
      Reachable(t0, schedule[..|schedule| - 1]);
      StepRows(s, a);
      StepUnique(s, a);
      StepRuns(s, a);
    }
  }
}
