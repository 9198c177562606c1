/** What the job protocol promises over whole schedules. */
module JobTheorems {
  import opened Wrappers
  import opened JobTable
  import opened JobProtocol

  // ------------------------------------------------------------------ the table

  /** Every reachable table: bounded attempts, no queued row that cannot be
      claimed, complete leases, finish times exactly on finished rows, and at
      most one live job per kind and idempotency key. */
  lemma ReachableTable(t0: Time, schedule: seq<Action>)
    ensures var t := After(t0, schedule).table;
            && (forall id :: id in t ==> RowOk(t[id]))
            && forall a, b :: (a in t && b in t && LiveState(t[a].state) && LiveState(t[b].state)
                               && t[a].kind == t[b].kind && t[a].key.Some? && t[a].key == t[b].key) ==> a == b
  {
    Reachable(t0, schedule);
  }

  lemma PrefixStep(t0: Time, schedule: seq<Action>, k: nat)
    requires k < |schedule|
    ensures After(t0, schedule[..k + 1]) == Apply(After(t0, schedule[..k]), schedule[k])
  {
    assert schedule[..k + 1][..k] == schedule[..k];
  }

  lemma RowStep(t0: Time, schedule: seq<Action>, k: nat, id: JobId)
    requires k < |schedule| && id in After(t0, schedule[..k]).table
    ensures id in After(t0, schedule[..k + 1]).table
    ensures RowMoves(After(t0, schedule[..k]).table[id], After(t0, schedule[..k + 1]).table[id])
    ensures RowOk(After(t0, schedule[..k]).table[id])
  {
    Reachable(t0, schedule[..k]);
    PrefixStep(t0, schedule, k);
    StepMoves(After(t0, schedule[..k]), schedule[k], id);
  }

  /** A finished row never changes again. */
  lemma {:induction false} FinishedForGood(t0: Time, schedule: seq<Action>, j: nat, k: nat, id: JobId)
    requires j <= k <= |schedule|
    requires var t := After(t0, schedule[..j]).table; id in t && !LiveState(t[id].state)
    ensures id in After(t0, schedule[..k]).table
    ensures After(t0, schedule[..k]).table[id] == After(t0, schedule[..j]).table[id]
    decreases k
  {
    if j < k {
      FinishedForGood(t0, schedule, j, k - 1, id);
      RowStep(t0, schedule, k - 1, id);
    }
  }

  // --------------------------------------------------------------- lease holders

  /** The run whose claim is the row's latest, while the row is still leased. */
  predicate HoldsEpoch(s: State, r: Run) {
    r.job in s.table && s.table[r.job].state.Leased? && s.table[r.job].attempts == r.attempts
  }

  /** Whatever its handler returned, the outcome of the run that holds a job changes
      the table exactly when the handler returned within ten seconds of the run's
      start: the statement the worker picks then matches the row, ends its lease and
      touches no other row. Past that deadline the row stays leased. */
  lemma HolderOutcomeLandsIff(t0: Time, schedule: seq<Action>, i: nat, result: HandlerResult)
    requires var s := After(t0, schedule); i in s.runs && HoldsEpoch(s, s.runs[i])
    ensures var s := After(t0, schedule); var r := s.runs[i];
            var s' := Apply(s, Finish(i, result, true));
            && (s'.table != s.table <==> InTime(s.clock, r))
            && s'.table.Keys == s.table.Keys
            && (forall id :: id in s.table && id != r.job ==> s'.table[id] == s.table[id])
            && (InTime(s.clock, r) ==> Ended(s'.table[r.job], r, result, s.clock))
  {
    Reachable(t0, schedule);
    HolderLands(After(t0, schedule), i, result);
  }

  lemma HolderLands(s: State, i: nat, result: HandlerResult)
    requires Inv(s) && i in s.runs && HoldsEpoch(s, s.runs[i])
    ensures var r := s.runs[i];
            var t' := Apply(s, Finish(i, result, true)).table;
            && (t' != s.table <==> InTime(s.clock, r))
            && t'.Keys == s.table.Keys && (forall id :: id in s.table && id != r.job ==> t'[id] == s.table[id])
            && (InTime(s.clock, r) ==> Ended(t'[r.job], r, result, s.clock))
  {
    var r := s.runs[i];
    var st := PickStatement(result, r.attempts, r.maxAttempts);
    assert RunOk(s.table, r);
    assert Matches(s.table, st, r.job, r.worker);
    if InTime(s.clock, r) {
      OutcomeEnds(s.table[r.job], r, result, s.clock);
      assert !OutcomeRow(s.table[r.job], st, s.clock).state.Leased?;
      assert Execute(s.table, st, r.job, r.worker, s.clock)[r.job] != s.table[r.job];
    }
  }

  /** At most one run holds a job. */
  lemma OneHolder(t0: Time, schedule: seq<Action>, i: nat, k: nat)
    requires var s := After(t0, schedule);
             i in s.runs && k in s.runs && s.runs[i].job == s.runs[k].job
             && HoldsEpoch(s, s.runs[i]) && HoldsEpoch(s, s.runs[k])
    ensures i == k
  {
    Reachable(t0, schedule);
  }

  /** The step from t to t' hands the job to w. */
  predicate DeliveredTo(t: Table, t': Table, id: JobId, w: Worker) {
    Delivery(t, t', id) && t'[id].leasedBy == Some(w)
  }

  /** If the row is leased to r's worker at all, then for r's own claim. */
  predicate OnlyOwnClaim(t: Table, r: Run) {
    r.job in t && (Held(t, r.job, r.worker) ==> t[r.job].attempts == r.attempts)
  }

  lemma StepOnlyOwnClaim(s: State, a: Action, r: Run)
    requires RowsOk(s.table) && OnlyOwnClaim(s.table, r)
    requires !DeliveredTo(s.table, Apply(s, a).table, r.job, r.worker)
    ensures OnlyOwnClaim(Apply(s, a).table, r)
  {
    StepMoves(s, a, r.job);
    if s.table[r.job].state.Leased? && Apply(s, a).table[r.job].state.Leased? { StepKeepsHolder(s, a, r.job); }
  }

  lemma {:induction false} OnlyOwnClaimKept(t0: Time, schedule: seq<Action>, j: nat, k: nat, r: Run)
    requires j <= k <= |schedule| && OnlyOwnClaim(After(t0, schedule[..j]).table, r)
    requires forall m :: j <= m < k ==>
               !DeliveredTo(After(t0, schedule[..m]).table, After(t0, schedule[..m + 1]).table, r.job, r.worker)
    ensures OnlyOwnClaim(After(t0, schedule[..k]).table, r)
    decreases k
  {
    if j < k {
      OnlyOwnClaimKept(t0, schedule, j, k - 1, r);
      Reachable(t0, schedule[..k - 1]);
      PrefixStep(t0, schedule, k - 1);
      StepOnlyOwnClaim(After(t0, schedule[..k - 1]), schedule[k - 1], r);
    }
  }

  /** From an instant j at which run i held its job to any later instant up to which
      the job is not handed to that worker again: an outcome or a heartbeat of the
      run finds its row exactly while its claim is still the row's latest, and
      once it is not, none of them changes anything. Until then an outcome lands
      exactly while there is time to write it. */
  lemma LostLeaseChangesNothing(t0: Time, schedule: seq<Action>, j: nat, i: nat, result: HandlerResult, lease: int)
    requires j <= |schedule|
    requires var s := After(t0, schedule[..j]); i in s.runs && HoldsEpoch(s, s.runs[i])
    requires var r := After(t0, schedule[..j]).runs[i];
             && (forall m :: j <= m < |schedule| ==>
                   !DeliveredTo(After(t0, schedule[..m]).table, After(t0, schedule[..m + 1]).table, r.job, r.worker))
             && i in After(t0, schedule).runs && After(t0, schedule).runs[i].(started := r.started) == r
    ensures var s := After(t0, schedule); var r := s.runs[i];
            && (Apply(s, Finish(i, result, true)).table != s.table <==> HoldsEpoch(s, r) && InTime(s.clock, r))
            && (Held(s.table, r.job, r.worker) <==> HoldsEpoch(s, r))
            && (!HoldsEpoch(s, r) ==> Apply(s, Heartbeat(r.job, r.worker, lease)).table == s.table)
  {
    OnlyOwnClaimKept(t0, schedule, j, |schedule|, After(t0, schedule[..j]).runs[i]);
    assert schedule[..|schedule|] == schedule;
    Reachable(t0, schedule);
    LandsWhileOwn(After(t0, schedule), i, result, lease);
  }

  lemma LandsWhileOwn(s: State, i: nat, result: HandlerResult, lease: int)
    requires Inv(s) && i in s.runs && OnlyOwnClaim(s.table, s.runs[i])
    ensures var r := s.runs[i];
            && (Apply(s, Finish(i, result, true)).table != s.table <==> HoldsEpoch(s, r) && InTime(s.clock, r))
            && (Held(s.table, r.job, r.worker) <==> HoldsEpoch(s, r))
            && (!HoldsEpoch(s, r) ==> Apply(s, Heartbeat(r.job, r.worker, lease)).table == s.table)
  {
    assert RunOk(s.table, s.runs[i]);
    if HoldsEpoch(s, s.runs[i]) { HolderLands(s, i, result); }
  }

  /** The guards name the worker, not the claim: an outcome from a run whose claim
      is over still lands exactly when it is written in time and the same worker has
      since claimed the job again (and, for a retry, that later claim was not the
      last allowed). */
  lemma StaleOutcomeLandsIff(t0: Time, schedule: seq<Action>, i: nat, result: HandlerResult)
    requires var s := After(t0, schedule); i in s.runs && !HoldsEpoch(s, s.runs[i])
    ensures var s := After(t0, schedule); var r := s.runs[i];
            var st := PickStatement(result, r.attempts, r.maxAttempts);
            Apply(s, Finish(i, result, true)).table != s.table <==>
              && r.job in s.table && s.table[r.job].state.Leased? && s.table[r.job].leasedBy == Some(r.worker)
              && r.attempts < s.table[r.job].attempts && InTime(s.clock, r)
              && (st.RetryJob? ==> s.table[r.job].attempts < r.maxAttempts)
  {
    var s := After(t0, schedule);
    var r := s.runs[i];
    var st := PickStatement(result, r.attempts, r.maxAttempts);
    Reachable(t0, schedule);
    assert RunOk(s.table, r);
    if Matches(s.table, st, r.job, r.worker) {
      assert Execute(s.table, st, r.job, r.worker, s.clock)[r.job].state != s.table[r.job].state;
    }
  }

  /** So does a heartbeat: one from a run whose claim is over renews the lease exactly
      when the same worker has since claimed the job again. */
  lemma StaleHeartbeatRenewsIff(t0: Time, schedule: seq<Action>, i: nat, lease: int)
    requires var s := After(t0, schedule); i in s.runs && !HoldsEpoch(s, s.runs[i])
    ensures var s := After(t0, schedule); var r := s.runs[i];
            Apply(s, Heartbeat(r.job, r.worker, lease)).table != s.table <==>
              && r.job in s.table && s.table[r.job].state.Leased? && s.table[r.job].leasedBy == Some(r.worker)
              && r.attempts < s.table[r.job].attempts && s.table[r.job].leasedUntil != Some(s.clock + lease)
  {
    var s := After(t0, schedule);
    var r := s.runs[i];
    Reachable(t0, schedule);
    assert RunOk(s.table, r);
    var t' := HeartbeatJob(s.table, r.job, r.worker, lease, s.clock);
    if Held(s.table, r.job, r.worker) {
      if s.table[r.job].leasedUntil == Some(s.clock + lease) {
        assert t' == s.table;
      } else {
        assert t'[r.job].leasedUntil != s.table[r.job].leasedUntil;
      }
    }
  }

  lemma Extend(schedule: seq<Action>, a: Action)
    ensures After(0, schedule + [a]) == Apply(After(0, schedule), a)
  {
    assert (schedule + [a])[..|schedule|] == schedule;
  }

  /** A row leased to w for the n-th time, until t. */
  function LeasedRow(n: int, t: Time): Job { Job("noop", None, Leased, 100, n, 5, 0, Some("w"), Some(t), None, None) }

  /** The default lease. */
  const Minute := 60 * Second

  lemma FirstClaim() returns (schedule: seq<Action>)
    ensures After(0, schedule) == State(map[0 := LeasedRow(1, Minute)], 0, map[0 := Run(0, "w", 1, 5, Minute, None)])
  {
    var a0, a1 := Enqueue(0, NewJob("noop", None, 100, 5, 0)), Claim(0, 0, "w", Minute, {"noop"});
    Extend([], a0);
    Extend([] + [a0], a1);
    schedule := [] + [a0] + [a1];
  }

  /** The first run, begun at t. */
  function Begun(t: Time, now: Time): State {
    State(map[0 := LeasedRow(1, Minute)], now, map[0 := Run(0, "w", 1, 5, Minute, Some(t))])
  }

  lemma BeginStep(s: State, r: Run)
    requires s.runs == map[0 := r] && r.started.None?
    ensures Apply(s, Begin(0)) == s.(runs := map[0 := r.(started := Some(s.clock))])
  {
    assert s.runs[0] == r;
  }

  lemma BeginAt(t: nat) returns (schedule: seq<Action>)
    ensures After(0, schedule) == Begun(t, t)
  {
    var first := FirstClaim();
    Extend(first, Tick(t));
    Extend(first + [Tick(t)], Begin(0));
    schedule := first + [Tick(t)] + [Begin(0)];
    BeginStep(After(0, first + [Tick(t)]), Run(0, "w", 1, 5, Minute, None));
  }

  lemma BeginLate() returns (schedule: seq<Action>)
    ensures After(0, schedule) == Begun(55 * Second, 61 * Second)
  {
    schedule := BeginAt(55 * Second);
    Extend(schedule, Tick(6 * Second));
    schedule := schedule + [Tick(6 * Second)];
  }

  lemma SecondClaim() returns (schedule: seq<Action>)
    ensures After(0, schedule)
            == State(map[0 := LeasedRow(2, 121 * Second)], 61 * Second,
                     map[0 := Run(0, "w", 1, 5, Minute, Some(55 * Second)), 1 := Run(0, "w", 2, 5, 121 * Second, None)])
  {
    var first := BeginLate();
    var a := Claim(1, 0, "w", Minute, {"noop"});
    Extend(first, Sweep);
    Extend(first + [Sweep], a);
    schedule := first + [Sweep] + [a];
  }

  /** It does happen: a run that begins late in its lease, a sweep, and a second claim
      by the same worker. */
  lemma StaleOutcomeCanLand() returns (schedule: seq<Action>)
    ensures var s := After(0, schedule);
            && 0 in s.runs && !HoldsEpoch(s, s.runs[0])
            && Apply(s, Finish(0, Returned, true)).table != s.table
            && Apply(s, Heartbeat(0, "w", 2 * Minute)).table != s.table
  {
    schedule := SecondClaim();
    var s := After(0, schedule);
    assert Execute(s.table, CompleteJob, 0, "w", s.clock)[0].state.Succeeded?;
    assert HeartbeatJob(s.table, 0, "w", 2 * Minute, s.clock)[0].leasedUntil == Some(181 * Second);
  }

  /** A lease whose deadline has not passed ends only by an outcome, written in time,
      of a run of the worker it names. */
  lemma UnexpiredLeaseIsSafe(t0: Time, schedule: seq<Action>, a: Action, id: JobId)
    requires var s := After(t0, schedule);
             id in s.table && s.table[id].state.Leased? && !LeaseElapsed(s.table[id], s.clock)
    requires id in Apply(After(t0, schedule), a).table
    requires !Apply(After(t0, schedule), a).table[id].state.Leased?
    ensures var s := After(t0, schedule);
            && a.Finish? && a.answered && a.run in s.runs && InTime(s.clock, s.runs[a.run])
            && s.runs[a.run].job == id && s.table[id].leasedBy == Some(s.runs[a.run].worker)
  {
    Reachable(t0, schedule);
  }

  // --------------------------------------------------------------------- bounds

  function Measure(j: Job): int {
    if !LiveState(j.state) then 0 else 2 * (j.maxAttempts - j.attempts) + (if j.state.Leased? then 1 else 0)
  }

  predicate Transition(t: Table, t': Table, id: JobId) {
    id in t && id in t' && (t'[id].state != t[id].state || t'[id].attempts != t[id].attempts)
  }

  predicate Delivery(t: Table, t': Table, id: JobId) {
    id in t && id in t' && t[id].state.Queued? && t'[id].state.Leased?
  }

  function Transitions(t0: Time, schedule: seq<Action>, id: JobId, n: nat): nat
    requires n <= |schedule|
  {
    if n == 0 then 0
    else Transitions(t0, schedule, id, n - 1)
         + (if Transition(After(t0, schedule[..n - 1]).table, After(t0, schedule[..n]).table, id) then 1 else 0)
  }

  function Deliveries(t0: Time, schedule: seq<Action>, id: JobId, n: nat): nat
    requires n <= |schedule|
  {
    if n == 0 then 0
    else Deliveries(t0, schedule, id, n - 1)
         + (if Delivery(After(t0, schedule[..n - 1]).table, After(t0, schedule[..n]).table, id) then 1 else 0)
  }

  lemma NewRowIsFresh(t0: Time, schedule: seq<Action>, k: nat, id: JobId)
    requires k < |schedule| && id !in After(t0, schedule[..k]).table && id in After(t0, schedule[..k + 1]).table
    ensures After(t0, schedule[..k + 1]).table[id].state.Queued?
    ensures After(t0, schedule[..k + 1]).table[id].attempts == 0
  {
    Reachable(t0, schedule[..k]);
    PrefixStep(t0, schedule, k);
  }

  lemma {:induction false} Accounting(t0: Time, schedule: seq<Action>, id: JobId, n: nat)
    requires n <= |schedule|
    ensures var t := After(t0, schedule[..n]).table;
            if id in t then
              && Transitions(t0, schedule, id, n) + Measure(t[id]) <= 2 * t[id].maxAttempts
              && Deliveries(t0, schedule, id, n) == t[id].attempts
            else Transitions(t0, schedule, id, n) == 0 && Deliveries(t0, schedule, id, n) == 0
  {
    if n > 0 {
      Accounting(t0, schedule, id, n - 1);
      if id in After(t0, schedule[..n - 1]).table { RowStep(t0, schedule, n - 1, id); }
      else if id in After(t0, schedule[..n]).table { NewRowIsFresh(t0, schedule, n - 1, id); }
    }
  }

  /** However workers crash, sweeps run and outcomes arrive, a job is handed out
      at most max_attempts times and moves at most twice that often. */
  lemma DeliveriesAreBounded(t0: Time, schedule: seq<Action>, id: JobId)
    requires id in After(t0, schedule).table
    ensures var j := After(t0, schedule).table[id];
            && Deliveries(t0, schedule, id, |schedule|) == j.attempts <= j.maxAttempts
            && Transitions(t0, schedule, id, |schedule|) <= 2 * j.maxAttempts
  {
    assert schedule[..|schedule|] == schedule;
    Accounting(t0, schedule, id, |schedule|);
    Reachable(t0, schedule);
  }
}
