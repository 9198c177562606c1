/** The ten seconds a run has for writing its outcome: what they lose, and what they
    make safe. */
module JobDeadline {
  import opened Wrappers
  import opened JobTable
  import opened JobProtocol
  import opened JobTheorems

  // ------------------------------------------------------------------ lost outcomes

  /** A handler that returns twelve seconds after its run began has succeeded in vain:
      the run holds the job, and its outcome changes nothing. */
  lemma OutcomeIsLost() returns (schedule: seq<Action>)
    ensures var s := After(0, schedule);
            && 0 in s.runs && HoldsEpoch(s, s.runs[0])
            && Apply(s, Finish(0, Returned, true)).table == s.table
  {
    schedule := BeginAt(0);
    Extend(schedule, Tick(12 * Second));
    schedule := schedule + [Tick(12 * Second)];
  }

  /** The action executes an outcome statement for the job. */
  predicate Records(s: State, a: Action, id: JobId) {
    a.Finish? && a.answered && a.run in s.runs && s.runs[a.run].job == id && InTime(s.clock, s.runs[a.run])
  }

  predicate Unrecorded(t0: Time, schedule: seq<Action>, id: JobId) {
    forall k :: 0 <= k < |schedule| ==> !Records(After(t0, schedule[..k]), schedule[k], id)
  }

  /** Live, or given up by the sweep with every attempt used. */
  predicate LiveOrSwept(j: Job) {
    LiveState(j.state) || (j.state.Dead? && j.attempts == j.maxAttempts && j.lastError == Some(SweepMessage))
  }

  lemma StepUnrecorded(s: State, a: Action, id: JobId)
    requires RowsOk(s.table) && !Records(s, a, id) && id in Apply(s, a).table
             && (id in s.table ==> LiveOrSwept(s.table[id]))
    ensures LiveOrSwept(Apply(s, a).table[id])
  {
    if id in s.table { assert RowOk(s.table[id]); }
  }

  /** Over every schedule, a job none of whose outcomes was recorded, because each came
      late or found no database, never succeeds and never fails; it is dead only by the
      sweep, once all its attempts are used. */
  lemma {:induction false} UnrecordedNeverEnds(t0: Time, schedule: seq<Action>, id: JobId)
    requires Unrecorded(t0, schedule, id) && id in After(t0, schedule).table
    ensures LiveOrSwept(After(t0, schedule).table[id])
  {
    assert schedule != [];
    var n := |schedule| - 1;
    var before := schedule[..n];
    Reachable(t0, before);
    if id in After(t0, before).table {
      forall k | 0 <= k < n ensures !Records(After(t0, before[..k]), before[k], id) {
        assert before[..k] == schedule[..k];
      }
      UnrecordedNeverEnds(t0, before, id);
    }
    StepUnrecorded(After(t0, before), schedule[n], id);
  }

  // ---------------------------------------------------------- what the deadline saves

  /** Workers claim and renew with their own fixed lease, and begin a run only while
      its lease has more than the ten seconds left. */
  predicate Prompt(s: State, a: Action, leases: Worker -> int) {
    match a
    case Claim(_, _, w, lease, _) => lease == leases(w)
    case Heartbeat(_, w, lease) => lease == leases(w)
    case Begin(run) =>
      run in s.runs && s.runs[run].started.None? ==> s.clock + OutcomeWriteTimeout <= s.runs[run].leasedUntil
    case _ => true
  }

  predicate PromptSchedule(t0: Time, schedule: seq<Action>, leases: Worker -> int) {
    forall k :: 0 <= k < |schedule| ==> Prompt(After(t0, schedule[..k]), schedule[k], leases)
  }

  /** Until the deadline its claim was given, a run that has not ended holds its job. */
  predicate HoldsItsLease(s: State, r: Run, leases: Worker -> int) {
    && r.leasedUntil <= s.clock + leases(r.worker)
    && (r.started.Some? ==> r.started.value + OutcomeWriteTimeout <= r.leasedUntil)
    && (s.clock <= r.leasedUntil ==>
          HoldsEpoch(s, r) && s.table[r.job].leasedUntil.Some? && r.leasedUntil <= s.table[r.job].leasedUntil.value)
  }

  predicate AllHoldTheirLease(s: State, leases: Worker -> int) {
    forall i :: i in s.runs ==> HoldsItsLease(s, s.runs[i], leases)
  }

  /** An outcome that lands belongs to the one run that holds the job. */
  lemma FinishKeeps(s: State, a: Action, leases: Worker -> int, i: nat)
    requires Inv(s) && AllHoldTheirLease(s, leases) && a.Finish? && i in Apply(s, a).runs
    ensures HoldsItsLease(Apply(s, a), Apply(s, a).runs[i], leases)
  {
    assert HoldsItsLease(s, s.runs[i], leases);
    if a.run in s.runs && s.runs[a.run].started.Some? {
      assert HoldsItsLease(s, s.runs[a.run], leases);
      assert i != a.run;
    }
  }

  lemma ClaimKeeps(s: State, a: Action, leases: Worker -> int, i: nat)
    requires Inv(s) && AllHoldTheirLease(s, leases) && a.Claim? && Prompt(s, a, leases) && i in Apply(s, a).runs
    ensures HoldsItsLease(Apply(s, a), Apply(s, a).runs[i], leases)
  {
    if i in s.runs { assert HoldsItsLease(s, s.runs[i], leases); }
  }

  lemma OtherKeeps(s: State, a: Action, leases: Worker -> int, i: nat)
    requires Inv(s) && AllHoldTheirLease(s, leases) && !a.Claim? && !a.Finish? && Prompt(s, a, leases)
    requires i in Apply(s, a).runs
    ensures HoldsItsLease(Apply(s, a), Apply(s, a).runs[i], leases)
  {
    assert HoldsItsLease(s, s.runs[i], leases) && RunOk(s.table, s.runs[i]);
  }

  lemma {:induction false} PromptKeeps(t0: Time, schedule: seq<Action>, leases: Worker -> int)
    requires PromptSchedule(t0, schedule, leases)
    ensures AllHoldTheirLease(After(t0, schedule), leases)
  {
    if schedule != [] {
      var n := |schedule| - 1;
      var before, a := schedule[..n], schedule[n];
      forall k | 0 <= k < n ensures Prompt(After(t0, before[..k]), before[k], leases) {
        assert before[..k] == schedule[..k];
      }
      PromptKeeps(t0, before, leases);
      Reachable(t0, before);
      var s := After(t0, before);
      forall i | i in Apply(s, a).runs ensures HoldsItsLease(Apply(s, a), Apply(s, a).runs[i], leases) {
        if a.Finish? { FinishKeeps(s, a, leases, i); }
        else if a.Claim? { ClaimKeeps(s, a, leases, i); }
        else { OtherKeeps(s, a, leases, i); }
      }
    }
  }

  /** Over every schedule in which runs begin promptly, no stale outcome lands: a run
      with time left to write holds its job, so its outcome changes the table exactly
      when its handler returned within the ten seconds. */
  lemma PromptOutcomesAreOwn(t0: Time, schedule: seq<Action>, leases: Worker -> int, i: nat, result: HandlerResult)
    requires PromptSchedule(t0, schedule, leases) && i in After(t0, schedule).runs
    ensures var s := After(t0, schedule); var r := s.runs[i];
            && (InTime(s.clock, r) ==> HoldsEpoch(s, r))
            && (Apply(s, Finish(i, result, true)).table != s.table <==> InTime(s.clock, r))
  {
    PromptKeeps(t0, schedule, leases);
    Reachable(t0, schedule);
    LandsWhilePrompt(After(t0, schedule), i, leases, result);
  }

  lemma LandsWhilePrompt(s: State, i: nat, leases: Worker -> int, result: HandlerResult)
    requires Inv(s) && i in s.runs && HoldsItsLease(s, s.runs[i], leases)
    ensures InTime(s.clock, s.runs[i]) ==> HoldsEpoch(s, s.runs[i])
    ensures Apply(s, Finish(i, result, true)).table != s.table <==> InTime(s.clock, s.runs[i])
  {
    if InTime(s.clock, s.runs[i]) { HolderLands(s, i, result); }
  }
}
