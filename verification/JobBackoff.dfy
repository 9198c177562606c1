/** Retries wait: a job put back by a retryable error is not handed out again before its
    rung of the ladder has passed, and is from then on. */
module JobBackoff {
  import opened Wrappers
  import opened JobTable
  import opened JobProtocol
  import opened JobTheorems

  /** The job waits until due, or due has come. */
  predicate NotBefore(s: State, id: JobId, due: Time) {
    id in s.table && (s.clock >= due || (s.table[id].state.Queued? && s.table[id].runAfter == due))
  }

  lemma StepNotBefore(s: State, a: Action, id: JobId, due: Time)
    requires RowsOk(s.table) && NotBefore(s, id, due)
    ensures NotBefore(Apply(s, a), id, due)
    ensures Delivery(s.table, Apply(s, a).table, id) ==> s.clock >= due
  {
    StepMoves(s, a, id);
  }

  lemma {:induction false} WaitsUntil(t0: Time, schedule: seq<Action>, j: nat, k: nat, id: JobId, due: Time)
    requires j <= k <= |schedule| && NotBefore(After(t0, schedule[..j]), id, due)
    ensures NotBefore(After(t0, schedule[..k]), id, due)
    decreases k
  {
    if j < k {
      WaitsUntil(t0, schedule, j, k - 1, id, due);
      Reachable(t0, schedule[..k - 1]);
      PrefixStep(t0, schedule, k - 1);
      StepNotBefore(After(t0, schedule[..k - 1]), schedule[k - 1], id, due);
    }
  }

  /** Step a puts the job back, for a retryable error of the attempt a run was given. */
  predicate PutsBack(s: State, a: Action, id: JobId) {
    && a.Finish? && a.result.RetryableError? && a.run in s.runs && s.runs[a.run].job == id
    && id in s.table && s.table[id].state.Leased?
    && id in Apply(s, a).table && Apply(s, a).table[id].state.Queued?
  }

  lemma PutBackRow(s: State, a: Action, id: JobId)
    requires PutsBack(s, a, id)
    ensures Apply(s, a).clock == s.clock
    ensures Apply(s, a).table[id].runAfter == s.clock + Rung(s.runs[a.run].attempts) + a.result.jitter
    ensures Apply(s, a).table[id].lastError == Some(a.result.message)
  {
    BackoffIsRung(s.runs[a.run].attempts);
  }

  /** Over every schedule: once a retryable error of attempt n put a job back, at step k,
      no later step hands it out before its rung and the jitter have passed, which is
      at least nine tenths of the rung: 30 seconds after the first attempt, then two
      minutes, ten minutes, an hour, and six hours. */
  lemma RetryWaits(t0: Time, schedule: seq<Action>, k: nat, m: nat, id: JobId)
    requires k < m < |schedule| && PutsBack(After(t0, schedule[..k]), schedule[k], id)
    requires Delivery(After(t0, schedule[..m]).table, After(t0, schedule[..m + 1]).table, id)
    ensures var s := After(t0, schedule[..k]);
            var n, x := s.runs[schedule[k].run].attempts, schedule[k].result.jitter;
            var waited := After(t0, schedule[..m]).clock - s.clock;
            waited >= Rung(n) + x && (Jittered(n, x) ==> 10 * waited >= 9 * Rung(n))
  {
    var s, a := After(t0, schedule[..k]), schedule[k];
    PrefixStep(t0, schedule, k);
    PutBackRow(s, a, id);
    var due := s.clock + Rung(s.runs[a.run].attempts) + a.result.jitter;
    WaitsUntil(t0, schedule, k + 1, m, id, due);
    Reachable(t0, schedule[..m]);
    PrefixStep(t0, schedule, m);
    StepNotBefore(After(t0, schedule[..m]), schedule[m], id, due);
  }

  lemma StillQueued(s: State, a: Action, id: JobId)
    requires RowsOk(s.table) && id in s.table && s.table[id].state.Queued?
    requires !Delivery(s.table, Apply(s, a).table, id)
    ensures id in Apply(s, a).table && Apply(s, a).table[id] == s.table[id]
  {
    StepMoves(s, a, id);
  }

  lemma {:induction false} QueuedUntil(t0: Time, schedule: seq<Action>, j: nat, k: nat, id: JobId)
    requires j <= k <= |schedule| && id in After(t0, schedule[..j]).table
    requires After(t0, schedule[..j]).table[id].state.Queued?
    requires forall m :: j <= m < k ==>
               !Delivery(After(t0, schedule[..m]).table, After(t0, schedule[..m + 1]).table, id)
    ensures id in After(t0, schedule[..k]).table
    ensures After(t0, schedule[..k]).table[id] == After(t0, schedule[..j]).table[id]
    decreases k
  {
    if j < k {
      QueuedUntil(t0, schedule, j, k - 1, id);
      Reachable(t0, schedule[..k - 1]);
      PrefixStep(t0, schedule, k - 1);
      StillQueued(After(t0, schedule[..k - 1]), schedule[k - 1], id);
    }
  }

  /** And it waits no longer: as long as nobody has been handed the job since, a claim
      for its kind delivers it exactly when the rung and the jitter have passed. */
  lemma RetryIsDueIff(t0: Time, schedule: seq<Action>, k: nat, id: JobId, run: nat, w: Worker, lease: int,
                      kinds: set<string>)
    requires k < |schedule| && PutsBack(After(t0, schedule[..k]), schedule[k], id)
    requires forall m :: k < m < |schedule| ==>
               !Delivery(After(t0, schedule[..m]).table, After(t0, schedule[..m + 1]).table, id)
    requires var s := After(t0, schedule); run !in s.runs && id in s.table && s.table[id].kind in kinds
    ensures var s, now := After(t0, schedule[..k]), After(t0, schedule);
            Delivery(now.table, Apply(now, Claim(run, id, w, lease, kinds)).table, id) <==>
              now.clock >= s.clock + Rung(s.runs[schedule[k].run].attempts) + schedule[k].result.jitter
  {
    PrefixStep(t0, schedule, k);
    PutBackRow(After(t0, schedule[..k]), schedule[k], id);
    QueuedUntil(t0, schedule, k + 1, |schedule|, id);
    assert schedule[..|schedule|] == schedule;
    Reachable(t0, schedule);
    assert RowOk(After(t0, schedule).table[id]);
  }

  // ------------------------------------------------------------------ after a crash

  /** A leased job was due when it was handed out, and still is. */
  predicate LeasedWereDue(s: State) {
    forall id :: id in s.table && s.table[id].state.Leased? ==> s.table[id].runAfter <= s.clock
  }

  lemma StepLeasedWereDue(s: State, a: Action)
    requires RowsOk(s.table) && LeasedWereDue(s)
    ensures LeasedWereDue(Apply(s, a))
  {
    var s' := Apply(s, a);
    forall id | id in s'.table && s'.table[id].state.Leased? ensures s'.table[id].runAfter <= s'.clock {
      if id in s.table { StepMoves(s, a, id); }
    }
  }

  lemma {:induction false} LeasedAreDue(t0: Time, schedule: seq<Action>)
    ensures LeasedWereDue(After(t0, schedule))
  {
    if schedule != [] {
      var before := schedule[..|schedule| - 1];
      LeasedAreDue(t0, before);
      Reachable(t0, before);
      StepLeasedWereDue(After(t0, before), schedule[|schedule| - 1]);
    }
  }

  /** A leased job can be handed out again right after a sweep exactly when its lease has
      elapsed and attempts remain; it is then leased to the claimer for its own lease,
      one attempt on. */
  lemma SweptIsClaimableIff(t0: Time, schedule: seq<Action>, id: JobId, run: nat, w: Worker, lease: int,
                            kinds: set<string>)
    requires var s := After(t0, schedule);
             id in s.table && s.table[id].state.Leased? && run !in s.runs && s.table[id].kind in kinds
    ensures var s := After(t0, schedule);
            var swept := Apply(s, Sweep);
            var t' := Apply(swept, Claim(run, id, w, lease, kinds)).table;
            && s.table[id].leasedUntil.Some? && id in t'
            && (Delivery(swept.table, t', id) <==>
                  s.table[id].leasedUntil.value < s.clock && s.table[id].attempts < s.table[id].maxAttempts)
            && (Delivery(swept.table, t', id) ==>
                  && t'[id].leasedBy == Some(w) && t'[id].leasedUntil == Some(s.clock + lease)
                  && t'[id].attempts == s.table[id].attempts + 1)
  {
    Reachable(t0, schedule);
    LeasedAreDue(t0, schedule);
    assert RowOk(After(t0, schedule).table[id]);
  }
}
