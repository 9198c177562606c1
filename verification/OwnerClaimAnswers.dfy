/** What every claim request is told, over whole schedules: the status as a function of
    the one thing that happened to the request, and what a caller running alone gets. */
module OwnerClaimAnswers {
  import opened Wrappers
  import opened OwnerClaim
  import opened OwnerClaimSafety
  import opened OwnerClaimTheorems

  // ------------------------------------------------------ what can happen to a request

  datatype Event =
    | OverCeiling       // the route's own ceiling was spent
    | BadForm           // media type, body or origin was refused
    | FoundClaimed      // a users read, or the cached bit, said the instance is claimed
    | BadFieldSent      // a field other than the token was not acceptable
    | TokenRefused      // the token did not match, and a later read found no user
    | NameWasTaken      // the insert met the unique index
    | Committed         // owner and credential were committed, and the answer arrived
    | NoAnswer          // the database, or the hasher, gave no answer

  predicate Ongoing(pc: RequestPc) { !pc.Returned? && !pc.Answered? }

  /** The three users reads of Claim: first, in the transaction, and after a refusal. */
  predicate ReadsUsers(pc: RequestPc) { pc.AtFirstCheck? || pc.AtTxGate? || pc.AtClassify? }

  /** The gate needs no answer from the database: the bit is set, or a recent negative
      answer is reused. */
  predicate GateIsCached(sh: Shared, q: Req, c: Choice) { q.replica in sh.claimedBit || c.staleNegative }

  /** What a step of the request decides, if it decides anything. */
  function Decisive(sh: Shared, q: Req, c: Choice): Option<Event> {
    if !Ongoing(q.pc) then None
    else if q.pc.AtGate? && c.limited then Some(OverCeiling)
    else if q.pc.AtGate? && q.replica in sh.claimedBit then Some(FoundClaimed)
    else if q.pc.AtExamine? && q.input.check.BadField? then Some(BadFieldSent)
    else if q.pc.AtExamine? && q.input.check.Malformed? then None
    else if !c.ok && !(q.pc.AtGate? && GateIsCached(sh, q, c)) then Some(NoAnswer)
    else if q.pc.AtGate? && !c.staleNegative && sh.db.users != [] then Some(FoundClaimed)
    else if q.pc.AtGate? && c.rejected then Some(BadForm)
    else if ReadsUsers(q.pc) && sh.db.users != [] then Some(FoundClaimed)
    else if q.pc.AtClassify? then Some(TokenRefused)
    else if q.pc.AtCommit? && (exists u <- sh.db.users :: u.username == q.input.username) then Some(NameWasTaken)
    else if q.pc.AtCommit? then Some(Committed)
    else None
  }

  /** The answer Claim returns, and the status sent, for what happened; over is whether
      the failure budget was spent. */
  predicate SaysSo(a: ClaimAnswer, ev: Event) {
    match ev
    case FoundClaimed => a == AlreadyClaimed
    case BadFieldSent => a == FieldError
    case TokenRefused => a == TokenNotAccepted
    case NameWasTaken => a == NameTaken
    case Committed => a.Success?
    case NoAnswer => a == DbFailure || a == HashFailed
    case OverCeiling => false
    case BadForm => false
  }

  function StatusFor(ev: Event, over: bool): Status {
    match ev
    case OverCeiling => TooManyRequests
    case BadForm => Rejected
    case FoundClaimed => Conflict
    case BadFieldSent => BadRequest
    case TokenRefused => if over then TooManyFailures else Forbidden
    case NameWasTaken => Taken
    case Committed => Created
    case NoAnswer => Unavailable
  }

  // --------------------------------------------------------------------- single steps

  /** A step that decides nothing leaves the request under way; one that decides makes
      the claim return accordingly, or the gate answer at once. */
  lemma StepDecides(sh: Shared, pid: Pid, q: Req, c: Choice)
    requires Ongoing(q.pc) && (q.pc.AtCommit? ==> sh.db.token.Some?)
    ensures var q', ev := RequestStep(sh, pid, q, c).1, Decisive(sh, q, c);
            && (ev.None? ==> Ongoing(q'.pc))
            && (ev.Some? ==>
                  || (q'.pc.Returned? && SaysSo(q'.pc.answer, ev.value))
                  || (q'.pc == Answered(StatusFor(ev.value, false)) && !ev.value.TokenRefused?))
  {
    if q.pc.AtGate? { GateDecides(sh, q, c); }
  }

  lemma GateDecides(sh: Shared, q: Req, c: Choice)
    requires q.pc.AtGate?
    ensures var q', ev := GateStep(sh, q, c).1, Decisive(sh, q, c);
            && (ev.None? ==> Ongoing(q'.pc))
            && (ev.Some? ==> q'.pc == Answered(StatusFor(ev.value, false)) && !ev.value.TokenRefused?)
  {
  }

  /** The rows a status leaves in the audit log when it is sent. */
  function Notes(st: Status, transition: bool): seq<AuditRow> {
    if st.Forbidden? then [Refused] else if st.TooManyFailures? && transition then [RateLimited] else []
  }

  lemma StepAnswers(sh: Shared, pid: Pid, q: Req, c: Choice, ev: Event)
    requires q.pc.Returned? && SaysSo(q.pc.answer, ev)
    ensures var (sh', q') := RequestStep(sh, pid, q, c);
            && q'.pc == Answered(StatusFor(ev, c.limited))
            && sh'.db.audit == sh.db.audit + Notes(q'.pc.status, c.transition)
            && (q'.pc.status.Created? || q'.pc.status.Conflict? ==> q.replica in sh'.claimedBit)
  {
    assert sh.db.audit + [] == sh.db.audit;
  }

  lemma StepAnswered(sh: Shared, pid: Pid, q: Req, c: Choice)
    requires q.pc.Answered?
    ensures RequestStep(sh, pid, q, c) == (sh, q)
  {
  }

  // ------------------------------------------------------------------ over a schedule

  predicate IsRequest(s: State, pid: Pid) { pid in s.procs && s.procs[pid].Request? }

  /** What action a, taken in s, decides for the request. */
  function DecidedBy(s: State, a: Action, pid: Pid): seq<Event> {
    if a.Go? && a.pid == pid && IsRequest(s, pid) && Decisive(s.sh, s.procs[pid].req, a.c).Some?
    then [Decisive(s.sh, s.procs[pid].req, a.c).value] else []
  }

  /** Everything that was decided for the request, in order. */
  function Events(t0: Time, schedule: seq<Action>, pid: Pid): seq<Event> {
    if schedule == [] then []
    else
      var before := schedule[..|schedule| - 1];
      Events(t0, before, pid) + DecidedBy(Run(t0, before), schedule[|schedule| - 1], pid)
  }

  /** Whether the failure budget was spent, at each step that sent an answer of Claim. */
  function ChargedBy(s: State, a: Action, pid: Pid): seq<bool> {
    if a.Go? && a.pid == pid && IsRequest(s, pid) && s.procs[pid].req.pc.Returned? then [a.c.limited] else []
  }

  function Charges(t0: Time, schedule: seq<Action>, pid: Pid): seq<bool> {
    if schedule == [] then []
    else
      var before := schedule[..|schedule| - 1];
      Charges(t0, before, pid) + ChargedBy(Run(t0, before), schedule[|schedule| - 1], pid)
  }

  /** Where a request stands, against what was decided for it. */
  predicate Told(pc: RequestPc, evs: seq<Event>, charges: seq<bool>) {
    match pc
    case Returned(a) => |evs| == 1 && SaysSo(a, evs[0]) && charges == []
    case Answered(st) =>
      && |evs| == 1 && |charges| <= 1 && (evs[0].TokenRefused? ==> |charges| == 1)
      && st == StatusFor(evs[0], |charges| == 1 && charges[0])
    case _ => evs == [] && charges == []
  }

  lemma OwnStepTold(sh: Shared, pid: Pid, q: Req, c: Choice, evs: seq<Event>, charges: seq<bool>)
    requires Told(q.pc, evs, charges) && (q.pc.AtCommit? ==> sh.db.token.Some?)
    ensures var ev := Decisive(sh, q, c);
            Told(RequestStep(sh, pid, q, c).1.pc, evs + (if ev.Some? then [ev.value] else []),
                 charges + (if q.pc.Returned? then [c.limited] else []))
  {
    if Ongoing(q.pc) { StepDecides(sh, pid, q, c); }
    else if q.pc.Returned? { StepAnswers(sh, pid, q, c, evs[0]); }
    else { StepAnswered(sh, pid, q, c); }
  }

  lemma StepTold(s: State, a: Action, pid: Pid, evs: seq<Event>, charges: seq<bool>)
    requires Inv(s) && (pid !in s.procs ==> evs == [] && charges == [])
    requires IsRequest(s, pid) ==> Told(s.procs[pid].req.pc, evs, charges)
    ensures var evs', charges' := evs + DecidedBy(s, a, pid), charges + ChargedBy(s, a, pid);
            && (pid !in Apply(s, a).procs ==> evs' == [] && charges' == [])
            && (IsRequest(Apply(s, a), pid) ==> Told(Apply(s, a).procs[pid].req.pc, evs', charges'))
  {
    if a.Go? && a.pid == pid && IsRequest(s, pid) {
      assert ProcOk(s.sh, pid, s.procs[pid]);
      OwnStepTold(s.sh, pid, s.procs[pid].req, a.c, evs, charges);
    } else {
      assert evs + [] == evs && charges + [] == charges;
      OtherStepTold(s, a, pid);
    }
  }

  /** A step that is not its own leaves a request where it stands, or crashes it. */
  lemma OtherStepTold(s: State, a: Action, pid: Pid)
    requires !(a.Go? && a.pid == pid && IsRequest(s, pid))
    ensures pid !in Apply(s, a).procs ==> pid !in s.procs
    ensures IsRequest(Apply(s, a), pid) ==>
              if pid in s.procs then Apply(s, a).procs[pid] == s.procs[pid] else Apply(s, a).procs[pid].req.pc.AtGate?
  {
  }

  lemma {:induction false} RunTold(t0: Time, schedule: seq<Action>, pid: Pid)
    ensures var s, evs, charges := Run(t0, schedule), Events(t0, schedule, pid), Charges(t0, schedule, pid);
            && (pid !in s.procs ==> evs == [] && charges == [])
            && (IsRequest(s, pid) ==> Told(s.procs[pid].req.pc, evs, charges))
  {
    if schedule != [] {
      var before := schedule[..|schedule| - 1];
      RunTold(t0, before, pid);
      RunKeeps(t0, before);
      StepTold(Run(t0, before), schedule[|schedule| - 1], pid, Events(t0, before, pid), Charges(t0, before, pid));
    }
  }

  /** Over every schedule exactly one thing decided an answered request, and its status
      says which: 201 for a commit whose answer arrived, 409 for an instance found
      claimed or a name found taken, 400 for a bad field, 403 for a refused token, or
      429 once the failure budget is spent, 429 at the route's ceiling, 503 for an
      answer that did not come, and the refusal of the request's own form. */
  lemma StatusIff(t0: Time, schedule: seq<Action>, pid: Pid)
    requires IsRequest(Run(t0, schedule), pid) && Run(t0, schedule).procs[pid].req.pc.Answered?
    ensures TellsWhy(Run(t0, schedule).procs[pid].req.pc.status, Events(t0, schedule, pid), Charges(t0, schedule, pid))
  {
    RunTold(t0, schedule, pid);
  }

  predicate TellsWhy(st: Status, evs: seq<Event>, charges: seq<bool>) {
    && |evs| == 1 && (evs[0].TokenRefused? ==> |charges| == 1)
    && (st.Created? <==> evs[0].Committed?)
    && (st.Conflict? <==> evs[0].FoundClaimed?)
    && (st.Taken? <==> evs[0].NameWasTaken?)
    && (st.BadRequest? <==> evs[0].BadFieldSent?)
    && (st.Forbidden? <==> evs[0].TokenRefused? && !charges[0])
    && (st.TooManyFailures? <==> evs[0].TokenRefused? && charges[0])
    && (st.TooManyRequests? <==> evs[0].OverCeiling?)
    && (st.Unavailable? <==> evs[0].NoAnswer?)
    && (st.Rejected? <==> evs[0].BadForm?)
  }

  // -------------------------------------------------------------------- the redeemer

  /** The redeemer, once its commit was answered or not. */
  predicate RedeemerAt(pc: RequestPc, answered: bool) {
    if answered then (pc.Returned? && pc.answer.Success?) || pc == Answered(Created)
    else pc == Returned(DbFailure) || pc == Answered(Unavailable)
  }

  lemma RedeemStepIs(s: State, a: Action)
    requires Inv(s) && s.sh.redeemed.None? && Apply(s, a).sh.redeemed.Some?
    ensures var r := Apply(s, a).sh.redeemed.value;
            && a.Go? && a.pid == r.caller && IsRequest(s, a.pid) && s.procs[a.pid].req.pc.AtCommit?
            && IsRequest(Apply(s, a), a.pid) && RedeemerAt(Apply(s, a).procs[a.pid].req.pc, a.c.ok)
            && (a.c.ok || a.c.applied)
  {
    if a.Go? && a.pid in s.procs {
      AdvanceKeeps(s.sh, a.pid, s.procs[a.pid], a.c);
      if s.procs[a.pid].Request? { CommitIsRedeem(s.sh, a.pid, s.procs[a.pid].req, a.c); }
    }
  }

  lemma CommitIsRedeem(sh: Shared, pid: Pid, q: Req, c: Choice)
    requires sh.redeemed.None? && RequestStep(sh, pid, q, c).0.redeemed.Some?
    ensures var r := RequestStep(sh, pid, q, c);
            q.pc.AtCommit? && r.0.redeemed.value.caller == pid && RedeemerAt(r.1.pc, c.ok) && (c.ok || c.applied)
  {
  }

  predicate RedeemerTold(s: State, pid: Pid, answered: bool) {
    pid in s.procs && (s.procs[pid].Crashed? || (IsRequest(s, pid) && RedeemerAt(s.procs[pid].req.pc, answered)))
  }

  lemma RedeemerStays(s: State, a: Action, pid: Pid, answered: bool)
    requires RedeemerTold(s, pid, answered)
    ensures RedeemerTold(Apply(s, a), pid, answered)
  {
  }

  lemma RedeemedStays(s: State, a: Action)
    requires Inv(s) && s.sh.redeemed.Some?
    ensures Apply(s, a).sh.redeemed == s.sh.redeemed
  {
    if a.Go? && a.pid in s.procs { AdvanceKeeps(s.sh, a.pid, s.procs[a.pid], a.c); }
  }

  /** Over every schedule: the request that created the owner was answered at the commit
      or lost its answer there; once answered it is told 201 in the first case, 503 in
      the second, and nothing else. */
  lemma {:induction false} RedeemerIsTold(t0: Time, schedule: seq<Action>) returns (k: nat)
    requires Run(t0, schedule).sh.redeemed.Some?
    ensures k < |schedule| && schedule[k].Go? && schedule[k].pid == Run(t0, schedule).sh.redeemed.value.caller
    ensures var s, pid := Run(t0, schedule[..k]), schedule[k].pid;
            s.sh.redeemed.None? && IsRequest(s, pid) && s.procs[pid].req.pc.AtCommit?
    ensures var s, pid := Run(t0, schedule), schedule[k].pid;
            && pid in s.procs && (s.procs[pid].Request? || s.procs[pid].Crashed?)
            && (IsRequest(s, pid) && s.procs[pid].req.pc.Answered? ==>
                  s.procs[pid].req.pc.status == if schedule[k].c.ok then Created else Unavailable)
    ensures RedeemerTold(Run(t0, schedule), schedule[k].pid, schedule[k].c.ok)
  {
    assert schedule != [];
    var n := |schedule| - 1;
    var before := schedule[..n];
    RunKeeps(t0, before);
    if Run(t0, before).sh.redeemed.Some? {
      k := RedeemerIsTold(t0, before);
      assert before[..k] == schedule[..k];
      RedeemedStays(Run(t0, before), schedule[n]);
      RedeemerStays(Run(t0, before), schedule[n], schedule[k].pid, schedule[k].c.ok);
    } else {
      k := n;
      RedeemStepIs(Run(t0, before), schedule[n]);
    }
  }

  // ------------------------------------------------------------------ a request alone

  /** The world answers: the database, the hasher and the limits. */
  predicate Fine(c: Choice) { c.ok && !c.limited && !c.rejected }

  /** Call pid takes the steps cs, and nobody else does anything. */
  function Alone(s: State, pid: Pid, cs: seq<Choice>): State {
    if cs == [] then s else Apply(Alone(s, pid, cs[..|cs| - 1]), Go(pid, cs[|cs| - 1]))
  }

  /** Request q of pid, on the shared state sh. */
  predicate Stands(s: State, pid: Pid, sh: Shared, q: Req) {
    pid in s.procs && s.sh == sh && s.procs[pid] == Request(q)
  }

  lemma AloneStep(s: State, pid: Pid, cs: seq<Choice>, n: nat, sh: Shared, q: Req, sh': Shared, q': Req)
    requires n < |cs| && Stands(Alone(s, pid, cs[..n]), pid, sh, q) && RequestStep(sh, pid, q, cs[n]) == (sh', q')
    ensures Stands(Alone(s, pid, cs[..n + 1]), pid, sh', q')
  {
    assert cs[..n + 1][..n] == cs[..n];
  }

  /** An unclaimed instance with a live token of this digest and no lock held. */
  predicate Open(sh: Shared, digest: Digest) {
    && sh.db.users == [] && sh.claimedBit == {} && sh.rowLock.None?
    && sh.db.token.Some? && sh.db.token.value.digest == digest && Live(sh.db.token.value, sh.clock)
  }

  function Hashed(q: Req, c: Choice): Req { q.(hashed := true, userId := c.userId, secret := c.secret) }

  // One step each, while the instance is open and the world answers.

  lemma GatePasses(s: State, pid: Pid, cs: seq<Choice>, n: nat, sh: Shared, q: Req)
    requires n < |cs| && Stands(Alone(s, pid, cs[..n]), pid, sh, q)
    requires Open(sh, q.input.digest) && q.pc.AtGate? && Fine(cs[n])
    ensures Stands(Alone(s, pid, cs[..n + 1]), pid, sh, q.(pc := AtFirstCheck))
  {
    AloneStep(s, pid, cs, n, sh, q, sh, q.(pc := AtFirstCheck));
  }

  lemma CheckPasses(s: State, pid: Pid, cs: seq<Choice>, n: nat, sh: Shared, q: Req)
    requires n < |cs| && Stands(Alone(s, pid, cs[..n]), pid, sh, q)
    requires Open(sh, q.input.digest) && q.pc.AtFirstCheck? && Fine(cs[n])
    ensures Stands(Alone(s, pid, cs[..n + 1]), pid, sh, q.(pc := AtExamine))
  {
    AloneStep(s, pid, cs, n, sh, q, sh, q.(pc := AtExamine));
  }

  lemma TokenPasses(s: State, pid: Pid, cs: seq<Choice>, n: nat, sh: Shared, q: Req)
    requires n < |cs| && Stands(Alone(s, pid, cs[..n]), pid, sh, q)
    requires Open(sh, q.input.digest) && q.pc.AtExamine? && Fine(cs[n]) && q.input.check.WellFormed?
    ensures Stands(Alone(s, pid, cs[..n + 1]), pid, sh, q.(pc := AtHash(sh.db.token.value)))
  {
    AloneStep(s, pid, cs, n, sh, q, sh, q.(pc := AtHash(sh.db.token.value)));
  }

  lemma HashPasses(s: State, pid: Pid, cs: seq<Choice>, n: nat, sh: Shared, q: Req)
    requires n < |cs| && Stands(Alone(s, pid, cs[..n]), pid, sh, q)
    requires q.pc.AtHash? && Fine(cs[n])
    ensures Stands(Alone(s, pid, cs[..n + 1]), pid, sh, Hashed(q, cs[n]).(pc := AtBegin(q.pc.row)))
  {
    AloneStep(s, pid, cs, n, sh, q, sh, Hashed(q, cs[n]).(pc := AtBegin(q.pc.row)));
  }

  lemma BeginPasses(s: State, pid: Pid, cs: seq<Choice>, n: nat, sh: Shared, q: Req)
    requires n < |cs| && Stands(Alone(s, pid, cs[..n]), pid, sh, q)
    requires q.pc.AtBegin? && Fine(cs[n])
    ensures Stands(Alone(s, pid, cs[..n + 1]), pid, sh, q.(pc := AtTxGate(q.pc.row, sh.clock)))
  {
    AloneStep(s, pid, cs, n, sh, q, sh, q.(pc := AtTxGate(q.pc.row, sh.clock)));
  }

  lemma TxGatePasses(s: State, pid: Pid, cs: seq<Choice>, n: nat, sh: Shared, q: Req)
    requires n < |cs| && Stands(Alone(s, pid, cs[..n]), pid, sh, q)
    requires Open(sh, q.input.digest) && q.pc.AtTxGate? && Fine(cs[n])
    ensures Stands(Alone(s, pid, cs[..n + 1]), pid, sh, q.(pc := AtRedeem(q.pc.row, q.pc.now)))
  {
    AloneStep(s, pid, cs, n, sh, q, sh, q.(pc := AtRedeem(q.pc.row, q.pc.now)));
  }

  lemma RedeemPasses(s: State, pid: Pid, cs: seq<Choice>, n: nat, sh: Shared, q: Req)
    requires n < |cs| && Stands(Alone(s, pid, cs[..n]), pid, sh, q)
    requires q.pc.AtRedeem? && Fine(cs[n]) && Open(sh, q.pc.row.digest) && q.pc.now == sh.clock
    ensures Stands(Alone(s, pid, cs[..n + 1]), pid, sh, q.(pc := AtRedeemLock(q.pc.row, q.pc.now)))
  {
    AloneStep(s, pid, cs, n, sh, q, sh, q.(pc := AtRedeemLock(q.pc.row, q.pc.now)));
  }

  lemma LockPasses(s: State, pid: Pid, cs: seq<Choice>, n: nat, sh: Shared, q: Req)
    requires n < |cs| && Stands(Alone(s, pid, cs[..n]), pid, sh, q)
    requires q.pc.AtRedeemLock? && Fine(cs[n]) && Open(sh, q.pc.row.digest) && q.pc.now == sh.clock
    ensures Stands(Alone(s, pid, cs[..n + 1]), pid, sh.(rowLock := Some(pid)), q.(pc := AtCommit(q.pc.row, q.pc.now)))
  {
    AloneStep(s, pid, cs, n, sh, q, sh.(rowLock := Some(pid)), q.(pc := AtCommit(q.pc.row, q.pc.now)));
  }

  /** Up to the hash: the gate, the users check and the token. */
  lemma AloneToHash(s: State, pid: Pid, cs: seq<Choice>, q: Req)
    requires |cs| >= 3 && Fine(cs[0]) && Fine(cs[1]) && Fine(cs[2])
    requires Open(s.sh, q.input.digest) && q.input.check.WellFormed? && q.pc.AtGate? && Stands(s, pid, s.sh, q)
    ensures Stands(Alone(s, pid, cs[..3]), pid, s.sh, q.(pc := AtHash(s.sh.db.token.value)))
  {
    var q1, q2 := q.(pc := AtFirstCheck), q.(pc := AtExamine);
    assert cs[..0] == [];
    GatePasses(s, pid, cs, 0, s.sh, q);
    CheckPasses(s, pid, cs, 1, s.sh, q1);
    TokenPasses(s, pid, cs, 2, s.sh, q2);
  }

  /** From the hash to the redeeming statement. */
  lemma AloneToRedeem(s: State, pid: Pid, cs: seq<Choice>, q: Req, q': Req, row: TokenRow)
    requires |cs| >= 6 && Fine(cs[3]) && Fine(cs[4]) && Fine(cs[5]) && Open(s.sh, q.input.digest)
    requires q.pc == AtHash(row) && Stands(Alone(s, pid, cs[..3]), pid, s.sh, q)
    requires q' == q.(hashed := true, userId := cs[3].userId, secret := cs[3].secret, pc := AtRedeem(row, s.sh.clock))
    ensures Stands(Alone(s, pid, cs[..6]), pid, s.sh, q')
  {
    var q1, q2 := q'.(pc := AtBegin(row)), q'.(pc := AtTxGate(row, s.sh.clock));
    HashPasses(s, pid, cs, 3, s.sh, q);
    BeginPasses(s, pid, cs, 4, s.sh, q1);
    TxGatePasses(s, pid, cs, 5, s.sh, q2);
  }

  /** From the statement to the commit, which holds the row. */
  lemma AloneToCommit(s: State, pid: Pid, cs: seq<Choice>, q: Req, row: TokenRow)
    requires |cs| >= 8 && Fine(cs[6]) && Fine(cs[7]) && Open(s.sh, row.digest)
    requires q.pc == AtRedeem(row, s.sh.clock) && Stands(Alone(s, pid, cs[..6]), pid, s.sh, q)
    ensures Stands(Alone(s, pid, cs[..8]), pid, s.sh.(rowLock := Some(pid)), q.(pc := AtCommit(row, s.sh.clock)))
  {
    var q1 := q.(pc := AtRedeemLock(row, s.sh.clock));
    RedeemPasses(s, pid, cs, 6, s.sh, q);
    LockPasses(s, pid, cs, 7, s.sh, q1);
  }

  /** What the commit stores, before the answer is sent. */
  predicate StoredFor(sh: Shared, sh': Shared, q: Req) {
    && sh'.db.users == [User(q.userId, q.input.username, Owner)]
    && sh'.db.credentials == sh.db.credentials + [Credential(q.userId, q.secret)]
    && sh'.db.audit == sh.db.audit + [Succeeded(q.userId, q.input.username)]
    && sh'.db.token.Some? && sh'.db.token.value.consumedAt == Some(sh.clock)
  }

  lemma CommitPasses(sh: Shared, pid: Pid, q: Req, c: Choice)
    requires sh.db.users == [] && sh.db.token.Some? && q.pc.AtCommit? && q.pc.now == sh.clock && Fine(c)
    ensures var r := RequestStep(sh, pid, q, c);
            StoredFor(sh, r.0, q) && r.1.pc.Returned? && r.1.pc.answer.Success?
  {
    assert [] + [User(q.userId, q.input.username, Owner)] == [User(q.userId, q.input.username, Owner)];
  }

  lemma SuccessIsCreated(sh: Shared, pid: Pid, q: Req, c: Choice)
    requires q.pc.Returned? && q.pc.answer.Success?
    ensures var r := RequestStep(sh, pid, q, c); r.0.db == sh.db && r.1.pc == Answered(Created)
  {
  }

  lemma AloneCommits(s: State, pid: Pid, cs: seq<Choice>, n: nat, sh: Shared, q: Req) returns (sh': Shared, q': Req)
    requires n < |cs| && Fine(cs[n]) && sh.db.users == [] && sh.db.token.Some?
    requires q.pc.AtCommit? && q.pc.now == sh.clock && Stands(Alone(s, pid, cs[..n]), pid, sh, q)
    ensures Stands(Alone(s, pid, cs[..n + 1]), pid, sh', q') && StoredFor(sh, sh', q)
    ensures q'.pc.Returned? && q'.pc.answer.Success?
  {
    CommitPasses(sh, pid, q, cs[n]);
    var r := RequestStep(sh, pid, q, cs[n]);
    sh', q' := r.0, r.1;
    AloneStep(s, pid, cs, n, sh, q, sh', q');
  }

  lemma AloneAnswers(s: State, pid: Pid, cs: seq<Choice>, n: nat, sh: Shared, q: Req)
    requires n < |cs| && q.pc.Returned? && q.pc.answer.Success? && Stands(Alone(s, pid, cs[..n]), pid, sh, q)
    ensures var x := Alone(s, pid, cs[..n + 1]);
            IsRequest(x, pid) && x.procs[pid].req.pc == Answered(Created) && x.sh.db == sh.db
  {
    SuccessIsCreated(sh, pid, q, cs[n]);
    var r := RequestStep(sh, pid, q, cs[n]);
    AloneStep(s, pid, cs, n, sh, q, r.0, r.1);
  }

  lemma AloneToAnswer(s: State, pid: Pid, cs: seq<Choice>, q: Req, row: TokenRow)
    requires |cs| == 10 && Fine(cs[8]) && Open(s.sh, row.digest) && q.pc == AtCommit(row, s.sh.clock)
    requires Stands(Alone(s, pid, cs[..8]), pid, s.sh.(rowLock := Some(pid)), q)
    ensures var x := Alone(s, pid, cs);
            IsRequest(x, pid) && x.procs[pid].req.pc == Answered(Created) && StoredFor(s.sh, x.sh, q)
  {
    var sh, q' := AloneCommits(s, pid, cs, 8, s.sh.(rowLock := Some(pid)), q);
    AloneAnswers(s, pid, cs, 9, sh, q');
    assert cs[..10] == cs;
  }

  /** From every reachable state of an unclaimed instance with a live token and the row
      free, a well-formed request with that token's digest, running alone while the
      world answers, is told 201, and its name and verifier are what is stored. */
  lemma HolderIsCreated(t0: Time, schedule: seq<Action>, pid: Pid, input: Input, replica: Replica, cs: seq<Choice>)
    requires var s := Run(t0, schedule);
             && pid !in s.procs && s.sh.db.users == [] && s.sh.rowLock.None?
             && s.sh.db.token.Some? && s.sh.db.token.value.digest == input.digest
             && Live(s.sh.db.token.value, s.sh.clock) && input.check.WellFormed?
    requires |cs| == 10 && forall c <- cs :: Fine(c)
    ensures var s := Run(t0, schedule);
            var x := Alone(Apply(s, NewRequest(pid, input, replica)), pid, cs);
            && IsRequest(x, pid) && x.procs[pid].req.pc == Answered(Created)
            && x.sh.db.users == [User(cs[3].userId, input.username, Owner)]
            && x.sh.db.credentials == [Credential(cs[3].userId, cs[3].secret)]
            && x.sh.db.token.Some? && x.sh.db.token.value.consumedAt == Some(s.sh.clock)
  {
    RunShared(t0, schedule);
    var s := Apply(Run(t0, schedule), NewRequest(pid, input, replica));
    var q := s.procs[pid].req;
    var row := s.sh.db.token.value;
    var q' := q.(hashed := true, userId := cs[3].userId, secret := cs[3].secret, pc := AtRedeem(row, s.sh.clock));
    forall i | 0 <= i < 10 ensures Fine(cs[i]) { assert cs[i] in cs; }
    AloneToHash(s, pid, cs, q);
    AloneToRedeem(s, pid, cs, q.(pc := AtHash(row)), q', row);
    AloneToCommit(s, pid, cs, q', row);
    AloneToAnswer(s, pid, cs, q'.(pc := AtCommit(row, s.sh.clock)), row);
  }

  // ------------------------------------------------------------- a mint and a boot alone

  /** Process p of pid, on the shared state sh. */
  predicate At(s: State, pid: Pid, sh: Shared, p: Proc) { pid in s.procs && s.sh == sh && s.procs[pid] == p }

  lemma ProcStep(s: State, pid: Pid, cs: seq<Choice>, n: nat, sh: Shared, p: Proc, sh': Shared, p': Proc)
    requires n < |cs| && At(Alone(s, pid, cs[..n]), pid, sh, p) && Advance(sh, pid, p, cs[n]) == (sh', p')
    ensures At(Alone(s, pid, cs[..n + 1]), pid, sh', p')
  {
    assert cs[..n + 1][..n] == cs[..n];
  }

  /** Mint m of pid stands at pc, after n steps of its own. */
  predicate MintAt(s: State, pid: Pid, cs: seq<Choice>, n: nat, sh: Shared, m: Mint, pc: MintPc) {
    n <= |cs| && At(Alone(s, pid, cs[..n]), pid, sh, Minting(m.(pc := pc)))
  }

  lemma MintBegins(s: State, pid: Pid, cs: seq<Choice>, n: nat, sh: Shared, m: Mint)
    requires n < |cs| && cs[n].ok && MintAt(s, pid, cs, n, sh, m, MBegin)
    ensures MintAt(s, pid, cs, n + 1, sh, m, MLock(sh.clock))
  {
    ProcStep(s, pid, cs, n, sh, Minting(m.(pc := MBegin)), sh, Minting(m.(pc := MLock(sh.clock))));
  }

  lemma MintLocks(s: State, pid: Pid, cs: seq<Choice>, n: nat, sh: Shared, m: Mint, now: Time)
    requires n < |cs| && cs[n].ok && MintAt(s, pid, cs, n, sh, m, MLock(now)) && sh.mintLock.None?
    ensures MintAt(s, pid, cs, n + 1, sh.(mintLock := Some(pid)), m, MUsers(now))
  {
    ProcStep(s, pid, cs, n, sh, Minting(m.(pc := MLock(now))), sh.(mintLock := Some(pid)),
             Minting(m.(pc := MUsers(now))));
  }

  lemma MintFindsNobody(s: State, pid: Pid, cs: seq<Choice>, n: nat, sh: Shared, m: Mint, now: Time)
    requires n < |cs| && cs[n].ok && MintAt(s, pid, cs, n, sh, m, MUsers(now)) && sh.db.users == []
    ensures MintAt(s, pid, cs, n + 1, sh, m, MState(now))
  {
    ProcStep(s, pid, cs, n, sh, Minting(m.(pc := MUsers(now))), sh, Minting(m.(pc := MState(now))));
  }

  predicate HasLiveAt(sh: Shared, now: Time) { sh.db.token.Some? && Live(sh.db.token.value, now) }

  function LiveGeneration(sh: Shared, now: Time): Option<nat> {
    if HasLiveAt(sh, now) then Some(sh.db.token.value.generation) else None
  }

  function NextGeneration(sh: Shared): nat { if sh.db.token.Some? then sh.db.token.value.generation + 1 else 1 }

  lemma MintReadsState(s: State, pid: Pid, cs: seq<Choice>, n: nat, sh: Shared, m: Mint, now: Time)
    requires n < |cs| && cs[n].ok && MintAt(s, pid, cs, n, sh, m, MState(now))
    requires !(m.onlyIfNoLiveToken && HasLiveAt(sh, now))
    ensures MintAt(s, pid, cs, n + 1, sh, m, MStatement(now, LiveGeneration(sh, now)))
  {
    ProcStep(s, pid, cs, n, sh, Minting(m.(pc := MState(now))), sh,
             Minting(m.(pc := MStatement(now, LiveGeneration(sh, now)))));
  }

  lemma MintStates(s: State, pid: Pid, cs: seq<Choice>, n: nat, sh: Shared, m: Mint, now: Time, was: Option<nat>)
    requires n < |cs| && cs[n].ok && MintAt(s, pid, cs, n, sh, m, MStatement(now, was))
    requires sh.db.users == [] && m.ttl > 0 && !Published(sh, cs[n].digest)
    ensures MintAt(s, pid, cs, n + 1, sh, m, MWrite(now, was, cs[n].digest))
  {
    ProcStep(s, pid, cs, n, sh, Minting(m.(pc := MStatement(now, was))), sh,
             Minting(m.(pc := MWrite(now, was, cs[n].digest))));
  }

  lemma MintTakesRow(s: State, pid: Pid, cs: seq<Choice>, n: nat, sh: Shared, m: Mint, now: Time, was: Option<nat>,
                     d: Digest)
    requires n < |cs| && cs[n].ok && MintAt(s, pid, cs, n, sh, m, MWrite(now, was, d)) && sh.rowLock.None?
    ensures MintAt(s, pid, cs, n + 1, sh.(rowLock := Some(pid)), m, MCommit(now, was, d))
  {
    ProcStep(s, pid, cs, n, sh, Minting(m.(pc := MWrite(now, was, d))), sh.(rowLock := Some(pid)),
             Minting(m.(pc := MCommit(now, was, d))));
  }

  lemma MintStores(sh: Shared, pid: Pid, m: Mint, c: Choice)
    requires m.pc.MCommit? && c.ok
    ensures var r := MintStep(sh, pid, m, c);
            && r.1 == m.(pc := MDone(MintedToken(NextGeneration(sh))))
            && r.0.db.token == Some(TokenRow(m.pc.digest, NextGeneration(sh), m.pc.now + m.ttl, None, None))
  {
  }

  lemma MintCommits(s: State, pid: Pid, cs: seq<Choice>, n: nat, sh: Shared, m: Mint, now: Time, was: Option<nat>,
                    d: Digest)
    requires n < |cs| && cs[n].ok && MintAt(s, pid, cs, n, sh, m, MCommit(now, was, d))
    ensures var x := Alone(s, pid, cs[..n + 1]);
            && pid in x.procs && x.procs[pid] == Minting(m.(pc := MDone(MintedToken(NextGeneration(sh)))))
            && x.sh.db.token == Some(TokenRow(d, NextGeneration(sh), now + m.ttl, None, None))
  {
    var r := MintStep(sh, pid, m.(pc := MCommit(now, was, d)), cs[n]);
    MintStores(sh, pid, m.(pc := MCommit(now, was, d)), cs[n]);
    ProcStep(s, pid, cs, n, sh, Minting(m.(pc := MCommit(now, was, d))), r.0, Minting(r.1));
  }

  /** The mint is done, and its token is the row, one generation on. */
  predicate HasMinted(x: State, pid: Pid, sh: Shared, d: Digest, ttl: int) {
    && pid in x.procs && x.procs[pid].Minting?
    && x.procs[pid].mint.pc == MDone(MintedToken(NextGeneration(sh)))
    && x.sh.db.token == Some(TokenRow(d, NextGeneration(sh), sh.clock + ttl, None, None))
  }

  lemma MintRuns(s: State, pid: Pid, cs: seq<Choice>, m: Mint)
    requires |cs| == 7 && (forall i :: 0 <= i < 7 ==> cs[i].ok) && m.ttl > 0 && MintAt(s, pid, cs, 0, s.sh, m, MBegin)
    requires s.sh.db.users == [] && s.sh.rowLock.None? && s.sh.mintLock.None? && !Published(s.sh, cs[4].digest)
    requires !(m.onlyIfNoLiveToken && HasLiveAt(s.sh, s.sh.clock))
    ensures HasMinted(Alone(s, pid, cs), pid, s.sh, cs[4].digest, m.ttl)
  {
    var now, was, held := s.sh.clock, LiveGeneration(s.sh, s.sh.clock), s.sh.(mintLock := Some(pid));
    MintLocked(s, pid, cs, m, now, held);
    MintWriting(s, pid, cs, m, now, held, was);
    MintStored(s, pid, cs, m, now, held, was, cs[4].digest);
    assert cs[..7] == cs;
  }

  lemma MintSpawned(s: State, pid: Pid, m: Mint, cs: seq<Choice>)
    requires pid !in s.procs && m.pc.MBegin? && !m.fromBoot
    ensures var s' := Apply(s, NewMint(pid, m.ttl, m.refuseIfUsersExist, m.onlyIfNoLiveToken));
            s'.sh == s.sh && MintAt(s', pid, cs, 0, s.sh, m, MBegin)
  {
    assert cs[..0] == [];
  }

  lemma MintLocked(s: State, pid: Pid, cs: seq<Choice>, m: Mint, now: Time, held: Shared)
    requires |cs| == 7 && cs[0].ok && cs[1].ok && MintAt(s, pid, cs, 0, s.sh, m, MBegin) && s.sh.mintLock.None?
    requires now == s.sh.clock && held == s.sh.(mintLock := Some(pid))
    ensures MintAt(s, pid, cs, 2, held, m, MUsers(now))
  {
    MintBegins(s, pid, cs, 0, s.sh, m);
    MintLocks(s, pid, cs, 1, s.sh, m, now);
  }

  lemma MintWriting(s: State, pid: Pid, cs: seq<Choice>, m: Mint, now: Time, held: Shared, was: Option<nat>)
    requires |cs| == 7 && cs[2].ok && cs[3].ok && cs[4].ok && MintAt(s, pid, cs, 2, held, m, MUsers(now)) && m.ttl > 0
    requires held.db.users == [] && !Published(held, cs[4].digest) && was == LiveGeneration(held, now)
    requires !(m.onlyIfNoLiveToken && HasLiveAt(held, now))
    ensures MintAt(s, pid, cs, 5, held, m, MWrite(now, was, cs[4].digest))
  {
    MintFindsNobody(s, pid, cs, 2, held, m, now);
    MintReadsState(s, pid, cs, 3, held, m, now);
    MintStates(s, pid, cs, 4, held, m, now, was);
  }

  lemma MintStored(s: State, pid: Pid, cs: seq<Choice>, m: Mint, now: Time, held: Shared, was: Option<nat>, d: Digest)
    requires |cs| == 7 && cs[5].ok && cs[6].ok && MintAt(s, pid, cs, 5, held, m, MWrite(now, was, d))
    requires held.rowLock.None?
    ensures var x := Alone(s, pid, cs[..7]);
            && pid in x.procs && x.procs[pid] == Minting(m.(pc := MDone(MintedToken(NextGeneration(held)))))
            && x.sh.db.token == Some(TokenRow(d, NextGeneration(held), now + m.ttl, None, None))
  {
    MintTakesRow(s, pid, cs, 5, held, m, now, was, d);
    MintCommits(s, pid, cs, 6, held.(rowLock := Some(pid)), m, now, was, d);
  }

  /** From every reachable state of an unclaimed instance with both locks free, a mint
      running alone while the database answers, with a fresh digest and a positive
      lifetime, and not told to spare a live token, stores its token live, one
      generation on. */
  lemma MintAloneMints(t0: Time, schedule: seq<Action>, pid: Pid, ttl: int, refuse: bool, only: bool, cs: seq<Choice>)
    requires var sh := Run(t0, schedule).sh;
             && pid !in Run(t0, schedule).procs && sh.db.users == [] && sh.rowLock.None? && sh.mintLock.None?
             && !(only && HasLiveAt(sh, sh.clock)) && |cs| == 7 && !Published(sh, cs[4].digest)
    requires (forall i :: 0 <= i < 7 ==> cs[i].ok) && ttl > 0
    ensures HasMinted(Alone(Apply(Run(t0, schedule), NewMint(pid, ttl, refuse, only)), pid, cs), pid,
                      Run(t0, schedule).sh, cs[4].digest, ttl)
  {
    var s, m := Apply(Run(t0, schedule), NewMint(pid, ttl, refuse, only)), Mint(ttl, refuse, only, false, MBegin);
    MintSpawned(Run(t0, schedule), pid, m, cs);
    MintRuns(s, pid, cs, m);
  }

  predicate BootAt(s: State, pid: Pid, cs: seq<Choice>, n: nat, sh: Shared, stderr: bool, ttl: int, pc: BootPc) {
    n <= |cs| && At(Alone(s, pid, cs[..n]), pid, sh, Booting(stderr, ttl, pc))
  }

  lemma BootFindsUsers(s: State, pid: Pid, cs: seq<Choice>, n: nat, sh: Shared, stderr: bool, ttl: int)
    requires n < |cs| && cs[n].ok && BootAt(s, pid, cs, n, sh, stderr, ttl, BStart) && sh.db.users != []
    ensures BootAt(s, pid, cs, n + 1, sh, stderr, ttl, SBegin)
  {
    ProcStep(s, pid, cs, n, sh, Booting(stderr, ttl, BStart), sh, Booting(stderr, ttl, SBegin));
  }

  lemma BootBegins(s: State, pid: Pid, cs: seq<Choice>, n: nat, sh: Shared, stderr: bool, ttl: int)
    requires n < |cs| && cs[n].ok && BootAt(s, pid, cs, n, sh, stderr, ttl, SBegin)
    ensures BootAt(s, pid, cs, n + 1, sh, stderr, ttl, SWrite(sh.clock))
  {
    ProcStep(s, pid, cs, n, sh, Booting(stderr, ttl, SBegin), sh, Booting(stderr, ttl, SWrite(sh.clock)));
  }

  /** The row of sh is neither consumed nor superseded. */
  predicate OpenRow(sh: Shared) {
    sh.db.token.Some? && sh.db.token.value.consumedAt.None? && sh.db.token.value.supersededAt.None?
  }

  lemma BootTakesRow(s: State, pid: Pid, cs: seq<Choice>, n: nat, sh: Shared, stderr: bool, ttl: int, now: Time)
    requires n < |cs| && cs[n].ok && BootAt(s, pid, cs, n, sh, stderr, ttl, SWrite(now))
    requires OpenRow(sh) && sh.rowLock.None?
    ensures BootAt(s, pid, cs, n + 1, sh.(rowLock := Some(pid)), stderr, ttl, SCommit(now))
  {
    ProcStep(s, pid, cs, n, sh, Booting(stderr, ttl, SWrite(now)), sh.(rowLock := Some(pid)),
             Booting(stderr, ttl, SCommit(now)));
  }

  lemma BootCommits(s: State, pid: Pid, cs: seq<Choice>, n: nat, sh: Shared, stderr: bool, ttl: int, now: Time)
    requires n < |cs| && cs[n].ok && BootAt(s, pid, cs, n, sh, stderr, ttl, SCommit(now)) && OpenRow(sh)
    ensures var x := Alone(s, pid, cs[..n + 1]);
            && pid in x.procs && x.procs[pid] == Booting(stderr, ttl, BDone(true))
            && x.sh.db.token == Some(sh.db.token.value.(supersededAt := Some(now)))
            && x.sh.db.audit == sh.db.audit + [Superseded(sh.db.token.value.generation)]
  {
    var r := BootStep(sh, pid, stderr, ttl, SCommit(now), cs[n]);
    ProcStep(s, pid, cs, n, sh, Booting(stderr, ttl, SCommit(now)), r.0, r.1);
  }

  /** From every reachable state of a claimed instance with an open token and the row
      free, a boot running alone while the database answers retires that token. */
  lemma BootAloneRetires(t0: Time, schedule: seq<Action>, pid: Pid, stderr: bool, ttl: int, cs: seq<Choice>)
    requires var s := Run(t0, schedule);
             pid !in s.procs && s.sh.db.users != [] && s.sh.rowLock.None? && OpenRow(s.sh)
    requires |cs| == 4 && forall i :: 0 <= i < 4 ==> cs[i].ok
    ensures var sh := Run(t0, schedule).sh;
            var x := Alone(Apply(Run(t0, schedule), NewBoot(pid, stderr, ttl)), pid, cs);
            && pid in x.procs && x.procs[pid] == Booting(stderr, ttl, BDone(true))
            && x.sh.db.token == Some(sh.db.token.value.(supersededAt := Some(sh.clock)))
            && x.sh.db.audit == sh.db.audit + [Superseded(sh.db.token.value.generation)]
  {
    var s := Apply(Run(t0, schedule), NewBoot(pid, stderr, ttl));
    assert cs[..0] == [] && cs[..4] == cs;
    BootFindsUsers(s, pid, cs, 0, s.sh, stderr, ttl);
    BootBegins(s, pid, cs, 1, s.sh, stderr, ttl);
    BootTakesRow(s, pid, cs, 2, s.sh, stderr, ttl, s.sh.clock);
    BootCommits(s, pid, cs, 3, s.sh.(rowLock := Some(pid)), stderr, ttl, s.sh.clock);
  }
}
