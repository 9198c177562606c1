/** The token row a claim can leave behind: a mint whose statement had read the users
    table before the claim committed replaces the redeemed row afterwards. */
module OwnerClaimLeftover {
  import opened Wrappers
  import opened OwnerClaim
  import opened OwnerClaimSafety

  /** A mint past its statement's snapshot, which showed no user, that has yet to
      commit. */
  predicate Pending(p: Proc) { p.Minting? && (p.mint.pc.MWrite? || p.mint.pc.MCommit?) }

  /** What a pending mint is about to store. */
  function Stores(p: Proc): MintRecord
    requires Pending(p)
  {
    MintRecord(p.mint.pc.digest, p.mint.pc.now + p.mint.ttl)
  }

  predicate Unconsumed(sh: Shared) { sh.db.token.Some? && sh.db.token.value.consumedAt.None? }

  predicate HasLive(sh: Shared) { sh.db.token.Some? && Live(sh.db.token.value, sh.clock) }

  // ------------------------------------------------------------------- single steps

  /** What a call may do to the mint history and to the redemption. */
  predicate Late(sh: Shared, p: Proc, sh': Shared, p': Proc) {
    && (Pending(p') ==> sh'.minted == sh.minted && (sh.redeemed.None? || (Pending(p) && Stores(p') == Stores(p))))
    && (sh'.minted != sh.minted ==>
          Pending(p) && sh'.minted == sh.minted + [Stores(p)] && sh'.redeemed == sh.redeemed)
    && (sh'.redeemed == sh.redeemed
        || (sh.redeemed.None? && sh'.redeemed.Some? && sh'.minted == sh.minted
            && sh'.redeemed.value.generation == |sh.minted|))
  }

  lemma RequestIsLate(sh: Shared, pid: Pid, q: Req, c: Choice)
    requires SharedOk(sh) && ReqOk(sh, pid, q)
    ensures var r := RequestStep(sh, pid, q, c); Late(sh, Request(q), r.0, Request(r.1))
  {
    if !q.pc.AtCommit? && !q.pc.Returned? { QuietRequest(sh, pid, q, c); }
  }

  lemma MintIsLate(sh: Shared, pid: Pid, m: Mint, c: Choice)
    requires sh.redeemed.Some? ==> sh.db.users != []
    ensures var r := MintStep(sh, pid, m, c); Late(sh, Minting(m), r.0, Minting(r.1))
  {
  }

  lemma BootIsLate(sh: Shared, pid: Pid, stderr: bool, ttl: int, b: BootPc, c: Choice)
    ensures var r := BootStep(sh, pid, stderr, ttl, b, c); Late(sh, Booting(stderr, ttl, b), r.0, r.1)
  {
  }

  lemma AdvanceIsLate(sh: Shared, pid: Pid, p: Proc, c: Choice)
    requires SharedOk(sh) && ProcOk(sh, pid, p)
    ensures var r := Advance(sh, pid, p, c); Late(sh, p, r.0, r.1)
  {
    match p
    case Request(q) => RequestIsLate(sh, pid, q, c);
    case Minting(m) => MintIsLate(sh, pid, m, c);
    case Booting(stderr, ttl, b) => BootIsLate(sh, pid, stderr, ttl, b, c);
    case Crashed =>
  }

  /** The mint lock admits one pending mint at a time. */
  lemma OnePending(s: State, pid: Pid, other: Pid)
    requires Inv(s) && pid in s.procs && other in s.procs && Pending(s.procs[pid]) && Pending(s.procs[other])
    ensures pid == other
  {
    assert ProcOk(s.sh, pid, s.procs[pid]) && ProcOk(s.sh, other, s.procs[other]);
  }

  // -------------------------------------------------------------- one late mint at most

  /** After a redemption at most one mint lands, and none is pending once it has. */
  predicate AtMostOneLate(s: State) {
    s.sh.redeemed.Some? ==>
      var g := s.sh.redeemed.value.generation;
      && g <= |s.sh.minted| <= g + 1
      && forall pid :: pid in s.procs && Pending(s.procs[pid]) ==> |s.sh.minted| == g
  }

  lemma GoKeepsLate(s: State, pid: Pid, c: Choice)
    requires Inv(s) && AtMostOneLate(s) && pid in s.procs
    ensures AtMostOneLate(Apply(s, Go(pid, c)))
  {
    var p, s' := s.procs[pid], Apply(s, Go(pid, c));
    AdvanceIsLate(s.sh, pid, p, c);
    assert Late(s.sh, p, s'.sh, s'.procs[pid]);
    if s'.sh.redeemed.Some? {
      forall other | other in s'.procs && Pending(s'.procs[other])
        ensures |s'.sh.minted| == s'.sh.redeemed.value.generation
      {
        if other != pid && s'.sh.minted != s.sh.minted { OnePending(s, pid, other); }
      }
    }
  }

  lemma ApplyKeepsLate(s: State, a: Action)
    requires Inv(s) && AtMostOneLate(s)
    ensures AtMostOneLate(Apply(s, a))
  {
    if a.Go? && a.pid in s.procs { GoKeepsLate(s, a.pid, a.c); }
  }

  lemma {:induction false} RunKeepsLate(t0: Time, schedule: seq<Action>)
    ensures AtMostOneLate(Run(t0, schedule))
  {
    if schedule != [] {
      var before := schedule[..|schedule| - 1];
      RunKeeps(t0, before);
      RunKeepsLate(t0, before);
      ApplyKeepsLate(Run(t0, before), schedule[|schedule| - 1]);
    }
  }

  /** In every interleaving at most one mint lands after the redemption, and the row
      is unconsumed exactly when one has. */
  lemma AtMostOneLateMint(t0: Time, schedule: seq<Action>)
    requires Run(t0, schedule).sh.redeemed.Some?
    ensures var sh := Run(t0, schedule).sh; var g := sh.redeemed.value.generation;
            g <= |sh.minted| <= g + 1 && (Unconsumed(sh) <==> |sh.minted| == g + 1)
  {
    RunKeepsLate(t0, schedule);
    RunShared(t0, schedule);
  }

  // ------------------------------------------------------------- what can still happen

  /** s has a redemption whose row is still in place. */
  predicate Redeemed(s: State) {
    Inv(s) && s.sh.redeemed.Some? && s.sh.redeemed.value.generation == |s.sh.minted|
  }

  /** x is s, with some of its pending mints gone and at most one of them landed. */
  ghost predicate Follows(s: State, x: State) {
    && x.sh.redeemed == s.sh.redeemed && s.sh.clock <= x.sh.clock
    && (forall pid :: pid in x.procs && Pending(x.procs[pid]) ==>
          pid in s.procs && Pending(s.procs[pid]) && Stores(x.procs[pid]) == Stores(s.procs[pid]))
    && (x.sh.minted == s.sh.minted
        || exists pid :: pid in s.procs && Pending(s.procs[pid]) && x.sh.minted == s.sh.minted + [Stores(s.procs[pid])])
  }

  lemma GoFollows(s: State, x: State, pid: Pid, c: Choice)
    requires Redeemed(s) && Inv(x) && AtMostOneLate(x) && Follows(s, x) && pid in x.procs
    ensures Follows(s, Apply(x, Go(pid, c)))
  {
    var p, x' := x.procs[pid], Apply(x, Go(pid, c));
    AdvanceKeeps(x.sh, pid, p, c);
    AdvanceIsLate(x.sh, pid, p, c);
    assert Late(x.sh, p, x'.sh, x'.procs[pid]);
    if x'.sh.minted != x.sh.minted {
      assert |x.sh.minted| == |s.sh.minted|;
      assert Pending(s.procs[pid]) && x'.sh.minted == s.sh.minted + [Stores(s.procs[pid])];
    }
  }

  lemma ApplyFollows(s: State, x: State, a: Action)
    requires Redeemed(s) && Inv(x) && AtMostOneLate(x) && Follows(s, x)
    ensures Follows(s, Apply(x, a))
  {
    if a.Go? && a.pid in x.procs { GoFollows(s, x, a.pid, a.c); } else { RestFollows(s, x, a); }
  }

  lemma RestFollows(s: State, x: State, a: Action)
    requires Follows(s, x) && (a.Go? ==> a.pid !in x.procs)
    ensures Follows(s, Apply(x, a))
  {
  }

  lemma Extended(t0: Time, schedule: seq<Action>, more: seq<Action>)
    requires more != []
    ensures var n := |more| - 1;
            Run(t0, schedule + more) == Apply(Run(t0, schedule + more[..n]), more[n])
  {
    var n := |more| - 1;
    assert (schedule + more)[..|schedule + more| - 1] == schedule + more[..n];
  }

  lemma {:induction false} RunFollows(t0: Time, schedule: seq<Action>, more: seq<Action>)
    requires Redeemed(Run(t0, schedule))
    ensures Follows(Run(t0, schedule), Run(t0, schedule + more))
    decreases |more|
  {
    if more == [] {
      assert schedule + more == schedule;
    } else {
      var before := schedule + more[..|more| - 1];
      RunFollows(t0, schedule, more[..|more| - 1]);
      RunKeeps(t0, before);
      RunKeepsLate(t0, before);
      Extended(t0, schedule, more);
      ApplyFollows(Run(t0, schedule), Run(t0, before), more[|more| - 1]);
    }
  }

  /** A row that is not the redeemed one was stored by a mint pending in s. */
  lemma LeftoverWasPending(s: State, x: State) returns (pid: Pid)
    requires Redeemed(s) && Inv(x) && Follows(s, x) && Unconsumed(x.sh)
    ensures pid in s.procs && Pending(s.procs[pid])
    ensures x.sh.db.token.value.expiresAt == Stores(s.procs[pid]).expiresAt
  {
    assert x.sh.minted != s.sh.minted;
    pid :| pid in s.procs && Pending(s.procs[pid]) && x.sh.minted == s.sh.minted + [Stores(s.procs[pid])];
  }

  // ---------------------------------------------------------------- a pending mint lands

  const AllGoesWell: Choice := Choice(true, false, 0, 0, "", false, false, false, false)

  /** After a redemption nobody but the pending mint can hold the row. */
  lemma RowIsFree(s: State, pid: Pid)
    requires Redeemed(s) && pid in s.procs && Pending(s.procs[pid])
    ensures s.sh.rowLock == if s.procs[pid].mint.pc.MCommit? then Some(pid) else None
  {
    assert ProcOk(s.sh, pid, s.procs[pid]);
    if s.sh.rowLock.Some? {
      var holder := s.sh.rowLock.value;
      assert ProcOk(s.sh, holder, s.procs[holder]);
      if Pending(s.procs[holder]) { OnePending(s, pid, holder); }
    }
  }

  lemma CommitLands(s: State, pid: Pid)
    requires Redeemed(s) && pid in s.procs && Pending(s.procs[pid]) && s.procs[pid].mint.pc.MCommit?
    ensures var sh := Apply(s, Go(pid, AllGoesWell)).sh;
            Unconsumed(sh) && (Stores(s.procs[pid]).expiresAt > s.sh.clock ==> HasLive(sh))
  {
  }

  lemma WriteGoesOn(s: State, pid: Pid)
    requires Redeemed(s) && pid in s.procs && Pending(s.procs[pid]) && s.procs[pid].mint.pc.MWrite?
    ensures var s' := Apply(s, Go(pid, AllGoesWell));
            && Redeemed(s') && s'.sh.clock == s.sh.clock && pid in s'.procs && Pending(s'.procs[pid])
            && s'.procs[pid].mint.pc.MCommit? && Stores(s'.procs[pid]) == Stores(s.procs[pid])
  {
    RowIsFree(s, pid);
    GoKeeps(s, pid, AllGoesWell);
  }

  /** One or two steps of the mint and no other action. */
  function Landing(s: State, pid: Pid): seq<Action>
    requires pid in s.procs && Pending(s.procs[pid])
  {
    if s.procs[pid].mint.pc.MCommit? then [Go(pid, AllGoesWell)] else [Go(pid, AllGoesWell), Go(pid, AllGoesWell)]
  }

  lemma LandingLands(t0: Time, schedule: seq<Action>, pid: Pid)
    requires var s := Run(t0, schedule); Redeemed(s) && pid in s.procs && Pending(s.procs[pid])
    ensures var s := Run(t0, schedule);
            var sh := Run(t0, schedule + Landing(s, pid)).sh;
            Unconsumed(sh) && (Stores(s.procs[pid]).expiresAt > s.sh.clock ==> HasLive(sh))
  {
    var s, a := Run(t0, schedule), Go(pid, AllGoesWell);
    assert (schedule + [a])[..|schedule|] == schedule;
    if s.procs[pid].mint.pc.MCommit? {
      CommitLands(s, pid);
    } else {
      WriteGoesOn(s, pid);
      CommitLands(Apply(s, a), pid);
      assert (schedule + [a, a])[..|schedule| + 1] == schedule + [a];
    }
  }

  // -------------------------------------------------------------------------- the iff

  ghost predicate CanLeaveARow(t0: Time, schedule: seq<Action>) {
    exists more :: Unconsumed(Run(t0, schedule + more).sh)
  }

  ghost predicate CanLeaveALiveRow(t0: Time, schedule: seq<Action>) {
    exists more :: HasLive(Run(t0, schedule + more).sh)
  }

  /** From any reachable state with a redemption whose row is still in place: some
      continuation leaves an unconsumed row exactly when a mint has passed its users
      read and not yet committed, and some continuation leaves a live row exactly
      when such a mint's expiry is still to come. */
  lemma LeftoverIffMintPending(t0: Time, schedule: seq<Action>)
    requires var sh := Run(t0, schedule).sh;
             sh.redeemed.Some? && sh.db.token.Some? && sh.db.token.value.consumedAt.Some?
    ensures var s := Run(t0, schedule);
            && (CanLeaveARow(t0, schedule) <==> exists pid :: pid in s.procs && Pending(s.procs[pid]))
            && (CanLeaveALiveRow(t0, schedule) <==>
                  exists pid :: pid in s.procs && Pending(s.procs[pid]) && Stores(s.procs[pid]).expiresAt > s.sh.clock)
  {
    var s := Run(t0, schedule);
    RunKeeps(t0, schedule);
    assert Redeemed(s);
    forall pid | pid in s.procs && Pending(s.procs[pid])
      ensures CanLeaveARow(t0, schedule)
      ensures Stores(s.procs[pid]).expiresAt > s.sh.clock ==> CanLeaveALiveRow(t0, schedule)
    {
      LandingLands(t0, schedule, pid);
    }
    if CanLeaveARow(t0, schedule) {
      var more :| Unconsumed(Run(t0, schedule + more).sh);
      var pid := LeftBy(t0, schedule, more);
    }
    if CanLeaveALiveRow(t0, schedule) {
      var more :| HasLive(Run(t0, schedule + more).sh);
      var pid := LeftBy(t0, schedule, more);
    }
  }

  lemma LeftBy(t0: Time, schedule: seq<Action>, more: seq<Action>) returns (pid: Pid)
    requires Redeemed(Run(t0, schedule)) && Unconsumed(Run(t0, schedule + more).sh)
    ensures var s, x := Run(t0, schedule), Run(t0, schedule + more);
            && pid in s.procs && Pending(s.procs[pid]) && s.sh.clock <= x.sh.clock
            && x.sh.db.token.value.expiresAt == Stores(s.procs[pid]).expiresAt
  {
    RunFollows(t0, schedule, more);
    RunKeeps(t0, schedule + more);
    pid := LeftoverWasPending(Run(t0, schedule), Run(t0, schedule + more));
  }
}
