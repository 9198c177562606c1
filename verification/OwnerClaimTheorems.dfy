/** The promises of the owner claim, stated over whole schedules. */
module OwnerClaimTheorems {
  import opened Wrappers
  import opened OwnerClaim
  import opened OwnerClaimSafety

  // ---------------------------------------------------------- one owner, once

  /** However claims, mints, boots, crashes and other sign-ups interleave there
      is at most one owner, with exactly one credential and one `succeeded` row,
      both naming it. No unique index over owners is modelled. */
  lemma AtMostOneOwner(t0: Time, schedule: seq<Action>)
    ensures var db := Run(t0, schedule).sh.db;
            && |Owners(db.users)| <= 1
            && |db.credentials| == |Successes(db.audit)| == |Owners(db.users)|
            && (|Owners(db.users)| == 1 ==>
                  && db.credentials[0].userId == Owners(db.users)[0].id
                  && Successes(db.audit)[0] == Succeeded(Owners(db.users)[0].id, Owners(db.users)[0].username))
  {
    RunShared(t0, schedule);
  }

  /** At most one request is ever answered 201, and its own name and password
      verifier are what was stored. */
  lemma OnlyOneCreated(t0: Time, schedule: seq<Action>, pid: Pid, other: Pid)
    requires var s := Run(t0, schedule);
             && pid in s.procs && other in s.procs
             && s.procs[pid].Request? && s.procs[pid].req.pc == Answered(Created)
             && s.procs[other].Request? && s.procs[other].req.pc == Answered(Created)
    ensures pid == other
    ensures var s := Run(t0, schedule); var q := s.procs[pid].req;
            && s.sh.redeemed.Some?
            && Owners(s.sh.db.users) == [User(s.sh.redeemed.value.userId, q.input.username, Owner)]
            && s.sh.db.credentials == [Credential(s.sh.redeemed.value.userId, q.secret)]
  {
    RunShared(t0, schedule);
    RunProc(t0, schedule, pid);
    RunProc(t0, schedule, other);
  }

  lemma OwnerImpliesRedemption(sh: Shared)
    requires OwnerOk(sh) && Owners(sh.db.users) != []
    ensures sh.redeemed.Some? && RedeemedMint(sh, sh.redeemed.value)
    ensures Owners(sh.db.users)[0].username == sh.redeemed.value.input.username
  {
  }

  /** The owner exists only because somebody presented the digest of a minted
      generation that had not expired when the redeeming transaction began. */
  lemma OwnerRedeemedAMintedToken(t0: Time, schedule: seq<Action>)
    requires Owners(Run(t0, schedule).sh.db.users) != []
    ensures var sh := Run(t0, schedule).sh;
            && sh.redeemed.Some? && RedeemedMint(sh, sh.redeemed.value)
            && Owners(sh.db.users)[0].username == sh.redeemed.value.input.username
  {
    RunShared(t0, schedule);
    OwnerImpliesRedemption(Run(t0, schedule).sh);
  }

  /** A password is hashed only for a request whose token digest is one that a
      mint really stored. */
  lemma HashNeedsAMintedToken(t0: Time, schedule: seq<Action>, pid: Pid)
    requires var s := Run(t0, schedule); pid in s.procs && s.procs[pid].Request? && s.procs[pid].req.hashed
    ensures var s := Run(t0, schedule); Published(s.sh, s.procs[pid].req.input.digest)
  {
    RunProc(t0, schedule, pid);
  }

  // ------------------------------------------------------- prefixes of a schedule

  lemma ApplyGrows(s: State, a: Action)
    requires Inv(s)
    ensures Grows(s.sh, Apply(s, a).sh)
  {
    if a.Go? && a.pid in s.procs {
      AdvanceKeeps(s.sh, a.pid, s.procs[a.pid], a.c);
      BitGrows(s.sh, a.pid, s.procs[a.pid], a.c);
    }
  }

  lemma BitGrows(sh: Shared, pid: Pid, p: Proc, c: Choice)
    ensures sh.claimedBit <= Advance(sh, pid, p, c).0.claimedBit
  {
  }

  lemma RunStep(t0: Time, schedule: seq<Action>, k: nat)
    requires k < |schedule|
    ensures Run(t0, schedule[..k + 1]) == Apply(Run(t0, schedule[..k]), schedule[k])
  {
    assert schedule[..k + 1][..k] == schedule[..k];
  }

  predicate Grows(sh: Shared, sh': Shared) {
    && sh.db.users <= sh'.db.users
    && sh.clock <= sh'.clock
    && sh.claimedBit <= sh'.claimedBit
    && (SameMint(sh, sh') || (sh'.db.token.Some? && |sh'.minted| == |sh.minted| + 1))
  }

  lemma RunGrows(t0: Time, schedule: seq<Action>, k: nat)
    requires k < |schedule|
    ensures Grows(Run(t0, schedule[..k]).sh, Run(t0, schedule[..k + 1]).sh)
  {
    RunStep(t0, schedule, k);
    RunKeeps(t0, schedule[..k]);
    ApplyGrows(Run(t0, schedule[..k]), schedule[k]);
  }

  lemma {:induction false} UsersMonotone(t0: Time, schedule: seq<Action>, j: nat, k: nat)
    requires j <= k <= |schedule|
    ensures Run(t0, schedule[..j]).sh.db.users <= Run(t0, schedule[..k]).sh.db.users
    ensures Run(t0, schedule[..j]).sh.claimedBit <= Run(t0, schedule[..k]).sh.claimedBit
    decreases k
  {
    if j < k {
      UsersMonotone(t0, schedule, j, k - 1);
      RunGrows(t0, schedule, k - 1);
    }
  }

  // ------------------------------------------- what "token not accepted" means

  /** The request has been told "token not accepted", or charged for it. */
  predicate TurnedAway(s: State, pid: Pid) {
    && pid in s.procs && s.procs[pid].Request?
    && (s.procs[pid].req.charged || s.procs[pid].req.pc == Returned(TokenNotAccepted))
  }

  lemma TurnedAwayByClassify(s: State, a: Action, pid: Pid)
    requires !TurnedAway(s, pid) && TurnedAway(Apply(s, a), pid)
    ensures a.Go? && a.pid == pid && pid in s.procs && s.procs[pid].Request?
    ensures s.procs[pid].req.pc == AtClassify && s.sh.db.users == []
  {
    if a.Go? && a.pid == pid && pid in s.procs && s.procs[pid].Request? {
      var q := s.procs[pid].req;
      var r := RequestStep(s.sh, pid, q, a.c);
      assert r.1.charged ==> q.pc == Returned(TokenNotAccepted) || q.charged;
    }
  }

  /** 403, its audit row and its charge happen only after a read, made once the
      token had been examined for the last time, that found no user; and no user
      had existed at any earlier instant either. */
  lemma {:induction false} RefusedOnlyWhileUnclaimed(t0: Time, schedule: seq<Action>, pid: Pid) returns (k: nat)
    requires TurnedAway(Run(t0, schedule), pid)
    ensures k < |schedule|
    ensures var s := Run(t0, schedule[..k]);
            pid in s.procs && s.procs[pid].Request? && s.procs[pid].req.pc == AtClassify
    ensures TurnedAway(Run(t0, schedule[..k + 1]), pid)
    ensures forall j :: 0 <= j <= k ==> Run(t0, schedule[..j]).sh.db.users == []
  {
    var n := |schedule|;
    assert schedule != [];
    var before := schedule[..n - 1];
    if TurnedAway(Run(t0, before), pid) {
      k := RefusedOnlyWhileUnclaimed(t0, before, pid);
      assert before[..k] == schedule[..k] && before[..k + 1] == schedule[..k + 1];
      forall j | 0 <= j <= k ensures Run(t0, schedule[..j]).sh.db.users == [] {
        assert before[..j] == schedule[..j];
      }
    } else {
      k := n - 1;
      assert schedule[..k + 1] == schedule;
      TurnedAwayByClassify(Run(t0, before), schedule[k], pid);
      forall j | 0 <= j <= k ensures Run(t0, schedule[..j]).sh.db.users == [] {
        UsersMonotone(t0, schedule, j, k);
      }
    }
  }

  // ------------------------------------------------- starting on a claimed instance

  predicate BeganClaimed(s: State, pid: Pid) {
    pid in s.procs && (s.procs[pid].Request? ==> s.procs[pid].req.startedClaimed)
    && !s.procs[pid].Minting? && !s.procs[pid].Booting?
  }

  lemma BeganClaimedStays(s: State, a: Action, pid: Pid)
    requires BeganClaimed(s, pid)
    ensures BeganClaimed(Apply(s, a), pid)
  {
  }

  lemma {:induction false} BeganClaimedPersists(t0: Time, schedule: seq<Action>, k: nat, n: nat, pid: Pid)
    requires k <= n <= |schedule| && BeganClaimed(Run(t0, schedule[..k]), pid)
    ensures BeganClaimed(Run(t0, schedule[..n]), pid)
    decreases n
  {
    if k < n {
      BeganClaimedPersists(t0, schedule, k, n - 1, pid);
      RunStep(t0, schedule, n - 1);
      BeganClaimedStays(Run(t0, schedule[..n - 1]), schedule[n - 1], pid);
    }
  }

  /** A request that enters the handler when a user exists is never hashed for,
      never charged, and never told anything but 409, 503, the route's own 429 or a
      refusal of the request's own form. */
  lemma ClaimedInstanceNeverExaminesTokens(t0: Time, schedule: seq<Action>, k: nat)
    requires k < |schedule| && schedule[k].NewRequest?
    requires var s := Run(t0, schedule[..k]); schedule[k].pid !in s.procs && s.sh.db.users != []
    ensures var p := Run(t0, schedule).procs; var pid := schedule[k].pid;
            pid in p && (p[pid].Request? ==> Harmless(p[pid].req))
  {
    RunStep(t0, schedule, k);
    BeganClaimedPersists(t0, schedule, k + 1, |schedule|, schedule[k].pid);
    assert schedule[..|schedule|] == schedule;
    RunProc(t0, schedule, schedule[k].pid);
  }

  /** The cached positive bit is never wrong, on any replica, and never unset. */
  lemma ClaimedBitIsSound(t0: Time, schedule: seq<Action>, k: nat, r: Replica)
    requires k <= |schedule| && r in Run(t0, schedule[..k]).sh.claimedBit
    ensures r in Run(t0, schedule).sh.claimedBit && Run(t0, schedule).sh.db.users != []
  {
    UsersMonotone(t0, schedule, k, |schedule|);
    assert schedule[..|schedule|] == schedule;
    RunShared(t0, schedule);
  }

  // -------------------------------------------------------------- generations

  /** The stored generation is the number of `minted` rows, and those rows are
      numbered 1, 2, 3 and so on without a gap. */
  lemma GenerationCountsMints(t0: Time, schedule: seq<Action>)
    ensures var db := Run(t0, schedule).sh.db; var g := Generations(db.audit);
            && (db.token.Some? ==> db.token.value.generation == |g|)
            && (db.token.None? ==> g == [])
            && forall i :: 0 <= i < |g| ==> g[i] == i + 1
  {
    RunShared(t0, schedule);
  }

  /** A boot's mint never replaces a token that is live by the database clock. */
  lemma BootMintSparesLiveToken(t0: Time, schedule: seq<Action>, pid: Pid, c: Choice)
    requires var s := Run(t0, schedule);
             pid in s.procs && s.procs[pid].Minting? && s.procs[pid].mint.fromBoot
             && Apply(s, Go(pid, c)).sh.minted != s.sh.minted
    ensures NoLiveToken(Run(t0, schedule).sh)
  {
    RunProc(t0, schedule, pid);
  }

  /** Only a mint can make the row live: a generation once dead stays dead. */
  lemma {:induction false} OnlyAMintRevives(t0: Time, schedule: seq<Action>, j: nat, k: nat)
    requires j <= k <= |schedule|
    requires var a, b := Run(t0, schedule[..j]).sh, Run(t0, schedule[..k]).sh;
             a.db.token.Some? && !Live(a.db.token.value, a.clock) && |a.minted| == |b.minted|
    ensures var b := Run(t0, schedule[..k]).sh; b.db.token.Some? && !Live(b.db.token.value, b.clock)
    decreases k
  {
    if j < k {
      MintedGrows(t0, schedule, j, k - 1);
      RunGrows(t0, schedule, k - 1);
      OnlyAMintRevives(t0, schedule, j, k - 1);
    }
  }

  lemma {:induction false} MintedGrows(t0: Time, schedule: seq<Action>, j: nat, k: nat)
    requires j <= k <= |schedule|
    ensures |Run(t0, schedule[..j]).sh.minted| <= |Run(t0, schedule[..k]).sh.minted|
    decreases k
  {
    if j < k {
      MintedGrows(t0, schedule, j, k - 1);
      RunGrows(t0, schedule, k - 1);
    }
  }

  // ------------------------------------------------------- the leftover token

  /** A token can be live beside an owner: a mint whose statement had read the users
      table before the claim committed waits for the row and then replaces it. */
  lemma LiveTokenCanOutliveTheClaim() returns (schedule: seq<Action>)
    ensures var sh := Run(0, schedule).sh;
            && Owners(sh.db.users) != []
            && sh.db.token.Some? && Live(sh.db.token.value, sh.clock)
  {
    var s;
    s, schedule := FirstMint();
    s, schedule := ClaimUpToCommit(s, schedule);
    s, schedule := MintUpToWrite(s, schedule);
    s, schedule := GoOn(s, schedule, 1, Yes(0));       // the claim commits
    s, schedule := GoOn(s, schedule, 2, Yes(0));       // the mint gets the row
    AppendUser([], User(7, "ada", Owner));
    s, schedule := GoOn(s, schedule, 2, Yes(0));       // and commits
  }

  function Yes(d: Digest): Choice { Choice(true, false, d, 7, "verifier", false, false, false, false) }

  lemma Extend(schedule: seq<Action>, a: Action)
    ensures Run(0, schedule + [a]) == Apply(Run(0, schedule), a)
  {
    assert (schedule + [a])[..|schedule|] == schedule;
  }

  lemma GoOn(s: State, schedule: seq<Action>, pid: Pid, c: Choice) returns (s': State, schedule': seq<Action>)
    requires Run(0, schedule) == s && pid in s.procs
    ensures Run(0, schedule') == s'
    ensures var r := Advance(s.sh, pid, s.procs[pid], c); s' == State(r.0, s.procs[pid := r.1])
  {
    Extend(schedule, Go(pid, c));
    schedule' := schedule + [Go(pid, c)];
    s' := Apply(s, Go(pid, c));
  }

  function AfterFirstMint(): Shared {
    Shared(Db([], [], Some(TokenRow(1, 1, 100, None, None)), [Minted(1)]), 0, None, None, {}, [MintRecord(1, 100)],
           None)
  }

  lemma FirstMint() returns (s: State, schedule: seq<Action>)
    ensures Run(0, schedule) == s && s.sh == AfterFirstMint() && s.procs.Keys == {0}
  {
    s, schedule := FirstMintUpToStatement();
    s, schedule := GoOn(s, schedule, 0, Yes(1));
    s, schedule := GoOn(s, schedule, 0, Yes(1));
    s, schedule := GoOn(s, schedule, 0, Yes(1));
    assert s.sh.db.audit == [Minted(1)];
  }

  lemma FirstMintUpToStatement() returns (s: State, schedule: seq<Action>)
    ensures Run(0, schedule) == s && s.sh == Init(0).sh.(mintLock := Some(0))
    ensures s.procs == map[0 := Minting(Mint(100, true, false, false, MStatement(0, None)))]
  {
    Extend([], NewMint(0, 100, true, false));
    schedule := [] + [NewMint(0, 100, true, false)];
    s := Run(0, schedule);
    assert s == State(Init(0).sh, map[0 := Minting(Mint(100, true, false, false, MBegin))]);
    s, schedule := GoOn(s, schedule, 0, Yes(1));
    s, schedule := GoOn(s, schedule, 0, Yes(1));
    s, schedule := GoOn(s, schedule, 0, Yes(1));
    s, schedule := GoOn(s, schedule, 0, Yes(1));
  }

  lemma ClaimUpToCommit(s: State, schedule: seq<Action>) returns (s': State, schedule': seq<Action>)
    requires Run(0, schedule) == s && s.sh == AfterFirstMint() && 1 !in s.procs
    ensures Run(0, schedule') == s' && s'.procs.Keys == s.procs.Keys + {1}
    ensures s'.sh == AfterFirstMint().(rowLock := Some(1))
    ensures s'.procs[1] == Request(Req(Input(WellFormed, 1, "ada"), 0, false, true, false, 7, "verifier",
                                       AtCommit(TokenRow(1, 1, 100, None, None), 0)))
  {
    s', schedule' := ClaimUpToRedeem(s, schedule);
    s', schedule' := GoOn(s', schedule', 1, Yes(0));
    s', schedule' := GoOn(s', schedule', 1, Yes(0));
  }

  lemma ClaimUpToRedeem(s: State, schedule: seq<Action>) returns (s': State, schedule': seq<Action>)
    requires Run(0, schedule) == s && s.sh == AfterFirstMint() && 1 !in s.procs
    ensures Run(0, schedule') == s' && s'.procs.Keys == s.procs.Keys + {1}
    ensures s'.sh == AfterFirstMint()
    ensures s'.procs[1] == Request(Req(Input(WellFormed, 1, "ada"), 0, false, true, false, 7, "verifier",
                                       AtRedeem(TokenRow(1, 1, 100, None, None), 0)))
  {
    s', schedule' := ClaimUpToBegin(s, schedule);
    s', schedule' := GoOn(s', schedule', 1, Yes(0));
    s', schedule' := GoOn(s', schedule', 1, Yes(0));
  }

  lemma ClaimUpToBegin(s: State, schedule: seq<Action>) returns (s': State, schedule': seq<Action>)
    requires Run(0, schedule) == s && s.sh == AfterFirstMint() && 1 !in s.procs
    ensures Run(0, schedule') == s' && s'.procs.Keys == s.procs.Keys + {1}
    ensures s'.sh == AfterFirstMint()
    ensures s'.procs[1] == Request(Req(Input(WellFormed, 1, "ada"), 0, false, true, false, 7, "verifier",
                                       AtBegin(TokenRow(1, 1, 100, None, None))))
  {
    var start := NewRequest(1, Input(WellFormed, 1, "ada"), 0);
    Extend(schedule, start);
    schedule' := schedule + [start];
    s' := Run(0, schedule');
    s', schedule' := GoOn(s', schedule', 1, Yes(0));
    s', schedule' := GoOn(s', schedule', 1, Yes(0));
    s', schedule' := GoOn(s', schedule', 1, Yes(0));
    s', schedule' := GoOn(s', schedule', 1, Yes(0));
  }

  lemma MintUpToWrite(s: State, schedule: seq<Action>) returns (s': State, schedule': seq<Action>)
    requires Run(0, schedule) == s && s.sh == AfterFirstMint().(rowLock := Some(1)) && 2 !in s.procs && 1 in s.procs
    ensures Run(0, schedule') == s' && 1 in s'.procs && s'.procs[1] == s.procs[1]
    ensures s'.sh == AfterFirstMint().(rowLock := Some(1), mintLock := Some(2))
    ensures 2 in s'.procs && s'.procs[2] == Minting(Mint(100, true, false, false, MWrite(0, Some(1), 2)))
  {
    s', schedule' := MintUpToUsers(s, schedule);
    s', schedule' := GoOn(s', schedule', 2, Yes(2));
    s', schedule' := GoOn(s', schedule', 2, Yes(2));
    s', schedule' := GoOn(s', schedule', 2, Yes(2));
  }

  lemma MintUpToUsers(s: State, schedule: seq<Action>) returns (s': State, schedule': seq<Action>)
    requires Run(0, schedule) == s && s.sh == AfterFirstMint().(rowLock := Some(1)) && 2 !in s.procs && 1 in s.procs
    ensures Run(0, schedule') == s' && 1 in s'.procs && s'.procs[1] == s.procs[1]
    ensures s'.sh == AfterFirstMint().(rowLock := Some(1), mintLock := Some(2))
    ensures 2 in s'.procs && s'.procs[2] == Minting(Mint(100, true, false, false, MUsers(0)))
  {
    Extend(schedule, NewMint(2, 100, true, false));
    schedule' := schedule + [NewMint(2, 100, true, false)];
    s' := Run(0, schedule');
    s', schedule' := GoOn(s', schedule', 2, Yes(2));
    s', schedule' := GoOn(s', schedule', 2, Yes(2));
  }
}
