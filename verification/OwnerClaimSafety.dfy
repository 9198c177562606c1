/** What every schedule of the owner claim keeps.

    The proof is rely/guarantee: each call has its own invariant over the shared
    state (`ProcOk`), each step promises `Guarantee`, and one lemma shows that a
    promise kept by one call preserves the invariant of every other. */
module OwnerClaimSafety {
  import opened Wrappers
  import opened OwnerClaim

  // ------------------------------------------------------- projections of logs

  function Owners(users: seq<User>): seq<User> {
    if users == [] then []
    else Owners(users[..|users| - 1]) + (if users[|users| - 1].role.Owner? then [users[|users| - 1]] else [])
  }

  function Generations(audit: seq<AuditRow>): seq<nat> {
    if audit == [] then []
    else Generations(audit[..|audit| - 1])
         + (if audit[|audit| - 1].Minted? then [audit[|audit| - 1].generation] else [])
  }

  function Successes(audit: seq<AuditRow>): seq<AuditRow> {
    if audit == [] then []
    else Successes(audit[..|audit| - 1]) + (if audit[|audit| - 1].Succeeded? then [audit[|audit| - 1]] else [])
  }

  lemma AppendUser(users: seq<User>, u: User)
    ensures Owners(users + [u]) == Owners(users) + (if u.role.Owner? then [u] else [])
  {
    assert (users + [u])[..|users|] == users;
  }

  lemma AppendAudit(audit: seq<AuditRow>, r: AuditRow)
    ensures Generations(audit + [r]) == Generations(audit) + (if r.Minted? then [r.generation] else [])
    ensures Successes(audit + [r]) == Successes(audit) + (if r.Succeeded? then [r] else [])
  {
    assert (audit + [r])[..|audit|] == audit;
  }

  // ------------------------------------------------------------ the invariants

  predicate TokenOk(sh: Shared) {
    match sh.db.token
    case None => sh.minted == []
    case Some(row) =>
      && row.generation == |sh.minted| > 0
      && sh.minted[row.generation - 1] == MintRecord(row.digest, row.expiresAt)
      && (row.consumedAt.None? || row.supersededAt.None?)
  }

  predicate DigestsDistinct(minted: seq<MintRecord>) {
    forall i, j :: 0 <= i < j < |minted| ==> minted[i].digest != minted[j].digest
  }

  predicate MintLogOk(sh: Shared) {
    var g := Generations(sh.db.audit);
    |g| == |sh.minted| && forall i :: 0 <= i < |g| ==> g[i] == i + 1
  }

  /** r presented the digest of a minted generation before it expired. */
  predicate RedeemedMint(sh: Shared, r: Redemption) {
    && 1 <= r.generation <= |sh.minted|
    && sh.minted[r.generation - 1].digest == r.input.digest
    && r.now < sh.minted[r.generation - 1].expiresAt
  }

  predicate RedemptionOk(sh: Shared, r: Redemption) {
    && RedeemedMint(sh, r)
    && sh.db.token.Some?
    && (sh.db.token.value.generation == r.generation <==> sh.db.token.value.consumedAt.Some?)
  }

  predicate OwnerOk(sh: Shared) {
    var owners, creds, oks := Owners(sh.db.users), sh.db.credentials, Successes(sh.db.audit);
    match sh.redeemed
    case None => owners == [] && creds == [] && oks == [] && (sh.db.token.Some? ==> sh.db.token.value.consumedAt.None?)
    case Some(r) =>
      && RedemptionOk(sh, r)
      && owners == [User(r.userId, r.input.username, Owner)]
      && creds == [Credential(r.userId, r.secret)]
      && oks == [Succeeded(r.userId, r.input.username)]
      && sh.db.users != []
  }

  predicate SharedOk(sh: Shared) {
    && TokenOk(sh)
    && DigestsDistinct(sh.minted)
    && MintLogOk(sh)
    && OwnerOk(sh)
    && (sh.claimedBit != {} ==> sh.db.users != [])
  }

  /** A stored digest that no redeem can match again. */
  predicate Dead(sh: Shared, d: Digest) {
    sh.db.token.Some? && (sh.db.token.value.digest != d || sh.db.token.value.consumedAt.Some?)
  }

  predicate CopyOk(sh: Shared, q: Req, row: TokenRow) {
    && 1 <= row.generation <= |sh.minted|
    && sh.minted[row.generation - 1].digest == row.digest == q.input.digest
  }

  predicate HasRow(pc: RequestPc) {
    pc.AtHash? || pc.AtBegin? || pc.AtTxGate? || pc.AtRedeem? || pc.AtRedeemLock? || pc.AtCommit?
  }

  /** What a call that began on a claimed instance may still be doing. */
  predicate Harmless(q: Req) {
    && !q.hashed && !q.charged
    && (q.pc.AtGate? || q.pc.AtFirstCheck?
        || q.pc == Returned(AlreadyClaimed) || q.pc == Returned(DbFailure)
        || q.pc == Answered(Conflict) || q.pc == Answered(Unavailable) || q.pc == Answered(Rejected)
        || q.pc == Answered(TooManyRequests))
  }

  predicate ReqOk(sh: Shared, pid: Pid, q: Req) {
    && (sh.rowLock == Some(pid) <==> q.pc.AtCommit?)
    && sh.mintLock != Some(pid)
    && (q.startedClaimed ==> sh.db.users != [] && Harmless(q))
    && (HasRow(q.pc) ==> CopyOk(sh, q, q.pc.row))
    && (q.hashed ==> Published(sh, q.input.digest))
    && ((q.pc.AtRedeem? || q.pc.AtRedeemLock?) && sh.redeemed.Some? ==> Dead(sh, q.pc.row.digest))
    && (q.pc.AtCommit? ==> sh.redeemed.None? && RedeemMatches(sh.db, q.pc.row.digest, q.pc.now))
    && (q.pc == Returned(AlreadyClaimed) ==> sh.db.users != [])
    && ((q.pc.Returned? && q.pc.answer.Success?) || q.pc == Answered(Created) ==>
          && sh.redeemed.Some? && sh.db.users != []
          && sh.redeemed.value.caller == pid && sh.redeemed.value.input == q.input
          && sh.redeemed.value.secret == q.secret)
  }

  predicate HoldsMintLock(pc: MintPc) {
    pc.MUsers? || pc.MState? || pc.MStatement? || pc.MWrite? || pc.MCommit?
  }

  predicate Deciding(pc: MintPc) { pc.MStatement? || pc.MWrite? || pc.MCommit? }

  predicate NoLiveToken(sh: Shared) { sh.db.token.Some? ==> !Live(sh.db.token.value, sh.clock) }

  predicate MintOk(sh: Shared, pid: Pid, m: Mint) {
    && (sh.rowLock == Some(pid) <==> m.pc.MCommit?)
    && (sh.mintLock == Some(pid) <==> HoldsMintLock(m.pc))
    && (m.pc.MLock? || HoldsMintLock(m.pc) ==> m.pc.now <= sh.clock)
    && (m.pc.MWrite? || m.pc.MCommit? ==> !Published(sh, m.pc.digest))
    && (m.fromBoot ==> m.onlyIfNoLiveToken)
    && (m.onlyIfNoLiveToken && Deciding(m.pc) ==> NoLiveToken(sh))
  }

  predicate BootOk(sh: Shared, pid: Pid, b: BootPc) {
    && (sh.rowLock == Some(pid) <==> b.SCommit?)
    && sh.mintLock != Some(pid)
    && (b.SCommit? ==> SupersedeMatches(sh.db))
  }

  predicate ProcOk(sh: Shared, pid: Pid, p: Proc) {
    match p
    case Request(q) => ReqOk(sh, pid, q)
    case Minting(m) => MintOk(sh, pid, m)
    case Booting(_, _, b) => BootOk(sh, pid, b)
    case Crashed => sh.rowLock != Some(pid) && sh.mintLock != Some(pid)
  }

  predicate LockHeldByCall(s: State) {
    && (s.sh.rowLock.Some? ==> s.sh.rowLock.value in s.procs)
    && (s.sh.mintLock.Some? ==> s.sh.mintLock.value in s.procs)
  }

  predicate Inv(s: State) {
    && SharedOk(s.sh)
    && LockHeldByCall(s)
    && forall pid :: pid in s.procs ==> ProcOk(s.sh, pid, s.procs[pid])
  }

  // ------------------------------------------------------------- rely/guarantee

  predicate Retired(row: TokenRow, row': TokenRow) {
    && row'.digest == row.digest && row'.generation == row.generation && row'.expiresAt == row.expiresAt
    && (row.consumedAt.Some? ==> row'.consumedAt.Some?)
    && (row.supersededAt.Some? ==> row'.supersededAt.Some?)
  }

  /** The token row is only ever retired in place, unless a mint replaces it. */
  predicate SameMint(sh: Shared, sh': Shared) {
    && sh'.minted == sh.minted
    && (sh.db.token.None? <==> sh'.db.token.None?)
    && (sh.db.token.Some? ==> Retired(sh.db.token.value, sh'.db.token.value))
  }

  predicate NewMintStored(sh: Shared, sh': Shared) {
    && |sh'.minted| == |sh.minted| + 1
    && sh'.minted[..|sh.minted|] == sh.minted
    && !Published(sh, sh'.minted[|sh.minted|].digest)
    && sh'.redeemed == sh.redeemed
    && sh'.db.token.Some?
    && sh'.db.token.value.digest == sh'.minted[|sh.minted|].digest
  }

  predicate OwnLock(held: Option<Pid>, held': Option<Pid>, pid: Pid) {
    held' == held || (held in {None, Some(pid)} && held' in {None, Some(pid)})
  }

  predicate Guarantee(sh: Shared, sh': Shared, pid: Pid) {
    && sh.db.users <= sh'.db.users
    && sh.clock <= sh'.clock
    && OwnLock(sh.rowLock, sh'.rowLock, pid)
    && OwnLock(sh.mintLock, sh'.mintLock, pid)
    && (SameMint(sh, sh') || NewMintStored(sh, sh'))
    && (sh.rowLock.Some? && sh.rowLock != Some(pid) ==> sh'.db.token == sh.db.token && sh'.redeemed == sh.redeemed)
    && (sh.mintLock.Some? && sh.mintLock != Some(pid) ==> SameMint(sh, sh'))
    && (sh'.redeemed == sh.redeemed
        || (sh.redeemed.None? && sh'.db.token.Some? && sh'.db.token.value.consumedAt.Some?))
  }

  lemma PublishedGrows(sh: Shared, sh': Shared, d: Digest)
    requires SameMint(sh, sh') || NewMintStored(sh, sh')
    requires Published(sh, d)
    ensures Published(sh', d)
  {
    var m :| m in sh.minted && m.digest == d;
    var i :| 0 <= i < |sh.minted| && sh.minted[i] == m;
    assert sh'.minted[i] == m;
  }

  lemma DeadStays(sh: Shared, sh': Shared, d: Digest)
    requires SameMint(sh, sh') || NewMintStored(sh, sh')
    requires Published(sh, d) && Dead(sh, d)
    ensures Dead(sh', d)
  {
  }

  lemma CopyPublished(sh: Shared, q: Req, row: TokenRow)
    requires CopyOk(sh, q, row)
    ensures Published(sh, row.digest)
  {
    assert sh.minted[row.generation - 1] in sh.minted;
  }

  lemma RequestRelies(sh: Shared, sh': Shared, pid: Pid, other: Pid, q: Req)
    requires other != pid && Guarantee(sh, sh', pid) && SharedOk(sh) && SharedOk(sh')
    requires ReqOk(sh, other, q)
    ensures ReqOk(sh', other, q)
  {
    if q.hashed { PublishedGrows(sh, sh', q.input.digest); }
    if HasRow(q.pc) {
      CopyPublished(sh, q, q.pc.row);
      assert sh'.minted[..|sh.minted|] == sh.minted;
      if (q.pc.AtRedeem? || q.pc.AtRedeemLock?) && sh'.redeemed.Some? {
        if sh.redeemed.Some? { DeadStays(sh, sh', q.pc.row.digest); }
      }
    }
  }

  lemma MintRelies(sh: Shared, sh': Shared, pid: Pid, other: Pid, m: Mint)
    requires other != pid && Guarantee(sh, sh', pid) && SharedOk(sh) && SharedOk(sh')
    requires MintOk(sh, other, m)
    ensures MintOk(sh', other, m)
  {
    if HoldsMintLock(m.pc) { assert SameMint(sh, sh'); }
  }

  lemma OthersRely(sh: Shared, sh': Shared, pid: Pid, other: Pid, p: Proc)
    requires other != pid && Guarantee(sh, sh', pid) && SharedOk(sh) && SharedOk(sh')
    requires ProcOk(sh, other, p)
    ensures ProcOk(sh', other, p)
  {
    match p
    case Request(q) => RequestRelies(sh, sh', pid, other, q);
    case Minting(m) => MintRelies(sh, sh', pid, other, m);
    case Booting(_, _, b) => assert b.SCommit? ==> sh.rowLock == Some(other);
    case Crashed =>
  }

  // -------------------------------------------------------- one lemma per step

  lemma CommitShared(sh: Shared, sh': Shared, pid: Pid, q: Req)
    requires SharedOk(sh) && ReqOk(sh, pid, q) && q.pc.AtCommit?
    requires sh'.db == WriteClaim(sh.db, q.pc.now, q.userId, q.input.username, q.secret)
    requires sh'.minted == sh.minted && sh'.claimedBit == sh.claimedBit
    requires sh'.redeemed == Some(Redemption(pid, sh.db.token.value.generation, q.pc.now, q.input, q.userId, q.secret))
    ensures SharedOk(sh')
  {
    ClaimLogs(sh.db, q.pc.now, q.userId, q.input.username, q.secret);
    CommitOwner(sh, sh', pid, q);
  }

  lemma ClaimLogs(db: Db, now: Time, id: nat, username: string, secret: string)
    requires db.token.Some?
    ensures var db' := WriteClaim(db, now, id, username, secret);
            && Owners(db'.users) == Owners(db.users) + [User(id, username, Owner)]
            && Generations(db'.audit) == Generations(db.audit)
            && Successes(db'.audit) == Successes(db.audit) + [Succeeded(id, username)]
  {
    AppendUser(db.users, User(id, username, Owner));
    AppendAudit(db.audit, Succeeded(id, username));
  }

  lemma CommitOwner(sh: Shared, sh': Shared, pid: Pid, q: Req)
    requires TokenOk(sh) && OwnerOk(sh) && ReqOk(sh, pid, q) && q.pc.AtCommit?
    requires sh'.db == WriteClaim(sh.db, q.pc.now, q.userId, q.input.username, q.secret) && sh'.minted == sh.minted
    requires sh'.redeemed == Some(Redemption(pid, sh.db.token.value.generation, q.pc.now, q.input, q.userId, q.secret))
    ensures OwnerOk(sh') && TokenOk(sh')
  {
    ClaimLogs(sh.db, q.pc.now, q.userId, q.input.username, q.secret);
    assert RedeemedMint(sh', sh'.redeemed.value);
  }

  lemma CommitReqOk(sh: Shared, pid: Pid, q: Req, c: Choice)
    requires ReqOk(sh, pid, q) && q.pc.AtCommit?
    ensures var r := CommitStep(sh, pid, q, q.pc.now, c); ReqOk(r.0, pid, r.1)
  {
    assert q.hashed ==> Published(CommitStep(sh, pid, q, q.pc.now, c).0, q.input.digest);
  }

  /** The redeem that commits: no owner existed, and from here on every digest a
      call may still be holding is dead. */
  lemma CommitKeeps(sh: Shared, pid: Pid, q: Req, c: Choice)
    requires SharedOk(sh) && ReqOk(sh, pid, q) && q.pc.AtCommit?
    ensures var r := CommitStep(sh, pid, q, q.pc.now, c);
            SharedOk(r.0) && ReqOk(r.0, pid, r.1) && Guarantee(sh, r.0, pid)
  {
    if (c.ok || c.applied) && !HasName(sh.db, q.input.username) { CommitAppliedKeeps(sh, pid, q, c); }
    else { CommitLostKeeps(sh, pid, q, c); }
    CommitReqOk(sh, pid, q, c);
  }

  lemma CommitAppliedKeeps(sh: Shared, pid: Pid, q: Req, c: Choice)
    requires SharedOk(sh) && ReqOk(sh, pid, q) && q.pc.AtCommit?
    requires (c.ok || c.applied) && !HasName(sh.db, q.input.username)
    ensures var sh' := CommitStep(sh, pid, q, q.pc.now, c).0;
            SharedOk(sh') && Guarantee(sh, sh', pid)
  {
    CommitShared(sh, CommitStep(sh, pid, q, q.pc.now, c).0, pid, q);
  }

  lemma CommitLostKeeps(sh: Shared, pid: Pid, q: Req, c: Choice)
    requires SharedOk(sh) && ReqOk(sh, pid, q) && q.pc.AtCommit?
    requires (!c.ok && !c.applied) || HasName(sh.db, q.input.username)
    ensures var sh' := CommitStep(sh, pid, q, q.pc.now, c).0;
            SharedOk(sh') && Guarantee(sh, sh', pid)
  {
    QuietKeeps(sh, CommitStep(sh, pid, q, q.pc.now, c).0, pid);
  }

  /** A step that leaves the tables and the history alone. */
  predicate Quiet(sh: Shared, sh': Shared, pid: Pid) {
    && sh'.db == sh.db && sh'.minted == sh.minted && sh'.redeemed == sh.redeemed && sh'.clock == sh.clock
    && OwnLock(sh.rowLock, sh'.rowLock, pid)
    && OwnLock(sh.mintLock, sh'.mintLock, pid)
    && (sh'.claimedBit == sh.claimedBit || sh.db.users != [])
  }

  lemma QuietKeeps(sh: Shared, sh': Shared, pid: Pid)
    requires SharedOk(sh) && Quiet(sh, sh', pid)
    ensures SharedOk(sh') && Guarantee(sh, sh', pid)
  {
  }

  /** The tables whose audit log gained rows that mint nothing and claim nothing. */
  lemma AuditNoteKeeps(sh: Shared, sh': Shared, row: AuditRow, pid: Pid)
    requires SharedOk(sh) && (row.Refused? || row.RateLimited?)
    requires sh' == sh.(db := sh.db.(audit := sh.db.audit + [row]))
    ensures SharedOk(sh') && Guarantee(sh, sh', pid)
  {
    NoteChangesNoLog(sh.db.audit, row);
    SameLogsKeep(sh, sh');
    NoteGuaranteed(sh, sh', pid);
  }

  lemma NoteChangesNoLog(audit: seq<AuditRow>, row: AuditRow)
    requires row.Refused? || row.RateLimited?
    ensures Generations(audit + [row]) == Generations(audit) && Successes(audit + [row]) == Successes(audit)
  {
    AppendAudit(audit, row);
  }

  lemma NoteGuaranteed(sh: Shared, sh': Shared, pid: Pid)
    requires sh' == sh.(db := sh.db.(audit := sh'.db.audit))
    ensures Guarantee(sh, sh', pid)
  {
  }

  lemma SameLogsKeep(sh: Shared, sh': Shared)
    requires SharedOk(sh)
    requires sh' == sh.(db := sh.db.(audit := sh'.db.audit))
    requires Generations(sh'.db.audit) == Generations(sh.db.audit)
    requires Successes(sh'.db.audit) == Successes(sh.db.audit)
    ensures SharedOk(sh')
  {
    assert OwnerOk(sh');
  }

  lemma AnswerKeeps(sh: Shared, pid: Pid, q: Req, c: Choice)
    requires SharedOk(sh) && ReqOk(sh, pid, q) && q.pc.Returned?
    ensures var r := AnswerStep(sh, q, q.pc.answer, c);
            SharedOk(r.0) && ReqOk(r.0, pid, r.1) && Guarantee(sh, r.0, pid)
  {
    var r := AnswerStep(sh, q, q.pc.answer, c);
    if q.pc.answer.TokenNotAccepted? && (!c.limited || c.transition) {
      AuditNoteKeeps(sh, r.0, if c.limited then RateLimited else Refused, pid);
    } else {
      QuietKeeps(sh, r.0, pid);
    }
    AnswerReqOk(sh, pid, q, c);
  }

  lemma AnswerReqOk(sh: Shared, pid: Pid, q: Req, c: Choice)
    requires ReqOk(sh, pid, q) && q.pc.Returned?
    ensures var r := AnswerStep(sh, q, q.pc.answer, c); ReqOk(r.0, pid, r.1)
  {
    assert q.hashed ==> Published(AnswerStep(sh, q, q.pc.answer, c).0, q.input.digest);
  }

  lemma QuietRequest(sh: Shared, pid: Pid, q: Req, c: Choice)
    requires ReqOk(sh, pid, q) && SharedOk(sh) && !q.pc.AtCommit? && !q.pc.Returned?
    ensures var r := RequestStep(sh, pid, q, c); Quiet(sh, r.0, pid) && ReqOk(r.0, pid, r.1)
  {
    match q.pc
    case AtGate => GateReqOk(sh, pid, q, c);
    case AtExamine => ExamineReqOk(sh, pid, q, c);
    case AtRedeemLock(_, _) => RedeemLockReqOk(sh, pid, q, c);
    case AtFirstCheck => CheckReqOk(sh, pid, q, c);
    case AtTxGate(_, _) => CheckReqOk(sh, pid, q, c);
    case AtClassify => CheckReqOk(sh, pid, q, c);
    case AtHash(_) => HashReqOk(sh, pid, q, c);
    case AtBegin(_) => HashReqOk(sh, pid, q, c);
    case AtRedeem(_, _) => RedeemReqOk(sh, pid, q, c);
    case Answered(_) =>
  }

  lemma CheckReqOk(sh: Shared, pid: Pid, q: Req, c: Choice)
    requires ReqOk(sh, pid, q) && (sh.redeemed.Some? ==> sh.db.users != [])
    requires q.pc.AtFirstCheck? || q.pc.AtTxGate? || q.pc.AtClassify?
    ensures var r := RequestStep(sh, pid, q, c); r.0 == sh && ReqOk(sh, pid, r.1)
  {
  }

  lemma HashReqOk(sh: Shared, pid: Pid, q: Req, c: Choice)
    requires ReqOk(sh, pid, q) && (q.pc.AtHash? || q.pc.AtBegin?)
    ensures var r := RequestStep(sh, pid, q, c); r.0 == sh && ReqOk(sh, pid, r.1)
  {
    CopyPublished(sh, q, q.pc.row);
  }

  lemma RedeemReqOk(sh: Shared, pid: Pid, q: Req, c: Choice)
    requires ReqOk(sh, pid, q) && q.pc.AtRedeem?
    ensures var r := RequestStep(sh, pid, q, c); r.0 == sh && ReqOk(sh, pid, r.1)
  {
  }

  lemma GateReqOk(sh: Shared, pid: Pid, q: Req, c: Choice)
    requires ReqOk(sh, pid, q) && (sh.claimedBit != {} ==> sh.db.users != []) && q.pc.AtGate?
    ensures var r := GateStep(sh, q, c); Quiet(sh, r.0, pid) && ReqOk(r.0, pid, r.1)
  {
    assert q.hashed ==> Published(GateStep(sh, q, c).0, q.input.digest);
  }

  lemma ExamineReqOk(sh: Shared, pid: Pid, q: Req, c: Choice)
    requires ReqOk(sh, pid, q) && TokenOk(sh) && q.pc.AtExamine?
    ensures var r := ExamineStep(sh, q, c); Quiet(sh, r.0, pid) && ReqOk(r.0, pid, r.1)
  {
  }

  lemma RedeemLockReqOk(sh: Shared, pid: Pid, q: Req, c: Choice)
    requires ReqOk(sh, pid, q) && q.pc.AtRedeemLock?
    ensures var r := RedeemLockStep(sh, pid, q, q.pc.row, q.pc.now, c); Quiet(sh, r.0, pid) && ReqOk(r.0, pid, r.1)
  {
    assert q.hashed ==> Published(RedeemLockStep(sh, pid, q, q.pc.row, q.pc.now, c).0, q.input.digest);
  }

  lemma RequestKeeps(sh: Shared, pid: Pid, q: Req, c: Choice)
    requires SharedOk(sh) && ReqOk(sh, pid, q)
    ensures var r := RequestStep(sh, pid, q, c);
            SharedOk(r.0) && ReqOk(r.0, pid, r.1) && Guarantee(sh, r.0, pid)
  {
    if q.pc.AtCommit? { CommitKeeps(sh, pid, q, c); }
    else if q.pc.Returned? { AnswerKeeps(sh, pid, q, c); }
    else {
      QuietRequest(sh, pid, q, c);
      QuietKeeps(sh, RequestStep(sh, pid, q, c).0, pid);
    }
  }

  lemma MintWriteLog(db: Db, digest: Digest, now: Time, ttl: int, superseded: Option<nat>)
    ensures var db' := WriteMint(db, digest, now, ttl, superseded);
            && Generations(db'.audit) == Generations(db.audit) + [db'.token.value.generation]
            && Successes(db'.audit) == Successes(db.audit)
            && db'.users == db.users && db'.credentials == db.credentials
  {
    var row := MintedRow(db, digest, now, ttl);
    if superseded.Some? {
      AppendAudit(db.audit, Superseded(superseded.value));
      AppendAudit(db.audit + [Superseded(superseded.value)], Minted(row.generation));
    } else {
      AppendAudit(db.audit, Minted(row.generation));
      assert db.audit + [] == db.audit;
    }
  }

  lemma DistinctExtends(minted: seq<MintRecord>, r: MintRecord)
    requires DigestsDistinct(minted)
    requires forall m <- minted :: m.digest != r.digest
    ensures DigestsDistinct(minted + [r])
  {
  }

  /** A committed mint stores a digest no call has ever copied, and one
      generation more. */
  lemma MintCommitShared(sh: Shared, sh': Shared, digest: Digest, now: Time, ttl: int, superseded: Option<nat>)
    requires SharedOk(sh) && !Published(sh, digest)
    requires sh'.db == WriteMint(sh.db, digest, now, ttl, superseded)
    requires sh'.minted == sh.minted + [MintRecord(digest, now + ttl)]
    requires sh'.redeemed == sh.redeemed && sh'.claimedBit == sh.claimedBit
    ensures SharedOk(sh') && NewMintStored(sh, sh')
  {
    MintCommitLog(sh, sh', digest, now, ttl, superseded);
    DistinctExtends(sh.minted, MintRecord(digest, now + ttl));
    MintCommitOwner(sh, sh', digest, now, ttl, superseded);
    assert sh'.minted[..|sh.minted|] == sh.minted;
  }

  lemma MintCommitLog(sh: Shared, sh': Shared, digest: Digest, now: Time, ttl: int, superseded: Option<nat>)
    requires TokenOk(sh) && MintLogOk(sh)
    requires sh'.db == WriteMint(sh.db, digest, now, ttl, superseded)
    requires |sh'.minted| == |sh.minted| + 1
    ensures MintLogOk(sh') && sh'.db.users == sh.db.users
  {
    MintWriteLog(sh.db, digest, now, ttl, superseded);
  }

  lemma MintCommitOwner(sh: Shared, sh': Shared, digest: Digest, now: Time, ttl: int, superseded: Option<nat>)
    requires TokenOk(sh) && OwnerOk(sh)
    requires sh'.db == WriteMint(sh.db, digest, now, ttl, superseded)
    requires sh'.minted == sh.minted + [MintRecord(digest, now + ttl)]
    requires sh'.redeemed == sh.redeemed
    ensures OwnerOk(sh') && TokenOk(sh')
  {
    MintWriteLog(sh.db, digest, now, ttl, superseded);
  }

  lemma MintCommitKeeps(sh: Shared, pid: Pid, m: Mint, c: Choice)
    requires SharedOk(sh) && MintOk(sh, pid, m) && m.pc.MCommit? && (c.ok || c.applied)
    ensures var r := MintStep(sh, pid, m, c);
            SharedOk(r.0) && MintOk(r.0, pid, r.1) && Guarantee(sh, r.0, pid)
  {
    MintCommitShared(sh, MintStep(sh, pid, m, c).0, m.pc.digest, m.pc.now, m.ttl, m.pc.superseded);
  }

  lemma QuietMint(sh: Shared, pid: Pid, m: Mint, c: Choice)
    requires MintOk(sh, pid, m) && !(m.pc.MCommit? && (c.ok || c.applied))
    ensures var r := MintStep(sh, pid, m, c); Quiet(sh, r.0, pid) && MintOk(r.0, pid, r.1)
  {
    assert m.pc.MWrite? ==> !Published(MintStep(sh, pid, m, c).0, m.pc.digest);
  }

  lemma MintKeeps(sh: Shared, pid: Pid, m: Mint, c: Choice)
    requires SharedOk(sh) && MintOk(sh, pid, m)
    ensures var r := MintStep(sh, pid, m, c);
            SharedOk(r.0) && MintOk(r.0, pid, r.1) && Guarantee(sh, r.0, pid)
  {
    if m.pc.MCommit? && (c.ok || c.applied) {
      MintCommitKeeps(sh, pid, m, c);
    } else {
      QuietMint(sh, pid, m, c);
      QuietKeeps(sh, MintStep(sh, pid, m, c).0, pid);
    }
  }

  lemma SupersedeKeeps(sh: Shared, sh': Shared, pid: Pid, now: Time)
    requires SharedOk(sh) && SupersedeMatches(sh.db) && sh.rowLock == Some(pid)
    requires sh' == sh.(db := WriteSupersede(sh.db, now), rowLock := None)
    ensures SharedOk(sh') && Guarantee(sh, sh', pid)
  {
    AppendAudit(sh.db.audit, Superseded(sh.db.token.value.generation));
  }

  lemma BootKeeps(sh: Shared, pid: Pid, stderr: bool, ttl: int, b: BootPc, c: Choice)
    requires SharedOk(sh) && BootOk(sh, pid, b)
    ensures var r := BootStep(sh, pid, stderr, ttl, b, c);
            SharedOk(r.0) && ProcOk(r.0, pid, r.1) && Guarantee(sh, r.0, pid)
  {
    var r := BootStep(sh, pid, stderr, ttl, b, c);
    if b.SCommit? && (c.ok || c.applied) { SupersedeKeeps(sh, r.0, pid, b.now); }
    else { QuietKeeps(sh, r.0, pid); }
  }

  lemma AdvanceKeeps(sh: Shared, pid: Pid, p: Proc, c: Choice)
    requires SharedOk(sh) && ProcOk(sh, pid, p)
    ensures var r := Advance(sh, pid, p, c);
            SharedOk(r.0) && ProcOk(r.0, pid, r.1) && Guarantee(sh, r.0, pid)
  {
    match p
    case Request(q) => RequestKeeps(sh, pid, q, c);
    case Minting(m) => MintKeeps(sh, pid, m, c);
    case Booting(stderr, ttl, b) => BootKeeps(sh, pid, stderr, ttl, b, c);
    case Crashed =>
  }

  lemma GuaranteeKeeps(s: State, pid: Pid, sh': Shared, p': Proc)
    requires Inv(s) && pid in s.procs
    requires SharedOk(sh') && ProcOk(sh', pid, p') && Guarantee(s.sh, sh', pid)
    ensures Inv(State(sh', s.procs[pid := p']))
  {
    var s' := State(sh', s.procs[pid := p']);
    forall other | other in s'.procs ensures ProcOk(sh', other, s'.procs[other]) {
      if other != pid { OthersRely(s.sh, sh', pid, other, s.procs[other]); }
    }
    assert LockHeldByCall(s');
  }

  /** A step of the world (time, another account) is a promise of a caller that
      holds nothing. */
  lemma WorldKeeps(s: State, sh': Shared)
    requires Inv(s) && SharedOk(sh')
    requires forall pid: Pid :: Guarantee(s.sh, sh', pid)
    requires sh'.rowLock == s.sh.rowLock && sh'.mintLock == s.sh.mintLock
    ensures Inv(State(sh', s.procs))
  {
    forall pid | pid in s.procs ensures ProcOk(sh', pid, s.procs[pid]) {
      assert Guarantee(s.sh, sh', pid + 1);
      OthersRely(s.sh, sh', pid + 1, pid, s.procs[pid]);
    }
  }

  lemma SignUpShared(sh: Shared, sh': Shared, u: User, pid: Pid)
    requires SharedOk(sh) && u.role.Member?
    requires sh' == sh.(db := sh.db.(users := sh.db.users + [u]))
    ensures SharedOk(sh') && Guarantee(sh, sh', pid)
  {
    MemberIsNoOwner(sh.db.users, u);
    SameOwnersKeep(sh, sh');
    SignUpGuaranteed(sh, sh', pid);
  }

  lemma MemberIsNoOwner(users: seq<User>, u: User)
    requires u.role.Member?
    ensures Owners(users + [u]) == Owners(users)
  {
    AppendUser(users, u);
  }

  lemma SameOwnersKeep(sh: Shared, sh': Shared)
    requires SharedOk(sh) && sh' == sh.(db := sh.db.(users := sh'.db.users))
    requires Owners(sh'.db.users) == Owners(sh.db.users) && sh'.db.users != []
    ensures SharedOk(sh')
  {
    assert OwnerOk(sh');
  }

  lemma SignUpGuaranteed(sh: Shared, sh': Shared, pid: Pid)
    requires sh' == sh.(db := sh.db.(users := sh'.db.users)) && sh.db.users <= sh'.db.users
    ensures Guarantee(sh, sh', pid)
  {
  }

  lemma TickShared(sh: Shared, d: nat, pid: Pid)
    requires SharedOk(sh)
    ensures SharedOk(sh.(clock := sh.clock + d)) && Guarantee(sh, sh.(clock := sh.clock + d), pid)
  {
    assert OwnerOk(sh.(clock := sh.clock + d));
    TickGuaranteed(sh, d, pid);
  }

  lemma TickGuaranteed(sh: Shared, d: nat, pid: Pid)
    ensures Guarantee(sh, sh.(clock := sh.clock + d), pid)
  {
  }

  lemma SpawnKeeps(s: State, pid: Pid, p: Proc)
    requires Inv(s)
    requires pid !in s.procs ==> ProcOk(s.sh, pid, p)
    ensures Inv(Spawn(s, pid, p))
  {
    if pid !in s.procs {
      var s' := Spawn(s, pid, p);
      forall other | other in s'.procs ensures ProcOk(s'.sh, other, s'.procs[other]) {}
      assert LockHeldByCall(s');
    }
  }

  lemma CrashKeeps(s: State, pid: Pid)
    requires Inv(s) && pid in s.procs
    ensures Inv(Apply(s, Crash(pid)))
  {
    QuietKeeps(s.sh, Release(s.sh, pid), pid);
    GuaranteeKeeps(s, pid, Release(s.sh, pid), Crashed);
  }

  lemma GoKeeps(s: State, pid: Pid, c: Choice)
    requires Inv(s) && pid in s.procs
    ensures Inv(Apply(s, Go(pid, c)))
  {
    AdvanceKeeps(s.sh, pid, s.procs[pid], c);
    var r := Advance(s.sh, pid, s.procs[pid], c);
    GuaranteeKeeps(s, pid, r.0, r.1);
  }

  lemma TickKeeps(s: State, d: nat)
    requires Inv(s)
    ensures Inv(Apply(s, Tick(d)))
  {
    forall pid: Pid ensures Guarantee(s.sh, Apply(s, Tick(d)).sh, pid) { TickShared(s.sh, d, pid); }
    TickShared(s.sh, d, 0);
    WorldKeeps(s, Apply(s, Tick(d)).sh);
  }

  lemma SignUpKeeps(s: State, u: User, sh': Shared)
    requires Inv(s) && u.role.Member?
    requires sh' == s.sh.(db := s.sh.db.(users := s.sh.db.users + [u]))
    ensures Inv(State(sh', s.procs))
  {
    forall pid: Pid ensures Guarantee(s.sh, sh', pid) { SignUpShared(s.sh, sh', u, pid); }
    SignUpShared(s.sh, sh', u, 0);
    WorldKeeps(s, sh');
  }

  lemma ApplyKeeps(s: State, a: Action)
    requires Inv(s)
    ensures Inv(Apply(s, a))
  {
    match a
    case Tick(d) => TickKeeps(s, d);
    case SignUp(id, username) => SignUpKeeps(s, User(id, username, Member), Apply(s, a).sh);
    case NewRequest(pid, input, replica) =>
      SpawnKeeps(s, pid, Request(Req(input, replica, AnyUserExists(s.sh.db), false, false, 0, "", AtGate)));
    case NewMint(pid, ttl, refuse, only) => SpawnKeeps(s, pid, Minting(Mint(ttl, refuse, only, false, MBegin)));
    case NewBoot(pid, stderr, ttl) => SpawnKeeps(s, pid, Booting(stderr, ttl, BStart));
    case Go(pid, c) => if pid in s.procs { GoKeeps(s, pid, c); }
    case Crash(pid) => if pid in s.procs { CrashKeeps(s, pid); }
  }

  lemma {:induction false} RunKeeps(t0: Time, schedule: seq<Action>)
    ensures Inv(Run(t0, schedule))
  {
    if schedule != [] {
      RunKeeps(t0, schedule[..|schedule| - 1]);
      ApplyKeeps(Run(t0, schedule[..|schedule| - 1]), schedule[|schedule| - 1]);
    }
  }

  lemma RunShared(t0: Time, schedule: seq<Action>)
    ensures SharedOk(Run(t0, schedule).sh)
  {
    RunKeeps(t0, schedule);
  }

  lemma RunProc(t0: Time, schedule: seq<Action>, pid: Pid)
    requires pid in Run(t0, schedule).procs
    ensures ProcOk(Run(t0, schedule).sh, pid, Run(t0, schedule).procs[pid])
  {
    RunKeeps(t0, schedule);
  }
}
