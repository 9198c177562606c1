/** The first-run owner claim as a step system.

    The committed database, the two locks PostgreSQL takes on behalf of the
    callers, the per-replica claimed bit and any number of calls (HTTP claims,
    mints, boots) that each advance one statement at a time. Everything the
    schedule, the network or the outside world decides is part of an Action, so
    quantifying over `seq<Action>` quantifies over every interleaving. */
module OwnerClaim {
  import opened Wrappers

  type Digest = nat   // SHA-256 values, compared only for equality
  type Time = int     // the database clock
  type Pid = nat      // one per call
  type Replica = nat  // one per api process

  // ---------------------------------------------------------------- the tables

  datatype Role = Owner | Member
  datatype User = User(id: nat, username: string, role: Role)
  datatype Credential = Credential(userId: nat, secret: string)
  datatype TokenRow = TokenRow(digest: Digest, generation: nat, expiresAt: Time,
                               consumedAt: Option<Time>, supersededAt: Option<Time>)
  datatype AuditRow =
    | Minted(generation: nat)
    | Superseded(generation: nat)
    | Succeeded(userId: nat, username: string)
    | Refused
    | RateLimited

  datatype Db = Db(users: seq<User>, credentials: seq<Credential>,
                   token: Option<TokenRow>, audit: seq<AuditRow>)

  const EmptyDb := Db([], [], None, [])

  // ------------------------------------------------------------ the statements

  predicate AnyUserExists(db: Db) { db.users != [] }

  predicate Live(row: TokenRow, now: Time) {
    row.consumedAt.None? && row.supersededAt.None? && row.expiresAt > now
  }

  /** The row qualifications of the redeeming UPDATE, as re-evaluated against
      the committed row once its lock is held. */
  predicate RedeemMatches(db: Db, digest: Digest, now: Time) {
    db.token.Some? && db.token.value.digest == digest && Live(db.token.value, now)
  }

  /** What a redeem that matched writes: the token consumed, the owner, its
      credential and the audit row of the same transaction. */
  function WriteClaim(db: Db, now: Time, id: nat, username: string, secret: string): Db
    requires db.token.Some?
  {
    Db(db.users + [User(id, username, Owner)],
       db.credentials + [Credential(id, secret)],
       Some(db.token.value.(consumedAt := Some(now))),
       db.audit + [Succeeded(id, username)])
  }

  /** The upsert's resulting row. */
  function MintedRow(db: Db, digest: Digest, now: Time, ttl: int): TokenRow {
    TokenRow(digest, if db.token.Some? then db.token.value.generation + 1 else 1,
             now + ttl, None, None)
  }

  function WriteMint(db: Db, digest: Digest, now: Time, ttl: int, superseded: Option<nat>): Db {
    var row := MintedRow(db, digest, now, ttl);
    db.(token := Some(row),
        audit := db.audit + (if superseded.Some? then [Superseded(superseded.value)] else [])
                          + [Minted(row.generation)])
  }

  predicate SupersedeMatches(db: Db) {
    db.token.Some? && db.token.value.consumedAt.None? && db.token.value.supersededAt.None?
  }

  function WriteSupersede(db: Db, now: Time): Db
    requires db.token.Some?
  {
    db.(token := Some(db.token.value.(supersededAt := Some(now))),
        audit := db.audit + [Superseded(db.token.value.generation)])
  }

  // ----------------------------------------------------------------- the calls

  /** The verdict of Validate: the token's shape is looked at first. */
  datatype Check = Malformed | BadField | WellFormed

  datatype Input = Input(check: Check, digest: Digest, username: string)

  datatype ClaimAnswer =
    | Success(generation: nat)
    | AlreadyClaimed
    | TokenNotAccepted
    | FieldError
    | NameTaken
    | HashFailed
    | DbFailure

  datatype Status =
    | Created | Conflict | Taken | Forbidden | TooManyRequests | TooManyFailures | BadRequest | Unavailable | Rejected

  datatype RequestPc =
    | AtGate                                // handler: the claimed bit or a lookup
    | AtFirstCheck                          // Claim: the read-phase users check
    | AtExamine                             // Claim: examineToken
    | AtClassify                            // Claim: classifyRefusal's fresh read
    | AtHash(row: TokenRow)                 // no connection held
    | AtBegin(row: TokenRow)
    | AtTxGate(row: TokenRow, now: Time)    // now() is the transaction's start
    | AtRedeem(row: TokenRow, now: Time)    // the statement takes its snapshot
    | AtRedeemLock(row: TokenRow, now: Time)
    | AtCommit(row: TokenRow, now: Time)    // the row lock is held
    | Returned(answer: ClaimAnswer)
    | Answered(status: Status)

  datatype Req = Req(input: Input, replica: Replica, startedClaimed: bool,
                     hashed: bool, charged: bool, userId: nat, secret: string, pc: RequestPc)

  datatype MintResult = MintedToken(generation: nat) | HasUsers | LiveTokenExists(generation: nat) | MintFailed

  datatype MintPc =
    | MBegin
    | MLock(now: Time)                              // waits for the advisory lock
    | MUsers(now: Time)
    | MState(now: Time)
    | MStatement(now: Time, superseded: Option<nat>)
    | MWrite(now: Time, superseded: Option<nat>, digest: Digest)
    | MCommit(now: Time, superseded: Option<nat>, digest: Digest)
    | MDone(result: MintResult)

  datatype Mint = Mint(ttl: int, refuseIfUsersExist: bool, onlyIfNoLiveToken: bool, fromBoot: bool, pc: MintPc)

  datatype BootPc = BStart | BState | SBegin | SWrite(now: Time) | SCommit(now: Time) | BDone(superseded: bool)

  datatype Proc =
    | Request(req: Req)
    | Minting(mint: Mint)
    | Booting(announceStderr: bool, ttl: int, boot: BootPc)
    | Crashed

  /** What one step leaves to the world: whether the database answered, whether
      a commit whose answer was lost had been applied, and the values drawn. */
  datatype Choice = Choice(ok: bool, applied: bool, digest: Digest, userId: nat, secret: string,
                           staleNegative: bool, rejected: bool, limited: bool, transition: bool)

  // ---------------------------------------------------------- the shared state

  /** `minted` and `redeemed` are history: every (digest, expiry) a committed
      mint ever stored, and the redemption that created the owner. */
  datatype MintRecord = MintRecord(digest: Digest, expiresAt: Time)
  datatype Redemption = Redemption(caller: Pid, generation: nat, now: Time, input: Input, userId: nat, secret: string)

  datatype Shared = Shared(db: Db, clock: Time, rowLock: Option<Pid>, mintLock: Option<Pid>,
                           claimedBit: set<Replica>, minted: seq<MintRecord>, redeemed: Option<Redemption>)

  predicate Published(sh: Shared, d: Digest) { exists m <- sh.minted :: m.digest == d }

  // ------------------------------------------------------------------- claims

  function Returning(sh: Shared, q: Req, a: ClaimAnswer): (Shared, Req) { (sh, q.(pc := Returned(a))) }

  /** The route's own ceiling, then instanceClaimed before the body is parsed; a
      negative answer may be stale. */
  function GateStep(sh: Shared, q: Req, c: Choice): (Shared, Req) {
    if c.limited then (sh, q.(pc := Answered(TooManyRequests)))
    else if q.replica in sh.claimedBit then (sh, q.(pc := Answered(Conflict)))
    else if !c.staleNegative && !c.ok then (sh, q.(pc := Answered(Unavailable)))
    else if !c.staleNegative && AnyUserExists(sh.db) then
      (sh.(claimedBit := sh.claimedBit + {q.replica}), q.(pc := Answered(Conflict)))
    else if c.rejected then (sh, q.(pc := Answered(Rejected)))
    else (sh, q.(pc := AtFirstCheck))
  }

  function ExamineStep(sh: Shared, q: Req, c: Choice): (Shared, Req) {
    match q.input.check
    case Malformed => (sh, q.(pc := AtClassify))
    case BadField => Returning(sh, q, FieldError)
    case WellFormed =>
      if !c.ok then Returning(sh, q, DbFailure)
      else if sh.db.token.None? then (sh, q.(pc := AtClassify))
      else if q.input.digest != sh.db.token.value.digest then (sh, q.(pc := AtClassify))
      else if !Live(sh.db.token.value, sh.clock) then (sh, q.(pc := AtClassify))
      else (sh, q.(pc := AtHash(sh.db.token.value)))
  }

  function ClassifyStep(sh: Shared, q: Req, c: Choice): (Shared, Req) {
    Returning(sh, q, if !c.ok then DbFailure
                     else if AnyUserExists(sh.db) then AlreadyClaimed else TokenNotAccepted)
  }

  function HashStep(sh: Shared, q: Req, row: TokenRow, c: Choice): (Shared, Req) {
    var q' := q.(hashed := true, userId := c.userId, secret := c.secret);
    if c.ok then (sh, q'.(pc := AtBegin(row))) else Returning(sh, q', HashFailed)
  }

  /** Statement start: its snapshot must show no user and a matching row. */
  function RedeemStep(sh: Shared, q: Req, row: TokenRow, now: Time, c: Choice): (Shared, Req) {
    if !c.ok then Returning(sh, q, DbFailure)
    else if AnyUserExists(sh.db) || !RedeemMatches(sh.db, row.digest, now) then (sh, q.(pc := AtClassify))
    else (sh, q.(pc := AtRedeemLock(row, now)))
  }

  /** READ COMMITTED: once the row lock is free the row's own qualifications are
      evaluated again on the committed row; the users snapshot is not retaken. */
  function RedeemLockStep(sh: Shared, pid: Pid, q: Req, row: TokenRow, now: Time, c: Choice): (Shared, Req) {
    if !c.ok then Returning(sh, q, DbFailure)
    else if sh.rowLock.Some? then (sh, q)
    else if RedeemMatches(sh.db, row.digest, now) then (sh.(rowLock := Some(pid)), q.(pc := AtCommit(row, now)))
    else (sh, q.(pc := AtClassify))
  }

  /** The unique index over user names. */
  predicate HasName(db: Db, username: string) { exists u <- db.users :: u.username == username }

  /** Insert and commit. A member who took the name since the statement's snapshot
      makes the insert fail, and the redemption is rolled back with it. */
  function CommitStep(sh: Shared, pid: Pid, q: Req, now: Time, c: Choice): (Shared, Req) {
    if HasName(sh.db, q.input.username) then
      Returning(sh.(rowLock := None), q, if c.ok then NameTaken else DbFailure)
    else if sh.db.token.Some? && (c.ok || c.applied) then
      var sh' := sh.(db := WriteClaim(sh.db, now, q.userId, q.input.username, q.secret), rowLock := None,
                     redeemed := Some(Redemption(pid, sh.db.token.value.generation, now, q.input, q.userId, q.secret)));
      Returning(sh', q, if c.ok then Success(sh.db.token.value.generation) else DbFailure)
    else
      Returning(sh.(rowLock := None), q, DbFailure)
  }

  function SetClaimed(sh: Shared, q: Req): Shared { sh.(claimedBit := sh.claimedBit + {q.replica}) }

  /** mapClaimError and refuseToken. */
  function AnswerStep(sh: Shared, q: Req, a: ClaimAnswer, c: Choice): (Shared, Req) {
    match a
    case Success(_) => (SetClaimed(sh, q), q.(pc := Answered(Created)))
    case AlreadyClaimed => (SetClaimed(sh, q), q.(pc := Answered(Conflict)))
    case TokenNotAccepted =>
      if c.limited then
        (if c.transition then sh.(db := sh.db.(audit := sh.db.audit + [RateLimited])) else sh,
         q.(charged := true, pc := Answered(TooManyFailures)))
      else
        (sh.(db := sh.db.(audit := sh.db.audit + [Refused])), q.(charged := true, pc := Answered(Forbidden)))
    case FieldError => (sh, q.(pc := Answered(BadRequest)))
    case NameTaken => (sh, q.(pc := Answered(Taken)))
    case HashFailed => (sh, q.(pc := Answered(Unavailable)))
    case DbFailure => (sh, q.(pc := Answered(Unavailable)))
  }

  function RequestStep(sh: Shared, pid: Pid, q: Req, c: Choice): (Shared, Req) {
    match q.pc
    case AtGate => GateStep(sh, q, c)
    case AtFirstCheck =>
      if !c.ok then Returning(sh, q, DbFailure)
      else if AnyUserExists(sh.db) then Returning(sh, q, AlreadyClaimed)
      else (sh, q.(pc := AtExamine))
    case AtExamine => ExamineStep(sh, q, c)
    case AtClassify => ClassifyStep(sh, q, c)
    case AtHash(row) => HashStep(sh, q, row, c)
    case AtBegin(row) =>
      if c.ok then (sh, q.(pc := AtTxGate(row, sh.clock))) else Returning(sh, q, DbFailure)
    case AtTxGate(row, now) =>
      if !c.ok then Returning(sh, q, DbFailure)
      else if AnyUserExists(sh.db) then Returning(sh, q, AlreadyClaimed)
      else (sh, q.(pc := AtRedeem(row, now)))
    case AtRedeem(row, now) => RedeemStep(sh, q, row, now, c)
    case AtRedeemLock(row, now) => RedeemLockStep(sh, pid, q, row, now, c)
    case AtCommit(_, now) => CommitStep(sh, pid, q, now, c)
    case Returned(a) => AnswerStep(sh, q, a, c)
    case Answered(_) => (sh, q)
  }

  // -------------------------------------------------------------------- mints

  function MintFail(sh: Shared, m: Mint, r: MintResult): (Shared, Mint) {
    (sh.(mintLock := None), m.(pc := MDone(r)))
  }

  function MintStep(sh: Shared, pid: Pid, m: Mint, c: Choice): (Shared, Mint) {
    match m.pc
    case MBegin => if c.ok then (sh, m.(pc := MLock(sh.clock))) else (sh, m.(pc := MDone(MintFailed)))
    case MLock(now) =>
      if !c.ok then (sh, m.(pc := MDone(MintFailed)))
      else if sh.mintLock.Some? then (sh, m)
      else (sh.(mintLock := Some(pid)), m.(pc := MUsers(now)))
    case MUsers(now) =>
      if !m.refuseIfUsersExist then (sh, m.(pc := MState(now)))
      else if !c.ok then MintFail(sh, m, MintFailed)
      else if AnyUserExists(sh.db) then MintFail(sh, m, HasUsers)
      else (sh, m.(pc := MState(now)))
    case MState(now) =>
      if !c.ok then MintFail(sh, m, MintFailed)
      else if sh.db.token.Some? && Live(sh.db.token.value, now) then
        if m.onlyIfNoLiveToken then MintFail(sh, m, LiveTokenExists(sh.db.token.value.generation))
        else (sh, m.(pc := MStatement(now, Some(sh.db.token.value.generation))))
      else (sh, m.(pc := MStatement(now, None)))
    case MStatement(now, superseded) =>
      // The digest is fresh, and the statement's snapshot must show no user.
      // The table's CHECK refuses a row that would expire no later than minted.
      if !c.ok then MintFail(sh, m, MintFailed)
      else if Published(sh, c.digest) then (sh, m)
      else if AnyUserExists(sh.db) then MintFail(sh, m, HasUsers)
      else if m.ttl <= 0 then MintFail(sh, m, MintFailed)
      else (sh, m.(pc := MWrite(now, superseded, c.digest)))
    case MWrite(now, superseded, digest) =>
      if !c.ok then MintFail(sh, m, MintFailed)
      else if sh.rowLock.Some? then (sh, m)
      else (sh.(rowLock := Some(pid)), m.(pc := MCommit(now, superseded, digest)))
    case MCommit(now, superseded, digest) =>
      if c.ok || c.applied then
        var db' := WriteMint(sh.db, digest, now, m.ttl, superseded);
        (sh.(db := db', rowLock := None, mintLock := None,
             minted := sh.minted + [MintRecord(digest, now + m.ttl)]),
         m.(pc := MDone(if c.ok then MintedToken(db'.token.value.generation) else MintFailed)))
      else
        (sh.(rowLock := None, mintLock := None), m.(pc := MDone(MintFailed)))
    case MDone(_) => (sh, m)
  }

  // -------------------------------------------------------------------- boots

  /** Boot: a claimed instance retires a leftover token; an unclaimed one mints
      only when asked to announce, and then only if no live token exists. */
  function BootStep(sh: Shared, pid: Pid, stderr: bool, ttl: int, b: BootPc, c: Choice): (Shared, Proc) {
    match b
    case BStart =>
      (sh, Booting(stderr, ttl, if !c.ok then BDone(false) else if AnyUserExists(sh.db) then SBegin else BState))
    case BState =>
      if c.ok && stderr then (sh, Minting(Mint(ttl, false, true, true, MBegin)))
      else (sh, Booting(stderr, ttl, BDone(false)))
    case SBegin => (sh, Booting(stderr, ttl, if c.ok then SWrite(sh.clock) else BDone(false)))
    case SWrite(now) =>
      if !c.ok then (sh, Booting(stderr, ttl, BDone(false)))
      else if !SupersedeMatches(sh.db) then (sh, Booting(stderr, ttl, BDone(false)))
      else if sh.rowLock.Some? then (sh, Booting(stderr, ttl, b))
      else (sh.(rowLock := Some(pid)), Booting(stderr, ttl, SCommit(now)))
    case SCommit(now) =>
      if sh.db.token.Some? && (c.ok || c.applied) then
        (sh.(db := WriteSupersede(sh.db, now), rowLock := None), Booting(stderr, ttl, BDone(c.ok)))
      else (sh.(rowLock := None), Booting(stderr, ttl, BDone(false)))
    case BDone(_) => (sh, Booting(stderr, ttl, b))
  }

  // ------------------------------------------------------------------ schedules

  datatype State = State(sh: Shared, procs: map<Pid, Proc>)

  datatype Action =
    | Tick(d: nat)
    | SignUp(id: nat, username: string)
    | NewRequest(pid: Pid, input: Input, replica: Replica)
    | NewMint(pid: Pid, ttl: int, refuseIfUsersExist: bool, onlyIfNoLiveToken: bool)
    | NewBoot(pid: Pid, stderr: bool, ttl: int)
    | Go(pid: Pid, c: Choice)
    | Crash(pid: Pid)

  function Init(t0: Time): State {
    State(Shared(EmptyDb, t0, None, None, {}, [], None), map[])
  }

  function Advance(sh: Shared, pid: Pid, p: Proc, c: Choice): (Shared, Proc) {
    match p
    case Request(q) => var r := RequestStep(sh, pid, q, c); (r.0, Request(r.1))
    case Minting(m) => var r := MintStep(sh, pid, m, c); (r.0, Minting(r.1))
    case Booting(stderr, ttl, b) => BootStep(sh, pid, stderr, ttl, b, c)
    case Crashed => (sh, p)
  }

  /** A lost connection rolls its transaction back and frees its locks. */
  function Release(sh: Shared, pid: Pid): Shared {
    sh.(rowLock := if sh.rowLock == Some(pid) then None else sh.rowLock,
        mintLock := if sh.mintLock == Some(pid) then None else sh.mintLock)
  }

  function Spawn(s: State, pid: Pid, p: Proc): State {
    if pid in s.procs then s else s.(procs := s.procs[pid := p])
  }

  function Apply(s: State, a: Action): State {
    match a
    case Tick(d) => s.(sh := s.sh.(clock := s.sh.clock + d))
    case SignUp(id, username) =>
      s.(sh := s.sh.(db := s.sh.db.(users := s.sh.db.users + [User(id, username, Member)])))
    case NewRequest(pid, input, replica) =>
      Spawn(s, pid, Request(Req(input, replica, AnyUserExists(s.sh.db), false, false, 0, "", AtGate)))
    case NewMint(pid, ttl, refuse, only) => Spawn(s, pid, Minting(Mint(ttl, refuse, only, false, MBegin)))
    case NewBoot(pid, stderr, ttl) => Spawn(s, pid, Booting(stderr, ttl, BStart))
    case Go(pid, c) =>
      if pid !in s.procs then s
      else var r := Advance(s.sh, pid, s.procs[pid], c); State(r.0, s.procs[pid := r.1])
    case Crash(pid) =>
      if pid !in s.procs then s else State(Release(s.sh, pid), s.procs[pid := Crashed])
  }

  /** The state after any finite schedule. */
  function Run(t0: Time, schedule: seq<Action>): State {
    if schedule == [] then Init(t0)
    else Apply(Run(t0, schedule[..|schedule| - 1]), schedule[|schedule| - 1])
  }
}
