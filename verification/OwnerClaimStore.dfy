/** The owner-claim statements and the Go functions built on them, updating the
    tables in place, as one caller running alone sees them. The step system of
    module OwnerClaim interleaves the same writes. */
module OwnerClaimStore {
  import opened Wrappers
  import opened OwnerClaim

  datatype TokenState = TokenState(present: bool, live: bool, generation: nat)

  datatype BootOutcome = BootOutcome(claimed: bool, minted: bool, superseded: bool, degraded: bool, generation: nat)

  datatype StatementError = CheckViolated

  class ClaimStore {
    var users: seq<User>
    var credentials: seq<Credential>
    var token: Option<TokenRow>
    var audit: seq<AuditRow>
    var clock: Time

    function Contents(): (db: Db)
      reads this
    {
      Db(users, credentials, token, audit)
    }

    constructor (t0: Time)
      ensures Contents() == EmptyDb && clock == t0
    {
      users, credentials, token, audit, clock := [], [], None, [], t0;
    }

    // ------------------------------------------------------------- statements

    /** Redeem, owner and credential in one statement; no row when the guarded
        update matches nothing, and then nothing is written. */
    method ClaimOwner(digest: Digest, id: nat, username: string, secret: string) returns (generation: Option<nat>)
      modifies this`users, this`credentials, this`token
      ensures generation.Some? <==> old(users) == [] && old(RedeemMatches(Contents(), digest, clock))
      ensures generation.Some? ==> generation.value == old(token).value.generation
      ensures generation.Some? ==>
                Contents() == WriteClaim(old(Contents()), clock, id, username, secret).(audit := old(audit))
      ensures generation.None? ==> Contents() == old(Contents())
    {
      if token.None? || token.value.digest != digest || !Live(token.value, clock) || users != [] {
        return None;
      }
      generation := Some(token.value.generation);
      token := Some(token.value.(consumedAt := Some(clock)));
      users := users + [User(id, username, Owner)];
      credentials := credentials + [Credential(id, secret)];
    }

    /** The upsert: no row on a claimed instance; otherwise the old digest ceases
        to exist and the generation rises by one, unless the table's CHECK refuses a
        row that would expire no later than it was minted. */
    method MintOwnerClaimToken(digest: Digest, ttl: int) returns (r: Result<Option<nat>, StatementError>)
      modifies this`token
      ensures r.Err? <==> users == [] && ttl <= 0
      ensures r == Ok(None) <==> users != []
      ensures r.Err? || r.value.None? ==> token == old(token)
      ensures r.Ok? && r.value.Some? ==>
                && token == Some(TokenRow(digest, r.value.value, clock + ttl, None, None))
                && Live(token.value, clock)
                && r.value.value == (if old(token).Some? then old(token).value.generation else 0) + 1
    {
      if users != [] { return Ok(None); }
      if clock + ttl <= clock { return Err(CheckViolated); }
      var next := if token.Some? then token.value.generation + 1 else 1;
      token := Some(TokenRow(digest, next, clock + ttl, None, None));
      r := Ok(Some(next));
    }

    method SupersedeLiveOwnerClaimToken() returns (n: nat)
      modifies this`token
      ensures n == 1 <==> old(SupersedeMatches(Contents()))
      ensures n == 0 ==> token == old(token)
      ensures n == 1 ==> token == Some(old(token).value.(supersededAt := Some(clock)))
      ensures n <= 1 && (token.Some? ==> token.value.consumedAt.Some? || token.value.supersededAt.Some?)
    {
      if token.None? || token.value.consumedAt.Some? || token.value.supersededAt.Some? { return 0; }
      token := Some(token.value.(supersededAt := Some(clock)));
      n := 1;
    }

    /** State: absent, or the row's liveness by the database clock. */
    method State() returns (st: TokenState)
      ensures st.present <==> token.Some?
      ensures st.live <==> token.Some? && Live(token.value, clock)
      ensures st.generation == if token.Some? then token.value.generation else 0
    {
      if token.None? { return TokenState(false, false, 0); }
      st := TokenState(true, Live(token.value, clock), token.value.generation);
    }

    // ------------------------------------------------------------- operations

    /** Mint alone: each answer under exactly its condition, and a mint that
        destroys a live generation records that it did. */
    method Mint(ttl: int, refuseIfUsersExist: bool, onlyIfNoLiveToken: bool, digest: Digest)
      returns (r: MintResult)
      modifies this`token, this`audit
      ensures var wasLive := old(token).Some? && Live(old(token).value, clock);
              && (r.LiveTokenExists? <==> onlyIfNoLiveToken && wasLive && !(refuseIfUsersExist && users != []))
              && (r.HasUsers? <==> users != [] && (refuseIfUsersExist || !(onlyIfNoLiveToken && wasLive)))
              && (r.MintedToken? <==> users == [] && !(onlyIfNoLiveToken && wasLive) && ttl > 0)
              && (r.MintFailed? <==> users == [] && !(onlyIfNoLiveToken && wasLive) && ttl <= 0)
              && (r.LiveTokenExists? ==> r.generation == old(token).value.generation)
              && (r.MintedToken? ==>
                    && token.Some? && r.generation == token.value.generation
                    && Contents() == WriteMint(old(Contents()), digest, clock, ttl,
                                               if wasLive then Some(old(token).value.generation) else None))
              && (!r.MintedToken? ==> Contents() == old(Contents()))
    {
      if refuseIfUsersExist && users != [] { return HasUsers; }
      var prior := State();
      if onlyIfNoLiveToken && prior.live { return LiveTokenExists(prior.generation); }
      var rows := audit + (if prior.live then [Superseded(prior.generation)] else []);
      var stored := MintOwnerClaimToken(digest, ttl);
      if stored.Err? { return MintFailed; }
      if stored.value.None? { return HasUsers; }  // rolled back: the audit row with it
      var generation := stored.value.value;
      audit := rows + [Minted(generation)];
      r := MintedToken(generation);
    }

    method SupersedeLive() returns (n: nat)
      modifies this`token, this`audit
      ensures n == 1 <==> old(SupersedeMatches(Contents()))
      ensures n <= 1
      ensures Contents() == if n == 1 then WriteSupersede(old(Contents()), clock) else old(Contents())
      ensures token.Some? ==> !Live(token.value, clock)
    {
      n := SupersedeLiveOwnerClaimToken();
      if n == 0 { return; }
      audit := audit + [Superseded(token.value.generation)];
    }

    /** Boot alone: a claimed instance ends with no live token; an unclaimed one
        mints exactly when told to announce and no token is live. */
    method Boot(announceStderr: bool, ttl: int, digest: Digest) returns (o: BootOutcome)
      modifies this`token, this`audit
      ensures var wasLive := old(token).Some? && Live(old(token).value, clock);
              && (o.claimed <==> users != [])
              && (o.minted <==> users == [] && announceStderr && !wasLive && ttl > 0)
              && (o.degraded <==> users == [] && announceStderr && !wasLive && ttl <= 0)
              && (o.superseded <==> users != [] && old(SupersedeMatches(Contents())))
              && (users != [] && token.Some? ==> !Live(token.value, clock))
              && (wasLive && users == [] ==>
                    Contents() == old(Contents()) && o.generation == old(token).value.generation)
              && (o.minted ==> token.Some? && Live(token.value, clock) && token.value.digest == digest
                               && token.value.generation == o.generation)
    {
      if users != [] {
        var n := SupersedeLive();
        return BootOutcome(true, false, n > 0, false, 0);
      }
      var st := State();
      if !announceStderr { return BootOutcome(false, false, false, false, st.generation); }
      var r := Mint(ttl, false, true, digest);
      // HasUsers is the benign race with a claim: the instance is claimed.
      if r.LiveTokenExists? || r.MintedToken? { st := st.(generation := r.generation); }
      o := BootOutcome(r.HasUsers?, r.MintedToken?, false, r.MintFailed?, st.generation);
    }

    /** Claim alone: the claimed check comes before any look at the token, every
        token refusal looks the same, and only the live token's holder succeeds. */
    method Claim(input: Input, id: nat, secret: string) returns (r: ClaimAnswer)
      modifies this`users, this`credentials, this`token, this`audit
      ensures var good := old(RedeemMatches(Contents(), input.digest, clock));
              && (r.AlreadyClaimed? <==> old(users) != [])
              && (r.FieldError? <==> old(users) == [] && input.check.BadField?)
              && (r.Success? <==> old(users) == [] && input.check.WellFormed? && good)
              && (r.TokenNotAccepted? <==>
                    old(users) == [] && (input.check.Malformed? || (input.check.WellFormed? && !good)))
              && (r.Success? ==>
                    && r.generation == old(token).value.generation
                    && Contents() == WriteClaim(old(Contents()), clock, id, input.username, secret))
              && (!r.Success? ==> Contents() == old(Contents()))
    {
      if users != [] { return AlreadyClaimed; }
      var accepted := false;
      match input.check {
        case Malformed =>
        case BadField => return FieldError;
        case WellFormed =>
          accepted := token.Some? && input.digest == token.value.digest && Live(token.value, clock);
      }
      if !accepted {
        r := ClassifyRefusal();
        return;
      }
      if users != [] { return AlreadyClaimed; }  // the gate inside the transaction
      var created := ClaimOwner(token.value.digest, id, input.username, secret);
      if created.None? {
        r := ClassifyRefusal();
        return;
      }
      audit := audit + [Succeeded(id, input.username)];
      r := Success(created.value);
    }

    method ClassifyRefusal() returns (r: ClaimAnswer)
      ensures r == if users != [] then AlreadyClaimed else TokenNotAccepted
    {
      if users != [] { return AlreadyClaimed; }
      r := TokenNotAccepted;
    }
  }
}
