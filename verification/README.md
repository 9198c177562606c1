# Vizra core, modelled and proved in Dafny

This project models the parts of Vizra core that carry its hardest promises and proves those promises for every input
and every run. To verify it with Dafny 4.11: `dafny verify dfyconfig.toml`.

| files | what they model |
|---|---|
| `OwnerClaim`, `OwnerClaimSafety`, `OwnerClaimTheorems`, `OwnerClaimAnswers`, `OwnerClaimLeftover`, `OwnerClaimStore` | the one-time owner claim: any number of claim requests, mints and boots over one token row, the users table and the audit log |
| `JobTable`, `JobProtocol`, `JobTheorems`, `JobDeadline`, `JobBackoff`, `JobStore` | the durable job table, its leases and the deadline for writing outcomes, with workers that crash and keep stale copies of rows |
| `MakefileLines`, `DollarRefs`, `MakefileGrammar`, `MakefileStatements`, `MakefileFolding`, `MakefileWriting` | the one Makefile line reader, the allowlist grammar over its logical lines, and lines written for both |
| `Bytes`, `Boxes`, `Mp4`, `Mp4Header`, `Bits`, `Vp8l`, `Vp8lFigures`, `Riff`, `AnimatedWebp`, `Exif`, `ExifFixture` | byte-level fixture writers against the readers that do not trust them |
| `Raster` | the three-pass scene painter against the naive per-pixel picture |
| `Readiness` | the single-flight readiness cache |
| `Limiter`, `ClaimAudit` | the in-process rate limiter, and the audit rows the claim route writes through it |
| `Decimals`, `SearchHmac` | the signed-request scheme of the internal search API |
| `LoadCorpus` | Newton's integer square root in 64-bit arithmetic, and the corpus image sizes |

## How it is modelled

Concurrent code is a step system. `Apply(state, action)` is total and everything the code does not decide (who runs
next, clock readings, failures, crashes, fresh random values) is in the action, so a theorem about every `schedule` is
a theorem about every interleaving. Database statements are guarded functions on the tables. A statement that waits for
a row lock reads its snapshot in one step and writes in a later one, against the committed row; `now()` is the start of
the transaction. Code that updates buffers, fields or maps in place is a method or a class whose contract ties it to a
function, and the theorems are about that function.

The Unicode format-character class, the space class, JPEG decoding, the keyed hash and the body hash are function
parameters. Time and integers are unbounded except where a width matters: byte fields, box and chunk sizes, TIFF counts
and offsets, `uint8` buffers, the 64-bit generator and the square root's sums are truncated as the source truncates
them. The scene painter's generator has its multiplier and increment as parameters (`Generator`); `Scene` fixes them to
the source's constants. A worker's clock and the database's are one clock.

## Where the code does less than it reads

Each of these is proved with its exact condition and an input at which it happens.

- The context for writing a job's outcome expires ten seconds after the run began, but it is made before the handler is
  called, and a handler may run for minutes. The run that holds a job changes its row exactly when its handler returned
  within those ten seconds; later outcomes are lost and the row stays leased (`JobTheorems.HolderOutcomeLandsIff`,
  `JobDeadline.OutcomeIsLost`). A job all of whose outcomes are lost never succeeds or fails, and is dead only once the
  sweep has used up its attempts (`JobDeadline.UnrecordedNeverEnds`).
- The job guards name the worker, not the claim. An outcome or a heartbeat from a run whose claim is over still finds
  the row when the same worker has claimed the job again (`JobTheorems.StaleOutcomeLandsIff`,
  `JobTheorems.StaleHeartbeatRenewsIff`, with a concrete run in `JobTheorems.StaleOutcomeCanLand`), and only then
  (`JobTheorems.LostLeaseChangesNothing`). No stale outcome lands where every run begins with more than the ten seconds
  of its lease left (`JobDeadline.PromptOutcomesAreOwn`).
- A mint whose statement read the users table before a claim committed replaces the consumed row afterwards, so a live
  token can outlive the claim. At most one mint lands so, and one can exactly when it was past its users read when the
  claim committed (`OwnerClaimLeftover.LeftoverIffMintPending`, `OwnerClaimLeftover.AtMostOneLateMint`,
  `OwnerClaimTheorems.LiveTokenCanOutliveTheClaim`). No second owner follows (`OwnerClaimTheorems.AtMostOneOwner`).
- The identifier pattern ends in `$`, which also matches before a final LF, so the ban on a reference to MAKE can be
  passed by text that holds an LF. Logical lines hold none (`DollarRefs.TrailingLFEscapesTheMakeBan`,
  `DollarRefs.AcceptedIffDeclared`).
- The MP4 verifier refuses a chunk offset with fewer than eight bytes after it, so it refuses its own writer's file
  when the samples together hold fewer than eight bytes (`Mp4.VerifiedIff`, `Mp4.EmptySamplesAreRefused`). Twelve such
  samples include empty ones, which no JPEG encoder writes: the case arises only because `decodes` is any test.
- A TIFF directory of 65536 entries is written with count zero and reads back empty (`Exif.ParsedIff`,
  `Exif.FullDirectoryIsLost`).
- A RIFF file whose body reaches 2^32 - 4 bytes, and a box of 2^32 bytes, are truncated by their size fields
  (`Riff.ScanRecoversIff`, `Riff.LongFileIsRefused`, `Boxes.ScanIffWritten`, `Boxes.LongBoxIsRefused`).
- The animated WebP verifier indexes the colours it expects by frame, so a frame too many ends the program instead of
  being reported (`AnimatedWebp.VerifiedIs`, `AnimatedWebp.FrameTooMany`).
- The integer square root of the largest 64-bit integer is negative, because its first guess wraps
  (`LoadCorpus.IsqrtIsRootIff`, `LoadCorpus.IsqrtIs`).
- A readiness computation that panics leaves its flight open: nothing is recorded again, and calls that join it wait
  for good (`Readiness.NobodyIsStranded`, `Readiness.ReleasableIff`, `Readiness.LostForGood`,
  `Readiness.PanicCanStrand`).
- With a limit below one a refused call opens a rate-limit window (`Limiter.RefusalKeepsTheEndIff`).
- A waiter of the readiness cache may be answered with a computation that had returned, but was not yet recorded, when
  its call began. A joining call is sure of a younger one exactly when no computation has returned by then
  (`Readiness.JoinIsFreshIff`, `Readiness.LateJoinHappens`).

## Model

| member | source | states |
|---|---|---|
| `OwnerClaimTheorems.AtMostOneOwner` | internal/ownerclaim/ownerclaim.go:462-532 | in every interleaving there is at most one owner, with exactly one credential and one `succeeded` row naming it, without a unique index over owners |
| `OwnerClaimTheorems.OnlyOneCreated` | internal/ownerclaim/ownerclaim.go:394-532 | at most one request is ever answered 201, and the stored owner and credential are that request's own |
| `OwnerClaimAnswers.StatusIff` | internal/httpapi/setup.go:407-480 | over every schedule exactly one thing decided an answered request, and its status says which: 201 a commit whose answer arrived, 409 an instance found claimed or a name found taken, 400 a bad field, 403 a refused token within the failure budget, 429 one beyond it or the route's ceiling, 503 an answer that did not come |
| `OwnerClaimAnswers.RedeemerIsTold` | internal/ownerclaim/ownerclaim.go:462-532 | over every schedule the request that redeemed the token, once answered, is told 201, or 503 when the commit's answer was lost, and nothing else |
| `OwnerClaimAnswers.HolderIsCreated` | internal/httpapi/setup.go:246-344 | from every reachable unclaimed state with a live token and the row free, a well-formed request with that token's digest, running alone with every statement answered, ends in 201 with its own name and verifier stored and the token consumed |
| `OwnerClaimAnswers.StepAnswers` | internal/httpapi/setup.go:510-528 | the status for what decided a request, the audit row each refusal leaves, and the claimed bit set with every 201 and 409 |
| `OwnerClaimAnswers.MintAloneMints` | internal/ownerclaim/ownerclaim.go:255-334 | from every reachable unclaimed state with the locks free, a mint running alone stores its own digest live, one generation on |
| `OwnerClaimAnswers.BootAloneRetires` | internal/ownerclaim/announce.go:57-116 | from every reachable claimed state with an open token, a boot running alone supersedes exactly that token with one audit row |
| `OwnerClaimTheorems.OwnerRedeemedAMintedToken` | internal/store/sqlcgen/owner_claim.sql.go:36-84 | an owner exists only through the digest of a minted generation, unexpired when the redeeming transaction began |
| `OwnerClaimTheorems.HashNeedsAMintedToken` | internal/ownerclaim/ownerclaim.go:438-451 | a password is hashed only for a digest some mint really stored |
| `OwnerClaimTheorems.RefusedOnlyWhileUnclaimed` | internal/ownerclaim/ownerclaim.go:580-609 | a 403, its audit row and its charge imply that no user existed at any instant up to a read made after the last token examination |
| `OwnerClaimTheorems.ClaimedInstanceNeverExaminesTokens` | internal/httpapi/setup.go:250-283 | a request that starts on a claimed instance is never hashed for, never charged, and answered 409, 503, the route ceiling's 429 or a refusal of its own form |
| `OwnerClaimTheorems.ClaimedBitIsSound` | internal/httpapi/setup.go:85-109 | the cached positive bit is set only if a user exists, and never unset |
| `OwnerClaimTheorems.GenerationCountsMints` | internal/store/sqlcgen/owner_claim.sql.go:172-184 | the stored generation is the number of `minted` rows, which are numbered 1, 2, 3 without a gap |
| `OwnerClaimTheorems.BootMintSparesLiveToken` | internal/ownerclaim/ownerclaim.go:277-284 | no boot's mint replaces a token that is live by the database clock |
| `OwnerClaimTheorems.OnlyAMintRevives` | internal/store/sqlcgen/owner_claim.sql.go:172-184 | a generation once dead stays dead; only a mint makes the row live |
| `OwnerClaimLeftover.LeftoverIffMintPending` | internal/ownerclaim/ownerclaim.go:255-334 | from any reachable state whose redeemed row is still in place, some continuation leaves an unconsumed row exactly when a mint is past its users read and not yet committed, and a live one exactly when such a mint expires later than now |
| `OwnerClaimLeftover.AtMostOneLateMint` | internal/store/sqlcgen/owner_claim.sql.go:172-184 | in every interleaving at most one mint lands after the redemption, and the row is unconsumed exactly when one has |
| `OwnerClaimTheorems.LiveTokenCanOutliveTheClaim` | internal/store/sqlcgen/owner_claim.sql.go:172-184 | a concrete schedule that leaves a live token after a claim |
| `OwnerClaimSafety.RunKeeps` | internal/ownerclaim/ownerclaim.go:394-532 | every schedule keeps the invariants of the tables, of every call in progress and of the locks |
| `OwnerClaimStore.ClaimStore.ClaimOwner` | internal/store/sqlcgen/owner_claim.sql.go:36-84 | the redeem writes owner and credential exactly when the guarded update matches, and otherwise writes nothing |
| `OwnerClaimStore.ClaimStore.MintOwnerClaimToken` | internal/store/sqlcgen/owner_claim.sql.go:172-184 | no row on a claimed instance; the table's CHECK refuses a ttl of zero or less; otherwise the old digest is gone, the row is live and the generation is one higher |
| `OwnerClaimStore.ClaimStore.SupersedeLiveOwnerClaimToken` | internal/store/sqlcgen/owner_claim.sql.go:217-226 | exactly a row neither consumed nor superseded is marked superseded now; any other row is left alone |
| `OwnerClaimStore.ClaimStore.Mint` | internal/ownerclaim/ownerclaim.go:255-334 | each answer of a mint under exactly its condition, with the new row and the `minted` note |
| `OwnerClaimStore.ClaimStore.SupersedeLive` | internal/ownerclaim/ownerclaim.go:339-363 | an open token is retired and one `superseded` note written, or nothing changes; no live token remains either way |
| `OwnerClaimStore.ClaimStore.Boot` | internal/ownerclaim/announce.go:57-116 | a claimed instance ends with no live token; an unclaimed one mints exactly when told to announce and none is live |
| `OwnerClaimStore.ClaimStore.Claim` | internal/ownerclaim/ownerclaim.go:394-532 | a lone claim succeeds exactly for the live token's holder on an unclaimed instance, and every token refusal looks the same |
| `JobTheorems.ReachableTable` | internal/store/sqlcgen/jobs.sql.go:31-49 | every reachable table: attempts at most max_attempts, queued rows claimable and unheld, leased rows with holder and deadline, one live job per kind and idempotency key |
| `JobTheorems.FinishedForGood` | internal/store/sqlcgen/jobs.sql.go:100-107 | a finished row never changes again, in any run |
| `JobTheorems.HolderOutcomeLandsIff` | internal/jobs/worker.go:290-374 | the holder's outcome changes the table exactly when its handler returned within ten seconds of the run's start; then the statement picked ends the lease in the state, with the message and at the times the result calls for, and touches no other row |
| `JobTheorems.OneHolder` | internal/store/sqlcgen/jobs.sql.go:31-49 | at most one run holds a job at any time |
| `JobTheorems.LostLeaseChangesNothing` | internal/jobs/worker.go:387-409 | from any instant a run held its job, until the job is handed to that worker again: its guard matches exactly while its claim is the latest, and its outcome lands exactly then and in time; once the claim is over no outcome or heartbeat of the run changes anything |
| `JobTheorems.StaleOutcomeLandsIff` | internal/store/sqlcgen/jobs.sql.go:418-428 | a stale run's outcome lands exactly when it is written in time and the same worker holds a later claim (and, for a retry, attempts remain) |
| `JobTheorems.StaleHeartbeatRenewsIff` | internal/store/sqlcgen/jobs.sql.go:322-328 | a stale run's heartbeat changes the lease exactly when the same worker holds a later claim with another deadline |
| `JobTheorems.StaleOutcomeCanLand` | internal/store/sqlcgen/jobs.sql.go:100-107 | a concrete run, with the default lease, in which a stale outcome and a stale heartbeat land |
| `JobTheorems.UnexpiredLeaseIsSafe` | internal/store/sqlcgen/jobs.sql.go:452-466 | before its deadline a lease ends only by an outcome of its own worker, written in time |
| `JobTheorems.Accounting` | internal/store/sqlcgen/jobs.sql.go:31-49 | moves so far plus the remaining measure never exceed twice max_attempts, and deliveries equal attempts |
| `JobTheorems.DeliveriesAreBounded` | internal/jobs/worker.go:290-374 | under any schedule a job is delivered at most max_attempts times and moves at most twice that often |
| `JobDeadline.OutcomeIsLost` | internal/jobs/worker.go:310-333 | a run in which a holder returns after twelve seconds and its success changes nothing |
| `JobDeadline.UnrecordedNeverEnds` | internal/jobs/worker.go:310-374 | over every schedule a job none of whose outcomes is recorded is live, or dead by the sweep with all attempts used |
| `JobDeadline.PromptOutcomesAreOwn` | internal/jobs/worker.go:290-374 | over every schedule in which runs begin with ten seconds of lease left, a run in time to write holds its job, so outcomes land exactly when in time and none is stale |
| `JobBackoff.RetryWaits` | internal/store/sqlcgen/jobs.sql.go:418-428 | over every schedule a job put back by a retryable error is not delivered again before its rung and jitter have passed, at least nine tenths of 30 s, 2 min, 10 min, 1 h and 6 h by attempt |
| `JobBackoff.RetryIsDueIff` | internal/store/sqlcgen/jobs.sql.go:31-49 | and as long as nobody was handed it since, a claim for its kind delivers it exactly when they have |
| `JobBackoff.SweptIsClaimableIff` | internal/store/sqlcgen/jobs.sql.go:452-466 | a leased job can be claimed right after a sweep exactly when its lease has elapsed and attempts remain; it is then leased to the claimer for the claimer's own lease, one attempt on |
| `JobProtocol.StepMoves` | internal/jobs/worker.go:290-374 | every step moves each row along a legal transition and keeps every row well formed |
| `JobProtocol.StepUnique` | internal/store/sqlcgen/jobs.sql.go:159-170 | no step, retry and sweep included, makes two live rows share kind and key |
| `JobTable.BackoffClimbs` | internal/jobs/jobs.go:241-250 | the backoff ladder never shortens, stays between 30 seconds and 6 hours, and with any jitter of a tenth puts a retry at least 27 seconds ahead |
| `JobStore.Store.Enqueue` | internal/jobs/jobs.go:123-210 | validation in order, defaults, and either one new queued row or the live job that already has the key |
| `JobStore.Store.GetLiveJobByIdempotencyKey` | internal/store/sqlcgen/jobs.sql.go:290-300 | finds a live row with that kind and key exactly when one exists |
| `JobStore.Store.ClaimJob` | internal/store/sqlcgen/jobs.sql.go:31-49 | leases an eligible row that no other eligible row precedes to the claimer until now plus the lease, one attempt on, or nothing when none is eligible |
| `JobStore.Store.FinishRun` | internal/jobs/worker.go:310-374 | a holder's run changes exactly one row, and ends the lease, exactly when the database answers within ten seconds of its start; that row's state, message and finish time are the result's, and a retry's run_after is now plus the literal rung and the jitter; otherwise nothing changes |
| `JobStore.Store.Sweep` | internal/store/sqlcgen/jobs.sql.go:452-466 | exactly the elapsed leases are taken; rows out of attempts die, the rest can be claimed again |
| `JobStore.TallySweep` | internal/jobs/worker.go:437-482 | the two logged tallies count the swept rows by what became of them |
| `MakefileLines.ReaderKeepsText` | scripts/makefile_pin.py:224-254 | for any text the segments of the logical lines are its physical lines in order, with correct numbers |
| `MakefileLines.ReadLines` | scripts/makefile_pin.py:225-254 | the reader's loops compute exactly the logical lines those theorems speak of |
| `MakefileLines.JoinGroup` | scripts/makefile_pin.py:236-246 | the continuation loop takes exactly the group of physical lines that belong together |
| `MakefileLines.StripComment` | scripts/makefile_pin.py:202-221 | cuts at the first unescaped `#` and says whether it stood inside an expansion |
| `MakefileLines.RecipeLines` | scripts/makefile_pin.py:267-277 | returns exactly the recipe entries that follow the rule line |
| `MakefileLines.NumbersIncrease` | scripts/makefile_pin.py:225-254 | logical line numbers strictly increase |
| `MakefileFolding.FoldedReadsUnfolded` | scripts/makefile_pin.py:224-254 | a makefile whose lines are folded over any number of physical lines with any indents reads as those lines unfolded, one blank between pieces, one record each, with its number and the place of its last piece |
| `MakefileFolding.CommentIff` | scripts/makefile_pin.py:202-221 | a comment starts at a `#` exactly when escaped characters, expansion openings and plain characters other than `#` and backslash stand before it, and is refused exactly when those leave an expansion open |
| `MakefileFolding.LinesHaveCode` | scripts/makefile_pin.py:247-253 | of every line of every text: a recipe line has no comment; any other line's code is what stands before its comment |
| `DollarRefs.AcceptedIffGrammar` | scripts/makefile_pin.py:339-375 | the scanner reports nothing exactly for the printings of reference lists |
| `DollarRefs.AcceptedIffDeclared` | scripts/makefile_pin.py:339-375 | on text without LF that is exactly the declared grammar, with plain identifiers and never MAKE |
| `DollarRefs.PrintedIsAccepted` | scripts/makefile_pin.py:339-375 | whatever references are printed, the scanner accepts the text |
| `DollarRefs.Parse` | scripts/makefile_pin.py:339-375 | accepted text parses back to references that print to it |
| `DollarRefs.TrailingLFEscapesTheMakeBan` | scripts/makefile_pin.py:328-328 | a reference to MAKE is refused, and the same one with an LF before its bracket is not |
| `DollarRefs.DollarProblems` | scripts/makefile_pin.py:339-375 | the scanning loop reports exactly the problems of the recursive definition |
| `MakefileGrammar.RecipesPartitionTabLines` | scripts/makefile_pin.py:397-486 | for accepted text the recipes of its rules, one after the other, are its TAB lines: none lost, none shared |
| `MakefileGrammar.OneRuleOwnsEachTabLine` | scripts/makefile_pin.py:262-277 | each TAB line of accepted text belongs to exactly one rule, whose recipe holds it |
| `MakefileGrammar.ShapesCoverAcceptedText` | scripts/makefile_pin.py:397-486 | every logical line of accepted text is counted under exactly one of the five shapes |
| `MakefileGrammar.AcceptedRecipesUseDeclaredRefs` | scripts/makefile_pin.py:397-486 | recipe lines of accepted text are in the reference grammar and hold no shell expansion |
| `MakefileGrammar.RuleLineIsLiteral` | scripts/makefile_pin.py:327-327 | around the one colon of a rule line stand literal words and blanks only |
| `MakefileGrammar.PrintedRuleMatches` | scripts/makefile_pin.py:327-327 | every literal target with literal prerequisites is a rule line |
| `MakefileStatements.AdmittedIffStatement` | scripts/makefile_pin.py:440-484 | a line that is neither TAB, empty nor comment is admitted exactly when its code is the printing of an assignment of a name that is no directive word to a value in the reference grammar, of a `.PHONY` line, or of a rule, the last two on one physical line |
| `MakefileStatements.PrintedIsAdmitted` | scripts/makefile_pin.py:322-335 | every printed statement is admitted under its own shape, and opens a rule exactly when it is one |
| `MakefileStatements.WithoutOperatorRefused` | scripts/makefile_pin.py:440-484 | whatever holds neither a colon nor an equals sign is refused |
| `MakefileStatements.IncludeIsRefused` | scripts/makefile_pin.py:440-484 | `include x` and `export A` are refused |
| `MakefileStatements.AcceptedIffAllowed` | scripts/makefile_pin.py:397-486 | a text is accepted exactly when each logical line is free of forbidden characters and is a recipe line under an open rule with references of the grammar, an empty or comment line, or a printed statement |
| `MakefileGrammar.GrammarProblems` | scripts/makefile_pin.py:397-486 | the loop reports exactly the refusals, and its shape counts, of the per-line judgement that `MakefileStatements.AcceptedIffAllowed` characterises |
| `MakefileWriting.WrittenRuleReadsBack` | scripts/makefile_pin.py:397-486 | every literal rule with writable recipe lines is accepted as written, and its recipe reads back as those lines with their numbers |
| `MakefileWriting.LinesAlone` | scripts/makefile_pin.py:225-254 | a text of lines nobody continues is read line by line |
| `Boxes.ScanIffWritten` | internal/fixtures/mp4.go:177-193 | bytes scan to a list of boxes exactly when they are that list written and every box fits its size field |
| `Boxes.LongBoxIsRefused` | internal/fixtures/mp4.go:177-193 | a box of 2^32 bytes is written with size zero and refused |
| `Boxes.ScanBoxes` | internal/fixtures/mp4.go:177-193 | the scanning loop computes that scan, errors included |
| `Boxes.Descend` | internal/fixtures/mp4.go:205-222 | the path loop is repeated scan-and-find, errors included |
| `Boxes.FindBox` | internal/fixtures/mp4.go:195-202 | the first box of the type, or the miss |
| `Boxes.PayloadStands` | internal/fixtures/mp4.go:177-193 | what is read past the end of a found payload are the bytes that follow it in the file |
| `Bytes.Weights` | internal/fixtures/mp4.go:177-193 | which byte of a 32-bit number counts for what, in both byte orders |
| `Mp4.WalkVisitsSamples` | internal/fixtures/mp4.go:295-304 | for every sample list of any number whose file is under 2^32 bytes, the walk from the chunk offset visits exactly the samples, in order, and ends at end of file, or stops at one that does not decode |
| `Mp4.VerifiedIff` | internal/fixtures/mp4.go:279-304 | what verification answers for every sample list under 2^32 bytes: wrong count unless twelve, refused under eight bytes in all, otherwise the walk, accepted exactly when every sample decodes |
| `Mp4.EmptySamplesAreRefused` | internal/fixtures/mp4.go:291-294 | the fixture's file over twelve empty samples is refused at the chunk offset |
| `Mp4Header.FixturePassesIff` | internal/fixtures/mp4.go:224-306 | the whole verifier on the whole writer: for every sample list whose file is under 2^32 bytes it passes exactly when the samples are twelve, hold eight bytes and each decode; otherwise the first failing check, duration before count, is the answer |
| `Mp4Header.HeadedPassesIff` | internal/fixtures/mp4.go:224-275 | the same for any file whose five header fields are right: box order, brand, handler, one 160 by 120 jpeg entry, and a timescale of 600 with a duration |
| `Mp4Header.TablesAgree` | internal/fixtures/mp4.go:83-152 | movie, track and media headers declare the same 50 ticks a frame at 600 a second, the time table is one run of all samples, and the chunk table puts them all in one chunk |
| `Mp4.TablesAreFound` | internal/fixtures/mp4.go:205-222 | descending six boxes finds the written stsz and stco |
| `Mp4.OffsetIsMdatPayload` | internal/fixtures/mp4.go:146-153 | the two-pass chunk offset is where the sample bytes start, just past the mdat header |
| `Mp4.MoovLengthIsFixed` | internal/fixtures/mp4.go:83-152 | moov has the same length whatever offset is written into it |
| `Mp4.BuildFile` | internal/fixtures/mp4.go:63-153 | the writer always succeeds with the laid-out file; its length check never fires |
| `Mp4.VerifySamples` | internal/fixtures/mp4.go:279-304 | the sample loop computes the walk those theorems speak of; a read past a table goes on into the file and its spare capacity, and panics beyond |
| `Bits.FieldsReadBack` | internal/fixtures/webp.go:60-73 | for any list of fields, reading the same widths returns each value modulo 2^width and stops where the fields end |
| `Bits.ReadConsumes` | internal/fixtures/webp.go:60-73 | a read within the stream consumed exactly the bits of the value it returned |
| `Bits.BitWriter.Write` | internal/fixtures/webp.go:35-44 | the byte buffer and the partial byte together hold exactly the fields written so far |
| `Bits.BitWriter.Flush` | internal/fixtures/webp.go:46-52 | the bytes hold the written bits and fewer than eight zero bits |
| `Bits.BitReader.Read` | internal/fixtures/webp.go:60-73 | returns the next bits as a number and moves past them, or keeps its place and records the end |
| `Vp8l.ReadSolidIffHolds` | internal/fixtures/webp.go:120-161 | the reader returns a frame exactly for byte strings that hold that frame's bits, with any distance symbol and any tail |
| `Vp8l.WriteSolid` | internal/fixtures/webp.go:82-116 | refused exactly outside 1..16384; otherwise the frame's bits, which the reader gives back as the same frame |
| `Vp8l.ReadSolidFrame` | internal/fixtures/webp.go:120-161 | the chain of reads and checks computes that reader, each error at its own place |
| `Vp8lFigures.SolidFigures` | internal/fixtures/webp.go:82-116 | in whatever bytes the reader takes for a frame: width and height less one at bits 0 and 14, alpha at 28, zeros to 34, then a simple code each for green, red, blue and alpha at 35, 46, 57 and 68 |
| `Riff.ScanRecoversIff` | internal/fixtures/webp.go:249-271 | every chunk list, odd lengths included, is recovered exactly when the size field can hold the length, and refused for that field otherwise |
| `Riff.LongFileIsRefused` | internal/fixtures/webp.go:249-271 | a chunk of 2^32 - 12 bytes makes a file refused for its size field |
| `Riff.ScanRiff` | internal/fixtures/webp.go:249-271 | the scanning loop computes that scan, a missing last pad byte and ignored tail included |
| `AnimatedWebp.VerifiedIs` | internal/fixtures/webp.go:273-333 | the whole verifier on the whole writer, for every list of frames of any bytes: the first frame with a zero 24-bit duration, that does not decode, is not 32 by 32 or has another colour decides; too few frames are reported and one too many panics |
| `AnimatedWebp.BuiltVerifiesIff` | internal/fixtures/webp.go:273-333 | a built file verifies against some colours exactly when they are its frames' own, in order, and no duration is a multiple of 2^24 |
| `AnimatedWebp.FrameTooMany` | internal/fixtures/webp.go:324-326 | the file of the wanted frames and one more ends the verifier with an index out of range |
| `AnimatedWebp.BuildAnimatedWebp` | internal/fixtures/webp.go:197-238 | the writer's loop builds the file of parts that decode to the frames given, and it verifies against exactly their colours |
| `AnimatedWebp.VerifyAnimatedWebp` | internal/fixtures/webp.go:273-333 | the chunk checks and the frame loop compute that verifier, each error at its own place |
| `AnimatedWebp.FixtureVerifies` | internal/fixtures/webp.go:188-195 | the three frames of the fixture verify |
| `Exif.ParsedIff` | internal/fixtures/jpeg.go:310-383 | parsing a built segment returns every inline and out-of-line value of both directories, exactly when neither has 65536 entries |
| `Exif.FullDirectoryIsLost` | internal/fixtures/jpeg.go:319-368 | a well-formed directory with all 65536 tags, GPS pointer included, is refused for want of the pointer |
| `Exif.FixtureParses` | internal/fixtures/jpeg.go:103-133 | the fixture's own two directories meet every hypothesis, so all of their values are returned |
| `ExifFixture.PassesIff` | internal/fixtures/jpeg.go:401-427 | a segment built of any two directories passes the fixture's checks exactly when the first says orientation six and the second has both coordinates and references, the latitude being three rationals |
| `ExifFixture.FixturePasses` | internal/fixtures/jpeg.go:103-133 | the fixture's segment parses to orientation 6 and 51 28 40.12 N, 0 0 5.31 W, and passes |
| `Exif.PointerIsNeeded` | internal/fixtures/jpeg.go:374-376 | a segment without a GPS pointer is refused |
| `Exif.ValuesAre` | internal/fixtures/jpeg.go:319-368 | of an ascending directory the value map holds each entry's value under its tag and no other tag |
| `Exif.RegionsAreApart` | internal/fixtures/jpeg.go:134-151 | payload regions of the two directories are even-aligned, in bounds, hold their payloads and do not overlap |
| `Exif.RegionIsApart` | internal/fixtures/jpeg.go:140-151 | within one directory payload regions are even-aligned, hold their payloads and end before the next begins |
| `Exif.TiffShape` | internal/fixtures/jpeg.go:134-188 | a built segment has directories and data exactly at the computed offsets |
| `Exif.ShortIsHonest` | internal/fixtures/jpeg.go:56-62 | a SHORT entry is well formed and means its two bytes |
| `Exif.AsciiIsHonest` | internal/fixtures/jpeg.go:64-73 | a string of any length becomes a well-formed entry that means it with its NUL, inline or not |
| `Exif.BytesAreHonest` | internal/fixtures/jpeg.go:75-83 | bytes of any length become a well-formed entry that means them |
| `Exif.RationalsAreHonest` | internal/fixtures/jpeg.go:86-93 | any number of rationals becomes a well-formed entry that means them |
| `Exif.DataArea.Put` | internal/fixtures/jpeg.go:142-151 | appends the payload, keeps the buffer even and answers where the payload went |
| `Exif.WriteIfd` | internal/fixtures/jpeg.go:153-173 | writes the directory and its payloads as laid out |
| `Exif.BuildExif` | internal/fixtures/jpeg.go:103-189 | the buffers come to exactly the laid-out segment |
| `Exif.ReadDirectory` | internal/fixtures/jpeg.go:319-368 | the entry loop computes the directory reader, stopping at the first error; an offset and size whose 32-bit sum wraps panic |
| `Exif.ParseExif` | internal/fixtures/jpeg.go:310-383 | the parser computes that reader over both directories |
| `Raster.Scene` | internal/fixtures/raster.go:29-115 | for all sizes and seeds every pixel of the three passes is the naive pixel, opaque, at its place, and its bytes are the literal figures of `Raster.PixelInFigures` |
| `Raster.PixelOf` | internal/fixtures/raster.go:29-115 | the four bytes at any (x, y) are gradient, in-order block averages, noise at (31y+17x) mod 4096, clamp, and 255 |
| `Raster.PixelInFigures` | internal/fixtures/raster.go:29-115 | each byte in numbers: 40 + 200x/w, 30 + 180y/h and 60 + 150(x+y)/(w+h), halved with the draws of each covering block in order, plus the noise for red and green, minus it for blue, clamped |
| `Raster.BarePixel` | internal/fixtures/raster.go:72-114 | under no block the bytes are exactly that background and noise, unclamped and within eight of it |
| `Raster.PixelUnderOneBlock` | internal/fixtures/raster.go:83-114 | under one block they are the halved sum with that block's own draws, moved by the noise |
| `Raster.FirstDraws` | internal/fixtures/raster.go:14-22 | the generator's first words and first noise draw of seed zero |
| `Raster.BlendedIsColour` | internal/fixtures/raster.go:69-94 | every intermediate value is in 0..255, so no byte buffer truncates |
| `Raster.AverageAddsBlock` | internal/fixtures/raster.go:83-94 | averaging a block over its rows adds exactly that block to the naive picture |
| `Raster.GradientPass` | internal/fixtures/raster.go:72-82 | fills the buffer with the gradient of every pixel |
| `Raster.BlockPass` | internal/fixtures/raster.go:83-94 | averages every block in order over exactly the pixels it covers |
| `Raster.NoisePass` | internal/fixtures/raster.go:95-114 | the masked noise walk gives each pixel the noise of its own index |
| `Raster.DrawBlocks` | internal/fixtures/raster.go:42-61 | the blocks are the draws that follow the noise, clipped to the image |
| `Readiness.SingleFlight` | internal/httpapi/probes.go:103-132 | under every schedule at most one computation is in flight |
| `Readiness.AnswersAreFresh` | internal/httpapi/probes.go:103-132 | under every schedule each answer was computed: from the cache, recorded before the call and less than ttl old; by leading or by joining in time, computed since the call began; by joining late, recorded since then |
| `Readiness.JoinIsFreshIff` | internal/httpapi/probes.go:103-132 | a joining call is answered with a value computed since it began under every continuation exactly when the flight's computation has not returned yet |
| `Readiness.LateJoinHappens` | internal/httpapi/probes.go:103-132 | a run reaches a state where a call joins after the computation returned |
| `Readiness.NobodyIsStranded` | internal/httpapi/probes.go:103-132 | after a schedule every flight and every group waited for has a call to release it, exactly when no computation panicked |
| `Readiness.LostForGood` | internal/httpapi/probes.go:123-130 | once a flight has nobody to end it, nothing is ever recorded again |
| `Readiness.ReleasableIff` | internal/httpapi/probes.go:110-130 | a waiting call can still be released exactly when its group is released or some call owns it |
| `Readiness.PanicCanStrand` | internal/httpapi/probes.go:110-130 | a run in which a panic leaves the next call waiting for good |
| `Readiness.RunKeeps` | internal/httpapi/probes.go:103-132 | every schedule keeps the record, group, caller and answer invariants |
| `Readiness.ReadinessCache.Begin` | internal/httpapi/probes.go:104-121 | a step of the interleaving: a hit is younger than ttl, a join is to the flight under way, and a leader finds nobody leading |
| `Readiness.ReadinessCache.Store` | internal/httpapi/probes.go:125-129 | a step of the interleaving, after which nobody leads and every call within ttl hits that value |
| `Readiness.ReadinessCache.Current` | internal/httpapi/probes.go:113-116 | a step of the interleaving: what a woken waiter reads may answer its call |
| `Limiter.SweepingIsInvisible` | internal/cache/ratelimit.go:148-173 | with calls in clock order the sweeping limiter answers as one that never forgets |
| `Limiter.ExactAnswer` | internal/cache/ratelimit.go:148-173 | what every call is answered in terms of the calls alone: the k-th of its key since the call that opened the window, which lasts one length, is refused exactly when k exceeds the limit and otherwise told limit - k |
| `Limiter.RefusedInACrowd` | internal/cache/ratelimit.go:163-171 | a call is refused only if at least `limit` earlier calls of its key lie within one window's length before it |
| `Limiter.AllowedWhileOpenIff` | internal/cache/ratelimit.go:163-173 | of the calls within one length of an opening call exactly the first `limit` are allowed |
| `Limiter.QuietOpens` | internal/cache/ratelimit.go:163-171 | a call that no call of its key preceded within one length opens a window |
| `Limiter.RefusalKeepsTheEndIff` | internal/cache/ratelimit.go:163-171 | a call, whatever the windows, is refused only within a live window whose end it leaves in place, exactly when its limit is at least one |
| `Limiter.KeysAreIndependent` | internal/cache/ratelimit.go:163-173 | the calls allowed for a key are those allowed if it were alone |
| `Limiter.IntervalBound` | internal/cache/ratelimit.go:148-173 | whatever other keys do, an interval of one window's length sees at most twice the limit allowed |
| `Limiter.RunBound` | internal/cache/ratelimit.go:148-173 | a run of length T allows at most limit * (T / window + 1) calls of a key |
| `Limiter.MemoryLimiter.Allow` | internal/cache/ratelimit.go:148-173 | sweeps above 4096 windows, counts and answers as the model does, so that `Limiter.ExactAnswer` says what is answered |
| `Limiter.MemoryLimiter.Sweep` | internal/cache/ratelimit.go:155-161 | in whatever order the map is walked, exactly the expired windows are dropped |
| `ClaimAudit.AuditRowsAreBounded` | internal/httpapi/setup.go:510-528 | a run of length T writes at most n = T / 15 min + 1 times 60 `refused` rows, ten of them for one origin, and n `rate_limited` rows, however requests interleave |
| `ClaimAudit.RowsIff` | internal/httpapi/setup.go:510-528 | in every interleaving a request is answered 429 exactly when the charge of its origin or the global one was refused, else 403; its row, if the write goes through, is `refused` exactly with a 403 and `rate_limited` exactly with a 429 whose audit charge was allowed |
| `ClaimAudit.RunKeeps` | internal/httpapi/setup_limits.go:98-161 | every row written was paid for by an allowed charge of its own request, at every stage |
| `SearchHmac.SignedVerifiesIff` | internal/search/hmac.go:235-280 | signed at n and verified unchanged at m is accepted exactly when both are in range and at most 300 apart |
| `SearchHmac.AcceptedIff` | internal/search/hmac.go:235-280 | what acceptance of any request comes to, both directions |
| `SearchHmac.TimestampIffDecimal` | internal/search/hmac.go:114-140 | accepted timestamp strings and numbers in range correspond one to one |
| `SearchHmac.ValidatedAreInjective` | internal/search/hmac.go:81-90 | validated requests have equal canonical strings exactly when they are equal, whatever bytes the path holds |
| `SearchHmac.SignatureBindsRequest` | internal/search/hmac.go:235-280 | for a code injective under the key, the signature of one validated request is accepted with another exactly when method, path, timestamp, nonce and body hash agree and the clock is in the window |
| `SearchHmac.CanonicalIsInjective` | internal/search/hmac.go:81-90 | one-line fields around an arbitrary path can be read off the canonical string |
| `SearchHmac.CanonicalLines` | internal/search/hmac.go:81-90 | the canonical string of one-line fields is six lines: v1, method, path, timestamp, nonce, body hash |
| `SearchHmac.ValidateTimestamp` | internal/search/hmac.go:114-140 | the digit loop and the bounds, each error at its own place |
| `SearchHmac.ValidateMethod` | internal/search/hmac.go:93-103 | accepts exactly non-empty upper-case words |
| `SearchHmac.ValidateNonce` | internal/search/hmac.go:143-154 | accepts exactly 32 to 128 lower-case hex digits, even in number |
| `SearchHmac.Request.SignRequest` | internal/search/hmac.go:210-225 | fails, headers untouched, exactly without randomness, a long enough key or a valid method; otherwise the request then verifies at second m exactly within the clock window |
| `SearchHmac.DrawnIsValid` | internal/search/hmac.go:200-206 | every nonce drawn is one the verifier finds well formed |
| `LoadCorpus.Isqrt` | cmd/loadcorpusgen/main.go:173-184 | the loop in 64-bit arithmetic computes the function the next two rows speak of, without dividing by zero |
| `LoadCorpus.IsqrtIs` | cmd/loadcorpusgen/main.go:173-184 | for every 64-bit n it answers n below zero, the floor square root up to 2^63 - 2, and -2^62 at 2^63 - 1 |
| `LoadCorpus.IsqrtIsRootIff` | cmd/loadcorpusgen/main.go:173-184 | for n >= 0 the answer is the floor square root exactly when n is not 2^63 - 1 |
| `LoadCorpus.NewtonStaysAbove` | cmd/loadcorpusgen/main.go:179-182 | one step from any positive guess is never below the root |
| `LoadCorpus.SizesFit` | cmd/loadcorpusgen/main.go:159-164 | width and height even, four to three within rounding, area at most mp * 10^6 and short of it by less than 5w + 3 |
| `LoadCorpus.MixSize` | cmd/loadcorpusgen/main.go:159-164 | the 64-bit computation gives those sizes for every count up to the last whose pixel product does not wrap |
| `LoadCorpus.ParseMix` | cmd/loadcorpusgen/main.go:148-171 | split, trimmed and read, the text is refused for exactly a bad value or an empty mix; otherwise the sizes, permuted into descending order |
| `LoadCorpus.WrittenReadsBack` | cmd/loadcorpusgen/main.go:150-158 | a mix written with commas is read back number for number |
| `LoadCorpus.AtoiOfFormat` | cmd/loadcorpusgen/main.go:155-158 | every 64-bit integer is read back from its decimal form |

## Left out

- internal/authz, internal/config, internal/doctor, internal/obs and the audit prefix patterns: finite case splits or lists of independent branches.
- The Redis branch of the limiter, connection pools, HTTP plumbing, metrics and clients.
- SHA-256, HMAC, argon2id, JPEG, GIF, PNG and deflate codecs, regular-expression engines and URL parsing.
- How long a stale negative `claimedCache` answer lasts: `handleClaimStatus` re-stamps it, so only the positive bit is stated.
- Field validation of the claim form, origin and content-type checks: independent branches before the protocol starts; the model treats them as one refusal of the request's own form. How the request ceilings count is not modelled, only that the claim route's own one answers first.
- Email addresses and the folding of names: a user is known by one name, and a name taken by a concurrent sign-up makes the insert fail.
- `SKIP LOCKED` scan fairness and wall-clock progress of the worker loops, which rest on PostgreSQL and the operating system.
- The up-migrations: the live-state unique index is taken as the conflict condition of enqueue.
- The wording of grammar refusals, and which refusal the final else-chain of `grammar_problems` picks.
- `static_read_set`, `verify_pin` and the other guard scripts.
- The PNG and GIF fixtures, `codec.go`, `spliceAPP1`, and the JPEG marker scan around the EXIF segment.
- Mp4.VerifiedIff: stated for files under 2^32 bytes; beyond that the mdat size field is truncated and whether the rest scans depends on the sample bytes.
- Exif.ParsedIff: stated for segments under 2^32 bytes, where no offset or size is truncated; a JPEG segment holds under 2^16.
- Riff.ScanRiff: file lengths are unbounded integers, so a chunk size is never negative.
- ClaimAudit.AuditRowsAreBounded: for a server that has a limiter; without one nothing bounds the rows.
- Limiter.SweepingIsInvisible: for calls that reach the limiter in the order of their clock readings.
- Raster.Scene: `w >= 1` and `h >= 1`, since the source divides by both.
