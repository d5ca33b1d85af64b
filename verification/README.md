# A verified model of the CDK redemption system

The system hands out redemption codes and redeems them. These files model its hard parts in Dafny
and prove what they promise:

- **Redemption.** `Tables`, `RedeemSpec` and `TableInvariant` hold the tables, one redemption run
  alone, and what every row satisfies. `RedeemProtocol` runs any number of redemptions side by side,
  statement by statement: each transaction has a program counter, row locks and uncommitted writes;
  `FOR UPDATE` waits and then reads the latest committed row, `SKIP LOCKED` passes over locked rows,
  the insert of an idempotency key waits for an open insert of the same key, batch rows are read
  without a lock, administrators work in between, and a transaction may fail at any point.
  `RedeemInvariant` and `RedeemProof` give an invariant of all reachable states, `RedeemTheorems`,
  `RedeemStock` (which credential is chosen), `RedeemAnswers` (what clients are told, the first time
  and again), `RedeemProgress` (no deadlock) and `RedeemHistory` (the tables as a serial history) what
  follows from it.
  `RedeemService` has `Redeem` and `BatchRedeem` as the programs they are, and proves them equal to
  that specification. `RequestHash` is about the byte strings that bind a request to its key.
- **Webhook delivery.** `OutboxProtocol` has any number of workers leasing, delivering and reporting
  in two separate writes, with crashes, delays, refused writes, expired leases and resends.
  `OutboxProof` and `OutboxTheorems` prove what every run keeps, `OutboxOutcomes` what each step writes
  and which outcome each status stands for, `OutboxStatus` when a redemption shows how its event ended. `OutboxWorker` is one worker's polling loop, `Backoff` the retry delay
  in the float64 arithmetic of `Floats`.
- **Rate limiting.** `RateLimiter` has the sliding-window script on a sorted set with an expiry, and
  the limiter with a full log that it stands for; `RateClocks` says for which clocks its promises hold.
- **Code text.** `CodeText` (normalising and printing codes), `CodeList` (the page's list parser,
  the text export and the text kept for a retry), `CodeGeneration` and `CopySource` (drawing the
  codes of a batch and copying them into the table), `CredentialPages` (paging).

Programs that change state step by step are classes or methods with loops, each proved equal to a
specification function; the properties are lemmas about those functions and about runs of the two
state machines. The machines start from empty tables. Clocks, random draws, fresh ids, the locks
that other transactions hold, the outcome of a delivery and the failures of the store are inputs of
the model, so every statement holds for all of them.

## What turned out not to hold

- The retry delay can leave `[InitialDelay, MaxDelay]`. It is computed as a float64: when the product
  does not fit an int64 the conversion yields the least int64 on amd64, the cap does not apply and
  the retry is due at once; and a first delay above 2^53 ns may be rounded down below itself.
  `Backoff.DelayInRange`, `Backoff.DelayGrows` and `OutboxWorker.DelaysArePositive` say exactly when
  the delay behaves; `Backoff.DelayCanOverflow`, `Backoff.RoundingFallsShort` and
  `Backoff.RoundingOverflows` give inputs. The defaults never come near it (`Backoff.DefaultDelays`).
- A user id that contains a NUL can make two different batch requests, or a batch and a single
  request, hash alike. `RequestHash.BatchBytesCollide` and `RequestHash.SingleBatchBytesCollide` say
  exactly when; `RequestHash.NulMakesRequestsCollide` gives inputs.
- A redemption may not show how its webhook event ended. There are two roads to that: the worker that
  ended the event crashes, or its second write is refused, so that the end is never reported; or an
  older worker's report of a retry arrives after the report of the end.
  `OutboxStatus.AgreesIffEndIsToldLast` says exactly when the redemption does follow, and
  `OutboxStatus.StatusCanStayBehind` has a run for each road. A redemption left behind with no report
  underway stays pending for good, and its resends are refused (`OutboxStatus.StuckStays`).
- The rate limiter can allow more than its limit in one window, and decide otherwise than the full log,
  when Redis runs a script late: the key's time to live runs on Redis's clock, the window on the
  caller's, so the key may expire with a unit in it that a window still reaches.
  `RateClocks.LimitIsKeptIff` says on exactly which clocks the limit is kept whatever is asked: no two
  calls between which Redis sees more than a window pass and the callers less than one.
  `RateClocks.DecidesAsFullLogIff` says on exactly which clocks the script decides as the full log:
  whenever Redis sees more than a window pass between two calls, the callers do too.
  `RateLimiter.LateScriptExceedsLimit` gives a whole family of runs over the limit.

## Model

| member | source | states |
|---|---|---|
| RedeemTheorems.UseCountsAreExact | internal/redeem/service.go:284-293 | in every state of every run a code's committed use count is the number of its committed successes and at most its batch's maximum |
| RedeemTheorems.GuardedUpdatesNeverMiss | internal/redeem/service.go:284-342 | in every reachable state the guarded increment finds an enabled row with uses left and marking finds its credential, so no request ends in either of the two errors |
| RedeemProof.GuardHolds | internal/store/queries.sql.go:903-910 | a transaction at the increment holds the committed row it checked, and the guard's condition holds of it |
| RedeemTheorems.ErrorsCommitNothing | internal/redeem/service.go:229-293 | a request that ended in an error or a key conflict has no commit anywhere in the run, and none of its own steps changes a table |
| RedeemTheorems.UsedCredentialsAreApart | internal/redeem/service.go:332-342 | in every state a used credential names a success of a batch that assigns its plan, and no two used credentials name the same one |
| RedeemTheorems.CommitHandsOutExactly | internal/store/queries.sql.go:865-873 | a commit marks one credential if the batch assigns credentials and changes none otherwise; the row it marks was unused, without expiry or expiring after the transaction began, and of the plan |
| RedeemTheorems.RunAgesStock | internal/store/queries.sql.go:1408-1413 | between any two states of a run a credential row changes at most from unused to used, and a deleted id never comes back, also when imports overlap |
| RedeemTheorems.CredentialsAreHandedOutOnce | internal/redeem/service.go:265-282 | two commits of a run never take the same credential, whatever is imported or deleted in between |
| RedeemTheorems.AnswersTellTheTruth | internal/redeem/service.go:294-368 | a granted answer has the user, code, batch name, payload, display, time and event of its request and batch, and agrees with the committed log row, outbox row and credential; a refused one tells and logs its verdict and leaves codes, credentials and outbox alone |
| RedeemTheorems.KeysCommitOnce | internal/store/queries.sql.go:319-324 | over a run at most one transaction with a given idempotency key commits |
| RedeemTheorems.TakenKeysAnswerAtOnce | internal/redeem/service.go:413-444 | a request that finds its key committed ends there with the stored answer or a conflict and changes no table; the branch for a row without an answer is never taken |
| RedeemTheorems.SameKeySameAnswer | internal/redeem/service.go:229-237 | of two finished requests under one key, the same request gets the same stored answer and another one a conflict |
| RedeemTheorems.SameHashSameTicket | internal/redeem/service.go:523-529 | two admitted single requests hash alike exactly when trimmed user and normalised code agree |
| RedeemTheorems.CommitIsAtomicRedeem | internal/redeem/service.go:239-368 | the interleaved transaction commits what the redemption does on its code row at the moment of its commit, taking the first credential that is not passed over, with the batch as it was read; that is the atomic redemption exactly when the batch still has the status it was read with or the code is disabled |
| RedeemStock.TakenWasLeast | internal/store/queries.sql.go:865-873 | the credential that a commit hands out was, when it was taken, the least id among the unused, unexpired rows of the plan not passed over, and among the unlocked ones if only locked rows were passed over |
| RedeemStock.UnavailableWasLocked | internal/redeem/service.go:265-282 | a commit that answers credential_unavailable stems from a statement at which every unused, unexpired row of the plan was passed over, and so locked if only locked rows were |
| RedeemStock.SkippedForAReason | internal/redeem/service.go:265-282 | every eligible row that the atomic redemption of a commit passes over was passed over when the credential was taken or has been imported since |
| RedeemProgress.SomebodyCanMove | internal/redeem/service.go:222-368 | in every reachable state with an unfinished transaction some unfinished transaction can run its next statement or commit: no deadlock |
| RedeemProgress.TransactionsAreShort | internal/redeem/service.go:222-368 | over any run a transaction makes at most twelve steps |
| RedeemTheorems.UnknownCodeCommit | internal/redeem/service.go:239-252 | a request whose code was not found commits one log row and its key's answer and nothing else, which is the atomic redemption exactly when the code has not been created since |
| RedeemAnswers.VerdictsAreRight | internal/redeem/service.go:370-384 | the verdict of every commit on a code row, by the columns of the row and batch and the clock at the check: disabled, batch disabled, expired, used up, granted, or without stock |
| RedeemAnswers.CommitWrites | internal/redeem/service.go:284-330 | a grant adds one use to that code, one log row and one event; a refusal adds the log row alone |
| RedeemAnswers.InvalidCodeWasUnknown | internal/redeem/service.go:239-252 | a commit that answers invalid_code stems from a lookup at which no code row had that text |
| RedeemAnswers.RepeatsSayAgain | internal/redeem/service.go:457-466 | over a run, a repeat of a committed request under its key is told the same ok, result, batch, code, user, payload, credential and time, and every item of a batch, without the event |
| RedeemAnswers.RepeatsShowCredential | internal/redeem/service.go:413-444 | a repeat of a grant shows the data of the credential row that names the first request's redemption |
| RedeemAnswers.FailuresAreTheStores | internal/redeem/service.go:222-293 | no transaction ends in a failure unless it was aborted |
| RedeemAnswers.WorksAre | internal/redeem/service.go:112-146 | which requests open a transaction, with the limits of 256 and 128 as numbers |
| RedeemAnswers.BeganAs | internal/redeem/service.go:205-228 | a transaction's work and start are those of the request that began it |
| RedeemAnswers.BatchWasRead | internal/store/queries.sql.go:549-557 | the batch that a transaction goes by is the committed one at its lookup |
| RedeemAnswers.ClockWasChecked | internal/redeem/service.go:377 | the clock that a transaction goes by is the one its check read |
| RedeemAnswers.TimeWasStamped | internal/redeem/service.go:295-354 | the time that a granted answer shows is the clock at its success |
| RedeemHistory.TablesAreReplayed | internal/redeem/service.go:205-368 | the tables of every reachable state are those that the committed redemptions, refusals, batch answers and operations make when applied one at a time in commit order |
| RedeemProof.StatementKeepsInv | internal/redeem/service.go:205-368 | every statement of a transaction keeps the invariant: what it knows, holds and has written, and that no two transactions share a row or a fresh id |
| RedeemProof.CommitKeepsInv | internal/redeem/service.go:358-367 | a commit keeps the invariant of the tables and of all other open transactions |
| RedeemProof.OperationKeepsInv | internal/httpapi/admin.go:395-436 | a toggle, a new batch, an import or a deletion keeps the invariant beside open transactions; an import may use any ids that no committed row has had |
| RedeemProof.RunKeepsInv | internal/redeem/service.go:205-368 | the invariant holds in every state of every run from empty tables |
| TableInvariant.SucceedKeepsDb | internal/redeem/service.go:284-367 | the writes of a success keep counts, log, events, credentials and keys consistent |
| TableInvariant.FailKeepsDb | internal/redeem/service.go:386-411 | the writes of a recorded failure keep the tables consistent |
| TableInvariant.ToggleBatchKeepsDb | internal/store/queries.sql.go:1488-1496 | toggling a batch keeps the tables consistent |
| TableInvariant.ToggleCodeKeepsDb | internal/store/queries.sql.go:1522-1530 | toggling a code keeps the tables consistent |
| TableInvariant.AddBatchKeepsDb | internal/httpapi/admin.go:194-209 | adding a batch with new codes keeps code texts unique and the tables consistent |
| TableInvariant.StockKeepsDb | internal/httpapi/credentials.go:273-296 | importing unused or deleting unlocked credentials keeps the tables consistent |
| RedeemSpec.CheckCodeState | internal/redeem/service.go:370-384 | each verdict by its columns, in the fixed order: disabled code, inactive batch, expiry before now, uses at the maximum |
| RedeemSpec.FreeCredential | internal/store/queries.sql.go:865-873 | the least id among the rows that are unused, unexpired at the start, of the plan and not skipped; none exactly when there is no such row |
| RedeemSpec.LookupCode | internal/store/queries.sql.go:549-557 | the code row with that text whose batch exists; none exactly when no code row with that text has a batch |
| RedeemSpec.AdmittedAre | internal/redeem/service.go:205-220 | which requests pass: a user of 1 to 256 characters after trimming, a code of 1 to 128 after normalising, a key without outer spaces of at most 128 bytes |
| RedeemSpec.Utf8Widths | internal/redeem/service.go:546 | one to four bytes a character, by its code point |
| RedeemSpec.VerdictIs | internal/redeem/service.go:239-293 | the verdict of one redemption by columns |
| RedeemSpec.GrantSays | internal/redeem/service.go:345-357 | the fields of a granted answer |
| RedeemSpec.RowWrites | internal/redeem/service.go:284-330 | the rows one redemption writes, column by column |
| RedeemSpec.KeyWrites | internal/redeem/service.go:358-362 | the key's row that one redemption writes, and that no other changes |
| RedeemSpec.RedeemReplays | internal/redeem/service.go:413-444 | after a request under a fresh key the same request is told the same again and any other conflicts, with no change |
| RedeemSpec.TogglesAre | internal/store/queries.sql.go:1488-1530 | a toggle flips one status and a second one restores the tables |
| RedeemSpec.AddedBatchIs | internal/batch/batch.go:37-79 | new codes are enabled, unused and of the new batch, and other rows stay |
| RedeemSpec.StockIs | internal/httpapi/credentials.go:273-296 | stock gains exactly the imported rows and loses exactly the deleted ones |
| RedeemService.Service.Redeem | internal/redeem/service.go:205-368 | rejected and failed requests leave the tables alone; any other gives the atomic redemption's tables and answer |
| RedeemService.Service.RecordSuccess | internal/redeem/service.go:284-367 | the writes of the success path, in their order, give the state of a successful redemption |
| RedeemService.Service.RecordFailure | internal/redeem/service.go:386-411 | one log row and the stored answer, and no other row |
| RedeemService.Service.BatchRedeem | internal/redeem/service.go:112-202 | the loop's answer and tables are those of the loop-free batch specification, with other transactions between any two codes, and a failure at any code or while the key is taken or its answer stored |
| RedeemService.Service.RedeemEach | internal/redeem/service.go:147-187 | the `seen` map, counters and appended results give one item per code, redeeming exactly the first occurrences |
| RedeemService.BatchIsRedeemAll | internal/redeem/service.go:147-187 | a batch that is not cut short has the effect of redeeming, once and in order, the first occurrence of each usable code |
| RedeemService.FirstsAreThePositions | internal/redeem/service.go:153-166 | a position is redeemed exactly when it holds a first occurrence |
| RedeemService.FirstsAreOrdered | internal/redeem/service.go:153-166 | the redeemed positions come in increasing order |
| RedeemService.EveryCodeHasFirst | internal/redeem/service.go:153-166 | every non-empty code of at most 128 characters is redeemed at its own or an earlier position |
| RedeemService.FirstsDiffer | internal/redeem/service.go:153-166 | two redeemed positions hold different codes |
| RedeemService.AnswersAreTheirs | internal/redeem/service.go:166-180 | the answer at a first occurrence is that redemption's own, elsewhere there is none |
| RedeemService.FirstsAreAdmitted | internal/redeem/service.go:205-221 | no redemption of an admitted batch meets Redeem's own invalid-input exits |
| RedeemService.GroupKeepsOrder | internal/redeem/service.go:182-188 | one result per input code, in order |
| RedeemService.GroupAddsUp | internal/redeem/service.go:182-187 | Succeeded counts the granted items and Succeeded + Failed is the number of items |
| RedeemService.ItemsTell | internal/redeem/service.go:153-181 | each item by its fields: a granted answer whole with its code, a refusal by its verdict, a skipped code as invalid input |
| RedeemService.BatchItemsTell | internal/redeem/service.go:147-188 | in a batch that is not cut short, each first occurrence carries the answer of its own redemption |
| RedeemService.BatchIsRejectedIff | internal/redeem/service.go:112-125 | which batch requests are turned away, with no change |
| RedeemService.FirstsAre | internal/redeem/service.go:153-166 | a first occurrence is a code of 1 to 128 characters that no earlier position has |
| RedeemService.KeyStaysFree | internal/redeem/service.go:125-145 | while the batch holds its key, no redemption of its codes commits a row for it |
| RedeemService.BatchReplays | internal/redeem/service.go:468-506 | an answered batch tells the same request the same again, item by item, and conflicts with any other; one that ended in an error, at whatever point, leaves its key free |
| Tables.StoredSaysAgain | internal/redeem/service.go:69-81 | what is stored of an answer has all of its fields but the event and the pending flag, for a single answer and for each item |
| RequestHash.SingleBytesDetermineRequest | internal/redeem/service.go:523-529 | the bytes of single requests are equal exactly when user and normalised code are |
| RequestHash.BatchBytesCollide | internal/redeem/service.go:531-540 | exactly when two batch requests have equal bytes |
| RequestHash.BatchBytesDetermineRequest | internal/redeem/service.go:531-540 | for user ids without NUL the bytes are equal exactly when user and normalised codes are |
| RequestHash.SingleBatchBytesCollide | internal/redeem/service.go:523-540 | exactly when a single and a batch request have equal bytes |
| RequestHash.SingleAndBatchBytesAreDisjoint | internal/redeem/service.go:523-540 | never, for user ids without NUL |
| RequestHash.NulMakesRequestsCollide | internal/redeem/service.go:531-540 | two pairs of different requests with equal bytes |
| RequestHash.HashBatchRequest | internal/redeem/service.go:531-540 | the loop of writes gives the batch byte string |
| RequestHash.EqualHash | internal/redeem/service.go:446-455 | true exactly when the two byte slices are equal |
| OutboxTheorems.LiveEventIsCurrent | internal/httpapi/admin.go:605-642 | in every state a redemption has at most one pending or failed outbox row, and it carries the current event id |
| OutboxTheorems.FinalStatusIsTheEvents | internal/webhook/worker.go:171-247 | in every state a redemption at success or dead_letter has its current event's row at that same status |
| OutboxTheorems.ResendRunsAlone | internal/store/queries.sql.go:1437-1445 | a granted resend finds no live event of its redemption, a refused one changes nothing |
| OutboxTheorems.TerminalRowsAreFinal | internal/store/queries.sql.go:929-946 | a success or dead_letter row never changes again in a run |
| OutboxTheorems.StaleCompletionsAreVoid | internal/webhook/worker.go:171-228 | a completion whose token is not on the row changes neither table, then or later |
| OutboxTheorems.OneRunningLease | internal/store/queries.sql.go:929-946 | no row is ever under two unexpired leases |
| OutboxTheorems.AttemptsAreBounded | internal/webhook/worker.go:201-228 | an event records at most MaxAttempts outcomes, and its attempts exceed that by at most the takeovers of expired leases |
| OutboxTheorems.RunCounts | internal/store/queries.sql.go:1648-1657 | at any point of a run an event's attempts are its outcomes, its takeovers and its open lease, added up |
| OutboxTheorems.RetriesWait | internal/webhook/worker.go:201-212 | after a recorded failure the next lease comes only for a retryable one with attempts left, and not before its delay has passed since the worker read its clock, however late it wrote |
| OutboxOutcomes.OutcomesAre | internal/webhook/worker.go:171-228 | after a recorded outcome the row is success for a delivery, failed for a retryable failure with attempts left and dead_letter otherwise; due again after the delay; its lease ended |
| OutboxOutcomes.StatusesTell | internal/store/queries.sql.go:1648-1689 | in every state a row is success exactly when a delivery was recorded, and dead_letter exactly when a final failure was |
| OutboxOutcomes.ReportsTell | internal/webhook/worker.go:185-247 | a report that arrives shows success, pending or dead_letter at the redemption, as its worker recorded, and counts one attempt |
| OutboxOutcomes.AttemptsAreReports | internal/store/queries.sql.go:1573-1580 | a redemption's webhook attempts are the reports that reached it |
| OutboxOutcomes.LeasesAre | internal/store/queries.sql.go:929-946 | which rows can be leased, by their columns |
| OutboxOutcomes.LeaseWrites | internal/store/queries.sql.go:929-946 | a lease sets a new token, two minutes and one more attempt |
| OutboxOutcomes.LeasesLast | internal/store/queries.sql.go:929-946 | a lease that is not completed can be taken over from two minutes on and not before |
| OutboxOutcomes.ResendWrites | internal/httpapi/admin.go:605-642 | a resend is granted exactly to a success whose webhook shows success, failed or dead_letter, and enters one new pending event |
| OutboxOutcomes.RedeemWrites | internal/store/queries.sql.go:411-415 | a redemption with a webhook enters with one pending event, due at once |
| OutboxStatus.StatusIsLastReport | internal/store/queries.sql.go:1573-1580 | in every state a redemption shows the last report about its current event, and pending before the first |
| OutboxStatus.AgreesIffLastReportIsFinal | internal/webhook/worker.go:171-247 | once its event is over, a redemption shows the event's status exactly when the last report was a final one |
| OutboxStatus.AgreesIffEndIsToldLast | internal/webhook/worker.go:171-247 | the same over steps: exactly when the report of the end has arrived and no report of a retry has arrived after it |
| OutboxStatus.AgreesOrIsToldOrStuck | internal/webhook/worker.go:171-247 | a redemption whose event is over is stuck exactly when it does not agree and no report of the end is underway |
| OutboxStatus.StuckStays | internal/store/queries.sql.go:1437-1445 | a stuck redemption stays stuck under every step, and its resends are refused |
| OutboxStatus.StatusCanStayBehind | internal/store/queries.sql.go:1573-1580 | a run for each of the two roads to a stuck redemption: a late report and a lost one |
| OutboxProof.StepKeepsInv | internal/webhook/worker.go:113-247 | every lease, completion, report, loss, resend and tick keeps the invariant |
| OutboxProof.RunKeepsInv | internal/webhook/worker.go:98-247 | the invariant holds in every state of every run |
| OutboxWorker.Worker.LeaseEvent | internal/webhook/worker.go:113-123 | leases the due row that is first by (scheduled_at, id), with a new token, two minutes and one more attempt; changes nothing when no row is due |
| OutboxWorker.Worker.UpdateOutbox | internal/store/queries.sql.go:1648-1689 | changes the row only while the token is on it, and reports that it did |
| OutboxWorker.Worker.MarkSuccess | internal/webhook/worker.go:171-199 | under its token the row becomes success and the current redemption too; otherwise nothing changes |
| OutboxWorker.Worker.MarkFailed | internal/webhook/worker.go:201-247 | under its token the row becomes failed with its delay, or dead_letter, and the current redemption pending or dead_letter; otherwise nothing changes |
| OutboxWorker.Worker.TakeTurn | internal/webhook/worker.go:98-169 | one turn of the loop lowers the weight of the live rows |
| OutboxWorker.Worker.ProcessBatch | internal/webhook/worker.go:98-111 | ends for every clock within the weight of the live rows, with nothing left to lease |
| OutboxWorker.TurnIsThreeSteps | internal/webhook/worker.go:113-199 | a turn is a lease, a completion and a report of the many-worker protocol |
| OutboxWorker.TurnWeighsLess | internal/webhook/worker.go:201-212 | each turn lowers the sum of one plus the attempts left over the live rows |
| OutboxWorker.StillClockLeasesEachOnce | internal/store/queries.sql.go:929-946 | with the clock held still exactly the leasable rows are leased, each once, in (scheduled_at, id) order |
| OutboxWorker.DelaysArePositive | internal/webhook/worker.go:204-209 | retry delays are all positive exactly for a positive first delay whose last product fits, or without retries |
| Backoff.DelayInRange | internal/webhook/worker.go:204-209 | the delay lies in [InitialDelay, MaxDelay] exactly when the float64 product fits an int64 and the first delay is not rounded down or is at least doubled |
| Backoff.ShortDelayInRange | internal/webhook/worker.go:204-209 | for a first delay of at most 2^53 ns exactly when the product fits |
| Backoff.DelayGrows | internal/webhook/worker.go:204-209 | a later attempt waits no less than an earlier one exactly when its product fits or neither does |
| Backoff.ExactDelay | internal/webhook/worker.go:204-209 | while the arithmetic is exact the delay is InitialDelay times the factor for each attempt after the first, up to MaxDelay |
| Backoff.DelayCanOverflow | internal/webhook/worker.go:204-209 | an input with a negative delay |
| Backoff.RoundingFallsShort | internal/webhook/worker.go:204-209 | an input whose delay is rounded below InitialDelay |
| Backoff.RoundingOverflows | internal/webhook/worker.go:204-209 | an input whose first delay is rounded out of range |
| Backoff.DefaultDelays | internal/webhook/ssrf.go:25-34 | with the defaults products stay below 2^53 ns and the cap is never reached |
| Backoff.DefaultsDouble | internal/webhook/ssrf.go:25-34 | the default delays start at 5 s and double |
| Backoff.DefaultTotal | internal/webhook/ssrf.go:25-34 | with the defaults all delays of an event add up to at most 2555 s |
| Floats.RoundGrows | internal/webhook/worker.go:205 | rounding to a float64 never swaps two numbers |
| Floats.RoundIsIdempotent | internal/webhook/worker.go:205 | a rounded number is a float64 and stays itself |
| Floats.RoundIsClose | internal/webhook/worker.go:205 | rounding takes off no more than one part in 2^52 |
| RateLimiter.Limiter.AllowN | internal/ratelimit/ratelimit.go:78-106 | the argument checks, then exactly the script |
| RateLimiter.ScriptDoes | internal/ratelimit/ratelimit.go:13-35 | the decision by counting the unexpired units with scores above now - window, all units with their scores added and the expiry set on an allowed call, nothing added on a denied one |
| RateLimiter.FullLimiterDoes | internal/ratelimit/ratelimit.go:13-35 | the full log counts every unit ever admitted with a score above now - window |
| RateLimiter.CallAgrees | internal/ratelimit/ratelimit.go:13-35 | a call that finds no unit expired before its time decides as the full log does and keeps set and log in agreement |
| RateLimiter.CallDecidesIff | internal/ratelimit/ratelimit.go:13-35 | while set and log still agree, exactly when the next call decides as the full log does |
| RateLimiter.ScriptDecidesAsFullLog | internal/ratelimit/ratelimit.go:13-35 | for every call sequence that loses no unit, with a non-decreasing caller's clock, the pruned and expiring set makes the same decisions as the full log |
| RateLimiter.EveryCallSeesIff | internal/ratelimit/ratelimit.go:13-35 | over a whole run every call counts exactly the units of its window if and only if no call finds the key expired with a unit still in its window |
| RateLimiter.InTimeLosesNothing | internal/ratelimit/ratelimit.go:20-34 | no unit is lost when Redis never sees a window pass between two calls that the callers do not see pass |
| RateLimiter.SteadyLagIsInTime | internal/ratelimit/ratelimit.go:78-106 | calls are in time when the lag of Redis behind its callers does not grow |
| RateLimiter.ScriptKeepsLimit | internal/ratelimit/ratelimit.go:21-34 | at every real instant t of every run that loses no unit, the units allowed in (t - window, t] never exceed the limit |
| RateLimiter.LateScriptExceedsLimit | internal/ratelimit/ratelimit.go:20-34 | two calls for the whole limit are both allowed within a window whenever Redis runs the second after the key has expired |
| RateClocks.LimitIsKeptIff | internal/ratelimit/ratelimit.go:21-34 | for given clocks: every window of every run with fresh members and ceilings stays within the limit if and only if no two calls have Redis see more than a window pass and the callers less than one |
| RateClocks.DecidesAsFullLogIff | internal/ratelimit/ratelimit.go:13-35 | for given clocks: every run is decided as by the full log if and only if the callers see more than a window pass whenever Redis does |
| RateClocks.ClocksKeepLimit | internal/ratelimit/ratelimit.go:21-34 | the limit over one run at every real instant, from the clocks alone |
| RateClocks.RunHolds | internal/ratelimit/ratelimit.go:13-35 | on such clocks every unit admitted less than a window ago is still in the set |
| RateClocks.CutBreaksLimit | internal/ratelimit/ratelimit.go:13-35 | on any other clocks two calls for the whole limit are both allowed and exceed it |
| RateLimiter.AdmissionIsBounded | internal/ratelimit/ratelimit.go:21-27 | one admission keeps every window within the limit |
| RateLimiter.AllOrNone | internal/ratelimit/ratelimit.go:68-106 | an allowed call adds all of its members, a denied one none |
| RateLimiter.DenialsLeaveNoTrace | internal/ratelimit/ratelimit.go:20-27 | taking a denied call out of a run that loses no unit changes no other decision |
| CodeText.NormalizeFixesClean | internal/redeem/service.go:570-572 | the fixed points of normalisation are exactly the strings of A-Z and 0-9 |
| CodeText.NormalizeIsIdempotent | internal/redeem/service.go:570-572 | normalising twice is normalising once |
| CodeText.NormalizeReadsBothCases | internal/redeem/service.go:568-572 | a text that spells a code in letters of either case is read as the code |
| CodeText.NormalizeIgnoresNoise | internal/redeem/service.go:568-572 | other characters may stand anywhere |
| CodeText.NormalizeCounts | internal/redeem/service.go:568-572 | every ASCII letter and digit is kept |
| CodeText.DisplayRoundTrip | internal/redeem/service.go:587-593 | a displayed code normalises back to the code, for every prefix |
| CodeText.DisplaySetsPrefixOff | internal/redeem/service.go:587-593 | where each character stands when the code has the prefix |
| CodeText.DisplayWithoutPrefix | internal/redeem/service.go:587-593 | and when it does not |
| CodeText.DisplayUpperCasesPrefix | internal/redeem/service.go:588 | the prefix is upper-cased letter by letter |
| CodeText.FormatGroups | internal/redeem/service.go:595-608 | the loop of slices, joined, is the grouping by four |
| CodeText.GroupedPlaces | internal/redeem/service.go:595-608 | where each character and each dash of a grouped text stands |
| CodeText.TrimSpaceIsIdempotent | internal/redeem/service.go:113-114 | a trimmed text neither starts nor ends with a space, and trimming it again changes nothing |
| CodeText.TrimSpaceTakesSpaces | internal/redeem/service.go:113 | trimming takes spaces off both ends and leaves the rest |
| CodeText.SpacesAre | internal/redeem/service.go:113 | which characters are spaces |
| CodeList.ParseCdkList | web/src/pages/redeem.tsx:74-84 | the loop with its Set and array keeps exactly the codes of the specification |
| CodeList.ParsedCodes | web/src/pages/redeem.tsx:74-84 | for every text the result is distinct, non-empty, fixed by normalisation, and holds exactly the normalised pieces in order of their first appearance |
| CodeList.SeparatorsAre | web/src/pages/redeem.tsx:77 | exactly which characters between two codes make them two |
| CodeList.ParsedCodesAreRedeemed | internal/redeem/service.go:153-166 | BatchRedeem skips no parsed code unless it is over-long |
| CodeList.ExportBatch | internal/httpapi/admin.go:479-485 | the loop writes one displayed code a line |
| CodeList.ExportAppends | internal/httpapi/admin.go:479-485 | each code adds its display and a newline |
| CodeList.ExportReadsBack | internal/httpapi/admin.go:479-485 | parsing the export of any list of distinct clean codes, with any prefix, gives that list in order |
| CodeList.JoinReadsBack | web/src/pages/redeem.tsx:374-375 | a list joined by newlines is read back in order |
| CodeList.RetryReadsRefused | web/src/pages/redeem.tsx:374-375 | the text kept after a batch is read as exactly the refused codes, in order |
| CodeGeneration.ValidateCreateBatch | internal/httpapi/admin.go:211-264 | no error exactly when every field is within its bounds |
| CodeGeneration.IsPlanType | internal/httpapi/credentials.go:344-360 | true exactly for plans of 1 to 100 characters after trimming, none of them a control character |
| CodeGeneration.IsAsciiAlphanumeric | internal/httpapi/admin.go:266-273 | true exactly for strings of A-Z and 0-9 |
| CodeGeneration.RandomCode | internal/batch/batch.go:95-103 | one alphabet symbol per draw |
| CodeGeneration.AlphabetIs | internal/batch/batch.go:17 | the 31 symbols: capitals without I, L and O, and the digits 2 to 9 |
| CodeGeneration.GenerateCodes | internal/batch/batch.go:81-93 | the loop with its `seen` map gathers the specified codes and is done exactly at count |
| CodeGeneration.GeneratedCodesAreDistinct | internal/batch/batch.go:81-93 | the codes are pairwise distinct and each is the prefix and length alphabet symbols |
| CodeGeneration.DifferentDrawsCount | internal/batch/batch.go:81-93 | as many codes as different draws, up to count |
| CodeGeneration.GeneratedCodesAreUsable | internal/httpapi/admin.go:222-239 | within bounds every code has at most 28 characters, is fixed by normalisation, and the export reads back |
| CodeGeneration.UnseenCodeRemains | internal/batch/batch.go:85-91 | while fewer than 31^length codes are taken some draw makes a new one |
| CodeGeneration.BoundsLeaveUnseenCodes | internal/httpapi/admin.go:222-239 | within bounds 31^length exceeds count and a new code always remains |
| CodeGeneration.LoopCanEndIffEnough | internal/batch/batch.go:84-92 | the loop can end exactly when count is at most 31^length |
| CodeGeneration.DrawingCanFinish | internal/batch/batch.go:84-92 | whatever was drawn so far, further draws can end the loop |
| CopySource.CodeRows.Next | internal/store/copyfrom.go:18-28 | reaches the next row that is left, and says whether there is one |
| CopySource.CodeRows.Drain | internal/store/copyfrom.go:18-35 | reading to the end yields every row once and in order |
| CopySource.CopyCodes | internal/batch/batch.go:65-76 | the copied rows are the codes in order, all of the new batch, and the count matches |
| CredentialPages.ParsePagination | internal/httpapi/credentials.go:131-158 | with an allowed size a page is accepted exactly when (page-1)*size is at most 2^31-1, and the offset is that product |
| CredentialPages.ParseIntReadsDecimal | internal/httpapi/credentials.go:134-150 | a number's text is read as the number exactly when it is in range |
| CredentialPages.LowPagesAreFirst | internal/httpapi/credentials.go:145-151 | a page number of zero or below is read as page one |
| CredentialPages.PagesMakeTheListing | internal/httpapi/credentials.go:116-119 | pages 1..pages concatenate to the listing, none is empty, and every later page is |
| CredentialPages.PagesAreDisjoint | internal/store/queries.sql.go:1220-1230 | no row is on two pages |
| CredentialPages.DescendingHolds | internal/store/queries.sql.go:1220-1230 | the listing holds exactly the matching rows |
| CredentialPages.ListedAre | internal/store/queries.sql.go:1220-1230 | which rows each state filter lists |
| CredentialPages.PageRows | internal/store/queries.sql.go:1220-1230 | a page holds the next rows of the listing, as many as its size or as are left |
| CredentialPages.DescendingIsSorted | internal/store/queries.sql.go:1220-1230 | the listing is strictly descending by id |
| CredentialPages.PageCountIsLeast | internal/httpapi/credentials.go:116-119 | the page count is the least number of pages that hold all rows |
| CredentialPages.EveryPageCanBeAskedFor | internal/httpapi/credentials.go:131-158 | every page of a listing of at most 2^31 rows can be requested |

## Left out

- HTTP handlers, sessions, CSRF, metrics, logging and configuration: plumbing around the modelled calls.
- SHA-256, random sources and the delivery itself: hashes are taken as injective, ids and tokens as fresh, a delivery as an arbitrary outcome.
- JSON: stored answers are values, less the two fields that are not serialised.
- Message texts, client addresses and the normalised user key: written to the log but read by none of the modelled decisions.
- Upper-casing outside ASCII: only ASCII letters reach it in codes; a batch prefix is validated as ASCII.
- RedeemTheorems.CommitIsAtomicRedeem: a batch row is read without a lock, so its status may have changed since it was read.
- RedeemStock.UnavailableWasLocked: which rows beside those locked by other redemptions SKIP LOCKED passes over is an input, because administrators' statements lock rows too; so credential_unavailable is not claimed to mean that stock is exhausted.
- RedeemService.BatchReplays: a batch that fails midway keeps its earlier redemptions and loses its key, so it is not claimed to run at most once.
- RedeemService.BatchIsRedeemAll: what other transactions commit between two codes is an arbitrary function on the tables.
- RedeemProof.CommitKeepsInv: in the interleaved model the transaction that holds a batch's key stores an arbitrary group answer; which one is said by the batch program in RedeemService.
- RedeemProgress.SomebodyCanMove: connections are not counted, so a batch that holds one for its key while its redemptions wait for another is not seen.
- The two state machines are separate: a committed redemption enters the webhook machine as one step, and an event's delivery reads no redemption table but its own row.
- OutboxTheorems.RetriesWait: the worker's clock is a number of its own that the database's clock does not bound, so the bound is on the database's clock against the worker's reading.
- OutboxWorker.Worker.ProcessBatch: the turns are a list longer than the weight of the live rows, every write is accepted and no other worker runs; the many-worker protocol has all of these.
- Backoff.DelayInRange: the backoff factor is a whole number, the library's power function is taken to round its exact value once, and an overflowing conversion is that of amd64.
- RateLimiter.ScriptKeepsLimit: members are fresh and no call names a higher ceiling than the limit.
- RateClocks.LimitIsKeptIff: over runs with fresh members, ceilings up to one limit and calls that pass the argument checks.
- RateLimiter.ScriptDecidesAsFullLog: the caller's clocks do not go back for a key, and scores lie in [now, now + 1], which holds for calls of at most 1000000 units.
- CodeGeneration.GenerateCodes: the draws are a finite list, so an unlucky endless run is a list that never suffices; that a suitable one always exists is proved.
- CodeGeneration.ValidateCreateBatch: whether a webhook address is public and whether a payload is JSON are inputs.
- Paging of codes and logs, the CSV export, FAQ, settings, statistics, the archive download and the one-off SQLite import: easy, visual or outside the running system.
