# Router verification

A Dafny model of the parts of the Router whose correctness is hardest to see by reading
one function: the ledger of terminated Client rentals, the workers that keep it moving,
the takeover protocol with its locks, the single-flight release check, the clock quorum
and alert machine, the Bark configuration fence, the probe stream tracker, the
invalid-authentication tracker, the ticker merge and the log tail reader.
`dafny verify dfyconfig.toml` checks everything.

## How it is organised

**Termination ledger.** `Journal` is the double-entry journal. `TerminationModel` gives one
`Book` per rental (rental and period, termination row, award row, journal, everyone else's
postings) and one specification function per transaction, with every refusal in source
order. `TerminationInvariant` proves that each transaction keeps `Sound`: the audit
predicate of the source, the liability of the period, unique journal keys, and the phases of
money. `TerminationRuns` lifts this to every interleaving of every step with any arguments.
`TerminationTheorems` states what no run can do. `TerminationAdmission` says, in the rows' own
columns, exactly who may do what and what it leaves behind. `TerminationStore` writes the
transactions as the Router runs them, one row update at a time, against those specifications.
Every row and every journal entry there is written through a writer whose precondition is that table's CHECK
constraints, key and triggers, so none of those statements can be aborted halfway.
`SharedAccounts` puts many records over one journal, and `FairWorkers` has the three cursor
workers over them, the log of their passes and their fairness.

**Concurrency.** `ActionLocks` is the weak-reference mutex registry as interleaved steps and
its refinement of one plain mutex per key. `TakeoverLocks` is any number of takeovers over
those mutexes. `TakeoverProtocol` is one takeover job with its request, stale recovery passes,
the target Client and crashes, and `TakeoverProgress` what such a job gets to and why it fails.
`SingleFlight` is the release validator. `ClockAlerts` also holds the compare-exchange rate
limiter.

**Clock.** `ClockConsensus` is the window search and what its answer means; `ClockAlerts` is
the alert machine, whose every field is proved to be a declared function of the probe history.

**Request-level pieces.** `BarkFence` (fence and circuit breaker from the log of requests),
`SseLexer`, `SseEvents`, `SseTheorems` and `SsePayloads` (bytes to lines, lines to verdict, what
the verdict does not depend on, and what it means for the payloads), `AbuseBans` (bounded table
against an unbounded reference), `Ticker`, `LogTail`. `TextOrder` and `Base` are shared vocabulary.

## Where the code and its promise part

Each of these is proved as an exact condition, with a concrete input on the failing side.

- The quorum search subtracts offsets in wrapping 64-bit arithmetic and averages the two middle
  offsets in saturating arithmetic. Within half of the i64 range it is optimal and robust for
  every answer of the sources (`QuorumIsAttained`, `MajorityDecides`), and that range is exact:
  two sources at one offset are reported as that offset if and only if it lies in it
  (`UnanimousPairIff`). For the wrap alone the condition is that the offsets span at most an i64
  (`WindowAgreesIffNoWrap`, `OppositeEndsPassForQuorum`). Offsets are local time minus an HTTP
  date no later than the year 9999, so only a system clock more than a hundred million years
  off leaves the range.
- The Bark generation saturates at 2^63 - 1. Below that the fence is exact; at it a change away
  and back goes unseen (`FenceHolds`, `SaturatedFenceMissesFlip`).
- A Responses completion whose JSON type is padded with blanks is noticed but not checked
  against earlier successes. The verdict is independent of event order if and only if such an
  event does not meet a capped completion (`ReorderingIff`, `PaddedCompletionDependsOnOrder`).
- An empty LF line directly after a CR line is read as the second half of a CRLF, as section
  9.2.5 of the WHATWG HTML Standard has it; everywhere else line ends can be mixed freely
  (`LineEndsDoNotMatterIff`, `CrThenLfIsOneEnd`).
- The abuse tracker reads the clock before it takes its lock. Pruning from the front is exact if
  and only if no stale failure stands behind a fresh one (`FrontPruningIsExactIff`); otherwise an
  address can be banned on failures that are no longer in the window (`OutOfOrderBan`).
- Recovery of a preparing takeover decides on its retry window and then waits for the locks,
  without deciding again. Past the deadline a recovery prepare can still leave if and only if a
  pass was already waiting (`LatePrepareIff`, `PrepareCanLeaveLate`). No status is read again
  either: after an abort a prepare can follow if and only if a task waits to send one, or a pass
  listed the job before it failed and the window is not over (`PrepareAfterAbortIff`,
  `PrepareCanFollowAbort`). In both cases the target is never authorized for a failed job.

## Model

| member | source | states |
|---|---|---|
| `Journal.TransferSums` | src/market_wallet.rs:106-197 | a transfer balances, and moves exactly its units between exactly its two accounts |
| `Journal.FreshKeyAppend` | src/market_wallet.rs:106-197 | appending under an unused key keeps (source, action) keys unique |
| `TerminationInvariant.CompensationIsCappedRounding` | src/client_market_termination.rs:101-108 | the product fits i128, the cast never truncates, and the result is min(remaining, round-half-up) |
| `TerminationInvariant.CompensationShrinksWithDelivery` | src/client_market_termination.rs:101-108 | delivery between preview and confirmation never raises the compensation nor the buyer's return |
| `TerminationInvariant.AcceptSound` | src/client_market_termination.rs:242-382 | accepting an exit, in every branch, yields a book whose projections, liability and audit agree |
| `TerminationInvariant.SettleCleanupSound` | src/client_market_termination.rs:789-839 | the split of the remainder keeps every projection equal to the journal |
| `TerminationInvariant.CleanupConfirmedSound` | src/client_market_termination.rs:740-851 | confirmation, including the late creation of a missing row, keeps the invariant |
| `TerminationInvariant.RecordCleanupSound` | src/client_market_termination.rs:678-736 | recording a cleanup, with its savepoint fallback, keeps the invariant |
| `TerminationInvariant.RecordCleanupKeepsSettled` | src/client_market_termination.rs:678-736 | a settled termination never falls back to finance pending |
| `TerminationInvariant.HoldForFinanceSound` | src/client_market_termination.rs:705-736 | the fallback keeps the invariant, the receipt, the stake and the planned split, and moves nothing |
| `TerminationInvariant.CleanupMarksSound` | src/client_market_termination.rs:871-880 | marking a cleanup failed or restarting it keeps the invariant |
| `TerminationInvariant.DecideSound` | src/client_market_termination.rs:1002-1227 | every admitted decision of Owner, Provider, buyer or timeout keeps the invariant |
| `TerminationInvariant.RespondSound` | src/client_market_termination.rs:1241-1285 | a formal response keeps the invariant, so it is strictly inside its window |
| `TerminationInvariant.DisputeSound` | src/client_market_termination.rs:1317-1391 | opening the one dispute keeps the invariant, with the award's flag following the status |
| `TerminationInvariant.CreditSound` | src/client_market_termination.rs:1817-1923 | the automatic credit keeps the invariant |
| `TerminationRuns.FundedRentalIsSound` | src/client_market_termination.rs:122-164 | every funded rental without a termination record is a starting point of the run theorems |
| `TerminationRuns.StepSound` | src/client_market_termination.rs:1774-1813 | the audit predicate, strengthened, is inductive under every step with any arguments |
| `TerminationRuns.RunSound` | src/client_market_termination.rs:1774-1813 | the audit predicate holds after every run |
| `TerminationRuns.StepForward` | schema/0095_client_market_termination.sql:58-130 | no step changes the snapshot or a cleanup receipt, raises the cap, reopens a claim or rewrites the journal, and money moves only with a version bump |
| `TerminationRuns.RunForward` | schema/0095_client_market_termination.sql:58-130 | the same one-way facts between the ends of any run |
| `TerminationTheorems.RunConservesUnits` | src/client_market_termination.rs:547-652 | after any run that has split the money, buyer wallet, provider pending, provider wallet and liability hold exactly the frozen remainder, each equal to its projection |
| `TerminationTheorems.AtMostOneAwardAndCredit` | src/client_market_termination.rs:594-652 | at most one award and one automatic credit are journaled in any run and no key repeats, so the projection-drift errors are unreachable |
| `TerminationTheorems.CreditIsFinal` | src/client_market_termination.rs:1817-1923 | after a credit no step changes any amount, the award or the journal |
| `TerminationTheorems.StakeOnlyShrinks` | src/client_market_termination.rs:946-954 | the stake never grows along a run, stays within the frozen agreement, and an undetermined claim always has a deadline, a stake and no credit |
| `TerminationTheorems.CleanupWritesPlan` | src/client_market_termination.rs:789-839 | a settling cleanup writes exactly the planned split and carries the stake over |
| `TerminationTheorems.PendingStep` | src/client_market_termination.rs:1039-1048 | while finance is pending nothing touches money, stake or plan; the only way out writes the plan |
| `TerminationTheorems.RetriesEndInTheSameSplit` | src/client_market_termination.rs:678-736 | any number of failed and interleaved retries ends in the split an immediate success would have written |
| `TerminationTheorems.RetryEqualsImmediateSuccess` | src/client_market_termination.rs:678-736 | between two runs: failing first and settling later writes the split that recording with safe finances writes at once |
| `TerminationTheorems.CleanupSucceedsIff` | src/client_market_termination.rs:740-851 | in a sound book a confirmation settles exactly when finance scopes, contract identity, wallet room and earning holds allow it |
| `TerminationTheorems.PlanIsCovered` | src/market_wallet.rs:843-921 | the liability check of a settlement cannot fire |
| `TerminationTheorems.DueStep` | src/client_market_termination.rs:1028-1038 | once an unanswered claim is due, no step but the timeout can change it |
| `TerminationTheorems.DueClaimIsOnlyWaived` | src/client_market_termination.rs:955-965 | from then on every run leaves claim and stake alone or has waived the stake to zero, returning the whole remainder once split |
| `TerminationTheorems.DecisionSetsStake` | src/client_market_termination.rs:1002-1227 | a decision sets the stake to the amount named, pays the buyer exactly the difference once money is split, and leaves a claim open only after a Provider's part offer |
| `TerminationTheorems.WithdrawalConcedes` | src/client_market_termination.rs:1286-1308 | a withdrawal returns nothing, keeps the stake for the Provider and closes the claim |
| `TerminationTheorems.ResponseStopsTheClock` | src/client_market_termination.rs:1241-1285 | an accepted answer is strictly inside its window, moves nothing, and in every later state of any run the claim is not due and the waiver is refused |
| `TerminationTheorems.DisputeHoldsTheAward` | src/client_market_termination.rs:1317-1391 | a dispute moves nothing, can never be opened twice, and until it is decided no credit goes out in any run |
| `TerminationTheorems.CreditPaysOnce` | src/client_market_termination.rs:1832-1905 | a credit moves exactly the compensation from pending to the Provider after maturity, and no later credit of any run pays again |
| `TerminationTheorems.DriftFreezesMoney` | src/client_market_termination.rs:1774-1813 | if any projection disagrees with the journal, no step moves money |
| `TerminationAdmission.AcceptanceIff` | src/client_market_termination.rs:250-334 | a first acceptance goes through if and only if the identity is intact, the actor is a party, a leaving buyer acts in person with a valid preview, a named reason and a short claim, and the tail fits |
| `TerminationAdmission.AcceptedStake` | src/client_market_termination.rs:326-334 | the stake is min(owed after the tail, round-half-up) exactly when the buyer leaves a paid period open after the tail, and zero otherwise |
| `TerminationAdmission.AcceptedRow` | src/client_market_termination.rs:306-349 | buyer, open, Provider and no responsibility, each if and only if; an opened claim is dated at acceptance |
| `TerminationAdmission.AcceptedSnapshot` | src/client_market_termination.rs:342-350 | the frozen parties, contract, period and remainder, and that nothing has moved yet |
| `TerminationAdmission.AcceptedTail` | src/client_market_termination.rs:326-328 | delivered units are fulfilled, unavailable ones return to the buyer, and the liability falls by both |
| `TerminationAdmission.VoluntaryExitPays` | src/client_market_termination.rs:242-851 | end to end: a voluntary exit and a settling cleanup leave the rounded share pending for the Provider, the rest with the buyer and nothing owed |
| `TerminationAdmission.CleanupSplits` | src/client_market_termination.rs:789-839 | all but the stake returns; the stake becomes a seven-day award or a hold; the confirmation is dated now |
| `TerminationAdmission.CleanupErrors` | src/client_market_termination.rs:770-779 | another host is a conflict and unsafe finances a finance hold |
| `TerminationAdmission.HistoricalCleanup` | src/client_market_termination.rs:746-769 | a missing row is created with the historical cutoff, no responsibility and no stake |
| `TerminationAdmission.CleanupMarks` | src/client_market_termination.rs:871-880 | a failure is marked once, a new job puts the row back to pending, and a confirmed row is left alone |
| `TerminationAdmission.RecordingKeepsReceipt` | src/client_market_termination.rs:678-736 | on the own host recording always succeeds and keeps the first receipt or writes this one, in every environment; another host is a conflict |
| `TerminationAdmission.RecordingHolds` | src/client_market_termination.rs:705-736 | when the money cannot be split the row waits for finance with its first confirmation, and the journal is unchanged |
| `TerminationAdmission.StakeMeans` | src/client_market_termination.rs:946-954 | the stake is the cap before the split and whatever has not been returned afterwards |
| `TerminationAdmission.DecisionIff` | src/client_market_termination.rs:1009-1132 | a decision is admitted if and only if person, moment, version, amounts, finances and liability allow it, in columns and arguments |
| `TerminationAdmission.StrangersAreForbidden` | src/client_market_termination.rs:1009-1024 | any other Provider or buyer is forbidden, whatever else holds |
| `TerminationAdmission.DecisionLeaves` | src/client_market_termination.rs:1092-1110 | responsibility, response time, version and snapshot after a decision; a full waiver makes the Provider responsible |
| `TerminationAdmission.DecisionSettles` | src/client_market_termination.rs:1104-1176 | before the split only the cap moves; a released hold becomes a seven-day award of the decided amount |
| `TerminationAdmission.ResponseIff` | src/client_market_termination.rs:1241-1285 | an answer is accepted if and only if it is the Provider on the current open, unanswered claim within three days; others are forbidden |
| `TerminationAdmission.DisputeIff` | src/client_market_termination.rs:1317-1391 | a claim is accepted if and only if it is the buyer, for the first time, with something at stake and the award live and immature; others are forbidden |
| `TerminationAdmission.CreditPaysIff` | src/client_market_termination.rs:1832-1890 | an award is paid if and only if it is seven days old, undisputed, unpaid and not used up, its Provider may be paid, and finances, cover and room allow it |
| `TerminationAdmission.CreditMoves` | src/client_market_termination.rs:1873-1890 | a payment moves the whole award from pending to the wallet and changes nothing else |
| `TerminationAdmission.EvidenceFixesEveryColumn` | src/client_market_termination.rs:1774-1813 | two settled records that pass the audit over one journal agree on every amount, so no column can drift alone |
| `TerminationStore.Ledger.AcceptExit` | src/client_market_termination.rs:242-382 | ends in the specified book or leaves the rows alone, with the specified error |
| `TerminationStore.Ledger.PayBuyer` | src/client_market_termination.rs:547-593 | pays the buyer from a liability once per key; a used key, a short liability and a full wallet each give their error |
| `TerminationStore.Ledger.GrantAward` | src/client_market_termination.rs:594-652 | awards at most the cap and the frozen agreement once, with a row that passes its CHECKs, or changes nothing |
| `TerminationStore.Ledger.SplitRemainder` | src/client_market_termination.rs:789-836 | the money statements of a cleanup write the planned split and fail only if the buyer's wallet is full |
| `TerminationStore.Ledger.Settle` | src/client_market_termination.rs:789-839 | the whole settlement, statement by statement, failing only on a full wallet or unreleased holds |
| `TerminationStore.Ledger.ConfirmCleanup` | src/client_market_termination.rs:740-851 | refines the confirmation specification, rollback included |
| `TerminationStore.Ledger.RecordVerifiedCleanup` | src/client_market_termination.rs:678-736 | recording ends in the specified book: the receipt first, then the split or, on failure, the waiting row, which passes its checks and trigger |
| `TerminationStore.Ledger.ReduceAward` | src/client_market_termination.rs:1117-1143 | reversing part of an award passes every row check in source order |
| `TerminationStore.Ledger.ResolveHold` | src/client_market_termination.rs:1144-1168 | resolving held compensation fails only on a full wallet |
| `TerminationStore.Ledger.WriteDecision` | src/client_market_termination.rs:1104-1176 | the writes of an admitted decision pass every check and trigger and give the specified book |
| `TerminationStore.Ledger.ApplyDecision` | src/client_market_termination.rs:1002-1227 | refines the decision specification for all four authorities |
| `TerminationStore.PlanFits` | schema/0095_client_market_termination.sql:58-130 | before a settlement the keys are free, the liability covers the plan and every written amount passes the CHECKs |
| `TerminationStore.AcceptedChecks` | schema/0095_client_market_termination.sql:58-130 | the inserted row passes the CHECKs |
| `TerminationStore.SoundRows` | schema/0095_client_market_termination.sql:58-130 | every row of a sound book passes its CHECKs, and a claim has an opening time exactly when it was used |
| `FairWorkers.SkippingRoundAdvances` | src/client_market_termination.rs:1713-1737 | a round that skips a due id brings the cursor strictly closer to it |
| `FairWorkers.DueItemIsAttempted` | src/client_market_termination.rs:1713-1769 | an id that stays due is attempted within one more round than there are ids, however others fail and whatever the batch limits |
| `FairWorkers.LoggedItemIsAttempted` | src/client_market_termination.rs:1713-1769 | the same inside the log that successive passes of a worker build |
| `FairWorkers.Select` | src/client_market_termination.rs:1719-1736 | the selected batch is the first due ids past the cursor, up to the limit |
| `FairWorkers.ExpiryConsumesDueClaim` | src/client_market_termination.rs:1739-1760 | one attempt on a due claim with safe finances waives it and takes it off the queue |
| `FairWorkers.TimeoutSelection` | src/client_market_termination.rs:1722-1727 | the timeout query selects exactly the claims unanswered for three days |
| `FairWorkers.CreditSelection` | src/client_market_termination.rs:1832-1842 | the credit query selects exactly the undisputed awards seven days old with something to pay |
| `FairWorkers.OverdueIsWaivedIff` | src/client_market_termination.rs:1739-1760 | an overdue claim is waived if and only if its money is not pending, its scopes are safe and the refund can be paid |
| `FairWorkers.DueAwardIsPaidIff` | src/client_market_termination.rs:1848-1890 | a selected award is paid and counted if and only if its Provider is not barred and finances, cover and room allow it |
| `FairWorkers.RecordedIsSelected` | src/client_market_termination.rs:1938-1954 | a recorded cleanup keeps its receipt through every run and is selected for recovery exactly until its money is split |
| `SharedAccounts.CommitKeepsAgree` | src/market_wallet.rs:873-888 | after any record's transaction all records still read the same balance of every wallet and pending account |
| `FairWorkers.PassIsolates` | src/client_market_termination.rs:1739-1769 | after a pass every selected record was attempted exactly once, every other record is the same, and all read the same balances |
| `FairWorkers.Worker.ExpireDisputes` | src/client_market_termination.rs:1708-1770 | selects its batch, waives each selected record or leaves it as it was on the balances the records before it left, touches no other, returns how many were waived, and logs the round its cursor continues |
| `FairWorkers.Worker.CreditDueAwards` | src/client_market_termination.rs:1817-1923 | the same for the credit worker, returning how many records were paid |
| `FairWorkers.Worker.RecoverCleanups` | src/client_market_termination.rs:1927-1985 | the same for the recovery worker over released rentals, returning how many confirmations went through |
| `ActionLocks.OneLiveMutexPerKey` | src/client_market_coordination.rs:12-26 | in every interleaving two live references share a mutex exactly when their keys are equal, and one call holds a key |
| `ActionLocks.RefinesPerKeyMutex` | src/client_market_coordination.rs:12-26 | the registry refines one plain mutex per key; pruning and refilling are invisible |
| `TakeoverLocks.NoDeadlock` | src/client_subdomain_takeover.rs:174-197 | no reachable state has a cycle of waiting tasks, for any pairs including equal and swapped ones |
| `TakeoverLocks.ChainIncreases` | src/client_subdomain_takeover.rs:174-197 | wanted locks strictly increase along any wait chain |
| `TakeoverLocks.MutualExclusion` | src/client_subdomain_takeover.rs:529-545 | two tasks never hold one installation |
| `TakeoverLocks.OrderIsOfBoth` | src/client_subdomain_takeover.rs:174-197 | both installations are locked, in one order whichever is target |
| `TakeoverLocks.TakeoverOwnsBoth` | src/client_subdomain_takeover.rs:174-197 | a takeover that has not let go still waits, or owns exactly its two installations |
| `TakeoverProtocol.StepIsSafe` | src/client_subdomain_takeover.rs:81-172 | every step keeps every sent message justified by the durable status and never moves the status back |
| `TakeoverProtocol.RunIsSafe` | src/client_subdomain_takeover.rs:478-571 | the same over runs with crashes and stale recoveries: every message stays justified, and status and messages only move forward |
| `TakeoverProtocol.AbortAndCommitExclude` | src/client_subdomain_takeover.rs:234-307 | no run both aborts and commits or authorizes; committed jobs only move forward; a recovery prepare was decided inside its window and left no earlier |
| `TakeoverProtocol.LatePrepareIff` | src/client_subdomain_takeover.rs:507-537 | past the deadline some continuation sends a recovery prepare if and only if a pass already waits to send it |
| `TakeoverProtocol.PrepareCanLeaveLate` | src/client_subdomain_takeover.rs:507-537 | a run whose recovery prepare leaves long after the deadline |
| `TakeoverProtocol.NoPrepareStartsLate` | src/client_subdomain_takeover.rs:507-528 | past the deadline no run starts a prepare |
| `TakeoverProtocol.LatePassSettles` | src/client_subdomain_takeover.rs:513-525 | past the deadline a pass that is not cut off leaves the job no longer preparing |
| `TakeoverProtocol.PrepareAfterAbortIff` | src/client_subdomain_takeover.rs:459-537 | after an abort a prepare can follow if and only if a task waits to send one, or a pass listed the job before it failed and the window is not over; the job stays failed |
| `TakeoverProtocol.AnotherPrepareIff` | src/client_subdomain_takeover.rs:459-537 | in any job another prepare can leave if and only if a task waits to send one, or the window is not over and a pass has the job listed as preparing or can list it so |
| `TakeoverProtocol.PrepareCanFollowAbort` | src/client_subdomain_takeover.rs:459-537 | one such run after an abort |
| `TakeoverProgress.UnstoppedTaskCloses` | src/client_subdomain_takeover.rs:81-172 | progress: a request or pass that is neither cut off nor refused, while no other task fails the job, ends only by closing a committed job, finished when no cleanup is pending |
| `TakeoverProgress.StartsOnTheWay` | src/client_subdomain_takeover.rs:459-505 | the routed request and every pass over a prepared or committed job are so on their way; every unfinished job is listed |
| `TakeoverProgress.AuthorizedIffCommitted` | src/client_subdomain_takeover.rs:199-222 | the target is authorized if and only if the job is committed |
| `TakeoverProgress.PassSendsIffRouted` | src/client_subdomain_takeover.rs:496-525 | a pass sends its commit or its abort exactly when it had a route |
| `TakeoverProgress.CommittedPassIsSilent` | src/client_subdomain_takeover.rs:484-495 | a pass over a committed job sends nothing |
| `TakeoverProgress.ClosingRecords` | src/client_subdomain_takeover.rs:345-429 | closing records finished exactly when nothing is pending or it already was, and an acknowledged commit at least as such |
| `TakeoverProgress.FailureHasCause` | src/client_subdomain_takeover.rs:224-307 | a job fails only in a run with an unroutable or refused prepare, a pass that came after the deadline, or a terminal commit error |
| `TakeoverProgress.TerminalErrorFails` | src/client_subdomain_takeover.rs:605-629 | a terminal commit error of a pass that is not cut off leaves the job failed unless another pass committed it |
| `TakeoverProgress.EveryJobCanEnd` | src/client_subdomain_takeover.rs:459-571 | from every state some continuation finishes or fails the job |
| `SingleFlight.NormalizeIsStable` | src/client_server_release.rs:226-237 | a normalized selector is its own normal form |
| `SingleFlight.NormalForms` | src/client_server_release.rs:226-237 | the normal forms are `latest` and seven lower-case hexadecimal digits, reached up to case and blanks only |
| `SingleFlight.FetchesNeverOverlap` | src/client_server_release.rs:98-144 | fetches of one selector never overlap, the next starts only after the stored result expired, and every answer is an unexpired fetched result |
| `SingleFlight.FreshResultIsServed` | src/client_server_release.rs:98-144 | while a result is fresh every caller gets exactly it and starts no fetch, before the lock and after waiting for it |
| `SingleFlight.FreshResultEndsFetching` | src/client_server_release.rs:98-144 | while a result is fresh no caller of its selector is fetching |
| `ClockConsensus.SortIsSorted` | src/clock_health.rs:468-473 | the samples are sorted and only reordered |
| `ClockConsensus.FindWindow` | src/clock_health.rs:474-484 | the nested loops find the first longest agreeing window |
| `ClockConsensus.Consensus` | src/clock_health.rs:468-502 | the answer is what that window yields |
| `ClockConsensus.WindowAgreesIffNoWrap` | src/clock_health.rs:478-478 | the window truly agrees if and only if no spread wraps |
| `ClockConsensus.WindowIsOptimal` | src/clock_health.rs:474-484 | no mutually agreeing sub-multiset of samples, contiguous or not, is larger |
| `ClockConsensus.UnanimousPairIff` | src/clock_health.rs:488-495 | two sources at one offset are reported as it if and only if it lies in half of the i64 range |
| `ClockConsensus.QuorumIsLargest` | src/clock_health.rs:468-502 | for all i64 answers no agreeing group is larger than the reported quorum, and without a report no two agree |
| `ClockConsensus.QuorumIsAttained` | src/clock_health.rs:468-502 | for all answers in range a report stands for an agreeing group of exactly the reported size, with the offset between two of its members |
| `ClockConsensus.ReportIsCentre` | src/clock_health.rs:485-502 | a report splits an agreeing group in halves, and its uncertainty is a second, half the slowest round trip and half the spread |
| `ClockConsensus.ValidSamplesMeans` | src/clock_health.rs:468-473 | exactly the answers with offset and round trip are heard, in order |
| `ClockConsensus.MajorityDecides` | src/clock_health.rs:468-502 | for all answers in range, if two or more that are a majority agree, an offset is reported within 2500 ms of one of them |
| `ClockConsensus.OppositeEndsPassForQuorum` | src/clock_health.rs:478-478 | two sources at opposite ends of the range are reported as a quorum at zero |
| `ClockAlerts.StreakStep` | src/clock_health.rs:118-166 | each counter update is the saturated count of matching probes since the last resetting one |
| `ClockAlerts.RecoveryIsThreeAligned` | src/clock_health.rs:123-129 | a recovery streak of three means the last three probes were aligned |
| `ClockAlerts.SkewStep` | src/clock_health.rs:134-155 | the alert update keeps level and quoted offset equal to what the history leaves behind |
| `ClockAlerts.RecordedIsUnique` | src/clock_health.rs:118-182 | the history determines the alert |
| `ClockAlerts.ClockAlertMachine.ObserveOffset` | src/clock_health.rs:119-156 | the quorum branch, case by case |
| `ClockAlerts.ClockAlertMachine.Observe` | src/clock_health.rs:118-182 | every field and the one emitted condition are functions of the whole history |
| `ClockAlerts.AlertNeedsConfirmation` | src/clock_health.rs:134-155 | an alert goes back to a certain rejection or two risky quorums with no healthy quorum between |
| `ClockAlerts.ConfirmationAlerts` | src/clock_health.rs:134-155 | and such evidence always raises it |
| `ClockAlerts.CriticalUntilCleared` | src/clock_health.rs:144-154 | a critical alert never downgrades until cleared |
| `ClockAlerts.ClearedByThreeAligned` | src/clock_health.rs:123-129 | an alert goes off at a probe exactly when it completes three aligned in a row |
| `ClockAlerts.EmissionRule` | src/clock_health.rs:168-181 | which single condition a history calls for, in terms of the last probes, if and only if for each |
| `ClockAlerts.Thresholds` | src/clock_health.rs:536-544 | the offsets that are risky, critical, aligned and certain to be rejected |
| `ClockAlerts.WarningsAreSpaced` | src/clock_health.rs:330-346 | under every interleaving warnings are an interval apart and silence always has a cause |
| `BarkFence.ProviderRuntime.Sync` | src/bark.rs:662-719 | the row is the published configuration, the change count and a clean breaker |
| `BarkFence.ProviderRuntime.MarkHealthy` | src/bark.rs:778-800 | the row still agrees with the log |
| `BarkFence.ProviderRuntime.MarkFailure` | src/bark.rs:802-854 | failures count since the last success or change; the circuit opens at the third |
| `BarkFence.ProviderRuntime.Begin` | src/bark.rs:856-891 | returns the generation exactly when the caller's configuration is in force |
| `BarkFence.ProviderRuntime.Commit` | src/bark.rs:986-1031 | accepts exactly under the fence condition |
| `BarkFence.LogStep` | src/bark.rs:662-719 | how every part of the row must move with one request |
| `BarkFence.CircuitStep` | src/bark.rs:802-854 | the circuit is open from the third counted failure until five minutes after the last |
| `BarkFence.GenerationRepeats` | src/bark.rs:688-692 | the generation is monotone and repeats exactly without a change or at saturation |
| `BarkFence.FenceHolds` | src/bark.rs:1005-1031 | a commit with its own begin's generation succeeds if and only if nothing changed in between, away and back included |
| `BarkFence.SaturatedFenceMissesFlip` | src/bark.rs:692-692 | after 2^63 - 1 changes a flip goes unseen |
| `BarkFence.StaleReportsAreIgnored` | src/bark.rs:778-854 | reports about another configuration change nothing |
| `SseLexer.ChunksDoNotMatter` | src/api.rs:9204-9225 | the lexer state does not depend on chunking |
| `SseLexer.LexRendered` | src/api.rs:9204-9225 | written lines come out clipped to the bound whatever their line ends |
| `SseLexer.LineEndsDoNotMatterIff` | src/api.rs:9204-9225 | exactly when no empty LF line follows a CR line |
| `SseLexer.CrThenLfIsOneEnd` | src/api.rs:9204-9225 | two empty lines ended by CR and by LF are read as one |
| `SseLexer.EveryStreamIsRendered` | src/api.rs:9204-9225 | every byte stream is such lines plus an unterminated rest |
| `SseEvents.TrimAscii` | src/api.rs:9447-9455 | what is left has no blank at either end, and only blanks were dropped, only at the ends |
| `SseEvents.ProbeSseTracker.Push` | src/api.rs:9204-9225 | refines the lexer and keeps the verdict equal to what the finished lines amount to |
| `SseEvents.ProbeSseTracker.Finish` | src/api.rs:9227-9259 | acceptance of the whole stream, unterminated line and event included |
| `SseEvents.ProbeSseTracker.FinishLine` | src/api.rs:9261-9270 | one more finished line |
| `SseEvents.ProbeSseTracker.ResponseLine` | src/api.rs:9296-9321 | field lines, blank lines, truncation and the size bound |
| `SseEvents.ProbeSseTracker.FinishResponseEvent` | src/api.rs:9323-9396 | the branches of a dispatch amount to one effect of the event alone |
| `SseEvents.ProbeSseTracker.NoteKind` | src/api.rs:9362-9395 | the effect of an event by its type |
| `SseEvents.ProbeSseTracker.RecordSuccess` | src/api.rs:9398-9408 | a checked success |
| `SseEvents.ProbeSseTracker.ObserveEvent` | src/api.rs:9410-9444 | first failure and first success are kept |
| `SseTheorems.LineEndsKeepVerdict` | src/api.rs:9204-9259 | two readings of the same lines get the same verdict |
| `SseTheorems.FinalEventIsDispatched` | src/api.rs:9227-9233 | a stream that stops early is judged as if properly ended |
| `SseTheorems.StreamIsEffects` | src/api.rs:9323-9396 | the verdict on complete events is the accumulated effect of each event by itself |
| `SseTheorems.AcceptedIff` | src/api.rs:9234-9245 | acceptance in terms of the events alone |
| `SseTheorems.AcceptanceRule` | src/api.rs:9234-9245 | outside the mixture: no error, no failure, some success, all successes of one kind |
| `SseTheorems.ReorderingIff` | src/api.rs:9323-9444 | every order gets the same verdict if and only if the events are not the mixture |
| `SseTheorems.PaddedCompletionDependsOnOrder` | src/api.rs:9398-9444 | two events accepted in one order only |
| `SseTheorems.JudgedIsStream` | src/api.rs:9204-9259 | the bytes of complete events are judged as their lines are, whatever the line ends |
| `SseTheorems.BytesOfSameEvents` | src/api.rs:9204-9444 | two byte streams of the same events, in other orders, with other line ends and cut into other chunks, get the same verdict unless the events are the mixture |
| `SsePayloads.LinesAmountTo` | src/api.rs:9293-9321 | an event amounts to its last trimmed name and its data lines joined by newlines without one leading blank; a cut line, bad name or too much data breaks the protocol |
| `SsePayloads.PayloadsDecide` | src/api.rs:9323-9444 | every stream of complete events is accepted if and only if every event is readable, typed, agreeing and unfailing, one reports success, and each plain success agrees with the first |
| `SsePayloads.AcceptedOutsideMixture` | src/api.rs:9323-9444 | outside the mixture: accepted if and only if no event speaks against it, some event reports success and all that do report the same |
| `SsePayloads.BytesDecide` | src/api.rs:9204-9444 | the same from the bytes, for every chunking and choice of line ends |
| `AbuseBans.PruneOldFailures` | src/abuse.rs:277-284 | the loop drops the stale failures at the front and stops at the first fresh one |
| `AbuseBans.FrontPruningIsExactIff` | src/abuse.rs:277-284 | front pruning is the window if and only if no stale failure stands behind a fresh one |
| `AbuseBans.OutOfOrderFailureSurvives` | src/abuse.rs:277-284 | a deque on the failing side |
| `AbuseBans.OutOfOrderBan` | src/abuse.rs:131-154 | ten failures entering out of order are banned although only two are in the window |
| `AbuseBans.IdleIsForgettable` | src/abuse.rs:260-265 | dropping an idle entry never shows in a later answer |
| `AbuseBans.ChargedMatches` | src/abuse.rs:140-153 | the bounded entry after a failure agrees with the unbounded record, and a ban is decided at the tenth |
| `AbuseBans.AbuseTracker.BanRemaining` | src/abuse.rs:116-129 | answers like the reference |
| `AbuseBans.AbuseTracker.RecordInvalidAuth` | src/abuse.rs:131-154 | with calls in time order bans exactly when the reference does; in any order the table never exceeds its cap, and an address is forgotten only when the table is full of live entries |
| `AbuseBans.AbuseTracker.MakeRoom` | src/abuse.rs:134-139 | idle entries go first, then one touched longest ago |
| `AbuseBans.AbuseTracker.OldestKey` | src/abuse.rs:267-275 | the minimum by last use |
| `Ticker.ReplacesByKey` | src/api.rs:2375-2401 | the branching comparison is the lexicographic key order |
| `Ticker.ReplacementIsWeakOrder` | src/api.rs:2375-2401 | replacement is a strict weak order |
| `Ticker.StateOrder` | src/api.rs:2375-2421 | any usage beats none, then the newer revision, then observed, then missing, unparsable or interrupted, then any other state |
| `Ticker.CountOrder` | src/api.rs:2423-2437 | at equal revision and state the larger stated or summed count wins |
| `Ticker.BlankMeans` | src/api.rs:2236-2280 | a text gives way to the earlier one exactly when it is missing or only blanks |
| `Ticker.Merge` | src/api.rs:2236-2280 | better usage, earlier start, and per field the new value if informative |
| `Ticker.SummaryStep` | src/api.rs:2236-2280 | merging keeps the summary of all observations |
| `Ticker.Collect` | src/api.rs:2153-2160 | every identifier ends with the summary of all its observations |
| `Ticker.OrderDoesNotMatter` | src/api.rs:2236-2280 | any order of the observations keeps the same best key and start |
| `LogTail.SuffixSuffices` | src/api.rs:8302-8312 | more newlines than wanted lines make the rest of the file irrelevant |
| `LogTail.OneFewerIsNotEnough` | src/api.rs:8304-8304 | with one newline fewer the oldest line may be cut |
| `LogTail.CountNewlines` | src/api.rs:8310-8310 | counts every newline of a chunk |
| `LogTail.ReadLastLines` | src/api.rs:8293-8322 | for every file and limit, the last lines of the whole file |
| `LogTail.LinesOfWritten` | src/api.rs:8313-8322 | the lines of a text are those it was written from, for both line ends, with an unterminated rest |

## Left out

- HTTP routing, handlers, sessions, notifications, chat and audit events: input and output around the modelled state.
- SQL text and time strings: tables are records and times integers; the fractional-day comparison in the timeout query is taken as the exact three days.
- Finance scope checks, preview lookup, contract termination and tail settlement: their outcomes are arguments of the steps, with the tail moving delivered and unavailable units within the remainder.
- Wallet rows: whether a credited wallet has room for the units, and whether earning holds can be released, are arguments of the steps.
- Other journals: they may move any account except the unfulfilled liability of the period in question.
- Journal fingerprints: a repeated key is refused; the comparison of its content is not modelled.
- TerminationStore.Ledger.CreditAward: starts from a record the worker's query selected, because the query is the guard.
- Overdue-dispute signals at the end of the recovery worker: they write no modelled row.
- Takeover route snapshots, share labels and tunnel ownership: only the job's status and the messages to the target are modelled.
- Payload validation of a fetched release: the verdict is an argument of the step that stores it.
- Overflow panics of debug builds: unchecked 64-bit arithmetic wraps, as in a release build.
- SseEvents.ProbeSseTracker.ObserveEvent: knows the Responses event names only; the other modes are not modelled.
- SseEvents.ProbeSseTracker.Push: fixes the Responses line bound; the line lemmas hold for any bound, the other modes' event names are not modelled.
- JSON and UTF-8 decoding: functions given to the tracker; the expected output cap is part of the decoded payload.
- UTF-8 replacement in the log tail: lines are byte strings; newlines are never part of a multi-byte character.
- Share-scoped abuse bans: the same window logic with persistence.
- Channel rows and encryption written after the Bark fence, rate limits of binding attempts, and error redaction.
- Fields of a ticker event that the merge takes over unconditionally, and the live overlay after it.
