# Verified model of the Revora backend cores

This project models the stateful cores of the Revora revenue-sharing backend in Dafny and proves
what they guarantee over whole runs. Each module follows one part of the backend:

- `Allocation`, `PayoutStore`, `BatchLoop`, `DistributionProtocol`, `DistributionRuns`,
  `DistributionOutcomes`, `DistributionAnswers`, `DistributionEngine`: splitting a revenue amount over
  investors to the cent, and persisting the payouts batch by batch. Which attempt of which store call raises
  is a function of the call and the attempt, given freely; a COMMIT may also take effect and lose its reply.
  Every durable state of the two tables is logged, a crash cuts the log anywhere in a call, and a new process
  resumes from what is left. `BatchLoop` and `DistributionProtocol` say what the loop and a whole call do,
  `DistributionRuns` proves what follows for any mix of calls, faults and crashes, `DistributionOutcomes` what
  becomes of investors listed more than once, `DistributionAnswers` what a call answers and which run it is
  about, and the class carries the functions out.
- `SessionForest`, `SessionLife`, `RefreshService`, `RefreshContention`: refresh-token rotation. The sessions table is
  a forest through `parent_id`; `Refresh` is one transaction on it. `RefreshService` runs it statement
  by statement, `RefreshContention` interleaves the statements of any number of callers under the row
  lock, with logins and other families' refreshes committing in between. `SessionLife` says what each
  operation writes and how long a token is good.
- `EventLine`, `EventDecisions`, `EventLiveness`, `EventIds`, `EventOrdering`: the webhook reordering
  tracker, first as functions on one entity, with what it answers, what it never does, how far it gets and
  what it asks of event ids, then as the class with its two maps and a driver that marks each processed event.
- `Intervals`, `FixedWindowLimiter`, `SlidingWindowLimiter`: the two rate limiters and their bounds over
  every request history.
- `DecimalText`, `Decimal`: the fixed-point decimal, its parser and printer, and its arithmetic against
  the rationals (Dafny's `real`).
- `Vesting`, `VestingTerms`: the vesting contract with i128 overflow made explicit, and what can be claimed
  in the terms given at creation.
- `Idempotency`, `IdempotentReplies`: the idempotency middleware on its in-memory store, any interleaving of
  arrivals, finished responses and closed connections, and which response a client gets.
- `MetricKeys`, `MetricText`, `Metrics`: metric keys and their parser, sanitizing character by character, and
  the registry under its cardinality limit.
- `SessionStore`, `SessionExpiry`: the in-memory session registry, against an ideal store in which sessions
  vanish at their expiry, and when a session is found after its last use.
- `Milestones`: sequential milestone validation.
- `Wrappers`, `Arithmetic`, `Sequences`: shared datatypes, multiplication and division facts, and the
  stable sort.

A class method that changes state is specified by a function on the state's value, and the theorems
about whole runs are lemmas about those functions. Check everything with `dafny verify dfyconfig.toml`.

## Conventions

- Money is whole cents, and the revenue is a whole number of cents. Balances are integers, since only
  their ratios matter. `Math.round(x * 100)` is the floor of `(2*b*R + T) / (2*T)`.
- Time is an argument of each call, in the unit of the source; theorems that need it require it not to decrease.
- Hashing is injective, so a token stands for its own hash. Session ids and store tokens are never repeated.
- A failed store call has no effect, except that a COMMIT may lose only its reply.
- The allocation of each (offering, period, amount) is fixed: balances do not change between a call and
  its resumption, and calls do not overlap.
- `batchSize` is positive: the batch loop of the source does not end on zero.

## Where the code and its documentation differ

The model follows the code.

- The refresh service documents a set of in-flight sessions (src/auth/refresh/refreshService.ts:40-45)
  which no code uses; it is the row lock that protects concurrent calls. Its child probe
  (src/auth/refresh/refreshService.ts:128-138) is described as the reuse detection, but the consumed check
  in front of it always fires first (`ChildProbeNeverFires`).
- The decimal constructor says "positive" (src/lib/decimal.ts:42), yet accepts zero and integer parts
  with leading zeros, which it normalises (`PrintsBackIffCanonical`).
- With a connection pool `distribute` reports success although batches were rolled back
  (src/services/distributionEngine.ts:102-108, 385-400): `PooledSuccessWithoutRows` is such a call. For
  every pattern of faults success means that everyone is paid exactly if there is no pool, or nothing is
  attempted, or everyone was paid before (`SuccessMeansPaidIff`). The stored status tells the truth with
  and without a pool (`CompletedSuccessIsPaid`).
- An investor listed twice gets one row (src/services/distributionEngine.ts:295, 318), so a completed run
  may not pay the revenue. A fresh run stores first entries, and pays the revenue exactly if the skipped
  ones sum to zero (`FreshRunPaysIff`). After faults the stored entry may be a later one of the plan, or
  with a pool the first one of a later batch (`LaterEntryWins`, `LaterBatchWins`). Every completed run of
  every history pays the revenue exactly if those entries are identical and the skipped ones sum to zero,
  or no attempt is ever made (`AlwaysPaysIff`).
- With few cents for many investors the adjusted payout can be negative: for n investors exactly from two
  cents to below (n-1) * floor((n-2)/2) cents (`NegativePayoutIff`).
- The fixed-window limiter admits up to twice its limit around the end of a window (`TwiceTheLimitIsReached`).
- Exact vesting amounts need `total * (end - cliff - 1)` to fit an i128; beyond that, claims before the
  end time panic (`NeverOverflowsIff`).
- A milestone's validation event is written first "for audit trail"
  (src/vaults/hardenedMilestoneValidation.ts:231), so a fault between the two writes leaves an event for a
  milestone that stays pending (`FaultLeavesOrphanEvent`). Exactly such faults break the
  correspondence, at one request (`OnlyValidatedLoggedIff`) and over a run (`LogIsWritesIff`).
- Duplicate events are documented as harmless and ids as unique (src/middleware/webhookEventOrdering.ts:7-10).
  A number from 2 on that comes under two ids can be delivered twice; with one id each, or several for 0 and 1
  only, nothing ever is (`GaplessIff`). One id for two numbers from 1 on can lose the higher one, unless they
  are neighbours (`LosslessIff`).
- The tracker ensures "events are processed in the correct order" (src/middleware/webhookEventOrdering.ts:5), and
  does, but may drop early ones. Nothing that arrives is ever lost exactly if each early arrival is waiting
  already or finds room and is young, and each sweep leaves a young event of every waiting number
  (`NothingEverLostIff`). `RoomIffArrivalsFit` states enough room in terms of the arrivals alone.

## Model

| member | source | states |
|---|---|---|
| `Allocation.FirstMax` | src/services/distributionEngine.ts:209-212 | the index found by the adjustment loop holds a largest share, and no earlier one is as large |
| `Allocation.ComputePlan` | src/services/distributionEngine.ts:190-214 | the loops of the source compute exactly the allocation the theorems below are about |
| `Allocation.PayoutsSumToRevenue` | src/services/distributionEngine.ts:190-214 | conservation: for every list of balances with a positive total, the amounts add up to exactly the revenue |
| `Allocation.RoundShareWithinHalf` | src/services/distributionEngine.ts:200-203 | a rounded share is at most half a cent above its exact value and less than half a cent below |
| `Allocation.OrdinaryPayoutWithinHalf` | src/services/distributionEngine.ts:200-214 | every payout except the adjusted one is within half a cent of its exact share |
| `Allocation.AdjustedPayoutBound` | src/services/distributionEngine.ts:205-214 | the payout that takes the whole residue is within (n-1)/2 cents of its exact share |
| `Allocation.DeviationsCancel` | src/services/distributionEngine.ts:205-214 | what some investors gain by rounding, the others lose, exactly |
| `Allocation.PlanIsFair` | src/services/distributionEngine.ts:190-214 | the plan lists every investor next to an amount for their own share, within half a cent (the adjusted one within (n-1)/2 cents), and sums to the revenue |
| `Allocation.NegativeNeeds` | src/services/distributionEngine.ts:195-214 | with non-negative balances only the adjusted payout can be negative, and only if 2 <= R < (n-1)*floor((n-2)/2) cents |
| `Allocation.PayoutsNonNegative` | src/services/distributionEngine.ts:195-214 | no payout is negative for non-negative balances and every other revenue R >= 0 |
| `Allocation.SomeBalancesPayNegative` | src/services/distributionEngine.ts:195-214 | for every such n and R there is a list of n non-negative balances with a negative payout |
| `Allocation.NegativePayoutIff` | src/services/distributionEngine.ts:190-214 | over all lists of n non-negative balances: some payout is negative for one of them if and only if 2 <= R < (n-1)*floor((n-2)/2) |
| `PayoutStore.DistributionRepository.FindRunByParams` | src/db/repositories/distributionRepository.ts:157-180 | a found run has the asked parameters, and none is reported only if there is none |
| `PayoutStore.DistributionRepository.GetPayoutsForRun` | src/db/repositories/distributionRepository.ts:185-197 | yields all stored rows of the run |
| `PayoutStore.DistributionRepository.CreateDistributionRun` | src/db/repositories/distributionRepository.ts:73-112 | a new id with no rows is durable, or nothing changes |
| `PayoutStore.DistributionRepository.UpdateRunStatus` | src/db/repositories/distributionRepository.ts:205-218 | changes this status only, durably, or nothing |
| `PayoutStore.DistributionRepository.CreatePayout` | src/db/repositories/distributionRepository.ts:120-152 | appends one row; durable at once outside a transaction, at COMMIT inside one |
| `PayoutStore.DistributionRepository.Begin` | src/db/transaction.ts:128-151 | opens a transaction that remembers the rows before it |
| `PayoutStore.DistributionRepository.Resume` | src/services/distributionEngine.ts:143-165 | a new process finds the last durable state and no open transaction |
| `PayoutStore.DistributionRepository.Commit` | src/db/transaction.ts:153-157 | makes everything written since BEGIN durable in one step, or nothing; it may also raise after it took effect |
| `PayoutStore.DistributionRepository.Rollback` | src/db/transaction.ts:173-200 | restores the rows before BEGIN |
| `PayoutStore.CrashLeavesLegalHistory` | src/services/distributionEngine.ts:138-441 | a process that dies after any durable change leaves a legal state to resume from |
| `PayoutStore.HistoryGrows` | src/services/distributionEngine.ts:143-157 | between any two durable states no run or row is lost, and completion is absorbing |
| `PayoutStore.CompletedRunPaysRevenue` | src/services/distributionEngine.ts:404-409 | in every durable state a completed run of distinct investors holds each entry of the allocation once and sums to the revenue |
| `PayoutStore.ExactlyOncePayouts` | src/services/distributionEngine.ts:138-441 | over a whole history with failures and crashes: stored rows are part of one fixed allocation, at most one an investor, and stay; once completed they never change and pay the revenue |
| `PayoutStore.Missing` | src/services/distributionEngine.ts:275-297 | the entries to insert are planned ones, for exactly the investors without a row |
| `PayoutStore.MissingConcat` | src/services/distributionEngine.ts:286-297 | finding the missing entries batch after batch yields the same rows in the same order as over the whole plan |
| `PayoutStore.MissingPlusSkipped` | src/services/distributionEngine.ts:294-297 | the planned sum is what is inserted plus what is passed over |
| `PayoutStore.FirstEntriesPayIff` | src/services/distributionEngine.ts:294-297 | first entries pay the planned sum exactly if the skipped ones sum to zero; without negative amounts exactly if every repeat is of zero cents |
| `PayoutStore.SkippedNoneIff` | src/services/distributionEngine.ts:294-297 | nothing is skipped exactly if no investor is listed twice |
| `PayoutStore.CompleteRunsConserveIff` | src/services/distributionEngine.ts:275-358 | all sets of one row for every investor, drawn from the plan, pay the planned sum if and only if repeated entries are identical and the skipped ones sum to zero |
| `BatchLoop.TxAdds` | src/services/distributionEngine.ts:292-314 | a transaction adds rows for new investors of the batch only, one each, and exactly the missing entries in order if no insertion fails |
| `BatchLoop.PlainAdds` | src/services/distributionEngine.ts:315-358 | without a pool every investor of the batch had a row, gets one or is reported failed, and without failures exactly the missing entries are added in order |
| `BatchLoop.TxCleanIff` | src/services/distributionEngine.ts:294-313 | the insertions of a transaction get through exactly if each entry of a new investor is served in one of maxRetries attempts |
| `BatchLoop.PlainCleanIff` | src/services/distributionEngine.ts:317-357 | without a pool no entry fails exactly under the same condition, although the loop goes on after failures |
| `BatchLoop.LoopOk` | src/services/distributionEngine.ts:284-402 | after any number of batches, under any faults: the reported lists account for the rows, each durable row list is legal and extends the one before, transactional batches are atomic, and a clean loop has stored exactly the missing entries |
| `BatchLoop.LoopCleanIff` | src/services/distributionEngine.ts:286-402 | the loop ends without a failure exactly if every store call its batches make is answered: at once for the transaction, within maxRetries attempts for the insertions |
| `DistributionProtocol.FlattenBatches` | src/services/distributionEngine.ts:286-288 | the batches, put together, are the plan: nothing is left out or repeated |
| `DistributionProtocol.StoresLegal` | src/services/distributionEngine.ts:286-402 | every durable state the loop goes through on an open run is legal |
| `DistributionProtocol.WholeTallyOk` | src/services/distributionEngine.ts:275-402 | the loop over the whole plan; a clean one leaves a row for everyone |
| `DistributionProtocol.SettledLegal` | src/services/distributionEngine.ts:275-441 | persisting the batches and recording the status keeps the history legal, touches no other run, and records completed only for a paid run |
| `DistributionProtocol.OpenedLegal` | src/services/distributionEngine.ts:216-264 | there is one run of the key in processing state, exactly if creation is served or reopening answered; otherwise nothing has changed |
| `DistributionProtocol.CalledLegal` | src/services/distributionEngine.ts:126-441 | one call under any faults keeps the history legal and extends it, leaves other runs alone, and only reads a completed run |
| `DistributionProtocol.CalledReports` | src/services/distributionEngine.ts:126-441 | what a call reports is true of the stored rows (without a pool the list of rows and exactly the unpaid investors; with one, atomic batches); a call that fails has changed no rows |
| `DistributionRuns.CalledRows` | src/services/distributionEngine.ts:126-441 | a call on an open key succeeds exactly if its batch loop is reached, and its run then holds what the loop stored |
| `DistributionRuns.CompletesIff` | src/services/distributionEngine.ts:126-441 | the run is completed exactly if every store call the call has to make is answered in time; it then holds the earlier rows followed by the missing entries in order |
| `DistributionRuns.ToleratedIsServed` | src/services/distributionEngine.ts:461-482 | faults that hit retried calls fewer than maxRetries times, and the others not at all, never keep a call from completing |
| `DistributionRuns.NoFaultsAreTolerated` | src/services/distributionEngine.ts:461-482 | no faults are such faults, given one attempt |
| `DistributionRuns.CompletedIsPaid` | src/services/distributionEngine.ts:404-409 | a completed run has a row for everyone and, with distinct investors, pays the revenue |
| `DistributionRuns.FreshRunPaysIff` | src/services/distributionEngine.ts:126-441 | a run that one call creates and completes holds the first entry of each investor, and pays the revenue exactly if the skipped entries sum to zero |
| `DistributionRuns.PooledSuccessWithoutRows` | src/services/distributionEngine.ts:102-108 | with a pool, when no transaction begins, distribute succeeds and has stored nothing |
| `DistributionRuns.SuccessMeansPaidIff` | src/services/distributionEngine.ts:95-115 | for every pattern of faults success of distribute means everyone is paid: if and only if there is no pool, or no attempt is ever made, or everyone was paid before |
| `DistributionRuns.CompletedSuccessIsPaid` | src/services/distributionEngine.ts:95-115 | with a pool as well: success on a run whose stored status is completed means everyone has a row, and with distinct investors the whole revenue is paid |
| `DistributionRuns.SurvivedLegal` | src/services/distributionEngine.ts:143-165 | a call, finished or cut off after any durable write, leaves a legal history that extends the earlier one |
| `DistributionRuns.AnyIncidentsExtendHistory` | src/services/distributionEngine.ts:95-441 | so does any mix of calls, faults and crashes |
| `DistributionRuns.OneGoodCallPays` | src/services/distributionEngine.ts:95-441 | after any such history one call with tolerated faults succeeds and completes the run: everyone has a row, and with distinct investors the rows sum to the revenue |
| `DistributionOutcomes.CandidatesInvestors` | src/services/distributionEngine.ts:286-358 | the entries that can be stored (with a pool the first ones in their batch, without one all) are planned ones, for every investor |
| `DistributionOutcomes.OwnRows` | src/services/distributionEngine.ts:126-441 | a call leaves the rows of its key as they were or makes them what its batch loop comes to |
| `DistributionOutcomes.HistoryWithin` | src/services/distributionEngine.ts:95-441 | after any mix of calls, faults and crashes no other entry is stored |
| `DistributionOutcomes.CompletedHoldsCandidates` | src/services/distributionEngine.ts:95-441 | and a completed run holds exactly one such entry of every investor |
| `DistributionOutcomes.TwoCallsStore` | src/services/distributionEngine.ts:143-165 | a call with faults and one without complete the run: what the first has stored stays, the second adds the first entries of all others |
| `DistributionOutcomes.OnePaidMore` | src/services/distributionEngine.ts:294-297 | taking one investor more for paid saves exactly the amount of the first entry |
| `DistributionOutcomes.LaterEntryWins` | src/services/distributionEngine.ts:315-358 | without a pool every entry of every plan is the stored one after some faults; the sum that is then paid |
| `DistributionOutcomes.LaterBatchWins` | src/services/distributionEngine.ts:292-314 | with a pool a later batch can be stored without the first k entries of an earlier one, which was rolled back after trying them |
| `DistributionOutcomes.OneTriedMore` | src/services/distributionEngine.ts:292-314 | one entry tried more exchanges the amount in the later batch for the first amount in the plan |
| `DistributionOutcomes.AlwaysPaysIff` | src/services/distributionEngine.ts:95-441 | every completed run of every history pays the revenue if and only if no attempt is ever made, or all entries of an investor that can be stored are identical and the skipped ones sum to zero |
| `DistributionOutcomes.OneBatchStoresFirsts` | src/services/distributionEngine.ts:292-314 | when one transaction holds the whole plan, a completed run holds the first entries and nothing else, whatever happened before |
| `DistributionAnswers.ReportedRunIsOwn` | src/services/distributionEngine.ts:138-157 | the run that a successful call reports has the offering, the period and the amount of the call |
| `DistributionAnswers.DifferentCallsApart` | src/services/distributionEngine.ts:138-157 | calls that differ in offering, period or amount never share a run, whatever happens in between, and the later one leaves the earlier one's run and rows alone |
| `DistributionAnswers.GoodCallIsPaid` | src/services/distributionEngine.ts:126-441 | a call with tolerated faults completes the run of its own offering, period and amount; every listed investor has a row, and distinct investors get exactly the plan |
| `DistributionAnswers.EachIsPaid` | src/services/distributionEngine.ts:126-441 | after a good call for one period, a good call for another has its own run, pays its own revenue, and leaves the first one paid as it was |
| `DistributionAnswers.RejectedAtOnce` | src/services/distributionEngine.ts:133-141 | without offering, positive amount or period id and end a call is a bad request; if the lookup raises, the error is passed on; nothing changes |
| `DistributionAnswers.CompletedIsReadOnly` | src/services/distributionEngine.ts:143-157 | a call for a completed run changes nothing and answers exactly its stored rows, or the error of reading them |
| `DistributionAnswers.AnswerIs` | src/services/distributionEngine.ts:166-441 | the answer of every other call in terms of the attempts that raise: 503 after maxRetries balance attempts, 400 without balances, 500 when the run cannot be created or reopened, else the settled run with its exact final status and rows |
| `DistributionAnswers.BatchSizes` | src/services/distributionEngine.ts:286-288 | every batch but the last has batchSize entries, the last one between one and batchSize |
| `DistributionEngine.NextStart` | src/services/distributionEngine.ts:286-288 | the slice at batchStart is the next batch of the plan, and batchSize further on is the one after |
| `DistributionEngine.DistributionEngine.FetchBalances` | src/services/distributionEngine.ts:166-183 | answers exactly if one of maxRetries attempts does |
| `DistributionEngine.DistributionEngine.CreateRunWithRetry` | src/services/distributionEngine.ts:216-246 | exactly one run is created if one of maxRetries attempts gets through, otherwise nothing changes |
| `DistributionEngine.DistributionEngine.CreatePayoutWithRetry` | src/services/distributionEngine.ts:461-482 | exactly one row is written if one of maxRetries attempts gets through, otherwise nothing changes |
| `DistributionEngine.DistributionEngine.InsertMissing` | src/services/distributionEngine.ts:294-313 | inserts the first entry of each investor without a row, in order, and all of them unless an insertion fails |
| `DistributionEngine.DistributionEngine.TransactionalBatch` | src/services/distributionEngine.ts:292-314 | all missing entries of the batch become durable in one step, or no row does; the caller is told so unless the reply to COMMIT is lost |
| `DistributionEngine.DistributionEngine.PlainBatch` | src/services/distributionEngine.ts:315-358 | each insertion becomes durable on its own; without a failure exactly the missing entries in order |
| `DistributionEngine.DistributionEngine.ProcessBatch` | src/services/distributionEngine.ts:286-402 | one turn of the loop takes rows, log and reported lists from one account to the next |
| `DistributionEngine.DistributionEngine.PersistBatches` | src/services/distributionEngine.ts:275-402 | the loop over slices carries out the whole account, over which LoopOk and LoopCleanIff are proved |
| `DistributionEngine.DistributionEngine.OpenOrCreateRun` | src/services/distributionEngine.ts:216-264 | creates the run or puts it back to processing, as OpenedLegal describes |
| `DistributionEngine.DistributionEngine.Settle` | src/services/distributionEngine.ts:275-441 | reads the rows, works through the batches and records the outcome; a failed last update is swallowed |
| `DistributionEngine.DistributionEngine.DistributeWithBatch` | src/services/distributionEngine.ts:126-441 | the statements of the method carry out the call that AnswerIs, EachIsPaid, CalledLegal and CompletesIff are about, in the order of the source |
| `DistributionEngine.DistributionEngine.Distribute` | src/services/distributionEngine.ts:95-115 | reports failed payouts as an error, as in SuccessMeansPaidIff |
| `DistributionEngine.Operate` | src/services/distributionEngine.ts:95-441 | a process that runs calls, dies after any durable write and is started again on what is stored ends where the run theorems say, in legal tables |
| `SessionForest.FamilyIsChain` | src/auth/refresh/refreshService.ts:106-162 | with at most one child a session, a login family is one chain |
| `SessionForest.AtMostOneLive` | src/auth/refresh/refreshService.ts:106-162 | a login family has at most one unconsumed session, and all others are its ancestors |
| `SessionForest.FamilyHasOneUser` | src/auth/refresh/refreshService.ts:140-162 | all sessions of a family belong to one user |
| `SessionForest.DescendantsOfRevoked` | src/db/repositories/sessionRepository.ts:132-147 | below a revoked session everything is revoked |
| `SessionForest.RevokeFamilyKeepsInv` | src/db/repositories/sessionRepository.ts:132-147 | revoking a subtree keeps the forest legal and revokes every descendant |
| `SessionForest.RevokingTwiceIsIdle` | src/db/repositories/sessionRepository.ts:141-144 | revoking a revoked family changes nothing, not even the revocation times |
| `SessionForest.LogoutKeepsInv` | src/db/repositories/sessionRepository.ts:153-155 | deleting a session with its descendants (the cascade of src/db/migrations/011_update_sessions_for_rotation.sql) keeps the forest legal |
| `SessionForest.RotationKeepsInv` | src/auth/refresh/refreshService.ts:140-162 | a rotation consumes a live session and hangs one new leaf below it, in a legal forest |
| `SessionForest.ApplyKeepsInv` | src/auth/refresh/refreshService.ts:81-171 | every login, refresh and logout keeps the forest legal: parents first, one child, children only of consumed sessions, revocation closed downwards |
| `SessionForest.ApplyKeepsConsumedHaveChild` | src/auth/refresh/refreshService.ts:106-162 | until a session is deleted, being consumed and having a child are the same |
| `SessionForest.ChildProbeNeverFires` | src/auth/refresh/refreshService.ts:128-138 | in every legal state the child probe and the consumed check agree, so the probe decides nothing |
| `SessionForest.RefreshSucceedsIff` | src/auth/refresh/refreshService.ts:81-171 | a refresh succeeds exactly for a stored, unconsumed, unrevoked session whose current token is presented |
| `SessionForest.RotationHandsOver` | src/auth/refresh/refreshService.ts:140-171 | after a rotation the new token is good for a refresh and the old one is refused as consumed |
| `SessionForest.RefusalKillsFamily` | src/auth/refresh/refreshService.ts:91-137 | a refused refresh of a stored session, in particular a replay, leaves no refreshable session in its whole family |
| `SessionForest.DeadStaysDead` | src/auth/refresh/refreshService.ts:81-171 | no operation revives a killed family, and no refresh in it succeeds |
| `SessionForest.ReplayIsFinal` | src/auth/refresh/refreshService.ts:81-171 | after a refusal every later refresh in the family is refused, through any run of logins, refreshes and logouts |
| `SessionForest.EmptyDbIsLegal` | src/db/repositories/sessionRepository.ts:30-32 | the empty table is where legal runs start |
| `SessionLife.LoginWrites` | src/db/repositories/sessionRepository.ts:32-50 | a login adds one row with its user, hash and no parent, neither consumed nor revoked, and touches no other |
| `SessionLife.RotationWrites` | src/auth/refresh/refreshService.ts:140-171 | a rotation stamps consumed_at of the old row only, and adds one live row below it for the token that is handed out |
| `SessionLife.RevocationWrites` | src/db/repositories/sessionRepository.ts:132-147 | revoking stamps exactly the unrevoked descendants and writes no other column |
| `SessionLife.RefusalWrites` | src/auth/refresh/refreshService.ts:91-137 | a refused refresh of a stored session revokes its descendants, and of an unknown one writes nothing; each refusal has its own cause |
| `SessionLife.LogoutWrites` | src/db/repositories/sessionRepository.ts:153-155 | a logout deletes the session and its descendants and leaves all other rows as they are |
| `SessionLife.LoggedOutIsUnknown` | src/auth/refresh/refreshService.ts:91-95 | the token of a deleted session is not found |
| `SessionLife.LiveTokenIsGood` | src/auth/refresh/refreshService.ts:106-171 | the current token of a live session rotates it, after any run in which nothing refreshes or deletes it or a session above it |
| `SessionLife.LoginTokenIsGood` | src/auth/refresh/refreshService.ts:106-171 | from any legal table: the token of a login is good for its first refresh at any later time, until a token of that session is presented or the session is deleted |
| `SessionLife.RotatedTokenIsGood` | src/auth/refresh/refreshService.ts:140-171 | so is the token that a rotation hands out |
| `RefreshService.SessionRepository.CreateSession` | src/db/repositories/sessionRepository.ts:32-50 | inserts this one row with the given user, hash and parent, neither consumed nor revoked, or raises and changes nothing |
| `RefreshService.SessionRepository.SetSessionConsumed` | src/db/repositories/sessionRepository.ts:75-78 | stamps this one row, or raises and changes nothing |
| `RefreshService.SessionRepository.FindByParentId` | src/db/repositories/sessionRepository.ts:122-127 | answers whether the session has a child |
| `RefreshService.SessionRepository.DescendantQuery` | src/db/repositories/sessionRepository.ts:134-140 | the recursive query ends, and yields exactly the sessions reachable through parent_id |
| `RefreshService.SessionRepository.RevokeSessionAndDescendants` | src/db/repositories/sessionRepository.ts:132-147 | exactly the unrevoked descendants get a revocation time |
| `RefreshService.RefreshService.Body` | src/auth/refresh/refreshService.ts:81-171 | the statements of the callback carry out the refresh function and answer with its outcome |
| `RefreshService.RefreshService.Refresh` | src/auth/refresh/refreshService.ts:59-180 | a call is the refresh function on the table, or an error that leaves the table as it was |
| `RefreshContention.CommitIsAtomicRefresh` | src/auth/refresh/refreshService.ts:81-171 | at COMMIT the writes buffered by an interleaved caller are the atomic refresh of the table committed at that moment |
| `RefreshContention.ElsewhereKeepsLine` | src/db/repositories/sessionRepository.ts:116-120 | logins and other families' refreshes leave the locked row, its children and its descendants alone |
| `RefreshContention.NextKeepsOk` | src/auth/refresh/refreshService.ts:81-171 | every step (lock, statement, commit, rollback, other traffic) keeps what each caller knows true |
| `RefreshContention.RunIsOk` | src/auth/refresh/refreshService.ts:81-171 | so it holds in every state of every interleaving |
| `RefreshContention.AtMostOneWinner` | src/auth/refresh/refreshService.ts:81-171 | at most one of the concurrent callers commits a child; every later lock holder is refused; once one is refused the session's line is dead |
| `RefreshContention.StepsAreSerializable` | src/auth/refresh/refreshService.ts:81-171 | every committed change in an interleaving is one atomic login or refresh |
| `RefreshContention.AbortKeepsOk` | src/db/transaction.ts:173-200 | a rolled-back caller leaves the table as it was |
| `EventLine.SortBySequenceSorts` | src/middleware/webhookEventOrdering.ts:224-225 | the buffer stays sorted and keeps every event |
| `EventLine.RunIsConsecutive` | src/middleware/webhookEventOrdering.ts:244-255 | the drained run is the longest: consecutive from the expected number, and its successor is missing from the buffer |
| `EventLine.MarkNext` | src/middleware/webhookEventOrdering.ts:176-277 | marking the next event hands out its run, and all events left are beyond a gap |
| `EventLine.PumpRun` | src/middleware/webhookEventOrdering.ts:176-277 | delivering a drained run in turn makes the tracker hand out nothing twice |
| `EventLine.ReceiveNext` | src/middleware/webhookEventOrdering.ts:72-277 | an event in sequence delivers itself and the whole run behind it |
| `EventLine.StepKeepsGapless` | src/middleware/webhookEventOrdering.ts:72-314 | every arrival and sweep keeps: delivered is 0..last, the buffer is sorted, bounded and beyond last+1 |
| `EventLine.DeliveredIsGapless` | src/middleware/webhookEventOrdering.ts:72-314 | for every history (duplicates, losses, stale events, full buffers, cleanups, strict or not) the delivered list is exactly 0, 1, ..., last, if numbers from 2 on have one id each |
| `EventDecisions.DecisionIs` | src/middleware/webhookEventOrdering.ts:72-164 | on every line: buffer exactly if this event is added to those waiting, process exactly for the next number, reject exactly if nothing changes and it is not the next; and when each reason is given |
| `EventDecisions.ArrivalIs` | src/middleware/webhookEventOrdering.ts:72-164 | after every history an arrival delivers something exactly if it is processed |
| `EventDecisions.SweepIs` | src/middleware/webhookEventOrdering.ts:282-314 | a sweep removes exactly the events older than the waiting time, and delivers nothing |
| `EventLiveness.DrainTakesTheRun` | src/middleware/webhookEventOrdering.ts:257-274 | draining removes exactly the sequence numbers it hands out, if numbers that are not neighbours have different ids |
| `EventLiveness.StepLosesNothing` | src/middleware/webhookEventOrdering.ts:110-314 | a step loses nothing if an early arrival finds room and is young, and a sweep finds nothing too old; other arrivals ask for nothing |
| `EventLiveness.ReachesFirstMissing` | src/middleware/webhookEventOrdering.ts:110-314 | with room at every step, delivery gets exactly as far as the first number that has not arrived, and everything beyond is buffered |
| `EventLiveness.StepLosesNothingIff` | src/middleware/webhookEventOrdering.ts:110-314 | a step loses nothing if and only if it has such room, or an early arrival is waiting already, or a sweep leaves a young event of every waiting number |
| `EventLiveness.NothingEverLostIff` | src/middleware/webhookEventOrdering.ts:72-314 | over every history, at every moment each number that has arrived is delivered or waiting, if and only if every step of it is such a step |
| `EventLiveness.RoomIffArrivalsFit` | src/middleware/webhookEventOrdering.ts:199-314 | room at every step is a condition on the arrivals: whenever one comes beyond the first gap it is young and fewer than maxBuffer others wait there, and whenever a sweep comes those that wait are young |
| `EventLiveness.AnyOrderDeliversAll` | src/middleware/webhookEventOrdering.ts:110-314 | events 0..n-1 in any order, repeated at will, over any time, are all delivered in order and the buffer ends empty, if the early ones fit |
| `EventLiveness.InOrderFits` | src/middleware/webhookEventOrdering.ts:110-139 | a stream in order fits, however long, with any buffer size and waiting time, strict or not |
| `EventIds.InOrderDelivers` | src/middleware/webhookEventOrdering.ts:110-120 | a stream in order is delivered as it comes, under any ids |
| `EventIds.EarlyOnesWait` | src/middleware/webhookEventOrdering.ts:199-232 | early events are buffered as they come |
| `EventIds.TwoIdsDeliverTwice` | src/middleware/webhookEventOrdering.ts:257-274 | after 0..n-3, when n-1 and n under two ids, the second one new, arrive before n-2, number n is delivered twice |
| `EventIds.GaplessIff` | src/middleware/webhookEventOrdering.ts:72-314 | for every set of pairs of number and id in which each number has an id: all histories under all configurations deliver exactly 0, 1, ..., last if and only if no number from 2 on has two ids |
| `EventIds.SharedIdLosesEvent` | src/middleware/webhookEventOrdering.ts:257-274 | when m and some n >= m+2 under the same id arrive before m-1, n is taken and then neither delivered nor buffered |
| `EventIds.LosslessIff` | src/middleware/webhookEventOrdering.ts:72-314 | all histories under all configurations deliver or keep whatever they take if and only if numbers from 1 on that are not neighbours have different ids |
| `EventOrdering.EventOrderingTracker.ShouldProcessEvent` | src/middleware/webhookEventOrdering.ts:72-164 | process exactly for the next number, buffer exactly if the buffer has grown, buffer_full exactly for an early event in relaxed mode that finds maxBuffer waiting or is too old; other entities are left alone |
| `EventOrdering.EventOrderingTracker.BufferEvent` | src/middleware/webhookEventOrdering.ts:191-230 | buffers unless full or too old, in order |
| `EventOrdering.EventOrderingTracker.MarkProcessed` | src/middleware/webhookEventOrdering.ts:176-186 | moves this entity on and hands out its run |
| `EventOrdering.EventOrderingTracker.GetProcessableBufferedEvents` | src/middleware/webhookEventOrdering.ts:235-277 | the scanning loop finds the run and removes what shares an id with it |
| `EventOrdering.EventOrderingTracker.CleanupStaleEvents` | src/middleware/webhookEventOrdering.ts:282-314 | exactly the events within the waiting time remain, in every entity's buffer, and the number removed is reported |
| `EventOrdering.EventOrderingTracker.CleanupEntity` | src/middleware/webhookEventOrdering.ts:287-306 | reports the number of removed events of one entity and leaves the others |
| `EventOrdering.OrderedConsumer.Receive` | src/middleware/webhookEventOrdering.ts:72-277 | the driver delivers and marks event by event; entities do not influence one another |
| `EventOrdering.Consume` | src/middleware/webhookEventOrdering.ts:72-314 | the tracker with its maps ends every history of an entity exactly where the specification does |
| `FixedWindowLimiter.RateLimiter.Increment` | src/middleware/rateLimit.ts:46-59 | the map entry of a key is the window its whole request history determines |
| `FixedWindowLimiter.RateLimiter.Handle` | src/middleware/rateLimit.ts:145-162 | a request is let through exactly when it is among the first `limit` of its window; other keys are not affected |
| `FixedWindowLimiter.AdmittedPlace` | src/middleware/rateLimit.ts:46-59 | windows start at least windowMs apart and each admits at most limit, over every history |
| `FixedWindowLimiter.AtMostTwiceTheLimit` | src/middleware/rateLimit.ts:145-162 | over every history a half-open interval of windowMs holds at most 2*limit-1 admitted requests, a closed one at most 2*limit |
| `FixedWindowLimiter.RejectedOnlyWhenFull` | src/middleware/rateLimit.ts:145-162 | a request is rejected only if the window length ending with it already holds limit admitted requests |
| `FixedWindowLimiter.TwiceTheLimitIsReached` | src/middleware/rateLimit.ts:145-162 | two bursts around the end of a window attain the bound |
| `SlidingWindowLimiter.PruneLog` | src/middleware/startupRegisterRateLimit.ts:108-110 | keeps exactly the stamps younger than the window, in order |
| `SlidingWindowLimiter.RegisterLimiter.Decide` | src/middleware/startupRegisterRateLimit.ts:108-145 | decision and new log are those of the request history |
| `SlidingWindowLimiter.RegisterLimiter.Handle` | src/middleware/startupRegisterRateLimit.ts:98-161 | the stored log of every key is the one its history determines; skipping records nothing |
| `SlidingWindowLimiter.PrunedLogSuffices` | src/middleware/startupRegisterRateLimit.ts:108-110 | at any later time the pruned log and the full admitted history contain the same stamps of the window |
| `SlidingWindowLimiter.DecidesAsFullHistory` | src/middleware/startupRegisterRateLimit.ts:108-141 | a request is rejected exactly when the window ending with it already holds maxRequests admitted requests |
| `SlidingWindowLimiter.AtMostMaxInAnyWindow` | src/middleware/startupRegisterRateLimit.ts:98-161 | over every history a half-open interval of windowMs holds at most maxRequests admitted requests |
| `DecimalText.ValueOfDigits` | src/lib/decimal.ts:66-72 | printing a BigInt and reading it back gives the number, without redundant zeros |
| `DecimalText.DigitsAre` | src/lib/decimal.ts:59-60 | the values of the ten digit characters |
| `DecimalText.DigitsOfValue` | src/lib/decimal.ts:59-60 | reading a canonical digit string and printing it gives the string |
| `DecimalText.PadOfValue` | src/lib/decimal.ts:172-175 | padding restores a digit string from its value and length |
| `Decimal.ParseAcceptsPattern` | src/lib/decimal.ts:22-53 | the constructor accepts exactly the strings of the documented pattern |
| `Decimal.RoundTrip` | src/lib/decimal.ts:45-83 | re-parsing toString gives the same value and the same scale for every Decimal |
| `Decimal.PrintsBackIffCanonical` | src/lib/decimal.ts:45-83 | an accepted string prints back as itself exactly when its integer part has no redundant zero |
| `Decimal.PrintedParts` | src/lib/decimal.ts:66-83 | a value prints as its whole part, a point, and the fraction padded to the scale |
| `Decimal.FromScaledIsExact` | src/lib/decimal.ts:158-179 | fromScaledBigInt yields exactly the value and scale for v >= 0, refuses every v < 0 and every scale out of range |
| `Decimal.AddIsExact` | src/lib/decimal.ts:186-192 | the sum is the rational sum, at the larger scale |
| `Decimal.SubtractIsExactOrRefused` | src/lib/decimal.ts:199-205 | succeeds exactly when this >= other, and then is the rational difference |
| `Decimal.MultiplyIsExactOrFloored` | src/lib/decimal.ts:213-224 | exact if the scales add to at most 18, else the floor of the rational product at 18 places |
| `Decimal.DivideIsFloored` | src/lib/decimal.ts:234-246 | refuses zero; otherwise the floor of the rational quotient at 18 places, with a non-negative exponent |
| `Decimal.CompareIsRationalOrder` | src/lib/decimal.ts:253-260 | 0, 1, -1 exactly as the rationals compare, across scales |
| `Decimal.ScaledErrorBound` | src/lib/decimal.ts:103-137 | each rounding mode keeps its error bound around the rational number; widening is exact |
| `Decimal.ScaledIsMonotone` | src/lib/decimal.ts:103-137 | the conversion keeps the rational order across scales, in each mode |
| `Decimal.SorobanOutcome` | src/lib/decimal.ts:94-149 | refused for a target scale out of range, and for a number too large for its mode (from 2^127 units for floor and truncate, half a unit below that for round, above 2^127 - 1 for ceil), and only then; the lower check never fires |
| `Vesting.VestedWithinTotal` | src/vesting.rs:239-253 | vested is nothing before the cliff, stays in [0, total], and is the total exactly from the end time on |
| `Vesting.VestedIsLinear` | src/vesting.rs:245-251 | between cliff and end it is the floor of the exact linear share |
| `Vesting.VestedIsMonotone` | src/vesting.rs:239-253 | vested never shrinks as time passes |
| `Vesting.NeverOverflowsIff` | src/vesting.rs:247-250 | the checked multiplication succeeds at every time if and only if total*(end-cliff-1) fits an i128 |
| `Vesting.SumClaims` | src/vesting.rs:223-237 | the loop yields the sum of the ledger, and panics exactly when a partial sum leaves the i128 range |
| `Vesting.PrefixWithinTotal` | src/vesting.rs:187-203 | every prefix of a ledger sums to at most the total |
| `Vesting.LedgerSumFits` | src/vesting.rs:217-220 | the reconciliation of a legal ledger cannot overflow |
| `Vesting.ClaimedWithinVested` | src/vesting.rs:187-195 | from the last claim on, claimed <= vested(now) <= total |
| `Vesting.VestingContract.CreateVesting` | src/vesting.rs:83-136 | checks in order, stores exactly the given total, start, cliff and end with nothing claimed or changes nothing, and keeps the contract legal |
| `Vesting.VestingContract.Claim` | src/vesting.rs:146-221 | panics only before the writes, and then has no effect; otherwise moves cursor and ledger together |
| `Vesting.VestingContract.Record` | src/vesting.rs:203-220 | the writes survive exactly if ledger and cursor reconcile |
| `Vesting.ApplyKeepsInv` | src/vesting.rs:68-221 | every call keeps each ledger the list of prefix sums, ending at the cursor, each within the curve at its own time |
| `Vesting.CreateOutcome` | src/vesting.rs:91-114 | the exact condition for creating a schedule in a reachable state; the ledger assertion never fires |
| `Vesting.RunsPreserve` | src/vesting.rs:68-221 | no run of calls changes the terms of a schedule or takes back a ledger entry |
| `Vesting.ClaimOutcome` | src/vesting.rs:146-194 | the exact outcome of a claim in a reachable state; the total, cursor and last-entry assertions never fire |
| `Vesting.RunsNeverOverpay` | src/vesting.rs:68-221 | over every run with time moving on, claimed <= vested(now) and <= total, and the ledger shows every prefix sum |
| `Vesting.RemainderPaysTotal` | src/vesting.rs:146-221 | from the end time on, claiming the remainder succeeds and pays out exactly the total; nothing is accepted after |
| `Vesting.SplitClaim` | src/vesting.rs:187-206 | a claim may be split in two at one time: accepted exactly when the whole is, with the same cursor |
| `VestingTerms.InitializeWrites` | src/vesting.rs:68-76 | initialize sets the administrator and nothing else |
| `VestingTerms.AdministratorCanCreate` | src/vesting.rs:83-136 | from then on, in every later state, the administrator can create a schedule for any beneficiary without one |
| `VestingTerms.CreateWrites` | src/vesting.rs:112-136 | an accepted creation stores the total, start, cliff and end it was given, nothing claimed, an empty ledger, and no other change |
| `VestingTerms.CreateRefusal` | src/vesting.rs:91-114 | a refused creation names the first check that fails |
| `VestingTerms.ClaimWrites` | src/vesting.rs:203-220 | an accepted claim moves the cursor by the amount and appends this one entry, for this beneficiary only |
| `VestingTerms.RefusalWritesNothing` | src/vesting.rs:83-221 | a refused creation or claim leaves the contract as it was |
| `VestingTerms.ClaimsStayWithinTerms` | src/vesting.rs:146-253 | over every run after a creation its terms stay, and what is claimed never exceeds the exact linear share of that total between that cliff and that end: nothing before, at most the total after |
| `VestingTerms.ClaimAcceptedIff` | src/vesting.rs:146-253 | in every later state a claim is accepted exactly if it is authorised and positive, not before that cliff, and covered by the linear share (whose numerator fits an i128) or, from that end on, by the rest of that total |
| `VestingTerms.RemainderPaysGivenTotal` | src/vesting.rs:146-253 | from that end on the remainder is accepted and brings the beneficiary to exactly that total |
| `Idempotency.InMemoryIdempotencyStore.CheckAndReserve` | src/middleware/idempotency.ts:44-58 | prunes, then answers cached, in flight or new, and reserves exactly in the last case |
| `Idempotency.InMemoryIdempotencyStore.Save` | src/middleware/idempotency.ts:60-64 | ends the reservation and stores the record with its expiry |
| `Idempotency.InMemoryIdempotencyStore.PruneExpired` | src/middleware/idempotency.ts:70-78 | drops exactly an expired record; a zero expiry never expires |
| `Idempotency.IdempotencyMiddleware.OnArrive` | src/middleware/idempotency.ts:337-416 | carries out the arrival step and keeps the protocol invariant; a replay never goes to a different fingerprint, a conflict never to the same |
| `Idempotency.IdempotencyMiddleware.OnFinish` | src/middleware/idempotency.ts:392-408 | saves or releases as the status says, once |
| `Idempotency.IdempotencyMiddleware.OnClose` | src/middleware/idempotency.ts:410-414 | releases exactly a request that has not finished |
| `Idempotency.StepKeepsInv` | src/middleware/idempotency.ts:44-79 | every event keeps: reservations are exactly the keys of running requests, one each, and no reserved key has a record |
| `Idempotency.AtMostOneRunning` | src/middleware/idempotency.ts:337-416 | in every interleaving at most one request per key is in its handler |
| `Idempotency.HandlerCalledIff` | src/middleware/idempotency.ts:349-377 | the handler is called exactly when the key has no unexpired record and no running request |
| `Idempotency.SaveComesFromRun` | src/middleware/idempotency.ts:377-408 | a saved record is the response of a request whose own arrival called the handler, with the fingerprint that arrived, and a status that may be stored |
| `Idempotency.SavedKeyIsFinal` | src/middleware/idempotency.ts:350-367 | once saved, until its expiry (for ever without ttl) every later request gets exactly that record or the payload conflict, and the handler never runs |
| `Idempotency.RunsAreSeparated` | src/middleware/idempotency.ts:350-414 | two runs of the handler for one key are separated by a save or a release of the first |
| `Idempotency.ReleasedKeyCanRetry` | src/middleware/idempotency.ts:394-414 | after a failed or aborted request the next one for the key runs the handler |
| `IdempotentReplies.RunEnds` | src/middleware/idempotency.ts:392-414 | the request in its handler ends with its response saved under the fingerprint that arrived if the status may be stored, and with the key freed otherwise or when it closes |
| `IdempotentReplies.SavedIsAnswered` | src/middleware/idempotency.ts:350-367 | while a saved response is valid (no ttl, or before save time plus ttl), an arrival with the same fingerprint, or where one is absent or empty, gets it; with a different one it gets the conflict |
| `IdempotentReplies.RetryGetsOwnResponse` | src/middleware/idempotency.ts:337-416 | an identical retry gets the status, body and content type of its own first run |
| `IdempotentReplies.OnlySavedIsReplayed` | src/middleware/idempotency.ts:44-79 | whatever is replayed was saved for this key before and is still valid |
| `IdempotentReplies.OnlySavedConflicts` | src/middleware/idempotency.ts:350-360 | a conflict is always one with such a record |
| `IdempotentReplies.BusyIff` | src/middleware/idempotency.ts:368-376 | the busy answer is given exactly while another request for the key runs |
| `IdempotentReplies.KeylessPasses` | src/middleware/idempotency.ts:337-348 | a request without a key passes and leaves no trace |
| `IdempotentReplies.EndsOnce` | src/middleware/idempotency.ts:392-414 | a closed request is forgotten, and a finished one is not saved or released again |
| `MetricKeys.SanitizeName` | src/lib/metrics.ts:196-198 | same length, only the allowed characters |
| `MetricKeys.SanitizedIsClean` | src/lib/metrics.ts:205-221 | label names become word characters and values lose their quotes, whatever the privacy filter replaces |
| `MetricKeys.ParseMetricKey` | src/lib/metrics.ts:568-592 | the loop over the matched pairs builds the parsed labels |
| `MetricKeys.ScanJoined` | src/lib/metrics.ts:581-588 | the left-to-right matcher finds exactly the pairs that were joined |
| `MetricKeys.BraceInText` | src/lib/metrics.ts:263-274 | a closing brace reaches the key exactly through a label value |
| `MetricKeys.ParseInvertsKeyIff` | src/lib/metrics.ts:568-592 | parsing inverts the key, for any label order, if and only if there are no labels, or name and label names are non-empty and no value holds a closing brace |
| `MetricKeys.ParseInvertsMetricKey` | src/lib/metrics.ts:263-274 | the sanitized name and labels of a recording come back from its key |
| `MetricKeys.JoinIsInjective` | src/lib/metrics.ts:263-274 | joined label texts determine the pairs, also where a name is empty |
| `MetricKeys.KeysIdentifySeries` | src/lib/metrics.ts:263-274 | different series never share a key, even where parsing fails: empty label names and closing braces included |
| `MetricText.NameKeeps` | src/lib/metrics.ts:196-198 | in a metric name each allowed character stays where it is and each other one becomes an underscore |
| `MetricText.LabelNameKeeps` | src/lib/metrics.ts:210 | likewise in a label name, where the colon is not allowed |
| `MetricText.StripsOneByOne` | src/lib/metrics.ts:211 | a value loses exactly its control characters, quotes and backslashes and keeps the others in order |
| `MetricText.LastLabelWins` | src/lib/metrics.ts:205-221 | a label has the filtered value of the last given label with the same sanitized name |
| `MetricText.NoOtherLabels` | src/lib/metrics.ts:205-221 | there are no labels but the given ones |
| `MetricText.CleanLabelStays` | src/lib/metrics.ts:205-221 | a label that needs no sanitizing keeps name and value |
| `MetricText.KeyLooks` | src/lib/metrics.ts:263-274 | the text of keys with no, one and two labels |
| `Metrics.MetricsCollector.CheckCardinality` | src/lib/metrics.ts:281-290 | refuses exactly a new key at the limit, and counts exactly an accepted new key |
| `Metrics.MetricsCollector.IncrementCounter` | src/lib/metrics.ts:299-314 | records under the computed key or drops the call as a whole |
| `Metrics.MetricsCollector.SetGauge` | src/lib/metrics.ts:323-337 | records under the computed key or drops the call as a whole |
| `Metrics.MetricsCollector.RecordHistogram` | src/lib/metrics.ts:346-368 | records under the computed key or drops the call as a whole |
| `Metrics.ReplayFollows` | src/lib/metrics.ts:281-290 | the stored keys are exactly the first distinct keys recorded, up to the limit |
| `Metrics.MetricsCollector.Reset` | src/lib/metrics.ts:597-604 | empties the registry and its count |
| `Metrics.RunSinceReset` | src/lib/metrics.ts:597-604 | a run with resets holds what the recordings since the last reset come to |
| `Metrics.CardinalityIsExact` | src/lib/metrics.ts:281-290 | in every run of recordings and resets the count equals the size of the union of the three key sets and never exceeds the limit |
| `Metrics.DisabledIsIdle` | src/lib/metrics.ts:299-300 | a disabled collector records nothing in any run |
| `Metrics.AdmittedIsComplete` | src/lib/metrics.ts:299-368 | for each admitted key the registry holds the total of all its increments, its last gauge setting and its newest maxPoints observations |
| `Metrics.DroppedLeavesNothing` | src/lib/metrics.ts:281-287 | a key beyond the limit leaves no trace, however often it is recorded |
| `SessionStore.SessionStore.Create` | src/lib/sessionStore.ts:118-134 | stores and returns a session that lives one ttl |
| `SessionStore.SessionStore.Get` | src/lib/sessionStore.ts:143-153 | answers as specified and evicts an expired session |
| `SessionStore.SessionStore.Touch` | src/lib/sessionStore.ts:161-172 | renews a live session from the second clock reading, evicts an expired one |
| `SessionStore.SessionStore.Delete` | src/lib/sessionStore.ts:180-182 | removes the session if it is there |
| `SessionStore.SessionStore.Stop` | src/lib/sessionStore.ts:101-107 | clears the store |
| `SessionStore.SessionStore.Stats` | src/lib/sessionStore.ts:188-201 | the loop counts exactly the live sessions |
| `SessionStore.SessionStore.Sweep` | src/lib/sessionStore.ts:210-219 | the loop leaves exactly the sessions that were live at their own clock reading, and reports how many it evicted |
| `SessionStore.StepRefinesIdeal` | src/lib/sessionStore.ts:143-172 | every call answers as a store in which sessions vanish at expiresAt |
| `SessionStore.RunRefinesIdeal` | src/lib/sessionStore.ts:143-219 | so does every run with time moving on |
| `SessionStore.SweepsAreInvisible` | src/lib/sessionStore.ts:210-219 | adding or removing sweeps anywhere in a run changes no answer |
| `SessionStore.CreatedIsAccountedFor` | src/lib/sessionStore.ts:131-132 | totalCreated equals stored plus expiredCleaned plus deleted on request, in every run with fresh tokens |
| `SessionStore.StoredAsCreated` | src/lib/sessionStore.ts:118-134 | a stored session keeps the user, role and creation time it was created with |
| `SessionStore.ExpiryFollowsUse` | src/lib/sessionStore.ts:168-170 | a stored session expires exactly one ttl after it was last seen |
| `SessionExpiry.FoundIff` | src/lib/sessionStore.ts:118-172 | a session is found, and can be touched, exactly until one ttl after its last use, whatever is read or swept in between |
| `SessionExpiry.TouchExtends` | src/lib/sessionStore.ts:161-172 | a touch answered with success extends the session to one ttl after its stamp |
| `SessionExpiry.DeletedIsGone` | src/lib/sessionStore.ts:180-182 | a deleted session, and after a stop any session, is not found again |
| `SessionExpiry.ExpiredIsEvicted` | src/lib/sessionStore.ts:143-172 | a read or touch that finds a session expired removes and counts it |
| `Sequences.SortIsStable` | src/vaults/hardenedMilestoneValidation.ts:150-152 | the sort is by creation time, keeps every milestone, and keeps the listing order of equal times |
| `Milestones.SortMarked` | src/vaults/hardenedMilestoneValidation.ts:150-152 | validating a milestone does not change the order |
| `Milestones.MilestoneHandler.CheckRules` | src/vaults/hardenedMilestoneValidation.ts:135-208 | the checks in their order, with the error of the first that fails |
| `Milestones.MilestoneHandler.Execute` | src/vaults/hardenedMilestoneValidation.ts:213-309 | event first, then status; a fault keeps what was written before it |
| `Milestones.MilestoneHandler.Handle` | src/vaults/hardenedMilestoneValidation.ts:346-415 | one request is one step of its vault and leaves all other vaults alone |
| `Milestones.OrderIs` | src/vaults/hardenedMilestoneValidation.ts:149-152 | the order is oldest first by creation time, ties as listed, every milestone once |
| `Milestones.AcceptedIff` | src/vaults/hardenedMilestoneValidation.ts:121-208 | exactly the next milestone is accepted, from an assigned verifier, in an active vault; an unknown one is not found |
| `Milestones.AcceptedIsEarliestPending` | src/vaults/hardenedMilestoneValidation.ts:149-174 | what is accepted is pending, and no pending milestone is older |
| `Milestones.InactiveAcceptsNothing` | src/vaults/hardenedMilestoneValidation.ts:121-127 | a vault that is not active answers every request of every run with that error and never changes |
| `Milestones.StepWrites` | src/vaults/hardenedMilestoneValidation.ts:213-309 | a refused request writes nothing; an accepted one its event and then the status of its one milestone, up to the fault; success is answered without a fault only |
| `Milestones.OnlyNextIsAccepted` | src/vaults/hardenedMilestoneValidation.ts:135-174 | with the first k validated exactly the next milestone is accepted; earlier ones conflict, later ones are refused with its name, and the no-pending branch is never taken |
| `Milestones.StepKeepsPrefix` | src/vaults/hardenedMilestoneValidation.ts:135-245 | every request, with a fault anywhere, keeps the validated milestones a prefix of creation order |
| `Milestones.WritesFollowOrder` | src/vaults/hardenedMilestoneValidation.ts:135-245 | over every run the status writes go through the milestones in creation order, one each |
| `Milestones.AtMostOneSuccessEach` | src/vaults/hardenedMilestoneValidation.ts:135-245 | n milestones answer at most n requests with success, whatever is requested |
| `Milestones.AllInOrderSucceed` | src/vaults/hardenedMilestoneValidation.ts:135-245 | and n successes are reached by requests in creation order |
| `Milestones.StepKeepsLogged` | src/vaults/hardenedMilestoneValidation.ts:230-245 | a validated milestone always has its validation event |
| `Milestones.OnlyValidatedLoggedIff` | src/vaults/hardenedMilestoneValidation.ts:231-245 | the converse, only validated milestones have an event, is kept by a request if and only if it is not an accepted one that faults between the writes |
| `Milestones.LogIsWritesIff` | src/vaults/hardenedMilestoneValidation.ts:231-245 | over every run the events are exactly the status writes, in order, if and only if no accepted request faults between the writes |
| `Milestones.FaultLeavesOrphanEvent` | src/vaults/hardenedMilestoneValidation.ts:231-245 | such a fault leaves an event for a pending milestone, which can be retried |

## Left out

- The list of successful payouts that a call with a pool returns after a rolled-back batch: it still names
  rows the rollback removed. Payout properties speak of stored rows and status.
- Overlapping distribution calls on one key, and balances that change between a call and its resumption.
- PayoutStore.DistributionRepository.Rollback: does not raise; after a failing ROLLBACK the source returns
  a connection to the pool whose transaction may still be open.
- Retry delays. Inside a transaction a retry may succeed after a failed statement, which PostgreSQL would
  refuse; the model thus allows more outcomes than there are.
- The handler around a whole batch without a pool: every insertion error is caught inside, so it has no work to do.
- Floating point in shares, revenues and metric values: cents are integers, metric values are reals.
- READ COMMITTED races in which an ancestor of the contended session is revoked or deleted while a
  descendant is being rotated; other families' traffic is included.
- Session expiry in the sessions table: refresh does not look at expires_at. Whether a token verifies is a
  parameter of the call. Bulk deletion by user and the legacy session shells.
- Nested transactions, savepoints, isolation levels and post-commit callbacks of the transaction helper.
- The `processed` flag of buffered events, which is never set, the middleware around the tracker, which never
  marks an event processed, and its statistics. Sequence numbers are integers.
- Resetting and clearing the limiters' stores; key derivation from requests; two policies sharing one store key.
- Initialising the vesting contract again with another administrator is an unguarded call in the source and in the
  model; published contract events and the u32 length of a ledger are not modelled.
- The PostgreSQL idempotency store, work a handler goes on with after its connection closed, and the
  re-serialisation of a replayed JSON body. A request id that is still open does not arrive again.
- The method list, the header name and the trimming of the idempotency key: an empty key stands for a
  request the middleware passes through.
- The privacy patterns of the metrics collector are an abstract function that keeps a value or puts a
  placeholder; a label named `__proto__`, help texts, snapshots, bucket counts and the Prometheus text.
- Sessions of the in-memory store are values: a caller that keeps a session object does not see it change when
  it is touched.
- Milestone repositories list a vault's milestones in a fixed order with distinct ids; requests do not
  overlap. Rate limits, roles and audit records of the milestone route.
- Express routing, logging, mail, Stellar and Horizon clients, cryptography, offering synchronisation,
  reconciliation and the mock services.
