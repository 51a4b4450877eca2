# Verified model of the resident voting service

The service of a residential building collects reports and initiatives in chat, asks residents through polls and
acts on the answers. This project models the two protocols that carry its guarantees, and three small algorithms
beside them, and proves what they promise.

**The voting protocol.** A poll is a state machine over votes, one deadline and one cancellation (`Policy.dfy`,
`Polls.dfy`, `PollRuns.dfy`, `PollAnswers.dfy`); how far the order of its votes matters is stated exactly
(`PollInterleaving.dfy`, `PollOrders.dfy`). It is stored as rows that are rebuilt on every load (`PollTables.dfy`,
`PollRepository.dfy`), is fed by the button presses of an at-least-once inbox (`PollCallbacks.dfy`) and closes either
by the vote that meets its quota or at a deadline that first waits for the inbox (`DrainSafety.dfy`,
`DrainSteps.dfy`), through a job that may give up (`ExpiryRuns.dfy`, `ExpirySteps.dfy`). A problem case takes the
poll's one terminal event (`ProblemCases.dfy`, `ProblemRuns.dfy`). An initiative stacks revisions, each with a poll of
its own, and is decided once (`Initiatives.dfy`, `InitiativeRuns.dfy`, `InitiativeWitness.dfy`,
`InitiativeRepository.dfy`); residents who stay silent are reminded in batches (`Reminders.dfy`,
`ReminderRepository.dfy`).

**The lease queues.** Inbox, jobs, outbox and documents share one protocol of claim, heartbeat and settlement with
leases that run out, retries and dead letters (`Leases.dfy`). The queues and their workers are shown to follow it
(`InboxStore.dfy`, `JobQueue.dfy`, `DeliveryQueue.dfy`, `Documents.dfy`, `Workers.dfy`); the outbox also folds waiting
edits of one message into the newest and loses its texts to retention (`Outbox.dfy`, `Retention.dfy`), and it is
stated when a message can be handed to the messenger twice (`DeliveryRuns.dfy`). The transactions of the queue are
moves of both (`OutboxSteps.dfy`, `DeliverySteps.dfy`).

**Small algorithms.** Greedy chunking of a source (`Chunks.dfy`), lossless splitting of a long message (`MaxText.dfy`)
and the limiters of outgoing calls (`RateLimiter.dfy`, `DialogLimiter.dfy`).

## How the model is built

- Values of the source (frozen dataclasses) are datatypes with functions; repositories, queues and workers are classes
  over one `Session` (`Database.dfy`) whose fields are the tables. One SQL transaction with its row locks is one method;
  a transaction that fails leaves every table as it was.
- Each such method is tied to a function of the old state, and what that function comes to is stated once more in terms
  of rows and residents, without the function. Runs of many transactions by many actors are sequences of moves over
  those functions, and the main results are about all of them.
- Instants are integers, identifiers are natural numbers ordered like the bytes of a UUID, and a ratio is an exact
  `real`. Identifiers that the source draws at random are parameters required to be fresh; clocks, reachability of
  residents and rows locked by other transactions are parameters too.
- Keys that the source formats from identifiers are kept structured, so that they are equal exactly when their parts
  are. Name-based identifiers derived from an initiative's key are taken to be injective.

## What the code does differently from what one might expect

Each of these is proved, with the exact condition where there is one.

- A vote that only repeats the current choice is not remembered, so its redelivery after a change of mind counts.
- In a problem poll the order in which residents' votes arrive can decide whether it closes early; it is stated when
  some order closes it and when every order does.
- An extra NO can improve a resolution check or an initiative, by completing the participation quota.
- A receipt is stamped before it is stored (`src/dom_domych/entrypoints/api.py:95-103`), so a press can still appear
  after the close; the inbox of a closed poll stays drained exactly when none is stored that late, and every poll has a
  run in which such a press loses its vote.
- The job that closes a poll is buried when the inbox does not drain within its attempts, and then the poll is never
  closed by its deadline. An open poll can still be closed exactly while its job is not settled or a worker that claimed
  it has yet to try; one unhandled press is enough to lose it.
- The event id of a counted vote is unique over all polls, so the store would refuse an event that counted in another
  one; the handler of button presses never meets this, because the token of a press leads to one poll.
- Attempts of inbox rows, jobs and deliveries stay within their maximum exactly as long as no worker takes over an
  abandoned row whose attempts are used up; crashes push them past every bound. Documents are bounded.
- An edit that is retried can wait beside a newer one, and then reach its message last: at most one edit of a message
  waits exactly as long as no lease holder puts an edit back while another waits.
- Retention overwrites the text a repeated delivery key is compared with, so repeating a key for its own content is
  refused exactly when its delivery was redacted, and every delivery has a run to this.
- A call waits for its dialog after it has passed the global limiter, so messages are not globally spaced: nobody waits
  exactly when the calls to each dialog pass no faster than the dialog allows; otherwise two can be sent at once.
- A worker that crashes or loses its lease between sending and settling leaves a delivery that is sent again; a message
  can be handed over again exactly while its delivery is unsettled or a worker that claimed it has yet to try.
- Attaching a message to the case of an initiative raises the case version alone; from then on the initiative can
  neither be revised nor decided.
- Creating an initiative again under its key replays only for a caller who knows the present version of the case.
- The search for an empty line in a long message never decides where it is cut.

## Model

| member | source | states |
|---|---|---|
| `PollPolicies.RequiredIsExact` | src/dom_domych/domain/polls/policy.py:37-38 | reaching the rounded-up count is reaching the exact share of the frozen audience |
| `PollPolicies.RequiredInRange` | src/dom_domych/domain/polls/policy.py:37-38 | a non-empty audience always needs between one and all of its answers, so no evaluation divides by zero |
| `PollPolicies.ProblemReadyIff` | src/dom_domych/domain/polls/policy.py:151-160 | a problem is ready exactly when the YES reach their share of the whole audience, silent residents included |
| `PollPolicies.InitiativeSupportedIff` | src/dom_domych/domain/polls/policy.py:178-192 | an initiative is supported exactly when enough of the audience answered and enough of the answers are YES |
| `PollPolicies.ResolutionDecidedIff` | src/dom_domych/domain/polls/policy.py:195-211 | a resolution check is reopened exactly when more of the answers than tolerated are NO, and otherwise closed exactly when enough answered and enough of the answers are YES |
| `PollPolicies.ProblemMonotone` | src/dom_domych/domain/polls/policy.py:151-160 | more YES, or NO turned into YES, never worsens a problem poll |
| `PollPolicies.InitiativeMonotone` | src/dom_domych/domain/polls/policy.py:178-192 | the same for the final outcome of an initiative, over every valid tally and policy |
| `PollPolicies.ResolutionMonotone` | src/dom_domych/domain/polls/policy.py:195-211 | the same for REOPENED < UNCONFIRMED < CLOSED |
| `PollPolicies.ExtraNoCanClose` | src/dom_domych/domain/polls/policy.py:195-211 | a concrete resolution check that an extra NO moves from UNCONFIRMED to CLOSED |
| `PollPolicies.ExtraNoImprovesResolution` | src/dom_domych/domain/polls/policy.py:195-211 | an extra NO improves a resolution check if and only if it completes the participation quota and both shares still hold |
| `PollPolicies.ExtraNoImprovesInitiative` | src/dom_domych/domain/polls/policy.py:178-192 | the same exact condition for an initiative |
| `Polls.Tally` | src/dom_domych/domain/polls/models.py:136-142 | the tally of a valid state is valid: nobody is counted twice and nobody outside the audience |
| `Polls.WithAnswerReplaces` | src/dom_domych/domain/polls/models.py:168-188 | a counted vote replaces exactly the voter's answer and keeps the answers strictly ordered by resident |
| `Polls.OrderedIsCanonical` | src/dom_domych/domain/polls/models.py:175-182 | an ordered list of answers is determined by what it answers for each resident |
| `PollAnswers.TallyCountsResidents` | src/dom_domych/domain/polls/models.py:136-142 | the tally counts the audience, the residents of it who say YES and those who say NO |
| `PollAnswers.VoteIsAnswered` | src/dom_domych/domain/polls/models.py:144-206 | the exact condition of every reply to a vote; a recorded or changed vote leaves its voter with that choice and nobody else with another |
| `PollAnswers.CancelledIsDead` | src/dom_domych/domain/polls/models.py:227-233 | a cancelled poll takes no vote and no deadline any more |
| `PollAnswers.DeadlineDecides` | src/dom_domych/domain/polls/models.py:208-225 | the deadline closes an open poll with the outcome its residents' answers call for, keeps every answer and announces itself once |
| `PollAnswers.ClosedFits` | src/dom_domych/domain/polls/models.py:189-225 | every closed poll a run can reach has the outcome its residents' answers call for |
| `PollRuns.VoteCountsIff` | src/dom_domych/domain/polls/models.py:144-167 | a delivered vote changes the state if and only if the poll is open, the event new, the resident eligible, the receipt in the window and the choice a change |
| `PollRuns.VoteSettles` | src/dom_domych/domain/polls/models.py:189-206 | a problem poll that a vote closes has YES exactly at its quota; while it is open YES stays below |
| `PollRuns.StepKeepsInv` | src/dom_domych/domain/polls/models.py:144-233 | every transition keeps the whole invariant of a poll |
| `PollRuns.NumberedAndAlternating` | src/dom_domych/domain/polls/models.py:168-174 | entries of one resident have rising numbers, and neighbours in number disagree |
| `PollRuns.ReachablePoll` | src/dom_domych/domain/polls/models.py:112-233 | on every reachable poll answers are the projection of the history, revisions count entries, event ids are distinct and equal the processed set, and the version counts votes and the deadline or cancellation |
| `PollRuns.ReachableProblemPoll` | src/dom_domych/domain/polls/models.py:189-206 | on every reachable problem poll YES never exceeds the quota, meets it exactly when the threshold was announced, and the deadline gives only NEED_EVIDENCE |
| `PollRuns.TerminalIsFrozen` | src/dom_domych/domain/polls/models.py:208-233 | a closed or cancelled poll is changed by no later command and announces nothing more |
| `PollRuns.AnnouncedOnce` | src/dom_domych/domain/polls/models.py:189-233 | a whole run announces exactly the one event its final state stands for |
| `PollInterleaving.InterleavingsAgree` | src/dom_domych/domain/polls/models.py:144-225 | two orders of ballots with the same order per resident agree on answers, processed ids, version and deadline outcome as long as both leave the poll open; histories are permutations |
| `PollInterleaving.InterleavingsAgreeWithoutThreshold` | src/dom_domych/domain/polls/models.py:144-225 | for initiative and resolution polls this needs no condition |
| `PollInterleaving.RedeliveryIsSilent` | src/dom_domych/domain/polls/models.py:153-155 | redelivering applied events anywhere and any number of times changes nothing |
| `PollInterleaving.UnappliedRedeliveryCounts` | src/dom_domych/domain/polls/models.py:166-167 | a vote that only repeated a choice is not remembered: its redelivery after a change of mind counts |
| `PollInterleaving.ProblemOrderMatters` | src/dom_domych/domain/polls/models.py:189-206 | in a problem poll the order between residents can decide whether the poll closes early |
| `PollInterleaving.EarlyCloseIff` | src/dom_domych/domain/polls/models.py:189-206 | some order of the same ballots closes a problem poll early if and only if the residents who could say YES reach the quota |
| `PollOrders.EveryOrderClosesIff` | src/dom_domych/domain/polls/models.py:189-206 | every order of the same ballots closes a problem poll early if and only if the residents who say YES in the end reach the quota, or one YES is missing, somebody gives it and no supporter takes a YES back; otherwise some order leaves it open |
| `PollOrders.OpenEndsWithFinally` | src/dom_domych/domain/polls/models.py:189-206 | a problem poll that is still open after its ballots has fewer final supporters than its quota |
| `PollTables.VoteLoads` | src/dom_domych/infrastructure/postgres/polls.py:134-176 | after storing a counted vote the rows load to the state of the pure transition, and every other poll loads as before |
| `PollTables.AnswersLoad` | src/dom_domych/infrastructure/postgres/polls.py:292-312 | the upserted answer rows, ordered by resident, are the answers of the pure transition |
| `PollTables.RowLoads` | src/dom_domych/infrastructure/postgres/polls.py:384-389 | a transition that touches no answer is stored by rewriting the poll row alone |
| `PollTables.RevisionIsFree` | migrations/versions/9d20b8a6c743_z04_polls.py:81-86 | no counted vote can collide on (poll, resident, revision) |
| `PollTables.ProcessedIsTaken` | src/dom_domych/infrastructure/postgres/polls.py:134-176 | the processed events of a loaded poll are exactly the events in its history rows |
| `PollTables.RevokedSays` | src/dom_domych/infrastructure/postgres/poll_actions.py:63-67 | exactly the buttons of the poll in its house are revoked, and nothing else of any button changes |
| `PollTables.PollEventSays` | src/dom_domych/infrastructure/postgres/polls.py:391-412 | the event of a poll: one key per poll and name, its house, case and version, waiting to be handled |
| `PollStore.CountedIsStored` | src/dom_domych/infrastructure/postgres/polls.py:287-324 | storing a counted vote keeps every poll valid, changes only this one and violates no uniqueness of its own |
| `PollStore.PollRepository.RecordAnswerAtomic` | src/dom_domych/infrastructure/postgres/polls.py:278-327 | the rows then load to the pure transition; the only refusal left is an event that another poll has counted; the threshold event is saved exactly when emitted |
| `PollStore.PollRepository.FinalizeAtomic` | src/dom_domych/infrastructure/postgres/polls.py:329-350 | an open poll is refused exactly while a press of its house or of none, received before the deadline, is unsettled; it is closed only at its deadline, with the outcome its residents' answers call for, and announced once |
| `PollStore.PollRepository.CancelAtomic` | src/dom_domych/infrastructure/postgres/polls.py:352-372 | cancels to the pure state and withdraws buttons, invitations and reminders exactly when the poll was open |
| `PollStore.PollRepository.OpenOnce` | src/dom_domych/infrastructure/postgres/polls.py:178-276 | a new poll loads to the given state beside the untouched others; a repeated key returns the poll it opened; conflicts and mismatches are refused without a trace |
| `PollStore.AudienceMatchesIff` | src/dom_domych/infrastructure/postgres/polls.py:187-202 | a poll is opened only for the members of its house's snapshot, each notified exactly once |
| `PollStore.ConflictsIff` | src/dom_domych/infrastructure/postgres/polls.py:203-233 | a new poll conflicts exactly on its id, on a used key of its house, or on a second poll for one subject |
| `PollStore.OpenedBeforeIff` | src/dom_domych/infrastructure/postgres/polls.py:233-251 | a repeated key returns its poll exactly for the same case, audience, kind, rule, revision and members |
| `PollCallbacks.PollCallbackHandler.Handle` | src/dom_domych/application/polls/callback.py:77-128 | the exact condition of every refusal of a press, which changes nothing; any other press casts the very choice of its button for the very resident who pressed it, and never fails on an event that counted elsewhere |
| `PollCallbacks.TakenInOwnPoll` | src/dom_domych/application/polls/callback.py:77-128 | an event that counted anywhere counted in the poll its token leads to |
| `PollCallbacks.OthersKeepTraced` | src/dom_domych/infrastructure/postgres/poll_actions.py:24-63 | storing presses, issuing and revoking actions keep every counted event with the poll of its token |
| `DrainSafety.DeadlineWaitsForPresses` | src/dom_domych/infrastructure/postgres/polls.py:329-350 | in every run, once the deadline has closed the poll, every press that could vote on it, received in time and stored before the close, is settled, and a done one was answered while the poll was open |
| `DrainSafety.VotesAreAwaited` | src/dom_domych/infrastructure/postgres/polls.py:333-345 | what the deadline waits for is exactly what the handler would count as a vote and what was received in time |
| `DrainSafety.ClosedForEver` | src/dom_domych/infrastructure/postgres/inbox_worker.py:22-103 | after the close no claim, late handler, lost lease or settlement changes the poll or a press it waited for |
| `DrainSafety.StaysDrainedIff` | src/dom_domych/infrastructure/postgres/inbox.py:13-39 | the inbox of a closed poll stays drained if and only if no receipt stamped before the deadline is stored after the close |
| `DrainSafety.PunctualReceiptsAreSafe` | src/dom_domych/infrastructure/postgres/inbox.py:13-39 | stamping a receipt at its insert is enough for that |
| `DrainSafety.BackdatedVoteIsLost` | src/dom_domych/domain/polls/models.py:162-163 | the vote of a press stored that late is answered as closed although it was received in time |
| `DrainSafety.LateReceiptLosesItsVote` | src/dom_domych/entrypoints/api.py:95-103 | every poll has a run to this: closed at its deadline on an empty inbox, it turns away a press stamped just before the deadline whose vote would have counted |
| `DrainSteps.ReceiveUpdate` | src/dom_domych/infrastructure/postgres/inbox.py:13-39 | storing an update is a receipt of the drain model, and the database shows the world after it |
| `DrainSteps.ClaimPress` | src/dom_domych/infrastructure/postgres/inbox_worker.py:22-48 | a successful claim is a claim of the drain model by a free worker; any other leaves the world as it was |
| `DrainSteps.RenewPress` | src/dom_domych/infrastructure/postgres/inbox_worker.py:50-65 | the heartbeat is the same step of the drain model, under a held lease or not |
| `DrainSteps.HandlePress` | src/dom_domych/infrastructure/postgres/polls.py:278-327 | a handled press is the handling of the drain model, unless its event already counted in another poll: then it is refused and nothing moves |
| `DrainSteps.FinishPress` | src/dom_domych/infrastructure/postgres/inbox_worker.py:67-80 | finishing a handled press is the same step of the drain model, under a held lease or not |
| `DrainSteps.FailPress` | src/dom_domych/infrastructure/postgres/inbox_worker.py:82-103 | failing a press is the same step of the drain model, under a held lease or not |
| `DrainSteps.ClosePoll` | src/dom_domych/infrastructure/postgres/polls.py:329-350 | the transaction of the deadline is the close of the drain model, and a refused one changes nothing |
| `DrainSteps.OthersPublish` | src/dom_domych/infrastructure/postgres/inbox.py:42-64 | whatever another transaction does, if it keeps this poll and saves one waiting event that is no press, it is a publication of the drain model |
| `DrainSteps.CloseOther` | src/dom_domych/infrastructure/postgres/polls.py:329-350 | the deadline of another poll is such a publication, or nothing |
| `ExpiryRuns.ClosableIff` | src/dom_domych/application/jobs/scheduler.py:68-112 | after any run of the expiry job, the inbox and all their workers, an open poll can still be closed by its deadline if and only if its job is not settled or a worker that claimed it has yet to try |
| `ExpiryRuns.DeadlineMissed` | src/dom_domych/application/resolution/production.py:135-149 | every poll, with any number of attempts, has a run in which one unhandled press buries the job, and after which nothing closes the poll by its deadline |
| `ExpirySteps.ClaimJob` | src/dom_domych/infrastructure/postgres/jobs.py:95-125 | a claim that meets the job is a step of these runs, by a worker that was free |
| `ExpirySteps.ReadPoll` | src/dom_domych/infrastructure/postgres/polls.py:415-426 | the scheduler goes on exactly when the poll is still open at the revision its job was made for, as in these runs |
| `ExpirySteps.RenewJob` | src/dom_domych/infrastructure/postgres/jobs.py:159-174 | a heartbeat is the same step, under a held lease or not |
| `ExpirySteps.TryToClose` | src/dom_domych/infrastructure/postgres/polls.py:329-350 | the transaction of the deadline is the try of these runs, and fails exactly when they say it is refused |
| `ExpirySteps.SettleJob` | src/dom_domych/application/jobs/scheduler.py:78-112 | what the scheduler does with the end of its run is the settlement of these runs |
| `LeaseProtocol.EveryRunIsFenced` | src/dom_domych/infrastructure/postgres/jobs.py:95-174 | in every run of any number of workers, whoever passes the lease guard has the latest claim of the row; attempts count claims; a waiting row has attempts left; owner and lease are set exactly while processing |
| `LeaseProtocol.HolderIsLatest` | src/dom_domych/infrastructure/postgres/inbox_worker.py:50-103 | a worker that still holds the lease has the row's latest claim and knows its attempts |
| `LeaseProtocol.SettledForEver` | src/dom_domych/infrastructure/postgres/jobs.py:127-157 | a settled row is never touched again |
| `LeaseProtocol.CappedSelections` | src/dom_domych/application/documents/worker.py:62-89 | a document is selected at most max_attempts + 1 times even if every worker crashes, and its attempts never exceed the maximum |
| `LeaseProtocol.WithinUnlessOverdrawn` | src/dom_domych/infrastructure/postgres/jobs.py:95-125 | attempts stay within their maximum throughout a run if and only if no free worker of an uncapped queue takes over an abandoned row whose attempts are used up |
| `LeaseProtocol.CrashesExceedAnyBound` | src/dom_domych/infrastructure/postgres/jobs.py:95-125 | runs from the empty queue in which this happens: crashes push attempts past any bound |
| `Leases.First` | src/dom_domych/infrastructure/postgres/inbox_worker.py:36-38 | ORDER BY time, id LIMIT 1 has an answer, and it precedes every other candidate |
| `Leases.HeldUntilExpiry` | src/dom_domych/infrastructure/postgres/inbox_worker.py:22-103 | a row in work belongs to its owner alone until its lease runs out; then, or when it has waited long enough, anyone may claim it |
| `Leases.ClaimGives` | src/dom_domych/infrastructure/postgres/jobs.py:95-125 | a claim counts one attempt more and gives the row to its worker alone for exactly as long as asked |
| `Leases.RenewalGives` | src/dom_domych/infrastructure/postgres/jobs.py:159-174 | a heartbeat keeps owner and attempts and counts the lease from now |
| `Leases.ReleaseGives` | src/dom_domych/infrastructure/postgres/jobs.py:127-157 | a settled row belongs to nobody, and waits again only until the moment it was given |
| `Workers.InboxWorker.Conclude` | src/dom_domych/application/jobs/inbox_worker.py:62-93 | finishing and failing an event are settlements the protocol allows, with retry or burial by attempts |
| `Workers.JobScheduler.Conclude` | src/dom_domych/application/jobs/scheduler.py:68-112 | a job of another version is skipped for good, a failed one, or one whose version cannot be read, retried until its attempts run out; each is a settlement the protocol allows |
| `Workers.DeliveryWorker.Conclude` | src/dom_domych/application/notifications/worker.py:195-227 | a delivery is settled or retried with back-off until its attempts run out; only a sent one gets a message id, only the others an error, the attachment token stays; each is a settlement the protocol allows |
| `Workers.InboxWorker.Next` | src/dom_domych/infrastructure/postgres/inbox_worker.py:22-48 | claiming an inbox event is a claim of the protocol |
| `Workers.JobScheduler.Next` | src/dom_domych/infrastructure/postgres/jobs.py:95-125 | claiming a job is a claim of the protocol |
| `Workers.DeliveryWorker.Next` | src/dom_domych/infrastructure/postgres/delivery.py:145-183 | claiming a delivery is a claim of the protocol |
| `Workers.InboxWorker.Heartbeat` | src/dom_domych/application/jobs/inbox_worker.py:95-110 | prolonging a held event is the heartbeat of the protocol, and succeeds exactly for the holder |
| `Workers.JobScheduler.Heartbeat` | src/dom_domych/application/jobs/scheduler.py:114-127 | prolonging a held job is the heartbeat of the protocol, and succeeds exactly for the holder |
| `Workers.DeliveryWorker.Heartbeat` | src/dom_domych/application/notifications/worker.py:66-79 | prolonging a held delivery is the heartbeat of the protocol, and succeeds exactly for the holder |
| `Workers.DeliveryWorker.KeepToken` | src/dom_domych/application/notifications/worker.py:181-193 | a token is kept exactly by the holder, and touches no lease |
| `Workers.RetryDelayGrows` | src/dom_domych/application/notifications/worker.py:195-200 | the waiting time doubles from five seconds and stays at a minute from the fifth attempt |
| `Workers.JobEndsSo` | src/dom_domych/application/jobs/scheduler.py:68-112 | a job is skipped exactly when its entity has another version or none, done exactly when the version fits and the run succeeds, and otherwise retried or buried by its attempts |
| `Workers.VerdictsAre` | src/dom_domych/application/notifications/worker.py:81-179 | the exact condition of every verdict of a delivery attempt |
| `Workers.AttemptEndsSo` | src/dom_domych/application/notifications/worker.py:195-200 | a retry waits while attempts are left and is buried with the last |
| `Workers.RetriesOnlyRefused` | src/dom_domych/application/notifications/worker.py:81-179 | an attempt is repeated if and only if the message was refused for a passing reason or not handed over; one that may have been accepted ends the delivery |
| `DeliveryRuns.NeverHandedOverAgain` | src/dom_domych/application/notifications/worker.py:48-179 | in every run of several workers in which nobody takes the delivery over from a crashed or late worker, a message that may have arrived is never handed to the messenger again and its delivery never waits again |
| `DeliveryRuns.RepeatableIff` | src/dom_domych/application/notifications/worker.py:48-179 | after any run at all, a message that was handed over can be handed over again if and only if its delivery is not settled or a worker that claimed it has its attempt still to make |
| `DeliveryRuns.CrashSendsTwice` | src/dom_domych/infrastructure/postgres/delivery.py:145-164 | a crash between sending and settling sends every message twice that can be sent at all |
| `DeliverySteps.EnqueueNew` | src/dom_domych/infrastructure/postgres/delivery.py:50-125 | enqueueing a new delivery that edits nothing is a move of these runs; a refused or repeated one moves nothing |
| `DeliverySteps.ClaimNext` | src/dom_domych/infrastructure/postgres/delivery.py:145-183 | a claim is the move by a worker that was free, which may then make one attempt |
| `DeliverySteps.ConcludeAttempt` | src/dom_domych/application/notifications/worker.py:195-227 | settling what an attempt came to is the move, and leaves the worker free |
| `InboxRows.SavedOnce` | src/dom_domych/infrastructure/postgres/inbox.py:42-64 | a source key stays taken: saving it again under any id changes nothing |
| `InboxRows.SavedSays` | src/dom_domych/infrastructure/postgres/inbox.py:42-64 | saving stores the row under a key nobody used, and touches no other row |
| `InboxRows.DomainRowSays` | src/dom_domych/infrastructure/postgres/inbox.py:42-64 | a domain event waits at once to be handled, and no deadline waits for it |
| `InboxRows.NotDrained` | src/dom_domych/infrastructure/postgres/polls.py:333-345 | what keeps a deadline waiting: an unsettled press, received in time, of this house or of none |
| `InboxQueue.InboxStore.SaveInboxEvent` | src/dom_domych/infrastructure/postgres/inbox.py:13-39 | an update is stored once per key, waiting if it could be normalised and ignored otherwise |
| `InboxQueue.InboxStore.Claim` | src/dom_domych/infrastructure/postgres/inbox_worker.py:22-48 | leases, among the rows that are due and that nobody has locked, the one received first, and nothing exactly when there is none |
| `InboxQueue.InboxStore.Heartbeat` | src/dom_domych/infrastructure/postgres/inbox_worker.py:50-65 | prolongs only a lease that is held |
| `InboxQueue.InboxStore.Finish` | src/dom_domych/infrastructure/postgres/inbox_worker.py:67-80 | settles only a row whose lease is held |
| `InboxQueue.InboxStore.Fail` | src/dom_domych/infrastructure/postgres/inbox_worker.py:82-103 | returns the row or buries it, by its attempts, only under a held lease |
| `JobQueue.PostgresJobQueue.Enqueue` | src/dom_domych/infrastructure/postgres/jobs.py:41-93 | one job per operation key, which never comes to mean another job |
| `JobQueue.NewJobSays` | src/dom_domych/infrastructure/postgres/jobs.py:41-93 | a new job waits until it is due, never tried, for the entity and version it was scheduled for |
| `JobQueue.PostgresJobQueue.Claim` | src/dom_domych/infrastructure/postgres/jobs.py:95-125 | leases, among the jobs that are due and not locked, the one that was due first, and nothing exactly when there is none |
| `JobQueue.PostgresJobQueue.Settle` | src/dom_domych/infrastructure/postgres/jobs.py:127-157 | writes the result only under a held lease |
| `JobQueue.PostgresJobQueue.Heartbeat` | src/dom_domych/infrastructure/postgres/jobs.py:159-174 | prolongs only a lease that is held |
| `DeliveryQueue.PostgresDeliveryQueue.Enqueue` | src/dom_domych/infrastructure/postgres/delivery.py:50-143 | a new key inserts one waiting row after the waiting edits of the message gave way; a known key returns its row or is refused for another content |
| `OutboxRows.AcceptableIff` | src/dom_domych/infrastructure/postgres/delivery.py:50-58 | what a delivery must look like: keyed, with something to say, to one addressee, with proper buttons |
| `DeliveryQueue.RefusalIff` | src/dom_domych/infrastructure/postgres/delivery.py:50-73 | the exact condition of every refusal before the key is looked at |
| `OutboxRows.NewDeliverySays` | src/dom_domych/infrastructure/postgres/delivery.py:94-112 | a new delivery waits from now on, never tried, with its content as given |
| `OutboxRows.CoalescedSays` | src/dom_domych/infrastructure/postgres/delivery.py:85-93 | exactly the waiting edits of the message give way; sent and claimed ones stay as they are |
| `OutboxRows.WithdrawnSays` | src/dom_domych/infrastructure/postgres/polls.py:358-371 | a cancelled poll asks nobody any more: exactly its waiting invitations and reminders are dead |
| `OutboxRows.RedactedSays` | src/dom_domych/infrastructure/postgres/retention.py:35-43 | retention takes exactly the text of deliveries that are over since before the boundary |
| `DeliveryQueue.PostgresDeliveryQueue.Claim` | src/dom_domych/infrastructure/postgres/delivery.py:145-183 | leases, among the deliveries that are due and not locked, the one available first, and nothing exactly when there is none |
| `DeliveryQueue.PostgresDeliveryQueue.SaveAttachmentToken` | src/dom_domych/infrastructure/postgres/delivery.py:185-202 | keeps a token only under a held lease |
| `DeliveryQueue.PostgresDeliveryQueue.Heartbeat` | src/dom_domych/infrastructure/postgres/delivery.py:204-219 | prolongs only a lease that is held |
| `DeliveryQueue.PostgresDeliveryQueue.Settle` | src/dom_domych/infrastructure/postgres/delivery.py:250-282 | writes the result only under a held lease |
| `OutboxSteps.EnqueueDelivery` | src/dom_domych/infrastructure/postgres/delivery.py:50-125 | enqueueing a new acceptable key is the move of the outbox runs; anything else moves nothing |
| `OutboxSteps.ClaimDelivery` | src/dom_domych/infrastructure/postgres/delivery.py:145-183 | claiming a delivery is the move of the outbox runs |
| `OutboxSteps.SettleDelivery` | src/dom_domych/infrastructure/postgres/delivery.py:250-282 | settling a delivery is the move of the outbox runs, under a held lease or not |
| `OutboxSteps.RetryDelivery` | src/dom_domych/infrastructure/postgres/delivery.py:250-282 | putting a delivery back is the move of the outbox runs, under a held lease or not |
| `OutboxRuns.CoalescingKeepsNewest` | src/dom_domych/infrastructure/postgres/delivery.py:50-125 | after any run a message has at most one waiting edit that was never claimed, it is the newest, and the newest was never coalesced away |
| `OutboxRuns.SettledForEver` | src/dom_domych/infrastructure/postgres/delivery.py:145-183 | a superseded or settled delivery is never claimed again, and nothing of it but its text ever changes |
| `OutboxRuns.KeyDenotesOneContent` | src/dom_domych/infrastructure/postgres/delivery.py:126-143 | an operation key never comes to denote another delivery, nor another content up to its redacted text |
| `OutboxRuns.ContentKept` | src/dom_domych/infrastructure/postgres/retention.py:35-43 | over any run a delivery keeps its content, except that retention replaces the text once |
| `OutboxRuns.RepeatRefusedIffRedacted` | src/dom_domych/infrastructure/postgres/delivery.py:126-143 | repeating the key of a delivery for its own content is refused if and only if the delivery was redacted |
| `OutboxRuns.SentThenRedacted` | src/dom_domych/infrastructure/postgres/retention.py:35-43 | every delivery with a text of its own has a run to this: sent, redacted, its repeat refused |
| `OutboxRuns.SingleWhileNoneReturns` | src/dom_domych/infrastructure/postgres/delivery.py:96-125 | at most one edit of a message waits throughout a run if and only if no lease holder puts an edit back while another edit of the same message waits |
| `OutboxRuns.OlderCanBeSentLast` | src/dom_domych/infrastructure/postgres/delivery.py:145-183 | once two edits of a message wait, the older content can be sent after the newer one |
| `OutboxRuns.RetriedEditWaitsBesideNewer` | src/dom_domych/infrastructure/postgres/delivery.py:250-282 | a run from the empty outbox that comes to two waiting edits, for any two edits of a message |
| `Retention.RetentionMaintenance.RedactExpired` | src/dom_domych/infrastructure/postgres/retention.py:35-44 | overwrites the text of exactly the deliveries that are over since before the boundary, counts them, and leaves keys unique |
| `Documents.DocumentWorker.Take` | src/dom_domych/application/documents/worker.py:62-89 | takes the oldest waiting or abandoned document, or gives it up with its error when its attempts are used up, step for step as the capped protocol; nothing else changes |
| `Documents.DocumentWorker.Renew` | src/dom_domych/application/documents/worker.py:133-136 | prolongs only a lease that is held, as a heartbeat of the capped protocol |
| `Documents.DocumentWorker.Finish` | src/dom_domych/application/documents/worker.py:138-189 | publishes file, delivery and event together under a held lease for the same snapshot, as a settlement of the capped protocol, or changes nothing; each error has its exact condition |
| `Documents.ReadyNoticeSays` | src/dom_domych/application/documents/worker.py:160-189 | the file goes to the resident who asked for it, alone and in private, once per document |
| `Documents.ReadyRowSays` | src/dom_domych/application/documents/worker.py:138-189 | a published document is over, with its file, its moment and no error |
| `Documents.ReadyEventSays` | src/dom_domych/application/documents/worker.py:160-189 | and is announced once, for its house and case, at the revision it was made from |
| `Documents.DocumentWorker.Fail` | src/dom_domych/application/documents/worker.py:191-200 | returns or gives up the document by its attempts, as a settlement of the capped protocol; a lost lease leaves it alone |
| `ProblemCases.ProblemEventHandler.HandlePollResult` | src/dom_domych/application/cases/production.py:121-210 | a poll result makes a collecting case ready or short of evidence by the outcome of its poll, one version on, logs it under the event's id and asks exactly the residents whose answer is YES; everything else is ignored or refused without a trace |
| `ProblemCases.ReactionsAre` | src/dom_domych/application/cases/production.py:129-161 | the exact condition under which a result is news, old, or one of the three errors |
| `ProblemCases.AdvancedIsLogged` | src/dom_domych/application/cases/production.py:156-185 | a departure is logged once, with the change, both versions and the event that did it |
| `ProblemCases.RequestIsPrivate` | src/dom_domych/application/cases/production.py:187-206 | a request goes to its resident alone, in private, under a key of its own |
| `ProblemCases.PollOfSays` | src/dom_domych/application/cases/production.py:121-132 | an event speaks about a poll only if a store sent it for a case of the very house of the poll |
| `ProblemCases.ProblemEventHandler.AskForEvidence` | src/dom_domych/application/cases/production.py:187-206 | adds exactly one request per resident, or reports the key clash that refuses one |
| `ProblemCases.YesResidentsAreSupporters` | src/dom_domych/application/cases/production.py:187-189 | the residents picked from the answers are exactly those whose current choice is YES |
| `ProblemRuns.CaseLeavesCollectingOnce` | src/dom_domych/application/cases/production.py:121-210 | in any house, whatever happens to its other cases, under arbitrary redelivery, votes, deadlines and operations the case departs once, as ready exactly when a vote met the quota, and otherwise exactly the YES residents are asked; no delivery fails |
| `ProblemRuns.VerdictSetsStatus` | src/dom_domych/application/cases/production.py:156-161 | in any run, taking the result makes the case ready exactly when the residents who say YES reach the quota and short of evidence otherwise; no other case is touched |
| `ProblemRuns.FirstDeliverySays` | src/dom_domych/application/cases/production.py:156-206 | the whole row, log entry and set of residents asked after the first delivery |
| `ProblemRuns.VerdictIsFinal` | src/dom_domych/application/cases/production.py:150-161 | once taken, nothing that follows changes the verdict, the log entry or who was asked; later deliveries only repeat |
| `ProblemRuns.HandleDelivery` | src/dom_domych/application/cases/production.py:121-210 | on a database that shows such a run the handler never fails, and the database then shows the run after one more delivery |
| `InitiativeRows.CutOfConsecutive` | src/dom_domych/infrastructure/postgres/initiatives.py:294-336 | cutting a log 1..n at m loads its first m revisions in order |
| `InitiativeRows.CutIsStable` | src/dom_domych/infrastructure/postgres/initiatives.py:311-321 | later revisions never show in an earlier cut |
| `InitiativeRuns.OneLivePoll` | src/dom_domych/infrastructure/postgres/initiatives.py:100-194 | after any run revisions are exactly 1..n with a poll each, every earlier poll is closed or cancelled, and an open poll of an initiative is the current revision's |
| `InitiativeRuns.FinishedPollsAreFrozen` | src/dom_domych/infrastructure/postgres/initiatives.py:143-145 | polls of earlier revisions stay exactly as they were |
| `InitiativeRuns.RevisionReplays` | src/dom_domych/infrastructure/postgres/initiatives.py:125-134 | after any further moves a repeated key returns exactly the state of the first call for the same wording and audience, and is refused otherwise |
| `InitiativeRuns.CreationReplaysIff` | src/dom_domych/infrastructure/postgres/initiatives.py:67-79 | a repeated creation replays if and only if its caller knows the present version of the case |
| `InitiativeWitness.RevisedCreationIsRefused` | src/dom_domych/infrastructure/postgres/initiatives.py:67-79 | a run from a fresh house in which the creation, repeated by its author after a revision, is refused |
| `InitiativeRuns.ResultIsKept` | src/dom_domych/infrastructure/postgres/initiatives.py:273-292 | the result of a used key is the same in every later state |
| `InitiativeRuns.Recorded` | src/dom_domych/infrastructure/postgres/initiatives.py:258-292 | writing the next revision under a key makes both the key and the log answer with exactly that state |
| `InitiativeRuns.RevisionNeverCollides` | src/dom_domych/infrastructure/postgres/initiatives.py:149-193 | no key or uniqueness constraint can refuse a revision that passed its checks |
| `InitiativeRuns.RevisionProceedsIff` | src/dom_domych/infrastructure/postgres/initiatives.py:135-142 | with an unused key the loaded state can be revised if and only if the case collects and its version has not run ahead |
| `InitiativeRows.CreationAllowedIff` | src/dom_domych/infrastructure/postgres/initiatives.py:57-98 | a new key creates an initiative exactly for the author of a case that has none and is known at its version |
| `InitiativeRows.RevisionAllowedIff` | src/dom_domych/infrastructure/postgres/initiatives.py:100-142 | a new key revises exactly for the author, while the case collects, from the stored version and log to the next version |
| `InitiativeRows.RepeatedIff` | src/dom_domych/infrastructure/postgres/initiatives.py:67-77 | a used key is answered with what it produced exactly for a caller who asks for its case, wording, audience and revision again, by creation and by revision alike |
| `InitiativeRows.ReviseAppends` | src/dom_domych/domain/initiatives/models.py:57-68 | a log grows by the revision after the one its writer has seen, and by no other |
| `InitiativeRows.FollowsIff` | src/dom_domych/domain/initiatives/models.py:37-68 | one state follows another exactly when it is of the same initiative and has one revision more at its end |
| `InitiativeRows.KeysAre` | src/dom_domych/infrastructure/postgres/initiatives.py:258-261 | keys of initiatives have 1 to 220 characters |
| `InitiativeRows.CreatedSays` | src/dom_domych/infrastructure/postgres/initiatives.py:80-98 | a creation stores its poll, its first revision and its key, and touches no case |
| `InitiativeRows.RevisedSays` | src/dom_domych/infrastructure/postgres/initiatives.py:143-193 | a revision cancels the old poll, opens the new one, gives the case the new wording and version without touching its status, logs that and stores row, revision and key |
| `InitiativeRuns.LaggingInitiativeIsStuck` | src/dom_domych/infrastructure/postgres/case_writer.py:216-277 | once another operation has raised the case version alone, the initiative is never revised and never decided again |
| `InitiativeRuns.OperationMakesLag` | src/dom_domych/infrastructure/postgres/case_writer.py:216-277 | any other operation on the case of an initiative makes it lag |
| `InitiativeWitness.AttachedMessageMakesLag` | src/dom_domych/infrastructure/postgres/case_writer.py:216-277 | a run from a fresh house that creates an initiative and makes it lag |
| `InitiativeRuns.DecisionIsLast` | src/dom_domych/infrastructure/postgres/initiative_followup.py:187-309 | a saved decision is what the residents' final answers on the current revision call for; it is the only one of its initiative, no revision follows it and nothing changes it |
| `InitiativeRuns.DecisionSetsStatus` | src/dom_domych/infrastructure/postgres/initiative_followup.py:259-266 | deciding makes the case ready for a request exactly when the residents support the initiative, and not supported otherwise; no other case changes |
| `InitiativeRows.PositionSays` | src/dom_domych/application/initiatives/followup.py:130-172 | a decision is drawn exactly from a closed poll of the current revision, with the outcome of that poll |
| `InitiativeRows.DecisionAllowedIff` | src/dom_domych/infrastructure/postgres/initiative_followup.py:187-246 | a first decision is saved exactly when poll, initiative and case all stand as it says |
| `InitiativeRows.DecisionRepeatedIff` | src/dom_domych/infrastructure/postgres/initiative_followup.py:200-231 | a decision that is there is returned for the same outcome, and any other use of its poll or key is refused |
| `InitiativeRuns.DecisionProceedsIff` | src/dom_domych/infrastructure/postgres/initiative_followup.py:204-246 | with an unused key the position on the current closed poll is saved if and only if the case collects and does not lag |
| `InitiativeStore.InitiativeRepository.CreateAndOpen` | src/dom_domych/infrastructure/postgres/initiatives.py:57-98 | a creation is exactly one move of the model, a replay, or a refusal that leaves no trace |
| `InitiativeStore.InitiativeRepository.ReviseAndReplacePoll` | src/dom_domych/infrastructure/postgres/initiatives.py:100-194 | a revision cancels the old poll, opens the new one, moves log, case and initiative on and announces it, all or nothing |
| `InitiativeStore.InitiativeRepository.ReplacePoll` | src/dom_domych/infrastructure/postgres/initiatives.py:143-148 | one poll is cancelled and the next opened, or everything stays |
| `InitiativeStore.InitiativeRepository.SaveDecisionOnce` | src/dom_domych/infrastructure/postgres/initiative_followup.py:187-309 | a decision is saved once, its case made ready or not supported by its outcome, together with one notice to the house chat if there is one; the same decision again returns the stored one and tells nobody; anything else is refused without a trace |
| `InitiativeStore.NoticeSays` | src/dom_domych/infrastructure/postgres/initiative_followup.py:284-307 | the notice goes to the house chat as a new message, once per poll, and tells the two outcomes apart |
| `InitiativeStore.PollKeySays` | src/dom_domych/infrastructure/postgres/initiatives.py:91-93 | every key of an initiative gives its poll a key of its own, which open_once accepts |
| `InitiativeStore.RevisedEventSays` | src/dom_domych/infrastructure/postgres/initiatives.py:176-191 | a revision is announced once, for the case at the version it gives it |
| `InitiativeStore.InitiativeRepository.FinalizePosition` | src/dom_domych/application/initiatives/followup.py:130-172 | the position on a closed poll is saved with its notice as the decision of the model, and as exactly one move of the model when the caller read its state from the log |
| `ReminderRows.TargetsAre` | src/dom_domych/infrastructure/postgres/initiative_followup.py:128-150 | exactly the reachable silent candidates of the audience who are due are reminded, each once |
| `ReminderRows.DueIff` | src/dom_domych/infrastructure/postgres/initiative_followup.py:133-147 | whoever was reminded less often than allowed and not lately is due |
| `ReminderRows.BatchRemindsExactly` | src/dom_domych/infrastructure/postgres/initiative_followup.py:107-185 | a new batch of a poll that takes reminders reminds exactly the residents who are to be reminded, each once, with the next number, now; on any other poll it does nothing |
| `ReminderRows.RemindersArePaced` | src/dom_domych/infrastructure/postgres/initiative_followup.py:133-173 | over all batches a resident's reminders are numbered 1, 2, ... up to the limit, and any two are at least the interval apart |
| `ReminderRows.BatchesSpareTheAnswered` | src/dom_domych/infrastructure/postgres/initiative_followup.py:97-115 | no reminder goes to a resident who had answered or inside the stop window, and a batch key acts once |
| `ReminderRows.KeyActsOnce` | src/dom_domych/infrastructure/postgres/initiative_followup.py:97-106 | a batch key that acted changes nothing when it comes again, after whatever other batches |
| `ReminderStore.FollowupRepository.EnqueueReminders` | src/dom_domych/infrastructure/postgres/initiative_followup.py:75-185 | queues, logs and records exactly the due targets under the batch key, replays a known key, or leaves no trace |
| `ReminderStore.BatchAllowedIff` | src/dom_domych/infrastructure/postgres/initiative_followup.py:85-128 | a new key is taken exactly for an open poll of the house at the version seen, before its last stretch; a known one returns its targets for the same poll |
| `ReminderStore.NoticeSays` | src/dom_domych/infrastructure/postgres/initiative_followup.py:148-161 | a reminder goes to its resident alone, in private, once per number, and quotes the wording |
| `ReminderStore.CurrentRevisionSays` | src/dom_domych/infrastructure/postgres/initiative_followup.py:115-128 | the wording comes from the current revision of an initiative of the house whose poll this is |
| `ReminderStore.FollowupRepository.QueueDue` | src/dom_domych/infrastructure/postgres/initiative_followup.py:133-173 | the loop reminds exactly the residents due before the batch, in order |
| `KnowledgeChunks.SplitChunks` | src/dom_domych/application/knowledge/service.py:44-64 | the chunks are a division of the words within the limit, splitting them again gives the same words, and no division has fewer groups; the three errors |
| `KnowledgeChunks.TightIsOptimal` | src/dom_domych/application/knowledge/service.py:52-63 | no division of the words within the limit has fewer groups than a tight one |
| `KnowledgeChunks.WordsOfJoined` | src/dom_domych/application/knowledge/service.py:48-58 | splitting words joined by single spaces gives them back |
| `MaxText.SplitMaxText` | src/dom_domych/application/notifications/text.py:11-29 | the parts are the unique parts of the text: they concatenate to it, are not empty and within the limit |
| `MaxText.PartsAreLossless` | src/dom_domych/application/notifications/text.py:16-29 | every part but the last is longer than half the limit, which bounds how many there are |
| `MaxText.PartsAreUnique` | src/dom_domych/application/notifications/text.py:18-25 | cutting after the last break in the far half of the limit, or else at the limit, determines the parts |
| `MaxText.EmptyLineIsRedundant` | src/dom_domych/application/notifications/text.py:20 | the search for an empty line never decides a boundary |
| `RateLimits.GrantsAreSpaced` | src/dom_domych/infrastructure/max/rate_limit.py:29-36 | with sleeps that last as asked the j-th grant comes at least j - i intervals after the i-th |
| `RateLimits.WindowIsBounded` | src/dom_domych/infrastructure/max/rate_limit.py:29-36 | a closed window of length T holds at most floor(T / interval) + 1 grants |
| `RateLimits.SpacedIffPunctual` | src/dom_domych/infrastructure/max/rate_limit.py:33-35 | two grants in a row keep their distance if and only if the second's sleep lasts or is not needed |
| `RateLimits.GrantsAreEarliest` | src/dom_domych/infrastructure/max/rate_limit.py:29-36 | with exact sleeps no schedule that keeps the interval lets any call through earlier |
| `RateLimits.GrantsAreSchedule` | src/dom_domych/infrastructure/max/rate_limit.py:29-36 | with exact sleeps the grants are such a schedule themselves |
| `RateLimits.IntervalLimiter.Acquire` | src/dom_domych/infrastructure/max/rate_limit.py:29-36 | the delay asked for, the moment granted and the next permitted moment |
| `DialogLimits.CallsAreSpaced` | src/dom_domych/infrastructure/max/rate_limit.py:53-61 | two calls to one dialog are sent the dialog's interval apart, and any two calls pass the global limiter its interval apart |
| `DialogLimits.NobodyWaitsIff` | src/dom_domych/infrastructure/max/rate_limit.py:53-61 | no call waits for its dialog, and so messages keep the global interval, if and only if the calls to one dialog pass the global limiter no faster than the dialog allows |
| `DialogLimits.TwoAtOnce` | src/dom_domych/infrastructure/max/rate_limit.py:53-61 | otherwise a call held back by its dialog can be sent at the same moment as a later one |
| `DialogLimits.WindowHolds` | src/dom_domych/infrastructure/max/rate_limit.py:53-61 | a closed window of length T holds at most floor(T / dialog interval) + 1 messages per dialog and floor(T / interval) + 1 without one |
| `DialogLimits.MaxRateLimits.Acquire` | src/dom_domych/infrastructure/max/rate_limit.py:53-61 | the call passes the global limiter and then its dialog's own, made on the first call; no other limiter moves |

## Left out

- Messenger, language model and media clients, web entry points, process loops, SQL text, search: plumbing or outside
  services; of the migrations only keys and uniqueness constraints are modelled.
- Heartbeat tasks: a heartbeat is one more step its lease holder may take at any time.
- PDF rendering, file storage and the canonical bytes of document snapshots: the worker keeps the row lifecycle.
- Decimal contexts of 28 digits: ratios and quotients are exact.
- Wording of cards, buttons and messages, policy revision names and the demo flag: texts are fixed or parameters.
- Problem detection, audience selection, enrolment, requests and resolution stores, agent runs: they open or follow the
  polls modelled here and would add easier members; a poll is opened for any audience its checks accept.
- The personal answer, the public card and the notification that follow a counted press, and the card that follows a
  close; a failure there is a failed attempt.
- ProblemCases.ProblemEventHandler.HandlePollResult: does not refresh the public card of the case.
- Retention.RetentionMaintenance.RedactExpired: does not clear the payload of old inbox rows, because the model keeps
  only the columns the queue and the drain read.
- Purging of expired files.
- Planning of reminders before the transaction: the transaction checks the same conditions again.
- Blank stripping of wordings: a wording is taken as already stripped.
- PollStore.PollRepository.OpenOnce: does not schedule the expiry job nor queue the invitations of the new poll.
- InitiativeStore.InitiativeRepository.CreateAndOpen: does not schedule the reminder jobs of the new poll.
- InitiativeStore.InitiativeRepository.ReviseAndReplacePoll: does not schedule the reminder jobs of the new poll.
- InitiativeStore.InitiativeRepository.SaveDecisionOnce: does not compare the poll with the current revision's, because
  the store does not, and does not store the name of the policy revision; FinalizePosition compares them.
- ReminderStore.FollowupRepository.EnqueueReminders: the reminder row does not keep the id of its delivery.
- RateLimits.IntervalLimiter.Acquire: the clock readings before and after the sleep are parameters; what they must
  satisfy is stated by the lemmas.
