# Verified model of the freelance marketplace core

A Dafny model of the money machine of the marketplace (double-entry ledger, milestone escrow, refunds, payouts,
disputes, idempotency keys, provider webhooks, and the proposal, contract and project state machines around them), and
of five smaller cores: message numbering and receipts, the search index as a cache under concurrent drainers, NDCG, the
money field printer and parser, and the test target minimiser.

`dafny verify dfyconfig.toml` checks everything.

## How it is organised

The database is one value (`Records.State`): append-only tables whose row number is the row's identifier. One committed
transaction is one step (`System.Step`); provider answers are parameters of the step that receives them, so a run covers
every interleaving of retries, crashes and provider behaviours, and a crash is the absence of the later step. Each
service decides on a `Write` and a reply; `Transactions.Commit` says what a write makes of every table.

| files | content |
|---|---|
| `Basics`, `Ledger`, `Records`, `Transactions` | tables, journals, and what each write does |
| `Idempotency`, `Payments`, `Payouts`, `Milestones`, `Disputes`, `Marketplace`, `System` | the services, one function for each transaction, and runs |
| `Rows`, `Journaled`, `Flows`, `Solvency`, `Accounts`, `Transfers`, `Settlement`, `EscrowStatus`, `Explained`, `Answers`, `Contracts`, `Invariant` | the invariant of every run, part by part |
| `Shifting`, `Funding`, `Releasing`, `Resolving`, `Refunding`, `PayingOut`, `Workflow` | each operation exactly: when it does its work, what it changes, and what it answers |
| `MoneyTheorems`, `SettlementTheorems`, `Replay`, `Webhooks`, `Refusals`, `Lives`, `Standstill` | the main results |
| `Witness` | runs that show where a promise fails |
| `Application` | `class Platform`: the services in place, step by step, proved against the functions |
| `Messaging`, `SearchIndex`, `Ndcg`, `MoneyText`, `Targets` | the smaller cores |

Each service function promises a lawful write (`System.Decide`); the lemmas that end in `Iff` say exactly when which write
happens, give the whole database afterwards, and for money the change of every account (`Shifting.Shifts`).

`System.Reached(s)` says that some run leads to the database `s`; every result about money is stated for all reached
databases or all runs.

## Promises that fail, and exactly when

- Escrow agreeing with status: a payment can be captured while a refund of the same milestone is pending. The agreement
  of one milestone survives a step if and only if the step is not such a late capture for it
  (`MoneyTheorems.AgreementStep`, `MoneyTheorems.EscrowAgreesIff`). `Witness.LateCaptureDoublesEscrow` is a run after
  which a FUNDED milestone holds twice its contracted amount.
- A cancelled contract's escrows being empty for good: true if and only if what was captured has been refunded in full
  and none of those refunds is pending (`Lives.EmptyForeverIff`). `Witness.LateCaptureIsStranded` is a run that leaves
  the late capture in the escrow of a cancelled contract.
- Replaying an answered request: fund, release and refund look at the contract before they look at the key, so a repeat
  gets the stored answer if and only if the contract is still active (`Replay.RetrySeesFirstAnswer`).
  `Witness.RepeatIsRefused` is a run in which the repeat is refused.
- Releasing an approved, fully funded milestone: refused by the ledger if and only if the commission is 10000 basis
  points, because the freelancer's posting would be zero; a dispute over the same milestone still settles
  (`Refusals.RejectedIff`, `SettlementTheorems.ResolutionAcceptable`).
- NDCG staying at 1 or below: holds for every relevance table if and only if the first k places of the ranking repeat no
  item (`Ndcg.BoundedIff`).
- Funding a milestone whose other checks pass: a payment is opened if and only if the amount is positive
  (`Standstill.OpensIff`), although the proposal checks accept an amount of zero. A milestone of amount zero stays CREATED
  and the project of its contract is never closed, after every run (`Standstill.NeverCloses`). Any fair terms with such a
  milestone can be signed by both parties (`Witness.ZeroIsAccepted`).
- Settling a pending refund that the provider confirms in full: it settles if and only if its milestone is still FUNDED, and
  is an internal error otherwise (`Standstill.ConfirmedIff`). A dispute may have been opened in the meantime
  (`Witness.ConfirmationIsRefused`); the milestone then stays DISPUTED, its escrow short, until a refund of it fails
  (`Standstill.FrozenStep`, `Standstill.FrozenUntilFailure`).
- Paying out only what the provider has paid: a returned payout settles on its amount, currency and reference alone,
  whatever status the provider reports with them (`PayingOut.PayoutAnswerIff`).
- Deciding a dispute under review: possible if and only if the escrow holds the contracted amount
  (`Standstill.DecidableIff`); while escrow and status agree, if and only if no refund of the milestone is pending
  (`Standstill.FrozenIff`).

## Model

| member | source | states |
|---|---|---|
| `Ledger.PostJournal` | app/ledger/service.py:70-127 | refuses exactly the posting lists that are empty, mixed in currency, not all positive or unbalanced; returns the journal already stored under the key instead of a second one |
| `Ledger.AccountBalance` | app/ledger/service.py:130-144 | the balance is the signed sum over every entry ever posted to the account |
| `Ledger.TransferAcceptable` | app/ledger/service.py:79-97 | moving a positive amount between two accounts of one currency always passes the ledger's checks |
| `Idempotency.ClaimKey` | app/payments/idempotency.py:15-84 | work proceeds exactly for a key of 1 to 200 characters that is new or was claimed by the same request and never answered; the stored answer is replayed exactly for the request it was given to; another request under the key is a conflict |
| `System.Decide` | app/payments/service.py:35-517 | every step decides on a write whose guard holds, whose journal the ledger accepts and whose key belongs to its request; a refusal writes nothing |
| `Funding.FundIff` | app/payments/service.py:35-124 | a payment is opened, with the new row and its stored answer, exactly when every condition holds and there is something to pay; a demand joins a pending payment of the same provider; otherwise nothing changes |
| `Funding.DeliverIff` | app/payments/service.py:127-205 | a delivery captures, fails, is noted, is a duplicate or is refused, each exactly in its own case; a capture moves exactly the amount into escrow and funds the milestone once the escrow is full |
| `Payments.CaptureFailure` | app/payments/service.py:623-660 | an intent that fails no check may be captured and its funding journal is acceptable |
| `Releasing.ReleaseIff` | app/payments/service.py:208-324 | a release happens exactly when the employer orders it under an open key for an approved, fully funded milestone at a rate below 100 percent; the milestone is then RELEASED, escrow, freelancer and platform change by exactly their shares, no other account moves, and the answer states the result |
| `Releasing.ReleaseEmpties` | app/payments/service.py:264-276 | a release leaves nothing in escrow |
| `Refunding.RefundReservedIff` | app/payments/service.py:327-428 | a refund is reserved exactly when the employer asks under an open key for a FUNDED milestone with money in escrow that this provider has paid into; everything in escrow then leaves it |
| `Refunding.RefundAnswerIff` | app/payments/service.py:429-517 | the answer to a pending refund settles it, reverses it, notes it or changes nothing, each exactly in its own case; a reversal puts exactly its amount back into escrow |
| `Refunding.LateRefundAnswer` | app/payments/service.py:453-460 | an answer about a refund that has settled changes nothing |
| `PayingOut.PayoutReservedIff` | app/payouts/service.py:28-121 | a payout is reserved exactly when a new demand is well formed, under an open key, to a known destination and covered by the wallet; exactly its amount leaves the wallet |
| `PayingOut.PayoutAnswerIff` | app/payouts/service.py:123-189 | a pending payout succeeds exactly when the provider returns its amount and currency under a free reference, and fails, with its amount back in the wallet, exactly when the provider refuses or returns something else; a temporary error changes nothing |
| `PayingOut.LatePayoutAnswer` | app/payouts/service.py:148-156 | an answer about a payout that has settled changes nothing |
| `Workflow.ProgressIff` | app/milestones/service.py:83-150 | a milestone moves exactly when its contract is active, the user is the party of the action (the freelancer starts and submits, the employer reviews), the table allows it, and work starts on a full escrow |
| `Milestones.TransitionTable` | app/milestones/service.py:16-21 | the table of user transitions allows exactly the work steps the guards speak of |
| `Workflow.DisputeIff` | app/disputes/service.py:55-152 | a dispute is opened, and its milestone frozen, exactly when a party of an active contract gives a reason for a funded, unreleased milestone without a dispute |
| `Workflow.EvidenceIff` | app/disputes/service.py:168-257 | evidence is added exactly when a party submits a usable file that is not there yet, in time |
| `Workflow.ReviewIff` | app/disputes/service.py:260-307 | a dispute is moved exactly along the review table, with a reason |
| `Disputes.MoveTable` | app/disputes/service.py:47-52 | the administrators' table allows exactly the review steps the guards speak of |
| `Disputes.Amounts` | app/disputes/service.py:682-732 | returns the division of the escrow that fits the verdict and every stated amount, and none exactly when no division fits |
| `Disputes.Undecidable` | app/disputes/service.py:540-585 | a dispute that nothing blocks is under review over a DISPUTED milestone whose escrow is full |
| `Resolving.ResolveIff` | app/disputes/service.py:310-480 | a dispute is settled exactly when the order, under an open key, decides a decidable dispute with parts that fit the verdict and every stated amount, and the client's part has been paid back; the record is that verdict with those parts, and freelancer, platform and client get exactly their shares |
| `Disputes.LatestCapture` | app/disputes/service.py:837-849 | finds the captured intent of the milestone that was captured last, if there is one |
| `Marketplace.NewVersion` | app/proposals/service.py:230-262 | a version carries the stated terms, and is refused exactly when its milestone amounts do not add up to the price |
| `Marketplace.NegotiationTable` | app/proposals/service.py:27-34 | only a draft is submitted, and withdrawn, rejected and accepted proposals are final |
| `Workflow.AcceptIff` | app/contracts/service.py:58-143 | accepting mints the contract of the newest version, with its milestones, exactly when the employer accepts another user's proposal on a project without contract at a valid rate |
| `Workflow.NegotiateIff` | app/proposals/service.py:177-227 | a proposal moves exactly along the table, by the freelancer when submitted or withdrawn and by the employer otherwise, on an open project |
| `Workflow.ProposeIff` | app/proposals/service.py:67-122 | a proposal is drafted exactly for fair terms in the budget's currency on somebody else's open project, once for each user |
| `Workflow.ReviseIff` | app/proposals/service.py:125-174 | a version is added exactly by the owner, with fair terms, while the proposal is a draft or negotiated |
| `Workflow.SignIff` | app/contracts/service.py:146-256 | a signature is recorded exactly when a party signs the contract's own document for the first time, under a fresh key; repeated ones are answered without a change |
| `Workflow.CancelIff` | app/contracts/service.py:259-307 | a contract is cancelled exactly by its employer while nothing of it has been paid or is being paid |
| `Workflow.CloseIff` | app/projects/service.py:110-153 | a project is closed exactly by its employer while it is open and its contract active with all milestones RELEASED |
| `Invariant.InvKept` | app/payments/service.py:355-517 | every transaction of every service keeps the whole invariant |
| `Invariant.ReachedInv` | app/ledger/service.py:99-127 | the invariant holds after every run, whatever the interleaving |
| `MoneyTheorems.BalancesSumToZero` | app/ledger/service.py:79-127 | in every reached database and currency the balances of all accounts add up to zero |
| `MoneyTheorems.Solvent` | app/payments/service.py:371-397 | no escrow, wallet or commission balance is ever negative, and payouts plus refunds that have not failed never exceed captured funds |
| `MoneyTheorems.EntriesAreFresh` | app/ledger/service.py:99-127 | no step ever posts under a key that exists, and a status change makes due exactly the journal the step posts |
| `MoneyTheorems.FirstSettleWins` | app/payouts/service.py:123-163 | a refund or payout that has settled keeps its row through every later run |
| `MoneyTheorems.TransfersMoveOnce` | app/payouts/service.py:217-259 | a refund or payout has moved exactly minus its amount while pending or succeeded, nothing once failed, with one reservation and at most one reversal |
| `MoneyTheorems.SettlesExactlyOnce` | app/payments/service.py:264-300 | a milestone has exactly one settling journal if it is RELEASED and none otherwise, a release or a resolution but never both; RELEASE_PENDING is never committed |
| `MoneyTheorems.ReleasedForever` | app/disputes/service.py:348-355 | RELEASED is absorbing: the row of a released milestone never changes again |
| `MoneyTheorems.LateIff` | app/payments/service.py:623-660 | the services accept a capture over a pending refund exactly when the delivery meets the stated guard |
| `MoneyTheorems.AgreementStep` | app/payments/service.py:623-712 | one step keeps escrow and status of a milestone in agreement if and only if it is not a late capture for that milestone |
| `MoneyTheorems.EscrowAgreesIff` | app/payments/service.py:355-517 | escrow and status of a milestone agree all along a run if and only if the run has no late capture for it, whatever happens to others |
| `MoneyTheorems.AllAgreeIff` | app/payments/service.py:355-517 | over a run from nothing all milestones agree throughout if and only if none suffers a late capture |
| `SettlementTheorems.ClosedProjectAddsUp` | app/projects/service.py:110-153 | a closed project's net, commission and client refunds add up to the signed price exactly; commission is at most the rate and, undisputed, short of it by less than one minor unit for each milestone |
| `SettlementTheorems.FullAwardIsRelease` | app/disputes/service.py:364-385 | below a full commission, awarding everything posts exactly what an ordinary release posts |
| `SettlementTheorems.ReleaseAcceptableIff` | app/payments/service.py:264-276 | the ledger accepts a release journal if and only if the rate is below 10000 basis points |
| `SettlementTheorems.ResolutionAcceptable` | app/disputes/service.py:364-399 | every verdict that divides the escrow posts a journal the ledger accepts, at any rate |
| `SettlementTheorems.SplitCommission` | app/disputes/service.py:358-360 | a split charges no more commission than a full release of the same escrow |
| `Refusals.RejectedIff` | app/ledger/service.py:87-97 | in every reached database the ledger refuses a step's journal if and only if the step is an otherwise acceptable release at a full commission |
| `Replay.RecordsForever` | app/payments/idempotency.py:34-90 | a recorded key keeps its request through every run, and once answered its answer |
| `Replay.AnswerIsStored` | app/payments/service.py:315-324 | an answer given under a key is the answer stored under it |
| `Replay.RetrySeesFirstAnswer` | app/payments/service.py:38-52 | after any later run a request repeated once it was answered changes nothing and gets that answer, if and only if its contract is still active |
| `Replay.RetrySeesFinalAnswer` | app/payments/service.py:429-517 | the final answer that a provider's result gives to a refund or payout is stored, and is what every later repeat of its request gets, under the same condition |
| `Replay.ConflictForever` | app/payments/idempotency.py:44-51 | another payload under a recorded key is refused and changes nothing at any later time |
| `Replay.KeysOwnOne` | app/payments/service.py:60-83 | each key owns at most one intent, refund or payout, and each milestone has at most one PENDING intent |
| `Webhooks.EventsForever` | app/payments/service.py:133-162 | a recorded provider event stays recorded with its payload |
| `Webhooks.Redelivery` | app/payments/service.py:960-970 | redelivering a processed event at any later time is a no-op, and another payload under its id is refused |
| `Webhooks.CaptureIff` | app/payments/service.py:164-189 | a delivery captures an intent if and only if it is the provider's captured event for it and meets every condition |
| `Webhooks.CapturedAndFailedCommute` | app/payments/service.py:164-205 | captured and failed events for one fundable intent end in the same database in both orders, CAPTURED with one funding journal |
| `Webhooks.RefusalsLeaveNoTrace` | app/payments/service.py:149-181 | every refused request leaves the database as it was |
| `Lives.BecomesActiveIff` | app/contracts/service.py:233-243 | a contract becomes ACTIVE at a step if and only if the step adds the last required signature on its document |
| `Lives.ActiveIffSigned` | app/contracts/service.py:225-243 | an uncancelled contract is ACTIVE exactly when both parties have signed its document |
| `Lives.NewestTermsSigned` | app/contracts/service.py:58-79 | a step that makes a contract puts the newest version of the proposal into its document |
| `Lives.CancelledForever` | app/contracts/service.py:158-161 | CANCELLED is absorbing: the contract and the rows of its milestones never change again |
| `Lives.CancelledEmptyIff` | app/contracts/service.py:267-293 | a cancelled contract's escrows are empty exactly when its captured payments have been refunded in full |
| `Lives.EmptyForeverIff` | app/payments/service.py:766-802 | they are empty through every later run if and only if they are repaid in full and no refund is pending |
| `Lives.AgreeingIsSettled` | app/payments/service.py:626-635 | it is enough that escrow and status of the contract's own milestones agree |
| `Lives.LogsReplay` | app/payments/service.py:283-300 | the event logs of all milestones and disputes chain from their start to the stored status |
| `Standstill.OpensIff` | app/payments/service.py:35-124 | a payment is opened if and only if every other check passes and the milestone's amount is positive |
| `Standstill.NeverCloses` | app/projects/service.py:110-153 | after every run a milestone of amount zero is still CREATED and its project open |
| `Standstill.ConfirmedIff` | app/payments/service.py:445-479 | a pending refund confirmed in full settles if and only if its milestone is still FUNDED, and is an error otherwise |
| `Standstill.DecidableIff` | app/disputes/service.py:540-585 | a dispute can be decided if and only if it is under review and the escrow holds the contracted amount |
| `Standstill.GivesBackIff` | app/payments/service.py:440-475 | a step reverses a refund if and only if it is a provider answer that fails a pending one |
| `Standstill.FrozenStep` | app/payments/service.py:766-802 | a step leaves a disputed milestone with a wrong escrow as it is, and its escrow grows by a refund exactly if that refund fails |
| `Standstill.FrozenUntilFailure` | app/disputes/service.py:557-585 | over a run in which no refund of it fails such a milestone stays DISPUTED with the same escrow |
| `Standstill.FrozenIff` | app/payments/service.py:461-462 | while escrow and status agree, a disputed milestone cannot be decided if and only if a refund of it is pending |
| `Explained.ExplainedKept` | app/payments/service.py:663-678 | the escrow of an unsettled milestone always holds its captured payments minus its refunds that have not failed |
| `Witness.LateCaptureDoublesEscrow` | app/payments/service.py:623-712 | a concrete run ends with twice the contracted amount in escrow |
| `Witness.LateCaptureIsStranded` | app/contracts/service.py:259-307 | a concrete run leaves money in the escrow of a cancelled contract |
| `Witness.RepeatIsRefused` | app/payments/service.py:38-42 | a concrete run in which repeating an answered funding request is refused |
| `Witness.ZeroIsAccepted` | app/proposals/service.py:239-245 | all fair terms with a milestone of amount zero can be signed into an active contract whose project is then never closed |
| `Witness.ConfirmationIsRefused` | app/payments/service.py:461-462 | a concrete run in which the confirmation of a refund is an error because a dispute was opened |
| `Application.Platform.FundMilestone` | app/payments/service.py:35-124 | the tables afterwards and the reply are those of the transaction function |
| `Application.Platform.ProcessWebhook` | app/payments/service.py:127-205 | the tables afterwards and the reply are those of the transaction function for a webhook, with the capture done in place |
| `Application.Platform.CaptureIntent` | app/payments/service.py:623-720 | changes exactly the intent, its milestone and the journal, or nothing if a check fails |
| `Application.Platform.ReleaseMilestone` | app/payments/service.py:208-324 | the tables afterwards and the reply are those of the transaction function for a release, through RELEASE_PENDING |
| `Application.Platform.RefundMilestone` | app/payments/service.py:327-428 | the tables afterwards and the reply are those of the transaction function for the reservation of a refund |
| `Application.Platform.SettleRefund` | app/payments/service.py:429-517 | the tables afterwards and the reply are those of the transaction function for the provider's answer to a refund |
| `Application.Platform.FailRefund` | app/payments/service.py:766-817 | the tables afterwards and the reply are those of the transaction function for the reversal of a refund |
| `Application.Platform.CreatePayout` | app/payouts/service.py:28-121 | the tables afterwards and the reply are those of the transaction function for the reservation of a payout |
| `Application.Platform.SettlePayout` | app/payouts/service.py:123-189 | the tables afterwards and the reply are those of the transaction function for the provider's answer to a payout |
| `Application.Platform.FailPayout` | app/payouts/service.py:217-275 | the tables afterwards and the reply are those of the transaction function for the reversal of a payout |
| `Application.Platform.Transition` | app/milestones/service.py:83-150 | the tables afterwards and the reply are those of the transaction function for work progress |
| `Application.Platform.OpenDispute` | app/disputes/service.py:55-152 | the tables afterwards and the reply are those of the transaction function for opening a dispute |
| `Application.Platform.AddEvidence` | app/disputes/service.py:168-257 | the tables afterwards and the reply are those of the transaction function for evidence |
| `Application.Platform.AdminTransition` | app/disputes/service.py:260-307 | the tables afterwards and the reply are those of the transaction function for the review of a dispute |
| `Application.Platform.ResolveDispute` | app/disputes/service.py:310-480 | the tables afterwards and the reply are those of the transaction function for the resolution of a dispute |
| `Application.Platform.CreateProposal` | app/proposals/service.py:67-122 | the tables afterwards and the reply are those of the transaction function for a new proposal, summing the terms in a loop |
| `Application.Platform.AddProposalVersion` | app/proposals/service.py:125-174 | the tables afterwards and the reply are those of the transaction function for a new version |
| `Application.Platform.TransitionProposal` | app/proposals/service.py:177-227 | the tables afterwards and the reply are those of the transaction function for a negotiation step, contract included |
| `Application.Platform.SignContract` | app/contracts/service.py:146-256 | the tables afterwards and the reply are those of the transaction function for a signature, activating on the last one |
| `Application.Platform.CancelContract` | app/contracts/service.py:259-307 | the tables afterwards and the reply are those of the transaction function for a cancellation |
| `Application.Platform.CloseProject` | app/projects/service.py:110-153 | the tables afterwards and the reply are those of the transaction function for closing a project |
| `Application.Platform.Perform` | app/payments/service.py:35-517 | serving any request keeps the tables reachable, and a refused one leaves every table as it was |
| `Messaging.Conversation.SendMessage` | app/messaging/service.py:115-232 | each answer is given exactly in its own case: a new message, with usable attachments only, takes exactly the next number; a retried client id returns the first message and consumes none; every refusal has its own error |
| `Messaging.Conversation.MarkReceipts` | app/messaging/service.py:255-329 | receipts keep mirroring the marks exactly, and the read cursor never moves back |
| `Messaging.Conversation.ListMessages` | app/messaging/service.py:97-112 | returns the messages after the cursor in order, at most the limit |
| `Messaging.MirrorsMarked` | app/messaging/service.py:284-316 | a marking turns the exact mirror of the old marks into the exact mirror of the new ones |
| `Messaging.NothingLeftToRead` | app/messaging/service.py:281-282 | up to the cursor no receipt is missing, so the early return is sound |
| `Messaging.WalkCollects` | app/messaging/service.py:97-112 | paging with any limit collects every message exactly once and in order |
| `SearchIndex.StepKeeps` | app/search/tasks.py:21-46 | every step of changes and concurrent drainers, refused writes and crashes included, keeps the invariant |
| `SearchIndex.AlwaysCoherent` | app/freelancers/service.py:195-202 | after any interleaving every profile is current in the index or awaits a refresh |
| `SearchIndex.VersionsGrow` | app/search/service.py:76-83 | the version of an indexed document never decreases |
| `SearchIndex.DrainedIsCurrent` | app/search/tasks.py:33-46 | whenever no refresh is waiting the whole index equals the source |
| `SearchIndex.Projection.Drain` | app/search/tasks.py:21-46 | an undisturbed drain publishes exactly the first waiting events up to the limit, leaves the others as they were, changes documents only to the current one, and leaves the whole index current if that was all |
| `SearchIndex.Projection.Change` | app/freelancers/service.py:195-202 | a change moves the version on and enqueues a refresh of that version |
| `Ndcg.Bounded` | app/recommendations/evaluation.py:25-33 | the measure lies between 0 and 1 for every table, positive k, positive non-increasing discount and ranking whose first k places repeat no item |
| `Ndcg.PerfectRanking` | app/recommendations/evaluation.py:25-33 | it is 1 when every item is listed best first and some relevance is positive |
| `Ndcg.ByParts` | app/recommendations/evaluation.py:40-41 | larger prefix sums mean a larger discounted sum |
| `Ndcg.RankingTotal` | app/recommendations/evaluation.py:28 | above any threshold a duplicate-free ranking collects at most what the table holds, and all of it if it lists every item |
| `Ndcg.DuplicatesExceed` | app/recommendations/evaluation.py:25-33 | for every ranking that repeats an item in its first k places some table makes the measure exceed 1 |
| `Ndcg.BoundedIff` | app/recommendations/evaluation.py:25-33 | the measure is at most 1 for every table if and only if the first k places repeat no item |
| `MoneyText.RoundTrip` | frontend/src/lib/intl.ts:32-60 | parsing a printed amount gives it back, for every safe amount and number of fraction digits |
| `MoneyText.Reprint` | frontend/src/lib/intl.ts:32-60 | every accepted input reprints to a text that parses to the same amount |
| `MoneyText.ParseIff` | frontend/src/lib/intl.ts:43-60 | the parser accepts exactly the texts that, trimmed, denote a safe amount in at most the allowed decimals, and returns that amount |
| `MoneyText.PrintInjective` | frontend/src/lib/intl.ts:32-41 | different safe amounts print differently |
| `MoneyText.PrintDenotes` | frontend/src/lib/intl.ts:32-41 | what the printer writes denotes the amount |
| `Targets.MinimizeTargets` | ci/impact.py:85-91 | keeps, in sorted order, exactly the targets that no other target contains |
| `Targets.AncestorBefore` | ci/impact.py:86 | the slash count puts every directory before what it contains |
| `Targets.TopsCover` | ci/impact.py:85-91 | those targets cover all targets and none contains another |
| `Targets.CoverUnique` | ci/impact.py:85-91 | no other set of targets does both |

## Left out

- Text normalisation (stripping, case): the model starts from normalised texts, except in the money parser.
- Roles, multi-factor checks, request parsing and serialisers: the acting user is a parameter, and administrator checks are preconditions of the route.
- Audit records, notifications, metrics, and outbox events other than search refreshes.
- Clock times: a capture is ordered by the number of journals before it; other timestamps are not kept.
- Hashing: documents, keys and payloads are their own hashes, which is the injective case.
- Ledger account rows, and the runtime errors about missing or colliding account rows: an account is identified by the parts of its key.
- Row locks and database isolation: a committed transaction is one atomic step.
- The identity map of a database session: a drainer reads a profile afresh for each event.
- Contract versions beyond the first: the code only ever creates one.
- The upgrade of payout destinations recorded before snapshots existed.
- Files, calls, gigs, fraud scoring, reconciliation and feature flags.
- Stripe and sandbox adapters: a provider answers with a result, a hard error or a temporary error.
- Floating-point rounding: discounts and gains are reals, and money in the browser is integer arithmetic below the safe bound.
- Search queries and the index mapping: only the versioned write is modelled.
- `precision_at_k`, `recall_at_k` and `conversion_at_k`, which would only add easy members.
- Lookups by key in `class Platform` are written as queries over the tables, not as loops, because the source leaves them to the database.
