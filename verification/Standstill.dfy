/** Milestones and disputes that no request can move on, and exactly when. */
module Standstill {
  import opened Basics
  import opened Ledger
  import opened Records
  import opened Transactions
  import opened Idempotency
  import opened Rows
  import opened Journaled
  import opened Flows
  import opened Solvency
  import opened EscrowStatus
  import opened Answers
  import opened Contracts
  import opened Invariant
  import opened MoneyTheorems
  import opened System
  import Payments
  import Disputes

  // ---- Milestones of amount zero ----------------------------------------------------------------

  /** Every check of fund_milestone passes, the one on the amount left aside. */
  predicate Startable(s: State, user: Id, m: Id, provider: string, text: string, created: Option<string>) {
    var key := IdemKey(user, FundOperation, text);
    && ActiveMilestone(s, m) && EmployerOf(s.milestones, s.contracts, m, user)
    && ClaimKey(s.idem, key, FundRequest(m, provider)).Proceed?
    && s.milestones[m].status == Created
    && NoIntentFor(s, key) && NoPendingIntent(s, m)
    && created.Some? && NoIntentWith(s, provider, created.value)
  }

  /** A payment is opened if and only if every other check passes and the milestone's amount is positive. */
  lemma OpensIff(s: State, user: Id, m: Id, provider: string, text: string, created: Option<string>)
    ensures Payments.Fund(s, user, m, provider, text, created).write.OpenIntent?
      <==> Startable(s, user, m, provider, text, created) && s.milestones[m].amount > 0
    ensures Startable(s, user, m, provider, text, created) && s.milestones[m].amount == 0 ==>
      Payments.Fund(s, user, m, provider, text, created) == Raise(ConstraintViolated)
  {
    hide Lawful, ClaimedFor;
  }

  predicate Worthless(s: State, m: Id) { m < |s.milestones| && s.milestones[m].amount == 0 }

  /** The milestone is still CREATED and the project of its contract is open. */
  predicate Unfinished(s: State, m: Id) {
    && m < |s.milestones| && s.milestones[m].status == Created && s.milestones[m].contract < |s.contracts|
    && var project := s.contracts[s.milestones[m].contract].project;
    && project < |s.projects| && s.projects[project].status == ProjectOpen
  }

  lemma {:induction false} WorthlessForever(s: State, steps: seq<Step>, m: Id)
    requires Worthless(s, m)
    ensures Worthless(Run(s, steps), m) && Run(s, steps).milestones[m].contract == s.milestones[m].contract
  {
    hide Decide;
    if steps != [] {
      var front := steps[..|steps| - 1];
      WorthlessForever(s, front, m);
      var before := Run(s, front);
      MilestonesExtend(before, Decide(before, steps[|steps| - 1]).write);
      hide MilestonesAfter;
    }
  }

  lemma WorthlessIsUnfinished(s: State, m: Id)
    requires RowsOk(s) && ContractsOk(s) && Worthless(s, m)
    ensures Unfinished(s, m)
  {
    hide PricesOk, SignaturesOk, ActivationOk, LivingContracts, MilestoneLog;
    assert MilestoneOk(s.milestones[m], s.contracts);
  }

  /**
   Whatever happens, a milestone of amount zero stays CREATED and the project of its contract is never closed.
   */
  lemma NeverCloses(s: State, steps: seq<Step>, m: Id)
    requires Reached(s) && Worthless(s, m)
    ensures Unfinished(Run(s, steps), m) && Run(s, steps).milestones[m].contract == s.milestones[m].contract
  {
    WorthlessForever(s, steps, m);
    ReachedOn(s, steps);
    ReachedInv(Run(s, steps));
    hide Run, RowsOk, ContractsOk, BooksOk, KeysOk, Unfinished, Worthless;
    WorthlessIsUnfinished(Run(s, steps), m);
  }

  // ---- Refunds confirmed too late ---------------------------------------------------------------

  /** The provider reports success of a pending refund in full, under a reference no other refund has. */
  predicate Confirms(s: State, id: Id, result: ProviderResult) {
    && id < |s.refunds| && s.refunds[id].status == Pending
    && result.status == Succeeded && result.amount == s.refunds[id].amount && result.currency == s.refunds[id].currency
    && ReferenceFree(s, id, result.reference)
  }

  lemma ConfirmedNow(s: State, id: Id, result: ProviderResult)
    requires RefundsOk(s.refunds, s.milestones) && RefundKeys(s.refunds, s.idem) && Confirms(s, id, result)
    ensures s.refunds[id].milestone < |s.milestones|
    ensures var o := Payments.ConfirmRefund(s, id, result);
      if s.milestones[s.refunds[id].milestone].status == Funded then o.write == SettleRefund(id, result.reference)
      else o == Raise(Internal)
  {
    hide Lawful;
    assert RefundOk(s.refunds[id], s.milestones) && RefundAnswered(id, s.refunds[id], s.idem);
  }

  lemma AnswerConfirms(s: State, id: Id, verifying: bool, result: ProviderResult)
    requires id < |s.refunds|
    ensures Decide(s, RefundAnswer(id, verifying, Returned(result))) == Payments.ConfirmRefund(s, id, result)
  {
    hide Lawful, Payments.ConfirmRefund;
  }

  /** A confirmed pending refund settles if and only if its milestone is still FUNDED; otherwise it is an error. */
  lemma ConfirmedIff(s: State, id: Id, verifying: bool, result: ProviderResult)
    requires Reached(s) && Confirms(s, id, result)
    ensures s.refunds[id].milestone < |s.milestones|
    ensures Decide(s, RefundAnswer(id, verifying, Returned(result))).write == SettleRefund(id, result.reference)
      <==> s.milestones[s.refunds[id].milestone].status == Funded
    ensures Decide(s, RefundAnswer(id, verifying, Returned(result))) == Raise(Internal)
      <==> s.milestones[s.refunds[id].milestone].status != Funded
  {
    hide Run, Decide, Payments.ConfirmRefund, BooksOk, RefundsOk, RefundKeys;
    ReachedInv(s);
    AnswerConfirms(s, id, verifying, result);
    ConfirmedNow(s, id, result);
  }

  predicate Decidable(s: State, d: Id)
    requires d < |s.disputes| && s.disputes[d].milestone < |s.milestones|
  {
    var m := s.disputes[d].milestone;
    s.disputes[d].status == UnderReview && Balance(s.journal, EscrowOf(s, m)) == s.milestones[m].amount
  }

  lemma DecidableNow(s: State, d: Id)
    requires DisputesOk(s.disputes, s.milestones) && MilestonesOk(s.milestones, s.contracts) && d < |s.disputes|
    ensures s.disputes[d].milestone < |s.milestones|
    ensures Disputes.Undecidable(s, d).None? <==> Decidable(s, d)
  {
    hide Balance;
    assert DisputeOk(s.disputes[d], s.milestones);
    assert MilestoneOk(s.milestones[s.disputes[d].milestone], s.contracts);
  }

  /** A dispute can be decided if and only if it is under review and the escrow holds the contracted amount. */
  lemma DecidableIff(s: State, d: Id)
    requires Reached(s) && d < |s.disputes|
    ensures s.disputes[d].milestone < |s.milestones|
    ensures Disputes.Undecidable(s, d).None? <==> Decidable(s, d)
  {
    hide Run, Decidable, MilestonesOk, DisputesOk, BooksOk, KeysOk, ContractsOk;
    ReachedInv(s);
    DecidableNow(s, d);
  }

  /** A disputed milestone whose escrow does not hold the contracted amount. */
  predicate Frozen(s: State, m: Id) {
    && m < |s.milestones| && s.milestones[m].status == Disputed
    && Balance(s.journal, EscrowOf(s, m)) != s.milestones[m].amount
  }

  /** The provider's answer makes a pending refund fail. */
  predicate Fails(s: State, id: Id, verifying: bool, outcome: ProviderOutcome)
    requires id < |s.refunds|
  {
    match outcome
    case TemporaryError => false
    case HardError => !verifying && s.refunds[id].status == Pending
    case Returned(result) =>
      && s.refunds[id].status == Pending
      && (|| result.amount != s.refunds[id].amount || result.currency != s.refunds[id].currency
          || (result.status == Failed && ReferenceFree(s, id, result.reference)))
  }

  /** The step is a provider answer that makes a pending refund of milestone `m` fail. */
  predicate GivesBack(s: State, step: Step, m: Id) {
    && step.RefundAnswer? && step.id < |s.refunds| && s.refunds[step.id].milestone == m
    && Fails(s, step.id, step.verifying, step.outcome)
  }

  predicate Reverses(s: State, w: Write, m: Id) {
    w.ReverseRefund? && w.id < |s.refunds| && s.refunds[w.id].milestone == m
  }

  lemma FailsNow(s: State, id: Id, verifying: bool, outcome: ProviderOutcome)
    requires RefundsOk(s.refunds, s.milestones) && RefundKeys(s.refunds, s.idem) && id < |s.refunds|
    ensures var w := Payments.SettleRefundOf(s, id, verifying, outcome).write;
      && (w.ReverseRefund? <==> Fails(s, id, verifying, outcome))
      && (w.ReverseRefund? ==> w.id == id)
  {
    hide Lawful, Acceptable;
    var r := s.refunds[id];
    assert RefundOk(r, s.milestones) && RefundAnswered(id, r, s.idem);
    TransferAcceptable(Clearing(r.provider, r.currency), EscrowOf(s, r.milestone), r.amount);
  }

  lemma OnlyAnswersReverse(s: State, step: Step)
    ensures Decide(s, step).write.ReverseRefund? ==> step.RefundAnswer? && step.id < |s.refunds|
    ensures step.RefundAnswer? ==> Decide(s, step) == Payments.SettleRefundOf(s, step.id, step.verifying, step.outcome)
  {
    hide Lawful, Payments.FailRefund, Payments.ConfirmRefund, Balance, Acceptable;
  }

  /** Exactly such an answer reverses a refund. */
  lemma GivesBackIff(s: State, step: Step, m: Id)
    requires RefundsOk(s.refunds, s.milestones) && RefundKeys(s.refunds, s.idem)
    ensures Reverses(s, Decide(s, step).write, m) <==> GivesBack(s, step, m)
    ensures GivesBack(s, step, m) ==> Decide(s, step).write.id == step.id
  {
    hide Decide, Fails, RefundsOk, RefundKeys, Payments.SettleRefundOf;
    OnlyAnswersReverse(s, step);
    if step.RefundAnswer? && step.id < |s.refunds| {
      FailsNow(s, step.id, step.verifying, step.outcome);
    }
  }

  /** The row of a frozen milestone stays as it is, and only a reversal changes what its escrow holds. */
  lemma FrozenRow(s: State, w: Write, m: Id)
    requires Guarded(s, w) && Frozen(s, m)
    ensures m < |MilestonesAfter(s, w)| && MilestonesAfter(s, w)[m] == s.milestones[m]
    ensures EscrowChange(s, w, m) == if Reverses(s, w, m) then s.refunds[w.id].amount else 0
  {
    hide Balance;
  }

  /** The row is the same, and the escrow holds `more` than before. */
  predicate StandsWith(before: State, after: State, m: Id, more: int) {
    && m < |before.milestones| && m < |after.milestones| && after.milestones[m] == before.milestones[m]
    && Balance(after.journal, EscrowOf(after, m)) == Balance(before.journal, EscrowOf(before, m)) + more
  }

  lemma FrozenWrite(s: State, w: Write, m: Id)
    requires Guarded(s, w) && JournalExact(s) && Frozen(s, m)
    ensures StandsWith(s, Commit(s, w), m, if Reverses(s, w, m) then s.refunds[w.id].amount else 0)
  {
    FrozenRow(s, w, m);
    hide JournalExact, Effect, EscrowChange, Total, MilestonesAfter, JournalAfter;
    TotalAfter(s, w, Is(EscrowOf(s, m)));
    hide Guarded;
    EscrowEffect(s, w, m);
  }

  /** One step leaves a frozen milestone DISPUTED, and its escrow grows exactly if a refund of it fails. */
  lemma FrozenStep(s: State, step: Step, m: Id)
    requires Reached(s) && Frozen(s, m)
    ensures StandsWith(s, Apply(s, step), m, if GivesBack(s, step, m) then s.refunds[step.id].amount else 0)
  {
    hide Run, Frozen, GivesBack, StandsWith, Commit, JournalExact, RefundsOk, RefundKeys, MilestonesOk;
    ReachedInv(s);
    GivesBackIff(s, step, m);
    FrozenWrite(s, Decide(s, step).write, m);
    hide Decide;
  }

  /** No step of the run makes a refund of milestone `m` fail. */
  predicate NoneFails(s: State, steps: seq<Step>, m: Id) {
    steps == [] || (NoneFails(s, steps[..|steps| - 1], m)
                    && !GivesBack(Run(s, steps[..|steps| - 1]), steps[|steps| - 1], m))
  }

  /** Until a refund of it fails, a frozen milestone stays DISPUTED through every run, and so does its escrow. */
  lemma {:induction false} FrozenUntilFailure(s: State, steps: seq<Step>, m: Id)
    requires Reached(s) && Frozen(s, m) && NoneFails(s, steps, m)
    ensures StandsWith(s, Run(s, steps), m, 0)
  {
    hide Apply, Decide, Reached, GivesBack, Balance;
    if steps != [] {
      var front := steps[..|steps| - 1];
      FrozenUntilFailure(s, front, m);
      ReachedOn(s, front);
      FrozenStep(Run(s, front), steps[|steps| - 1], m);
    }
  }

  /** While escrow and status agree, a disputed milestone is frozen if and only if a refund of it is pending. */
  lemma FrozenIff(s: State, m: Id)
    requires Reached(s) && m < |s.milestones| && s.milestones[m].status == Disputed && Agreement(s, m)
    ensures Frozen(s, m)
      <==> exists r :: 0 <= r < |s.refunds| && s.refunds[r].status == Pending && s.refunds[r].milestone == m
  {
    hide Run;
    ReachedInv(s);
    hide Reached, BooksOk, KeysOk, ContractsOk, Balance;
    if r :| 0 <= r < |s.refunds| && s.refunds[r].status == Pending && s.refunds[r].milestone == m {
      OutstandingCovers(s.refunds, s.milestones, r);
    } else {
      SumZero(s.refunds, PendingOn(m));
    }
  }
}
