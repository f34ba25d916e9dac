/** When the ledger refuses a journal: only for an ordinary release at a full commission. */
module Refusals {
  import opened Basics
  import opened Ledger
  import opened Records
  import opened Transactions
  import opened Idempotency
  import opened Rows
  import opened Invariant
  import opened SettlementTheorems
  import opened System
  import Payments
  import Payouts
  import Disputes

  predicate NotRejected(o: Outcome) { o.reply != Raised(JournalRejected) }

  lemma DeliverPosts(s: State, provider: string, hook: Webhook)
    requires IntentsOk(s.intents, s.milestones)
    ensures NotRejected(Payments.Deliver(s, provider, hook))
  {
    hide Acceptable, Guarded, WellPosted, WellScoped, Balance;
    forall i | 0 <= i < |s.intents| ensures Acceptable(FundEntry(s, i).entries) {
      var it := s.intents[i];
      assert IntentOk(it, s.milestones);
      TransferAcceptable(Clearing(it.provider, it.currency), EscrowOf(s, it.milestone), it.amount);
    }
  }

  lemma RefundPosts(s: State, user: Id, m: Id, provider: string, text: string)
    ensures NotRejected(Payments.ReserveRefundOf(s, user, m, provider, text))
  {
    hide Acceptable, Guarded, WellPosted, WellScoped, Balance;
    if m < |s.milestones| && Balance(s.journal, EscrowOf(s, m)) > 0 {
      TransferAcceptable(EscrowOf(s, m), Clearing(provider, s.milestones[m].currency),
                         Balance(s.journal, EscrowOf(s, m)));
    }
  }

  lemma ReversalPosts(s: State, id: Id, noted: Option<string>)
    requires RefundsOk(s.refunds, s.milestones) && id < |s.refunds|
    requires noted.Some? ==> !Payments.ReferenceClash(s, id, noted.value)
    ensures NotRejected(Payments.FailRefund(s, id, noted))
  {
    hide Acceptable, Guarded, WellPosted, WellScoped, Balance;
    var r := s.refunds[id];
    assert RefundOk(r, s.milestones);
    TransferAcceptable(Clearing(r.provider, r.currency), EscrowOf(s, r.milestone), r.amount);
  }

  lemma RefundSettles(s: State, id: Id, verifying: bool, outcome: ProviderOutcome)
    requires RefundsOk(s.refunds, s.milestones)
    ensures NotRejected(Payments.SettleRefundOf(s, id, verifying, outcome))
  {
    hide Guarded, WellPosted, WellScoped, RefundsOk, Payments.FailRefund;
    if id < |s.refunds| {
      ReversalPosts(s, id, None);
      if outcome.Returned? && !Payments.ReferenceClash(s, id, outcome.result.reference) {
        ReversalPosts(s, id, Some(outcome.result.reference));
      }
    }
  }

  lemma PayoutPosts(s: State, user: Id, amount: int, currency: string, provider: string, text: string,
                    destination: Option<string>)
    ensures NotRejected(Payouts.ReservePayoutOf(s, user, amount, currency, provider, text, destination))
  {
    hide Acceptable, Guarded, WellPosted, WellScoped, Balance;
    if amount > 0 {
      TransferAcceptable(Wallet(user, currency), Clearing(provider, currency), amount);
    }
  }

  lemma PayoutSettles(s: State, id: Id, outcome: ProviderOutcome)
    requires PayoutsOk(s.payouts)
    ensures NotRejected(Payouts.SettlePayoutOf(s, id, outcome))
  {
    hide Acceptable, Guarded, WellPosted, WellScoped, Balance;
    if id < |s.payouts| {
      var p := s.payouts[id];
      assert PayoutOk(p);
      TransferAcceptable(Clearing(p.provider, p.currency), Wallet(p.freelancer, p.currency), p.amount);
    }
  }

  /** At any commission rate, full commission included, a dispute never fails in the ledger. */
  lemma ResolutionPosts(s: State, id: Id, decision: Decision, provider: string)
    requires MilestonesOk(s.milestones, s.contracts) && id < |s.disputes| && s.disputes[id].milestone < |s.milestones|
    requires var m := s.milestones[s.disputes[id].milestone];
      m.commission.Some? && m.amount > 0 && DividesEscrow(decision, m.amount, m.commission.value)
    ensures s.milestones[s.disputes[id].milestone].contract < |s.contracts|
    ensures Acceptable(ResolutionEntry(s, id, decision, provider).entries)
  {
    var m := s.disputes[id].milestone;
    var row := s.milestones[m];
    assert MilestoneOk(row, s.contracts);
    ResolutionAcceptable(EscrowOf(s, m), Wallet(s.contracts[row.contract].freelancer, row.currency),
                         Clearing(provider, row.currency), decision, row.amount, row.commission.value);
  }

  lemma DivisionPosts(s: State, id: Id, decision: Decision, key: IdemKey, request: Request, confirmed: ProviderOutcome)
    requires MilestonesOk(s.milestones, s.contracts) && id < |s.disputes| && CanResolve(s, id, decision)
    requires key.operation == ResolveOperation && Unanswered(s, key) && ClaimedFor(s, key, request)
    ensures NotRejected(Disputes.Divide(s, id, decision, key, request, confirmed))
  {
    hide Acceptable, Guarded, WellPosted, WellScoped, Balance, MilestonesOk, Fee, ResolutionEntry, ClaimedFor,
        Unanswered;
    forall provider ensures Acceptable(ResolutionEntry(s, id, decision, provider).entries) {
      ResolutionPosts(s, id, decision, provider);
    }
  }

  lemma AdjudicationPosts(s: State, id: Id, verdict: Verdict, award: Option<int>, refund: Option<int>, key: IdemKey,
                          request: Request, confirmed: ProviderOutcome)
    requires id < |s.disputes| && MilestonesOk(s.milestones, s.contracts)
    requires key.operation == ResolveOperation && Unanswered(s, key) && ClaimedFor(s, key, request)
    ensures NotRejected(Disputes.Adjudicate(s, id, verdict, award, refund, key, request, confirmed))
  {
    hide Acceptable, Guarded, WellPosted, WellScoped, Balance, MilestonesOk, ClaimedFor, Disputes.Divide, Unanswered,
        Disputes.Amounts;
    if Disputes.Undecidable(s, id).None? {
      var row := s.milestones[s.disputes[id].milestone];
      var amounts := Disputes.Amounts(verdict, row.amount, award, refund);
      if amounts.Some? {
        var decision := Disputes.Decide(verdict, amounts.value.0, amounts.value.1, row.commission.value,
                                        PostedId(s.journal, Key(DisputeResolution, DisputeRef(id))));
        DivisionPosts(s, id, decision, key, request, confirmed);
      }
    }
  }

  lemma ResolvePosts(s: State, user: Id, id: Id, verdict: Verdict, reason: string, award: Option<int>,
                     refund: Option<int>,
                     text: string, confirmed: ProviderOutcome)
    requires MilestonesOk(s.milestones, s.contracts)
    ensures NotRejected(Disputes.Resolve(s, user, id, verdict, reason, award, refund, text, confirmed))
  {
    hide Guarded, WellPosted, WellScoped, MilestonesOk, Disputes.Adjudicate;
    var key := IdemKey(user, ResolveOperation, text);
    var request := ResolveRequest(id, verdict, reason, award, refund);
    if id < |s.disputes| && ValidText(reason) && ClaimKey(s.idem, key, request).Proceed? {
      AdjudicationPosts(s, id, verdict, award, refund, key, request, confirmed);
    }
  }

  /** An approved, fully funded milestone whose release the caller may order and the key allows. */
  predicate ReleaseReady(s: State, user: Id, m: Id, text: string) {
    && CanRelease(s, m)
    && user == s.contracts[s.milestones[m].contract].employer
    && ClaimKey(s.idem, IdemKey(user, ReleaseOperation, text), ReleaseRequest(m)).Proceed?
  }

  lemma ReleaseRejected(s: State, user: Id, m: Id, text: string)
    requires MilestonesOk(s.milestones, s.contracts)
    ensures Payments.Release(s, user, m, text).reply == Raised(JournalRejected)
      <==> ReleaseReady(s, user, m, text) && s.milestones[m].commission == Some(10000)
  {
    hide Guarded, WellPosted, WellScoped, Acceptable, Balance, Fee, ReleasePostings, ClaimedFor;
    if ReleaseReady(s, user, m, text) {
      var row := s.milestones[m];
      assert MilestoneOk(row, s.contracts);
      ReleaseAcceptableIff(EscrowOf(s, m), Wallet(s.contracts[row.contract].freelancer, row.currency), row.amount,
                           row.commission.value);
    }
  }

  predicate FullCommissionRelease(s: State, step: Step) {
    && step.Release?
    && ReleaseReady(s, step.user, step.milestone, step.text)
    && s.milestones[step.milestone].commission == Some(10000)
  }

  lemma RejectedNow(s: State, step: Step)
    requires MilestonesOk(s.milestones, s.contracts) && IntentsOk(s.intents, s.milestones)
    requires RefundsOk(s.refunds, s.milestones) && PayoutsOk(s.payouts)
    ensures Decide(s, step).reply == Raised(JournalRejected) <==> FullCommissionRelease(s, step)
  {
    hide Guarded, WellPosted, WellScoped, ReleaseReady, MilestonesOk, IntentsOk, RefundsOk, PayoutsOk, Balance,
        Addresses;
    hide Payments.Deliver, Payments.Release, Payments.ReserveRefundOf, Payments.SettleRefundOf;
    hide Payouts.ReservePayoutOf, Payouts.SettlePayoutOf, Disputes.Resolve;
    match step {
      case Deliver(provider, hook) => DeliverPosts(s, provider, hook);
      case Release(user, m, text) => ReleaseRejected(s, user, m, text);
      case Refund(user, m, provider, text) => RefundPosts(s, user, m, provider, text);
      case RefundAnswer(id, verifying, outcome) => RefundSettles(s, id, verifying, outcome);
      case PayOut(user, amount, currency, provider, text, destination) =>
        PayoutPosts(s, user, amount, currency, provider, text, destination);
      case PayoutAnswer(id, outcome) => PayoutSettles(s, id, outcome);
      case Resolve(user, id, verdict, reason, award, refund, text, outcome) =>
        ResolvePosts(s, user, id, verdict, reason, award, refund, text, outcome);
      case _ =>
    }
  }

  /**
   In every reachable database the ledger refuses a step's journal if and only if the step is an otherwise
   acceptable release of a milestone whose commission is 100 percent; a dispute over the same milestone
   settles at that rate too.
   */
  lemma RejectedIff(s: State, step: Step)
    requires Reached(s)
    ensures Decide(s, step).reply == Raised(JournalRejected) <==> FullCommissionRelease(s, step)
  {
    hide Run, Decide, FullCommissionRelease, BooksOk, KeysOk, MilestonesOk, IntentsOk, RefundsOk, PayoutsOk;
    ReachedInv(s);
    RejectedNow(s, step);
  }
}
