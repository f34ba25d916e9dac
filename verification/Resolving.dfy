/** When a dispute is settled, and who gets what. */
module Resolving {
  import opened Basics
  import opened Ledger
  import opened Records
  import opened Transactions
  import opened Idempotency
  import opened Rows
  import opened Journaled
  import opened Flows
  import opened Solvency
  import opened Shifting
  import opened Explained
  import opened Invariant
  import opened Standstill
  import opened System
  import Releasing
  import Refusals
  import Disputes

  /** What an administrator orders. */
  datatype Order = Order(user: Id, dispute: Id, verdict: Verdict, reason: string, award: Option<int>,
                         refund: Option<int>, text: string)

  function KeyOf(x: Order): IdemKey { IdemKey(x.user, ResolveOperation, x.text) }

  function RequestOf(x: Order): Request { ResolveRequest(x.dispute, x.verdict, x.reason, x.award, x.refund) }

  function StepOf(x: Order, outcome: ProviderOutcome): Step {
    Step.Resolve(x.user, x.dispute, x.verdict, x.reason, x.award, x.refund, x.text, outcome)
  }

  predicate HasMilestone(s: State, d: Id) {
    d < |s.disputes| && s.disputes[d].milestone < |s.milestones|
    && s.milestones[s.disputes[d].milestone].contract < |s.contracts|
    && s.milestones[s.disputes[d].milestone].commission.Some?
  }

  /** The provider of the latest capture, which a client refund goes through. */
  function Payer(s: State, m: Id): string {
    var paid := Disputes.LatestCapture(s.intents, m);
    if paid.Some? then s.intents[paid.value].provider else ""
  }

  /** The provider reports that it has paid exactly `b` back, under a reference no refund of it carries. */
  predicate PaidBackBy(s: State, m: Id, b: int, outcome: ProviderOutcome)
    requires m < |s.milestones|
  {
    && outcome.Returned? && outcome.result.status == Succeeded
    && outcome.result.amount == b && outcome.result.currency == s.milestones[m].currency
    && forall r :: 0 <= r < |s.refunds| && s.refunds[r].provider == Payer(s, m) ==>
        s.refunds[r].reference != Some(outcome.result.reference)
  }

  /**
   The order, under an open key, decides a decidable dispute: `a` and `b` divide the escrow the way the verdict and the
   stated amounts say, and whatever goes to the client has been paid back.
   */
  predicate Settles(s: State, x: Order, outcome: ProviderOutcome, a: int, b: int) {
    && HasMilestone(s, x.dispute) && ValidText(x.reason) && Open(s, KeyOf(x), RequestOf(x))
    && Decidable(s, x.dispute)
    && var m := s.disputes[x.dispute].milestone;
    && Disputes.Fits(x.verdict, s.milestones[m].amount, x.award, x.refund, a, b)
    && (b != 0 ==> PaidBackBy(s, m, b, outcome))
  }

  /** What the escrow, the platform, the freelancer and the client get. */
  function Shares(s: State, d: Id, a: int, b: int, provider: string): map<Account, int>
    requires HasMilestone(s, d)
  {
    var m := s.disputes[d].milestone;
    var row := s.milestones[m];
    var fee := a * row.commission.value / 10000;
    map[EscrowOf(s, m) := -(a + b), Commission(row.currency) := fee, Releasing.FreelancerWallet(s, m) := a - fee,
        Clearing(provider, row.currency) := b]
  }

  function DecisionOf(s: State, x: Order, a: int, b: int): Decision
    requires HasMilestone(s, x.dispute)
  {
    var fee := a * s.milestones[s.disputes[x.dispute].milestone].commission.value / 10000;
    Decision(x.verdict, a, a - fee, b, fee, |s.journal|)
  }

  /** The client's refund, if there is one, is on record as paid. */
  function RefundsWith(s: State, x: Order, outcome: ProviderOutcome, b: int): seq<Refund>
    requires HasMilestone(s, x.dispute) && (b != 0 ==> outcome.Returned?)
  {
    var m := s.disputes[x.dispute].milestone;
    var row := s.milestones[m];
    if b == 0 then s.refunds
    else s.refunds + [Records.Refund(m, s.contracts[row.contract].employer, |s.journal|, KeyOf(x), Payer(s, m),
                                     Some(outcome.result.reference), b, row.currency, Succeeded)]
  }

  /** The dispute's row once the order is carried out. */
  function Closed(s: State, x: Order, a: int, b: int): Dispute
    requires HasMilestone(s, x.dispute)
  {
    var d := s.disputes[x.dispute];
    d.(status := Resolved, decision := Some(DecisionOf(s, x, a, b)),
       events := d.events + [DisputeEvent(Some(UnderReview), Resolved)])
  }

  /** The decision is on record, the milestone released, and the dispute's new row is the answer. */
  ghost predicate Recorded(s: State, after: State, x: Order, outcome: ProviderOutcome, a: int, b: int)
    requires HasMilestone(s, x.dispute) && (b != 0 ==> outcome.Returned?)
  {
    var m := s.disputes[x.dispute].milestone;
    var row := s.milestones[m];
    var answer := Response(200, DisputeBody(x.dispute, Closed(s, x, a, b)));
    after == s.(disputes := s.disputes[x.dispute := Closed(s, x, a, b)], journal := after.journal,
                milestones := s.milestones[m := row.(
                  status := Released, events := row.events + [MilestoneEvent(Disputed, Released)])],
                refunds := RefundsWith(s, x, outcome, b),
                idem := s.idem[KeyOf(x) := IdemRecord(RequestOf(x), Some(answer))])
  }

  /** The decision is on record and the money divided. */
  ghost predicate Decided(s: State, after: State, x: Order, outcome: ProviderOutcome, a: int, b: int)
    requires Settles(s, x, outcome, a, b)
  {
    && Recorded(s, after, x, outcome, a, b)
    && Shifts(s.journal, after.journal,
              Shares(s, x.dispute, a, b, if b == 0 then "" else Payer(s, s.disputes[x.dispute].milestone)))
  }

  // ---- What the service decides -----------------------------------------------------------------

  /** A full escrow was paid in by some capture. */
  lemma SomeCapture(s: State, m: Id)
    requires EscrowExplained(s.journal, s.milestones, s.intents, s.refunds) && RefundsOk(s.refunds, s.milestones)
    requires m < |s.milestones| && s.milestones[m].status != Released && Balance(s.journal, EscrowOf(s, m)) > 0
    ensures Disputes.LatestCapture(s.intents, m).Some?
  {
    hide Balance;
    SumNonNegative(s.refunds, RefundedFor(m));
    if Disputes.LatestCapture(s.intents, m).None? {
      SumZero(s.intents, CapturedFor(m));
    }
  }

  predicate Carries(s: State, o: Outcome, x: Order, decision: Decision, provider: string, reference: string)
    requires x.dispute < |s.disputes|
  {
    && o.write == ResolveDispute(x.dispute, decision, provider, reference, KeyOf(x), RequestOf(x))
    && o.reply == Done(Response(200, DisputeBody(x.dispute, ResolvedDispute(s, x.dispute, decision))))
  }

  lemma DivideWrites(s: State, x: Order, decision: Decision, outcome: ProviderOutcome)
    requires MilestonesOk(s.milestones, s.contracts) && CanResolve(s, x.dispute, decision)
    requires Unanswered(s, KeyOf(x)) && ClaimedFor(s, KeyOf(x), RequestOf(x))
    requires Disputes.LatestCapture(s.intents, s.disputes[x.dispute].milestone).Some?
    ensures var o := Disputes.Divide(s, x.dispute, decision, KeyOf(x), RequestOf(x), outcome);
      var m := s.disputes[x.dispute].milestone;
      if decision.refund == 0 then Carries(s, o, x, decision, "", "")
      else if PaidBackBy(s, m, decision.refund, outcome) then
        Carries(s, o, x, decision, Payer(s, m), outcome.result.reference)
      else o.reply.Raised?
  {
    hide Lawful, Acceptable, Balance, MilestonesOk, ClaimedFor, Unanswered, ResolutionEntry, Disputes.LatestCapture;
    forall provider ensures Acceptable(ResolutionEntry(s, x.dispute, decision, provider).entries) {
      Refusals.ResolutionPosts(s, x.dispute, decision, provider);
    }
  }

  lemma FitsOnce(verdict: Verdict, funded: int, award: Option<int>, refund: Option<int>, a: int, b: int, c: int, d: int)
    requires Disputes.Fits(verdict, funded, award, refund, a, b) && Disputes.Fits(verdict, funded, award, refund, c, d)
    ensures a == c && b == d
  {
  }

  /** The request behind the order may go ahead. */
  predicate Claims(s: State, x: Order) {
    && x.dispute < |s.disputes| && ValidText(x.reason) && Open(s, KeyOf(x), RequestOf(x))
  }

  lemma ClaimsScoped(s: State, x: Order)
    requires Claims(s, x)
    ensures Unanswered(s, KeyOf(x)) && ClaimedFor(s, KeyOf(x), RequestOf(x))
  {
  }

  /** What is known of every database that a run reaches. */
  ghost predicate Sound(s: State) {
    && MilestonesOk(s.milestones, s.contracts) && DisputesOk(s.disputes, s.milestones) && JournalExact(s)
    && RefundsOk(s.refunds, s.milestones)
    && EscrowExplained(s.journal, s.milestones, s.intents, s.refunds)
  }

  lemma ResolvableNow(s: State, x: Order, a: int, b: int)
    requires Sound(s) && Claims(s, x) && s.disputes[x.dispute].milestone < |s.milestones| && Decidable(s, x.dispute)
    requires Disputes.Fits(x.verdict, s.milestones[s.disputes[x.dispute].milestone].amount, x.award, x.refund, a, b)
    ensures HasMilestone(s, x.dispute) && CanResolve(s, x.dispute, DecisionOf(s, x, a, b))
    ensures Disputes.LatestCapture(s.intents, s.disputes[x.dispute].milestone).Some?
  {
    hide Balance, EscrowExplained, RefundsOk, JournalExact, MilestoneLog, DisputeLog;
    assert DisputeOk(s.disputes[x.dispute], s.milestones);
    assert MilestoneOk(s.milestones[s.disputes[x.dispute].milestone], s.contracts);
    NewPosted(s, Key(DisputeResolution, DisputeRef(x.dispute)));
    hide PostedId;
    SomeCapture(s, s.disputes[x.dispute].milestone);
  }

  lemma AdjudicateIs(s: State, x: Order, outcome: ProviderOutcome, a: int, b: int)
    requires Sound(s) && Claims(s, x) && s.disputes[x.dispute].milestone < |s.milestones| && Decidable(s, x.dispute)
    requires Disputes.Fits(x.verdict, s.milestones[s.disputes[x.dispute].milestone].amount, x.award, x.refund, a, b)
    requires HasMilestone(s, x.dispute) && CanResolve(s, x.dispute, DecisionOf(s, x, a, b))
    requires Unanswered(s, KeyOf(x)) && ClaimedFor(s, KeyOf(x), RequestOf(x))
    ensures Disputes.Adjudicate(s, x.dispute, x.verdict, x.award, x.refund, KeyOf(x), RequestOf(x), outcome)
         == Disputes.Divide(s, x.dispute, DecisionOf(s, x, a, b), KeyOf(x), RequestOf(x), outcome)
  {
    hide Balance, MilestonesOk, DisputesOk, JournalExact, EscrowExplained, RefundsOk, Lawful;
    hide Disputes.Divide, Disputes.Amounts, Disputes.Undecidable, Disputes.Fits, ClaimedFor, Unanswered;
    DecidableNow(s, x.dispute);
    NewPosted(s, Key(DisputeResolution, DisputeRef(x.dispute)));
    hide PostedId;
    var funded := s.milestones[s.disputes[x.dispute].milestone].amount;
    var parts := Disputes.Amounts(x.verdict, funded, x.award, x.refund).value;
    FitsOnce(x.verdict, funded, x.award, x.refund, a, b, parts.0, parts.1);
  }

  lemma AdjudicateSettles(s: State, x: Order, outcome: ProviderOutcome, a: int, b: int)
    requires Sound(s) && Claims(s, x) && Settles(s, x, outcome, a, b)
    requires Unanswered(s, KeyOf(x)) && ClaimedFor(s, KeyOf(x), RequestOf(x))
    ensures var o := Disputes.Adjudicate(s, x.dispute, x.verdict, x.award, x.refund, KeyOf(x), RequestOf(x), outcome);
      CarriesOut(s, o, x, outcome, a, b)
  {
    hide MilestonesOk, DisputesOk, JournalExact, EscrowExplained, RefundsOk, CanResolve, Carries, Decidable, Balance;
    hide Disputes.Adjudicate, Disputes.Divide, Disputes.Fits, Unanswered, ClaimedFor, Payer, PaidBackBy;
    ResolvableNow(s, x, a, b);
    AdjudicateIs(s, x, outcome, a, b);
    DivideWrites(s, x, DecisionOf(s, x, a, b), outcome);
  }

  lemma AdjudicateRefuses(s: State, x: Order, outcome: ProviderOutcome)
    requires Sound(s) && Claims(s, x) && forall a, b :: !Settles(s, x, outcome, a, b)
    requires Unanswered(s, KeyOf(x)) && ClaimedFor(s, KeyOf(x), RequestOf(x))
    ensures Disputes.Adjudicate(s, x.dispute, x.verdict, x.award, x.refund, KeyOf(x), RequestOf(x), outcome).reply
      .Raised?
  {
    DecidableNow(s, x.dispute);
    hide MilestonesOk, DisputesOk, JournalExact, EscrowExplained, RefundsOk, CanResolve, Decidable, Balance, Lawful;
    hide Disputes.Divide, Disputes.Fits, Unanswered, ClaimedFor, Payer, PaidBackBy, Disputes.Amounts;
    hide Disputes.Undecidable;
    var m := s.disputes[x.dispute].milestone;
    if Decidable(s, x.dispute) {
      var amounts := Disputes.Amounts(x.verdict, s.milestones[m].amount, x.award, x.refund);
      if amounts.Some? {
        var (a, b) := amounts.value;
        ResolvableNow(s, x, a, b);
        AdjudicateIs(s, x, outcome, a, b);
        assert !Settles(s, x, outcome, a, b);
        DivideWrites(s, x, DecisionOf(s, x, a, b), outcome);
      }
    }
  }

  // ---- What is committed ------------------------------------------------------------------------

  lemma SettlementShares(s: State, w: Write)
    requires Guarded(s, w) && w.ResolveDispute?
    requires HasMilestone(s, w.id) && w.decision.net + w.decision.commission == w.decision.award
    requires w.decision.commission
          == w.decision.award * s.milestones[s.disputes[w.id].milestone].commission.value / 10000
    ensures forall a: Account ::
      Effect(s, w, Is(a)) == Delta(Shares(s, w.id, w.decision.award, w.decision.refund, w.refundProvider), a)
  {
    hide Balance, Guarded, DividesEscrow;
  }

  /** The outcome is the one of a carried out order. */
  predicate CarriesOut(s: State, o: Outcome, x: Order, outcome: ProviderOutcome, a: int, b: int)
    requires HasMilestone(s, x.dispute) && (b != 0 ==> outcome.Returned?)
  {
    if b == 0 then Carries(s, o, x, DecisionOf(s, x, a, b), "", "")
    else Carries(s, o, x, DecisionOf(s, x, a, b), Payer(s, s.disputes[x.dispute].milestone), outcome.result.reference)
  }

  lemma SettlementRows(s: State, o: Outcome, x: Order, outcome: ProviderOutcome, a: int, b: int)
    requires HasMilestone(s, x.dispute) && (b != 0 ==> outcome.Returned?) && s.disputes[x.dispute].status == UnderReview
    requires CarriesOut(s, o, x, outcome, a, b) && Addresses(s, o.write)
    ensures Recorded(s, Commit(s, o.write), x, outcome, a, b)
    ensures o.reply == Done(Response(200, DisputeBody(x.dispute, Closed(s, x, a, b))))
  {
    hide JournalAfter, Payer;
  }

  lemma SettlementCommits(s: State, o: Outcome, x: Order, outcome: ProviderOutcome, a: int, b: int)
    requires Guarded(s, o.write) && JournalExact(s) && Settles(s, x, outcome, a, b)
    requires CarriesOut(s, o, x, outcome, a, b)
    ensures Decided(s, Commit(s, o.write), x, outcome, a, b)
    ensures o.reply == Done(Response(200, DisputeBody(x.dispute, Closed(s, x, a, b))))
  {
    SettlementShares(s, o.write);
    Shifted(s, o.write, Shares(s, x.dispute, a, b, o.write.refundProvider));
    assert Addresses(s, o.write);
    hide Guarded, JournalExact, Balance, Shifts, Shares, JournalAfter, Payer, Recorded, Disputes.Fits, PaidBackBy;
    SettlementRows(s, o, x, outcome, a, b);
  }

  // ---- The result -------------------------------------------------------------------------------

  ghost predicate SettlesSomehow(s: State, x: Order, outcome: ProviderOutcome) {
    exists a, b :: Settles(s, x, outcome, a, b)
  }

  /** The order settles the dispute with parts `a` and `b`, and this is its outcome. */
  ghost predicate CarriedOut(s: State, o: Outcome, after: State, x: Order, outcome: ProviderOutcome, a: int, b: int) {
    && Settles(s, x, outcome, a, b)
    && Decided(s, after, x, outcome, a, b)
    && o.reply == Done(Response(200, DisputeBody(x.dispute, Closed(s, x, a, b))))
  }

  /** What an order to resolve a dispute comes to. */
  ghost predicate ResolveResult(s: State, o: Outcome, after: State, x: Order, outcome: ProviderOutcome) {
    if SettlesSomehow(s, x, outcome) then
      forall a, b :: Settles(s, x, outcome, a, b) ==> CarriedOut(s, o, after, x, outcome, a, b)
    else
      && after == s
      && Repeats(o, x.dispute < |s.disputes| && ValidText(x.reason), AnswerOf(s, KeyOf(x), RequestOf(x)))
  }

  function Outcomes(s: State, x: Order, outcome: ProviderOutcome): Outcome {
    Disputes.Resolve(s, x.user, x.dispute, x.verdict, x.reason, x.award, x.refund, x.text, outcome)
  }

  lemma ResolveIs(s: State, x: Order, outcome: ProviderOutcome)
    ensures Claims(s, x) ==> Unanswered(s, KeyOf(x)) && ClaimedFor(s, KeyOf(x), RequestOf(x))
    ensures Claims(s, x) ==>
      Outcomes(s, x, outcome)
      == Disputes.Adjudicate(s, x.dispute, x.verdict, x.award, x.refund, KeyOf(x), RequestOf(x), outcome)
    ensures !Claims(s, x) ==>
      Repeats(Outcomes(s, x, outcome), x.dispute < |s.disputes| && ValidText(x.reason),
              AnswerOf(s, KeyOf(x), RequestOf(x)))
  {
    hide Lawful, Disputes.Adjudicate, ValidText, ClaimedFor;
    ClaimIs(s, KeyOf(x), RequestOf(x));
    hide ClaimKey;
    if Claims(s, x) {
      ClaimsScoped(s, x);
    }
  }

  lemma ResolveSettles(s: State, x: Order, outcome: ProviderOutcome, a: int, b: int)
    requires Sound(s) && Settles(s, x, outcome, a, b)
    ensures var o := Outcomes(s, x, outcome);
      o.write.ResolveDispute? && CarriedOut(s, o, Commit(s, o.write), x, outcome, a, b)
  {
    ResolveIs(s, x, outcome);
    var o := Outcomes(s, x, outcome);
    assert Guarded(s, o.write);
    hide Lawful, Guarded, MilestonesOk, DisputesOk, EscrowExplained, RefundsOk, JournalExact, Outcomes, Commit, Payer;
    hide Disputes.Adjudicate, ClaimedFor, Unanswered, Decided, Decidable, Disputes.Fits, PaidBackBy, ValidText;
    AdjudicateSettles(s, x, outcome, a, b);
    SettlementCommits(s, o, x, outcome, a, b);
  }

  lemma ResolveRefuses(s: State, x: Order, outcome: ProviderOutcome)
    requires Sound(s) && !SettlesSomehow(s, x, outcome)
    ensures Repeats(Outcomes(s, x, outcome), x.dispute < |s.disputes| && ValidText(x.reason),
                    AnswerOf(s, KeyOf(x), RequestOf(x)))
  {
    ResolveIs(s, x, outcome);
    assert Quiet(Outcomes(s, x, outcome));
    hide Lawful, Outcomes, Sound, Settles, ClaimedFor, Unanswered, Disputes.Adjudicate;
    if Claims(s, x) {
      AdjudicateRefuses(s, x, outcome);
    }
  }

  lemma ResolveNow(s: State, x: Order, outcome: ProviderOutcome)
    requires Sound(s)
    ensures var o := Outcomes(s, x, outcome);
      && ResolveResult(s, o, Commit(s, o.write), x, outcome)
      && (o.write.ResolveDispute? <==> SettlesSomehow(s, x, outcome))
  {
    var o := Outcomes(s, x, outcome);
    NothingStays(s);
    assert Addresses(s, o.write);
    hide Sound, Lawful, Addresses, Outcomes, Commit, Settles, CarriedOut, AnswerOf;
    if SettlesSomehow(s, x, outcome) {
      forall a, b | Settles(s, x, outcome, a, b)
        ensures o.write.ResolveDispute? && CarriedOut(s, o, Commit(s, o.write), x, outcome, a, b)
      {
        ResolveSettles(s, x, outcome, a, b);
      }
    } else {
      ResolveRefuses(s, x, outcome);
    }
  }

  lemma StepResolves(s: State, x: Order, outcome: ProviderOutcome)
    ensures Decide(s, StepOf(x, outcome)) == Outcomes(s, x, outcome)
  {
    hide Lawful, Disputes.Resolve;
  }

  /**
   A dispute is settled if and only if the order, under an open key, decides a decidable dispute with parts that fit
   the verdict and every stated amount, and the client's part has been paid back. The recorded decision then is the
   verdict with exactly these parts, freelancer, platform and client get exactly their shares, no other account has
   moved, and the answer is the dispute's new row. Otherwise nothing changes.
   */
  lemma ResolveIff(s: State, x: Order, outcome: ProviderOutcome)
    requires Reached(s)
    ensures ResolveResult(s, Decide(s, StepOf(x, outcome)), Apply(s, StepOf(x, outcome)), x, outcome)
    ensures Decide(s, StepOf(x, outcome)).write.ResolveDispute? <==> SettlesSomehow(s, x, outcome)
  {
    hide Run, MilestonesOk, DisputesOk, JournalExact, EscrowExplained, RefundsOk, KeysOk;
    ReachedInv(s);
    StepResolves(s, x, outcome);
    ResolveNow(s, x, outcome);
    hide Decide, Commit, Outcomes, SettlesSomehow, ResolveResult, Reached, StepOf;
  }
}
