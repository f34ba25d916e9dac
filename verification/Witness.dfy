/**
 Runs on which a promise fails, each of them reached: a payment captured while a refund of the same milestone is in
 flight, a refund confirmed after a dispute was opened, a milestone of amount zero, a repeat after a cancellation.
 They show that the conditions of the main results are needed.
 */
module Witness {
  import opened Basics
  import opened Ledger
  import opened Records
  import opened Transactions
  import opened EscrowStatus
  import opened Invariant
  import opened System
  import opened MoneyTheorems
  import opened Webhooks
  import opened Replay
  import opened Standstill
  import Payments
  import Disputes
  import Marketplace

  const EMPLOYER: Id := 1
  const FREELANCER: Id := 2
  const PAPER: Document := Document(0, 0, 1, 100, "USD", [100], 1000)
  const ESCROW: Account := Escrow(0, "USD")
  const CLEARING: Account := Clearing("p", "USD")

  function FundKey(text: string): IdemKey { IdemKey(EMPLOYER, FundOperation, text) }
  const REFUND_KEY: IdemKey := IdemKey(EMPLOYER, RefundOperation, "k")

  const FAIL_A: Webhook := Webhook("1", PaymentFailed(Some("A")), "")
  const CAPTURE_B: Webhook := Webhook("2", PaymentCaptured(Some("B"), Some(100), Some("USD")), "")
  const CAPTURE_A: Webhook := Webhook("3", PaymentCaptured(Some("A"), Some(100), Some("USD")), "")

  lemma Distinct()
    ensures "1" != "2" && "1" != "3" && "2" != "3" && "A" != "B"
  {
    assert "1"[0] != "2"[0] && "1"[0] != "3"[0] && "2"[0] != "3"[0] && "A"[0] != "B"[0];
  }

  // ---- Up to an active contract -----------------------------------------------------------------

  const POSTED: State := Empty.(projects := [Project(EMPLOYER, None, ProjectOpen)])

  function Version(price: nat, terms: seq<nat>): ProposalVersion { ProposalVersion(1, price, "USD", terms) }

  function Bid(v: ProposalVersion, status: ProposalStatus): Proposal { Proposal(0, FREELANCER, status, 1, [v]) }

  function Paper(v: ProposalVersion): Document { Document(0, 0, 1, v.amount, "USD", Terms(v), 1000) }

  function Deal(paper: Document, status: ContractStatus): Contract {
    Contract(0, 0, EMPLOYER, FREELANCER, status, paper)
  }

  function Proposed(v: ProposalVersion, status: ProposalStatus): State { POSTED.(proposals := [Bid(v, status)]) }

  function Agreed(v: ProposalVersion): State {
    POSTED.(proposals := [Bid(v, Accepted)], contracts := [Deal(Paper(v), PendingSignatures)],
            milestones := NewMilestones(0, Paper(v)))
  }

  function FirstSigned(v: ProposalVersion): State {
    Agreed(v).(signatures := [Signature(0, EMPLOYER, Paper(v), "k")])
  }

  function Signed(v: ProposalVersion): State {
    Agreed(v).(contracts := [Deal(Paper(v), Active)],
               signatures := [Signature(0, EMPLOYER, Paper(v), "k"), Signature(0, FREELANCER, Paper(v), "k")])
  }

  lemma Opening(v: ProposalVersion)
    requires v == Version(v.amount, v.milestones) && FairVersion(v)
    ensures Commit(Empty, Marketplace.Post(Empty, EMPLOYER, None).write) == POSTED
    ensures Commit(POSTED, Marketplace.Propose(POSTED, FREELANCER, 0, v.amount, "USD", v.milestones).write)
         == Proposed(v, Draft)
  {
  }

  lemma Negotiating(v: ProposalVersion)
    requires v.number == 1 && v.currency == "USD"
    ensures Commit(Proposed(v, Draft),
                   Marketplace.Negotiate(Proposed(v, Draft), FREELANCER, 0, ProposalSubmitted, 1000).write)
         == Proposed(v, ProposalSubmitted)
    ensures Commit(Proposed(v, ProposalSubmitted),
                   Marketplace.Negotiate(Proposed(v, ProposalSubmitted), EMPLOYER, 0, Accepted, 1000).write)
         == Agreed(v)
  {
    hide Lawful, Terms;
  }

  lemma Signing(v: ProposalVersion)
    ensures Commit(Agreed(v), Marketplace.Sign(Agreed(v), EMPLOYER, 0, "k", Paper(v)).write) == FirstSigned(v)
    ensures Commit(FirstSigned(v), Marketplace.Sign(FirstSigned(v), FREELANCER, 0, "k", Paper(v)).write) == Signed(v)
  {
    hide Lawful, NewMilestones, Terms;
    assert Signed(v).signatures == FirstSigned(v).signatures + [Signature(0, FREELANCER, Paper(v), "k")];
    assert Signed(v).signatures[0].user == EMPLOYER && Signed(v).signatures[1].user == FREELANCER;
    assert !HasSigned(FirstSigned(v).signatures, 0, FREELANCER);
  }

  const SIGNED: State := POSTED.(proposals := [Bid(Version(100, []), Accepted)], contracts := [Deal(PAPER, Active)],
    signatures := [Signature(0, EMPLOYER, PAPER, "k"), Signature(0, FREELANCER, PAPER, "k")],
    milestones := [Milestone(0, 100, "USD", Created, [], None)])

  // ---- Money ------------------------------------------------------------------------------------

  function Attempt(reference: string, status: IntentStatus, capturedAt: Option<nat>): Intent {
    Intent(0, EMPLOYER, "p", reference, FundKey(reference), 100, "USD", status, capturedAt)
  }

  function FundRecord(id: Id, reference: string): IdemRecord {
    IdemRecord(FundRequest(0, "p"), Some(Response(202, IntentBody(id, 0, "p", reference, 100, "USD", IntentPending))))
  }

  function Back(status: TransferStatus, reference: Option<string>): Records.Refund {
    Records.Refund(0, EMPLOYER, 1, REFUND_KEY, "p", reference, 100, "USD", status)
  }

  const UNFUNDED: Milestone := Milestone(0, 100, "USD", Created, [], None)
  const FUNDED: Milestone := Milestone(0, 100, "USD", Funded, [MilestoneEvent(Created, Funded)], Some(1000))

  function Funding(i: Id): Journal {
    Journal(Key(MilestoneFund, IntentRef(i)), None, [Posting(CLEARING, Debit, 100), Posting(ESCROW, Credit, 100)])
  }

  const RESERVING: Journal :=
    Journal(Key(MilestoneRefund, RefundRef(0)), None, [Posting(ESCROW, Debit, 100), Posting(CLEARING, Credit, 100)])

  const REVERSING: Journal :=
    Journal(Key(Reversal, RefundRef(0)), Some(1), [Posting(CLEARING, Debit, 100), Posting(ESCROW, Credit, 100)])

  const TRIED: State := SIGNED.(intents := [Attempt("A", IntentPending, None)],
                                idem := map[FundKey("A") := FundRecord(0, "A")])

  const FAILED: State := TRIED.(intents := [Attempt("A", IntentFailed, None)], events := map[("p", "1") := FAIL_A])

  const RETRIED: State := FAILED.(intents := [Attempt("A", IntentFailed, None), Attempt("B", IntentPending, None)],
    idem := FAILED.idem[FundKey("B") := FundRecord(1, "B")])

  const CAPTURED: State := RETRIED.(
    intents := [Attempt("A", IntentFailed, None), Attempt("B", IntentCaptured, Some(0))],
    events := RETRIED.events[("p", "2") := CAPTURE_B], milestones := [FUNDED], journal := [Funding(1)])

  const RESERVED: State := CAPTURED.(refunds := [Back(Pending, None)], journal := [Funding(1), RESERVING],
    idem := CAPTURED.idem[REFUND_KEY := IdemRecord(RefundRequest(0, "p"), None)])

  const RACED: State := RESERVED.(
    intents := [Attempt("A", IntentCaptured, Some(2)), Attempt("B", IntentCaptured, Some(0))],
    events := RESERVED.events[("p", "3") := CAPTURE_A], journal := [Funding(1), RESERVING, Funding(0)])

  lemma Trying()
    ensures Commit(SIGNED, Payments.Fund(SIGNED, EMPLOYER, 0, "p", "A", Some("A")).write) == TRIED
  {
    hide Lawful;
  }

  lemma Failing()
    ensures Commit(TRIED, Payments.Deliver(TRIED, "p", FAIL_A).write) == FAILED
  {
    hide Lawful;
  }

  lemma Retrying()
    ensures Commit(FAILED, Payments.Fund(FAILED, EMPLOYER, 0, "p", "B", Some("B")).write) == RETRIED
  {
    hide Lawful;
    Distinct();
  }

  lemma TransferFlow(j: Journal, journal: seq<Journal>, from: Account, to: Account)
    requires j.entries == [Posting(from, Debit, 100), Posting(to, Credit, 100)]
    ensures Balance(journal + [j], ESCROW)
        == Balance(journal, ESCROW) + Part(to, 100, Is(ESCROW)) - Part(from, 100, Is(ESCROW))
  {
    TotalAppend(journal, j, Is(ESCROW));
    FlowOfTransfer(from, to, 100, Is(ESCROW));
  }

  /** The escrow holds nothing, then the capture, nothing while the refund is reserved, and then the late capture. */
  lemma Balances()
    ensures Balance([], ESCROW) == 0 && Balance([Funding(1)], ESCROW) == 100
    ensures Balance([Funding(1), RESERVING], ESCROW) == 0
    ensures Balance([Funding(1), RESERVING, Funding(0)], ESCROW) == 100
    ensures Balance([Funding(1), RESERVING, Funding(0), REVERSING], ESCROW) == 200
  {
    TransferFlow(Funding(1), [], CLEARING, ESCROW);
    TransferFlow(RESERVING, [Funding(1)], ESCROW, CLEARING);
    TransferFlow(Funding(0), [Funding(1), RESERVING], CLEARING, ESCROW);
    TransferFlow(REVERSING, [Funding(1), RESERVING, Funding(0)], CLEARING, ESCROW);
    assert [] + [Funding(1)] == [Funding(1)];
    assert [Funding(1)] + [RESERVING] == [Funding(1), RESERVING];
    assert [Funding(1), RESERVING] + [Funding(0)] == [Funding(1), RESERVING, Funding(0)];
    assert [Funding(1), RESERVING, Funding(0)] + [REVERSING] == [Funding(1), RESERVING, Funding(0), REVERSING];
  }

  lemma Capturing()
    ensures Payments.Deliver(RETRIED, "p", CAPTURE_B).write == CaptureIntent("p", CAPTURE_B, 1)
  {
    Distinct();
    Balances();
    hide Balance;
    assert ReferencesOk(RETRIED);
    assert CanCapture(RETRIED, 1);
    assert Fundable(RETRIED, 1, CAPTURE_B);
    CaptureAccepted(RETRIED, 1, CAPTURE_B);
  }

  lemma CapturedB()
    ensures Commit(RETRIED, CaptureIntent("p", CAPTURE_B, 1)) == CAPTURED
  {
    Balances();
    FreshAppend([], Funding(1));
    hide Balance, Append;
    var w := CaptureIntent("p", CAPTURE_B, 1);
    assert EscrowOf(RETRIED, 0) == ESCROW;
    assert UNFUNDED.events + [MilestoneEvent(Created, Funded)] == FUNDED.events;
    assert CapturedMilestone(RETRIED, 1) == FUNDED;
    assert MilestonesAfter(RETRIED, w) == CAPTURED.milestones;
    assert IntentsAfter(RETRIED, w) == CAPTURED.intents;
    assert JournalAfter(RETRIED, w) == CAPTURED.journal;
  }

  lemma Reserving()
    ensures Payments.ReserveRefundOf(CAPTURED, EMPLOYER, 0, "p", "k").write
         == ReserveRefund(0, EMPLOYER, "p", REFUND_KEY, RefundRequest(0, "p"))
  {
    Balances();
    TransferAcceptable(ESCROW, CLEARING, 100);
    hide Balance, Acceptable;
    assert EscrowOf(CAPTURED, 0) == ESCROW;
  }

  lemma Reserved()
    ensures Commit(CAPTURED, ReserveRefund(0, EMPLOYER, "p", REFUND_KEY, RefundRequest(0, "p"))) == RESERVED
  {
    Balances();
    FreshAppend([Funding(1)], RESERVING);
    hide Balance, Append;
    var w := ReserveRefund(0, EMPLOYER, "p", REFUND_KEY, RefundRequest(0, "p"));
    assert EscrowOf(CAPTURED, 0) == ESCROW;
    assert IndexOf([Funding(1)], RESERVING.key) == None;
    assert RefundsAfter(CAPTURED, w) == RESERVED.refunds;
    assert JournalAfter(CAPTURED, w) == RESERVED.journal;
  }

  lemma Racing()
    ensures Payments.Deliver(RESERVED, "p", CAPTURE_A).write == CaptureIntent("p", CAPTURE_A, 0)
  {
    Distinct();
    Balances();
    hide Balance;
    assert ReferencesOk(RESERVED);
    assert CanCapture(RESERVED, 0);
    assert Fundable(RESERVED, 0, CAPTURE_A);
    CaptureAccepted(RESERVED, 0, CAPTURE_A);
  }

  lemma CapturedA()
    ensures Commit(RESERVED, CaptureIntent("p", CAPTURE_A, 0)) == RACED
  {
    Balances();
    FreshAppend([Funding(1), RESERVING], Funding(0));
    hide Balance, Append;
    var w := CaptureIntent("p", CAPTURE_A, 0);
    assert EscrowOf(RESERVED, 0) == ESCROW;
    assert MilestonesAfter(RESERVED, w) == RACED.milestones;
    assert IntentsAfter(RESERVED, w) == RACED.intents;
    assert JournalAfter(RESERVED, w) == RACED.journal;
  }

  // ---- Two endings ------------------------------------------------------------------------------

  const DOUBLED: State := RACED.(refunds := [Back(TransferStatus.Failed, None)],
    idem := RACED.idem[REFUND_KEY := IdemRecord(RefundRequest(0, "p"), Some(Response(502, FailedRefundBody(0))))],
    journal := [Funding(1), RESERVING, Funding(0), REVERSING])

  lemma Reversed()
    ensures Commit(RACED, Payments.SettleRefundOf(RACED, 0, false, HardError).write) == DOUBLED
  {
    TransferAcceptable(CLEARING, ESCROW, 100);
    FreshAppend([Funding(1), RESERVING, Funding(0)], REVERSING);
    hide Balance, Acceptable, Append;
    assert EscrowOf(RACED, 0) == ESCROW;
    assert Payments.SettleRefundOf(RACED, 0, false, HardError).write == ReverseRefund(0, None);
    assert JournalAfter(RACED, ReverseRefund(0, None)) == DOUBLED.journal;
    assert RefundsAfter(RACED, ReverseRefund(0, None)) == DOUBLED.refunds;
  }

  const CONFIRMED: ProviderOutcome := Returned(ProviderResult("r", Succeeded, 100, "USD"))

  const RETURNED: State := RACED.(refunds := [Back(Succeeded, Some("r"))],
    idem := RACED.idem[REFUND_KEY := IdemRecord(RefundRequest(0, "p"),
                                                Some(Response(200, RefundView(0, Back(Succeeded, Some("r"))))))],
    milestones := [Move(FUNDED, Funded, Created)])

  const STRANDED: State := RETURNED.(contracts := [Deal(PAPER, Cancelled)])

  lemma Settled()
    ensures Commit(RACED, Payments.SettleRefundOf(RACED, 0, false, CONFIRMED).write) == RETURNED
  {
    hide Balance, Acceptable;
    assert Payments.SettleRefundOf(RACED, 0, false, CONFIRMED).write == SettleRefund(0, "r");
    assert MilestonesAfter(RACED, SettleRefund(0, "r")) == RETURNED.milestones;
    assert RefundsAfter(RACED, SettleRefund(0, "r")) == RETURNED.refunds;
  }

  lemma Cancelling()
    ensures Commit(RETURNED, Marketplace.Cancel(RETURNED, EMPLOYER, 0).write) == STRANDED
  {
    assert Marketplace.Cancel(RETURNED, EMPLOYER, 0).write == CancelContract(0);
  }

  // ---- The run ----------------------------------------------------------------------------------

  /** One step of the run: `after` is what the step makes of `before`. */
  lemma Next(before: State, step: Step, after: State)
    requires Reached(before) && Apply(before, step) == after
    ensures Reached(after)
  {
    hide Apply, Decide, Reached;
    ReachedNext(before, step);
  }

  lemma PostApplies(s: State, user: Id, currency: Option<string>)
    ensures Apply(s, PostProject(user, currency)) == Commit(s, Marketplace.Post(s, user, currency).write)
  {
    hide Lawful, Commit, Marketplace.Post;
  }

  lemma ProposeApplies(s: State, user: Id, project: Id, price: nat, currency: string, terms: seq<nat>)
    ensures Apply(s, Propose(user, project, price, currency, terms))
         == Commit(s, Marketplace.Propose(s, user, project, price, currency, terms).write)
  {
    hide Lawful, Commit, Marketplace.Propose;
  }

  lemma NegotiateApplies(s: State, user: Id, id: Id, to: ProposalStatus, bps: int)
    ensures Apply(s, Negotiate(user, id, to, bps)) == Commit(s, Marketplace.Negotiate(s, user, id, to, bps).write)
  {
    hide Lawful, Commit, Marketplace.Negotiate;
  }

  lemma SignApplies(s: State, user: Id, id: Id, text: string, expected: Document)
    ensures Apply(s, Sign(user, id, text, expected)) == Commit(s, Marketplace.Sign(s, user, id, text, expected).write)
  {
    hide Lawful, Commit, Marketplace.Sign;
  }

  lemma ProposedReached(v: ProposalVersion)
    requires v == Version(v.amount, v.milestones) && FairVersion(v)
    ensures Reached(Proposed(v, Draft))
  {
    Opening(v);
    EmptyAgrees(0);
    PostApplies(Empty, EMPLOYER, None);
    ProposeApplies(POSTED, FREELANCER, 0, v.amount, "USD", v.milestones);
    hide Reached, Commit, Agreement, Apply, Decide, Marketplace.Post, Marketplace.Propose, Proposed;
    Next(Empty, PostProject(EMPLOYER, None), POSTED);
    Next(POSTED, Propose(FREELANCER, 0, v.amount, "USD", v.milestones), Proposed(v, Draft));
  }

  lemma AgreedReached(v: ProposalVersion)
    requires v == Version(v.amount, v.milestones) && FairVersion(v)
    ensures Reached(Agreed(v))
  {
    ProposedReached(v);
    Negotiating(v);
    var draft, submitted := Proposed(v, Draft), Proposed(v, ProposalSubmitted);
    NegotiateApplies(draft, FREELANCER, 0, ProposalSubmitted, 1000);
    NegotiateApplies(submitted, EMPLOYER, 0, Accepted, 1000);
    hide Reached, Commit, Apply, Decide, Marketplace.Negotiate, Proposed, Agreed;
    Next(draft, Negotiate(FREELANCER, 0, ProposalSubmitted, 1000), submitted);
    Next(submitted, Negotiate(EMPLOYER, 0, Accepted, 1000), Agreed(v));
  }

  /** Any terms whose milestones add up to the price can be signed by both parties. */
  lemma SignedReached(v: ProposalVersion)
    requires v == Version(v.amount, v.milestones) && FairVersion(v)
    ensures Reached(Signed(v))
  {
    AgreedReached(v);
    Signing(v);
    SignApplies(Agreed(v), EMPLOYER, 0, "k", Paper(v));
    SignApplies(FirstSigned(v), FREELANCER, 0, "k", Paper(v));
    hide Reached, Commit, Apply, Decide, Marketplace.Sign, Agreed, FirstSigned, Signed, Paper;
    Next(Agreed(v), Sign(EMPLOYER, 0, "k", Paper(v)), FirstSigned(v));
    Next(FirstSigned(v), Sign(FREELANCER, 0, "k", Paper(v)), Signed(v));
  }

  lemma OpeningReached()
    ensures Reached(SIGNED)
  {
    SignedReached(Version(100, []));
    assert Paper(Version(100, [])) == PAPER;
    assert Signed(Version(100, [])) == SIGNED by {
      assert NewMilestones(0, PAPER) == SIGNED.milestones;
    }
  }

  lemma FundingReached()
    ensures Reached(CAPTURED)
  {
    OpeningReached();
    Trying();
    Failing();
    Retrying();
    Capturing();
    CapturedB();
    hide Reached, Commit, Lawful, Payments.Fund, Payments.Deliver;
    Next(SIGNED, Fund(EMPLOYER, 0, "p", "A", Some("A")), TRIED);
    Next(TRIED, Deliver("p", FAIL_A), FAILED);
    Next(FAILED, Fund(EMPLOYER, 0, "p", "B", Some("B")), RETRIED);
    Next(RETRIED, Deliver("p", CAPTURE_B), CAPTURED);
  }

  lemma RaceReached()
    ensures Reached(RESERVED) && Reached(RACED)
    ensures Apply(RESERVED, Deliver("p", CAPTURE_A)) == RACED
  {
    FundingReached();
    Reserving();
    Reserved();
    Racing();
    CapturedA();
    hide Reached, Commit, Lawful, Payments.ReserveRefundOf, Payments.Deliver;
    Next(CAPTURED, Step.Refund(EMPLOYER, 0, "p", "k"), RESERVED);
    Next(RESERVED, Deliver("p", CAPTURE_A), RACED);
  }

  lemma RaceIsLate()
    ensures LateCapture(RESERVED, Deliver("p", CAPTURE_A), 0)
  {
    Distinct();
    Balances();
    assert RESERVED.refunds[..0] == [];
    assert Outstanding(RESERVED.refunds, 0) == 100;
    hide Outstanding, Balance;
    assert CanCapture(RESERVED, 0);
    assert Funds(RESERVED, 0, "p", CAPTURE_A);
  }

  /**
   The late capture is accepted although the refund of the same milestone is still pending; when the refund
   then fails, the escrow holds twice the contracted amount.
   */
  lemma LateCaptureDoublesEscrow()
    ensures Reached(RESERVED) && LateCapture(RESERVED, Deliver("p", CAPTURE_A), 0)
    ensures Apply(Apply(RESERVED, Deliver("p", CAPTURE_A)), RefundAnswer(0, false, HardError)) == DOUBLED
    ensures Reached(DOUBLED) && DOUBLED.milestones[0].status == Funded
    ensures Balance(DOUBLED.journal, EscrowOf(DOUBLED, 0)) == 2 * DOUBLED.milestones[0].amount
  {
    RaceReached();
    RaceIsLate();
    Reversed();
    Balances();
    hide Reached, Commit, Lawful, Payments.SettleRefundOf, Payments.Deliver, Balance, LateCapture;
    Next(RACED, RefundAnswer(0, false, HardError), DOUBLED);
  }

  /**
   When the refund succeeds instead, the employer can cancel the contract and leave the late capture behind
   in escrow.
   */
  lemma LateCaptureIsStranded()
    ensures Reached(STRANDED) && STRANDED.contracts[0].status == Cancelled
    ensures Balance(STRANDED.journal, EscrowOf(STRANDED, 0)) == STRANDED.milestones[0].amount == 100
  {
    RaceReached();
    Settled();
    Cancelling();
    Balances();
    hide Reached, Commit, Lawful, Payments.SettleRefundOf, Marketplace.Cancel, Balance;
    Next(RACED, RefundAnswer(0, false, CONFIRMED), RETURNED);
    Next(RETURNED, Step.Cancel(EMPLOYER, 0), STRANDED);
  }

  // ---- Milestones of amount zero ----------------------------------------------------------------

  /**
   Whatever fair terms have a milestone of amount zero, both parties can sign them, the contract becomes active,
   and after no run is its project closed.
   */
  lemma ZeroIsAccepted(v: ProposalVersion, m: Id, steps: seq<Step>)
    requires v == Version(v.amount, v.milestones) && FairVersion(v) && m < |Terms(v)| && Terms(v)[m] == 0
    ensures Reached(Signed(v)) && ActiveMilestone(Signed(v), m) && Signed(v).milestones[m].amount == 0
    ensures Unfinished(Run(Signed(v), steps), m)
  {
    SignedReached(v);
    hide Reached, Run, Unfinished, FairVersion, Terms;
    NeverCloses(Signed(v), steps, m);
  }

  // ---- A refund confirmed after a dispute was opened --------------------------------------------

  const CONTESTED: State := RESERVED.(milestones := [Move(FUNDED, Funded, Disputed)],
                                      disputes := [NewDispute(0, 0, EMPLOYER)])

  lemma Contesting()
    ensures Commit(RESERVED, Disputes.Open(RESERVED, EMPLOYER, 0, "r").write) == CONTESTED
  {
    hide Lawful;
    assert Disputes.Open(RESERVED, EMPLOYER, 0, "r").write == Write.OpenDispute(0, EMPLOYER);
  }

  lemma ContestedConfirms()
    ensures Frozen(CONTESTED, 0)
    ensures CONFIRMED.Returned? && Confirms(CONTESTED, 0, CONFIRMED.result)
  {
    Balances();
    hide Balance;
  }

  lemma OpensDispute(s: State, user: Id, m: Id, reason: string)
    ensures Apply(s, Step.OpenDispute(user, m, reason)) == Commit(s, Disputes.Open(s, user, m, reason).write)
  {
    hide Lawful, Commit, Disputes.Open;
  }

  lemma ContestedReached()
    ensures Reached(CONTESTED)
  {
    RaceReached();
    Contesting();
    OpensDispute(RESERVED, EMPLOYER, 0, "r");
    hide Reached, Commit, Lawful, Disputes.Open, Apply, Decide;
    Next(RESERVED, Step.OpenDispute(EMPLOYER, 0, "r"), CONTESTED);
  }

  /** The client's refund is under way when the dispute is opened; the provider's confirmation is then an error. */
  lemma ConfirmationIsRefused()
    ensures Reached(CONTESTED) && Frozen(CONTESTED, 0)
    ensures CONFIRMED.Returned? && Confirms(CONTESTED, 0, CONFIRMED.result)
    ensures Decide(CONTESTED, RefundAnswer(0, false, CONFIRMED)) == Raise(Internal)
  {
    ContestedReached();
    ContestedConfirms();
    hide Reached, Frozen, Confirms, Decide;
    ConfirmedIff(CONTESTED, 0, false, CONFIRMED.result);
  }

  // ---- Repeating a request after a cancellation -------------------------------------------------

  const ABANDONED: State := FAILED.(contracts := [Deal(PAPER, Cancelled)])

  lemma Abandoning()
    ensures Commit(FAILED, Marketplace.Cancel(FAILED, EMPLOYER, 0).write) == ABANDONED
  {
    assert Marketplace.Cancel(FAILED, EMPLOYER, 0).write == CancelContract(0);
  }

  lemma AbandonedReached()
    ensures Reached(ABANDONED)
  {
    OpeningReached();
    Trying();
    Failing();
    Abandoning();
    hide Reached, Commit, Lawful, Payments.Fund, Payments.Deliver, Marketplace.Cancel;
    Next(SIGNED, Fund(EMPLOYER, 0, "p", "A", Some("A")), TRIED);
    Next(TRIED, Deliver("p", FAIL_A), FAILED);
    Next(FAILED, Step.Cancel(EMPLOYER, 0), ABANDONED);
  }

  /**
   The funding request was answered and its answer is stored, and yet repeating it is refused once the
   contract is cancelled.
   */
  lemma RepeatIsRefused()
    ensures Reached(ABANDONED)
    ensures Answered(ABANDONED.idem, Claim(FundKey("A"), FundRequest(0, "p")), FundRecord(0, "A").response.value)
    ensures Payments.Fund(ABANDONED, EMPLOYER, 0, "p", "A", Some("A")) == Raise(ContractInactive)
  {
    AbandonedReached();
    hide Reached;
  }
}
