/**
 Committing a write set. The journal each write posts is spelled out here once; the services decide
 whether a write may happen at all, and the invariants are proved about these writes.
 */
module Transactions {
  import opened Basics
  import opened Ledger
  import opened Records

  // ---- Journals ---------------------------------------------------------------------------------

  /** Platform fee on an amount: floor division of a non-negative product. */
  function Fee(amount: int, bps: nat): int {
    amount * bps / 10000
  }

  function FundEntry(s: State, i: Id): Journal
    requires i < |s.intents| && s.intents[i].milestone < |s.milestones|
  {
    var it := s.intents[i];
    Journal(Key(MilestoneFund, IntentRef(i)), None,
            [Posting(Clearing(it.provider, it.currency), Debit, it.amount),
             Posting(EscrowOf(s, it.milestone), Credit, it.amount)])
  }

  function ReleasePostings(escrow: Account, wallet: Account, amount: int, fee: int): seq<Posting> {
    [Posting(escrow, Debit, amount), Posting(wallet, Credit, amount - fee)]
    + (if fee != 0 then [Posting(Commission(escrow.currency), Credit, fee)] else [])
  }

  function ReleaseEntry(s: State, m: Id): Journal
    requires m < |s.milestones| && s.milestones[m].contract < |s.contracts| && s.milestones[m].commission.Some?
  {
    var row := s.milestones[m];
    Journal(Key(MilestoneRelease, MilestoneRef(m)), None,
            ReleasePostings(EscrowOf(s, m), Wallet(s.contracts[row.contract].freelancer, row.currency),
                            row.amount, Fee(row.amount, row.commission.value)))
  }

  function RefundEntry(s: State, m: Id, provider: string, amount: int): Journal
    requires m < |s.milestones|
  {
    Journal(Key(MilestoneRefund, RefundRef(|s.refunds|)), None,
            [Posting(EscrowOf(s, m), Debit, amount),
             Posting(Clearing(provider, s.milestones[m].currency), Credit, amount)])
  }

  function RefundReversal(s: State, r: Id): Journal
    requires r < |s.refunds| && s.refunds[r].milestone < |s.milestones|
  {
    var row := s.refunds[r];
    Journal(Key(Reversal, RefundRef(r)), Some(row.journal),
            [Posting(Clearing(row.provider, row.currency), Debit, row.amount),
             Posting(EscrowOf(s, row.milestone), Credit, row.amount)])
  }

  function PayoutEntry(id: Id, p: Payout): Journal {
    Journal(Key(PayoutOut, PayoutRef(id)), None,
            [Posting(Wallet(p.freelancer, p.currency), Debit, p.amount),
             Posting(Clearing(p.provider, p.currency), Credit, p.amount)])
  }

  function PayoutReversal(id: Id, p: Payout): Journal {
    Journal(Key(Reversal, PayoutRef(id)), Some(p.journal),
            [Posting(Clearing(p.provider, p.currency), Debit, p.amount),
             Posting(Wallet(p.freelancer, p.currency), Credit, p.amount)])
  }

  /** The escrow debit, then a credit for every part that is not zero. */
  function ResolutionPostings(escrow: Account, wallet: Account, clearing: Account, d: Decision): seq<Posting> {
    [Posting(escrow, Debit, d.award + d.refund)]
    + (if d.net != 0 then [Posting(wallet, Credit, d.net)] else [])
    + (if d.commission != 0 then [Posting(Commission(escrow.currency), Credit, d.commission)] else [])
    + (if d.refund != 0 then [Posting(clearing, Credit, d.refund)] else [])
  }

  function ResolutionEntry(s: State, id: Id, decision: Decision, provider: string): Journal
    requires id < |s.disputes| && s.disputes[id].milestone < |s.milestones|
    requires s.milestones[s.disputes[id].milestone].contract < |s.contracts|
  {
    var m := s.disputes[id].milestone;
    var row := s.milestones[m];
    Journal(Key(DisputeResolution, DisputeRef(id)), None,
            ResolutionPostings(EscrowOf(s, m), Wallet(s.contracts[row.contract].freelancer, row.currency),
                               Clearing(provider, row.currency), decision))
  }

  // ---- Stored responses -------------------------------------------------------------------------

  function IntentResponse(s: State, i: Id): Body
    requires i < |s.intents|
  {
    var it := s.intents[i];
    IntentBody(i, it.milestone, it.provider, it.reference, it.amount, it.currency, it.status)
  }

  function FinancialState(id: Id, m: Milestone, journal: seq<Journal>): Body {
    FinancialBody(id, m.status, m.amount, m.currency,
                  if m.commission.Some? then Balance(journal, Escrow(id, m.currency)) else 0, m.commission)
  }

  function RefundView(id: Id, r: Refund): Body {
    RefundBody(id, r.milestone, r.provider, r.reference, r.amount, r.currency, r.status)
  }

  /** The stored reply of a refund that has reached a terminal status. */
  function RefundResponse(id: Id, r: Refund): Option<Response> {
    match r.status
    case Pending => None
    case Succeeded => Some(Response(200, RefundView(id, r)))
    case Failed => Some(Response(502, FailedRefundBody(id)))
  }

  /** The stored reply of a payout that has reached a terminal status. */
  function PayoutResponse(id: Id, p: Payout): Option<Response> {
    match p.status
    case Pending => None
    case Succeeded => Some(Response(200, PayoutBody(id, p.provider, p.reference, p.amount, p.currency, p.status)))
    case Failed => Some(Response(502, FailedPayoutBody(id)))
  }

  // ---- New rows ---------------------------------------------------------------------------------

  function CapturedMilestone(s: State, i: Id): Milestone
    requires i < |s.intents| && s.intents[i].milestone < |s.milestones|
    requires s.milestones[s.intents[i].milestone].contract < |s.contracts|
  {
    var m := s.milestones[s.intents[i].milestone];
    var row := if m.commission.Some? then m else m.(commission := Some(s.contracts[m.contract].document.bps));
    var after := Balance(s.journal, EscrowOf(s, s.intents[i].milestone)) + s.intents[i].amount;
    if after == m.amount && m.status != Funded then Move(row, m.status, Funded) else row
  }

  function ReleasedMilestone(m: Milestone): Milestone {
    Move(Move(m, Approved, ReleasePending), ReleasePending, Released)
  }

  function NewRefund(s: State, m: Id, user: Id, provider: string, key: IdemKey): Refund
    requires m < |s.milestones|
  {
    Refund(m, user, PostedId(s.journal, Key(MilestoneRefund, RefundRef(|s.refunds|))), key, provider, None,
           Balance(s.journal, EscrowOf(s, m)), s.milestones[m].currency, Pending)
  }

  function ResolutionRefund(s: State, id: Id, w: Write): Refund
    requires w.ResolveDispute? && id < |s.disputes| && s.disputes[id].milestone < |s.milestones|
    requires s.milestones[s.disputes[id].milestone].contract < |s.contracts|
  {
    var m := s.disputes[id].milestone;
    Refund(m, s.contracts[s.milestones[m].contract].employer, w.decision.journal, w.key, w.refundProvider,
           Some(w.refundReference), w.decision.refund, s.milestones[m].currency, Succeeded)
  }

  function SettledRefund(r: Refund, reference: string): Refund {
    r.(reference := Some(reference), status := Succeeded)
  }

  function ReversedRefund(r: Refund, noted: Option<string>): Refund {
    r.(status := Failed, reference := if noted.Some? then noted else r.reference)
  }

  function SettledPayout(p: Payout, reference: string): Payout {
    p.(reference := Some(reference), status := Succeeded)
  }

  function ReversedPayout(s: State, id: Id): Payout
    requires id < |s.payouts|
  {
    s.payouts[id].(status := Failed, reversal := Some(PostedId(s.journal, Key(Reversal, PayoutRef(id)))))
  }

  /** Stores the reply that the refund's final status calls for under the refund's own key. */
  function AnswerRefund(s: State, id: Id, row: Refund): map<IdemKey, IdemRecord>
    requires row.key in s.idem
  {
    s.idem[row.key := s.idem[row.key].(response := RefundResponse(id, row))]
  }

  function AnswerPayout(s: State, id: Id, row: Payout): map<IdemKey, IdemRecord>
    requires row.key in s.idem
  {
    s.idem[row.key := s.idem[row.key].(response := PayoutResponse(id, row))]
  }

  function NewDispute(milestone: Id, contract: Id, user: Id): Dispute {
    Dispute(milestone, contract, user, Opened, [], [DisputeEvent(None, Opened)], None)
  }

  function ResolvedDispute(s: State, id: Id, decision: Decision): Dispute
    requires id < |s.disputes|
  {
    Advance(s.disputes[id], UnderReview, Resolved).(decision := Some(decision))
  }

  /** The milestones a contract is born with, all CREATED. */
  function NewMilestones(contract: Id, document: Document): seq<Milestone> {
    seq(|document.milestones|, i requires 0 <= i < |document.milestones| =>
      Milestone(contract, document.milestones[i], document.currency, Created, [], None))
  }

  predicate HasSigned(signatures: seq<Signature>, contract: Id, user: Id) {
    exists i :: 0 <= i < |signatures| && signatures[i].contract == contract && signatures[i].user == user
  }

  /** A contract is active as soon as both parties have signed. */
  function SignedContract(s: State, g: Signature): Contract
    requires g.contract < |s.contracts|
  {
    var c := s.contracts[g.contract];
    var signatures := s.signatures + [g];
    if HasSigned(signatures, g.contract, c.employer) && HasSigned(signatures, g.contract, c.freelancer)
    then c.(status := Active) else c
  }

  // ---- Commit -----------------------------------------------------------------------------------

  /** Every row a write names exists. */
  predicate Addresses(s: State, w: Write) {
    match w
    case FailIntent(_, _, id) => id < |s.intents|
    case CaptureIntent(_, _, id) =>
      && id < |s.intents| && s.intents[id].milestone < |s.milestones|
      && s.milestones[s.intents[id].milestone].contract < |s.contracts|
    case ReleaseMilestone(id, _, _) =>
      id < |s.milestones| && s.milestones[id].contract < |s.contracts| && s.milestones[id].commission.Some?
    case ReplayRefund(id) => id < |s.refunds| && s.refunds[id].key in s.idem
    case ReserveRefund(id, _, _, _, _) => id < |s.milestones|
    case NoteRefund(id, _) => id < |s.refunds|
    case SettleRefund(id, _) => id < |s.refunds| && s.refunds[id].milestone < |s.milestones|
        && s.refunds[id].key in s.idem
    case ReverseRefund(id, _) => id < |s.refunds| && s.refunds[id].milestone < |s.milestones|
        && s.refunds[id].key in s.idem
    case ReplayPayout(id) => id < |s.payouts| && s.payouts[id].key in s.idem
    case SettlePayout(id, _) => id < |s.payouts| && s.payouts[id].key in s.idem
    case ReversePayout(id) => id < |s.payouts| && s.payouts[id].key in s.idem
    case MoveMilestone(id, _) => id < |s.milestones|
    case OpenDispute(id, _) => id < |s.milestones|
    case AddEvidence(id, _) => id < |s.disputes|
    case MoveDispute(id, _) => id < |s.disputes|
    case ResolveDispute(id, _, _, _, _, _) =>
      && id < |s.disputes| && s.disputes[id].milestone < |s.milestones|
      && s.milestones[s.disputes[id].milestone].contract < |s.contracts|
    case SetProposal(id, _) => id < |s.proposals|
    case AcceptProposal(id, _) => id < |s.proposals|
    case AddSignature(g) => g.contract < |s.contracts|
    case CancelContract(id) => id < |s.contracts|
    case CloseProject(id) => id < |s.projects|
    case _ => true
  }

  // What each write does to each table. A table that is not mentioned stays as it is.

  function ProjectsAfter(s: State, w: Write): seq<Project>
    requires Addresses(s, w)
  {
    match w
    case AddProject(project) => s.projects + [project]
    case CloseProject(id) => s.projects[id := s.projects[id].(status := ProjectClosed)]
    case _ => s.projects
  }

  function ProposalsAfter(s: State, w: Write): seq<Proposal>
    requires Addresses(s, w)
  {
    match w
    case AddProposal(proposal) => s.proposals + [proposal]
    case SetProposal(id, proposal) => s.proposals[id := proposal]
    case AcceptProposal(id, _) => s.proposals[id := s.proposals[id].(status := Accepted)]
    case _ => s.proposals
  }

  function ContractsAfter(s: State, w: Write): seq<Contract>
    requires Addresses(s, w)
  {
    match w
    case AcceptProposal(_, contract) => s.contracts + [contract]
    case AddSignature(g) => s.contracts[g.contract := SignedContract(s, g)]
    case CancelContract(id) => s.contracts[id := s.contracts[id].(status := Cancelled)]
    case _ => s.contracts
  }

  function SignaturesAfter(s: State, w: Write): seq<Signature> {
    if w.AddSignature? then s.signatures + [w.signature] else s.signatures
  }

  function MilestonesAfter(s: State, w: Write): seq<Milestone>
    requires Addresses(s, w)
  {
    var rows := s.milestones;
    match w
    case CaptureIntent(_, _, id) => rows[s.intents[id].milestone := CapturedMilestone(s, id)]
    case ReleaseMilestone(id, _, _) => rows[id := ReleasedMilestone(rows[id])]
    case SettleRefund(id, _) => var m := s.refunds[id].milestone; rows[m := Move(rows[m], Funded, Created)]
    case MoveMilestone(id, target) => rows[id := Move(rows[id], rows[id].status, target)]
    case OpenDispute(id, _) => rows[id := Move(rows[id], rows[id].status, Disputed)]
    case ResolveDispute(id, _, _, _, _, _) =>
      var m := s.disputes[id].milestone;
      rows[m := Move(rows[m], Disputed, Released)]
    case AcceptProposal(_, contract) => rows + NewMilestones(|s.contracts|, contract.document)
    case _ => rows
  }

  function IntentsAfter(s: State, w: Write): seq<Intent>
    requires Addresses(s, w)
  {
    match w
    case OpenIntent(_, _, intent) => s.intents + [intent]
    case FailIntent(_, _, id) => s.intents[id := s.intents[id].(status := IntentFailed)]
    case CaptureIntent(_, _, id) =>
      s.intents[id := s.intents[id].(status := IntentCaptured, capturedAt := Some(|s.journal|))]
    case _ => s.intents
  }

  function RefundsAfter(s: State, w: Write): seq<Refund>
    requires Addresses(s, w)
  {
    var rows := s.refunds;
    match w
    case ReserveRefund(id, user, provider, key, _) => rows + [NewRefund(s, id, user, provider, key)]
    case NoteRefund(id, reference) => rows[id := rows[id].(reference := Some(reference))]
    case SettleRefund(id, reference) => rows[id := SettledRefund(rows[id], reference)]
    case ReverseRefund(id, noted) => rows[id := ReversedRefund(rows[id], noted)]
    case ResolveDispute(id, decision, _, _, _, _) =>
      if decision.refund != 0 then rows + [ResolutionRefund(s, id, w)] else rows
    case _ => rows
  }

  function PayoutsAfter(s: State, w: Write): seq<Payout>
    requires Addresses(s, w)
  {
    var rows := s.payouts;
    match w
    case ReservePayout(payout, _) => rows + [payout]
    case SettlePayout(id, reference) => rows[id := SettledPayout(rows[id], reference)]
    case ReversePayout(id) => rows[id := ReversedPayout(s, id)]
    case _ => rows
  }

  function DisputesAfter(s: State, w: Write): seq<Dispute>
    requires Addresses(s, w)
  {
    var rows := s.disputes;
    match w
    case OpenDispute(id, user) => rows + [NewDispute(id, s.milestones[id].contract, user)]
    case AddEvidence(id, file) =>
      rows[id := Advance(rows[id], rows[id].status, rows[id].status).(evidence := rows[id].evidence + [file])]
    case MoveDispute(id, stage) => rows[id := Advance(rows[id], rows[id].status, stage)]
    case ResolveDispute(id, decision, _, _, _, _) => rows[id := ResolvedDispute(s, id, decision)]
    case _ => rows
  }

  function EventsAfter(s: State, w: Write): map<(string, string), Webhook> {
    if w.NoteEvent? || w.FailIntent? || w.CaptureIntent? then s.events[(w.provider, w.hook.externalId) := w.hook]
    else s.events
  }

  function IdemAfter(s: State, w: Write): map<IdemKey, IdemRecord>
    requires Addresses(s, w)
  {
    match w
    case Remember(key, record) => s.idem[key := record]
    case OpenIntent(key, record, _) => s.idem[key := record]
    case ReleaseMilestone(_, key, record) => s.idem[key := record]
    case ReplayRefund(id) => AnswerRefund(s, id, s.refunds[id])
    case ReserveRefund(_, _, _, key, request) => s.idem[key := IdemRecord(request, None)]
    case SettleRefund(id, reference) => AnswerRefund(s, id, SettledRefund(s.refunds[id], reference))
    case ReverseRefund(id, noted) => AnswerRefund(s, id, ReversedRefund(s.refunds[id], noted))
    case ReplayPayout(id) => AnswerPayout(s, id, s.payouts[id])
    case ReservePayout(payout, request) => s.idem[payout.key := IdemRecord(request, None)]
    case SettlePayout(id, reference) => AnswerPayout(s, id, SettledPayout(s.payouts[id], reference))
    case ReversePayout(id) => AnswerPayout(s, id, ReversedPayout(s, id))
    case ResolveDispute(id, decision, _, _, key, request) =>
      s.idem[key := IdemRecord(request, Some(Response(200, DisputeBody(id, ResolvedDispute(s, id, decision)))))]
    case _ => s.idem
  }

  /** The journal a write posts, if it posts one. */
  function Entry(s: State, w: Write): Option<Journal>
    requires Addresses(s, w)
  {
    match w
    case CaptureIntent(_, _, id) => Some(FundEntry(s, id))
    case ReleaseMilestone(id, _, _) => Some(ReleaseEntry(s, id))
    case ReserveRefund(id, _, provider, _, _) => Some(RefundEntry(s, id, provider, Balance(s.journal, EscrowOf(s, id))))
    case ReverseRefund(id, _) => Some(RefundReversal(s, id))
    case ReservePayout(p, _) => Some(PayoutEntry(|s.payouts|, p))
    case ReversePayout(id) => Some(PayoutReversal(id, s.payouts[id]))
    case ResolveDispute(id, decision, provider, _, _, _) => Some(ResolutionEntry(s, id, decision, provider))
    case _ => None
  }

  function JournalAfter(s: State, w: Write): seq<Journal>
    requires Addresses(s, w)
  {
    if Entry(s, w).Some? then Append(s.journal, Entry(s, w).value) else s.journal
  }

  /** The database after the transaction. */
  function Commit(s: State, w: Write): State
    requires Addresses(s, w)
  {
    State(ProjectsAfter(s, w), ProposalsAfter(s, w), ContractsAfter(s, w), SignaturesAfter(s, w), MilestonesAfter(s, w),
          IntentsAfter(s, w), RefundsAfter(s, w), PayoutsAfter(s, w), DisputesAfter(s, w), EventsAfter(s, w),
          IdemAfter(s, w), JournalAfter(s, w))
  }

  lemma NothingStays(s: State)
    ensures Commit(s, Nothing) == s
  {
  }

  // ---- Guards -----------------------------------------------------------------------------------

  predicate ActiveMilestone(s: State, m: Id) {
    && m < |s.milestones|
    && s.milestones[m].contract < |s.contracts|
    && s.contracts[s.milestones[m].contract].status == Active
  }

  predicate Unanswered(s: State, key: IdemKey) {
    key in s.idem ==> s.idem[key].response.None?
  }

  predicate NoIntentFor(s: State, key: IdemKey) {
    forall i :: 0 <= i < |s.intents| ==> s.intents[i].key != key
  }

  predicate HasReference(it: Intent, provider: string, reference: string) {
    it.provider == provider && it.reference == reference
  }

  predicate NoIntentWith(s: State, provider: string, reference: string) {
    forall i :: 0 <= i < |s.intents| ==> !HasReference(s.intents[i], provider, reference)
  }

  predicate NoRefundFor(s: State, key: IdemKey) {
    forall i :: 0 <= i < |s.refunds| ==> s.refunds[i].key != key
  }

  predicate NoPayoutFor(s: State, key: IdemKey) {
    forall i :: 0 <= i < |s.payouts| ==> s.payouts[i].key != key
  }

  predicate CapturedOn(it: Intent, m: Id) { it.milestone == m && it.status == IntentCaptured }

  predicate NoPendingIntent(s: State, m: Id) {
    forall i :: 0 <= i < |s.intents| && s.intents[i].milestone == m ==> s.intents[i].status != IntentPending
  }

  predicate NoDisputeOn(s: State, m: Id) {
    forall d :: 0 <= d < |s.disputes| ==> s.disputes[d].milestone != m
  }

  predicate NoContractOn(s: State, project: Id) {
    forall c :: 0 <= c < |s.contracts| ==> s.contracts[c].project != project
  }

  /** A captured-payment event for intent `i` passes every check of the capture. */
  predicate CanCapture(s: State, i: Id) {
    && i < |s.intents|
    && s.intents[i].status != IntentCaptured
    && ActiveMilestone(s, s.intents[i].milestone)
    && s.milestones[s.intents[i].milestone].status in {Created, Funded}
    && Balance(s.journal, EscrowOf(s, s.intents[i].milestone)) + s.intents[i].amount
       <= s.milestones[s.intents[i].milestone].amount
  }

  predicate CanRelease(s: State, m: Id) {
    && ActiveMilestone(s, m)
    && s.milestones[m].status == Approved
    && s.milestones[m].commission.Some?
    && Balance(s.journal, EscrowOf(s, m)) == s.milestones[m].amount
  }

  predicate WorkStep(from: MilestoneStatus, to: MilestoneStatus) {
    match to
    case InProgress => from == Funded
    case Submitted => from == InProgress || from == ChangesRequested
    case ChangesRequested => from == Submitted
    case Approved => from == Submitted
    case _ => false
  }

  predicate ReviewStep(from: DisputeStatus, to: DisputeStatus) {
    match from
    case Opened => to == EvidenceCollection
    case EvidenceCollection => to == UnderReview
    case UnderReview => to == NeedMoreInfo
    case NeedMoreInfo => to == EvidenceCollection || to == UnderReview
    case Resolved => false
  }

  /** How an accepted verdict divides the escrow. */
  predicate DividesEscrow(d: Decision, amount: int, bps: nat) {
    && d.award >= 0 && d.refund >= 0 && d.award + d.refund == amount
    && d.commission == Fee(d.award, bps)
    && d.net == d.award - d.commission
  }

  predicate CanResolve(s: State, id: Id, decision: Decision) {
    && id < |s.disputes|
    && s.disputes[id].status == UnderReview
    && s.disputes[id].milestone < |s.milestones|
    && var m := s.disputes[id].milestone;
    && s.milestones[m].contract < |s.contracts|
    && s.milestones[m].status == Disputed
    && s.milestones[m].commission.Some?
    && s.milestones[m].amount > 0
    && Balance(s.journal, EscrowOf(s, m)) == s.milestones[m].amount
    && DividesEscrow(decision, s.milestones[m].amount, s.milestones[m].commission.value)
    && decision.journal == PostedId(s.journal, Key(DisputeResolution, DisputeRef(id)))
  }

  /** A payment for a milestone of the contract is still waiting for its provider. */
  predicate PendingFor(s: State, c: Id, it: Intent) {
    it.status == IntentPending && it.milestone < |s.milestones| && s.milestones[it.milestone].contract == c
  }

  predicate NoPendingPayment(s: State, c: Id) {
    forall i :: 0 <= i < |s.intents| ==> !PendingFor(s, c, s.intents[i])
  }

  predicate CanCancel(s: State, c: Id) {
    && c < |s.contracts|
    && s.contracts[c].status != Cancelled
    && (s.contracts[c].status == Active ==>
          && NoPendingPayment(s, c)
          && forall m :: 0 <= m < |s.milestones| && s.milestones[m].contract == c ==> s.milestones[m].status == Created)
  }

  predicate AllReleased(s: State, c: Id) {
    forall m :: 0 <= m < |s.milestones| && s.milestones[m].contract == c ==> s.milestones[m].status == Released
  }

  predicate CanClose(s: State, p: Id) {
    && p < |s.projects|
    && s.projects[p].status == ProjectOpen
    && exists c :: 0 <= c < |s.contracts| && s.contracts[c].project == p && s.contracts[c].status == Active
        && AllReleased(s, c)
  }

  function AsInt(x: nat): int { x }

  /** Stated milestone amounts add up to the price. */
  predicate FairVersion(v: ProposalVersion) {
    v.milestones != [] ==> Sum(v.milestones, AsInt) == v.amount
  }

  /** _milestone_terms: the proposed milestones, or one covering the whole price. */
  function Terms(v: ProposalVersion): seq<nat> {
    if v.milestones != [] then v.milestones else [v.amount]
  }

  /** The document states the terms of the proposal's current version, at a rate of at most 100 percent. */
  predicate Papers(p: Proposal, id: Id, document: Document) {
    && document.bps <= 10000
    && exists i :: 0 <= i < |p.versions| && p.versions[i].number == p.currentVersion
        && document == TermsOf(p, id, p.versions[i], document.bps)
  }

  function TermsOf(p: Proposal, id: Id, v: ProposalVersion, bps: nat): Document {
    Document(p.project, id, v.number, v.amount, v.currency, Terms(v), bps)
  }

  /** A contract minted from the current version of a proposal on an open project. */
  predicate CanAccept(s: State, id: Id, c: Contract) {
    && id < |s.proposals|
    && c.project == s.proposals[id].project < |s.projects|
    && s.projects[c.project].status == ProjectOpen
    && c.employer == s.projects[c.project].employer
    && c.freelancer == s.proposals[id].freelancer
    && c.employer != c.freelancer
    && c.status == PendingSignatures
    && c.proposal == id
    && Papers(s.proposals[id], id, c.document)
    && NoContractOn(s, c.project)
  }

  predicate CanSign(s: State, g: Signature) {
    && g.contract < |s.contracts|
    && var c := s.contracts[g.contract];
    && c.status != Cancelled
    && (g.user == c.employer || g.user == c.freelancer)
    && g.document == c.document
    && !HasSigned(s.signatures, g.contract, g.user)
    && forall i :: 0 <= i < |s.signatures| ==> s.signatures[i].user != g.user || s.signatures[i].key != g.key
  }

  predicate ReferenceFree(s: State, id: Id, reference: string)
    requires id < |s.refunds|
  {
    forall r :: 0 <= r < |s.refunds| && r != id && s.refunds[r].provider == s.refunds[id].provider
      ==> s.refunds[r].reference != Some(reference)
  }

  predicate CanOpenIntent(s: State, key: IdemKey, record: IdemRecord, it: Intent) {
    && key.operation == FundOperation && Unanswered(s, key) && record.response.Some?
    && it.key == key && NoIntentFor(s, key) && NoIntentWith(s, it.provider, it.reference)
    && ActiveMilestone(s, it.milestone) && s.milestones[it.milestone].status == Created
    && NoPendingIntent(s, it.milestone)
    && it.amount == s.milestones[it.milestone].amount && it.amount > 0
    && it.currency == s.milestones[it.milestone].currency
    && it.status == IntentPending && it.capturedAt.None?
  }

  predicate CanReserveRefund(s: State, id: Id, key: IdemKey) {
    && key.operation == RefundOperation && Unanswered(s, key) && NoRefundFor(s, key)
    && ActiveMilestone(s, id) && s.milestones[id].status == Funded
    && Balance(s.journal, EscrowOf(s, id)) > 0
  }

  predicate PendingRefund(s: State, id: Id) {
    && id < |s.refunds| && s.refunds[id].status == Pending && s.refunds[id].key in s.idem
    && s.refunds[id].milestone < |s.milestones|
  }

  predicate CanSettleRefund(s: State, id: Id, reference: string) {
    PendingRefund(s, id) && ReferenceFree(s, id, reference) && s.milestones[s.refunds[id].milestone].status == Funded
  }

  predicate CanReverseRefund(s: State, id: Id, noted: Option<string>) {
    PendingRefund(s, id) && (noted.Some? ==> ReferenceFree(s, id, noted.value))
  }

  predicate CanReservePayout(s: State, p: Payout) {
    && p.key.operation == PayoutOperation && Unanswered(s, p.key) && NoPayoutFor(s, p.key)
    && p.amount > 0 && p.status == Pending && p.reversal.None?
    && Balance(s.journal, Wallet(p.freelancer, p.currency)) >= p.amount
  }

  predicate PendingPayout(s: State, id: Id) {
    id < |s.payouts| && s.payouts[id].status == Pending && s.payouts[id].key in s.idem
  }

  predicate CanMove(s: State, id: Id, target: MilestoneStatus) {
    && ActiveMilestone(s, id) && WorkStep(s.milestones[id].status, target)
    && (target == InProgress ==> Balance(s.journal, EscrowOf(s, id)) == s.milestones[id].amount)
  }

  predicate CanDispute(s: State, id: Id) {
    && ActiveMilestone(s, id) && NoDisputeOn(s, id)
    && s.milestones[id].status in {Funded, InProgress, Submitted, ChangesRequested, Approved}
  }

  /** The next version of a proposal is fair and carries the next number. */
  predicate NextVersion(was: Proposal, p: Proposal) {
    && p.currentVersion == was.currentVersion + 1
    && |p.versions| == |was.versions| + 1 && p.versions[..|was.versions|] == was.versions
    && p.versions[|was.versions|].number == p.currentVersion && FairVersion(p.versions[|was.versions|])
  }

  predicate CanRevise(s: State, id: Id, p: Proposal) {
    && id < |s.proposals| && p.project == s.proposals[id].project && p.freelancer == s.proposals[id].freelancer
    && ((p.versions == s.proposals[id].versions && p.currentVersion == s.proposals[id].currentVersion)
        || NextVersion(s.proposals[id], p))
  }

  predicate FirstVersion(p: Proposal) {
    |p.versions| == 1 && p.versions[0].number == p.currentVersion == 1 && FairVersion(p.versions[0])
  }

  /** The circumstances under which each write may be committed; every service establishes this. */
  predicate Guarded(s: State, w: Write) {
    && Addresses(s, w)
    && match w
    case Nothing => true
    case Remember(key, record) =>
      key.operation in {FundOperation, ReleaseOperation} && Unanswered(s, key) && record.response.Some?
    case OpenIntent(key, record, it) => CanOpenIntent(s, key, record, it)
    case NoteEvent(provider, hook) => (provider, hook.externalId) !in s.events
    case FailIntent(provider, hook, id) =>
      (provider, hook.externalId) !in s.events && s.intents[id].status != IntentCaptured
    case CaptureIntent(provider, hook, id) => (provider, hook.externalId) !in s.events && CanCapture(s, id)
    case ReleaseMilestone(id, key, record) =>
      key.operation == ReleaseOperation && Unanswered(s, key) && record.response.Some? && CanRelease(s, id)
    case ReplayRefund(id) => s.refunds[id].status != Pending && s.refunds[id].key.operation == RefundOperation
    case ReserveRefund(id, _, _, key, _) => CanReserveRefund(s, id, key)
    case NoteRefund(id, reference) => s.refunds[id].status == Pending && ReferenceFree(s, id, reference)
    case SettleRefund(id, reference) => CanSettleRefund(s, id, reference)
    case ReverseRefund(id, noted) => CanReverseRefund(s, id, noted)
    case ReplayPayout(id) => s.payouts[id].status != Pending
    case ReservePayout(p, _) => CanReservePayout(s, p)
    case SettlePayout(id, _) => PendingPayout(s, id)
    case ReversePayout(id) => PendingPayout(s, id)
    case MoveMilestone(id, target) => CanMove(s, id, target)
    case OpenDispute(id, _) => CanDispute(s, id)
    case AddEvidence(id, _) => s.disputes[id].status in {Opened, EvidenceCollection, NeedMoreInfo}
    case MoveDispute(id, stage) => ReviewStep(s.disputes[id].status, stage)
    case ResolveDispute(id, decision, _, _, key, _) =>
      key.operation == ResolveOperation && Unanswered(s, key) && CanResolve(s, id, decision)
    case AddProject(p) => p.status == ProjectOpen
    case AddProposal(p) => FirstVersion(p)
    case SetProposal(id, p) => CanRevise(s, id, p)
    case AcceptProposal(id, c) => CanAccept(s, id, c)
    case AddSignature(g) => CanSign(s, g)
    case CancelContract(id) => CanCancel(s, id)
    case CloseProject(id) => CanClose(s, id)
  }

  /** A journal is posted only if its postings pass the ledger's checks. */
  predicate WellPosted(s: State, w: Write)
    requires Addresses(s, w)
  {
    Entry(s, w).Some? ==> Acceptable(Entry(s, w).value.entries)
  }

  predicate ValidText(text: string) { 1 <= |text| <= 4000 }

  predicate EmployerOf(milestones: seq<Milestone>, contracts: seq<Contract>, m: Id, user: Id) {
    m < |milestones| && milestones[m].contract < |contracts| && user == contracts[milestones[m].contract].employer
  }

  /** A key is only ever recorded by the user and for the operation that its request belongs to. */
  predicate Scoped(milestones: seq<Milestone>, contracts: seq<Contract>, disputes: seq<Dispute>, key: IdemKey,
                   request: Request) {
    && 1 <= |key.text| <= 200
    && match request
       case FundRequest(m, _) => key.operation == FundOperation && EmployerOf(milestones, contracts, m, key.user)
       case ReleaseRequest(m) => key.operation == ReleaseOperation && EmployerOf(milestones, contracts, m, key.user)
       case RefundRequest(m, _) => key.operation == RefundOperation && EmployerOf(milestones, contracts, m, key.user)
       case PayoutRequest(amount, currency, _) => key.operation == PayoutOperation && amount > 0 && |currency| == 3
       case ResolveRequest(d, _, reason, _, _) =>
         key.operation == ResolveOperation && d < |disputes| && ValidText(reason)
  }

  /** A recorded key is only ever written again for the request it was recorded with. */
  predicate SameRequest(idem: map<IdemKey, IdemRecord>, key: IdemKey, request: Request) {
    key in idem ==> idem[key].request == request
  }

  predicate ClaimedFor(s: State, key: IdemKey, request: Request) {
    SameRequest(s.idem, key, request) && Scoped(s.milestones, s.contracts, s.disputes, key, request)
  }

  predicate WellScoped(s: State, w: Write) {
    match w
    case Remember(key, record) => ClaimedFor(s, key, record.request)
    case OpenIntent(key, record, _) => ClaimedFor(s, key, record.request)
    case ReleaseMilestone(_, key, record) => ClaimedFor(s, key, record.request)
    case ReserveRefund(_, _, _, key, request) => ClaimedFor(s, key, request)
    case ReservePayout(p, request) => ClaimedFor(s, p.key, request)
    case ResolveDispute(_, _, _, _, key, request) => ClaimedFor(s, key, request)
    case _ => true
  }

  /** What every service promises about the write it decides on. */
  predicate Lawful(s: State, w: Write) {
    Guarded(s, w) && WellPosted(s, w) && WellScoped(s, w)
  }
}
