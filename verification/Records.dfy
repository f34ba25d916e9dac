/**
 The committed database as one value. Every table is an append-only sequence of rows whose row number
 is the row's identifier; a transaction changes a few rows and appends at most a few others.
 */
module Records {
  import opened Basics
  import opened Ledger

  // ---- Marketplace ------------------------------------------------------------------------------

  datatype ProjectStatus = ProjectOpen | ProjectClosed

  datatype Project = Project(employer: Id, currency: Option<string>, status: ProjectStatus)

  datatype ProposalStatus = Draft | ProposalSubmitted | UnderNegotiation | Withdrawn | Declined | Accepted

  /** `milestones` holds the proposed milestone amounts; empty means one full delivery. */
  datatype ProposalVersion = ProposalVersion(number: nat, amount: nat, currency: string, milestones: seq<nat>)

  datatype Proposal = Proposal(
    project: Id, freelancer: Id, status: ProposalStatus, currentVersion: nat, versions: seq<ProposalVersion>)

  datatype ContractStatus = PendingSignatures | Active | Cancelled

  /** The immutable contract document. Hashing it is modelled as the identity, so the document is its own hash. */
  datatype Document = Document(
    project: Id, proposal: Id, version: nat, price: nat, currency: string, milestones: seq<nat>, bps: nat)

  datatype Contract = Contract(
    project: Id, proposal: Id, employer: Id, freelancer: Id, status: ContractStatus, document: Document)

  datatype Signature = Signature(contract: Id, user: Id, document: Document, key: string)

  // ---- Milestones -------------------------------------------------------------------------------

  datatype MilestoneStatus =
    | Created | Funded | InProgress | Submitted | ChangesRequested | Disputed | Approved | ReleasePending | Released

  datatype MilestoneEvent = MilestoneEvent(from: MilestoneStatus, to: MilestoneStatus)

  /** `commission` is the escrow row: the rate in basis points frozen by the first capture. */
  datatype Milestone = Milestone(
    contract: Id, amount: nat, currency: string, status: MilestoneStatus,
    events: seq<MilestoneEvent>, commission: Option<nat>)

  /** Appends a progress event and overwrites the status with its target. */
  function Move(m: Milestone, from: MilestoneStatus, to: MilestoneStatus): Milestone {
    m.(status := to, events := m.events + [MilestoneEvent(from, to)])
  }

  // ---- Money ------------------------------------------------------------------------------------

  datatype FinancialOperation = FundOperation | ReleaseOperation | RefundOperation | PayoutOperation | ResolveOperation

  /** Scope of an idempotency key: the hash of the key text is modelled as the text itself. */
  datatype IdemKey = IdemKey(user: Id, operation: FinancialOperation, text: string)

  datatype Verdict = ReleaseToFreelancer | RefundClient | Split

  /** The canonical request payload; its hash is modelled as the payload itself. */
  datatype Request =
    | FundRequest(milestone: Id, provider: string)
    | ReleaseRequest(milestone: Id)
    | RefundRequest(milestone: Id, provider: string)
    | PayoutRequest(amount: int, currency: string, provider: string)
    | ResolveRequest(dispute: Id, verdict: Verdict, reason: string, award: Option<int>, refund: Option<int>)

  datatype IdemRecord = IdemRecord(request: Request, response: Option<Response>)

  datatype IntentStatus = IntentPending | IntentCaptured | IntentFailed

  /** `capturedAt` orders captures: it is the number of journals before the capture. */
  datatype Intent = Intent(
    milestone: Id, employer: Id, provider: string, reference: string, key: IdemKey,
    amount: int, currency: string, status: IntentStatus, capturedAt: Option<nat>)

  datatype TransferStatus = Pending | Succeeded | Failed

  datatype Refund = Refund(
    milestone: Id, employer: Id, journal: Id, key: IdemKey, provider: string, reference: Option<string>,
    amount: int, currency: string, status: TransferStatus)

  datatype Payout = Payout(
    freelancer: Id, key: IdemKey, journal: Id, reversal: Option<Id>, provider: string, destination: string,
    reference: Option<string>, amount: int, currency: string, status: TransferStatus)

  // ---- Disputes ---------------------------------------------------------------------------------

  datatype DisputeStatus = Opened | EvidenceCollection | UnderReview | NeedMoreInfo | Resolved

  datatype DisputeEvent = DisputeEvent(from: Option<DisputeStatus>, to: DisputeStatus)

  datatype Decision = Decision(verdict: Verdict, award: int, net: int, refund: int, commission: int, journal: Id)

  datatype Dispute = Dispute(
    milestone: Id, contract: Id, opener: Id, status: DisputeStatus, evidence: seq<Id>,
    events: seq<DisputeEvent>, decision: Option<Decision>)

  /** Appends a dispute event and overwrites the status with its target. */
  function Advance(d: Dispute, from: DisputeStatus, to: DisputeStatus): Dispute {
    d.(status := to, events := d.events + [DisputeEvent(Some(from), to)])
  }

  // ---- Provider events --------------------------------------------------------------------------

  /** Missing or ill-typed webhook fields are None. */
  datatype ProviderEvent =
    | PaymentCaptured(reference: Option<string>, amount: Option<int>, currency: Option<string>)
    | PaymentFailed(reference: Option<string>)
    | OtherEvent(kind: string)

  /** A verified webhook body; `raw` stands for the bytes that carry no meaning but enter the payload hash. */
  datatype Webhook = Webhook(externalId: string, event: ProviderEvent, raw: string)

  /** What a provider call came back with. */
  datatype ProviderResult = ProviderResult(reference: string, status: TransferStatus, amount: int, currency: string)

  datatype ProviderOutcome = TemporaryError | HardError | Returned(result: ProviderResult)

  // ---- Replies ----------------------------------------------------------------------------------

  datatype Body =
    | IntentBody(id: Id, milestone: Id, provider: string, reference: string, amount: int, currency: string,
                 intentStatus: IntentStatus)
    | FinancialBody(milestone: Id, status: MilestoneStatus, contracted: nat, currency: string, escrow: int,
                    commission: Option<nat>)
    | RefundBody(id: Id, milestone: Id, provider: string, refundReference: Option<string>, amount: int,
                 currency: string, transferStatus: TransferStatus)
    | FailedRefundBody(id: Id)
    | PayoutBody(id: Id, provider: string, payoutReference: Option<string>, amount: int, currency: string,
                 transferStatus: TransferStatus)
    | PendingPayoutBody(id: Id)
    | FailedPayoutBody(id: Id)
    | DisputeBody(id: Id, dispute: Dispute)
    | EventBody(externalId: string, duplicate: bool)
    | RowBody(id: Id)

  datatype Response = Response(status: nat, body: Body)

  datatype Error =
    | NotFound | Forbidden | Internal | ConstraintViolated | InvalidInput | InvalidKey | KeyConflict | ContractInactive
    | InvalidTransition | InvalidState | PaymentInProgress | ProviderFailed | PaymentNotFound | PaymentMismatch
    | InvalidWebhook | EventConflict | EscrowNotFound | EscrowOverfund | EscrowNotFullyFunded | NothingToRefund
    | ProviderMismatch | RefundNotConfirmed | JournalRejected | InsufficientFunds | DestinationMissing
    | AlreadyDisputed | AlreadyResolved | AlreadyExists | DocumentChanged

  /** `Calling` ends a reserving transaction: the request goes on to call the provider about that row. */
  datatype Reply = Done(response: Response) | Calling(id: Id) | Raised(error: Error)

  // ---- The database -----------------------------------------------------------------------------

  datatype State = State(
    projects: seq<Project>,
    proposals: seq<Proposal>,
    contracts: seq<Contract>,
    signatures: seq<Signature>,
    milestones: seq<Milestone>,
    intents: seq<Intent>,
    refunds: seq<Refund>,
    payouts: seq<Payout>,
    disputes: seq<Dispute>,
    events: map<(string, string), Webhook>,
    idem: map<IdemKey, IdemRecord>,
    journal: seq<Journal>)

  const Empty: State := State([], [], [], [], [], [], [], [], [], map[], map[], [])

  function EscrowOf(s: State, m: Id): Account
    requires m < |s.milestones|
  {
    Escrow(m, s.milestones[m].currency)
  }

  // ---- What a transaction commits ---------------------------------------------------------------

  /** The write set of one committed transaction. `Nothing` is a rollback or a read. */
  datatype Write =
    | Nothing
    | Remember(key: IdemKey, record: IdemRecord)
    | OpenIntent(key: IdemKey, record: IdemRecord, intent: Intent)
    | NoteEvent(provider: string, hook: Webhook)
    | FailIntent(provider: string, hook: Webhook, id: Id)
    | CaptureIntent(provider: string, hook: Webhook, id: Id)
    | ReleaseMilestone(id: Id, key: IdemKey, record: IdemRecord)
    | ReplayRefund(id: Id)
    | ReserveRefund(id: Id, user: Id, provider: string, key: IdemKey, request: Request)
    | NoteRefund(id: Id, reference: string)
    | SettleRefund(id: Id, reference: string)
    | ReverseRefund(id: Id, noted: Option<string>)
    | ReplayPayout(id: Id)
    | ReservePayout(payout: Payout, request: Request)
    | SettlePayout(id: Id, reference: string)
    | ReversePayout(id: Id)
    | MoveMilestone(id: Id, target: MilestoneStatus)
    | OpenDispute(id: Id, user: Id)
    | AddEvidence(id: Id, file: Id)
    | MoveDispute(id: Id, stage: DisputeStatus)
    | ResolveDispute(id: Id, decision: Decision, refundProvider: string, refundReference: string, key: IdemKey,
                     request: Request)
    | AddProject(project: Project)
    | AddProposal(proposal: Proposal)
    | SetProposal(id: Id, proposal: Proposal)
    | AcceptProposal(id: Id, contract: Contract)
    | AddSignature(signature: Signature)
    | CancelContract(id: Id)
    | CloseProject(id: Id)

  datatype Outcome = Outcome(write: Write, reply: Reply)

  /** A refusal commits nothing: whatever the session had changed is rolled back. */
  predicate Quiet(o: Outcome) { o.reply.Raised? ==> o.write == Nothing }

  function Raise(e: Error): Outcome { Outcome(Nothing, Raised(e)) }
}
