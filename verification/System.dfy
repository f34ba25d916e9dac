/** The whole system: every committed transaction is one step, and a run is any sequence of steps. */
module System {
  import opened Basics
  import opened Records
  import opened Transactions
  import Payments
  import Payouts
  import Milestones
  import Disputes
  import Marketplace

  /**
   One request, webhook delivery or returning provider call. Provider answers, identifiers and texts
   are parameters, so a run covers every interleaving of retries, crashes and provider behaviours:
   a crash is simply the absence of the later step.
   */
  datatype Step =
    | PostProject(user: Id, budgetCurrency: Option<string>)
    | Propose(user: Id, project: Id, price: nat, currency: string, milestones: seq<nat>)
    | Revise(user: Id, proposal: Id, price: nat, currency: string, milestones: seq<nat>)
    | Negotiate(user: Id, proposal: Id, to: ProposalStatus, bps: int)
    | Sign(user: Id, contract: Id, text: string, expected: Document)
    | Cancel(user: Id, contract: Id)
    | Close(user: Id, project: Id)
    | Fund(user: Id, milestone: Id, provider: string, text: string, created: Option<string>)
    | Deliver(provider: string, hook: Webhook)
    | Progress(user: Id, milestone: Id, action: Milestones.Action)
    | Release(user: Id, milestone: Id, text: string)
    | Refund(user: Id, milestone: Id, provider: string, text: string)
    | RefundAnswer(id: Id, verifying: bool, outcome: ProviderOutcome)
    | PayOut(user: Id, amount: int, currency: string, provider: string, text: string, destination: Option<string>)
    | PayoutAnswer(id: Id, outcome: ProviderOutcome)
    | OpenDispute(user: Id, milestone: Id, reason: string)
    | AddEvidence(user: Id, id: Id, file: Id, usable: bool)
    | Review(id: Id, stage: DisputeStatus, reason: string)
    | Resolve(user: Id, id: Id, verdict: Verdict, reason: string, award: Option<int>, refund: Option<int>, text: string,
              outcome: ProviderOutcome)

  /** What a step decides on the committed database: a guarded write and a reply. */
  function Decide(s: State, step: Step): (o: Outcome)
    ensures Lawful(s, o.write) && Quiet(o)
  {
    match step
    case PostProject(user, currency) => Marketplace.Post(s, user, currency)
    case Propose(user, project, price, currency, ms) => Marketplace.Propose(s, user, project, price, currency, ms)
    case Revise(user, proposal, price, currency, ms) => Marketplace.Revise(s, user, proposal, price, currency, ms)
    case Negotiate(user, proposal, to, bps) => Marketplace.Negotiate(s, user, proposal, to, bps)
    case Sign(user, contract, text, expected) => Marketplace.Sign(s, user, contract, text, expected)
    case Cancel(user, contract) => Marketplace.Cancel(s, user, contract)
    case Close(user, project) => Marketplace.Close(s, user, project)
    case Fund(user, m, provider, text, created) => Payments.Fund(s, user, m, provider, text, created)
    case Deliver(provider, hook) => Payments.Deliver(s, provider, hook)
    case Progress(user, m, action) => Milestones.Progress(s, user, m, action)
    case Release(user, m, text) => Payments.Release(s, user, m, text)
    case Refund(user, m, provider, text) => Payments.ReserveRefundOf(s, user, m, provider, text)
    case RefundAnswer(id, verifying, outcome) => Payments.SettleRefundOf(s, id, verifying, outcome)
    case PayOut(user, amount, currency, provider, text, destination) =>
      Payouts.ReservePayoutOf(s, user, amount, currency, provider, text, destination)
    case PayoutAnswer(id, outcome) => Payouts.SettlePayoutOf(s, id, outcome)
    case OpenDispute(user, m, reason) => Disputes.Open(s, user, m, reason)
    case AddEvidence(user, id, file, usable) => Disputes.Evidence(s, user, id, file, usable)
    case Review(id, to, reason) => Disputes.Review(s, id, to, reason)
    case Resolve(user, id, verdict, reason, award, refund, text, outcome) =>
      Disputes.Resolve(s, user, id, verdict, reason, award, refund, text, outcome)
  }

  function Apply(s: State, step: Step): State {
    Commit(s, Decide(s, step).write)
  }

  /** Applies the steps one after another. */
  function Fold(s: State, steps: seq<Step>, next: (State, Step) -> State): State {
    if steps == [] then s else next(Fold(s, steps[..|steps| - 1], next), steps[|steps| - 1])
  }

  /** The database after a run. */
  function Run(s: State, steps: seq<Step>): State {
    Fold(s, steps, Apply)
  }

  /** Some run, with some interleaving of requests, crashes and provider answers, leads to this database. */
  ghost predicate Reached(s: State) {
    exists steps :: Run(Empty, steps) == s
  }
}
