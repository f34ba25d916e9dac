/** Idempotent replay: what a client that repeats a request sees, at any later time. */
module Replay {
  import opened Basics
  import opened Records
  import opened Transactions
  import opened Rows
  import opened Answers
  import opened Invariant
  import opened System
  import Disputes
  import Payments
  import Payouts

  datatype Claim = Claim(key: IdemKey, request: Request)

  /** The key and payload under which a step claims its answer. */
  function Claimed(step: Step): Option<Claim> {
    match step
    case Fund(user, m, provider, text, _) => Some(Claim(IdemKey(user, FundOperation, text), FundRequest(m, provider)))
    case Release(user, m, text) => Some(Claim(IdemKey(user, ReleaseOperation, text), ReleaseRequest(m)))
    case Refund(user, m, provider, text) => Some(Claim(IdemKey(user, RefundOperation, text),
                                                       RefundRequest(m, provider)))
    case PayOut(user, amount, currency, provider, text, _) =>
      Some(Claim(IdemKey(user, PayoutOperation, text), PayoutRequest(amount, currency, provider)))
    case Resolve(user, id, verdict, reason, award, refund, text, _) =>
      Some(Claim(IdemKey(user, ResolveOperation, text), ResolveRequest(id, verdict, reason, award, refund)))
    case _ => None
  }

  predicate Answered(idem: map<IdemKey, IdemRecord>, c: Claim, response: Response) {
    c.key in idem && idem[c.key] == IdemRecord(c.request, Some(response))
  }

  /** The contract check that the milestone operations make before they look at the key. */
  predicate GateOpen(s: State, request: Request) {
    match request
    case FundRequest(m, _) => ActiveMilestone(s, m)
    case ReleaseRequest(m) => ActiveMilestone(s, m)
    case RefundRequest(m, _) => ActiveMilestone(s, m)
    case _ => true
  }

  // ---- Records never change ---------------------------------------------------------------------

  /** Recorded keys stay recorded for the same request, and answers stay. */
  predicate RecordsStay(before: map<IdemKey, IdemRecord>, after: map<IdemKey, IdemRecord>) {
    && AnswersStay(before, after)
    && forall key :: key in before ==> key in after && after[key].request == before[key].request
  }

  lemma RequestStays(s: State, w: Write, key: IdemKey)
    requires Addresses(s, w) && WellScoped(s, w) && key in s.idem
    ensures key in IdemAfter(s, w) && IdemAfter(s, w)[key].request == s.idem[key].request
  {
    if KeyOf(s, w) != Some(key) {
      OtherKeysStay(s, w, key);
    }
  }

  lemma RecordsKept(s: State, w: Write)
    requires Lawful(s, w) && RefundsOk(s.refunds, s.milestones) && RefundKeys(s.refunds, s.idem)
    requires PayoutKeys(s.payouts, s.idem)
    ensures RecordsStay(s.idem, IdemAfter(s, w))
  {
    AnswersKept(s, w);
    forall key | key in s.idem ensures key in IdemAfter(s, w) && IdemAfter(s, w)[key].request == s.idem[key].request {
      RequestStays(s, w, key);
    }
  }

  lemma RecordsStep(s: State, step: Step)
    requires Inv(s)
    ensures RecordsStay(s.idem, Apply(s, step).idem)
  {
    hide RecordsStay, RefundKeys, PayoutKeys, RefundsOk;
    RecordsKept(s, Decide(s, step).write);
  }

  lemma {:induction false} RecordsKeep(s: State, steps: seq<Step>)
    requires Inv(s)
    ensures RecordsStay(s.idem, Run(s, steps).idem)
  {
    hide Apply, Decide, Inv;
    if steps != [] {
      var front := steps[..|steps| - 1];
      RecordsKeep(s, front);
      RunKeeps(s, front);
      RecordsStep(Run(s, front), steps[|steps| - 1]);
    }
  }

  /** Over every run a recorded key keeps its request, and once answered it keeps its answer. */
  lemma RecordsForever(s: State, steps: seq<Step>)
    requires Reached(s)
    ensures RecordsStay(s.idem, Run(s, steps).idem)
  {
    hide Run, Inv, RecordsStay;
    ReachedInv(s);
    RecordsKeep(s, steps);
  }

  // ---- Repeating a request ----------------------------------------------------------------------

  /** A repeated request gets the stored answer and changes nothing, unless its contract is no longer active. */
  lemma Repeated(s: State, step: Step, response: Response)
    requires RequestsOk(s.idem, s.milestones, s.contracts, s.disputes)
    requires Claimed(step).Some? && Answered(s.idem, Claimed(step).value, response)
    ensures Decide(s, step) ==
      if GateOpen(s, Claimed(step).value.request) then Outcome(Nothing, Done(response)) else Raise(ContractInactive)
  {
    var c := Claimed(step).value;
    assert Scoped(s.milestones, s.contracts, s.disputes, c.key, c.request);
  }

  predicate Refuses(s: State, step: Step) {
    Decide(s, step).write == Nothing && Decide(s, step).reply.Raised?
  }

  /** Another payload under a recorded key is refused and changes nothing. */
  lemma Conflicting(s: State, step: Step)
    requires Claimed(step).Some? && Claimed(step).value.key in s.idem
    requires s.idem[Claimed(step).value.key].request != Claimed(step).value.request
    ensures Refuses(s, step)
  {
  }

  lemma FundStores(s: State, user: Id, m: Id, provider: string, text: string, created: Option<string>)
    requires Payments.Fund(s, user, m, provider, text, created).reply.Done?
    ensures var o := Payments.Fund(s, user, m, provider, text, created);
      Answered(IdemAfter(s, o.write), Claim(IdemKey(user, FundOperation, text), FundRequest(m, provider)),
               o.reply.response)
  {
  }

  lemma ReleaseStores(s: State, user: Id, m: Id, text: string)
    requires Payments.Release(s, user, m, text).reply.Done?
    ensures var o := Payments.Release(s, user, m, text);
      Answered(IdemAfter(s, o.write), Claim(IdemKey(user, ReleaseOperation, text), ReleaseRequest(m)), o.reply.response)
  {
  }

  lemma RefundStores(s: State, user: Id, m: Id, provider: string, text: string)
    requires Payments.ReserveRefundOf(s, user, m, provider, text).reply.Done?
    ensures var o := Payments.ReserveRefundOf(s, user, m, provider, text);
      Answered(IdemAfter(s, o.write), Claim(IdemKey(user, RefundOperation, text), RefundRequest(m, provider)),
               o.reply.response)
  {
  }

  lemma PayoutStores(s: State, user: Id, amount: int, currency: string, provider: string, text: string,
                     destination: Option<string>)
    requires Payouts.ReservePayoutOf(s, user, amount, currency, provider, text, destination).reply.Done?
    ensures var o := Payouts.ReservePayoutOf(s, user, amount, currency, provider, text, destination);
      Answered(IdemAfter(s, o.write), Claim(IdemKey(user, PayoutOperation, text),
                                            PayoutRequest(amount, currency, provider)),
               o.reply.response)
  {
  }

  lemma ResolveStores(s: State, user: Id, id: Id, verdict: Verdict, reason: string, award: Option<int>,
                      refund: Option<int>,
                      text: string, confirmed: ProviderOutcome)
    requires Disputes.Resolve(s, user, id, verdict, reason, award, refund, text, confirmed).reply.Done?
    ensures var o := Disputes.Resolve(s, user, id, verdict, reason, award, refund, text, confirmed);
      Answered(IdemAfter(s, o.write), Claim(IdemKey(user, ResolveOperation, text),
                                            ResolveRequest(id, verdict, reason, award, refund)),
               o.reply.response)
  {
    hide Lawful, Disputes.Adjudicate, Scoped, ValidText, ResolvedDispute;
  }

  /** An answer a service gives under a key is the answer it stores. */
  lemma AnswerIsStored(s: State, step: Step)
    requires Claimed(step).Some? && Decide(s, step).reply.Done?
    ensures Answered(IdemAfter(s, Decide(s, step).write), Claimed(step).value, Decide(s, step).reply.response)
  {
    match step {
      case Fund(user, m, provider, text, created) => FundStores(s, user, m, provider, text, created);
      case Release(user, m, text) => ReleaseStores(s, user, m, text);
      case Refund(user, m, provider, text) => RefundStores(s, user, m, provider, text);
      case PayOut(user, amount, currency, provider, text, destination) =>
        PayoutStores(s, user, amount, currency, provider, text, destination);
      case Resolve(user, id, verdict, reason, award, refund, text, outcome) =>
        ResolveStores(s, user, id, verdict, reason, award, refund, text, outcome);
    }
  }

  // ---- Over runs --------------------------------------------------------------------------------

  lemma StoredByStep(s: State, step: Step)
    requires Claimed(step).Some? && Decide(s, step).reply.Done?
    ensures Answered(Apply(s, step).idem, Claimed(step).value, Decide(s, step).reply.response)
  {
    AnswerIsStored(s, step);
    hide Decide, Answered;
  }

  /** What repeating `again` does once its request has been answered with `first`. */
  predicate SeesAnswer(s: State, again: Step, first: Reply)
    requires Claimed(again).Some?
  {
    var o := Decide(s, again);
    var gate := GateOpen(s, Claimed(again).value.request);
    && (o == Outcome(Nothing, first) <==> gate)
    && (!gate ==> o == Raise(ContractInactive))
    && o.write == Nothing
  }

  lemma AnsweredSees(s: State, again: Step, response: Response)
    requires Reached(s) && Claimed(again).Some? && Answered(s.idem, Claimed(again).value, response)
    ensures SeesAnswer(s, again, Done(response))
  {
    hide Run;
    ReachedInv(s);
    hide RequestsOk, RowsOk, BooksOk, Answered;
    Repeated(s, again, response);
    hide Decide, GateOpen;
  }

  lemma LaterSees(s: State, more: seq<Step>, again: Step, response: Response)
    requires Reached(s) && Claimed(again).Some? && Answered(s.idem, Claimed(again).value, response)
    ensures SeesAnswer(Run(s, more), again, Done(response))
  {
    hide Run, SeesAnswer, Claimed;
    RecordsForever(s, more);
    ReachedOn(s, more);
    AnsweredSees(Run(s, more), again, response);
  }

  /**
   Whoever got an answer once gets the same answer for the same request at any later time, whatever the
   provider would say now, and the database does not change: exactly when the milestone's contract is still
   active. The contract is checked before the key, so on a contract that is not the repeat is refused.
   */
  lemma RetrySeesFirstAnswer(s: State, step: Step, more: seq<Step>, again: Step)
    requires Reached(s) && Claimed(step).Some? && Claimed(again) == Claimed(step) && Decide(s, step).reply.Done?
    ensures SeesAnswer(Run(Apply(s, step), more), again, Decide(s, step).reply)
  {
    hide Run, SeesAnswer, Claimed, Answered;
    ReachedNext(s, step);
    StoredByStep(s, step);
    LaterSees(Apply(s, step), more, again, Decide(s, step).reply.response);
  }

  // ---- Final answers ----------------------------------------------------------------------------

  /** The request that a provider's answer belongs to: the one recorded under the key of its refund or payout. */
  function Settles(s: State, step: Step): Option<Claim> {
    match step
    case RefundAnswer(id, _, _) =>
      if id < |s.refunds| && s.refunds[id].key in s.idem then
        Some(Claim(s.refunds[id].key, s.idem[s.refunds[id].key].request))
      else None
    case PayoutAnswer(id, _) =>
      if id < |s.payouts| && s.payouts[id].key in s.idem then
        Some(Claim(s.payouts[id].key, s.idem[s.payouts[id].key].request))
      else None
    case _ => None
  }

  /** 202 and 503 say that a refund or payout is still under way; any other answer is final. */
  predicate Final(reply: Reply) { reply.Done? && reply.response.status !in {202, 503} }

  lemma RefundFinal(s: State, id: Id, verifying: bool, outcome: ProviderOutcome)
    requires Final(Payments.SettleRefundOf(s, id, verifying, outcome).reply)
    ensures id < |s.refunds| && s.refunds[id].key in s.idem
    ensures var o := Payments.SettleRefundOf(s, id, verifying, outcome);
      Answered(IdemAfter(s, o.write), Claim(s.refunds[id].key, s.idem[s.refunds[id].key].request), o.reply.response)
  {
    hide Guarded, WellPosted, WellScoped;
  }

  lemma PayoutFinal(s: State, id: Id, outcome: ProviderOutcome)
    requires Final(Payouts.SettlePayoutOf(s, id, outcome).reply)
    ensures id < |s.payouts| && s.payouts[id].key in s.idem
    ensures var o := Payouts.SettlePayoutOf(s, id, outcome);
      Answered(IdemAfter(s, o.write), Claim(s.payouts[id].key, s.idem[s.payouts[id].key].request), o.reply.response)
  {
    hide Guarded, WellPosted, WellScoped;
  }

  /** The final answer of a refund or payout is stored under the key of the request that started it. */
  lemma FinalIsStored(s: State, step: Step)
    requires (step.RefundAnswer? || step.PayoutAnswer?) && Final(Decide(s, step).reply)
    ensures Settles(s, step).Some?
    ensures Answered(IdemAfter(s, Decide(s, step).write), Settles(s, step).value, Decide(s, step).reply.response)
  {
    hide Guarded, WellPosted, WellScoped, Payments.SettleRefundOf, Payouts.SettlePayoutOf, IdemAfter, Final, Answered;
    match step {
      case RefundAnswer(id, verifying, outcome) => RefundFinal(s, id, verifying, outcome);
      case PayoutAnswer(id, outcome) => PayoutFinal(s, id, outcome);
    }
  }

  lemma FinalStoredByStep(s: State, step: Step)
    requires (step.RefundAnswer? || step.PayoutAnswer?) && Final(Decide(s, step).reply)
    ensures Settles(s, step).Some?
    ensures Answered(Apply(s, step).idem, Settles(s, step).value, Decide(s, step).reply.response)
  {
    FinalIsStored(s, step);
    hide Decide, Answered, Settles;
  }

  /**
   The final answer of a refund or payout is what everyone who repeats its request gets at any later time, under
   the same condition on the contract, and the database does not change.
   */
  lemma RetrySeesFinalAnswer(s: State, step: Step, more: seq<Step>, again: Step)
    requires Reached(s) && (step.RefundAnswer? || step.PayoutAnswer?) && Final(Decide(s, step).reply)
    requires Claimed(again).Some? && Claimed(again) == Settles(s, step)
    ensures SeesAnswer(Run(Apply(s, step), more), again, Decide(s, step).reply)
  {
    hide Run, SeesAnswer, Claimed, Answered, Settles;
    ReachedNext(s, step);
    FinalStoredByStep(s, step);
    LaterSees(Apply(s, step), more, again, Decide(s, step).reply.response);
  }

  /** Another payload under a key that was ever recorded is refused and changes nothing, at any later time. */
  lemma ConflictForever(s: State, more: seq<Step>, step: Step)
    requires Reached(s) && Claimed(step).Some? && Claimed(step).value.key in s.idem
    requires s.idem[Claimed(step).value.key].request != Claimed(step).value.request
    ensures Refuses(Run(s, more), step)
  {
    hide Run, Refuses, Claimed;
    RecordsForever(s, more);
    Conflicting(Run(s, more), step);
  }

  /** Each key owns at most one intent, refund and payout, and each milestone has at most one PENDING intent. */
  predicate OneRowPerKey(s: State) {
    && (forall i, k :: 0 <= i < k < |s.intents| ==> s.intents[i].key != s.intents[k].key)
    && (forall i, k :: 0 <= i < k < |s.refunds| ==> s.refunds[i].key != s.refunds[k].key)
    && (forall i, k :: 0 <= i < k < |s.payouts| ==> s.payouts[i].key != s.payouts[k].key)
    && (forall i, k :: 0 <= i < k < |s.intents| && s.intents[i].milestone == s.intents[k].milestone ==>
          s.intents[i].status != IntentPending || s.intents[k].status != IntentPending)
  }

  lemma KeysOwnOne(s: State)
    requires Reached(s)
    ensures OneRowPerKey(s)
  {
    hide Run;
    ReachedInv(s);
  }
}
