/** Scoped keys: who owns a key, and that a stored answer is never changed. */
module Answers {
  import opened Basics
  import opened Ledger
  import opened Records
  import opened Transactions
  import opened Rows

  predicate IntentAnswered(it: Intent, idem: map<IdemKey, IdemRecord>) {
    it.key in idem && idem[it.key].response.Some?
  }

  /** The stored answer of a refund key is exactly what the refund's status calls for. */
  predicate RefundAnswered(id: Id, r: Refund, idem: map<IdemKey, IdemRecord>) {
    && r.key in idem
    && (if r.key.operation == RefundOperation then idem[r.key].response == RefundResponse(id, r)
        else idem[r.key].response.Some?)
  }

  predicate PayoutAnswered(id: Id, p: Payout, idem: map<IdemKey, IdemRecord>) {
    p.key in idem && idem[p.key].response == PayoutResponse(id, p)
  }

  /** Key and provider reference each own at most one intent, and a milestone has at most one pending intent. */
  predicate IntentKeys(intents: seq<Intent>, idem: map<IdemKey, IdemRecord>) {
    && (forall i :: 0 <= i < |intents| ==> IntentAnswered(intents[i], idem))
    && (forall i, k :: 0 <= i < k < |intents| ==> intents[i].key != intents[k].key)
    && (forall i, k :: 0 <= i < k < |intents| ==> !HasReference(intents[i], intents[k].provider, intents[k].reference))
    && (forall i, k :: 0 <= i < k < |intents| && intents[i].milestone == intents[k].milestone ==>
          intents[i].status != IntentPending || intents[k].status != IntentPending)
  }

  /** Each key owns at most one refund. */
  predicate RefundKeys(refunds: seq<Refund>, idem: map<IdemKey, IdemRecord>) {
    && (forall r :: 0 <= r < |refunds| ==> RefundAnswered(r, refunds[r], idem))
    && (forall r, k :: 0 <= r < k < |refunds| ==> refunds[r].key != refunds[k].key)
  }

  /** Each key owns at most one payout. */
  predicate PayoutKeys(payouts: seq<Payout>, idem: map<IdemKey, IdemRecord>) {
    && (forall p :: 0 <= p < |payouts| ==> PayoutAnswered(p, payouts[p], idem))
    && (forall p, k :: 0 <= p < k < |payouts| ==> payouts[p].key != payouts[k].key)
  }

  /** An answered key keeps its request and its answer. */
  predicate AnswersStay(before: map<IdemKey, IdemRecord>, after: map<IdemKey, IdemRecord>) {
    forall key :: key in before && before[key].response.Some? ==> key in after && after[key] == before[key]
  }

  lemma AnswersKept(s: State, w: Write)
    requires Guarded(s, w) && RefundsOk(s.refunds, s.milestones)
    requires RefundKeys(s.refunds, s.idem) && PayoutKeys(s.payouts, s.idem)
    ensures AnswersStay(s.idem, IdemAfter(s, w))
  {
  }

  /** The key a write records under. */
  function KeyOf(s: State, w: Write): Option<IdemKey>
    requires Addresses(s, w)
  {
    match w
    case Remember(key, _) => Some(key)
    case OpenIntent(key, _, _) => Some(key)
    case ReleaseMilestone(_, key, _) => Some(key)
    case ReplayRefund(id) => Some(s.refunds[id].key)
    case ReserveRefund(_, _, _, key, _) => Some(key)
    case SettleRefund(id, _) => Some(s.refunds[id].key)
    case ReverseRefund(id, _) => Some(s.refunds[id].key)
    case ReplayPayout(id) => Some(s.payouts[id].key)
    case ReservePayout(p, _) => Some(p.key)
    case SettlePayout(id, _) => Some(s.payouts[id].key)
    case ReversePayout(id) => Some(s.payouts[id].key)
    case ResolveDispute(_, _, _, _, key, _) => Some(key)
    case _ => None
  }

  /** A write touches the record of its own key only. */
  lemma OtherKeysStay(s: State, w: Write, key: IdemKey)
    requires Addresses(s, w) && KeyOf(s, w) != Some(key)
    ensures key in IdemAfter(s, w) <==> key in s.idem
    ensures key in s.idem ==> IdemAfter(s, w)[key] == s.idem[key]
  {
  }

  lemma IntentsStay(intents: seq<Intent>, before: map<IdemKey, IdemRecord>, after: map<IdemKey, IdemRecord>)
    requires IntentKeys(intents, before) && AnswersStay(before, after)
    ensures IntentKeys(intents, after)
  {
  }

  lemma IntentSet(intents: seq<Intent>, idem: map<IdemKey, IdemRecord>, id: Id, row: Intent)
    requires IntentKeys(intents, idem) && id < |intents| && row.status != IntentPending
    requires row == intents[id].(status := row.status, capturedAt := row.capturedAt)
    ensures IntentKeys(intents[id := row], idem)
  {
  }

  lemma IntentAdded(s: State, idem: map<IdemKey, IdemRecord>, it: Intent)
    requires IntentKeys(s.intents, idem) && IntentAnswered(it, idem)
    requires NoIntentFor(s, it.key) && NoIntentWith(s, it.provider, it.reference) && NoPendingIntent(s, it.milestone)
    ensures IntentKeys(s.intents + [it], idem)
  {
  }

  /** A new intent is announced by its guard; any other write keeps who owns which intent and opens none again. */
  lemma IntentRowsKept(s: State, w: Write)
    requires Addresses(s, w) && (w.OpenIntent? ==> CanOpenIntent(s, w.key, w.record, w.intent))
    requires AnswersStay(s.idem, IdemAfter(s, w)) && IntentKeys(s.intents, s.idem)
    ensures IntentKeys(IntentsAfter(s, w), IdemAfter(s, w))
  {
    hide IntentKeys, AnswersStay;
    IntentsStay(s.intents, s.idem, IdemAfter(s, w));
    match w {
      case OpenIntent(_, _, it) => IntentAdded(s, IdemAfter(s, w), it);
      case FailIntent(_, _, id) => IntentSet(s.intents, IdemAfter(s, w), id, IntentsAfter(s, w)[id]);
      case CaptureIntent(_, _, id) => IntentSet(s.intents, IdemAfter(s, w), id, IntentsAfter(s, w)[id]);
      case _ =>
    }
  }

  lemma IntentKeysKept(s: State, w: Write)
    requires Guarded(s, w) && AnswersStay(s.idem, IdemAfter(s, w)) && IntentKeys(s.intents, s.idem)
    ensures IntentKeys(IntentsAfter(s, w), IdemAfter(s, w))
  {
    hide IntentKeys, AnswersStay, IdemAfter, IntentsAfter, CanOpenIntent;
    IntentRowsKept(s, w);
  }

  /** What the guards say about the key of a write, as far as refunds are concerned. */
  lemma RefundKeyFacts(s: State, w: Write)
    requires Guarded(s, w) && RefundsOk(s.refunds, s.milestones) && PayoutsOk(s.payouts)
    ensures w.Remember? || w.OpenIntent? || w.ReleaseMilestone? ==> w.key.operation in {FundOperation, ReleaseOperation}
    ensures w.ReservePayout? || w.ReplayPayout? || w.SettlePayout? || w.ReversePayout? ==>
      KeyOf(s, w).value.operation == PayoutOperation
    ensures w.ReserveRefund? ==> w.key.operation == RefundOperation && NoRefundFor(s, w.key)
    ensures w.ResolveDispute? ==> w.key.operation == ResolveOperation && Unanswered(s, w.key)
    ensures w.ReplayRefund? ==> s.refunds[w.id].key.operation == RefundOperation
    ensures w.NoteRefund? || w.SettleRefund? || w.ReverseRefund? ==>
      s.refunds[w.id].status == Pending && s.refunds[w.id].key.operation == RefundOperation
  {
    hide CanCapture, CanRelease, CanResolve, CanAccept, CanSign, CanCancel, CanClose, CanRevise, CanMove, CanDispute;
  }

  /** A write under another key leaves a refund's answer as it was. */
  lemma OtherRefund(s: State, w: Write, r: Id)
    requires Addresses(s, w) && r < |s.refunds| && RefundAnswered(r, s.refunds[r], s.idem)
    requires KeyOf(s, w) != Some(s.refunds[r].key) && (w.NoteRefund? ==> s.refunds[w.id].status == Pending)
    ensures RefundAnswered(r, RefundsAfter(s, w)[r], IdemAfter(s, w))
  {
    OtherKeysStay(s, w, s.refunds[r].key);
    hide IdemAfter;
  }

  /**
   Only replaying or settling a refund writes under its key again, and then it stores what the new status
   calls for.
   */
  lemma OwnRefund(s: State, w: Write, r: Id)
    requires Guarded(s, w) && RefundsOk(s.refunds, s.milestones) && PayoutsOk(s.payouts)
    requires RefundKeys(s.refunds, s.idem)
    requires r < |s.refunds| && KeyOf(s, w) == Some(s.refunds[r].key)
    ensures w.ReplayRefund? || w.SettleRefund? || w.ReverseRefund?
    ensures w.id == r && s.refunds[r].key.operation == RefundOperation
  {
    assert Addresses(s, w) && RefundOk(s.refunds[r], s.milestones) && RefundAnswered(r, s.refunds[r], s.idem);
    RefundKeyFacts(s, w);
    hide Guarded, RefundsOk, PayoutsOk, RefundResponse;
  }

  lemma RefundRowAnswered(s: State, w: Write, r: Id)
    requires Guarded(s, w) && RefundsOk(s.refunds, s.milestones) && PayoutsOk(s.payouts)
    requires RefundKeys(s.refunds, s.idem) && r < |RefundsAfter(s, w)|
    ensures RefundAnswered(r, RefundsAfter(s, w)[r], IdemAfter(s, w))
  {
    assert Addresses(s, w);
    RefundKeyFacts(s, w);
    hide Guarded, RefundsOk, PayoutsOk, Balance;
    if r < |s.refunds| {
      if KeyOf(s, w) == Some(s.refunds[r].key) {
        OwnRefund(s, w, r);
      } else {
        OtherRefund(s, w, r);
      }
    }
  }

  lemma RefundKeysKept(s: State, w: Write)
    requires Guarded(s, w) && RefundsOk(s.refunds, s.milestones) && PayoutsOk(s.payouts)
    requires RefundKeys(s.refunds, s.idem)
    ensures RefundKeys(RefundsAfter(s, w), IdemAfter(s, w))
  {
    forall r | 0 <= r < |RefundsAfter(s, w)| ensures RefundAnswered(r, RefundsAfter(s, w)[r], IdemAfter(s, w)) {
      RefundRowAnswered(s, w, r);
    }
  }

  lemma PayoutRowAnswered(s: State, w: Write, p: Id)
    requires Guarded(s, w) && RefundsOk(s.refunds, s.milestones) && PayoutsOk(s.payouts)
    requires PayoutKeys(s.payouts, s.idem) && p < |PayoutsAfter(s, w)|
    ensures PayoutAnswered(p, PayoutsAfter(s, w)[p], IdemAfter(s, w))
  {
    var row := PayoutsAfter(s, w)[p];
    if KeyOf(s, w) != Some(row.key) {
      OtherKeysStay(s, w, row.key);
    }
  }

  lemma PayoutKeysKept(s: State, w: Write)
    requires Guarded(s, w) && RefundsOk(s.refunds, s.milestones) && PayoutsOk(s.payouts)
    requires PayoutKeys(s.payouts, s.idem)
    ensures PayoutKeys(PayoutsAfter(s, w), IdemAfter(s, w))
  {
    forall p | 0 <= p < |PayoutsAfter(s, w)| ensures PayoutAnswered(p, PayoutsAfter(s, w)[p], IdemAfter(s, w)) {
      PayoutRowAnswered(s, w, p);
    }
  }

  // ---- Requests ---------------------------------------------------------------------------------

  /** Every recorded request is in the scope of its key. */
  predicate RequestsOk(idem: map<IdemKey, IdemRecord>, milestones: seq<Milestone>, contracts: seq<Contract>,
                       disputes: seq<Dispute>) {
    forall key :: key in idem ==> Scoped(milestones, contracts, disputes, key, idem[key].request)
  }

  /** Rows are only added and keep what requests rely on. */
  lemma ScopeStays(s: State, w: Write, key: IdemKey, request: Request)
    requires Addresses(s, w) && Scoped(s.milestones, s.contracts, s.disputes, key, request)
    ensures Scoped(MilestonesAfter(s, w), ContractsAfter(s, w), DisputesAfter(s, w), key, request)
  {
    MilestonesExtend(s, w);
  }

  lemma RequestStep(s: State, w: Write, key: IdemKey)
    requires Guarded(s, w) && WellScoped(s, w) && RequestsOk(s.idem, s.milestones, s.contracts, s.disputes)
    requires key in IdemAfter(s, w)
    ensures Scoped(s.milestones, s.contracts, s.disputes, key, IdemAfter(s, w)[key].request)
  {
    if KeyOf(s, w) != Some(key) {
      OtherKeysStay(s, w, key);
    }
  }

  lemma RequestsKept(s: State, w: Write)
    requires Guarded(s, w) && WellScoped(s, w) && RequestsOk(s.idem, s.milestones, s.contracts, s.disputes)
    ensures RequestsOk(IdemAfter(s, w), MilestonesAfter(s, w), ContractsAfter(s, w), DisputesAfter(s, w))
  {
    forall key | key in IdemAfter(s, w)
      ensures Scoped(MilestonesAfter(s, w), ContractsAfter(s, w), DisputesAfter(s, w), key,
                     IdemAfter(s, w)[key].request)
    {
      RequestStep(s, w, key);
      ScopeStays(s, w, key, IdemAfter(s, w)[key].request);
    }
  }
}
