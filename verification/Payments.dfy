/** Funding, capture, release and refund of milestone escrow. Each function is one transaction. */
module Payments {
  import opened Basics
  import opened Ledger
  import opened Records
  import opened Transactions
  import opened Idempotency

  predicate ForKey(it: Intent, key: IdemKey) { it.key == key }
  predicate PendingOn(it: Intent, m: Id) { it.milestone == m && it.status == IntentPending }

  /** The checks fund, release and refund make before they look at the key: an active contract and its employer. */
  function EmployerGate(s: State, user: Id, m: Id): (refused: Option<Error>)
    ensures refused.None? ==> ActiveMilestone(s, m) && EmployerOf(s.milestones, s.contracts, m, user)
  {
    if m >= |s.milestones| then Some(NotFound)
    else if s.milestones[m].contract >= |s.contracts| then Some(Internal)
    else if !ActiveMilestone(s, m) then Some(ContractInactive)
    else if user != s.contracts[s.milestones[m].contract].employer then Some(Forbidden)
    else None
  }

  /** fund_milestone. `created` is the provider's payment reference, or None when the provider call raised. */
  function Fund(s: State, user: Id, m: Id, provider: string, text: string, created: Option<string>): (o: Outcome)
    ensures Lawful(s, o.write) && Quiet(o)
  {
    var refused := EmployerGate(s, user, m);
    if refused.Some? then Raise(refused.value)
    else
      var key := IdemKey(user, FundOperation, text);
      match ClaimKey(s.idem, key, FundRequest(m, provider))
      case Refused(e) => Raise(e)
      case Replay(response) => Outcome(Nothing, Done(response))
      case Proceed => StartPayment(s, m, provider, key, created)
  }

  /** fund_milestone once the key is claimed: joins the key's own or a pending payment, or opens a new one. */
  function StartPayment(s: State, m: Id, provider: string, key: IdemKey, created: Option<string>): (o: Outcome)
    requires ActiveMilestone(s, m) && key.operation == FundOperation && Unanswered(s, key)
    requires ClaimedFor(s, key, FundRequest(m, provider))
    ensures Lawful(s, o.write) && Quiet(o)
  {
    var request := FundRequest(m, provider);
    if s.milestones[m].status != Created then Raise(InvalidTransition)
    else
      var existing := LastWhere(s.intents, (it: Intent) => ForKey(it, key));
      var pending := LastWhere(s.intents, (it: Intent) => PendingOn(it, m));
      if existing.Some? then
        var status := if s.intents[existing.value].status == IntentCaptured then 200 else 202;
        var response := Response(status, IntentResponse(s, existing.value));
        Outcome(Remember(key, IdemRecord(request, Some(response))), Done(response))
      else if pending.Some? then
        if s.intents[pending.value].provider != provider then Raise(PaymentInProgress)
        else
          var response := Response(202, IntentResponse(s, pending.value));
          Outcome(Remember(key, IdemRecord(request, Some(response))), Done(response))
      else if created.None? then Raise(ProviderFailed)
      else if s.milestones[m].amount == 0 then Raise(ConstraintViolated)
      else if LastWhere(s.intents, (it: Intent) => HasReference(it, provider, created.value)).Some? then
        Raise(ConstraintViolated)
      else
        var it := Intent(m, key.user, provider, created.value, key, s.milestones[m].amount, s.milestones[m].currency,
                         IntentPending, None);
        var response := Response(202, IntentBody(|s.intents|, m, provider, it.reference, it.amount, it.currency,
                                                 it.status));
        Outcome(OpenIntent(key, IdemRecord(request, Some(response)), it), Done(response))
  }

  function Present(field: Option<string>): bool { field.Some? && field.value != "" }

  /** The check of _capture_intent that an uncaptured intent fails, if any. */
  function CaptureFailure(s: State, i: Id): (failure: Option<Error>)
    requires i < |s.intents| && s.intents[i].status != IntentCaptured
    ensures failure.None? ==> CanCapture(s, i) && Acceptable(FundEntry(s, i).entries)
  {
    var it := s.intents[i];
    if it.milestone >= |s.milestones| then Some(NotFound)
    else if s.milestones[it.milestone].contract >= |s.contracts| then Some(Internal)
    else if !ActiveMilestone(s, it.milestone) then Some(ContractInactive)
    else if s.milestones[it.milestone].status !in {Created, Funded} then Some(InvalidTransition)
    else if Balance(s.journal, EscrowOf(s, it.milestone)) + it.amount > s.milestones[it.milestone].amount then
        Some(EscrowOverfund)
    else if !Acceptable(FundEntry(s, i).entries) then Some(JournalRejected)
    else None
  }

  /** process_provider_webhook, after signature verification. */
  function Deliver(s: State, provider: string, hook: Webhook): (o: Outcome)
    ensures Lawful(s, o.write) && Quiet(o)
  {
    if (provider, hook.externalId) in s.events then
      if s.events[(provider, hook.externalId)] != hook then Raise(EventConflict)
      else Outcome(Nothing, Done(Response(200, EventBody(hook.externalId, true))))
    else
      var processed := Done(Response(200, EventBody(hook.externalId, false)));
      match hook.event
      case OtherEvent(_) => Outcome(NoteEvent(provider, hook), processed)
      case PaymentFailed(reference) =>
        if !Present(reference) then Raise(InvalidWebhook)
        else
          var found := LastWhere(s.intents, (it: Intent) => HasReference(it, provider, reference.value));
          if found.Some? && s.intents[found.value].status != IntentCaptured
          then Outcome(FailIntent(provider, hook, found.value), processed)
          else Outcome(NoteEvent(provider, hook), processed)
      case PaymentCaptured(reference, amount, currency) =>
        if !Present(reference) || amount.None? || !Present(currency) then Raise(InvalidWebhook)
        else
          var found := LastWhere(s.intents, (it: Intent) => HasReference(it, provider, reference.value));
          if found.None? then Raise(PaymentNotFound)
          else
            var it := s.intents[found.value];
            if it.amount != amount.value || it.currency != currency.value then Raise(PaymentMismatch)
            else if it.status == IntentCaptured then Outcome(NoteEvent(provider, hook), processed)
            else
              var failure := CaptureFailure(s, found.value);
              if failure.Some? then Raise(failure.value)
                  else Outcome(CaptureIntent(provider, hook, found.value), processed)
  }

  /** release_milestone. */
  function Release(s: State, user: Id, m: Id, text: string): (o: Outcome)
    ensures Lawful(s, o.write) && Quiet(o)
  {
    var refused := EmployerGate(s, user, m);
    if refused.Some? then Raise(refused.value)
    else
      var key := IdemKey(user, ReleaseOperation, text);
      match ClaimKey(s.idem, key, ReleaseRequest(m))
      case Refused(e) => Raise(e)
      case Replay(response) => Outcome(Nothing, Done(response))
      case Proceed => StartRelease(s, m, key)
  }

  /** release_milestone once the key is claimed. */
  function StartRelease(s: State, m: Id, key: IdemKey): (o: Outcome)
    requires ActiveMilestone(s, m) && key.operation == ReleaseOperation && Unanswered(s, key)
    requires ClaimedFor(s, key, ReleaseRequest(m))
    ensures Lawful(s, o.write) && Quiet(o)
  {
    var row := s.milestones[m];
    var request := ReleaseRequest(m);
    if row.status == Released then
      var response := Response(200, FinancialState(m, row, s.journal));
      Outcome(Remember(key, IdemRecord(request, Some(response))), Done(response))
    else if row.status != Approved then Raise(InvalidTransition)
    else if row.commission.None? then Raise(EscrowNotFound)
    else if Balance(s.journal, EscrowOf(s, m)) != row.amount then Raise(EscrowNotFullyFunded)
    else ReleaseEscrow(s, m, key, request)
  }

  /** Posts the release journal and moves the milestone through RELEASE_PENDING to RELEASED. */
  function ReleaseEscrow(s: State, m: Id, key: IdemKey, request: Request): (o: Outcome)
    requires ActiveMilestone(s, m) && s.milestones[m].status == Approved && s.milestones[m].commission.Some?
    requires Balance(s.journal, EscrowOf(s, m)) == s.milestones[m].amount
    requires key.operation == ReleaseOperation && Unanswered(s, key)
    requires ClaimedFor(s, key, request)
    ensures Lawful(s, o.write) && Quiet(o)
  {
    var row := s.milestones[m];
    if !Acceptable(ReleaseEntry(s, m).entries) then Raise(JournalRejected)
    else
      var response := Response(200, FinancialState(m, ReleasedMilestone(row), Append(s.journal, ReleaseEntry(s, m))));
      Outcome(ReleaseMilestone(m, key, IdemRecord(request, Some(response))), Done(response))
  }

  predicate RefundFor(r: Refund, key: IdemKey) { r.key == key }
  predicate CapturedBy(it: Intent, m: Id, provider: string) { CapturedOn(it, m) && it.provider == provider }

  /** refund_milestone up to its first commit: reserves the escrow, or picks up the refund of a repeated key. */
  function ReserveRefundOf(s: State, user: Id, m: Id, provider: string, text: string): (o: Outcome)
    ensures Lawful(s, o.write) && Quiet(o)
  {
    var refused := EmployerGate(s, user, m);
    if refused.Some? then Raise(refused.value)
    else
      var key := IdemKey(user, RefundOperation, text);
      match ClaimKey(s.idem, key, RefundRequest(m, provider))
      case Refused(e) => Raise(e)
      case Replay(response) => Outcome(Nothing, Done(response))
      case Proceed => StartRefund(s, m, provider, key)
  }

  /** refund_milestone once the key is claimed. */
  function StartRefund(s: State, m: Id, provider: string, key: IdemKey): (o: Outcome)
    requires ActiveMilestone(s, m) && key.operation == RefundOperation && Unanswered(s, key)
    requires ClaimedFor(s, key, RefundRequest(m, provider))
    ensures Lawful(s, o.write) && Quiet(o)
  {
    var existing := LastWhere(s.refunds, (r: Refund) => RefundFor(r, key));
    if existing.Some? then
      var r := s.refunds[existing.value];
      if key !in s.idem then Raise(Internal)
      else if r.status != Pending then
        Outcome(ReplayRefund(existing.value), Done(RefundResponse(existing.value, r).value))
      else if LastWhere(s.intents, (it: Intent) => CapturedBy(it, r.milestone, r.provider)).None? then
        Raise(ProviderMismatch)
      else Outcome(Nothing, Calling(existing.value))
    else ReserveEscrow(s, m, provider, key)
  }

  /** A new refund takes everything the escrow of a FUNDED milestone holds. */
  function ReserveEscrow(s: State, m: Id, provider: string, key: IdemKey): (o: Outcome)
    requires ActiveMilestone(s, m) && key.operation == RefundOperation && Unanswered(s, key) && NoRefundFor(s, key)
    requires ClaimedFor(s, key, RefundRequest(m, provider))
    ensures Lawful(s, o.write) && Quiet(o)
  {
    if s.milestones[m].status != Funded then Raise(InvalidTransition)
    else if s.milestones[m].commission.None? then Raise(EscrowNotFound)
    else if Balance(s.journal, EscrowOf(s, m)) <= 0 then Raise(NothingToRefund)
    else if LastWhere(s.intents, (it: Intent) => CapturedBy(it, m, provider)).None? then Raise(ProviderMismatch)
    else if !Acceptable(RefundEntry(s, m, provider, Balance(s.journal, EscrowOf(s, m))).entries) then
        Raise(JournalRejected)
    else Outcome(ReserveRefund(m, key.user, provider, key, RefundRequest(m, provider)), Calling(|s.refunds|))
  }

  predicate RefundTaken(r: Refund, provider: string, reference: string) {
    r.provider == provider && r.reference == Some(reference)
  }

  /** Another refund of the same provider already carries the reference: the unique constraint fires at commit. */
  predicate ReferenceClash(s: State, id: Id, reference: string)
    requires id < |s.refunds|
  {
    exists r :: 0 <= r < |s.refunds| && r != id && RefundTaken(s.refunds[r], s.refunds[id].provider, reference)
  }

  /** _fail_refund. `noted` is a provider reference the caller already put on the row in this transaction. */
  function FailRefund(s: State, id: Id, noted: Option<string>): (o: Outcome)
    requires id < |s.refunds|
    requires noted.Some? ==> !ReferenceClash(s, id, noted.value)
    ensures Lawful(s, o.write) && Quiet(o)
  {
    var r := s.refunds[id];
    if r.key !in s.idem || r.milestone >= |s.milestones| then Raise(Internal)
    else if r.status != Pending then ReplaySettled(s, id)
    else if s.milestones[r.milestone].commission.None? then Raise(EscrowNotFound)
    else if !Acceptable(RefundReversal(s, id).entries) then Raise(JournalRejected)
    else Outcome(ReverseRefund(id, noted), Done(Response(502, FailedRefundBody(id))))
  }

  /** _complete_refund_replay on a refund that is no longer pending. */
  function ReplaySettled(s: State, id: Id): (o: Outcome)
    requires id < |s.refunds| && s.refunds[id].key in s.idem && s.refunds[id].status != Pending
    ensures Lawful(s, o.write) && Quiet(o)
  {
    if s.refunds[id].key.operation != RefundOperation then Raise(Internal)
    else Outcome(ReplayRefund(id), Done(RefundResponse(id, s.refunds[id]).value))
  }

  /**
   refund_milestone after the provider answered. `verifying` says whether the call asked about an
   already noted provider refund; any number of such calls may be in flight for one refund.
   */
  function SettleRefundOf(s: State, id: Id, verifying: bool, outcome: ProviderOutcome): (o: Outcome)
    ensures Lawful(s, o.write) && Quiet(o)
  {
    if id >= |s.refunds| then Raise(Internal)
    else
      var r := s.refunds[id];
      var pending := Done(Response(202, RefundView(id, r.(status := Pending))));
      match outcome
      case TemporaryError => Outcome(Nothing, pending)
      case HardError => if verifying then Raise(ProviderFailed) else FailRefund(s, id, None)
      case Returned(result) => ConfirmRefund(s, id, result)
  }

  /** What the provider returned is checked against the refund before it settles it. */
  function ConfirmRefund(s: State, id: Id, result: ProviderResult): (o: Outcome)
    requires id < |s.refunds|
    ensures Lawful(s, o.write) && Quiet(o)
  {
    var r := s.refunds[id];
    if r.key !in s.idem || r.milestone >= |s.milestones| then Raise(Internal)
    else if r.status != Pending then ReplaySettled(s, id)
    else if result.amount != r.amount || result.currency != r.currency then FailRefund(s, id, None)
    else if ReferenceClash(s, id, result.reference) then Raise(ConstraintViolated)
    else if result.status == Pending then
      Outcome(NoteRefund(id, result.reference),
              Done(Response(202, RefundView(id, r.(reference := Some(result.reference))))))
    else if result.status != Succeeded then FailRefund(s, id, Some(result.reference))
    else if s.milestones[r.milestone].status != Funded then Raise(Internal)
    else
      var row := r.(reference := Some(result.reference), status := Succeeded);
      Outcome(SettleRefund(id, result.reference), Done(Response(200, RefundView(id, row))))
  }
}
