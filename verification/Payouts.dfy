/** Two-phase freelancer payouts. */
module Payouts {
  import opened Basics
  import opened Ledger
  import opened Records
  import opened Transactions
  import opened Idempotency

  predicate PayoutFor(p: Payout, key: IdemKey) { p.key == key }

  /** create_payout up to its first commit. `destination` is the configured payout account, if any. */
  function ReservePayoutOf(s: State, user: Id, amount: int, currency: string, provider: string, text: string,
                           destination: Option<string>): (o: Outcome)
    ensures Lawful(s, o.write) && Quiet(o)
  {
    if amount <= 0 || |currency| != 3 then Raise(InvalidInput)
    else
      var key := IdemKey(user, PayoutOperation, text);
      match ClaimKey(s.idem, key, PayoutRequest(amount, currency, provider))
      case Refused(e) => Raise(e)
      case Replay(response) => Outcome(Nothing, Done(response))
      case Proceed => StartPayout(s, amount, currency, provider, key, destination)
  }

  /** create_payout once the key is claimed. */
  function StartPayout(s: State, amount: int, currency: string, provider: string, key: IdemKey,
                       destination: Option<string>): (o: Outcome)
    requires amount > 0 && key.operation == PayoutOperation && Unanswered(s, key)
    requires ClaimedFor(s, key, PayoutRequest(amount, currency, provider))
    ensures Lawful(s, o.write) && Quiet(o)
  {
    var existing := LastWhere(s.payouts, (p: Payout) => PayoutFor(p, key));
    if existing.Some? then
      var p := s.payouts[existing.value];
      if key !in s.idem then Raise(Internal)
      else if p.status != Pending then
        Outcome(ReplayPayout(existing.value), Done(PayoutResponse(existing.value, p).value))
      else Outcome(Nothing, Calling(existing.value))
    else if destination.None? then Raise(DestinationMissing)
    else if Balance(s.journal, Wallet(key.user, currency)) < amount then Raise(InsufficientFunds)
    else
      var id := PostedId(s.journal, Key(PayoutOut, PayoutRef(|s.payouts|)));
      var p := Payout(key.user, key, id, None, provider, destination.value, None, amount, currency, Pending);
      if !Acceptable(PayoutEntry(|s.payouts|, p).entries) then Raise(JournalRejected)
      else Outcome(ReservePayout(p, PayoutRequest(amount, currency, provider)), Calling(|s.payouts|))
  }

  predicate PayoutTaken(p: Payout, provider: string, reference: string) {
    p.provider == provider && p.reference == Some(reference)
  }

  /** Another payout of the same provider already carries the reference: the unique constraint fires at commit. */
  predicate PayoutClash(s: State, id: Id, reference: string)
    requires id < |s.payouts|
  {
    exists q :: 0 <= q < |s.payouts| && q != id && PayoutTaken(s.payouts[q], s.payouts[id].provider, reference)
  }

  /** _fail_payout. */
  function FailPayout(s: State, id: Id): (o: Outcome)
    requires id < |s.payouts|
    ensures Lawful(s, o.write) && Quiet(o)
  {
    if s.payouts[id].key !in s.idem then Raise(Internal)
    else if s.payouts[id].status != Pending then
      Outcome(ReplayPayout(id), Done(PayoutResponse(id, s.payouts[id]).value))
    else if !Acceptable(PayoutReversal(id, s.payouts[id]).entries) then Raise(JournalRejected)
    else Outcome(ReversePayout(id), Done(Response(502, FailedPayoutBody(id))))
  }

  /** create_payout after the provider answered; any number of such calls may be in flight for one payout. */
  function SettlePayoutOf(s: State, id: Id, outcome: ProviderOutcome): (o: Outcome)
    ensures Lawful(s, o.write) && Quiet(o)
  {
    if id >= |s.payouts| then Raise(Internal)
    else
      var p := s.payouts[id];
      match outcome
      case TemporaryError => Outcome(Nothing, Done(Response(503, PendingPayoutBody(id))))
      case HardError => FailPayout(s, id)
      case Returned(result) =>
        if p.key !in s.idem then Raise(Internal)
        else if p.status != Pending then Outcome(ReplayPayout(id), Done(PayoutResponse(id, p).value))
        else if result.amount != p.amount || result.currency != p.currency then FailPayout(s, id)
        else if PayoutClash(s, id, result.reference) then Raise(ConstraintViolated)
        else
          var row := p.(reference := Some(result.reference), status := Succeeded);
          Outcome(SettlePayout(id, result.reference), Done(PayoutResponse(id, row).value))
  }
}
