/** When a payout is reserved, settled or reversed, and what moves. */
module PayingOut {
  import opened Basics
  import opened Ledger
  import opened Records
  import opened Transactions
  import opened Idempotency
  import opened Rows
  import opened Journaled
  import opened Flows
  import opened Answers
  import opened Shifting
  import opened Invariant
  import opened System
  import Payouts

  // ---- Reservation ------------------------------------------------------------------------------

  /** What a freelancer asks for. */
  datatype Demand = Demand(user: Id, amount: int, currency: string, provider: string, text: string,
                           destination: Option<string>)

  function KeyOf(x: Demand): IdemKey { IdemKey(x.user, PayoutOperation, x.text) }

  function RequestOf(x: Demand): Request { PayoutRequest(x.amount, x.currency, x.provider) }

  function StepOf(x: Demand): Step { PayOut(x.user, x.amount, x.currency, x.provider, x.text, x.destination) }

  function OutcomeOf(s: State, x: Demand): Outcome {
    Payouts.ReservePayoutOf(s, x.user, x.amount, x.currency, x.provider, x.text, x.destination)
  }

  predicate WellFormed(x: Demand) { x.amount > 0 && |x.currency| == 3 }

  /** A new demand, under an open key, to a known destination, which the wallet covers. */
  predicate Covered(s: State, x: Demand) {
    && WellFormed(x) && Open(s, KeyOf(x), RequestOf(x)) && NoPayoutFor(s, KeyOf(x)) && x.destination.Some?
    && Balance(s.journal, Wallet(x.user, x.currency)) >= x.amount
  }

  /** The payout is on record as pending, and its amount has left the wallet. */
  ghost predicate Reserved(s: State, after: State, x: Demand)
    requires x.destination.Some?
  {
    && after == s.(payouts := s.payouts + [Payout(x.user, KeyOf(x), |s.journal|, None, x.provider, x.destination.value,
                                                  None, x.amount, x.currency, Pending)],
                   idem := s.idem[KeyOf(x) := IdemRecord(RequestOf(x), None)], journal := after.journal)
    && Shifts(s.journal, after.journal, map[Wallet(x.user, x.currency) := -x.amount,
                                            Clearing(x.provider, x.currency) := x.amount])
  }

  predicate Known(s: State, key: IdemKey, id: Id) { id < |s.payouts| && s.payouts[id].key == key }

  predicate IsKnown(s: State, key: IdemKey) { exists id :: 0 <= id < |s.payouts| && Known(s, key, id) }

  /** A demand that reserves nothing: it gets the stored answer, or takes up the payout it reserved before. */
  predicate Resumes(s: State, o: Outcome, x: Demand) {
    && (o.reply.Done? <==> WellFormed(x) && AnswerOf(s, KeyOf(x), RequestOf(x)).Some?)
    && (o.reply.Done? ==> o.reply.response == AnswerOf(s, KeyOf(x), RequestOf(x)).value)
    && (o.reply.Calling? <==> WellFormed(x) && Open(s, KeyOf(x), RequestOf(x)) && IsKnown(s, KeyOf(x)))
    && (o.reply.Calling? ==> Known(s, KeyOf(x), o.reply.id))
  }

  lemma ReserveWrites(s: State, x: Demand)
    requires JournalExact(s) && Covered(s, x)
    ensures OutcomeOf(s, x) == Outcome(ReservePayout(
                                         Payout(x.user, KeyOf(x), |s.journal|, None, x.provider, x.destination.value,
                                                None, x.amount, x.currency, Pending), RequestOf(x)),
                                       Calling(|s.payouts|))
  {
    ClaimIs(s, KeyOf(x), RequestOf(x));
    TransferAcceptable(Wallet(x.user, x.currency), Clearing(x.provider, x.currency), x.amount);
    NewPosted(s, Key(PayoutOut, PayoutRef(|s.payouts|)));
    hide Lawful, Acceptable, Balance, ClaimKey, ClaimedFor, JournalExact, PostedId;
  }

  lemma ReserveResumes(s: State, x: Demand)
    requires PayoutKeys(s.payouts, s.idem) && !Covered(s, x)
    ensures OutcomeOf(s, x).write == Nothing && Resumes(s, OutcomeOf(s, x), x)
  {
    ClaimIs(s, KeyOf(x), RequestOf(x));
    if x.amount > 0 {
      TransferAcceptable(Wallet(x.user, x.currency), Clearing(x.provider, x.currency), x.amount);
    }
    forall p | 0 <= p < |s.payouts| ensures PayoutAnswered(p, s.payouts[p], s.idem) {
    }
    hide Lawful, Acceptable, Balance, ClaimKey, ClaimedFor, PostedId, PayoutKeys;
    var existing := LastWhere(s.payouts, (p: Payout) => Payouts.PayoutFor(p, KeyOf(x)));
    if existing.Some? {
      assert Payouts.PayoutFor(s.payouts[existing.value], KeyOf(x)) && Known(s, KeyOf(x), existing.value);
    }
  }

  lemma ReserveMoves(s: State, p: Payout, request: Request)
    requires Guarded(s, ReservePayout(p, request)) && JournalExact(s)
    ensures Shifts(s.journal, JournalAfter(s, ReservePayout(p, request)),
                   map[Wallet(p.freelancer, p.currency) := -p.amount, Clearing(p.provider, p.currency) := p.amount])
  {
    hide Guarded, JournalExact, JournalAfter, Shifts;
    Shifted(s, ReservePayout(p, request),
            map[Wallet(p.freelancer, p.currency) := -p.amount, Clearing(p.provider, p.currency) := p.amount]);
  }

  /** What demanding a payout comes to. */
  ghost predicate ReserveResult(s: State, o: Outcome, after: State, x: Demand) {
    if Covered(s, x) then Reserved(s, after, x) && o.reply == Calling(|s.payouts|)
    else after == s && Resumes(s, o, x)
  }

  lemma ReserveCommits(s: State, x: Demand)
    requires JournalExact(s) && Covered(s, x)
    ensures var o := OutcomeOf(s, x);
      o.write.ReservePayout? && Reserved(s, Commit(s, o.write), x) && o.reply == Calling(|s.payouts|)
  {
    var o := OutcomeOf(s, x);
    assert Guarded(s, o.write);
    ReserveWrites(s, x);
    hide Lawful, Guarded, JournalExact, Covered, OutcomeOf, Shifts, JournalAfter, Balance;
    ReserveMoves(s, o.write.payout, o.write.request);
  }

  lemma ReserveNow(s: State, x: Demand)
    requires JournalExact(s) && PayoutKeys(s.payouts, s.idem)
    ensures var o := OutcomeOf(s, x);
      ReserveResult(s, o, Commit(s, o.write), x) && (o.write.ReservePayout? <==> Covered(s, x))
  {
    hide Lawful, JournalExact, PayoutKeys, OutcomeOf, Reserved, Resumes, Commit, Balance;
    NothingStays(s);
    if Covered(s, x) {
      ReserveCommits(s, x);
    } else {
      ReserveResumes(s, x);
    }
  }

  lemma StepReserves(s: State, x: Demand)
    ensures Decide(s, StepOf(x)) == OutcomeOf(s, x)
  {
    hide Lawful, Payouts.ReservePayoutOf;
  }

  /**
   A payout is reserved if and only if a new demand is well formed, under an open key, to a known destination and
   covered by the wallet; exactly its amount then leaves the wallet. Otherwise nothing changes, and a repeated demand
   gets its stored answer or takes up the payout it reserved.
   */
  lemma PayoutReservedIff(s: State, x: Demand)
    requires Reached(s)
    ensures ReserveResult(s, Decide(s, StepOf(x)), Apply(s, StepOf(x)), x)
    ensures Decide(s, StepOf(x)).write.ReservePayout? <==> Covered(s, x)
  {
    hide Run, RowsOk, JournalExact, PayoutKeys;
    ReachedInv(s);
    StepReserves(s, x);
    ReserveNow(s, x);
    hide Decide, Commit, OutcomeOf, Covered, ReserveResult, Reached, StepOf;
  }

  // ---- The provider's answer --------------------------------------------------------------------

  /** The provider returns the payout's amount and currency, under a reference no other payout of it carries. */
  predicate Pays(s: State, id: Id, outcome: ProviderOutcome)
    requires id < |s.payouts|
  {
    && outcome.Returned?
    && outcome.result.amount == s.payouts[id].amount && outcome.result.currency == s.payouts[id].currency
    && forall q :: 0 <= q < |s.payouts| && q != id && s.payouts[q].provider == s.payouts[id].provider ==>
        s.payouts[q].reference != Some(outcome.result.reference)
  }

  /** The provider refuses, or returns another amount or currency. */
  predicate Fails(s: State, id: Id, outcome: ProviderOutcome)
    requires id < |s.payouts|
  {
    match outcome
    case TemporaryError => false
    case HardError => true
    case Returned(result) => result.amount != s.payouts[id].amount || result.currency != s.payouts[id].currency
  }

  function PaidRow(s: State, id: Id, outcome: ProviderOutcome): Payout
    requires id < |s.payouts| && outcome.Returned?
  {
    s.payouts[id].(reference := Some(outcome.result.reference), status := Succeeded)
  }

  function Receipt(s: State, id: Id, outcome: ProviderOutcome): Response
    requires id < |s.payouts| && outcome.Returned?
  {
    var p := s.payouts[id];
    Response(200, PayoutBody(id, p.provider, Some(outcome.result.reference), p.amount, p.currency, Succeeded))
  }

  /** The payout succeeds, no money moves, and the receipt is stored under its key. */
  predicate Settled(s: State, after: State, id: Id, outcome: ProviderOutcome)
    requires id < |s.payouts| && outcome.Returned? && s.payouts[id].key in s.idem
  {
    var key := s.payouts[id].key;
    after == s.(payouts := s.payouts[id := PaidRow(s, id, outcome)],
                idem := s.idem[key := IdemRecord(s.idem[key].request, Some(Receipt(s, id, outcome)))])
  }

  /** The payout fails, its amount is back in the wallet, and the failure is stored under its key. */
  ghost predicate Reversed(s: State, after: State, id: Id)
    requires id < |s.payouts| && s.payouts[id].key in s.idem
  {
    var p := s.payouts[id];
    && after == s.(payouts := s.payouts[id := p.(status := Failed, reversal := Some(|s.journal|))],
                   idem := s.idem[p.key := IdemRecord(s.idem[p.key].request,
                                                      Some(Response(502, FailedPayoutBody(id))))],
                   journal := after.journal)
    && Shifts(s.journal, after.journal, map[Wallet(p.freelancer, p.currency) := p.amount,
                                            Clearing(p.provider, p.currency) := -p.amount])
  }

  /** What the provider's answer to a pending payout comes to. */
  ghost predicate AnswerResult(s: State, o: Outcome, after: State, id: Id, outcome: ProviderOutcome)
    requires id < |s.payouts|
  {
    && s.payouts[id].key in s.idem
    && if Pays(s, id, outcome) then
         Settled(s, after, id, outcome) && o.reply == Done(Receipt(s, id, outcome))
       else if Fails(s, id, outcome) then
         Reversed(s, after, id) && o.reply == Done(Response(502, FailedPayoutBody(id)))
       else
         && after == s
         && o.reply == (if outcome.TemporaryError? then Done(Response(503, PendingPayoutBody(id)))
                        else Raised(ConstraintViolated))
  }

  lemma AnswerWrites(s: State, id: Id, outcome: ProviderOutcome)
    requires PayoutsOk(s.payouts) && PayoutKeys(s.payouts, s.idem)
    requires id < |s.payouts| && s.payouts[id].status == Pending
    ensures s.payouts[id].key in s.idem
    ensures var o := Payouts.SettlePayoutOf(s, id, outcome);
      if Pays(s, id, outcome) then
        o == Outcome(SettlePayout(id, outcome.result.reference), Done(Receipt(s, id, outcome)))
      else if Fails(s, id, outcome) then
        o == Outcome(ReversePayout(id), Done(Response(502, FailedPayoutBody(id))))
      else
        && o.write == Nothing
        && o.reply == (if outcome.TemporaryError? then Done(Response(503, PendingPayoutBody(id)))
                       else Raised(ConstraintViolated))
  {
    var p := s.payouts[id];
    assert PayoutOk(p) && PayoutAnswered(id, p, s.idem);
    TransferAcceptable(Clearing(p.provider, p.currency), Wallet(p.freelancer, p.currency), p.amount);
    hide Lawful, Acceptable, PayoutsOk, PayoutKeys;
  }

  lemma ReverseMoves(s: State, id: Id)
    requires Guarded(s, ReversePayout(id)) && JournalExact(s)
    ensures var p := s.payouts[id];
      && Shifts(s.journal, JournalAfter(s, ReversePayout(id)),
                map[Wallet(p.freelancer, p.currency) := p.amount, Clearing(p.provider, p.currency) := -p.amount])
      && PostedId(s.journal, Key(Reversal, PayoutRef(id))) == |s.journal|
  {
    var p := s.payouts[id];
    NewPosted(s, Key(Reversal, PayoutRef(id)));
    hide Guarded, JournalExact, JournalAfter, Shifts, PostedId;
    Shifted(s, ReversePayout(id),
            map[Wallet(p.freelancer, p.currency) := p.amount, Clearing(p.provider, p.currency) := -p.amount]);
  }

  lemma AnswerNow(s: State, id: Id, outcome: ProviderOutcome)
    requires PayoutsOk(s.payouts) && PayoutKeys(s.payouts, s.idem) && JournalExact(s)
    requires id < |s.payouts| && s.payouts[id].status == Pending
    ensures var o := Payouts.SettlePayoutOf(s, id, outcome); AnswerResult(s, o, Commit(s, o.write), id, outcome)
  {
    var o := Payouts.SettlePayoutOf(s, id, outcome);
    AnswerWrites(s, id, outcome);
    assert Guarded(s, o.write);
    hide Lawful, Guarded, JournalExact, PayoutsOk, PayoutKeys, Payouts.SettlePayoutOf, Shifts, JournalAfter, Fails;
    hide PostedId;
    if Pays(s, id, outcome) {
    } else if Fails(s, id, outcome) {
      ReverseMoves(s, id);
    } else {
      NothingStays(s);
    }
  }

  lemma StepAnswers(s: State, id: Id, outcome: ProviderOutcome)
    ensures Decide(s, PayoutAnswer(id, outcome)) == Payouts.SettlePayoutOf(s, id, outcome)
  {
    hide Lawful, Payouts.SettlePayoutOf;
  }

  /**
   A pending payout succeeds if and only if the provider returns its amount and currency under a free reference,
   whatever status the provider reports with them; it fails, and exactly its amount goes back into the wallet, if and
   only if the provider refuses or returns another amount or currency. Any other answer changes nothing.
   */
  lemma PayoutAnswerIff(s: State, id: Id, outcome: ProviderOutcome)
    requires Reached(s) && id < |s.payouts| && s.payouts[id].status == Pending
    ensures AnswerResult(s, Decide(s, PayoutAnswer(id, outcome)), Apply(s, PayoutAnswer(id, outcome)), id, outcome)
  {
    hide Run, MilestonesOk, PayoutsOk, JournalExact, PayoutKeys;
    ReachedInv(s);
    StepAnswers(s, id, outcome);
    AnswerNow(s, id, outcome);
    hide Decide, Commit, Payouts.SettlePayoutOf, AnswerResult, Reached;
  }

  lemma ReplayStays(s: State, id: Id)
    requires id < |s.payouts| && PayoutAnswered(id, s.payouts[id], s.idem)
    ensures Commit(s, ReplayPayout(id)) == s
  {
    var key := s.payouts[id].key;
    assert s.idem[key := s.idem[key]] == s.idem;
  }

  lemma LateNow(s: State, id: Id, outcome: ProviderOutcome)
    requires PayoutKeys(s.payouts, s.idem) && (id < |s.payouts| ==> s.payouts[id].status != Pending)
    ensures Commit(s, Payouts.SettlePayoutOf(s, id, outcome).write) == s
  {
    var o := Payouts.SettlePayoutOf(s, id, outcome);
    NothingStays(s);
    if id < |s.payouts| {
      assert PayoutAnswered(id, s.payouts[id], s.idem);
      hide Lawful, PayoutKeys, Commit;
      if o.write != Nothing {
        ReplayStays(s, id);
      }
    }
  }

  /** An answer about a payout that has settled, or does not exist, changes nothing. */
  lemma LatePayoutAnswer(s: State, id: Id, outcome: ProviderOutcome)
    requires Reached(s) && (id < |s.payouts| ==> s.payouts[id].status != Pending)
    ensures Apply(s, PayoutAnswer(id, outcome)) == s
  {
    hide Run, RowsOk, JournalExact, PayoutKeys;
    ReachedInv(s);
    StepAnswers(s, id, outcome);
    LateNow(s, id, outcome);
    hide Decide, Commit, Payouts.SettlePayoutOf, Reached;
  }
}
