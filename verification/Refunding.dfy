/** When a refund is reserved, settled or reversed, and what moves. */
module Refunding {
  import opened Basics
  import opened Ledger
  import opened Records
  import opened Transactions
  import opened Idempotency
  import opened Rows
  import opened Journaled
  import opened Flows
  import opened Answers
  import opened Shifting
  import opened Invariant
  import opened Standstill
  import opened System
  import Payments

  // ---- Reservation ------------------------------------------------------------------------------

  /** What an employer asks for. */
  datatype Demand = Demand(user: Id, milestone: Id, provider: string, text: string)

  function KeyOf(x: Demand): IdemKey { IdemKey(x.user, RefundOperation, x.text) }

  function RequestOf(x: Demand): Request { RefundRequest(x.milestone, x.provider) }

  function StepOf(x: Demand): Step { Step.Refund(x.user, x.milestone, x.provider, x.text) }

  function OutcomeOf(s: State, x: Demand): Outcome {
    Payments.ReserveRefundOf(s, x.user, x.milestone, x.provider, x.text)
  }

  /** Some payment for the milestone was captured by this provider. */
  predicate CapturedThrough(s: State, m: Id, provider: string) {
    exists i :: 0 <= i < |s.intents| && s.intents[i].milestone == m && s.intents[i].status == IntentCaptured
        && s.intents[i].provider == provider
  }

  /** A new demand of the employer, under an open key, for a FUNDED milestone that this provider has paid into. */
  predicate Refundable(s: State, x: Demand) {
    && Pays(s, x.user, x.milestone) && Open(s, KeyOf(x), RequestOf(x)) && NoRefundFor(s, KeyOf(x))
    && s.milestones[x.milestone].status == Funded
    && Balance(s.journal, EscrowOf(s, x.milestone)) > 0
    && CapturedThrough(s, x.milestone, x.provider)
  }

  function NewRow(s: State, x: Demand): Records.Refund
    requires x.milestone < |s.milestones|
  {
    Records.Refund(x.milestone, x.user, |s.journal|, KeyOf(x), x.provider, None,
                   Balance(s.journal, EscrowOf(s, x.milestone)), s.milestones[x.milestone].currency, Pending)
  }

  /** The refund is on record as pending, and everything the escrow held has left it. */
  ghost predicate Reserved(s: State, after: State, x: Demand)
    requires x.milestone < |s.milestones|
  {
    var row := NewRow(s, x);
    && after == s.(refunds := s.refunds + [row], idem := s.idem[KeyOf(x) := IdemRecord(RequestOf(x), None)],
                   journal := after.journal)
    && Shifts(s.journal, after.journal, map[EscrowOf(s, x.milestone) := -row.amount,
                                            Clearing(x.provider, row.currency) := row.amount])
  }

  predicate Known(s: State, key: IdemKey, id: Id) { id < |s.refunds| && s.refunds[id].key == key }

  predicate IsKnown(s: State, key: IdemKey) {
    exists id :: 0 <= id < |s.refunds| && Known(s, key, id)
        && CapturedThrough(s, s.refunds[id].milestone, s.refunds[id].provider)
  }

  /** A demand that reserves nothing: it gets the stored answer, or takes up the refund it reserved before. */
  predicate Resumes(s: State, o: Outcome, x: Demand) {
    && (o.reply.Done? <==> Pays(s, x.user, x.milestone) && AnswerOf(s, KeyOf(x), RequestOf(x)).Some?)
    && (o.reply.Done? ==> o.reply.response == AnswerOf(s, KeyOf(x), RequestOf(x)).value)
    && (o.reply.Calling? <==>
        Pays(s, x.user, x.milestone) && Open(s, KeyOf(x), RequestOf(x)) && IsKnown(s, KeyOf(x)))
    && (o.reply.Calling? ==> Known(s, KeyOf(x), o.reply.id))
  }

  lemma CaptureFound(s: State, m: Id, provider: string)
    ensures LastWhere(s.intents, (it: Intent) => Payments.CapturedBy(it, m, provider)).Some?
      <==> CapturedThrough(s, m, provider)
  {
    var found := LastWhere(s.intents, (it: Intent) => Payments.CapturedBy(it, m, provider));
    if found.Some? {
      assert Payments.CapturedBy(s.intents[found.value], m, provider);
    }
  }

  lemma ReserveWrites(s: State, x: Demand)
    requires MilestonesOk(s.milestones, s.contracts) && Refundable(s, x)
    ensures OutcomeOf(s, x) == Outcome(ReserveRefund(x.milestone, x.user, x.provider, KeyOf(x), RequestOf(x)),
                                       Calling(|s.refunds|))
  {
    ClaimIs(s, KeyOf(x), RequestOf(x));
    CaptureFound(s, x.milestone, x.provider);
    var amount := Balance(s.journal, EscrowOf(s, x.milestone));
    TransferAcceptable(EscrowOf(s, x.milestone), Clearing(x.provider, s.milestones[x.milestone].currency), amount);
    assert MilestoneOk(s.milestones[x.milestone], s.contracts);
    hide Lawful, Acceptable, Balance, ClaimKey, ClaimedFor, MilestonesOk, CapturedThrough, MilestoneLog;
  }

  lemma ReserveResumes(s: State, x: Demand)
    requires RefundKeys(s.refunds, s.idem) && MilestonesOk(s.milestones, s.contracts) && !Refundable(s, x)
    ensures OutcomeOf(s, x).write == Nothing && Resumes(s, OutcomeOf(s, x), x)
  {
    hide Lawful, Balance, ClaimKey, ClaimedFor, CapturedThrough, MilestonesOk, Payments.ReserveEscrow;
    ClaimIs(s, KeyOf(x), RequestOf(x));
    CaptureFound(s, x.milestone, x.provider);
    forall r | 0 <= r < |s.refunds| ensures RefundAnswered(r, s.refunds[r], s.idem) {
    }
    var existing := LastWhere(s.refunds, (r: Records.Refund) => Payments.RefundFor(r, KeyOf(x)));
    if existing.Some? {
      var r := s.refunds[existing.value];
      assert Payments.RefundFor(r, KeyOf(x)) && Known(s, KeyOf(x), existing.value);
      CaptureFound(s, r.milestone, r.provider);
    }
    if existing.None? && Pays(s, x.user, x.milestone) && Open(s, KeyOf(x), RequestOf(x)) {
      ClaimsScoped(s, x);
      ReserveEscrowRefuses(s, x);
    }
  }

  lemma ClaimsScoped(s: State, x: Demand)
    requires Pays(s, x.user, x.milestone) && Open(s, KeyOf(x), RequestOf(x))
    ensures Unanswered(s, KeyOf(x)) && ClaimedFor(s, KeyOf(x), RequestOf(x))
  {
  }

  /** A new demand that does not qualify is refused. */
  lemma ReserveEscrowRefuses(s: State, x: Demand)
    requires MilestonesOk(s.milestones, s.contracts) && !Refundable(s, x)
    requires Pays(s, x.user, x.milestone) && Open(s, KeyOf(x), RequestOf(x)) && NoRefundFor(s, KeyOf(x))
    requires Unanswered(s, KeyOf(x)) && ClaimedFor(s, KeyOf(x), RequestOf(x))
    ensures Payments.ReserveEscrow(s, x.milestone, x.provider, KeyOf(x)).reply.Raised?
  {
    CaptureFound(s, x.milestone, x.provider);
    hide Lawful, Balance, ClaimedFor, MilestonesOk, CapturedThrough, Acceptable;
  }

  lemma ReserveMoves(s: State, x: Demand)
    requires Guarded(s, ReserveRefund(x.milestone, x.user, x.provider, KeyOf(x), RequestOf(x))) && JournalExact(s)
    ensures var row := NewRow(s, x);
      Shifts(s.journal, JournalAfter(s, ReserveRefund(x.milestone, x.user, x.provider, KeyOf(x), RequestOf(x))),
             map[EscrowOf(s, x.milestone) := -row.amount, Clearing(x.provider, row.currency) := row.amount])
    ensures PostedId(s.journal, Key(MilestoneRefund, RefundRef(|s.refunds|))) == |s.journal|
  {
    var row := NewRow(s, x);
    NewPosted(s, Key(MilestoneRefund, RefundRef(|s.refunds|)));
    hide Guarded, JournalExact, JournalAfter, Shifts, PostedId, Balance;
    Shifted(s, ReserveRefund(x.milestone, x.user, x.provider, KeyOf(x), RequestOf(x)),
            map[EscrowOf(s, x.milestone) := -row.amount, Clearing(x.provider, row.currency) := row.amount]);
  }

  lemma ReserveCommits(s: State, x: Demand)
    requires MilestonesOk(s.milestones, s.contracts) && JournalExact(s) && Refundable(s, x)
    ensures var o := OutcomeOf(s, x);
      o.write.ReserveRefund? && Reserved(s, Commit(s, o.write), x) && o.reply == Calling(|s.refunds|)
  {
    var o := OutcomeOf(s, x);
    assert Guarded(s, o.write);
    ReserveWrites(s, x);
    hide Lawful, Guarded, JournalExact, OutcomeOf, Shifts, JournalAfter, Balance, MilestonesOk, PostedId;
    ReserveMoves(s, x);
  }

  /** What demanding a refund comes to. */
  ghost predicate ReserveResult(s: State, o: Outcome, after: State, x: Demand) {
    if Refundable(s, x) then Reserved(s, after, x) && o.reply == Calling(|s.refunds|)
    else after == s && Resumes(s, o, x)
  }

  lemma ReserveNow(s: State, x: Demand)
    requires MilestonesOk(s.milestones, s.contracts) && JournalExact(s) && RefundKeys(s.refunds, s.idem)
    ensures var o := OutcomeOf(s, x);
      ReserveResult(s, o, Commit(s, o.write), x) && (o.write.ReserveRefund? <==> Refundable(s, x))
  {
    hide Lawful, MilestonesOk, JournalExact, RefundKeys, OutcomeOf, Reserved, Resumes, Commit, Balance;
    NothingStays(s);
    if Refundable(s, x) {
      ReserveCommits(s, x);
    } else {
      ReserveResumes(s, x);
    }
  }

  lemma StepReserves(s: State, x: Demand)
    ensures Decide(s, StepOf(x)) == OutcomeOf(s, x)
  {
    hide Lawful, Payments.ReserveRefundOf;
  }

  /**
   A refund is reserved if and only if the employer of an active contract asks for it, under an open key of no refund
   yet, for a FUNDED milestone with money in escrow that this provider has paid into; everything in the escrow then
   leaves it. Otherwise nothing changes, and a repeated demand gets its stored answer or takes up its refund.
   */
  lemma RefundReservedIff(s: State, x: Demand)
    requires Reached(s)
    ensures ReserveResult(s, Decide(s, StepOf(x)), Apply(s, StepOf(x)), x)
    ensures Decide(s, StepOf(x)).write.ReserveRefund? <==> Refundable(s, x)
  {
    hide Run, MilestonesOk, JournalExact, RefundKeys;
    ReachedInv(s);
    StepReserves(s, x);
    ReserveNow(s, x);
    hide Decide, Commit, OutcomeOf, Refundable, ReserveResult, Reached, StepOf;
  }

  // ---- The provider's answer --------------------------------------------------------------------

  /** The provider confirms the refund in full while its milestone is still FUNDED. */
  predicate Succeeds(s: State, id: Id, outcome: ProviderOutcome)
    requires id < |s.refunds|
  {
    && outcome.Returned? && Confirms(s, id, outcome.result)
    && s.refunds[id].milestone < |s.milestones| && s.milestones[s.refunds[id].milestone].status == Funded
  }

  /** The provider reports a refund in full that is still under way. */
  predicate Continues(s: State, id: Id, outcome: ProviderOutcome)
    requires id < |s.refunds|
  {
    && outcome.Returned? && outcome.result.status == Pending
    && outcome.result.amount == s.refunds[id].amount && outcome.result.currency == s.refunds[id].currency
    && ReferenceFree(s, id, outcome.result.reference)
  }

  function View(id: Id, r: Records.Refund, status: nat): Response {
    Response(status, RefundBody(id, r.milestone, r.provider, r.reference, r.amount, r.currency, r.status))
  }

  /** The refund row once it has succeeded. */
  function PaidRow(r: Records.Refund, reference: string): Records.Refund {
    r.(reference := Some(reference), status := Succeeded)
  }

  /** A reported failure in full leaves its reference on the row. */
  function FailedRow(r: Records.Refund, outcome: ProviderOutcome): Records.Refund {
    var noted := outcome.Returned? && outcome.result.amount == r.amount && outcome.result.currency == r.currency;
    r.(status := Failed, reference := if noted then Some(outcome.result.reference) else r.reference)
  }

  predicate StoresUnder(s: State, after: State, key: IdemKey, response: Response)
    requires key in s.idem
  {
    after.idem == s.idem[key := IdemRecord(s.idem[key].request, Some(response))]
  }

  /** The refund succeeds and its milestone may be funded anew. */
  predicate Settled(s: State, after: State, id: Id, reference: string)
    requires id < |s.refunds| && s.refunds[id].key in s.idem && s.refunds[id].milestone < |s.milestones|
  {
    var r := s.refunds[id];
    var row := s.milestones[r.milestone];
    && StoresUnder(s, after, r.key, View(id, PaidRow(r, reference), 200))
    && after == s.(refunds := s.refunds[id := PaidRow(r, reference)], idem := after.idem,
                   milestones := s.milestones[r.milestone := row.(
                     status := Created, events := row.events + [MilestoneEvent(Funded, Created)])])
  }

  /** The refund fails and its amount is back in escrow. */
  ghost predicate Reversed(s: State, after: State, id: Id, outcome: ProviderOutcome)
    requires id < |s.refunds| && s.refunds[id].key in s.idem && s.refunds[id].milestone < |s.milestones|
  {
    var r := s.refunds[id];
    && StoresUnder(s, after, r.key, Response(502, FailedRefundBody(id)))
    && after == s.(refunds := s.refunds[id := FailedRow(r, outcome)], idem := after.idem, journal := after.journal)
    && Shifts(s.journal, after.journal, map[EscrowOf(s, r.milestone) := r.amount,
                                            Clearing(r.provider, r.currency) := -r.amount])
  }

  /** What the provider's answer to a pending refund comes to. */
  ghost predicate AnswerResult(s: State, o: Outcome, after: State, id: Id, verifying: bool, outcome: ProviderOutcome)
    requires id < |s.refunds|
  {
    var r := s.refunds[id];
    && r.key in s.idem && r.milestone < |s.milestones|
    && if Succeeds(s, id, outcome) then
         && Settled(s, after, id, outcome.result.reference)
         && o.reply == Done(View(id, PaidRow(r, outcome.result.reference), 200))
       else if Fails(s, id, verifying, outcome) then
         Reversed(s, after, id, outcome) && o.reply == Done(Response(502, FailedRefundBody(id)))
       else if Continues(s, id, outcome) then
         var row := r.(reference := Some(outcome.result.reference));
         after == s.(refunds := s.refunds[id := row]) && o.reply == Done(View(id, row, 202))
       else
         after == s && (if outcome.TemporaryError? then o.reply == Done(View(id, r, 202)) else o.reply.Raised?)
  }

  predicate AnswerWritten(s: State, o: Outcome, id: Id, verifying: bool, outcome: ProviderOutcome)
    requires id < |s.refunds|
  {
    var r := s.refunds[id];
    if Succeeds(s, id, outcome) then
      && o.write == SettleRefund(id, outcome.result.reference)
      && o.reply == Done(View(id, PaidRow(r, outcome.result.reference), 200))
    else if Fails(s, id, verifying, outcome) then
      && o.write.ReverseRefund? && o.write.id == id
      && ReversedRefund(r, o.write.noted) == FailedRow(r, outcome)
      && o.reply == Done(Response(502, FailedRefundBody(id)))
    else if Continues(s, id, outcome) then
      && o.write == NoteRefund(id, outcome.result.reference)
      && o.reply == Done(View(id, r.(reference := Some(outcome.result.reference)), 202))
    else
      o.write == Nothing && (if outcome.TemporaryError? then o.reply == Done(View(id, r, 202)) else o.reply.Raised?)
  }

  lemma AnswerWrites(s: State, id: Id, verifying: bool, outcome: ProviderOutcome)
    requires RefundsOk(s.refunds, s.milestones) && RefundKeys(s.refunds, s.idem)
    requires id < |s.refunds| && s.refunds[id].status == Pending
    ensures s.refunds[id].key in s.idem && s.refunds[id].milestone < |s.milestones|
    ensures AnswerWritten(s, Payments.SettleRefundOf(s, id, verifying, outcome), id, verifying, outcome)
  {
    var r := s.refunds[id];
    assert RefundOk(r, s.milestones) && RefundAnswered(id, r, s.idem);
    TransferAcceptable(Clearing(r.provider, r.currency), EscrowOf(s, r.milestone), r.amount);
    hide Lawful, Acceptable, RefundsOk, RefundKeys;
  }

  lemma ReverseMoves(s: State, w: Write)
    requires Guarded(s, w) && JournalExact(s) && w.ReverseRefund?
    ensures var r := s.refunds[w.id];
      Shifts(s.journal, JournalAfter(s, w), map[EscrowOf(s, r.milestone) := r.amount,
                                                Clearing(r.provider, r.currency) := -r.amount])
  {
    var r := s.refunds[w.id];
    assert Addresses(s, w);
    hide Guarded, JournalExact, JournalAfter, Shifts;
    Shifted(s, w, map[EscrowOf(s, r.milestone) := r.amount, Clearing(r.provider, r.currency) := -r.amount]);
  }

  lemma AnswerCommits(s: State, o: Outcome, id: Id, verifying: bool, outcome: ProviderOutcome)
    requires id < |s.refunds| && s.refunds[id].key in s.idem && s.refunds[id].milestone < |s.milestones|
    requires Guarded(s, o.write) && JournalExact(s) && AnswerWritten(s, o, id, verifying, outcome)
    ensures AnswerResult(s, o, Commit(s, o.write), id, verifying, outcome)
  {
    assert Addresses(s, o.write);
    hide JournalExact, Shifts, JournalAfter, Fails, Succeeds, Continues;
    if o.write.ReverseRefund? {
      ReverseMoves(s, o.write);
    }
    hide Guarded;
  }

  lemma AnswerNow(s: State, id: Id, verifying: bool, outcome: ProviderOutcome)
    requires RefundsOk(s.refunds, s.milestones) && RefundKeys(s.refunds, s.idem) && JournalExact(s)
    requires id < |s.refunds| && s.refunds[id].status == Pending
    ensures var o := Payments.SettleRefundOf(s, id, verifying, outcome);
      AnswerResult(s, o, Commit(s, o.write), id, verifying, outcome)
  {
    var o := Payments.SettleRefundOf(s, id, verifying, outcome);
    assert Guarded(s, o.write);
    hide Lawful, Guarded, RefundsOk, RefundKeys, JournalExact, Payments.SettleRefundOf, AnswerWritten, AnswerResult;
    hide Commit;
    AnswerWrites(s, id, verifying, outcome);
    AnswerCommits(s, o, id, verifying, outcome);
  }

  lemma StepAnswers(s: State, id: Id, verifying: bool, outcome: ProviderOutcome)
    ensures Decide(s, RefundAnswer(id, verifying, outcome)) == Payments.SettleRefundOf(s, id, verifying, outcome)
  {
    hide Lawful, Payments.SettleRefundOf;
  }

  /**
   A pending refund succeeds if and only if the provider confirms it in full, under a free reference, while its
   milestone is FUNDED; it fails, and exactly its amount goes back into escrow, if and only if the provider refuses
   it, returns another amount or currency, or reports its failure; a report in full that it is under way is noted.
   Any other answer changes nothing.
   */
  lemma RefundAnswerIff(s: State, id: Id, verifying: bool, outcome: ProviderOutcome)
    requires Reached(s) && id < |s.refunds| && s.refunds[id].status == Pending
    ensures AnswerResult(s, Decide(s, RefundAnswer(id, verifying, outcome)),
                         Apply(s, RefundAnswer(id, verifying, outcome)), id, verifying, outcome)
  {
    hide Run, MilestonesOk, RefundsOk, JournalExact, RefundKeys;
    ReachedInv(s);
    StepAnswers(s, id, verifying, outcome);
    AnswerNow(s, id, verifying, outcome);
    hide Decide, Commit, Payments.SettleRefundOf, AnswerResult, Reached;
  }

  lemma ReplayStays(s: State, id: Id)
    requires id < |s.refunds| && RefundAnswered(id, s.refunds[id], s.idem)
    requires s.refunds[id].key.operation == RefundOperation
    ensures Commit(s, ReplayRefund(id)) == s
  {
    var key := s.refunds[id].key;
    assert s.idem[key := s.idem[key]] == s.idem;
  }

  lemma LateNow(s: State, id: Id, verifying: bool, outcome: ProviderOutcome)
    requires RefundKeys(s.refunds, s.idem) && (id < |s.refunds| ==> s.refunds[id].status != Pending)
    ensures Commit(s, Payments.SettleRefundOf(s, id, verifying, outcome).write) == s
  {
    var o := Payments.SettleRefundOf(s, id, verifying, outcome);
    NothingStays(s);
    if id < |s.refunds| {
      assert RefundAnswered(id, s.refunds[id], s.idem);
      hide Lawful, RefundKeys, Commit;
      if o.write != Nothing {
        ReplayStays(s, id);
      }
    }
  }

  /** An answer about a refund that has settled, or does not exist, changes nothing. */
  lemma LateRefundAnswer(s: State, id: Id, verifying: bool, outcome: ProviderOutcome)
    requires Reached(s) && (id < |s.refunds| ==> s.refunds[id].status != Pending)
    ensures Apply(s, RefundAnswer(id, verifying, outcome)) == s
  {
    hide Run, RowsOk, JournalExact, RefundKeys;
    ReachedInv(s);
    StepAnswers(s, id, verifying, outcome);
    LateNow(s, id, verifying, outcome);
    hide Decide, Commit, Payments.SettleRefundOf, Reached;
  }
}
