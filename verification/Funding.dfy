/** When a payment is opened, captured or failed, and what moves. */
module Funding {
  import opened Basics
  import opened Ledger
  import opened Records
  import opened Transactions
  import opened Idempotency
  import opened Rows
  import opened Journaled
  import opened Flows
  import opened Answers
  import opened Shifting
  import opened Invariant
  import opened Standstill
  import opened Webhooks
  import opened System
  import Payments

  // ---- Opening ----------------------------------------------------------------------------------

  /** What an employer asks for; `created` is the provider's payment reference, if it gave one. */
  datatype Demand = Demand(user: Id, milestone: Id, provider: string, text: string, created: Option<string>)

  function KeyOf(x: Demand): IdemKey { IdemKey(x.user, FundOperation, x.text) }

  function RequestOf(x: Demand): Request { FundRequest(x.milestone, x.provider) }

  function StepOf(x: Demand): Step { Step.Fund(x.user, x.milestone, x.provider, x.text, x.created) }

  function OutcomeOf(s: State, x: Demand): Outcome {
    Payments.Fund(s, x.user, x.milestone, x.provider, x.text, x.created)
  }

  /** Every check passes, and there is something to pay. */
  predicate Opens(s: State, x: Demand) {
    Startable(s, x.user, x.milestone, x.provider, x.text, x.created) && s.milestones[x.milestone].amount > 0
  }

  /** The milestone waits for the payment of intent `i`, which goes through the same provider. */
  predicate Joins(s: State, x: Demand, i: Id) {
    && Pays(s, x.user, x.milestone) && Open(s, KeyOf(x), RequestOf(x)) && s.milestones[x.milestone].status == Created
    && i < |s.intents| && s.intents[i].milestone == x.milestone && s.intents[i].status == IntentPending
    && s.intents[i].provider == x.provider
  }

  predicate JoinsSome(s: State, x: Demand) { exists i :: 0 <= i < |s.intents| && Joins(s, x, i) }

  /** The answer that shows intent `i`, still waiting for its payment. */
  function Waiting(i: Id, it: Intent): Response {
    Response(202, IntentBody(i, it.milestone, it.provider, it.reference, it.amount, it.currency, IntentPending))
  }

  function NewIntent(s: State, x: Demand): Intent
    requires Opens(s, x)
  {
    var row := s.milestones[x.milestone];
    Intent(x.milestone, x.user, x.provider, x.created.value, KeyOf(x), row.amount, row.currency, IntentPending, None)
  }

  /** The demand is answered, and the answer stored under its key. */
  predicate AnsweredWith(s: State, o: Outcome, after: State, x: Demand, response: Response) {
    after.idem == s.idem[KeyOf(x) := IdemRecord(RequestOf(x), Some(response))] && o.reply == Done(response)
  }

  /** What demanding a payment comes to. */
  predicate FundResult(s: State, o: Outcome, after: State, x: Demand) {
    if Opens(s, x) then
      && after == s.(intents := s.intents + [NewIntent(s, x)], idem := after.idem)
      && AnsweredWith(s, o, after, x, Waiting(|s.intents|, NewIntent(s, x)))
    else if JoinsSome(s, x) then
      && after == s.(idem := after.idem)
      && exists i :: 0 <= i < |s.intents| && Joins(s, x, i) && AnsweredWith(s, o, after, x, Waiting(i, s.intents[i]))
    else
      && after == s
      && Repeats(o, Pays(s, x.user, x.milestone), AnswerOf(s, KeyOf(x), RequestOf(x)))
  }

  /** What opening or joining a payment commits. */
  predicate FundWritten(s: State, o: Outcome, x: Demand) {
    if Opens(s, x) then
      var response := Waiting(|s.intents|, NewIntent(s, x));
      o == Outcome(OpenIntent(KeyOf(x), IdemRecord(RequestOf(x), Some(response)), NewIntent(s, x)), Done(response))
    else if JoinsSome(s, x) then
      exists i :: (
        && 0 <= i < |s.intents| && Joins(s, x, i)
        && o == Outcome(Remember(KeyOf(x), IdemRecord(RequestOf(x), Some(Waiting(i, s.intents[i])))),
                        Done(Waiting(i, s.intents[i]))))
    else
      Repeats(o, Pays(s, x.user, x.milestone), AnswerOf(s, KeyOf(x), RequestOf(x)))
  }

  /** An open key has no payment yet. */
  lemma NothingOpened(s: State, x: Demand)
    requires IntentKeys(s.intents, s.idem) && Open(s, KeyOf(x), RequestOf(x))
    ensures NoIntentFor(s, KeyOf(x))
  {
  }

  /** At most one payment of the milestone is pending, so there is at most one to join. */
  lemma PendingIs(s: State, m: Id, i: Id)
    requires IntentKeys(s.intents, s.idem) && i < |s.intents| && Payments.PendingOn(s.intents[i], m)
    ensures LastWhere(s.intents, (it: Intent) => Payments.PendingOn(it, m)) == Some(i)
  {
    var found := LastWhere(s.intents, (it: Intent) => Payments.PendingOn(it, m));
    assert found.Some? && Payments.PendingOn(s.intents[found.value], m);
  }

  lemma FundJoins(s: State, x: Demand, i: Id)
    requires IntentKeys(s.intents, s.idem) && Joins(s, x, i)
    ensures var response := Waiting(i, s.intents[i]);
      OutcomeOf(s, x) == Outcome(Remember(KeyOf(x), IdemRecord(RequestOf(x), Some(response))), Done(response))
    ensures !Opens(s, x)
  {
    ClaimIs(s, KeyOf(x), RequestOf(x));
    NothingOpened(s, x);
    assert Payments.PendingOn(s.intents[i], x.milestone);
    PendingIs(s, x.milestone, i);
    hide Lawful, ClaimKey, ClaimedFor, IntentKeys;
  }

  lemma FundRefuses(s: State, x: Demand)
    requires IntentKeys(s.intents, s.idem) && !Opens(s, x) && !JoinsSome(s, x)
    ensures Repeats(OutcomeOf(s, x), Pays(s, x.user, x.milestone), AnswerOf(s, KeyOf(x), RequestOf(x)))
  {
    ClaimIs(s, KeyOf(x), RequestOf(x));
    if Open(s, KeyOf(x), RequestOf(x)) {
      NothingOpened(s, x);
    }
    var pending := LastWhere(s.intents, (it: Intent) => Payments.PendingOn(it, x.milestone));
    if pending.Some? {
      assert Payments.PendingOn(s.intents[pending.value], x.milestone) && !Joins(s, x, pending.value);
    }
    hide Lawful, ClaimKey, ClaimedFor, IntentKeys;
  }

  lemma FundOpens(s: State, x: Demand)
    requires Opens(s, x)
    ensures var response := Waiting(|s.intents|, NewIntent(s, x));
      OutcomeOf(s, x)
      == Outcome(OpenIntent(KeyOf(x), IdemRecord(RequestOf(x), Some(response)), NewIntent(s, x)), Done(response))
  {
    hide Lawful, ClaimKey, ClaimedFor;
  }

  lemma FundWrites(s: State, x: Demand)
    requires IntentKeys(s.intents, s.idem)
    ensures FundWritten(s, OutcomeOf(s, x), x)
  {
    hide IntentKeys, OutcomeOf, Startable, Joins;
    if Opens(s, x) {
      FundOpens(s, x);
    } else if i: Id :| 0 <= i < |s.intents| && Joins(s, x, i) {
      FundJoins(s, x, i);
    } else {
      FundRefuses(s, x);
    }
  }

  lemma FundCommits(s: State, o: Outcome, x: Demand)
    requires Addresses(s, o.write) && FundWritten(s, o, x)
    ensures FundResult(s, o, Commit(s, o.write), x)
  {
    hide Startable, Pays, Open, AnswerOf;
    NothingStays(s);
  }

  lemma StepFunds(s: State, x: Demand)
    ensures Decide(s, StepOf(x)) == OutcomeOf(s, x)
  {
    hide Lawful, Payments.Fund;
  }

  /**
   A payment is opened if and only if every condition holds and there is something to pay; a demand that finds a
   payment of its milestone pending with the same provider is answered with it. Otherwise nothing changes, and a
   repeated demand gets its stored answer.
   */
  lemma FundIff(s: State, x: Demand)
    requires Reached(s)
    ensures FundResult(s, Decide(s, StepOf(x)), Apply(s, StepOf(x)), x)
  {
    hide Run, RowsOk, BooksOk, IntentKeys;
    ReachedInv(s);
    StepFunds(s, x);
    FundWrites(s, x);
    assert Addresses(s, OutcomeOf(s, x).write);
    hide Decide, Commit, OutcomeOf, FundWritten, FundResult, Reached, StepOf;
    FundCommits(s, OutcomeOf(s, x), x);
  }

  // ---- Provider events --------------------------------------------------------------------------

  /** The event captures intent `i`. */
  predicate Captures(s: State, provider: string, hook: Webhook, i: Id) {
    i < |s.intents| && s.intents[i].provider == provider && Fundable(s, i, hook)
  }

  /** The event is new and fails intent `i`, which has not been captured. */
  predicate FailsPayment(s: State, provider: string, hook: Webhook, i: Id) {
    && (provider, hook.externalId) !in s.events
    && i < |s.intents| && s.intents[i].provider == provider && s.intents[i].status != IntentCaptured
    && s.intents[i].reference != ""
    && hook.event == PaymentFailed(Some(s.intents[i].reference))
  }

  /** The event is new, says something the platform understands, and calls for nothing. */
  predicate Immaterial(s: State, provider: string, hook: Webhook) {
    && (provider, hook.externalId) !in s.events
    && match hook.event
       case OtherEvent(_) => true
       case PaymentFailed(reference) =>
         && reference.Some? && reference.value != ""
         && forall i :: 0 <= i < |s.intents| && HasReference(s.intents[i], provider, reference.value) ==>
             s.intents[i].status == IntentCaptured
       case PaymentCaptured(reference, amount, currency) =>
         && reference.Some? && reference.value != "" && amount.Some? && currency.Some? && currency.value != ""
         && exists i :: (
              && 0 <= i < |s.intents| && HasReference(s.intents[i], provider, reference.value)
              && s.intents[i].status == IntentCaptured
              && s.intents[i].amount == amount.value && s.intents[i].currency == currency.value)
  }

  predicate Known(s: State, provider: string, hook: Webhook) {
    (provider, hook.externalId) in s.events && s.events[(provider, hook.externalId)] == hook
  }

  function EventsWith(s: State, provider: string, hook: Webhook): map<(string, string), Webhook> {
    s.events[(provider, hook.externalId) := hook]
  }

  /** The milestone of a captured payment: its rate is frozen, and it is FUNDED as soon as its escrow is full. */
  function CapturedRow(s: State, i: Id): Milestone
    requires i < |s.intents| && s.intents[i].milestone < |s.milestones|
    requires s.milestones[s.intents[i].milestone].contract < |s.contracts|
  {
    var m := s.intents[i].milestone;
    var row := s.milestones[m];
    var rate := if row.commission.Some? then row.commission else Some(s.contracts[row.contract].document.bps);
    if row.status == Created && Balance(s.journal, EscrowOf(s, m)) + s.intents[i].amount == row.amount
    then row.(status := Funded, events := row.events + [MilestoneEvent(Created, Funded)], commission := rate)
    else row.(commission := rate)
  }

  ghost predicate Captured(s: State, after: State, provider: string, hook: Webhook, i: Id)
    requires Captures(s, provider, hook, i)
  {
    var it := s.intents[i];
    && after == s.(intents := s.intents[i := it.(status := IntentCaptured, capturedAt := Some(|s.journal|))],
                   milestones := s.milestones[it.milestone := CapturedRow(s, i)],
                   events := EventsWith(s, provider, hook), journal := after.journal)
    && Shifts(s.journal, after.journal, map[EscrowOf(s, it.milestone) := it.amount,
                                            Clearing(it.provider, it.currency) := -it.amount])
  }

  function Processed(hook: Webhook, duplicate: bool): Reply {
    Done(Response(200, EventBody(hook.externalId, duplicate)))
  }

  predicate CapturesSome(s: State, provider: string, hook: Webhook) {
    exists i :: 0 <= i < |s.intents| && Captures(s, provider, hook, i)
  }

  predicate FailsSome(s: State, provider: string, hook: Webhook) {
    exists i :: 0 <= i < |s.intents| && FailsPayment(s, provider, hook, i)
  }

  /** What a delivery comes to. */
  ghost predicate DeliverResult(s: State, o: Outcome, after: State, provider: string, hook: Webhook) {
    if CapturesSome(s, provider, hook) then
      && o.reply == Processed(hook, false)
      && exists i :: 0 <= i < |s.intents| && Captures(s, provider, hook, i) && Captured(s, after, provider, hook, i)
    else if FailsSome(s, provider, hook) then
      && o.reply == Processed(hook, false)
      && exists i :: 0 <= i < |s.intents| && FailsPayment(s, provider, hook, i)
          && after == s.(intents := s.intents[i := s.intents[i].(status := IntentFailed)],
                         events := EventsWith(s, provider, hook))
    else if Immaterial(s, provider, hook) then
      after == s.(events := EventsWith(s, provider, hook)) && o.reply == Processed(hook, false)
    else
      after == s && (if Known(s, provider, hook) then o.reply == Processed(hook, true) else o.reply.Raised?)
  }

  lemma CapturedIs(s: State, i: Id)
    requires CanCapture(s, i)
    ensures CapturedMilestone(s, i) == CapturedRow(s, i)
  {
    hide Balance;
  }

  lemma CaptureShifts(s: State, w: Write)
    requires Guarded(s, w) && JournalExact(s) && IntentsOk(s.intents, s.milestones) && w.CaptureIntent?
    ensures var it := s.intents[w.id];
      Shifts(s.journal, JournalAfter(s, w), map[EscrowOf(s, it.milestone) := it.amount,
                                                Clearing(it.provider, it.currency) := -it.amount])
  {
    var it := s.intents[w.id];
    assert Addresses(s, w) && IntentOk(it, s.milestones);
    hide Guarded, JournalExact, JournalAfter, Shifts, IntentsOk;
    Shifted(s, w, map[EscrowOf(s, it.milestone) := it.amount, Clearing(it.provider, it.currency) := -it.amount]);
  }

  lemma CaptureMoves(s: State, provider: string, hook: Webhook, i: Id)
    requires JournalExact(s) && IntentsOk(s.intents, s.milestones) && Captures(s, provider, hook, i)
    requires Guarded(s, CaptureIntent(provider, hook, i))
    ensures Captured(s, Commit(s, CaptureIntent(provider, hook, i)), provider, hook, i)
  {
    var w := CaptureIntent(provider, hook, i);
    assert Addresses(s, w);
    CapturedIs(s, i);
    CaptureShifts(s, w);
    hide Guarded, JournalExact, JournalAfter, Shifts, CapturedMilestone, CapturedRow, Balance, IntentsOk;
  }

  /** What a delivery that captures nothing commits and answers. */
  predicate OtherwiseDelivered(s: State, o: Outcome, provider: string, hook: Webhook) {
    if FailsSome(s, provider, hook) then
      && o.reply == Processed(hook, false)
      && exists i :: (
           0 <= i < |s.intents| && FailsPayment(s, provider, hook, i) && o.write == FailIntent(provider, hook, i))
    else if Immaterial(s, provider, hook) then
      o.write == NoteEvent(provider, hook) && o.reply == Processed(hook, false)
    else
      o.write == Nothing && (if Known(s, provider, hook) then o.reply == Processed(hook, true) else o.reply.Raised?)
  }

  lemma OtherCapture(s: State, provider: string, hook: Webhook)
    requires ReferencesOk(s) && !CapturesSome(s, provider, hook) && hook.event.PaymentCaptured?
    ensures OtherwiseDelivered(s, Payments.Deliver(s, provider, hook), provider, hook)
  {
    var reference := hook.event.reference;
    if reference.Some? {
      var found := About(s.intents, provider, reference.value);
      if found.Some? {
        var i := found.value;
        assert HasReference(s.intents[i], provider, reference.value) && !Captures(s, provider, hook, i);
        FundingAcceptable(s, i);
        forall k | 0 <= k < |s.intents| && HasReference(s.intents[k], provider, reference.value) ensures k == i {
          AboutIs(s, provider, reference.value, k);
        }
      }
    }
    hide Lawful, Acceptable, Balance, ReferencesOk;
  }

  lemma OtherFailure(s: State, provider: string, hook: Webhook)
    requires ReferencesOk(s) && hook.event.PaymentFailed?
    ensures OtherwiseDelivered(s, Payments.Deliver(s, provider, hook), provider, hook)
  {
    var reference := hook.event.reference;
    if reference.Some? {
      var found := About(s.intents, provider, reference.value);
      if found.Some? {
        var i := found.value;
        assert HasReference(s.intents[i], provider, reference.value);
        forall k | 0 <= k < |s.intents| && HasReference(s.intents[k], provider, reference.value) ensures k == i {
          AboutIs(s, provider, reference.value, k);
        }
        assert FailsPayment(s, provider, hook, i) <==>
          s.intents[i].status != IntentCaptured && reference.value != "" && (provider, hook.externalId) !in s.events;
      }
    }
    hide Lawful, ReferencesOk;
  }

  lemma OtherEvents(s: State, provider: string, hook: Webhook)
    requires ReferencesOk(s) && !CapturesSome(s, provider, hook)
    ensures OtherwiseDelivered(s, Payments.Deliver(s, provider, hook), provider, hook)
  {
    match hook.event {
      case OtherEvent(_) => hide Lawful, ReferencesOk;
      case PaymentFailed(_) => OtherFailure(s, provider, hook);
      case PaymentCaptured(_, _, _) => OtherCapture(s, provider, hook);
    }
  }

  lemma CaptureAnswered(s: State, provider: string, hook: Webhook, i: Id)
    requires ReferencesOk(s) && Captures(s, provider, hook, i)
    ensures Payments.Deliver(s, provider, hook) == Outcome(CaptureIntent(provider, hook, i), Processed(hook, false))
  {
    var it := s.intents[i];
    AboutIs(s, it.provider, it.reference, i);
    FundingAcceptable(s, i);
    hide Lawful, Acceptable, Balance, ReferencesOk;
  }

  lemma DeliverCaptures(s: State, provider: string, hook: Webhook)
    requires JournalExact(s) && ReferencesOk(s) && CapturesSome(s, provider, hook)
    ensures var o := Payments.Deliver(s, provider, hook);
      DeliverResult(s, o, Commit(s, o.write), provider, hook)
  {
    var i: Id :| 0 <= i < |s.intents| && Captures(s, provider, hook, i);
    CaptureAnswered(s, provider, hook, i);
    assert Guarded(s, Payments.Deliver(s, provider, hook).write);
    hide Lawful, Guarded, JournalExact, Fundable, Payments.Deliver, Captured;
    CaptureMoves(s, provider, hook, i);
    hide Commit, Captures;
  }

  lemma DeliverCommits(s: State, o: Outcome, provider: string, hook: Webhook)
    requires Addresses(s, o.write) && !CapturesSome(s, provider, hook) && OtherwiseDelivered(s, o, provider, hook)
    ensures DeliverResult(s, o, Commit(s, o.write), provider, hook)
  {
    hide CapturesSome, Immaterial, Known, FailsPayment;
    NothingStays(s);
  }

  lemma DeliverNow(s: State, provider: string, hook: Webhook)
    requires JournalExact(s) && ReferencesOk(s)
    ensures var o := Payments.Deliver(s, provider, hook);
      DeliverResult(s, o, Commit(s, o.write), provider, hook)
  {
    assert Addresses(s, Payments.Deliver(s, provider, hook).write);
    hide Lawful, Addresses, JournalExact, ReferencesOk, Payments.Deliver, DeliverResult, OtherwiseDelivered, Commit;
    if CapturesSome(s, provider, hook) {
      DeliverCaptures(s, provider, hook);
    } else {
      OtherEvents(s, provider, hook);
      DeliverCommits(s, Payments.Deliver(s, provider, hook), provider, hook);
    }
  }

  lemma StepDelivered(s: State, provider: string, hook: Webhook)
    ensures Decide(s, Step.Deliver(provider, hook)) == Payments.Deliver(s, provider, hook)
  {
    hide Lawful, Payments.Deliver;
  }

  /**
   A delivery captures a payment, fails one, is noted, is recognised as a duplicate, or is refused, each exactly in its
   own case. A capture moves exactly the intent's amount into escrow, freezes the rate and funds the milestone as soon
   as the escrow is full; a failed payment and a noted event move nothing.
   */
  lemma DeliverIff(s: State, provider: string, hook: Webhook)
    requires Reached(s)
    ensures DeliverResult(s, Decide(s, Step.Deliver(provider, hook)), Apply(s, Step.Deliver(provider, hook)), provider,
                          hook)
  {
    hide Run, RowsOk, JournalExact, KeysOk, ReferencesOk;
    ReachedReferences(s);
    ReachedInv(s);
    StepDelivered(s, provider, hook);
    DeliverNow(s, provider, hook);
    hide Decide, Commit, Payments.Deliver, DeliverResult, Reached;
  }
}
