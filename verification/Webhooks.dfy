/** Provider webhooks: exactly-once processing, and indifference to the order of captured and failed. */
module Webhooks {
  import opened Basics
  import opened Ledger
  import opened Records
  import opened Transactions
  import opened Rows
  import opened Journaled
  import opened Invariant
  import opened System
  import Payments

  predicate Recorded(s: State, provider: string, hook: Webhook) {
    (provider, hook.externalId) in s.events && s.events[(provider, hook.externalId)] == hook
  }

  predicate EventsStay(before: State, after: State) {
    forall id :: id in before.events ==> id in after.events && after.events[id] == before.events[id]
  }

  lemma EventsKept(s: State, w: Write)
    requires Guarded(s, w)
    ensures EventsStay(s, Commit(s, w))
  {
    hide CanCapture, IdemAfter, JournalAfter;
  }

  lemma EventsStep(s: State, step: Step)
    ensures EventsStay(s, Apply(s, step))
  {
    hide EventsStay, Commit;
    EventsKept(s, Decide(s, step).write);
  }

  /** A recorded event stays recorded with its payload through every run. */
  lemma {:induction false} EventsForever(s: State, steps: seq<Step>)
    ensures EventsStay(s, Run(s, steps))
  {
    hide Apply, Decide;
    if steps != [] {
      EventsForever(s, steps[..|steps| - 1]);
      EventsStep(Run(s, steps[..|steps| - 1]), steps[|steps| - 1]);
    }
  }

  function Duplicate(hook: Webhook): Reply { Done(Response(200, EventBody(hook.externalId, true))) }

  /** Delivering `again` where `hook` has been processed under the same event id. */
  lemma DeliverAgain(s: State, provider: string, hook: Webhook, again: Webhook)
    requires Recorded(s, provider, hook) && again.externalId == hook.externalId
    ensures Payments.Deliver(s, provider, again) == if again == hook then Outcome(Nothing, Duplicate(hook))
        else Raise(EventConflict)
  {
  }

  /** A delivery that is answered is recorded. */
  lemma Delivered(s: State, provider: string, hook: Webhook)
    requires Payments.Deliver(s, provider, hook).reply.Done?
    ensures Recorded(Commit(s, Payments.Deliver(s, provider, hook).write), provider, hook)
  {
    hide CapturedMilestone, JournalAfter, CanCapture, Acceptable, Balance;
  }

  /**
   Once a delivery has been processed, delivering it again at any later time changes nothing and reports a
   duplicate, and another payload under its event id is refused.
   */
  lemma Redelivery(s: State, provider: string, hook: Webhook, more: seq<Step>, again: Webhook)
    requires Payments.Deliver(s, provider, hook).reply.Done? && again.externalId == hook.externalId
    ensures var later := Run(Apply(s, Deliver(provider, hook)), more);
      Payments.Deliver(later, provider, again)
      == if again == hook then Outcome(Nothing, Duplicate(hook)) else Raise(EventConflict)
  {
    Delivered(s, provider, hook);
    var next := Apply(s, Deliver(provider, hook));
    assert Recorded(next, provider, hook);
    hide Apply, Decide, Run, Payments.Deliver;
    EventsForever(next, more);
    DeliverAgain(Run(next, more), provider, hook, again);
  }

  // ---- Refusals leave no trace ------------------------------------------------------------------

  /** Every refused request, of any kind, leaves the database exactly as it was. */
  lemma RefusalsLeaveNoTrace(s: State, step: Step)
    ensures Decide(s, step).reply.Raised? ==> Apply(s, step) == s
  {
    hide Decide, Lawful;
    NothingStays(s);
  }

  // ---- Captured and failed commute --------------------------------------------------------------

  lemma {:induction false} SameLastWhere<T>(a: seq<T>, b: seq<T>, p: T -> bool)
    requires |a| == |b| && forall i :: 0 <= i < |a| ==> (p(a[i]) <==> p(b[i]))
    ensures LastWhere(a, p) == LastWhere(b, p)
  {
    if a != [] {
      SameLastWhere(a[..|a| - 1], b[..|b| - 1], p);
    }
  }

  /** The intent that an event about `reference` is about. */
  function About(intents: seq<Intent>, provider: string, reference: string): Option<Id> {
    LastWhere(intents, (it: Intent) => HasReference(it, provider, reference))
  }

  /** A provider reference names at most one intent, and intents match their milestones. */
  predicate ReferencesOk(s: State) {
    && IntentsOk(s.intents, s.milestones)
    && forall i, k :: 0 <= i < k < |s.intents| ==>
        !HasReference(s.intents[i], s.intents[k].provider, s.intents[k].reference)
  }

  lemma ReachedReferences(s: State)
    requires Reached(s)
    ensures ReferencesOk(s)
  {
    hide Run;
    ReachedInv(s);
  }

  lemma AboutIs(s: State, provider: string, reference: string, i: Id)
    requires ReferencesOk(s) && i < |s.intents| && HasReference(s.intents[i], provider, reference)
    ensures About(s.intents, provider, reference) == Some(i)
  {
    var found := About(s.intents, provider, reference);
    assert found.Some? && HasReference(s.intents[found.value], provider, reference);
  }

  /** A captured event for intent `i` that meets every condition of the capture. */
  predicate Fundable(s: State, i: Id, captured: Webhook) {
    && CanCapture(s, i)
    && var it := s.intents[i];
    && it.reference != "" && it.currency != ""
    && captured.event == PaymentCaptured(Some(it.reference), Some(it.amount), Some(it.currency))
    && (it.provider, captured.externalId) !in s.events
  }

  lemma FundingAcceptable(s: State, i: Id)
    requires ReferencesOk(s) && i < |s.intents|
    ensures s.intents[i].milestone < |s.milestones| && Acceptable(FundEntry(s, i).entries)
  {
    var it := s.intents[i];
    assert IntentOk(it, s.milestones);
    TransferAcceptable(Clearing(it.provider, it.currency), EscrowOf(s, it.milestone), it.amount);
  }

  lemma CaptureAccepted(s: State, i: Id, captured: Webhook)
    requires ReferencesOk(s) && Fundable(s, i, captured)
    ensures Payments.Deliver(s, s.intents[i].provider, captured).write
        == CaptureIntent(s.intents[i].provider, captured, i)
  {
    var it := s.intents[i];
    AboutIs(s, it.provider, it.reference, i);
    FundingAcceptable(s, i);
    hide Guarded, WellPosted, Acceptable, Balance, ReferencesOk;
  }

  /**
   A delivery captures intent `i` if and only if it is the provider's captured event for it and meets every
   condition.
   */
  lemma CaptureIff(s: State, provider: string, hook: Webhook, i: Id)
    requires ReferencesOk(s)
    ensures Payments.Deliver(s, provider, hook).write == CaptureIntent(provider, hook, i)
      <==> i < |s.intents| && s.intents[i].provider == provider && Fundable(s, i, hook)
  {
    hide Guarded, WellPosted, Acceptable, Balance, ReferencesOk, IntentsOk;
    if i < |s.intents| && s.intents[i].provider == provider && Fundable(s, i, hook) {
      CaptureAccepted(s, i, hook);
    }
  }

  /** A captured event for intent `i` that meets every condition, and a failed event for it. */
  predicate Contest(s: State, i: Id, captured: Webhook, failed: Webhook) {
    && Fundable(s, i, captured)
    && failed.event == PaymentFailed(Some(s.intents[i].reference))
    && captured.externalId != failed.externalId
    && (s.intents[i].provider, failed.externalId) !in s.events
  }

  function AsFailed(s: State, i: Id, failed: Webhook): State
    requires i < |s.intents|
  {
    Commit(s, FailIntent(s.intents[i].provider, failed, i))
  }

  function AsCaptured(s: State, i: Id, captured: Webhook): State
    requires i < |s.intents| && Addresses(s, CaptureIntent(s.intents[i].provider, captured, i))
  {
    Commit(s, CaptureIntent(s.intents[i].provider, captured, i))
  }

  function DeliverTo(s: State, provider: string, hook: Webhook): State {
    Commit(s, Payments.Deliver(s, provider, hook).write)
  }

  /** What two deliveries lead to, in the given order. */
  function After(s: State, provider: string, first: Webhook, second: Webhook): State {
    DeliverTo(DeliverTo(s, provider, first), provider, second)
  }

  lemma CapturedFirst(s: State, i: Id, captured: Webhook, failed: Webhook)
    requires ReferencesOk(s) && Contest(s, i, captured, failed)
    ensures var p := s.intents[i].provider; var next := AsCaptured(s, i, captured);
      && Payments.Deliver(s, p, captured).write == CaptureIntent(p, captured, i)
      && Payments.Deliver(next, p, failed).write == NoteEvent(p, failed)
      && After(s, p, captured, failed) == Commit(next, NoteEvent(p, failed))
  {
    hide ReferencesOk, Acceptable, Lawful, Balance, CapturedMilestone;
    var next := AsCaptured(s, i, captured);
    var it := s.intents[i];
    AboutIs(s, it.provider, it.reference, i);
    FundingAcceptable(s, i);
    SameLastWhere(s.intents, next.intents, (x: Intent) => HasReference(x, it.provider, it.reference));
  }

  lemma FailedFirst(s: State, i: Id, captured: Webhook, failed: Webhook)
    requires ReferencesOk(s) && Contest(s, i, captured, failed)
    ensures var p := s.intents[i].provider; var next := AsFailed(s, i, failed);
      && Payments.Deliver(s, p, failed).write == FailIntent(p, failed, i)
      && Payments.Deliver(next, p, captured).write == CaptureIntent(p, captured, i)
      && After(s, p, failed, captured) == Commit(next, CaptureIntent(p, captured, i))
  {
    hide ReferencesOk, Acceptable, Lawful, Balance, CapturedMilestone;
    var next := AsFailed(s, i, failed);
    var it := s.intents[i];
    AboutIs(s, it.provider, it.reference, i);
    FundingAcceptable(s, i);
    SameLastWhere(s.intents, next.intents, (x: Intent) => HasReference(x, it.provider, it.reference));
  }

  /** Both orders end in the same database, with the intent captured. */
  lemma OrdersMeet(s: State, i: Id, captured: Webhook, failed: Webhook)
    requires Contest(s, i, captured, failed)
    ensures var p := s.intents[i].provider;
      && Commit(AsCaptured(s, i, captured), NoteEvent(p, failed))
          == Commit(AsFailed(s, i, failed), CaptureIntent(p, captured, i))
      && AsCaptured(s, i, captured).intents[i].status == IntentCaptured
  {
    var p := s.intents[i].provider;
    var a, b := Commit(AsCaptured(s, i, captured), NoteEvent(p, failed)),
        Commit(AsFailed(s, i, failed), CaptureIntent(p, captured, i));
    assert a.events == b.events;
    assert a.intents == b.intents;
    assert a.milestones == b.milestones;
    assert a.journal == b.journal;
  }

  predicate FundedOnce(s: State, i: Id) {
    && i < |s.intents| && s.intents[i].status == IntentCaptured
    && Key(MilestoneFund, IntentRef(i)) in Keys(s.journal) && DistinctKeys(s.journal)
  }

  lemma CapturedMeansFunded(s: State, i: Id)
    requires Reached(s) && i < |s.intents| && s.intents[i].status == IntentCaptured
    ensures FundedOnce(s, i)
  {
    hide Run;
    ReachedInv(s);
    assert DueIn(s, Key(MilestoneFund, IntentRef(i)));
  }

  lemma StepDelivers(s: State, provider: string, hook: Webhook)
    requires Reached(s)
    ensures Reached(DeliverTo(s, provider, hook))
  {
    hide Lawful;
    assert Apply(s, Deliver(provider, hook)) == DeliverTo(s, provider, hook);
    hide Decide, Apply, Reached, DeliverTo;
    ReachedNext(s, Deliver(provider, hook));
  }

  lemma AfterReached(s: State, provider: string, first: Webhook, second: Webhook)
    requires Reached(s)
    ensures Reached(After(s, provider, first, second))
  {
    hide Reached, DeliverTo;
    StepDelivers(s, provider, first);
    StepDelivers(DeliverTo(s, provider, first), provider, second);
  }

  lemma SameEnd(s: State, i: Id, captured: Webhook, failed: Webhook)
    requires ReferencesOk(s) && Contest(s, i, captured, failed)
    ensures var p := s.intents[i].provider; var end := After(s, p, captured, failed);
      end == After(s, p, failed, captured) && i < |end.intents| && end.intents[i].status == IntentCaptured
  {
    hide Lawful, ReferencesOk;
    CapturedFirst(s, i, captured, failed);
    FailedFirst(s, i, captured, failed);
    OrdersMeet(s, i, captured, failed);
    hide Payments.Deliver, Contest, After, AsFailed, CapturedMilestone, JournalAfter, MilestonesAfter;
  }

  /**
   A captured and a failed event for one fundable intent commute: both orders of delivery end in the same
   database, with the intent CAPTURED and exactly one funding journal for it.
   */
  lemma CapturedAndFailedCommute(s: State, i: Id, captured: Webhook, failed: Webhook)
    requires Reached(s) && Contest(s, i, captured, failed)
    ensures var p := s.intents[i].provider;
      After(s, p, captured, failed) == After(s, p, failed, captured) && FundedOnce(After(s, p, captured, failed), i)
  {
    hide Reached, FundedOnce, After;
    ReachedReferences(s);
    SameEnd(s, i, captured, failed);
    AfterReached(s, s.intents[i].provider, captured, failed);
    CapturedMeansFunded(After(s, s.intents[i].provider, captured, failed), i);
  }
}
