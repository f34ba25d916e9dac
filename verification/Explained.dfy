/** What the escrow of an unsettled milestone holds: its captured payments minus its refunds that have not failed. */
module Explained {
  import opened Basics
  import opened Ledger
  import opened Records
  import opened Transactions
  import opened Rows
  import opened Journaled
  import opened Flows
  import opened Solvency
  import opened EscrowStatus

  function CapturedFor(m: Id): Intent -> int {
    (it: Intent) => if it.status == IntentCaptured && it.milestone == m then it.amount else 0
  }

  /** Refunds that have left or are leaving the escrow: everything but the failed ones. */
  function RefundedFor(m: Id): Refund -> int {
    (r: Refund) => if r.status != Failed && r.milestone == m then r.amount else 0
  }

  function PaidIn(intents: seq<Intent>, m: Id): int { Sum(intents, CapturedFor(m)) }

  function PaidBack(refunds: seq<Refund>, m: Id): int { Sum(refunds, RefundedFor(m)) }

  predicate EscrowExplained(journal: seq<Journal>, milestones: seq<Milestone>, intents: seq<Intent>,
                            refunds: seq<Refund>) {
    forall m :: 0 <= m < |milestones| && milestones[m].status != Released ==>
      Balance(journal, Escrow(m, milestones[m].currency)) == PaidIn(intents, m) - PaidBack(refunds, m)
  }

  function PaidInChange(s: State, w: Write, m: Id): int
    requires Addresses(s, w)
  {
    if w.CaptureIntent? then At(s.intents[w.id].milestone, m, s.intents[w.id].amount) else 0
  }

  function PaidBackChange(s: State, w: Write, m: Id): int
    requires Addresses(s, w)
  {
    match w
    case ReserveRefund(id, _, _, _, _) => At(id, m, Balance(s.journal, EscrowOf(s, id)))
    case ReverseRefund(r, _) => -At(s.refunds[r].milestone, m, s.refunds[r].amount)
    case ResolveDispute(id, d, _, _, _, _) => At(s.disputes[id].milestone, m, d.refund)
    case _ => 0
  }

  lemma PaidInAfter(s: State, w: Write, m: Id)
    requires Addresses(s, w) && (w.FailIntent? || w.CaptureIntent? ==> s.intents[w.id].status != IntentCaptured)
    requires w.OpenIntent? ==> w.intent.status == IntentPending
    ensures PaidIn(IntentsAfter(s, w), m) == PaidIn(s.intents, m) + PaidInChange(s, w, m)
  {
    match w {
      case OpenIntent(_, _, it) => SumAppend(s.intents, it, CapturedFor(m));
      case FailIntent(_, _, id) => SumUpdate(s.intents, id, IntentsAfter(s, w)[id], CapturedFor(m));
      case CaptureIntent(_, _, id) => SumUpdate(s.intents, id, IntentsAfter(s, w)[id], CapturedFor(m));
      case _ =>
    }
  }

  lemma PaidBackAfter(s: State, w: Write, m: Id)
    requires Addresses(s, w) && (w.SettleRefund? || w.ReverseRefund? ==> s.refunds[w.id].status == Pending)
    ensures PaidBack(RefundsAfter(s, w), m) == PaidBack(s.refunds, m) + PaidBackChange(s, w, m)
  {
    hide Sum, Balance, PostedId;
    var f := RefundedFor(m);
    match w {
      case ReserveRefund(id, user, provider, key, _) => SumAppend(s.refunds, NewRefund(s, id, user, provider, key), f);
      case NoteRefund(r, reference) => SumUpdate(s.refunds, r, s.refunds[r].(reference := Some(reference)), f);
      case SettleRefund(r, reference) => SumUpdate(s.refunds, r, SettledRefund(s.refunds[r], reference), f);
      case ReverseRefund(r, noted) => SumUpdate(s.refunds, r, ReversedRefund(s.refunds[r], noted), f);
      case ResolveDispute(id, _, _, _, _, _) => SumAppend(s.refunds, ResolutionRefund(s, id, w), f);
      case _ =>
    }
  }

  /**
   A write that leaves a milestone unsettled moves its escrow by what it moves the milestone's payments and
   refunds.
   */
  lemma ChangesMatch(s: State, w: Write, m: Id)
    requires Addresses(s, w) && m < |s.milestones| && MilestonesAfter(s, w)[m].status != Released
    ensures EscrowChange(s, w, m) == PaidInChange(s, w, m) - PaidBackChange(s, w, m)
  {
  }

  lemma StaysUnsettled(s: State, w: Write, m: Id)
    requires Guarded(s, w) && m < |s.milestones|
    ensures MilestonesAfter(s, w)[m].status != Released ==> s.milestones[m].status != Released
    ensures MilestonesAfter(s, w)[m].currency == s.milestones[m].currency
  {
  }

  lemma ExplainedStep(s: State, w: Write, m: Id)
    requires Guarded(s, w) && JournalExact(s) && EscrowExplained(s.journal, s.milestones, s.intents, s.refunds)
    requires m < |s.milestones| && MilestonesAfter(s, w)[m].status != Released
    ensures Balance(JournalAfter(s, w), Escrow(m, MilestonesAfter(s, w)[m].currency))
         == PaidIn(IntentsAfter(s, w), m) - PaidBack(RefundsAfter(s, w), m)
  {
    MoneyRowsMove(s, w);
    StaysUnsettled(s, w, m);
    hide Guarded, JournalExact, Effect, EscrowChange, PaidInChange, PaidBackChange, PaidIn, PaidBack, Total;
    hide IntentsAfter, RefundsAfter, MilestonesAfter, JournalAfter;
    TotalAfter(s, w, Is(EscrowOf(s, m)));
    EscrowEffect(s, w, m);
    PaidInAfter(s, w, m);
    PaidBackAfter(s, w, m);
    ChangesMatch(s, w, m);
  }

  /** No row refers to a milestone that does not exist yet. */
  lemma NothingYet(s: State, m: Id)
    requires IntentsOk(s.intents, s.milestones) && RefundsOk(s.refunds, s.milestones) && m >= |s.milestones|
    ensures PaidIn(s.intents, m) == 0 && PaidBack(s.refunds, m) == 0
  {
    SumZero(s.intents, CapturedFor(m));
    SumZero(s.refunds, RefundedFor(m));
  }

  lemma ExplainedNew(s: State, w: Write, m: Id)
    requires Guarded(s, w) && IntentsOk(s.intents, s.milestones) && RefundsOk(s.refunds, s.milestones)
    requires JournalExact(s) && Untouched(s.journal, |s.milestones|) && |s.milestones| <= m < |MilestonesAfter(s, w)|
    ensures Balance(JournalAfter(s, w), Escrow(m, MilestonesAfter(s, w)[m].currency))
         == PaidIn(IntentsAfter(s, w), m) - PaidBack(RefundsAfter(s, w), m)
  {
    TotalAfter(s, w, Is(Escrow(m, MilestonesAfter(s, w)[m].currency)));
    NothingYet(s, m);
  }

  lemma ExplainedKept(s: State, w: Write)
    requires Guarded(s, w) && IntentsOk(s.intents, s.milestones) && RefundsOk(s.refunds, s.milestones)
    requires JournalExact(s) && Untouched(s.journal, |s.milestones|)
    requires EscrowExplained(s.journal, s.milestones, s.intents, s.refunds)
    ensures EscrowExplained(JournalAfter(s, w), MilestonesAfter(s, w), IntentsAfter(s, w), RefundsAfter(s, w))
  {
    assert Addresses(s, w);
    hide Guarded, JournalExact, Untouched, PaidIn, PaidBack, Balance, IntentsOk, RefundsOk;
    hide IntentsAfter, RefundsAfter, MilestonesAfter, JournalAfter;
    var milestones := MilestonesAfter(s, w);
    forall m | 0 <= m < |milestones| && milestones[m].status != Released
      ensures Balance(JournalAfter(s, w), Escrow(m, milestones[m].currency))
           == PaidIn(IntentsAfter(s, w), m) - PaidBack(RefundsAfter(s, w), m)
    {
      if m < |s.milestones| {
        ExplainedStep(s, w, m);
      } else {
        ExplainedNew(s, w, m);
      }
    }
  }
}
