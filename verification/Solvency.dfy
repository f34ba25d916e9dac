/** Solvency: no escrow, wallet or commission account is ever overdrawn, and what left never exceeds what came in. */
module Solvency {
  import opened Basics
  import opened Ledger
  import opened Records
  import opened Transactions
  import opened Rows
  import opened Journaled
  import opened Flows

  // ---- Commission arithmetic --------------------------------------------------------------------

  lemma FeeBounds(amount: int, bps: nat)
    requires amount >= 0 && bps <= 10000
    ensures 0 <= Fee(amount, bps) <= amount
  {
    assert amount * bps <= amount * 10000;
    assert amount * bps >= 0;
  }

  /** A commission rate never charges more on a part than on the whole. */
  lemma FeeMonotone(part: int, whole: int, bps: nat)
    requires 0 <= part <= whole
    ensures Fee(part, bps) <= Fee(whole, bps)
  {
    assert part * bps <= whole * bps;
  }

  // ---- Balances ---------------------------------------------------------------------------------

  ghost predicate NonNegative(journal: seq<Journal>) {
    forall a: Account :: !a.Clearing? ==> Balance(journal, a) >= 0
  }

  /** The totals after a write are the totals before it plus the write's effect. */
  lemma TotalAfter(s: State, w: Write, pick: Account -> bool)
    requires Guarded(s, w) && JournalExact(s)
    ensures Total(JournalAfter(s, w), pick) == Total(s.journal, pick) + Effect(s, w, pick)
  {
    JournalAppended(s, w);
    EntryFlow(s, w, pick);
    if Entry(s, w).Some? {
      TotalAppend(s.journal, Entry(s, w).value, pick);
    }
  }

  lemma ResolutionParts(s: State, id: Id, d: Decision)
    requires CanResolve(s, id, d) && MilestonesOk(s.milestones, s.contracts)
    ensures d.net >= 0 && d.commission >= 0 && d.refund >= 0 && d.award >= 0
    ensures d.net + d.commission + d.refund == d.award + d.refund == s.milestones[s.disputes[id].milestone].amount
  {
    FeeBounds(d.award, s.milestones[s.disputes[id].milestone].commission.value);
  }

  lemma ReleaseCovered(s: State, m: Id, a: Account)
    requires CanRelease(s, m) && MilestonesOk(s.milestones, s.contracts) && !a.Clearing?
    ensures var row := s.milestones[m]; var fee := Fee(row.amount, row.commission.value);
      Part(WalletFor(s, m), row.amount - fee, Is(a)) + Part(Commission(row.currency), fee, Is(a))
      - Part(EscrowOf(s, m), row.amount, Is(a)) + Part(EscrowOf(s, m), Balance(s.journal, a), Is(a)) >= 0
  {
    FeeBounds(s.milestones[m].amount, s.milestones[m].commission.value);
  }

  lemma ResolutionCovered(s: State, id: Id, d: Decision, provider: string, a: Account)
    requires CanResolve(s, id, d) && MilestonesOk(s.milestones, s.contracts) && !a.Clearing?
    ensures var m := s.disputes[id].milestone;
      Part(WalletFor(s, m), d.net, Is(a)) + Part(Commission(s.milestones[m].currency), d.commission, Is(a))
      + Part(ClearingFor(provider, s, m), d.refund, Is(a)) - Part(EscrowOf(s, m), d.award + d.refund, Is(a))
      + Part(EscrowOf(s, m), Balance(s.journal, a), Is(a)) >= 0
  {
    ResolutionParts(s, id, d);
  }

  /** A write other than a settlement takes from an escrow or a wallet only what its guard found there. */
  lemma TransferCovered(s: State, w: Write, a: Account)
    requires Addresses(s, w) && !w.ReleaseMilestone? && !w.ResolveDispute? && !a.Clearing? && Balance(s.journal, a) >= 0
    requires w.CaptureIntent? ==> s.intents[w.id].amount > 0
    requires w.ReverseRefund? ==> s.refunds[w.id].amount > 0
    requires w.ReversePayout? ==> s.payouts[w.id].amount > 0
    requires w.ReservePayout? ==> Balance(s.journal, Wallet(w.payout.freelancer, w.payout.currency)) >= w.payout.amount
    ensures Balance(s.journal, a) + Effect(s, w, Is(a)) >= 0
  {
    hide Balance;
  }

  lemma SettlementCovered(s: State, w: Write, a: Account)
    requires Guarded(s, w) && (w.ReleaseMilestone? || w.ResolveDispute?) && !a.Clearing?
    requires MilestonesOk(s.milestones, s.contracts) && Balance(s.journal, a) >= 0
    ensures Balance(s.journal, a) + Effect(s, w, Is(a)) >= 0
  {
    hide Balance, Fee, DividesEscrow, MilestoneOk;
    match w {
      case ReleaseMilestone(m, _, _) => ReleaseCovered(s, m, a);
      case ResolveDispute(id, d, provider, _, _, _) => ResolutionCovered(s, id, d, provider, a);
    }
  }

  /** No write takes more from a non-clearing account than is there. */
  lemma EffectCovered(s: State, w: Write, a: Account)
    requires Guarded(s, w) && NonNegative(s.journal) && !a.Clearing?
    requires MilestonesOk(s.milestones, s.contracts) && IntentsOk(s.intents, s.milestones)
    requires RefundsOk(s.refunds, s.milestones) && PayoutsOk(s.payouts)
    ensures Balance(s.journal, a) + Effect(s, w, Is(a)) >= 0
  {
    hide Balance, Effect, MilestonesOk, CanCapture, CanRelease, CanResolve;
    if w.ReleaseMilestone? || w.ResolveDispute? {
      SettlementCovered(s, w, a);
    } else {
      TransferCovered(s, w, a);
    }
  }

  lemma NonNegativeKept(s: State, w: Write)
    requires Guarded(s, w) && RowsOk(s) && JournalExact(s) && NonNegative(s.journal)
    ensures NonNegative(JournalAfter(s, w))
  {
    forall a: Account | !a.Clearing? ensures Balance(JournalAfter(s, w), a) >= 0 {
      TotalAfter(s, w, Is(a));
      EffectCovered(s, w, a);
    }
  }

  // ---- Provider clearing ------------------------------------------------------------------------

  function ClearingIn(currency: string): Account -> bool {
    (a: Account) => a.Clearing? && a.currency == currency
  }

  function CapturedIn(currency: string): Intent -> int {
    (it: Intent) => if it.status == IntentCaptured && it.currency == currency then it.amount else 0
  }

  /** Refunds that have left or are leaving: everything but the failed ones. */
  function RefundedIn(currency: string): Refund -> int {
    (r: Refund) => if r.status != Failed && r.currency == currency then r.amount else 0
  }

  function PaidOutIn(currency: string): Payout -> int {
    (p: Payout) => if p.status != Failed && p.currency == currency then p.amount else 0
  }

  /** The clearing accounts owe exactly what was captured minus what was refunded and paid out. */
  ghost predicate ClearingExplained(s: State) {
    forall currency :: Total(s.journal, ClearingIn(currency))
      == Sum(s.refunds, RefundedIn(currency))
          + Sum(s.payouts, PaidOutIn(currency)) - Sum(s.intents, CapturedIn(currency))
  }

  function InCurrency(row: string, currency: string, amount: int): int {
    if row == currency then amount else 0
  }

  function CapturedChange(s: State, w: Write, currency: string): int
    requires Addresses(s, w)
  {
    if w.CaptureIntent? then InCurrency(s.intents[w.id].currency, currency, s.intents[w.id].amount) else 0
  }

  function RefundedChange(s: State, w: Write, currency: string): int
    requires Addresses(s, w)
  {
    match w
    case ReserveRefund(m, _, _, _, _) => InCurrency(s.milestones[m].currency, currency,
                                                    Balance(s.journal, EscrowOf(s, m)))
    case ReverseRefund(r, _) => -InCurrency(s.refunds[r].currency, currency, s.refunds[r].amount)
    case ResolveDispute(_, d, _, _, _, _) => InCurrency(s.milestones[DisputedMilestone(s, w)].currency, currency,
                                                        d.refund)
    case _ => 0
  }

  function PaidOutChange(s: State, w: Write, currency: string): int
    requires Addresses(s, w)
  {
    match w
    case ReservePayout(p, _) => InCurrency(p.currency, currency, p.amount)
    case ReversePayout(id) => -InCurrency(s.payouts[id].currency, currency, s.payouts[id].amount)
    case _ => 0
  }

  lemma CapturedAfter(s: State, w: Write, currency: string)
    requires Addresses(s, w) && (w.FailIntent? || w.CaptureIntent? ==> s.intents[w.id].status != IntentCaptured)
    requires w.OpenIntent? ==> w.intent.status == IntentPending
    ensures Sum(IntentsAfter(s, w), CapturedIn(currency))
        == Sum(s.intents, CapturedIn(currency)) + CapturedChange(s, w, currency)
  {
    match w {
      case OpenIntent(_, _, it) => SumAppend(s.intents, it, CapturedIn(currency));
      case FailIntent(_, _, id) => SumUpdate(s.intents, id, IntentsAfter(s, w)[id], CapturedIn(currency));
      case CaptureIntent(_, _, id) => SumUpdate(s.intents, id, IntentsAfter(s, w)[id], CapturedIn(currency));
      case _ =>
    }
  }

  lemma RefundedAfter(s: State, w: Write, currency: string)
    requires Addresses(s, w) && (w.SettleRefund? || w.ReverseRefund? ==> s.refunds[w.id].status == Pending)
    ensures Sum(RefundsAfter(s, w), RefundedIn(currency))
        == Sum(s.refunds, RefundedIn(currency)) + RefundedChange(s, w, currency)
  {
    hide Sum, Balance, PostedId;
    var f := RefundedIn(currency);
    match w {
      case ReserveRefund(m, user, provider, key, _) => SumAppend(s.refunds, NewRefund(s, m, user, provider, key), f);
      case NoteRefund(r, reference) => SumUpdate(s.refunds, r, s.refunds[r].(reference := Some(reference)), f);
      case SettleRefund(r, reference) => SumUpdate(s.refunds, r, SettledRefund(s.refunds[r], reference), f);
      case ReverseRefund(r, noted) => SumUpdate(s.refunds, r, ReversedRefund(s.refunds[r], noted), f);
      case ResolveDispute(id, d, _, _, _, _) => SumAppend(s.refunds, ResolutionRefund(s, id, w), f);
      case _ =>
    }
  }

  lemma PaidOutAfter(s: State, w: Write, currency: string)
    requires Addresses(s, w) && (w.SettlePayout? || w.ReversePayout? ==> s.payouts[w.id].status == Pending)
    requires w.ReservePayout? ==> w.payout.status == Pending
    ensures Sum(PayoutsAfter(s, w), PaidOutIn(currency))
        == Sum(s.payouts, PaidOutIn(currency)) + PaidOutChange(s, w, currency)
  {
    var f := PaidOutIn(currency);
    match w {
      case ReservePayout(p, _) => SumAppend(s.payouts, p, f);
      case SettlePayout(id, reference) => SumUpdate(s.payouts, id, SettledPayout(s.payouts[id], reference), f);
      case ReversePayout(id) => SumUpdate(s.payouts, id, ReversedPayout(s, id), f);
      case _ =>
    }
  }

  /** Every journal moves the clearing accounts by exactly what its record contributes. */
  lemma ClearingEffect(s: State, w: Write, currency: string)
    requires Addresses(s, w)
    ensures Effect(s, w, ClearingIn(currency))
      == RefundedChange(s, w, currency) + PaidOutChange(s, w, currency) - CapturedChange(s, w, currency)
  {
  }

  lemma MoneyRowsMove(s: State, w: Write)
    requires Guarded(s, w)
    ensures w.FailIntent? || w.CaptureIntent? ==> s.intents[w.id].status != IntentCaptured
    ensures w.OpenIntent? ==> w.intent.status == IntentPending
    ensures w.SettleRefund? || w.ReverseRefund? ==> s.refunds[w.id].status == Pending
    ensures w.SettlePayout? || w.ReversePayout? ==> s.payouts[w.id].status == Pending
    ensures w.ReservePayout? ==> w.payout.status == Pending
  {
  }

  lemma ClearingStep(s: State, w: Write, currency: string)
    requires Guarded(s, w) && JournalExact(s) && ClearingExplained(s)
    ensures Total(JournalAfter(s, w), ClearingIn(currency))
      == Sum(RefundsAfter(s, w), RefundedIn(currency)) + Sum(PayoutsAfter(s, w), PaidOutIn(currency))
         - Sum(IntentsAfter(s, w), CapturedIn(currency))
  {
    MoneyRowsMove(s, w);
    hide Effect, RefundedChange, PaidOutChange, CapturedChange, IntentsAfter, RefundsAfter, PayoutsAfter, JournalAfter,
        JournalExact, Total;
    TotalAfter(s, w, ClearingIn(currency));
    ClearingEffect(s, w, currency);
    CapturedAfter(s, w, currency);
    RefundedAfter(s, w, currency);
    PaidOutAfter(s, w, currency);
  }

  lemma ClearingKept(s: State, w: Write)
    requires Guarded(s, w) && JournalExact(s) && ClearingExplained(s)
    ensures ClearingExplained(Commit(s, w))
  {
    forall currency ensures Total(Commit(s, w).journal, ClearingIn(currency))
      == Sum(Commit(s, w).refunds, RefundedIn(currency)) + Sum(Commit(s, w).payouts, PaidOutIn(currency))
         - Sum(Commit(s, w).intents, CapturedIn(currency))
    {
      ClearingStep(s, w, currency);
    }
  }
}
