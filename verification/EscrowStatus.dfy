/** Agreement between a milestone's status and the money actually in its escrow. */
module EscrowStatus {
  import opened Basics
  import opened Ledger
  import opened Records
  import opened Transactions
  import opened Rows
  import opened Journaled
  import opened Flows
  import opened Solvency

  function PendingOn(m: Id): Refund -> int {
    (r: Refund) => if r.status == Pending && r.milestone == m then r.amount else 0
  }

  /** Money reserved for refunds of a milestone that have not settled yet. */
  function Outstanding(refunds: seq<Refund>, m: Id): int {
    Sum(refunds, PendingOn(m))
  }

  /** What each status says about the escrow. */
  predicate Agrees(row: Milestone, escrow: int, outstanding: int) {
    match row.status
    case Created => escrow == 0 && outstanding == 0
    case Funded => escrow + outstanding == row.amount
    case Disputed => escrow + outstanding == row.amount
    case InProgress => escrow == row.amount && outstanding == 0
    case Submitted => escrow == row.amount && outstanding == 0
    case ChangesRequested => escrow == row.amount && outstanding == 0
    case Approved => escrow == row.amount && outstanding == 0
    case ReleasePending => false
    case Released => escrow == 0 && outstanding == 0
  }

  /** Status and escrow agree for one milestone. */
  predicate EscrowAgreesAt(journal: seq<Journal>, milestones: seq<Milestone>, refunds: seq<Refund>, m: Id) {
    m < |milestones| && Agrees(milestones[m], Balance(journal, Escrow(m, milestones[m].currency)),
                               Outstanding(refunds, m))
  }

  /** An unsettled refund of the milestone always covers the whole of it. */
  predicate FullRefunds(refunds: seq<Refund>, m: Id, amount: int) {
    forall r :: 0 <= r < |refunds| && refunds[r].status == Pending && refunds[r].milestone == m ==>
        refunds[r].amount == amount
  }

  predicate AgreesAt(journal: seq<Journal>, milestones: seq<Milestone>, refunds: seq<Refund>, m: Id) {
    EscrowAgreesAt(journal, milestones, refunds, m) && FullRefunds(refunds, m, milestones[m].amount)
  }

  /** No money has moved for milestones that do not exist yet. */
  ghost predicate Untouched(journal: seq<Journal>, count: nat) {
    forall m: Id, currency :: m >= count ==> Balance(journal, Escrow(m, currency)) == 0
  }

  /** A capture that is accepted for milestone `m` while one of its refunds is still pending. */
  predicate RacyCapture(s: State, w: Write, m: Id) {
    w.CaptureIntent? && w.id < |s.intents| && s.intents[w.id].milestone == m && Outstanding(s.refunds, m) > 0
  }

  // ---- Outstanding refunds ----------------------------------------------------------------------

  function At(row: Id, m: Id, amount: int): int {
    if row == m then amount else 0
  }

  function OutstandingChange(s: State, w: Write, m: Id): int
    requires Addresses(s, w)
  {
    match w
    case ReserveRefund(id, _, _, _, _) => At(id, m, Balance(s.journal, EscrowOf(s, id)))
    case SettleRefund(r, _) => -At(s.refunds[r].milestone, m, s.refunds[r].amount)
    case ReverseRefund(r, _) => -At(s.refunds[r].milestone, m, s.refunds[r].amount)
    case _ => 0
  }

  lemma OutstandingAfter(s: State, w: Write, m: Id)
    requires Addresses(s, w) && (w.SettleRefund? || w.ReverseRefund? ==> s.refunds[w.id].status == Pending)
    ensures Outstanding(RefundsAfter(s, w), m) == Outstanding(s.refunds, m) + OutstandingChange(s, w, m)
  {
    hide Sum, Balance, PostedId;
    var f := PendingOn(m);
    match w {
      case ReserveRefund(id, user, provider, key, _) => SumAppend(s.refunds, NewRefund(s, id, user, provider, key), f);
      case NoteRefund(r, reference) => SumUpdate(s.refunds, r, s.refunds[r].(reference := Some(reference)), f);
      case SettleRefund(r, reference) => SumUpdate(s.refunds, r, SettledRefund(s.refunds[r], reference), f);
      case ReverseRefund(r, noted) => SumUpdate(s.refunds, r, ReversedRefund(s.refunds[r], noted), f);
      case ResolveDispute(id, _, _, _, _, _) => SumAppend(s.refunds, ResolutionRefund(s, id, w), f);
      case _ =>
    }
  }

  lemma OutstandingNonNegative(refunds: seq<Refund>, milestones: seq<Milestone>, m: Id)
    requires RefundsOk(refunds, milestones)
    ensures Outstanding(refunds, m) >= 0
    ensures m >= |milestones| ==> Outstanding(refunds, m) == 0
  {
    SumNonNegative(refunds, PendingOn(m));
    if m >= |milestones| {
      SumZero(refunds, PendingOn(m));
    }
  }

  /** Refunds that are outstanding cover the milestone at least once. */
  lemma OutstandingIsFull(refunds: seq<Refund>, milestones: seq<Milestone>, m: Id)
    requires RefundsOk(refunds, milestones) && m < |milestones| && FullRefunds(refunds, m, milestones[m].amount)
    ensures Outstanding(refunds, m) == 0 || Outstanding(refunds, m) >= milestones[m].amount
  {
    if r :| 0 <= r < |refunds| && refunds[r].status == Pending && refunds[r].milestone == m {
      SumCovers(refunds, r, PendingOn(m));
    } else {
      SumZero(refunds, PendingOn(m));
    }
  }

  lemma OutstandingCovers(refunds: seq<Refund>, milestones: seq<Milestone>, r: Id)
    requires RefundsOk(refunds, milestones) && r < |refunds| && refunds[r].status == Pending
    ensures Outstanding(refunds, refunds[r].milestone) >= refunds[r].amount > 0
  {
    SumCovers(refunds, r, PendingOn(refunds[r].milestone));
  }

  // ---- Escrow balances --------------------------------------------------------------------------

  /** What a write does to the escrow of milestone `m`. */
  function EscrowChange(s: State, w: Write, m: Id): int
    requires Addresses(s, w)
  {
    match w
    case CaptureIntent(_, _, i) => At(s.intents[i].milestone, m, s.intents[i].amount)
    case ReleaseMilestone(id, _, _) => -At(id, m, s.milestones[id].amount)
    case ReserveRefund(id, _, _, _, _) => -At(id, m, Balance(s.journal, EscrowOf(s, id)))
    case ReverseRefund(r, _) => At(s.refunds[r].milestone, m, s.refunds[r].amount)
    case ResolveDispute(id, d, _, _, _, _) => -At(s.disputes[id].milestone, m, d.award + d.refund)
    case _ => 0
  }

  lemma EscrowEffect(s: State, w: Write, m: Id)
    requires Addresses(s, w) && m < |s.milestones|
    ensures Effect(s, w, Is(EscrowOf(s, m))) == EscrowChange(s, w, m)
  {
  }

  lemma UntouchedKept(s: State, w: Write)
    requires Guarded(s, w) && JournalExact(s) && Untouched(s.journal, |s.milestones|)
    ensures Untouched(JournalAfter(s, w), |MilestonesAfter(s, w)|)
  {
    MilestonesExtend(s, w);
    forall m: Id, currency | m >= |MilestonesAfter(s, w)|
        ensures Balance(JournalAfter(s, w), Escrow(m, currency)) == 0 {
      TotalAfter(s, w, Is(Escrow(m, currency)));
    }
  }

  // ---- One milestone, one write -----------------------------------------------------------------

  lemma AgreesStep(s: State, w: Write, m: Id, escrow: int, outstanding: int)
    requires Guarded(s, w) && IntentsOk(s.intents, s.milestones) && m < |s.milestones|
    requires escrow == Balance(s.journal, EscrowOf(s, m)) >= 0 && outstanding >= 0
    requires w.ResolveDispute? && s.disputes[w.id].milestone == m ==> escrow == s.milestones[m].amount
    requires outstanding == 0 || outstanding >= s.milestones[m].amount
    requires w.SettleRefund? && s.refunds[w.id].milestone == m ==>
        outstanding >= s.refunds[w.id].amount == s.milestones[m].amount
    requires w.ReverseRefund? && s.refunds[w.id].milestone == m ==> outstanding >= s.refunds[w.id].amount > 0
    requires Agrees(s.milestones[m], escrow, outstanding)
    requires w.CaptureIntent? && s.intents[w.id].milestone == m ==> outstanding == 0
    ensures Agrees(MilestonesAfter(s, w)[m], escrow + EscrowChange(s, w, m), outstanding + OutstandingChange(s, w, m))
  {
  }

  /** A refund reserved now takes the whole escrow, and no other refund is outstanding. */
  lemma ReservesAll(s: State, m: Id)
    requires AgreesAt(s.journal, s.milestones, s.refunds, m) && RefundsOk(s.refunds, s.milestones)
    requires s.milestones[m].status == Funded && Balance(s.journal, EscrowOf(s, m)) > 0
    ensures Balance(s.journal, EscrowOf(s, m)) == s.milestones[m].amount
  {
    OutstandingIsFull(s.refunds, s.milestones, m);
    OutstandingNonNegative(s.refunds, s.milestones, m);
  }

  /** Which pending refunds a write leaves behind: the ones there were, and the one it reserves. */
  lemma PendingRefunds(s: State, w: Write, r: Id)
    requires Guarded(s, w) && r < |RefundsAfter(s, w)| && RefundsAfter(s, w)[r].status == Pending
    ensures var row := RefundsAfter(s, w)[r];
      if r < |s.refunds| then
        && row.milestone == s.refunds[r].milestone && row.amount == s.refunds[r].amount
            && s.refunds[r].status == Pending
      else
        && w.ReserveRefund? && row.milestone == w.id && row.amount == Balance(s.journal, EscrowOf(s, w.id)) > 0
        && s.milestones[w.id].status == Funded
  {
  }

  lemma FullRefundsKept(s: State, w: Write, m: Id)
    requires Guarded(s, w) && RefundsOk(s.refunds, s.milestones) && AgreesAt(s.journal, s.milestones, s.refunds, m)
    ensures FullRefunds(RefundsAfter(s, w), m, s.milestones[m].amount)
  {
    assert Addresses(s, w) && m < |s.milestones|;
    hide EscrowAgreesAt, Guarded, RefundsAfter, RefundsOk, Balance;
    var after := RefundsAfter(s, w);
    forall r | 0 <= r < |after| && after[r].status == Pending && after[r].milestone == m
      ensures after[r].amount == s.milestones[m].amount
    {
      PendingRefunds(s, w, r);
      if r >= |s.refunds| {
        ReservesAll(s, m);
      }
    }
  }

  lemma EscrowStep(s: State, w: Write, m: Id)
    requires Guarded(s, w) && RowsOk(s) && JournalExact(s) && NonNegative(s.journal) && !RacyCapture(s, w, m)
    requires AgreesAt(s.journal, s.milestones, s.refunds, m)
    ensures Agrees(MilestonesAfter(s, w)[m], Balance(JournalAfter(s, w), EscrowOf(s, m)),
                   Outstanding(RefundsAfter(s, w), m))
  {
    hide CanRelease, CanAccept, CanSign, CanCancel, CanClose, CanOpenIntent, CanRevise, CanMove, CanDispute;
    hide Effect, EscrowChange, OutstandingChange, RefundsAfter, MilestonesAfter, JournalAfter, Outstanding, Total,
        JournalExact;
    TotalAfter(s, w, Is(EscrowOf(s, m)));
    EscrowEffect(s, w, m);
    OutstandingAfter(s, w, m);
    OutstandingNonNegative(s.refunds, s.milestones, m);
    OutstandingIsFull(s.refunds, s.milestones, m);
    if w.SettleRefund? || w.ReverseRefund? {
      OutstandingCovers(s.refunds, s.milestones, w.id);
    }
    AgreesStep(s, w, m, Balance(s.journal, EscrowOf(s, m)), Outstanding(s.refunds, m));
  }

  lemma NoEffectYet(s: State, w: Write, m: Id, currency: string)
    requires Addresses(s, w) && m >= |s.milestones|
    ensures Effect(s, w, Is(Escrow(m, currency))) == 0
  {
  }

  lemma BornWhole(s: State, w: Write, m: Id)
    requires Addresses(s, w) && |s.milestones| <= m < |MilestonesAfter(s, w)|
    ensures MilestonesAfter(s, w)[m].status == Created && RefundsAfter(s, w) == s.refunds
  {
  }

  /** A milestone born with its contract has no money and no refunds. */
  lemma NewMilestoneAgrees(s: State, w: Write, m: Id)
    requires Guarded(s, w) && RefundsOk(s.refunds, s.milestones) && JournalExact(s)
    requires Untouched(s.journal, |s.milestones|)
    requires |s.milestones| <= m < |MilestonesAfter(s, w)|
    ensures AgreesAt(JournalAfter(s, w), MilestonesAfter(s, w), RefundsAfter(s, w), m)
  {
    assert Addresses(s, w);
    BornWhole(s, w, m);
    hide Guarded, JournalExact, Effect, JournalAfter, MilestonesAfter, RefundsAfter, Total, Outstanding;
    TotalAfter(s, w, Is(Escrow(m, MilestonesAfter(s, w)[m].currency)));
    NoEffectYet(s, w, m, MilestonesAfter(s, w)[m].currency);
    OutstandingNonNegative(s.refunds, s.milestones, m);
  }

  /**
   A racy capture breaks the agreement at once: escrow and outstanding refunds together exceed the contracted
   amount.
   */
  lemma RacyBreaks(s: State, w: Write, m: Id)
    requires Guarded(s, w) && RowsOk(s) && JournalExact(s) && NonNegative(s.journal) && RacyCapture(s, w, m)
    requires AgreesAt(s.journal, s.milestones, s.refunds, m)
    ensures !EscrowAgreesAt(JournalAfter(s, w), MilestonesAfter(s, w), RefundsAfter(s, w), m)
  {
    MilestonesExtend(s, w);
    TotalAfter(s, w, Is(EscrowOf(s, m)));
    EscrowEffect(s, w, m);
    OutstandingAfter(s, w, m);
    OutstandingIsFull(s.refunds, s.milestones, m);
    assert Outstanding(RefundsAfter(s, w), m) >= s.milestones[m].amount;
  }

  /** One write keeps status and escrow of a milestone in agreement if and only if it is not a racy capture for it. */
  lemma AgreementWrite(s: State, w: Write, m: Id)
    requires Guarded(s, w) && RowsOk(s) && JournalExact(s) && NonNegative(s.journal)
    requires AgreesAt(s.journal, s.milestones, s.refunds, m)
    ensures EscrowAgreesAt(JournalAfter(s, w), MilestonesAfter(s, w), RefundsAfter(s, w), m) <==> !RacyCapture(s, w, m)
    ensures AgreesAt(JournalAfter(s, w), MilestonesAfter(s, w), RefundsAfter(s, w), m) <==> !RacyCapture(s, w, m)
  {
    MilestonesExtend(s, w);
    hide Guarded, RowsOk, JournalExact, NonNegative, MilestonesAfter, JournalAfter, RefundsAfter, RacyCapture;
    hide Agrees, FullRefunds, Balance, Outstanding;
    if RacyCapture(s, w, m) {
      RacyBreaks(s, w, m);
    } else {
      EscrowStep(s, w, m);
      FullRefundsKept(s, w, m);
    }
  }
}
