/** The journal holds exactly the entries that the statuses of the records call for. */
module Journaled {
  import opened Basics
  import opened Ledger
  import opened Records
  import opened Transactions
  import opened Rows

  predicate Decided(disputes: seq<Dispute>, m: Id) {
    exists d :: 0 <= d < |disputes| && disputes[d].milestone == m && disputes[d].status == Resolved
  }

  predicate ReleasedRow(milestones: seq<Milestone>, disputes: seq<Dispute>, m: Id) {
    m < |milestones| && milestones[m].status == Released && !Decided(disputes, m)
  }

  predicate CapturedRow(intents: seq<Intent>, i: Id) { i < |intents| && intents[i].status == IntentCaptured }

  predicate ResolvedRow(disputes: seq<Dispute>, d: Id) { d < |disputes| && disputes[d].status == Resolved }

  predicate ReservedRow(refunds: seq<Refund>, r: Id) { r < |refunds| && refunds[r].key.operation == RefundOperation }

  predicate FailedRefund(refunds: seq<Refund>, r: Id) { r < |refunds| && refunds[r].status == Failed }

  predicate FailedPayout(payouts: seq<Payout>, p: Id) { p < |payouts| && payouts[p].status == Failed }

  /** The journals a database must contain, read off its statuses alone. */
  predicate Due(milestones: seq<Milestone>, intents: seq<Intent>, refunds: seq<Refund>, payouts: seq<Payout>,
                disputes: seq<Dispute>, key: Key) {
    var ref := key.reference;
    match key.operation
    case MilestoneFund => ref.IntentRef? && CapturedRow(intents, ref.id)
    case MilestoneRelease => ref.MilestoneRef? && ReleasedRow(milestones, disputes, ref.id)
    case DisputeResolution => ref.DisputeRef? && ResolvedRow(disputes, ref.id)
    case MilestoneRefund => ref.RefundRef? && ReservedRow(refunds, ref.id)
    case PayoutOut => ref.PayoutRef? && ref.id < |payouts|
    case Reversal =>
      (ref.RefundRef? && FailedRefund(refunds, ref.id)) || (ref.PayoutRef? && FailedPayout(payouts, ref.id))
  }

  predicate DueIn(s: State, key: Key) {
    Due(s.milestones, s.intents, s.refunds, s.payouts, s.disputes, key)
  }

  predicate DistinctKeys(journal: seq<Journal>) {
    forall i, k :: 0 <= i < k < |journal| ==> journal[i].key != journal[k].key
  }

  ghost predicate Exact(journal: seq<Journal>, milestones: seq<Milestone>, intents: seq<Intent>, refunds: seq<Refund>,
                        payouts: seq<Payout>, disputes: seq<Dispute>) {
    && DistinctKeys(journal)
    && forall key :: key in Keys(journal) <==> Due(milestones, intents, refunds, payouts, disputes, key)
  }

  ghost predicate JournalExact(s: State) {
    Exact(s.journal, s.milestones, s.intents, s.refunds, s.payouts, s.disputes)
  }

  lemma FundDue(s: State, w: Write, i: Id)
    requires Guarded(s, w)
    ensures CapturedRow(IntentsAfter(s, w), i) <==> CapturedRow(s.intents, i) || (w.CaptureIntent? && w.id == i)
  {
  }

  lemma PayoutDue(s: State, w: Write, p: Id)
    requires Guarded(s, w)
    ensures p < |PayoutsAfter(s, w)| <==> p < |s.payouts| || (w.ReservePayout? && p == |s.payouts|)
    ensures FailedPayout(PayoutsAfter(s, w), p) <==> FailedPayout(s.payouts, p) || (w.ReversePayout? && w.id == p)
  {
  }

  lemma RefundDue(s: State, w: Write, r: Id)
    requires Guarded(s, w)
    ensures ReservedRow(RefundsAfter(s, w), r) <==> ReservedRow(s.refunds, r) || (w.ReserveRefund? && r == |s.refunds|)
    ensures FailedRefund(RefundsAfter(s, w), r) <==> FailedRefund(s.refunds, r) || (w.ReverseRefund? && w.id == r)
  {
  }

  lemma DisputeDue(s: State, w: Write, d: Id)
    requires Guarded(s, w)
    ensures ResolvedRow(DisputesAfter(s, w), d) <==> ResolvedRow(s.disputes, d) || (w.ResolveDispute? && w.id == d)
  {
  }

  lemma DecidedSet(disputes: seq<Dispute>, id: Id, row: Dispute, m: Id)
    requires id < |disputes| && row.milestone == disputes[id].milestone && disputes[id].status != Resolved
    ensures Decided(disputes[id := row], m) <==> Decided(disputes, m) || (row.milestone == m && row.status == Resolved)
  {
    var after := disputes[id := row];
    assert after[id] == row;
    if Decided(disputes, m) {
      var d :| 0 <= d < |disputes| && disputes[d].milestone == m && disputes[d].status == Resolved;
      assert after[d] == disputes[d];
    }
  }

  lemma DecidedAdd(disputes: seq<Dispute>, row: Dispute, m: Id)
    requires row.status != Resolved
    ensures Decided(disputes + [row], m) <==> Decided(disputes, m)
  {
    if Decided(disputes, m) {
      var d :| 0 <= d < |disputes| && disputes[d].milestone == m && disputes[d].status == Resolved;
      assert (disputes + [row])[d] == disputes[d];
    }
  }

  lemma DecidedKept(s: State, w: Write, m: Id)
    requires Guarded(s, w)
    ensures Decided(DisputesAfter(s, w), m) <==>
      Decided(s.disputes, m) || (w.ResolveDispute? && s.disputes[w.id].milestone == m)
  {
    match w {
      case OpenDispute(id, user) => DecidedAdd(s.disputes, NewDispute(id, s.milestones[id].contract, user), m);
      case AddEvidence(id, _) => DecidedSet(s.disputes, id, DisputesAfter(s, w)[id], m);
      case MoveDispute(id, _) => DecidedSet(s.disputes, id, DisputesAfter(s, w)[id], m);
      case ResolveDispute(id, decision, _, _, _, _) => DecidedSet(s.disputes, id, ResolvedDispute(s, id, decision), m);
      case _ =>
    }
  }

  lemma ReleaseDue(s: State, w: Write, m: Id)
    requires Guarded(s, w) && DisputesOk(s.disputes, s.milestones)
    ensures ReleasedRow(MilestonesAfter(s, w), DisputesAfter(s, w), m) <==>
      ReleasedRow(s.milestones, s.disputes, m) || (w.ReleaseMilestone? && w.id == m)
  {
    DecidedKept(s, w, m);
  }

  /** The key of the journal a write posts. */
  function EntryKey(s: State, w: Write): Option<Key> {
    match w
    case CaptureIntent(_, _, id) => Some(Key(MilestoneFund, IntentRef(id)))
    case ReleaseMilestone(id, _, _) => Some(Key(MilestoneRelease, MilestoneRef(id)))
    case ReserveRefund(_, _, _, _, _) => Some(Key(MilestoneRefund, RefundRef(|s.refunds|)))
    case ReverseRefund(id, _) => Some(Key(Reversal, RefundRef(id)))
    case ReservePayout(_, _) => Some(Key(PayoutOut, PayoutRef(|s.payouts|)))
    case ReversePayout(id) => Some(Key(Reversal, PayoutRef(id)))
    case ResolveDispute(id, _, _, _, _, _) => Some(Key(DisputeResolution, DisputeRef(id)))
    case _ => None
  }

  lemma EntryHasKey(s: State, w: Write)
    requires Addresses(s, w)
    ensures EntryKey(s, w) == if Entry(s, w).Some? then Some(Entry(s, w).value.key) else None
  {
  }

  lemma DueByKind(s: State, w: Write, milestones: seq<Milestone>, intents: seq<Intent>, refunds: seq<Refund>,
                  payouts: seq<Payout>, disputes: seq<Dispute>, key: Key)
    requires var i := key.reference.id;
      && (CapturedRow(intents, i) <==> CapturedRow(s.intents, i) || (w.CaptureIntent? && w.id == i))
      && (ReleasedRow(milestones, disputes, i)
          <==> ReleasedRow(s.milestones, s.disputes, i) || (w.ReleaseMilestone? && w.id == i))
      && (ResolvedRow(disputes, i) <==> ResolvedRow(s.disputes, i) || (w.ResolveDispute? && w.id == i))
      && (ReservedRow(refunds, i) <==> ReservedRow(s.refunds, i) || (w.ReserveRefund? && i == |s.refunds|))
      && (FailedRefund(refunds, i) <==> FailedRefund(s.refunds, i) || (w.ReverseRefund? && w.id == i))
      && (i < |payouts| <==> i < |s.payouts| || (w.ReservePayout? && i == |s.payouts|))
      && (FailedPayout(payouts, i) <==> FailedPayout(s.payouts, i) || (w.ReversePayout? && w.id == i))
    ensures Due(milestones, intents, refunds, payouts, disputes, key) <==> DueIn(s, key) || EntryKey(s, w) == Some(key)
  {
  }

  /** What a write makes due: exactly the key of the journal it posts, which was not due before. */
  lemma NewlyDue(s: State, w: Write, key: Key)
    requires Guarded(s, w) && DisputesOk(s.disputes, s.milestones)
    ensures Due(MilestonesAfter(s, w), IntentsAfter(s, w), RefundsAfter(s, w), PayoutsAfter(s, w), DisputesAfter(s, w),
                key)
      <==> DueIn(s, key) || EntryKey(s, w) == Some(key)
  {
    var id := key.reference.id;
    FundDue(s, w, id);
    ReleaseDue(s, w, id);
    DisputeDue(s, w, id);
    RefundDue(s, w, id);
    PayoutDue(s, w, id);
    DueByKind(s, w, MilestonesAfter(s, w), IntentsAfter(s, w), RefundsAfter(s, w), PayoutsAfter(s, w),
              DisputesAfter(s, w), key);
  }

  lemma EntryIsNew(s: State, w: Write)
    requires Guarded(s, w)
    ensures EntryKey(s, w).Some? ==> !DueIn(s, EntryKey(s, w).value)
  {
  }

  lemma DistinctAppend(journal: seq<Journal>, entry: Journal)
    requires DistinctKeys(journal) && entry.key !in Keys(journal)
    ensures DistinctKeys(journal + [entry])
  {
    forall i | 0 <= i < |journal| ensures journal[i].key != entry.key {
      assert journal[i].key in Keys(journal);
    }
  }

  lemma JournalAppended(s: State, w: Write)
    requires Guarded(s, w) && JournalExact(s)
    ensures Entry(s, w).Some? ==> Entry(s, w).value.key !in Keys(s.journal)
    ensures JournalAfter(s, w) == if Entry(s, w).Some? then s.journal + [Entry(s, w).value] else s.journal
  {
    EntryHasKey(s, w);
    EntryIsNew(s, w);
    if Entry(s, w).Some? {
      FreshAppend(s.journal, Entry(s, w).value);
    }
  }

  lemma ExactKept(s: State, w: Write)
    requires Guarded(s, w) && DisputesOk(s.disputes, s.milestones) && JournalExact(s)
    ensures Exact(JournalAfter(s, w), MilestonesAfter(s, w), IntentsAfter(s, w), RefundsAfter(s, w), PayoutsAfter(s, w),
                  DisputesAfter(s, w))
  {
    JournalAppended(s, w);
    EntryHasKey(s, w);
    if Entry(s, w).Some? {
      KeysAppend(s.journal, Entry(s, w).value);
      DistinctAppend(s.journal, Entry(s, w).value);
    }
    forall key ensures key in Keys(JournalAfter(s, w)) <==>
      Due(MilestonesAfter(s, w), IntentsAfter(s, w), RefundsAfter(s, w), PayoutsAfter(s, w), DisputesAfter(s, w), key)
    {
      NewlyDue(s, w, key);
    }
  }

  /**
   Statuses and entries move together: a write posts at most one journal, under a key no journal has,
   and the journals called for afterwards are the old ones and that one.
   */
  lemma JournalKept(s: State, w: Write)
    requires Guarded(s, w) && DisputesOk(s.disputes, s.milestones) && JournalExact(s)
    ensures JournalExact(Commit(s, w))
    ensures Entry(s, w).Some? ==> Entry(s, w).value.key !in Keys(s.journal)
    ensures Commit(s, w).journal == if Entry(s, w).Some? then s.journal + [Entry(s, w).value] else s.journal
  {
    ExactKept(s, w);
    JournalAppended(s, w);
  }
}
