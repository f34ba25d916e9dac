/** Two-phase refunds and payouts: what one record does to its wallet, escrow and clearing accounts. */
module Transfers {
  import opened Basics
  import opened Ledger
  import opened Records
  import opened Transactions
  import opened Rows
  import opened Journaled
  import opened Flows

  function FlowFor(ref: Reference, pick: Account -> bool): Journal -> int {
    (j: Journal) => if j.key.reference == ref then Flow(j.entries, pick) else 0
  }

  /** Net effect on the selected accounts of every journal about one record. */
  function NetFor(journal: seq<Journal>, ref: Reference, pick: Account -> bool): int {
    Sum(journal, FlowFor(ref, pick))
  }

  /**
   A reservation that was not reversed has moved `amount` out of `source` and into clearing, a reversed one
   nothing.
   */
  predicate Moved(journal: seq<Journal>, ref: Reference, source: Account, clearing: Account, amount: int,
                  status: TransferStatus) {
    var out := if status == Failed then 0 else amount;
    NetFor(journal, ref, Is(source)) == -out && NetFor(journal, ref, Is(clearing)) == out
  }

  predicate PayoutMoved(journal: seq<Journal>, id: Id, p: Payout) {
    Moved(journal, PayoutRef(id), Wallet(p.freelancer, p.currency), Clearing(p.provider, p.currency), p.amount,
          p.status)
  }

  predicate RefundMoved(journal: seq<Journal>, id: Id, r: Refund) {
    r.key.operation == RefundOperation ==>
      Moved(journal, RefundRef(id), Escrow(r.milestone, r.currency), Clearing(r.provider, r.currency), r.amount,
            r.status)
  }

  predicate TransfersExact(journal: seq<Journal>, refunds: seq<Refund>, payouts: seq<Payout>) {
    && (forall p :: 0 <= p < |payouts| ==> PayoutMoved(journal, p, payouts[p]))
    && (forall r :: 0 <= r < |refunds| ==> RefundMoved(journal, r, refunds[r]))
  }

  lemma NetForAppend(journal: seq<Journal>, entry: Journal, ref: Reference, pick: Account -> bool)
    ensures NetFor(journal + [entry], ref, pick)
         == NetFor(journal, ref, pick) + if entry.key.reference == ref then Flow(entry.entries, pick) else 0
  {
    SumAppend(journal, entry, FlowFor(ref, pick));
  }

  /** Effects of a write on one record: nothing unless its journal is about that record. */
  lemma NetForAfter(s: State, w: Write, ref: Reference, pick: Account -> bool)
    requires Guarded(s, w) && JournalExact(s)
    ensures NetFor(JournalAfter(s, w), ref, pick) == NetFor(s.journal, ref, pick)
      + if EntryKey(s, w).Some? && EntryKey(s, w).value.reference == ref then Effect(s, w, pick) else 0
  {
    JournalAppended(s, w);
    EntryHasKey(s, w);
    EntryFlow(s, w, pick);
    if Entry(s, w).Some? {
      NetForAppend(s.journal, Entry(s, w).value, ref, pick);
    }
  }

  /** Nothing has been posted about a record that does not exist yet. */
  lemma NothingPosted(s: State, ref: Reference, pick: Account -> bool)
    requires JournalExact(s)
    requires (ref.RefundRef? && ref.id >= |s.refunds|) || (ref.PayoutRef? && ref.id >= |s.payouts|)
    ensures NetFor(s.journal, ref, pick) == 0
  {
    forall i | 0 <= i < |s.journal| ensures FlowFor(ref, pick)(s.journal[i]) == 0 {
      assert s.journal[i].key in Keys(s.journal);
    }
    SumZero(s.journal, FlowFor(ref, pick));
  }

  lemma PayoutStep(s: State, w: Write, p: Id)
    requires Guarded(s, w) && JournalExact(s) && TransfersExact(s.journal, s.refunds, s.payouts)
    requires p < |PayoutsAfter(s, w)|
    ensures PayoutMoved(JournalAfter(s, w), p, PayoutsAfter(s, w)[p])
  {
    hide NetFor, JournalAfter, JournalExact, Balance, WellPosted;
    var row := PayoutsAfter(s, w)[p];
    var wallet, clearing := Is(Wallet(row.freelancer, row.currency)), Is(Clearing(row.provider, row.currency));
    NetForAfter(s, w, PayoutRef(p), wallet);
    NetForAfter(s, w, PayoutRef(p), clearing);
    if p == |s.payouts| {
      NothingPosted(s, PayoutRef(p), wallet);
      NothingPosted(s, PayoutRef(p), clearing);
    }
  }

  lemma RefundStep(s: State, w: Write, r: Id)
    requires Guarded(s, w) && RefundsOk(s.refunds, s.milestones) && JournalExact(s)
    requires TransfersExact(s.journal, s.refunds, s.payouts)
    requires r < |RefundsAfter(s, w)|
    ensures RefundMoved(JournalAfter(s, w), r, RefundsAfter(s, w)[r])
  {
    hide CanCapture, CanRelease, CanAccept, CanSign, CanCancel, CanClose, CanOpenIntent, CanRevise, CanMove, CanDispute;
    hide NetFor, JournalAfter, JournalExact, Balance, WellPosted;
    var row := RefundsAfter(s, w)[r];
    var escrow, clearing := Is(Escrow(row.milestone, row.currency)), Is(Clearing(row.provider, row.currency));
    NetForAfter(s, w, RefundRef(r), escrow);
    NetForAfter(s, w, RefundRef(r), clearing);
    if r == |s.refunds| {
      NothingPosted(s, RefundRef(r), escrow);
      NothingPosted(s, RefundRef(r), clearing);
    }
  }

  lemma TransfersKept(s: State, w: Write)
    requires Guarded(s, w) && RefundsOk(s.refunds, s.milestones) && JournalExact(s)
    requires TransfersExact(s.journal, s.refunds, s.payouts)
    ensures TransfersExact(JournalAfter(s, w), RefundsAfter(s, w), PayoutsAfter(s, w))
  {
    forall p | 0 <= p < |PayoutsAfter(s, w)| ensures PayoutMoved(JournalAfter(s, w), p, PayoutsAfter(s, w)[p]) {
      PayoutStep(s, w, p);
    }
    forall r | 0 <= r < |RefundsAfter(s, w)| ensures RefundMoved(JournalAfter(s, w), r, RefundsAfter(s, w)[r]) {
      RefundStep(s, w, r);
    }
  }

  // ---- First settle wins ------------------------------------------------------------------------

  /** A refund that has settled is never touched again, and a payout likewise. */
  lemma TerminalIsFinal(s: State, w: Write)
    requires Guarded(s, w)
    ensures forall r :: 0 <= r < |s.refunds| && s.refunds[r].status != Pending ==> RefundsAfter(s, w)[r] == s.refunds[r]
    ensures forall p :: 0 <= p < |s.payouts| && s.payouts[p].status != Pending ==> PayoutsAfter(s, w)[p] == s.payouts[p]
  {
  }
}
