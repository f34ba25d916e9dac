/** Lives of contracts, and event logs, over whole runs. */
module Lives {
  import opened Basics
  import opened Ledger
  import opened Records
  import opened Transactions
  import opened Rows
  import opened EscrowStatus
  import opened Contracts
  import opened Invariant
  import opened System
  import opened Journaled
  import opened Solvency
  import opened Answers
  import opened Explained
  import opened MoneyTheorems
  import Payments

  // ---- Activation -------------------------------------------------------------------------------

  function OtherParty(c: Contract, user: Id): Id {
    if user == c.employer then c.freelancer else c.employer
  }

  /** The write adds the signature of a party who had not signed, on the current document, after the other party did. */
  predicate CompletesSignatures(s: State, w: Write, c: Id)
    requires c < |s.contracts|
  {
    && w.AddSignature? && w.signature.contract == c && w.signature.document == s.contracts[c].document
    && w.signature.user in {s.contracts[c].employer, s.contracts[c].freelancer}
    && !HasSigned(s.signatures, c, w.signature.user)
    && HasSigned(s.signatures, c, OtherParty(s.contracts[c], w.signature.user))
    && s.contracts[c].status == PendingSignatures
  }

  lemma ActivationIff(s: State, w: Write, c: Id)
    requires Guarded(s, w) && SignaturesOk(s.signatures, s.contracts) && ActivationOk(s.signatures, s.contracts)
    requires c < |s.contracts| && s.contracts[c].status != Active
    ensures c < |ContractsAfter(s, w)|
    ensures ContractsAfter(s, w)[c].status == Active <==> CompletesSignatures(s, w, c)
  {
    if w.AddSignature? && w.signature.contract == c {
      SignedMore(s.signatures, w.signature, c, s.contracts[c].employer);
      SignedMore(s.signatures, w.signature, c, s.contracts[c].freelancer);
    }
  }

  /** A contract becomes ACTIVE exactly at the step that adds the last required signature on its document. */
  lemma BecomesActiveIff(s: State, step: Step, c: Id)
    requires Reached(s) && c < |s.contracts| && s.contracts[c].status != Active
    ensures c < |Apply(s, step).contracts|
    ensures Apply(s, step).contracts[c].status == Active <==> CompletesSignatures(s, Decide(s, step).write, c)
  {
    hide Run, CompletesSignatures, SignaturesOk, ActivationOk, RowsOk, BooksOk, KeysOk;
    ReachedInv(s);
    ActivationIff(s, Decide(s, step).write, c);
    hide Decide;
  }

  /** An uncancelled contract is ACTIVE exactly when both parties have signed its document. */
  predicate SignedIsActive(s: State, c: Id)
    requires c < |s.contracts|
  {
    s.contracts[c].status != Cancelled ==>
      (s.contracts[c].status == Active <==>
        && SignedOn(s, c, s.contracts[c].employer)
        && SignedOn(s, c, s.contracts[c].freelancer))
  }

  predicate SignedOn(s: State, c: Id, user: Id)
    requires c < |s.contracts|
  {
    exists g :: (
      0 <= g < |s.signatures| && s.signatures[g] == Signature(c, user, s.contracts[c].document, s.signatures[g].key))
  }

  lemma ActiveIffSigned(s: State, c: Id)
    requires Reached(s) && c < |s.contracts|
    ensures SignedIsActive(s, c)
  {
    hide Run;
    ReachedInv(s);
    hide RowsOk, BooksOk, KeysOk, Reached;
    SignedMeans(s, c, s.contracts[c].employer);
    SignedMeans(s, c, s.contracts[c].freelancer);
  }

  lemma SignedMeans(s: State, c: Id, user: Id)
    requires SignaturesOk(s.signatures, s.contracts) && c < |s.contracts|
    ensures HasSigned(s.signatures, c, user) <==> SignedOn(s, c, user)
  {
    if HasSigned(s.signatures, c, user) {
      var i :| 0 <= i < |s.signatures| && s.signatures[i].contract == c && s.signatures[i].user == user;
      assert s.signatures[i] == Signature(c, user, s.contracts[c].document, s.signatures[i].key);
    }
  }

  // ---- Terms ------------------------------------------------------------------------------------

  /** A new contract states the terms of the newest version of its proposal. */
  predicate StatesNewest(s: State, w: Write) {
    w.AcceptProposal? ==>
      && w.id < |s.proposals| && s.proposals[w.id].versions != []
      && var p := s.proposals[w.id];
      w.contract.document == TermsOf(p, w.id, p.versions[|p.versions| - 1], w.contract.document.bps)
  }

  lemma StatesNewestNow(s: State, w: Write)
    requires Guarded(s, w) && ProposalsOk(s.proposals)
    ensures StatesNewest(s, w)
  {
    hide TermsOf, FairVersion;
    if w.AcceptProposal? {
      assert ProposalOk(s.proposals[w.id]);
    }
  }

  /** Whatever versions were negotiated, a step that makes a contract signs up the newest one. */
  lemma NewestTermsSigned(s: State, step: Step)
    requires Reached(s)
    ensures StatesNewest(s, Decide(s, step).write)
  {
    hide Run, StatesNewest, ProposalsOk, BooksOk, KeysOk, ContractsOk;
    ReachedInv(s);
    StatesNewestNow(s, Decide(s, step).write);
    hide Decide;
  }

  // ---- Cancellation -----------------------------------------------------------------------------

  /** A cancelled contract and the rows of its milestones are the same afterwards. */
  predicate CancelStands(before: State, after: State, c: Id)
    requires c < |before.contracts| && before.contracts[c].status == Cancelled
  {
    && c < |after.contracts| && after.contracts[c] == before.contracts[c]
    && |before.milestones| <= |after.milestones|
    && forall m :: 0 <= m < |before.milestones| && before.milestones[m].contract == c ==>
        after.milestones[m] == before.milestones[m]
  }

  lemma CancelStandsWrite(s: State, w: Write, c: Id)
    requires Guarded(s, w) && MilestonesOk(s.milestones, s.contracts)
    requires c < |s.contracts| && s.contracts[c].status == Cancelled
    ensures CancelStands(s, Commit(s, w), c)
  {
    hide Balance, JournalAfter, IdemAfter;
  }

  lemma CancelStandsStep(s: State, step: Step, c: Id)
    requires Reached(s) && c < |s.contracts| && s.contracts[c].status == Cancelled
    ensures CancelStands(s, Apply(s, step), c)
  {
    hide Run, CancelStands, Commit, MilestonesOk, BooksOk, KeysOk;
    ReachedInv(s);
    CancelStandsWrite(s, Decide(s, step).write, c);
    hide Decide;
  }

  /** CANCELLED is absorbing: neither the contract nor any row of its milestones ever changes again. */
  lemma {:induction false} CancelledForever(s: State, steps: seq<Step>, c: Id)
    requires Reached(s) && c < |s.contracts| && s.contracts[c].status == Cancelled
    ensures CancelStands(s, Run(s, steps), c)
  {
    hide Apply, Decide, Reached;
    if steps != [] {
      var front := steps[..|steps| - 1];
      CancelledForever(s, front, c);
      ReachedOn(s, front);
      CancelStandsStep(Run(s, front), steps[|steps| - 1], c);
    }
  }

  predicate Of(s: State, m: Id, c: Id) { m < |s.milestones| && s.milestones[m].contract == c }

  predicate EscrowsEmpty(s: State, c: Id) {
    forall m :: 0 <= m < |s.milestones| && Of(s, m, c) ==> Balance(s.journal, EscrowOf(s, m)) == 0
  }

  /** What was captured for each milestone of the contract has been refunded, or is being refunded. */
  predicate RepaidInFull(s: State, c: Id) {
    forall m :: 0 <= m < |s.milestones| && Of(s, m, c) ==> PaidIn(s.intents, m) == PaidBack(s.refunds, m)
  }

  /** No refund of any milestone of the contract is still waiting for its provider. */
  predicate NoPendingRefund(s: State, c: Id) {
    forall r :: 0 <= r < |s.refunds| && s.refunds[r].status == Pending ==> !Of(s, s.refunds[r].milestone, c)
  }

  ghost predicate EmptyForever(s: State, c: Id) {
    forall steps :: EscrowsEmpty(Run(s, steps), c)
  }

  /** The escrows of a cancelled contract are empty exactly when its captured payments have been refunded in full. */
  lemma CancelledEmptyIff(s: State, c: Id)
    requires Reached(s) && c < |s.contracts| && s.contracts[c].status == Cancelled
    ensures EscrowsEmpty(s, c) <==> RepaidInFull(s, c)
  {
    hide Run;
    ReachedInv(s);
    hide Reached, Balance, PaidIn, PaidBack;
    IdleContract(s, c);
  }

  /** While a cancelled contract has no pending refund, no write touches its payments and refunds. */
  lemma QuietWrite(s: State, w: Write, c: Id, m: Id)
    requires Guarded(s, w) && MilestonesOk(s.milestones, s.contracts) && NoPendingRefund(s, c) && Of(s, m, c)
    requires c < |s.contracts| && s.contracts[c].status == Cancelled
    ensures PaidIn(IntentsAfter(s, w), m) == PaidIn(s.intents, m)
    ensures PaidBack(RefundsAfter(s, w), m) == PaidBack(s.refunds, m)
  {
    hide PaidIn, PaidBack, IntentsAfter, RefundsAfter, Balance;
    MoneyRowsMove(s, w);
    PaidInAfter(s, w, m);
    PaidBackAfter(s, w, m);
  }

  lemma StaysQuiet(s: State, w: Write, c: Id)
    requires Guarded(s, w) && NoPendingRefund(s, c) && c < |s.contracts| && s.contracts[c].status == Cancelled
    requires RefundsOk(s.refunds, s.milestones)
    ensures forall r :: 0 <= r < |RefundsAfter(s, w)| && RefundsAfter(s, w)[r].status == Pending ==>
              !Of(s, RefundsAfter(s, w)[r].milestone, c)
  {
    assert Addresses(s, w);
    forall r | 0 <= r < |RefundsAfter(s, w)| && RefundsAfter(s, w)[r].status == Pending
      ensures !Of(s, RefundsAfter(s, w)[r].milestone, c)
    {
      PendingRefunds(s, w, r);
    }
  }

  /** New milestones belong to new contracts. */
  lemma SameMilestones(s: State, w: Write, c: Id, m: Id)
    requires Addresses(s, w) && c < |s.contracts|
    ensures Of(s, m, c) <==> m < |MilestonesAfter(s, w)| && MilestonesAfter(s, w)[m].contract == c
  {
  }

  /** Cancelled, repaid in full, and nothing pending. */
  predicate Settled(s: State, c: Id) {
    && c < |s.contracts| && s.contracts[c].status == Cancelled
    && RepaidInFull(s, c) && NoPendingRefund(s, c)
  }

  lemma SettledWrite(s: State, w: Write, c: Id)
    requires Guarded(s, w) && MilestonesOk(s.milestones, s.contracts) && RefundsOk(s.refunds, s.milestones)
    requires Settled(s, c)
    ensures Settled(Commit(s, w), c)
  {
    CancelStandsWrite(s, w, c);
    StaysQuiet(s, w, c);
    assert Addresses(s, w);
    hide Guarded, MilestonesOk, RefundsOk, PaidIn, PaidBack, IntentsAfter, RefundsAfter, MilestonesAfter;
    forall m | 0 <= m < |Commit(s, w).milestones| && Of(Commit(s, w), m, c)
      ensures PaidIn(Commit(s, w).intents, m) == PaidBack(Commit(s, w).refunds, m)
    {
      SameMilestones(s, w, c, m);
      QuietWrite(s, w, c, m);
    }
    forall r | 0 <= r < |Commit(s, w).refunds| && Commit(s, w).refunds[r].status == Pending
      ensures !Of(Commit(s, w), Commit(s, w).refunds[r].milestone, c)
    {
      SameMilestones(s, w, c, Commit(s, w).refunds[r].milestone);
    }
  }

  lemma SettledStep(s: State, step: Step, c: Id)
    requires Reached(s) && Settled(s, c)
    ensures Settled(Apply(s, step), c)
  {
    hide Run, Settled, Commit, MilestonesOk, RefundsOk, BooksOk, KeysOk;
    ReachedInv(s);
    SettledWrite(s, Decide(s, step).write, c);
    hide Decide;
  }

  lemma {:induction false} SettledForever(s: State, steps: seq<Step>, c: Id)
    requires Reached(s) && Settled(s, c)
    ensures Settled(Run(s, steps), c)
  {
    hide Apply, Decide, Reached, Settled;
    if steps != [] {
      var front := steps[..|steps| - 1];
      SettledForever(s, front, c);
      ReachedOn(s, front);
      SettledStep(Run(s, front), steps[|steps| - 1], c);
    }
  }

  lemma SettledIsEmpty(s: State, c: Id)
    requires Reached(s) && Settled(s, c)
    ensures EscrowsEmpty(s, c)
  {
    hide Run, Reached, EscrowsEmpty, RepaidInFull, NoPendingRefund;
    CancelledEmptyIff(s, c);
  }

  /** A pending refund whose provider refuses puts its amount back into the escrow. */
  lemma RefusalRefills(s: State, r: Id)
    requires RefundsOk(s.refunds, s.milestones) && RefundKeys(s.refunds, s.idem) && JournalExact(s)
    requires r < |s.refunds| && s.refunds[r].status == Pending
    ensures var m := s.refunds[r].milestone;
      var after := Commit(s, Payments.SettleRefundOf(s, r, false, HardError).write);
      && m < |s.milestones| && m < |after.milestones| && EscrowOf(after, m) == EscrowOf(s, m)
      && after.milestones[m].contract == s.milestones[m].contract
      && Balance(after.journal, EscrowOf(s, m)) == Balance(s.journal, EscrowOf(s, m)) + s.refunds[r].amount
  {
    var row := s.refunds[r];
    assert RefundOk(row, s.milestones) && RefundAnswered(r, row, s.idem);
    TransferAcceptable(Clearing(row.provider, row.currency), EscrowOf(s, row.milestone), row.amount);
    hide JournalExact, Acceptable, RefundsOk, RefundKeys, Balance;
    var w := ReverseRefund(r, None);
    assert Payments.SettleRefundOf(s, r, false, HardError).write == w;
    TotalAfter(s, w, Is(EscrowOf(s, row.milestone)));
    EscrowEffect(s, w, row.milestone);
  }

  function Refused(s: State, r: Id): State { Commit(s, Payments.SettleRefundOf(s, r, false, HardError).write) }

  lemma Refills(s: State, r: Id, c: Id)
    requires RefundsOk(s.refunds, s.milestones) && RefundKeys(s.refunds, s.idem) && JournalExact(s)
    requires r < |s.refunds| && s.refunds[r].status == Pending && Of(s, s.refunds[r].milestone, c) && EscrowsEmpty(s, c)
    ensures !EscrowsEmpty(Refused(s, r), c)
  {
    RefusalRefills(s, r);
    assert RefundOk(s.refunds[r], s.milestones);
    hide RefundsOk, RefundKeys, JournalExact, Balance, Payments.SettleRefundOf, Commit;
    var m := s.refunds[r].milestone;
    assert Of(Refused(s, r), m, c) && Balance(Refused(s, r).journal, EscrowOf(Refused(s, r), m)) != 0;
  }

  lemma AnswerRefuses(s: State, r: Id)
    ensures Apply(s, RefundAnswer(r, false, HardError)) == Refused(s, r)
  {
    hide Lawful, Commit, Payments.SettleRefundOf;
  }

  lemma RefillStep(s: State, r: Id, c: Id)
    requires Reached(s) && r < |s.refunds| && s.refunds[r].status == Pending && Of(s, s.refunds[r].milestone, c)
    requires EscrowsEmpty(s, c)
    ensures !EscrowsEmpty(Apply(s, RefundAnswer(r, false, HardError)), c)
  {
    hide Run, Apply, Decide, Refused, MilestonesOk, JournalExact, EscrowsEmpty, RefundsOk, RefundKeys;
    ReachedInv(s);
    hide Reached;
    AnswerRefuses(s, r);
    Refills(s, r, c);
  }

  /**
   The escrows of a cancelled contract are empty and stay empty through every later run if and only if its
   captured payments have been refunded in full and none of those refunds is still pending.
   */
  lemma EmptyForeverIff(s: State, c: Id)
    requires Reached(s) && c < |s.contracts| && s.contracts[c].status == Cancelled
    ensures EmptyForever(s, c) <==> RepaidInFull(s, c) && NoPendingRefund(s, c)
  {
    hide Apply, Decide, Reached, EscrowsEmpty, RepaidInFull;
    if Settled(s, c) {
      forall steps ensures EscrowsEmpty(Run(s, steps), c) {
        SettledForever(s, steps, c);
        ReachedOn(s, steps);
        SettledIsEmpty(Run(s, steps), c);
      }
    } else if !RepaidInFull(s, c) {
      CancelledEmptyIff(s, c);
      assert Run(s, []) == s;
    } else {
      CancelledEmptyIff(s, c);
      var r :| 0 <= r < |s.refunds| && s.refunds[r].status == Pending && Of(s, s.refunds[r].milestone, c);
      RefillStep(s, r, c);
      RunSnoc(s, [], RefundAnswer(r, false, HardError));
      assert Run(s, []) == s;
    }
  }

  /** It is enough that status and escrow of the contract's own milestones agree, whatever happens elsewhere. */
  lemma AgreeingIsSettled(s: State, c: Id)
    requires Reached(s) && c < |s.contracts| && s.contracts[c].status == Cancelled
    requires forall m :: 0 <= m < |s.milestones| && Of(s, m, c) ==> Agreement(s, m)
    ensures EmptyForever(s, c)
  {
    hide Run;
    ReachedInv(s);
    hide Reached, Balance;
    IdleContract(s, c);
    forall r | 0 <= r < |s.refunds| && s.refunds[r].status == Pending ensures !Of(s, s.refunds[r].milestone, c) {
      OutstandingCovers(s.refunds, s.milestones, r);
    }
    hide Outstanding;
    assert EscrowsEmpty(s, c);
    hide EmptyForever, EscrowsEmpty, RepaidInFull, NoPendingRefund;
    CancelledEmptyIff(s, c);
    EmptyForeverIff(s, c);
  }

  // ---- Event logs -------------------------------------------------------------------------------

  /** In every reachable database the logs of all milestones and disputes chain up to the stored status. */
  lemma LogsReplay(s: State)
    requires Reached(s)
    ensures forall m :: 0 <= m < |s.milestones| ==> MilestoneLog(s.milestones[m])
    ensures forall d :: 0 <= d < |s.disputes| ==> DisputeLog(s.disputes[d])
  {
    hide Run, MilestoneLog, DisputeLog;
    ReachedInv(s);
  }
}
