/** The invariant of every run, put together from its parts. */
module Invariant {
  import opened Ledger
  import opened Records
  import opened Transactions
  import opened Rows
  import opened Journaled
  import opened Solvency
  import opened Accounts
  import opened Transfers
  import opened Settlement
  import opened EscrowStatus
  import opened Explained
  import opened Answers
  import opened Contracts
  import opened System

  ghost predicate BooksOk(s: State) {
    && JournalExact(s)
    && AllBalanced(s.journal)
    && NonNegative(s.journal)
    && ClearingExplained(s)
    && TransfersExact(s.journal, s.refunds, s.payouts)
    && Untouched(s.journal, |s.milestones|)
    && EscrowExplained(s.journal, s.milestones, s.intents, s.refunds)
  }

  predicate KeysOk(s: State) {
    && IntentKeys(s.intents, s.idem)
    && RefundKeys(s.refunds, s.idem)
    && PayoutKeys(s.payouts, s.idem)
    && RequestsOk(s.idem, s.milestones, s.contracts, s.disputes)
  }

  ghost predicate Inv(s: State) {
    && RowsOk(s)
    && BooksOk(s)
    && KeysOk(s)
    && ContractsOk(s)
    && SettlementsOk(s.journal, s.milestones, s.contracts, s.disputes)
    && CountsOk(s.journal, s.milestones)
  }

  lemma BalancedKept(s: State, w: Write)
    requires Guarded(s, w) && WellPosted(s, w) && JournalExact(s) && AllBalanced(s.journal)
    ensures AllBalanced(JournalAfter(s, w))
  {
    JournalAppended(s, w);
  }

  lemma BooksKept(s: State, w: Write)
    requires Guarded(s, w) && WellPosted(s, w) && RowsOk(s) && BooksOk(s)
    ensures BooksOk(Commit(s, w))
  {
    JournalKept(s, w);
    BalancedKept(s, w);
    NonNegativeKept(s, w);
    ClearingKept(s, w);
    TransfersKept(s, w);
    UntouchedKept(s, w);
    ExplainedKept(s, w);
  }

  lemma KeysKept(s: State, w: Write)
    requires Guarded(s, w) && WellScoped(s, w) && RowsOk(s) && KeysOk(s)
    ensures KeysOk(Commit(s, w))
    ensures AnswersStay(s.idem, Commit(s, w).idem)
  {
    AnswersKept(s, w);
    IntentKeysKept(s, w);
    RefundKeysKept(s, w);
    PayoutKeysKept(s, w);
    RequestsKept(s, w);
  }

  /** Every transaction a service decides on keeps the invariant. */
  lemma InvKept(s: State, w: Write)
    requires Lawful(s, w) && Inv(s)
    ensures Inv(Commit(s, w))
  {
    RowsKept(s, w);
    BooksKept(s, w);
    KeysKept(s, w);
    ContractsKept(s, w);
    MilestonesKept(s, w);
    SettlementsKept(s, w);
    CountsKept(s, w);
  }

  lemma EmptyBooks()
    ensures BooksOk(Empty)
  {
    hide Acceptable, RefundOk, PayoutOk, Moved;
    assert Keys(Empty.journal) == {};
  }

  lemma EmptyInv()
    ensures Inv(Empty)
  {
    EmptyBooks();
    hide BooksOk;
  }

  lemma StepKeeps(s: State, step: Step)
    requires Inv(s)
    ensures Inv(Apply(s, step))
  {
    hide Inv;
    InvKept(s, Decide(s, step).write);
  }

  lemma {:induction false} RunKeeps(s: State, steps: seq<Step>)
    requires Inv(s)
    ensures Inv(Run(s, steps))
  {
    hide Inv, Decide, Apply;
    if steps != [] {
      var front := steps[..|steps| - 1];
      RunKeeps(s, front);
      StepKeeps(Run(s, front), steps[|steps| - 1]);
    }
  }

  /** Every reachable database, after any interleaving of any steps, satisfies the invariant. */
  lemma ReachedInv(s: State)
    requires Reached(s)
    ensures Inv(s)
  {
    hide Inv, Decide, Apply;
    var steps :| Run(Empty, steps) == s;
    EmptyInv();
    RunKeeps(Empty, steps);
  }

  lemma {:induction false} RunSplit(s: State, a: seq<Step>, b: seq<Step>)
    ensures Run(s, a + b) == Run(Run(s, a), b)
  {
    hide Decide, Apply;
    if b == [] {
      assert a + b == a;
    } else {
      var front := b[..|b| - 1];
      assert (a + b)[..|a + b| - 1] == a + front;
      RunSplit(s, a, front);
    }
  }

  /** What a run reaches, continued by another run, is reached. */
  lemma ReachedOn(s: State, more: seq<Step>)
    requires Reached(s)
    ensures Reached(Run(s, more))
  {
    hide Decide, Apply;
    var steps :| Run(Empty, steps) == s;
    RunSplit(Empty, steps, more);
  }

  lemma RunSnoc(s: State, steps: seq<Step>, step: Step)
    ensures Run(s, steps + [step]) == Apply(Run(s, steps), step)
  {
    hide Decide, Apply;
    assert (steps + [step])[..|steps|] == steps;
  }

  lemma ReachedNext(s: State, step: Step)
    requires Reached(s)
    ensures Reached(Apply(s, step))
  {
    hide Decide, Apply;
    RunSnoc(s, [], step);
    ReachedOn(s, [] + [step]);
  }
}
