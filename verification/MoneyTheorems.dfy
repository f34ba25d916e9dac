/** Main results about money, for every reachable database and every run. */
module MoneyTheorems {
  import opened Basics
  import opened Ledger
  import opened Records
  import opened Transactions
  import opened Rows
  import opened Journaled
  import opened Solvency
  import opened Accounts
  import opened Transfers
  import opened Settlement
  import opened EscrowStatus
  import opened Invariant
  import opened Webhooks
  import Payments
  import opened System

  // ---- Solvency ---------------------------------------------------------------------------------

  /** Whatever list covers the accounts used in a currency, their balances add up to zero. */
  ghost predicate SumsToZero(journal: seq<Journal>, currency: string) {
    forall accounts :: Covers(journal, OfCurrency(currency), accounts) ==> Sum(accounts, BalanceIn(journal)) == 0
  }

  /** In every reachable database and every currency the balances of all accounts add up to zero. */
  lemma BalancesSumToZero(s: State, currency: string)
    requires Reached(s)
    ensures SumsToZero(s.journal, currency)
  {
    hide Run, Covers, AllBalanced, Sum;
    ReachedInv(s);
    forall accounts | Covers(s.journal, OfCurrency(currency), accounts)
        ensures Sum(accounts, BalanceIn(s.journal)) == 0 {
      BalancesAddUp(s.journal, OfCurrency(currency), accounts);
      BooksBalance(s.journal, currency);
    }
  }

  /** Payouts and refunds that have not failed never exceed the captured funds. */
  predicate Covered(s: State, currency: string) {
    Sum(s.payouts, PaidOutIn(currency)) + Sum(s.refunds, RefundedIn(currency)) <= Sum(s.intents, CapturedIn(currency))
  }

  lemma CoveredNow(s: State, currency: string)
    requires AllBalanced(s.journal) && NonNegative(s.journal) && ClearingExplained(s)
    ensures Covered(s, currency)
  {
    BooksBalance(s.journal, currency);
    SplitTotal(s.journal, currency);
    OwedNonNegative(s.journal, currency);
    assert Total(s.journal, ClearingIn(currency)) <= 0;
  }

  /**
   In every reachable database no escrow, wallet or commission account is overdrawn, and in every currency
   the payouts and refunds that have not failed never exceed the captured funds.
   */
  lemma Solvent(s: State)
    requires Reached(s)
    ensures forall a: Account :: !a.Clearing? ==> Balance(s.journal, a) >= 0
    ensures forall currency :: Covered(s, currency)
  {
    hide Run, Covered;
    ReachedInv(s);
    forall currency ensures Covered(s, currency) {
      CoveredNow(s, currency);
    }
  }

  // ---- Status and entries -----------------------------------------------------------------------

  /** The write posts at most one journal, under a key no journal has, and makes due exactly that key. */
  ghost predicate PostsFresh(s: State, w: Write)
    requires Addresses(s, w)
  {
    && (Entry(s, w).Some? ==> Entry(s, w).value.key !in Keys(s.journal))
    && Commit(s, w).journal == (if Entry(s, w).Some? then s.journal + [Entry(s, w).value] else s.journal)
    && (forall key :: key in Keys(s.journal) <==> DueIn(s, key))
    && (forall key :: DueIn(Commit(s, w), key) <==> DueIn(s, key) || EntryKey(s, w) == Some(key))
  }

  lemma FreshWrite(s: State, w: Write)
    requires Guarded(s, w) && DisputesOk(s.disputes, s.milestones) && JournalExact(s)
    ensures PostsFresh(s, w)
  {
    hide DisputesOk, Due, Entry, EntryKey;
    JournalKept(s, w);
    forall key ensures DueIn(Commit(s, w), key) <==> DueIn(s, key) || EntryKey(s, w) == Some(key) {
      NewlyDue(s, w, key);
    }
  }

  /**
   From every reachable database, a step posts at most one journal, always under a key no journal has, and
   it makes due exactly that key: no status changes without its entries and no existing journal is reused.
   */
  lemma EntriesAreFresh(s: State, step: Step)
    requires Reached(s)
    ensures PostsFresh(s, Decide(s, step).write)
  {
    hide Run, PostsFresh;
    ReachedInv(s);
    FreshWrite(s, Decide(s, step).write);
  }

  /** Rows that have settled are the same afterwards. */
  predicate SettledRowsStay(before: State, after: State) {
    && |before.refunds| <= |after.refunds| && |before.payouts| <= |after.payouts|
    && (forall r :: 0 <= r < |before.refunds| && before.refunds[r].status != Pending ==>
        after.refunds[r] == before.refunds[r])
    && (forall p :: 0 <= p < |before.payouts| && before.payouts[p].status != Pending ==>
        after.payouts[p] == before.payouts[p])
  }

  lemma SettledRowsStep(s: State, step: Step)
    ensures SettledRowsStay(s, Apply(s, step))
  {
    TerminalIsFinal(s, Decide(s, step).write);
    hide Decide;
  }

  /** First settle wins: a refund or payout that has settled keeps its row through every later run. */
  lemma {:induction false} FirstSettleWins(s: State, steps: seq<Step>)
    ensures SettledRowsStay(s, Run(s, steps))
  {
    hide Apply, Decide;
    if steps != [] {
      var front := steps[..|steps| - 1];
      FirstSettleWins(s, front);
      SettledRowsStep(Run(s, front), steps[|steps| - 1]);
    }
  }

  /**
   The record has moved its amount from `source` into clearing while it is pending or succeeded and nothing
   once it failed; it has been reserved exactly once, and reversed (once) exactly when it failed.
   */
  predicate MovedOnce(journal: seq<Journal>, reservation: Key, source: Account, amount: int, status: TransferStatus) {
    && NetFor(journal, reservation.reference, Is(source)) == (if status == Failed then 0 else -amount)
    && reservation in Keys(journal)
    && (Key(Reversal, reservation.reference) in Keys(journal) <==> status == Failed)
    && DistinctKeys(journal)
  }

  predicate PayoutMovedOnce(s: State, p: Id)
    requires p < |s.payouts|
  {
    var row := s.payouts[p];
    MovedOnce(s.journal, Key(PayoutOut, PayoutRef(p)), Wallet(row.freelancer, row.currency), row.amount, row.status)
  }

  predicate RefundMovedOnce(s: State, r: Id)
    requires r < |s.refunds|
  {
    var row := s.refunds[r];
    MovedOnce(s.journal, Key(MilestoneRefund, RefundRef(r)), Escrow(row.milestone, row.currency), row.amount,
              row.status)
  }

  lemma PayoutMovesOnce(s: State, p: Id)
    requires JournalExact(s) && TransfersExact(s.journal, s.refunds, s.payouts) && p < |s.payouts|
    ensures PayoutMovedOnce(s, p)
  {
    assert PayoutMoved(s.journal, p, s.payouts[p]);
    assert DueIn(s, Key(PayoutOut, PayoutRef(p)));
    assert Key(Reversal, PayoutRef(p)) in Keys(s.journal) <==> DueIn(s, Key(Reversal, PayoutRef(p)));
  }

  lemma RefundMovesOnce(s: State, r: Id)
    requires JournalExact(s) && TransfersExact(s.journal, s.refunds, s.payouts) && r < |s.refunds|
    requires s.refunds[r].key.operation == RefundOperation
    ensures RefundMovedOnce(s, r)
  {
    assert RefundMoved(s.journal, r, s.refunds[r]);
    assert DueIn(s, Key(MilestoneRefund, RefundRef(r)));
    assert Key(Reversal, RefundRef(r)) in Keys(s.journal) <==> DueIn(s, Key(Reversal, RefundRef(r)));
  }

  /**
   In every reachable database every payout and employer refund has moved its money exactly once, or not at
   all if it failed.
   */
  lemma TransfersMoveOnce(s: State)
    requires Reached(s)
    ensures forall p :: 0 <= p < |s.payouts| ==> PayoutMovedOnce(s, p)
    ensures forall r :: 0 <= r < |s.refunds| && s.refunds[r].key.operation == RefundOperation ==> RefundMovedOnce(s, r)
  {
    hide Run, PayoutMovedOnce, RefundMovedOnce, JournalExact, TransfersExact;
    ReachedInv(s);
    forall p | 0 <= p < |s.payouts| ensures PayoutMovedOnce(s, p) {
      PayoutMovesOnce(s, p);
    }
    forall r | 0 <= r < |s.refunds| && s.refunds[r].key.operation == RefundOperation ensures RefundMovedOnce(s, r) {
      RefundMovesOnce(s, r);
    }
  }

  // ---- Settling once ----------------------------------------------------------------------------

  predicate ReleaseJournal(s: State, m: Id) { Key(MilestoneRelease, MilestoneRef(m)) in Keys(s.journal) }

  predicate ResolutionJournal(s: State, m: Id) {
    exists d :: 0 <= d < |s.disputes| && s.disputes[d].milestone == m
        && Key(DisputeResolution, DisputeRef(d)) in Keys(s.journal)
  }

  /** One settling journal if RELEASED, else none; a release journal or a resolution journal, never both. */
  predicate SettledOnce(s: State, m: Id)
    requires m < |s.milestones|
  {
    && Settlements(s.journal, m) == (if s.milestones[m].status == Released then 1 else 0)
    && (s.milestones[m].status == Released <==> ReleaseJournal(s, m) || ResolutionJournal(s, m))
    && !(ReleaseJournal(s, m) && ResolutionJournal(s, m))
    && s.milestones[m].status != ReleasePending
  }

  lemma SettledOnceNow(s: State, m: Id)
    requires JournalExact(s) && MilestonesOk(s.milestones, s.contracts) && DisputesOk(s.disputes, s.milestones)
    requires CountsOk(s.journal, s.milestones) && m < |s.milestones|
    ensures SettledOnce(s, m)
  {
    assert ReleaseJournal(s, m) <==> DueIn(s, Key(MilestoneRelease, MilestoneRef(m)));
    forall d | 0 <= d < |s.disputes|
      ensures Key(DisputeResolution, DisputeRef(d)) in Keys(s.journal) <==> s.disputes[d].status == Resolved
    {
      assert Key(DisputeResolution, DisputeRef(d)) in Keys(s.journal)
          <==> DueIn(s, Key(DisputeResolution, DisputeRef(d)));
    }
    assert ResolutionJournal(s, m) <==> Decided(s.disputes, m);
  }

  /**
   A milestone is RELEASED exactly when one journal settles it: its release or its dispute's resolution,
   never two.
   */
  lemma SettlesExactlyOnce(s: State, m: Id)
    requires Reached(s) && m < |s.milestones|
    ensures SettledOnce(s, m)
  {
    hide Run, SettledOnce, CountsOk, JournalExact, MilestonesOk, DisputesOk;
    ReachedInv(s);
    SettledOnceNow(s, m);
  }

  /** The milestone exists afterwards and, if it was RELEASED, its whole row is the same. */
  predicate ReleaseStands(before: State, after: State, m: Id)
    requires m < |before.milestones|
  {
    && m < |after.milestones|
    && (before.milestones[m].status == Released ==> after.milestones[m] == before.milestones[m])
  }

  lemma ReleaseStandsStep(s: State, step: Step, m: Id)
    requires m < |s.milestones|
    ensures ReleaseStands(s, Apply(s, step), m)
  {
    var w := Decide(s, step).write;
    hide Decide;
    MilestonesExtend(s, w);
    ReleasedStays(s, w, m);
  }

  /** RELEASED is absorbing: the row of a released milestone never changes again. */
  lemma {:induction false} ReleasedForever(s: State, steps: seq<Step>, m: Id)
    requires m < |s.milestones|
    ensures ReleaseStands(s, Run(s, steps), m)
  {
    hide Apply, Decide;
    if steps != [] {
      var front := steps[..|steps| - 1];
      ReleasedForever(s, front, m);
      ReleaseStandsStep(Run(s, front), steps[|steps| - 1], m);
    }
  }

  // ---- Escrow and status ------------------------------------------------------------------------

  /**
   A late capture: a delivery that meets every condition of funding an intent of milestone `m` although a
   refund of that milestone has not settled yet.
   */
  predicate LateCapture(s: State, step: Step, m: Id) {
    && step.Deliver?
    && Outstanding(s.refunds, m) > 0
    && exists i :: 0 <= i < |s.intents| && s.intents[i].milestone == m && Funds(s, i, step.provider, step.hook)
  }

  predicate Funds(s: State, i: Id, provider: string, hook: Webhook)
    requires i < |s.intents|
  {
    s.intents[i].provider == provider && Fundable(s, i, hook)
  }

  lemma CapturesDeliver(s: State, step: Step)
    requires Decide(s, step).write.CaptureIntent?
    ensures step.Deliver? && Decide(s, step).write == CaptureIntent(step.provider, step.hook, Decide(s, step).write.id)
    ensures Decide(s, step) == Payments.Deliver(s, step.provider, step.hook)
  {
    hide Guarded, WellPosted, WellScoped, Addresses, Balance, Acceptable;
  }

  /** The guard above is exactly what makes the services accept a capture over a pending refund. */
  lemma LateIff(s: State, step: Step, m: Id)
    requires ReferencesOk(s)
    ensures RacyCapture(s, Decide(s, step).write, m) <==> LateCapture(s, step, m)
  {
    hide ReferencesOk, Fundable, Outstanding, Payments.Deliver;
    if RacyCapture(s, Decide(s, step).write, m) {
      CapturesDeliver(s, step);
      hide Decide;
      var i := Decide(s, step).write.id;
      CaptureIff(s, step.provider, step.hook, i);
      assert Funds(s, i, step.provider, step.hook);
    } else if LateCapture(s, step, m) {
      var i :| 0 <= i < |s.intents| && s.intents[i].milestone == m && Funds(s, i, step.provider, step.hook);
      CaptureIff(s, step.provider, step.hook, i);
    }
  }

  /** Status and escrow of milestone `m` agree, if it exists. */
  predicate EscrowAgrees(s: State, m: Id) {
    m < |s.milestones| ==> EscrowAgreesAt(s.journal, s.milestones, s.refunds, m)
  }

  /** They agree and every unsettled refund of it covers the whole milestone. */
  predicate Agreement(s: State, m: Id) {
    m < |s.milestones| ==> AgreesAt(s.journal, s.milestones, s.refunds, m)
  }

  lemma NoLateCaptureYet(s: State, w: Write, m: Id)
    requires Guarded(s, w) && IntentsOk(s.intents, s.milestones) && m >= |s.milestones|
    ensures !RacyCapture(s, w, m)
  {
  }

  lemma AgreementKept(s: State, w: Write, m: Id)
    requires Lawful(s, w) && RowsOk(s) && BooksOk(s) && Agreement(s, m)
    ensures EscrowAgrees(Commit(s, w), m) <==> !RacyCapture(s, w, m)
    ensures Agreement(Commit(s, w), m) <==> !RacyCapture(s, w, m)
  {
    MilestonesExtend(s, w);
    hide Guarded, JournalExact, NonNegative, Untouched, EscrowAgreesAt, FullRefunds, RacyCapture, MilestonesAfter;
    if m < |s.milestones| {
      AgreementWrite(s, w, m);
    } else {
      NoLateCaptureYet(s, w, m);
      if m < |Commit(s, w).milestones| {
        NewMilestoneAgrees(s, w, m);
      }
    }
  }

  /** One step keeps escrow and status of a milestone in agreement if and only if it is not a late capture for it. */
  lemma AgreementStep(s: State, step: Step, m: Id)
    requires Reached(s) && Agreement(s, m)
    ensures EscrowAgrees(Apply(s, step), m) <==> !LateCapture(s, step, m)
    ensures Agreement(Apply(s, step), m) <==> !LateCapture(s, step, m)
  {
    hide Run, EscrowAgrees, Agreement, LateCapture, RowsOk, BooksOk, ReferencesOk, RacyCapture;
    ReachedInv(s);
    ReachedReferences(s);
    LateIff(s, step, m);
    AgreementKept(s, Decide(s, step).write, m);
  }

  /** No step of the run is a late capture for milestone `m`. */
  predicate CleanFor(s: State, steps: seq<Step>, m: Id) {
    steps == [] || (CleanFor(s, steps[..|steps| - 1], m)
                    && !LateCapture(Run(s, steps[..|steps| - 1]), steps[|steps| - 1], m))
  }

  /** Escrow and status of milestone `m` agree at the start and after every step of the run. */
  predicate AgreesThroughout(s: State, steps: seq<Step>, m: Id) {
    EscrowAgrees(Run(s, steps), m) && (steps != [] ==> AgreesThroughout(s, steps[..|steps| - 1], m))
  }

  lemma {:induction false} CleanRunAgrees(s: State, steps: seq<Step>, m: Id)
    requires Reached(s) && Agreement(s, m) && CleanFor(s, steps, m)
    ensures Agreement(Run(s, steps), m)
  {
    hide Apply, Decide, Agreement, EscrowAgrees, LateCapture;
    if steps != [] {
      var front := steps[..|steps| - 1];
      CleanRunAgrees(s, front, m);
      ReachedOn(s, front);
      AgreementStep(Run(s, front), steps[|steps| - 1], m);
    }
  }

  /**
   Escrow and status of a milestone agree all along a run if and only if the run contains no late capture
   for that milestone, whatever happens to other milestones.
   */
  lemma {:induction false} EscrowAgreesIff(s: State, steps: seq<Step>, m: Id)
    requires Reached(s) && Agreement(s, m)
    ensures AgreesThroughout(s, steps, m) <==> CleanFor(s, steps, m)
  {
    assert EscrowAgrees(s, m);
    hide Apply, Decide, Agreement, LateCapture, EscrowAgrees;
    if steps != [] {
      var front := steps[..|steps| - 1];
      EscrowAgreesIff(s, front, m);
      if CleanFor(s, front, m) {
        CleanRunAgrees(s, front, m);
        ReachedOn(s, front);
        AgreementStep(Run(s, front), steps[|steps| - 1], m);
      }
    }
  }

  /** The empty database is where every run starts, and every milestone to come agrees there. */
  lemma EmptyAgrees(m: Id)
    ensures Reached(Empty) && Agreement(Empty, m)
  {
    assert Run(Empty, []) == Empty;
  }

  lemma FromNothing(steps: seq<Step>, m: Id)
    ensures AgreesThroughout(Empty, steps, m) <==> CleanFor(Empty, steps, m)
  {
    hide Decide, Apply, LateCapture, EscrowAgrees, Agreement;
    EmptyAgrees(m);
    EscrowAgreesIff(Empty, steps, m);
  }

  ghost predicate AllAgree(steps: seq<Step>) { forall m: Id :: AgreesThroughout(Empty, steps, m) }

  ghost predicate AllClean(steps: seq<Step>) { forall m: Id :: CleanFor(Empty, steps, m) }

  /**
   Over a whole run from nothing, all milestones agree throughout exactly when no milestone suffers a late
   capture.
   */
  lemma AllAgreeIff(steps: seq<Step>)
    ensures AllAgree(steps) <==> AllClean(steps)
  {
    hide Decide, Apply, LateCapture, EscrowAgrees, Run;
    if AllAgree(steps) {
      forall m: Id ensures CleanFor(Empty, steps, m) {
        FromNothing(steps, m);
      }
    }
    if AllClean(steps) {
      forall m: Id ensures AgreesThroughout(Empty, steps, m) {
        FromNothing(steps, m);
      }
    }
  }
}
