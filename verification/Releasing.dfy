/** When an escrow is settled, by a release or by a resolution, and who gets what. */
module Releasing {
  import opened Basics
  import opened Ledger
  import opened Records
  import opened Transactions
  import opened Idempotency
  import opened Rows
  import opened Journaled
  import opened Flows
  import opened Solvency
  import opened Shifting
  import opened Explained
  import opened Invariant
  import opened SettlementTheorems
  import opened System
  import Payments
  import Disputes

  // ---- Release ----------------------------------------------------------------------------------

  function ReleaseKey(user: Id, text: string): IdemKey { IdemKey(user, ReleaseOperation, text) }

  /** The employer orders, under an open key, the release of an approved milestone whose escrow is full. */
  predicate Releases(s: State, user: Id, m: Id, text: string) {
    && Pays(s, user, m) && Open(s, ReleaseKey(user, text), ReleaseRequest(m))
    && s.milestones[m].status == Approved
    && Balance(s.journal, EscrowOf(s, m)) == s.milestones[m].amount
    && s.milestones[m].commission.Some? && s.milestones[m].commission.value < 10000
  }

  /** The same order for a milestone that has been released before. */
  predicate ReleasedBefore(s: State, user: Id, m: Id, text: string) {
    && Pays(s, user, m) && Open(s, ReleaseKey(user, text), ReleaseRequest(m))
    && s.milestones[m].status == Released
  }

  function FreelancerWallet(s: State, m: Id): Account
    requires m < |s.milestones| && s.milestones[m].contract < |s.contracts|
  {
    Wallet(s.contracts[s.milestones[m].contract].freelancer, s.milestones[m].currency)
  }

  /** The financial state of a milestone, as the database shows it. */
  function Statement(s: State, m: Id): Response
    requires m < |s.milestones|
  {
    var row := s.milestones[m];
    Response(200, FinancialBody(m, row.status, row.amount, row.currency,
                                if row.commission.Some? then Balance(s.journal, EscrowOf(s, m)) else 0,
                                row.commission))
  }

  /** What the escrow, the platform and the freelancer get when an amount is released at a rate. */
  function Shares(s: State, m: Id): map<Account, int>
    requires m < |s.milestones| && s.milestones[m].contract < |s.contracts| && s.milestones[m].commission.Some?
  {
    var amount: int := s.milestones[m].amount;
    var fee := amount * s.milestones[m].commission.value / 10000;
    map[EscrowOf(s, m) := -amount, Commission(s.milestones[m].currency) := fee, FreelancerWallet(s, m) := amount - fee]
  }

  /** The escrow is paid out to the freelancer and the platform, and the statement of the result is stored. */
  ghost predicate Paid(s: State, after: State, user: Id, m: Id, text: string)
    requires Releases(s, user, m, text)
  {
    var row := s.milestones[m];
    && m < |after.milestones|
    && after == s.(milestones := s.milestones[m := after.milestones[m]], journal := after.journal,
                   idem := s.idem[ReleaseKey(user, text) := IdemRecord(ReleaseRequest(m), Some(Statement(after, m)))])
    && after.milestones[m] == row.(status := Released, events := row.events + [
         MilestoneEvent(Approved, ReleasePending), MilestoneEvent(ReleasePending, Released)])
    && Shifts(s.journal, after.journal, Shares(s, m))
  }

  predicate Orders(s: State, w: Write, user: Id, m: Id, text: string) {
    w.ReleaseMilestone? && w.id == m && w.key == ReleaseKey(user, text) && w.record.request == ReleaseRequest(m)
  }

  /** The answer that a release records and gives. */
  predicate Announces(s: State, o: Outcome, m: Id)
    requires Addresses(s, o.write) && m < |s.milestones| && o.write.ReleaseMilestone?
  {
    && o.reply == Done(Response(200, FinancialState(m, ReleasedMilestone(s.milestones[m]), JournalAfter(s, o.write))))
    && o.write.record.response == Some(o.reply.response)
  }

  lemma ReleaseWrites(s: State, user: Id, m: Id, text: string)
    requires MilestonesOk(s.milestones, s.contracts) && Releases(s, user, m, text)
    ensures var o := Payments.Release(s, user, m, text);
      Orders(s, o.write, user, m, text) && Announces(s, o, m)
  {
    hide Guarded, WellPosted, WellScoped, Acceptable, Balance, Fee, ReleasePostings, ClaimedFor, Append;
    ClaimIs(s, ReleaseKey(user, text), ReleaseRequest(m));
    hide ClaimKey;
    var row := s.milestones[m];
    assert MilestoneOk(row, s.contracts);
    ReleaseAcceptableIff(EscrowOf(s, m), FreelancerWallet(s, m), row.amount, row.commission.value);
  }

  lemma ReleaseRepeats(s: State, user: Id, m: Id, text: string)
    requires ReleasedBefore(s, user, m, text)
    ensures Payments.Release(s, user, m, text) == Outcome(
      Remember(ReleaseKey(user, text), IdemRecord(ReleaseRequest(m), Some(Statement(s, m)))), Done(Statement(s, m)))
  {
    hide Lawful, Balance, Payments.ReleaseEscrow;
    ClaimIs(s, ReleaseKey(user, text), ReleaseRequest(m));
    hide ClaimKey;
  }

  lemma ReleaseRefused(s: State, user: Id, m: Id, text: string)
    requires MilestonesOk(s.milestones, s.contracts)
    requires !Releases(s, user, m, text) && !ReleasedBefore(s, user, m, text)
    ensures Repeats(Payments.Release(s, user, m, text), Pays(s, user, m),
                    AnswerOf(s, ReleaseKey(user, text), ReleaseRequest(m)))
  {
    hide Guarded, WellPosted, WellScoped, Acceptable, Balance, Fee, ReleasePostings, ClaimedFor, Append;
    ClaimIs(s, ReleaseKey(user, text), ReleaseRequest(m));
    hide ClaimKey, AnswerOf;
    if m < |s.milestones| && s.milestones[m].commission.Some? && s.milestones[m].status == Approved {
      var row := s.milestones[m];
      assert MilestoneOk(row, s.contracts);
      ReleaseAcceptableIff(EscrowOf(s, m), FreelancerWallet(s, m), row.amount, row.commission.value);
    }
  }

  lemma ReleaseShares(s: State, w: Write)
    requires Guarded(s, w) && w.ReleaseMilestone?
    ensures forall a: Account :: Effect(s, w, Is(a)) == Delta(Shares(s, w.id), a)
  {
    hide Balance;
  }

  lemma ReleaseCommits(s: State, o: Outcome, user: Id, m: Id, text: string)
    requires Guarded(s, o.write) && JournalExact(s) && Releases(s, user, m, text)
    requires Orders(s, o.write, user, m, text) && Announces(s, o, m)
    ensures Paid(s, Commit(s, o.write), user, m, text) && o.reply == Done(Statement(Commit(s, o.write), m))
  {
    ReleaseShares(s, o.write);
    Shifted(s, o.write, Shares(s, m));
    hide Guarded, JournalExact, Balance, Shifts, Shares, JournalAfter;
  }

  lemma StepReleases(s: State, user: Id, m: Id, text: string)
    ensures Decide(s, Step.Release(user, m, text)) == Payments.Release(s, user, m, text)
  {
    hide Lawful, Payments.Release;
  }

  /** What ordering a release comes to. */
  ghost predicate ReleaseResult(s: State, o: Outcome, after: State, user: Id, m: Id, text: string) {
    if Releases(s, user, m, text) then
      Paid(s, after, user, m, text) && m < |after.milestones| && o.reply == Done(Statement(after, m))
    else if ReleasedBefore(s, user, m, text) then
      && after == s.(idem := s.idem[ReleaseKey(user, text) := IdemRecord(ReleaseRequest(m), Some(Statement(s, m)))])
      && o.reply == Done(Statement(s, m))
    else
      && after == s
      && Repeats(o, Pays(s, user, m), AnswerOf(s, ReleaseKey(user, text), ReleaseRequest(m)))
  }

  lemma ReleaseNow(s: State, user: Id, m: Id, text: string)
    requires MilestonesOk(s.milestones, s.contracts) && JournalExact(s)
    ensures var o := Payments.Release(s, user, m, text);
      && ReleaseResult(s, o, Commit(s, o.write), user, m, text)
      && (o.write.ReleaseMilestone? <==> Releases(s, user, m, text))
  {
    hide MilestonesOk, JournalExact, Payments.Release, Releases, Paid, Announces, Statement, Balance, AnswerOf;
    if Releases(s, user, m, text) {
      ReleaseWrites(s, user, m, text);
      ReleaseCommits(s, Payments.Release(s, user, m, text), user, m, text);
    } else if ReleasedBefore(s, user, m, text) {
      ReleaseRepeats(s, user, m, text);
    } else {
      ReleaseRefused(s, user, m, text);
      NothingStays(s);
    }
  }

  /**
   A release happens if and only if the employer of an active contract orders it, under an open key, for an approved
   milestone with a full escrow and a rate below 100 percent. The milestone is then RELEASED, its escrow is empty,
   freelancer and platform have exactly their shares, no other account has moved, and the stored answer states the
   result. Otherwise no milestone and no balance changes.
   */
  lemma ReleaseIff(s: State, user: Id, m: Id, text: string)
    requires Reached(s)
    ensures ReleaseResult(s, Decide(s, Step.Release(user, m, text)), Apply(s, Step.Release(user, m, text)), user, m,
                          text)
    ensures Decide(s, Step.Release(user, m, text)).write.ReleaseMilestone? <==> Releases(s, user, m, text)
  {
    hide Run, MilestonesOk, JournalExact, KeysOk;
    ReachedInv(s);
    StepReleases(s, user, m, text);
    ReleaseNow(s, user, m, text);
    hide Decide, Commit, Payments.Release, Releases, ReleaseResult, Reached;
  }

  /** Releasing empties the escrow. */
  lemma ReleaseEmpties(s: State, user: Id, m: Id, text: string)
    requires Reached(s) && Releases(s, user, m, text)
    ensures Balance(Apply(s, Step.Release(user, m, text)).journal, EscrowOf(s, m)) == 0
  {
    ReleaseIff(s, user, m, text);
    hide Reached, Decide, Apply, Balance;
  }
}
