/** Who received what from each milestone's escrow when the milestone settled. */
module Settlement {
  import opened Basics
  import opened Ledger
  import opened Records
  import opened Transactions
  import opened Rows
  import opened Journaled
  import opened Flows
  import opened Solvency

  /** A journal that settles milestone `m`: a release or a dispute resolution that empties its escrow. */
  predicate Settles(j: Journal, m: Id) {
    && (j.key.operation == MilestoneRelease || j.key.operation == DisputeResolution)
    && j.entries != [] && j.entries[0].account.Escrow? && j.entries[0].account.milestone == m
  }

  function PaidBy(m: Id, pick: Account -> bool): Journal -> int {
    (j: Journal) => if Settles(j, m) then Flow(j.entries, pick) else 0
  }

  /** What the settlement of a milestone brought to the selected accounts. */
  function Paid(journal: seq<Journal>, m: Id, pick: Account -> bool): int {
    Sum(journal, PaidBy(m, pick))
  }

  predicate NoSettlement(journal: seq<Journal>, m: Id) {
    forall i :: 0 <= i < |journal| ==> !Settles(journal[i], m)
  }

  /** The freelancer's net, the platform's commission and the client's refund from one milestone. */
  predicate SettledAs(journal: seq<Journal>, m: Id, wallet: Account, currency: string, net: int, commission: int,
                      refund: int) {
    && Paid(journal, m, Is(wallet)) == net
    && Paid(journal, m, Is(Commission(currency))) == commission
    && Paid(journal, m, ClearingIn(currency)) == refund
  }

  predicate SettledByRelease(journal: seq<Journal>, m: Id, row: Milestone, wallet: Account) {
    && row.commission.Some?
    && var fee := Fee(row.amount, row.commission.value);
       SettledAs(journal, m, wallet, row.currency, row.amount - fee, fee, 0)
  }

  predicate SettledByDecision(journal: seq<Journal>, d: Dispute, row: Milestone, wallet: Account) {
    && d.decision.Some? && row.commission.Some?
    && DividesEscrow(d.decision.value, row.amount, row.commission.value)
    && SettledAs(journal, d.milestone, wallet, row.currency, d.decision.value.net, d.decision.value.commission,
                 d.decision.value.refund)
  }

  predicate SettlementOk(journal: seq<Journal>, m: Id, row: Milestone, wallet: Account, disputes: seq<Dispute>) {
    && (row.status != Released ==> NoSettlement(journal, m))
    && (row.status == Released && !Decided(disputes, m) ==> SettledByRelease(journal, m, row, wallet))
    && (forall d :: 0 <= d < |disputes| && disputes[d].milestone == m && disputes[d].status == Resolved ==>
          SettledByDecision(journal, disputes[d], row, wallet))
  }

  function PayeeOf(row: Milestone, contracts: seq<Contract>): Account
    requires row.contract < |contracts|
  {
    Wallet(contracts[row.contract].freelancer, row.currency)
  }

  ghost predicate SettlementsOk(journal: seq<Journal>, milestones: seq<Milestone>, contracts: seq<Contract>,
                                disputes: seq<Dispute>)
    requires MilestonesOk(milestones, contracts)
  {
    && (forall m: Id :: m >= |milestones| ==> NoSettlement(journal, m))
    && forall m :: 0 <= m < |milestones| ==>
         SettlementOk(journal, m, milestones[m], PayeeOf(milestones[m], contracts), disputes)
  }

  // ---- Effect of a write ------------------------------------------------------------------------

  /** The milestone a write settles. */
  function Settling(s: State, w: Write): Option<Id>
    requires Addresses(s, w)
  {
    match w
    case ReleaseMilestone(m, _, _) => Some(m)
    case ResolveDispute(_, _, _, _, _, _) => Some(DisputedMilestone(s, w))
    case _ => None
  }

  lemma EntrySettles(s: State, w: Write, m: Id)
    requires Addresses(s, w) && Entry(s, w).Some?
    ensures Settles(Entry(s, w).value, m) <==> Settling(s, w) == Some(m)
  {
  }

  lemma NoSettlementAfter(s: State, w: Write, m: Id)
    requires Guarded(s, w) && JournalExact(s) && NoSettlement(s.journal, m) && Settling(s, w) != Some(m)
    ensures NoSettlement(JournalAfter(s, w), m)
  {
    JournalAppended(s, w);
    if Entry(s, w).Some? {
      EntrySettles(s, w, m);
    }
  }

  lemma PaidAfter(s: State, w: Write, m: Id, pick: Account -> bool)
    requires Guarded(s, w) && JournalExact(s)
    ensures Paid(JournalAfter(s, w), m, pick)
         == Paid(s.journal, m, pick) + if Settling(s, w) == Some(m) then Effect(s, w, pick) else 0
  {
    JournalAppended(s, w);
    EntryFlow(s, w, pick);
    if Entry(s, w).Some? {
      EntrySettles(s, w, m);
      SumAppend(s.journal, Entry(s, w).value, PaidBy(m, pick));
    }
  }

  lemma NothingPaid(journal: seq<Journal>, m: Id, pick: Account -> bool)
    requires NoSettlement(journal, m)
    ensures Paid(journal, m, pick) == 0
  {
    SumZero(journal, PaidBy(m, pick));
  }

  /** The three parts of a settlement, read off the write that settles. */
  lemma SettledNow(s: State, w: Write, m: Id, wallet: Account, currency: string)
    requires Guarded(s, w) && JournalExact(s) && Settling(s, w) == Some(m) && NoSettlement(s.journal, m)
    ensures SettledAs(JournalAfter(s, w), m, wallet, currency, Effect(s, w, Is(wallet)),
                      Effect(s, w, Is(Commission(currency))), Effect(s, w, ClearingIn(currency)))
  {
    PaidAfter(s, w, m, Is(wallet));
    PaidAfter(s, w, m, Is(Commission(currency)));
    PaidAfter(s, w, m, ClearingIn(currency));
    NothingPaid(s.journal, m, Is(wallet));
    NothingPaid(s.journal, m, Is(Commission(currency)));
    NothingPaid(s.journal, m, ClearingIn(currency));
  }

  lemma ReleaseParts(s: State, w: Write)
    requires Addresses(s, w) && w.ReleaseMilestone?
    ensures var row := s.milestones[w.id]; var fee := Fee(row.amount, row.commission.value);
      && Effect(s, w, Is(WalletFor(s, w.id))) == row.amount - fee
      && Effect(s, w, Is(Commission(row.currency))) == fee
      && Effect(s, w, ClearingIn(row.currency)) == 0
  {
  }

  lemma DecisionParts(s: State, w: Write)
    requires Addresses(s, w) && w.ResolveDispute?
    ensures var m := DisputedMilestone(s, w); var currency := s.milestones[m].currency;
      && Effect(s, w, Is(WalletFor(s, m))) == w.decision.net
      && Effect(s, w, Is(Commission(currency))) == w.decision.commission
      && Effect(s, w, ClearingIn(currency)) == w.decision.refund
  {
  }

  /** A settlement that happened earlier is not changed by later writes. */
  lemma SettledStays(s: State, w: Write, m: Id, wallet: Account, currency: string, net: int, commission: int,
                     refund: int)
    requires Guarded(s, w) && JournalExact(s) && Settling(s, w) != Some(m)
    requires SettledAs(s.journal, m, wallet, currency, net, commission, refund)
    ensures SettledAs(JournalAfter(s, w), m, wallet, currency, net, commission, refund)
  {
    PaidAfter(s, w, m, Is(wallet));
    PaidAfter(s, w, m, Is(Commission(currency)));
    PaidAfter(s, w, m, ClearingIn(currency));
  }

  /** RELEASED is absorbing, and is entered only by a write that settles the milestone. */
  lemma ReleasedStays(s: State, w: Write, m: Id)
    requires Guarded(s, w) && m < |s.milestones|
    ensures s.milestones[m].status == Released ==>
        MilestonesAfter(s, w)[m] == s.milestones[m] && Settling(s, w) != Some(m)
    ensures MilestonesAfter(s, w)[m].status == Released ==>
        s.milestones[m].status == Released || Settling(s, w) == Some(m)
  {
  }

  lemma PayeeStays(s: State, w: Write, m: Id)
    requires Addresses(s, w) && m < |s.milestones| && s.milestones[m].contract < |s.contracts|
    ensures MilestonesAfter(s, w)[m].contract < |ContractsAfter(s, w)|
    ensures PayeeOf(MilestonesAfter(s, w)[m], ContractsAfter(s, w)) == PayeeOf(s.milestones[m], s.contracts)
        == WalletFor(s, m)
  {
  }

  lemma NewMilestone(s: State, w: Write, m: Id, wallet: Account)
    requires Guarded(s, w) && RowsOk(s) && JournalExact(s)
    requires |s.milestones| <= m < |MilestonesAfter(s, w)| && NoSettlement(s.journal, m)
    ensures SettlementOk(JournalAfter(s, w), m, MilestonesAfter(s, w)[m], wallet, DisputesAfter(s, w))
  {
    NoSettlementAfter(s, w, m);
  }

  lemma ReleaseSettles(s: State, w: Write)
    requires Guarded(s, w) && JournalExact(s) && w.ReleaseMilestone? && DisputesOk(s.disputes, s.milestones)
    requires NoSettlement(s.journal, w.id)
    ensures SettlementOk(JournalAfter(s, w), w.id, MilestonesAfter(s, w)[w.id], WalletFor(s, w.id), DisputesAfter(s, w))
  {
    SettledNow(s, w, w.id, WalletFor(s, w.id), s.milestones[w.id].currency);
    ReleaseParts(s, w);
  }

  lemma ResolutionSettles(s: State, w: Write)
    requires Guarded(s, w) && JournalExact(s) && w.ResolveDispute? && DisputesOk(s.disputes, s.milestones)
    requires NoSettlement(s.journal, DisputedMilestone(s, w))
    ensures var m := DisputedMilestone(s, w);
      SettlementOk(JournalAfter(s, w), m, MilestonesAfter(s, w)[m], WalletFor(s, m), DisputesAfter(s, w))
  {
    var m := DisputedMilestone(s, w);
    SettledNow(s, w, m, WalletFor(s, m), s.milestones[m].currency);
    DecisionParts(s, w);
    DecidedKept(s, w, m);
  }

  lemma OtherMilestone(s: State, w: Write, m: Id, wallet: Account)
    requires Guarded(s, w) && JournalExact(s) && DisputesOk(s.disputes, s.milestones)
    requires m < |s.milestones| && Settling(s, w) != Some(m)
    requires SettlementOk(s.journal, m, s.milestones[m], wallet, s.disputes)
    ensures SettlementOk(JournalAfter(s, w), m, MilestonesAfter(s, w)[m], wallet, DisputesAfter(s, w))
  {
    ReleasedStays(s, w, m);
    DecidedKept(s, w, m);
    var row := s.milestones[m];
    if row.status != Released {
      NoSettlementAfter(s, w, m);
      NoDecision(s, w, m);
    } else if !Decided(s.disputes, m) {
      var fee := Fee(row.amount, row.commission.value);
      SettledStays(s, w, m, wallet, row.currency, row.amount - fee, fee, 0);
    } else {
      DecisionStays(s, w, m, wallet);
    }
  }

  lemma NoDecision(s: State, w: Write, m: Id)
    requires Guarded(s, w) && DisputesOk(s.disputes, s.milestones)
    requires m < |s.milestones| && s.milestones[m].status != Released && Settling(s, w) != Some(m)
    ensures !Decided(DisputesAfter(s, w), m)
  {
    DecidedKept(s, w, m);
  }

  lemma DecisionStays(s: State, w: Write, m: Id, wallet: Account)
    requires Guarded(s, w) && JournalExact(s)
    requires m < |s.milestones| && s.milestones[m].status == Released && Settling(s, w) != Some(m)
    requires SettlementOk(s.journal, m, s.milestones[m], wallet, s.disputes)
    ensures forall d :: 0 <= d < |DisputesAfter(s, w)| ==>
              DisputesAfter(s, w)[d].milestone == m && DisputesAfter(s, w)[d].status == Resolved ==>
                SettledByDecision(JournalAfter(s, w), DisputesAfter(s, w)[d], s.milestones[m], wallet)
  {
    var after := DisputesAfter(s, w);
    forall d | 0 <= d < |after| && after[d].milestone == m && after[d].status == Resolved
      ensures SettledByDecision(JournalAfter(s, w), after[d], s.milestones[m], wallet)
    {
      DisputeDue(s, w, d);
      assert d < |s.disputes| && after[d] == s.disputes[d];
      var x := after[d].decision.value;
      SettledStays(s, w, m, wallet, s.milestones[m].currency, x.net, x.commission, x.refund);
    }
  }

  lemma SettlementsKept(s: State, w: Write)
    requires Guarded(s, w) && RowsOk(s) && JournalExact(s)
    requires MilestonesOk(MilestonesAfter(s, w), ContractsAfter(s, w))
    requires SettlementsOk(s.journal, s.milestones, s.contracts, s.disputes)
    ensures SettlementsOk(JournalAfter(s, w), MilestonesAfter(s, w), ContractsAfter(s, w), DisputesAfter(s, w))
  {
    forall m: Id | m >= |MilestonesAfter(s, w)| ensures NoSettlement(JournalAfter(s, w), m) {
      MilestonesExtend(s, w);
      NoSettlementAfter(s, w, m);
    }
    forall m | 0 <= m < |MilestonesAfter(s, w)|
      ensures SettlementOk(JournalAfter(s, w), m, MilestonesAfter(s, w)[m],
                           PayeeOf(MilestonesAfter(s, w)[m], ContractsAfter(s, w)), DisputesAfter(s, w))
    {
      SettlementStep(s, w, m);
    }
  }

  lemma SettlementStep(s: State, w: Write, m: Id)
    requires Guarded(s, w) && RowsOk(s) && JournalExact(s) && m < |MilestonesAfter(s, w)|
    requires MilestonesOk(MilestonesAfter(s, w), ContractsAfter(s, w))
    requires SettlementsOk(s.journal, s.milestones, s.contracts, s.disputes)
    ensures SettlementOk(JournalAfter(s, w), m, MilestonesAfter(s, w)[m],
                         PayeeOf(MilestonesAfter(s, w)[m], ContractsAfter(s, w)), DisputesAfter(s, w))
  {
    if m >= |s.milestones| {
      NewMilestone(s, w, m, PayeeOf(MilestonesAfter(s, w)[m], ContractsAfter(s, w)));
    } else {
      PayeeStays(s, w, m);
      ReleasedStays(s, w, m);
      if Settling(s, w) != Some(m) {
        OtherMilestone(s, w, m, WalletFor(s, m));
      } else if w.ReleaseMilestone? {
        ReleaseSettles(s, w);
      } else {
        ResolutionSettles(s, w);
      }
    }
  }

  // ---- Counting settlements ---------------------------------------------------------------------

  function OneIfSettles(m: Id): Journal -> int {
    (j: Journal) => if Settles(j, m) then 1 else 0
  }

  /** Number of journals that settle milestone `m`. */
  function Settlements(journal: seq<Journal>, m: Id): int {
    Sum(journal, OneIfSettles(m))
  }

  /** A released milestone has exactly one settling journal, any other none. */
  predicate CountsOk(journal: seq<Journal>, milestones: seq<Milestone>) {
    forall m :: 0 <= m < |milestones| ==> Settlements(journal, m) == if milestones[m].status == Released then 1 else 0
  }

  lemma CountAfter(s: State, w: Write, m: Id)
    requires Guarded(s, w) && JournalExact(s)
    ensures Settlements(JournalAfter(s, w), m) == Settlements(s.journal, m) + if Settling(s, w) == Some(m) then 1 else 0
  {
    JournalAppended(s, w);
    if Entry(s, w).Some? {
      EntrySettles(s, w, m);
      SumAppend(s.journal, Entry(s, w).value, OneIfSettles(m));
    }
  }

  lemma SettlingReleases(s: State, w: Write, m: Id)
    requires Guarded(s, w) && Settling(s, w) == Some(m)
    ensures m < |s.milestones| && s.milestones[m].status != Released && MilestonesAfter(s, w)[m].status == Released
  {
  }

  lemma NoneYet(journal: seq<Journal>, m: Id)
    requires NoSettlement(journal, m)
    ensures Settlements(journal, m) == 0
  {
    SumZero(journal, OneIfSettles(m));
  }

  lemma BornUnsettled(s: State, w: Write, m: Id)
    requires Guarded(s, w) && |s.milestones| <= m < |MilestonesAfter(s, w)|
    ensures MilestonesAfter(s, w)[m].status == Created && Settling(s, w) == None
  {
  }

  lemma CountsKept(s: State, w: Write)
    requires Guarded(s, w) && JournalExact(s) && CountsOk(s.journal, s.milestones)
    requires forall m: Id :: m >= |s.milestones| ==> NoSettlement(s.journal, m)
    ensures CountsOk(JournalAfter(s, w), MilestonesAfter(s, w))
  {
    MilestonesExtend(s, w);
    assert Addresses(s, w);
    hide Guarded, JournalExact, MilestonesAfter, JournalAfter, Settling, Settlements, NoSettlement;
    forall m | 0 <= m < |MilestonesAfter(s, w)|
      ensures Settlements(JournalAfter(s, w), m) == if MilestonesAfter(s, w)[m].status == Released then 1 else 0
    {
      CountAfter(s, w, m);
      if m >= |s.milestones| {
        NoneYet(s.journal, m);
        BornUnsettled(s, w, m);
      } else if Settling(s, w) == Some(m) {
        SettlingReleases(s, w, m);
      } else {
        ReleasedStays(s, w, m);
      }
    }
  }
}
