/** What holds of every row in every reachable database, whatever the providers do. */
module Rows {
  import opened Basics
  import opened Ledger
  import opened Records
  import opened Transactions

  // ---- Event logs -------------------------------------------------------------------------------

  /** The progress log starts at CREATED, chains, and ends at the stored status. */
  predicate MilestoneLog(m: Milestone) {
    && (m.events == [] ==> m.status == Created)
    && (m.events != [] ==> m.events[0].from == Created && m.events[|m.events| - 1].to == m.status)
    && forall i :: 0 < i < |m.events| ==> m.events[i - 1].to == m.events[i].from
  }

  /** The dispute log starts from no status at all, chains, and ends at the stored status. */
  predicate DisputeLog(d: Dispute) {
    && d.events != []
    && d.events[0] == DisputeEvent(None, Opened)
    && d.events[|d.events| - 1].to == d.status
    && forall i :: 0 < i < |d.events| ==> d.events[i].from == Some(d.events[i - 1].to)
  }

  lemma MoveLogs(m: Milestone, to: MilestoneStatus)
    requires MilestoneLog(m)
    ensures MilestoneLog(Move(m, m.status, to))
  {
  }

  lemma AdvanceLogs(d: Dispute, to: DisputeStatus)
    requires DisputeLog(d)
    ensures DisputeLog(Advance(d, d.status, to))
  {
  }

  // ---- Rows -------------------------------------------------------------------------------------

  /** RELEASE_PENDING is never committed, and only milestones of active contracts have left CREATED. */
  predicate MilestoneOk(m: Milestone, contracts: seq<Contract>) {
    && m.contract < |contracts|
    && m.currency == contracts[m.contract].document.currency
    && contracts[m.contract].document.bps <= 10000
    && (m.commission.Some? ==> m.commission.value == contracts[m.contract].document.bps)
    && m.status != ReleasePending
    && (m.status != Created ==> m.commission.Some? && m.amount > 0 && contracts[m.contract].status == Active)
    && MilestoneLog(m)
  }

  predicate IntentOk(it: Intent, milestones: seq<Milestone>) {
    && it.milestone < |milestones|
    && it.amount == milestones[it.milestone].amount && it.amount > 0
    && it.currency == milestones[it.milestone].currency
    && it.key.operation == FundOperation
  }

  /** Only employer refunds are ever pending or failed; a dispute's refund is born succeeded. */
  predicate RefundOk(r: Refund, milestones: seq<Milestone>) {
    && r.milestone < |milestones|
    && r.amount > 0
    && r.currency == milestones[r.milestone].currency
    && milestones[r.milestone].commission.Some?
    && r.key.operation in {RefundOperation, ResolveOperation}
    && (r.key.operation == ResolveOperation ==> r.status == Succeeded)
  }

  predicate PayoutOk(p: Payout) {
    p.amount > 0 && p.key.operation == PayoutOperation
  }

  /** An undecided dispute freezes its milestone in DISPUTED, a decided one has released it. */
  predicate DisputeOk(d: Dispute, milestones: seq<Milestone>) {
    && d.milestone < |milestones|
    && milestones[d.milestone].status == (if d.status == Resolved then Released else Disputed)
    && (d.status == Resolved <==> d.decision.Some?)
    && DisputeLog(d)
  }

  predicate MilestonesOk(milestones: seq<Milestone>, contracts: seq<Contract>) {
    forall m :: 0 <= m < |milestones| ==> MilestoneOk(milestones[m], contracts)
  }

  predicate IntentsOk(intents: seq<Intent>, milestones: seq<Milestone>) {
    forall i :: 0 <= i < |intents| ==> IntentOk(intents[i], milestones)
  }

  predicate RefundsOk(refunds: seq<Refund>, milestones: seq<Milestone>) {
    forall r :: 0 <= r < |refunds| ==> RefundOk(refunds[r], milestones)
  }

  predicate PayoutsOk(payouts: seq<Payout>) {
    forall p :: 0 <= p < |payouts| ==> PayoutOk(payouts[p])
  }

  /** At most one dispute per milestone. */
  predicate DisputesOk(disputes: seq<Dispute>, milestones: seq<Milestone>) {
    && (forall d :: 0 <= d < |disputes| ==> DisputeOk(disputes[d], milestones))
    && (forall d, e :: 0 <= d < e < |disputes| ==> disputes[d].milestone != disputes[e].milestone)
  }

  /** Versions are numbered from 1 to the current one, and the milestones of each add up to its price. */
  predicate ProposalOk(p: Proposal) {
    && |p.versions| == p.currentVersion
    && forall i :: 0 <= i < |p.versions| ==> p.versions[i].number == i + 1 && FairVersion(p.versions[i])
  }

  predicate ProposalsOk(proposals: seq<Proposal>) {
    forall p :: 0 <= p < |proposals| ==> ProposalOk(proposals[p])
  }

  predicate RowsOk(s: State) {
    && MilestonesOk(s.milestones, s.contracts)
    && IntentsOk(s.intents, s.milestones)
    && RefundsOk(s.refunds, s.milestones)
    && PayoutsOk(s.payouts)
    && DisputesOk(s.disputes, s.milestones)
    && ProposalsOk(s.proposals)
  }

  // ---- Milestones -------------------------------------------------------------------------------

  lemma MilestoneSet(milestones: seq<Milestone>, contracts: seq<Contract>, id: Id, row: Milestone)
    requires MilestonesOk(milestones, contracts)
    requires id < |milestones| && MilestoneOk(row, contracts)
    ensures MilestonesOk(milestones[id := row], contracts)
  {
  }

  lemma CapturedOk(s: State, i: Id)
    requires CanCapture(s, i) && MilestonesOk(s.milestones, s.contracts) && IntentsOk(s.intents, s.milestones)
    ensures MilestoneOk(CapturedMilestone(s, i), s.contracts)
  {
    var m := s.milestones[s.intents[i].milestone];
    MoveLogs(m, Funded);
  }

  lemma ReleasedOk(s: State, m: Id)
    requires CanRelease(s, m) && MilestonesOk(s.milestones, s.contracts)
    ensures MilestoneOk(ReleasedMilestone(s.milestones[m]), s.contracts)
  {
    MoveLogs(s.milestones[m], ReleasePending);
    MoveLogs(Move(s.milestones[m], Approved, ReleasePending), Released);
  }

  lemma MovedOk(s: State, m: Id, to: MilestoneStatus)
    requires MilestonesOk(s.milestones, s.contracts) && m < |s.milestones|
    requires s.milestones[m].status != Created && to != ReleasePending
    ensures MilestonesOk(s.milestones[m := Move(s.milestones[m], s.milestones[m].status, to)], s.contracts)
  {
    MoveLogs(s.milestones[m], to);
    MilestoneSet(s.milestones, s.contracts, m, Move(s.milestones[m], s.milestones[m].status, to));
  }

  /** Contract rows change only in status, and never away from ACTIVE while a milestone has left CREATED. */
  lemma ContractSet(milestones: seq<Milestone>, contracts: seq<Contract>, id: Id, row: Contract)
    requires MilestonesOk(milestones, contracts) && id < |contracts|
    requires row == contracts[id].(status := row.status)
    requires row.status != Active ==>
      forall m :: 0 <= m < |milestones| && milestones[m].contract == id ==> milestones[m].status == Created
    ensures MilestonesOk(milestones, contracts[id := row])
  {
  }

  /** While a contract is not active, none of its milestones has left CREATED. */
  lemma IdleContract(s: State, c: Id)
    requires MilestonesOk(s.milestones, s.contracts) && c < |s.contracts| && s.contracts[c].status != Active
    ensures forall m :: 0 <= m < |s.milestones| && s.milestones[m].contract == c ==> s.milestones[m].status == Created
  {
  }

  lemma MilestonesAdded(milestones: seq<Milestone>, contracts: seq<Contract>, row: Contract)
    requires MilestonesOk(milestones, contracts) && row.document.bps <= 10000
    ensures MilestonesOk(milestones + NewMilestones(|contracts|, row.document), contracts + [row])
  {
  }

  lemma MilestonesKept(s: State, w: Write)
    requires Guarded(s, w) && MilestonesOk(s.milestones, s.contracts) && IntentsOk(s.intents, s.milestones)
    ensures MilestonesOk(MilestonesAfter(s, w), ContractsAfter(s, w))
  {
    match w {
      case CaptureIntent(_, _, id) =>
        CapturedOk(s, id);
        MilestoneSet(s.milestones, s.contracts, s.intents[id].milestone, CapturedMilestone(s, id));
      case ReleaseMilestone(id, _, _) =>
        ReleasedOk(s, id);
        MilestoneSet(s.milestones, s.contracts, id, ReleasedMilestone(s.milestones[id]));
      case SettleRefund(id, _) => MovedOk(s, s.refunds[id].milestone, Created);
      case MoveMilestone(id, target) => MovedOk(s, id, target);
      case OpenDispute(id, _) => MovedOk(s, id, Disputed);
      case ResolveDispute(id, _, _, _, _, _) => MovedOk(s, s.disputes[id].milestone, Released);
      case AddSignature(g) =>
        if s.contracts[g.contract].status != Active {
          IdleContract(s, g.contract);
        }
        ContractSet(s.milestones, s.contracts, g.contract, SignedContract(s, g));
      case CancelContract(id) =>
        if s.contracts[id].status != Active {
          IdleContract(s, id);
        }
        ContractSet(s.milestones, s.contracts, id, s.contracts[id].(status := Cancelled));
      case AcceptProposal(id, c) => MilestonesAdded(s.milestones, s.contracts, c);
      case _ =>
    }
  }

  // ---- Intents, refunds, payouts ----------------------------------------------------------------

  /** The milestone facts that intents and refunds rest on never change. */
  predicate Extends(before: seq<Milestone>, after: seq<Milestone>) {
    && |before| <= |after|
    && forall m :: 0 <= m < |before| ==>
         && after[m].amount == before[m].amount && after[m].currency == before[m].currency
         && after[m].contract == before[m].contract && (before[m].commission.Some? ==> after[m].commission.Some?)
  }

  lemma MilestonesExtend(s: State, w: Write)
    requires Addresses(s, w)
    ensures Extends(s.milestones, MilestonesAfter(s, w))
  {
  }

  lemma IntentsMonotone(intents: seq<Intent>, before: seq<Milestone>, after: seq<Milestone>)
    requires Extends(before, after) && IntentsOk(intents, before)
    ensures IntentsOk(intents, after)
  {
  }

  lemma RefundsMonotone(refunds: seq<Refund>, before: seq<Milestone>, after: seq<Milestone>)
    requires Extends(before, after) && RefundsOk(refunds, before)
    ensures RefundsOk(refunds, after)
  {
  }

  lemma IntentsKept(s: State, w: Write)
    requires Guarded(s, w) && IntentsOk(s.intents, s.milestones)
    ensures IntentsOk(IntentsAfter(s, w), MilestonesAfter(s, w))
  {
    MilestonesExtend(s, w);
    assert IntentsOk(IntentsAfter(s, w), s.milestones);
    IntentsMonotone(IntentsAfter(s, w), s.milestones, MilestonesAfter(s, w));
  }

  lemma RefundSet(refunds: seq<Refund>, milestones: seq<Milestone>, id: Id, row: Refund)
    requires RefundsOk(refunds, milestones) && id < |refunds| && RefundOk(row, milestones)
    ensures RefundsOk(refunds[id := row], milestones)
  {
  }

  /** What the guards say about the writes that touch refunds. */
  lemma RefundGuards(s: State, w: Write)
    requires Guarded(s, w)
    ensures w.ReserveRefund? ==>
      w.key.operation == RefundOperation && s.milestones[w.id].status == Funded
      && Balance(s.journal, EscrowOf(s, w.id)) > 0
    ensures w.SettleRefund? || w.ReverseRefund? ==> s.refunds[w.id].status == Pending
    ensures w.ResolveDispute? ==>
      && w.key.operation == ResolveOperation && w.decision.refund >= 0
      && s.milestones[s.disputes[w.id].milestone].commission.Some?
  {
    hide Balance;
  }

  lemma RefundRowsKept(s: State, w: Write)
    requires Guarded(s, w) && RefundsOk(s.refunds, s.milestones) && MilestonesOk(s.milestones, s.contracts)
    ensures RefundsOk(RefundsAfter(s, w), s.milestones)
  {
    RefundGuards(s, w);
    assert Addresses(s, w);
    hide Guarded, Balance, MilestoneLog;
    match w {
      case NoteRefund(id, _) => RefundSet(s.refunds, s.milestones, id, RefundsAfter(s, w)[id]);
      case SettleRefund(id, _) => RefundSet(s.refunds, s.milestones, id, RefundsAfter(s, w)[id]);
      case ReverseRefund(id, _) => RefundSet(s.refunds, s.milestones, id, RefundsAfter(s, w)[id]);
      case _ =>
    }
  }

  lemma RefundsKept(s: State, w: Write)
    requires Guarded(s, w) && RefundsOk(s.refunds, s.milestones) && MilestonesOk(s.milestones, s.contracts)
    ensures RefundsOk(RefundsAfter(s, w), MilestonesAfter(s, w))
  {
    assert Addresses(s, w);
    hide RefundsOk, MilestonesOk, Guarded, Addresses, RefundsAfter, MilestonesAfter, Extends;
    RefundRowsKept(s, w);
    MilestonesExtend(s, w);
    RefundsMonotone(RefundsAfter(s, w), s.milestones, MilestonesAfter(s, w));
  }

  lemma PayoutsKept(s: State, w: Write)
    requires Guarded(s, w) && PayoutsOk(s.payouts)
    ensures PayoutsOk(PayoutsAfter(s, w))
  {
  }

  // ---- Disputes and proposals -------------------------------------------------------------------

  /** A milestone without a dispute may move freely. */
  lemma UndisputedMove(disputes: seq<Dispute>, milestones: seq<Milestone>, m: Id, row: Milestone)
    requires DisputesOk(disputes, milestones) && m < |milestones|
    requires milestones[m].status != Disputed && milestones[m].status != Released
    ensures DisputesOk(disputes, milestones[m := row])
  {
  }

  lemma DisputeMove(disputes: seq<Dispute>, milestones: seq<Milestone>, id: Id, row: Dispute, m: Milestone)
    requires DisputesOk(disputes, milestones) && id < |disputes|
    requires row.milestone == disputes[id].milestone
    requires DisputeOk(row, milestones[row.milestone := m])
    ensures DisputesOk(disputes[id := row], milestones[row.milestone := m])
  {
  }

  lemma DisputesExtend(disputes: seq<Dispute>, milestones: seq<Milestone>, more: seq<Milestone>)
    requires DisputesOk(disputes, milestones)
    ensures DisputesOk(disputes, milestones + more)
  {
  }

  predicate Undisputed(m: Milestone) { m.status != Disputed && m.status != Released }

  /** What the guards say about the writes that move milestones or disputes. */
  lemma DisputeGuards(s: State, w: Write)
    requires Guarded(s, w)
    ensures w.CaptureIntent? ==> Undisputed(s.milestones[s.intents[w.id].milestone])
    ensures w.SettleRefund? ==> Undisputed(s.milestones[s.refunds[w.id].milestone])
    ensures w.ReleaseMilestone? || w.MoveMilestone? || w.OpenDispute? ==> Undisputed(s.milestones[w.id])
    ensures w.AddEvidence? || w.MoveDispute? ==> s.disputes[w.id].status != Resolved
    ensures w.MoveDispute? ==> w.stage != Resolved
    ensures w.ResolveDispute? ==> s.disputes[w.id].status == UnderReview
  {
    hide Balance;
  }

  lemma MilestoneMoveKeeps(s: State, w: Write)
    requires Guarded(s, w) && DisputesOk(s.disputes, s.milestones)
    requires w.CaptureIntent? || w.ReleaseMilestone? || w.SettleRefund? || w.MoveMilestone?
    ensures DisputesOk(DisputesAfter(s, w), MilestonesAfter(s, w))
  {
    DisputeGuards(s, w);
    assert Addresses(s, w);
    hide Guarded, DisputesOk, Balance;
    match w {
      case CaptureIntent(_, _, id) =>
        UndisputedMove(s.disputes, s.milestones, s.intents[id].milestone, CapturedMilestone(s, id));
      case ReleaseMilestone(id, _, _) => UndisputedMove(s.disputes, s.milestones, id,
                                                        ReleasedMilestone(s.milestones[id]));
      case SettleRefund(id, _) =>
        var m := s.refunds[id].milestone;
        UndisputedMove(s.disputes, s.milestones, m, Move(s.milestones[m], Funded, Created));
      case MoveMilestone(id, target) =>
        UndisputedMove(s.disputes, s.milestones, id, Move(s.milestones[id], s.milestones[id].status, target));
    }
  }

  lemma DisputeWriteKeeps(s: State, w: Write)
    requires Guarded(s, w) && DisputesOk(s.disputes, s.milestones)
    requires w.OpenDispute? || w.AddEvidence? || w.MoveDispute? || w.ResolveDispute?
    ensures DisputesOk(DisputesAfter(s, w), MilestonesAfter(s, w))
  {
    DisputeGuards(s, w);
    assert Addresses(s, w);
    hide Guarded, DisputesOk, Balance;
    match w {
      case OpenDispute(id, user) =>
        var row := Move(s.milestones[id], s.milestones[id].status, Disputed);
        DisputeOpened(s.disputes, s.milestones, id, row, NewDispute(id, s.milestones[id].contract, user));
      case AddEvidence(id, _) => StillOpen(s, id, s.disputes[id].status, DisputesAfter(s, w)[id]);
      case MoveDispute(id, stage) => StillOpen(s, id, stage, DisputesAfter(s, w)[id]);
      case ResolveDispute(id, decision, _, _, _, _) => DisputeSettled(s, id, decision);
    }
  }

  lemma DisputesKept(s: State, w: Write)
    requires Guarded(s, w) && DisputesOk(s.disputes, s.milestones)
    ensures DisputesOk(DisputesAfter(s, w), MilestonesAfter(s, w))
  {
    hide Guarded, DisputesOk;
    if w.CaptureIntent? || w.ReleaseMilestone? || w.SettleRefund? || w.MoveMilestone? {
      MilestoneMoveKeeps(s, w);
    } else if w.OpenDispute? || w.AddEvidence? || w.MoveDispute? || w.ResolveDispute? {
      DisputeWriteKeeps(s, w);
    } else if w.AcceptProposal? {
      DisputesExtend(s.disputes, s.milestones, NewMilestones(|s.contracts|, w.contract.document));
    }
  }

  lemma DisputeOpened(disputes: seq<Dispute>, milestones: seq<Milestone>, m: Id, row: Milestone, d: Dispute)
    requires DisputesOk(disputes, milestones) && m < |milestones|
    requires milestones[m].status != Disputed && milestones[m].status != Released
    requires row.status == Disputed && d.milestone == m && d.status == Opened
    requires d.decision.None? && d.events == [DisputeEvent(None, Opened)]
    ensures DisputesOk(disputes + [d], milestones[m := row])
  {
    UndisputedMove(disputes, milestones, m, row);
  }

  lemma StillOpen(s: State, id: Id, to: DisputeStatus, row: Dispute)
    requires DisputesOk(s.disputes, s.milestones) && id < |s.disputes| && s.disputes[id].status != Resolved
    requires to != Resolved && row == Advance(s.disputes[id], s.disputes[id].status, to).(evidence := row.evidence)
    ensures DisputesOk(s.disputes[id := row], s.milestones)
  {
    AdvanceLogs(s.disputes[id], to);
    DisputeMove(s.disputes, s.milestones, id, row, s.milestones[row.milestone]);
    assert s.milestones[row.milestone := s.milestones[row.milestone]] == s.milestones;
  }

  lemma DisputeSettled(s: State, id: Id, decision: Decision)
    requires DisputesOk(s.disputes, s.milestones) && id < |s.disputes| && s.disputes[id].status == UnderReview
    ensures var m := s.disputes[id].milestone;
      DisputesOk(s.disputes[id := ResolvedDispute(s, id, decision)],
                 s.milestones[m := Move(s.milestones[m], Disputed, Released)])
  {
    AdvanceLogs(s.disputes[id], Resolved);
    var m := s.disputes[id].milestone;
    DisputeMove(s.disputes, s.milestones, id, ResolvedDispute(s, id, decision),
                Move(s.milestones[m], Disputed, Released));
  }

  lemma NextOk(was: Proposal, p: Proposal)
    requires ProposalOk(was) && NextVersion(was, p)
    ensures ProposalOk(p)
  {
    hide FairVersion;
    forall i | 0 <= i < |was.versions| ensures p.versions[i] == was.versions[i] {
      assert p.versions[..|was.versions|][i] == was.versions[i];
    }
  }

  lemma ProposalsKept(s: State, w: Write)
    requires Guarded(s, w) && ProposalsOk(s.proposals)
    ensures ProposalsOk(ProposalsAfter(s, w))
  {
    hide FairVersion, Balance;
    if w.SetProposal? {
      assert ProposalOk(s.proposals[w.id]);
      hide NextVersion;
      if NextVersion(s.proposals[w.id], w.proposal) {
        NextOk(s.proposals[w.id], w.proposal);
      }
    }
  }

  /** Every committed transaction keeps every row well formed. */
  lemma RowsKept(s: State, w: Write)
    requires Guarded(s, w) && RowsOk(s)
    ensures RowsOk(Commit(s, w))
  {
    MilestonesKept(s, w);
    IntentsKept(s, w);
    RefundsKept(s, w);
    PayoutsKept(s, w);
    DisputesKept(s, w);
    ProposalsKept(s, w);
  }
}
