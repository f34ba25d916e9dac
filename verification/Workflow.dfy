/** When each operation that moves no money changes the database, and what exactly it changes. */
module Workflow {
  import opened Basics
  import opened Ledger
  import opened Records
  import opened Transactions
  import opened Rows
  import opened Contracts
  import opened Invariant
  import opened System
  import Milestones
  import Disputes
  import Marketplace

  /** One of the two parties of the contract. */
  predicate Party(c: Contract, user: Id) { user == c.employer || user == c.freelancer }

  /** The request is answered exactly when `accepted`, with this status and row. */
  predicate Answers(reply: Reply, accepted: bool, status: nat, id: Id) {
    && (reply.Done? <==> accepted)
    && (reply.Done? ==> reply.response == Response(status, RowBody(id)))
  }

  // ---- Work -------------------------------------------------------------------------------------

  /** The freelancer starts and submits work, the employer reviews it. */
  predicate Responsible(c: Contract, user: Id, action: Milestones.Action) {
    match action
    case Start => user == c.freelancer
    case Submit => user == c.freelancer
    case RequestChanges => user == c.employer
    case Approve => user == c.employer
  }

  predicate OwnMilestone(s: State, user: Id, m: Id, action: Milestones.Action) {
    ActiveMilestone(s, m) && Responsible(s.contracts[s.milestones[m].contract], user, action)
  }

  /** The party of the action finds the milestone where the table lets it start, and work starts on a full escrow. */
  predicate MayProgress(s: State, user: Id, m: Id, action: Milestones.Action) {
    && OwnMilestone(s, user, m, action)
    && Milestones.MayTransition(action, s.milestones[m].status)
    && (action == Milestones.Start ==> Balance(s.journal, EscrowOf(s, m)) == s.milestones[m].amount)
  }

  /** The action happens now, or the milestone is already where it leads. */
  predicate TakesAction(s: State, user: Id, m: Id, action: Milestones.Action) {
    && OwnMilestone(s, user, m, action)
    && (MayProgress(s, user, m, action) || s.milestones[m].status == Milestones.Target(action))
  }

  function Moved(s: State, m: Id, to: MilestoneStatus): State
    requires m < |s.milestones|
  {
    s.(milestones := s.milestones[m := Move(s.milestones[m], s.milestones[m].status, to)])
  }

  lemma ProgressWrites(s: State, user: Id, m: Id, action: Milestones.Action)
    requires MilestonesOk(s.milestones, s.contracts)
    ensures var o := Milestones.Progress(s, user, m, action);
      && o.write == (if MayProgress(s, user, m, action) then MoveMilestone(m, Milestones.Target(action)) else Nothing)
      && Answers(o.reply, TakesAction(s, user, m, action), 200, m)
  {
    hide Lawful, Balance, MilestoneLog;
    if m < |s.milestones| {
      assert MilestoneOk(s.milestones[m], s.contracts);
    }
  }

  lemma MoveCommits(s: State, m: Id, to: MilestoneStatus)
    requires m < |s.milestones|
    ensures Commit(s, MoveMilestone(m, to)) == Moved(s, m, to)
  {
  }

  lemma StepProgresses(s: State, user: Id, m: Id, action: Milestones.Action)
    ensures Decide(s, Progress(user, m, action)) == Milestones.Progress(s, user, m, action)
  {
    hide Lawful, Milestones.Progress;
  }

  /**
   A milestone moves to the target of an action if and only if its contract is active, the user is the party of
   that action, the table allows it, and work starts on a full escrow; nothing else changes, and a repeated action
   is answered without a change.
   */
  lemma ProgressIff(s: State, user: Id, m: Id, action: Milestones.Action)
    requires Reached(s)
    ensures Apply(s, Progress(user, m, action))
         == if MayProgress(s, user, m, action) then Moved(s, m, Milestones.Target(action)) else s
    ensures Answers(Decide(s, Progress(user, m, action)).reply, TakesAction(s, user, m, action), 200, m)
  {
    hide Run, MilestonesOk, BooksOk, KeysOk, ContractsOk;
    ReachedInv(s);
    StepProgresses(s, user, m, action);
    ProgressWrites(s, user, m, action);
    hide Decide, Commit, Milestones.Progress, Milestones.MayTransition, Responsible, Reached, TakesAction;
    NothingStays(s);
    if MayProgress(s, user, m, action) {
      MoveCommits(s, m, Milestones.Target(action));
    }
  }

  // ---- Disputes ---------------------------------------------------------------------------------

  /** A party of an active contract, with a reason, over a funded and unreleased milestone not disputed before. */
  predicate MayDispute(s: State, user: Id, m: Id, reason: string) {
    && ValidText(reason) && ActiveMilestone(s, m) && Party(s.contracts[s.milestones[m].contract], user)
    && s.milestones[m].status in {Funded, InProgress, Submitted, ChangesRequested, Approved}
    && NoDisputeOn(s, m)
  }

  function Contested(s: State, user: Id, m: Id): State
    requires m < |s.milestones|
  {
    Moved(s, m, MilestoneStatus.Disputed).(
      disputes := s.disputes + [Dispute(m, s.milestones[m].contract, user, Opened, [], [DisputeEvent(None, Opened)],
                                        None)])
  }

  lemma OpenWrites(s: State, user: Id, m: Id, reason: string)
    ensures Disputes.Open(s, user, m, reason).write
         == if MayDispute(s, user, m, reason) then Write.OpenDispute(m, user) else Nothing
    ensures Answers(Disputes.Open(s, user, m, reason).reply, MayDispute(s, user, m, reason), 201, |s.disputes|)
  {
    hide Lawful;
  }

  lemma OpenCommits(s: State, user: Id, m: Id)
    requires m < |s.milestones|
    ensures Commit(s, Write.OpenDispute(m, user)) == Contested(s, user, m)
  {
  }

  lemma StepOpens(s: State, user: Id, m: Id, reason: string)
    ensures Decide(s, Step.OpenDispute(user, m, reason)) == Disputes.Open(s, user, m, reason)
  {
    hide Lawful, Disputes.Open;
  }

  /** A dispute is opened, and its milestone frozen, if and only if every condition of the request holds. */
  lemma DisputeIff(s: State, user: Id, m: Id, reason: string)
    ensures Apply(s, Step.OpenDispute(user, m, reason))
         == if MayDispute(s, user, m, reason) then Contested(s, user, m) else s
    ensures Answers(Decide(s, Step.OpenDispute(user, m, reason)).reply, MayDispute(s, user, m, reason),
                    201, |s.disputes|)
  {
    StepOpens(s, user, m, reason);
    OpenWrites(s, user, m, reason);
    hide Decide, Commit, Disputes.Open, Contested, ValidText, NoDisputeOn;
    NothingStays(s);
    if MayDispute(s, user, m, reason) {
      OpenCommits(s, user, m);
    }
  }

  /** A party adds a usable file once, while evidence may be added. */
  predicate MaySubmit(s: State, user: Id, id: Id, file: Id, usable: bool) {
    && id < |s.disputes| && s.disputes[id].contract < |s.contracts|
    && Party(s.contracts[s.disputes[id].contract], user)
    && s.disputes[id].status in {Opened, EvidenceCollection, NeedMoreInfo}
    && usable && file !in s.disputes[id].evidence
  }

  function Extended(s: State, id: Id, file: Id): State
    requires id < |s.disputes|
  {
    var d := s.disputes[id];
    s.(disputes := s.disputes[id := d.(evidence := d.evidence + [file],
                                       events := d.events + [DisputeEvent(Some(d.status), d.status)])])
  }

  lemma StepSubmits(s: State, user: Id, id: Id, file: Id, usable: bool)
    ensures Decide(s, Step.AddEvidence(user, id, file, usable)) == Disputes.Evidence(s, user, id, file, usable)
  {
    hide Lawful, Disputes.Evidence;
  }

  lemma EvidenceWrites(s: State, user: Id, id: Id, file: Id, usable: bool)
    ensures Disputes.Evidence(s, user, id, file, usable).write
         == if MaySubmit(s, user, id, file, usable) then Write.AddEvidence(id, file) else Nothing
    ensures Answers(Disputes.Evidence(s, user, id, file, usable).reply, MaySubmit(s, user, id, file, usable), 201, id)
  {
    hide Lawful;
  }

  lemma EvidenceCommits(s: State, id: Id, file: Id)
    requires id < |s.disputes|
    ensures Commit(s, Write.AddEvidence(id, file)) == Extended(s, id, file)
  {
  }

  /** Evidence is added if and only if a party of the dispute submits a usable file that is not there yet, in time. */
  lemma EvidenceIff(s: State, user: Id, id: Id, file: Id, usable: bool)
    ensures Apply(s, Step.AddEvidence(user, id, file, usable))
         == if MaySubmit(s, user, id, file, usable) then Extended(s, id, file) else s
    ensures Answers(Decide(s, Step.AddEvidence(user, id, file, usable)).reply, MaySubmit(s, user, id, file, usable),
                    201, id)
  {
    StepSubmits(s, user, id, file, usable);
    EvidenceWrites(s, user, id, file, usable);
    hide Decide, Commit, Disputes.Evidence, Extended;
    NothingStays(s);
    if MaySubmit(s, user, id, file, usable) {
      EvidenceCommits(s, id, file);
    }
  }

  predicate MayReview(s: State, id: Id, to: DisputeStatus, reason: string) {
    id < |s.disputes| && ValidText(reason) && Disputes.MayMove(s.disputes[id].status, to)
  }

  function Reviewed(s: State, id: Id, to: DisputeStatus): State
    requires id < |s.disputes|
  {
    var d := s.disputes[id];
    s.(disputes := s.disputes[id := d.(status := to, events := d.events + [DisputeEvent(Some(d.status), to)])])
  }

  lemma StepReviews(s: State, id: Id, to: DisputeStatus, reason: string)
    ensures Decide(s, Step.Review(id, to, reason)) == Disputes.Review(s, id, to, reason)
  {
    hide Lawful, Disputes.Review;
  }

  lemma ReviewWrites(s: State, id: Id, to: DisputeStatus, reason: string)
    ensures Disputes.Review(s, id, to, reason).write
         == if MayReview(s, id, to, reason) then MoveDispute(id, to) else Nothing
    ensures Answers(Disputes.Review(s, id, to, reason).reply, MayReview(s, id, to, reason), 200, id)
  {
    hide Lawful;
  }

  lemma ReviewCommits(s: State, id: Id, to: DisputeStatus)
    requires id < |s.disputes|
    ensures Commit(s, MoveDispute(id, to)) == Reviewed(s, id, to)
  {
  }

  /** An administrator moves a dispute if and only if the table allows the move and a reason is given. */
  lemma ReviewIff(s: State, id: Id, to: DisputeStatus, reason: string)
    ensures Apply(s, Step.Review(id, to, reason))
         == if MayReview(s, id, to, reason) then Reviewed(s, id, to) else s
    ensures Answers(Decide(s, Step.Review(id, to, reason)).reply, MayReview(s, id, to, reason), 200, id)
  {
    StepReviews(s, id, to, reason);
    ReviewWrites(s, id, to, reason);
    hide Decide, Commit, Disputes.Review, Reviewed, Disputes.MayMove, ValidText;
    NothingStays(s);
    if MayReview(s, id, to, reason) {
      ReviewCommits(s, id, to);
    }
  }

  // ---- Projects and proposals -------------------------------------------------------------------

  lemma StepPosts(s: State, user: Id, currency: Option<string>)
    ensures Decide(s, PostProject(user, currency)) == Marketplace.Post(s, user, currency)
  {
    hide Lawful, Marketplace.Post;
  }

  /** Posting a project always adds it, open and owned by the poster. */
  lemma PostAdds(s: State, user: Id, currency: Option<string>)
    ensures Apply(s, PostProject(user, currency))
         == s.(projects := s.projects + [Project(user, currency, ProjectOpen)])
    ensures Answers(Decide(s, PostProject(user, currency)).reply, true, 201, |s.projects|)
  {
    StepPosts(s, user, currency);
    hide Decide;
  }

  predicate MatchesBudget(project: Project, currency: string) {
    project.currency.Some? ==> project.currency.value == currency
  }

  /** Fair terms in the budget's currency, for somebody else's open project, from a user without a proposal for it. */
  predicate MayPropose(s: State, user: Id, project: Id, v: ProposalVersion) {
    && project < |s.projects| && s.projects[project].status == ProjectOpen && s.projects[project].employer != user
    && MatchesBudget(s.projects[project], v.currency) && FairVersion(v)
    && forall p :: 0 <= p < |s.proposals| ==> s.proposals[p].project != project || s.proposals[p].freelancer != user
  }

  lemma StepProposes(s: State, user: Id, project: Id, v: ProposalVersion)
    ensures Decide(s, Propose(user, project, v.amount, v.currency, v.milestones))
         == Marketplace.Propose(s, user, project, v.amount, v.currency, v.milestones)
  {
    hide Lawful, Marketplace.Propose;
  }

  lemma ProposeWrites(s: State, user: Id, project: Id, v: ProposalVersion)
    requires v.number == 1
    ensures Marketplace.Propose(s, user, project, v.amount, v.currency, v.milestones).write
         == if MayPropose(s, user, project, v) then AddProposal(Proposal(project, user, Draft, 1, [v])) else Nothing
    ensures Answers(Marketplace.Propose(s, user, project, v.amount, v.currency, v.milestones).reply,
                    MayPropose(s, user, project, v), 201, |s.proposals|)
  {
    hide Lawful, FairVersion, Marketplace.NewVersion;
    assert v == ProposalVersion(1, v.amount, v.currency, v.milestones);
  }

  /** A proposal is drafted, with its first version, if and only if every condition holds. */
  lemma ProposeIff(s: State, user: Id, project: Id, v: ProposalVersion)
    requires v.number == 1
    ensures Apply(s, Propose(user, project, v.amount, v.currency, v.milestones))
         == if MayPropose(s, user, project, v)
            then s.(proposals := s.proposals + [Proposal(project, user, Draft, 1, [v])]) else s
    ensures Answers(Decide(s, Propose(user, project, v.amount, v.currency, v.milestones)).reply,
                    MayPropose(s, user, project, v), 201, |s.proposals|)
  {
    StepProposes(s, user, project, v);
    ProposeWrites(s, user, project, v);
    hide Decide, Marketplace.Propose, FairVersion, MayPropose;
  }

  /** The owner adds fair terms while the proposal is a draft or negotiated, in its currency or the budget's. */
  predicate MayRevise(s: State, user: Id, id: Id, v: ProposalVersion) {
    && id < |s.proposals|
    && var p := s.proposals[id];
    && user == p.freelancer && p.status in {Draft, UnderNegotiation} && p.versions != [] && p.project < |s.projects|
    && (p.versions[|p.versions| - 1].currency == v.currency || MatchesBudget(s.projects[p.project], v.currency))
    && FairVersion(v)
  }

  function Revised(s: State, id: Id, v: ProposalVersion): State
    requires id < |s.proposals|
  {
    var p := s.proposals[id];
    s.(proposals := s.proposals[id := p.(currentVersion := p.currentVersion + 1, versions := p.versions + [v])])
  }

  lemma StepRevises(s: State, user: Id, id: Id, v: ProposalVersion)
    ensures Decide(s, Revise(user, id, v.amount, v.currency, v.milestones))
         == Marketplace.Revise(s, user, id, v.amount, v.currency, v.milestones)
  {
    hide Lawful, Marketplace.Revise;
  }

  lemma ReviseCommits(s: State, user: Id, id: Id, v: ProposalVersion)
    requires id < |s.proposals| ==> v.number == s.proposals[id].currentVersion + 1
    ensures var o := Marketplace.Revise(s, user, id, v.amount, v.currency, v.milestones);
      && Commit(s, o.write) == (if MayRevise(s, user, id, v) then Revised(s, id, v) else s)
      && Answers(o.reply, MayRevise(s, user, id, v), 200, id)
  {
    hide Lawful, FairVersion, Marketplace.NewVersion;
    assert v == ProposalVersion(v.number, v.amount, v.currency, v.milestones);
  }

  /** A proposal gets another version, with the next number, if and only if every condition holds. */
  lemma ReviseIff(s: State, user: Id, id: Id, v: ProposalVersion)
    requires id < |s.proposals| ==> v.number == s.proposals[id].currentVersion + 1
    ensures Apply(s, Revise(user, id, v.amount, v.currency, v.milestones))
         == if MayRevise(s, user, id, v) then Revised(s, id, v) else s
    ensures Answers(Decide(s, Revise(user, id, v.amount, v.currency, v.milestones)).reply, MayRevise(s, user, id, v),
                    200, id)
  {
    StepRevises(s, user, id, v);
    ReviseCommits(s, user, id, v);
    hide Decide, Commit, Marketplace.Revise, MayRevise, Revised;
  }

  /** The freelancer submits and withdraws, the employer negotiates, declines and accepts. */
  predicate MayDecide(s: State, user: Id, id: Id, to: ProposalStatus) {
    && id < |s.proposals| && s.proposals[id].project < |s.projects|
    && var p := s.proposals[id]; var project := s.projects[p.project];
    && Marketplace.Negotiates(p.status, to) && project.status == ProjectOpen
    && match to
       case ProposalSubmitted => user == p.freelancer
       case Withdrawn => user == p.freelancer
       case _ => user == project.employer
  }

  function WithStatus(s: State, id: Id, to: ProposalStatus): State
    requires id < |s.proposals|
  {
    s.(proposals := s.proposals[id := s.proposals[id].(status := to)])
  }

  lemma StepNegotiates(s: State, user: Id, id: Id, to: ProposalStatus, bps: int)
    ensures Decide(s, Negotiate(user, id, to, bps)) == Marketplace.Negotiate(s, user, id, to, bps)
  {
    hide Lawful, Marketplace.Negotiate;
  }

  lemma NegotiateCommits(s: State, user: Id, id: Id, to: ProposalStatus, bps: int)
    requires to != Accepted
    ensures var o := Marketplace.Negotiate(s, user, id, to, bps);
      && Commit(s, o.write) == (if MayDecide(s, user, id, to) then WithStatus(s, id, to) else s)
      && Answers(o.reply, MayDecide(s, user, id, to), 200, id)
  {
    hide Lawful, Marketplace.Accept;
  }

  /** Short of acceptance, a proposal moves if and only if the table allows it and its proper party orders it. */
  lemma NegotiateIff(s: State, user: Id, id: Id, to: ProposalStatus, bps: int)
    requires to != Accepted
    ensures Apply(s, Negotiate(user, id, to, bps)) == if MayDecide(s, user, id, to) then WithStatus(s, id, to) else s
    ensures Answers(Decide(s, Negotiate(user, id, to, bps)).reply, MayDecide(s, user, id, to), 200, id)
  {
    StepNegotiates(s, user, id, to, bps);
    NegotiateCommits(s, user, id, to, bps);
    hide Decide, Commit, Marketplace.Negotiate, MayDecide, WithStatus;
  }

  /** The employer accepts another user's proposal, at a rate of 0 to 100 percent, on a project without contract. */
  predicate MayAccept(s: State, user: Id, id: Id, bps: int) {
    && MayDecide(s, user, id, Accepted)
    && s.proposals[id].freelancer != s.projects[s.proposals[id].project].employer
    && s.proposals[id].versions != [] && 0 <= bps <= 10000
    && NoContractOn(s, s.proposals[id].project)
  }

  /** The contract on the newest version of the proposal, and its milestones. */
  function Minted(s: State, id: Id, bps: nat): State
    requires id < |s.proposals| && s.proposals[id].project < |s.projects| && s.proposals[id].versions != []
  {
    var p := s.proposals[id];
    var document := TermsOf(p, id, p.versions[|p.versions| - 1], bps);
    WithStatus(s, id, Accepted).(
      contracts := s.contracts + [Contract(p.project, id, s.projects[p.project].employer, p.freelancer,
                                           PendingSignatures, document)],
      milestones := s.milestones + NewMilestones(|s.contracts|, document))
  }

  lemma CurrentIsNewest(p: Proposal)
    requires ProposalOk(p)
    ensures LastWhere(p.versions, (v: ProposalVersion) => Marketplace.Numbered(v, p.currentVersion))
         == if p.versions == [] then None else Some(|p.versions| - 1)
  {
    var numbered := (v: ProposalVersion) => Marketplace.Numbered(v, p.currentVersion);
    if p.versions != [] {
      assert numbered(p.versions[|p.versions| - 1]);
    }
  }

  /** The employer accepts again the proposal that the project's contract came from. */
  predicate MayConfirm(s: State, user: Id, id: Id) {
    && MayDecide(s, user, id, Accepted)
    && s.proposals[id].freelancer != s.projects[s.proposals[id].project].employer
    && exists c :: 0 <= c < |s.contracts| && s.contracts[c].project == s.proposals[id].project
        && s.contracts[c].proposal == id
  }

  /** What accepting a proposal makes of the database. */
  function Settled(s: State, user: Id, id: Id, bps: int): State {
    if MayAccept(s, user, id, bps) then Minted(s, id, bps)
    else if MayConfirm(s, user, id) then WithStatus(s, id, Accepted)
    else s
  }

  lemma MintCommits(s: State, user: Id, id: Id, bps: int)
    requires ProposalsOk(s.proposals) && id < |s.proposals| && NoContractOn(s, s.proposals[id].project)
    ensures var o := Marketplace.Negotiate(s, user, id, Accepted, bps);
      && Commit(s, o.write) == (if MayAccept(s, user, id, bps) then Minted(s, id, bps) else s)
      && Answers(o.reply, MayAccept(s, user, id, bps), 200, id)
  {
    hide Lawful, Marketplace.Negotiates, Terms, NewMilestones;
    assert ProposalOk(s.proposals[id]);
    CurrentIsNewest(s.proposals[id]);
    hide ProposalOk, LastWhere;
  }

  lemma ConfirmCommits(s: State, user: Id, id: Id, bps: int)
    requires OnePerProject(s.contracts, s.projects)
    requires id < |s.proposals| ==> !NoContractOn(s, s.proposals[id].project)
    ensures var o := Marketplace.Negotiate(s, user, id, Accepted, bps);
      && Commit(s, o.write) == (if MayConfirm(s, user, id) then WithStatus(s, id, Accepted) else s)
      && Answers(o.reply, MayConfirm(s, user, id), 200, id)
  {
    hide Lawful, Marketplace.Negotiates, Terms, NewMilestones;
    if id < |s.proposals| {
      var project := s.proposals[id].project;
      var found := LastWhere(s.contracts, (c: Contract) => Marketplace.OnProject(c, project));
      assert found.Some? && Marketplace.OnProject(s.contracts[found.value], project);
    }
  }

  lemma AcceptCommits(s: State, user: Id, id: Id, bps: int)
    requires ProposalsOk(s.proposals) && OnePerProject(s.contracts, s.projects)
    ensures var o := Marketplace.Negotiate(s, user, id, Accepted, bps);
      && Commit(s, o.write) == Settled(s, user, id, bps)
      && Answers(o.reply, MayAccept(s, user, id, bps) || MayConfirm(s, user, id), 200, id)
  {
    hide ProposalsOk, OnePerProject, Commit, Marketplace.Negotiate, Minted, WithStatus;
    if id < |s.proposals| && NoContractOn(s, s.proposals[id].project) {
      MintCommits(s, user, id, bps);
    } else {
      ConfirmCommits(s, user, id, bps);
    }
  }

  /**
   Accepting mints the contract of the newest version, with its milestones, if and only if the project has none
   and every condition holds; on a project with a contract only the proposal it came from can be accepted again.
   */
  lemma AcceptIff(s: State, user: Id, id: Id, bps: int)
    requires Reached(s)
    ensures Apply(s, Negotiate(user, id, Accepted, bps)) == Settled(s, user, id, bps)
    ensures Answers(Decide(s, Negotiate(user, id, Accepted, bps)).reply,
                    MayAccept(s, user, id, bps) || MayConfirm(s, user, id), 200, id)
  {
    hide Run, ProposalsOk, OnePerProject, BooksOk, KeysOk;
    ReachedInv(s);
    StepNegotiates(s, user, id, Accepted, bps);
    AcceptCommits(s, user, id, bps);
    hide Decide, Commit, Marketplace.Negotiate, MayAccept, MayConfirm, Settled, Reached;
  }

  // ---- Contracts --------------------------------------------------------------------------------

  /** A party signs the contract's own document, once, under a key that user has not signed with before. */
  predicate MaySign(s: State, user: Id, id: Id, key: string, expected: Document) {
    && id < |s.contracts| && Party(s.contracts[id], user) && s.contracts[id].status != Cancelled
    && expected == s.contracts[id].document
    && !HasSigned(s.signatures, id, user) && UnusedBy(s, user, key)
  }

  predicate UnusedBy(s: State, user: Id, key: string) {
    forall g :: 0 <= g < |s.signatures| ==> s.signatures[g].user != user || s.signatures[g].key != key
  }

  /** A party repeats a signature: under its key, or under a new key after having signed. */
  predicate SignsAgain(s: State, user: Id, id: Id, key: string, expected: Document) {
    && id < |s.contracts| && Party(s.contracts[id], user) && s.contracts[id].status != Cancelled
    && expected == s.contracts[id].document
    && (|| (UnusedBy(s, user, key) && HasSigned(s.signatures, id, user))
        || exists g :: 0 <= g < |s.signatures| && s.signatures[g].user == user && s.signatures[g].key == key
            && s.signatures[g].contract == id)
  }

  function SignedBy(s: State, user: Id, id: Id, key: string): State
    requires id < |s.contracts|
  {
    var g := Signature(id, user, s.contracts[id].document, key);
    s.(signatures := s.signatures + [g], contracts := s.contracts[id := SignedContract(s, g)])
  }

  lemma StepSigns(s: State, user: Id, id: Id, key: string, expected: Document)
    ensures Decide(s, Sign(user, id, key, expected)) == Marketplace.Sign(s, user, id, key, expected)
  {
    hide Lawful, Marketplace.Sign;
  }

  lemma SignWrites(s: State, user: Id, id: Id, key: string, expected: Document)
    requires SignaturesOk(s.signatures, s.contracts)
    ensures var o := Marketplace.Sign(s, user, id, key, expected);
      && o.write == (if MaySign(s, user, id, key, expected)
                     then AddSignature(Signature(id, user, s.contracts[id].document, key)) else Nothing)
      && Answers(o.reply, MaySign(s, user, id, key, expected) || SignsAgain(s, user, id, key, expected), 200, id)
  {
    var prior := LastWhere(s.signatures, (g: Signature) => Marketplace.KeyUsed(g, user, key));
    if prior.Some? {
      assert Marketplace.KeyUsed(s.signatures[prior.value], user, key);
      OneSignature(s.signatures, s.contracts, user, key, prior.value);
    }
    hide Lawful, HasSigned, SignaturesOk;
  }

  /** A user's key names at most one signature. */
  lemma OneSignature(signatures: seq<Signature>, contracts: seq<Contract>, user: Id, key: string, g: Id)
    requires SignaturesOk(signatures, contracts) && g < |signatures|
    requires signatures[g].user == user && signatures[g].key == key
    ensures forall h :: 0 <= h < |signatures| && signatures[h].user == user && signatures[h].key == key ==> h == g
  {
  }

  lemma SignatureCommits(s: State, user: Id, id: Id, key: string)
    requires id < |s.contracts|
    ensures Commit(s, AddSignature(Signature(id, user, s.contracts[id].document, key))) == SignedBy(s, user, id, key)
  {
    hide SignedContract;
  }

  lemma SignCommits(s: State, user: Id, id: Id, key: string, expected: Document)
    requires SignaturesOk(s.signatures, s.contracts)
    ensures var o := Marketplace.Sign(s, user, id, key, expected);
      && Commit(s, o.write) == (if MaySign(s, user, id, key, expected) then SignedBy(s, user, id, key) else s)
      && Answers(o.reply, MaySign(s, user, id, key, expected) || SignsAgain(s, user, id, key, expected), 200, id)
  {
    SignWrites(s, user, id, key, expected);
    hide Marketplace.Sign, Commit, SignedBy, SignaturesOk, UnusedBy, HasSigned, SignsAgain;
    NothingStays(s);
    if MaySign(s, user, id, key, expected) {
      SignatureCommits(s, user, id, key);
    }
  }

  /** A signature is recorded if and only if every condition holds; a repeated one is answered without a change. */
  lemma SignIff(s: State, user: Id, id: Id, key: string, expected: Document)
    requires Reached(s)
    ensures Apply(s, Sign(user, id, key, expected))
         == if MaySign(s, user, id, key, expected) then SignedBy(s, user, id, key) else s
    ensures Answers(Decide(s, Sign(user, id, key, expected)).reply,
                    MaySign(s, user, id, key, expected) || SignsAgain(s, user, id, key, expected), 200, id)
  {
    hide Run, RowsOk, BooksOk, KeysOk, SignaturesOk;
    ReachedInv(s);
    StepSigns(s, user, id, key, expected);
    SignCommits(s, user, id, key, expected);
    hide Decide, Commit, Marketplace.Sign, MaySign, SignsAgain, SignedBy, Reached;
  }

  /** The employer cancels while nothing has been paid or is being paid for the contract. */
  predicate MayCancel(s: State, user: Id, id: Id) {
    && id < |s.contracts| && user == s.contracts[id].employer && s.contracts[id].status != Cancelled
    && (s.contracts[id].status == Active ==>
          && (forall m :: 0 <= m < |s.milestones| && s.milestones[m].contract == id ==>
                s.milestones[m].status == Created)
          && forall i :: 0 <= i < |s.intents| && s.intents[i].status == IntentPending ==>
              s.intents[i].milestone >= |s.milestones| || s.milestones[s.intents[i].milestone].contract != id)
  }

  lemma StepCancels(s: State, user: Id, id: Id)
    ensures Decide(s, Step.Cancel(user, id)) == Marketplace.Cancel(s, user, id)
  {
    hide Lawful, Marketplace.Cancel;
  }

  predicate CancelsAgain(s: State, user: Id, id: Id) {
    id < |s.contracts| && user == s.contracts[id].employer && s.contracts[id].status == Cancelled
  }

  lemma CancelCommits(s: State, user: Id, id: Id)
    ensures var o := Marketplace.Cancel(s, user, id);
      && Commit(s, o.write) == (if MayCancel(s, user, id)
                                then s.(contracts := s.contracts[id := s.contracts[id].(status := Cancelled)]) else s)
      && Answers(o.reply, MayCancel(s, user, id) || CancelsAgain(s, user, id), 200, id)
  {
    hide Lawful;
  }

  /** A contract is cancelled if and only if every condition holds; cancelling it again is answered without a change. */
  lemma CancelIff(s: State, user: Id, id: Id)
    ensures Apply(s, Step.Cancel(user, id))
         == if MayCancel(s, user, id) then s.(contracts := s.contracts[id := s.contracts[id].(status := Cancelled)])
            else s
    ensures Answers(Decide(s, Step.Cancel(user, id)).reply, MayCancel(s, user, id) || CancelsAgain(s, user, id),
                    200, id)
  {
    StepCancels(s, user, id);
    CancelCommits(s, user, id);
    hide Decide, Commit, Marketplace.Cancel, MayCancel;
  }

  /** The employer closes an open project whose contract is active and has only released milestones. */
  predicate MayClose(s: State, user: Id, id: Id) {
    && id < |s.projects| && user == s.projects[id].employer && s.projects[id].status == ProjectOpen
    && exists c :: 0 <= c < |s.contracts| && s.contracts[c].project == id && s.contracts[c].status == Active
        && Finished(s.milestones, c)
  }

  lemma StepCloses(s: State, user: Id, id: Id)
    ensures Decide(s, Step.Close(user, id)) == Marketplace.Close(s, user, id)
  {
    hide Lawful, Marketplace.Close;
  }

  lemma CloseCommits(s: State, user: Id, id: Id)
    requires OnePerProject(s.contracts, s.projects)
    ensures var o := Marketplace.Close(s, user, id);
      && Commit(s, o.write) == (if MayClose(s, user, id)
                                then s.(projects := s.projects[id := s.projects[id].(status := ProjectClosed)]) else s)
      && Answers(o.reply, MayClose(s, user, id), 200, id)
  {
    hide Lawful;
    var found := LastWhere(s.contracts, (c: Contract) => Marketplace.OnProject(c, id));
    if found.Some? {
      assert Marketplace.OnProject(s.contracts[found.value], id);
      assert AllReleased(s, found.value) <==> Finished(s.milestones, found.value);
    }
  }

  /** A project is closed if and only if every condition holds. */
  lemma CloseIff(s: State, user: Id, id: Id)
    requires Reached(s)
    ensures Apply(s, Step.Close(user, id))
         == if MayClose(s, user, id) then s.(projects := s.projects[id := s.projects[id].(status := ProjectClosed)])
            else s
    ensures Answers(Decide(s, Step.Close(user, id)).reply, MayClose(s, user, id), 200, id)
  {
    hide Run, RowsOk, BooksOk, KeysOk, OnePerProject;
    ReachedInv(s);
    StepCloses(s, user, id);
    CloseCommits(s, user, id);
    hide Decide, Commit, Marketplace.Close, Reached;
  }
}
