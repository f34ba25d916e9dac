/** Projects, proposals and the contracts they turn into. */
module Marketplace {
  import opened Basics
  import opened Records
  import opened Transactions

  function Created201(id: Id): Reply { Done(Response(201, RowBody(id))) }

  function Ok200(id: Id): Reply { Done(Response(200, RowBody(id))) }

  function Post(s: State, user: Id, currency: Option<string>): (o: Outcome)
    ensures Lawful(s, o.write) && Quiet(o)
  {
    Outcome(AddProject(Project(user, currency, ProjectOpen)), Created201(|s.projects|))
  }

  /** _new_version: stated milestone amounts must add up to the price. */
  function NewVersion(number: nat, amount: nat, currency: string, milestones: seq<nat>): (v: Option<ProposalVersion>)
    ensures v.None? <==> !FairVersion(ProposalVersion(number, amount, currency, milestones))
    ensures v.Some? ==> FairVersion(v.value)
    ensures v.Some? ==> v.value.number == number && v.value.amount == amount
    ensures v.Some? ==> v.value.currency == currency && v.value.milestones == milestones
  {
    if milestones != [] && Sum(milestones, AsInt) != amount then None
    else Some(ProposalVersion(number, amount, currency, milestones))
  }

  predicate SameBidder(p: Proposal, project: Id, user: Id) { p.project == project && p.freelancer == user }

  /** create_proposal. */
  function Propose(s: State, user: Id, project: Id, amount: nat, currency: string, milestones: seq<nat>): (o: Outcome)
    ensures Lawful(s, o.write) && Quiet(o)
  {
    if project >= |s.projects| then Raise(NotFound)
    else if s.projects[project].status != ProjectOpen || s.projects[project].employer == user then Raise(Forbidden)
    else if s.projects[project].currency.Some? && s.projects[project].currency != Some(currency) then
        Raise(InvalidInput)
    else
      var version := NewVersion(1, amount, currency, milestones);
      if version.None? then Raise(InvalidInput)
      else if LastWhere(s.proposals, (p: Proposal) => SameBidder(p, project, user)).Some? then Raise(AlreadyExists)
      else Outcome(AddProposal(Proposal(project, user, Draft, 1, [version.value])), Created201(|s.proposals|))
  }

  /** add_proposal_version. */
  function Revise(s: State, user: Id, id: Id, amount: nat, currency: string, milestones: seq<nat>): (o: Outcome)
    ensures Lawful(s, o.write) && Quiet(o)
  {
    if id >= |s.proposals| then Raise(NotFound)
    else
      var p := s.proposals[id];
      if user != p.freelancer then Raise(Forbidden)
      else if p.status != Draft && p.status != UnderNegotiation then Raise(InvalidTransition)
      else if p.versions == [] || p.project >= |s.projects| then Raise(Internal)
      else if p.versions[|p.versions| - 1].currency != currency && s.projects[p.project].currency.Some?
              && s.projects[p.project].currency != Some(currency) then Raise(InvalidInput)
      else
        var version := NewVersion(p.currentVersion + 1, amount, currency, milestones);
        if version.None? then Raise(InvalidInput)
        else
          var row := p.(currentVersion := p.currentVersion + 1, versions := p.versions + [version.value]);
          Outcome(SetProposal(id, row), Ok200(id))
  }

  /** Where a proposal may move; a status that is missing is final. */
  const ALLOWED_TRANSITIONS: map<ProposalStatus, set<ProposalStatus>> :=
    map[Draft := {ProposalSubmitted}, ProposalSubmitted := {UnderNegotiation, Withdrawn, Declined, Accepted},
        UnderNegotiation := {Withdrawn, Declined, Accepted}]

  predicate Negotiates(from: ProposalStatus, to: ProposalStatus) {
    from in ALLOWED_TRANSITIONS && to in ALLOWED_TRANSITIONS[from]
  }

  /** Proposals that were withdrawn, declined or accepted are final, and only a draft is submitted. */
  lemma NegotiationTable(from: ProposalStatus, to: ProposalStatus)
    ensures Negotiates(from, to) <==>
      if from == Draft then to == ProposalSubmitted
      else if from == ProposalSubmitted || from == UnderNegotiation then
        to in {Withdrawn, Declined, Accepted} || (to == UnderNegotiation && from == ProposalSubmitted)
      else false
  {
  }

  predicate Numbered(v: ProposalVersion, number: nat) { v.number == number }

  predicate OnProject(c: Contract, project: Id) { c.project == project }

  /** create_contract_from_accepted_proposal. `bps` is the configured platform commission. */
  function Accept(s: State, id: Id, bps: int): (o: Outcome)
    requires id < |s.proposals| && s.proposals[id].project < |s.projects|
    requires s.projects[s.proposals[id].project].status == ProjectOpen
    requires s.proposals[id].freelancer != s.projects[s.proposals[id].project].employer
    ensures Lawful(s, o.write) && Quiet(o)
  {
    var p := s.proposals[id];
    var existing := LastWhere(s.contracts, (c: Contract) => OnProject(c, p.project));
    if existing.Some? then
      if s.contracts[existing.value].proposal == id then Outcome(SetProposal(id, p.(status := Accepted)), Ok200(id))
      else Raise(AlreadyExists)
    else
      var current := LastWhere(p.versions, (v: ProposalVersion) => Numbered(v, p.currentVersion));
      if current.None? || bps < 0 || bps > 10000 then Raise(Internal)
      else
        var v := p.versions[current.value];
        var document := TermsOf(p, id, v, bps);
        Outcome(AcceptProposal(id, Contract(p.project, id, s.projects[p.project].employer, p.freelancer,
                                            PendingSignatures, document)), Ok200(id))
  }

  /** transition_proposal. */
  function Negotiate(s: State, user: Id, id: Id, to: ProposalStatus, bps: int): (o: Outcome)
    ensures Lawful(s, o.write) && Quiet(o)
  {
    if id >= |s.proposals| then Raise(NotFound)
    else if s.proposals[id].project >= |s.projects| then Raise(NotFound)
    else
      var p := s.proposals[id];
      var project := s.projects[p.project];
      if !Negotiates(p.status, to) then Raise(InvalidTransition)
      else if user != (if to == ProposalSubmitted || to == Withdrawn then p.freelancer else project.employer) then
        Raise(Forbidden)
      else if project.status != ProjectOpen then Raise(InvalidState)
      else if to != Accepted then Outcome(SetProposal(id, p.(status := to)), Ok200(id))
      else if p.freelancer == project.employer then Raise(ConstraintViolated)
      else Accept(s, id, bps)
  }

  predicate KeyUsed(g: Signature, user: Id, key: string) { g.user == user && g.key == key }

  /** sign_contract. `expected` is the document the signer claims to have seen. */
  function Sign(s: State, user: Id, id: Id, key: string, expected: Document): (o: Outcome)
    ensures Lawful(s, o.write) && Quiet(o)
  {
    if id >= |s.contracts| then Raise(NotFound)
    else
      var c := s.contracts[id];
      var prior := LastWhere(s.signatures, (g: Signature) => KeyUsed(g, user, key));
      if user != c.employer && user != c.freelancer then Raise(Forbidden)
      else if c.status == Cancelled then Raise(InvalidState)
      else if expected != c.document then Raise(DocumentChanged)
      else if prior.Some? then
        if s.signatures[prior.value].contract != id then Raise(KeyConflict) else Outcome(Nothing, Ok200(id))
      else if HasSigned(s.signatures, id, user) then Outcome(Nothing, Ok200(id))
      else Outcome(AddSignature(Signature(id, user, c.document, key)), Ok200(id))
  }

  /** cancel_contract. */
  function Cancel(s: State, user: Id, id: Id): (o: Outcome)
    ensures Lawful(s, o.write) && Quiet(o)
  {
    if id >= |s.contracts| then Raise(NotFound)
    else
      var c := s.contracts[id];
      if user != c.employer then Raise(Forbidden)
      else if c.status == Cancelled then Outcome(Nothing, Ok200(id))
      else if !CanCancel(s, id) then Raise(InvalidState)
      else Outcome(CancelContract(id), Ok200(id))
  }

  /** close_project. */
  function Close(s: State, user: Id, id: Id): (o: Outcome)
    ensures Lawful(s, o.write) && Quiet(o)
  {
    if id >= |s.projects| then Raise(NotFound)
    else if user != s.projects[id].employer then Raise(Forbidden)
    else if s.projects[id].status != ProjectOpen then Raise(InvalidState)
    else
      var found := LastWhere(s.contracts, (c: Contract) => OnProject(c, id));
      if found.None? || s.contracts[found.value].status != Active then Raise(InvalidState)
      else if !AllReleased(s, found.value) then Raise(InvalidState)
      else Outcome(CloseProject(id), Ok200(id))
  }
}
