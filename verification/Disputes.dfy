/** Arbitration of disputed milestones. */
module Disputes {
  import opened Basics
  import opened Ledger
  import opened Records
  import opened Transactions
  import opened Idempotency

  /** Where an administrator may move a dispute. */
  const ADMIN_TRANSITIONS: map<DisputeStatus, set<DisputeStatus>> :=
    map[Opened := {EvidenceCollection}, EvidenceCollection := {UnderReview}, UnderReview := {NeedMoreInfo},
        NeedMoreInfo := {EvidenceCollection, UnderReview}]

  predicate MayMove(from: DisputeStatus, to: DisputeStatus) {
    from in ADMIN_TRANSITIONS && to in ADMIN_TRANSITIONS[from]
  }

  lemma MoveTable(from: DisputeStatus, to: DisputeStatus)
    ensures MayMove(from, to) <==> ReviewStep(from, to)
  {
  }

  predicate OnMilestone(d: Dispute, m: Id) { d.milestone == m }

  /** open_dispute. */
  function Open(s: State, user: Id, m: Id, reason: string): (o: Outcome)
    ensures Lawful(s, o.write) && Quiet(o)
  {
    if !ValidText(reason) then Raise(InvalidInput)
    else if m >= |s.milestones| then Raise(NotFound)
    else if s.milestones[m].contract >= |s.contracts| then Raise(Internal)
    else
      var c := s.contracts[s.milestones[m].contract];
      if user != c.employer && user != c.freelancer then Raise(Forbidden)
      else if c.status != Active then Raise(ContractInactive)
      else if s.milestones[m].status !in {Funded, InProgress, Submitted, ChangesRequested, Approved} then
          Raise(InvalidTransition)
      else if LastWhere(s.disputes, (d: Dispute) => OnMilestone(d, m)).Some? then Raise(AlreadyDisputed)
      else Outcome(OpenDispute(m, user), Done(Response(201, RowBody(|s.disputes|))))
  }

  /** add_evidence. `usable` says whether the file exists, is the user's own and is safe evidence. */
  function Evidence(s: State, user: Id, id: Id, file: Id, usable: bool): (o: Outcome)
    ensures Lawful(s, o.write) && Quiet(o)
  {
    if id >= |s.disputes| then Raise(NotFound)
    else if s.disputes[id].contract >= |s.contracts| then Raise(Internal)
    else
      var c := s.contracts[s.disputes[id].contract];
      if user != c.employer && user != c.freelancer then Raise(Forbidden)
      else if s.disputes[id].status !in {Opened, EvidenceCollection, NeedMoreInfo} then Raise(InvalidState)
      else if !usable then Raise(InvalidInput)
      else if file in s.disputes[id].evidence then Raise(AlreadyExists)
      else Outcome(AddEvidence(id, file), Done(Response(201, RowBody(id))))
  }

  /** admin_transition. */
  function Review(s: State, id: Id, to: DisputeStatus, reason: string): (o: Outcome)
    ensures Lawful(s, o.write) && Quiet(o)
  {
    if id >= |s.disputes| then Raise(NotFound)
    else if !ValidText(reason) then Raise(InvalidInput)
    else if !ReviewStep(s.disputes[id].status, to) then Raise(InvalidTransition)
    else Outcome(MoveDispute(id, to), Done(Response(200, RowBody(id))))
  }

  /** The parts divide the escrow the way the verdict says, and every amount the request states is one of them. */
  predicate Fits(verdict: Verdict, funded: int, award: Option<int>, refund: Option<int>, toFreelancer: int,
                 toClient: int) {
    && toFreelancer + toClient == funded
    && (award.Some? ==> award.value == toFreelancer)
    && (refund.Some? ==> refund.value == toClient)
    && match verdict
       case ReleaseToFreelancer => toClient == 0
       case RefundClient => toFreelancer == 0
       case Split => award.Some? && refund.Some? && toFreelancer > 0 && toClient > 0
  }

  /** The request states an amount, and not this one. */
  predicate StatesOther(stated: Option<int>, amount: int) { stated.Some? && stated.value != amount }

  /** _resolution_amounts: award and refund for a verdict, or None when the stated amounts do not fit it. */
  function Amounts(verdict: Verdict, funded: int, award: Option<int>, refund: Option<int>): (r: Option<(int, int)>)
    ensures r.Some? ==> Fits(verdict, funded, award, refund, r.value.0, r.value.1)
    ensures r.None? ==> forall a, b :: !Fits(verdict, funded, award, refund, a, b)
    ensures r.Some? && funded > 0 ==> r.value.0 >= 0 && r.value.1 >= 0 && r.value.0 + r.value.1 == funded
  {
    match verdict
    case ReleaseToFreelancer =>
      if StatesOther(award, funded) || StatesOther(refund, 0) then None else Some((funded, 0))
    case RefundClient =>
      if StatesOther(award, 0) || StatesOther(refund, funded) then None else Some((0, funded))
    case Split =>
      if award.None? || refund.None? then None
      else if award.value <= 0 || refund.value <= 0 then None
      else if award.value + refund.value != funded then None
      else Some((award.value, refund.value))
  }

  /** `b` was not captured after `a`. */
  predicate Later(a: Intent, b: Intent) {
    b.capturedAt.Some? ==> a.capturedAt.Some? && a.capturedAt.value >= b.capturedAt.value
  }

  /** The captured intent of a milestone with the latest capture. */
  function LatestCapture(intents: seq<Intent>, m: Id): (found: Option<Id>)
    ensures found.Some? ==> found.value < |intents| && CapturedOn(intents[found.value], m)
    ensures found.Some? ==> forall i :: 0 <= i < |intents| && CapturedOn(intents[i], m) ==>
        Later(intents[found.value], intents[i])
    ensures found.None? ==> forall i :: 0 <= i < |intents| ==> !CapturedOn(intents[i], m)
  {
    if intents == [] then None
    else
      var last := |intents| - 1;
      var before := LatestCapture(intents[..last], m);
      if !CapturedOn(intents[last], m) then before
      else if before.Some? && !Later(intents[last], intents[before.value]) then before
      else Some(last)
  }

  function Decide(verdict: Verdict, award: int, refund: int, bps: nat, journal: Id): Decision {
    Decision(verdict, award, award - Fee(award, bps), refund, Fee(award, bps), journal)
  }

  /** resolve_dispute. `confirmed` is what the provider answered if a client refund had to be requested. */
  function Resolve(s: State, user: Id, id: Id, verdict: Verdict, reason: string, award: Option<int>,
                   refund: Option<int>,
                   text: string, confirmed: ProviderOutcome): (o: Outcome)
    ensures Lawful(s, o.write) && Quiet(o)
  {
    if id >= |s.disputes| then Raise(NotFound)
    else if !ValidText(reason) then Raise(InvalidInput)
    else
      var key := IdemKey(user, ResolveOperation, text);
      var request := ResolveRequest(id, verdict, reason, award, refund);
      match ClaimKey(s.idem, key, request)
      case Refused(e) => Raise(e)
      case Replay(response) => Outcome(Nothing, Done(response))
      case Proceed => Adjudicate(s, id, verdict, award, refund, key, request, confirmed)
  }

  /** A settled dispute is recorded under the key it was claimed with, and the reply is the stored one. */
  predicate Resolves(s: State, o: Outcome, key: IdemKey, request: Request)
    requires Addresses(s, o.write)
  {
    && o.write.ResolveDispute? && o.write.key == key && o.write.request == request
    && o.reply == Done(Response(200, DisputeBody(o.write.id, ResolvedDispute(s, o.write.id, o.write.decision))))
  }

  /** Why a dispute cannot be decided now, if it cannot: its own state, its milestone's, or the escrow. */
  function Undecidable(s: State, id: Id): (reason: Option<Error>)
    requires id < |s.disputes|
    ensures reason.None? ==>
      && s.disputes[id].status == UnderReview && s.disputes[id].milestone < |s.milestones|
      && var m := s.disputes[id].milestone; var row := s.milestones[m];
      && row.contract < |s.contracts| && row.status == Disputed && row.commission.Some?
      && Balance(s.journal, EscrowOf(s, m)) == row.amount > 0
  {
    var m := s.disputes[id].milestone;
    if s.disputes[id].status == Resolved || s.disputes[id].decision.Some? then Some(AlreadyResolved)
    else if s.disputes[id].status != UnderReview then Some(InvalidTransition)
    else if m >= |s.milestones| then Some(NotFound)
    else if s.milestones[m].contract >= |s.contracts| then Some(Internal)
    else if s.milestones[m].status != Disputed then Some(InvalidState)
    else if s.milestones[m].commission.None? then Some(EscrowNotFound)
    else
      var funded := Balance(s.journal, EscrowOf(s, m));
      if funded != s.milestones[m].amount || funded <= 0 then Some(EscrowNotFullyFunded) else None
  }

  /** The part of resolve_dispute that runs once the key is claimed. */
  function Adjudicate(s: State, id: Id, verdict: Verdict, award: Option<int>, refund: Option<int>, key: IdemKey,
                      request: Request, confirmed: ProviderOutcome): (o: Outcome)
    requires id < |s.disputes|
    requires key.operation == ResolveOperation && Unanswered(s, key) && ClaimedFor(s, key, request)
    ensures Lawful(s, o.write) && Quiet(o)
    ensures o.reply.Raised? || Resolves(s, o, key, request)
  {
    var reason := Undecidable(s, id);
    if reason.Some? then Raise(reason.value)
    else
      var row := s.milestones[s.disputes[id].milestone];
      var amounts := Amounts(verdict, row.amount, award, refund);
      if amounts.None? then Raise(InvalidInput)
      else
        var decision := Decide(verdict, amounts.value.0, amounts.value.1, row.commission.value,
                               PostedId(s.journal, Key(DisputeResolution, DisputeRef(id))));
        Divide(s, id, decision, key, request, confirmed)
  }

  predicate CarriesReference(r: Refund, provider: string, reference: string) {
    r.provider == provider && r.reference == Some(reference)
  }

  /** Carries out a decision; a client refund is first requested from the provider of the latest capture. */
  function Divide(s: State, id: Id, decision: Decision, key: IdemKey, request: Request,
                  confirmed: ProviderOutcome): (o: Outcome)
    requires id < |s.disputes| && CanResolve(s, id, decision)
    requires key.operation == ResolveOperation && Unanswered(s, key) && ClaimedFor(s, key, request)
    ensures Lawful(s, o.write) && Quiet(o)
    ensures o.reply.Raised? || Resolves(s, o, key, request)
  {
    var m := s.disputes[id].milestone;
    if decision.refund == 0 then Settle(s, id, decision, "", "", key, request)
    else
      var paid := LatestCapture(s.intents, m);
      if paid.None? then Raise(Internal)
      else match confirmed
        case Returned(result) =>
          var provider := s.intents[paid.value].provider;
          if result.status != Succeeded || result.amount != decision.refund
              || result.currency != s.milestones[m].currency then
            Raise(RefundNotConfirmed)
          else if exists r :: 0 <= r < |s.refunds| && CarriesReference(s.refunds[r], provider, result.reference) then
            Raise(ConstraintViolated)
          else Settle(s, id, decision, provider, result.reference, key, request)
        case _ => Raise(ProviderFailed)
  }

  lemma SettleLawful(s: State, id: Id, decision: Decision, provider: string, reference: string, key: IdemKey,
                     request: Request)
    requires id < |s.disputes| && CanResolve(s, id, decision)
    requires key.operation == ResolveOperation && Unanswered(s, key) && ClaimedFor(s, key, request)
    requires Acceptable(ResolutionEntry(s, id, decision, provider).entries)
    ensures Lawful(s, ResolveDispute(id, decision, provider, reference, key, request))
  {
    hide Acceptable, Balance, DividesEscrow, PostedId, ResolutionEntry, ClaimedFor, Unanswered;
  }

  lemma NothingLawful(s: State)
    ensures Lawful(s, Nothing)
  {
  }

  function Settle(s: State, id: Id, decision: Decision, provider: string, reference: string, key: IdemKey,
                  request: Request): (o: Outcome)
    requires id < |s.disputes| && CanResolve(s, id, decision)
    requires key.operation == ResolveOperation && Unanswered(s, key) && ClaimedFor(s, key, request)
    ensures Lawful(s, o.write) && Quiet(o)
    ensures o.reply.Raised? || Resolves(s, o, key, request)
  {
    hide Lawful, Acceptable, Balance, DividesEscrow, PostedId, ResolutionEntry, ResolvedDispute;
    NothingLawful(s);
    if !Acceptable(ResolutionEntry(s, id, decision, provider).entries) then Raise(JournalRejected)
    else
      SettleLawful(s, id, decision, provider, reference, key, request);
      Outcome(ResolveDispute(id, decision, provider, reference, key, request),
              Done(Response(200, DisputeBody(id, ResolvedDispute(s, id, decision)))))
  }
}
