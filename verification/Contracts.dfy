/** Contracts: signatures, the price split over milestones, and when a project may close. */
module Contracts {
  import opened Basics
  import opened Records
  import opened Transactions
  import opened Rows

  function AmountOf(c: Id): Milestone -> int {
    (m: Milestone) => if m.contract == c then m.amount else 0
  }

  /** The milestones of every contract add up to its signed price. */
  predicate PricesOk(milestones: seq<Milestone>, contracts: seq<Contract>) {
    forall c :: 0 <= c < |contracts| ==> Sum(milestones, AmountOf(c)) == contracts[c].document.price
  }

  /** A signature is by a party, on the contract's own document; each party signs once, and each key is used once. */
  predicate SignaturesOk(signatures: seq<Signature>, contracts: seq<Contract>) {
    && (forall g :: 0 <= g < |signatures| ==>
          && signatures[g].contract < |contracts|
          && signatures[g].document == contracts[signatures[g].contract].document
          && signatures[g].user in {contracts[signatures[g].contract].employer,
                                    contracts[signatures[g].contract].freelancer})
    && (forall g, h :: 0 <= g < h < |signatures| && signatures[g].contract == signatures[h].contract ==>
          signatures[g].user != signatures[h].user)
    && (forall g, h :: 0 <= g < h < |signatures| && signatures[g].user == signatures[h].user ==>
          signatures[g].key != signatures[h].key)
  }

  predicate BothSigned(signatures: seq<Signature>, id: Id, c: Contract) {
    HasSigned(signatures, id, c.employer) && HasSigned(signatures, id, c.freelancer)
  }

  /** An uncancelled contract is active exactly when both parties have signed. */
  predicate ActivationOk(signatures: seq<Signature>, contracts: seq<Contract>) {
    forall c :: 0 <= c < |contracts| ==>
      && contracts[c].employer != contracts[c].freelancer
      && (contracts[c].status != Cancelled ==>
          (contracts[c].status == Active <==> BothSigned(signatures, c, contracts[c])))
  }

  /** One contract per project. */
  predicate OnePerProject(contracts: seq<Contract>, projects: seq<Project>) {
    && (forall c :: 0 <= c < |contracts| ==> contracts[c].project < |projects|)
    && (forall c, d :: 0 <= c < d < |contracts| ==> contracts[c].project != contracts[d].project)
  }

  predicate Finished(milestones: seq<Milestone>, c: Id) {
    forall m :: 0 <= m < |milestones| && milestones[m].contract == c ==> milestones[m].status == Released
  }

  /** The contract of a closed project is active and all its milestones are released. */
  predicate ClosedOk(projects: seq<Project>, contracts: seq<Contract>, milestones: seq<Milestone>) {
    forall p :: 0 <= p < |projects| && projects[p].status == ProjectClosed ==>
      exists c :: 0 <= c < |contracts| && contracts[c].project == p && contracts[c].status == Active
          && Finished(milestones, c)
  }

  predicate ContractsOk(s: State) {
    && PricesOk(s.milestones, s.contracts)
    && SignaturesOk(s.signatures, s.contracts)
    && ActivationOk(s.signatures, s.contracts)
    && OnePerProject(s.contracts, s.projects)
    && ClosedOk(s.projects, s.contracts, s.milestones)
    && LivingContracts(s.milestones, s.contracts)
  }

  /** Every contract has at least one milestone. */
  predicate LivingContracts(milestones: seq<Milestone>, contracts: seq<Contract>) {
    forall c :: 0 <= c < |contracts| ==> HasMilestone(milestones, c)
  }

  predicate HasMilestone(milestones: seq<Milestone>, c: Id) {
    exists m :: 0 <= m < |milestones| && milestones[m].contract == c
  }

  // ---- Prices -----------------------------------------------------------------------------------

  lemma TermsAddUp(v: ProposalVersion)
    requires FairVersion(v)
    ensures Terms(v) != [] && Sum(Terms(v), AsInt) == v.amount
  {
    if v.milestones == [] {
      assert [v.amount] == [] + [v.amount];
      SumAppend([], v.amount, AsInt);
    }
  }

  lemma NewMilestonesAddUp(c: Id, document: Document)
    ensures Sum(NewMilestones(c, document), AmountOf(c)) == Sum(document.milestones, AsInt)
  {
    SumMatch(NewMilestones(c, document), AmountOf(c), document.milestones, AsInt);
  }

  lemma PriceOfNew(s: State, id: Id, row: Contract)
    requires CanAccept(s, id, row) && ProposalsOk(s.proposals) && MilestonesOk(s.milestones, s.contracts)
    ensures var c := |s.contracts|;
      Sum(s.milestones + NewMilestones(c, row.document), AmountOf(c)) == row.document.price
    ensures row.document.milestones != []
  {
    var c := |s.contracts|;
    var versions := s.proposals[id].versions;
    assert ProposalOk(s.proposals[id]);
    var i :| 0 <= i < |versions| && row.document == TermsOf(s.proposals[id], id, versions[i], row.document.bps);
    TermsAddUp(versions[i]);
    NewMilestonesAddUp(c, row.document);
    SumZero(s.milestones, AmountOf(c));
    SumConcat(s.milestones, NewMilestones(c, row.document), AmountOf(c));
  }

  lemma PricesKept(s: State, w: Write)
    requires Guarded(s, w) && ProposalsOk(s.proposals) && MilestonesOk(s.milestones, s.contracts)
    requires PricesOk(s.milestones, s.contracts)
    ensures PricesOk(MilestonesAfter(s, w), ContractsAfter(s, w))
  {
    forall c | 0 <= c < |ContractsAfter(s, w)|
      ensures Sum(MilestonesAfter(s, w), AmountOf(c)) == ContractsAfter(s, w)[c].document.price
    {
      PriceKept(s, w, c);
    }
  }

  lemma DocumentStays(s: State, w: Write, c: Id)
    requires Addresses(s, w) && c < |s.contracts|
    ensures c < |ContractsAfter(s, w)| && ContractsAfter(s, w)[c].document == s.contracts[c].document
  {
  }

  lemma OldPriceKept(s: State, w: Write, c: Id)
    requires Addresses(s, w) && PricesOk(s.milestones, s.contracts) && c < |s.contracts|
    ensures Sum(MilestonesAfter(s, w), AmountOf(c)) == s.contracts[c].document.price
  {
    MilestonesExtend(s, w);
    if w.AcceptProposal? {
      SumZero(NewMilestones(|s.contracts|, w.contract.document), AmountOf(c));
      SumConcat(s.milestones, NewMilestones(|s.contracts|, w.contract.document), AmountOf(c));
    } else {
      SumMatch(MilestonesAfter(s, w), AmountOf(c), s.milestones, AmountOf(c));
    }
  }

  lemma PriceKept(s: State, w: Write, c: Id)
    requires Guarded(s, w) && ProposalsOk(s.proposals) && MilestonesOk(s.milestones, s.contracts)
    requires PricesOk(s.milestones, s.contracts) && c < |ContractsAfter(s, w)|
    ensures Sum(MilestonesAfter(s, w), AmountOf(c)) == ContractsAfter(s, w)[c].document.price
  {
    hide MilestonesOk, ProposalsOk, PricesOk, Sum;
    if c < |s.contracts| {
      OldPriceKept(s, w, c);
      DocumentStays(s, w, c);
    } else {
      PriceOfNew(s, w.id, w.contract);
    }
  }

  lemma LivingKept(s: State, w: Write)
    requires Guarded(s, w) && RowsOk(s) && LivingContracts(s.milestones, s.contracts)
    ensures LivingContracts(MilestonesAfter(s, w), ContractsAfter(s, w))
  {
    MilestonesExtend(s, w);
    var after := MilestonesAfter(s, w);
    forall c | 0 <= c < |ContractsAfter(s, w)| ensures HasMilestone(after, c) {
      if c < |s.contracts| {
        assert HasMilestone(s.milestones, c);
        var m :| 0 <= m < |s.milestones| && s.milestones[m].contract == c;
        assert after[m].contract == c;
      } else {
        PriceOfNew(s, w.id, w.contract);
        assert after[|s.milestones|].contract == c;
      }
    }
  }

  // ---- Signatures -------------------------------------------------------------------------------

  lemma SignedMore(signatures: seq<Signature>, g: Signature, c: Id, user: Id)
    ensures HasSigned(signatures + [g], c, user)
        <==> HasSigned(signatures, c, user) || (g.contract == c && g.user == user)
  {
    var more := signatures + [g];
    assert more[|signatures|] == g;
    if HasSigned(signatures, c, user) {
      var i :| 0 <= i < |signatures| && signatures[i].contract == c && signatures[i].user == user;
      assert more[i] == signatures[i];
    }
  }

  lemma NotSignedYet(signatures: seq<Signature>, contracts: seq<Contract>, user: Id)
    requires SignaturesOk(signatures, contracts)
    ensures !HasSigned(signatures, |contracts|, user)
  {
  }

  /** Contracts are only added, and keep their parties and their document. */
  predicate CarriedOver(before: seq<Contract>, after: seq<Contract>) {
    && |before| <= |after|
    && forall c :: 0 <= c < |before| ==> after[c] == before[c].(status := after[c].status)
  }

  lemma ContractsCarry(s: State, w: Write)
    requires Addresses(s, w)
    ensures CarriedOver(s.contracts, ContractsAfter(s, w))
  {
  }

  lemma SignaturesCarry(signatures: seq<Signature>, before: seq<Contract>, after: seq<Contract>)
    requires SignaturesOk(signatures, before) && CarriedOver(before, after)
    ensures SignaturesOk(signatures, after)
  {
  }

  lemma SignatureMore(s: State, g: Signature)
    requires SignaturesOk(s.signatures, s.contracts) && CanSign(s, g)
    ensures SignaturesOk(s.signatures + [g], s.contracts)
  {
  }

  lemma SignaturesKept(s: State, w: Write)
    requires Guarded(s, w) && SignaturesOk(s.signatures, s.contracts)
    ensures SignaturesOk(SignaturesAfter(s, w), ContractsAfter(s, w))
  {
    ContractsCarry(s, w);
    assert w.AddSignature? ==> CanSign(s, w.signature);
    hide Guarded, CanSign, SignaturesOk, CarriedOver, ContractsAfter;
    if w.AddSignature? {
      SignatureMore(s, w.signature);
    }
    SignaturesCarry(SignaturesAfter(s, w), s.contracts, ContractsAfter(s, w));
  }

  lemma ActivationStep(s: State, w: Write, c: Id)
    requires Guarded(s, w) && SignaturesOk(s.signatures, s.contracts) && ActivationOk(s.signatures, s.contracts)
    requires c < |ContractsAfter(s, w)|
    ensures var row := ContractsAfter(s, w)[c];
      && row.employer != row.freelancer
      && (row.status != Cancelled ==> (row.status == Active <==> BothSigned(SignaturesAfter(s, w), c, row)))
  {
    var row := ContractsAfter(s, w)[c];
    if w.AddSignature? {
      SignedMore(s.signatures, w.signature, c, row.employer);
      SignedMore(s.signatures, w.signature, c, row.freelancer);
    } else if c == |s.contracts| {
      NotSignedYet(s.signatures, s.contracts, row.employer);
    }
  }

  lemma ActivationKept(s: State, w: Write)
    requires Guarded(s, w) && SignaturesOk(s.signatures, s.contracts) && ActivationOk(s.signatures, s.contracts)
    ensures ActivationOk(SignaturesAfter(s, w), ContractsAfter(s, w))
  {
    forall c | 0 <= c < |ContractsAfter(s, w)|
      ensures var row := ContractsAfter(s, w)[c];
        && row.employer != row.freelancer
        && (row.status != Cancelled ==> (row.status == Active <==> BothSigned(SignaturesAfter(s, w), c, row)))
    {
      ActivationStep(s, w, c);
    }
  }

  // ---- Projects ---------------------------------------------------------------------------------

  lemma OnePerProjectKept(s: State, w: Write)
    requires Guarded(s, w) && OnePerProject(s.contracts, s.projects)
    ensures OnePerProject(ContractsAfter(s, w), ProjectsAfter(s, w))
  {
  }

  /** A finished active contract stays finished and active. */
  lemma FinishedStays(s: State, w: Write, c: Id)
    requires Guarded(s, w) && LivingContracts(s.milestones, s.contracts)
    requires c < |s.contracts| && s.contracts[c].status == Active && Finished(s.milestones, c)
    ensures c < |ContractsAfter(s, w)| && ContractsAfter(s, w)[c].status == Active
    ensures ContractsAfter(s, w)[c].project == s.contracts[c].project
    ensures Finished(MilestonesAfter(s, w), c)
  {
    assert HasMilestone(s.milestones, c);
    var m :| 0 <= m < |s.milestones| && s.milestones[m].contract == c;
    assert s.milestones[m].status == Released;
  }

  lemma ClosedKept(s: State, w: Write)
    requires Guarded(s, w) && LivingContracts(s.milestones, s.contracts)
    requires ClosedOk(s.projects, s.contracts, s.milestones)
    ensures ClosedOk(ProjectsAfter(s, w), ContractsAfter(s, w), MilestonesAfter(s, w))
  {
    var projects, contracts := ProjectsAfter(s, w), ContractsAfter(s, w);
    forall p | 0 <= p < |projects| && projects[p].status == ProjectClosed
      ensures exists c :: 0 <= c < |contracts| && contracts[c].project == p && contracts[c].status == Active
                && Finished(MilestonesAfter(s, w), c)
    {
      var c :| 0 <= c < |s.contracts| && s.contracts[c].project == p && s.contracts[c].status == Active
          && Finished(s.milestones, c);
      FinishedStays(s, w, c);
    }
  }

  lemma ContractsKept(s: State, w: Write)
    requires Guarded(s, w) && RowsOk(s) && ContractsOk(s)
    ensures ContractsOk(Commit(s, w))
  {
    PricesKept(s, w);
    SignaturesKept(s, w);
    ActivationKept(s, w);
    OnePerProjectKept(s, w);
    ClosedKept(s, w);
    LivingKept(s, w);
  }
}
