/**
 The services as they run: a session over the tables that updates rows in place and either keeps its
 changes or rolls back. Every operation is proved to make of the tables exactly what the transaction
 functions say.
 */
module Application {
  import opened Basics
  import opened Ledger
  import opened Records
  import opened Transactions
  import opened Idempotency
  import opened System
  import opened Invariant
  import opened Webhooks
  import Payments
  import Payouts
  import Milestones
  import Disputes
  import Marketplace

  /** claim_idempotency: inserts a record for a new key into the session. */
  method ClaimIdempotency(idem: map<IdemKey, IdemRecord>, key: IdemKey, request: Request)
    returns (claim: Claim, session: map<IdemKey, IdemRecord>)
    ensures claim == ClaimKey(idem, key, request)
    ensures claim.Proceed? ==> session == idem[key := IdemRecord(request, None)]
  {
    session := idem;
    if |key.text| == 0 || |key.text| > 200 {
      claim := Refused(InvalidKey);
    } else if key !in idem {
      session := idem[key := IdemRecord(request, None)];
      claim := Proceed;
    } else if idem[key].request != request {
      claim := Refused(KeyConflict);
    } else if idem[key].response.Some? {
      claim := Replay(idem[key].response.value);
    } else {
      assert idem[key := IdemRecord(request, None)] == idem;
      claim := Proceed;
    }
  }

  /** complete_idempotency: stores the answer under the key. */
  method CompleteIdempotency(idem: map<IdemKey, IdemRecord>, key: IdemKey, response: Response)
    returns (session: map<IdemKey, IdemRecord>)
    requires key in idem
    ensures session == idem[key := IdemRecord(idem[key].request, Some(response))]
  {
    session := idem[key := idem[key].(response := Some(response))];
  }

  /** _new_version: stated milestone amounts must add up to the price. */
  method NewVersion(number: nat, amount: nat, currency: string, terms: seq<nat>)
    returns (version: Option<ProposalVersion>)
    ensures version == Marketplace.NewVersion(number, amount, currency, terms)
  {
    var total, k := 0, 0;
    while k < |terms|
      invariant 0 <= k <= |terms| && total == Sum(terms[..k], AsInt)
    {
      assert terms[..k + 1] == terms[..k] + [terms[k]];
      SumAppend(terms[..k], terms[k], AsInt);
      total := total + terms[k];
      k := k + 1;
    }
    assert terms[..|terms|] == terms;
    if terms != [] && total != amount {
      return None;
    }
    return Some(ProposalVersion(number, amount, currency, terms));
  }

  /** The milestone rows of a new contract, one for each term, in order. */
  method MintMilestones(contract: Id, document: Document) returns (rows: seq<Milestone>)
    ensures rows == NewMilestones(contract, document)
  {
    rows := [];
    var k := 0;
    while k < |document.milestones|
      invariant 0 <= k <= |document.milestones| && rows == NewMilestones(contract, document)[..k]
    {
      rows := rows + [Milestone(contract, document.milestones[k], document.currency, Created, [], None)];
      k := k + 1;
    }
  }

  class Platform {
    var projects: seq<Project>
    var proposals: seq<Proposal>
    var contracts: seq<Contract>
    var signatures: seq<Signature>
    var milestones: seq<Milestone>
    var intents: seq<Intent>
    var refunds: seq<Records.Refund>
    var payouts: seq<Payout>
    var disputes: seq<Dispute>
    var events: map<(string, string), Webhook>
    var idem: map<IdemKey, IdemRecord>
    var journal: seq<Journal>

    /** The tables as one value. */
    function Snapshot(): State
      reads this
    {
      State(projects, proposals, contracts, signatures, milestones, intents, refunds, payouts, disputes, events, idem,
            journal)
    }

    constructor ()
      ensures Valid() && Snapshot() == Empty
    {
      projects, proposals, contracts, signatures, milestones := [], [], [], [], [];
      intents, refunds, payouts, disputes, events, idem, journal := [], [], [], [], map[], map[], [];
      new;
      assert Run(Empty, []) == Empty;
    }

    // ---- Payments -------------------------------------------------------------------------------

    /** Only the employer of an active contract may fund, release or refund. */
    method EmployerGate(user: Id, m: Id) returns (refused: Option<Error>)
      ensures refused == Payments.EmployerGate(Snapshot(), user, m)
    {
      if m >= |milestones| {
        refused := Some(NotFound);
      } else if milestones[m].contract >= |contracts| {
        refused := Some(Internal);
      } else {
        var contract := contracts[milestones[m].contract];
        if contract.status != Active {
          refused := Some(ContractInactive);
        } else if user != contract.employer {
          refused := Some(Forbidden);
        } else {
          refused := None;
        }
      }
    }

    /** fund_milestone. */
    method FundMilestone(user: Id, m: Id, provider: string, text: string, created: Option<string>)
      returns (reply: Reply)
      modifies this
      ensures Snapshot() == Commit(old(Snapshot()),
                                   Payments.Fund(old(Snapshot()), user, m, provider, text, created).write)
      ensures reply == Payments.Fund(old(Snapshot()), user, m, provider, text, created).reply
    {
      hide Lawful, Guarded, WellPosted, WellScoped, Payments.StartPayment;
      var refused := EmployerGate(user, m);
      if refused.Some? {
        return Raised(refused.value);
      }
      var key := IdemKey(user, FundOperation, text);
      var claim, session := ClaimIdempotency(idem, key, FundRequest(m, provider));
      match claim {
        case Refused(e) => reply := Raised(e);
        case Replay(response) => reply := Done(response);
        case Proceed => reply := StartPayment(m, provider, key, session, created);
      }
    }

    method StartPayment(m: Id, provider: string, key: IdemKey, claimed: map<IdemKey, IdemRecord>,
                        created: Option<string>)
      returns (reply: Reply)
      requires ActiveMilestone(Snapshot(), m) && key.operation == FundOperation && Unanswered(Snapshot(), key)
      requires ClaimedFor(Snapshot(), key, FundRequest(m, provider))
      requires claimed == idem[key := IdemRecord(FundRequest(m, provider), None)]
      modifies `intents, `idem
      ensures Snapshot() == Commit(old(Snapshot()),
                                   Payments.StartPayment(old(Snapshot()), m, provider, key, created).write)
      ensures reply == Payments.StartPayment(old(Snapshot()), m, provider, key, created).reply
    {
      hide Lawful, Guarded, WellPosted, WellScoped;
      var row := milestones[m];
      if row.status != Created {
        return Raised(InvalidTransition);
      }
      var existing := LastWhere(intents, (it: Intent) => Payments.ForKey(it, key));
      var pending := LastWhere(intents, (it: Intent) => Payments.PendingOn(it, m));
      var response;
      if existing.Some? {
        var it := intents[existing.value];
        var code := if it.status == IntentCaptured then 200 else 202;
        response := Response(code, IntentResponse(Snapshot(), existing.value));
      } else if pending.Some? {
        if intents[pending.value].provider != provider {
          return Raised(PaymentInProgress);
        }
        response := Response(202, IntentResponse(Snapshot(), pending.value));
      } else {
        if created.None? {
          return Raised(ProviderFailed);
        }
        if row.amount == 0 || LastWhere(intents, (it: Intent) => HasReference(it, provider, created.value)).Some? {
          return Raised(ConstraintViolated);
        }
        var it := Intent(m, key.user, provider, created.value, key, row.amount, row.currency, IntentPending, None);
        intents := intents + [it];
        response := Response(202, IntentResponse(Snapshot(), |intents| - 1));
      }
      var session := CompleteIdempotency(claimed, key, response);
      assert session == idem[key := IdemRecord(FundRequest(m, provider), Some(response))];
      idem := session;
      return Done(response);
    }

    /** process_provider_webhook, after signature verification. */
    method ProcessWebhook(provider: string, hook: Webhook) returns (reply: Reply)
      modifies this
      ensures Snapshot() == Commit(old(Snapshot()), Payments.Deliver(old(Snapshot()), provider, hook).write)
      ensures reply == Payments.Deliver(old(Snapshot()), provider, hook).reply
    {
      hide Lawful, Guarded, WellPosted, WellScoped, Payments.CaptureFailure, CapturedMilestone, Append, FundEntry,
          Balance, Acceptable;
      var id := (provider, hook.externalId);
      if id in events {
        if events[id] != hook {
          return Raised(EventConflict);
        }
        return Done(Response(200, EventBody(hook.externalId, true)));
      }
      match hook.event {
        case PaymentCaptured(reference, amount, currency) =>
          if !Payments.Present(reference) || amount.None? || !Payments.Present(currency) {
            return Raised(InvalidWebhook);
          }
          var found := LastWhere(intents, (it: Intent) => HasReference(it, provider, reference.value));
          if found.None? {
            return Raised(PaymentNotFound);
          }
          if intents[found.value].amount != amount.value || intents[found.value].currency != currency.value {
            return Raised(PaymentMismatch);
          }
          var failure := CaptureIntent(found.value);
          if failure.Some? {
            return Raised(failure.value);
          }
        case PaymentFailed(reference) =>
          if !Payments.Present(reference) {
            return Raised(InvalidWebhook);
          }
          var found := LastWhere(intents, (it: Intent) => HasReference(it, provider, reference.value));
          if found.Some? && intents[found.value].status != IntentCaptured {
            intents := intents[found.value := intents[found.value].(status := IntentFailed)];
          }
        case OtherEvent(_) =>
      }
      events := events[id := hook];
      return Done(Response(200, EventBody(hook.externalId, false)));
    }

    /** _capture_intent: nothing happens for a captured intent; otherwise funds the escrow or names the failed check. */
    method CaptureIntent(i: Id) returns (failure: Option<Error>)
      requires i < |intents|
      modifies `milestones, `intents, `journal
      ensures failure == if old(intents[i].status) == IntentCaptured then None
          else Payments.CaptureFailure(old(Snapshot()), i)
      ensures failure.Some? || old(intents[i].status) == IntentCaptured ==> Snapshot() == old(Snapshot())
      ensures failure.None? && old(intents[i].status) != IntentCaptured ==>
        && intents == old(intents)[i := old(intents)[i].(status := IntentCaptured, capturedAt := Some(|old(journal)|))]
        && milestones == old(milestones)[old(intents)[i].milestone := CapturedMilestone(old(Snapshot()), i)]
        && journal == Append(old(journal), FundEntry(old(Snapshot()), i))
    {
      hide Balance, Acceptable, Append;
      var it := intents[i];
      if it.status == IntentCaptured {
        return None;
      }
      if it.milestone >= |milestones| {
        return Some(NotFound);
      }
      var row := milestones[it.milestone];
      if row.contract >= |contracts| {
        return Some(Internal);
      }
      if contracts[row.contract].status != Active {
        return Some(ContractInactive);
      }
      if row.status != Created && row.status != Funded {
        return Some(InvalidTransition);
      }
      var escrow := Escrow(it.milestone, row.currency);
      if row.commission.None? {
        row := row.(commission := Some(contracts[row.contract].document.bps));
      }
      var before := AccountBalance(journal, escrow);
      if before + it.amount > row.amount {
        return Some(EscrowOverfund);
      }
      var capturedAt := |journal|;
      var posted := PostJournal(journal, Journal(Key(MilestoneFund, IntentRef(i)), None,
        [Posting(Clearing(it.provider, it.currency), Debit, it.amount), Posting(escrow, Credit, it.amount)]));
      if posted.Rejected? {
        return Some(JournalRejected);
      }
      journal := posted.journal;
      intents := intents[i := it.(status := IntentCaptured, capturedAt := Some(capturedAt))];
      var after := before + it.amount;
      if after == row.amount && row.status != Funded {
        var previous := row.status;
        row := row.(status := Funded, events := row.events + [MilestoneEvent(previous, Funded)]);
      }
      milestones := milestones[it.milestone := row];
      return None;
    }

    /** release_milestone. */
    method ReleaseMilestone(user: Id, m: Id, text: string) returns (reply: Reply)
      modifies this
      ensures Snapshot() == Commit(old(Snapshot()), Payments.Release(old(Snapshot()), user, m, text).write)
      ensures reply == Payments.Release(old(Snapshot()), user, m, text).reply
    {
      hide Lawful, Guarded, WellPosted, WellScoped, Payments.StartRelease;
      var refused := EmployerGate(user, m);
      if refused.Some? {
        return Raised(refused.value);
      }
      var key := IdemKey(user, ReleaseOperation, text);
      var claim, session := ClaimIdempotency(idem, key, ReleaseRequest(m));
      match claim {
        case Refused(e) => reply := Raised(e);
        case Replay(response) => reply := Done(response);
        case Proceed => reply := StartRelease(m, key, session);
      }
    }

    /** The release journal: net to the freelancer, and the platform's fee unless it is zero. */
    method ReleaseJournal(m: Id) returns (entry: Journal)
      requires m < |milestones| && milestones[m].contract < |contracts| && milestones[m].commission.Some?
      ensures entry == ReleaseEntry(Snapshot(), m)
    {
      var row := milestones[m];
      var wallet := Wallet(contracts[row.contract].freelancer, row.currency);
      var fee := row.amount * row.commission.value / 10000;
      var postings := [Posting(Escrow(m, row.currency), Debit, row.amount), Posting(wallet, Credit, row.amount - fee)];
      if fee != 0 {
        postings := postings + [Posting(Commission(row.currency), Credit, fee)];
      }
      entry := Journal(Key(MilestoneRelease, MilestoneRef(m)), None, postings);
    }

    method StartRelease(m: Id, key: IdemKey, claimed: map<IdemKey, IdemRecord>) returns (reply: Reply)
      requires ActiveMilestone(Snapshot(), m) && key.operation == ReleaseOperation && Unanswered(Snapshot(), key)
      requires ClaimedFor(Snapshot(), key, ReleaseRequest(m))
      requires claimed == idem[key := IdemRecord(ReleaseRequest(m), None)]
      modifies `milestones, `journal, `idem
      ensures Snapshot() == Commit(old(Snapshot()), Payments.StartRelease(old(Snapshot()), m, key).write)
      ensures reply == Payments.StartRelease(old(Snapshot()), m, key).reply
    {
      hide Lawful, Guarded, WellPosted, WellScoped, Balance, Acceptable, Append, ReleaseEntry, ClaimedFor;
      var row := milestones[m];
      var response;
      if row.status == Released {
        response := Response(200, FinancialState(m, row, journal));
      } else {
        if row.status != Approved {
          return Raised(InvalidTransition);
        }
        if row.commission.None? {
          return Raised(EscrowNotFound);
        }
        var escrow := Escrow(m, row.currency);
        var balance := AccountBalance(journal, escrow);
        if balance != row.amount {
          return Raised(EscrowNotFullyFunded);
        }
        var entry := ReleaseJournal(m);
        var posted := PostJournal(journal, entry);
        if posted.Rejected? {
          return Raised(JournalRejected);
        }
        journal := posted.journal;
        row := row.(events := row.events + [MilestoneEvent(Approved, ReleasePending)]);
        row := row.(status := ReleasePending);
        row := row.(events := row.events + [MilestoneEvent(ReleasePending, Released)]);
        row := row.(status := Released);
        milestones := milestones[m := row];
        response := Response(200, FinancialState(m, row, journal));
      }
      var session := CompleteIdempotency(claimed, key, response);
      assert session == idem[key := IdemRecord(ReleaseRequest(m), Some(response))];
      idem := session;
      return Done(response);
    }

    /** refund_milestone up to its first commit. */
    method RefundMilestone(user: Id, m: Id, provider: string, text: string) returns (reply: Reply)
      modifies this
      ensures Snapshot() == Commit(old(Snapshot()),
                                   Payments.ReserveRefundOf(old(Snapshot()), user, m, provider, text).write)
      ensures reply == Payments.ReserveRefundOf(old(Snapshot()), user, m, provider, text).reply
    {
      hide Lawful, Guarded, WellPosted, WellScoped, Payments.StartRefund;
      var refused := EmployerGate(user, m);
      if refused.Some? {
        return Raised(refused.value);
      }
      var key := IdemKey(user, RefundOperation, text);
      var claim, session := ClaimIdempotency(idem, key, RefundRequest(m, provider));
      match claim {
        case Refused(e) => reply := Raised(e);
        case Replay(response) => reply := Done(response);
        case Proceed => reply := StartRefund(m, provider, key, session);
      }
    }

    method StartRefund(m: Id, provider: string, key: IdemKey, claimed: map<IdemKey, IdemRecord>) returns (reply: Reply)
      requires ActiveMilestone(Snapshot(), m) && key.operation == RefundOperation && Unanswered(Snapshot(), key)
      requires ClaimedFor(Snapshot(), key, RefundRequest(m, provider))
      requires claimed == idem[key := IdemRecord(RefundRequest(m, provider), None)]
      modifies `refunds, `journal, `idem
      ensures Snapshot() == Commit(old(Snapshot()), Payments.StartRefund(old(Snapshot()), m, provider, key).write)
      ensures reply == Payments.StartRefund(old(Snapshot()), m, provider, key).reply
    {
      hide Lawful, Guarded, WellPosted, WellScoped, ClaimedFor, Payments.ReserveEscrow;
      var existing := LastWhere(refunds, (r: Records.Refund) => Payments.RefundFor(r, key));
      if existing.Some? {
        if key !in idem {
          return Raised(Internal);
        }
        var r := refunds[existing.value];
        if r.status != Pending {
          reply := CompleteRefundReplay(existing.value);
          return;
        }
        if LastWhere(intents, (it: Intent) => Payments.CapturedBy(it, r.milestone, r.provider)).None? {
          return Raised(ProviderMismatch);
        }
        return Calling(existing.value);
      }
      reply := ReserveEscrow(m, provider, key, claimed);
    }

    method ReserveEscrow(m: Id, provider: string, key: IdemKey, claimed: map<IdemKey, IdemRecord>)
      returns (reply: Reply)
      requires ActiveMilestone(Snapshot(), m) && key.operation == RefundOperation && Unanswered(Snapshot(), key)
      requires NoRefundFor(Snapshot(), key) && ClaimedFor(Snapshot(), key, RefundRequest(m, provider))
      requires claimed == idem[key := IdemRecord(RefundRequest(m, provider), None)]
      modifies `refunds, `journal, `idem
      ensures Snapshot() == Commit(old(Snapshot()), Payments.ReserveEscrow(old(Snapshot()), m, provider, key).write)
      ensures reply == Payments.ReserveEscrow(old(Snapshot()), m, provider, key).reply
    {
      hide Lawful, Guarded, WellPosted, WellScoped, Balance, Acceptable, Append, ClaimedFor, NoRefundFor;
      var row := milestones[m];
      if row.status != Funded {
        return Raised(InvalidTransition);
      }
      if row.commission.None? {
        return Raised(EscrowNotFound);
      }
      var amount := AccountBalance(journal, Escrow(m, row.currency));
      if amount <= 0 {
        return Raised(NothingToRefund);
      }
      if LastWhere(intents, (it: Intent) => Payments.CapturedBy(it, m, provider)).None? {
        return Raised(ProviderMismatch);
      }
      var posted := PostJournal(journal, Journal(Key(MilestoneRefund, RefundRef(|refunds|)), None,
        [Posting(Escrow(m, row.currency), Debit, amount), Posting(Clearing(provider, row.currency), Credit, amount)]));
      if posted.Rejected? {
        return Raised(JournalRejected);
      }
      refunds := refunds + [Records.Refund(m, key.user, posted.id, key, provider, None, amount, row.currency, Pending)];
      journal := posted.journal;
      idem := claimed;
      return Calling(|refunds| - 1);
    }

    /** _complete_refund_replay: stores the answer that a settled refund calls for. */
    method CompleteRefundReplay(id: Id) returns (reply: Reply)
      requires id < |refunds| && refunds[id].status != Pending && refunds[id].key in idem
      modifies `idem
      ensures Snapshot() == Commit(old(Snapshot()), ReplayRefund(id))
      ensures reply == Done(RefundResponse(id, refunds[id]).value)
    {
      var r := refunds[id];
      var response;
      if r.status == Succeeded {
        response := Response(200, RefundView(id, r));
      } else {
        response := Response(502, FailedRefundBody(id));
      }
      idem := CompleteIdempotency(idem, r.key, response);
      return Done(response);
    }

    /** refund_milestone after the provider answered. */
    method SettleRefund(id: Id, verifying: bool, outcome: ProviderOutcome) returns (reply: Reply)
      modifies this
      ensures Snapshot() == Commit(old(Snapshot()),
                                   Payments.SettleRefundOf(old(Snapshot()), id, verifying, outcome).write)
      ensures reply == Payments.SettleRefundOf(old(Snapshot()), id, verifying, outcome).reply
    {
      hide Lawful, Guarded, WellPosted, WellScoped, Payments.FailRefund, Payments.ConfirmRefund;
      if id >= |refunds| {
        return Raised(Internal);
      }
      var r := refunds[id];
      if outcome.TemporaryError? {
        return Done(Response(202, RefundView(id, r.(status := Pending))));
      }
      if outcome.HardError? {
        if verifying {
          return Raised(ProviderFailed);
        }
        reply := FailRefund(id, None);
        return;
      }
      reply := ConfirmRefund(id, outcome.result);
    }

    method ConfirmRefund(id: Id, result: ProviderResult) returns (reply: Reply)
      requires id < |refunds|
      modifies this
      ensures Snapshot() == Commit(old(Snapshot()), Payments.ConfirmRefund(old(Snapshot()), id, result).write)
      ensures reply == Payments.ConfirmRefund(old(Snapshot()), id, result).reply
    {
      hide Lawful, Guarded, WellPosted, WellScoped, Payments.FailRefund, Balance, Acceptable, Append;
      var r := refunds[id];
      if r.key !in idem || r.milestone >= |milestones| {
        return Raised(Internal);
      }
      if r.status != Pending {
        if r.key.operation != RefundOperation {
          return Raised(Internal);
        }
        reply := CompleteRefundReplay(id);
        return;
      }
      if result.amount != r.amount || result.currency != r.currency {
        reply := FailRefund(id, None);
        return;
      }
      if Payments.ReferenceClash(Snapshot(), id, result.reference) {
        return Raised(ConstraintViolated);
      }
      r := r.(reference := Some(result.reference));
      if result.status == Pending {
        refunds := refunds[id := r];
        return Done(Response(202, RefundView(id, r)));
      }
      if result.status != Succeeded {
        reply := FailRefund(id, Some(result.reference));
        return;
      }
      var row := milestones[r.milestone];
      if row.status != Funded {
        return Raised(Internal);
      }
      r := r.(status := Succeeded);
      row := row.(status := Created, events := row.events + [MilestoneEvent(Funded, Created)]);
      refunds, milestones := refunds[id := r], milestones[r.milestone := row];
      idem := CompleteIdempotency(idem, r.key, Response(200, RefundView(id, r)));
      return Done(Response(200, RefundView(id, r)));
    }

    /** _fail_refund: gives the reserved money back to the escrow, unless the refund has settled meanwhile. */
    method FailRefund(id: Id, noted: Option<string>) returns (reply: Reply)
      requires id < |refunds|
      requires noted.Some? ==> !Payments.ReferenceClash(Snapshot(), id, noted.value)
      modifies `refunds, `journal, `idem
      ensures Snapshot() == Commit(old(Snapshot()), Payments.FailRefund(old(Snapshot()), id, noted).write)
      ensures reply == Payments.FailRefund(old(Snapshot()), id, noted).reply
    {
      hide Lawful, Guarded, WellPosted, WellScoped, Balance, Acceptable, Append;
      var r := refunds[id];
      if r.key !in idem || r.milestone >= |milestones| {
        return Raised(Internal);
      }
      if r.status != Pending {
        if r.key.operation != RefundOperation {
          return Raised(Internal);
        }
        reply := CompleteRefundReplay(id);
        return;
      }
      var row := milestones[r.milestone];
      if row.commission.None? {
        return Raised(EscrowNotFound);
      }
      reply := GiveBack(id, noted);
    }

    method GiveBack(id: Id, noted: Option<string>) returns (reply: Reply)
      requires PendingRefund(Snapshot(), id)
      modifies `refunds, `journal, `idem
      ensures Snapshot() == Commit(old(Snapshot()),
        if Acceptable(RefundReversal(old(Snapshot()), id).entries) then ReverseRefund(id, noted) else Nothing)
      ensures reply ==
        if Acceptable(RefundReversal(old(Snapshot()), id).entries) then Done(Response(502, FailedRefundBody(id)))
        else Raised(JournalRejected)
    {
      hide Balance, Acceptable, Append;
      var r := refunds[id];
      var row := milestones[r.milestone];
      var posted := PostJournal(journal, Journal(Key(Reversal, RefundRef(id)), Some(r.journal),
        [Posting(Clearing(r.provider, r.currency), Debit, r.amount),
         Posting(Escrow(r.milestone, row.currency), Credit, r.amount)]));
      if posted.Rejected? {
        return Raised(JournalRejected);
      }
      if noted.Some? {
        r := r.(reference := noted);
      }
      r := r.(status := TransferStatus.Failed);
      refunds, journal := refunds[id := r], posted.journal;
      idem := CompleteIdempotency(idem, r.key, Response(502, FailedRefundBody(id)));
      return Done(Response(502, FailedRefundBody(id)));
    }

    // ---- Payouts --------------------------------------------------------------------------------

    /** create_payout up to its first commit. */
    method CreatePayout(user: Id, amount: int, currency: string, provider: string, text: string,
                        destination: Option<string>)
      returns (reply: Reply)
      modifies this
      ensures Snapshot() == Commit(old(Snapshot()),
        Payouts.ReservePayoutOf(old(Snapshot()), user, amount, currency, provider, text, destination).write)
      ensures reply == Payouts.ReservePayoutOf(old(Snapshot()), user, amount, currency, provider, text,
                                               destination).reply
    {
      hide Lawful, Guarded, WellPosted, WellScoped, Payouts.StartPayout;
      if amount <= 0 || |currency| != 3 {
        return Raised(InvalidInput);
      }
      var key := IdemKey(user, PayoutOperation, text);
      var claim, session := ClaimIdempotency(idem, key, PayoutRequest(amount, currency, provider));
      match claim {
        case Refused(e) => reply := Raised(e);
        case Replay(response) => reply := Done(response);
        case Proceed => reply := StartPayout(amount, currency, provider, key, session, destination);
      }
    }

    method StartPayout(amount: int, currency: string, provider: string, key: IdemKey, claimed: map<IdemKey, IdemRecord>,
                       destination: Option<string>) returns (reply: Reply)
      requires amount > 0 && key.operation == PayoutOperation && Unanswered(Snapshot(), key)
      requires ClaimedFor(Snapshot(), key, PayoutRequest(amount, currency, provider))
      requires claimed == idem[key := IdemRecord(PayoutRequest(amount, currency, provider), None)]
      modifies `payouts, `journal, `idem
      ensures Snapshot() == Commit(old(Snapshot()),
        Payouts.StartPayout(old(Snapshot()), amount, currency, provider, key, destination).write)
      ensures reply == Payouts.StartPayout(old(Snapshot()), amount, currency, provider, key, destination).reply
    {
      hide Lawful, Guarded, WellPosted, WellScoped, Balance, Acceptable, Append, ClaimedFor;
      var existing := LastWhere(payouts, (p: Payout) => Payouts.PayoutFor(p, key));
      if existing.Some? {
        if key !in idem {
          return Raised(Internal);
        }
        if payouts[existing.value].status != Pending {
          reply := CompleteTerminalReplay(existing.value);
          return;
        }
        return Calling(existing.value);
      }
      if destination.None? {
        return Raised(DestinationMissing);
      }
      var wallet := Wallet(key.user, currency);
      var balance := AccountBalance(journal, wallet);
      if balance < amount {
        return Raised(InsufficientFunds);
      }
      var posted := PostJournal(journal, Journal(Key(PayoutOut, PayoutRef(|payouts|)), None,
        [Posting(wallet, Debit, amount), Posting(Clearing(provider, currency), Credit, amount)]));
      if posted.Rejected? {
        return Raised(JournalRejected);
      }
      var p := Payout(key.user, key, posted.id, None, provider, destination.value, None, amount, currency, Pending);
      payouts := payouts + [p];
      journal := posted.journal;
      idem := claimed;
      return Calling(|payouts| - 1);
    }

    /** _complete_terminal_replay. */
    method CompleteTerminalReplay(id: Id) returns (reply: Reply)
      requires id < |payouts| && payouts[id].status != Pending && payouts[id].key in idem
      modifies `idem
      ensures Snapshot() == Commit(old(Snapshot()), ReplayPayout(id))
      ensures reply == Done(PayoutResponse(id, payouts[id]).value)
    {
      var p := payouts[id];
      var response;
      if p.status == Succeeded {
        response := Response(200, PayoutBody(id, p.provider, p.reference, p.amount, p.currency, p.status));
      } else {
        response := Response(502, FailedPayoutBody(id));
      }
      idem := CompleteIdempotency(idem, p.key, response);
      return Done(response);
    }

    /** create_payout after the provider answered. */
    method SettlePayout(id: Id, outcome: ProviderOutcome) returns (reply: Reply)
      modifies this
      ensures Snapshot() == Commit(old(Snapshot()), Payouts.SettlePayoutOf(old(Snapshot()), id, outcome).write)
      ensures reply == Payouts.SettlePayoutOf(old(Snapshot()), id, outcome).reply
    {
      hide Lawful, Guarded, WellPosted, WellScoped, Payouts.FailPayout, Balance, Acceptable, Append;
      if id >= |payouts| {
        return Raised(Internal);
      }
      var p := payouts[id];
      if outcome.TemporaryError? {
        return Done(Response(503, PendingPayoutBody(id)));
      }
      if outcome.HardError? {
        reply := FailPayout(id);
        return;
      }
      var result := outcome.result;
      if p.key !in idem {
        return Raised(Internal);
      }
      if p.status != Pending {
        reply := CompleteTerminalReplay(id);
        return;
      }
      if result.amount != p.amount || result.currency != p.currency {
        reply := FailPayout(id);
        return;
      }
      if Payouts.PayoutClash(Snapshot(), id, result.reference) {
        return Raised(ConstraintViolated);
      }
      p := p.(reference := Some(result.reference));
      p := p.(status := Succeeded);
      payouts := payouts[id := p];
      var response := Response(200, PayoutBody(id, p.provider, p.reference, p.amount, p.currency, p.status));
      idem := CompleteIdempotency(idem, p.key, response);
      return Done(response);
    }

    /** _fail_payout: gives the reserved money back to the wallet, unless the payout has settled meanwhile. */
    method FailPayout(id: Id) returns (reply: Reply)
      requires id < |payouts|
      modifies `payouts, `journal, `idem
      ensures Snapshot() == Commit(old(Snapshot()), Payouts.FailPayout(old(Snapshot()), id).write)
      ensures reply == Payouts.FailPayout(old(Snapshot()), id).reply
    {
      hide Lawful, Guarded, WellPosted, WellScoped, Balance, Acceptable, Append;
      var p := payouts[id];
      if p.key !in idem {
        return Raised(Internal);
      }
      if p.status != Pending {
        reply := CompleteTerminalReplay(id);
        return;
      }
      var posted := PostJournal(journal, Journal(Key(Reversal, PayoutRef(id)), Some(p.journal),
        [Posting(Clearing(p.provider, p.currency), Debit, p.amount),
         Posting(Wallet(p.freelancer, p.currency), Credit, p.amount)]));
      if posted.Rejected? {
        return Raised(JournalRejected);
      }
      p := p.(reversal := Some(posted.id));
      p := p.(status := TransferStatus.Failed);
      payouts, journal := payouts[id := p], posted.journal;
      idem := CompleteIdempotency(idem, p.key, Response(502, FailedPayoutBody(id)));
      return Done(Response(502, FailedPayoutBody(id)));
    }

    // ---- Milestones -----------------------------------------------------------------------------

    /** _transition. */
    method Transition(user: Id, m: Id, action: Milestones.Action) returns (reply: Reply)
      modifies `milestones
      ensures Snapshot() == Commit(old(Snapshot()), Milestones.Progress(old(Snapshot()), user, m, action).write)
      ensures reply == Milestones.Progress(old(Snapshot()), user, m, action).reply
    {
      hide Lawful, Guarded, WellPosted, WellScoped, Balance, WorkStep, Milestones.MayTransition;
      if m >= |milestones| {
        return Raised(NotFound);
      }
      var row := milestones[m];
      if row.contract >= |contracts| {
        return Raised(Internal);
      }
      var contract := contracts[row.contract];
      if contract.status != Active {
        return Raised(ContractInactive);
      }
      var worker := action == Milestones.Start || action == Milestones.Submit;
      if user != (if worker then contract.freelancer else contract.employer) {
        return Raised(Forbidden);
      }
      var target := Milestones.Target(action);
      if row.status != target {
        Milestones.TransitionTable(action, row.status);
        if !Milestones.MayTransition(action, row.status) {
          return Raised(InvalidTransition);
        }
        if action == Milestones.Start {
          if row.commission.None? {
            return Raised(EscrowNotFound);
          }
          var balance := AccountBalance(journal, Escrow(m, row.currency));
          if balance != row.amount {
            return Raised(EscrowNotFullyFunded);
          }
        }
        var previous := row.status;
        row := row.(status := target);
        row := row.(events := row.events + [MilestoneEvent(previous, target)]);
        milestones := milestones[m := row];
      }
      return Done(Response(200, RowBody(m)));
    }

    // ---- Disputes -------------------------------------------------------------------------------

    /** open_dispute. */
    method OpenDispute(user: Id, m: Id, reason: string) returns (reply: Reply)
      modifies `milestones, `disputes
      ensures Snapshot() == Commit(old(Snapshot()), Disputes.Open(old(Snapshot()), user, m, reason).write)
      ensures reply == Disputes.Open(old(Snapshot()), user, m, reason).reply
    {
      hide Lawful, Guarded, WellPosted, WellScoped;
      if !ValidText(reason) {
        return Raised(InvalidInput);
      }
      if m >= |milestones| {
        return Raised(NotFound);
      }
      var row := milestones[m];
      if row.contract >= |contracts| {
        return Raised(Internal);
      }
      var contract := contracts[row.contract];
      if user != contract.employer && user != contract.freelancer {
        return Raised(Forbidden);
      }
      if contract.status != Active {
        return Raised(ContractInactive);
      }
      if row.status !in {Funded, InProgress, Submitted, ChangesRequested, Approved} {
        return Raised(InvalidTransition);
      }
      if LastWhere(disputes, (d: Dispute) => Disputes.OnMilestone(d, m)).Some? {
        return Raised(AlreadyDisputed);
      }
      var dispute := Dispute(m, row.contract, user, Opened, [], [], None);
      var previous := row.status;
      row := row.(status := Disputed);
      row := row.(events := row.events + [MilestoneEvent(previous, Disputed)]);
      dispute := dispute.(events := dispute.events + [DisputeEvent(None, Opened)]);
      assert dispute == NewDispute(m, row.contract, user);
      milestones, disputes := milestones[m := row], disputes + [dispute];
      return Done(Response(201, RowBody(|disputes| - 1)));
    }

    /** add_evidence. */
    method AddEvidence(user: Id, id: Id, file: Id, usable: bool) returns (reply: Reply)
      modifies `disputes
      ensures Snapshot() == Commit(old(Snapshot()), Disputes.Evidence(old(Snapshot()), user, id, file, usable).write)
      ensures reply == Disputes.Evidence(old(Snapshot()), user, id, file, usable).reply
    {
      hide Lawful, Guarded, WellPosted, WellScoped;
      if id >= |disputes| {
        return Raised(NotFound);
      }
      var dispute := disputes[id];
      if dispute.contract >= |contracts| {
        return Raised(Internal);
      }
      var contract := contracts[dispute.contract];
      if user != contract.employer && user != contract.freelancer {
        return Raised(Forbidden);
      }
      if dispute.status !in {Opened, EvidenceCollection, NeedMoreInfo} {
        return Raised(InvalidState);
      }
      if !usable {
        return Raised(InvalidInput);
      }
      if file in dispute.evidence {
        return Raised(AlreadyExists);
      }
      dispute := dispute.(evidence := dispute.evidence + [file]);
      dispute := dispute.(events := dispute.events + [DisputeEvent(Some(dispute.status), dispute.status)]);
      disputes := disputes[id := dispute];
      return Done(Response(201, RowBody(id)));
    }

    /** admin_transition. */
    method AdminTransition(id: Id, target: DisputeStatus, reason: string) returns (reply: Reply)
      modifies `disputes
      ensures Snapshot() == Commit(old(Snapshot()), Disputes.Review(old(Snapshot()), id, target, reason).write)
      ensures reply == Disputes.Review(old(Snapshot()), id, target, reason).reply
    {
      hide ReviewStep, Disputes.MayMove, Lawful, Guarded, WellPosted, WellScoped;
      if id >= |disputes| {
        return Raised(NotFound);
      }
      if !ValidText(reason) {
        return Raised(InvalidInput);
      }
      var dispute := disputes[id];
      Disputes.MoveTable(dispute.status, target);
      if !Disputes.MayMove(dispute.status, target) {
        return Raised(InvalidTransition);
      }
      var previous := dispute.status;
      dispute := dispute.(status := target);
      dispute := dispute.(events := dispute.events + [DisputeEvent(Some(previous), target)]);
      disputes := disputes[id := dispute];
      return Done(Response(200, RowBody(id)));
    }

    /** resolve_dispute. */
    method ResolveDispute(user: Id, id: Id, verdict: Verdict, reason: string, award: Option<int>, refund: Option<int>,
                          text: string, confirmed: ProviderOutcome) returns (reply: Reply)
      modifies this
      ensures Snapshot() == Commit(old(Snapshot()),
        Disputes.Resolve(old(Snapshot()), user, id, verdict, reason, award, refund, text, confirmed).write)
      ensures reply == Disputes.Resolve(old(Snapshot()), user, id, verdict, reason, award, refund, text,
                                        confirmed).reply
    {
      hide Lawful, Guarded, WellPosted, WellScoped, Disputes.Adjudicate;
      if id >= |disputes| {
        return Raised(NotFound);
      }
      if !ValidText(reason) {
        return Raised(InvalidInput);
      }
      var key := IdemKey(user, ResolveOperation, text);
      var request := ResolveRequest(id, verdict, reason, award, refund);
      var claim, session := ClaimIdempotency(idem, key, request);
      match claim {
        case Refused(e) => reply := Raised(e);
        case Replay(response) => reply := Done(response);
        case Proceed => reply := Adjudicate(id, verdict, award, refund, key, request, session, confirmed);
      }
    }

    method Adjudicate(id: Id, verdict: Verdict, award: Option<int>, refund: Option<int>, key: IdemKey, request: Request,
                      claimed: map<IdemKey, IdemRecord>, confirmed: ProviderOutcome) returns (reply: Reply)
      requires id < |disputes| && key.operation == ResolveOperation && Unanswered(Snapshot(), key)
      requires ClaimedFor(Snapshot(), key, request) && claimed == idem[key := IdemRecord(request, None)]
      modifies this
      ensures Snapshot() == Commit(old(Snapshot()),
        Disputes.Adjudicate(old(Snapshot()), id, verdict, award, refund, key, request, confirmed).write)
      ensures reply == Disputes.Adjudicate(old(Snapshot()), id, verdict, award, refund, key, request, confirmed).reply
    {
      NothingStays(Snapshot());
      hide Lawful, Guarded, WellPosted, WellScoped, Disputes.Divide, ClaimedFor, Balance, PostedId,
          Disputes.Undecidable, Disputes.Amounts, Commit;
      var reason := Undecidable(id);
      if reason.Some? {
        return Raised(reason.value);
      }
      var row := milestones[disputes[id].milestone];
      var amounts := Disputes.Amounts(verdict, row.amount, award, refund);
      if amounts.None? {
        return Raised(InvalidInput);
      }
      var commission := amounts.value.0 * row.commission.value / 10000;
      var number := PostedId(journal, Key(DisputeResolution, DisputeRef(id)));
      var decision := Decision(verdict, amounts.value.0, amounts.value.0 - commission, amounts.value.1, commission,
                               number);
      reply := Divide(id, decision, key, request, claimed, confirmed);
    }

    /** _require_reviewable_dispute and _locked_funded_escrow. */
    method Undecidable(id: Id) returns (reason: Option<Error>)
      requires id < |disputes|
      ensures reason == Disputes.Undecidable(Snapshot(), id)
    {
      hide Balance;
      var dispute := disputes[id];
      if dispute.status == Resolved || dispute.decision.Some? {
        return Some(AlreadyResolved);
      }
      if dispute.status != UnderReview {
        return Some(InvalidTransition);
      }
      var m := dispute.milestone;
      if m >= |milestones| {
        return Some(NotFound);
      }
      var row := milestones[m];
      if row.contract >= |contracts| {
        return Some(Internal);
      }
      if row.status != Disputed {
        return Some(InvalidState);
      }
      if row.commission.None? {
        return Some(EscrowNotFound);
      }
      var funded := AccountBalance(journal, Escrow(m, row.currency));
      if funded != row.amount || funded <= 0 {
        return Some(EscrowNotFullyFunded);
      }
      return None;
    }

    method Divide(id: Id, decision: Decision, key: IdemKey, request: Request, claimed: map<IdemKey, IdemRecord>,
                  confirmed: ProviderOutcome) returns (reply: Reply)
      requires id < |disputes| && CanResolve(Snapshot(), id, decision)
      requires key.operation == ResolveOperation && Unanswered(Snapshot(), key)
      requires ClaimedFor(Snapshot(), key, request) && claimed == idem[key := IdemRecord(request, None)]
      modifies this
      ensures Snapshot() == Commit(old(Snapshot()),
                                   Disputes.Divide(old(Snapshot()), id, decision, key, request, confirmed).write)
      ensures reply == Disputes.Divide(old(Snapshot()), id, decision, key, request, confirmed).reply
    {
      hide Lawful, Guarded, WellPosted, WellScoped, Disputes.Settle, ClaimedFor, Balance, PostedId, DividesEscrow;
      var provider, reference := "", "";
      var row := milestones[disputes[id].milestone];
      if decision.refund != 0 {
        var paid := Disputes.LatestCapture(intents, disputes[id].milestone);
        if paid.None? {
          return Raised(Internal);
        }
        if !confirmed.Returned? {
          return Raised(ProviderFailed);
        }
        var result := confirmed.result;
        if result.status != Succeeded || result.amount != decision.refund || result.currency != row.currency {
          return Raised(RefundNotConfirmed);
        }
        provider, reference := intents[paid.value].provider, result.reference;
        if exists r :: 0 <= r < |refunds| && Disputes.CarriesReference(refunds[r], provider, reference) {
          return Raised(ConstraintViolated);
        }
      }
      reply := Settle(id, decision, provider, reference, key, request, claimed);
    }

    /** The resolution journal: the escrow debit, then a credit for every part that is not zero. */
    method ResolutionJournal(id: Id, decision: Decision, provider: string) returns (entry: Journal)
      requires CanResolve(Snapshot(), id, decision)
      ensures entry == ResolutionEntry(Snapshot(), id, decision, provider)
    {
      var m := disputes[id].milestone;
      var row := milestones[m];
      var postings := [Posting(Escrow(m, row.currency), Debit, row.amount)];
      if decision.net != 0 {
        var wallet := Wallet(contracts[row.contract].freelancer, row.currency);
        postings := postings + [Posting(wallet, Credit, decision.net)];
      }
      if decision.commission != 0 {
        postings := postings + [Posting(Commission(row.currency), Credit, decision.commission)];
      }
      if decision.refund != 0 {
        postings := postings + [Posting(Clearing(provider, row.currency), Credit, decision.refund)];
      }
      entry := Journal(Key(DisputeResolution, DisputeRef(id)), None, postings);
    }

    method PostResolution(id: Id, decision: Decision, provider: string) returns (accepted: bool)
      requires CanResolve(Snapshot(), id, decision)
      modifies `journal
      ensures var entry := ResolutionEntry(old(Snapshot()), id, decision, provider);
        && (accepted <==> Acceptable(entry.entries))
        && journal == if accepted then Append(old(journal), entry) else old(journal)
    {
      hide Acceptable, Append, Balance, ResolutionEntry;
      var entry := ResolutionJournal(id, decision, provider);
      var posted := PostJournal(journal, entry);
      if posted.Rejected? {
        return false;
      }
      journal := posted.journal;
      return true;
    }

    method Settle(id: Id, decision: Decision, provider: string, reference: string, key: IdemKey, request: Request,
                  claimed: map<IdemKey, IdemRecord>) returns (reply: Reply)
      requires id < |disputes| && CanResolve(Snapshot(), id, decision)
      requires key.operation == ResolveOperation && Unanswered(Snapshot(), key)
      requires ClaimedFor(Snapshot(), key, request) && claimed == idem[key := IdemRecord(request, None)]
      modifies this
      ensures Snapshot() == Commit(old(Snapshot()),
        Disputes.Settle(old(Snapshot()), id, decision, provider, reference, key, request).write)
      ensures reply == Disputes.Settle(old(Snapshot()), id, decision, provider, reference, key, request).reply
    {
      hide Lawful, Guarded, ClaimedFor, ResolutionEntry, Acceptable, Append, Unanswered, Commit, CanResolve, Decided;
      hide Disputes.Settle, Disputes.Resolves, Balance, PostedId;
      SettleMeans(Snapshot(), id, decision, provider, reference, key, request);
      var accepted := PostResolution(id, decision, provider);
      if !accepted {
        return Raised(JournalRejected);
      }
      var response := RecordDecision(id, decision, provider, reference, key);
      idem := CompleteIdempotency(claimed, key, response);
      return Done(response);
    }

    /** The refund row of a client refund, the milestone's release, and the decision with its event. */
    method RecordDecision(id: Id, decision: Decision, provider: string, reference: string, key: IdemKey)
      returns (response: Response)
      requires id < |disputes| && disputes[id].milestone < |milestones|
      requires milestones[disputes[id].milestone].contract < |contracts|
      modifies `milestones, `refunds, `disputes
      ensures var m := old(disputes[id].milestone);
        && disputes == old(disputes)[id := Decided(old(disputes)[id], decision)]
        && milestones == old(milestones)[m := Move(old(milestones)[m], Disputed, Released)]
        && refunds == if decision.refund == 0 then old(refunds) else old(refunds) + [Records.Refund(
             m, contracts[old(milestones)[m].contract].employer, decision.journal, key, provider, Some(reference),
             decision.refund, old(milestones)[m].currency, Succeeded)]
      ensures response == Response(200, DisputeBody(id, Decided(old(disputes)[id], decision)))
    {
      var dispute := disputes[id];
      var row := milestones[dispute.milestone];
      if decision.refund != 0 {
        var employer := contracts[row.contract].employer;
        refunds := refunds + [Records.Refund(dispute.milestone, employer, decision.journal, key, provider,
                                             Some(reference), decision.refund, row.currency, Succeeded)];
      }
      row := row.(events := row.events + [MilestoneEvent(Disputed, Released)]);
      row := row.(status := Released);
      milestones := milestones[dispute.milestone := row];
      dispute := dispute.(status := Resolved);
      dispute := dispute.(decision := Some(decision));
      dispute := dispute.(events := dispute.events + [DisputeEvent(Some(UnderReview), Resolved)]);
      disputes := disputes[id := dispute];
      return Response(200, DisputeBody(id, dispute));
    }

    // ---- Marketplace ----------------------------------------------------------------------------

    method PostProject(user: Id, currency: Option<string>) returns (reply: Reply)
      modifies `projects
      ensures Snapshot() == Commit(old(Snapshot()), Marketplace.Post(old(Snapshot()), user, currency).write)
      ensures reply == Marketplace.Post(old(Snapshot()), user, currency).reply
    {
      hide Lawful;
      projects := projects + [Project(user, currency, ProjectOpen)];
      return Done(Response(201, RowBody(|projects| - 1)));
    }

    /** create_proposal. */
    method CreateProposal(user: Id, project: Id, amount: nat, currency: string, terms: seq<nat>) returns (reply: Reply)
      modifies `proposals
      ensures Snapshot() == Commit(old(Snapshot()),
        Marketplace.Propose(old(Snapshot()), user, project, amount, currency, terms).write)
      ensures reply == Marketplace.Propose(old(Snapshot()), user, project, amount, currency, terms).reply
    {
      hide Lawful, Marketplace.NewVersion;
      if project >= |projects| {
        return Raised(NotFound);
      }
      var row := projects[project];
      if row.status != ProjectOpen || row.employer == user {
        return Raised(Forbidden);
      }
      if row.currency.Some? && row.currency.value != currency {
        return Raised(InvalidInput);
      }
      var version := NewVersion(1, amount, currency, terms);
      if version.None? {
        return Raised(InvalidInput);
      }
      if LastWhere(proposals, (p: Proposal) => Marketplace.SameBidder(p, project, user)).Some? {
        return Raised(AlreadyExists);
      }
      proposals := proposals + [Proposal(project, user, Draft, 1, [version.value])];
      return Done(Response(201, RowBody(|proposals| - 1)));
    }

    /** add_proposal_version. */
    method AddProposalVersion(user: Id, id: Id, amount: nat, currency: string, terms: seq<nat>) returns (reply: Reply)
      modifies `proposals
      ensures Snapshot() == Commit(old(Snapshot()),
                                   Marketplace.Revise(old(Snapshot()), user, id, amount, currency, terms).write)
      ensures reply == Marketplace.Revise(old(Snapshot()), user, id, amount, currency, terms).reply
    {
      hide Lawful, Marketplace.NewVersion;
      if id >= |proposals| {
        return Raised(NotFound);
      }
      var p := proposals[id];
      if user != p.freelancer {
        return Raised(Forbidden);
      }
      if p.status != Draft && p.status != UnderNegotiation {
        return Raised(InvalidTransition);
      }
      if p.versions == [] || p.project >= |projects| {
        return Raised(Internal);
      }
      if p.versions[|p.versions| - 1].currency != currency {
        var project := projects[p.project];
        if project.currency.Some? && project.currency.value != currency {
          return Raised(InvalidInput);
        }
      }
      p := p.(currentVersion := p.currentVersion + 1);
      var version := NewVersion(p.currentVersion, amount, currency, terms);
      if version.None? {
        return Raised(InvalidInput);
      }
      p := p.(versions := p.versions + [version.value]);
      proposals := proposals[id := p];
      return Done(Response(200, RowBody(id)));
    }

    /** transition_proposal. */
    method TransitionProposal(user: Id, id: Id, target: ProposalStatus, bps: int) returns (reply: Reply)
      modifies `proposals, `contracts, `milestones
      ensures Snapshot() == Commit(old(Snapshot()), Marketplace.Negotiate(old(Snapshot()), user, id, target, bps).write)
      ensures reply == Marketplace.Negotiate(old(Snapshot()), user, id, target, bps).reply
    {
      hide Lawful, Marketplace.Accept;
      if id >= |proposals| || proposals[id].project >= |projects| {
        return Raised(NotFound);
      }
      var p := proposals[id];
      var project := projects[p.project];
      if p.status !in Marketplace.ALLOWED_TRANSITIONS || target !in Marketplace.ALLOWED_TRANSITIONS[p.status] {
        return Raised(InvalidTransition);
      }
      var ownMove := target == ProposalSubmitted || target == Withdrawn;
      if user != (if ownMove then p.freelancer else project.employer) {
        return Raised(Forbidden);
      }
      if project.status != ProjectOpen {
        return Raised(InvalidState);
      }
      if target == Accepted {
        if p.freelancer == project.employer {
          return Raised(ConstraintViolated);
        }
        reply := AcceptProposal(id, bps);
        return;
      }
      p := p.(status := target);
      proposals := proposals[id := p];
      return Done(Response(200, RowBody(id)));
    }

    /** create_contract_from_accepted_proposal, and the proposal's own move to ACCEPTED. */
    method AcceptProposal(id: Id, bps: int) returns (reply: Reply)
      requires id < |proposals| && proposals[id].project < |projects|
      requires projects[proposals[id].project].status == ProjectOpen
      requires proposals[id].freelancer != projects[proposals[id].project].employer
      modifies `proposals, `contracts, `milestones
      ensures Snapshot() == Commit(old(Snapshot()), Marketplace.Accept(old(Snapshot()), id, bps).write)
      ensures reply == Marketplace.Accept(old(Snapshot()), id, bps).reply
    {
      hide Lawful, LastWhere, FairVersion;
      var p := proposals[id];
      var existing := LastWhere(contracts, (c: Contract) => Marketplace.OnProject(c, p.project));
      if existing.Some? {
        if contracts[existing.value].proposal != id {
          return Raised(AlreadyExists);
        }
      } else {
        var current := LastWhere(p.versions, (v: ProposalVersion) => Marketplace.Numbered(v, p.currentVersion));
        if current.None? || bps < 0 || bps > 10000 {
          return Raised(Internal);
        }
        var v := p.versions[current.value];
        var document := Document(p.project, id, v.number, v.amount, v.currency, Terms(v), bps);
        var rows := MintMilestones(|contracts|, document);
        contracts := contracts + [Contract(p.project, id, projects[p.project].employer, p.freelancer,
                                           PendingSignatures, document)];
        milestones := milestones + rows;
      }
      p := p.(status := Accepted);
      proposals := proposals[id := p];
      return Done(Response(200, RowBody(id)));
    }

    /** sign_contract. */
    method SignContract(user: Id, id: Id, key: string, expected: Document) returns (reply: Reply)
      modifies `signatures, `contracts
      ensures Snapshot() == Commit(old(Snapshot()), Marketplace.Sign(old(Snapshot()), user, id, key, expected).write)
      ensures reply == Marketplace.Sign(old(Snapshot()), user, id, key, expected).reply
    {
      hide Lawful, HasSigned;
      if id >= |contracts| {
        return Raised(NotFound);
      }
      var contract := contracts[id];
      if user != contract.employer && user != contract.freelancer {
        return Raised(Forbidden);
      }
      if contract.status == Cancelled {
        return Raised(InvalidState);
      }
      if expected != contract.document {
        return Raised(DocumentChanged);
      }
      var prior := LastWhere(signatures, (g: Signature) => Marketplace.KeyUsed(g, user, key));
      if prior.Some? {
        if signatures[prior.value].contract != id {
          return Raised(KeyConflict);
        }
        return Done(Response(200, RowBody(id)));
      }
      if HasSigned(signatures, id, user) {
        return Done(Response(200, RowBody(id)));
      }
      signatures := signatures + [Signature(id, user, contract.document, key)];
      var signed := SignersOf(id);
      if {contract.employer, contract.freelancer} <= signed {
        contract := contract.(status := Active);
      }
      contracts := contracts[id := contract];
      return Done(Response(200, RowBody(id)));
    }

    /** The users who have signed a contract. */
    method SignersOf(id: Id) returns (users: set<Id>)
      ensures forall u :: u in users <==> HasSigned(signatures, id, u)
    {
      users := {};
      var i := 0;
      while i < |signatures|
        invariant 0 <= i <= |signatures|
        invariant forall u :: u in users <==> HasSigned(signatures[..i], id, u)
      {
        ghost var before := signatures[..i];
        assert signatures[..i + 1] == before + [signatures[i]];
        assert signatures[..i + 1][i] == signatures[i];
        forall u ensures HasSigned(signatures[..i + 1], id, u)
          <==> HasSigned(before, id, u) || (signatures[i].contract == id && signatures[i].user == u)
        {
          if HasSigned(before, id, u) {
            var k :| 0 <= k < i && before[k].contract == id && before[k].user == u;
            assert signatures[..i + 1][k] == before[k];
          }
        }
        if signatures[i].contract == id {
          users := users + {signatures[i].user};
        }
        i := i + 1;
      }
      assert signatures[..|signatures|] == signatures;
    }

    /** cancel_contract. */
    method CancelContract(user: Id, id: Id) returns (reply: Reply)
      modifies `contracts
      ensures Snapshot() == Commit(old(Snapshot()), Marketplace.Cancel(old(Snapshot()), user, id).write)
      ensures reply == Marketplace.Cancel(old(Snapshot()), user, id).reply
    {
      hide Lawful;
      if id >= |contracts| {
        return Raised(NotFound);
      }
      var contract := contracts[id];
      if user != contract.employer {
        return Raised(Forbidden);
      }
      if contract.status == Cancelled {
        return Done(Response(200, RowBody(id)));
      }
      if contract.status == Active {
        if exists m :: 0 <= m < |milestones| && milestones[m].contract == id && milestones[m].status != Created {
          return Raised(InvalidState);
        }
        if exists i :: 0 <= i < |intents| && PendingFor(Snapshot(), id, intents[i]) {
          return Raised(InvalidState);
        }
      }
      contract := contract.(status := Cancelled);
      contracts := contracts[id := contract];
      return Done(Response(200, RowBody(id)));
    }

    /** close_project. */
    method CloseProject(user: Id, id: Id) returns (reply: Reply)
      modifies `projects
      ensures Snapshot() == Commit(old(Snapshot()), Marketplace.Close(old(Snapshot()), user, id).write)
      ensures reply == Marketplace.Close(old(Snapshot()), user, id).reply
    {
      hide Lawful;
      if id >= |projects| {
        return Raised(NotFound);
      }
      var project := projects[id];
      if user != project.employer {
        return Raised(Forbidden);
      }
      if project.status != ProjectOpen {
        return Raised(InvalidState);
      }
      var found := LastWhere(contracts, (c: Contract) => Marketplace.OnProject(c, id));
      if found.None? || contracts[found.value].status != Active {
        return Raised(InvalidState);
      }
      if exists m :: 0 <= m < |milestones| && milestones[m].contract == found.value
          && milestones[m].status != Released {
        return Raised(InvalidState);
      }
      project := project.(status := ProjectClosed);
      projects := projects[id := project];
      return Done(Response(200, RowBody(id)));
    }

    // ---- Every operation ------------------------------------------------------------------------

    /** Some run of the system leads to the tables as they are. */
    ghost predicate Valid()
      reads this
    {
      Reached(Snapshot())
    }

    /**
     Serves one request. Whatever it is, the tables stay reachable, so every theorem about reachable databases
     holds of this object; and a refused request leaves every table as it was.
     */
    method Perform(step: Step) returns (reply: Reply)
      requires Valid()
      modifies this
      ensures Valid() && Snapshot() == Apply(old(Snapshot()), step) && reply == Decide(old(Snapshot()), step).reply
      ensures reply.Raised? ==> Snapshot() == old(Snapshot())
    {
      hide Lawful, Reached, Commit;
      ReachedNext(Snapshot(), step);
      RefusalsLeaveNoTrace(Snapshot(), step);
      match step {
        case PostProject(user, currency) => reply := PostProject(user, currency);
        case Propose(user, project, price, currency, terms) =>
          reply := CreateProposal(user, project, price, currency, terms);
        case Revise(user, id, price, currency, terms) => reply := AddProposalVersion(user, id, price, currency, terms);
        case Negotiate(user, id, target, bps) => reply := TransitionProposal(user, id, target, bps);
        case Sign(user, id, text, expected) => reply := SignContract(user, id, text, expected);
        case Cancel(user, id) => reply := CancelContract(user, id);
        case Close(user, id) => reply := CloseProject(user, id);
        case Fund(user, m, provider, text, created) => reply := FundMilestone(user, m, provider, text, created);
        case Deliver(provider, hook) => reply := ProcessWebhook(provider, hook);
        case Progress(user, m, action) => reply := Transition(user, m, action);
        case Release(user, m, text) => reply := ReleaseMilestone(user, m, text);
        case Refund(user, m, provider, text) => reply := RefundMilestone(user, m, provider, text);
        case RefundAnswer(id, verifying, outcome) => reply := SettleRefund(id, verifying, outcome);
        case PayOut(user, amount, currency, provider, text, destination) =>
          reply := CreatePayout(user, amount, currency, provider, text, destination);
        case PayoutAnswer(id, outcome) => reply := SettlePayout(id, outcome);
        case OpenDispute(user, m, reason) => reply := OpenDispute(user, m, reason);
        case AddEvidence(user, id, file, usable) => reply := AddEvidence(user, id, file, usable);
        case Review(id, target, reason) => reply := AdminTransition(id, target, reason);
        case Resolve(user, id, verdict, reason, award, refund, text, outcome) =>
          reply := ResolveDispute(user, id, verdict, reason, award, refund, text, outcome);
      }
    }
  }

  function Decided(d: Dispute, decision: Decision): Dispute {
    Advance(d, UnderReview, Resolved).(decision := Some(decision))
  }

  /** What settling a dispute makes of the tables: nothing if the ledger refuses, else these five. */
  lemma SettleMeans(s: State, id: Id, decision: Decision, provider: string, reference: string, key: IdemKey,
                    request: Request)
    requires id < |s.disputes| && CanResolve(s, id, decision)
    requires key.operation == ResolveOperation && Unanswered(s, key) && ClaimedFor(s, key, request)
    ensures s.disputes[id].milestone < |s.milestones| && s.milestones[s.disputes[id].milestone].contract < |s.contracts|
    ensures var o := Disputes.Settle(s, id, decision, provider, reference, key, request);
      var m := s.disputes[id].milestone; var row := s.milestones[m]; var d := Decided(s.disputes[id], decision);
      var response := Response(200, DisputeBody(id, d));
      if !Acceptable(ResolutionEntry(s, id, decision, provider).entries) then
        o.reply == Raised(JournalRejected) && Commit(s, o.write) == s
      else
        && o.reply == Done(response)
        && Commit(s, o.write) == s.(
             milestones := s.milestones[m := Move(row, Disputed, Released)],
             refunds := if decision.refund == 0 then s.refunds else s.refunds + [Records.Refund(m,
               s.contracts[row.contract].employer, decision.journal, key, provider, Some(reference), decision.refund,
               row.currency, Succeeded)],
             disputes := s.disputes[id := d],
             idem := s.idem[key := IdemRecord(request, Some(response))],
             journal := Append(s.journal, ResolutionEntry(s, id, decision, provider)))
  {
    hide Lawful, ClaimedFor, Balance, Acceptable, Append, DividesEscrow, PostedId;
  }
}
