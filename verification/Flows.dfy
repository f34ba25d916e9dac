/** What each kind of journal does to any selection of accounts. */
module Flows {
  import opened Basics
  import opened Ledger
  import opened Records
  import opened Transactions

  lemma ReleaseFlow(escrow: Account, wallet: Account, amount: int, fee: int, pick: Account -> bool)
    ensures Flow(ReleasePostings(escrow, wallet, amount, fee), pick)
         == Part(wallet, amount - fee, pick) + Part(Commission(escrow.currency), fee, pick) - Part(escrow, amount, pick)
  {
    var first, second := Posting(escrow, Debit, amount), Posting(wallet, Credit, amount - fee);
    FlowOfOne(first, pick);
    FlowMore([first], second, pick);
    assert [first, second] == [first] + [second];
    if fee != 0 {
      FlowMore([first, second], Posting(Commission(escrow.currency), Credit, fee), pick);
    } else {
      assert ReleasePostings(escrow, wallet, amount, fee) == [first, second];
    }
  }

  function Credits(a: Account, amount: int): seq<Posting> {
    if amount != 0 then [Posting(a, Credit, amount)] else []
  }

  lemma FlowOfCredits(entries: seq<Posting>, a: Account, amount: int, pick: Account -> bool)
    ensures Flow(entries + Credits(a, amount), pick) == Flow(entries, pick) + Part(a, amount, pick)
  {
    if amount != 0 {
      FlowMore(entries, Posting(a, Credit, amount), pick);
    } else {
      assert entries + [] == entries;
    }
  }

  lemma ResolutionFlow(escrow: Account, wallet: Account, clearing: Account, d: Decision, pick: Account -> bool)
    ensures Flow(ResolutionPostings(escrow, wallet, clearing, d), pick)
         == Part(wallet, d.net, pick) + Part(Commission(escrow.currency), d.commission, pick)
            + Part(clearing, d.refund, pick) - Part(escrow, d.award + d.refund, pick)
  {
    var first := [Posting(escrow, Debit, d.award + d.refund)];
    FlowOfOne(first[0], pick);
    FlowOfCredits(first, wallet, d.net, pick);
    FlowOfCredits(first + Credits(wallet, d.net), Commission(escrow.currency), d.commission, pick);
    FlowOfCredits(first + Credits(wallet, d.net) + Credits(Commission(escrow.currency), d.commission), clearing,
                  d.refund, pick);
  }

  // ---- The accounts of each write ---------------------------------------------------------------

  function ClearingFor(provider: string, s: State, m: Id): Account
    requires m < |s.milestones|
  {
    Clearing(provider, s.milestones[m].currency)
  }

  function WalletFor(s: State, m: Id): Account
    requires m < |s.milestones| && s.milestones[m].contract < |s.contracts|
  {
    Wallet(s.contracts[s.milestones[m].contract].freelancer, s.milestones[m].currency)
  }

  function DisputedMilestone(s: State, w: Write): Id
    requires Addresses(s, w) && w.ResolveDispute?
  {
    s.disputes[w.id].milestone
  }

  /** Effect of a write's journal on the selected accounts, account by account. */
  function Effect(s: State, w: Write, pick: Account -> bool): int
    requires Addresses(s, w)
  {
    match w
    case CaptureIntent(_, _, i) =>
      var it := s.intents[i];
      Part(EscrowOf(s, it.milestone), it.amount, pick) - Part(Clearing(it.provider, it.currency), it.amount, pick)
    case ReleaseMilestone(m, _, _) =>
      var row := s.milestones[m];
      var fee := Fee(row.amount, row.commission.value);
      Part(WalletFor(s, m), row.amount - fee, pick)
          + Part(Commission(row.currency), fee, pick) - Part(EscrowOf(s, m), row.amount, pick)
    case ReserveRefund(m, _, provider, _, _) =>
      var amount := Balance(s.journal, EscrowOf(s, m));
      Part(ClearingFor(provider, s, m), amount, pick) - Part(EscrowOf(s, m), amount, pick)
    case ReverseRefund(r, _) =>
      var row := s.refunds[r];
      Part(EscrowOf(s, row.milestone), row.amount, pick) - Part(Clearing(row.provider, row.currency), row.amount, pick)
    case ReservePayout(p, _) =>
      Part(Clearing(p.provider, p.currency), p.amount, pick) - Part(Wallet(p.freelancer, p.currency), p.amount, pick)
    case ReversePayout(id) =>
      var p := s.payouts[id];
      Part(Wallet(p.freelancer, p.currency), p.amount, pick) - Part(Clearing(p.provider, p.currency), p.amount, pick)
    case ResolveDispute(_, d, provider, _, _, _) =>
      var m := DisputedMilestone(s, w);
      Part(WalletFor(s, m), d.net, pick) + Part(Commission(s.milestones[m].currency), d.commission, pick)
      + Part(ClearingFor(provider, s, m), d.refund, pick) - Part(EscrowOf(s, m), d.award + d.refund, pick)
    case _ => 0
  }

  lemma EntryFlow(s: State, w: Write, pick: Account -> bool)
    requires Addresses(s, w)
    ensures Effect(s, w, pick) == if Entry(s, w).Some? then Flow(Entry(s, w).value.entries, pick) else 0
  {
    match w {
      case CaptureIntent(_, _, i) =>
        var it := s.intents[i];
        FlowOfTransfer(Clearing(it.provider, it.currency), EscrowOf(s, it.milestone), it.amount, pick);
      case ReleaseMilestone(m, _, _) =>
        var row := s.milestones[m];
        ReleaseFlow(EscrowOf(s, m), WalletFor(s, m), row.amount, Fee(row.amount, row.commission.value), pick);
      case ReserveRefund(m, _, provider, _, _) =>
        FlowOfTransfer(EscrowOf(s, m), ClearingFor(provider, s, m), Balance(s.journal, EscrowOf(s, m)), pick);
      case ReverseRefund(r, _) =>
        var row := s.refunds[r];
        FlowOfTransfer(Clearing(row.provider, row.currency), EscrowOf(s, row.milestone), row.amount, pick);
      case ReservePayout(p, _) =>
        FlowOfTransfer(Wallet(p.freelancer, p.currency), Clearing(p.provider, p.currency), p.amount, pick);
      case ReversePayout(id) =>
        var p := s.payouts[id];
        FlowOfTransfer(Clearing(p.provider, p.currency), Wallet(p.freelancer, p.currency), p.amount, pick);
      case ResolveDispute(_, d, provider, _, _, _) =>
        var m := DisputedMilestone(s, w);
        ResolutionFlow(EscrowOf(s, m), WalletFor(s, m), ClearingFor(provider, s, m), d, pick);
      case _ =>
    }
  }
}
