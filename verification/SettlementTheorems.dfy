/** How settlements add up over a contract, and how a dispute compares with an ordinary release. */
module SettlementTheorems {
  import opened Basics
  import opened Ledger
  import opened Records
  import opened Transactions
  import opened Rows
  import opened Journaled
  import opened Flows
  import opened Solvency
  import opened Settlement
  import opened Contracts
  import opened Invariant
  import opened System
  import Disputes

  // ---- Adding up over a contract ----------------------------------------------------------------

  /**
   What the settlements of the first `n` milestones, counting those of contract `c`, brought to the selected
   accounts.
   */
  function Received(s: State, c: Id, n: nat, pick: Account -> bool): int
    requires n <= |s.milestones|
  {
    if n == 0 then 0
    else Received(s, c, n - 1, pick) + if s.milestones[n - 1].contract == c then Paid(s.journal, n - 1, pick) else 0
  }

  /** Number of milestones of contract `c` among the first `n`. */
  function Count(s: State, c: Id, n: nat): nat
    requires n <= |s.milestones|
  {
    if n == 0 then 0 else Count(s, c, n - 1) + if s.milestones[n - 1].contract == c then 1 else 0
  }

  predicate Undisputed(s: State, c: Id) {
    forall m :: 0 <= m < |s.milestones| && s.milestones[m].contract == c ==> !Decided(s.disputes, m)
  }

  function WalletOf(c: Contract): Account { Wallet(c.freelancer, c.document.currency) }

  /**
   The parts add up to the amount; the commission is at most the rate and, without disputes, short of
   it by less than one minor unit for each of `count` milestones.
   */
  predicate Adds(amount: int, net: int, commission: int, refund: int, bps: nat, count: nat, undisputed: bool) {
    && net + commission + refund == amount
    && 10000 * commission <= amount * bps
    && (undisputed ==> amount * bps <= 10000 * commission + 9999 * count && refund == 0)
  }

  lemma AddsMore(a: int, n: int, c: int, r: int, k: nat, a': int, n': int, c': int, r': int, bps: nat, undisputed: bool)
    requires Adds(a, n, c, r, bps, k, undisputed) && Adds(a', n', c', r', bps, 1, undisputed)
    ensures Adds(a + a', n + n', c + c', r + r', bps, k + 1, undisputed)
  {
    assert (a + a') * bps == a * bps + a' * bps;
  }

  lemma FeeFloor(amount: int, bps: nat)
    ensures 10000 * Fee(amount, bps) <= amount * bps <= 10000 * Fee(amount, bps) + 9999
  {
  }

  predicate MilestoneAdds(s: State, m: Id, bps: nat, wallet: Account, undisputed: bool)
    requires m < |s.milestones|
  {
    var currency := s.milestones[m].currency;
    Adds(s.milestones[m].amount, Paid(s.journal, m, Is(wallet)), Paid(s.journal, m, Is(Commission(currency))),
         Paid(s.journal, m, ClearingIn(currency)), bps, 1, undisputed)
  }

  lemma OneMilestone(s: State, m: Id)
    requires MilestonesOk(s.milestones, s.contracts) && SettlementsOk(s.journal, s.milestones, s.contracts, s.disputes)
    requires m < |s.milestones| && s.milestones[m].status == Released
    ensures var c := s.contracts[s.milestones[m].contract];
      MilestoneAdds(s, m, c.document.bps, WalletOf(c), !Decided(s.disputes, m))
          && s.milestones[m].currency == c.document.currency
  {
    var row := s.milestones[m];
    var bps := s.contracts[row.contract].document.bps;
    assert SettlementOk(s.journal, m, row, PayeeOf(row, s.contracts), s.disputes);
    if d :| 0 <= d < |s.disputes| && s.disputes[d].milestone == m && s.disputes[d].status == Resolved {
      assert SettledByDecision(s.journal, s.disputes[d], row, PayeeOf(row, s.contracts));
      FeeMonotone(s.disputes[d].decision.value.award, row.amount, bps);
    }
    FeeFloor(row.amount, bps);
  }

  predicate ContractAdds(s: State, c: Id, n: nat, undisputed: bool)
    requires c < |s.contracts| && n <= |s.milestones|
  {
    var contract := s.contracts[c];
    var currency := contract.document.currency;
    Adds(Sum(s.milestones[..n], AmountOf(c)), Received(s, c, n, Is(WalletOf(contract))),
         Received(s, c, n, Is(Commission(currency))),
         Received(s, c, n, ClearingIn(currency)), contract.document.bps, Count(s, c, n), undisputed)
  }

  lemma {:induction false} ContractAddsUp(s: State, c: Id, n: nat)
    requires MilestonesOk(s.milestones, s.contracts) && SettlementsOk(s.journal, s.milestones, s.contracts, s.disputes)
    requires c < |s.contracts| && n <= |s.milestones| && AllReleased(s, c)
    ensures ContractAdds(s, c, n, Undisputed(s, c))
  {
    if n > 0 {
      hide Adds, Received, Decided, SettlementsOk, MilestonesOk, MilestoneAdds;
      ContractAddsUp(s, c, n - 1);
      OneMoreRow(s, c, n);
      if s.milestones[n - 1].contract == c {
        OneMilestone(s, n - 1);
        OneMore(s, c, n);
      } else {
        NoMore(s, c, n, Undisputed(s, c));
      }
    }
  }

  lemma OneMoreRow(s: State, c: Id, n: nat)
    requires 0 < n <= |s.milestones|
    ensures Sum(s.milestones[..n], AmountOf(c))
         == Sum(s.milestones[..n - 1], AmountOf(c)) + if s.milestones[n - 1].contract == c then
             s.milestones[n - 1].amount else 0
  {
    var row := s.milestones[n - 1];
    assert s.milestones[..n] == s.milestones[..n - 1] + [row];
    SumAppend(s.milestones[..n - 1], row, AmountOf(c));
  }

  lemma NoMore(s: State, c: Id, n: nat, undisputed: bool)
    requires c < |s.contracts| && 0 < n <= |s.milestones| && s.milestones[n - 1].contract != c
    requires ContractAdds(s, c, n - 1, undisputed)
    requires Sum(s.milestones[..n], AmountOf(c)) == Sum(s.milestones[..n - 1], AmountOf(c))
    ensures ContractAdds(s, c, n, undisputed)
  {
  }

  lemma OneMore(s: State, c: Id, n: nat)
    requires c < |s.contracts| && 0 < n <= |s.milestones| && s.milestones[n - 1].contract == c
    requires s.milestones[n - 1].currency == s.contracts[c].document.currency
    requires ContractAdds(s, c, n - 1, Undisputed(s, c))
    requires MilestoneAdds(s, n - 1, s.contracts[c].document.bps, WalletOf(s.contracts[c]), !Decided(s.disputes, n - 1))
    requires Sum(s.milestones[..n], AmountOf(c)) == Sum(s.milestones[..n - 1], AmountOf(c)) + s.milestones[n - 1].amount
    ensures ContractAdds(s, c, n, Undisputed(s, c))
  {
    var contract, journal, m := s.contracts[c], s.journal, n - 1;
    var wallet, platform, client := Is(WalletOf(contract)), Is(Commission(contract.document.currency)),
        ClearingIn(contract.document.currency);
    AddsMore(Sum(s.milestones[..m], AmountOf(c)), Received(s, c, m, wallet), Received(s, c, m, platform),
             Received(s, c, m, client),
             Count(s, c, m), s.milestones[m].amount, Paid(journal, m, wallet), Paid(journal, m, platform),
                 Paid(journal, m, client),
             contract.document.bps, Undisputed(s, c));
  }

  /** How the price of a contract was divided, over all its milestones. */
  predicate DividesPrice(s: State, c: Id)
    requires c < |s.contracts|
  {
    var contract := s.contracts[c];
    var currency, bps, n := contract.document.currency, contract.document.bps, |s.milestones|;
    var net := Received(s, c, n, Is(WalletOf(contract)));
    var commission := Received(s, c, n, Is(Commission(currency)));
    var refund := Received(s, c, n, ClearingIn(currency));
    && net + commission + refund == contract.document.price
    && 10000 * commission <= contract.document.price * bps
    && (Undisputed(s, c) ==> contract.document.price * bps < 10000 * commission + 10000 * Count(s, c, n) && refund == 0)
  }

  lemma FinishedDividesPrice(s: State, c: Id)
    requires RowsOk(s) && SettlementsOk(s.journal, s.milestones, s.contracts, s.disputes) && ContractsOk(s)
    requires c < |s.contracts| && AllReleased(s, c)
    ensures DividesPrice(s, c)
  {
    var n := |s.milestones|;
    ContractAddsUp(s, c, n);
    assert s.milestones[..n] == s.milestones;
    assert HasMilestone(s.milestones, c);
    CountPositive(s, c, n);
  }

  lemma {:induction false} CountPositive(s: State, c: Id, n: nat)
    requires n <= |s.milestones| && exists m :: 0 <= m < n && s.milestones[m].contract == c
    ensures Count(s, c, n) > 0
  {
    if s.milestones[n - 1].contract != c {
      CountPositive(s, c, n - 1);
    }
  }

  predicate ClosedWith(s: State, p: Id, c: Id) {
    c < |s.contracts| && s.contracts[c].project == p && s.contracts[c].status == Active && AllReleased(s, c)
  }

  /**
   In every reachable database a closed project has exactly one contract, all of its milestones are released, and what
   the freelancer, the platform and the client received from them adds up to the signed price exactly;
   the commission never exceeds the rate and without disputes falls short by less than one minor unit
   per milestone.
   */
  lemma ClosedProjectAddsUp(s: State, p: Id)
    requires Reached(s) && p < |s.projects| && s.projects[p].status == ProjectClosed
    ensures exists c :: ClosedWith(s, p, c)
    ensures forall c :: 0 <= c < |s.contracts| && s.contracts[c].project == p ==>
        ClosedWith(s, p, c) && DividesPrice(s, c)
  {
    hide Run, ClosedWith, DividesPrice, ContractsOk, SettlementsOk;
    ReachedInv(s);
    ClosedStateAddsUp(s, p);
  }

  lemma ClosedStateAddsUp(s: State, p: Id)
    requires RowsOk(s) && SettlementsOk(s.journal, s.milestones, s.contracts, s.disputes) && ContractsOk(s)
    requires p < |s.projects| && s.projects[p].status == ProjectClosed
    ensures exists c :: ClosedWith(s, p, c)
    ensures forall c :: 0 <= c < |s.contracts| && s.contracts[c].project == p ==>
        ClosedWith(s, p, c) && DividesPrice(s, c)
  {
    var c :| 0 <= c < |s.contracts| && s.contracts[c].project == p && s.contracts[c].status == Active
        && Finished(s.milestones, c);
    assert ClosedWith(s, p, c);
    FinishedDividesPrice(s, c);
  }

  // ---- Dispute and release ----------------------------------------------------------------------

  predicate ThreeAccounts(escrow: Account, wallet: Account, clearing: Account) {
    escrow.currency == wallet.currency == clearing.currency
  }

  /** Below a full commission, awarding everything to the freelancer posts exactly what an ordinary release posts. */
  lemma FullAwardIsRelease(escrow: Account, wallet: Account, clearing: Account, amount: int, bps: nat, journal: Id)
    requires amount > 0 && bps < 10000
    ensures ResolutionPostings(escrow, wallet, clearing, Disputes.Decide(ReleaseToFreelancer, amount, 0, bps, journal))
         == ReleasePostings(escrow, wallet, amount, Fee(amount, bps))
  {
    assert amount * bps < amount * 10000;
    assert amount * bps / 10000 < amount;
  }

  lemma ReleaseSums(escrow: Account, wallet: Account, amount: int, fee: int)
    ensures Sum(ReleasePostings(escrow, wallet, amount, fee), DebitOf) == amount
    ensures Sum(ReleasePostings(escrow, wallet, amount, fee), CreditOf) == amount
  {
    var p, q := Posting(escrow, Debit, amount), Posting(wallet, Credit, amount - fee);
    hide Sum;
    TwoPostings(p, q, DebitOf);
    TwoPostings(p, q, CreditOf);
    if fee != 0 {
      SumAppend([p, q], Posting(Commission(escrow.currency), Credit, fee), DebitOf);
      SumAppend([p, q], Posting(Commission(escrow.currency), Credit, fee), CreditOf);
    } else {
      assert ReleasePostings(escrow, wallet, amount, fee) == [p, q];
    }
  }

  /** The ledger accepts the ordinary release journal if and only if the commission rate is below 100 percent. */
  lemma ReleaseAcceptableIff(escrow: Account, wallet: Account, amount: int, bps: nat)
    requires amount > 0 && bps <= 10000 && escrow.currency == wallet.currency
    ensures Acceptable(ReleasePostings(escrow, wallet, amount, Fee(amount, bps))) <==> bps < 10000
  {
    var fee := Fee(amount, bps);
    FeeBounds(amount, bps);
    ReleaseSums(escrow, wallet, amount, fee);
    if bps < 10000 {
      assert amount * bps < amount * 10000;
    } else {
      assert ReleasePostings(escrow, wallet, amount, fee)[1].amount == 0;
    }
  }

  lemma CreditSums(entries: seq<Posting>, a: Account, amount: int)
    ensures Sum(entries + Credits(a, amount), DebitOf) == Sum(entries, DebitOf)
    ensures Sum(entries + Credits(a, amount), CreditOf) == Sum(entries, CreditOf) + amount
  {
    if amount != 0 {
      SumAppend(entries, Posting(a, Credit, amount), DebitOf);
      SumAppend(entries, Posting(a, Credit, amount), CreditOf);
    } else {
      assert entries + [] == entries;
    }
  }

  lemma ResolutionSums(escrow: Account, wallet: Account, clearing: Account, d: Decision)
    ensures Sum(ResolutionPostings(escrow, wallet, clearing, d), DebitOf) == d.award + d.refund
    ensures Sum(ResolutionPostings(escrow, wallet, clearing, d), CreditOf) == d.net + d.commission + d.refund
  {
    var first := [Posting(escrow, Debit, d.award + d.refund)];
    assert first == [] + first;
    SumAppend([], first[0], DebitOf);
    SumAppend([], first[0], CreditOf);
    CreditSums(first, wallet, d.net);
    var second := first + Credits(wallet, d.net);
    CreditSums(second, Commission(escrow.currency), d.commission);
    var third := second + Credits(Commission(escrow.currency), d.commission);
    CreditSums(third, clearing, d.refund);
    assert ResolutionPostings(escrow, wallet, clearing, d) == third + Credits(clearing, d.refund);
  }

  predicate SoundPosting(p: Posting, currency: string) { p.account.currency == currency && p.amount > 0 }

  lemma ResolutionSound(escrow: Account, wallet: Account, clearing: Account, d: Decision)
    requires ThreeAccounts(escrow, wallet, clearing) && d.award + d.refund > 0 && d.net >= 0 && d.commission >= 0
    requires d.refund >= 0
    ensures forall p :: p in ResolutionPostings(escrow, wallet, clearing, d) ==> SoundPosting(p, escrow.currency)
  {
  }

  /** Every verdict that divides the escrow, at any commission rate, yields a journal the ledger accepts. */
  lemma ResolutionAcceptable(escrow: Account, wallet: Account, clearing: Account, d: Decision, amount: int, bps: nat)
    requires ThreeAccounts(escrow, wallet, clearing) && amount > 0 && bps <= 10000 && DividesEscrow(d, amount, bps)
    ensures Acceptable(ResolutionPostings(escrow, wallet, clearing, d))
  {
    FeeBounds(d.award, bps);
    ResolutionSums(escrow, wallet, clearing, d);
    ResolutionSound(escrow, wallet, clearing, d);
    assert ResolutionPostings(escrow, wallet, clearing, d)[0].account == escrow;
    hide ResolutionPostings, Sum;
    forall i | 0 <= i < |ResolutionPostings(escrow, wallet, clearing, d)|
      ensures SoundPosting(ResolutionPostings(escrow, wallet, clearing, d)[i], escrow.currency)
    {
      assert ResolutionPostings(escrow, wallet, clearing, d)[i] in ResolutionPostings(escrow, wallet, clearing, d);
    }
  }

  /** A split charges no more commission than a full release of the same escrow. */
  lemma SplitCommission(amount: int, award: int, refund: int, bps: nat, journal: Id)
    requires Disputes.Amounts(Split, amount, Some(award), Some(refund)).Some?
    ensures Disputes.Decide(Split, award, refund, bps, journal).commission
         <= Disputes.Decide(ReleaseToFreelancer, amount, 0, bps, journal).commission
  {
    FeeMonotone(award, amount, bps);
  }
}
