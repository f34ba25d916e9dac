/** Adding up balances account by account. */
module Accounts {
  import opened Basics
  import opened Ledger
  import opened Solvency

  predicate Distinct(accounts: seq<Account>) {
    forall i, k :: 0 <= i < k < |accounts| ==> accounts[i] != accounts[k]
  }

  predicate Uses(entries: seq<Posting>, pick: Account -> bool, accounts: seq<Account>) {
    forall k :: 0 <= k < |entries| && pick(entries[k].account) ==> entries[k].account in accounts
  }

  /** The list contains every selected account that the journal ever used, and only selected ones. */
  predicate Covers(journal: seq<Journal>, pick: Account -> bool, accounts: seq<Account>) {
    && Distinct(accounts)
    && (forall i :: 0 <= i < |accounts| ==> pick(accounts[i]))
    && forall i :: 0 <= i < |journal| ==> Uses(journal[i].entries, pick, accounts)
  }

  function BalanceIn(journal: seq<Journal>): Account -> int {
    (a: Account) => Balance(journal, a)
  }

  function FlowIn(entries: seq<Posting>): Account -> int {
    (a: Account) => Flow(entries, Is(a))
  }

  function PostingIn(p: Posting): Account -> int {
    (a: Account) => Part(p.account, Signed(p), Is(a))
  }

  lemma {:induction false} OnePosting(accounts: seq<Account>, p: Posting)
    requires Distinct(accounts)
    ensures Sum(accounts, PostingIn(p)) == if p.account in accounts then Signed(p) else 0
  {
    if accounts != [] {
      var front, last := accounts[..|accounts| - 1], accounts[|accounts| - 1];
      assert accounts == front + [last];
      OnePosting(front, p);
    }
  }

  lemma {:induction false} EntriesOverAccounts(entries: seq<Posting>, pick: Account -> bool, accounts: seq<Account>)
    requires Distinct(accounts) && Uses(entries, pick, accounts)
    requires forall i :: 0 <= i < |accounts| ==> pick(accounts[i])
    ensures Sum(accounts, FlowIn(entries)) == Flow(entries, pick)
  {
    if entries == [] {
      SumZero(accounts, FlowIn(entries));
    } else {
      var front, p := entries[..|entries| - 1], entries[|entries| - 1];
      assert entries == front + [p];
      EntriesOverAccounts(front, pick, accounts);
      FlowMore(front, p, pick);
      forall i | 0 <= i < |accounts| ensures FlowIn(entries)(accounts[i])
          == FlowIn(front)(accounts[i]) + PostingIn(p)(accounts[i]) {
        FlowMore(front, p, Is(accounts[i]));
      }
      SumPlus(accounts, FlowIn(front), PostingIn(p), FlowIn(entries));
      OnePosting(accounts, p);
    }
  }

  /** The selected total is the sum of the balances of the selected accounts. */
  lemma {:induction false} BalancesAddUp(journal: seq<Journal>, pick: Account -> bool, accounts: seq<Account>)
    requires Covers(journal, pick, accounts)
    ensures Sum(accounts, BalanceIn(journal)) == Total(journal, pick)
  {
    if journal == [] {
      SumZero(accounts, BalanceIn(journal));
    } else {
      var front, j := journal[..|journal| - 1], journal[|journal| - 1];
      assert journal == front + [j];
      BalancesAddUp(front, pick, accounts);
      TotalAppend(front, j, pick);
      forall i | 0 <= i < |accounts|
        ensures BalanceIn(journal)(accounts[i]) == BalanceIn(front)(accounts[i]) + FlowIn(j.entries)(accounts[i])
      {
        TotalAppend(front, j, Is(accounts[i]));
      }
      SumPlus(accounts, BalanceIn(front), FlowIn(j.entries), BalanceIn(journal));
      EntriesOverAccounts(j.entries, pick, accounts);
    }
  }

  lemma {:induction false} Enumerate(accounts: set<Account>) returns (list: seq<Account>)
    ensures Distinct(list) && forall a :: a in list <==> a in accounts
  {
    if accounts == {} {
      list := [];
    } else {
      var a :| a in accounts;
      var rest := Enumerate(accounts - {a});
      list := rest + [a];
    }
  }

  lemma CoverExists(journal: seq<Journal>, pick: Account -> bool) returns (accounts: seq<Account>)
    ensures Covers(journal, pick, accounts)
  {
    var used := set i, k | 0 <= i < |journal| && 0 <= k < |journal[i].entries| && pick(journal[i].entries[k].account)
                  :: journal[i].entries[k].account;
    accounts := Enumerate(used);
    forall i | 0 <= i < |accounts| ensures pick(accounts[i]) {
      assert accounts[i] in used;
    }
  }

  // ---- Balanced books ---------------------------------------------------------------------------

  predicate AllBalanced(journal: seq<Journal>) {
    forall i :: 0 <= i < |journal| ==> Acceptable(journal[i].entries)
  }

  function OfCurrency(currency: string): Account -> bool {
    (a: Account) => a.currency == currency
  }

  function OwedIn(currency: string): Account -> bool {
    (a: Account) => !a.Clearing? && a.currency == currency
  }

  /** An accepted journal moves money between accounts of one currency and creates none. */
  lemma AcceptedIsNeutral(entries: seq<Posting>, currency: string)
    requires Acceptable(entries)
    ensures Flow(entries, OfCurrency(currency)) == 0
  {
    if entries[0].account.currency == currency {
      SumMatch(entries, SignedOn(OfCurrency(currency)), entries, Signed);
      AcceptedSumsToZero(entries);
    } else {
      SumZero(entries, SignedOn(OfCurrency(currency)));
    }
  }

  lemma BooksBalance(journal: seq<Journal>, currency: string)
    requires AllBalanced(journal)
    ensures Total(journal, OfCurrency(currency)) == 0
  {
    forall i | 0 <= i < |journal| ensures FlowOf(OfCurrency(currency))(journal[i]) == 0 {
      AcceptedIsNeutral(journal[i].entries, currency);
    }
    SumZero(journal, FlowOf(OfCurrency(currency)));
  }

  lemma SplitFlow(entries: seq<Posting>, currency: string)
    ensures Flow(entries, OfCurrency(currency)) == Flow(entries, ClearingIn(currency)) + Flow(entries, OwedIn(currency))
  {
    SumPlus(entries, SignedOn(ClearingIn(currency)), SignedOn(OwedIn(currency)), SignedOn(OfCurrency(currency)));
  }

  lemma SplitTotal(journal: seq<Journal>, currency: string)
    ensures Total(journal, OfCurrency(currency))
        == Total(journal, ClearingIn(currency)) + Total(journal, OwedIn(currency))
  {
    forall i | 0 <= i < |journal| ensures FlowOf(OfCurrency(currency))(journal[i])
      == FlowOf(ClearingIn(currency))(journal[i]) + FlowOf(OwedIn(currency))(journal[i])
    {
      SplitFlow(journal[i].entries, currency);
    }
    SumPlus(journal, FlowOf(ClearingIn(currency)), FlowOf(OwedIn(currency)), FlowOf(OfCurrency(currency)));
  }

  /** What the platform owes in a currency is never negative. */
  lemma OwedNonNegative(journal: seq<Journal>, currency: string)
    requires NonNegative(journal)
    ensures Total(journal, OwedIn(currency)) >= 0
  {
    var accounts := CoverExists(journal, OwedIn(currency));
    BalancesAddUp(journal, OwedIn(currency), accounts);
    SumNonNegative(accounts, BalanceIn(journal));
  }
}
