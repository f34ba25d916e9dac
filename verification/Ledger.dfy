/** The double-entry ledger: journals are only ever appended and balances are derived from them. */
module Ledger {
  import opened Basics

  /** A ledger account, identified by the parts of its unique account key. */
  datatype Account =
    | Clearing(provider: string, currency: string)
    | Escrow(milestone: Id, currency: string)
    | Wallet(owner: Id, currency: string)
    | Commission(currency: string)

  datatype Direction = Debit | Credit

  datatype Posting = Posting(account: Account, direction: Direction, amount: int)

  datatype Operation = MilestoneFund | MilestoneRelease | MilestoneRefund | DisputeResolution | PayoutOut | Reversal

  datatype Reference =
    | IntentRef(id: Id)
    | MilestoneRef(id: Id)
    | RefundRef(id: Id)
    | PayoutRef(id: Id)
    | DisputeRef(id: Id)

  /** The unique key of a journal: what was done, to which record. */
  datatype Key = Key(operation: Operation, reference: Reference)

  datatype Journal = Journal(key: Key, reversalOf: Option<Id>, entries: seq<Posting>)

  /** Credits count up, debits count down. */
  function Signed(p: Posting): int {
    if p.direction == Credit then p.amount else -p.amount
  }

  /** Signed amount of a posting if it is to one of the accounts that `pick` selects. */
  function SignedOn(pick: Account -> bool): Posting -> int {
    (p: Posting) => if pick(p.account) then Signed(p) else 0
  }

  /** Net effect of a list of postings on the selected accounts. */
  function Flow(entries: seq<Posting>, pick: Account -> bool): int {
    Sum(entries, SignedOn(pick))
  }

  function FlowOf(pick: Account -> bool): Journal -> int {
    (j: Journal) => Flow(j.entries, pick)
  }

  /** Total of the selected accounts over the whole journal. */
  function Total(journal: seq<Journal>, pick: Account -> bool): int {
    Sum(journal, FlowOf(pick))
  }

  function Is(a: Account): Account -> bool {
    (b: Account) => b == a
  }

  /** The balance of an account: a fold over the whole journal, never a stored number. */
  function Balance(journal: seq<Journal>, a: Account): int {
    Total(journal, Is(a))
  }

  function DebitOf(p: Posting): int {
    if p.direction == Debit then p.amount else 0
  }

  function CreditOf(p: Posting): int {
    if p.direction == Credit then p.amount else 0
  }

  predicate OneCurrency(entries: seq<Posting>) {
    forall i :: 0 <= i < |entries| ==> entries[i].account.currency == entries[0].account.currency
  }

  predicate AllPositive(entries: seq<Posting>) {
    forall i :: 0 <= i < |entries| ==> entries[i].amount > 0
  }

  /** What a journal must satisfy before it may be written. */
  predicate Acceptable(entries: seq<Posting>) {
    && entries != []
    && OneCurrency(entries)
    && AllPositive(entries)
    && Sum(entries, DebitOf) == Sum(entries, CreditOf)
  }

  predicate HasKey(j: Journal, key: Key) { j.key == key }

  function IndexOf(journal: seq<Journal>, key: Key): Option<Id> {
    LastWhere(journal, (j: Journal) => HasKey(j, key))
  }

  function Keys(journal: seq<Journal>): set<Key> {
    set i | 0 <= i < |journal| :: journal[i].key
  }

  /** Writing a journal: an existing journal with the same key is returned unchanged instead of a second one. */
  function Append(journal: seq<Journal>, entry: Journal): seq<Journal> {
    if IndexOf(journal, entry.key).Some? then journal else journal + [entry]
  }

  /** Identifier of the journal that writing under `key` yields. */
  function PostedId(journal: seq<Journal>, key: Key): Id {
    var existing := IndexOf(journal, key);
    if existing.Some? then existing.value else |journal|
  }

  datatype Posted = Rejected | Stored(journal: seq<Journal>, id: Id)

  /** post_journal: validates the postings in one pass, then returns the existing journal or appends a new one. */
  method PostJournal(journal: seq<Journal>, entry: Journal) returns (r: Posted)
    ensures r.Rejected? <==> !Acceptable(entry.entries)
    ensures r.Stored? ==> r.journal == Append(journal, entry) && r.id == PostedId(journal, entry.key)
    ensures r.Stored? ==> r.id < |r.journal| && r.journal[r.id].key == entry.key
    ensures r.Stored? && entry.key !in Keys(journal) ==> r.journal[r.id] == entry
  {
    var postings := entry.entries;
    if postings == [] {
      return Rejected;
    }
    var currency := postings[0].account.currency;
    var k := 0;
    while k < |postings|
      invariant 0 <= k <= |postings|
      invariant forall i :: 0 <= i < k ==> postings[i].account.currency == currency
    {
      if postings[k].account.currency != currency {
        return Rejected;
      }
      k := k + 1;
    }
    var debitTotal, creditTotal := 0, 0;
    k := 0;
    while k < |postings|
      invariant 0 <= k <= |postings|
      invariant AllPositive(postings[..k])
      invariant debitTotal == Sum(postings[..k], DebitOf)
      invariant creditTotal == Sum(postings[..k], CreditOf)
    {
      assert postings[..k + 1] == postings[..k] + [postings[k]];
      SumAppend(postings[..k], postings[k], DebitOf);
      SumAppend(postings[..k], postings[k], CreditOf);
      if postings[k].amount <= 0 {
        return Rejected;
      }
      if postings[k].direction == Debit {
        debitTotal := debitTotal + postings[k].amount;
      } else {
        creditTotal := creditTotal + postings[k].amount;
      }
      k := k + 1;
    }
    assert postings[..|postings|] == postings;
    if debitTotal != creditTotal {
      return Rejected;
    }
    var existing := IndexOf(journal, entry.key);
    if existing.Some? {
      return Stored(journal, existing.value);
    }
    return Stored(journal + [entry], |journal|);
  }

  /** account_balance_minor: the signed sum over every entry row of the account. */
  method AccountBalance(journal: seq<Journal>, a: Account) returns (balance: int)
    ensures balance == Balance(journal, a)
  {
    balance := 0;
    var i := 0;
    while i < |journal|
      invariant 0 <= i <= |journal|
      invariant balance == Balance(journal[..i], a)
    {
      var entries := journal[i].entries;
      var k := 0;
      while k < |entries|
        invariant 0 <= k <= |entries|
        invariant balance == Balance(journal[..i], a) + Flow(entries[..k], Is(a))
      {
        assert entries[..k + 1] == entries[..k] + [entries[k]];
        SumAppend(entries[..k], entries[k], SignedOn(Is(a)));
        if entries[k].account == a {
          balance := balance + Signed(entries[k]);
        }
        k := k + 1;
      }
      assert entries[..|entries|] == entries;
      assert journal[..i + 1] == journal[..i] + [journal[i]];
      SumAppend(journal[..i], journal[i], FlowOf(Is(a)));
      i := i + 1;
    }
    assert journal[..|journal|] == journal;
  }

  // ---- Facts about appending -------------------------------------------------------------------

  lemma TotalAppend(journal: seq<Journal>, entry: Journal, pick: Account -> bool)
    ensures Total(journal + [entry], pick) == Total(journal, pick) + Flow(entry.entries, pick)
  {
    SumAppend(journal, entry, FlowOf(pick));
  }

  /** What a posting contributes to the selected accounts. */
  function Part(a: Account, amount: int, pick: Account -> bool): int {
    if pick(a) then amount else 0
  }

  lemma FlowMore(entries: seq<Posting>, p: Posting, pick: Account -> bool)
    ensures Flow(entries + [p], pick) == Flow(entries, pick) + Part(p.account, Signed(p), pick)
  {
    SumAppend(entries, p, SignedOn(pick));
  }

  lemma FlowOfOne(p: Posting, pick: Account -> bool)
    ensures Flow([p], pick) == Part(p.account, Signed(p), pick)
  {
    assert [p] == [] + [p];
    FlowMore([], p, pick);
  }

  /** A transfer takes from one account what it gives to the other. */
  lemma FlowOfTransfer(from: Account, to: Account, amount: int, pick: Account -> bool)
    ensures Flow([Posting(from, Debit, amount), Posting(to, Credit, amount)], pick)
        == Part(to, amount, pick) - Part(from, amount, pick)
  {
    var p, q := Posting(from, Debit, amount), Posting(to, Credit, amount);
    assert [p, q] == [p] + [q];
    FlowOfOne(p, pick);
    FlowMore([p], q, pick);
  }

  lemma TwoPostings(p: Posting, q: Posting, f: Posting -> int)
    ensures Sum([p, q], f) == f(p) + f(q)
  {
    assert [p] == [] + [p] && [p, q] == [p] + [q];
    SumAppend([], p, f);
    SumAppend([p], q, f);
  }

  /** A transfer of a positive amount within one currency is an acceptable journal. */
  lemma TransferAcceptable(from: Account, to: Account, amount: int)
    requires amount > 0 && from.currency == to.currency
    ensures Acceptable([Posting(from, Debit, amount), Posting(to, Credit, amount)])
  {
    hide Sum;
    TwoPostings(Posting(from, Debit, amount), Posting(to, Credit, amount), DebitOf);
    TwoPostings(Posting(from, Debit, amount), Posting(to, Credit, amount), CreditOf);
  }

  lemma KeysAppend(journal: seq<Journal>, entry: Journal)
    ensures Keys(journal + [entry]) == Keys(journal) + {entry.key}
  {
    var longer := journal + [entry];
    forall k | k in Keys(journal) + {entry.key} ensures k in Keys(longer) {
      if k == entry.key {
        assert longer[|journal|].key == k;
      } else {
        var i :| 0 <= i < |journal| && journal[i].key == k;
        assert longer[i].key == k;
      }
    }
  }

  /** A journal whose key is new is really appended. */
  lemma FreshAppend(journal: seq<Journal>, entry: Journal)
    requires entry.key !in Keys(journal)
    ensures Append(journal, entry) == journal + [entry]
  {
  }

  /** An accepted journal moves money between accounts and creates none. */
  lemma {:induction false} AcceptedSumsToZero(entries: seq<Posting>)
    ensures Sum(entries, Signed) == Sum(entries, CreditOf) - Sum(entries, DebitOf)
  {
    if entries != [] {
      AcceptedSumsToZero(entries[..|entries| - 1]);
    }
  }
}
