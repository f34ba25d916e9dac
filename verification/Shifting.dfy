/** What a step moves between accounts: the change of every single balance. */
module Shifting {
  import opened Basics
  import opened Ledger
  import opened Records
  import opened Transactions
  import opened Idempotency
  import opened Journaled
  import opened Flows
  import opened Solvency

  function Delta(deltas: map<Account, int>, a: Account): int { if a in deltas then deltas[a] else 0 }

  /** The named accounts change by the named amounts, and every other account keeps its balance. */
  ghost predicate Shifts(before: seq<Journal>, after: seq<Journal>, deltas: map<Account, int>) {
    forall a: Account :: Balance(after, a) == Balance(before, a) + Delta(deltas, a)
  }

  lemma Shifted(s: State, w: Write, deltas: map<Account, int>)
    requires Guarded(s, w) && JournalExact(s)
    requires forall a: Account :: Effect(s, w, Is(a)) == Delta(deltas, a)
    ensures Shifts(s.journal, JournalAfter(s, w), deltas)
  {
    assert Addresses(s, w);
    hide Guarded, JournalExact, Effect, Delta, Total, JournalAfter;
    forall a: Account ensures Balance(JournalAfter(s, w), a) == Balance(s.journal, a) + Delta(deltas, a) {
      TotalAfter(s, w, Is(a));
    }
  }

  /** A journal that is not due yet gets the next number. */
  lemma NewPosted(s: State, key: Key)
    requires JournalExact(s) && !DueIn(s, key)
    ensures PostedId(s.journal, key) == |s.journal|
  {
  }

  /** The user is the employer of the milestone's active contract. */
  predicate Pays(s: State, user: Id, m: Id) {
    ActiveMilestone(s, m) && user == s.contracts[s.milestones[m].contract].employer
  }

  /** The key is valid, and new or recorded for the same request without an answer. */
  predicate Open(s: State, key: IdemKey, request: Request) {
    ValidKey(key) && (key in s.idem ==> s.idem[key] == IdemRecord(request, None))
  }

  /** The answer stored under the key for the same request. */
  function AnswerOf(s: State, key: IdemKey, request: Request): Option<Response> {
    if ValidKey(key) && key in s.idem && s.idem[key].request == request then s.idem[key].response else None
  }

  /** The outcome changes nothing, and is the stored answer if the gate is open and there is one. */
  predicate Repeats(o: Outcome, gate: bool, stored: Option<Response>) {
    && o.write == Nothing
    && (o.reply.Done? <==> gate && stored.Some?)
    && (o.reply.Done? ==> o.reply.response == stored.value)
  }

  /** What claiming a key comes to. */
  lemma ClaimIs(s: State, key: IdemKey, request: Request)
    ensures ClaimKey(s.idem, key, request).Proceed? <==> Open(s, key, request)
    ensures ClaimKey(s.idem, key, request).Replay? <==> AnswerOf(s, key, request).Some?
    ensures ClaimKey(s.idem, key, request).Replay? ==>
              ClaimKey(s.idem, key, request).response == AnswerOf(s, key, request).value
  {
  }
}
