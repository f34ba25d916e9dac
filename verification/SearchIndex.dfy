/**
 The search index as a cache of freelancer profiles: every change to a profile enqueues a refresh event,
 and any number of drainers, each one transaction, write versioned documents and mark events published.
 */
module SearchIndex {
  import opened Basics

  /** `own` is the profile row; `others` is what the document takes from reviews, projects and portfolios. */
  datatype Profile = Profile(version: nat, own: string, others: string)

  /** What build_freelancer_document makes of a profile: its parts, stamped with its version. */
  type Doc = Profile

  datatype Event = Event(user: Id, version: nat, published: bool)

  /** How far a drainer is with the event at hand: the profile row is read before the rest. */
  datatype Reading = Idle | HasProfile(version: nat, own: string) | HasDocument(doc: Doc)

  /** A running drain transaction: its locked events and how many of them are done. */
  datatype Drainer = Drainer(batch: seq<Id>, done: nat, reading: Reading)

  datatype State = State(source: map<Id, Profile>, events: seq<Event>, index: map<Id, Doc>, drainers: map<Id, Drainer>)

  const Empty: State := State(map[], [], map[], map[])

  datatype Step =
    | Change(user: Id, own: string, others: string)
    | Select(drainer: Id, limit: nat)
    | ReadProfile(drainer: Id)
    | ReadRest(drainer: Id)
    | WriteDocument(drainer: Id)
    | Finish(drainer: Id)
    | Crash(drainer: Id)

  // ---- Steps ------------------------------------------------------------------------------------

  /** A committed change of anything a document shows: the version moves on and a refresh event is enqueued. */
  function Changed(s: State, user: Id, own: string, others: string): State {
    var version := if user in s.source then s.source[user].version + 1 else 2;
    s.(source := s.source[user := Profile(version, own, others)], events := s.events + [Event(user, version, false)])
  }

  predicate Locked(s: State, e: Id) {
    exists d :: d in s.drainers && e in s.drainers[d].batch
  }

  /** The first `limit` unpublished events that no other drainer has locked, in order of creation. */
  function Available(s: State, n: nat, limit: nat): (batch: seq<Id>)
    requires n <= |s.events|
  {
    if n == 0 then []
    else
      var before := Available(s, n - 1, limit);
      if |before| < limit && !s.events[n - 1].published && !Locked(s, n - 1) then before + [n - 1] else before
  }

  function Publish(events: seq<Event>, batch: seq<Id>): seq<Event> {
    seq(|events|, i requires 0 <= i < |events| => if i in batch then events[i].(published := true) else events[i])
  }

  /** The version check of an external_gte write. */
  predicate Accepts(index: map<Id, Doc>, user: Id, doc: Doc) {
    user in index ==> index[user].version <= doc.version
  }

  /** The user of the event a drainer is working on. */
  predicate Working(s: State, d: Id) {
    && d in s.drainers && s.drainers[d].done < |s.drainers[d].batch|
    && s.drainers[d].batch[s.drainers[d].done] < |s.events|
  }

  function UserOf(s: State, d: Id): Id
    requires Working(s, d)
  {
    s.events[s.drainers[d].batch[s.drainers[d].done]].user
  }

  function With(s: State, d: Id, x: Drainer): State { s.(drainers := s.drainers[d := x]) }

  function Without(s: State, d: Id): State { s.(drainers := s.drainers - {d}) }

  function Apply(s: State, step: Step): State {
    match step
    case Change(user, own, others) => Changed(s, user, own, others)
    case Select(d, limit) => if d in s.drainers then s
        else With(s, d, Drainer(Available(s, |s.events|, limit), 0, Idle))
    case ReadProfile(d) =>
      if !Working(s, d) || !s.drainers[d].reading.Idle? then s
      else
        var x := s.drainers[d];
        var user := UserOf(s, d);
        if user !in s.source then With(s, d, x.(done := x.done + 1))
        else With(s, d, x.(reading := HasProfile(s.source[user].version, s.source[user].own)))
    case ReadRest(d) =>
      if !Working(s, d) || !s.drainers[d].reading.HasProfile? || UserOf(s, d) !in s.source then s
      else
        var x := s.drainers[d];
        With(s, d, x.(reading := HasDocument(Profile(x.reading.version, x.reading.own, s.source[UserOf(s, d)].others))))
    case WriteDocument(d) =>
      if !Working(s, d) || !s.drainers[d].reading.HasDocument? then s
      else
        var x := s.drainers[d];
        var user := UserOf(s, d);
        // A refused write raises, and the transaction with all its locks is gone.
        if !Accepts(s.index, user, x.reading.doc) then Without(s, d)
        else With(s, d, x.(done := x.done + 1, reading := Idle)).(index := s.index[user := x.reading.doc])
    case Finish(d) =>
      if d !in s.drainers || s.drainers[d].done < |s.drainers[d].batch| then s
      else Without(s, d).(events := Publish(s.events, s.drainers[d].batch))
    case Crash(d) => Without(s, d)
  }

  function Run(s: State, steps: seq<Step>): State {
    if steps == [] then s else Apply(Run(s, steps[..|steps| - 1]), steps[|steps| - 1])
  }

  // ---- Invariant --------------------------------------------------------------------------------

  /** A document is no newer than its source, and one of the same version shows the same profile row. */
  predicate NoNewer(source: map<Id, Profile>, user: Id, version: nat, own: string) {
    user in source && version <= source[user].version && (version == source[user].version ==> own == source[user].own)
  }

  /** A document is no newer than its source, and one of the same version is the source itself. */
  predicate DocumentOk(source: map<Id, Profile>, user: Id, doc: Doc) {
    user in source && doc.version <= source[user].version
        && (doc.version == source[user].version ==> doc == source[user])
  }

  predicate EventOk(source: map<Id, Profile>, e: Event) {
    e.user in source && e.version <= source[e.user].version
  }

  /** The index is at least as new as the event. */
  predicate Reflected(index: map<Id, Doc>, e: Event) {
    e.user in index && index[e.user].version >= e.version
  }

  predicate Announced(events: seq<Event>, user: Id, version: nat) {
    exists i :: 0 <= i < |events| && events[i].user == user && events[i].version == version
  }

  predicate ReadingOk(source: map<Id, Profile>, e: Event, reading: Reading) {
    match reading
    case Idle => true
    case HasProfile(version, own) => version >= e.version && NoNewer(source, e.user, version, own)
    case HasDocument(doc) => doc.version >= e.version && DocumentOk(source, e.user, doc)
  }

  predicate DrainerOk(source: map<Id, Profile>, events: seq<Event>, index: map<Id, Doc>, x: Drainer) {
    && x.done <= |x.batch|
    && (forall k :: 0 <= k < |x.batch| ==> x.batch[k] < |events|)
    && (forall k :: 0 <= k < x.done ==> Reflected(index, events[x.batch[k]]))
    && (x.done < |x.batch| ==> ReadingOk(source, events[x.batch[x.done]], x.reading))
    && (x.done == |x.batch| ==> x.reading == Idle)
  }

  predicate SourceOk(source: map<Id, Profile>, events: seq<Event>) {
    forall u :: u in source ==> Announced(events, u, source[u].version)
  }

  predicate EventsOk(source: map<Id, Profile>, events: seq<Event>, index: map<Id, Doc>) {
    forall i :: 0 <= i < |events| ==>
      EventOk(source, events[i]) && (events[i].published ==> Reflected(index, events[i]))
  }

  predicate IndexOk(source: map<Id, Profile>, index: map<Id, Doc>) {
    forall u :: u in index ==> DocumentOk(source, u, index[u])
  }

  predicate Inv(s: State) {
    && SourceOk(s.source, s.events)
    && EventsOk(s.source, s.events, s.index)
    && IndexOk(s.source, s.index)
    && forall d :: d in s.drainers ==> DrainerOk(s.source, s.events, s.index, s.drainers[d])
  }

  lemma AnnouncedMore(events: seq<Event>, e: Event, user: Id, version: nat)
    requires Announced(events, user, version) || (e.user == user && e.version == version)
    ensures Announced(events + [e], user, version)
  {
    var more := events + [e];
    assert more[|events|] == e;
    if Announced(events, user, version) {
      var i :| 0 <= i < |events| && events[i].user == user && events[i].version == version;
      assert more[i] == events[i];
    }
  }

  /** A change leaves every drainer's promise intact: what it has read is now merely older. */
  lemma ChangeKeepsDrainer(s: State, user: Id, own: string, others: string, x: Drainer)
    requires DrainerOk(s.source, s.events, s.index, x)
    requires EventsOk(s.source, s.events, s.index)
    ensures var t := Changed(s, user, own, others); DrainerOk(t.source, t.events, t.index, x)
  {
  }

  lemma ChangeKeeps(s: State, user: Id, own: string, others: string)
    requires Inv(s)
    ensures Inv(Changed(s, user, own, others))
  {
    var t := Changed(s, user, own, others);
    forall u | u in t.source ensures Announced(t.events, u, t.source[u].version) {
      AnnouncedMore(s.events, t.events[|s.events|], u, t.source[u].version);
    }
    forall d | d in t.drainers ensures DrainerOk(t.source, t.events, t.index, t.drainers[d]) {
      ChangeKeepsDrainer(s, user, own, others, s.drainers[d]);
    }
  }

  lemma {:induction false} AvailableInRange(s: State, n: nat, limit: nat)
    requires n <= |s.events|
    ensures forall k :: 0 <= k < |Available(s, n, limit)| ==> Available(s, n, limit)[k] < n
  {
    if n > 0 {
      AvailableInRange(s, n - 1, limit);
    }
  }

  /** Writing a document keeps every other drainer's promise, because the version in the index never decreases. */
  lemma WriteKeepsDrainer(s: State, user: Id, doc: Doc, x: Drainer)
    requires DrainerOk(s.source, s.events, s.index, x) && Accepts(s.index, user, doc)
    ensures DrainerOk(s.source, s.events, s.index[user := doc], x)
  {
  }

  lemma WriteKeeps(s: State, d: Id)
    requires Inv(s) && Working(s, d) && s.drainers[d].reading.HasDocument?
    ensures Inv(Apply(s, WriteDocument(d)))
  {
    var x, user := s.drainers[d], UserOf(s, d);
    if Accepts(s.index, user, x.reading.doc) {
      var t := Apply(s, WriteDocument(d));
      forall k | k in t.drainers ensures DrainerOk(t.source, t.events, t.index, t.drainers[k]) {
        WriteKeepsDrainer(s, user, x.reading.doc, s.drainers[k]);
      }
    }
  }

  lemma PublishedSame(events: seq<Event>, batch: seq<Id>, user: Id, version: nat)
    requires Announced(events, user, version)
    ensures Announced(Publish(events, batch), user, version)
  {
    var i :| 0 <= i < |events| && events[i].user == user && events[i].version == version;
    assert Publish(events, batch)[i].user == user;
  }

  lemma FinishKeeps(s: State, d: Id)
    requires Inv(s) && d in s.drainers && s.drainers[d].done == |s.drainers[d].batch|
    ensures Inv(Apply(s, Finish(d)))
  {
    var t := Apply(s, Finish(d));
    forall u | u in t.source ensures Announced(t.events, u, t.source[u].version) {
      PublishedSame(s.events, s.drainers[d].batch, u, t.source[u].version);
    }
    forall k | k in t.drainers ensures DrainerOk(t.source, t.events, t.index, t.drainers[k]) {
      assert DrainerOk(s.source, s.events, s.index, s.drainers[k]);
    }
  }

  lemma ReadKeeps(s: State, d: Id)
    requires Inv(s)
    ensures Inv(Apply(s, ReadProfile(d))) && Inv(Apply(s, ReadRest(d)))
  {
  }

  lemma StepKeeps(s: State, step: Step)
    requires Inv(s)
    ensures Inv(Apply(s, step))
  {
    match step {
      case Change(user, own, others) => ChangeKeeps(s, user, own, others);
      case Select(d, limit) => AvailableInRange(s, |s.events|, limit);
      case ReadProfile(d) => ReadKeeps(s, d);
      case ReadRest(d) => ReadKeeps(s, d);
      case WriteDocument(d) =>
        if Working(s, d) && s.drainers[d].reading.HasDocument? {
          WriteKeeps(s, d);
        }
      case Finish(d) =>
        if d in s.drainers && s.drainers[d].done == |s.drainers[d].batch| {
          FinishKeeps(s, d);
        }
      case Crash(_) =>
    }
  }

  lemma {:induction false} RunKeeps(s: State, steps: seq<Step>)
    requires Inv(s)
    ensures Inv(Run(s, steps))
  {
    hide Inv, Apply;
    if steps != [] {
      RunKeeps(s, steps[..|steps| - 1]);
      StepKeeps(Run(s, steps[..|steps| - 1]), steps[|steps| - 1]);
    }
  }

  // ---- Main results -----------------------------------------------------------------------------

  predicate Awaiting(events: seq<Event>, user: Id) {
    exists i :: 0 <= i < |events| && events[i].user == user && !events[i].published
  }

  /** The index shows the profile as it is, or a refresh of it is still to come. */
  predicate Coherent(s: State) {
    forall u :: u in s.source ==> (u in s.index && s.index[u] == s.source[u]) || Awaiting(s.events, u)
  }

  lemma InvCoherent(s: State)
    requires Inv(s)
    ensures Coherent(s)
  {
    forall u | u in s.source && !Awaiting(s.events, u) ensures u in s.index && s.index[u] == s.source[u] {
      assert Announced(s.events, u, s.source[u].version);
      var i :| 0 <= i < |s.events| && s.events[i].user == u && s.events[i].version == s.source[u].version;
      assert s.events[i].published && Reflected(s.index, s.events[i]);
    }
  }

  lemma EmptyInv()
    ensures Inv(Empty)
  {
  }

  /**
   After any interleaving of changes and drainers, crashes included, every profile is current in the index or
   awaits a refresh.
   */
  lemma AlwaysCoherent(steps: seq<Step>)
    ensures Coherent(Run(Empty, steps))
  {
    hide Inv, Coherent, Apply;
    EmptyInv();
    RunKeeps(Empty, steps);
    InvCoherent(Run(Empty, steps));
  }

  predicate NoOlder(before: map<Id, Doc>, after: map<Id, Doc>) {
    forall u :: u in before ==> u in after && after[u].version >= before[u].version
  }

  /** The version of an indexed document never decreases, whatever the drainers do. */
  lemma {:induction false} VersionsGrow(s: State, steps: seq<Step>)
    ensures NoOlder(s.index, Run(s, steps).index)
  {
    if steps != [] {
      VersionsGrow(s, steps[..|steps| - 1]);
      OneStepGrows(Run(s, steps[..|steps| - 1]), steps[|steps| - 1]);
      hide Apply;
    }
  }

  lemma OneStepGrows(s: State, step: Step)
    ensures NoOlder(s.index, Apply(s, step).index)
  {
  }

  // ---- One drainer at a time --------------------------------------------------------------------

  predicate Idling(events: seq<Event>) {
    forall i :: 0 <= i < |events| ==> events[i].published
  }

  predicate UpToDate(source: map<Id, Profile>, index: map<Id, Doc>) {
    forall u :: u in source ==> u in index && index[u] == source[u]
  }

  /** An empty outbox means that the whole index equals the source. */
  lemma IdleMeansUpToDate(s: State)
    requires Inv(s) && Idling(s.events)
    ensures UpToDate(s.source, s.index)
  {
    InvCoherent(s);
  }

  /** Whenever the outbox has been drained, after whatever interleaving, the whole index equals the source. */
  lemma DrainedIsCurrent(steps: seq<Step>)
    requires Idling(Run(Empty, steps).events)
    ensures UpToDate(Run(Empty, steps).source, Run(Empty, steps).index)
  {
    hide Inv, UpToDate, Idling, Apply;
    EmptyInv();
    RunKeeps(Empty, steps);
    IdleMeansUpToDate(Run(Empty, steps));
  }

  function Waiting(events: seq<Event>): nat {
    if events == [] then 0 else Waiting(events[..|events| - 1]) + if events[|events| - 1].published then 0 else 1
  }

  lemma {:induction false} NoneWaiting(events: seq<Event>)
    ensures Waiting(events) == 0 <==> Idling(events)
  {
    if events != [] {
      var front := events[..|events| - 1];
      NoneWaiting(front);
      assert forall i :: 0 <= i < |front| ==> front[i] == events[i];
    }
  }

  lemma {:induction false} PublishOne(events: seq<Event>, i: Id)
    requires i < |events| && !events[i].published
    ensures Waiting(events[i := events[i].(published := true)]) == Waiting(events) - 1
  {
    var last := |events| - 1;
    if i == last {
      assert events[i := events[i].(published := true)][..last] == events[..last];
    } else {
      assert events[i := events[i].(published := true)][..last] == events[..last][i := events[i].(published := true)];
      PublishOne(events[..last], i);
    }
  }

  class Projection {
    var source: map<Id, Profile>
    var events: seq<Event>
    var index: map<Id, Doc>

    function Now(): State
      reads this
    {
      State(source, events, index, map[])
    }

    ghost predicate Valid()
      reads this
    {
      Inv(Now())
    }

    constructor ()
      ensures Valid() && Now() == Empty
    {
      source, events, index := map[], [], map[];
    }

    /** A change to a profile or to anything its document shows, with touch_search_projection. */
    method Change(user: Id, own: string, others: string)
      requires Valid()
      modifies `source, `events
      ensures Valid() && Now() == Changed(old(Now()), user, own, others)
    {
      ChangeKeeps(Now(), user, own, others);
      var profile := Profile(1, own, others);
      if user in source {
        profile := Profile(source[user].version, own, others);
      }
      profile := profile.(version := profile.version + 1);
      source := source[user := profile];
      events := events + [Event(user, profile.version, false)];
    }

    /** index_freelancer: a versioned write of the current document. */
    method IndexFreelancer(user: Id) returns (accepted: bool)
      requires user in source && Valid()
      modifies `index
      ensures Valid() && accepted && index == old(index)[user := source[user]]
    {
      var document := source[user];
      accepted := user !in index || index[user].version <= document.version;
      if accepted {
        index := index[user := document];
      }
    }

    /** One round of the loop: indexes the profile of an event and marks the event published. */
    method Refresh(i: Id)
      requires Valid() && i < |events|
      modifies `events, `index
      ensures Valid() && NoOlder(old(index), index) && events == old(events)[i := old(events)[i].(published := true)]
      ensures var u := events[i].user; index == if u in source then old(index)[u := source[u]] else old(index)
    {
      if events[i].user in source {
        var accepted := IndexFreelancer(events[i].user);
      }
      PublishKeeps(Now(), i);
      events := events[i := events[i].(published := true)];
    }

    /**
     drain_search_outbox on an outbox that nothing else touches: refreshes and publishes the events before which
     fewer than `limit` are waiting, and leaves the other events, and the documents of other profiles, alone.
     */
    method Drain(limit: nat) returns (processed: nat)
      requires Valid()
      modifies `events, `index
      ensures Valid() && NoOlder(old(index), index) && OnlyCurrent(old(index), source, index)
      ensures processed == (if Waiting(old(events)) < limit then Waiting(old(events)) else limit)
      ensures |events| == |old(events)|
      ensures forall k :: 0 <= k < |events| ==> events[k] == Drained(old(events), k, limit)
      ensures Waiting(events) == Waiting(old(events)) - processed
      ensures Waiting(old(events)) <= limit ==> UpToDate(source, index)
    {
      hide Inv, UpToDate, Waiting;
      processed := 0;
      var i := 0;
      NothingBefore(events);
      while i < |events| && processed < limit
        invariant 0 <= i <= |events| && |events| == |old(events)| && processed <= limit
        invariant Valid() && NoOlder(old(index), index) && OnlyCurrent(old(index), source, index)
        invariant Waiting(events) == Waiting(old(events)) - processed && processed == Waiting(old(events)[..i])
        invariant forall k :: 0 <= k < i ==>
          Waiting(old(events)[..k]) < limit && events[k] == old(events)[k].(published := true)
        invariant forall k :: i <= k < |events| ==> events[k] == old(events)[k]
      {
        WaitingOneMore(old(events), i);
        if !events[i].published {
          PublishOne(events, i);
          Refresh(i);
          processed := processed + 1;
        }
        i := i + 1;
      }
      forall k | i <= k <= |events| ensures Waiting(old(events)[..k]) >= processed {
        WaitingGrows(old(events), i, k);
      }
      assert old(events)[..|events|] == old(events);
      NoneWaiting(events);
      if Idling(events) {
        IdleMeansUpToDate(Now());
      }
    }
  }

  /** What a drain with this limit makes of the k-th event. */
  function Drained(events: seq<Event>, k: Id, limit: nat): Event
    requires k < |events|
  {
    if Waiting(events[..k]) < limit then events[k].(published := true) else events[k]
  }

  /** Every document of the index is the one from before or shows its profile as it is now. */
  predicate OnlyCurrent(before: map<Id, Doc>, source: map<Id, Profile>, after: map<Id, Doc>) {
    forall u :: u in after ==> (u in before && after[u] == before[u]) || (u in source && after[u] == source[u])
  }

  lemma WaitingOneMore(events: seq<Event>, i: Id)
    requires i < |events|
    ensures Waiting(events[..i + 1]) == Waiting(events[..i]) + if events[i].published then 0 else 1
  {
    assert events[..i + 1][..i] == events[..i];
  }

  lemma {:induction false} WaitingGrows(events: seq<Event>, i: Id, k: Id)
    requires i <= k <= |events|
    ensures Waiting(events[..i]) <= Waiting(events[..k])
  {
    if i < k {
      WaitingGrows(events, i, k - 1);
      WaitingOneMore(events, k - 1);
    }
  }

  lemma NothingBefore(events: seq<Event>)
    ensures Waiting(events[..0]) == 0
  {
  }

  lemma PublishKeeps(s: State, i: Id)
    requires Inv(s) && s.drainers == map[] && i < |s.events| && Reflected(s.index, s.events[i])
    ensures Inv(s.(events := s.events[i := s.events[i].(published := true)]))
  {
    var t := s.(events := s.events[i := s.events[i].(published := true)]);
    forall u | u in t.source ensures Announced(t.events, u, t.source[u].version) {
      assert Announced(s.events, u, s.source[u].version);
      var k :| 0 <= k < |s.events| && s.events[k].user == u && s.events[k].version == s.source[u].version;
      assert t.events[k].user == u && t.events[k].version == s.source[u].version;
    }
  }
}
